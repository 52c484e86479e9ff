/** The export loop: it resumes the event-log reader at the position the
    storage reports, feeds the records it reads into fixed-size batches, and
    forces out a partial batch when the reader times out.

    The batching block is a sequential accumulator; the batches it emits are
    what the write block hands to the storage.  The reader is given as the
    sequence of the outcomes of its calls, and the target's replies to a
    send as a sequence of booleans. */
module Exporter {
  import opened Wrappers
  import opened Items

  /** The default of Exporter:Portion. */
  const DefaultPortion: int := 10000

  /** The exporter's configuration as read: LogFolder, whether that folder
      exists, and Portion and LiveMode when they are present. */
  datatype Configuration = Configuration(logFolder: string, folderExists: bool,
                                         portion: Option<int>, liveMode: Option<bool>)

  datatype ExporterSettings = ExporterSettings(logFolder: string, portion: int, liveMode: bool)

  /** The constructor's checks and defaults. */
  function Configure(c: Configuration): (r: Result<ExporterSettings>)
    ensures r.Ok? <==> c.logFolder != "" && c.folderExists
    ensures c.logFolder == "" ==> r == Err(InvalidSettings("Event log folder is not specified"))
    ensures r.Ok? ==> r.value.logFolder == c.logFolder
    ensures r.Ok? ==> r.value.portion == (if c.portion.Some? then c.portion.value else DefaultPortion)
    ensures r.Ok? ==> r.value.liveMode == (c.liveMode.None? || c.liveMode.value)
  {
    if c.logFolder == "" then Err(InvalidSettings("Event log folder is not specified"))
    else if !c.folderExists then Err(InvalidSettings("Event log folder doesn't exist"))
    else
      Ok(ExporterSettings(c.logFolder,
                          match c.portion case Some(p) => p case None => DefaultPortion,
                          match c.liveMode case Some(l) => l case None => true))
  }

  /** Where the reader starts: no file at offset 0 when the storage holds no
      position, otherwise the stored file at the stored offset. */
  function ResumePoint(fileName: string, endPosition: int): (r: (string, int))
    ensures fileName == "" <==> r.0 == ""
    ensures fileName != "" ==> FileStem(r.0) == fileName && r.1 == endPosition
    ensures fileName == "" ==> r.1 == 0
  {
    StemOfLgpName(fileName);
    if fileName == "" then ("", 0) else (fileName + ".lgp", endPosition)
  }

  function Flatten(batches: seq<seq<EventLogItem>>): seq<EventLogItem>
  {
    if batches == [] then [] else Flatten(batches[..|batches| - 1]) + batches[|batches| - 1]
  }

  /** A batch emitted after earlier ones continues the item sequence. */
  lemma FlattenAppend(batches: seq<seq<EventLogItem>>, b: seq<EventLogItem>)
    ensures Flatten(batches + [b]) == Flatten(batches) + b
  {
    assert (batches + [b])[..|batches|] == batches;
  }

  /** BatchBlock<T>: items are gathered into batches of a fixed size; a
      trigger or completion emits the partial batch, and the firing of the
      block's cancellation token drops it. */
  class BatchBlock {
    const size: int
    var pending: seq<EventLogItem>
    var emitted: seq<seq<EventLogItem>>
    var completed: bool
    var canceled: bool

    /** Every emitted batch is non-empty and no larger than the size, and
        fewer than size items wait. */
    predicate Valid()
      reads this
    {
      size >= 1 && |pending| < size &&
      forall i :: 0 <= i < |emitted| ==> 1 <= |emitted[i]| <= size
    }

    /** The items the block has accepted, in order. */
    function Accepted(): seq<EventLogItem>
      reads this
    {
      Flatten(emitted) + pending
    }

    constructor (size: int)
      requires size >= 1
      ensures this.size == size && pending == [] && emitted == [] && !completed && !canceled
      ensures Valid()
    {
      this.size := size;
      pending := [];
      emitted := [];
      completed := false;
      canceled := false;
    }

    /** Accepts an item; the batch that reaches the size is emitted. */
    method Post(item: EventLogItem)
      requires Valid() && !completed
      modifies this`pending, this`emitted
      ensures Valid() && Accepted() == old(Accepted()) + [item]
      ensures |old(pending)| + 1 == size ==> emitted == old(emitted) + [old(pending) + [item]] && pending == []
      ensures |old(pending)| + 1 < size ==> emitted == old(emitted) && pending == old(pending) + [item]
    {
      pending := pending + [item];
      if |pending| == size {
        FlattenAppend(emitted, pending);
        emitted := emitted + [pending];
        pending := [];
      }
    }

    /** TriggerBatch: emits the partial batch, if any. */
    method TriggerBatch()
      requires Valid()
      modifies this`pending, this`emitted
      ensures Valid() && Accepted() == old(Accepted()) && pending == []
      ensures emitted == if old(pending) == [] then old(emitted) else old(emitted) + [old(pending)]
    {
      if pending != [] {
        FlattenAppend(emitted, pending);
        emitted := emitted + [pending];
        pending := [];
      }
    }

    /** Complete: emits the partial batch and declines further items. */
    method Complete()
      requires Valid()
      modifies this`pending, this`emitted, this`completed
      ensures Valid() && Accepted() == old(Accepted()) && pending == [] && completed
      ensures emitted == if old(pending) == [] then old(emitted) else old(emitted) + [old(pending)]
    {
      TriggerBatch();
      completed := true;
    }

    /** The block's cancellation token fires: the items it still holds are
        dropped unsent and the block ends Canceled. */
    method Cancel()
      requires Valid()
      modifies this`pending, this`completed, this`canceled
      ensures Valid() && pending == [] && completed && canceled && emitted == old(emitted)
    {
      pending := [];
      completed := true;
      canceled := true;
    }
  }

  /** The outcome of one call of ReadNextEventLogItem. */
  datatype ReadOutcome =
    | Read(item: EventLogItem)   // a record
    | Nothing                    // null
    | TimedOut                   // EventLogReaderTimeoutException
    | Failed(error: Error)       // any other exception
    | Stopped                    // the stopping token was cancelled

  /** The number of reads the loop performs: up to and including the first
      failure, or up to the cancellation. */
  function ReadsDone(outcomes: seq<ReadOutcome>): (n: nat)
    ensures n <= |outcomes|
  {
    if outcomes == [] || outcomes[0].Stopped? then 0
    else if outcomes[0].Failed? then 1
    else 1 + ReadsDone(outcomes[1..])
  }

  /** The records among the outcomes, in order. */
  function Forwarded(outcomes: seq<ReadOutcome>): seq<EventLogItem>
  {
    if outcomes == [] then []
    else Forwarded(outcomes[..|outcomes| - 1]) + (if outcomes[|outcomes| - 1].Read? then [outcomes[|outcomes| - 1].item] else [])
  }

  /** The first failure among the outcomes the loop performs, if any. */
  function FailureOf(outcomes: seq<ReadOutcome>): Option<Error>
  {
    var n := ReadsDone(outcomes);
    if n > 0 && outcomes[n - 1].Failed? then Some(outcomes[n - 1].error) else None
  }

  /** What the block holds after one outcome: a record joins the held
      items unless it fills a batch, which leaves; a timeout sends them. */
  function HeldStep(held: seq<EventLogItem>, outcome: ReadOutcome, size: int): seq<EventLogItem>
  {
    match outcome
    case Read(item) => if |held| + 1 == size then [] else held + [item]
    case TimedOut => []
    case _ => held
  }

  /** The records the block holds, not yet sent, after the outcomes. */
  function Held(held: seq<EventLogItem>, outcomes: seq<ReadOutcome>, size: int): seq<EventLogItem>
  {
    if outcomes == [] then held
    else HeldStep(Held(held, outcomes[..|outcomes| - 1], size), outcomes[|outcomes| - 1], size)
  }

  /** The held records are the last records forwarded, fewer than a batch:
      what a cancellation drops is a tail of what was read. */
  lemma {:induction false} HeldIsUnsentTail(held: seq<EventLogItem>, outcomes: seq<ReadOutcome>, size: int)
    requires |held| < size
    ensures var h := Held(held, outcomes, size); var f := held + Forwarded(outcomes);
      |h| < size && |h| <= |f| && h == f[|f| - |h|..]
    decreases |outcomes|
  {
    if outcomes != [] {
      var s := outcomes[..|outcomes| - 1];
      var o := outcomes[|outcomes| - 1];
      HeldIsUnsentTail(held, s, size);
      var h := Held(held, s, size);
      var f := held + Forwarded(s);
      assert held + Forwarded(outcomes) == f + (if o.Read? then [o.item] else []);
      if o.Read? && |h| + 1 != size {
        assert (f + [o.item])[|f| + 1 - |h| - 1..] == f[|f| - |h|..] + [o.item];
      }
    }
  }

  lemma {:induction false} ReadsDoneStep(outcomes: seq<ReadOutcome>, i: nat)
    requires i < |outcomes| && i < ReadsDone(outcomes)
    ensures !outcomes[i].Stopped?
    ensures outcomes[i].Failed? ==> ReadsDone(outcomes) == i + 1
  {
    if i > 0 {
      ReadsDoneStep(outcomes[1..], i - 1);
    }
  }

  lemma {:induction false} ReadsDoneGoesOn(outcomes: seq<ReadOutcome>, i: nat)
    requires i < |outcomes| && !outcomes[i].Stopped?
    requires forall j :: 0 <= j < i ==> !outcomes[j].Stopped? && !outcomes[j].Failed?
    ensures i < ReadsDone(outcomes)
  {
    if i > 0 {
      ReadsDoneGoesOn(outcomes[1..], i - 1);
    }
  }

  lemma {:induction false} ReadsDoneReached(outcomes: seq<ReadOutcome>, i: nat)
    requires i <= ReadsDone(outcomes)
    requires i == |outcomes| || outcomes[i].Stopped? || (i > 0 && outcomes[i - 1].Failed?)
    ensures ReadsDone(outcomes) == i
  {
    if i > 0 && !outcomes[0].Failed? {
      ReadsDoneReached(outcomes[1..], i - 1);
    } else if i > 0 {
      assert i == 1;
    }
  }

  /** One pass of the read loop: a record is sent to the block and a
      timeout forces the partial batch out. */
  method ForwardOne(block: BatchBlock, outcome: ReadOutcome)
    requires block.Valid() && !block.completed
    modifies block`pending, block`emitted
    ensures block.Valid() && !block.completed
    ensures block.Accepted() == old(block.Accepted()) + (if outcome.Read? then [outcome.item] else [])
    ensures block.pending == HeldStep(old(block.pending), outcome, block.size)
  {
    var forceSending := false;
    match outcome {
      case Read(item) =>
        block.Post(item);
      case TimedOut =>
        forceSending := true;
      case _ =>
    }
    if forceSending {
      block.TriggerBatch();
    }
  }

  /** The read loop up to cancellation or the first failure, which it
      returns. */
  method ForwardAll(block: BatchBlock, outcomes: seq<ReadOutcome>) returns (failure: Option<Error>)
    requires block.Valid() && !block.completed
    modifies block`pending, block`emitted
    ensures block.Valid() && !block.completed
    ensures block.Accepted() == old(block.Accepted()) + Forwarded(outcomes[..ReadsDone(outcomes)])
    ensures block.pending == Held(old(block.pending), outcomes[..ReadsDone(outcomes)], block.size)
    ensures failure == FailureOf(outcomes)
  {
    var i := 0;
    while i < |outcomes| && !outcomes[i].Stopped?
      invariant 0 <= i <= ReadsDone(outcomes)
      invariant forall j :: 0 <= j < i ==> !outcomes[j].Stopped? && !outcomes[j].Failed?
      invariant block.Valid() && !block.completed
      invariant block.Accepted() == old(block.Accepted()) + Forwarded(outcomes[..i])
      invariant block.pending == Held(old(block.pending), outcomes[..i], block.size)
      decreases |outcomes| - i
    {
      ReadsDoneGoesOn(outcomes, i);
      ReadsDoneStep(outcomes, i);
      assert outcomes[..i + 1][..i] == outcomes[..i];
      if outcomes[i].Failed? {
        assert Forwarded(outcomes[..i + 1]) == Forwarded(outcomes[..i]);
        assert Held(old(block.pending), outcomes[..i + 1], block.size) == Held(old(block.pending), outcomes[..i], block.size);
        return Some(outcomes[i].error);
      }
      ForwardOne(block, outcomes[i]);
      i := i + 1;
    }
    ReadsDoneReached(outcomes, i);
    return None;
  }

  /** The error that ends StartAsync before the read loop: the position
      read's, else the reader construction's. */
  function SetupFailure(position: Result<(string, int)>, construction: Outcome): (r: Option<Error>)
    ensures r.None? <==> position.Ok? && construction.Pass?
    ensures position.Err? ==> r == Some(position.error)
    ensures position.Ok? && construction.Fail? ==> r == Some(construction.error)
  {
    if position.Err? then Some(position.error)
    else if construction.Fail? then Some(construction.error)
    else None
  }

  /** The read loop of StartAsync and how it ends: the first read failure
      completes the block and is rethrown; the stopping token cancels the
      block, dropping what it holds, and ends the run with
      TaskCanceledException. */
  method ExportLoop(block: BatchBlock, outcomes: seq<ReadOutcome>) returns (o: Outcome)
    requires block.Valid() && !block.completed && !block.canceled && block.pending == [] && block.emitted == []
    modifies block`pending, block`emitted, block`completed, block`canceled
    ensures block.Valid() && block.completed && block.pending == []
    ensures var n := ReadsDone(outcomes);
      FailureOf(outcomes).Some? ==>
        o == Fail(FailureOf(outcomes).value) && !block.canceled &&
        Flatten(block.emitted) == Forwarded(outcomes[..n])
    ensures var n := ReadsDone(outcomes);
      FailureOf(outcomes).None? ==>
        o == Fail(RequestCanceled) && block.canceled &&
        Flatten(block.emitted) + Held([], outcomes[..n], block.size) == Forwarded(outcomes[..n])
  {
    assert block.Accepted() == [];
    var failure := ForwardAll(block, outcomes);
    ghost var read := Forwarded(outcomes[..ReadsDone(outcomes)]);
    assert Flatten(block.emitted) + block.pending == read;
    if failure.Some? {
      block.Complete();
      assert Flatten(block.emitted) + [] == read;
      return Fail(failure.value);
    }
    ghost var held := block.pending;
    block.Cancel();
    assert Flatten(block.emitted) + held == read;
    return Fail(RequestCanceled);
  }

  class EventLogExporter {
    const settings: ExporterSettings
    var readerStart: (string, int)
    var batchBlock: BatchBlock?

    constructor (settings: ExporterSettings)
      ensures this.settings == settings && batchBlock == null
    {
      this.settings := settings;
      readerStart := ("", 0);
      batchBlock := null;
    }

    /** SendAsync: offers the item until the target accepts it; replies are
        the target's answers, of which some is an acceptance. */
    method SendAsync(block: BatchBlock, item: EventLogItem, replies: seq<bool>)
      requires block.Valid() && !block.completed
      requires exists i :: 0 <= i < |replies| && replies[i]
      modifies block`pending, block`emitted
      ensures block.Valid() && block.Accepted() == old(block.Accepted()) + [item]
    {
      var i := 0;
      while i < |replies|
        invariant 0 <= i <= |replies|
        invariant forall j :: 0 <= j < i ==> !replies[j]
        invariant block.Accepted() == old(block.Accepted()) && block.pending == old(block.pending)
        invariant block.emitted == old(block.emitted)
      {
        if replies[i] {
          block.Post(item);
          return;
        }
        i := i + 1;
      }
    }

    /** StartAsync: position is the storage's answer (file name and offset),
        construction the outcome of constructing the event-log reader at the
        resume point (EventLogReader.Open: a missing 1Cv8.lgf or a failed
        first scan throws), and outcomes the results of the reader's calls.
        The method never returns normally.  A failed position read or
        construction is rethrown with the block left open; a cancelled one
        cancels the block.  Records go to the batch block in read order and
        a timeout forces the partial batch out.  The first read failure
        completes the block, which sends what it holds, and is rethrown.
        The loop otherwise ends only when the stopping token fires (or the
        outcomes run out): the token-bound block drops the records it still
        holds, and awaiting the write block throws TaskCanceledException. */
    method StartAsync(position: Result<(string, int)>, construction: Outcome, outcomes: seq<ReadOutcome>)
      returns (o: Outcome)
      modifies this`readerStart, this`batchBlock
      ensures o.Fail?
      ensures settings.portion < 1 ==> batchBlock == old(batchBlock)
      ensures settings.portion >= 1 ==>
        fresh(batchBlock) && batchBlock.Valid() && batchBlock.size == settings.portion && batchBlock.pending == []
      ensures settings.portion >= 1 && position.Ok? ==>
        readerStart == ResumePoint(position.value.0, position.value.1)
      // a failed set-up is rethrown before the block is used; a cancelled one cancels it
      ensures var f := SetupFailure(position, construction);
        settings.portion >= 1 && f.Some? ==>
          o == Fail(f.value) && batchBlock.emitted == [] &&
          batchBlock.completed == batchBlock.canceled == (f.value == RequestCanceled)
      // a read failure completes the block, which sends every record read
      ensures var n := ReadsDone(outcomes);
        settings.portion >= 1 && SetupFailure(position, construction).None? && FailureOf(outcomes).Some? ==>
          o == Fail(FailureOf(outcomes).value) && batchBlock.completed && !batchBlock.canceled &&
          Flatten(batchBlock.emitted) == Forwarded(outcomes[..n])
      // cancellation drops the records the block still holds
      ensures var n := ReadsDone(outcomes);
        settings.portion >= 1 && SetupFailure(position, construction).None? && FailureOf(outcomes).None? ==>
          o == Fail(RequestCanceled) && batchBlock.completed && batchBlock.canceled &&
          Flatten(batchBlock.emitted) + Held([], outcomes[..n], settings.portion) == Forwarded(outcomes[..n])
    {
      if settings.portion < 1 {
        return Fail(InvalidSettings("batchSize"));
      }
      var block := new BatchBlock(settings.portion);
      batchBlock := block;
      if position.Err? {
        if position.error == RequestCanceled {
          block.Cancel();
        }
        return Fail(position.error);
      }
      var (fileName, endPosition) := position.value;
      readerStart := ResumePoint(fileName, endPosition);
      if construction.Fail? {
        if construction.error == RequestCanceled {
          block.Cancel();
        }
        return Fail(construction.error);
      }
      o := ExportLoop(block, outcomes);
    }
  }
}
