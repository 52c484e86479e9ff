/** The event-log reader: it owns the shared reference reader and one data
    file reader at a time, numbers the records it returns, and moves on to
    the next data file by last-write time when the current one is exhausted.

    The log folder is given as its listing of *.lgp files; a path is the name
    of a file inside the folder.  The waits of live mode are given as the
    sequence of their outcomes. */
module EventLogReaderModel {
  import opened Wrappers
  import opened Nodes
  import opened Items
  import opened LgfReaderModel
  import opened LgpReaderModel

  /** One *.lgp file: its name, its last-write time in ticks, its content. */
  datatype LgpFile = LgpFile(path: string, lastWrite: int, content: DataFile)

  /** Directory.GetFiles: each name at most once, and no empty name. */
  predicate WellFormedListing(d: seq<LgpFile>)
  {
    (forall i, j :: 0 <= i < j < |d| ==> d[i].path != d[j].path) &&
    (forall i :: 0 <= i < |d| ==> d[i].path != "")
  }

  type Listing = d: seq<LgpFile> | WellFormedListing(d) witness []

  /** DateTime.MinValue in ticks. */
  const MinValueTicks: int := 0

  /** FileInfo.LastWriteTime of a file that does not exist: 1601-01-01. */
  const MissingFileTicks: int := 504911232000000000

  /** The content of a file, None when it is not listed. */
  function FileOf(d: seq<LgpFile>, path: string): (r: Option<DataFile>)
    ensures r.Some? <==> exists k :: 0 <= k < |d| && d[k].path == path
  {
    if d == [] then None
    else if d[0].path == path then Some(d[0].content)
    else FileOf(d[1..], path)
  }

  /** new FileInfo(path).LastWriteTime. */
  function LastWriteOf(d: seq<LgpFile>, path: string): int
  {
    if d == [] then MissingFileTicks
    else if d[0].path == path then d[0].lastWrite
    else LastWriteOf(d[1..], path)
  }

  lemma {:induction false} LastWriteOfListed(d: seq<LgpFile>, k: nat)
    requires WellFormedListing(d) && k < |d|
    ensures LastWriteOf(d, d[k].path) == d[k].lastWrite
  {
    if k > 0 {
      assert d[1..][k - 1] == d[k];
      LastWriteOfListed(d[1..], k - 1);
    }
  }

  /** The last-write time the selection compares against: that of the open
      file, or MinValue when no file is open. */
  function CurrentTime(d: seq<LgpFile>, current: Option<string>): int
  {
    if current.None? then MinValueTicks else LastWriteOf(d, current.value)
  }

  // ----- choosing the next data file ---------------------------------------

  /** An element of the list the selection sorts: a file name and its time. */
  datatype Candidate = Candidate(path: string, time: int)

  /** The listed files other than the open one, in listing order. */
  function Candidates(d: seq<LgpFile>, current: Option<string>): (r: seq<Candidate>)
    ensures |r| <= |d|
  {
    if d == [] then []
    else
      var f := d[|d| - 1];
      Candidates(d[..|d| - 1], current) + (if current == Some(f.path) then [] else [Candidate(f.path, f.lastWrite)])
  }

  /** Every candidate is a listed file other than the open one, and every
      listed file other than the open one is a candidate. */
  lemma {:induction false} CandidatesAreTheOtherFiles(d: seq<LgpFile>, current: Option<string>)
    ensures forall x :: x in Candidates(d, current) ==>
      current != Some(x.path) && exists k :: 0 <= k < |d| && d[k].path == x.path && d[k].lastWrite == x.time
    ensures forall k :: 0 <= k < |d| && current != Some(d[k].path) ==>
      Candidate(d[k].path, d[k].lastWrite) in Candidates(d, current)
  {
    if d != [] {
      var p := d[..|d| - 1];
      CandidatesAreTheOtherFiles(p, current);
      forall x | x in Candidates(d, current)
        ensures current != Some(x.path) && exists k :: 0 <= k < |d| && d[k].path == x.path && d[k].lastWrite == x.time
      {
        if x in Candidates(p, current) {
          var k :| 0 <= k < |p| && p[k].path == x.path && p[k].lastWrite == x.time;
          assert d[k] == p[k];
        } else {
          assert d[|d| - 1].path == x.path && d[|d| - 1].lastWrite == x.time;
        }
      }
      forall k | 0 <= k < |d| && current != Some(d[k].path)
        ensures Candidate(d[k].path, d[k].lastWrite) in Candidates(d, current)
      {
        if k < |d| - 1 {
          assert d[k] == p[k];
        }
      }
    }
  }

  predicate SortedByTime(s: seq<Candidate>)
  {
    forall i, j :: 0 <= i < j < |s| ==> s[i].time <= s[j].time
  }

  /** Places x after every element whose time is not later than its own. */
  function Insert(s: seq<Candidate>, x: Candidate): (r: seq<Candidate>)
    ensures |r| == |s| + 1
  {
    if s == [] || s[|s| - 1].time <= x.time then s + [x]
    else Insert(s[..|s| - 1], x) + [s[|s| - 1]]
  }

  /** OrderBy(c => c.time): a stable sort by time. */
  function SortByTime(c: seq<Candidate>): (r: seq<Candidate>)
    ensures |r| == |c|
  {
    if c == [] then [] else Insert(SortByTime(c[..|c| - 1]), c[|c| - 1])
  }

  lemma {:induction false} InsertPermutes(s: seq<Candidate>, x: Candidate)
    ensures multiset(Insert(s, x)) == multiset(s) + multiset{x}
  {
    if !(s == [] || s[|s| - 1].time <= x.time) {
      var p := s[..|s| - 1];
      InsertPermutes(p, x);
      assert s == p + [s[|s| - 1]];
    }
  }

  lemma {:induction false} InsertKeepsSorted(s: seq<Candidate>, x: Candidate)
    requires SortedByTime(s)
    ensures SortedByTime(Insert(s, x))
  {
    if s == [] || s[|s| - 1].time <= x.time {
    } else {
      var p := s[..|s| - 1];
      var last := s[|s| - 1];
      InsertKeepsSorted(p, x);
      InsertPermutes(p, x);
      var q := Insert(p, x);
      forall i | 0 <= i < |q| ensures q[i].time <= last.time {
        assert q[i] in multiset(q);
        if q[i] != x {
          assert q[i] in multiset(p);
          var k :| 0 <= k < |p| && p[k] == q[i];
          assert s[k] == p[k];
        }
      }
    }
  }

  /** The sort returns its input, in ascending order of time. */
  lemma {:induction false} SortByTimeSortsAndPermutes(c: seq<Candidate>)
    ensures SortedByTime(SortByTime(c))
    ensures multiset(SortByTime(c)) == multiset(c)
  {
    if c != [] {
      var p := c[..|c| - 1];
      SortByTimeSortsAndPermutes(p);
      InsertKeepsSorted(SortByTime(p), c[|c| - 1]);
      InsertPermutes(SortByTime(p), c[|c| - 1]);
      assert c == p + [c[|c| - 1]];
    }
  }

  /** FirstOrDefault(c => c.time > t), None for the default. */
  function FirstNewer(s: seq<Candidate>, t: int): (r: Option<Candidate>)
    ensures r.Some? ==> r.value in s && r.value.time > t
  {
    if s == [] then None
    else if s[0].time > t then Some(s[0])
    else FirstNewer(s[1..], t)
  }

  lemma {:induction false} FirstNewerAppend(s: seq<Candidate>, u: seq<Candidate>, t: int)
    ensures FirstNewer(s + u, t) == if FirstNewer(s, t).Some? then FirstNewer(s, t) else FirstNewer(u, t)
  {
    if s != [] {
      assert (s + u)[1..] == s[1..] + u;
      FirstNewerAppend(s[1..], u, t);
    } else {
      assert s + u == u;
    }
  }

  /** x replaces the best so far only when it is newer than t and strictly
      earlier than the best so far. */
  function Better(best: Option<Candidate>, x: Candidate, t: int): Option<Candidate>
  {
    if x.time > t && (best.None? || x.time < best.value.time) then Some(x) else best
  }

  /** The reference choice: the earliest candidate newer than t, the first in
      listing order among equal times. */
  function EarliestNewer(c: seq<Candidate>, t: int): Option<Candidate>
  {
    if c == [] then None else Better(EarliestNewer(c[..|c| - 1], t), c[|c| - 1], t)
  }

  lemma {:induction false} FirstNewerOfInsert(s: seq<Candidate>, x: Candidate, t: int)
    requires SortedByTime(s)
    ensures FirstNewer(Insert(s, x), t) == Better(FirstNewer(s, t), x, t)
  {
    if s == [] {
    } else if s[|s| - 1].time <= x.time {
      FirstNewerAppend(s, [x], t);
      if FirstNewer(s, t).Some? {
        var y := FirstNewer(s, t).value;
        var k :| 0 <= k < |s| && s[k] == y;
      }
    } else {
      var p := s[..|s| - 1];
      var last := s[|s| - 1];
      assert s == p + [last];
      FirstNewerOfInsert(p, x, t);
      FirstNewerAppend(Insert(p, x), [last], t);
      FirstNewerAppend(p, [last], t);
    }
  }

  /** Sorting stably and taking the first newer file picks the earliest
      newer file, and among files of equal time the first listed. */
  lemma {:induction false} SelectionIsEarliestNewer(c: seq<Candidate>, t: int)
    ensures FirstNewer(SortByTime(c), t) == EarliestNewer(c, t)
  {
    if c != [] {
      var p := c[..|c| - 1];
      SelectionIsEarliestNewer(p, t);
      SortByTimeSortsAndPermutes(p);
      FirstNewerOfInsert(SortByTime(p), c[|c| - 1], t);
    }
  }

  /** Candidate i is newer than t, no newer candidate is earlier, and every
      earlier-listed candidate of the same time is older than t. */
  predicate FirstEarliestNewer(c: seq<Candidate>, t: int, i: int)
  {
    0 <= i < |c| && c[i].time > t &&
    (forall j :: 0 <= j < |c| && c[j].time > t ==> c[i].time <= c[j].time) &&
    (forall j :: 0 <= j < i && c[j].time > t ==> c[i].time < c[j].time)
  }

  /** No file is chosen exactly when no candidate is newer than t. */
  lemma {:induction false} EarliestNewerNone(c: seq<Candidate>, t: int)
    ensures EarliestNewer(c, t).None? <==> forall j :: 0 <= j < |c| ==> c[j].time <= t
  {
    if c != [] {
      var p := c[..|c| - 1];
      EarliestNewerNone(p, t);
      if EarliestNewer(c, t).None? {
        forall j | 0 <= j < |c| ensures c[j].time <= t {
          if j < |p| {
            assert c[j] == p[j];
          }
        }
      }
    }
  }

  /** The chosen candidate is newer than t, no newer candidate is earlier,
      and it is the first listed among the newer ones of its time. */
  lemma {:induction false} EarliestNewerMeaning(c: seq<Candidate>, t: int)
    ensures EarliestNewer(c, t).Some? ==>
      exists i :: FirstEarliestNewer(c, t, i) && c[i] == EarliestNewer(c, t).value
  {
    if c != [] {
      var p := c[..|c| - 1];
      var x := c[|c| - 1];
      EarliestNewerMeaning(p, t);
      var m := EarliestNewer(p, t);
      if m.Some? {
        var i :| FirstEarliestNewer(p, t, i) && p[i] == m.value;
        if x.time > t && x.time < m.value.time {
          LastIsFirstEarliest(c, t, i);
        } else {
          ExtendFirstEarliest(c, t, i);
        }
      } else if x.time > t {
        EarliestNewerNone(p, t);
        forall j | 0 <= j < |p| ensures c[j].time <= t {
          assert c[j] == p[j];
        }
        assert FirstEarliestNewer(c, t, |c| - 1);
      }
    }
  }

  lemma LastIsFirstEarliest(c: seq<Candidate>, t: int, i: int)
    requires c != [] && FirstEarliestNewer(c[..|c| - 1], t, i)
    requires c[|c| - 1].time > t && c[|c| - 1].time < c[i].time
    ensures FirstEarliestNewer(c, t, |c| - 1)
  {
    var p := c[..|c| - 1];
    forall j | 0 <= j < |c| - 1 && c[j].time > t ensures c[|c| - 1].time < c[j].time {
      assert c[j] == p[j];
    }
  }

  lemma ExtendFirstEarliest(c: seq<Candidate>, t: int, i: int)
    requires c != [] && FirstEarliestNewer(c[..|c| - 1], t, i)
    requires !(c[|c| - 1].time > t && c[|c| - 1].time < c[i].time)
    ensures FirstEarliestNewer(c, t, i)
  {
    var p := c[..|c| - 1];
    assert c[i] == p[i];
    forall j | 0 <= j < |c| && c[j].time > t ensures c[i].time <= c[j].time {
      if j < |p| {
        assert c[j] == p[j];
      }
    }
    forall j | 0 <= j < i && c[j].time > t ensures c[i].time < c[j].time {
      assert c[j] == p[j];
    }
  }

  /** SetNextLgpReader's choice in the listing d while current is open. */
  function NextFile(d: seq<LgpFile>, current: Option<string>): Option<Candidate>
  {
    FirstNewer(SortByTime(Candidates(d, current)), CurrentTime(d, current))
  }

  /** The number of listed files newer than t. */
  function CountNewer(d: seq<LgpFile>, t: int): nat
  {
    if d == [] then 0 else CountNewer(d[1..], t) + (if d[0].lastWrite > t then 1 else 0)
  }

  lemma {:induction false} CountNewerMonotone(d: seq<LgpFile>, t: int, u: int)
    requires t <= u
    ensures CountNewer(d, u) <= CountNewer(d, t)
  {
    if d != [] {
      CountNewerMonotone(d[1..], t, u);
    }
  }

  lemma {:induction false} CountNewerDrops(d: seq<LgpFile>, t: int, k: nat)
    requires k < |d| && d[k].lastWrite > t
    ensures CountNewer(d, d[k].lastWrite) < CountNewer(d, t)
  {
    if k == 0 {
      CountNewerMonotone(d[1..], t, d[0].lastWrite);
    } else {
      assert d[1..][k - 1] == d[k];
      CountNewerDrops(d[1..], t, k - 1);
    }
  }

  /** A switch moves to a listed file strictly newer than the open one, so
      fewer files remain newer than the open one. */
  lemma SwitchMovesForward(d: seq<LgpFile>, current: Option<string>)
    requires WellFormedListing(d) && NextFile(d, current).Some?
    ensures var x := NextFile(d, current).value;
      current != Some(x.path) && x.time > CurrentTime(d, current) &&
      LastWriteOf(d, x.path) == x.time &&
      CountNewer(d, x.time) < CountNewer(d, CurrentTime(d, current))
  {
    var c := Candidates(d, current);
    var x := NextFile(d, current).value;
    SortByTimeSortsAndPermutes(c);
    assert x in multiset(SortByTime(c));
    CandidatesAreTheOtherFiles(d, current);
    var k :| 0 <= k < |d| && d[k].path == x.path && d[k].lastWrite == x.time;
    LastWriteOfListed(d, k);
    CountNewerDrops(d, CurrentTime(d, current), k);
  }

  /** One read of the data file reader as the event-log reader makes it:
      the listing it sees, the file read, the reader's state before the read,
      the reference file it sees and the reference reader's cursor at that time. */
  datatype ReadAt = ReadAt(listing: Listing, path: string, open: bool, cursor: nat, lastPosition: int,
                           lgfFile: seq<RefNode>, lgfAt: Cursor)

  /** The record that read yields. */
  function RecordAt(a: ReadAt): RecordRead
  {
    NextRecord(FileOf(a.listing, a.path), a.open, a.cursor, a.lastPosition)
  }

  /** The read that follows an exhausted read in archive mode: the next
      file of the listing, from its start, with the reference reader unchanged. */
  function NextRead(listing: Listing, a: ReadAt): ReadAt
    requires NextFile(listing, Some(a.path)).Some?
  {
    ReadAt(listing, NextFile(listing, Some(a.path)).value.path, false, 0, 0, a.lgfFile, a.lgfAt)
  }

  /** In archive mode b is the read that follows the exhausted read a. */
  predicate Follows(listing: Listing, a: ReadAt, b: ReadAt)
  {
    NextFile(listing, Some(a.path)).Some? && b == NextRead(listing, a)
  }

  /** Each read of the trail but the last is followed by the next one. */
  ghost predicate ArchiveChain(listing: Listing, trail: seq<ReadAt>)
  {
    forall i, j {:trigger Follows(listing, trail[i], trail[j])} | 0 <= i < j < |trail| && j == i + 1 ::
      Follows(listing, trail[i], trail[j])
  }

  /** The read a finds its file exhausted. */
  predicate ExhaustedAt(a: ReadAt)
  {
    RecordAt(a).data == ""
  }

  /** Every read of the trail found its file exhausted. */
  ghost predicate Exhausted(trail: seq<ReadAt>)
  {
    forall k {:trigger ExhaustedAt(trail[k])} | 0 <= k < |trail| :: ExhaustedAt(trail[k])
  }

  lemma ExhaustedExtend(trail: seq<ReadAt>, a: ReadAt)
    requires Exhausted(trail) && ExhaustedAt(a)
    ensures Exhausted(trail + [a])
  {
  }

  lemma ArchiveChainExtend(listing: Listing, trail: seq<ReadAt>, a: ReadAt)
    requires ArchiveChain(listing, trail)
    requires trail != [] ==> Follows(listing, trail[|trail| - 1], a)
    ensures ArchiveChain(listing, trail + [a])
  {
  }

  /** The archive loop so far: trail, begun at first, holds exhausted
      reads, and with next forms a chain. */
  ghost predicate ArchiveSoFar(listing: Listing, first: ReadAt, trail: seq<ReadAt>, next: ReadAt)
  {
    ArchiveChain(listing, trail + [next]) && Exhausted(trail) && (trail + [next])[0] == first
  }

  /** An exhausted read a followed by the read of the next file joins the trail. */
  lemma ArchiveStep(listing: Listing, first: ReadAt, trail: seq<ReadAt>, a: ReadAt)
    requires ArchiveSoFar(listing, first, trail, a) && ExhaustedAt(a) && NextFile(listing, Some(a.path)).Some?
    ensures ArchiveSoFar(listing, first, trail + [a], NextRead(listing, a))
  {
    ArchiveChainExtend(listing, trail + [a], NextRead(listing, a));
    ExhaustedExtend(trail, a);
    assert (trail + [a] + [NextRead(listing, a)])[0] == (trail + [a])[0];
  }

  /** The read a that ends the archive loop with r ends the trail. */
  lemma ArchiveEnd(listing: Listing, first: ReadAt, trail: seq<ReadAt>, a: ReadAt, r: Result<Option<EventLogItem>>,
                   parse: string -> Option<Node>, usable: bool)
    requires ArchiveSoFar(listing, first, trail, a) && ReadOutcome(a, r, parse, usable) && r != Err(ReaderTimeout)
    ensures (trail + [a])[0] == first && ArchiveChain(listing, trail + [a]) && TrailEnds(trail + [a], r, parse, usable)
  {
    assert (trail + [a])[..|trail|] == trail;
  }

  /** item, apart from its number, is the record read a yields, mapped as
      the data file reader maps it, with the file stem as its file name. */
  predicate YieldedBy(item: EventLogItem, a: ReadAt, parse: string -> Option<Node>)
  {
    ItemOf(item.(id := 0), RecordAt(a), parse, FileStem(a.path), a.lgfFile, a.lgfAt)
  }

  /** Any record res holds is one read a yields. */
  ghost predicate Yields(res: Result<Option<EventLogItem>>, a: ReadAt, parse: string -> Option<Node>)
  {
    forall item {:trigger YieldedBy(item, a, parse)} | res == Ok(Some(item)) :: YieldedBy(item, a, parse)
  }

  /** The data file reader can make read a: its file is open, or listed. */
  predicate Openable(a: ReadAt)
  {
    a.open || FileOf(a.listing, a.path).Some?
  }

  /** The record read a yields maps to an item. */
  predicate MapsAt(a: ReadAt, parse: string -> Option<Node>)
  {
    Mappable(RecordAt(a), parse, a.lgfFile, a.lgfAt)
  }

  /** The data file reader r stands where read a leaves it: open on the
      same file, after the record a read. */
  predicate LeftAfter(r: LgpReader, a: ReadAt)
    reads r
  {
    r.lgpPath == a.path && r.isOpen && r.cursor == RecordAt(a).cursor && r.lastPosition == RecordAt(a).lastPosition
  }

  /** res is what read a gives: nothing only at the end of its file, a
      record only one it yields, FileNotFound when its file is neither open
      nor listed, and, with a usable reference reader, a record exactly
      when the record read maps. */
  ghost predicate ReadOutcome(a: ReadAt, res: Result<Option<EventLogItem>>, parse: string -> Option<Node>, usable: bool)
  {
    (res == Ok(None) ==> ExhaustedAt(a)) &&
    Yields(res, a, parse) &&
    (!Openable(a) ==> res == Err(FileNotFound(a.path))) &&
    (usable && Openable(a) ==> (res.Ok? && res.value.Some? <==> MapsAt(a, parse)))
  }

  /** How the reads of trail end in r: every read but the last found its
      file exhausted, and r is the outcome of the last one, where nothing
      and a timeout both follow a read that found its file exhausted. */
  ghost predicate TrailEnds(trail: seq<ReadAt>, r: Result<Option<EventLogItem>>, parse: string -> Option<Node>,
                            usable: bool)
  {
    trail != [] ==>
      Exhausted(trail[..|trail| - 1]) &&
      ReadOutcome(trail[|trail| - 1], r, parse, usable) &&
      (r == Ok(None) || r == Err(ReaderTimeout) ==> ExhaustedAt(trail[|trail| - 1]))
  }

  /** Numbering a record leaves what it was read from unchanged. */
  lemma Renumbered(found: Result<Option<EventLogItem>>, id: int, a: ReadAt, parse: string -> Option<Node>)
    requires found.Ok? && found.value.Some? && Yields(found, a, parse)
    ensures Yields(Ok(Some(found.value.value.(id := id))), a, parse)
  {
    assert YieldedBy(found.value.value, a, parse);
    assert found.value.value.(id := id).(id := 0) == found.value.value.(id := 0);
  }

  /** Numbering the record a trail ends in keeps how the trail ends. */
  lemma RenumberedEnds(trail: seq<ReadAt>, found: Result<Option<EventLogItem>>, id: int,
                       parse: string -> Option<Node>, usable: bool)
    requires trail != [] && found.Ok? && found.value.Some? && TrailEnds(trail, found, parse, usable)
    ensures TrailEnds(trail, Ok(Some(found.value.value.(id := id))), parse, usable)
  {
    Renumbered(found, id, trail[|trail| - 1], parse);
  }

  /** The outcome of one wait of live mode. */
  datatype Wait =
    | Signalled(listing: Listing, lgfFile: Option<seq<RefNode>>)  // a data file was created or changed
    | CancelRequested                                             // the cancellation token fired
    | TimedOut                                                    // the reading timeout elapsed

  /** The last of the first used waits ran out of time. */
  predicate LastTimedOut(waits: seq<Wait>, used: nat)
  {
    0 < used <= |waits| && waits[used - 1].TimedOut?
  }

  /** After wait o the loop reads on: a file changed, or a wait without a
      finite timeout returned. */
  predicate GoesOn(o: Wait, finite: bool)
  {
    o.Signalled? || (o.TimedOut? && !finite)
  }

  /** The read that follows the exhausted read a after wait o: the same
      file from where a left it, in the listing and reference file the wait
      delivered, with the reference reader unchanged. */
  function AfterWait(a: ReadAt, o: Wait): ReadAt
  {
    ReadAt(if o.Signalled? then o.listing else a.listing, a.path, true, RecordAt(a).cursor, RecordAt(a).lastPosition,
           if o.Signalled? then LgfReaderModel.Contents(o.lgfFile) else a.lgfFile, a.lgfAt)
  }

  /** In live mode b, made after m' waits, follows the exhausted read a,
      made after m: the next file when a newer one is listed, otherwise the
      same file after the next wait. */
  predicate LiveFollows(waits: seq<Wait>, finite: bool, a: ReadAt, m: nat, b: ReadAt, m': nat)
  {
    if NextFile(a.listing, Some(a.path)).Some? then m' == m && b == NextRead(a.listing, a)
    else m < |waits| && m' == m + 1 && GoesOn(waits[m], finite) && b == AfterWait(a, waits[m])
  }

  /** marks[i] waits precede read trail[i], and each read but the last is
      followed by the next one. */
  ghost predicate Linked(waits: seq<Wait>, finite: bool, trail: seq<ReadAt>, marks: seq<nat>)
  {
    |marks| == |trail| &&
    forall i, j {:trigger LiveFollows(waits, finite, trail[i], marks[i], trail[j], marks[j])}
      | 0 <= i < j < |trail| && j == i + 1 :: LiveFollows(waits, finite, trail[i], marks[i], trail[j], marks[j])
  }

  /** The reads of live mode: linked, the first made before any wait. */
  ghost predicate LiveChain(waits: seq<Wait>, finite: bool, trail: seq<ReadAt>, marks: seq<nat>)
  {
    Linked(waits, finite, trail, marks) && (trail != [] ==> marks[0] == 0)
  }

  lemma LiveChainExtend(waits: seq<Wait>, finite: bool, trail: seq<ReadAt>, marks: seq<nat>, a: ReadAt, m: nat)
    requires LiveChain(waits, finite, trail, marks)
    requires trail == [] ==> m == 0
    requires trail != [] ==> LiveFollows(waits, finite, trail[|trail| - 1], marks[|trail| - 1], a, m)
    ensures LiveChain(waits, finite, trail + [a], marks + [m])
  {
  }

  /** A read of the next file follows an exhausted read when a newer file is listed. */
  lemma SwitchLinks(waits: seq<Wait>, finite: bool, a: ReadAt, m: nat, b: ReadAt)
    requires NextFile(a.listing, Some(a.path)).Some? && b == NextRead(a.listing, a)
    ensures Linked(waits, finite, [a, b], [m, m])
  {
    assert LiveFollows(waits, finite, [a, b][0], [m, m][0], [a, b][1], [m, m][1]);
  }

  /** Reading on after the next wait follows an exhausted read when no newer file is listed. */
  lemma WaitLinks(waits: seq<Wait>, finite: bool, a: ReadAt, m: nat, b: ReadAt)
    requires NextFile(a.listing, Some(a.path)).None? && m < |waits| && GoesOn(waits[m], finite)
    requires b == AfterWait(a, waits[m])
    ensures Linked(waits, finite, [a, b], [m, m + 1])
  {
    assert LiveFollows(waits, finite, [a, b][0], [m, m + 1][0], [a, b][1], [m, m + 1][1]);
  }

  /** The live loop so far: trail, begun at first, holds exhausted reads,
      and with next, made after w waits, forms a chain. */
  ghost predicate LiveSoFar(waits: seq<Wait>, finite: bool, first: ReadAt, trail: seq<ReadAt>, marks: seq<nat>,
                            next: ReadAt, w: nat)
  {
    LiveChain(waits, finite, trail + [next], marks + [w]) && Exhausted(trail) && (trail + [next])[0] == first
  }

  /** An exhausted read at that the loop goes on from joins the trail. */
  lemma LiveStep(waits: seq<Wait>, finite: bool, first: ReadAt, trail: seq<ReadAt>, marks: seq<nat>,
                 at: ReadAt, w: nat, next: ReadAt, w': nat)
    requires LiveSoFar(waits, finite, first, trail, marks, at, w) && ExhaustedAt(at)
    requires Linked(waits, finite, [at, next], [w, w'])
    ensures LiveSoFar(waits, finite, first, trail + [at], marks + [w], next, w')
  {
    assert LiveFollows(waits, finite, [at, next][0], [w, w'][0], [at, next][1], [w, w'][1]);
    LiveChainExtend(waits, finite, trail + [at], marks + [w], next, w');
    ExhaustedExtend(trail, at);
    assert (trail + [at] + [next])[0] == (trail + [at])[0];
  }

  /** How the live loop ended: its reads form a chain, the last one gives
      res, and used waits were consumed, the last read's or one more. */
  ghost predicate LiveEnded(waits: seq<Wait>, finite: bool, trail: seq<ReadAt>, marks: seq<nat>, used: nat,
                            res: Result<Option<EventLogItem>>, parse: string -> Option<Node>, usable: bool)
  {
    LiveChain(waits, finite, trail, marks) && TrailEnds(trail, res, parse, usable) &&
    (trail != [] ==> marks[|trail| - 1] <= used <= marks[|trail| - 1] + 1)
  }

  /** The read at that ends the loop with res, after w waits of which used
      in all, ends the trail. */
  lemma LiveEnd(waits: seq<Wait>, finite: bool, first: ReadAt, trail: seq<ReadAt>, marks: seq<nat>,
                at: ReadAt, w: nat, used: nat, res: Result<Option<EventLogItem>>, parse: string -> Option<Node>,
                usable: bool)
    requires LiveSoFar(waits, finite, first, trail, marks, at, w) && w <= used <= w + 1
    requires ReadOutcome(at, res, parse, usable) && (res == Ok(None) || res == Err(ReaderTimeout) ==> ExhaustedAt(at))
    ensures (trail + [at])[0] == first
    ensures LiveEnded(waits, finite, trail + [at], marks + [w], used, res, parse, usable)
  {
    assert (trail + [at])[..|trail|] == trail;
  }

  class EventLogReader {
    const liveMode: bool
    const readingTimeout: Timeout
    const lgf: LgfReader
    var itemId: int
    var lgp: LgpReader?
    var disposed: bool

    /** The data file reader shares the reference reader. */
    predicate Valid()
      reads this
    {
      lgp != null ==> lgp.lgf == lgf
    }

    function OpenPath(): (r: Option<string>)
      reads this
      ensures r.Some? <==> lgp != null
    {
      if lgp == null then None else Some(lgp.lgpPath)
    }

    /** LgpFileName: the stem of the open file; no open file throws. */
    function LgpFileName(): (r: Result<string>)
      reads this
      ensures r.Ok? <==> lgp != null
      ensures r.Ok? ==> r.value == Items.FileStem(lgp.lgpPath)
    {
      if lgp == null then Err(NullReference) else Ok(lgp.LgpFileName())
    }

    constructor (settings: ReaderSettings, lgf: LgfReader)
      ensures liveMode == settings.liveMode && readingTimeout == settings.readingTimeout
      ensures this.lgf == lgf && itemId == settings.itemId && lgp == null && !disposed
      ensures Valid()
    {
      liveMode := settings.liveMode;
      readingTimeout := settings.readingTimeout;
      this.lgf := lgf;
      itemId := settings.itemId;
      lgp := null;
      disposed := false;
    }

    /** The constructor: seeds the reference reader at LgfStartPosition and,
        when a data file is named, opens it at LgpStartPosition. */
    static method Open(settings: ReaderSettings, lgfFile: Option<seq<RefNode>>, listing: Listing)
      returns (r: Result<EventLogReader>)
      ensures r.Ok? ==> fresh(r.value) && fresh(r.value.lgf) && r.value.Valid()
      ensures r.Ok? ==> r.value.lgf.isOpen && !r.value.lgf.disposed
      ensures r.Ok? ==> r.value.itemId == settings.itemId && r.value.liveMode == settings.liveMode
      ensures r.Ok? ==> (r.value.lgf.Cur() ==
        Scan(LgfReaderModel.Contents(lgfFile), Cursor(0, 0, Tables(map[], map[])),
             Query(Items.None, 0, settings.lgfStartPosition)).cursor)
      ensures r.Ok? ==> (r.value.lgp == null <==> settings.lgpFileName == "")
      ensures r.Ok? && r.value.lgp != null ==>
        fresh(r.value.lgp) && r.value.lgp.lgpPath == settings.lgpFileName && !r.value.lgp.disposed &&
        r.value.lgp.lastPosition == 0 &&
        r.value.lgp.cursor == Seek(Visible(FileOf(listing, settings.lgpFileName)), settings.lgpStartPosition)
      ensures var s := Scan(LgfReaderModel.Contents(lgfFile), Cursor(0, 0, Tables(map[], map[])),
                            Query(Items.None, 0, settings.lgfStartPosition));
        if lgfFile.None? then r == Err(FileNotFound("1Cv8.lgf"))
        else if s.outcome.Fail? then r == Err(s.outcome.error)
        else if settings.lgpFileName != "" && FileOf(listing, settings.lgpFileName).None? then
          r == Err(FileNotFound(settings.lgpFileName))
        else r.Ok?
    {
      var lgf := new LgfReader("1Cv8.lgf");
      var o := lgf.SetPosition(settings.lgfStartPosition, lgfFile, false);
      if o.Fail? {
        return Err(o.error);
      }
      var reader := new EventLogReader(settings, lgf);
      if settings.lgpFileName != "" {
        var lgp := new LgpReader(settings.lgpFileName, lgf);
        var o' := lgp.SetPosition(settings.lgpStartPosition, FileOf(listing, settings.lgpFileName));
        if o'.Fail? {
          return Err(o'.error);
        }
        reader.lgp := lgp;
      }
      return Ok(reader);
    }

    /** Opens the earliest data file newer than the open one (any file when
        none is open), disposing the open reader; false when there is none. */
    method SetNextLgpReader(listing: Listing) returns (switched: bool)
      requires Valid()
      modifies this`lgp, lgp
      ensures Valid()
      ensures switched <==> NextFile(listing, old(OpenPath())).Some?
      ensures !switched ==> lgp == old(lgp)
      ensures switched ==>
        fresh(lgp) && lgp.lgpPath == NextFile(listing, old(OpenPath())).value.path &&
        !lgp.isOpen && !lgp.disposed && lgp.cursor == 0 && lgp.lastPosition == 0
      ensures switched && old(lgp) != null ==> old(lgp).disposed
      ensures !switched && lgp != null ==> unchanged(lgp)
    {
      var currentReaderLastWriteDateTime := MinValueTicks;
      if lgp != null {
        currentReaderLastWriteDateTime := LastWriteOf(listing, lgp.lgpPath);
      }
      var filesDateTime: seq<Candidate> := [];
      var i := 0;
      while i < |listing|
        invariant 0 <= i <= |listing|
        invariant filesDateTime == Candidates(listing[..i], OpenPath())
      {
        var file := listing[i];
        assert listing[..i + 1] == listing[..i] + [file];
        if lgp != null {
          if lgp.lgpPath != file.path {
            filesDateTime := filesDateTime + [Candidate(file.path, file.lastWrite)];
          }
        } else {
          filesDateTime := filesDateTime + [Candidate(file.path, file.lastWrite)];
        }
        i := i + 1;
      }
      assert listing[..i] == listing;
      var orderedFiles := SortByTime(filesDateTime);
      var nextFile := FirstNewer(orderedFiles, currentReaderLastWriteDateTime);
      if nextFile.None? {
        return false;
      }
      if lgp != null {
        lgp.Dispose();
      }
      lgp := null;
      lgp := new LgpReader(nextFile.value.path, lgf);
      return true;
    }

    /** Returns the next record with the next item id.  In archive mode the
        end of the newest file gives None; in live mode the reader waits for
        a file to change, and a finite timeout elapsing is an error.  A data
        file reader that was disposed (its file deleted) gives None and is
        dropped.  Running out of wait outcomes reads as cancellation.

        trail holds the reads of the data file reader, in order, marks the
        number of wait outcomes consumed before each read in live mode, and
        used the number consumed in all. */
    method ReadNextEventLogItem(listing: Listing, lgfFile: Option<seq<RefNode>>, cancelled: bool,
                                waits: seq<Wait>, parse: string -> Option<Node>)
      returns (r: Result<Option<EventLogItem>>, ghost trail: seq<ReadAt>, ghost marks: seq<nat>, ghost used: nat)
      requires Valid()
      modifies this`lgp, this`itemId, lgp, lgf`isOpen, lgf`next, lgf`position, lgf`objects, lgf`referenced
      ensures Valid()
      ensures r.Ok? && r.value.Some? ==> itemId == old(itemId) + 1 && r.value.value.id == itemId
      ensures !(r.Ok? && r.value.Some?) ==> itemId == old(itemId)
      ensures cancelled ==> r == Ok(None)
      ensures r.Err? ==> ReadFault(r.error) || (r.error == ReaderTimeout && liveMode && readingTimeout.Millis?)
      ensures old(lgp) == null && NextFile(listing, None).None? && !cancelled ==> r == Err(NullReference)
      ensures old(lgp) != null && old(lgp.disposed) && !cancelled ==> r == Ok(None) && lgp == null
      ensures !liveMode && !cancelled && r == Ok(None) ==> lgp == null || NextFile(listing, OpenPath()).None?
      // nothing is read exactly when cancelled, when the open reader was
      // disposed, or when no reader is open and no file is listed
      ensures trail == [] <==>
        cancelled || (old(lgp) != null && old(lgp.disposed)) || (old(lgp) == null && NextFile(listing, None).None?)
      // the first read is from the open reader, or from the earliest file when none was open
      ensures trail != [] && old(lgp) != null ==>
        trail[0] == ReadAt(listing, old(lgp).lgpPath, old(lgp.isOpen), old(lgp.cursor), old(lgp.lastPosition),
                           LgfReaderModel.Contents(lgfFile), old(lgf.Cur()))
      ensures trail != [] && old(lgp) == null ==>
        NextFile(listing, None).Some? &&
        trail[0] == ReadAt(listing, NextFile(listing, None).value.path, false, 0, 0,
                           LgfReaderModel.Contents(lgfFile), old(lgf.Cur()))
      // an exhausted file is followed in archive mode by the next file from
      // its start, in live mode by the next file or, after a wait, by itself
      ensures !liveMode ==> ArchiveChain(listing, trail)
      ensures liveMode ==> LiveChain(waits, readingTimeout.Millis?, trail, marks)
      // every read but the last found its file exhausted, r is what the last
      // one gives, and the data file reader stands after it
      ensures TrailEnds(trail, r, parse, old(lgf.isOpen) && !lgf.disposed)
      ensures trail != [] && Openable(trail[|trail| - 1]) ==> lgp != null && LeftAfter(lgp, trail[|trail| - 1])
      // a timeout error is exactly a finite timeout elapsing on the last wait
      ensures used <= |waits| && (!liveMode ==> used == 0)
      ensures liveMode && trail != [] ==> marks[|trail| - 1] <= used <= marks[|trail| - 1] + 1
      ensures r == Err(ReaderTimeout) <==> liveMode && readingTimeout.Millis? && LastTimedOut(waits, used)
      ensures old(lgf.isOpen) ==> lgf.isOpen
    {
      if lgp == null {
        var _ := SetNextLgpReader(listing);
      }
      if cancelled {
        return Ok(None), [], [], 0;
      }
      if lgp == null {
        return Err(NullReference), [], [], 0;
      }
      ghost var first := ReadAt(listing, lgp.lgpPath, lgp.isOpen, lgp.cursor, lgp.lastPosition, LgfReaderModel.Contents(lgfFile), lgf.Cur());
      r, trail, marks, used := ReadAndNumber(listing, lgfFile, waits, parse, first);
    }

    /** The loop of ReadNextEventLogItem once a data file reader is set,
        from the read first, and the numbering of the record it returns. */
    method ReadAndNumber(listing: Listing, lgfFile: Option<seq<RefNode>>, waits: seq<Wait>,
                         parse: string -> Option<Node>, ghost first: ReadAt)
      returns (r: Result<Option<EventLogItem>>, ghost trail: seq<ReadAt>, ghost marks: seq<nat>, ghost used: nat)
      requires Valid() && lgp != null
      requires first == ReadAt(listing, lgp.lgpPath, lgp.isOpen, lgp.cursor, lgp.lastPosition, LgfReaderModel.Contents(lgfFile), lgf.Cur())
      modifies this`lgp, this`itemId, lgp, lgf`isOpen, lgf`next, lgf`position, lgf`objects, lgf`referenced
      ensures Valid()
      ensures r.Ok? && r.value.Some? ==> itemId == old(itemId) + 1 && r.value.value.id == itemId
      ensures !(r.Ok? && r.value.Some?) ==> itemId == old(itemId)
      ensures r.Err? ==> ReadFault(r.error) || (r.error == ReaderTimeout && liveMode && readingTimeout.Millis?)
      ensures old(lgp.disposed) ==> r == Ok(None) && lgp == null && trail == []
      ensures !old(lgp.disposed) ==> trail != [] && trail[0] == first
      ensures !liveMode && r == Ok(None) ==> lgp == null || NextFile(listing, OpenPath()).None?
      ensures !liveMode ==> ArchiveChain(listing, trail)
      ensures liveMode ==> LiveChain(waits, readingTimeout.Millis?, trail, marks)
      ensures TrailEnds(trail, r, parse, old(lgf.isOpen) && !lgf.disposed)
      ensures trail != [] && Openable(trail[|trail| - 1]) ==> lgp != null && LeftAfter(lgp, trail[|trail| - 1])
      ensures used <= |waits| && (!liveMode ==> used == 0)
      ensures liveMode && trail != [] ==> marks[|trail| - 1] <= used <= marks[|trail| - 1] + 1
      ensures r == Err(ReaderTimeout) <==> liveMode && readingTimeout.Millis? && LastTimedOut(waits, used)
      ensures old(lgf.isOpen) ==> lgf.isOpen
    {
      var found: Result<Option<EventLogItem>>;
      if liveMode {
        found, trail, marks, used := ReadLive(listing, lgfFile, waits, parse, first);
      } else {
        found, trail := ReadArchive(listing, lgfFile, parse, first);
        marks, used := [], 0;
      }
      if found.Ok? && found.value.Some? {
        var id := itemId + 1;
        itemId := id;
        r := Ok(Some(found.value.value.(id := id)));
        RenumberedEnds(trail, found, id, parse, old(lgf.isOpen) && !lgf.disposed);
      } else {
        r := found;
      }
    }

    /** One pass of the reading loop: a read of the open file at, and when
        it yields nothing, SetNextLgpReader, which moves to the read that
        follows at when a newer file is listed. */
    method ReadStep(dir: Listing, lgfNow: Option<seq<RefNode>>, parse: string -> Option<Node>, ghost at: ReadAt)
      returns (res: Result<Option<EventLogItem>>, switched: bool)
      requires Valid() && lgp != null
      requires at == ReadAt(dir, lgp.lgpPath, lgp.isOpen, lgp.cursor, lgp.lastPosition, LgfReaderModel.Contents(lgfNow), lgf.Cur())
      modifies this`lgp, lgp, lgf`isOpen, lgf`next, lgf`position, lgf`objects, lgf`referenced
      ensures Valid() && lgp != null
      ensures old(lgp.disposed) ==> res == Err(ObjectDisposed) && !switched
      ensures res.Err? && !old(lgp.disposed) ==> ReadFault(res.error)
      ensures !old(lgp.disposed) ==> ReadOutcome(at, res, parse, old(lgf.isOpen) && !lgf.disposed)
      ensures res.Ok? ==> !lgp.disposed
      ensures res == Ok(None) ==> (switched <==> NextFile(dir, Some(at.path)).Some?) && lgf.Cur() == old(lgf.Cur())
      ensures !switched ==> lgp == old(lgp)
      ensures !switched && !old(lgp.disposed) && Openable(at) ==> LeftAfter(lgp, at)
      ensures switched ==>
        res == Ok(None) && fresh(lgp) &&
        ReadAt(dir, lgp.lgpPath, lgp.isOpen, lgp.cursor, lgp.lastPosition, LgfReaderModel.Contents(lgfNow), lgf.Cur()) == NextRead(dir, at) &&
        CountNewer(dir, LastWriteOf(dir, lgp.lgpPath)) < CountNewer(dir, LastWriteOf(dir, at.path))
      ensures old(lgf.isOpen) ==> lgf.isOpen
    {
      res := ReadOpenFile(dir, lgfNow, false, parse, at);
      switched := false;
      if res == Ok(None) {
        ghost var open := OpenPath();
        switched := SetNextLgpReader(dir);
        if switched {
          SwitchMovesForward(dir, open);
        }
      }
    }

    /** The loop of archive mode: reads on from file to file until a read
        gives a record or fails, or no newer file remains. */
    method ReadArchive(listing: Listing, lgfFile: Option<seq<RefNode>>, parse: string -> Option<Node>,
                       ghost first: ReadAt)
      returns (found: Result<Option<EventLogItem>>, ghost trail: seq<ReadAt>)
      requires Valid() && !liveMode && lgp != null
      requires first == ReadAt(listing, lgp.lgpPath, lgp.isOpen, lgp.cursor, lgp.lastPosition, LgfReaderModel.Contents(lgfFile), lgf.Cur())
      modifies this`lgp, lgp, lgf`isOpen, lgf`next, lgf`position, lgf`objects, lgf`referenced
      ensures Valid()
      ensures found.Err? ==> ReadFault(found.error)
      ensures old(lgp.disposed) ==> found == Ok(None) && lgp == null && trail == []
      ensures !old(lgp.disposed) ==> trail != [] && trail[0] == first
      ensures ArchiveChain(listing, trail)
      ensures TrailEnds(trail, found, parse, old(lgf.isOpen) && !lgf.disposed)
      ensures trail != [] && Openable(trail[|trail| - 1]) ==> lgp != null && LeftAfter(lgp, trail[|trail| - 1])
      ensures found == Ok(None) ==> lgp == null || NextFile(listing, OpenPath()).None?
      ensures old(lgf.isOpen) ==> lgf.isOpen
    {
      trail := [];
      ghost var pending := first;
      while true
        invariant Valid() && lgp != null && (lgp == old(lgp) || fresh(lgp))
        invariant pending == ReadAt(listing, lgp.lgpPath, lgp.isOpen, lgp.cursor, lgp.lastPosition, LgfReaderModel.Contents(lgfFile), lgf.Cur())
        invariant trail == [] ==> lgp == old(lgp) && lgp.disposed == old(lgp.disposed)
        invariant trail != [] ==> !lgp.disposed && !old(lgp.disposed)
        invariant ArchiveSoFar(listing, first, trail, pending)
        invariant old(lgf.isOpen) ==> lgf.isOpen
        decreases CountNewer(listing, LastWriteOf(listing, lgp.lgpPath))
      {
        var res, newReader := ReadStep(listing, lgfFile, parse, pending);
        if res.Err? && res.error == ObjectDisposed {
          lgp := null;
          return Ok(None), trail;
        }
        if res != Ok(None) || !newReader {
          ArchiveEnd(listing, first, trail, pending, res, parse, old(lgf.isOpen) && !lgf.disposed);
          return res, trail + [pending];
        }
        ArchiveStep(listing, first, trail, pending);
        trail := trail + [pending];
        pending := NextRead(listing, pending);
      }
    }

    /** The loop of live mode: reads the open file, moves on to a newer file
        when there is one, and otherwise consumes one wait outcome. */
    method ReadLive(listing: Listing, lgfFile: Option<seq<RefNode>>, waits: seq<Wait>, parse: string -> Option<Node>,
                    ghost first: ReadAt)
      returns (found: Result<Option<EventLogItem>>, ghost trail: seq<ReadAt>, ghost marks: seq<nat>, ghost used: nat)
      requires Valid() && liveMode && lgp != null
      requires first == ReadAt(listing, lgp.lgpPath, lgp.isOpen, lgp.cursor, lgp.lastPosition, LgfReaderModel.Contents(lgfFile), lgf.Cur())
      modifies this`lgp, lgp, lgf`isOpen, lgf`next, lgf`position, lgf`objects, lgf`referenced
      ensures Valid()
      ensures found.Err? ==> ReadFault(found.error) || (found.error == ReaderTimeout && readingTimeout.Millis?)
      ensures old(lgp.disposed) ==> found == Ok(None) && lgp == null && trail == []
      ensures !old(lgp.disposed) ==> trail != [] && trail[0] == first
      ensures LiveEnded(waits, readingTimeout.Millis?, trail, marks, used, found, parse, old(lgf.isOpen) && !lgf.disposed)
      ensures trail != [] && Openable(trail[|trail| - 1]) ==> lgp != null && LeftAfter(lgp, trail[|trail| - 1])
      ensures used <= |waits|
      ensures found == Err(ReaderTimeout) <==> readingTimeout.Millis? && LastTimedOut(waits, used)
      ensures old(lgf.isOpen) ==> lgf.isOpen
    {
      trail, marks := [], [];
      var dir := listing;
      var lgfNow := lgfFile;
      var w: nat := 0;
      while true
        invariant Valid() && lgp != null && (lgp == old(lgp) || fresh(lgp)) && w <= |waits|
        invariant trail == [] ==> lgp == old(lgp) && lgp.disposed == old(lgp.disposed)
        invariant trail != [] ==> !old(lgp.disposed) && !lgp.disposed
        invariant LiveSoFar(waits, readingTimeout.Millis?, first, trail, marks,
                            ReadAt(dir, lgp.lgpPath, lgp.isOpen, lgp.cursor, lgp.lastPosition, LgfReaderModel.Contents(lgfNow), lgf.Cur()), w)
        invariant readingTimeout.Millis? ==> !LastTimedOut(waits, w)
        invariant old(lgf.isOpen) ==> lgf.isOpen
        decreases |waits| - w, CountNewer(dir, LastWriteOf(dir, lgp.lgpPath))
      {
        var res, exit, dir', lgfNow', w';
        ghost var trail', marks';
        res, exit, dir', lgfNow', w', trail', marks' := LiveRound(dir, lgfNow, waits, w, parse, first, trail, marks);
        if exit {
          return res, trail', marks', w';
        }
        dir, lgfNow, w, trail, marks := dir', lgfNow', w', trail', marks';
      }
    }

    /** One pass of the live-mode loop: a read of the open file and, when it
        yields nothing and no newer file is listed, one wait.  The read joins
        the trail of reads so far unless the data file reader was disposed;
        exit says the loop ends with res, and dir', lgfNow' and w' are the
        listing, reference file and wait count the next pass sees. */
    method LiveRound(dir: Listing, lgfNow: Option<seq<RefNode>>, waits: seq<Wait>, w: nat,
                     parse: string -> Option<Node>, ghost first: ReadAt, ghost trail: seq<ReadAt>, ghost marks: seq<nat>)
      returns (res: Result<Option<EventLogItem>>, exit: bool, dir': Listing, lgfNow': Option<seq<RefNode>>, w': nat,
               ghost trail': seq<ReadAt>, ghost marks': seq<nat>)
      requires Valid() && liveMode && lgp != null && w <= |waits|
      requires readingTimeout.Millis? ==> !LastTimedOut(waits, w)
      requires LiveSoFar(waits, readingTimeout.Millis?, first, trail, marks,
                         ReadAt(dir, lgp.lgpPath, lgp.isOpen, lgp.cursor, lgp.lastPosition, LgfReaderModel.Contents(lgfNow), lgf.Cur()), w)
      requires trail != [] ==> !lgp.disposed
      modifies this`lgp, lgp, lgf`isOpen, lgf`next, lgf`position, lgf`objects, lgf`referenced
      ensures Valid() && w <= w' <= |waits|
      // a disposed data reader gives null and is dropped, reading nothing
      ensures old(lgp.disposed) ==> exit && res == Ok(None) && lgp == null && trail' == trail && w' == w
      ensures !old(lgp.disposed) ==>
        trail' == trail + [old(ReadAt(dir, lgp.lgpPath, lgp.isOpen, lgp.cursor, lgp.lastPosition, LgfReaderModel.Contents(lgfNow), lgf.Cur()))]
      ensures res.Err? ==> ReadFault(res.error) || (res.error == ReaderTimeout && readingTimeout.Millis? && LastTimedOut(waits, w'))
      ensures readingTimeout.Millis? && LastTimedOut(waits, w') && w' > w ==> res == Err(ReaderTimeout)
      // the loop ends: the reads so far end in res, the data file reader after the last
      ensures exit ==>
        LiveEnded(waits, readingTimeout.Millis?, trail', marks', w', res, parse, old(lgf.isOpen) && !lgf.disposed)
      ensures exit && trail' != [] ==>
        trail'[0] == first && (Openable(trail'[|trail'| - 1]) ==> lgp != null && LeftAfter(lgp, trail'[|trail'| - 1]))
      // the loop goes on with the next file, or with the same file after a wait
      ensures !exit ==> lgp != null && !lgp.disposed && (lgp == old(lgp) || fresh(lgp))
      ensures !exit && readingTimeout.Millis? ==> !LastTimedOut(waits, w')
      ensures !exit ==>
        LiveSoFar(waits, readingTimeout.Millis?, first, trail', marks',
                  ReadAt(dir', lgp.lgpPath, lgp.isOpen, lgp.cursor, lgp.lastPosition, LgfReaderModel.Contents(lgfNow'), lgf.Cur()), w')
      ensures !exit ==>
        (w < w' || (w' == w && dir' == dir &&
                    CountNewer(dir, LastWriteOf(dir, lgp.lgpPath)) < CountNewer(dir, LastWriteOf(dir, old(lgp.lgpPath)))))
      ensures old(lgf.isOpen) ==> lgf.isOpen
    {
      ghost var at := ReadAt(dir, lgp.lgpPath, lgp.isOpen, lgp.cursor, lgp.lastPosition, LgfReaderModel.Contents(lgfNow), lgf.Cur());
      ghost var usable := lgf.isOpen && !lgf.disposed;
      var switched;
      res, switched := ReadStep(dir, lgfNow, parse, at);
      dir', lgfNow', w' := dir, lgfNow, w;
      trail', marks' := trail, marks;
      exit := true;
      if res.Err? && res.error == ObjectDisposed {
        lgp := null;
        res := Ok(None);
        return;
      }
      trail', marks' := trail + [at], marks + [w];
      if res != Ok(None) {
        LiveEnd(waits, readingTimeout.Millis?, first, trail, marks, at, w, w', res, parse, usable);
        return;
      }
      if switched {
        ghost var next := ReadAt(dir, lgp.lgpPath, lgp.isOpen, lgp.cursor, lgp.lastPosition, LgfReaderModel.Contents(lgfNow), lgf.Cur());
        SwitchLinks(waits, readingTimeout.Millis?, at, w, next);
        LiveStep(waits, readingTimeout.Millis?, first, trail, marks, at, w, next, w);
        exit := false;
        return;
      }
      res, exit, dir', lgfNow', w' := WaitRound(dir, lgfNow, waits, w, parse, first, trail, marks, at, usable);
    }

    /** The wait of a live-mode pass after the read at found its file
        exhausted and no newer file listed: none left reads as
        cancellation, a finite timeout elapsing is an error, a cancellation
        ends the loop, and otherwise the same file is read on. */
    method WaitRound(dir: Listing, lgfNow: Option<seq<RefNode>>, waits: seq<Wait>, w: nat,
                     parse: string -> Option<Node>, ghost first: ReadAt, ghost trail: seq<ReadAt>, ghost marks: seq<nat>,
                     ghost at: ReadAt, ghost usable: bool)
      returns (res: Result<Option<EventLogItem>>, exit: bool, dir': Listing, lgfNow': Option<seq<RefNode>>, w': nat)
      requires lgp != null && w <= |waits|
      requires readingTimeout.Millis? ==> !LastTimedOut(waits, w)
      requires LiveSoFar(waits, readingTimeout.Millis?, first, trail, marks, at, w)
      requires ReadOutcome(at, Ok(None), parse, usable) && NextFile(dir, Some(at.path)).None?
      requires at.listing == dir && at.lgfFile == LgfReaderModel.Contents(lgfNow) && at.lgfAt == lgf.Cur() && LeftAfter(lgp, at)
      ensures w' == w || w' == w + 1
      ensures w' <= |waits| && (res == Ok(None) || res == Err(ReaderTimeout))
      ensures res == Err(ReaderTimeout) <==> readingTimeout.Millis? && LastTimedOut(waits, w') && w' > w
      ensures exit ==> LiveEnded(waits, readingTimeout.Millis?, trail + [at], marks + [w], w', res, parse, usable)
      ensures !exit ==> res == Ok(None) && w' == w + 1 && (readingTimeout.Millis? ==> !LastTimedOut(waits, w'))
      ensures !exit ==>
        LiveSoFar(waits, readingTimeout.Millis?, first, trail + [at], marks + [w],
                  ReadAt(dir', lgp.lgpPath, lgp.isOpen, lgp.cursor, lgp.lastPosition, LgfReaderModel.Contents(lgfNow'), lgf.Cur()), w')
    {
      res, exit, dir', lgfNow', w' := Ok(None), true, dir, lgfNow, w;
      if w == |waits| {
        LiveEnd(waits, readingTimeout.Millis?, first, trail, marks, at, w, w', res, parse, usable);
        return;
      }
      var outcome := waits[w];
      w' := w + 1;
      assert LastTimedOut(waits, w') <==> outcome.TimedOut?;
      if readingTimeout != Infinite && outcome.TimedOut? {
        res := Err(ReaderTimeout);
        LiveEnd(waits, readingTimeout.Millis?, first, trail, marks, at, w, w', res, parse, usable);
        return;
      }
      match outcome {
        case Signalled(d, l) =>
          dir', lgfNow' := d, l;
          exit := false;
        case CancelRequested =>
        case TimedOut =>
          exit := false;
      }
      if exit {
        LiveEnd(waits, readingTimeout.Millis?, first, trail, marks, at, w, w', res, parse, usable);
      } else {
        ghost var next := ReadAt(dir', lgp.lgpPath, lgp.isOpen, lgp.cursor, lgp.lastPosition, LgfReaderModel.Contents(lgfNow'), lgf.Cur());
        WaitLinks(waits, readingTimeout.Millis?, at, w, next);
        LiveStep(waits, readingTimeout.Millis?, first, trail, marks, at, w, next, w');
      }
    }

    /** One read from the open data file as the loop above needs it: the
        data file reader's read of the file the listing holds at its path. */
    method ReadOpenFile(dir: Listing, lgfNow: Option<seq<RefNode>>, stop: bool, parse: string -> Option<Node>,
                        ghost at: ReadAt)
      returns (res: Result<Option<EventLogItem>>)
      requires Valid() && lgp != null
      requires at == ReadAt(dir, lgp.lgpPath, lgp.isOpen, lgp.cursor, lgp.lastPosition, LgfReaderModel.Contents(lgfNow), lgf.Cur())
      modifies lgp`isOpen, lgp`cursor, lgp`lastPosition, lgf`isOpen, lgf`next, lgf`position, lgf`objects, lgf`referenced
      ensures old(lgp.disposed) ==> res == Err(ObjectDisposed)
      ensures !old(lgp.disposed) && !Openable(at) ==> res == Err(FileNotFound(at.path))
      ensures res.Err? && !old(lgp.disposed) ==> ReadFault(res.error)
      ensures Yields(res, at, parse)
      // a reader that cannot read stays as it was
      ensures old(lgp.disposed) || !Openable(at) ==>
        lgp.isOpen == at.open && lgp.cursor == at.cursor && lgp.lastPosition == at.lastPosition
      // one that reads gives nothing exactly at the end of its file or when
      // stopped, and stands after the record it read, or where it stood
      ensures !old(lgp.disposed) && Openable(at) ==>
        (res == Ok(None) <==> stop || ExhaustedAt(at)) &&
        (res.Ok? && res.value.Some? ==> !stop) &&
        lgp.isOpen &&
        (stop ==> lgp.cursor == (if at.open then at.cursor else 0) && lgp.lastPosition == at.lastPosition) &&
        (!stop ==> LeftAfter(lgp, at))
      // with a usable reference reader it gives a record exactly when the record read maps
      ensures !old(lgp.disposed) && Openable(at) && old(lgf.isOpen) && !lgf.disposed ==>
        (res.Ok? && res.value.Some? <==> !stop && MapsAt(at, parse))
      ensures res == Ok(None) ==> lgf.Cur() == old(lgf.Cur())
      ensures old(lgf.isOpen) ==> lgf.isOpen
    {
      res := lgp.ReadNextEventLogItem(FileOf(dir, lgp.lgpPath), lgfNow, stop, parse);
    }

    /** Releases the readers; a second call leaves the reference reader as
        it is (the first call already dropped the data reader). */
    method Dispose()
      requires Valid()
      modifies this`lgp, this`disposed, lgf`disposed, lgf`isOpen, lgf`next, lgf`position, lgp
      ensures Valid() && disposed && lgp == null
      ensures !old(disposed) ==> lgf.disposed && (old(lgp) != null ==> old(lgp).disposed)
      ensures !old(disposed) && !old(lgf.disposed) ==> !lgf.isOpen && lgf.next == 0 && lgf.position == 0
      // a second call does nothing
      ensures old(disposed) ==>
        (lgf.disposed == old(lgf.disposed) && lgf.isOpen == old(lgf.isOpen) &&
         lgf.next == old(lgf.next) && lgf.position == old(lgf.position))
    {
      if !disposed {
        lgf.Dispose();
        if lgp != null {
          lgp.Dispose();
        }
        lgp := null;
        disposed := true;
      }
      lgp := null;
    }
  }
}
