/** The Elasticsearch storage: settings check, the date-keyed partition of
    a batch into indices, round-robin failover across the configured nodes
    and the group-by-group write with reconnect-and-retry.

    The cluster is given by oracles: the answers to the pings of successive
    connection attempts and the replies to successive bulk-index calls. */
module ElasticStorage {
  import opened Wrappers
  import opened Strings
  import opened Items
  import opened ElasticHost

  /** CheckSettings: at least one node and a non-empty index name. */
  function CheckSettings(nodes: seq<ElasticSearchNode>, index: string): (o: Outcome)
    ensures o.Pass? <==> |nodes| > 0 && index != ""
    ensures |nodes| == 0 ==> o == Fail(InvalidSettings("ElasticSearch hosts is not specified"))
  {
    if |nodes| == 0 then Fail(InvalidSettings("ElasticSearch hosts is not specified"))
    else if index == "" then Fail(InvalidSettings("ElasticSearch index name is not specified"))
    else Pass
  }

  // ---------------------------------------------------------------------
  // Partition by date

  /** A separation that partitions by date: hours, days or months. */
  predicate IsDateSeparation(sep: string)
  {
    sep == "H" || sep == "D" || sep == "M"
  }

  /** The number of digits of the date key. */
  function KeyWidth(sep: string): nat
  {
    if sep == "H" then 10 else if sep == "D" then 8 else 6
  }

  /** The hour as "hh" formats it: 12-hour, 12 for midnight and noon. */
  function Hour12(hour: int): int
  {
    if hour % 12 == 0 then 12 else hour % 12
  }

  /** The hourly key as written, "yyyyMMddhh", as a number. */
  function HourKeyAsWritten(d: DateTime): int
  {
    ((d.year * 100 + d.month) * 100 + d.day) * 100 + Hour12(d.hour)
  }

  /** The date key, "yyyyMMddHH", "yyyyMMdd" or "yyyyMM", as a number:
      the digit strings have a fixed width, so their order is the order of
      the numbers. */
  function DateKey(sep: string, d: DateTime): int
  {
    var month := d.year * 100 + d.month;
    if sep == "M" then month
    else if sep == "D" then month * 100 + d.day
    else (month * 100 + d.day) * 100 + d.hour
  }

  lemma Base100Digit(x: int, a: int, y: int, b: int)
    requires 0 <= a < 100 && 0 <= b < 100
    ensures x * 100 + a == y * 100 + b <==> x == y && a == b
  {
    if x < y {
      assert x * 100 + a < (x + 1) * 100 <= y * 100;
    } else if y < x {
      assert y * 100 + b < (y + 1) * 100 <= x * 100;
    }
  }

  /** As written, 01:xx and 13:xx of the same day share an hourly index. */
  lemma TwelveHourKeyMergesHours()
    ensures HourKeyAsWritten(DateTime(2020, 1, 1, 1, 0, 0)) == HourKeyAsWritten(DateTime(2020, 1, 1, 13, 0, 0))
    ensures DateKey("H", DateTime(2020, 1, 1, 1, 0, 0)) != DateKey("H", DateTime(2020, 1, 1, 13, 0, 0))
  {
  }

  /** The hourly key identifies the hour: two valid times share it exactly
      when they fall in the same hour of the same day. */
  lemma HourKeyIdentifiesHour(a: DateTime, b: DateTime)
    requires ValidDateTime(a) && ValidDateTime(b)
    ensures DateKey("H", a) == DateKey("H", b) <==>
            a.year == b.year && a.month == b.month && a.day == b.day && a.hour == b.hour
  {
    Base100Digit((a.year * 100 + a.month) * 100 + a.day, a.hour, (b.year * 100 + b.month) * 100 + b.day, b.hour);
    Base100Digit(a.year * 100 + a.month, a.day, b.year * 100 + b.month, b.day);
    Base100Digit(a.year, a.month, b.year, b.month);
  }

  predicate StrictlySorted(ks: seq<int>)
  {
    forall i, j :: 0 <= i < j < |ks| ==> ks[i] < ks[j]
  }

  /** Adds a key to an ascending list of distinct keys. */
  function InsertKey(k: int, ks: seq<int>): seq<int>
  {
    if ks == [] then [k]
    else if k == ks[0] then ks
    else if k < ks[0] then [k] + ks
    else [ks[0]] + InsertKey(k, ks[1..])
  }

  lemma {:induction false} InsertKeyKeepsSorted(k: int, ks: seq<int>)
    requires StrictlySorted(ks)
    ensures StrictlySorted(InsertKey(k, ks))
    ensures forall x :: x in InsertKey(k, ks) <==> x in ks || x == k
  {
    if ks != [] && k > ks[0] {
      var tail := ks[1..];
      InsertKeyKeepsSorted(k, tail);
      var r := InsertKey(k, tail);
      forall j | 0 <= j < |r|
        ensures ks[0] < r[j]
      {
        assert r[j] in r;
      }
      assert InsertKey(k, ks) == [ks[0]] + r;
      assert ks == [ks[0]] + tail;
    }
  }

  /** The distinct date keys of the entities, ascending. */
  function KeysOf(sep: string, es: seq<EventLogItem>): seq<int>
  {
    if es == [] then []
    else InsertKey(DateKey(sep, es[|es| - 1].dateTime), KeysOf(sep, es[..|es| - 1]))
  }

  /** Some entity has the key. */
  predicate HasKey(sep: string, es: seq<EventLogItem>, key: int)
  {
    exists e :: e in es && DateKey(sep, e.dateTime) == key
  }

  /** The keys are ascending and are exactly the keys of the entities. */
  lemma {:induction false} KeysOfSortedAndComplete(sep: string, es: seq<EventLogItem>)
    ensures StrictlySorted(KeysOf(sep, es))
    ensures forall e :: e in es ==> DateKey(sep, e.dateTime) in KeysOf(sep, es)
    ensures forall x :: x in KeysOf(sep, es) ==> HasKey(sep, es, x)
  {
    if es != [] {
      var init := es[..|es| - 1];
      var last := es[|es| - 1];
      KeysOfSortedAndComplete(sep, init);
      InsertKeyKeepsSorted(DateKey(sep, last.dateTime), KeysOf(sep, init));
      assert es == init + [last];
      forall x | x in KeysOf(sep, es)
        ensures HasKey(sep, es, x)
      {
        if x == DateKey(sep, last.dateTime) {
          assert last in es;
        } else {
          assert HasKey(sep, init, x);
          var e :| e in init && DateKey(sep, e.dateTime) == x;
          assert e in es;
        }
      }
    }
  }

  /** The entities with the given key, in input order. */
  function Members(sep: string, es: seq<EventLogItem>, key: int): (r: seq<EventLogItem>)
    ensures forall e :: e in r <==> e in es && DateKey(sep, e.dateTime) == key
  {
    if es == [] then []
    else
      var last := es[|es| - 1];
      var init := es[..|es| - 1];
      assert es == init + [last];
      Members(sep, init, key) + (if DateKey(sep, last.dateTime) == key then [last] else [])
  }

  datatype Group = Group(indexName: string, entities: seq<EventLogItem>)

  function IndexName(index: string, sep: string, key: int): string
  {
    index + "-" + PadDigits(if key < 0 then 0 else key, KeyWidth(sep))
  }

  /** GetGroupedData: one group per date key in ascending key order, named
      index-key, or a single group index-all under any other separation. */
  function GetGroupedData(index: string, sep: string, es: seq<EventLogItem>): (r: seq<Group>)
    ensures !IsDateSeparation(sep) ==> r == [Group(index + "-all", es)]
    ensures IsDateSeparation(sep) ==> |r| == |KeysOf(sep, es)|
  {
    if IsDateSeparation(sep) then
      var keys := KeysOf(sep, es);
      seq(|keys|, j requires 0 <= j < |keys| => Group(IndexName(index, sep, keys[j]), Members(sep, es, keys[j])))
    else [Group(index + "-all", es)]
  }

  lemma ListedKeyHasEntity(sep: string, es: seq<EventLogItem>, key: int) returns (e: EventLogItem)
    requires key in KeysOf(sep, es)
    ensures e in es && DateKey(sep, e.dateTime) == key
  {
    KeysOfSortedAndComplete(sep, es);
    assert HasKey(sep, es, key);
    e :| e in es && DateKey(sep, e.dateTime) == key;
  }

  /** The groups follow ascending key order, every group is non-empty and
      holds only entities of its key. */
  lemma GroupsAscendAndAgree(index: string, sep: string, es: seq<EventLogItem>)
    requires IsDateSeparation(sep)
    ensures var keys := KeysOf(sep, es);
            var g := GetGroupedData(index, sep, es);
            StrictlySorted(keys) &&
            forall j :: 0 <= j < |g| ==>
              g[j].indexName == IndexName(index, sep, keys[j]) && g[j].entities != [] &&
              forall e :: e in g[j].entities ==> DateKey(sep, e.dateTime) == keys[j]
  {
    var keys := KeysOf(sep, es);
    KeysOfSortedAndComplete(sep, es);
    var g := GetGroupedData(index, sep, es);
    forall j | 0 <= j < |g|
      ensures g[j].entities != []
    {
      var e := ListedKeyHasEntity(sep, es, keys[j]);
      assert e in Members(sep, es, keys[j]);
    }
  }

  /** Every entity lands in exactly one group. */
  lemma EachEntityInExactlyOneGroup(index: string, sep: string, es: seq<EventLogItem>, e: EventLogItem)
    requires IsDateSeparation(sep) && e in es
    ensures var g := GetGroupedData(index, sep, es);
            exists j :: 0 <= j < |g| && e in g[j].entities &&
              forall j' :: 0 <= j' < |g| && e in g[j'].entities ==> j' == j
  {
    var keys := KeysOf(sep, es);
    KeysOfSortedAndComplete(sep, es);
    var g := GetGroupedData(index, sep, es);
    var k := DateKey(sep, e.dateTime);
    var j :| 0 <= j < |keys| && keys[j] == k;
    assert g[j].entities == Members(sep, es, keys[j]);
    forall j' | 0 <= j' < |g| && e in g[j'].entities
      ensures j' == j
    {
      assert g[j'].entities == Members(sep, es, keys[j']);
      assert keys[j'] == k;
    }
  }

  // ---------------------------------------------------------------------
  // Node rotation

  /** List.IndexOf: the first node equal (by host) to the given one, or -1. */
  function IndexOf(nodes: seq<ElasticSearchNode>, n: ElasticSearchNode): (i: int)
    ensures -1 <= i < |nodes|
    ensures i >= 0 ==> Equals(nodes[i], NodeObj(n)) && forall k :: 0 <= k < i ==> !Equals(nodes[k], NodeObj(n))
    ensures i == -1 ==> forall k :: 0 <= k < |nodes| ==> !Equals(nodes[k], NodeObj(n))
  {
    if nodes == [] then -1
    else if Equals(nodes[0], NodeObj(n)) then 0
    else
      var i := IndexOf(nodes[1..], n);
      if i == -1 then -1 else i + 1
  }

  /** The node SwitchToNextNodeAsync moves to. */
  function NextNode(nodes: seq<ElasticSearchNode>, current: Option<ElasticSearchNode>): ElasticSearchNode
    requires |nodes| > 0
  {
    match current
    case None => nodes[0]
    case Some(n) =>
      var i := IndexOf(nodes, n);
      if i == |nodes| - 1 then nodes[0] else nodes[i + 1]
  }

  /** The current node after a number of switches. */
  function Rotate(nodes: seq<ElasticSearchNode>, current: Option<ElasticSearchNode>, steps: nat): Option<ElasticSearchNode>
    requires |nodes| > 0
  {
    if steps == 0 then current else Some(NextNode(nodes, Rotate(nodes, current, steps - 1)))
  }

  predicate DistinctHosts(nodes: seq<ElasticSearchNode>)
  {
    forall i, j :: 0 <= i < j < |nodes| ==> nodes[i].host != nodes[j].host
  }

  /** With distinct hosts, a node's position is the one IndexOf reports. */
  lemma IndexOfDistinct(nodes: seq<ElasticSearchNode>, i: nat)
    requires DistinctHosts(nodes) && i < |nodes|
    ensures IndexOf(nodes, nodes[i]) == i
  {
    assert Equals(nodes[i], NodeObj(nodes[i]));
    var k := IndexOf(nodes, nodes[i]);
    assert k >= 0;
    assert nodes[k].host == nodes[i].host;
  }

  /** With distinct hosts, switching from no node visits the nodes in list
      order: the k-th switch lands on the k-th node. */
  lemma {:induction false} RotationVisitsInOrder(nodes: seq<ElasticSearchNode>, steps: nat)
    requires |nodes| > 0 && DistinctHosts(nodes) && 0 < steps <= |nodes|
    ensures Rotate(nodes, None, steps) == Some(nodes[steps - 1])
  {
    if steps > 1 {
      RotationVisitsInOrder(nodes, steps - 1);
      IndexOfDistinct(nodes, steps - 2);
    }
  }

  lemma {:induction false} RotateAdd(nodes: seq<ElasticSearchNode>, c: Option<ElasticSearchNode>, a: nat, b: nat)
    requires |nodes| > 0
    ensures Rotate(nodes, c, a + b) == Rotate(nodes, Rotate(nodes, c, a), b)
  {
    if b > 0 {
      var k := b - 1;
      RotateAdd(nodes, c, a, k);
      RotateStep(nodes, c, a + k);
      RotateStep(nodes, Rotate(nodes, c, a), k);
      assert a + b == a + k + 1;
    } else {
      assert a + b == a;
      assert Rotate(nodes, Rotate(nodes, c, a), 0) == Rotate(nodes, c, a);
    }
  }

  lemma RotateStep(nodes: seq<ElasticSearchNode>, c: Option<ElasticSearchNode>, k: nat)
    requires |nodes| > 0
    ensures Rotate(nodes, c, k + 1) == Some(NextNode(nodes, Rotate(nodes, c, k)))
  {
  }

  lemma WrapAfterLast(nodes: seq<ElasticSearchNode>)
    requires |nodes| > 0 && DistinctHosts(nodes)
    ensures Rotate(nodes, None, |nodes| + 1) == Rotate(nodes, None, 1)
  {
    RotationVisitsInOrder(nodes, |nodes|);
    IndexOfDistinct(nodes, |nodes| - 1);
    RotateStep(nodes, None, |nodes|);
    RotateStep(nodes, None, 0);
  }

  lemma RotateThen(nodes: seq<ElasticSearchNode>, c: Option<ElasticSearchNode>, a: nat,
                   mid: Option<ElasticSearchNode>, b: nat, last: Option<ElasticSearchNode>, sum: nat)
    requires |nodes| > 0 && mid == Rotate(nodes, c, a) && last == Rotate(nodes, mid, b) && sum == a + b
    ensures last == Rotate(nodes, c, sum)
  {
    RotateAdd(nodes, c, a, b);
  }

  lemma RotateCongruent(nodes: seq<ElasticSearchNode>, c: Option<ElasticSearchNode>, a: nat, b: nat, m: nat)
    requires |nodes| > 0 && Rotate(nodes, c, a) == Rotate(nodes, c, b)
    ensures Rotate(nodes, c, a + m) == Rotate(nodes, c, b + m)
  {
    RotateAdd(nodes, c, a, m);
    RotateAdd(nodes, c, b, m);
  }

  /** After the last node the rotation wraps to the first, so it repeats
      with period |nodes|. */
  lemma RotationWraps(nodes: seq<ElasticSearchNode>, steps: nat)
    requires |nodes| > 0 && DistinctHosts(nodes) && steps > 0
    ensures Rotate(nodes, None, steps + |nodes|) == Rotate(nodes, None, steps)
  {
    WrapAfterLast(nodes);
    RotateCongruent(nodes, None, |nodes| + 1, 1, steps - 1);
    assert |nodes| + 1 + (steps - 1) == steps + |nodes|;
    assert 1 + (steps - 1) == steps;
  }

  /** The first acceptance among the pings, or their number. */
  function FirstTrue(pings: seq<bool>): (k: nat)
    ensures k <= |pings|
    ensures forall i :: 0 <= i < k ==> !pings[i]
    ensures k < |pings| ==> pings[k]
  {
    if pings == [] then 0 else if pings[0] then 0 else 1 + FirstTrue(pings[1..])
  }

  /** The cluster's answers to CreateIndexTemplateAsync: whether the GET
      of the "oneslogs" template succeeded, whether it found the template
      (a status other than 404), and whether the PUT that creates it
      succeeded. */
  datatype TemplateReply = TemplateReply(getSuccess: bool, found: bool, putSuccess: bool)

  /** CreateIndexTemplateAsync: the outcome, and whether the PUT was sent.
      A failed GET throws, a template that exists is left alone, and a
      missing one is created by the PUT, whose failure throws. */
  function CreateIndexTemplate(t: TemplateReply): (r: (Outcome, bool))
    ensures r.0.Pass? <==> t.getSuccess && (t.found || t.putSuccess)
    ensures r.0.Fail? ==> r.0.error == TemplateFailed
    ensures r.1 <==> t.getSuccess && !t.found
  {
    if !t.getSuccess then (Fail(TemplateFailed), false)
    else if t.found then (Pass, false)
    else if !t.putSuccess then (Fail(TemplateFailed), true)
    else (Pass, true)
  }

  /** One bulk-index call's reply, or the cancellation the loop observes
      before the call; pings and template are the answers the reconnection
      after a failed call gets. */
  datatype Reply =
    | Stop
    | Response(success: bool, itemErrors: bool, taskCanceled: bool, pings: seq<bool>, template: TemplateReply)

  /** Replies past the end of the oracle read as cancellation. */
  function ReplyAt(replies: seq<Reply>, j: nat): Reply
  {
    if j < |replies| then replies[j] else Stop
  }

  /** The node switches of one ConnectAsync over the given pings. */
  function ConnectSteps(pings: seq<bool>): nat
  {
    if FirstTrue(pings) < |pings| then FirstTrue(pings) + 1 else |pings|
  }

  /** What a write loop leaves behind: the number of groups the cluster
      accepted, the outcome, and the node switches of its reconnections. */
  datatype WriteResult = WriteResult(count: nat, outcome: Outcome, switches: nat)

  /** The write loop from group i and reply j on: a successful call without
      item errors stores group i and moves on; a failed call without item
      errors reconnects and retries group i; item errors, a cancelled call
      and a failed index-template step throw; a cancellation, before a call
      or during a reconnection, returns.  Item errors on a successful call
      throw a null reference: the message is read from the call's
      OriginalException, which a successful call does not have. */
  function WriteRun(groups: seq<Group>, replies: seq<Reply>, i: nat, j: nat): (r: WriteResult)
    requires i <= |groups| && j <= |replies|
    ensures i <= r.count <= |groups|
    ensures r.outcome.Fail? ==>
              r.count < |groups| &&
              (r.outcome.error == RequestCanceled || r.outcome.error == WriteFailed(groups[r.count].indexName) ||
               r.outcome.error == TemplateFailed || r.outcome.error == NullReference)
    decreases |replies| - j
  {
    if i == |groups| then WriteResult(i, Pass, 0)
    else
      var reply := ReplyAt(replies, j);
      if reply.Stop? then WriteResult(i, Pass, 0)
      else if !reply.success then
        if reply.taskCanceled then WriteResult(i, Fail(RequestCanceled), 0)
        else if reply.itemErrors then WriteResult(i, Fail(WriteFailed(groups[i].indexName)), 0)
        else if FirstTrue(reply.pings) == |reply.pings| then WriteResult(i, Pass, |reply.pings|)
        else if CreateIndexTemplate(reply.template).0.Fail? then
          WriteResult(i, Fail(TemplateFailed), ConnectSteps(reply.pings))
        else
          var rest := WriteRun(groups, replies, i, j + 1);
          rest.(switches := ConnectSteps(reply.pings) + rest.switches)
      else if reply.itemErrors then WriteResult(i, Fail(NullReference), 0)
      else WriteRun(groups, replies, i + 1, j + 1)
  }

  /** A reply the loop gets through: a call without item errors that either
      succeeds or fails without being cancelled and reconnects, with the
      index template in place. */
  predicate Healthy(r: Reply)
  {
    r.Response? && !r.itemErrors &&
    (r.success || (!r.taskCanceled && FirstTrue(r.pings) < |r.pings| && CreateIndexTemplate(r.template).0.Pass?))
  }

  /** The number of successful calls among the replies from j on. */
  function Successes(replies: seq<Reply>, j: nat): nat
    decreases |replies| - j
  {
    if j >= |replies| then 0
    else (if replies[j].Response? && replies[j].success then 1 else 0) + Successes(replies, j + 1)
  }

  /** With healthy replies the loop never throws and stores one group per
      successful call, until the groups or the replies run out: every group
      is stored exactly when the replies hold a success for each. */
  lemma {:induction false} WriteRunHealthy(groups: seq<Group>, replies: seq<Reply>, i: nat, j: nat)
    requires i <= |groups| && j <= |replies|
    requires forall m :: j <= m < |replies| ==> Healthy(replies[m])
    ensures WriteRun(groups, replies, i, j).outcome == Pass
    ensures WriteRun(groups, replies, i, j).count ==
              if i + Successes(replies, j) <= |groups| then i + Successes(replies, j) else |groups|
    decreases |replies| - j
  {
    if i < |groups| && j < |replies| {
      if replies[j].success {
        WriteRunHealthy(groups, replies, i + 1, j + 1);
      } else {
        WriteRunHealthy(groups, replies, i, j + 1);
      }
    }
  }

  /** One call of the loop: a success stores the group, a failure followed
      by a successful reconnection retries it. */
  lemma WriteRunStep(groups: seq<Group>, replies: seq<Reply>, i: nat, j: nat)
    requires i < |groups| && j < |replies| && Healthy(replies[j])
    ensures replies[j].success ==> WriteRun(groups, replies, i, j) == WriteRun(groups, replies, i + 1, j + 1)
    ensures !replies[j].success ==>
              WriteRun(groups, replies, i, j) ==
              WriteRun(groups, replies, i, j + 1).(switches := ConnectSteps(replies[j].pings) + WriteRun(groups, replies, i, j + 1).switches)
  {
  }

  /** The calls on which the loop leaves: a cancellation before the call, a
      cancelled or rejected call, a reconnection that finds no node, and a
      failed index-template step. */
  lemma WriteRunExits(groups: seq<Group>, replies: seq<Reply>, i: nat, j: nat)
    requires i < |groups| && j <= |replies|
    ensures ReplyAt(replies, j).Stop? ==> WriteRun(groups, replies, i, j) == WriteResult(i, Pass, 0)
    ensures var reply := ReplyAt(replies, j);
            reply.Response? && !reply.success && !reply.taskCanceled && reply.itemErrors ==>
              WriteRun(groups, replies, i, j) == WriteResult(i, Fail(WriteFailed(groups[i].indexName)), 0)
    ensures var reply := ReplyAt(replies, j);
            reply.Response? && reply.success && reply.itemErrors ==>
              WriteRun(groups, replies, i, j) == WriteResult(i, Fail(NullReference), 0)
    ensures var reply := ReplyAt(replies, j);
            reply.Response? && !reply.success && !reply.taskCanceled && !reply.itemErrors &&
            FirstTrue(reply.pings) < |reply.pings| && CreateIndexTemplate(reply.template).0.Fail? ==>
              WriteRun(groups, replies, i, j) == WriteResult(i, Fail(TemplateFailed), ConnectSteps(reply.pings))
    ensures var reply := ReplyAt(replies, j);
            reply.Response? && !reply.success && reply.taskCanceled ==>
              WriteRun(groups, replies, i, j) == WriteResult(i, Fail(RequestCanceled), 0)
    ensures var reply := ReplyAt(replies, j);
            reply.Response? && !reply.success && !reply.taskCanceled && !reply.itemErrors &&
            FirstTrue(reply.pings) == |reply.pings| ==>
              WriteRun(groups, replies, i, j) == WriteResult(i, Pass, |reply.pings|)
  {
  }

  class ElasticSearchStorage {
    const nodes: seq<ElasticSearchNode>
    const index: string
    const separation: string
    var currentNode: Option<ElasticSearchNode>
    /** The groups the cluster has accepted, in order. */
    var written: seq<Group>

    predicate Valid()
      reads this
    {
      |nodes| > 0 && (currentNode.Some? ==> currentNode.value in nodes)
    }

    constructor (nodes: seq<ElasticSearchNode>, index: string, separation: string)
      requires CheckSettings(nodes, index).Pass?
      ensures this.nodes == nodes && this.index == index && this.separation == separation
      ensures currentNode.None? && written == [] && Valid()
    {
      this.nodes := nodes;
      this.index := index;
      this.separation := separation;
      currentNode := None;
      written := [];
    }

    /** The constructor: the settings check throws before any field is used. */
    static method Create(nodes: seq<ElasticSearchNode>, index: string, separation: string)
      returns (r: Result<ElasticSearchStorage>)
      ensures r.Err? <==> CheckSettings(nodes, index).Fail?
      ensures r.Err? ==> r.error == CheckSettings(nodes, index).error
      ensures r.Ok? ==> fresh(r.value) && r.value.Valid() && r.value.currentNode.None? && r.value.written == []
      ensures r.Ok? ==> r.value.nodes == nodes && r.value.index == index && r.value.separation == separation
    {
      var check := CheckSettings(nodes, index);
      if check.Fail? {
        return Err(check.error);
      }
      var s := new ElasticSearchStorage(nodes, index, separation);
      return Ok(s);
    }

    /** SwitchToNextNodeAsync: moves to the next node and pings it. */
    method SwitchToNextNode(ping: bool) returns (connected: bool)
      requires Valid()
      modifies this`currentNode
      ensures Valid() && currentNode == Some(NextNode(nodes, old(currentNode)))
      ensures connected == ping
    {
      match currentNode {
        case None =>
          currentNode := Some(nodes[0]);
        case Some(n) =>
          var currentIndex := IndexOf(nodes, n);
          currentNode := Some(if currentIndex == |nodes| - 1 then nodes[0] else nodes[currentIndex + 1]);
      }
      return ping;
    }

    /** ConnectAsync: switches node until a ping succeeds, then sets up the
        index template, whose failure is rethrown; running out of pings is
        the cancellation that ends the loop. */
    method Connect(pings: seq<bool>, template: TemplateReply) returns (connected: bool, o: Outcome)
      requires Valid()
      modifies this`currentNode
      ensures Valid()
      ensures connected <==> FirstTrue(pings) < |pings|
      ensures o == if connected then CreateIndexTemplate(template).0 else Pass
      ensures currentNode == Rotate(nodes, old(currentNode), if connected then FirstTrue(pings) + 1 else |pings|)
    {
      var i := 0;
      while i < |pings|
        invariant 0 <= i <= FirstTrue(pings) && Valid()
        invariant currentNode == Rotate(nodes, old(currentNode), i)
      {
        RotateStep(nodes, old(currentNode), i);
        connected := SwitchToNextNode(pings[i]);
        if connected {
          o := CreateIndexTemplate(template).0;
          return;
        }
        i := i + 1;
      }
      return false, Pass;
    }

    /** WriteEventLogDataAsync: connects when no node is selected, then
        runs the write loop of WriteRun over the groups of the batch. A
        first connection that finds no node is the cancellation the loop
        then observes before its first call; one whose index-template step
        fails throws before any group is written. */
    method WriteEventLogData(es: seq<EventLogItem>, initialPings: seq<bool>, initialTemplate: TemplateReply,
                             replies: seq<Reply>)
      returns (o: Outcome)
      requires Valid()
      modifies this`currentNode, this`written
      ensures Valid()
      ensures old(currentNode).None? && FirstTrue(initialPings) == |initialPings| ==>
                o == Pass && written == old(written) && currentNode == Rotate(nodes, None, |initialPings|)
      ensures old(currentNode).None? && FirstTrue(initialPings) < |initialPings| &&
              CreateIndexTemplate(initialTemplate).0.Fail? ==>
                o == Fail(TemplateFailed) && written == old(written) &&
                currentNode == Rotate(nodes, None, ConnectSteps(initialPings))
      ensures old(currentNode).Some? ||
              (FirstTrue(initialPings) < |initialPings| && CreateIndexTemplate(initialTemplate).0.Pass?) ==>
                var groups := GetGroupedData(index, separation, es);
                var r := WriteRun(groups, replies, 0, 0);
                var first := if old(currentNode).None? then ConnectSteps(initialPings) else 0;
                o == r.outcome && written == old(written) + groups[..r.count] &&
                currentNode == Rotate(nodes, old(currentNode), first + r.switches)
    {
      var groups := GetGroupedData(index, separation, es);
      o := ConnectAndWrite(groups, initialPings, initialTemplate, replies);
    }

    /** WriteEventLogData once the batch is grouped: connects first when no
        node is selected, then writes the groups. */
    method ConnectAndWrite(groups: seq<Group>, initialPings: seq<bool>, initialTemplate: TemplateReply,
                           replies: seq<Reply>)
      returns (o: Outcome)
      requires Valid()
      modifies this`currentNode, this`written
      ensures Valid()
      ensures old(currentNode).None? && FirstTrue(initialPings) == |initialPings| ==>
                o == Pass && written == old(written) && currentNode == Rotate(nodes, None, |initialPings|)
      ensures old(currentNode).None? && FirstTrue(initialPings) < |initialPings| &&
              CreateIndexTemplate(initialTemplate).0.Fail? ==>
                o == Fail(TemplateFailed) && written == old(written) &&
                currentNode == Rotate(nodes, None, ConnectSteps(initialPings))
      ensures old(currentNode).Some? ||
              (FirstTrue(initialPings) < |initialPings| && CreateIndexTemplate(initialTemplate).0.Pass?) ==>
                var r := WriteRun(groups, replies, 0, 0);
                var first := if old(currentNode).None? then ConnectSteps(initialPings) else 0;
                o == r.outcome && written == old(written) + groups[..r.count] &&
                currentNode == Rotate(nodes, old(currentNode), first + r.switches)
    {
      ghost var first: nat := 0;
      if currentNode.None? {
        var ready;
        ready, o := FirstConnect(initialPings, initialTemplate);
        if !ready {
          return;
        }
        first := ConnectSteps(initialPings);
      }
      ghost var r := WriteRun(groups, replies, 0, 0);
      ghost var mid := currentNode;
      assert mid == Rotate(nodes, old(currentNode), first);
      o := WriteGroups(groups, replies);
      assert o == r.outcome && written == old(written) + groups[..r.count];
      RotateThen(nodes, old(currentNode), first, mid, r.switches, currentNode, first + r.switches);
    }

    /** The connection WriteEventLogDataAsync makes when no node is
        selected: the write loop runs only when it is ready. */
    method FirstConnect(pings: seq<bool>, template: TemplateReply) returns (ready: bool, o: Outcome)
      requires Valid() && currentNode.None?
      modifies this`currentNode
      ensures Valid() && currentNode == Rotate(nodes, None, ConnectSteps(pings))
      ensures ready <==> FirstTrue(pings) < |pings| && CreateIndexTemplate(template).0.Pass?
      ensures !ready ==> o == if FirstTrue(pings) < |pings| then Fail(TemplateFailed) else Pass
    {
      var connected;
      connected, o := Connect(pings, template);
      ready := connected && o.Pass?;
    }

    /** The reconnection after a failed call, counted in node switches
        from where the loop started. */
    method Reconnect(pings: seq<bool>, template: TemplateReply, ghost start: Option<ElasticSearchNode>,
                     ghost switches: nat)
      returns (connected: bool, o: Outcome, ghost after: nat)
      requires Valid() && |nodes| > 0 && currentNode == Rotate(nodes, start, switches)
      modifies this`currentNode
      ensures Valid()
      ensures connected <==> FirstTrue(pings) < |pings|
      ensures o == if connected then CreateIndexTemplate(template).0 else Pass
      ensures after == switches + ConnectSteps(pings) && currentNode == Rotate(nodes, start, after)
    {
      ghost var here := currentNode;
      connected, o := Connect(pings, template);
      after := switches + ConnectSteps(pings);
      RotateThen(nodes, start, switches, here, ConnectSteps(pings), currentNode, after);
    }

    /** The write loop over the groups once a node is selected. */
    method WriteGroups(groups: seq<Group>, replies: seq<Reply>) returns (o: Outcome)
      requires Valid() && currentNode.Some?
      modifies this`currentNode, this`written
      ensures Valid()
      ensures var r := WriteRun(groups, replies, 0, 0);
              o == r.outcome && written == old(written) + groups[..r.count] &&
              currentNode == Rotate(nodes, old(currentNode), r.switches)
    {
      ghost var total := WriteRun(groups, replies, 0, 0);
      ghost var start := currentNode;
      ghost var switches: nat := 0;
      var i := 0;
      var j := 0;
      while i < |groups|
        invariant 0 <= i <= |groups| && 0 <= j <= |replies| && Valid()
        invariant written == old(written) + groups[..i]
        invariant currentNode == Rotate(nodes, start, switches)
        invariant total.count == WriteRun(groups, replies, i, j).count
        invariant total.outcome == WriteRun(groups, replies, i, j).outcome
        invariant total.switches == switches + WriteRun(groups, replies, i, j).switches
        decreases |replies| - j
      {
        var reply := ReplyAt(replies, j);
        WriteRunExits(groups, replies, i, j);
        if reply.Stop? {
          assert total.switches == switches;
          return Pass;
        }
        var item := groups[i];
        if !reply.success {
          if reply.taskCanceled {
            assert total.switches == switches;
            return Fail(RequestCanceled);
          }
          if reply.itemErrors {
            assert total.switches == switches;
            return Fail(WriteFailed(item.indexName));
          }
          if FirstTrue(reply.pings) < |reply.pings| && CreateIndexTemplate(reply.template).0.Pass? {
            WriteRunStep(groups, replies, i, j);
          }
          var connected, setUp;
          connected, setUp, switches := Reconnect(reply.pings, reply.template, start, switches);
          if !connected {
            assert total.switches == switches;
            return Pass;
          }
          if setUp.Fail? {
            assert total.switches == switches;
            return setUp;
          }
        } else {
          if reply.itemErrors {
            assert total.switches == switches;
            return Fail(NullReference);
          }
          WriteRunStep(groups, replies, i, j);
          assert groups[..i + 1] == groups[..i] + [item];
          written := written + [item];
          i := i + 1;
        }
        j := j + 1;
      }
      assert groups[..|groups|] == groups;
      assert total.switches == switches;
      return Pass;
    }
  }
}
