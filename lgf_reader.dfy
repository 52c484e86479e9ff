/** The reference resolver of an event log: a forward-only cursor over the
    nodes of the reference file 1Cv8.lgf that fills two lookup tables keyed by
    (object type, number).  Users and Metadata entries carry a (name, uuid)
    pair; every other known category carries a plain value.

    The file is given as the sequence of its parsed nodes, each with the byte
    offset at which it ends; the parser and the byte arithmetic are not part
    of this model. */
module LgfReaderModel {
  import opened Wrappers
  import opened Nodes
  import Items

  /** One node of the reference file and the stream position after it. */
  datatype RefNode = RefNode(node: Node, endPos: nat)

  /** (ObjectType, number) */
  type Key = (int, int)

  /** The (Value, Uuid) pair of a referenced object. */
  datatype Named = Named(name: string, uuid: string)

  datatype Tables = Tables(objects: map<Key, string>, referenced: map<Key, Named>)

  /** What one node contributes: nothing (an unknown category), a plain
      value, or a referenced (name, uuid) pair. */
  datatype Entry = Skip | Plain(key: Key, value: string) | Ref(key: Key, named: Named)

  /** Where a scan stops: an object type and number, or (with type None) a
      stream position to reach. */
  datatype Query = Query(objectType: int, number: int, position: int)

  /** The reader's cursor: the index of the next node, the stream position
      and the two tables. */
  datatype Cursor = Cursor(next: nat, position: nat, tables: Tables)

  datatype ScanResult = ScanResult(cursor: Cursor, outcome: Outcome)

  predicate RefType(ot: int)
  {
    ot == Items.Users || ot == Items.Metadata
  }

  predicate PlainType(ot: int)
  {
    ot < Items.Unknown && !RefType(ot)
  }

  /** Every plain key has a plain category and every referenced key a
      referenced one; in particular no key of an unknown category is stored. */
  predicate WellTyped(t: Tables)
  {
    (forall k :: k in t.objects ==> PlainType(k.0)) &&
    (forall k :: k in t.referenced ==> RefType(k.0))
  }

  /** The casts applied to one node: [0] is the category; Users and Metadata
      are keyed by [3] with value ([2], [1]); other known categories are keyed
      by [2] with value [1]; categories from Unknown upwards are skipped. */
  function Decode(n: Node): (r: Result<Entry>)
    ensures r.Ok? && r.value.Plain? ==> PlainType(r.value.key.0)
    ensures r.Ok? && r.value.Ref? ==> RefType(r.value.key.0)
    ensures r.Ok? && r.value.Skip? <==> IntAt(n, 0).Ok? && IntAt(n, 0).value >= Items.Unknown
    ensures r.Err? ==> Malformed(r.error)
  {
    var ot :- IntAt(n, 0);
    if ot >= Items.Unknown then Ok(Skip)
    else if RefType(ot) then
      var number :- IntAt(n, 3);
      var name :- StringAt(n, 2);
      var uuid :- StringAt(n, 1);
      Ok(Ref((ot, number), Named(name, uuid)))
    else
      var number :- IntAt(n, 2);
      var value :- StringAt(n, 1);
      Ok(Plain((ot, number), value))
  }

  /** The tables after storing one node; an undecodable or skipped node stores
      nothing.  A present key is replaced. */
  function StoreNode(t: Tables, n: Node): Tables
  {
    match Decode(n)
    case Ok(Plain(k, v)) => t.(objects := t.objects[k := v])
    case Ok(Ref(k, v)) => t.(referenced := t.referenced[k := v])
    case _ => t
  }

  /** The stop rule after a stored entry: a position query is satisfied once
      the stream has reached the position, any query once the sought key was
      stored. */
  predicate Stops(e: Entry, pos: int, q: Query)
  {
    !e.Skip? &&
    ((q.objectType == Items.None && pos >= q.position) ||
     (e.key.0 == q.objectType && e.key.1 == q.number))
  }

  /** The scan ReadTill performs, from cursor c until the stop rule holds, a
      node fails to decode, or the stream ends. */
  function Scan(file: seq<RefNode>, c: Cursor, q: Query): (r: ScanResult)
    ensures c.next <= r.cursor.next
    ensures c.next <= |file| ==> r.cursor.next <= |file|
    ensures c.next >= |file| ==> r == ScanResult(c, Pass)
    ensures c.tables.objects.Keys <= r.cursor.tables.objects.Keys
    ensures c.tables.referenced.Keys <= r.cursor.tables.referenced.Keys
    ensures WellTyped(c.tables) ==> WellTyped(r.cursor.tables)
    decreases |file| - c.next
  {
    if c.next >= |file| then ScanResult(c, Pass)
    else
      var item := file[c.next];
      var c' := Cursor(c.next + 1, item.endPos, StoreNode(c.tables, item.node));
      match Decode(item.node)
      case Err(e) => ScanResult(c', Fail(e))
      case Ok(entry) =>
        if Stops(entry, item.endPos, q) then ScanResult(c', Pass) else Scan(file, c', q)
  }

  /** A scan fails only on a malformed node. */
  lemma {:induction false} ScanFailsOnlyOnFormat(file: seq<RefNode>, c: Cursor, q: Query)
    ensures Scan(file, c, q).outcome.Fail? ==> Malformed(Scan(file, c, q).outcome.error)
    decreases |file| - c.next
  {
    if c.next < |file| {
      var item := file[c.next];
      var c' := Cursor(c.next + 1, item.endPos, StoreNode(c.tables, item.node));
      var d := Decode(item.node);
      if d.Ok? && !Stops(d.value, item.endPos, q) {
        assert Scan(file, c, q) == Scan(file, c', q);
        ScanFailsOnlyOnFormat(file, c', q);
      }
    }
  }

  /** Node k is decoded and does not stop a scan for q. */
  predicate Passes(item: RefNode, q: Query)
  {
    Decode(item.node).Ok? && !Stops(Decode(item.node).value, item.endPos, q)
  }

  /** A scan for q starting at index from crosses every node before j. */
  predicate Clear(file: seq<RefNode>, from: int, j: int, q: Query)
  {
    0 <= from <= j <= |file| && forall k :: from <= k < j ==> Passes(file[k], q)
  }

  predicate PlainKeyAt(file: seq<RefNode>, j: int, key: Key)
  {
    0 <= j < |file| && Decode(file[j].node).Ok? && Decode(file[j].node).value.Plain?
    && Decode(file[j].node).value.key == key
  }

  predicate RefKeyAt(file: seq<RefNode>, j: int, key: Key)
  {
    0 <= j < |file| && Decode(file[j].node).Ok? && Decode(file[j].node).value.Ref?
    && Decode(file[j].node).value.key == key
  }

  /** A node that passes hands the scan on to the next one. */
  lemma ScanStep(file: seq<RefNode>, c: Cursor, q: Query)
    requires c.next < |file| && Passes(file[c.next], q)
    ensures Scan(file, c, q) == Scan(file, Cursor(c.next + 1, file[c.next].endPos, StoreNode(c.tables, file[c.next].node)), q)
  {
  }

  /** The scan ends right after the first node that stops it. */
  lemma {:induction false} ScanStopsAtFirstStop(file: seq<RefNode>, c: Cursor, q: Query, j: nat)
    requires Clear(file, c.next, j, q) && j < |file|
    requires Decode(file[j].node).Ok? && Stops(Decode(file[j].node).value, file[j].endPos, q)
    ensures Scan(file, c, q).cursor.next == j + 1 && Scan(file, c, q).outcome == Pass
    ensures Scan(file, c, q).cursor.position == file[j].endPos
    decreases j - c.next
  {
    var c' := Cursor(c.next + 1, file[c.next].endPos, StoreNode(c.tables, file[c.next].node));
    if c.next < j {
      assert Passes(file[c.next], q);
      ScanStep(file, c, q);
      ScanStopsAtFirstStop(file, c', q, j);
    }
  }

  /** The scan ends right after the first node that fails to decode, with its
      error. */
  lemma {:induction false} ScanFailsAtFirstBadNode(file: seq<RefNode>, c: Cursor, q: Query, j: nat)
    requires Clear(file, c.next, j, q) && j < |file| && Decode(file[j].node).Err?
    ensures Scan(file, c, q) .cursor.next == j + 1
    ensures Scan(file, c, q).outcome == Fail(Decode(file[j].node).error)
    decreases j - c.next
  {
    var c' := Cursor(c.next + 1, file[c.next].endPos, StoreNode(c.tables, file[c.next].node));
    if c.next < j {
      assert Passes(file[c.next], q);
      ScanStep(file, c, q);
      ScanFailsAtFirstBadNode(file, c', q, j);
    }
  }

  /** When no node stops it and none fails, the scan consumes the whole rest
      of the stream. */
  lemma {:induction false} ScanRunsToEnd(file: seq<RefNode>, c: Cursor, q: Query)
    requires Clear(file, c.next, |file|, q)
    ensures Scan(file, c, q).cursor.next == |file| && Scan(file, c, q).outcome == Pass
    decreases |file| - c.next
  {
    if c.next < |file| {
      assert Passes(file[c.next], q);
      var c' := Cursor(c.next + 1, file[c.next].endPos, StoreNode(c.tables, file[c.next].node));
      ScanStep(file, c, q);
      ScanRunsToEnd(file, c', q);
    }
  }

  /** A scan from i crosses the nodes before j exactly when it crosses node i
      and then the nodes from i + 1. */
  lemma ClearFrom(file: seq<RefNode>, i: int, j: int, q: Query)
    requires 0 <= i < j <= |file|
    ensures Clear(file, i, j, q) <==> Passes(file[i], q) && Clear(file, i + 1, j, q)
  {
    if Clear(file, i, j, q) {
      assert Passes(file[i], q);
    }
  }

  /** No node is crossed by a scan that cannot go past its first node. */
  lemma ClearOnlyStart(file: seq<RefNode>, i: int, q: Query)
    requires 0 <= i <= |file| && (i < |file| ==> !Passes(file[i], q))
    ensures forall j :: Clear(file, i, j, q) ==> j == i
  {
    forall j | Clear(file, i, j, q) ensures j == i {
      if j > i {
        assert false;
      }
    }
  }

  /** A node that does not pass is the last one a scan consumes; the scan
      fails when the node fails to decode. */
  lemma ScanEndsHere(file: seq<RefNode>, c: Cursor, q: Query)
    requires c.next < |file| && !Passes(file[c.next], q)
    ensures Scan(file, c, q).cursor == Cursor(c.next + 1, file[c.next].endPos, StoreNode(c.tables, file[c.next].node))
    ensures Scan(file, c, q).outcome ==
      if Decode(file[c.next].node).Err? then Fail(Decode(file[c.next].node).error) else Pass
  {
  }

  /** What remains of a scan from c: nothing once it has stopped or the
      file is exhausted. */
  function ScanRest(file: seq<RefNode>, c: Cursor, q: Query, stop: bool): ScanResult
  {
    if stop || c.next >= |file| then ScanResult(c, Pass) else Scan(file, c, q)
  }

  /** One node of a scan: a malformed node ends it with its error, any
      other node is stored and the scan goes on unless the node stops it. */
  lemma ScanAdvance(file: seq<RefNode>, c: Cursor, q: Query)
    requires c.next < |file|
    ensures var item := file[c.next];
      var c' := Cursor(c.next + 1, item.endPos, StoreNode(c.tables, item.node));
      var d := Decode(item.node);
      (d.Err? ==> Scan(file, c, q) == ScanResult(c', Fail(d.error))) &&
      (d.Ok? ==> Scan(file, c, q) == ScanRest(file, c', q, Stops(d.value, item.endPos, q)))
  {
  }

  /** A node that decodes hands the scan on to the cursor after it, or ends
      the scan when it stops it. */
  lemma ScanGoesOn(file: seq<RefNode>, c: Cursor, q: Query, c': Cursor, stop: bool)
    requires c.next < |file| && Decode(file[c.next].node).Ok?
    requires c' == Cursor(c.next + 1, file[c.next].endPos, StoreNode(c.tables, file[c.next].node))
    requires stop == Stops(Decode(file[c.next].node).value, file[c.next].endPos, q)
    ensures ScanRest(file, c, q, false) == ScanRest(file, c', q, stop)
  {
    ScanAdvance(file, c, q);
  }

  /** Storing node j adds or replaces a plain key exactly when the node
      decodes to it, and leaves every other plain key as it was. */
  lemma StoreNodePlain(t: Tables, file: seq<RefNode>, j: nat, key: Key)
    requires j < |file|
    ensures key in StoreNode(t, file[j].node).objects <==> key in t.objects || PlainKeyAt(file, j, key)
    ensures PlainKeyAt(file, j, key) ==> StoreNode(t, file[j].node).objects[key] == Decode(file[j].node).value.value
    ensures !PlainKeyAt(file, j, key) && key in t.objects ==> StoreNode(t, file[j].node).objects[key] == t.objects[key]
  {
  }

  /** The same for a referenced key. */
  lemma StoreNodeRef(t: Tables, file: seq<RefNode>, j: nat, key: Key)
    requires j < |file|
    ensures key in StoreNode(t, file[j].node).referenced <==> key in t.referenced || RefKeyAt(file, j, key)
    ensures RefKeyAt(file, j, key) ==> StoreNode(t, file[j].node).referenced[key] == Decode(file[j].node).value.named
    ensures !RefKeyAt(file, j, key) && key in t.referenced ==> StoreNode(t, file[j].node).referenced[key] == t.referenced[key]
  {
  }

  /** A node storing the sought key stops the scan, so it is the last one
      consumed and its value is what the table holds afterwards. */
  lemma {:induction false} ScanPlainValue(file: seq<RefNode>, c: Cursor, q: Query, j: int)
    requires Clear(file, c.next, j, q) && PlainKeyAt(file, j, (q.objectType, q.number))
    ensures (q.objectType, q.number) in Scan(file, c, q).cursor.tables.objects
    ensures Scan(file, c, q).cursor.tables.objects[(q.objectType, q.number)] == Decode(file[j].node).value.value
    decreases j - c.next
  {
    if j == c.next {
      assert !Passes(file[j], q);
      ScanEndsHere(file, c, q);
      StoreNodePlain(c.tables, file, j, (q.objectType, q.number));
    } else {
      ClearFrom(file, c.next, j, q);
      ScanStep(file, c, q);
      ScanPlainValue(file, Cursor(c.next + 1, file[c.next].endPos, StoreNode(c.tables, file[c.next].node)), q, j);
    }
  }

  /** A sought key the scan added comes from a node the scan reached. */
  lemma {:induction false} ScanPlainOrigin(file: seq<RefNode>, c: Cursor, q: Query) returns (j: int)
    requires c.next <= |file|
    requires (q.objectType, q.number) in Scan(file, c, q).cursor.tables.objects
    requires (q.objectType, q.number) !in c.tables.objects
    ensures Clear(file, c.next, j, q) && PlainKeyAt(file, j, (q.objectType, q.number))
    decreases |file| - c.next
  {
    var key := (q.objectType, q.number);
    assert c.next < |file|;
    if Passes(file[c.next], q) {
      var c' := Cursor(c.next + 1, file[c.next].endPos, StoreNode(c.tables, file[c.next].node));
      assert key !in c'.tables.objects by {
        assert !PlainKeyAt(file, c.next, key);
        StoreNodePlain(c.tables, file, c.next, key);
      }
      assert key in Scan(file, c', q).cursor.tables.objects by {
        ScanStep(file, c, q);
      }
      j := ScanPlainOrigin(file, c', q);
      assert Clear(file, c.next, j, q) by {
        ClearFrom(file, c.next, j, q);
      }
    } else {
      assert PlainKeyAt(file, c.next, key) by {
        ScanEndsHere(file, c, q);
        StoreNodePlain(c.tables, file, c.next, key);
      }
      j := c.next;
      assert Clear(file, c.next, j, q);
    }
  }

  /** After a scan for q, the sought plain key is in the table exactly when it
      was there before or the node that stopped the scan stored it there, and
      then it holds that node's value. */
  lemma ScanFindsPlainKey(file: seq<RefNode>, c: Cursor, q: Query)
    requires c.next <= |file|
    ensures var r := Scan(file, c, q).cursor.tables; var key := (q.objectType, q.number);
      key in r.objects <==>
        key in c.tables.objects || exists j :: Clear(file, c.next, j, q) && PlainKeyAt(file, j, key)
    ensures var r := Scan(file, c, q).cursor.tables; var key := (q.objectType, q.number);
      forall j :: Clear(file, c.next, j, q) && PlainKeyAt(file, j, key) ==>
        r.objects[key] == Decode(file[j].node).value.value
  {
    var key := (q.objectType, q.number);
    if key in Scan(file, c, q).cursor.tables.objects && key !in c.tables.objects {
      var j := ScanPlainOrigin(file, c, q);
    }
    forall j | Clear(file, c.next, j, q) && PlainKeyAt(file, j, key)
      ensures key in Scan(file, c, q).cursor.tables.objects
      ensures Scan(file, c, q).cursor.tables.objects[key] == Decode(file[j].node).value.value
    {
      ScanPlainValue(file, c, q, j);
    }
  }

  /** A node storing the sought key stops the scan, so it is the last one
      consumed and its value is what the table holds afterwards. */
  lemma {:induction false} ScanRefValue(file: seq<RefNode>, c: Cursor, q: Query, j: int)
    requires Clear(file, c.next, j, q) && RefKeyAt(file, j, (q.objectType, q.number))
    ensures (q.objectType, q.number) in Scan(file, c, q).cursor.tables.referenced
    ensures Scan(file, c, q).cursor.tables.referenced[(q.objectType, q.number)] == Decode(file[j].node).value.named
    decreases j - c.next
  {
    if j == c.next {
      assert !Passes(file[j], q);
      ScanEndsHere(file, c, q);
      StoreNodeRef(c.tables, file, j, (q.objectType, q.number));
    } else {
      ClearFrom(file, c.next, j, q);
      ScanStep(file, c, q);
      ScanRefValue(file, Cursor(c.next + 1, file[c.next].endPos, StoreNode(c.tables, file[c.next].node)), q, j);
    }
  }

  /** A sought key the scan added comes from a node the scan reached. */
  lemma {:induction false} ScanRefOrigin(file: seq<RefNode>, c: Cursor, q: Query) returns (j: int)
    requires c.next <= |file|
    requires (q.objectType, q.number) in Scan(file, c, q).cursor.tables.referenced
    requires (q.objectType, q.number) !in c.tables.referenced
    ensures Clear(file, c.next, j, q) && RefKeyAt(file, j, (q.objectType, q.number))
    decreases |file| - c.next
  {
    var key := (q.objectType, q.number);
    assert c.next < |file|;
    if Passes(file[c.next], q) {
      var c' := Cursor(c.next + 1, file[c.next].endPos, StoreNode(c.tables, file[c.next].node));
      assert key !in c'.tables.referenced by {
        assert !RefKeyAt(file, c.next, key);
        StoreNodeRef(c.tables, file, c.next, key);
      }
      assert key in Scan(file, c', q).cursor.tables.referenced by {
        ScanStep(file, c, q);
      }
      j := ScanRefOrigin(file, c', q);
      assert Clear(file, c.next, j, q) by {
        ClearFrom(file, c.next, j, q);
      }
    } else {
      assert RefKeyAt(file, c.next, key) by {
        ScanEndsHere(file, c, q);
        StoreNodeRef(c.tables, file, c.next, key);
      }
      j := c.next;
      assert Clear(file, c.next, j, q);
    }
  }

  /** The same for a referenced key and the (name, uuid) table. */
  lemma ScanFindsRefKey(file: seq<RefNode>, c: Cursor, q: Query)
    requires c.next <= |file|
    ensures var r := Scan(file, c, q).cursor.tables; var key := (q.objectType, q.number);
      key in r.referenced <==>
        key in c.tables.referenced || exists j :: Clear(file, c.next, j, q) && RefKeyAt(file, j, key)
    ensures var r := Scan(file, c, q).cursor.tables; var key := (q.objectType, q.number);
      forall j :: Clear(file, c.next, j, q) && RefKeyAt(file, j, key) ==>
        r.referenced[key] == Decode(file[j].node).value.named
  {
    var key := (q.objectType, q.number);
    if key in Scan(file, c, q).cursor.tables.referenced && key !in c.tables.referenced {
      var j := ScanRefOrigin(file, c, q);
    }
    forall j | Clear(file, c.next, j, q) && RefKeyAt(file, j, key)
      ensures key in Scan(file, c, q).cursor.tables.referenced
      ensures Scan(file, c, q).cursor.tables.referenced[key] == Decode(file[j].node).value.named
    {
      ScanRefValue(file, c, q, j);
    }
  }

  /** The tables after storing the nodes lo..hi-1 in order. */
  function Absorb(t: Tables, file: seq<RefNode>, lo: nat, hi: nat): Tables
    requires lo <= hi <= |file|
    decreases hi - lo
  {
    if hi == lo then t else StoreNode(Absorb(t, file, lo, hi - 1), file[hi - 1].node)
  }

  lemma {:induction false} AbsorbFirst(t: Tables, file: seq<RefNode>, lo: nat, hi: nat)
    requires lo < hi <= |file|
    ensures Absorb(StoreNode(t, file[lo].node), file, lo + 1, hi) == Absorb(t, file, lo, hi)
    decreases hi - lo
  {
    if hi > lo + 1 {
      AbsorbFirst(t, file, lo, hi - 1);
    }
  }

  /** The tables a scan leaves are exactly the nodes it consumed, stored in
      order. */
  lemma {:induction false} ScanAbsorbs(file: seq<RefNode>, c: Cursor, q: Query)
    requires c.next <= |file|
    ensures Scan(file, c, q).cursor.tables == Absorb(c.tables, file, c.next, Scan(file, c, q).cursor.next)
    decreases |file| - c.next
  {
    if c.next < |file| {
      var c' := Cursor(c.next + 1, file[c.next].endPos, StoreNode(c.tables, file[c.next].node));
      if Passes(file[c.next], q) {
        ScanStep(file, c, q);
        ScanAbsorbs(file, c', q);
        AbsorbFirst(c.tables, file, c.next, Scan(file, c', q).cursor.next);
      } else {
        ScanEndsHere(file, c, q);
        assert Absorb(c.tables, file, c.next, c.next) == c.tables;
      }
    }
  }

  /** Storing one node touches at most the key it decodes to. */
  lemma StoreNodeOther(t: Tables, file: seq<RefNode>, j: nat, key: Key)
    requires j < |file| && !PlainKeyAt(file, j, key)
    ensures key in StoreNode(t, file[j].node).objects <==> key in t.objects
    ensures key in t.objects ==> StoreNode(t, file[j].node).objects[key] == t.objects[key]
  {
  }

  /** Re-reading a key never removes it: after storing nodes a..b-1 a plain
      key is present exactly when it was before or one of them stores it. */
  lemma {:induction false} AbsorbKeepsKeys(t: Tables, file: seq<RefNode>, a: nat, b: nat, key: Key)
    requires a <= b <= |file|
    ensures key in Absorb(t, file, a, b).objects <==>
      key in t.objects || exists j :: a <= j < b && PlainKeyAt(file, j, key)
    decreases b - a
  {
    if b > a {
      AbsorbKeepsKeys(t, file, a, b - 1, key);
      if PlainKeyAt(file, b - 1, key) {
        assert a <= b - 1 < b;
      } else {
        StoreNodeOther(Absorb(t, file, a, b - 1), file, b - 1, key);
        if j :| a <= j < b && PlainKeyAt(file, j, key) {
          assert j < b - 1;
        }
      }
    }
  }

  /** The last occurrence wins: a plain key holds the value of the last of
      the nodes a..b-1 that stores it. */
  lemma {:induction false} AbsorbLastWins(t: Tables, file: seq<RefNode>, a: nat, b: nat, key: Key, j: nat)
    requires a <= j < b <= |file| && PlainKeyAt(file, j, key)
    requires forall i :: j < i < b ==> !PlainKeyAt(file, i, key)
    ensures key in Absorb(t, file, a, b).objects
    ensures Absorb(t, file, a, b).objects[key] == Decode(file[j].node).value.value
    decreases b - a
  {
    if j < b - 1 {
      AbsorbLastWins(t, file, a, b - 1, key, j);
      StoreNodeOther(Absorb(t, file, a, b - 1), file, b - 1, key);
    }
  }

  /** A key that none of the nodes a..b-1 stores keeps its old value. */
  lemma {:induction false} AbsorbUntouched(t: Tables, file: seq<RefNode>, a: nat, b: nat, key: Key)
    requires a <= b <= |file| && key in t.objects
    requires forall j :: a <= j < b ==> !PlainKeyAt(file, j, key)
    ensures key in Absorb(t, file, a, b).objects
    ensures Absorb(t, file, a, b).objects[key] == t.objects[key]
    decreases b - a
  {
    if b > a {
      AbsorbUntouched(t, file, a, b - 1, key);
      StoreNodeOther(Absorb(t, file, a, b - 1), file, b - 1, key);
    }
  }

  /** The file content visible through the open stream; a file that vanished
      after opening yields nothing more. */
  function Contents(lgf: Option<seq<RefNode>>): seq<RefNode>
  {
    if lgf.Some? then lgf.value else []
  }

  /** The reference reader.  lgf, passed to each call, is the current state
      of the reference file on disk (None when it does not exist). */
  class LgfReader {
    const lgfPath: string
    var isOpen: bool
    var disposed: bool
    var next: nat
    var position: nat
    var objects: map<Key, string>
    var referenced: map<Key, Named>

    function Cur(): Cursor
      reads this
    {
      Cursor(next, position, Tables(objects, referenced))
    }

    constructor (lgfPath: string)
      ensures this.lgfPath == lgfPath && !isOpen && !disposed
      ensures Cur() == Cursor(0, 0, Tables(map[], map[]))
    {
      this.lgfPath := lgfPath;
      isOpen := false;
      disposed := false;
      next := 0;
      position := 0;
      objects := map[];
      referenced := map[];
    }

    /** Opens the stream on first use; a missing file throws. */
    method InitializeStreams(lgf: Option<seq<RefNode>>) returns (o: Outcome)
      modifies this`isOpen
      ensures o.Pass? <==> old(isOpen) || lgf.Some?
      ensures o.Fail? ==> o.error == FileNotFound(lgfPath)
      ensures isOpen == (old(isOpen) || lgf.Some?)
    {
      o := Pass;
      if !isOpen {
        if lgf.None? {
          return Fail(FileNotFound(lgfPath));
        }
        isOpen := true;
      }
    }

    /** Consumes nodes until the stop rule for q holds; a failing cast leaves
        the failing node consumed. A cancelled token stops before the first
        node. */
    method ReadTill(q: Query, lgf: Option<seq<RefNode>>, cancelled: bool) returns (o: Outcome)
      modifies this`isOpen, this`next, this`position, this`objects, this`referenced
      ensures old(disposed) ==> o == Fail(NullReference) && Cur() == old(Cur()) && isOpen == old(isOpen)
      ensures !old(disposed) && !old(isOpen) && lgf.None? ==>
        o == Fail(FileNotFound(lgfPath)) && Cur() == old(Cur()) && !isOpen
      ensures !old(disposed) && (old(isOpen) || lgf.Some?) ==> (isOpen &&
        var s := if cancelled then ScanResult(old(Cur()), Pass) else Scan(Contents(lgf), old(Cur()), q);
        Cur() == s.cursor && o == s.outcome)
    {
      if disposed {
        return Fail(NullReference);
      }
      o := InitializeStreams(lgf);
      if o.Fail? {
        return;
      }
      o := Consume(Contents(lgf), q, cancelled);
    }

    /** The loop of ReadTill over the open stream: consumes nodes while none
        has stopped the scan, the stream has nodes left and the token has
        not fired. */
    method Consume(file: seq<RefNode>, q: Query, cancelled: bool) returns (o: Outcome)
      modifies this`next, this`position, this`objects, this`referenced
      ensures cancelled ==> o == Pass && Cur() == old(Cur())
      ensures !cancelled ==> Scan(file, old(Cur()), q) == ScanResult(Cur(), o)
    {
      o := Pass;
      var stop := false;
      while !stop && next < |file| && !cancelled
        invariant cancelled ==> Cur() == old(Cur())
        invariant !cancelled ==> Scan(file, old(Cur()), q) == ScanRest(file, Cur(), q, stop)
        decreases |file| - next, !stop
      {
        var item := file[next];
        ghost var before := Cur();
        var d;
        d, stop := ReadNode(item, q);
        ScanAdvance(file, before, q);
        if d.Err? {
          return Fail(d.error);
        }
        ScanGoesOn(file, before, q, Cur(), stop);
      }
    }

    /** One iteration of ReadTill: consume a node and store what it decodes
        to, replacing a present key; stop says whether the scan ends here. */
    method ReadNode(item: RefNode, q: Query) returns (d: Result<Entry>, stop: bool)
      modifies this`next, this`position, this`objects, this`referenced
      ensures d == Decode(item.node)
      ensures Cur() == Cursor(old(next) + 1, item.endPos, StoreNode(old(Cur()).tables, item.node))
      ensures stop <==> d.Ok? && Stops(d.value, item.endPos, q)
    {
      next := next + 1;
      position := item.endPos;
      stop := false;
      d := Decode(item.node);
      if d.Err? {
        return;
      }
      match d.value {
        case Skip =>
        case Ref(key, named) =>
          if key in referenced {
            referenced := referenced - {key};
          }
          referenced := referenced[key := named];
          if q.objectType == Items.None && position >= q.position {
            stop := true;
          } else if key.0 == q.objectType && key.1 == q.number {
            stop := true;
          }
        case Plain(key, value) =>
          if key in objects {
            objects := objects - {key};
          }
          objects := objects[key := value];
          if q.objectType == Items.None && position >= q.position {
            stop := true;
          } else if key.0 == q.objectType && key.1 == q.number {
            stop := true;
          }
      }
    }

    /** Moves the cursor to the first known node whose end reaches position. */
    method SetPosition(pos: int, lgf: Option<seq<RefNode>>, cancelled: bool) returns (o: Outcome)
      modifies this`isOpen, this`next, this`position, this`objects, this`referenced
      ensures old(disposed) ==> o == Fail(NullReference) && Cur() == old(Cur())
      ensures !old(disposed) && !old(isOpen) && lgf.None? ==> o == Fail(FileNotFound(lgfPath)) && Cur() == old(Cur())
      ensures !old(disposed) && (old(isOpen) || lgf.Some?) ==> (isOpen &&
        var s := if cancelled then ScanResult(old(Cur()), Pass)
                 else Scan(Contents(lgf), old(Cur()), Query(Items.None, 0, pos));
        Cur() == s.cursor && o == s.outcome)
    {
      o := ReadTill(Query(Items.None, 0, pos), lgf, cancelled);
    }

    method GetPosition(lgf: Option<seq<RefNode>>) returns (r: Result<nat>)
      modifies this`isOpen
      ensures r.Ok? <==> old(isOpen) || lgf.Some?
      ensures r.Ok? ==> r.value == position
      ensures r.Err? ==> r.error == FileNotFound(lgfPath)
    {
      var o := InitializeStreams(lgf);
      if o.Fail? {
        return Err(o.error);
      }
      return Ok(position);
    }

    /** The value of a plain object; number 0 denotes "no object". A miss
        scans forward until the key appears and looks again. */
    method GetObjectValue(ot: int, number: int, lgf: Option<seq<RefNode>>, cancelled: bool)
      returns (r: Result<string>)
      modifies this`isOpen, this`next, this`position, this`objects, this`referenced
      ensures isOpen == (old(isOpen) || (number != 0 && !old(disposed) && (ot, number) !in old(objects) && lgf.Some?))
      ensures number == 0 ==> r == Ok("") && Cur() == old(Cur()) && isOpen == old(isOpen)
      ensures number != 0 && old(disposed) ==> r == Err(NullReference) && Cur() == old(Cur())
      ensures number != 0 && !old(disposed) && (ot, number) in old(objects) ==>
        r == Ok(old(objects)[(ot, number)]) && Cur() == old(Cur()) && isOpen == old(isOpen)
      ensures number != 0 && !old(disposed) && (ot, number) !in old(objects) ==>
        if !old(isOpen) && lgf.None? then r == Err(FileNotFound(lgfPath)) && Cur() == old(Cur())
        else
          var s := if cancelled then ScanResult(old(Cur()), Pass)
                   else Scan(Contents(lgf), old(Cur()), Query(ot, number, 0));
          Cur() == s.cursor &&
          r == (if s.outcome.Fail? then Err(s.outcome.error)
                else if (ot, number) in objects then Ok(objects[(ot, number)])
                else Err(ObjectNotFound(ot, number)))
    {
      if number == 0 {
        return Ok("");
      }
      if disposed {
        return Err(NullReference);
      }
      if (ot, number) in objects {
        return Ok(objects[(ot, number)]);
      }
      var o := ReadTill(Query(ot, number, 0), lgf, cancelled);
      if o.Fail? {
        return Err(o.error);
      }
      if (ot, number) in objects {
        return Ok(objects[(ot, number)]);
      }
      return Err(ObjectNotFound(ot, number));
    }

    /** The (name, uuid) pair of a Users or Metadata object; number 0 denotes
        "no object". */
    method GetReferencedObjectValue(ot: int, number: int, lgf: Option<seq<RefNode>>, cancelled: bool)
      returns (r: Result<Named>)
      modifies this`isOpen, this`next, this`position, this`objects, this`referenced
      ensures isOpen == (old(isOpen) || (number != 0 && !old(disposed) && (ot, number) !in old(referenced) && lgf.Some?))
      ensures number == 0 ==> r == Ok(Named("", "")) && Cur() == old(Cur()) && isOpen == old(isOpen)
      ensures number != 0 && old(disposed) ==> r == Err(NullReference) && Cur() == old(Cur())
      ensures number != 0 && !old(disposed) && (ot, number) in old(referenced) ==>
        r == Ok(old(referenced)[(ot, number)]) && Cur() == old(Cur()) && isOpen == old(isOpen)
      ensures number != 0 && !old(disposed) && (ot, number) !in old(referenced) ==>
        if !old(isOpen) && lgf.None? then r == Err(FileNotFound(lgfPath)) && Cur() == old(Cur())
        else
          var s := if cancelled then ScanResult(old(Cur()), Pass)
                   else Scan(Contents(lgf), old(Cur()), Query(ot, number, 0));
          Cur() == s.cursor &&
          r == (if s.outcome.Fail? then Err(s.outcome.error)
                else if (ot, number) in referenced then Ok(referenced[(ot, number)])
                else Err(ObjectNotFound(ot, number)))
    {
      if number == 0 {
        return Ok(Named("", ""));
      }
      if disposed {
        return Err(NullReference);
      }
      if (ot, number) in referenced {
        return Ok(referenced[(ot, number)]);
      }
      var o := ReadTill(Query(ot, number, 0), lgf, cancelled);
      if o.Fail? {
        return Err(o.error);
      }
      if (ot, number) in referenced {
        return Ok(referenced[(ot, number)]);
      }
      return Err(ObjectNotFound(ot, number));
    }

    /** Releases the tables and closes the stream; a second call does
        nothing.  With the stream gone, a later GetPosition opens the file
        afresh and reports the start of it. */
    method Dispose()
      modifies this`disposed, this`isOpen, this`next, this`position
      ensures disposed
      ensures !old(disposed) ==> !isOpen && next == 0 && position == 0
      ensures old(disposed) ==> isOpen == old(isOpen) && next == old(next) && position == old(position)
    {
      if !disposed {
        isOpen := false;
        next := 0;
        position := 0;
        disposed := true;
      }
    }
  }

  /** What GetObjectValue finds from cursor c, and the cursor it leaves:
      number 0 and a cached key leave the cursor in place; any other key is
      sought by a scan from the cursor (no scan when cancelled) and is found
      when the tables hold it afterwards. */
  function PlainLookup(file: seq<RefNode>, c: Cursor, ot: int, number: int, cancelled: bool): (Option<string>, Cursor)
  {
    if number == 0 then (Some(""), c)
    else if (ot, number) in c.tables.objects then (Some(c.tables.objects[(ot, number)]), c)
    else
      var s := if cancelled then ScanResult(c, Pass) else Scan(file, c, Query(ot, number, 0));
      var found := s.outcome.Pass? && (ot, number) in s.cursor.tables.objects;
      (if found then Some(s.cursor.tables.objects[(ot, number)]) else None, s.cursor)
  }

  /** What GetReferencedObjectValue finds from cursor c, and the cursor it
      leaves, in the same way. */
  function NamedLookup(file: seq<RefNode>, c: Cursor, ot: int, number: int, cancelled: bool): (Option<Named>, Cursor)
  {
    if number == 0 then (Some(Named("", "")), c)
    else if (ot, number) in c.tables.referenced then (Some(c.tables.referenced[(ot, number)]), c)
    else
      var s := if cancelled then ScanResult(c, Pass) else Scan(file, c, Query(ot, number, 0));
      var found := s.outcome.Pass? && (ot, number) in s.cursor.tables.referenced;
      (if found then Some(s.cursor.tables.referenced[(ot, number)]) else None, s.cursor)
  }

  /** A plain lookup of a key that is not cached succeeds exactly when the
      scan it triggers reaches, without a failing node before it, a node
      storing that key; every node it crosses is left behind the cursor. */
  lemma LookupSucceedsIff(file: seq<RefNode>, c: Cursor, ot: int, number: int)
    requires c.next <= |file| && (ot, number) !in c.tables.objects
    ensures var s := Scan(file, c, Query(ot, number, 0));
      (s.outcome.Pass? && (ot, number) in s.cursor.tables.objects) <==>
      exists j :: Clear(file, c.next, j, Query(ot, number, 0)) && PlainKeyAt(file, j, (ot, number))
  {
    var q := Query(ot, number, 0);
    ScanFindsPlainKey(file, c, q);
    var s := Scan(file, c, q);
    if j :| Clear(file, c.next, j, q) && PlainKeyAt(file, j, (ot, number)) {
      ScanStopsAtFirstStop(file, c, q, j);
    }
  }

  /** GetObjectValue finds a value from cursor c exactly when the number is
      0, the key is cached, or, without cancellation, a node ahead stores
      the key with no failing node before it. */
  lemma PlainLookupSucceedsIff(file: seq<RefNode>, c: Cursor, ot: int, number: int, cancelled: bool)
    requires c.next <= |file|
    ensures PlainLookup(file, c, ot, number, cancelled).0.Some? <==>
      number == 0 || (ot, number) in c.tables.objects ||
      (!cancelled && exists j :: Clear(file, c.next, j, Query(ot, number, 0)) && PlainKeyAt(file, j, (ot, number)))
  {
    if number != 0 && (ot, number) !in c.tables.objects && !cancelled {
      LookupSucceedsIff(file, c, ot, number);
    }
  }

  /** GetReferencedObjectValue finds a value in the same way, from the
      nodes of referenced objects. */
  lemma NamedLookupSucceedsIff(file: seq<RefNode>, c: Cursor, ot: int, number: int, cancelled: bool)
    requires c.next <= |file|
    ensures NamedLookup(file, c, ot, number, cancelled).0.Some? <==>
      number == 0 || (ot, number) in c.tables.referenced ||
      (!cancelled && exists j :: Clear(file, c.next, j, Query(ot, number, 0)) && RefKeyAt(file, j, (ot, number)))
  {
    if number != 0 && (ot, number) !in c.tables.referenced && !cancelled {
      var q := Query(ot, number, 0);
      ScanFindsRefKey(file, c, q);
      if j :| Clear(file, c.next, j, q) && RefKeyAt(file, j, (ot, number)) {
        ScanStopsAtFirstStop(file, c, q, j);
      }
    }
  }
}
