/** The cluster registry watcher: reads the infobase list of a 1C server
    cluster (1CV8Clst.lst), keeps the infobases whose name matches one of
    the configured templates, and on every change of the file reports the
    infobases that appeared and those that disappeared.

    The registry file is taken in its parsed form (a bracket node); the
    regular-expression engine is the parameter `matches`, which tells
    whether a name matches a mask; the file-system notification is a call
    of ReadInfoBasesAndRaiseEvents with the newly parsed file. */
module Clst {
  import opened Wrappers
  import opened Strings
  import opened Nodes

  /** An infobase as the watcher keeps it: its name and the database name
      its template gives it. */
  type Info = (string, string)

  /** A template: a name mask and the database-name pattern, in which
      "[IBNAME]" stands for the infobase name. */
  datatype TemplateItem = TemplateItem(mask: string, template: string)

  /** The events the watcher raises. */
  datatype ClstEvent =
    | InfoBaseAdded(id: string, info: Info)
    | InfoBaseDeleted(id: string, info: Info)

  const MissingClstMessage: string := "Couldn't find LST \"1CV8Clst.lst\" file"

  // ---------------------------------------------------------------------
  // Template matching

  /** The index of the first template whose mask matches the name, or the
      number of templates when none does. */
  function FirstMatch(templates: seq<TemplateItem>, name: string, matches: (string, string) -> bool): nat
    decreases |templates|
  {
    if |templates| == 0 then 0
    else if matches(name, templates[0].mask) then 0
    else 1 + FirstMatch(templates[1..], name, matches)
  }

  lemma {:induction false} FirstMatchIsFirst(templates: seq<TemplateItem>, name: string, matches: (string, string) -> bool)
    ensures var k := FirstMatch(templates, name, matches);
            && k <= |templates|
            && (k < |templates| ==> matches(name, templates[k].mask))
            && (forall j :: 0 <= j < k ==> !matches(name, templates[j].mask))
    decreases |templates|
  {
    if |templates| > 0 && !matches(name, templates[0].mask) {
      FirstMatchIsFirst(templates[1..], name, matches);
      var k := FirstMatch(templates[1..], name, matches);
      forall j | 0 <= j < k + 1
        ensures !matches(name, templates[j].mask)
      {
        if j > 0 {
          assert templates[j] == templates[1..][j - 1];
        }
      }
    }
  }

  /** The database name of an infobase: the first matching template with
      "[IBNAME]" replaced by the name, or nothing when no template matches. */
  function DataBaseNameFor(templates: seq<TemplateItem>, name: string, matches: (string, string) -> bool): Option<string>
  {
    var k := FirstMatch(templates, name, matches);
    if k < |templates| then Some(ReplaceAll(templates[k].template, "[IBNAME]", name)) else None
  }

  /** An infobase is kept iff some mask matches its name, and then the first
      matching template names its database. */
  lemma DataBaseNameIsFirstMatch(templates: seq<TemplateItem>, name: string, matches: (string, string) -> bool)
    ensures DataBaseNameFor(templates, name, matches).None? <==>
              forall j :: 0 <= j < |templates| ==> !matches(name, templates[j].mask)
    ensures DataBaseNameFor(templates, name, matches).Some? ==>
              exists k :: 0 <= k < |templates| && matches(name, templates[k].mask) &&
                (forall j :: 0 <= j < k ==> !matches(name, templates[j].mask)) &&
                DataBaseNameFor(templates, name, matches).value == ReplaceAll(templates[k].template, "[IBNAME]", name)
  {
    FirstMatchIsFirst(templates, name, matches);
  }

  // ---------------------------------------------------------------------
  // Reading the registry

  /** Entry i of the infobase list: its id (element 0) and name (element 5). */
  function EntryAt(infoBases: Node, i: int): (r: Result<(string, string)>)
    ensures r.Ok? ==> infoBases.List? && 0 <= i < |infoBases.items|
    ensures r.Err? ==> r.error == FormatError
  {
    var entry :- At(infoBases, i);
    var id :- StringAt(entry, 0);
    var name :- StringAt(entry, 5);
    Ok((id, name))
  }

  /** Entry i is well formed and some template keeps it. */
  predicate Kept(infoBases: Node, i: int, templates: seq<TemplateItem>, matches: (string, string) -> bool)
  {
    EntryAt(infoBases, i).Ok? && DataBaseNameFor(templates, EntryAt(infoBases, i).value.1, matches).Some?
  }

  /** The id and the record of a kept entry. */
  function KeptEntry(infoBases: Node, i: int, templates: seq<TemplateItem>, matches: (string, string) -> bool): (string, Info)
    requires Kept(infoBases, i, templates, matches)
  {
    var e := EntryAt(infoBases, i).value;
    (e.0, (e.1, DataBaseNameFor(templates, e.1, matches).value))
  }

  /** The dictionary after entries 1..n: each kept entry is added under its
      id; a bad entry or an id added twice throws. */
  function ReadPrefix(infoBases: Node, n: nat, templates: seq<TemplateItem>, matches: (string, string) -> bool)
    : Result<map<string, Info>>
    decreases n
  {
    if n == 0 then Ok(map[])
    else
      var items :- ReadPrefix(infoBases, n - 1, templates, matches);
      var e :- EntryAt(infoBases, n);
      AddInfoBase(items, e, templates, matches)
  }

  /** One pass of the loop body over a well-formed entry (id, name). */
  function AddInfoBase(items: map<string, Info>, e: (string, string), templates: seq<TemplateItem>,
                       matches: (string, string) -> bool): Result<map<string, Info>>
  {
    match DataBaseNameFor(templates, e.1, matches)
    case None => Ok(items)
    case Some(db) => if e.0 in items then Err(DuplicateKey(e.0)) else Ok(items[e.0 := (e.1, db)])
  }

  /** A successful read of entries 1..n is a successful read of 1..n-1 and a
      well-formed entry n; it adds entry n exactly when entry n is kept. */
  lemma ReadPrefixStep(infoBases: Node, n: nat, templates: seq<TemplateItem>, matches: (string, string) -> bool)
    requires n > 0 && ReadPrefix(infoBases, n, templates, matches).Ok?
    ensures ReadPrefix(infoBases, n - 1, templates, matches).Ok? && EntryAt(infoBases, n).Ok?
    ensures var items := ReadPrefix(infoBases, n - 1, templates, matches).value;
            var m := ReadPrefix(infoBases, n, templates, matches).value;
            if Kept(infoBases, n, templates, matches) then
              KeptEntry(infoBases, n, templates, matches).0 !in items &&
              m == items[KeptEntry(infoBases, n, templates, matches).0 := KeptEntry(infoBases, n, templates, matches).1]
            else m == items
  {
  }

  /** ReadInfoBases on the parsed file: the list is element 2, its count
      element 0 of the list; a count of zero or less reads no entry. */
  function InfoBasesOf(parsed: Node, templates: seq<TemplateItem>, matches: (string, string) -> bool)
    : Result<map<string, Info>>
  {
    var infoBases :- At(parsed, 2);
    var count :- IntAt(infoBases, 0);
    if count > 0 then ReadPrefix(infoBases, count, templates, matches) else Ok(map[])
  }

  /** Once an entry fails, the whole read fails the same way. */
  lemma {:induction false} ErrorPersists(infoBases: Node, n: nat, m: nat, templates: seq<TemplateItem>,
                                          matches: (string, string) -> bool)
    requires n <= m && ReadPrefix(infoBases, n, templates, matches).Err?
    ensures ReadPrefix(infoBases, m, templates, matches) == ReadPrefix(infoBases, n, templates, matches)
    decreases m
  {
    if m > n {
      ErrorPersists(infoBases, n, m - 1, templates, matches);
    }
  }

  /** A successful read met no malformed entry. */
  lemma {:induction false} ReadPrefixEntriesOk(infoBases: Node, n: nat, templates: seq<TemplateItem>,
                                                matches: (string, string) -> bool)
    requires ReadPrefix(infoBases, n, templates, matches).Ok?
    ensures forall k :: 1 <= k <= n ==> EntryAt(infoBases, k).Ok?
    decreases n
  {
    if n > 0 {
      ReadPrefixStep(infoBases, n, templates, matches);
      ReadPrefixEntriesOk(infoBases, n - 1, templates, matches);
    }
  }

  /** The map holds entry k if that entry is kept. */
  predicate HoldsIfKept(m: map<string, Info>, infoBases: Node, k: int, templates: seq<TemplateItem>,
                        matches: (string, string) -> bool)
  {
    Kept(infoBases, k, templates, matches) ==>
      KeptEntry(infoBases, k, templates, matches).0 in m &&
      m[KeptEntry(infoBases, k, templates, matches).0] == KeptEntry(infoBases, k, templates, matches).1
  }

  /** A successful read holds every kept entry, under its id, with its name
      and database name. */
  lemma {:induction false} ReadPrefixHoldsKept(infoBases: Node, n: nat, templates: seq<TemplateItem>,
                                                matches: (string, string) -> bool)
    requires ReadPrefix(infoBases, n, templates, matches).Ok?
    ensures forall k :: 1 <= k <= n ==>
              HoldsIfKept(ReadPrefix(infoBases, n, templates, matches).value, infoBases, k, templates, matches)
    decreases n
  {
    if n > 0 {
      ReadPrefixStep(infoBases, n, templates, matches);
      ReadPrefixHoldsKept(infoBases, n - 1, templates, matches);
      var items := ReadPrefix(infoBases, n - 1, templates, matches).value;
      var m := ReadPrefix(infoBases, n, templates, matches).value;
      forall k | 1 <= k <= n
        ensures HoldsIfKept(m, infoBases, k, templates, matches)
      {
        if k < n {
          assert HoldsIfKept(items, infoBases, k, templates, matches);
        }
      }
    }
  }

  /** Every id in a successful read comes from a kept entry. */
  lemma {:induction false} ReadPrefixKeysAreKept(infoBases: Node, n: nat, templates: seq<TemplateItem>,
                                                  matches: (string, string) -> bool)
    requires ReadPrefix(infoBases, n, templates, matches).Ok?
    ensures var m := ReadPrefix(infoBases, n, templates, matches).value;
            forall id :: id in m ==> exists k :: 1 <= k <= n && Kept(infoBases, k, templates, matches) &&
                                                KeptEntry(infoBases, k, templates, matches).0 == id
    decreases n
  {
    if n > 0 {
      ReadPrefixStep(infoBases, n, templates, matches);
      ReadPrefixKeysAreKept(infoBases, n - 1, templates, matches);
    }
  }

  /** Every prefix of a successful read succeeds. */
  lemma {:induction false} ReadPrefixOkBefore(infoBases: Node, n: nat, k: nat, templates: seq<TemplateItem>,
                                               matches: (string, string) -> bool)
    requires k <= n && ReadPrefix(infoBases, n, templates, matches).Ok?
    ensures ReadPrefix(infoBases, k, templates, matches).Ok?
    decreases n
  {
    if k < n {
      ReadPrefixStep(infoBases, n, templates, matches);
      ReadPrefixOkBefore(infoBases, n - 1, k, templates, matches);
    }
  }

  /** In a successful read no two kept entries share an id: a repeated id
      throws. */
  lemma KeptIdsDistinct(infoBases: Node, n: nat, templates: seq<TemplateItem>, matches: (string, string) -> bool)
    requires ReadPrefix(infoBases, n, templates, matches).Ok?
    ensures forall j, k :: 1 <= j < k <= n && Kept(infoBases, j, templates, matches) && Kept(infoBases, k, templates, matches) ==>
              KeptEntry(infoBases, j, templates, matches).0 != KeptEntry(infoBases, k, templates, matches).0
  {
    forall j, k | 1 <= j < k <= n && Kept(infoBases, j, templates, matches) && Kept(infoBases, k, templates, matches)
      ensures KeptEntry(infoBases, j, templates, matches).0 != KeptEntry(infoBases, k, templates, matches).0
    {
      ReadPrefixOkBefore(infoBases, n, k, templates, matches);
      ReadPrefixStep(infoBases, k, templates, matches);
      ReadPrefixHoldsKept(infoBases, k - 1, templates, matches);
      assert HoldsIfKept(ReadPrefix(infoBases, k - 1, templates, matches).value, infoBases, j, templates, matches);
    }
  }

  /** The difference of two snapshots: the (id, record) pairs of the first
      that the second does not hold. */
  function Except(a: map<string, Info>, b: map<string, Info>): (r: set<(string, Info)>)
    ensures forall id, v :: (id, v) in r <==> id in a && a[id] == v && !(id in b && b[id] == v)
  {
    set id | id in a && !(id in b && b[id] == a[id]) :: (id, a[id])
  }

  /** The pairs of a snapshot. */
  function Pairs(a: map<string, Info>): (r: set<(string, Info)>)
    ensures forall id, v :: (id, v) in r <==> id in a && a[id] == v
  {
    set id | id in a :: (id, a[id])
  }

  /** Applying the reported changes to the old snapshot gives the new one. */
  lemma DiffRebuildsSnapshot(old_: map<string, Info>, new_: map<string, Info>)
    ensures (Pairs(old_) - Except(old_, new_)) + Except(new_, old_) == Pairs(new_)
  {
    var lhs := (Pairs(old_) - Except(old_, new_)) + Except(new_, old_);
    forall p | p in lhs
      ensures p in Pairs(new_)
    {
      if p in Except(new_, old_) {
      } else {
        assert p.0 in old_ && old_[p.0] == p.1;
      }
    }
    forall p | p in Pairs(new_)
      ensures p in lhs
    {
      assert p.0 in new_ && new_[p.0] == p.1;
    }
  }

  /** An infobase whose record changed is reported both as added (with the
      new record) and as deleted (with the old one). */
  lemma ChangedRecordReportedTwice(old_: map<string, Info>, new_: map<string, Info>, id: string)
    requires id in old_ && id in new_ && old_[id] != new_[id]
    ensures (id, new_[id]) in Except(new_, old_)
    ensures (id, old_[id]) in Except(old_, new_)
  {
  }

  /** An infobase present with the same record in both snapshots is not
      reported at all. */
  lemma UnchangedNotReported(old_: map<string, Info>, new_: map<string, Info>, id: string)
    requires id in old_ && id in new_ && old_[id] == new_[id]
    ensures forall v :: (id, v) !in Except(new_, old_) && (id, v) !in Except(old_, new_)
  {
  }

  /** The events of one kind for a set of pairs, one per pair, in the
      dictionary's enumeration order (left to the choice of `:|`). */
  method Raise(pairs: set<(string, Info)>, added: bool) returns (events: seq<ClstEvent>)
    ensures |events| == |pairs|
    ensures forall e :: e in events <==> e.InfoBaseAdded? == added && (e.id, e.info) in pairs
  {
    events := [];
    var remaining := pairs;
    while remaining != {}
      invariant remaining <= pairs
      invariant |events| + |remaining| == |pairs|
      invariant forall e :: e in events <==> e.InfoBaseAdded? == added && (e.id, e.info) in pairs - remaining
      decreases |remaining|
    {
      var p :| p in remaining;
      var e := if added then InfoBaseAdded(p.0, p.1) else InfoBaseDeleted(p.0, p.1);
      events := events + [e];
      remaining := remaining - {p};
    }
  }

  /** The loop over the templates that stops at the first match. */
  method MatchTemplate(templates: seq<TemplateItem>, name: string, matches: (string, string) -> bool)
    returns (t: nat)
    ensures t == FirstMatch(templates, name, matches)
  {
    FirstMatchIsFirst(templates, name, matches);
    t := 0;
    while t < |templates|
      invariant 0 <= t <= |templates|
      invariant forall j :: 0 <= j < t ==> !matches(name, templates[j].mask)
    {
      if matches(name, templates[t].mask) {
        return;
      }
      t := t + 1;
    }
  }

  // ---------------------------------------------------------------------
  // The watcher

  class ClstWatcher {
    const folder: string
    const templates: seq<TemplateItem>
    const matches: (string, string) -> bool
    /** The last snapshot of the kept infobases, by id. */
    var infoBases: map<string, Info>

    constructor (folder: string, templates: seq<TemplateItem>, matches: (string, string) -> bool,
                 infoBases: map<string, Info>)
      ensures this.folder == folder && this.templates == templates && this.matches == matches
      ensures this.infoBases == infoBases
    {
      this.folder := folder;
      this.templates := templates;
      this.matches := matches;
      this.infoBases := infoBases;
    }

    /** The public constructor: a missing 1CV8Clst.lst throws; otherwise the
        first snapshot is read, and its errors propagate. */
    static method Open(folder: string, clstExists: bool, parsed: Node, templates: seq<TemplateItem>,
                       matches: (string, string) -> bool)
      returns (r: Result<ClstWatcher>)
      ensures !clstExists ==> r == Err(InvalidSettings(MissingClstMessage))
      ensures clstExists && InfoBasesOf(parsed, templates, matches).Err? ==>
                r == Err(InfoBasesOf(parsed, templates, matches).error)
      ensures r.Ok? ==> clstExists && InfoBasesOf(parsed, templates, matches).Ok? && fresh(r.value) &&
                        r.value.infoBases == InfoBasesOf(parsed, templates, matches).value &&
                        r.value.folder == folder && r.value.templates == templates && r.value.matches == matches
    {
      if !clstExists {
        return Err(InvalidSettings(MissingClstMessage));
      }
      var items := ReadInfoBases(parsed, templates, matches);
      if items.Err? {
        return Err(items.error);
      }
      var w := new ClstWatcher(folder, templates, matches, items.value);
      return Ok(w);
    }

    /** ReadInfoBases: the counted loop over the entries, with the inner
        loop over the templates that stops at the first match. */
    static method ReadInfoBases(parsed: Node, templates: seq<TemplateItem>, matches: (string, string) -> bool)
      returns (r: Result<map<string, Info>>)
      ensures r == InfoBasesOf(parsed, templates, matches)
    {
      var infoBases :- At(parsed, 2);
      var count :- IntAt(infoBases, 0);
      var items: map<string, Info> := map[];
      if count > 0 {
        var i := 1;
        while i <= count
          invariant 1 <= i <= count + 1
          invariant ReadPrefix(infoBases, i - 1, templates, matches) == Ok(items)
        {
          var entry := EntryAt(infoBases, i);
          if entry.Err? {
            ErrorPersists(infoBases, i, count, templates, matches);
            return Err(entry.error);
          }
          var (id, name) := entry.value;
          var t := MatchTemplate(templates, name, matches);
          if t < |templates| {
            var dataBaseName := ReplaceAll(templates[t].template, "[IBNAME]", name);
            if id in items {
              ErrorPersists(infoBases, i, count, templates, matches);
              return Err(DuplicateKey(id));
            }
            items := items[id := (name, dataBaseName)];
          }
          i := i + 1;
        }
      }
      return Ok(items);
    }

    /** ReadInfoBasesAndRaiseEvents: the added pairs are raised first, then
        the deleted ones, and the new snapshot replaces the old.  A read that
        throws raises nothing and keeps the snapshot. */
    method ReadInfoBasesAndRaiseEvents(parsed: Node) returns (events: seq<ClstEvent>, o: Outcome)
      modifies this`infoBases
      ensures InfoBasesOf(parsed, templates, matches).Err? ==>
                o == Fail(InfoBasesOf(parsed, templates, matches).error) && events == [] && infoBases == old(infoBases)
      ensures InfoBasesOf(parsed, templates, matches).Ok? ==>
                o.Pass? && infoBases == InfoBasesOf(parsed, templates, matches).value
      ensures o.Pass? ==> (
                var added := Except(infoBases, old(infoBases));
                var deleted := Except(old(infoBases), infoBases);
                |events| == |added| + |deleted| &&
                (forall k :: 0 <= k < |added| ==> events[k].InfoBaseAdded? && (events[k].id, events[k].info) in added) &&
                (forall k :: |added| <= k < |events| ==> events[k].InfoBaseDeleted? && (events[k].id, events[k].info) in deleted) &&
                (forall p :: p in added ==> InfoBaseAdded(p.0, p.1) in events) &&
                (forall p :: p in deleted ==> InfoBaseDeleted(p.0, p.1) in events))
    {
      var newInfoBases := ReadInfoBases(parsed, templates, matches);
      if newInfoBases.Err? {
        return [], Fail(newInfoBases.error);
      }
      var addedEvents := Raise(Except(newInfoBases.value, infoBases), true);
      var deletedEvents := Raise(Except(infoBases, newInfoBases.value), false);
      events := addedEvents + deletedEvents;
      forall k | 0 <= k < |addedEvents|
        ensures addedEvents[k] in addedEvents
      {
      }
      forall k | 0 <= k < |deletedEvents|
        ensures deletedEvents[k] in deletedEvents
      {
      }
      infoBases := newInfoBases.value;
      o := Pass;
    }
  }
}
