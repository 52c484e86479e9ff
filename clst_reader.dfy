/** The registry reader of the first exporters manager: lists the infobases
    of a cluster registry (1CV8Clst.lst) as a dictionary from infobase name
    to infobase id, keeping those whose name matches an include pattern
    (every infobase when the pattern is blank).

    The registry is taken in its parsed form; the regular-expression engine
    is the parameter `matches`. */
module ClstReader {
  import opened Wrappers
  import opened Strings
  import opened Nodes

  /** Entry i of the infobase list: its id (element 0) and name (element 1). */
  function EntryOf(infoBases: Node, i: int): (r: Result<(string, string)>)
    ensures r.Ok? ==> infoBases.List? && 0 <= i < |infoBases.items|
    ensures r.Err? ==> r.error == FormatError
  {
    var item :- At(infoBases, i);
    var guid :- StringAt(item, 0);
    var name :- StringAt(item, 1);
    Ok((guid, name))
  }

  /** The include filter: a blank pattern includes every name. */
  predicate Includes(includePattern: string, name: string, matches: (string, string) -> bool)
  {
    IsBlank(includePattern) || matches(name, includePattern)
  }

  /** Entry i is well formed and passes the filter. */
  predicate Included(infoBases: Node, i: int, includePattern: string, matches: (string, string) -> bool)
  {
    EntryOf(infoBases, i).Ok? && Includes(includePattern, EntryOf(infoBases, i).value.1, matches)
  }

  /** The result after entries 1..n: each included entry is added under its
      name; a bad entry or a name added twice throws. */
  function IncludedPrefix(infoBases: Node, n: nat, includePattern: string, matches: (string, string) -> bool)
    : Result<map<string, string>>
    decreases n
  {
    if n == 0 then Ok(map[])
    else
      var result :- IncludedPrefix(infoBases, n - 1, includePattern, matches);
      var e :- EntryOf(infoBases, n);
      AddIncluded(result, e, includePattern, matches)
  }

  /** One pass of the loop body over a well-formed entry (guid, name). */
  function AddIncluded(result: map<string, string>, e: (string, string), includePattern: string,
                       matches: (string, string) -> bool): Result<map<string, string>>
  {
    if !Includes(includePattern, e.1, matches) then Ok(result)
    else if e.1 in result then Err(DuplicateKey(e.1))
    else Ok(result[e.1 := e.0])
  }

  /** GetInfoBases on the parsed file: the list is element 2, its count
      element 0 of the list; a count of zero or less gives an empty result. */
  function InfoBasesOf(parsed: Node, includePattern: string, matches: (string, string) -> bool)
    : Result<map<string, string>>
  {
    var infoBases :- At(parsed, 2);
    var count :- IntAt(infoBases, 0);
    if count > 0 then IncludedPrefix(infoBases, count, includePattern, matches) else Ok(map[])
  }

  /** A successful read of entries 1..n is a successful read of 1..n-1 and a
      well-formed entry n, added exactly when it is included. */
  lemma IncludedPrefixStep(infoBases: Node, n: nat, includePattern: string, matches: (string, string) -> bool)
    requires n > 0 && IncludedPrefix(infoBases, n, includePattern, matches).Ok?
    ensures IncludedPrefix(infoBases, n - 1, includePattern, matches).Ok? && EntryOf(infoBases, n).Ok?
    ensures var result := IncludedPrefix(infoBases, n - 1, includePattern, matches).value;
            var m := IncludedPrefix(infoBases, n, includePattern, matches).value;
            var e := EntryOf(infoBases, n).value;
            if Included(infoBases, n, includePattern, matches) then e.1 !in result && m == result[e.1 := e.0]
            else m == result
  {
  }

  /** Once an entry fails, the whole read fails the same way. */
  lemma {:induction false} ErrorPersists(infoBases: Node, n: nat, m: nat, includePattern: string,
                                          matches: (string, string) -> bool)
    requires n <= m && IncludedPrefix(infoBases, n, includePattern, matches).Err?
    ensures IncludedPrefix(infoBases, m, includePattern, matches) == IncludedPrefix(infoBases, n, includePattern, matches)
    decreases m
  {
    if m > n {
      ErrorPersists(infoBases, n, m - 1, includePattern, matches);
    }
  }

  /** The result maps the name of entry k to its id, if entry k is included. */
  predicate HoldsIfIncluded(m: map<string, string>, infoBases: Node, k: int, includePattern: string,
                            matches: (string, string) -> bool)
  {
    Included(infoBases, k, includePattern, matches) ==>
      EntryOf(infoBases, k).value.1 in m && m[EntryOf(infoBases, k).value.1] == EntryOf(infoBases, k).value.0
  }

  /** A successful read maps every included name to its id. */
  lemma {:induction false} ResultHoldsIncluded(infoBases: Node, n: nat, includePattern: string,
                                                matches: (string, string) -> bool)
    requires IncludedPrefix(infoBases, n, includePattern, matches).Ok?
    ensures forall k :: 1 <= k <= n ==>
              HoldsIfIncluded(IncludedPrefix(infoBases, n, includePattern, matches).value, infoBases, k, includePattern, matches)
    decreases n
  {
    if n > 0 {
      IncludedPrefixStep(infoBases, n, includePattern, matches);
      ResultHoldsIncluded(infoBases, n - 1, includePattern, matches);
      var result := IncludedPrefix(infoBases, n - 1, includePattern, matches).value;
      var m := IncludedPrefix(infoBases, n, includePattern, matches).value;
      forall k | 1 <= k <= n
        ensures HoldsIfIncluded(m, infoBases, k, includePattern, matches)
      {
        if k < n {
          assert HoldsIfIncluded(result, infoBases, k, includePattern, matches);
        }
      }
    }
  }

  /** Every name of a successful read comes from an included entry. */
  lemma {:induction false} ResultOnlyIncluded(infoBases: Node, n: nat, includePattern: string,
                                               matches: (string, string) -> bool)
    requires IncludedPrefix(infoBases, n, includePattern, matches).Ok?
    ensures var m := IncludedPrefix(infoBases, n, includePattern, matches).value;
            forall name :: name in m ==> exists k :: 1 <= k <= n && Included(infoBases, k, includePattern, matches) &&
                                                    EntryOf(infoBases, k).value.1 == name
    decreases n
  {
    if n > 0 {
      IncludedPrefixStep(infoBases, n, includePattern, matches);
      ResultOnlyIncluded(infoBases, n - 1, includePattern, matches);
    }
  }

  /** In a successful read no two included entries share a name: a repeated
      name throws. */
  lemma {:induction false} IncludedNamesDistinct(infoBases: Node, n: nat, includePattern: string,
                                                  matches: (string, string) -> bool)
    requires IncludedPrefix(infoBases, n, includePattern, matches).Ok?
    ensures forall j, k :: 1 <= j < k <= n && Included(infoBases, j, includePattern, matches) &&
                           Included(infoBases, k, includePattern, matches) ==>
              EntryOf(infoBases, j).value.1 != EntryOf(infoBases, k).value.1
    decreases n
  {
    if n > 0 {
      IncludedPrefixStep(infoBases, n, includePattern, matches);
      IncludedNamesDistinct(infoBases, n - 1, includePattern, matches);
      ResultHoldsIncluded(infoBases, n - 1, includePattern, matches);
      var result := IncludedPrefix(infoBases, n - 1, includePattern, matches).value;
      if Included(infoBases, n, includePattern, matches) {
        var name := EntryOf(infoBases, n).value.1;
        assert name !in result;
        forall j | 1 <= j < n && Included(infoBases, j, includePattern, matches)
          ensures EntryOf(infoBases, j).value.1 != name
        {
          assert HoldsIfIncluded(result, infoBases, j, includePattern, matches);
        }
      }
    }
  }

  /** GetInfoBases: the counted loop over the entries. */
  method GetInfoBases(parsed: Node, includePattern: string, matches: (string, string) -> bool)
    returns (r: Result<map<string, string>>)
    ensures r == InfoBasesOf(parsed, includePattern, matches)
  {
    var infoBases :- At(parsed, 2);
    var infoBasesCount :- IntAt(infoBases, 0);
    var result: map<string, string> := map[];
    if infoBasesCount > 0 {
      for i := 1 to infoBasesCount + 1
        invariant IncludedPrefix(infoBases, i - 1, includePattern, matches) == Ok(result)
      {
        var item := EntryOf(infoBases, i);
        if item.Err? {
          ErrorPersists(infoBases, i, infoBasesCount, includePattern, matches);
          return Err(item.error);
        }
        var (guid, name) := item.value;
        var included := true;
        if !IsBlank(includePattern) {
          included := matches(name, includePattern);
        }
        if included {
          if name in result {
            ErrorPersists(infoBases, i, infoBasesCount, includePattern, matches);
            return Err(DuplicateKey(name));
          }
          result := result[name := guid];
        }
      }
    }
    return Ok(result);
  }
}
