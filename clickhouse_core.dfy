/** The ClickHouse storage: the database name taken out of the connection
    string, the 24-column row written per record, the checkpoint read back
    from the row with the largest Id, and the connection opened once.

    The server table is a field of the storage; the bulk copy's success is
    an oracle. */
module ClickHouseCore {
  import opened Wrappers
  import opened Strings
  import opened Items

  // ---------------------------------------------------------------------
  // Connection string

  const DatabaseKey: string := "Database="

  /** ASCII lower case, the case folding the key needs. */
  function Lower(c: char): char
  {
    if 'A' <= c <= 'Z' then (c as int - 'A' as int + 'a' as int) as char else c
  }

  /** "Database=" starts at i, case-sensitively. */
  predicate KeyAt(s: string, i: int)
  {
    0 <= i && i + |DatabaseKey| <= |s| && s[i..i + |DatabaseKey|] == DatabaseKey
  }

  /** "Database=" starts at i, ignoring case. */
  predicate KeyAtCI(s: string, i: int)
  {
    0 <= i && i + |DatabaseKey| <= |s| &&
    forall k :: 0 <= k < |DatabaseKey| ==> Lower(s[i + k]) == Lower(DatabaseKey[k])
  }

  /** `(;|$)` holds at q: a ';' follows, or q is the end of the string or
      the index of a final '\n' (`$` without the Multiline option). */
  predicate Closes(s: string, q: int)
  {
    0 <= q <= |s| && (q == |s| || s[q] == ';' || (q == |s| - 1 && s[q] == '\n'))
  }

  /** Where the lazy `.*?` started at p stops in front of `(;|$)`: the first
      q at or after p where the value closes, or -1 when a '\n' that `.`
      cannot match comes first. */
  function ValueEnd(s: string, p: nat): (q: int)
    requires p <= |s|
    ensures q != -1 ==> p <= q && Closes(s, q)
    ensures q != -1 ==> forall k :: p <= k < q ==> s[k] != ';' && s[k] != '\n'
    decreases |s| - p
  {
    if Closes(s, p) then p
    else if s[p] == '\n' then -1
    else ValueEnd(s, p + 1)
  }

  /** The value fails to close only at a '\n' that is not the last
      character and has no ';' before it. */
  lemma {:induction false} ValueEndFails(s: string, p: nat) returns (k: nat)
    requires p <= |s| && ValueEnd(s, p) == -1
    ensures p <= k < |s| - 1 && s[k] == '\n'
    ensures forall j :: p <= j < k ==> s[j] != ';' && s[j] != '\n'
    decreases |s| - p
  {
    if s[p] == '\n' {
      k := p;
    } else {
      k := ValueEndFails(s, p + 1);
    }
  }

  /** The first case-insensitive "Database=" at or after i, or -1. */
  function FindKeyCI(s: string, i: nat): (r: int)
    ensures r == -1 || (i <= r && KeyAtCI(s, r))
    ensures forall j :: i <= j && (r == -1 || j < r) ==> !KeyAtCI(s, j)
    decreases |s| - i
  {
    if i + |DatabaseKey| > |s| then -1
    else if KeyAtCI(s, i) then i
    else FindKeyCI(s, i + 1)
  }

  /** The first case-insensitive "Database=" at or after i whose value
      closes, or -1: a key whose value runs into a '\n' is passed over. */
  function MatchKeyCI(s: string, i: nat): (r: int)
    ensures r == -1 || (i <= r && KeyAtCI(s, r) && ValueEnd(s, r + |DatabaseKey|) != -1)
    ensures forall j :: i <= j && (r == -1 || j < r) && KeyAtCI(s, j) ==> ValueEnd(s, j + |DatabaseKey|) == -1
    decreases |s| - i
  {
    var j := FindKeyCI(s, i);
    if j == -1 then -1
    else if ValueEnd(s, j + |DatabaseKey|) != -1 then j
    else MatchKeyCI(s, j + 1)
  }

  /** Regex.Match(s, "(?<=Database=).*?(?=(;|$))", IgnoreCase).Value: the
      text after the first "Database=" in any case whose value closes, up
      to the ';', the end or a final '\n'; "" when there is none. */
  function ExtractDatabase(s: string): (r: string)
    ensures forall k :: 0 <= k < |r| ==> r[k] != ';' && r[k] != '\n'
    ensures FindKeyCI(s, 0) == -1 ==> r == ""
  {
    var i := MatchKeyCI(s, 0);
    if i < 0 then "" else s[i + |DatabaseKey|..ValueEnd(s, i + |DatabaseKey|)]
  }

  /** Regex.Replace(s, "Database=.*?(;|$)", ""): every case-sensitive
      "Database=" segment whose value closes is removed with its closing
      ';' (a final '\n' is kept), scanning left to right; a key whose value
      runs into a '\n' stays. */
  function StripDatabase(s: string): (r: string)
    ensures |r| <= |s|
    decreases |s|
  {
    if s == [] then []
    else if KeyAt(s, 0) && ValueEnd(s, |DatabaseKey|) != -1 then
      var q := ValueEnd(s, |DatabaseKey|);
      if q < |s| && s[q] == ';' then StripDatabase(s[q + 1..]) else StripDatabase(s[q..])
    else [s[0]] + StripDatabase(s[1..])
  }

  datatype ConnectionSettings = ConnectionSettings(connectionString: string, databaseName: string)

  /** Init: an empty connection string or a blank database name throws. */
  function ParseConnectionString(cs: string): (r: Result<ConnectionSettings>)
    ensures r.Ok? <==> cs != "" && !IsBlank(ExtractDatabase(cs))
    ensures cs == "" ==> r == Err(InvalidSettings("Connection string is not specified"))
    ensures cs != "" && IsBlank(ExtractDatabase(cs)) ==> r == Err(InvalidSettings("Database name is not specified"))
    ensures r.Ok? ==> r.value.databaseName == ExtractDatabase(cs) && r.value.connectionString == StripDatabase(cs)
  {
    if cs == "" then Err(InvalidSettings("Connection string is not specified"))
    else
      var databaseName := ExtractDatabase(cs);
      var connectionString := StripDatabase(cs);
      if IsBlank(databaseName) then Err(InvalidSettings("Database name is not specified"))
      else Ok(ConnectionSettings(connectionString, databaseName))
  }

  lemma KeyAtIsKeyAtCI(s: string, i: int)
    ensures KeyAt(s, i) ==> KeyAtCI(s, i)
  {
    if KeyAt(s, i) {
      forall k | 0 <= k < |DatabaseKey|
        ensures Lower(s[i + k]) == Lower(DatabaseKey[k])
      {
        assert s[i + k] == s[i..i + |DatabaseKey|][k];
      }
    }
  }

  /** A key cannot start inside a prefix free of keys and end in a key that
      follows it: only its last character is '='. */
  lemma NoKeyAcrossBoundary(base: string, t: string, j: int)
    requires forall i :: 0 <= i < |base| ==> !KeyAtCI(base, i)
    requires KeyAtCI(t, 0)
    requires 0 <= j < |base|
    ensures !KeyAtCI(base + t, j) && !KeyAt(base + t, j)
  {
    var s := base + t;
    KeyAtIsKeyAtCI(s, j);
    if j + |DatabaseKey| <= |base| {
      if KeyAtCI(s, j) {
        forall k | 0 <= k < |DatabaseKey|
          ensures Lower(base[j + k]) == Lower(DatabaseKey[k])
        {
          assert base[j + k] == s[j + k];
        }
        assert KeyAtCI(base, j);
      }
    } else if j + |DatabaseKey| <= |s| {
      var m := j + 8 - |base|;
      assert s[j + 8] == t[m];
      assert Lower(t[m]) == Lower(DatabaseKey[m]);
      assert Lower(s[j + 8]) != Lower(DatabaseKey[8]);
    }
  }

  lemma StripStep(s: string)
    requires s != [] && !KeyAt(s, 0)
    ensures StripDatabase(s) == [s[0]] + StripDatabase(s[1..])
  {
  }

  lemma KeyAtShift(s: string, j: nat)
    requires s != []
    ensures KeyAt(s[1..], j) <==> KeyAt(s, j + 1)
  {
    if j + 1 + |DatabaseKey| <= |s| {
      assert s[1..][j..j + |DatabaseKey|] == s[j + 1..j + 1 + |DatabaseKey|];
    }
  }

  /** A prefix that starts no key is copied as it is. */
  lemma {:induction false} StripPrefix(b: string, t: string)
    requires forall j :: 0 <= j < |b| ==> !KeyAt(b + t, j)
    ensures StripDatabase(b + t) == b + StripDatabase(t)
    decreases |b|
  {
    if b == [] {
      assert b + t == t;
    } else {
      var s := b + t;
      var b' := b[1..];
      assert s[1..] == b' + t;
      forall j | 0 <= j < |b'|
        ensures !KeyAt(b' + t, j)
      {
        KeyAtShift(s, j);
      }
      StripPrefix(b', t);
      StripStep(s);
      assert s[0] == b[0];
      calc {
        StripDatabase(b + t);
        [b[0]] + StripDatabase(b' + t);
        [b[0]] + (b' + StripDatabase(t));
        { assert b == [b[0]] + b'; }
        b + StripDatabase(t);
      }
    }
  }

  /** A "Database=name;" segment is dropped whole. */
  lemma StripSegment(name: string, rest: string)
    requires forall k :: 0 <= k < |name| ==> name[k] != ';' && name[k] != '\n'
    ensures StripDatabase(DatabaseKey + name + ";" + rest) == StripDatabase(rest)
  {
    var s := DatabaseKey + name + ";" + rest;
    assert s[..|DatabaseKey|] == DatabaseKey;
    assert KeyAt(s, 0);
    assert s[|DatabaseKey|..|DatabaseKey| + |name|] == name;
    ValueEndAt(s, |DatabaseKey|, name);
    assert s[|DatabaseKey| + |name| + 1..] == rest;
  }

  /** A "Database=name" segment closed by a final '\n' is dropped, and the
      '\n' stays: `$` matches in front of it. */
  lemma StripFinalSegment(name: string)
    requires forall k :: 0 <= k < |name| ==> name[k] != ';' && name[k] != '\n'
    ensures StripDatabase(DatabaseKey + name + "\n") == "\n"
  {
    var s := DatabaseKey + name + "\n";
    var q := |DatabaseKey| + |name|;
    assert |s| == q + 1 && s[q] == '\n';
    assert Closes(s, q);
    assert s[..|DatabaseKey|] == DatabaseKey;
    assert s[|DatabaseKey|..q] == name;
    ValueEndAt(s, |DatabaseKey|, name);
    StripAtFinalLineFeed(s);
  }

  lemma StripAtFinalLineFeed(s: string)
    requires KeyAt(s, 0) && ValueEnd(s, |DatabaseKey|) == |s| - 1 && s[|s| - 1] == '\n'
    ensures StripDatabase(s) == "\n"
  {
    assert s[|s| - 1..] == "\n";
    StripLineFeed();
  }

  lemma StripLineFeed()
    ensures StripDatabase("\n") == "\n"
  {
    assert !KeyAt("\n", 0);
    assert StripDatabase("\n"[1..]) == [];
  }

  /** A string without a capital 'D' holds no case-sensitive key. */
  lemma NoKeyWithoutCapitalD(s: string)
    requires forall j :: 0 <= j < |s| ==> s[j] != 'D'
    ensures forall j :: 0 <= j < |s| ==> !KeyAt(s, j)
  {
    forall j | 0 <= j < |s|
      ensures !KeyAt(s, j)
    {
      if j + |DatabaseKey| <= |s| {
        assert s[j..j + |DatabaseKey|][0] == s[j];
      }
    }
  }

  /** The first case-insensitive key of base + "Database=..." is the one
      appended when base holds none. */
  lemma FindAppendedKey(base: string, t: string)
    requires forall i :: 0 <= i < |base| ==> !KeyAtCI(base, i)
    requires KeyAtCI(t, 0)
    ensures FindKeyCI(base + t, 0) == |base|
  {
    var s := base + t;
    forall j | 0 <= j < |base|
      ensures !KeyAtCI(s, j)
    {
      NoKeyAcrossBoundary(base, t, j);
    }
    forall k | 0 <= k < |DatabaseKey|
      ensures Lower(s[|base| + k]) == Lower(DatabaseKey[k])
    {
      assert s[|base| + k] == t[k];
    }
    assert KeyAtCI(s, |base|);
  }

  /** The value after a key runs to the ';' that closes it. */
  lemma {:induction false} ValueEndAt(s: string, p: nat, name: string)
    requires p + |name| <= |s| && s[p..p + |name|] == name
    requires Closes(s, p + |name|)
    requires forall k :: 0 <= k < |name| ==> name[k] != ';' && name[k] != '\n'
    ensures ValueEnd(s, p) == p + |name|
    decreases |name|
  {
    if name != [] {
      assert s[p] == name[0];
      assert s[p + 1..p + |name|] == name[1..];
      ValueEndAt(s, p + 1, name[1..]);
    }
  }

  /** The connection string the manager builds, base + "Database=name;",
      parses back into base and name when base mentions no database. */
  lemma ConnectionStringRoundTrip(base: string, name: string)
    requires forall i :: 0 <= i < |base| ==> !KeyAtCI(base, i)
    requires forall k :: 0 <= k < |name| ==> name[k] != ';' && name[k] != '\n'
    requires !IsBlank(name)
    ensures ParseConnectionString(base + DatabaseKey + name + ";") == Ok(ConnectionSettings(base, name))
  {
    var t := DatabaseKey + name + ";";
    var s := base + t;
    assert s == base + DatabaseKey + name + ";";
    assert t[..|DatabaseKey|] == DatabaseKey;
    KeyAtIsKeyAtCI(t, 0);
    forall j | 0 <= j < |base|
      ensures !KeyAt(s, j)
    {
      NoKeyAcrossBoundary(base, t, j);
    }
    StripPrefix(base, t);
    StripSegment(name, "");
    assert t == DatabaseKey + name + ";" + "";
    assert StripDatabase(s) == base;
    FindAppendedKey(base, t);
    var p := |base| + |DatabaseKey|;
    assert s[p..p + |name|] == name;
    ValueEndAt(s, p, name);
    assert ExtractDatabase(s) == name;
  }

  /** A name ended by a final '\n' instead of ';' is still read, and the
      '\n' stays in the connection string. */
  lemma FinalLineFeedIsKept(base: string, name: string)
    requires forall i :: 0 <= i < |base| ==> !KeyAtCI(base, i)
    requires forall k :: 0 <= k < |name| ==> name[k] != ';' && name[k] != '\n'
    requires !IsBlank(name)
    ensures ParseConnectionString(base + DatabaseKey + name + "\n") == Ok(ConnectionSettings(base + "\n", name))
  {
    var t := DatabaseKey + name + "\n";
    var s := base + t;
    assert s == base + DatabaseKey + name + "\n";
    assert t[..|DatabaseKey|] == DatabaseKey;
    KeyAtIsKeyAtCI(t, 0);
    forall j | 0 <= j < |base|
      ensures !KeyAt(s, j)
    {
      NoKeyAcrossBoundary(base, t, j);
    }
    StripPrefix(base, t);
    StripFinalSegment(name);
    FindAppendedKey(base, t);
    var p := |base| + |DatabaseKey|;
    assert s[p..p + |name|] == name;
    ValueEndAt(s, p, name);
    assert ExtractDatabase(s) == name;
  }

  /** A '\n' inside the value ('.' does not match it) leaves no match: the
      name is empty, so the connection string is rejected. */
  lemma LineFeedInNameRejected()
    ensures ParseConnectionString("Database=a\nb;") == Err(InvalidSettings("Database name is not specified"))
  {
    var s := "Database=a\nb;";
    assert KeyAtCI(s, 0);
    assert ValueEnd(s, 9) == -1;
    forall j | 1 <= j
      ensures !KeyAtCI(s, j)
    {
      if j + |DatabaseKey| <= |s| {
        assert Lower(s[j + 8]) != Lower(DatabaseKey[8]);
      }
    }
    assert MatchKeyCI(s, 0) == -1;
  }

  lemma LowerCaseKeyNotStripped(base: string, name: string)
    requires forall k :: 0 <= k < |base| ==> base[k] != 'D'
    requires forall k :: 0 <= k < |name| ==> name[k] != 'D'
    ensures var cs := base + "database=" + name + ";";
            StripDatabase(cs) == cs
  {
    var s := base + "database=" + name + ";";
    forall k | 0 <= k < |s|
      ensures s[k] != 'D'
    {
      if k >= |base| + 9 && k < |base| + 9 + |name| {
        assert s[k] == name[k - |base| - 9];
      }
    }
    NoKeyWithoutCapitalD(s);
    assert s + "" == s;
    StripPrefix(s, "");
  }

  lemma LowerCaseKeyExtracted(base: string, name: string)
    requires forall i :: 0 <= i < |base| ==> !KeyAtCI(base, i)
    requires forall k :: 0 <= k < |name| ==> name[k] != ';' && name[k] != '\n'
    ensures ExtractDatabase(base + "database=" + name + ";") == name
  {
    var t := "database=" + name + ";";
    var s := base + t;
    assert s == base + "database=" + name + ";";
    forall k | 0 <= k < |DatabaseKey|
      ensures Lower(t[k]) == Lower(DatabaseKey[k])
    {
    }
    assert KeyAtCI(t, 0);
    FindAppendedKey(base, t);
    var p := |base| + |DatabaseKey|;
    assert s[p..p + |name|] == name;
    ValueEndAt(s, p, name);
  }

  /** A lower-case "database=" is read as the database name but stays in
      the connection string. */
  lemma LowerCaseKeyIsKept(base: string, name: string)
    requires forall i :: 0 <= i < |base| ==> !KeyAtCI(base, i)
    requires forall k :: 0 <= k < |base| ==> base[k] != 'D'
    requires forall k :: 0 <= k < |name| ==> name[k] != ';' && name[k] != '\n' && name[k] != 'D'
    requires !IsBlank(name)
    ensures var cs := base + "database=" + name + ";";
            ParseConnectionString(cs) == Ok(ConnectionSettings(cs, name))
  {
    LowerCaseKeyNotStripped(base, name);
    LowerCaseKeyExtracted(base, name);
  }

  // ---------------------------------------------------------------------
  // Rows

  datatype Value = Str(s: string) | Int(i: int) | Date(d: DateTime)

  datatype ColumnType = StringColumn | Int64Column | Int32Column | DateTimeColumn

  /** The table definition: column names and types, in order. */
  const Columns: seq<(string, ColumnType)> := [
    ("FileName", StringColumn), ("EndPosition", Int64Column), ("LgfEndPosition", Int64Column),
    ("Id", Int64Column), ("DateTime", DateTimeColumn), ("TransactionStatus", StringColumn),
    ("TransactionDate", DateTimeColumn), ("TransactionNumber", Int64Column), ("UserUuid", StringColumn),
    ("User", StringColumn), ("Computer", StringColumn), ("Application", StringColumn),
    ("Connection", Int64Column), ("Event", StringColumn), ("Severity", StringColumn),
    ("Comment", StringColumn), ("MetadataUuid", StringColumn), ("Metadata", StringColumn),
    ("Data", StringColumn), ("DataPresentation", StringColumn), ("Server", StringColumn),
    ("MainPort", Int32Column), ("AddPort", Int32Column), ("Session", Int64Column)]

  predicate Fits(v: Value, t: ColumnType)
  {
    match t
    case StringColumn => v.Str?
    case DateTimeColumn => v.Date?
    case _ => v.Int?
  }

  /** The transaction date as stored: DateTime.MinValue becomes 1970-01-01. */
  function StoredTransactionDate(d: DateTime): (r: DateTime)
    ensures d == MinValue ==> r == UnixEpoch
    ensures d != MinValue ==> r == d
  {
    if d == MinValue then UnixEpoch else d
  }

  /** The row written for a record, in the order of the bulk copy. */
  function RowOf(item: EventLogItem): seq<Value>
  {
    [Str(item.fileName), Int(item.endPosition), Int(item.lgfEndPosition), Int(item.id),
     Date(item.dateTime), Str(item.transactionStatus), Date(StoredTransactionDate(item.transactionDateTime)),
     Int(item.transactionNumber), Str(item.userUuid), Str(item.user), Str(item.computer),
     Str(item.application), Int(item.connection), Str(item.event), Str(item.severity),
     Str(item.comment), Str(item.metadataUuid), Str(item.metadata), Str(item.data),
     Str(item.dataPresentation), Str(item.server), Int(item.mainPort), Int(item.addPort),
     Int(item.session)]
  }

  /** The record's value for a column, looked up by the column's name. */
  function ColumnValue(item: EventLogItem, column: string): Option<Value>
  {
    match column
    case "FileName" => Some(Str(item.fileName))
    case "EndPosition" => Some(Int(item.endPosition))
    case "LgfEndPosition" => Some(Int(item.lgfEndPosition))
    case "Id" => Some(Int(item.id))
    case "DateTime" => Some(Date(item.dateTime))
    case "TransactionStatus" => Some(Str(item.transactionStatus))
    case "TransactionDate" => Some(Date(StoredTransactionDate(item.transactionDateTime)))
    case "TransactionNumber" => Some(Int(item.transactionNumber))
    case "UserUuid" => Some(Str(item.userUuid))
    case "User" => Some(Str(item.user))
    case "Computer" => Some(Str(item.computer))
    case "Application" => Some(Str(item.application))
    case "Connection" => Some(Int(item.connection))
    case "Event" => Some(Str(item.event))
    case "Severity" => Some(Str(item.severity))
    case "Comment" => Some(Str(item.comment))
    case "MetadataUuid" => Some(Str(item.metadataUuid))
    case "Metadata" => Some(Str(item.metadata))
    case "Data" => Some(Str(item.data))
    case "DataPresentation" => Some(Str(item.dataPresentation))
    case "Server" => Some(Str(item.server))
    case "MainPort" => Some(Int(item.mainPort))
    case "AddPort" => Some(Int(item.addPort))
    case "Session" => Some(Int(item.session))
    case _ => None
  }

  /** Each row has one value per column of the table, and each value is
      the record's field of that column's name. */
  lemma RowFollowsColumns(item: EventLogItem)
    ensures |RowOf(item)| == |Columns| == 24
    ensures forall k :: 0 <= k < |Columns| ==> ColumnValue(item, Columns[k].0) == Some(RowOf(item)[k])
  {
    var r := RowOf(item);
    forall k | 0 <= k < |Columns|
      ensures ColumnValue(item, Columns[k].0) == Some(r[k])
    {
      if k < 8 {
      } else if k < 16 {
      } else {
      }
    }
  }

  /** A well-formed row: a value of the right type in every column. */
  predicate WellFormedRow(row: seq<Value>)
  {
    |row| == |Columns| && forall k :: 0 <= k < |Columns| ==> Fits(row[k], Columns[k].1)
  }

  /** The checkpoint columns of a row. */
  function PositionOf(row: seq<Value>): EventLogPosition
    requires WellFormedRow(row)
  {
    EventLogPosition(row[0].s, row[1].i, row[2].i, row[3].i)
  }

  /** The checkpoint read back from a written row is the record's. */
  lemma PositionOfRow(item: EventLogItem)
    ensures WellFormedRow(RowOf(item))
    ensures PositionOf(RowOf(item)) == EventLogPosition(item.fileName, item.endPosition, item.lgfEndPosition, item.id)
  {
    var r := RowOf(item);
    forall k | 0 <= k < |Columns|
      ensures Fits(r[k], Columns[k].1)
    {
      if k < 8 {
      } else if k < 16 {
      } else {
      }
    }
  }

  /** SELECT TOP 1 ... ORDER BY Id DESC: the checkpoint of a row with the
      largest Id, or null for an empty table. */
  function LastPosition(table: seq<seq<Value>>): (r: Option<EventLogPosition>)
    requires forall k :: 0 <= k < |table| ==> WellFormedRow(table[k])
    ensures r.None? <==> table == []
  {
    if table == [] then None
    else
      var p := PositionOf(table[|table| - 1]);
      var rest := LastPosition(table[..|table| - 1]);
      if rest.Some? && rest.value.id >= p.id then rest else Some(p)
  }

  /** The checkpoint comes from a row of the table and no row has a larger
      Id. */
  lemma {:induction false} LastPositionIsMaxId(table: seq<seq<Value>>)
    requires forall k :: 0 <= k < |table| ==> WellFormedRow(table[k])
    ensures LastPosition(table).Some? ==>
              (exists k :: 0 <= k < |table| && PositionOf(table[k]) == LastPosition(table).value) &&
              forall k :: 0 <= k < |table| ==> PositionOf(table[k]).id <= LastPosition(table).value.id
  {
    if table != [] {
      var init := table[..|table| - 1];
      LastPositionIsMaxId(init);
      forall k | 0 <= k < |init|
        ensures init[k] == table[k]
      {
      }
      if LastPosition(init).Some? && LastPosition(init).value.id >= PositionOf(table[|table| - 1]).id {
        var k :| 0 <= k < |init| && PositionOf(init[k]) == LastPosition(init).value;
        assert PositionOf(table[k]) == LastPosition(table).value;
      }
    }
  }

  /** The rows of a batch, in order. */
  function RowsOf(entities: seq<EventLogItem>): (rows: seq<seq<Value>>)
    ensures |rows| == |entities|
    ensures forall k :: 0 <= k < |rows| ==> rows[k] == RowOf(entities[k])
  {
    seq(|entities|, k requires 0 <= k < |entities| => RowOf(entities[k]))
  }

  lemma RowsAreWellFormed(entities: seq<EventLogItem>)
    ensures forall k :: 0 <= k < |entities| ==> WellFormedRow(RowsOf(entities)[k])
  {
    forall k | 0 <= k < |entities|
      ensures WellFormedRow(RowsOf(entities)[k])
    {
      PositionOfRow(entities[k]);
    }
  }

  // ---------------------------------------------------------------------
  // The storage

  class ClickHouseStorage {
    var connectionString: string
    var databaseName: string
    /** The connection has been created (_connection is not null). */
    var connected: bool
    /** How many times the connection and the schema were created. */
    var connectionsCreated: nat
    /** The server's EventLogItems table. */
    var table: seq<seq<Value>>

    predicate Valid()
      reads this
    {
      connectionsCreated == (if connected then 1 else 0) &&
      forall k :: 0 <= k < |table| ==> WellFormedRow(table[k])
    }

    constructor (settings: ConnectionSettings, table: seq<seq<Value>>)
      requires forall k :: 0 <= k < |table| ==> WellFormedRow(table[k])
      ensures connectionString == settings.connectionString && databaseName == settings.databaseName
      ensures !connected && this.table == table && Valid()
    {
      connectionString := settings.connectionString;
      databaseName := settings.databaseName;
      connected := false;
      connectionsCreated := 0;
      this.table := table;
    }

    /** The constructor with Init: the connection string's checks throw. */
    static method Create(cs: string, table: seq<seq<Value>>) returns (r: Result<ClickHouseStorage>)
      requires forall k :: 0 <= k < |table| ==> WellFormedRow(table[k])
      ensures r.Err? <==> ParseConnectionString(cs).Err?
      ensures r.Err? ==> r.error == ParseConnectionString(cs).error
      ensures r.Ok? ==> fresh(r.value) && r.value.Valid() && !r.value.connected && r.value.table == table &&
                        r.value.connectionString == ParseConnectionString(cs).value.connectionString &&
                        r.value.databaseName == ParseConnectionString(cs).value.databaseName
    {
      var settings :- ParseConnectionString(cs);
      var storage := new ClickHouseStorage(settings, table);
      return Ok(storage);
    }

    /** CreateConnectionAsync: connects and creates the schema only the
        first time. */
    method CreateConnection()
      requires Valid()
      modifies this`connected, this`connectionsCreated
      ensures Valid() && connected
      ensures connectionsCreated == 1
      ensures old(connected) ==> connectionsCreated == old(connectionsCreated)
    {
      if !connected {
        connected := true;
        connectionsCreated := connectionsCreated + 1;
      }
    }

    /** ReadEventLogPositionAsync. */
    method ReadEventLogPosition() returns (r: Option<EventLogPosition>)
      requires Valid()
      modifies this`connected, this`connectionsCreated
      ensures Valid() && connected && connectionsCreated == 1
      ensures r == LastPosition(table)
    {
      CreateConnection();
      return LastPosition(table);
    }

    /** WriteEventLogDataAsync: one row per record, in order; the bulk copy's
        failure is rethrown. */
    method WriteEventLogData(entities: seq<EventLogItem>, copied: bool) returns (o: Outcome)
      requires Valid()
      modifies this`connected, this`connectionsCreated, this`table
      ensures Valid() && connected && connectionsCreated == 1
      ensures o.Pass? <==> copied
      ensures o.Fail? ==> o.error == WriteFailed(databaseName) && table == old(table)
      ensures o.Pass? ==> table == old(table) + RowsOf(entities)
    {
      CreateConnection();
      if !copied {
        return Fail(WriteFailed(databaseName));
      }
      RowsAreWellFormed(entities);
      table := table + RowsOf(entities);
      return Pass;
    }
  }
}
