/** Value types shared by the reader and the exporters: the reference
    categories, calendar timestamps, the decoded event record, the checkpoint
    and the reader settings. */
module Items {
  import opened Wrappers
  import opened Strings

  /** ObjectType: the category codes of the reference file. */
  const None: int := 0
  const Users: int := 1
  const Computers: int := 2
  const Applications: int := 3
  const Events: int := 4
  const Metadata: int := 5
  const Servers: int := 6
  const MainPorts: int := 7
  const AddPorts: int := 8
  const Unknown: int := 9

  /** A System.DateTime to the second. */
  datatype DateTime = DateTime(year: int, month: int, day: int, hour: int, minute: int, second: int)

  const MinValue: DateTime := DateTime(1, 1, 1, 0, 0, 0)
  const UnixEpoch: DateTime := DateTime(1970, 1, 1, 0, 0, 0)

  predicate IsLeapYear(y: int)
  {
    (y % 4 == 0 && y % 100 != 0) || y % 400 == 0
  }

  function DaysInMonth(y: int, m: int): int
    requires 1 <= m <= 12
  {
    if m == 2 then (if IsLeapYear(y) then 29 else 28)
    else if m == 4 || m == 6 || m == 9 || m == 11 then 30
    else 31
  }

  predicate ValidDateTime(d: DateTime)
  {
    1 <= d.year <= 9999 && 1 <= d.month <= 12 && 1 <= d.day <= DaysInMonth(d.year, d.month)
    && 0 <= d.hour <= 23 && 0 <= d.minute <= 59 && 0 <= d.second <= 59
  }

  predicate AllDigits(s: string)
  {
    forall i :: 0 <= i < |s| ==> IsDigit(s[i])
  }

  /** DateTime.ParseExact(s, "yyyyMMddHHmmss", InvariantCulture). */
  function ParseTimestamp(s: string): (r: Result<DateTime>)
    ensures r.Ok? ==> ValidDateTime(r.value) && |s| == 14
    ensures r.Err? ==> r.error == FormatError
  {
    if |s| != 14 || !AllDigits(s) then Err(FormatError)
    else
      var d := DateTime(DigitsValue(s[0..4]), DigitsValue(s[4..6]), DigitsValue(s[6..8]),
                        DigitsValue(s[8..10]), DigitsValue(s[10..12]), DigitsValue(s[12..14]));
      if ValidDateTime(d) then Ok(d) else Err(FormatError)
  }

  /** d.ToString("yyyyMMddHHmmss"): the format ParseTimestamp reads. */
  function FormatTimestamp(d: DateTime): string
    requires ValidDateTime(d)
  {
    (PadDigits(d.year, 4) + PadDigits(d.month, 2) + PadDigits(d.day, 2)) +
    (PadDigits(d.hour, 2) + PadDigits(d.minute, 2) + PadDigits(d.second, 2))
  }

  /** A field of w digits: the value v padded to w characters. */
  lemma PaddedField(v: nat, w: nat)
    requires 1 <= w && v < Pow10(w)
    ensures |PadDigits(v, w)| == w && DigitsValue(PadDigits(v, w)) == v
  {
    NatDigitsShort(v, w);
    PadDigitsValue(v, w);
  }

  /** The parts of a three-part concatenation, at their offsets. */
  lemma ThreeParts(x: string, y: string, z: string)
    ensures var s := x + y + z;
      s[..|x|] == x && s[|x|..|x| + |y|] == y && s[|x| + |y|..] == z
  {
    var s := x + y + z;
    assert s[..|x| + |y|] == x + y;
  }

  lemma AllDigitsAppend(x: string, y: string)
    requires AllDigits(x) && AllDigits(y)
    ensures AllDigits(x + y)
  {
    forall i | 0 <= i < |x + y| ensures IsDigit((x + y)[i]) {
      if i >= |x| { assert (x + y)[i] == y[i - |x|]; }
    }
  }

  /** The six parts of a 4-2-2-2-2-2 concatenation, at their offsets. */
  lemma SixParts(y: string, mo: string, d: string, h: string, mi: string, sec: string)
    requires |y| == 4 && |mo| == 2 && |d| == 2 && |h| == 2 && |mi| == 2 && |sec| == 2
    ensures var s := (y + mo + d) + (h + mi + sec);
      |s| == 14 && s[0..4] == y && s[4..6] == mo && s[6..8] == d &&
      s[8..10] == h && s[10..12] == mi && s[12..14] == sec
  {
    var ymd := y + mo + d;
    var hms := h + mi + sec;
    var s := ymd + hms;
    ThreeParts(y, mo, d);
    ThreeParts(h, mi, sec);
    assert s[..8] == ymd && s[8..] == hms;
    assert s[0..4] == s[..8][0..4] && s[4..6] == s[..8][4..6] && s[6..8] == s[..8][6..8];
    assert s[8..10] == s[8..14][0..2] && s[10..12] == s[8..14][2..4] && s[12..14] == s[8..14][4..6];
  }

  /** The six fields of a formatted date and time, at their offsets. */
  lemma FormattedFields(d: DateTime)
    requires ValidDateTime(d)
    ensures var s := FormatTimestamp(d);
      |s| == 14 && AllDigits(s) &&
      s[0..4] == PadDigits(d.year, 4) && s[4..6] == PadDigits(d.month, 2) && s[6..8] == PadDigits(d.day, 2) &&
      s[8..10] == PadDigits(d.hour, 2) && s[10..12] == PadDigits(d.minute, 2) && s[12..14] == PadDigits(d.second, 2)
  {
    assert Pow10(2) == 100 && Pow10(4) == 10000;
    PaddedField(d.year, 4);
    PaddedField(d.month, 2);
    PaddedField(d.day, 2);
    PaddedField(d.hour, 2);
    PaddedField(d.minute, 2);
    PaddedField(d.second, 2);
    var y, mo, da := PadDigits(d.year, 4), PadDigits(d.month, 2), PadDigits(d.day, 2);
    var h, mi, sec := PadDigits(d.hour, 2), PadDigits(d.minute, 2), PadDigits(d.second, 2);
    SixParts(y, mo, da, h, mi, sec);
    AllDigitsAppend(y, mo);
    AllDigitsAppend(y + mo, da);
    AllDigitsAppend(h, mi);
    AllDigitsAppend(h + mi, sec);
    AllDigitsAppend(y + mo + da, h + mi + sec);
  }

  /** Every valid date and time, formatted, parses back to itself. */
  lemma ParseFormatted(d: DateTime)
    requires ValidDateTime(d)
    ensures ParseTimestamp(FormatTimestamp(d)) == Ok(d)
  {
    assert Pow10(2) == 100 && Pow10(4) == 10000;
    FormattedFields(d);
    PaddedField(d.year, 4);
    PaddedField(d.month, 2);
    PaddedField(d.day, 2);
    PaddedField(d.hour, 2);
    PaddedField(d.minute, 2);
    PaddedField(d.second, 2);
  }

  /** Whatever parses is the formatting of the value it parses to, so the
      accepted strings are exactly the formatted valid dates and times. */
  lemma ParseIsFormatted(s: string)
    requires ParseTimestamp(s).Ok?
    ensures FormatTimestamp(ParseTimestamp(s).value) == s
  {
    PadDigitsOfValue(s[0..4]);
    PadDigitsOfValue(s[4..6]);
    PadDigitsOfValue(s[6..8]);
    PadDigitsOfValue(s[8..10]);
    PadDigitsOfValue(s[10..12]);
    PadDigitsOfValue(s[12..14]);
    FourteenParts(s);
  }

  /** A 14-character string is its six fields put back together. */
  lemma FourteenParts(s: string)
    requires |s| == 14
    ensures s == (s[0..4] + s[4..6] + s[6..8]) + (s[8..10] + s[10..12] + s[12..14])
  {
    assert s[..8] == s[0..4] + s[4..6] + s[6..8];
    assert s[8..] == s[8..10] + s[10..12] + s[12..14];
    assert s == s[..8] + s[8..];
  }

  /** The decoded event record (EventLogItem); the initialisers of the class
      are the defaults: empty strings, zeros and DateTime.MinValue.
      LgfEndPosition is the reference-file offset the storages persist. */
  datatype EventLogItem = EventLogItem(
    id: int,
    fileName: string,
    endPosition: int,
    lgfEndPosition: int,
    dateTime: DateTime,
    transactionStatus: string,
    transactionDateTime: DateTime,
    transactionNumber: int,
    userUuid: string,
    user: string,
    computer: string,
    application: string,
    connection: int,
    event: string,
    severity: string,
    comment: string,
    metadataUuid: string,
    metadata: string,
    data: string,
    dataPresentation: string,
    server: string,
    mainPort: int,
    addPort: int,
    session: int)

  const DefaultItem: EventLogItem :=
    EventLogItem(0, "", 0, 0, MinValue, "", MinValue, 0, "", "", "", "", 0, "", "", "", "", "", "", "", "", 0, 0, 0)

  /** The checkpoint a storage reports: the last durably written record. */
  datatype EventLogPosition = EventLogPosition(fileName: string, endPosition: int, lgfEndPosition: int, id: int)

  /** Timeout.Infinite or a number of milliseconds. */
  datatype Timeout = Infinite | Millis(ms: nat)

  /** EventLogReaderSettings with its defaults: live mode, no start file,
      offsets and item id 0, and an infinite reading timeout. */
  datatype ReaderSettings = ReaderSettings(
    logFolder: string,
    liveMode: bool,
    lgpFileName: string,
    lgpStartPosition: int,
    lgfStartPosition: int,
    itemId: int,
    readingTimeout: Timeout)

  const DefaultReaderSettings: ReaderSettings := ReaderSettings("", true, "", 0, 0, 0, Infinite)

  /** Path.GetFileNameWithoutExtension for a bare file name: everything before
      the last '.', or the whole name when it has none. */
  function FileStem(name: string): (r: string)
    ensures |r| <= |name| && r == name[..|r|]
  {
    if name == [] then []
    else if name[|name| - 1] == '.' then name[..|name| - 1]
    else
      var rest := FileStem(name[..|name| - 1]);
      if rest == name[..|name| - 1] then name else rest
  }

  /** The stem is the name cut at its last '.', or the whole name when it
      has no '.'. */
  lemma {:induction false} FileStemCutsAtLastDot(name: string)
    ensures '.' in name ==>
      |FileStem(name)| < |name| && name[|FileStem(name)|] == '.' && '.' !in name[|FileStem(name)| + 1..]
    ensures '.' !in name ==> FileStem(name) == name
  {
    if name != [] && name[|name| - 1] != '.' {
      var p := name[..|name| - 1];
      FileStemCutsAtLastDot(p);
      assert name == p + [name[|name| - 1]];
      var r := FileStem(name);
      if '.' in p {
        assert r == FileStem(p);
        assert name[|r| + 1..] == p[|r| + 1..] + [name[|name| - 1]];
      }
    }
  }

  /** A stored file name with ".lgp" appended names a file whose stem is the
      stored name again, so a checkpoint resumes in the file it came from. */
  lemma {:induction false} StemOfLgpName(stem: string)
    ensures FileStem(stem + ".lgp") == stem
  {
    assert (stem + ".")[..|stem|] == stem;
    assert FileStem(stem + ".") == stem;
    assert (stem + ".l")[..|stem| + 1] == stem + ".";
    assert FileStem(stem + ".l") == stem;
    assert (stem + ".lg")[..|stem| + 2] == stem + ".l";
    assert FileStem(stem + ".lg") == stem;
    assert (stem + ".lgp")[..|stem| + 3] == stem + ".lg";
  }
}
