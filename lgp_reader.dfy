/** The record reader of one event-log data file (*.lgp): it cuts the line
    stream into records by counting braces, resolves the reference numbers of
    a record through the shared reference reader, and flattens the tagged
    "Data" payload.

    A data file is the sequence of the lines after its header, each with the
    stream position at which it ends; positions are abstract numbers.  The
    bracket parser is a parameter (parse) of the reading methods. */
module LgpReaderModel {
  import opened Wrappers
  import opened Strings
  import opened Nodes
  import opened Items
  import opened LgfReaderModel

  datatype Line = Line(text: string, endPos: nat)

  datatype DataFile = DataFile(headerEnd: nat, lines: seq<Line>)

  /** The line terminator StringBuilder.AppendLine writes. */
  const NewLine: string := "\r\n"

  // ----- positions -----------------------------------------------------

  function Min(a: int, b: int): int
  {
    if a <= b then a else b
  }

  /** The stream position before line c (after the header for c = 0); past
      the end it is the end of the file. */
  function PositionAt(f: DataFile, c: nat): nat
  {
    if c == 0 || f.lines == [] then f.headerEnd else f.lines[Min(c, |f.lines|) - 1].endPos
  }

  /** Line ends grow strictly, and the header has a non-zero length. */
  predicate Ascending(f: DataFile)
  {
    f.headerEnd > 0 && forall i {:trigger PositionAt(f, i)} :: 0 <= i < |f.lines| ==> PositionAt(f, i) < f.lines[i].endPos
  }

  /** StreamReader.SetPosition(p): the cursor moves to the first line that
      starts at or after p. */
  function Seek(f: DataFile, p: int): (c: nat)
    ensures c <= |f.lines|
  {
    SeekFrom(f, p, 0)
  }

  /** The line Seek finds is the first whose start is at or after p. */
  lemma SeekFindsFirstAtOrAfter(f: DataFile, p: int)
    ensures forall k :: 0 <= k < Seek(f, p) ==> PositionAt(f, k) < p
    ensures Seek(f, p) < |f.lines| ==> PositionAt(f, Seek(f, p)) >= p
  {
  }

  function SeekFrom(f: DataFile, p: int, c: nat): (r: nat)
    requires c <= |f.lines|
    requires forall k :: 0 <= k < c ==> PositionAt(f, k) < p
    ensures c <= r <= |f.lines|
    ensures forall k :: 0 <= k < r ==> PositionAt(f, k) < p
    ensures r < |f.lines| ==> PositionAt(f, r) >= p
    decreases |f.lines| - c
  {
    if c == |f.lines| || PositionAt(f, c) >= p then c else SeekFrom(f, p, c + 1)
  }

  lemma {:induction false} PositionsAscend(f: DataFile, a: nat, b: nat)
    requires Ascending(f) && a < b <= |f.lines|
    ensures PositionAt(f, a) < PositionAt(f, b)
    decreases b - a
  {
    assert PositionAt(f, b - 1) < f.lines[b - 1].endPos == PositionAt(f, b);
    if a < b - 1 {
      PositionsAscend(f, a, b - 1);
    }
  }

  /** A position saved at a line boundary leads back to the same line. */
  lemma SeekSavedPosition(f: DataFile, c: nat)
    requires Ascending(f) && c <= |f.lines|
    ensures Seek(f, PositionAt(f, c)) == c
  {
    var r := Seek(f, PositionAt(f, c));
    SeekFindsFirstAtOrAfter(f, PositionAt(f, c));
    if r < c {
      PositionsAscend(f, r, c);
    }
  }

  /** Appending lines keeps every earlier boundary where it was, so a saved
      position still resumes at the same line once the file has grown. */
  lemma ResumeAfterGrowth(f: DataFile, more: seq<Line>, c: nat)
    requires Ascending(DataFile(f.headerEnd, f.lines + more)) && c <= |f.lines|
    ensures Seek(DataFile(f.headerEnd, f.lines + more), PositionAt(f, c)) == c
  {
    var g := DataFile(f.headerEnd, f.lines + more);
    assert PositionAt(g, c) == PositionAt(f, c);
    SeekSavedPosition(g, c);
  }

  // ----- record boundaries ------------------------------------------------

  /** A record starts at a line whose first character is '{'. */
  predicate IsStart(l: Line)
  {
    |l.text| > 0 && l.text[0] == '{'
  }

  /** The brace balance of lines s..e-1. */
  function Balance(lines: seq<Line>, s: nat, e: nat): int
    requires s <= e <= |lines|
    decreases e - s
  {
    if e == s then 0
    else Balance(lines, s, e - 1) + Strings.Count(lines[e - 1].text, '{') - Strings.Count(lines[e - 1].text, '}')
  }

  /** Lines s..e-1, each followed by '\n'. */
  function Joined(lines: seq<Line>, s: nat, e: nat): (r: string)
    requires s <= e <= |lines|
    ensures s < e ==> |r| > 0 && r[|r| - 1] == '\n'
    decreases e - s
  {
    if e == s then "" else Joined(lines, s, e - 1) + lines[e - 1].text + "\n"
  }

  /** The record that starts at line s ends at line e: a "}," line that closes
      every brace, or the last line when the balance is even there. */
  predicate EndsAt(lines: seq<Line>, s: nat, e: nat)
  {
    s <= e < |lines| &&
    ((lines[e].text == "}," && Balance(lines, s, e + 1) == 0) ||
     (e == |lines| - 1 && Balance(lines, s, e + 1) % 2 == 0))
  }

  /** The first record start at or after i (|lines| when there is none). */
  function FindStart(lines: seq<Line>, i: nat): (s: nat)
    ensures i <= s
    ensures i <= |lines| ==> s <= |lines|
    ensures i >= |lines| ==> s == i
    ensures s < |lines| ==> IsStart(lines[s])
    decreases |lines| - i
  {
    if i >= |lines| || IsStart(lines[i]) then i else FindStart(lines, i + 1)
  }

  /** No record starts between i and the start FindStart finds. */
  lemma {:induction false} FindStartIsFirst(lines: seq<Line>, i: nat)
    ensures forall k :: i <= k < FindStart(lines, i) ==> !IsStart(lines[k])
    decreases |lines| - i
  {
    if i < |lines| && !IsStart(lines[i]) {
      FindStartIsFirst(lines, i + 1);
    }
  }

  /** The first line at or after i that ends the record started at s
      (|lines| when there is none). */
  function FindEnd(lines: seq<Line>, s: nat, i: nat): (e: nat)
    requires s <= i <= |lines|
    ensures i <= e <= |lines|
    ensures e < |lines| ==> EndsAt(lines, s, e)
    decreases |lines| - i
  {
    if i == |lines| || EndsAt(lines, s, i) then i else FindEnd(lines, s, i + 1)
  }

  /** No line between i and the end FindEnd finds closes the record. */
  lemma {:induction false} FindEndIsFirst(lines: seq<Line>, s: nat, i: nat)
    requires s <= i <= |lines|
    ensures forall k :: i <= k < FindEnd(lines, s, i) ==> !EndsAt(lines, s, k)
    decreases |lines| - i
  {
    if i < |lines| && !EndsAt(lines, s, i) {
      FindEndIsFirst(lines, s, i + 1);
    }
  }

  /** What one call of ReadNextEventLogItemData yields and leaves behind. */
  datatype RecordRead = RecordRead(data: string, endPosition: int, cursor: nat, lastPosition: int)

  /** One line of a record being cut out: it is appended to the text, its
      braces and quotes are counted, and the end condition is checked. */
  method TakeRecordLine(ghost lines: seq<Line>, ghost s: nat, ghost i: nat, line: string, data: string,
                        brackets: int, quotes: int, atEnd: bool)
    returns (data': string, brackets': int, quotes': int, end: bool)
    requires s <= i < |lines| && line == lines[i].text && atEnd == (i + 1 >= |lines|)
    requires data == Joined(lines, s, i) && brackets == Balance(lines, s, i)
    ensures data' == Joined(lines, s, i + 1) && brackets' == Balance(lines, s, i + 1)
    ensures quotes' == quotes + Strings.Count(line, '"')
    ensures end <==> EndsAt(lines, s, i)
  {
    data' := data + line + "\n";
    brackets' := brackets + Strings.Count(line, '{');
    brackets' := brackets' - Strings.Count(line, '}');
    quotes' := quotes + Strings.Count(line, '"');
    end := false;
    if (line == "}," && brackets' == 0) || atEnd {
      end := true;
      if brackets' != 0 {
        end := brackets' % 2 == 0;
      }
    }
  }

  /** The record read from line c0: from the first record start to the line
      that ends it.  A record cut off by the end of the file is returned
      without an end position, and the position at the end is saved. */
  function RecordFrom(f: DataFile, c0: nat): RecordRead
  {
    var s := FindStart(f.lines, c0);
    if s >= |f.lines| then RecordRead("", 0, s, PositionAt(f, s))
    else
      var e := FindEnd(f.lines, s, s);
      if e < |f.lines| then RecordRead(Joined(f.lines, s, e + 1), PositionAt(f, e + 1), e + 1, 0)
      else RecordRead(Joined(f.lines, s, |f.lines|), 0, |f.lines|, PositionAt(f, |f.lines|))
  }

  /** The line a read continues from: a saved end-of-file position is sought
      again first. */
  function ResumeLine(f: DataFile, cursor: nat, lastPosition: int): nat
  {
    if lastPosition != 0 then Seek(f, lastPosition) else cursor
  }

  /** A record read is non-empty exactly when a record starts at or after
      the resume line; its text begins with '{' and ends with '\n', so the
      trailing-comma strip never applies. */
  lemma RecordTextShape(f: DataFile, c0: nat)
    ensures var r := RecordFrom(f, c0);
      (r.data != "" <==> exists k :: c0 <= k < |f.lines| && IsStart(f.lines[k])) &&
      (r.data != "" ==> r.data[0] == '{' && r.data[|r.data| - 1] == '\n')
    ensures RecordFrom(f, c0).endPosition != 0 ==> RecordFrom(f, c0).lastPosition == 0
  {
    var s := FindStart(f.lines, c0);
    FindStartIsFirst(f.lines, c0);
    if s < |f.lines| {
      var e := if FindEnd(f.lines, s, s) < |f.lines| then FindEnd(f.lines, s, s) + 1 else |f.lines|;
      JoinedStartsWith(f.lines, s, e);
    }
  }

  /** A read that reaches a line closing the record returns the record with
      the position after that line. */
  lemma RecordClosed(f: DataFile, c0: nat, s: nat, e: nat, data: string)
    requires s == FindStart(f.lines, c0) && s <= e < |f.lines|
    requires FindEnd(f.lines, s, e) == FindEnd(f.lines, s, s) && EndsAt(f.lines, s, e)
    requires data == Joined(f.lines, s, e + 1)
    ensures RecordFrom(f, c0) == RecordRead(data, PositionAt(f, e + 1), e + 1, 0)
  {
  }

  /** A read that runs out of lines inside a record returns the text so far
      and saves the position at the end. */
  lemma RecordCutOff(f: DataFile, c0: nat, s: nat, cursor: nat, data: string)
    requires s == FindStart(f.lines, c0) && s < cursor == |f.lines|
    requires FindEnd(f.lines, s, cursor) == FindEnd(f.lines, s, s)
    requires data == Joined(f.lines, s, cursor)
    ensures RecordFrom(f, c0) == RecordRead(data, 0, cursor, PositionAt(f, cursor))
  {
  }

  /** A read that runs out of lines before any record start returns nothing
      and saves the position at the end. */
  lemma NoRecordLeft(f: DataFile, c0: nat, s: nat, cursor: nat)
    requires s == FindStart(f.lines, c0) && FindStart(f.lines, cursor) == s && cursor >= |f.lines|
    ensures RecordFrom(f, c0) == RecordRead("", 0, cursor, PositionAt(f, cursor))
  {
  }

  lemma {:induction false} JoinedStartsWith(lines: seq<Line>, s: nat, e: nat)
    requires s < e <= |lines| && IsStart(lines[s])
    ensures Joined(lines, s, e)[0] == '{'
    decreases e - s
  {
    if e - 1 > s {
      JoinedStartsWith(lines, s, e - 1);
    }
  }

  // ----- presentations ----------------------------------------------------

  /** The transaction status codes and their presentations. */
  function TransactionPresentation(code: string): (r: string)
    ensures r != "" <==> code in {"U", "C", "R", "N"}
  {
    match code
    case "U" => "Commited"
    case "C" => "RolledBack"
    case "R" => "InProgress"
    case "N" => "NotApplicable"
    case _ => ""
  }

  /** The code a non-empty transaction presentation came from. */
  function TransactionCode(presentation: string): string
  {
    match presentation
    case "Commited" => "U"
    case "RolledBack" => "C"
    case "InProgress" => "R"
    case "NotApplicable" => "N"
    case _ => ""
  }

  /** Every known code gets its own presentation, so the code can be read
      back from it. */
  lemma TransactionPresentationInvertible(code: string)
    requires TransactionPresentation(code) != ""
    ensures TransactionCode(TransactionPresentation(code)) == code
  {
  }

  function SeverityPresentation(code: string): (r: string)
    ensures r != "" <==> code in {"I", "E", "W", "N"}
  {
    match code
    case "I" => "Information"
    case "E" => "Error"
    case "W" => "Warning"
    case "N" => "Notification"
    case _ => ""
  }

  function SeverityCode(presentation: string): string
  {
    match presentation
    case "Information" => "I"
    case "Error" => "E"
    case "Warning" => "W"
    case "Notification" => "N"
    case _ => ""
  }

  lemma SeverityPresentationInvertible(code: string)
    requires SeverityPresentation(code) != ""
    ensures SeverityCode(SeverityPresentation(code)) == code
  {
  }

  // ----- the Data payload -------------------------------------------------

  /** The text of a Data node: [0] is the type tag; references and strings
      give [1], undefined gives "", booleans give "false" exactly for "0",
      and a complex value gives one "Item i: value" line for every
      non-empty item i = 1 .. Count-1 of [1]; other tags give "". */
  function DataText(node: Node): (r: Result<string>)
    ensures StringAt(node, 0) == Ok("U") ==> r == Ok("")
    ensures StringAt(node, 0).Ok? && StringAt(node, 0).value in {"R", "S"} ==> r == StringAt(node, 1)
    ensures StringAt(node, 0) == Ok("B") ==>
      (r.Ok? <==> StringAt(node, 1).Ok?) &&
      (r.Ok? ==> (r.value == "false" <==> StringAt(node, 1).value == "0") && r.value in {"false", "true"})
    ensures StringAt(node, 0).Ok? && StringAt(node, 0).value !in {"R", "U", "S", "B", "P"} ==> r == Ok("")
    ensures StringAt(node, 0).Err? ==> r.Err?
    ensures r.Err? ==> r.error == FormatError
    decreases node, 0
  {
    var tag :- StringAt(node, 0);
    if tag == "R" || tag == "S" then StringAt(node, 1)
    else if tag == "U" then Ok("")
    else if tag == "B" then
      var v :- StringAt(node, 1);
      Ok(if v == "0" then "false" else "true")
    else if tag == "P" then
      var sub :- At(node, 1);
      var count :- Nodes.Count(sub);
      ItemLines(sub, if count - 1 > 0 then count else 1)
    else Ok("")
  }

  function ItemLine(i: int, value: string): string
  {
    "Item " + IntToString(i) + ": " + value + NewLine
  }

  /** The lines for the items 1 .. hi-1 of a complex value, in ascending
      order, skipping empty values; the first failing item fails the whole. */
  function ItemLines(sub: Node, hi: nat): (r: Result<string>)
    requires sub.List? && 1 <= hi && (hi == 1 || hi <= |sub.items|)
    ensures r.Err? ==> r.error == FormatError
    decreases sub, hi
  {
    if hi == 1 then Ok("")
    else
      var prev :- ItemLines(sub, hi - 1);
      var v :- DataText(sub.items[hi - 1]);
      Ok(if v == "" then prev else prev + ItemLine(hi - 1, v))
  }

  /** A failed item fails every longer prefix. */
  lemma {:induction false} ItemLinesFailureSticks(sub: Node, i: nat, hi: nat)
    requires sub.List? && 1 <= i < hi <= |sub.items| && ItemLines(sub, i).Ok? && DataText(sub.items[i]).Err?
    ensures ItemLines(sub, hi) == Err(DataText(sub.items[i]).error)
    decreases hi
  {
    if hi - 1 > i {
      ItemLinesFailureSticks(sub, i, hi - 1);
    }
  }

  /** Items whose text is empty contribute nothing. */
  lemma {:induction false} EmptyItemsGiveNoLines(sub: Node, hi: nat)
    requires sub.List? && 1 <= hi <= |sub.items|
    requires forall i :: 1 <= i < hi ==> DataText(sub.items[i]) == Ok("")
    ensures ItemLines(sub, hi) == Ok("")
    decreases hi
  {
    if hi > 1 {
      EmptyItemsGiveNoLines(sub, hi - 1);
    }
  }

  /** A single non-empty item i yields exactly its own line. */
  lemma {:induction false} SingleItemLine(sub: Node, hi: nat, i: nat)
    requires sub.List? && 1 <= i < hi <= |sub.items|
    requires DataText(sub.items[i]).Ok? && DataText(sub.items[i]).value != ""
    requires forall k :: 1 <= k < hi && k != i ==> DataText(sub.items[k]) == Ok("")
    ensures ItemLines(sub, hi) == Ok(ItemLine(i, DataText(sub.items[i]).value))
    decreases hi
  {
    if hi - 1 > i {
      SingleItemLine(sub, hi - 1, i);
      ItemLinesStep(sub, hi, Ok(""));
    } else {
      EmptyItemsGiveNoLines(sub, i);
      ItemLinesStep(sub, hi, DataText(sub.items[i]));
      var line := ItemLine(i, DataText(sub.items[i]).value);
      assert "" + line == line;
    }
  }

  /** One more item extends a successful prefix by its line, if non-empty. */
  lemma ItemLinesStep(sub: Node, hi: nat, v: Result<string>)
    requires sub.List? && 1 < hi <= |sub.items| && ItemLines(sub, hi - 1).Ok?
    requires v == DataText(sub.items[hi - 1]) && v.Ok?
    ensures ItemLines(sub, hi) ==
      Ok(if v.value == "" then ItemLines(sub, hi - 1).value else ItemLines(sub, hi - 1).value + ItemLine(hi - 1, v.value))
  {
  }

  /** GetData: the recursive flattener, with its loop over the items. */
  method GetData(node: Node) returns (r: Result<string>)
    ensures r == DataText(node)
    decreases node, 0
  {
    var tag :- StringAt(node, 0);
    if tag == "R" || tag == "S" {
      return StringAt(node, 1);
    } else if tag == "U" {
      return Ok("");
    } else if tag == "B" {
      var v :- StringAt(node, 1);
      return Ok(if v == "0" then "false" else "true");
    } else if tag == "P" {
      var str := "";
      var sub :- At(node, 1);
      var count :- Nodes.Count(sub);
      var subDataCount := count as int - 1;
      if subDataCount > 0 {
        var i := 1;
        while i <= subDataCount
          invariant 1 <= i <= subDataCount + 1
          invariant ItemLines(sub, i) == Ok(str)
        {
          var value := GetData(sub.items[i]);
          if value.Err? {
            ItemLinesFailureSticks(sub, i, count);
            return Err(value.error);
          }
          if value.value != "" {
            str := str + ItemLine(i, value.value);
          }
          i := i + 1;
        }
      }
      return Ok(str);
    } else {
      return Ok("");
    }
  }

  // ----- the record ---------------------------------------------------------

  /** The fields before Data (index 11) that come straight from the parsed
      node, with the defaults of the fields the reader leaves alone. */
  predicate HeadFieldsFromNode(item: EventLogItem, node: Node, fileName: string, endPosition: int)
  {
    StringAt(node, 0).Ok? && ParseTimestamp(StringAt(node, 0).value) == Ok(item.dateTime)
    && StringAt(node, 1).Ok? && item.transactionStatus == TransactionPresentation(StringAt(node, 1).value)
    && item.fileName == fileName && item.endPosition == endPosition
    && IntAt(node, 6) == Ok(item.connection)
    && StringAt(node, 8).Ok? && item.severity == SeverityPresentation(StringAt(node, 8).value)
    && StringAt(node, 9) == Ok(item.comment)
    && item.id == 0 && item.lgfEndPosition == 0
    && item.transactionDateTime == MinValue && item.transactionNumber == 0
  }

  /** The fields before Data, with the fields from Data on cleared. */
  function HeadOf(item: EventLogItem): (r: EventLogItem)
    ensures r.dateTime == item.dateTime && r.user == item.user && r.event == item.event && r.comment == item.comment
    ensures r.data == "" && r.server == "" && r.session == 0
  {
    item.(data := "", dataPresentation := "", server := "", mainPort := 0, addPort := 0, session := 0)
  }

  /** The fields of a record that come straight from the parsed node, with
      the defaults of the fields the reader leaves alone. */
  predicate FieldsFromNode(item: EventLogItem, node: Node, fileName: string, endPosition: int)
  {
    HeadFieldsFromNode(HeadOf(item), node, fileName, endPosition)
    && At(node, 11).Ok? && DataText(At(node, 11).value).Ok?
    && item.data == Trim(DataText(At(node, 11).value).value)
    && StringAt(node, 12) == Ok(item.dataPresentation)
    && IntAt(node, 16) == Ok(item.session)
  }

  /** A port field: the empty text leaves the port at 0, any other text is
      parsed as an Int32. */
  function PortNumber(text: string): Result<int>
  {
    if text == "" then Ok(0) else ParseInt32(text)
  }

  // The reference fields are resolved one after another, each lookup
  // starting from the reference cursor the previous one left.

  /** The cursor after the plain lookup of the number at index k (c itself
      when that index holds no number). */
  function PlainAfter(file: seq<RefNode>, c: Cursor, ot: int, node: Node, k: int, cancelled: bool): Cursor
  {
    if IntAt(node, k).Ok? then PlainLookup(file, c, ot, IntAt(node, k).value, cancelled).1 else c
  }

  /** The cursor after the named lookup of the number at index k. */
  function NamedAfter(file: seq<RefNode>, c: Cursor, ot: int, node: Node, k: int, cancelled: bool): Cursor
  {
    if IntAt(node, k).Ok? then NamedLookup(file, c, ot, IntAt(node, k).value, cancelled).1 else c
  }

  /** The number at index k, looked up from c, resolves to value. */
  predicate PlainAlong(file: seq<RefNode>, c: Cursor, ot: int, node: Node, k: int, cancelled: bool, value: string)
  {
    IntAt(node, k).Ok? && PlainLookup(file, c, ot, IntAt(node, k).value, cancelled).0 == Some(value)
  }

  /** The number at index k, looked up from c, resolves to the text of port. */
  predicate PortAlong(file: seq<RefNode>, c: Cursor, ot: int, node: Node, k: int, cancelled: bool, port: int)
  {
    IntAt(node, k).Ok? &&
    var v := PlainLookup(file, c, ot, IntAt(node, k).value, cancelled).0;
    v.Some? && PortNumber(v.value) == Ok(port)
  }

  /** The number at index k, looked up from c, resolves to (name, uuid). */
  predicate NamedAlong(file: seq<RefNode>, c: Cursor, ot: int, node: Node, k: int, cancelled: bool,
                       name: string, uuid: string)
  {
    IntAt(node, k).Ok? && NamedLookup(file, c, ot, IntAt(node, k).value, cancelled).0 == Some(Named(name, uuid))
  }

  /** The user (3), computer (4) and application (5), resolved in turn from c. */
  predicate FirstAlong(file: seq<RefNode>, c: Cursor, node: Node, cancelled: bool, item: EventLogItem)
  {
    var c1 := NamedAfter(file, c, Users, node, 3, cancelled);
    var c2 := PlainAfter(file, c1, Computers, node, 4, cancelled);
    NamedAlong(file, c, Users, node, 3, cancelled, item.user, item.userUuid)
    && PlainAlong(file, c1, Computers, node, 4, cancelled, item.computer)
    && PlainAlong(file, c2, Applications, node, 5, cancelled, item.application)
  }

  function FirstEnd(file: seq<RefNode>, c: Cursor, node: Node, cancelled: bool): Cursor
  {
    var c1 := NamedAfter(file, c, Users, node, 3, cancelled);
    var c2 := PlainAfter(file, c1, Computers, node, 4, cancelled);
    PlainAfter(file, c2, Applications, node, 5, cancelled)
  }

  /** The event (7) and metadata (10), resolved in turn from c. */
  predicate MiddleAlong(file: seq<RefNode>, c: Cursor, node: Node, cancelled: bool, item: EventLogItem)
  {
    PlainAlong(file, c, Events, node, 7, cancelled, item.event)
    && NamedAlong(file, PlainAfter(file, c, Events, node, 7, cancelled), Metadata, node, 10, cancelled,
                  item.metadata, item.metadataUuid)
  }

  function MiddleEnd(file: seq<RefNode>, c: Cursor, node: Node, cancelled: bool): Cursor
  {
    NamedAfter(file, PlainAfter(file, c, Events, node, 7, cancelled), Metadata, node, 10, cancelled)
  }

  /** The server (13) and the two ports (14, 15), resolved in turn from c. */
  predicate TailAlong(file: seq<RefNode>, c: Cursor, node: Node, cancelled: bool, item: EventLogItem)
  {
    var c1 := PlainAfter(file, c, Servers, node, 13, cancelled);
    var c2 := PlainAfter(file, c1, MainPorts, node, 14, cancelled);
    PlainAlong(file, c, Servers, node, 13, cancelled, item.server)
    && PortAlong(file, c1, MainPorts, node, 14, cancelled, item.mainPort)
    && PortAlong(file, c2, AddPorts, node, 15, cancelled, item.addPort)
  }

  function TailEnd(file: seq<RefNode>, c: Cursor, node: Node, cancelled: bool): Cursor
  {
    var c1 := PlainAfter(file, c, Servers, node, 13, cancelled);
    var c2 := PlainAfter(file, c1, MainPorts, node, 14, cancelled);
    PlainAfter(file, c2, AddPorts, node, 15, cancelled)
  }

  /** Every reference field of a record is what its lookup finds, the
      lookups running in field order from the reference cursor c. */
  predicate ResolvedAlong(file: seq<RefNode>, c: Cursor, node: Node, cancelled: bool, item: EventLogItem)
  {
    var c3 := FirstEnd(file, c, node, cancelled);
    FirstAlong(file, c, node, cancelled, item)
    && MiddleAlong(file, c3, node, cancelled, item)
    && TailAlong(file, MiddleEnd(file, c3, node, cancelled), node, cancelled, item)
  }

  /** The reference cursor once every reference of the record is resolved. */
  function LookupsEnd(file: seq<RefNode>, c: Cursor, node: Node, cancelled: bool): Cursor
  {
    TailEnd(file, MiddleEnd(file, FirstEnd(file, c, node, cancelled), node, cancelled), node, cancelled)
  }

  // When the mapping succeeds: every cast succeeds and every lookup, run
  // in field order, finds its key.

  /** The number at index k casts, and its plain lookup from c finds a value. */
  predicate PlainFound(file: seq<RefNode>, c: Cursor, ot: int, node: Node, k: int, cancelled: bool)
  {
    IntAt(node, k).Ok? && PlainLookup(file, c, ot, IntAt(node, k).value, cancelled).0.Some?
  }

  /** The number at index k casts, and its named lookup from c finds a value. */
  predicate NamedFound(file: seq<RefNode>, c: Cursor, ot: int, node: Node, k: int, cancelled: bool)
  {
    IntAt(node, k).Ok? && NamedLookup(file, c, ot, IntAt(node, k).value, cancelled).0.Some?
  }

  /** The port number at index k is found, and its text is a port. */
  predicate PortFound(file: seq<RefNode>, c: Cursor, ot: int, node: Node, k: int, cancelled: bool)
  {
    PlainFound(file, c, ot, node, k, cancelled) &&
    PortNumber(PlainLookup(file, c, ot, IntAt(node, k).value, cancelled).0.value).Ok?
  }

  /** The time (0) and status (1) cast, the time parses, and the user (3),
      computer (4) and application (5) are found in turn from c. */
  predicate FirstMaps(file: seq<RefNode>, c: Cursor, node: Node, cancelled: bool)
  {
    var c1 := NamedAfter(file, c, Users, node, 3, cancelled);
    var c2 := PlainAfter(file, c1, Computers, node, 4, cancelled);
    StringAt(node, 0).Ok? && ParseTimestamp(StringAt(node, 0).value).Ok? && StringAt(node, 1).Ok?
    && NamedFound(file, c, Users, node, 3, cancelled)
    && PlainFound(file, c1, Computers, node, 4, cancelled)
    && PlainFound(file, c2, Applications, node, 5, cancelled)
  }

  /** The connection (6), severity (8) and comment (9) cast, and the event
      (7) and metadata (10) are found in turn from c. */
  predicate MiddleMaps(file: seq<RefNode>, c: Cursor, node: Node, cancelled: bool)
  {
    IntAt(node, 6).Ok? && PlainFound(file, c, Events, node, 7, cancelled)
    && StringAt(node, 8).Ok? && StringAt(node, 9).Ok?
    && NamedFound(file, PlainAfter(file, c, Events, node, 7, cancelled), Metadata, node, 10, cancelled)
  }

  /** The data (11) has a text, the presentation (12) and session (16)
      cast, and the server (13) and ports (14, 15) are found in turn from c. */
  predicate TailMaps(file: seq<RefNode>, c: Cursor, node: Node, cancelled: bool)
  {
    var c1 := PlainAfter(file, c, Servers, node, 13, cancelled);
    var c2 := PlainAfter(file, c1, MainPorts, node, 14, cancelled);
    At(node, 11).Ok? && DataText(At(node, 11).value).Ok? && StringAt(node, 12).Ok?
    && PlainFound(file, c, Servers, node, 13, cancelled)
    && PortFound(file, c1, MainPorts, node, 14, cancelled)
    && PortFound(file, c2, AddPorts, node, 15, cancelled)
    && IntAt(node, 16).Ok?
  }

  /** Every step of the mapping of node succeeds, the lookups running in
      field order from the reference cursor c. */
  predicate Maps(file: seq<RefNode>, c: Cursor, node: Node, cancelled: bool)
  {
    var c3 := FirstEnd(file, c, node, cancelled);
    FirstMaps(file, c, node, cancelled) && MiddleMaps(file, c3, node, cancelled)
    && TailMaps(file, MiddleEnd(file, c3, node, cancelled), node, cancelled)
  }

  /** The record rec maps to an item: it has text, the text parses, and
      the mapping of the parsed node succeeds from the reference cursor c. */
  predicate Mappable(rec: RecordRead, parse: string -> Option<Node>, file: seq<RefNode>, c: Cursor)
  {
    rec.data != "" && parse(rec.data).Some? && Maps(file, c, parse(rec.data).value, false)
  }

  /** A record whose fields before Data were mapped into head, and whose
      fields from Data on were then set by the tail mapping, takes its
      plain fields from the node as a whole. */
  lemma FieldsFromParts(node: Node, fileName: string, endPosition: int, head: EventLogItem, item: EventLogItem)
    requires HeadFieldsFromNode(HeadOf(head), node, fileName, endPosition)
    requires HeadOf(item) == HeadOf(head)
    requires At(node, 11).Ok? && DataText(At(node, 11).value).Ok?
    requires item.data == Trim(DataText(At(node, 11).value).value)
    requires StringAt(node, 12) == Ok(item.dataPresentation) && IntAt(node, 16) == Ok(item.session)
    ensures FieldsFromNode(item, node, fileName, endPosition)
  {
  }

  /** The references resolved before Data survive the tail mapping, so the
      whole record resolves along one chain of lookups. */
  lemma ResolvedFromParts(file: seq<RefNode>, c: Cursor, node: Node, cancelled: bool,
                          head: EventLogItem, item: EventLogItem)
    requires FirstAlong(file, c, node, cancelled, head)
    requires MiddleAlong(file, FirstEnd(file, c, node, cancelled), node, cancelled, head)
    requires TailAlong(file, MiddleEnd(file, FirstEnd(file, c, node, cancelled), node, cancelled), node, cancelled, item)
    requires HeadOf(item) == HeadOf(head)
    ensures ResolvedAlong(file, c, node, cancelled, item)
  {
    assert HeadOf(item).computer == item.computer && HeadOf(head).computer == head.computer;
    assert HeadOf(item).application == item.application && HeadOf(head).application == head.application;
    assert HeadOf(item).userUuid == item.userUuid && HeadOf(head).userUuid == head.userUuid;
    assert HeadOf(item).metadata == item.metadata && HeadOf(head).metadata == head.metadata;
    assert HeadOf(item).metadataUuid == item.metadataUuid && HeadOf(head).metadataUuid == head.metadataUuid;
  }

  /** An error a read raises other than the disposal of the reader and the
      timeout of the event-log reader above it. */
  predicate ReadFault(e: Error)
  {
    !e.ObjectDisposed? && !e.ReaderTimeout?
  }

  /** item is the record rec as the reader maps it: its text parses, the
      plain fields come from the node, and the references resolve to what
      their lookups find from the reference cursor c in file. */
  predicate ItemOf(item: EventLogItem, rec: RecordRead, parse: string -> Option<Node>, fileName: string,
                   file: seq<RefNode>, c: Cursor)
  {
    match parse(rec.data)
    case None => false
    case Some(node) =>
      FieldsFromNode(item, node, fileName, rec.endPosition) && ResolvedAlong(file, c, node, false, item)
  }

  /** The reader of one data file.  file, passed to each call, is the
      current state of the file on disk (None when it does not exist). */
  class LgpReader {
    const lgpPath: string
    const lgf: LgfReader
    var isOpen: bool
    var disposed: bool
    var cursor: nat
    var lastPosition: int

    /** Path.GetFileNameWithoutExtension of the path. */
    function LgpFileName(): string
    {
      FileStem(lgpPath)
    }

    constructor (lgpPath: string, lgf: LgfReader)
      ensures this.lgpPath == lgpPath && this.lgf == lgf
      ensures !isOpen && !disposed && cursor == 0 && lastPosition == 0
    {
      this.lgpPath := lgpPath;
      this.lgf := lgf;
      isOpen := false;
      disposed := false;
      cursor := 0;
      lastPosition := 0;
    }

    /** Opens the file on first use, past its header. */
    method InitializeStreams(file: Option<DataFile>) returns (o: Outcome)
      modifies this`isOpen, this`cursor
      ensures o.Pass? <==> old(isOpen) || file.Some?
      ensures o.Fail? ==> o.error == FileNotFound(lgpPath) && cursor == old(cursor)
      ensures isOpen == (old(isOpen) || file.Some?)
      ensures cursor == if old(isOpen) || file.None? then old(cursor) else 0
    {
      o := Pass;
      if !isOpen {
        if file.None? {
          return Fail(FileNotFound(lgpPath));
        }
        isOpen := true;
        cursor := 0;
      }
    }

    method SetPosition(position: int, file: Option<DataFile>) returns (o: Outcome)
      modifies this`isOpen, this`cursor
      ensures o.Pass? <==> old(isOpen) || file.Some?
      ensures o.Fail? ==> o.error == FileNotFound(lgpPath) && cursor == old(cursor)
      ensures isOpen == (old(isOpen) || file.Some?)
      ensures o.Pass? ==> cursor == Seek(Visible(file), position)
    {
      o := InitializeStreams(file);
      if o.Fail? {
        return;
      }
      cursor := Seek(Visible(file), position);
    }

    method GetPosition(file: Option<DataFile>) returns (r: Result<nat>)
      modifies this`isOpen, this`cursor
      ensures r.Ok? <==> old(isOpen) || file.Some?
      ensures isOpen == (old(isOpen) || file.Some?)
      ensures r.Ok? ==> r.value == PositionAt(Visible(file), cursor)
    {
      var o := InitializeStreams(file);
      if o.Fail? {
        return Err(o.error);
      }
      return Ok(PositionAt(Visible(file), cursor));
    }

    /** StreamReader.ReadLine: the next line, or None at the end. */
    method ReadLine(f: DataFile) returns (line: Option<string>)
      modifies this`cursor
      ensures old(cursor) < |f.lines| ==> line == Some(f.lines[old(cursor)].text) && cursor == old(cursor) + 1
      ensures old(cursor) >= |f.lines| ==> line == None && cursor == old(cursor)
    {
      if cursor >= |f.lines| {
        return None;
      }
      line := Some(f.lines[cursor].text);
      cursor := cursor + 1;
    }

    /** Where a read that resumes at line c0, whose record starts at line s,
        stands between two iterations: a saved end-of-file position is still
        to be sought (and leads to c0); before the record start the text is
        empty; inside the record the text and the brace balance are those of
        the lines read so far, and the record has not ended yet. */
    predicate Reading(f: DataFile, c0: nat, s: nat, start: bool, data: string, brackets: int)
      reads this
    {
      s == FindStart(f.lines, c0) &&
      (lastPosition != 0 ==> !start && c0 == Seek(f, lastPosition)) &&
      (lastPosition == 0 ==> c0 <= cursor && (cursor == c0 || cursor <= |f.lines|)) &&
      (!start ==> data == "" && brackets == 0) &&
      (!start && lastPosition == 0 ==> FindStart(f.lines, cursor) == s) &&
      (start ==> lastPosition == 0 && s < cursor <= |f.lines| &&
                 data == Joined(f.lines, s, cursor) && brackets == Balance(f.lines, s, cursor) &&
                 FindEnd(f.lines, s, cursor) == FindEnd(f.lines, s, s))
    }

    /** One iteration of the read loop past the cancellation test: seek a
        saved position, read a line (eof when there is none), and take it
        into the record once the record has started. */
    method ReadStep(f: DataFile, ghost c0: nat, ghost s: nat, start: bool, data: string, brackets: int, quotes: int)
      returns (start': bool, data': string, brackets': int, quotes': int, eof: bool, end: bool)
      modifies this`cursor, this`lastPosition
      requires Reading(f, c0, s, start, data, brackets)
      ensures eof ==> !end && RecordFrom(f, c0) == RecordRead(data', 0, cursor, lastPosition)
      ensures end ==> lastPosition == 0 && RecordFrom(f, c0) == RecordRead(data', PositionAt(f, cursor), cursor, 0)
      ensures !eof && !end ==>
        Reading(f, c0, s, start', data', brackets') && lastPosition == 0 &&
        (old(lastPosition) != 0 || cursor == old(cursor) + 1)
    {
      start', data', brackets', quotes', eof, end := start, data, brackets, quotes, false, false;
      if lastPosition != 0 {
        cursor := Seek(f, lastPosition);
      }
      ghost var before := cursor;
      var currentLine := ReadLine(f);
      if currentLine.None? {
        lastPosition := PositionAt(f, cursor);
        eof := true;
        if start {
          RecordCutOff(f, c0, s, cursor, data);
        } else {
          NoRecordLeft(f, c0, s, cursor);
        }
        return;
      }
      lastPosition := 0;
      var line := currentLine.value;
      if !start && |line| > 0 && line[0] == '{' {
        start' := true;
      }
      if start' {
        data', brackets', quotes', end :=
          TakeRecordLine(f.lines, s, before, line, data, brackets, quotes, cursor >= |f.lines|);
        if end {
          RecordClosed(f, c0, s, before, data');
        }
      }
    }

    /** Cuts the next record out of the line stream by counting braces. */
    method ReadNextEventLogItemData(f: DataFile, cancelled: bool) returns (data: string, endPosition: int)
      modifies this`cursor, this`lastPosition
      ensures cancelled ==>
        data == "" && endPosition == 0 && cursor == old(cursor) && lastPosition == old(lastPosition)
      ensures !cancelled ==>
        (RecordFrom(f, ResumeLine(f, old(cursor), old(lastPosition)))
          == RecordRead(data, endPosition, cursor, lastPosition))
    {
      var quotesQuantity := 0;
      var bracketsQuantity := 0;
      var start := false;
      var end := false;
      endPosition := 0;
      data := "";
      ghost var c0 := ResumeLine(f, cursor, lastPosition);
      ghost var s := FindStart(f.lines, c0);
      while true
        invariant cancelled ==> cursor == old(cursor) && lastPosition == old(lastPosition) && data == ""
        invariant !cancelled ==> Reading(f, c0, s, start, data, bracketsQuantity)
        invariant endPosition == 0
        decreases if lastPosition != 0 then 1 else 0, |f.lines| - cursor
      {
        if cancelled {
          break;
        }
        var eof;
        start, data, bracketsQuantity, quotesQuantity, eof, end :=
          ReadStep(f, c0, s, start, data, bracketsQuantity, quotesQuantity);
        if eof {
          break;
        }
        if end {
          endPosition := PositionAt(f, cursor);
          break;
        }
      }
      if |data| > 0 && data[|data| - 1] == ',' {
        // the text of a record always ends with the '\n' appended to its last line
        RecordTextShape(f, c0);
        assert false;
      }
    }

    /** Reads the next record; None when no record text is left.  parse is
        the bracket parser, None for text it rejects. */
    method ReadNextEventLogItem(file: Option<DataFile>, lgfFile: Option<seq<RefNode>>, cancelled: bool,
                                parse: string -> Option<Node>)
      returns (r: Result<Option<EventLogItem>>)
      modifies this`isOpen, this`cursor, this`lastPosition
      modifies lgf`isOpen, lgf`next, lgf`position, lgf`objects, lgf`referenced
      ensures old(disposed) ==> r == Err(ObjectDisposed)
      ensures !old(disposed) && !old(isOpen) && file.None? ==> r == Err(FileNotFound(lgpPath))
      ensures r.Err? && !old(disposed) ==> ReadFault(r.error)
      ensures !old(disposed) && (old(isOpen) || file.Some?) ==>
        var rec := NextRecord(file, old(isOpen), old(cursor), old(lastPosition));
        (r == Ok(None) <==> cancelled || rec.data == "") &&
        (r.Ok? && r.value.Some? ==>
          !cancelled && ItemOf(r.value.value, rec, parse, LgpFileName(), Contents(lgfFile), old(lgf.Cur())))
      // a reader that cannot read stays as it was; one that reads is open and
      // stands after the record it read, or where it stood when cancelled
      ensures old(disposed) || (!old(isOpen) && file.None?) ==>
        isOpen == old(isOpen) && cursor == old(cursor) && lastPosition == old(lastPosition)
      ensures !old(disposed) && (old(isOpen) || file.Some?) ==>
        var rec := NextRecord(file, old(isOpen), old(cursor), old(lastPosition));
        isOpen &&
        (cancelled ==> cursor == (if old(isOpen) then old(cursor) else 0) && lastPosition == old(lastPosition)) &&
        (!cancelled ==> cursor == rec.cursor && lastPosition == rec.lastPosition)
      // with a usable reference reader a record yields an item exactly when it maps
      ensures !old(disposed) && (old(isOpen) || file.Some?) && !lgf.disposed && (old(lgf.isOpen) || lgfFile.Some?) ==>
        (r.Ok? && r.value.Some? <==>
           !cancelled &&
           Mappable(NextRecord(file, old(isOpen), old(cursor), old(lastPosition)), parse, Contents(lgfFile), old(lgf.Cur())))
      ensures r == Ok(None) ==> lgf.Cur() == old(lgf.Cur())
      ensures old(lgf.isOpen) ==> lgf.isOpen
    {
      if disposed {
        return Err(ObjectDisposed);
      }
      var o := InitializeStreams(file);
      if o.Fail? {
        return Err(o.error);
      }
      var data, endPosition := ReadNextEventLogItemData(Visible(file), cancelled);
      if data == "" {
        return Ok(None);
      }
      var node := parse(data);
      if node.None? {
        return Err(FormatError);
      }
      var item :- ParseEventLogItemData(node.value, endPosition, lgfFile, cancelled);
      return Ok(Some(item));
    }

    /** A plain reference as the record mapping resolves it: what
        GetObjectValue finds, with number 0 standing for no reference. */
    method Resolve(ot: int, number: int, lgfFile: Option<seq<RefNode>>, cancelled: bool)
      returns (r: Result<string>)
      modifies lgf`isOpen, lgf`next, lgf`position, lgf`objects, lgf`referenced
      ensures number == 0 ==> r == Ok("") && lgf.Cur() == old(lgf.Cur())
      ensures r.Ok? ==> PlainLookup(Contents(lgfFile), old(lgf.Cur()), ot, number, cancelled) == (Some(r.value), lgf.Cur())
      ensures !lgf.disposed && (old(lgf.isOpen) || lgfFile.Some?) ==>
                (r.Ok? <==> PlainLookup(Contents(lgfFile), old(lgf.Cur()), ot, number, cancelled).0.Some?)
      ensures r.Err? ==> ReadFault(r.error)
      ensures old(lgf.isOpen) ==> lgf.isOpen
    {
      ghost var c := lgf.Cur();
      r := lgf.GetObjectValue(ot, number, lgfFile, cancelled);
      ScanFailsOnlyOnFormat(LgfReaderModel.Contents(lgfFile), c, Query(ot, number, 0));
    }

    /** A Users or Metadata reference: what GetReferencedObjectValue finds. */
    method ResolveNamed(ot: int, number: int, lgfFile: Option<seq<RefNode>>, cancelled: bool)
      returns (r: Result<Named>)
      modifies lgf`isOpen, lgf`next, lgf`position, lgf`objects, lgf`referenced
      ensures number == 0 ==> r == Ok(Named("", "")) && lgf.Cur() == old(lgf.Cur())
      ensures r.Ok? ==> NamedLookup(Contents(lgfFile), old(lgf.Cur()), ot, number, cancelled) == (Some(r.value), lgf.Cur())
      ensures !lgf.disposed && (old(lgf.isOpen) || lgfFile.Some?) ==>
                (r.Ok? <==> NamedLookup(Contents(lgfFile), old(lgf.Cur()), ot, number, cancelled).0.Some?)
      ensures r.Err? ==> ReadFault(r.error)
      ensures old(lgf.isOpen) ==> lgf.isOpen
    {
      ghost var c := lgf.Cur();
      r := lgf.GetReferencedObjectValue(ot, number, lgfFile, cancelled);
      ScanFailsOnlyOnFormat(LgfReaderModel.Contents(lgfFile), c, Query(ot, number, 0));
    }

    /** Maps the fields of a parsed record, resolving reference numbers in
        the order of the record's fields. */
    method ParseEventLogItemData(node: Node, endPosition: int, lgfFile: Option<seq<RefNode>>, cancelled: bool)
      returns (r: Result<EventLogItem>)
      modifies lgf`isOpen, lgf`next, lgf`position, lgf`objects, lgf`referenced
      ensures r.Ok? ==> FieldsFromNode(r.value, node, LgpFileName(), endPosition)
      ensures r.Ok? ==>
        ResolvedAlong(Contents(lgfFile), old(lgf.Cur()), node, cancelled, r.value) &&
        lgf.Cur() == LookupsEnd(Contents(lgfFile), old(lgf.Cur()), node, cancelled)
      ensures !lgf.disposed && (old(lgf.isOpen) || lgfFile.Some?) ==> (r.Ok? <==> Maps(Contents(lgfFile), old(lgf.Cur()), node, cancelled))
      ensures r.Err? ==> ReadFault(r.error)
      ensures old(lgf.isOpen) ==> lgf.isOpen
    {
      ghost var c0 := lgf.Cur();
      var head :- ParseHeadFields(node, endPosition, lgfFile, cancelled);
      r := ParseTailFields(node, head, lgfFile, cancelled);
      if r.Ok? {
        FieldsFromParts(node, LgpFileName(), endPosition, head, r.value);
        ResolvedFromParts(Contents(lgfFile), c0, node, cancelled, head, r.value);
      }
    }

    /** The fields before Data (index 11). */
    method ParseHeadFields(node: Node, endPosition: int, lgfFile: Option<seq<RefNode>>, cancelled: bool)
      returns (r: Result<EventLogItem>)
      modifies lgf`isOpen, lgf`next, lgf`position, lgf`objects, lgf`referenced
      ensures r.Ok? ==> HeadFieldsFromNode(HeadOf(r.value), node, LgpFileName(), endPosition)
      ensures r.Ok? ==>
        var c3 := FirstEnd(Contents(lgfFile), old(lgf.Cur()), node, cancelled);
        FirstAlong(Contents(lgfFile), old(lgf.Cur()), node, cancelled, r.value) &&
        MiddleAlong(Contents(lgfFile), c3, node, cancelled, r.value) &&
        lgf.Cur() == MiddleEnd(Contents(lgfFile), c3, node, cancelled)
      ensures !lgf.disposed && (old(lgf.isOpen) || lgfFile.Some?) ==>
        (r.Ok? <==> FirstMaps(Contents(lgfFile), old(lgf.Cur()), node, cancelled) &&
                    MiddleMaps(Contents(lgfFile), FirstEnd(Contents(lgfFile), old(lgf.Cur()), node, cancelled), node, cancelled))
      ensures r.Err? ==> ReadFault(r.error)
      ensures old(lgf.isOpen) ==> lgf.isOpen
    {
      var first :- ParseFirstFields(node, endPosition, lgfFile, cancelled);
      r := ParseMiddleFields(node, first, lgfFile, cancelled);
    }

    /** The fields up to the application (index 5): the time, the
        transaction status, the user, computer and application. */
    method ParseFirstFields(node: Node, endPosition: int, lgfFile: Option<seq<RefNode>>, cancelled: bool)
      returns (r: Result<EventLogItem>)
      modifies lgf`isOpen, lgf`next, lgf`position, lgf`objects, lgf`referenced
      ensures r.Ok? ==>
        StringAt(node, 0).Ok? && ParseTimestamp(StringAt(node, 0).value) == Ok(r.value.dateTime)
        && StringAt(node, 1).Ok? && r.value.transactionStatus == TransactionPresentation(StringAt(node, 1).value)
        && r.value.fileName == LgpFileName() && r.value.endPosition == endPosition
        && r.value.id == 0 && r.value.lgfEndPosition == 0
        && r.value.transactionDateTime == MinValue && r.value.transactionNumber == 0
      ensures r.Ok? ==>
        FirstAlong(Contents(lgfFile), old(lgf.Cur()), node, cancelled, r.value) &&
        lgf.Cur() == FirstEnd(Contents(lgfFile), old(lgf.Cur()), node, cancelled)
      ensures !lgf.disposed && (old(lgf.isOpen) || lgfFile.Some?) ==> (r.Ok? <==> FirstMaps(Contents(lgfFile), old(lgf.Cur()), node, cancelled))
      ensures r.Err? ==> ReadFault(r.error)
      ensures old(lgf.isOpen) ==> lgf.isOpen
    {
      var timestamp :- StringAt(node, 0);
      var dateTime :- ParseTimestamp(timestamp);
      var status :- StringAt(node, 1);

      var user :- ResolveNamedAt(node, 3, Users, lgfFile, cancelled);

      var computer :- ResolveAt(node, 4, Computers, lgfFile, cancelled);
      var application :- ResolveAt(node, 5, Applications, lgfFile, cancelled);

      // the fields the reader does not set keep the defaults of EventLogItem
      return Ok(EventLogItem(0, LgpFileName(), endPosition, 0, dateTime, TransactionPresentation(status),
                             MinValue, 0, user.uuid, user.name, computer, application, 0, "",
                             "", "", "", "", "", "", "", 0, 0, 0));
    }

    /** The fields from the connection (index 6) to the metadata (index 10). */
    method ParseMiddleFields(node: Node, item: EventLogItem, lgfFile: Option<seq<RefNode>>, cancelled: bool)
      returns (r: Result<EventLogItem>)
      modifies lgf`isOpen, lgf`next, lgf`position, lgf`objects, lgf`referenced
      ensures r.Ok? ==>
        IntAt(node, 6).Ok? && StringAt(node, 8).Ok? && StringAt(node, 9).Ok? &&
        r.value == item.(connection := IntAt(node, 6).value, severity := SeverityPresentation(StringAt(node, 8).value),
                         comment := StringAt(node, 9).value, event := r.value.event,
                         metadata := r.value.metadata, metadataUuid := r.value.metadataUuid)
      ensures r.Ok? ==>
        MiddleAlong(Contents(lgfFile), old(lgf.Cur()), node, cancelled, r.value) &&
        lgf.Cur() == MiddleEnd(Contents(lgfFile), old(lgf.Cur()), node, cancelled)
      ensures !lgf.disposed && (old(lgf.isOpen) || lgfFile.Some?) ==> (r.Ok? <==> MiddleMaps(Contents(lgfFile), old(lgf.Cur()), node, cancelled))
      ensures r.Err? ==> ReadFault(r.error)
      ensures old(lgf.isOpen) ==> lgf.isOpen
    {
      var connection :- IntAt(node, 6);
      var event :- ResolveAt(node, 7, Events, lgfFile, cancelled);
      var severity :- StringAt(node, 8);
      var comment :- StringAt(node, 9);

      var metadata :- ResolveNamedAt(node, 10, Metadata, lgfFile, cancelled);
      return Ok(item.(connection := connection, event := event, severity := SeverityPresentation(severity),
                      comment := comment, metadataUuid := metadata.uuid, metadata := metadata.name));
    }

    /** The fields from Data (index 11) on: the payload, its presentation,
        the server and ports, and the session. */
    method ParseTailFields(node: Node, item: EventLogItem, lgfFile: Option<seq<RefNode>>, cancelled: bool)
      returns (r: Result<EventLogItem>)
      modifies lgf`isOpen, lgf`next, lgf`position, lgf`objects, lgf`referenced
      ensures r.Ok? ==> HeadOf(r.value) == HeadOf(item)
      ensures r.Ok? ==> At(node, 11).Ok? && DataText(At(node, 11).value).Ok? &&
                        r.value.data == Trim(DataText(At(node, 11).value).value)
      ensures r.Ok? ==> StringAt(node, 12) == Ok(r.value.dataPresentation) && IntAt(node, 16) == Ok(r.value.session)
      ensures r.Ok? ==>
        TailAlong(Contents(lgfFile), old(lgf.Cur()), node, cancelled, r.value) &&
        lgf.Cur() == TailEnd(Contents(lgfFile), old(lgf.Cur()), node, cancelled)
      ensures !lgf.disposed && (old(lgf.isOpen) || lgfFile.Some?) ==> (r.Ok? <==> TailMaps(Contents(lgfFile), old(lgf.Cur()), node, cancelled))
      ensures r.Err? ==> ReadFault(r.error)
      ensures old(lgf.isOpen) ==> lgf.isOpen
    {
      var dataNode :- At(node, 11);
      var data :- GetData(dataNode);
      var dataPresentation :- StringAt(node, 12);
      var server :- ResolveAt(node, 13, Servers, lgfFile, cancelled);

      var mainPortValue :- ResolvePort(node, 14, MainPorts, lgfFile, cancelled);
      var addPortValue :- ResolvePort(node, 15, AddPorts, lgfFile, cancelled);

      var session :- IntAt(node, 16);
      return Ok(item.(data := Trim(data), dataPresentation := dataPresentation, server := server,
                      mainPort := mainPortValue, addPort := addPortValue, session := session));
    }

    /** A port field at index k: its reference number is resolved, and a
        non-empty text is parsed as an Int32. */
    method ResolvePort(node: Node, k: int, ot: int, lgfFile: Option<seq<RefNode>>, cancelled: bool)
      returns (r: Result<int>)
      modifies lgf`isOpen, lgf`next, lgf`position, lgf`objects, lgf`referenced
      ensures r.Ok? ==>
        PortAlong(Contents(lgfFile), old(lgf.Cur()), ot, node, k, cancelled, r.value) &&
        lgf.Cur() == PlainAfter(Contents(lgfFile), old(lgf.Cur()), ot, node, k, cancelled)
      ensures !lgf.disposed && (old(lgf.isOpen) || lgfFile.Some?) ==> (r.Ok? <==> PortFound(Contents(lgfFile), old(lgf.Cur()), ot, node, k, cancelled))
      ensures r.Err? ==> ReadFault(r.error)
      ensures old(lgf.isOpen) ==> lgf.isOpen
    {
      var text :- ResolveAt(node, k, ot, lgfFile, cancelled);
      r := PortNumber(text);
    }

    /** The reference field at index k: its number, cast from the node, is
        looked up in category ot. */
    method ResolveAt(node: Node, k: int, ot: int, lgfFile: Option<seq<RefNode>>, cancelled: bool)
      returns (r: Result<string>)
      modifies lgf`isOpen, lgf`next, lgf`position, lgf`objects, lgf`referenced
      ensures r.Ok? ==>
        PlainAlong(Contents(lgfFile), old(lgf.Cur()), ot, node, k, cancelled, r.value) &&
        lgf.Cur() == PlainAfter(Contents(lgfFile), old(lgf.Cur()), ot, node, k, cancelled)
      ensures !lgf.disposed && (old(lgf.isOpen) || lgfFile.Some?) ==> (r.Ok? <==> PlainFound(Contents(lgfFile), old(lgf.Cur()), ot, node, k, cancelled))
      ensures r.Err? ==> ReadFault(r.error)
      ensures old(lgf.isOpen) ==> lgf.isOpen
    {
      var number :- IntAt(node, k);
      r := Resolve(ot, number, lgfFile, cancelled);
    }

    /** The same for a user or metadata field, which resolves to a name and
        a uuid. */
    method ResolveNamedAt(node: Node, k: int, ot: int, lgfFile: Option<seq<RefNode>>, cancelled: bool)
      returns (r: Result<Named>)
      modifies lgf`isOpen, lgf`next, lgf`position, lgf`objects, lgf`referenced
      ensures r.Ok? ==>
        NamedAlong(Contents(lgfFile), old(lgf.Cur()), ot, node, k, cancelled, r.value.name, r.value.uuid) &&
        lgf.Cur() == NamedAfter(Contents(lgfFile), old(lgf.Cur()), ot, node, k, cancelled)
      ensures !lgf.disposed && (old(lgf.isOpen) || lgfFile.Some?) ==> (r.Ok? <==> NamedFound(Contents(lgfFile), old(lgf.Cur()), ot, node, k, cancelled))
      ensures r.Err? ==> ReadFault(r.error)
      ensures old(lgf.isOpen) ==> lgf.isOpen
    {
      var number :- IntAt(node, k);
      r := ResolveNamed(ot, number, lgfFile, cancelled);
    }

    /** Releases the file; a second call does nothing. */
    method Dispose()
      modifies this`isOpen, this`disposed
      ensures disposed
      ensures !old(disposed) ==> !isOpen
      ensures old(disposed) ==> isOpen == old(isOpen)
    {
      if !disposed {
        isOpen := false;
        disposed := true;
      }
    }

    /** The watcher's notification that a data file was deleted: the reader
        of that very file disposes itself. */
    method OnFileDeleted(path: string)
      modifies this`isOpen, this`disposed
      ensures path == lgpPath && old(isOpen) ==> disposed
      ensures path != lgpPath || !old(isOpen) ==> disposed == old(disposed) && isOpen == old(isOpen)
    {
      if isOpen && path == lgpPath {
        Dispose();
      }
    }
  }

  function Visible(file: Option<DataFile>): DataFile
  {
    if file.Some? then file.value else DataFile(1, [])
  }

  /** The record the next read of file yields for a reader whose state is
      (open, cursor, lastPosition): a reader not yet open starts at the
      first line after the header. */
  function NextRecord(file: Option<DataFile>, open: bool, cursor: nat, lastPosition: int): RecordRead
  {
    RecordFrom(Visible(file), ResumeLine(Visible(file), if open then cursor else 0, lastPosition))
  }
}
