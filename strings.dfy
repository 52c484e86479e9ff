/** The few .NET string operations the modelled code relies on: white-space
    trimming, String.Replace, Int32 parsing and decimal formatting. */
module Strings {
  import opened Wrappers

  /** Char.IsWhiteSpace: the Unicode space, line and paragraph separators
      plus U+0009..U+000D and U+0085. */
  predicate IsWhiteSpace(c: char)
  {
    ('\U{9}' <= c <= '\U{D}') || c == ' ' || c == '\U{85}' || c == '\U{A0}' ||
    c == '\U{1680}' || ('\U{2000}' <= c <= '\U{200A}') || c == '\U{2028}' ||
    c == '\U{2029}' || c == '\U{202F}' || c == '\U{205F}' || c == '\U{3000}'
  }

  predicate AllWhiteSpace(s: string)
  {
    forall i :: 0 <= i < |s| ==> IsWhiteSpace(s[i])
  }

  /** String.IsNullOrWhiteSpace for a non-null string. */
  predicate IsBlank(s: string)
  {
    AllWhiteSpace(s)
  }

  /** The number of white-space characters at the start of s. */
  function LeadingWhiteSpace(s: string): (n: nat)
    ensures n <= |s|
    ensures forall k :: 0 <= k < n ==> IsWhiteSpace(s[k])
    ensures n < |s| ==> !IsWhiteSpace(s[n])
  {
    if s != [] && IsWhiteSpace(s[0]) then
      var m := LeadingWhiteSpace(s[1..]);
      assert forall k :: 1 <= k < 1 + m ==> s[k] == s[1..][k - 1];
      1 + m
    else 0
  }

  /** The length of s once its trailing white space is dropped. */
  function TextLength(s: string): (n: nat)
    ensures n <= |s|
    ensures forall k :: n <= k < |s| ==> IsWhiteSpace(s[k])
    ensures 0 < n ==> !IsWhiteSpace(s[n - 1])
  {
    if s != [] && IsWhiteSpace(s[|s| - 1]) then
      var n := TextLength(s[..|s| - 1]);
      assert forall k :: n <= k < |s| - 1 ==> s[k] == s[..|s| - 1][k];
      n
    else |s|
  }

  /** String.TrimStart(): drops the leading white space, and only that. */
  function TrimStart(s: string): (r: string)
    ensures |r| <= |s| && r == s[|s| - |r|..]
    ensures AllWhiteSpace(s[..|s| - |r|])
    ensures r == [] || !IsWhiteSpace(r[0])
  {
    s[LeadingWhiteSpace(s)..]
  }

  /** String.TrimEnd(): drops the trailing white space, and only that. */
  function TrimEnd(s: string): (r: string)
    ensures |r| <= |s| && r == s[..|r|]
    ensures AllWhiteSpace(s[|r|..])
    ensures r == [] || !IsWhiteSpace(r[|r| - 1])
  {
    s[..TextLength(s)]
  }

  /** String.Trim(). */
  function Trim(s: string): string
  {
    TrimEnd(TrimStart(s))
  }

  /** Trim keeps a contiguous slice of its input, cut only through white
      space, and the slice neither starts nor ends with white space. */
  lemma TrimIsWhiteSpaceFreeSlice(s: string)
    ensures var i := |s| - |TrimStart(s)|;
            i + |Trim(s)| <= |s| && Trim(s) == s[i..i + |Trim(s)|]
            && AllWhiteSpace(s[..i]) && AllWhiteSpace(s[i + |Trim(s)|..])
    ensures Trim(s) == [] || (!IsWhiteSpace(Trim(s)[0]) && !IsWhiteSpace(Trim(s)[|Trim(s)| - 1]))
  {
    TrimIsSlice(s);
    TrimCutsWhiteSpace(s);
    TrimEndsOnText(s);
  }

  lemma TrimIsSlice(s: string)
    ensures var i := |s| - |TrimStart(s)|;
            i + |Trim(s)| <= |s| && Trim(s) == s[i..i + |Trim(s)|]
  {
    var i := LeadingWhiteSpace(s);
    var e := TextLength(s[i..]);
    assert Trim(s) == s[i..][..e];
    assert s[i..][..e] == s[i..i + e];
  }

  lemma TrimCutsWhiteSpace(s: string)
    ensures var i := |s| - |TrimStart(s)|;
            i + |Trim(s)| <= |s| && AllWhiteSpace(s[..i]) && AllWhiteSpace(s[i + |Trim(s)|..])
  {
    var i := LeadingWhiteSpace(s);
    var e := TextLength(s[i..]);
    assert |Trim(s)| == e;
    WhiteSpaceAfter(s, i, e);
  }

  /** White space after position e of s[i..] is white space in s. */
  lemma WhiteSpaceAfter(s: string, i: nat, e: nat)
    requires i + e <= |s|
    requires forall k :: e <= k < |s| - i ==> IsWhiteSpace(s[i..][k])
    ensures AllWhiteSpace(s[i + e..])
  {
    var rest := s[i + e..];
    forall k | 0 <= k < |rest|
      ensures IsWhiteSpace(rest[k])
    {
      assert rest[k] == s[i..][e + k];
    }
  }

  lemma TrimEndsOnText(s: string)
    ensures Trim(s) == [] || (!IsWhiteSpace(Trim(s)[0]) && !IsWhiteSpace(Trim(s)[|Trim(s)| - 1]))
  {
    var t := TrimStart(s);
    if Trim(s) != [] {
      assert Trim(s)[0] == t[0];
    }
  }

  /** A string is blank exactly when trimming leaves nothing. */
  lemma BlankIffTrimEmpty(s: string)
    ensures IsBlank(s) <==> Trim(s) == ""
  {
    TrimIsWhiteSpaceFreeSlice(s);
    var i := |s| - |TrimStart(s)|;
    if Trim(s) == "" {
      assert s == s[..i] + s[i..];
      forall k | 0 <= k < |s| ensures IsWhiteSpace(s[k]) {
        assert s[k] == s[..i][k];
      }
    }
  }

  lemma TrimIdempotent(s: string)
    ensures Trim(Trim(s)) == Trim(s)
  {
    TrimIsWhiteSpaceFreeSlice(s);
  }

  /** String.Replace(pat, rep): every occurrence of pat, scanned left to right
      without overlap, is replaced by rep. */
  function ReplaceAll(s: string, pat: string, rep: string): string
    requires pat != []
    decreases |s|
  {
    if |s| < |pat| then s
    else if s[..|pat|] == pat then rep + ReplaceAll(s[|pat|..], pat, rep)
    else [s[0]] + ReplaceAll(s[1..], pat, rep)
  }

  predicate OccursAt(s: string, pat: string, i: int)
  {
    0 <= i <= |s| - |pat| && s[i..i + |pat|] == pat
  }

  predicate Contains(s: string, pat: string)
  {
    exists i :: 0 <= i <= |s| && OccursAt(s, pat, i)
  }

  /** Replacing a pattern that does not occur changes nothing. */
  lemma {:induction false} ReplaceAbsent(s: string, pat: string, rep: string)
    requires pat != [] && !Contains(s, pat)
    ensures ReplaceAll(s, pat, rep) == s
    decreases |s|
  {
    if |s| >= |pat| {
      assert !OccursAt(s, pat, 0);
      assert s[0..|pat|] == s[..|pat|];
      if Contains(s[1..], pat) {
        var i :| 0 <= i <= |s[1..]| && OccursAt(s[1..], pat, i);
        assert 0 <= i <= |s[1..]| - |pat| && s[1..][i..i + |pat|] == pat;
        assert s[1..][i..i + |pat|] == s[i + 1..i + 1 + |pat|];
        assert OccursAt(s, pat, i + 1);
      }
      ReplaceAbsent(s[1..], pat, rep);
      assert s == [s[0]] + s[1..];
    }
  }

  /** Occurrences on both sides of a replacement are handled independently
      when the left part cannot reach into the pattern. */
  lemma {:induction false} ReplaceAfterPattern(pat: string, rep: string, rest: string)
    requires pat != []
    ensures ReplaceAll(pat + rest, pat, rep) == rep + ReplaceAll(rest, pat, rep)
  {
    assert (pat + rest)[..|pat|] == pat;
    assert (pat + rest)[|pat|..] == rest;
  }

  function DigitChar(d: nat): char
    requires d < 10
  {
    ['0', '1', '2', '3', '4', '5', '6', '7', '8', '9'][d]
  }

  predicate IsDigit(c: char)
  {
    '0' <= c <= '9'
  }

  function DigitValue(c: char): nat
    requires IsDigit(c)
  {
    (c as int - '0' as int) as nat
  }

  /** The decimal digits of n, most significant first, without leading zeros. */
  function NatDigits(n: nat): (r: string)
    ensures r != [] && forall i :: 0 <= i < |r| ==> IsDigit(r[i])
  {
    if n < 10 then [DigitChar(n)] else NatDigits(n / 10) + [DigitChar(n % 10)]
  }

  function DigitsValue(s: string): nat
    requires forall i :: 0 <= i < |s| ==> IsDigit(s[i])
  {
    if s == [] then 0 else DigitsValue(s[..|s| - 1]) * 10 + DigitValue(s[|s| - 1])
  }

  lemma {:induction false} DigitsRoundTrip(n: nat)
    ensures DigitsValue(NatDigits(n)) == n
  {
    var r := NatDigits(n);
    if n >= 10 {
      DigitsRoundTrip(n / 10);
      assert r[..|r| - 1] == NatDigits(n / 10);
    }
  }

  /** Int32.ToString() in the invariant culture. */
  function IntToString(n: int): string
  {
    if n < 0 then "-" + NatDigits(-n) else NatDigits(n)
  }

  /** Zero-padded decimal of at least w digits, as a .NET "00" style format. */
  function PadDigits(n: nat, w: nat): (r: string)
    ensures |r| >= w && forall i :: 0 <= i < |r| ==> IsDigit(r[i])
    decreases w
  {
    var d := NatDigits(n);
    if |d| >= w then d else "0" + PadDigits(n, w - 1)
  }

  /** 10 to the power w. */
  function Pow10(w: nat): (r: nat)
    ensures r >= 1
  {
    if w == 0 then 1 else 10 * Pow10(w - 1)
  }

  lemma DigitCharOfValue(c: char)
    requires IsDigit(c)
    ensures DigitChar(DigitValue(c)) == c
  {
    if c == '0' {} else if c == '1' {} else if c == '2' {} else if c == '3' {} else if c == '4' {}
    else if c == '5' {} else if c == '6' {} else if c == '7' {} else if c == '8' {} else {}
  }

  /** A leading zero does not change the value of a digit string. */
  lemma {:induction false} LeadingZeroValue(s: string)
    requires forall i :: 0 <= i < |s| ==> IsDigit(s[i])
    ensures DigitsValue("0" + s) == DigitsValue(s)
  {
    if s != [] {
      assert ("0" + s)[..|s|] == "0" + s[..|s| - 1];
      LeadingZeroValue(s[..|s| - 1]);
    }
  }

  /** A number below 10^w has at most w digits. */
  lemma {:induction false} NatDigitsShort(n: nat, w: nat)
    requires 1 <= w && n < Pow10(w)
    ensures |NatDigits(n)| <= w
  {
    if n >= 10 {
      NatDigitsShort(n / 10, w - 1);
    }
  }

  /** Padding to w digits keeps the value, and gives exactly w digits when
      the number has no more than w. */
  lemma {:induction false} PadDigitsValue(n: nat, w: nat)
    ensures DigitsValue(PadDigits(n, w)) == n
    ensures |PadDigits(n, w)| >= |NatDigits(n)|
    ensures |NatDigits(n)| <= w ==> |PadDigits(n, w)| == w
    decreases w
  {
    if |NatDigits(n)| >= w {
      DigitsRoundTrip(n);
    } else {
      PadDigitsValue(n, w - 1);
      LeadingZeroValue(PadDigits(n, w - 1));
    }
  }

  /** A digit string that does not start with '0' has a value of at least 1. */
  lemma {:induction false} LeadingDigitPositive(s: string)
    requires s != [] && (forall i :: 0 <= i < |s| ==> IsDigit(s[i])) && s[0] != '0'
    ensures DigitsValue(s) >= 1
  {
    if |s| > 1 {
      LeadingDigitPositive(s[..|s| - 1]);
    }
  }

  /** The digits of the value of a string without a leading zero are the string. */
  lemma {:induction false} NatDigitsOfValue(s: string)
    requires s != [] && (forall i :: 0 <= i < |s| ==> IsDigit(s[i])) && s[0] != '0'
    ensures NatDigits(DigitsValue(s)) == s
  {
    var p := s[..|s| - 1];
    var c := s[|s| - 1];
    DigitCharOfValue(c);
    if p != [] {
      NatDigitsOfValue(p);
      LeadingDigitPositive(p);
      var v := DigitsValue(s);
      assert v == DigitsValue(p) * 10 + DigitValue(c);
      assert v / 10 == DigitsValue(p) && v % 10 == DigitValue(c);
      assert s == p + [c];
    }
  }

  /** A digit string is its own value padded to its length. */
  lemma {:induction false} PadDigitsOfValue(s: string)
    requires s != [] && forall i :: 0 <= i < |s| ==> IsDigit(s[i])
    ensures PadDigits(DigitsValue(s), |s|) == s
  {
    if s[0] != '0' {
      NatDigitsOfValue(s);
    } else if |s| > 1 {
      var t := s[1..];
      assert s == "0" + t;
      LeadingZeroValue(t);
      PadDigitsOfValue(t);
      PadDigitsValue(DigitsValue(t), |t|);
    }
  }

  const Int32Min: int := -0x8000_0000
  const Int32Max: int := 0x7FFF_FFFF

  predicate IsInt32(n: int)
  {
    Int32Min <= n <= Int32Max
  }

  /** The white space int.Parse skips around a number (NumberStyles.Integer). */
  predicate IsNumberWhite(c: char)
  {
    ('\U{9}' <= c <= '\U{D}') || c == ' '
  }

  function SkipNumberWhite(s: string): (r: string)
    ensures |r| <= |s|
  {
    if s != [] && IsNumberWhite(s[0]) then SkipNumberWhite(s[1..]) else s
  }

  function DropTrailingNumberWhite(s: string): (r: string)
    ensures |r| <= |s|
  {
    if s != [] && IsNumberWhite(s[|s| - 1]) then DropTrailingNumberWhite(s[..|s| - 1]) else s
  }

  /** int.Parse(s): optional white space, an optional sign, one or more
      decimal digits, optional white space; other text throws
      FormatException, and a well-formed value outside Int32 throws
      OverflowException. */
  function ParseInt32(s: string): (r: Result<int>)
    ensures r.Ok? ==> IsInt32(r.value)
    ensures r.Err? ==> Malformed(r.error)
  {
    var t := DropTrailingNumberWhite(SkipNumberWhite(s));
    var negative := t != [] && t[0] == '-';
    var body := if t != [] && (t[0] == '-' || t[0] == '+') then t[1..] else t;
    if body == [] || !(forall i :: 0 <= i < |body| ==> IsDigit(body[i])) then Err(FormatError)
    else
      var v: int := if negative then 0 - DigitsValue(body) as int else DigitsValue(body);
      if IsInt32(v) then Ok(v) else Err(Overflow)
  }

  /** Formatting an Int32 and parsing it back gives the same number. */
  lemma IntToStringRoundTrip(n: int)
    requires IsInt32(n)
    ensures ParseInt32(IntToString(n)) == Ok(n)
  {
    var m: nat := if n < 0 then -n else n;
    DigitsRoundTrip(m);
    var d := NatDigits(m);
    assert SkipNumberWhite(IntToString(n)) == IntToString(n);
    assert DropTrailingNumberWhite(IntToString(n)) == IntToString(n) by {
      assert IsDigit(d[|d| - 1]);
    }
    if n < 0 {
      assert IntToString(n)[1..] == d;
    }
  }

  /** The number of occurrences of c in s (Enumerable.Count(ch => ch == c)). */
  function Count(s: string, c: char): (r: nat)
    ensures r <= |s|
  {
    if s == [] then 0 else Count(s[..|s| - 1], c) + (if s[|s| - 1] == c then 1 else 0)
  }

  lemma {:induction false} CountAppend(a: string, b: string, c: char)
    ensures Count(a + b, c) == Count(a, c) + Count(b, c)
    decreases |b|
  {
    if b == [] {
      assert a + b == a;
    } else {
      assert (a + b)[..|a + b| - 1] == a + b[..|b| - 1];
      CountAppend(a, b[..|b| - 1], c);
    }
  }
}
