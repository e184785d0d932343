/** The string operations of Python that several components use, on characters. */
module Text {

  datatype Option<+T> = None | Some(value: T)

  /** The characters str.strip removes and \s matches. */
  predicate IsSpace(c: char) {
    || c == ' ' || '\t' <= c <= '\r' || '\U{001C}' <= c <= '\U{001F}' || c == '\U{0085}' || c == '\U{00A0}'
    || c == '\U{1680}' || '\U{2000}' <= c <= '\U{200A}' || c == '\U{2028}' || c == '\U{2029}' || c == '\U{202F}'
    || c == '\U{205F}' || c == '\U{3000}'
  }

  /** The characters str.splitlines breaks at. */
  predicate IsBreak(c: char) {
    || '\n' <= c <= '\r' || '\U{001C}' <= c <= '\U{001E}' || c == '\U{0085}' || c == '\U{2028}' || c == '\U{2029}'
  }

  predicate IsDigit(c: char) {
    '0' <= c <= '9'
  }

  predicate IsLetter(c: char) {
    'a' <= c <= 'z' || 'A' <= c <= 'Z'
  }

  function LowerChar(c: char): char {
    if 'A' <= c <= 'Z' then c - 'A' + 'a' else c
  }

  /** ASCII lower case. */
  function Lower(s: string): (r: string)
    ensures |r| == |s|
    ensures forall i :: 0 <= i < |s| ==> r[i] == LowerChar(s[i])
  {
    if s == "" then "" else [LowerChar(s[0])] + Lower(s[1..])
  }

  function StripLeft(s: string): string {
    if s != "" && IsSpace(s[0]) then StripLeft(s[1..]) else s
  }

  function StripRight(s: string): string {
    if s != "" && IsSpace(s[|s| - 1]) then StripRight(s[..|s| - 1]) else s
  }

  /** str.strip */
  function Strip(s: string): string {
    StripRight(StripLeft(s))
  }

  ghost predicate Stripped(s: string) {
    s == "" || (!IsSpace(s[0]) && !IsSpace(s[|s| - 1]))
  }

  lemma StripFixed(s: string)
    requires Stripped(s)
    ensures Strip(s) == s
  {
  }

  predicate StartsWith(s: string, p: string) {
    |p| <= |s| && s[..|p|] == p
  }

  predicate EndsWith(s: string, p: string) {
    |p| <= |s| && s[|s| - |p|..] == p
  }

  /** sep.join(parts) */
  function Join(parts: seq<string>, sep: string): string {
    if |parts| == 0 then ""
    else if |parts| == 1 then parts[0]
    else parts[0] + sep + Join(parts[1..], sep)
  }

  /** text.split(c) on one character. */
  function SplitOn(s: string, c: char): (r: seq<string>)
    ensures |r| >= 1
    ensures forall i :: 0 <= i < |r| ==> c !in r[i]
  {
    if s == "" then [""]
    else
      var rest := SplitOn(s[1..], c);
      if s[0] == c then [""] + rest else [[s[0]] + rest[0]] + rest[1..]
  }

  lemma {:induction false} JoinSplit(s: string, c: char)
    ensures Join(SplitOn(s, c), [c]) == s
  {
    if s != "" {
      JoinSplit(s[1..], c);
      var rest := SplitOn(s[1..], c);
      if s[0] == c {
        assert SplitOn(s, c)[1..] == rest;
      } else {
        assert SplitOn(s, c)[1..] == rest[1..];
      }
    }
  }

  const NUL := '\0'

  /** text.replace("\r\n", "\n").replace("\r", "\n"), which is also what reading a file in text mode does. */
  function NormalizeNewlines(s: string): (r: string)
    ensures '\r' !in r && |r| <= |s|
    ensures NUL in r <==> NUL in s
  {
    if s == "" then ""
    else if s[0] != '\r' then [s[0]] + NormalizeNewlines(s[1..])
    else if |s| > 1 && s[1] == '\n' then
      assert NUL in s <==> NUL in s[2..];
      "\n" + NormalizeNewlines(s[2..])
    else "\n" + NormalizeNewlines(s[1..])
  }

  lemma {:induction false} NewlinesFixed(s: string)
    ensures NormalizeNewlines(s) == s <==> '\r' !in s
  {
    if s != "" && s[0] != '\r' {
      NewlinesFixed(s[1..]);
    }
  }

  /** The pieces of a text between line breaks. */
  function SplitBreaks(s: string): (r: seq<string>)
    ensures |r| >= 1
  {
    if s == "" then [""]
    else
      var rest := SplitBreaks(s[1..]);
      if IsBreak(s[0]) then [""] + rest else [[s[0]] + rest[0]] + rest[1..]
  }

  lemma {:induction false} SplitLine(line: string, rest: string)
    requires forall c :: c in line ==> !IsBreak(c)
    ensures SplitBreaks(line + "\n" + rest) == [line] + SplitBreaks(rest)
  {
    var s := line + "\n" + rest;
    if line == "" {
      assert s == "\n" + rest;
      assert s[1..] == rest;
    } else {
      assert s[1..] == line[1..] + "\n" + rest;
      assert line[0] in line;
      SplitLine(line[1..], rest);
      assert [line[0]] + line[1..] == line;
      assert SplitBreaks(s[1..])[0] == line[1..] && SplitBreaks(s[1..])[1..] == SplitBreaks(rest);
    }
  }

  lemma {:induction false} SplitLast(line: string)
    requires forall c :: c in line ==> !IsBreak(c)
    ensures SplitBreaks(line) == [line]
  {
    if line != "" {
      assert line[0] in line;
      SplitLast(line[1..]);
      assert [line[0]] + line[1..] == line;
      assert SplitBreaks(line[1..])[0] == line[1..] && SplitBreaks(line[1..])[1..] == [];
    }
  }

  lemma {:induction false} SplitJoined(lines: seq<string>)
    requires |lines| >= 1
    requires forall i :: 0 <= i < |lines| ==> forall c :: c in lines[i] ==> !IsBreak(c)
    ensures SplitBreaks(Join(lines, "\n")) == lines
  {
    if |lines| == 1 {
      SplitLast(lines[0]);
    } else {
      SplitJoined(lines[1..]);
      SplitLine(lines[0], Join(lines[1..], "\n"));
    }
  }

  // ----- decimal numbers -----

  function Digit(n: nat): char
    requires n < 10
  {
    '0' + n as char
  }

  function Decimal(n: nat): (r: string)
    ensures r != "" && forall c :: c in r ==> IsDigit(c)
    ensures n > 0 ==> r[0] != '0'
  {
    if n < 10 then [Digit(n)] else Decimal(n / 10) + [Digit(n % 10)]
  }

  function DigitValue(c: char): nat
    requires IsDigit(c)
  {
    c as nat - '0' as nat
  }

  function Number(s: string): nat
    requires forall c :: c in s ==> IsDigit(c)
  {
    if s == "" then 0 else Number(s[..|s| - 1]) * 10 + DigitValue(s[|s| - 1])
  }

  lemma {:induction false} NumberDecimal(n: nat)
    ensures Number(Decimal(n)) == n
  {
    if n < 10 {
      assert Decimal(n)[..0] == "";
    } else {
      NumberDecimal(n / 10);
      assert Decimal(n)[..|Decimal(n)| - 1] == Decimal(n / 10);
    }
  }

  lemma {:induction false} DecimalLength(n: nat, k: nat)
    requires n < 10 || k > 1
    requires k >= 1 && n < Power10(k)
    ensures |Decimal(n)| <= k
  {
    if n >= 10 {
      DecimalLength(n / 10, k - 1);
    }
  }

  function Power10(k: nat): nat {
    if k == 0 then 1 else 10 * Power10(k - 1)
  }

  /** Digits with single underscores between them, as int() reads them. */
  predicate DigitGroups(s: string) {
    s != "" && IsDigit(s[0])
    && (|s| == 1 || (if s[1] == '_' then DigitGroups(s[2..]) else DigitGroups(s[1..])))
  }

  function KeepDigits(s: string): (r: string)
    ensures forall c :: c in r ==> IsDigit(c)
  {
    if s == "" then "" else (if IsDigit(s[0]) then [s[0]] else "") + KeepDigits(s[1..])
  }

  predicate Signed(s: string) {
    s != "" && (s[0] == '-' || s[0] == '+')
  }

  function ParseUnsigned(s: string): Option<nat> {
    if DigitGroups(s) then Some(Number(KeepDigits(s))) else None
  }

  function ParseSigned(s: string): Option<int> {
    if !Signed(s) then ParseUnsigned(s)
    else
      match ParseUnsigned(s[1..])
      case None => None
      case Some(n) => var v: int := n; Some(if s[0] == '-' then -v else v)
  }

  /** int(s) on a string: None where it raises. */
  function ParseInt(s: string): Option<int> {
    ParseSigned(Strip(s))
  }

  lemma {:induction false} AllDigits(s: string)
    requires s != "" && forall c :: c in s ==> IsDigit(c)
    ensures DigitGroups(s) && KeepDigits(s) == s
  {
    assert s[0] in s;
    if |s| > 1 {
      assert s[1] in s;
      AllDigits(s[1..]);
    } else {
      assert s[1..] == "";
    }
  }

  lemma DigitsAreNotSpaces(s: string)
    requires forall c :: c in s ==> IsDigit(c)
    ensures Stripped(s)
  {
    if s != "" {
      assert s[0] in s && s[|s| - 1] in s;
    }
  }

  lemma ParseDecimal(n: nat)
    ensures ParseInt(Decimal(n)) == Some(n)
  {
    var s := Decimal(n);
    AllDigits(s);
    DigitsAreNotSpaces(s);
    StripFixed(s);
    NumberDecimal(n);
    assert s[0] in s;
  }
}
