/** agent/mail_backend.py: the text files of the mail provider, as maps that are read and written. */
module MailFiles {
  import opened Text
  import opened Sorting

  /** A key, a separator and a value on each line; `strip` says whether space around the value is dropped. */
  datatype Format = Format(sep: char, strip: bool)

  const MAP := Format(' ', true)
  const USERS := Format(':', false)

  type Map = map<string, string>

  /** Where the first c is, or the length. */
  function IndexOf(s: string, c: char): (n: nat)
    ensures n <= |s| && (n < |s| ==> s[n] == c)
    ensures forall i :: 0 <= i < n ==> s[i] != c
  {
    if s == "" || s[0] == c then 0 else 1 + IndexOf(s[1..], c)
  }

  /** One line: its pair, or None when it is skipped. */
  function ParseLine(f: Format, raw: string): Option<(string, string)> {
    var line := Strip(raw);
    if line == "" || line[0] == '#' then None
    else
      var n := IndexOf(line, f.sep);
      if n == |line| || n == 0 then None
      else
        var value := if f.strip then Strip(line[n + 1..]) else line[n + 1..];
        if value == "" then None else Some((line[..n], value))
  }

  /** Lines in order, where a later pair replaces an earlier one with its key. */
  function ParseLines(f: Format, lines: seq<string>): Map {
    if lines == [] then map[]
    else
      var m := ParseLines(f, lines[..|lines| - 1]);
      match ParseLine(f, lines[|lines| - 1])
      case None => m
      case Some((k, v)) => m[k := v]
  }

  lemma ParseMore(f: Format, lines: seq<string>, i: nat)
    requires i < |lines|
    ensures ParseLines(f, lines[..i + 1])
         == match ParseLine(f, lines[i])
            case None => ParseLines(f, lines[..i])
            case Some((k, v)) => ParseLines(f, lines[..i])[k := v]
  {
    assert lines[..i + 1][..i] == lines[..i];
  }

  /** path.read_text().splitlines() */
  function LinesOf(text: string): seq<string> {
    SplitBreaks(NormalizeNewlines(text))
  }

  function Contents(f: Format, text: string): Map {
    ParseLines(f, LinesOf(text))
  }

  /** _read_map and _read_users */
  method Read(f: Format, text: string) returns (out: Map)
    ensures out == Contents(f, text)
  {
    out := map[];
    var lines := LinesOf(text);
    var i := 0;
    while i < |lines|
      invariant 0 <= i <= |lines|
      invariant out == ParseLines(f, lines[..i])
    {
      ParseMore(f, lines, i);
      match ParseLine(f, lines[i]) {
        case None =>
        case Some((k, v)) => out := out[k := v];
      }
      i := i + 1;
    }
    assert lines[..|lines|] == lines;
  }

  // ----- pairs that survive a round trip -----

  ghost predicate NoBreaks(s: string) {
    forall i :: 0 <= i < |s| ==> !IsBreak(s[i])
  }

  ghost predicate CleanKey(f: Format, k: string) {
    k != "" && f.sep !in k && !IsSpace(k[0]) && k[0] != '#' && NoBreaks(k)
  }

  ghost predicate CleanValue(f: Format, v: string) {
    v != "" && NoBreaks(v) && !IsSpace(v[|v| - 1]) && (f.strip ==> !IsSpace(v[0]))
  }

  ghost predicate CleanPair(f: Format, k: string, v: string) {
    CleanKey(f, k) && CleanValue(f, v)
  }

  ghost predicate Clean(f: Format, m: Map) {
    forall k :: k in m ==> CleanPair(f, k, m[k])
  }

  function Line(f: Format, k: string, v: string): string {
    k + [f.sep] + v
  }

  lemma IndexOfSep(k: string, c: char, v: string)
    requires c !in k
    ensures IndexOf(k + [c] + v, c) == |k|
  {
    var s := k + [c] + v;
    assert s[|k|] == c;
    assert forall i :: 0 <= i < |k| ==> s[i] == k[i] && k[i] != c;
  }

  /** A line that was written is read as its pair. */
  lemma LineRoundTrip(f: Format, k: string, v: string)
    requires CleanPair(f, k, v)
    ensures ParseLine(f, Line(f, k, v)) == Some((k, v))
    ensures NoBreaks([f.sep]) ==> NoBreaks(Line(f, k, v))
  {
    var s := Line(f, k, v);
    assert s[0] == k[0] && s[|s| - 1] == v[|v| - 1];
    StripFixed(s);
    IndexOfSep(k, f.sep, v);
    assert s[..|k|] == k && s[|k| + 1..] == v;
    if f.strip {
      StripFixed(v);
    }
  }

  lemma {:induction false} StripLeftBare(s: string)
    ensures StripLeft(s) == "" || !IsSpace(StripLeft(s)[0])
    ensures NoBreaks(s) ==> NoBreaks(StripLeft(s))
  {
    if s != "" && IsSpace(s[0]) {
      StripLeftBare(s[1..]);
    }
  }

  lemma {:induction false} StripRightBare(s: string)
    ensures StripRight(s) == "" || !IsSpace(StripRight(s)[|StripRight(s)| - 1])
    ensures StripRight(s) != "" ==> s != "" && StripRight(s)[0] == s[0]
    ensures NoBreaks(s) ==> NoBreaks(StripRight(s))
  {
    if s != "" && IsSpace(s[|s| - 1]) {
      StripRightBare(s[..|s| - 1]);
    }
  }

  lemma StripBare(s: string)
    ensures Stripped(Strip(s))
    ensures NoBreaks(s) ==> NoBreaks(Strip(s))
  {
    StripLeftBare(s);
    StripRightBare(StripLeft(s));
  }

  /** What is read is clean, so it can be written and read again. */
  lemma ParsedLineClean(f: Format, raw: string)
    requires NoBreaks(raw) && ParseLine(f, raw).Some?
    ensures var (k, v) := ParseLine(f, raw).value; CleanPair(f, k, v)
  {
    StripBare(raw);
    var line := Strip(raw);
    var n := IndexOf(line, f.sep);
    var rest := line[n + 1..];
    assert NoBreaks(rest) && (rest != "" ==> rest[|rest| - 1] == line[|line| - 1]);
    StripBare(rest);
  }

  lemma {:induction false} ParsedClean(f: Format, lines: seq<string>)
    requires forall i :: 0 <= i < |lines| ==> NoBreaks(lines[i])
    ensures Clean(f, ParseLines(f, lines))
  {
    if lines != [] {
      ParsedClean(f, lines[..|lines| - 1]);
      if ParseLine(f, lines[|lines| - 1]).Some? {
        ParsedLineClean(f, lines[|lines| - 1]);
      }
    }
  }

  lemma {:induction false} SplitBare(s: string)
    ensures forall i :: 0 <= i < |SplitBreaks(s)| ==> NoBreaks(SplitBreaks(s)[i])
  {
    if s != "" {
      SplitBare(s[1..]);
    }
  }

  lemma ContentsClean(f: Format, text: string)
    ensures Clean(f, Contents(f, text))
  {
    SplitBare(NormalizeNewlines(text));
    ParsedClean(f, LinesOf(text));
  }

  // ----- writing -----

  /** The lines of a file, in any order of the keys. */
  function Lines(f: Format, m: Map, order: seq<string>): seq<string>
    requires forall k :: k in order ==> k in m
  {
    seq(|order|, i requires 0 <= i < |order| => Line(f, order[i], m[order[i]]))
  }

  function Glue(lines: seq<string>): string {
    if lines == [] then "" else lines[0] + "\n" + Glue(lines[1..])
  }

  lemma {:induction false} GlueMore(lines: seq<string>, line: string)
    ensures Glue(lines + [line]) == Glue(lines) + line + "\n"
  {
    if lines == [] {
      assert ([] + [line])[1..] == [];
    } else {
      assert (lines + [line])[1..] == lines[1..] + [line];
      GlueMore(lines[1..], line);
    }
  }

  lemma {:induction false} SplitGlue(lines: seq<string>)
    requires forall i :: 0 <= i < |lines| ==> NoBreaks(lines[i])
    ensures SplitBreaks(Glue(lines)) == lines + [""]
    ensures '\r' !in Glue(lines)
  {
    if lines != [] {
      SplitGlue(lines[1..]);
      assert NoBreaks(lines[0]);
      assert forall c :: c in lines[0] ==> !IsBreak(c);
      SplitLine(lines[0], Glue(lines[1..]));
      assert lines == [lines[0]] + lines[1..];
    }
  }

  lemma {:induction false} ParseWritten(f: Format, m: Map, order: seq<string>)
    requires Clean(f, m) && forall k :: k in order ==> k in m
    ensures ParseLines(f, Lines(f, m, order)) == map k | k in order :: m[k]
  {
    if order != [] {
      var n := |order| - 1;
      var front, lines := order[..n], Lines(f, m, order);
      ParseWritten(f, m, front);
      assert lines[..n] == Lines(f, m, front);
      assert lines[..n + 1] == lines;
      LineRoundTrip(f, order[n], m[order[n]]);
      ParseMore(f, lines, n);
      PickMore(m, order);
    }
  }

  lemma PickMore(m: Map, order: seq<string>)
    requires order != [] && forall k :: k in order ==> k in m
    ensures var n := |order| - 1;
            (map k | k in order :: m[k]) == (map k | k in order[..n] :: m[k])[order[n] := m[order[n]]]
  {
    var n := |order| - 1;
    assert forall k :: k in order <==> k in order[..n] || k == order[n];
  }

  /** Reading what was written gives the map back, whatever the order of the lines. */
  lemma RoundTrip(f: Format, m: Map, order: seq<string>)
    requires Clean(f, m) && !IsBreak(f.sep) && forall k :: k in order <==> k in m
    ensures Contents(f, Glue(Lines(f, m, order))) == m
  {
    var lines := Lines(f, m, order);
    forall i | 0 <= i < |lines| ensures NoBreaks(lines[i]) {
      LineRoundTrip(f, order[i], m[order[i]]);
    }
    SplitGlue(lines);
    NewlinesFixed(Glue(lines));
    ParseWritten(f, m, order);
    assert (lines + [""])[..|lines|] == lines;
    assert Strip("") == "";
  }

  /** A map survives a round trip exactly when it is clean. */
  lemma RoundTripExactly(f: Format, m: Map, order: seq<string>)
    requires !IsBreak(f.sep) && forall k :: k in order <==> k in m
    ensures Contents(f, Glue(Lines(f, m, order))) == m <==> Clean(f, m)
  {
    ContentsClean(f, Glue(Lines(f, m, order)));
    if Clean(f, m) {
      RoundTrip(f, m, order);
    }
  }

  /** The text that is written for a map: its lines, sorted by their keys. */
  ghost function TextOf(f: Format, m: Map): string {
    Glue(Lines(f, m, Sorted(m.Keys)))
  }

  /** _write_map and _write_users, which read as the map exactly when the map is clean. */
  method Write(f: Format, m: Map) returns (text: string)
    requires !IsBreak(f.sep)
    ensures text == TextOf(f, m)
    ensures Contents(f, text) == m <==> Clean(f, m)
  {
    var order := Sort(m.Keys);
    text := "";
    var i := 0;
    while i < |order|
      invariant 0 <= i <= |order|
      invariant forall k :: k in order[..i] ==> k in m
      invariant text == Glue(Lines(f, m, order[..i]))
    {
      var k := order[i];
      assert order[..i + 1] == order[..i] + [k];
      GlueMore(Lines(f, m, order[..i]), Line(f, k, m[k]));
      assert Lines(f, m, order[..i + 1]) == Lines(f, m, order[..i]) + [Line(f, k, m[k])];
      text := text + Line(f, k, m[k]) + "\n";
      i := i + 1;
    }
    assert order[..i] == order;
    RoundTripExactly(f, m, order);
  }

  /** So writing what was read, and reading that, changes nothing. */
  method Rewrite(f: Format, text: string) returns (again: string)
    requires !IsBreak(f.sep)
    ensures Contents(f, again) == Contents(f, text)
  {
    ContentsClean(f, text);
    var m := Read(f, text);
    again := Write(f, m);
  }
}
