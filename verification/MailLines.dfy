/** agent/mail_backend.py: which keys are read from a file whose lines have space, or line breaks, where none was expected. */
module MailLines {
  import opened Text
  import opened Sorting
  import opened MailFiles

  ghost predicate AllSpace(w: string) {
    forall i :: 0 <= i < |w| ==> IsSpace(w[i])
  }

  predicate HasBreak(w: string) {
    exists i :: 0 <= i < |w| && IsBreak(w[i])
  }

  /** The space before the text that str.strip keeps. */
  function Lead(s: string): string {
    if s != "" && IsSpace(s[0]) then [s[0]] + Lead(s[1..]) else ""
  }

  function TrailOf(s: string): string {
    if s != "" && IsSpace(s[|s| - 1]) then TrailOf(s[..|s| - 1]) + [s[|s| - 1]] else ""
  }

  /** The space after it. */
  function Trail(s: string): string {
    TrailOf(StripLeft(s))
  }

  lemma {:induction false} LeadIs(s: string)
    ensures s == Lead(s) + StripLeft(s) && AllSpace(Lead(s))
  {
    if s != "" && IsSpace(s[0]) {
      LeadIs(s[1..]);
      assert s == [s[0]] + s[1..];
    }
  }

  lemma {:induction false} TrailIs(s: string)
    ensures s == StripRight(s) + TrailOf(s) && AllSpace(TrailOf(s))
  {
    if s != "" && IsSpace(s[|s| - 1]) {
      TrailIs(s[..|s| - 1]);
      assert s == s[..|s| - 1] + [s[|s| - 1]];
    }
  }

  /** Stripping takes a text apart into space, what is kept, and space. */
  lemma StripParts(s: string)
    ensures s == Lead(s) + (Strip(s) + Trail(s)) && AllSpace(Lead(s)) && AllSpace(Trail(s))
  {
    LeadIs(s);
    TrailIs(StripLeft(s));
  }

  // ----- space that is not read -----

  lemma {:induction false} StripTail(b: string, w: string)
    requires b != "" && Stripped(b) && AllSpace(w)
    ensures Strip(b + w) == b
    decreases |w|
  {
    var s := b + w;
    assert s[0] == b[0] && StripLeft(s) == s;
    if w == "" {
      assert s == b;
    } else {
      StripTail(b, w[..|w| - 1]);
      assert s[..|s| - 1] == b + w[..|w| - 1];
      assert (b + w[..|w| - 1])[0] == b[0] && StripLeft(b + w[..|w| - 1]) == b + w[..|w| - 1];
    }
  }

  lemma ParseTail(f: Format, b: string, w: string)
    requires b != "" && Stripped(b) && AllSpace(w)
    ensures ParseLine(f, b + w) == ParseLine(f, b)
  {
    StripTail(b, w);
    StripFixed(b);
  }

  lemma ParseHead(f: Format, c: char, s: string)
    requires IsSpace(c)
    ensures ParseLine(f, [c] + s) == ParseLine(f, s)
  {
    assert ([c] + s)[1..] == s;
  }

  /** The keys of a few lines. */
  ghost function KeysOf(f: Format, lines: seq<string>): set<string> {
    ParseLines(f, lines).Keys
  }

  lemma {:induction false} KeysCat(f: Format, a: seq<string>, b: seq<string>)
    ensures KeysOf(f, a + b) == KeysOf(f, a) + KeysOf(f, b)
  {
    if b == [] {
      assert a + b == a;
    } else {
      var n := |b| - 1;
      KeysCat(f, a, b[..n]);
      assert (a + b)[..|a + b| - 1] == a + b[..n];
    }
  }

  lemma KeysOfOne(f: Format, line: string)
    ensures KeysOf(f, [line]) == if ParseLine(f, line).Some? then {ParseLine(f, line).value.0} else {}
  {
    assert [line][..0] == [] && ParseLines(f, []) == map[];
  }

  lemma NoKeys(f: Format)
    ensures KeysOf(f, [""]) == {}
  {
    KeysOfOne(f, "");
    assert Strip("") == "";
  }

  ghost function Keys(f: Format, text: string): set<string> {
    Contents(f, text).Keys
  }

  lemma SplitPlain(c: char, s: string)
    requires !IsBreak(c)
    ensures SplitBreaks([c] + s) == [[c] + SplitBreaks(s)[0]] + SplitBreaks(s)[1..]
  {
    assert ([c] + s)[1..] == s;
  }

  lemma SplitBreak(c: char, s: string)
    requires IsBreak(c)
    ensures SplitBreaks([c] + s) == [""] + SplitBreaks(s)
  {
    assert ([c] + s)[1..] == s;
  }

  /** Line ends are translated one character after the other, but for "\r\n". */
  lemma NormalizeOne(c: char, s: string)
    ensures c != '\r' ==> NormalizeNewlines([c] + s) == [c] + NormalizeNewlines(s)
    ensures c == '\r' && s != "" && s[0] == '\n' ==> NormalizeNewlines([c] + s) == NormalizeNewlines(s)
    ensures c == '\r' && !(s != "" && s[0] == '\n') ==> NormalizeNewlines([c] + s) == ['\n'] + NormalizeNewlines(s)
  {
    var t := [c] + s;
    assert t[1..] == s;
    if c == '\r' && s != "" && s[0] == '\n' {
      assert t[1] == s[0] && t[2..] == s[1..];
    }
  }

  lemma KeysAfterBreak(f: Format, c: char, s: string)
    requires IsBreak(c)
    ensures KeysOf(f, SplitBreaks([c] + s)) == KeysOf(f, SplitBreaks(s))
  {
    SplitBreak(c, s);
    KeysCat(f, [""], SplitBreaks(s));
    NoKeys(f);
  }

  /** A space before a text does not change the keys that are read from it. */
  lemma SpaceSkipped(f: Format, c: char, s: string)
    requires IsSpace(c)
    ensures Keys(f, [c] + s) == Keys(f, s)
  {
    var n := NormalizeNewlines(s);
    NormalizeOne(c, s);
    if c == '\r' {
      KeysAfterBreak(f, '\n', n);
    } else if IsBreak(c) {
      KeysAfterBreak(f, c, n);
    } else {
      var p := SplitBreaks(n);
      SplitPlain(c, n);
      KeysCat(f, [[c] + p[0]], p[1..]);
      KeysCat(f, [p[0]], p[1..]);
      KeysOfOne(f, [c] + p[0]);
      KeysOfOne(f, p[0]);
      ParseHead(f, c, p[0]);
      assert p == [p[0]] + p[1..];
    }
  }

  /** The keys that a text gives, as a function value. */
  type Reading = string -> set<string>

  ghost function ReadingOf(f: Format): Reading {
    text => Keys(f, text)
  }

  lemma {:induction false} SpacesSkipped(r: Reading, w: string, s: string)
    requires AllSpace(w) && forall c, t :: IsSpace(c) ==> r([c] + t) == r(t)
    ensures r(w + s) == r(s)
  {
    if w == "" {
      assert w + s == s;
    } else {
      SpacesSkipped(r, w[1..], s);
      assert w + s == [w[0]] + (w[1..] + s);
    }
  }

  lemma LeadSkipped(f: Format, w: string, s: string)
    requires AllSpace(w)
    ensures Keys(f, w + s) == Keys(f, s)
  {
    forall c, t | IsSpace(c) ensures ReadingOf(f)([c] + t) == ReadingOf(f)(t) {
      SpaceSkipped(f, c, t);
    }
    SpacesSkipped(ReadingOf(f), w, s);
  }

  // ----- a body, then space with a line break -----

  lemma {:induction false} NormalizeBody(b: string, s: string)
    requires NoBreaks(b)
    ensures NormalizeNewlines(b + s) == b + NormalizeNewlines(s)
  {
    if b == "" {
      assert b + s == s;
    } else {
      NormalizeBody(b[1..], s);
      NormalizeOne(b[0], b[1..] + s);
      assert b + s == [b[0]] + (b[1..] + s);
      assert !IsBreak(b[0]);
      assert b == [b[0]] + b[1..];
      assert [b[0]] + (b[1..] + NormalizeNewlines(s)) == b + NormalizeNewlines(s);
    }
  }

  lemma {:induction false} SplitBody(b: string, s: string)
    requires NoBreaks(b) && s != "" && IsBreak(s[0])
    ensures SplitBreaks(b + s) == [b] + SplitBreaks(s[1..])
  {
    if b == "" {
      assert b + s == s && s == [s[0]] + s[1..];
    } else {
      SplitBody(b[1..], s);
      assert b + s == [b[0]] + (b[1..] + s);
      assert !IsBreak(b[0]);
      SplitPlain(b[0], b[1..] + s);
      assert b == [b[0]] + b[1..];
    }
  }

  lemma BreakNormalized(s: string)
    requires s != "" && IsBreak(s[0])
    ensures NormalizeNewlines(s) != "" && IsBreak(NormalizeNewlines(s)[0])
  {
    assert s == [s[0]] + s[1..];
    NormalizeOne(s[0], s[1..]);
    if s[0] == '\r' && |s| > 1 && s[1] == '\n' {
      NormalizeOne(s[1], s[2..]);
      assert s[1..] == [s[1]] + s[2..];
    }
  }

  lemma BodyThenBreak(f: Format, b: string, s: string)
    requires NoBreaks(b) && s != "" && IsBreak(s[0])
    ensures Keys(f, b + s) == KeysOf(f, [b]) + Keys(f, s)
  {
    var n := NormalizeNewlines(s);
    NormalizeBody(b, s);
    BreakNormalized(s);
    SplitBody(b, n);
    KeysCat(f, [b], SplitBreaks(n[1..]));
    assert n == [n[0]] + n[1..];
    KeysAfterBreak(f, n[0], n[1..]);
  }

  /** Where the first line break is. */
  function BreakAt(w: string): (n: nat)
    requires HasBreak(w)
    ensures n < |w| && IsBreak(w[n]) && NoBreaks(w[..n])
  {
    if IsBreak(w[0]) then 0
    else
      assert HasBreak(w[1..]) by {
        var i :| 0 <= i < |w| && IsBreak(w[i]);
        assert w[1..][i - 1] == w[i];
      }
      assert w[..BreakAt(w[1..]) + 1] == [w[0]] + w[1..][..BreakAt(w[1..])];
      1 + BreakAt(w[1..])
  }

  /** A body that space with a line break follows is a line of its own. */
  lemma BodyLine(f: Format, b: string, w: string, s: string)
    requires b != "" && Stripped(b) && NoBreaks(b) && AllSpace(w) && HasBreak(w)
    ensures Keys(f, b + (w + s)) == KeysOf(f, [b]) + Keys(f, s)
  {
    var n := BreakAt(w);
    assert b + (w + s) == (b + w[..n]) + (w[n..] + s);
    BodyThenBreak(f, b + w[..n], w[n..] + s);
    ParseTail(f, b, w[..n]);
    KeysOfOne(f, b + w[..n]);
    KeysOfOne(f, b);
    LeadSkipped(f, w[n..], s);
  }

  // ----- whole files -----

  /** A line gives these keys, whatever comes after it in the file. */
  ghost predicate Gives(r: Reading, line: string, gives: set<string>) {
    forall rest :: r(line + ("\n" + rest)) == gives + r(rest)
  }

  lemma CleanGives(f: Format, k: string, v: string)
    requires CleanPair(f, k, v) && !IsBreak(f.sep)
    ensures Gives(ReadingOf(f), Line(f, k, v), {k})
  {
    var b := Line(f, k, v);
    LineRoundTrip(f, k, v);
    assert b[0] == k[0] && b[|b| - 1] == v[|v| - 1];
    KeysOfOne(f, b);
    BodyGives(f, b);
  }

  /** A body without line breaks gives what it gives alone. */
  lemma BodyGives(f: Format, b: string)
    requires b != "" && Stripped(b) && NoBreaks(b)
    ensures Gives(ReadingOf(f), b, KeysOf(f, [b]))
  {
    forall rest: string ensures Keys(f, b + ("\n" + rest)) == KeysOf(f, [b]) + Keys(f, rest) {
      assert IsBreak("\n"[0]);
      BodyLine(f, b, "\n", rest);
    }
  }

  function Union(sets: seq<set<string>>): set<string> {
    if sets == [] then {} else sets[0] + Union(sets[1..])
  }

  lemma {:induction false} GlueGives(r: Reading, lines: seq<string>, sets: seq<set<string>>)
    requires |lines| == |sets| && forall i :: 0 <= i < |lines| ==> Gives(r, lines[i], sets[i])
    ensures r(Glue(lines)) == Union(sets) + r("")
  {
    if lines != [] {
      GlueGives(r, lines[1..], sets[1..]);
      assert Gives(r, lines[0], sets[0]);
      assert Glue(lines) == lines[0] + ("\n" + Glue(lines[1..]));
    }
  }

  /** What each line gives, when one pair is not clean. */
  function SetsOf(order: seq<string>, key: string, gives: set<string>): seq<set<string>> {
    seq(|order|, i requires 0 <= i < |order| => if order[i] == key then gives else {order[i]})
  }

  lemma {:induction false} UnionIs(order: seq<string>, key: string, gives: set<string>)
    ensures Union(SetsOf(order, key, gives)) == (set k | k in order && k != key) + (if key in order then gives else {})
  {
    if order != [] {
      UnionIs(order[1..], key, gives);
      assert SetsOf(order, key, gives)[1..] == SetsOf(order[1..], key, gives);
      assert forall k :: k in order <==> k == order[0] || k in order[1..];
    }
  }

  lemma NothingRead(f: Format)
    ensures Keys(f, "") == {}
  {
    NoKeys(f);
  }

  /** A clean map with one more pair: the file that is written gives its other keys and what the line of the pair gives. */
  lemma WrittenKeys(f: Format, m: Map, key: string, v: string, gives: set<string>)
    requires Clean(f, m) && !IsBreak(f.sep) && Gives(ReadingOf(f), Line(f, key, v), gives)
    ensures Keys(f, TextOf(f, m[key := v])) == (m.Keys - {key}) + gives
  {
    var q := m[key := v];
    var order := Sorted(q.Keys);
    var lines, sets := Lines(f, q, order), SetsOf(order, key, gives);
    forall i | 0 <= i < |lines| ensures Gives(ReadingOf(f), lines[i], sets[i]) {
      assert order[i] in order;
      if order[i] != key {
        CleanGives(f, order[i], q[order[i]]);
      }
    }
    GlueGives(ReadingOf(f), lines, sets);
    UnionIs(order, key, gives);
    NothingRead(f);
    assert key in order && (set k | k in order && k != key) == m.Keys - {key};
  }

  // ----- a pair with space around its key and its value -----

  /** A text with neither space nor a line break in it, which is not read as a comment. */
  ghost predicate Core(b: string) {
    b != "" && b[0] != '#' && forall i :: 0 <= i < |b| ==> !IsSpace(b[i]) && !IsBreak(b[i])
  }

  lemma CoreParts(b: string)
    requires Core(b)
    ensures Stripped(b) && NoBreaks(b) && ' ' !in b
  {
  }

  lemma IndexIs(s: string, c: char, n: nat)
    requires n < |s| && s[n] == c && forall i :: 0 <= i < n ==> s[i] != c
    ensures IndexOf(s, c) == n
  {
  }

  /** A line without its separator, or with nothing before it, gives no key. */
  lemma NothingGiven(f: Format, b: string)
    requires b != "" && Stripped(b) && (f.sep !in b || b[0] == f.sep)
    ensures KeysOf(f, [b]) == {}
  {
    StripFixed(b);
    KeysOfOne(f, b);
    assert b[0] == f.sep ==> IndexOf(b, f.sep) == 0;
  }

  function UserGives(a: string, trail: string): set<string> {
    if HasBreak(trail) then {} else {a + trail}
  }

  /** A line break after the key leaves neither part a pair; without one the space after it is read with it. */
  lemma UserLine(lead: string, a: string, trail: string, hash: string)
    requires AllSpace(lead) && AllSpace(trail) && Core(a) && ':' !in a && CleanValue(USERS, hash)
    ensures Gives(ReadingOf(USERS), Line(USERS, lead + (a + trail), hash), UserGives(a, trail))
  {
    CoreParts(a);
    var key, tail := lead + (a + trail), ":" + hash;
    forall rest: string ensures Keys(USERS, Line(USERS, key, hash) + ("\n" + rest)) == UserGives(a, trail) + Keys(USERS, rest) {
      assert IsBreak("\n"[0]) && tail[|tail| - 1] == hash[|hash| - 1];
      if HasBreak(trail) {
        assert Line(USERS, key, hash) + ("\n" + rest) == lead + (a + (trail + (tail + ("\n" + rest))));
        LeadSkipped(USERS, lead, a + (trail + (tail + ("\n" + rest))));
        BodyLine(USERS, a, trail, tail + ("\n" + rest));
        BodyLine(USERS, tail, "\n", rest);
        NothingGiven(USERS, a);
        NothingGiven(USERS, tail);
      } else {
        var b := a + trail + tail;
        assert Line(USERS, key, hash) + ("\n" + rest) == lead + (b + ("\n" + rest));
        LeadSkipped(USERS, lead, b + ("\n" + rest));
        UserPair(a, trail, hash);
        BodyLine(USERS, b, "\n", rest);
      }
    }
  }

  lemma UserPair(a: string, trail: string, hash: string)
    requires AllSpace(trail) && !HasBreak(trail) && Core(a) && ':' !in a && CleanValue(USERS, hash)
    ensures var b := a + trail + (":" + hash); b != "" && Stripped(b) && NoBreaks(b) && KeysOf(USERS, [b]) == {a + trail}
  {
    var b, n := a + trail + (":" + hash), |a + trail|;
    assert b[0] == a[0] && b[|b| - 1] == hash[|hash| - 1];
    forall i | 0 <= i < |b| ensures !IsBreak(b[i]) && (i < n ==> b[i] != ':') {
      if |a| <= i < n {
        assert b[i] == trail[i - |a|];
      } else if i > n {
        assert b[i] == hash[i - n - 1];
      }
    }
    IndexIs(b, ':', n);
    assert b[..n] == a + trail && b[n + 1..] == hash;
    StripFixed(b);
    KeysOfOne(USERS, b);
  }

  function MapGives(a: string, trail: string, before: string): set<string> {
    if HasBreak(trail) || HasBreak(before) then {} else {a + trail[..IndexOf(trail, ' ')]}
  }

  /** Here a blank after the key ends it, and a line break before the value parts the two as well. */
  lemma MapLine(lead: string, a: string, trail: string, before: string, d: string, after: string)
    requires AllSpace(lead) && AllSpace(trail) && AllSpace(before) && AllSpace(after) && Core(a) && Core(d)
    ensures Gives(ReadingOf(MAP), Line(MAP, lead + (a + trail), before + (d + after)), MapGives(a, trail, before))
  {
    var line, gap, end := Line(MAP, lead + (a + trail), before + (d + after)), trail + (" " + before), after + "\n";
    GapBreak(trail, before);
    assert end[|after|] == '\n' && HasBreak(end);
    forall rest: string ensures Keys(MAP, line + ("\n" + rest)) == MapGives(a, trail, before) + Keys(MAP, rest) {
      LineParts(lead, a, trail, before, d, after, rest);
      LeadSkipped(MAP, lead, a + (gap + (d + (end + rest))));
      if HasBreak(gap) {
        PartedLine(a, gap, d, end, rest);
      } else {
        WholeLine(a, trail, before, d, end, rest);
      }
    }
  }

  lemma WholeLine(a: string, trail: string, before: string, d: string, end: string, rest: string)
    requires Core(a) && Core(d) && AllSpace(trail) && AllSpace(before) && AllSpace(end) && HasBreak(end)
    requires !HasBreak(trail + (" " + before))
    ensures Keys(MAP, a + ((trail + (" " + before)) + (d + (end + rest)))) == {a + trail[..IndexOf(trail, ' ')]} + Keys(MAP, rest)
  {
    var gap := trail + (" " + before);
    assert a + (gap + (d + (end + rest))) == a + (gap + d) + (end + rest);
    MapPair(a, trail, before, d);
    BodyLine(MAP, a + (gap + d), end, rest);
  }

  lemma LineParts(lead: string, a: string, trail: string, before: string, d: string, after: string, rest: string)
    ensures Line(MAP, lead + (a + trail), before + (d + after)) + ("\n" + rest)
         == lead + (a + ((trail + (" " + before)) + (d + ((after + "\n") + rest))))
  {
  }

  lemma PartedLine(a: string, gap: string, d: string, end: string, rest: string)
    requires Core(a) && Core(d) && AllSpace(gap) && HasBreak(gap) && AllSpace(end) && HasBreak(end)
    ensures Keys(MAP, a + (gap + (d + (end + rest)))) == Keys(MAP, rest)
  {
    CoreParts(a);
    CoreParts(d);
    BodyLine(MAP, a, gap, d + (end + rest));
    BodyLine(MAP, d, end, rest);
    NothingGiven(MAP, a);
    NothingGiven(MAP, d);
  }

  lemma GapBreak(trail: string, before: string)
    ensures HasBreak(trail + (" " + before)) <==> HasBreak(trail) || HasBreak(before)
  {
    var gap, n := trail + (" " + before), |trail|;
    if i :| 0 <= i < n && IsBreak(trail[i]) {
      assert gap[i] == trail[i];
    }
    if i :| 0 <= i < |before| && IsBreak(before[i]) {
      assert gap[n + 1 + i] == before[i];
    }
    if i :| 0 <= i < |gap| && IsBreak(gap[i]) {
      assert gap[i] == if i < n then trail[i] else if i == n then ' ' else before[i - n - 1];
    }
  }

  lemma MapPair(a: string, trail: string, before: string, d: string)
    requires AllSpace(trail) && AllSpace(before) && Core(a) && Core(d) && !HasBreak(trail + (" " + before))
    ensures var b := a + (trail + (" " + before) + d);
            && b != "" && Stripped(b) && NoBreaks(b)
            && KeysOf(MAP, [b]) == {a + trail[..IndexOf(trail, ' ')]}
  {
    var gap, j := trail + (" " + before), IndexOf(trail, ' ');
    var b, n := a + (gap + d), |a| + IndexOf(trail, ' ');
    assert b[0] == a[0] && b[|b| - 1] == d[|d| - 1];
    assert gap[j] == ' ' && forall i :: 0 <= i < j ==> gap[i] == trail[i];
    ThreeParts(a, gap, d, j);
    assert b[..n] == a + trail[..j];
    assert b[|b| - |d|..] == d;
    NotBlank(b[n + 1..], d);
    KeyBeforeBlank(b, n);
  }

  lemma KeyBeforeBlank(b: string, n: nat)
    requires 0 < n < |b| && Stripped(b) && b[0] != '#' && b[n] == ' ' && Strip(b[n + 1..]) != ""
    requires forall i :: 0 <= i < n ==> b[i] != ' '
    ensures KeysOf(MAP, [b]) == {b[..n]}
  {
    IndexIs(b, ' ', n);
    StripFixed(b);
    KeysOfOne(MAP, b);
  }

  lemma ThreeParts(a: string, gap: string, d: string, j: nat)
    requires Core(a) && Core(d) && !HasBreak(gap) && j < |gap| && gap[j] == ' ' && forall i :: 0 <= i < j ==> gap[i] != ' '
    ensures var b := a + (gap + d);
            NoBreaks(b) && b[|a| + j] == ' ' && forall i :: 0 <= i < |a| + j ==> b[i] != ' '
  {
    var b := a + (gap + d);
    forall i | 0 <= i < |b| ensures !IsBreak(b[i]) && (i < |a| + j ==> b[i] != ' ') {
      assert b[i] == if i < |a| then a[i] else if i < |a| + |gap| then gap[i - |a|] else d[i - |a| - |gap|];
      CoreParts(a);
    }
  }

  lemma NotBlank(s: string, d: string)
    requires Core(d) && |d| <= |s| && s[|s| - |d|..] == d
    ensures Strip(s) != ""
  {
    StripParts(s);
    assert s[|s| - 1] == s[|s| - |d|..][|d| - 1];
  }

  /** The keys of a file to which such a pair was added. */
  lemma UserKeys(m: Map, lead: string, a: string, trail: string, hash: string)
    requires Clean(USERS, m) && AllSpace(lead) && AllSpace(trail) && Core(a) && ':' !in a && CleanValue(USERS, hash)
    ensures var key := lead + (a + trail); Keys(USERS, TextOf(USERS, m[key := hash])) == (m.Keys - {key}) + UserGives(a, trail)
  {
    UserLine(lead, a, trail, hash);
    WrittenKeys(USERS, m, lead + (a + trail), hash, UserGives(a, trail));
  }

  lemma MapKeys(m: Map, lead: string, a: string, trail: string, before: string, d: string, after: string)
    requires Clean(MAP, m) && AllSpace(lead) && AllSpace(trail) && AllSpace(before) && AllSpace(after) && Core(a) && Core(d)
    ensures var key, value := lead + (a + trail), before + (d + after);
            Keys(MAP, TextOf(MAP, m[key := value])) == (m.Keys - {key}) + MapGives(a, trail, before)
  {
    MapLine(lead, a, trail, before, d, after);
    WrittenKeys(MAP, m, lead + (a + trail), before + (d + after), MapGives(a, trail, before));
  }
}
