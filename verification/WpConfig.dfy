/**
 * agent/wordpress_staging.py: reading and editing define('KEY', 'value'); lines of a wp-config.php.
 *
 * The pattern is define\s*\(\s*Q KEY Q\s*,\s*Q value Q\s*\)\s*; without regard to case, where Q is either quote and the
 * value has no quotes. None of its other parts can match a quote, so a match is found by cutting the text at four
 * consecutive quotes and looking at each gap.
 */
module WpConfig {
  import opened Text

  // ----- the pattern -----

  /** Characters that are equal for a case-insensitive pattern fold to the same one. */
  function FoldChar(c: char): char {
    if 'A' <= c <= 'Z' then c - 'A' + 'a'
    else if c == '\U{017F}' then 's'
    else if c == '\U{212A}' then 'k'
    else if c == '\U{0130}' || c == '\U{0131}' then 'i'
    else c
  }

  predicate SameText(a: string, b: string) {
    |a| == |b| && forall i :: 0 <= i < |a| ==> FoldChar(a[i]) == FoldChar(b[i])
  }

  predicate IsQuote(c: char) {
    c == '\'' || c == '"'
  }

  /** Where the first quote is, or the length. */
  function QuoteAt(s: string): (n: nat)
    ensures n <= |s|
    ensures n < |s| ==> IsQuote(s[n])
    ensures forall i :: 0 <= i < n ==> !IsQuote(s[i])
  {
    if s == "" || IsQuote(s[0]) then 0 else 1 + QuoteAt(s[1..])
  }

  const DEFINE := "define"

  /** All of s is define\s*\(\s* */
  predicate IsOpen(s: string) {
    |s| >= 6 && SameText(s[..6], DEFINE)
    && var r := StripLeft(s[6..]); r != "" && r[0] == '(' && StripLeft(r[1..]) == ""
  }

  /** All of s is \s*,\s* */
  predicate IsComma(s: string) {
    var r := StripLeft(s); r != "" && r[0] == ',' && StripLeft(r[1..]) == ""
  }

  function IsKey(key: string): string -> bool {
    s => SameText(s, key)
  }

  lemma {:induction false} StripLeftShape(s: string)
    ensures |StripLeft(s)| <= |s|
    ensures forall i :: 0 <= i < |s| - |StripLeft(s)| ==> IsSpace(s[i])
    ensures s[|s| - |StripLeft(s)|..] == StripLeft(s)
  {
    if s != "" && IsSpace(s[0]) {
      StripLeftShape(s[1..]);
      assert forall i :: 0 < i < |s| ==> s[i] == s[1..][i - 1];
    }
  }

  /** How much of s is \s*\)\s*; */
  function CloseAt(s: string): (r: Option<nat>)
    ensures r.Some? ==> 2 <= r.value <= |s|
    ensures r.Some? ==> forall i :: 0 <= i < r.value ==> IsSpace(s[i]) || s[i] == ')' || s[i] == ';'
  {
    StripLeftShape(s);
    var r := StripLeft(s);
    if r == "" || r[0] != ')' then None
    else
      StripLeftShape(r[1..]);
      var t := StripLeft(r[1..]);
      if t == "" || t[0] != ';' then None
      else
        CloseChars(s, r, t);
        Some(|s| - |t| + 1)
  }

  lemma CloseChars(s: string, r: string, t: string)
    requires 0 < |r| <= |s| && s[|s| - |r|..] == r && r[0] == ')'
    requires forall i :: 0 <= i < |s| - |r| ==> IsSpace(s[i])
    requires 0 < |t| < |r| && r[1..][|r| - 1 - |t|..] == t && t[0] == ';'
    requires forall i :: 0 <= i < |r| - 1 - |t| ==> IsSpace(r[1..][i])
    ensures forall i :: 0 <= i < |s| - |t| + 1 ==> IsSpace(s[i]) || s[i] == ')' || s[i] == ';'
  {
    var n := |s| - |r|;
    forall i | n <= i < |s| - |t| + 1 ensures IsSpace(s[i]) || s[i] == ')' || s[i] == ';' {
      assert s[i] == r[i - n];
      if i > n {
        assert r[i - n] == r[1..][i - n - 1];
        if i == |s| - |t| {
          assert r[1..][i - n - 1] == t[0];
        }
      }
    }
  }

  /** A match: where the value starts and ends, and where the match ends. */
  datatype Span = Span(from: nat, to: nat, end: nat)

  type Part = string -> Option<Span>

  predicate Inside(s: string, r: Option<Span>) {
    r.Some? ==> r.value.from <= r.value.to < r.value.end <= |s|
  }

  ghost predicate Sound(m: Part) {
    forall s {:trigger m(s)} :: Inside(s, m(s))
  }

  /** A gap before the next quote, then the rest of the pattern. */
  function Gap(s: string, ok: string -> bool, next: Part): Option<Span> {
    var n := QuoteAt(s);
    if n < |s| && ok(s[..n]) then
      match next(s[n + 1..])
      case None => None
      case Some(v) => Some(Span(n + 1 + v.from, n + 1 + v.to, n + 1 + v.end))
    else None
  }

  /** s continues after the quote that opens the value. */
  function AtValue(s: string): (r: Option<Span>)
    ensures Inside(s, r)
  {
    var n := QuoteAt(s);
    if n < |s| && CloseAt(s[n + 1..]).Some? then Some(Span(0, n, n + 1 + CloseAt(s[n + 1..]).value)) else None
  }

  /** s continues after the quote that closes the key. */
  function AfterKey(s: string): (r: Option<Span>)
    ensures Inside(s, r)
  {
    Gap(s, IsComma, AtValue)
  }

  /** s continues after the quote that opens the key. */
  function AtKey(s: string, key: string): (r: Option<Span>)
    ensures Inside(s, r)
  {
    Gap(s, IsKey(key), AfterKey)
  }

  function KeyPart(key: string): Part {
    s => AtKey(s, key)
  }

  /** The whole pattern for `key` at the start of s. */
  function DefineAt(s: string, key: string): (r: Option<Span>)
    ensures Inside(s, r)
  {
    Gap(s, IsOpen, KeyPart(key))
  }

  function DefinePart(key: string): (m: Part)
    ensures Sound(m)
  {
    s => DefineAt(s, key)
  }

  /** The leftmost place where the pattern matches. */
  function Leftmost(s: string, m: Part): (r: Option<nat>)
    ensures r.Some? ==> r.value < |s| && m(s[r.value..]).Some?
  {
    if s == "" then None
    else if m(s).Some? then Some(0)
    else
      match Leftmost(s[1..], m)
      case None => None
      case Some(i) =>
        assert s[1..][i..] == s[i + 1..];
        Some(i + 1)
  }

  /** The value at the leftmost match. */
  function LeftmostValue(s: string, m: Part): Option<string>
    requires Sound(m)
  {
    match Leftmost(s, m)
    case None => None
    case Some(i) =>
      var v := m(s[i..]).value;
      Some(s[i..][v.from..v.to])
  }

  /** _config_value */
  function ConfigValue(s: string, key: string): Option<string> {
    LeftmostValue(s, DefinePart(key))
  }

  /** _php_escape */
  function PhpEscape(value: string): string {
    if value == "" then ""
    else (if value[0] == '\\' || value[0] == '\'' then ['\\', value[0]] else [value[0]]) + PhpEscape(value[1..])
  }

  /** y with x in place of the value of a match. */
  function Put(y: string, v: Span, x: string): string
    requires Inside(y, Some(v))
  {
    y[..v.from] + (x + y[v.to..])
  }

  /** The leftmost match with its value replaced by `text`. */
  function PutValue(s: string, m: Part, text: string): Option<string>
    requires Sound(m)
  {
    match Leftmost(s, m)
    case None => None
    case Some(i) =>
      Some(s[..i] + Put(s[i..], m(s[i..]).value, text))
  }

  /** _replace_define */
  function ReplaceDefine(s: string, key: string, value: string): Option<string> {
    PutValue(s, DefinePart(key), PhpEscape(value))
  }

  // ----- gaps -----

  ghost predicate NoQuotes(s: string) {
    forall i :: 0 <= i < |s| ==> !IsQuote(s[i])
  }

  /** A character of a name. */
  predicate Wordy(c: char) {
    IsLetter(c) || IsDigit(c) || c == '_'
  }

  /** Option names: letters, digits and underscores. */
  ghost predicate KeyOk(key: string) {
    key != "" && forall i :: 0 <= i < |key| ==> Wordy(key[i])
  }

  lemma WordyFacts(c: char)
    requires Wordy(FoldChar(c))
    ensures !IsSpace(c) && !IsQuote(c) && c != ')' && c != '(' && c != ',' && c != ';'
  {
  }

  lemma QuoteAtNone(u: string)
    requires NoQuotes(u)
    ensures QuoteAt(u) == |u|
  {
  }

  lemma {:induction false} QuoteAtCat(u: string, y: string)
    ensures NoQuotes(u) ==> QuoteAt(u + y) == |u| + QuoteAt(y)
    ensures !NoQuotes(u) ==> QuoteAt(u + y) == QuoteAt(u) < |u|
  {
    if u == "" {
      assert u + y == y;
    } else {
      assert (u + y)[1..] == u[1..] + y;
      QuoteAtCat(u[1..], y);
      if !IsQuote(u[0]) && NoQuotes(u[1..]) {
        assert NoQuotes(u) by {
          forall i | 0 <= i < |u| ensures !IsQuote(u[i]) {
            if i > 0 {
              assert u[i] == u[1..][i - 1];
            }
          }
        }
      }
    }
  }

  /** How the first quote cuts u + y. */
  lemma CutCat(u: string, y: string)
    requires !NoQuotes(u)
    ensures var n := QuoteAt(u);
            && QuoteAt(u + y) == n < |u|
            && (u + y)[..n] == u[..n]
            && (u + y)[n + 1..] == u[n + 1..] + y
  {
    QuoteAtCat(u, y);
  }

  lemma CutBehind(u: string, y: string)
    requires NoQuotes(u) && QuoteAt(y) < |y|
    ensures var n := QuoteAt(y);
            && QuoteAt(u + y) == |u| + n
            && (u + y)[..|u| + n] == u + y[..n]
            && (u + y)[|u| + n + 1..] == y[n + 1..]
  {
    QuoteAtCat(u, y);
  }

  lemma GapAcross(u: string, y: string, ok: string -> bool, next: Part)
    requires NoQuotes(u) ==> Gap(u + y, ok, next).None?
    requires !NoQuotes(u) ==> next(u[QuoteAt(u) + 1..] + y) == next(u[QuoteAt(u) + 1..])
    ensures Gap(u + y, ok, next) == Gap(u, ok, next)
  {
    if NoQuotes(u) {
      QuoteAtNone(u);
    } else {
      CutCat(u, y);
    }
  }

  /** A first gap that is refused, or a refused rest, is no match. */
  lemma GapBehind(u: string, y: string, ok: string -> bool, next: Part)
    requires NoQuotes(u) && QuoteAt(y) < |y|
    requires !ok(u + y[..QuoteAt(y)]) || next(y[QuoteAt(y) + 1..]).None?
    ensures Gap(u + y, ok, next).None?
  {
    CutBehind(u, y);
    GapRefused(u + y, ok, next, u + y[..QuoteAt(y)], y[QuoteAt(y) + 1..]);
  }

  lemma GapRefused(s: string, ok: string -> bool, next: Part, a: string, b: string)
    requires QuoteAt(s) < |s| && s[..QuoteAt(s)] == a && s[QuoteAt(s) + 1..] == b
    requires !ok(a) || next(b).None?
    ensures Gap(s, ok, next).None?
  {
  }

  // ----- a match left of the start of a statement does not look into it -----

  /** Text that starts like a name, has an opening parenthesis before its first quote, and a name after it. */
  ghost predicate Barrier(y: string) {
    && y != "" && Wordy(FoldChar(y[0]))
    && var n := QuoteAt(y);
       n + 1 < |y| && '(' in y[..n] && Wordy(FoldChar(y[n + 1]))
  }

  lemma {:induction false} StripLeftCat(u: string, y: string)
    requires y != "" && !IsSpace(y[0])
    ensures StripLeft(u + y) == StripLeft(u) + y
  {
    if u == "" {
      assert u + y == y;
    } else if IsSpace(u[0]) {
      assert (u + y)[1..] == u[1..] + y;
      StripLeftCat(u[1..], y);
    }
  }

  /** Whether and where s closes is settled before a name starts. */
  lemma CloseCat(u: string, y: string)
    requires y != "" && Wordy(FoldChar(y[0]))
    ensures CloseAt(u + y) == CloseAt(u)
  {
    WordyFacts(y[0]);
    StripLeftCat(u, y);
    var r := StripLeft(u);
    if r == "" {
      assert r + y == y;
    } else {
      assert (r + y)[1..] == r[1..] + y;
      StripLeftCat(r[1..], y);
      var t := StripLeft(r[1..]);
      assert t == "" ==> t + y == y;
    }
  }

  lemma NotClosing(z: string)
    requires z != "" && Wordy(FoldChar(z[0]))
    ensures CloseAt(z).None?
  {
    WordyFacts(z[0]);
  }

  lemma {:induction false} StripLeftKeeps(s: string, c: char)
    requires c in s && !IsSpace(c)
    ensures c in StripLeft(s)
  {
    if IsSpace(s[0]) {
      StripLeftKeeps(s[1..], c);
    }
  }

  /** A separator is made of space and commas. */
  lemma CommaChars(g: string, c: char)
    requires IsComma(g) && c in g
    ensures IsSpace(c) || c == ','
  {
    if !IsSpace(c) {
      StripLeftKeeps(g, c);
      var r := StripLeft(g);
      assert r == [r[0]] + r[1..];
      if c in r[1..] {
        StripLeftKeeps(r[1..], c);
      }
    }
  }

  lemma ParenNotComma(g: string)
    requires '(' in g
    ensures !IsComma(g)
  {
    if IsComma(g) {
      CommaChars(g, '(');
    }
  }

  lemma ParenNotKey(g: string, key: string)
    requires '(' in g && KeyOk(key)
    ensures !SameText(g, key)
  {
    var i :| 0 <= i < |g| && g[i] == '(';
    if i < |key| {
      assert Wordy(key[i]);
      assert FoldChar(g[i]) != FoldChar(key[i]);
    }
  }

  lemma ValueSame(u: string, y: string)
    requires Barrier(y)
    ensures AtValue(u + y) == AtValue(u)
  {
    if NoQuotes(u) {
      CutBehind(u, y);
      NotClosing(y[QuoteAt(y) + 1..]);
      QuoteAtNone(u);
    } else {
      CutCat(u, y);
      CloseCat(u[QuoteAt(u) + 1..], y);
    }
  }

  lemma AfterKeySame(u: string, y: string)
    requires Barrier(y)
    ensures AfterKey(u + y) == AfterKey(u)
  {
    if NoQuotes(u) {
      ParenNotComma(u + y[..QuoteAt(y)]);
      GapBehind(u, y, IsComma, AtValue);
    } else {
      ValueSame(u[QuoteAt(u) + 1..], y);
    }
    GapAcross(u, y, IsComma, AtValue);
  }

  lemma AtKeySame(u: string, y: string, key: string)
    requires Barrier(y) && KeyOk(key)
    ensures AtKey(u + y, key) == AtKey(u, key)
  {
    if NoQuotes(u) {
      ParenNotKey(u + y[..QuoteAt(y)], key);
      GapBehind(u, y, IsKey(key), AfterKey);
    } else {
      AfterKeySame(u[QuoteAt(u) + 1..], y);
    }
    GapAcross(u, y, IsKey(key), AfterKey);
  }

  /** Left of a barrier the pattern matches exactly where it matches without anything behind. */
  lemma DefineSame(u: string, y: string, key: string)
    requires Barrier(y) && KeyOk(key)
    requires NoQuotes(u) ==> !IsOpen(u + y[..QuoteAt(y)]) || AtKey(y[QuoteAt(y) + 1..], key).None?
    ensures DefineAt(u + y, key) == DefineAt(u, key)
  {
    if NoQuotes(u) {
      GapBehind(u, y, IsOpen, KeyPart(key));
    } else {
      AtKeySame(u[QuoteAt(u) + 1..], y, key);
    }
    GapAcross(u, y, IsOpen, KeyPart(key));
  }

  // ----- statements -----

  /** No match starts before y and reaches into it. */
  ghost predicate Apart(y: string, m: Part) {
    forall u: string {:trigger m(u + y)} :: u != "" ==> m(u + y) == m(u)
  }

  function Plus(n: nat, r: Option<nat>): Option<nat> {
    match r
    case None => None
    case Some(i) => Some(n + i)
  }

  lemma {:induction false} LeftmostApart(u: string, y: string, m: Part)
    requires Apart(y, m)
    ensures Leftmost(u + y, m) == if Leftmost(u, m).Some? then Leftmost(u, m) else Plus(|u|, Leftmost(y, m))
  {
    if u == "" {
      assert u + y == y;
    } else {
      assert m(u + y) == m(u);
      assert (u + y)[1..] == u[1..] + y;
      LeftmostApart(u[1..], y, m);
    }
  }

  /** No match starts in p when z follows. */
  ghost predicate Dead(p: string, z: string, m: Part) {
    forall j {:trigger p[j..]} :: 0 <= j < |p| ==> m(p[j..] + z).None?
  }

  lemma {:induction false} LeftmostDead(p: string, z: string, m: Part)
    requires Dead(p, z, m)
    ensures Leftmost(p + z, m) == Plus(|p|, Leftmost(z, m))
  {
    if p == "" {
      assert p + z == z;
    } else {
      assert p[0..] == p;
      assert (p + z)[1..] == p[1..] + z;
      assert Dead(p[1..], z, m) by {
        forall j | 0 <= j < |p| - 1 ensures m(p[1..][j..] + z).None? {
          assert p[1..][j..] == p[j + 1..];
        }
      }
      LeftmostDead(p[1..], z, m);
    }
  }

  lemma ValueShift(p: string, z: string, m: Part)
    requires Sound(m)
    requires Leftmost(p + z, m) == Plus(|p|, Leftmost(z, m))
    ensures LeftmostValue(p + z, m) == LeftmostValue(z, m)
  {
    match Leftmost(z, m) {
      case None =>
      case Some(i) => assert (p + z)[|p| + i..] == z[i..];
    }
  }

  /** Then the value read is the one behind p. */
  lemma ValueDead(p: string, z: string, m: Part)
    requires Sound(m) && Dead(p, z, m)
    ensures LeftmostValue(p + z, m) == LeftmostValue(z, m)
  {
    LeftmostDead(p, z, m);
    ValueShift(p, z, m);
  }

  lemma ValueApart(u: string, y: string, m: Part)
    requires Sound(m) && Apart(y, m)
    ensures LeftmostValue(u + y, m) == if Leftmost(u, m).Some? then LeftmostValue(u, m) else LeftmostValue(y, m)
  {
    LeftmostApart(u, y, m);
    match Leftmost(u, m) {
      case None => ValueShift(u, y, m);
      case Some(i) =>
        assert (u + y)[i..] == u[i..] + y;
        assert m(u[i..] + y) == m(u[i..]);
        var v := m(u[i..]).value;
        assert (u[i..] + y)[v.from..v.to] == u[i..][v.from..v.to];
    }
  }

  lemma NotD(s: string, key: string)
    requires s != "" && FoldChar(s[0]) != 'd'
    ensures DefineAt(s, key).None?
  {
    var n := QuoteAt(s);
    if n >= 6 {
      assert s[..n][..6][0] == s[0];
    }
  }

  /** A match starts with a d. */
  lemma DeadPlain(p: string, z: string, key: string)
    requires forall i :: 0 <= i < |p| ==> FoldChar(p[i]) != 'd'
    ensures ConfigValue(p + z, key) == ConfigValue(z, key)
  {
    var m := DefinePart(key);
    forall j | 0 <= j < |p| ensures m(p[j..] + z).None? {
      NotD(p[j..] + z, key);
    }
    ValueDead(p, z, m);
  }

  lemma OpenRest(h: string, i: nat)
    requires i < |h|
    requires var r := StripLeft(h); r != "" && r[0] == '(' && StripLeft(r[1..]) == ""
    ensures '(' in h && (IsSpace(h[i]) || h[i] == '(')
  {
    StripLeftShape(h);
    var r := StripLeft(h);
    var n := |h| - |r|;
    assert h[n] == r[0];
    StripLeftShape(r[1..]);
    if i > n {
      assert h[i] == h[n..][i - n] == r[1..][i - n - 1];
    }
  }

  lemma OpenTail(g: string, i: nat)
    requires IsOpen(g) && 6 <= i < |g|
    ensures IsSpace(g[i]) || g[i] == '('
  {
    assert g[i] == g[6..][i - 6];
    OpenRest(g[6..], i - 6);
  }

  lemma OpenHead(g: string, i: nat)
    requires IsOpen(g) && i < 6
    ensures FoldChar(g[i]) == FoldChar(DEFINE[i])
  {
    assert g[..6][i] == g[i];
  }

  lemma OpenParen(g: string)
    requires IsOpen(g)
    ensures '(' in g
  {
    var h := g[6..];
    OpenRest(h, 0);
    var i :| 0 <= i < |h| && h[i] == '(';
    assert g[6 + i] == '(';
  }

  lemma OpenHasParen(g: string)
    requires IsOpen(g)
    ensures '(' in g && FoldChar(g[0]) == 'd'
    ensures forall i :: 0 < i < |g| ==> FoldChar(g[i]) != 'd'
  {
    OpenParen(g);
    OpenHead(g, 0);
    forall i | 0 < i < |g| ensures FoldChar(g[i]) != 'd' {
      if i < 6 {
        OpenHead(g, i);
      } else {
        OpenTail(g, i);
      }
    }
  }

  // ----- a statement for one key is invisible to the others -----

  lemma SameTextTwice(a: string, key: string, k: string)
    requires SameText(a, key) && SameText(a, k)
    ensures SameText(key, k)
  {
    forall i | 0 <= i < |key| ensures FoldChar(key[i]) == FoldChar(k[i]) {
      assert FoldChar(a[i]) == FoldChar(key[i]);
    }
  }

  lemma KeyChars(a: string, key: string)
    requires SameText(a, key) && KeyOk(key)
    ensures a != "" && Wordy(FoldChar(a[0])) && '(' !in a
  {
    assert Wordy(key[0]);
    if '(' in a {
      ParenNotKey(a, key);
    }
  }

  lemma NoKeyHere(t: string, k: string)
    requires KeyOk(k) && t != "" && !Wordy(FoldChar(t[0]))
    ensures AtKey(t, k).None?
  {
    if SameText(t[..QuoteAt(t)], k) {
      KeyChars(t[..QuoteAt(t)], k);
    }
  }

  lemma MatchParts(y: string, key: string)
    requires KeyOk(key) && DefineAt(y, key).Some?
    ensures Barrier(y) && IsOpen(y[..QuoteAt(y)])
    ensures AtKey(y[QuoteAt(y) + 1..], key).Some?
  {
    SoundParts(key);
    var g, q, t := GapParts(y, IsOpen, KeyPart(key));
    KeyStarts(t, key);
    OpenBarrier(y, g, q, t);
  }

  lemma OpenBarrier(y: string, g: string, q: char, t: string)
    requires y == g + ([q] + t) && QuoteAt(y) == |g| && IsOpen(g) && t != "" && Wordy(FoldChar(t[0]))
    ensures Barrier(y) && y[..QuoteAt(y)] == g && y[QuoteAt(y) + 1..] == t
  {
    OpenParen(g);
    OpenHead(g, 0);
    assert y[|g| + 1] == t[0];
  }

  lemma KeyStarts(t: string, key: string)
    requires KeyOk(key) && AtKey(t, key).Some?
    ensures t != "" && Wordy(FoldChar(t[0]))
  {
    KeyChars(t[..QuoteAt(t)], key);
  }

  lemma OtherKey(t: string, key: string, k: string)
    requires AtKey(t, key).Some? && !SameText(key, k)
    ensures AtKey(t, k).None?
  {
    if SameText(t[..QuoteAt(t)], k) {
      SameTextTwice(t[..QuoteAt(t)], key, k);
    }
  }

  lemma ApartOther(y: string, key: string, k: string)
    requires KeyOk(key) && KeyOk(k) && DefineAt(y, key).Some? && !SameText(key, k)
    ensures Apart(y, DefinePart(k))
  {
    forall u: string | u != "" ensures DefinePart(k)(u + y) == DefinePart(k)(u) {
      ApartOtherAt(u, y, key, k);
    }
  }

  lemma ApartOtherAt(u: string, y: string, key: string, k: string)
    requires KeyOk(key) && KeyOk(k) && DefineAt(y, key).Some? && !SameText(key, k)
    ensures DefineAt(u + y, k) == DefineAt(u, k)
  {
    FarKey(y, key, k);
    DefineSame(u, y, k);
  }

  lemma FarKey(y: string, key: string, k: string)
    requires KeyOk(key) && DefineAt(y, key).Some? && !SameText(key, k)
    ensures Barrier(y) && AtKey(y[QuoteAt(y) + 1..], k).None?
  {
    MatchParts(y, key);
    OtherKey(y[QuoteAt(y) + 1..], key, k);
  }

  lemma NotTwiceOpen(u: string, g: string)
    requires u != "" && IsOpen(g)
    ensures !IsOpen(u + g)
  {
    OpenHasParen(g);
    var w := u + g;
    assert FoldChar(w[|u|]) == 'd';
    if IsOpen(w) {
      OpenHasParen(w);
    }
  }

  lemma ApartSame(y: string, key: string)
    requires KeyOk(key) && DefineAt(y, key).Some?
    ensures Apart(y, DefinePart(key))
  {
    forall u: string | u != "" ensures DefinePart(key)(u + y) == DefinePart(key)(u) {
      ApartSameAt(u, y, key);
    }
  }

  lemma ApartSameAt(u: string, y: string, key: string)
    requires u != "" && KeyOk(key) && DefineAt(y, key).Some?
    ensures DefineAt(u + y, key) == DefineAt(u, key)
  {
    MatchParts(y, key);
    NotTwiceOpen(u, y[..QuoteAt(y)]);
    DefineSame(u, y, key);
  }

  /** No match starts in quote-free text when its first quote is not followed by a name, or no parenthesis is before it. */
  lemma DeadGap(x: string, z: string, k: string)
    requires KeyOk(k) && NoQuotes(x) && z != "" && IsQuote(z[0])
    requires '(' !in x || (|z| > 1 && !Wordy(FoldChar(z[1])))
    ensures Dead(x, z, DefinePart(k))
  {
    forall j | 0 <= j < |x| ensures DefinePart(k)(x[j..] + z).None? {
      var u := x[j..];
      assert NoQuotes(u);
      assert u + z[..0] == u;
      if '(' !in x {
        assert '(' !in u;
        if IsOpen(u) {
          OpenHasParen(u);
        }
      } else {
        NoKeyHere(z[1..], k);
      }
      GapBehind(u, z, IsOpen, KeyPart(k));
    }
  }

  /** A match cuts the text into a gap, a quote and the rest. */
  lemma GapParts(s: string, ok: string -> bool, next: Part) returns (g: string, q: char, t: string)
    requires Gap(s, ok, next).Some? && Sound(next)
    ensures s == g + ([q] + t) && QuoteAt(s) == |g|
    ensures NoQuotes(g) && IsQuote(q) && ok(g) && next(t).Some?
    ensures Gap(s, ok, next).value.end <= |s|
    ensures s[Gap(s, ok, next).value.end..] == t[next(t).value.end..]
  {
    var n := QuoteAt(s);
    g, q, t := s[..n], s[n], s[n + 1..];
    assert Inside(t, next(t));
    SliceOfRest(s, n + 1, next(t).value.end);
  }

  lemma SliceOfRest(s: string, i: nat, j: nat)
    requires i <= |s| && j <= |s| - i
    ensures s[i..][j..] == s[i + j..]
  {
  }

  lemma SkipClose(q: char, t: string, k: string)
    requires IsQuote(q) && CloseAt(t).Some?
    ensures ConfigValue([q] + t, k) == ConfigValue(t[CloseAt(t).value..], k)
  {
    var e := CloseAt(t).value;
    assert [q] + t == [q] + t[..e] + t[e..];
    DeadPlain([q] + t[..e], t[e..], k);
  }

  lemma SkipValueParts(x: string, q: char, t: string, k: string)
    requires KeyOk(k) && NoQuotes(x) && IsQuote(q) && CloseAt(t).Some?
    ensures ConfigValue(x + ([q] + t), k) == ConfigValue(t[CloseAt(t).value..], k)
  {
    DeadGap(x, [q] + t, k);
    ValueDead(x, [q] + t, DefinePart(k));
    SkipClose(q, t, k);
  }

  lemma SkipValue(s: string, k: string)
    requires KeyOk(k) && AtValue(s).Some?
    ensures ConfigValue(s, k) == ConfigValue(s[AtValue(s).value.end..], k)
  {
    var x, q, t := ValueParts(s);
    SkipValueParts(x, q, t, k);
  }

  lemma ValueParts(s: string) returns (x: string, q: char, t: string)
    requires AtValue(s).Some?
    ensures s == x + ([q] + t) && QuoteAt(s) == |x|
    ensures NoQuotes(x) && IsQuote(q) && CloseAt(t).Some?
    ensures AtValue(s).value.to == |x|
    ensures s[AtValue(s).value.end..] == t[CloseAt(t).value..]
  {
    var n := QuoteAt(s);
    x, q, t := s[..n], s[n], s[n + 1..];
    CutAt(s, n, CloseAt(t).value);
  }

  lemma CutAt(s: string, n: nat, e: nat)
    requires n < |s| && e <= |s| - n - 1
    ensures s == s[..n] + ([s[n]] + s[n + 1..])
    ensures s[n + 1..][e..] == s[n + 1 + e..]
  {
  }

  lemma SkipComma(g: string, q: char, t: string, k: string)
    requires IsComma(g) && IsQuote(q)
    ensures ConfigValue(g + ([q] + t), k) == ConfigValue(t, k)
  {
    forall i | 0 <= i < |g| ensures FoldChar(g[i]) != 'd' {
      CommaChars(g, g[i]);
    }
    DeadPlain(g, [q] + t, k);
    SkipQuote(q, t, k);
  }

  lemma SoundParts(key: string)
    ensures Sound(AtValue) && Sound(AfterKey) && Sound(KeyPart(key))
  {
  }

  lemma SkipAfterKey(s: string, k: string)
    requires KeyOk(k) && AfterKey(s).Some?
    ensures ConfigValue(s, k) == ConfigValue(s[AfterKey(s).value.end..], k)
  {
    SoundParts(k);
    var g, q, t := GapParts(s, IsComma, AtValue);
    SkipComma(g, q, t, k);
    SkipValue(t, k);
  }

  lemma SkipName(g: string, q: char, t: string, k: string)
    requires KeyOk(k) && NoQuotes(g) && '(' !in g && IsQuote(q)
    ensures ConfigValue(g + ([q] + t), k) == ConfigValue(t, k)
  {
    SkipQuote(q, t, k);
    DeadGap(g, [q] + t, k);
    ValueDead(g, [q] + t, DefinePart(k));
  }

  lemma SkipQuote(q: char, t: string, k: string)
    requires IsQuote(q)
    ensures ConfigValue([q] + t, k) == ConfigValue(t, k)
  {
    DeadPlain([q], t, k);
  }

  lemma SkipAtKey(s: string, key: string, k: string)
    requires KeyOk(key) && KeyOk(k) && AtKey(s, key).Some?
    ensures ConfigValue(s, k) == ConfigValue(s[AtKey(s, key).value.end..], k)
  {
    SoundParts(key);
    var g, q, t := GapParts(s, IsKey(key), AfterKey);
    KeyChars(g, key);
    SkipName(g, q, t, k);
    SkipAfterKey(t, k);
  }

  lemma SkipOpen(g: string, q: char, t: string, key: string, k: string)
    requires KeyOk(k) && NoQuotes(g) && IsOpen(g) && IsQuote(q)
    requires AtKey(t, k).None?
    ensures ConfigValue(g + ([q] + t), k) == ConfigValue(t, k)
  {
    OpenHasParen(g);
    var s := g + ([q] + t);
    var p, z := g[1..] + [q], t;
    assert s == s[..1] + (p + z);
    forall i | 0 <= i < |p| ensures FoldChar(p[i]) != 'd' {
      if i + 1 < |g| {
        assert p[i] == g[i + 1];
      }
    }
    DeadPlain(p, z, k);
    NotHere(g, q, t, k);
    DeadFirst(s, p + z, DefinePart(k));
  }

  lemma NotHere(g: string, q: char, t: string, k: string)
    requires NoQuotes(g) && IsQuote(q) && AtKey(t, k).None?
    ensures DefineAt(g + ([q] + t), k).None?
  {
    var y := [q] + t;
    assert QuoteAt(y) == 0 && y[1..] == t;
    GapBehind(g, y, IsOpen, KeyPart(k));
  }

  lemma DeadFirst(s: string, z: string, m: Part)
    requires Sound(m) && s != "" && s == s[..1] + z && m(s).None?
    ensures LeftmostValue(s, m) == LeftmostValue(z, m)
  {
    assert s[..1][0..] == s[..1];
    assert Dead(s[..1], z, m);
    ValueDead(s[..1], z, m);
  }

  lemma SkipDefine(s: string, key: string, k: string)
    requires KeyOk(key) && KeyOk(k) && DefineAt(s, key).Some? && !SameText(key, k)
    ensures ConfigValue(s, k) == ConfigValue(s[DefineAt(s, key).value.end..], k)
  {
    SoundParts(key);
    var g, q, t := GapParts(s, IsOpen, KeyPart(key));
    OtherKey(t, key, k);
    SkipOpen(g, q, t, key, k);
    SkipAtKey(t, key, k);
  }

  /**
   * A statement for one key is invisible to a reader of another: it neither hides what is around it nor is read itself,
   * whatever its value looks like.
   */
  lemma StatementInvisible(u: string, y: string, key: string, k: string)
    requires KeyOk(key) && KeyOk(k) && DefineAt(y, key).Some? && !SameText(key, k)
    ensures ConfigValue(u + y, k)
         == if ConfigValue(u, k).Some? then ConfigValue(u, k) else ConfigValue(y[DefineAt(y, key).value.end..], k)
  {
    ApartOther(y, key, k);
    ValueApart(u, y, DefinePart(k));
    SkipDefine(y, key, k);
  }

  // ----- putting a value and getting it back -----

  function Moved(v: Span, x: string): Span
    requires v.to < v.end
  {
    Span(v.from, v.from + |x|, v.from + |x| + (v.end - v.to))
  }

  function Later(n: nat, v: Span): Span {
    Span(n + v.from, n + v.to, n + v.end)
  }

  lemma QuoteAtGap(g: string, q: char, t: string)
    requires NoQuotes(g) && IsQuote(q)
    ensures var s := g + ([q] + t); QuoteAt(s) == |g| && s[..|g|] == g && s[|g| + 1..] == t
  {
    QuoteAtCat(g, [q] + t);
  }

  lemma ReplaceValue(s: string, x: string)
    requires AtValue(s).Some? && NoQuotes(x)
    ensures var v := AtValue(s).value; AtValue(Put(s, v, x)) == Some(Moved(v, x))
  {
    var o, q, t := ValueParts(s);
    PutFirst(o, q, t, AtValue(s).value, x);
    ValueIs(x, q, t);
    ValueIs(o, q, t);
  }

  lemma ValueIs(x: string, q: char, t: string)
    requires NoQuotes(x) && IsQuote(q) && CloseAt(t).Some?
    ensures AtValue(x + ([q] + t)) == Some(Span(0, |x|, |x| + 1 + CloseAt(t).value))
  {
    QuoteAtGap(x, q, t);
  }

  lemma PutFirst(o: string, q: char, t: string, v: Span, x: string)
    requires v.from == 0 && v.to == |o| && Inside(o + ([q] + t), Some(v))
    ensures Put(o + ([q] + t), v, x) == x + ([q] + t)
  {
    assert (o + ([q] + t))[|o|..] == [q] + t;
    assert (o + ([q] + t))[..0] == "";
  }

  lemma GapIs(g: string, q: char, t: string, ok: string -> bool, next: Part)
    requires NoQuotes(g) && IsQuote(q) && ok(g) && next(t).Some?
    ensures Gap(g + ([q] + t), ok, next) == Some(Later(|g| + 1, next(t).value))
  {
    QuoteAtGap(g, q, t);
  }

  lemma PutBehind(g: string, q: char, t: string, v: Span, x: string)
    requires Inside(t, Some(v))
    ensures Put(g + ([q] + t), Later(|g| + 1, v), x) == g + ([q] + Put(t, v, x))
    ensures Moved(Later(|g| + 1, v), x) == Later(|g| + 1, Moved(v, x))
  {
    var s, n := g + ([q] + t), |g| + 1;
    assert s[..n + v.from] == g + ([q] + t[..v.from]);
    assert s[n + v.to..] == t[v.to..];
  }

  lemma ReplaceGap(s: string, g: string, q: char, t: string, ok: string -> bool, next: Part, x: string)
    requires s == g + ([q] + t) && NoQuotes(g) && IsQuote(q) && ok(g)
    requires Sound(next) && next(t).Some?
    requires Inside(t, next(t)) && next(Put(t, next(t).value, x)) == Some(Moved(next(t).value, x))
    ensures Gap(s, ok, next).Some? && Inside(s, Gap(s, ok, next))
    ensures var w := Gap(s, ok, next).value; Gap(Put(s, w, x), ok, next) == Some(Moved(w, x))
  {
    GapIs(g, q, t, ok, next);
    PutBehind(g, q, t, next(t).value, x);
    GapIs(g, q, Put(t, next(t).value, x), ok, next);
  }

  lemma ReplaceAfterKey(s: string, x: string)
    requires AfterKey(s).Some? && NoQuotes(x)
    ensures var v := AfterKey(s).value; AfterKey(Put(s, v, x)) == Some(Moved(v, x))
  {
    SoundParts("");
    var g, q, t := GapParts(s, IsComma, AtValue);
    ReplaceValue(t, x);
    ReplaceGap(s, g, q, t, IsComma, AtValue, x);
  }

  lemma ReplaceAtKey(s: string, key: string, x: string)
    requires AtKey(s, key).Some? && NoQuotes(x)
    ensures var v := AtKey(s, key).value; AtKey(Put(s, v, x), key) == Some(Moved(v, x))
  {
    SoundParts(key);
    var g, q, t := GapParts(s, IsKey(key), AfterKey);
    ReplaceAfterKey(t, x);
    ReplaceGap(s, g, q, t, IsKey(key), AfterKey, x);
  }

  /** Putting another value into a match gives a match around that value. */
  lemma ReplaceDefineAt(s: string, key: string, x: string)
    requires DefineAt(s, key).Some? && NoQuotes(x)
    ensures var v := DefineAt(s, key).value; DefineAt(Put(s, v, x), key) == Some(Moved(v, x))
  {
    SoundParts(key);
    var g, q, t := GapParts(s, IsOpen, KeyPart(key));
    ReplaceAtKey(t, key, x);
    ReplaceGap(s, g, q, t, IsOpen, KeyPart(key), x);
  }
}
