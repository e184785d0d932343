/**
 * agent/domain_ops.py: rewriting the server_name directives of an nginx site. Bytes are characters; the rewriting is
 * the substitution of the pattern \bserver_name\s+([^;]+); over them.
 */
module ServerNames {
  import opened Text
  import opened HostNames
  import opened Sorting

  const DIRECTIVE := "server_name"

  /** \s in a byte pattern, and what bytes.split() splits at. */
  predicate Blank(c: char) {
    c in " \t\n\r\U{000B}\U{000C}"
  }

  /** \w in a byte pattern. */
  predicate WordChar(c: char) {
    IsLetter(c) || IsDigit(c) || c == '_'
  }

  function FirstSemicolon(s: string): (n: nat)
    ensures n <= |s|
    ensures n < |s| ==> s[n] == ';'
    ensures ';' !in s[..n]
  {
    if s == "" || s[0] == ';' then 0 else 1 + FirstSemicolon(s[1..])
  }

  /**
   * The length of the match of server_name\s+([^;]+); at the start of s. One blank and one further character, which
   * may be blank too, have to stand before the first semicolon.
   */
  function Match(s: string): (n: Option<nat>)
    ensures n.Some? ==> 14 <= n.value <= |s| && s[n.value - 1] == ';' && ';' !in s[..n.value - 1]
  {
    var end := FirstSemicolon(s);
    if StartsWith(s, DIRECTIVE) && |s| > 11 && Blank(s[11]) && 13 <= end < |s| then Some(end + 1) else None
  }

  function BlankEnd(s: string): (n: nat)
    ensures n <= |s|
  {
    if s != "" && Blank(s[0]) then 1 + BlankEnd(s[1..]) else 0
  }

  function TokenEnd(s: string): (n: nat)
    ensures n <= |s|
    ensures forall i :: 0 <= i < n ==> !Blank(s[i])
    ensures n < |s| ==> Blank(s[n])
  {
    if s != "" && !Blank(s[0]) then 1 + TokenEnd(s[1..]) else 0
  }

  /** bytes.split() */
  function Tokens(s: string): seq<string>
    decreases |s|
  {
    if s == "" then []
    else if Blank(s[0]) then Tokens(s[1..])
    else [s[..TokenEnd(s)]] + Tokens(s[TokenEnd(s)..])
  }

  /** Group 1 of a match: \s+ takes every blank unless it has to leave the last one to [^;]+. */
  function Group(match_: string): string
    requires |match_| >= 14
  {
    var between := match_[11..|match_| - 1];
    var n := BlankEnd(between);
    if n == |between| then between[n - 1..] else between[n..]
  }

  predicate Managed(match_: string, domain: string)
    requires |match_| >= 14
  {
    domain in Tokens(Group(match_)) || ("www." + domain) in Tokens(Group(match_))
  }

  /** A host name as the alias and domain patterns leave it: not empty, no blanks, no semicolons. */
  ghost predicate NameOk(name: string) {
    name != "" && forall c :: c in name ==> !Blank(c) && c != ';'
  }

  ghost predicate NamesOk(names: seq<string>) {
    forall i :: 0 <= i < |names| ==> NameOk(names[i])
  }

  function Names(domain: string, aliases: seq<string>): seq<string> {
    [domain, "www." + domain] + aliases
  }

  function Replacement(domain: string, aliases: seq<string>): string {
    "server_name " + Join(Names(domain, aliases), " ") + ";"
  }

  /** The substitution from left to right; `word` tells whether a word character stands just before s. */
  function Rewrite(word: bool, s: string, domain: string, aliases: seq<string>): (string, nat)
    decreases |s|
  {
    if s == "" then ("", 0)
    else if !word && Match(s).Some? then
      var n := Match(s).value;
      var (rest, count) := Rewrite(false, s[n..], domain, aliases);
      if Managed(s[..n], domain) then (Replacement(domain, aliases) + rest, count + 1) else (s[..n] + rest, count)
    else
      var (rest, count) := Rewrite(WordChar(s[0]), s[1..], domain, aliases);
      ([s[0]] + rest, count)
  }

  /** _rewrite_managed_server_names */
  function RewriteManaged(raw: string, domain: string, aliases: seq<string>): (string, nat) {
    Rewrite(false, raw, domain, aliases)
  }

  // ----- the text as directives and other characters -----

  datatype Segment = Other(c: char) | Directive(text: string)

  function Segments(word: bool, s: string): seq<Segment>
    decreases |s|
  {
    if s == "" then []
    else if !word && Match(s).Some? then [Directive(s[..Match(s).value])] + Segments(false, s[Match(s).value..])
    else [Other(s[0])] + Segments(WordChar(s[0]), s[1..])
  }

  function Spell(segments: seq<Segment>): string {
    if segments == [] then ""
    else (match segments[0] case Other(c) => [c] case Directive(t) => t) + Spell(segments[1..])
  }

  predicate IsManaged(g: Segment, domain: string) {
    g.Directive? && |g.text| >= 14 && Managed(g.text, domain)
  }

  /** What rewriting does to one segment: a managed directive becomes the canonical one. */
  function Updated(g: Segment, domain: string, aliases: seq<string>): Segment {
    if IsManaged(g, domain) then Directive(Replacement(domain, aliases)) else g
  }

  function UpdatedAll(gs: seq<Segment>, domain: string, aliases: seq<string>): (r: seq<Segment>)
    ensures |r| == |gs|
    ensures forall i :: 0 <= i < |gs| ==> r[i] == Updated(gs[i], domain, aliases)
  {
    if gs == [] then [] else [Updated(gs[0], domain, aliases)] + UpdatedAll(gs[1..], domain, aliases)
  }

  function CountManaged(gs: seq<Segment>, domain: string): nat {
    if gs == [] then 0 else (if IsManaged(gs[0], domain) then 1 else 0) + CountManaged(gs[1..], domain)
  }

  lemma {:induction false} SegmentsSpell(word: bool, s: string)
    ensures Spell(Segments(word, s)) == s
    decreases |s|
  {
    if s != "" {
      if !word && Match(s).Some? {
        SegmentsSpell(false, s[Match(s).value..]);
      } else {
        SegmentsSpell(WordChar(s[0]), s[1..]);
      }
    }
  }

  // ----- the canonical directive -----

  lemma {:induction false} TokensOfName(name: string, rest: string)
    requires NameOk(name) && (rest == "" || Blank(rest[0]))
    ensures Tokens(name + rest) == [name] + Tokens(rest)
  {
    var s := name + rest;
    forall i | 0 <= i < |name| ensures !Blank(s[i]) {
      assert s[i] in name;
    }
    assert rest != "" ==> s[|name|] == rest[0];
    var n := TokenEnd(s);
    assert n == |name|;
    assert s[..n] == name && s[n..] == rest;
  }

  lemma {:induction false} TokensOfJoin(names: seq<string>)
    requires names != [] && NamesOk(names)
    ensures Tokens(Join(names, " ")) == names
    ensures Join(names, " ") != "" && !Blank(Join(names, " ")[0]) && ';' !in Join(names, " ")
  {
    if |names| == 1 {
      TokensOfName(names[0], "");
      assert names[0] + "" == names[0];
      assert names[0][0] in names[0];
    } else {
      TokensOfJoin(names[1..]);
      var rest := " " + Join(names[1..], " ");
      TokensOfName(names[0], rest);
      assert names[0] + " " + Join(names[1..], " ") == names[0] + rest;
      assert rest[1..] == Join(names[1..], " ");
      assert names[0][0] in names[0];
    }
  }

  lemma NamesAreOk(domain: string, aliases: seq<string>)
    requires NameOk(domain) && NamesOk(aliases)
    ensures NamesOk(Names(domain, aliases))
  {
    assert NameOk("www." + domain) by {
      forall c | c in "www." + domain ensures !Blank(c) && c != ';' {
        assert c in "www." || c in domain;
      }
    }
  }

  lemma SemicolonAt(s: string, n: nat)
    requires n < |s| && s[n] == ';' && ';' !in s[..n]
    ensures FirstSemicolon(s) == n
  {
  }

  lemma CanonicalShape(joined: string)
    requires joined != "" && !Blank(joined[0]) && ';' !in joined
    ensures var r := "server_name " + joined + ";"; Match(r) == Some(|r|) && Group(r) == joined
  {
    var r := "server_name " + joined + ";";
    var head := "server_name " + joined;
    assert ';' !in head;
    assert r[..|r| - 1] == head;
    SemicolonAt(r, |r| - 1);
    assert r[..11] == DIRECTIVE && r[11] == ' ';
    CanonicalGroup(r[11..|r| - 1], joined);
  }

  lemma CanonicalGroup(between: string, joined: string)
    requires joined != "" && !Blank(joined[0]) && between == " " + joined
    ensures BlankEnd(between) == 1 < |between| && between[1..] == joined
  {
    assert between[1..] == joined;
    assert BlankEnd(joined) == 0;
  }

  /** The replacement is a directive that names exactly the canonical list, the primary domain first. */
  lemma ReplacementReads(domain: string, aliases: seq<string>)
    requires NameOk(domain) && NamesOk(aliases)
    ensures var r := Replacement(domain, aliases);
            && Match(r) == Some(|r|)
            && Tokens(Group(r)) == Names(domain, aliases)
            && Managed(r, domain)
  {
    NamesAreOk(domain, aliases);
    TokensOfJoin(Names(domain, aliases));
    CanonicalShape(Join(Names(domain, aliases), " "));
    assert Names(domain, aliases)[0] == domain;
  }

  // ----- alignment: the output is cut into segments where the input was -----

  lemma MatchExtends(d: string, rest: string)
    requires Match(d) == Some(|d|)
    ensures Match(d + rest) == Some(|d|)
  {
    var s := d + rest;
    assert s[..|d| - 1] == d[..|d| - 1];
    SemicolonAt(s, |d| - 1);
    assert s[..11] == d[..11];
  }

  lemma MatchCut(s: string)
    requires Match(s).Some?
    ensures Match(s[..Match(s).value]) == Some(Match(s).value)
  {
    var n := Match(s).value;
    var d := s[..n];
    assert d[..n - 1] == s[..n - 1];
    SemicolonAt(d, n - 1);
    assert d[..11] == s[..11];
  }

  lemma {:induction false} NoSemicolonKept(word: bool, s: string, domain: string, aliases: seq<string>)
    requires ';' !in s
    ensures Rewrite(word, s, domain, aliases).0 == s
    decreases |s|
  {
    if s != "" {
      NoSemicolonKept(WordChar(s[0]), s[1..], domain, aliases);
    }
  }

  /** Inside a word nothing is rewritten, so a word the output starts with was there in the input. */
  lemma {:induction false} WordKept(t: string, u: string, domain: string, aliases: seq<string>)
    requires forall c :: c in u ==> WordChar(c)
    requires StartsWith(Rewrite(true, t, domain, aliases).0, u)
    ensures StartsWith(t, u)
    ensures Rewrite(true, t, domain, aliases).0 == u + Rewrite(true, t[|u|..], domain, aliases).0
  {
    var o := Rewrite(true, t, domain, aliases).0;
    if u == "" {
      assert t[0..] == t;
    } else {
      assert o != "";
      assert o == [t[0]] + Rewrite(WordChar(t[0]), t[1..], domain, aliases).0;
      assert u[0] == t[0] && u[0] in u;
      assert o[1..][..|u| - 1] == u[1..];
      WordKept(t[1..], u[1..], domain, aliases);
      assert t[1..][|u| - 1..] == t[|u|..];
      assert t[..|u|] == [t[0]] + t[1..][..|u| - 1];
    }
  }

  lemma RestIsWord(u: string)
    requires u == DIRECTIVE[1..]
    ensures forall c :: c in u ==> WordChar(c)
  {
    assert u == "erver_name";
  }

  /** Rewriting further on never makes a directive start where none started before. */
  lemma NoNewMatch(s: string, domain: string, aliases: seq<string>)
    requires s != "" && Match(s).None?
    ensures Match([s[0]] + Rewrite(WordChar(s[0]), s[1..], domain, aliases).0).None?
  {
    var o := [s[0]] + Rewrite(WordChar(s[0]), s[1..], domain, aliases).0;
    if Match(o).Some? {
      SameStart(s, o, domain, aliases);
      NoNewTail(s, o, domain, aliases);
    }
  }

  lemma SameStart(s: string, o: string, domain: string, aliases: seq<string>)
    requires s != "" && o == [s[0]] + Rewrite(WordChar(s[0]), s[1..], domain, aliases).0
    requires StartsWith(o, DIRECTIVE) && |o| > 11 && Blank(o[11])
    ensures |s| > 11 && StartsWith(s, DIRECTIVE) && Blank(s[11])
    ensures o == DIRECTIVE + Rewrite(true, s[11..], domain, aliases).0
  {
    var u := DIRECTIVE[1..];
    RestIsWord(u);
    assert o[0] == DIRECTIVE[0] && s[0] == 's';
    assert o[1..][..10] == u;
    WordKept(s[1..], u, domain, aliases);
    assert s[1..][10..] == s[11..];
    StartRestored(s, u);
    var rest := Rewrite(true, s[11..], domain, aliases).0;
    assert o == DIRECTIVE + rest;
    assert o[11] == rest[0];
    assert s[11..] != "" && rest[0] == s[11..][0];
  }

  lemma StartRestored(s: string, u: string)
    requires u == DIRECTIVE[1..] && |s| > 11 && s[0] == 's' && StartsWith(s[1..], u)
    ensures StartsWith(s, DIRECTIVE)
  {
    assert s[..11] == [s[0]] + s[1..][..10];
  }

  lemma NoNewTail(s: string, o: string, domain: string, aliases: seq<string>)
    requires |s| > 11 && StartsWith(s, DIRECTIVE) && Blank(s[11]) && Match(s).None?
    requires o == DIRECTIVE + Rewrite(true, s[11..], domain, aliases).0
    ensures Match(o).None?
  {
    var t, after := s[11..], s[12..];
    assert t[1..] == after;
    var rest := Rewrite(false, after, domain, aliases).0;
    assert Rewrite(true, t, domain, aliases).0 == [t[0]] + rest;
    assert o == DIRECTIVE + [s[11]] + rest;
    var e := FirstSemicolon(s);
    if e == |s| {
      assert ';' !in after;
      NoSemicolonKept(false, after, domain, aliases);
      assert o == s[..11] + [s[11]] + s[12..];
      assert o == s;
    } else {
      HeadHasNoSemicolon(s, e);
      assert e == 12 && after[0] == ';';
      assert rest[0] == ';';
      SemicolonAt(o, 12);
    }
  }

  lemma HeadHasNoSemicolon(s: string, e: nat)
    requires |s| > 11 && StartsWith(s, DIRECTIVE) && Blank(s[11]) && e < |s| && s[e] == ';'
    ensures e >= 12
    ensures ';' !in DIRECTIVE + [s[11]]
  {
    assert ';' !in DIRECTIVE;
  }

  /** The output falls into the same segments as the input, each one updated on its own. */
  lemma {:induction false} Alignment(word: bool, s: string, domain: string, aliases: seq<string>)
    requires NameOk(domain) && NamesOk(aliases)
    ensures var o := Rewrite(word, s, domain, aliases);
            && Segments(word, o.0) == UpdatedAll(Segments(word, s), domain, aliases)
            && o.1 == CountManaged(Segments(word, s), domain)
    decreases |s|
  {
    if s == "" {
    } else if !word && Match(s).Some? {
      AlignDirective(s, domain, aliases);
    } else {
      AlignOther(word, s, domain, aliases);
    }
  }

  lemma SegmentsStart(d: string, rest: string)
    requires Match(d) == Some(|d|)
    ensures Segments(false, d + rest) == [Directive(d)] + Segments(false, rest)
  {
    MatchExtends(d, rest);
    assert (d + rest)[..|d|] == d && (d + rest)[|d|..] == rest;
  }

  lemma {:induction false} AlignDirective(s: string, domain: string, aliases: seq<string>)
    requires NameOk(domain) && NamesOk(aliases) && Match(s).Some?
    ensures var o := Rewrite(false, s, domain, aliases);
            && Segments(false, o.0) == UpdatedAll(Segments(false, s), domain, aliases)
            && o.1 == CountManaged(Segments(false, s), domain)
    decreases |s|, 0
  {
    var n := Match(s).value;
    Alignment(false, s[n..], domain, aliases);
    var tail := Rewrite(false, s[n..], domain, aliases);
    var g := Directive(s[..n]);
    var d := if Managed(s[..n], domain) then Replacement(domain, aliases) else s[..n];
    MatchCut(s);
    ReplacementReads(domain, aliases);
    SegmentsStart(d, tail.0);
    assert Rewrite(false, s, domain, aliases).0 == d + tail.0;
    assert Updated(g, domain, aliases) == Directive(d);
    var gs := [g] + Segments(false, s[n..]);
    assert gs[1..] == Segments(false, s[n..]);
    assert Segments(false, s) == gs;
  }

  lemma {:induction false} AlignOther(word: bool, s: string, domain: string, aliases: seq<string>)
    requires NameOk(domain) && NamesOk(aliases) && s != "" && (word || Match(s).None?)
    ensures var o := Rewrite(word, s, domain, aliases);
            && Segments(word, o.0) == UpdatedAll(Segments(word, s), domain, aliases)
            && o.1 == CountManaged(Segments(word, s), domain)
    decreases |s|, 0
  {
    var w := WordChar(s[0]);
    Alignment(w, s[1..], domain, aliases);
    var rest := Rewrite(w, s[1..], domain, aliases).0;
    if !word {
      NoNewMatch(s, domain, aliases);
    }
    var o := [s[0]] + rest;
    assert Rewrite(word, s, domain, aliases).0 == o;
    assert o[1..] == rest;
    assert Segments(word, o) == [Other(s[0])] + Segments(w, rest);
    assert Segments(word, s)[1..] == Segments(w, s[1..]);
  }

  // ----- what rewriting guarantees -----

  /**
   * Over any text: the output is made of the input's own segments, in order, where every directive that named the
   * primary domain now names exactly the canonical list and every other directive and character is unchanged.
   */
  lemma OnlyManagedDirectivesChange(raw: string, domain: string, aliases: seq<string>)
    requires NameOk(domain) && NamesOk(aliases)
    ensures var before, after := Segments(false, raw), Segments(false, RewriteManaged(raw, domain, aliases).0);
            && Spell(before) == raw && Spell(after) == RewriteManaged(raw, domain, aliases).0
            && |after| == |before|
            && (forall i :: 0 <= i < |before| && !IsManaged(before[i], domain) ==> after[i] == before[i])
            && (forall i :: 0 <= i < |before| && IsManaged(before[i], domain) ==>
                  IsManaged(after[i], domain) && Tokens(Group(after[i].text)) == Names(domain, aliases))
            && RewriteManaged(raw, domain, aliases).1 == CountManaged(before, domain)
  {
    Alignment(false, raw, domain, aliases);
    SegmentsSpell(false, raw);
    SegmentsSpell(false, RewriteManaged(raw, domain, aliases).0);
    ReplacementReads(domain, aliases);
  }

  /** The output text is the input text with the managed directives replaced: the count tells how many. */
  lemma {:induction false} UpdatedTwice(gs: seq<Segment>, domain: string, a: seq<string>, b: seq<string>)
    requires NameOk(domain) && NamesOk(a)
    ensures UpdatedAll(UpdatedAll(gs, domain, a), domain, b) == UpdatedAll(gs, domain, b)
    ensures CountManaged(UpdatedAll(gs, domain, a), domain) == CountManaged(gs, domain)
  {
    ReplacementReads(domain, a);
    if gs != [] {
      UpdatedTwice(gs[1..], domain, a, b);
      assert UpdatedAll(gs, domain, a)[1..] == UpdatedAll(gs[1..], domain, a);
    }
  }

  /** Rewriting for one alias list and then for another gives what rewriting for the second alone gives. */
  lemma LaterListWins(raw: string, domain: string, a: seq<string>, b: seq<string>)
    requires NameOk(domain) && NamesOk(a) && NamesOk(b)
    ensures RewriteManaged(RewriteManaged(raw, domain, a).0, domain, b) == RewriteManaged(raw, domain, b)
  {
    var mid := RewriteManaged(raw, domain, a).0;
    Alignment(false, raw, domain, a);
    Alignment(false, raw, domain, b);
    Alignment(false, mid, domain, b);
    UpdatedTwice(Segments(false, raw), domain, a, b);
    SegmentsSpell(false, RewriteManaged(mid, domain, b).0);
    SegmentsSpell(false, RewriteManaged(raw, domain, b).0);
  }

  /** Rewriting again changes nothing and counts the same directives. */
  lemma RewritingIsIdempotent(raw: string, domain: string, aliases: seq<string>)
    requires NameOk(domain) && NamesOk(aliases)
    ensures RewriteManaged(RewriteManaged(raw, domain, aliases).0, domain, aliases) == RewriteManaged(raw, domain, aliases)
  {
    LaterListWins(raw, domain, aliases, aliases);
  }

  // ----- the set of aliases -----

  /** _alias; a value that is not a string is None. */
  function Alias(value: Option<string>): (r: Option<string>)
    ensures r.Some? ==> DomainOk(r.value)
  {
    if value.None? then None else Domain(value.value)
  }

  function Read(values: seq<Option<string>>): seq<Option<string>> {
    seq(|values|, i requires 0 <= i < |values| => Alias(values[i]))
  }

  /** The sorted set of names, or None when one of them is bad. */
  function Collected(names: seq<Option<string>>): Option<seq<string>> {
    if names == [] then Some([])
    else
      var last := names[|names| - 1];
      match Collected(names[..|names| - 1])
      case None => None
      case Some(sorted) => if last.None? then None else Some(Insert(sorted, last.value))
  }

  /** sorted({_alias(value) for value in aliases}) */
  function Aliases(values: seq<Option<string>>): Option<seq<string>> {
    Collected(Read(values))
  }

  lemma {:induction false} CollectedAre(names: seq<Option<string>>)
    ensures Collected(names).None? <==> None in names
    ensures Collected(names).Some? ==>
              Increasing(Collected(names).value) && forall name :: name in Collected(names).value <==> Some(name) in names
  {
    if names != [] {
      var n := |names| - 1;
      CollectedAre(names[..n]);
      assert forall x :: x in names <==> x in names[..n] || x == names[n];
      if Collected(names).Some? {
        InsertKeeps(Collected(names[..n]).value, names[n].value);
      }
    }
  }

  lemma DomainIsName(d: string)
    requires DomainOk(d)
    ensures NameOk(d)
  {
    forall i | 0 <= i < |d| ensures !Blank(d[i]) && d[i] != ';' {
      DomainChars(d, i);
    }
  }

  /** The aliases are the host names that were given, each once and sorted, and can stand in a directive. */
  lemma AliasesAre(values: seq<Option<string>>)
    requires Aliases(values).Some?
    ensures Increasing(Aliases(values).value) && NamesOk(Aliases(values).value)
    ensures forall name :: name in Aliases(values).value <==> Some(name) in Read(values)
  {
    CollectedAre(Read(values));
    var names := Aliases(values).value;
    forall i | 0 <= i < |names| ensures NameOk(names[i]) {
      assert names[i] in names;
      var j :| 0 <= j < |values| && Read(values)[j] == Some(names[i]);
      assert Alias(values[j]) == Some(names[i]);
      DomainIsName(names[i]);
    }
  }

  /** Neither the order of the list that was given matters, nor repetitions, nor how a name is spelled. */
  lemma OnlyTheSetMatters(a: seq<Option<string>>, b: seq<Option<string>>)
    requires forall name :: name in Read(a) <==> name in Read(b)
    ensures Aliases(a) == Aliases(b)
  {
    CollectedAre(Read(a));
    CollectedAre(Read(b));
    if Aliases(a).Some? {
      SortedOnce(Aliases(a).value, Aliases(b).value);
    }
  }

  // ----- the configuration file -----

  const MAX_SITE_CONF := 1024 * 1024
  const MAX_ALIASES := 100

  datatype Sync = Synced(directives: nat) | Refused | RolledBack

  /** What is checked before the file is touched: the limit is on the list that was given. */
  predicate Acceptable(conf: string, domain: string, values: seq<Option<string>>) {
    && |values| <= MAX_ALIASES && Aliases(values).Some?
    && var names := Aliases(values).value;
       && domain !in names && ("www." + domain) !in names
       && |conf| <= MAX_SITE_CONF
       && RewriteManaged(conf, domain, names).1 >= 1
  }

  class SiteConfiguration {
    var conf: string

    constructor (text: string)
      ensures conf == text
    {
      conf := text;
    }

    /**
     * sync_domain_aliases for a valid domain and any list; `writeOk`, `testOk` and `reloadOk` are what the file system,
     * nginx and systemctl answer. Unless the call succeeds the file is what it was.
     */
    method SyncAliases(domain: string, values: seq<Option<string>>, writeOk: bool, testOk: bool, reloadOk: bool)
      returns (r: Sync)
      modifies this
      ensures r.Synced? ==>
                Aliases(values).Some? && (conf, r.directives) == RewriteManaged(old(conf), domain, Aliases(values).value)
      ensures !r.Synced? ==> conf == old(conf)
      ensures r.Synced? <==>
                (&& Acceptable(old(conf), domain, values)
                 && (RewriteManaged(old(conf), domain, Aliases(values).value).0 == old(conf)
                     || (writeOk && testOk && reloadOk)))
    {
      var before := conf;
      if |values| > MAX_ALIASES {
        return Refused;
      }
      var names := Aliases(values);
      if names.None? || domain in names.value || ("www." + domain) in names.value || |before| > MAX_SITE_CONF {
        return Refused;
      }
      var (updated, count) := RewriteManaged(before, domain, names.value);
      if count < 1 {
        return Refused;
      }
      if updated == before {
        return Synced(count);
      }
      if !writeOk {
        return Refused;
      }
      conf := updated;
      if !testOk {
        conf := before;
        return RolledBack;
      }
      if !reloadOk {
        conf := before;
        return RolledBack;
      }
      r := Synced(count);
    }
  }
}
