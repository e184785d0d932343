/** The token and command sequences a policy stands for, and that its script spells them. */
module SieveTokens {
  import opened Text
  import opened SieveLanguage
  import opened SieveCompiler
  import opened SieveLexing

  function ActionTokens(f: Filter): seq<Token> {
    if f.action == "fileinto" then [Ident("fileinto"), Tag("create"), Str(f.destination), Semicolon]
    else if f.action == "redirect" then [Ident("redirect"), Str(f.destination), Semicolon]
    else [Ident("discard"), Semicolon]
  }

  function RuleTokens(match_: string, header: string, key: string, action: seq<Token>): seq<Token> {
    [Ident("if"), Ident("header"), Tag(match_), Str(header), Str(key), LBrace]
    + action + [Ident("stop"), Semicolon, RBrace]
  }

  function FilterTokens(f: Filter): seq<Token> {
    RuleTokens(f.matchType, HeaderOf(f), f.pattern, ActionTokens(f))
  }

  function FiltersTokens(fs: seq<Filter>): seq<Token> {
    if fs == [] then [] else FilterTokens(fs[0]) + FiltersTokens(fs[1..])
  }

  function SpamTokens(s: Spam): seq<Token> {
    if !s.enabled then []
    else RuleTokens("is", "X-Spam-Flag", "YES",
                    if s.action == "junk" then [Ident("fileinto"), Tag("create"), Str("Junk"), Semicolon]
                    else [Ident("discard"), Semicolon])
  }

  function ListTokens(names: seq<string>): seq<Token> {
    if names == [] then []
    else if |names| == 1 then [Str(names[0])]
    else [Str(names[0]), Comma] + ListTokens(names[1..])
  }

  function RequireTokens(p: Policy): seq<Token> {
    if Capabilities(p) == [] then []
    else [Ident("require"), LBracket] + ListTokens(Capabilities(p)) + [RBracket, Semicolon]
  }

  function VacationTokens(a: Autoresponder): seq<Token> {
    if !a.enabled then []
    else [Ident("vacation"), Tag("days"), Num(a.days), Tag("subject"), Str(a.subject),
          Str(NormalizeNewlines(a.body) + "\n"), Semicolon]
  }

  function ScriptTokens(p: Policy): seq<Token> {
    RequireTokens(p) + FiltersTokens(p.global) + SpamTokens(p.spam) + FiltersTokens(p.filters) + VacationTokens(p.auto)
  }

  // ----- lines -----

  function Flat(lines: seq<string>): string {
    if lines == [] then "" else lines[0] + "\n" + Flat(lines[1..])
  }

  lemma {:induction false} FlatJoin(lines: seq<string>)
    requires lines != []
    ensures Join(lines, "\n") + "\n" == Flat(lines)
  {
    if |lines| == 1 {
      assert Flat(lines[1..]) == "";
      assert lines[0] + "\n" + "" == lines[0] + "\n";
    } else {
      FlatJoin(lines[1..]);
      assert lines[0] + "\n" + Join(lines[1..], "\n") + "\n" == lines[0] + "\n" + (Join(lines[1..], "\n") + "\n");
    }
  }

  lemma {:induction false} FlatCat(a: seq<string>, b: seq<string>)
    ensures Flat(a + b) == Flat(a) + Flat(b)
  {
    if a == [] {
      assert a + b == b;
    } else {
      assert (a + b)[1..] == a[1..] + b;
      FlatCat(a[1..], b);
      assert a[0] + "\n" + (Flat(a[1..]) + Flat(b)) == a[0] + "\n" + Flat(a[1..]) + Flat(b);
    }
  }

  lemma EmptySpells()
    ensures Spells("", [])
  {
    forall rest: string ensures SpellsBefore("", [], rest) {
      assert "" + rest == rest;
      if Lex(rest).Some? {
        assert [] + Lex(rest).value == Lex(rest).value;
      }
    }
  }

  lemma LinesSpell(a: seq<string>, s: seq<Token>, b: seq<string>, t: seq<Token>)
    requires Spells(Flat(a), s) && Spells(Flat(b), t)
    ensures Spells(Flat(a + b), s + t)
  {
    FlatCat(a, b);
    SpellsCat(Flat(a), s, Flat(b), t);
  }

  /** One line ends with a line feed, which is blank. */
  lemma LineSpells(line: string, ts: seq<Token>)
    requires Spells(line, ts)
    ensures Spells(Flat([line]), ts)
  {
    Space();
    SpellsCat(line, ts, "\n", []);
    assert ts + [] == ts;
    assert Flat([line]) == line + "\n" by {
      assert [line][1..] == [];
      assert line + "\n" + "" == line + "\n";
    }
  }

  lemma TestWords(w: string)
    requires w in {"if", "header", "is", "contains"}
    ensures IsWord(w) && w != "text"
  {
  }

  lemma ActionWords(w: string)
    requires w in {"stop", "discard", "fileinto", "redirect", "create"}
    ensures IsWord(w) && w != "text"
  {
  }

  lemma OtherWords(w: string)
    requires w in {"require", "vacation", "days", "subject"}
    ensures IsWord(w) && w != "text"
  {
  }

  lemma ConditionSpells(m: string, q1: string, s1: string, q2: string, s2: string)
    requires m in MATCHES && Spells(q1, [Str(s1)]) && Spells(q2, [Str(s2)])
    ensures Spells("if header :" + m + " " + q1 + " " + q2 + " {",
                   [Ident("if"), Ident("header"), Tag(m), Str(s1), Str(s2), LBrace])
  {
    Space();
    Punct('{');
    ConditionWords(m);
    var t3 := "if header :" + m + " ";
    var k3 := [Ident("if"), Ident("header"), Tag(m)];
    SpellsCat(t3, k3, q1, [Str(s1)]);
    SpellsCat(t3 + q1, k3 + [Str(s1)], " ", []);
    SpellsCat(t3 + q1 + " ", k3 + [Str(s1)] + [], q2, [Str(s2)]);
    var k5 := k3 + [Str(s1)] + [] + [Str(s2)];
    SpellsCat(t3 + q1 + " " + q2, k5, " ", []);
    SpellsCat(t3 + q1 + " " + q2 + " ", k5 + [], "{", [LBrace]);
    assert t3 + q1 + " " + q2 + " " + "{" == t3 + q1 + " " + q2 + " {";
    assert k5 + [] + [LBrace] == [Ident("if"), Ident("header"), Tag(m), Str(s1), Str(s2), LBrace];
  }

  lemma ConditionWords(m: string)
    requires m in MATCHES
    ensures Spells("if header :" + m + " ", [Ident("if"), Ident("header"), Tag(m)])
  {
    TestWords("if");
    TestWords("header");
    TestWords(m);
    Word("if");
    Word("header");
    TagWord(m);
    SpellsCat("if" + " ", [Ident("if")], "header" + " ", [Ident("header")]);
    SpellsCat("if" + " " + ("header" + " "), [Ident("if")] + [Ident("header")], ":" + m + " ", [Tag(m)]);
    assert "if" + " " + ("header" + " ") + (":" + m + " ") == "if header :" + m + " ";
    assert [Ident("if")] + [Ident("header")] + [Tag(m)] == [Ident("if"), Ident("header"), Tag(m)];
  }

  lemma FileIntoSpells(q: string, folder: string)
    requires Spells(q, [Str(folder)])
    ensures Spells("  fileinto :create " + q + ";", [Ident("fileinto"), Tag("create"), Str(folder), Semicolon])
  {
    ActionWords("fileinto");
    ActionWords("create");
    Space();
    Punct(';');
    Word("fileinto");
    TagWord("create");
    SpellsCat("  ", [], "fileinto" + " ", [Ident("fileinto")]);
    SpellsCat("  " + ("fileinto" + " "), [] + [Ident("fileinto")], ":" + "create" + " ", [Tag("create")]);
    var t := "  fileinto :create ";
    assert "  " + ("fileinto" + " ") + (":" + "create" + " ") == t;
    var k := [Ident("fileinto"), Tag("create")];
    assert [] + [Ident("fileinto")] + [Tag("create")] == k;
    SpellsCat(t, k, q, [Str(folder)]);
    SpellsCat(t + q, k + [Str(folder)], ";", [Semicolon]);
    assert k + [Str(folder)] + [Semicolon] == [Ident("fileinto"), Tag("create"), Str(folder), Semicolon];
  }

  lemma RedirectSpells(q: string, address: string)
    requires Spells(q, [Str(address)])
    ensures Spells("  redirect " + q + ";", [Ident("redirect"), Str(address), Semicolon])
  {
    ActionWords("redirect");
    Space();
    Punct(';');
    Word("redirect");
    SpellsCat("  ", [], "redirect" + " ", [Ident("redirect")]);
    var t := "  redirect ";
    assert "  " + ("redirect" + " ") == t;
    assert [] + [Ident("redirect")] == [Ident("redirect")];
    SpellsCat(t, [Ident("redirect")], q, [Str(address)]);
    SpellsCat(t + q, [Ident("redirect")] + [Str(address)], ";", [Semicolon]);
    assert [Ident("redirect")] + [Str(address)] + [Semicolon] == [Ident("redirect"), Str(address), Semicolon];
  }

  lemma BareSpells(w: string)
    requires w in {"stop", "discard"}
    ensures Spells("  " + w + ";", [Ident(w), Semicolon])
  {
    ActionWords(w);
    Space();
    Word(w);
    SpellsCat("  ", [], w + ";", [Ident(w), Semicolon]);
    assert "  " + (w + ";") == "  " + w + ";";
    assert [] + [Ident(w), Semicolon] == [Ident(w), Semicolon];
  }

  /** The four lines of a rule. */
  lemma RuleSpells(condition: string, c: seq<Token>, action: string, a: seq<Token>)
    requires Spells(condition, c) && Spells(action, a)
    ensures Spells(Flat([condition, action, "  stop;", "}"]), c + a + [Ident("stop"), Semicolon, RBrace])
  {
    BareSpells("stop");
    assert "  " + "stop" + ";" == "  stop;";
    Punct('}');
    LineSpells(condition, c);
    LineSpells(action, a);
    LineSpells("  stop;", [Ident("stop"), Semicolon]);
    LineSpells("}", [RBrace]);
    LinesSpell([condition], c, [action], a);
    LinesSpell([condition] + [action], c + a, ["  stop;"], [Ident("stop"), Semicolon]);
    LinesSpell([condition] + [action] + ["  stop;"], c + a + [Ident("stop"), Semicolon], ["}"], [RBrace]);
    assert [condition] + [action] + ["  stop;"] + ["}"] == [condition, action, "  stop;", "}"];
    assert c + a + [Ident("stop"), Semicolon] + [RBrace] == c + a + [Ident("stop"), Semicolon, RBrace];
  }

  lemma ActionSpells(f: Filter)
    ensures Spells(ActionLine(f), ActionTokens(f))
  {
    QuotedSpells(f.destination);
    if f.action == "fileinto" {
      FileIntoSpells(Quoted(f.destination), f.destination);
    } else if f.action == "redirect" {
      RedirectSpells(Quoted(f.destination), f.destination);
    } else {
      BareSpells("discard");
      assert "  " + "discard" + ";" == "  discard;";
    }
  }

  lemma FilterSpells(f: Filter)
    requires f.matchType in MATCHES
    ensures Spells(Flat(FilterLines(f)), FilterTokens(f))
  {
    QuotedSpells(HeaderOf(f));
    QuotedSpells(f.pattern);
    ConditionSpells(f.matchType, Quoted(HeaderOf(f)), HeaderOf(f), Quoted(f.pattern), f.pattern);
    ActionSpells(f);
    RuleSpells("if header :" + f.matchType + " " + Quoted(HeaderOf(f)) + " " + Quoted(f.pattern) + " {",
               [Ident("if"), Ident("header"), Tag(f.matchType), Str(HeaderOf(f)), Str(f.pattern), LBrace],
               ActionLine(f), ActionTokens(f));
  }

  lemma {:induction false} TokensSnoc(fs: seq<Filter>, f: Filter)
    ensures FiltersTokens(fs + [f]) == FiltersTokens(fs) + FilterTokens(f)
  {
    if fs == [] {
      assert fs + [f] == [f];
      assert [f][1..] == [];
      assert FilterTokens(f) + [] == [] + FilterTokens(f);
    } else {
      assert (fs + [f])[1..] == fs[1..] + [f];
      TokensSnoc(fs[1..], f);
      assert FilterTokens(fs[0]) + (FiltersTokens(fs[1..]) + FilterTokens(f))
          == FilterTokens(fs[0]) + FiltersTokens(fs[1..]) + FilterTokens(f);
    }
  }

  lemma {:induction false} FiltersSpell(fs: seq<Filter>)
    requires forall f :: f in fs ==> f.matchType in MATCHES
    ensures Spells(Flat(AllFilterLines(fs)), FiltersTokens(fs))
  {
    if fs == [] {
      EmptySpells();
    } else {
      var front, last := fs[..|fs| - 1], fs[|fs| - 1];
      FiltersSpell(front);
      FilterSpells(last);
      LinesSpell(AllFilterLines(front), FiltersTokens(front), FilterLines(last), FilterTokens(last));
      TokensSnoc(front, last);
      assert front + [last] == fs;
    }
  }

  /** A string written between quotes without anything to escape. */
  lemma PlainSpells(q: string, text: string)
    requires q == "\"" + text + "\"" && '\\' !in text && '"' !in text
    ensures Spells(q, [Str(text)])
  {
    Unescaped(text, '\\', "\\\\");
    Unescaped(text, '"', "\\\"");
    QuotedSpells(text);
  }

  lemma {:induction false} Unescaped(text: string, c: char, put: string)
    requires c !in text
    ensures ReplaceChar(text, c, put) == text
  {
    if text != "" {
      Unescaped(text[1..], c, put);
    }
  }

  lemma SpamCondition()
    ensures Spells("if header :is \"X-Spam-Flag\" \"YES\" {",
                   [Ident("if"), Ident("header"), Tag("is"), Str("X-Spam-Flag"), Str("YES"), LBrace])
  {
    var q1, q2 := "\"X-Spam-Flag\"", "\"YES\"";
    PlainSpells(q1, "X-Spam-Flag");
    PlainSpells(q2, "YES");
    ConditionSpells("is", q1, "X-Spam-Flag", q2, "YES");
    assert "if header :" + "is" + " " + q1 + " " + q2 + " {" == "if header :is \"X-Spam-Flag\" \"YES\" {";
  }

  lemma JunkSpells()
    ensures Spells("  fileinto :create \"Junk\";", [Ident("fileinto"), Tag("create"), Str("Junk"), Semicolon])
    ensures Spells("  discard;", [Ident("discard"), Semicolon])
  {
    var q := "\"Junk\"";
    PlainSpells(q, "Junk");
    FileIntoSpells(q, "Junk");
    assert "  fileinto :create " + q + ";" == "  fileinto :create \"Junk\";";
    BareSpells("discard");
    assert "  " + "discard" + ";" == "  discard;";
  }

  lemma SpamSpells(s: Spam)
    ensures Spells(Flat(SpamLines(s)), SpamTokens(s))
  {
    if !s.enabled {
      EmptySpells();
    } else {
      SpamCondition();
      JunkSpells();
      var action := if s.action == "junk" then [Ident("fileinto"), Tag("create"), Str("Junk"), Semicolon]
                    else [Ident("discard"), Semicolon];
      RuleSpells("if header :is \"X-Spam-Flag\" \"YES\" {",
                 [Ident("if"), Ident("header"), Tag("is"), Str("X-Spam-Flag"), Str("YES"), LBrace],
                 SpamLines(s)[1], action);
    }
  }

  lemma {:induction false} ListSpells(names: seq<string>)
    requires names != []
    ensures Spells(Join(QuotedAll(names), ", "), ListTokens(names))
  {
    QuotedSpells(names[0]);
    if |names| > 1 {
      ListSpells(names[1..]);
      Punct(',');
      Space();
      SpellsCat(",", [Comma], " ", []);
      assert "," + " " == ", ";
      SpellsCat(Quoted(names[0]), [Str(names[0])], ", ", [Comma] + []);
      assert [Str(names[0])] + ([Comma] + []) == [Str(names[0]), Comma];
      SpellsCat(Quoted(names[0]) + ", ", [Str(names[0]), Comma],
                Join(QuotedAll(names[1..]), ", "), ListTokens(names[1..]));
      assert QuotedAll(names)[1..] == QuotedAll(names[1..]);
    }
  }

  lemma BracketSpells(list: string, ts: seq<Token>)
    requires Spells(list, ts)
    ensures Spells("require [" + list + "];", [Ident("require"), LBracket] + ts + [RBracket, Semicolon])
  {
    OtherWords("require");
    Word("require");
    Punct('[');
    Punct(']');
    Punct(';');
    SpellsCat("require" + " ", [Ident("require")], "[", [LBracket]);
    assert "require" + " " + "[" == "require [";
    assert [Ident("require")] + [LBracket] == [Ident("require"), LBracket];
    SpellsCat("require [", [Ident("require"), LBracket], list, ts);
    SpellsCat("]", [RBracket], ";", [Semicolon]);
    assert "]" + ";" == "];";
    assert [RBracket] + [Semicolon] == [RBracket, Semicolon];
    SpellsCat("require [" + list, [Ident("require"), LBracket] + ts, "];", [RBracket, Semicolon]);
  }

  lemma RequireSpells(p: Policy)
    ensures Spells(Flat(RequireLines(p)), RequireTokens(p))
  {
    if Capabilities(p) == [] {
      EmptySpells();
    } else {
      RequireLine(Capabilities(p));
    }
  }

  lemma RequireLine(caps: seq<string>)
    requires caps != []
    ensures Spells(Flat(["require [" + Join(QuotedAll(caps), ", ") + "];"]),
                   [Ident("require"), LBracket] + ListTokens(caps) + [RBracket, Semicolon])
  {
    ListSpells(caps);
    var list := Join(QuotedAll(caps), ", ");
    BracketSpells(list, ListTokens(caps));
    LineSpells("require [" + list + "];", [Ident("require"), LBracket] + ListTokens(caps) + [RBracket, Semicolon]);
  }

  lemma VacationHead(days: nat)
    ensures Spells("vacation :days " + Decimal(days) + " :subject ",
                   [Ident("vacation"), Tag("days"), Num(days), Tag("subject")])
  {
    OtherWords("vacation");
    OtherWords("days");
    OtherWords("subject");
    Word("vacation");
    TagWord("days");
    TagWord("subject");
    Numeral(days);
    var d := Decimal(days) + " ";
    SpellsCat("vacation" + " ", [Ident("vacation")], ":" + "days" + " ", [Tag("days")]);
    assert "vacation" + " " + (":" + "days" + " ") == "vacation :days ";
    SpellsCat("vacation :days ", [Ident("vacation")] + [Tag("days")], d, [Num(days)]);
    SpellsCat("vacation :days " + d, [Ident("vacation")] + [Tag("days")] + [Num(days)], ":" + "subject" + " ", [Tag("subject")]);
    assert "vacation :days " + d + (":" + "subject" + " ") == "vacation :days " + Decimal(days) + " :subject ";
    assert [Ident("vacation")] + [Tag("days")] + [Num(days)] + [Tag("subject")]
        == [Ident("vacation"), Tag("days"), Num(days), Tag("subject")];
  }

  lemma VacationSpells(a: Autoresponder)
    ensures Spells(Flat(VacationLines(a)), VacationTokens(a))
  {
    if !a.enabled {
      EmptySpells();
    } else {
      VacationHead(a.days);
      QuotedSpells(a.subject);
      MultilineSpells(a.body);
      Space();
      Punct(';');
      var t1 := "vacation :days " + Decimal(a.days) + " :subject ";
      var k1 := [Ident("vacation"), Tag("days"), Num(a.days), Tag("subject")];
      var reason := [Str(NormalizeNewlines(a.body) + "\n")];
      SpellsCat(t1, k1, Quoted(a.subject), [Str(a.subject)]);
      var t2, k2 := t1 + Quoted(a.subject), k1 + [Str(a.subject)];
      SpellsCat(t2, k2, " ", []);
      SpellsCat(t2 + " ", k2 + [], Multiline(a.body), reason);
      SpellsCat(t2 + " " + Multiline(a.body), k2 + [] + reason, ";", [Semicolon]);
      assert k2 + [] + reason + [Semicolon] == VacationTokens(a);
      LineSpells(t2 + " " + Multiline(a.body) + ";", VacationTokens(a));
    }
  }

  lemma GlobalSpells(p: Policy)
    requires forall f :: f in p.global ==> f.matchType in MATCHES
    ensures Spells(Flat(GlobalLines(p)), FiltersTokens(p.global))
  {
    if p.global == [] {
      EmptySpells();
    } else {
      Banners();
      FiltersSpell(p.global);
      LinesSpell([GLOBAL_BANNER], [], AllFilterLines(p.global), FiltersTokens(p.global));
      assert [] + FiltersTokens(p.global) == FiltersTokens(p.global);
    }
  }

  lemma BannerSpells(line: string)
    requires '\n' !in line && line != "" && line[0] == '#'
    ensures Spells(Flat([line]), [])
  {
    Comment(line);
    assert Flat([line]) == line + "\n" by {
      assert [line][1..] == [];
      assert line + "\n" + "" == line + "\n";
    }
  }

  lemma Banners()
    ensures Spells(Flat([BANNER]), []) && Spells(Flat([GLOBAL_BANNER]), [])
  {
    var head, tail := "# Managed by Nexvary Panel.", " Do not edit manually.";
    assert '\n' !in head && '\n' !in tail && head[0] == '#';
    assert '\n' !in head + tail && (head + tail)[0] == '#';
    assert '\n' !in GLOBAL_BANNER && GLOBAL_BANNER != "" && GLOBAL_BANNER[0] == '#';
    BannerSpells(BANNER);
    BannerSpells(GLOBAL_BANNER);
  }

  /** The generated text lexes to exactly the tokens of the policy. */
  lemma ScriptSpells(p: Policy)
    requires Normalized(p)
    ensures Lex(Join(ScriptLines(p), "\n") + "\n") == Some(ScriptTokens(p))
  {
    Banners();
    RequireSpells(p);
    GlobalSpells(p);
    SpamSpells(p.spam);
    FiltersSpell(p.filters);
    VacationSpells(p.auto);
    LinesSpell([BANNER], [], RequireLines(p), RequireTokens(p));
    var l1, k1 := [BANNER] + RequireLines(p), [] + RequireTokens(p);
    LinesSpell(l1, k1, GlobalLines(p), FiltersTokens(p.global));
    var l2, k2 := l1 + GlobalLines(p), k1 + FiltersTokens(p.global);
    LinesSpell(l2, k2, SpamLines(p.spam), SpamTokens(p.spam));
    var l3, k3 := l2 + SpamLines(p.spam), k2 + SpamTokens(p.spam);
    LinesSpell(l3, k3, AllFilterLines(p.filters), FiltersTokens(p.filters));
    var l4, k4 := l3 + AllFilterLines(p.filters), k3 + FiltersTokens(p.filters);
    LinesSpell(l4, k4, VacationLines(p.auto), VacationTokens(p.auto));
    ScriptEnds(p, k4 + VacationTokens(p.auto));
    assert [] + RequireTokens(p) == RequireTokens(p);
  }

  lemma ScriptEnds(p: Policy, k: seq<Token>)
    requires Spells(Flat(ScriptLines(p)), k)
    ensures Lex(Join(ScriptLines(p), "\n") + "\n") == Some(k)
  {
    FlatJoin(ScriptLines(p));
    var text := Flat(ScriptLines(p));
    assert SpellsBefore(text, k, "");
    assert text + "" == text;
    assert Lex("") == Some([]);
    assert k + [] == k;
  }
}
