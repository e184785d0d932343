/** Generated scripts parse, require exactly what they use, and do what the policy says. */
module SieveMeaning {
  import opened Text
  import opened SieveLanguage
  import opened SieveCompiler
  import opened SieveTokens

  // ----- the policy, read directly -----

  ghost predicate FilterMatches(f: Filter, msg: Message) {
    exists i :: 0 <= i < |msg.headers|
      && Lower(msg.headers[i].name) == Lower(HeaderOf(f)) && ValueMatches(f.matchType, msg.headers[i].value, f.pattern)
  }

  function ActionOf(f: Filter): Action {
    if f.action == "fileinto" then FileInto(f.destination, true)
    else if f.action == "redirect" then Redirect(f.destination)
    else Discard
  }

  ghost function FirstMatch(fs: seq<Filter>, msg: Message): Option<Filter> {
    if fs == [] then None else if FilterMatches(fs[0], msg) then Some(fs[0]) else FirstMatch(fs[1..], msg)
  }

  ghost predicate HeaderIs(msg: Message, name: string, value: string) {
    exists i :: 0 <= i < |msg.headers|
      && Lower(msg.headers[i].name) == Lower(name) && Lower(msg.headers[i].value) == Lower(value)
  }

  ghost predicate IsSpam(msg: Message) {
    HeaderIs(msg, "X-Spam-Flag", "YES")
  }

  /** First matching global filter, else the spam rule, else first matching mailbox filter, else the autoresponder. */
  ghost function Decide(p: Policy, msg: Message): Outcome {
    match FirstMatch(p.global, msg)
    case Some(f) => Outcome([ActionOf(f)], false)
    case None =>
      if p.spam.enabled && IsSpam(msg) then
        Outcome([if p.spam.action == "junk" then FileInto("Junk", true) else Discard], false)
      else
        match FirstMatch(p.filters, msg)
        case Some(f) => Outcome([ActionOf(f)], false)
        case None =>
          if p.auto.enabled then
            Outcome([Vacation(p.auto.days, p.auto.subject, NormalizeNewlines(p.auto.body) + "\n")], true)
          else Outcome([], true)
  }

  // ----- the commands of a script -----

  function ActionCommand(f: Filter): Command {
    if f.action == "fileinto" then Plain("fileinto", [TagArg("create"), Strings([f.destination])], None)
    else if f.action == "redirect" then Plain("redirect", [Strings([f.destination])], None)
    else Plain("discard", [], None)
  }

  const STOP := Plain("stop", [], None)

  function Rule(match_: string, header: string, key: string, action: Command): Command {
    Block("if", [], Some(Test("header", [TagArg(match_), Strings([header]), Strings([key])])), [action, STOP])
  }

  function FilterCommand(f: Filter): Command {
    Rule(f.matchType, HeaderOf(f), f.pattern, ActionCommand(f))
  }

  function FilterCommands(fs: seq<Filter>): seq<Command> {
    if fs == [] then [] else [FilterCommand(fs[0])] + FilterCommands(fs[1..])
  }

  function SpamAction(s: Spam): Command {
    if s.action == "junk" then Plain("fileinto", [TagArg("create"), Strings(["Junk"])], None)
    else Plain("discard", [], None)
  }

  function SpamCommands(s: Spam): seq<Command> {
    if s.enabled then [Rule("is", "X-Spam-Flag", "YES", SpamAction(s))] else []
  }

  function VacationCommands(a: Autoresponder): seq<Command> {
    if !a.enabled then []
    else [Plain("vacation", [TagArg("days"), NumArg(a.days), TagArg("subject"), Strings([a.subject]),
                             Strings([NormalizeNewlines(a.body) + "\n"])], None)]
  }

  function RequireCommands(p: Policy): seq<Command> {
    if Capabilities(p) == [] then [] else [Plain("require", [Strings(Capabilities(p))], None)]
  }

  function BodyCommands(p: Policy): seq<Command> {
    FilterCommands(p.global) + SpamCommands(p.spam) + FilterCommands(p.filters) + VacationCommands(p.auto)
  }

  // ----- parsing -----

  function AddAll(cs: seq<Command>, r: Option<(seq<Command>, seq<Token>)>): Option<(seq<Command>, seq<Token>)> {
    match r
    case None => None
    case Some((ds, rest)) => Some((cs + ds, rest))
  }

  ghost predicate ParsesBefore(ts: seq<Token>, cs: seq<Command>, rest: seq<Token>) {
    ParseCommands(ts + rest) == AddAll(cs, ParseCommands(rest))
  }

  ghost predicate Parses(ts: seq<Token>, cs: seq<Command>) {
    forall rest: seq<Token> :: ParsesBefore(ts, cs, rest)
  }

  lemma AddAllTwice(a: seq<Command>, b: seq<Command>, r: Option<(seq<Command>, seq<Token>)>)
    ensures AddAll(a, AddAll(b, r)) == AddAll(a + b, r)
  {
    if r.Some? {
      assert a + (b + r.value.0) == a + b + r.value.0;
    }
  }

  lemma ParsesCat(s: seq<Token>, a: seq<Command>, t: seq<Token>, b: seq<Command>)
    requires Parses(s, a) && Parses(t, b)
    ensures Parses(s + t, a + b)
  {
    forall rest: seq<Token> ensures ParsesBefore(s + t, a + b, rest) {
      assert s + t + rest == s + (t + rest);
      assert ParsesBefore(s, a, t + rest) && ParsesBefore(t, b, rest);
      AddAllTwice(a, b, ParseCommands(rest));
    }
  }

  lemma ParsesNothing()
    ensures Parses([], [])
  {
    forall rest: seq<Token> ensures ParsesBefore([], [], rest) {
      var none: seq<Token> := [];
      assert none + rest == rest;
      if ParseCommands(rest).Some? {
        assert [] + ParseCommands(rest).value.0 == ParseCommands(rest).value.0;
      }
    }
  }

  /** The tokens of `args` before something that is not an argument. */
  ghost predicate ArgsBefore(ts: seq<Token>, args: seq<Arg>, rest: seq<Token>) {
    ParseArgs(ts + rest) == Some((args, rest))
  }

  predicate NoArg(rest: seq<Token>) {
    rest != [] && !rest[0].Tag? && !rest[0].Num? && !rest[0].Str? && !rest[0].LBracket?
  }

  lemma NoArgs(rest: seq<Token>)
    requires NoArg(rest)
    ensures ArgsBefore([], [], rest)
  {
    var none: seq<Token> := [];
    assert none + rest == rest;
  }

  function SimpleArg(t: Token): Arg
    requires t.Tag? || t.Num? || t.Str?
  {
    match t
    case Tag(name) => TagArg(name)
    case Num(n) => NumArg(n)
    case Str(s) => Strings([s])
  }

  lemma ArgStep(t: Token, ts: seq<Token>, args: seq<Arg>, rest: seq<Token>)
    requires t.Tag? || t.Num? || t.Str?
    requires ArgsBefore(ts, args, rest)
    ensures ArgsBefore([t] + ts, [SimpleArg(t)] + args, rest)
  {
    assert [t] + ts + rest == [t] + (ts + rest);
    assert ([t] + (ts + rest))[1..] == ts + rest;
  }

  function SimpleArgs(ts: seq<Token>): (r: seq<Arg>)
    requires forall i :: 0 <= i < |ts| ==> ts[i].Tag? || ts[i].Num? || ts[i].Str?
    ensures |r| == |ts|
    ensures forall i :: 0 <= i < |ts| ==> r[i] == SimpleArg(ts[i])
  {
    if ts == [] then [] else [SimpleArg(ts[0])] + SimpleArgs(ts[1..])
  }

  lemma {:induction false} ArgSteps(ts: seq<Token>, rest: seq<Token>)
    requires forall i :: 0 <= i < |ts| ==> ts[i].Tag? || ts[i].Num? || ts[i].Str?
    requires NoArg(rest)
    ensures ArgsBefore(ts, SimpleArgs(ts), rest)
  {
    if ts == [] {
      NoArgs(rest);
    } else {
      ArgSteps(ts[1..], rest);
      ArgStep(ts[0], ts[1..], SimpleArgs(ts[1..]), rest);
      assert [ts[0]] + ts[1..] == ts;
    }
  }

  /** A command without a test, closed by a semicolon. */
  lemma PlainParses(name: string, args: seq<Token>)
    requires forall i :: 0 <= i < |args| ==> args[i].Tag? || args[i].Num? || args[i].Str?
    ensures Parses([Ident(name)] + args + [Semicolon], [Plain(name, SimpleArgs(args), None)])
  {
    var ts := [Ident(name)] + args + [Semicolon];
    var c := Plain(name, SimpleArgs(args), None);
    forall rest: seq<Token> ensures ParsesBefore(ts, [c], rest) {
      PlainBefore(name, args, rest);
    }
  }

  lemma PlainBefore(name: string, args: seq<Token>, rest: seq<Token>)
    requires forall i :: 0 <= i < |args| ==> args[i].Tag? || args[i].Num? || args[i].Str?
    ensures ParsesBefore([Ident(name)] + args + [Semicolon], [Plain(name, SimpleArgs(args), None)], rest)
  {
    Regroup([Ident(name)], args, [Semicolon], rest);
    var tail := [Semicolon] + rest;
    ArgSteps(args, tail);
    PlainStep(name, args + tail, SimpleArgs(args), rest);
  }

  lemma Regroup<T>(a: seq<T>, b: seq<T>, c: seq<T>, d: seq<T>)
    ensures a + b + c + d == a + (b + (c + d))
  {
  }

  lemma PlainStep(name: string, ts: seq<Token>, args: seq<Arg>, rest: seq<Token>)
    requires ParseArgs(ts) == Some((args, [Semicolon] + rest))
    ensures ParseCommands([Ident(name)] + ts) == AddAll([Plain(name, args, None)], ParseCommands(rest))
  {
    var all := [Ident(name)] + ts;
    assert all[1..] == ts;
    assert ParseHead(ts) == Some(Head(args, None, [Semicolon] + rest));
    assert ([Semicolon] + rest)[1..] == rest;
  }

  lemma BodyBefore(body: seq<Token>, cs: seq<Command>, rest: seq<Token>)
    requires Parses(body, cs)
    ensures ParseCommands(body + ([RBrace] + rest)) == Some((cs, [RBrace] + rest))
  {
    assert ParsesBefore(body, cs, [RBrace] + rest);
    assert ParseCommands([RBrace] + rest) == Some(([], [RBrace] + rest));
    assert cs + [] == cs;
  }

  lemma RuleHead(m: string, header: string, key: string, tail: seq<Token>)
    requires tail != [] && tail[0] == LBrace
    ensures ParseHead([Ident("header"), Tag(m), Str(header), Str(key)] + tail)
         == Some(Head([], Some(Test("header", [TagArg(m), Strings([header]), Strings([key])])), tail))
  {
    var args := [Tag(m), Str(header), Str(key)];
    var ts := [Ident("header")] + args + tail;
    assert [Ident("header"), Tag(m), Str(header), Str(key)] + tail == ts;
    assert ts[1..] == args + tail;
    ArgSteps(args, tail);
    assert SimpleArgs(args) == [TagArg(m), Strings([header]), Strings([key])];
  }

  lemma RuleParses(m: string, header: string, key: string, action: seq<Token>, c: Command)
    requires Parses(action, [c])
    ensures Parses(RuleTokens(m, header, key, action), [Rule(m, header, key, c)])
  {
    var stop := [Ident("stop"), Semicolon];
    PlainParses("stop", []);
    assert [Ident("stop")] + [] + [Semicolon] == stop;
    ParsesCat(action, [c], stop, [STOP]);
    assert [c] + [STOP] == [c, STOP];
    var body := action + stop;
    var head := [Ident("header"), Tag(m), Str(header), Str(key)];
    var r := Rule(m, header, key, c);
    forall rest: seq<Token> ensures ParsesBefore(RuleTokens(m, header, key, action), [r], rest) {
      var inner := [LBrace] + (body + ([RBrace] + rest));
      assert RuleTokens(m, header, key, action) + rest == [Ident("if")] + (head + inner);
      RuleHead(m, header, key, inner);
      BlockStep("if", head + inner, r.test, body, [c, STOP], rest);
    }
  }

  lemma BlockStep(name: string, ts: seq<Token>, test: Option<Test>, body: seq<Token>, cs: seq<Command>, rest: seq<Token>)
    requires ParseHead(ts) == Some(Head([], test, [LBrace] + (body + ([RBrace] + rest)))) && Parses(body, cs)
    ensures ParseCommands([Ident(name)] + ts) == AddAll([Block(name, [], test, cs)], ParseCommands(rest))
  {
    var all := [Ident(name)] + ts;
    assert all[1..] == ts;
    assert ([LBrace] + (body + ([RBrace] + rest)))[1..] == body + ([RBrace] + rest);
    BodyBefore(body, cs, rest);
    assert ([RBrace] + rest)[1..] == rest;
  }

  lemma ActionParses(f: Filter)
    ensures Parses(ActionTokens(f), [ActionCommand(f)])
  {
    if f.action == "fileinto" {
      FileIntoParses(f.destination);
    } else if f.action == "redirect" {
      var args := [Str(f.destination)];
      PlainParses("redirect", args);
      assert SimpleArgs(args) == [Strings([f.destination])];
      assert [Ident("redirect")] + args + [Semicolon] == ActionTokens(f);
    } else {
      PlainParses("discard", []);
      assert [Ident("discard")] + [] + [Semicolon] == ActionTokens(f);
    }
  }

  lemma FileIntoParses(folder: string)
    ensures Parses([Ident("fileinto"), Tag("create"), Str(folder), Semicolon],
                   [Plain("fileinto", [TagArg("create"), Strings([folder])], None)])
  {
    var args := [Tag("create"), Str(folder)];
    PlainParses("fileinto", args);
    assert SimpleArgs(args) == [TagArg("create"), Strings([folder])];
    assert [Ident("fileinto")] + args + [Semicolon] == [Ident("fileinto"), Tag("create"), Str(folder), Semicolon];
  }

  lemma {:induction false} FiltersParse(fs: seq<Filter>)
    ensures Parses(FiltersTokens(fs), FilterCommands(fs))
  {
    if fs == [] {
      ParsesNothing();
    } else {
      ActionParses(fs[0]);
      RuleParses(fs[0].matchType, HeaderOf(fs[0]), fs[0].pattern, ActionTokens(fs[0]), ActionCommand(fs[0]));
      FiltersParse(fs[1..]);
      ParsesCat(FilterTokens(fs[0]), [FilterCommand(fs[0])], FiltersTokens(fs[1..]), FilterCommands(fs[1..]));
    }
  }

  lemma SpamParses(s: Spam)
    ensures Parses(SpamTokens(s), SpamCommands(s))
  {
    if !s.enabled {
      ParsesNothing();
    } else {
      var tokens := if s.action == "junk" then [Ident("fileinto"), Tag("create"), Str("Junk"), Semicolon]
                    else [Ident("discard"), Semicolon];
      if s.action == "junk" {
        FileIntoParses("Junk");
      } else {
        PlainParses("discard", []);
        assert [Ident("discard")] + [] + [Semicolon] == tokens;
      }
      RuleParses("is", "X-Spam-Flag", "YES", tokens, SpamAction(s));
    }
  }

  lemma VacationParses(a: Autoresponder)
    ensures Parses(VacationTokens(a), VacationCommands(a))
  {
    if !a.enabled {
      ParsesNothing();
    } else {
      var reason := NormalizeNewlines(a.body) + "\n";
      var args := [Tag("days"), Num(a.days), Tag("subject"), Str(a.subject), Str(reason)];
      assert SimpleArgs(args)
          == [TagArg("days"), NumArg(a.days), TagArg("subject"), Strings([a.subject]), Strings([reason])];
      PlainParses("vacation", args);
      assert [Ident("vacation")] + args + [Semicolon] == VacationTokens(a);
    }
  }

  lemma ListStep(name: string, ts: seq<Token>, names: seq<string>, rest: seq<Token>)
    requires ParseList(ts) == Some((names, rest))
    ensures ParseList([Str(name), Comma] + ts) == Some(([name] + names, rest))
  {
    var all := [Str(name), Comma] + ts;
    assert all[0] == Str(name) && all[1] == Comma && all[2..] == ts;
  }

  lemma ListEnd(name: string, rest: seq<Token>)
    ensures ParseList([Str(name)] + ([RBracket] + rest)) == Some(([name], rest))
  {
    var all := [Str(name)] + ([RBracket] + rest);
    assert all[0] == Str(name) && all[1] == RBracket && all[2..] == rest;
  }

  lemma {:induction false} ListParses(names: seq<string>, rest: seq<Token>)
    requires names != []
    ensures ParseList(ListTokens(names) + ([RBracket] + rest)) == Some((names, rest))
  {
    if |names| == 1 {
      ListEnd(names[0], rest);
      assert [names[0]] == names;
    } else {
      var tail := ListTokens(names[1..]);
      ListParses(names[1..], rest);
      ListStep(names[0], tail + ([RBracket] + rest), names[1..], rest);
      assert [Str(names[0]), Comma] + tail + ([RBracket] + rest)
          == [Str(names[0]), Comma] + (tail + ([RBracket] + rest));
      assert [names[0]] + names[1..] == names;
    }
  }

  lemma RequireParses(p: Policy)
    ensures Parses(RequireTokens(p), RequireCommands(p))
  {
    var caps := Capabilities(p);
    if caps == [] {
      ParsesNothing();
    } else {
      forall rest: seq<Token> ensures ParsesBefore(RequireTokens(p), RequireCommands(p), rest) {
        RequireBefore(caps, rest);
      }
    }
  }

  lemma RequireBefore(caps: seq<string>, rest: seq<Token>)
    requires caps != []
    ensures ParsesBefore([Ident("require"), LBracket] + ListTokens(caps) + [RBracket, Semicolon],
                         [Plain("require", [Strings(caps)], None)], rest)
  {
    var after := [Semicolon] + rest;
    RequireArgs(caps, after);
    RequireText(ListTokens(caps), rest);
    PlainStep("require", [LBracket] + (ListTokens(caps) + ([RBracket] + after)), [Strings(caps)], rest);
  }

  lemma RequireText(list: seq<Token>, rest: seq<Token>)
    ensures [Ident("require"), LBracket] + list + [RBracket, Semicolon] + rest
         == [Ident("require")] + ([LBracket] + (list + ([RBracket] + ([Semicolon] + rest))))
  {
  }

  lemma RequireArgs(caps: seq<string>, after: seq<Token>)
    requires caps != [] && NoArg(after)
    ensures ParseArgs([LBracket] + (ListTokens(caps) + ([RBracket] + after))) == Some(([Strings(caps)], after))
  {
    var list := ListTokens(caps) + ([RBracket] + after);
    assert ([LBracket] + list)[1..] == list;
    ListParses(caps, after);
    NoArgs(after);
    var none: seq<Token> := [];
    assert none + after == after;
    assert [Strings(caps)] + [] == [Strings(caps)];
  }

  lemma BodyGroups<T>(a: seq<T>, b: seq<T>, c: seq<T>, d: seq<T>, e: seq<T>)
    ensures a + b + c + d + e == a + (b + c + d + e)
  {
  }

  lemma TokensParse(p: Policy)
    ensures Parses(ScriptTokens(p), RequireCommands(p) + BodyCommands(p))
  {
    RequireParses(p);
    FiltersParse(p.global);
    SpamParses(p.spam);
    FiltersParse(p.filters);
    VacationParses(p.auto);
    var k1, c1 := RequireTokens(p) + FiltersTokens(p.global), RequireCommands(p) + FilterCommands(p.global);
    ParsesCat(RequireTokens(p), RequireCommands(p), FiltersTokens(p.global), FilterCommands(p.global));
    ParsesCat(k1, c1, SpamTokens(p.spam), SpamCommands(p.spam));
    var k2, c2 := k1 + SpamTokens(p.spam), c1 + SpamCommands(p.spam);
    ParsesCat(k2, c2, FiltersTokens(p.filters), FilterCommands(p.filters));
    var k3, c3 := k2 + FiltersTokens(p.filters), c2 + FilterCommands(p.filters);
    ParsesCat(k3, c3, VacationTokens(p.auto), VacationCommands(p.auto));
    BodyGroups(RequireCommands(p), FilterCommands(p.global), SpamCommands(p.spam), FilterCommands(p.filters),
               VacationCommands(p.auto));
  }

  lemma ParsesAll(ts: seq<Token>, cs: seq<Command>)
    requires Parses(ts, cs)
    ensures ParseCommands(ts) == Some((cs, []))
  {
    assert ParsesBefore(ts, cs, []);
    assert ts + [] == ts && cs + [] == cs;
  }

  /** The generated text is a script of exactly these commands. */
  lemma ScriptParses(p: Policy)
    requires Normalized(p)
    ensures Parse(Join(ScriptLines(p), "\n") + "\n") == Some(RequireCommands(p) + BodyCommands(p))
  {
    ScriptSpells(p);
    TokensParse(p);
    ParsesAll(ScriptTokens(p), RequireCommands(p) + BodyCommands(p));
  }
}
