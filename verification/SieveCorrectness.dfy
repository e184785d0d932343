/** The compiler theorem: a generated script decides every message as its policy does. */
module SieveCorrectness {
  import opened Text
  import opened SieveLanguage
  import opened SieveCompiler
  import opened SieveMeaning

  // ----- when generation succeeds -----

  lemma ClassQuotable(s: string, extra: string, limit: nat)
    requires InClass(s, extra) && |s| <= limit && NUL !in extra && '\r' !in extra && '\n' !in extra
    ensures Quotable(s, limit)
  {
  }

  lemma LocalCharsClean()
    ensures NUL !in LOCAL_CHARS && '\r' !in LOCAL_CHARS && '\n' !in LOCAL_CHARS
  {
  }

  lemma QuotableCat(a: string, b: string, m: nat, n: nat)
    requires Quotable(a, m) && Quotable(b, n)
    ensures Quotable(a + b, m + n)
  {
  }

  lemma DestinationQuotable(s: string)
    requires DestinationOk(s)
    ensures Quotable(s, 320)
  {
    var i :| 1 <= i <= 64 && i < |s| && s[i] == '@'
      && InClass(s[..i], LOCAL_CHARS) && 1 <= |s| - i - 1 <= 253 && InClass(s[i + 1..], ".-");
    LocalCharsClean();
    ClassQuotable(s[..i], LOCAL_CHARS, 64);
    ClassQuotable(s[i + 1..], ".-", 253);
    QuotableCat(s[..i], "@", 64, 1);
    QuotableCat(s[..i] + "@", s[i + 1..], 65, 253);
    assert s == s[..i] + "@" + s[i + 1..];
  }

  lemma NormalizedFilterQuotable(f: Filter, global: bool)
    requires FilterOk(f, global)
    ensures FilterQuotable(f)
  {
    if f.action == "fileinto" {
      ClassQuotable(f.destination, " ._-", 64);
    }
    if f.action == "redirect" {
      DestinationQuotable(f.destination);
    }
    if global && f.field == "header" {
      ClassQuotable(HeaderOf(f), "-", 64);
    }
  }

  /** For a normalised policy generation fails exactly when an enabled autoresponder's subject has a line feed. */
  lemma BuildFailsExactly(p: Policy)
    requires Normalized(p)
    ensures BuildScript(p).None? <==> p.auto.enabled && '\n' in p.auto.subject
  {
    forall f | f in p.global ensures FilterQuotable(f) {
      NormalizedFilterQuotable(f, true);
    }
    forall f | f in p.filters ensures FilterQuotable(f) {
      NormalizedFilterQuotable(f, false);
    }
  }

  // ----- capabilities -----

  ghost function Caps(p: Policy): set<string> {
    set s | s in Capabilities(p)
  }

  lemma {:induction false} UsedCat(a: seq<Command>, b: seq<Command>)
    ensures Used(a + b) == Used(a) + Used(b)
  {
    if a == [] {
      assert a + b == b;
    } else {
      assert (a + b)[1..] == a[1..] + b;
      UsedCat(a[1..], b);
    }
  }

  lemma UsedRule(m: string, header: string, key: string, action: Command)
    requires action.Plain?
    ensures Used([Rule(m, header, key, action)]) == UsedBy(action)
  {
    var r := Rule(m, header, key, action);
    assert [r][1..] == [];
    assert [action, STOP][1..] == [STOP] && [STOP][1..] == [];
    assert Used([STOP]) == {};
    assert Used([action, STOP]) == UsedBy(action);
  }

  lemma {:induction false} UsedFilters(fs: seq<Filter>)
    requires forall f :: f in fs ==> f.action in ACTIONS
    ensures Used(FilterCommands(fs)) == if Files(fs) then {"fileinto", "mailbox"} else {}
  {
    if fs != [] {
      var c := FilterCommand(fs[0]);
      UsedFilters(fs[1..]);
      UsedCat([c], FilterCommands(fs[1..]));
      UsedRule(fs[0].matchType, HeaderOf(fs[0]), fs[0].pattern, ActionCommand(fs[0]));
      FilesConcat([fs[0]], fs[1..]);
      assert [fs[0]] + fs[1..] == fs;
      if fs[0].action == "fileinto" {
        assert [fs[0]][0].action == "fileinto";
        assert ActionCommand(fs[0]).args[0] == TagArg("create");
      }
    }
  }

  lemma UsedTail(p: Policy)
    ensures Used(SpamCommands(p.spam)) == if p.spam.enabled && p.spam.action == "junk" then {"fileinto", "mailbox"} else {}
    ensures Used(VacationCommands(p.auto)) == if p.auto.enabled then {"vacation"} else {}
  {
    if p.spam.enabled {
      UsedRule("is", "X-Spam-Flag", "YES", SpamAction(p.spam));
      if p.spam.action == "junk" {
        assert SpamAction(p.spam).args[0] == TagArg("create");
      }
    }
    if p.auto.enabled {
      assert VacationCommands(p.auto)[1..] == [];
    }
  }

  lemma UsedBody(p: Policy)
    requires Sane(p)
    ensures Used(BodyCommands(p)) == Caps(p)
  {
    UsedFilters(p.global);
    UsedFilters(p.filters);
    UsedTail(p);
    UsedFour(FilterCommands(p.global), SpamCommands(p.spam), FilterCommands(p.filters), VacationCommands(p.auto));
    CapsAre(p);
  }

  lemma UsedFour(a: seq<Command>, b: seq<Command>, c: seq<Command>, d: seq<Command>)
    ensures Used(a + b + c + d) == Used(a) + Used(b) + Used(c) + Used(d)
  {
    UsedCat(a, b);
    UsedCat(a + b, c);
    UsedCat(a + b + c, d);
  }

  predicate NeedsFileInto(p: Policy) {
    Files(p.global) || Files(p.filters) || (p.spam.enabled && p.spam.action == "junk")
  }

  lemma CapsAre(p: Policy)
    ensures Caps(p) == (if NeedsFileInto(p) then {"fileinto", "mailbox"} else {})
                       + (if p.auto.enabled then {"vacation"} else {})
  {
    var caps := Capabilities(p);
    if NeedsFileInto(p) {
      assert caps[0] == "fileinto" && caps[1] == "mailbox";
    }
    if p.auto.enabled {
      assert caps[|caps| - 1] == "vacation";
    }
  }

  /** The part of being normalised that execution depends on. */
  ghost predicate Sane(p: Policy) {
    && (forall f :: f in p.global ==> f.matchType in MATCHES && f.action in ACTIONS)
    && (forall f :: f in p.filters ==> f.matchType in MATCHES && f.action in ACTIONS)
    && p.spam.action in {"junk", "discard"}
  }

  lemma NormalizedSane(p: Policy)
    requires Normalized(p)
    ensures Sane(p)
  {
  }

  /** The required capabilities are exactly the ones the rest of the script uses: none is missing and none is extra. */
  lemma RequiredIsUsed(p: Policy)
    requires Normalized(p)
    ensures Required(RequireCommands(p) + BodyCommands(p)) == (Caps(p), BodyCommands(p))
    ensures Caps(p) == Used(BodyCommands(p)) <= EXTENSIONS
  {
    NormalizedSane(p);
    UsedBody(p);
    CapsAre(p);
    BodyStart(p);
    RequireSplit(Capabilities(p), BodyCommands(p));
  }

  lemma BodyStart(p: Policy)
    ensures BodyCommands(p) == [] || !IsRequire(BodyCommands(p)[0])
  {
  }

  lemma RequireSplit(caps: seq<string>, body: seq<Command>)
    requires body == [] || !IsRequire(body[0])
    ensures Required((if caps == [] then [] else [Plain("require", [Strings(caps)], None)]) + body)
         == ((set s | s in caps), body)
  {
    if caps == [] {
      assert [] + body == body;
      assert (set s | s in caps) == {};
    } else {
      var all := [Plain("require", [Strings(caps)], None)] + body;
      assert all[1..] == body;
      assert {} + (set s | s in caps) == set s | s in caps;
    }
  }

  // ----- execution -----

  lemma {:induction false} ExecCat(a: seq<Command>, b: seq<Command>, caps: set<string>, msg: Message, o: Outcome)
    ensures Exec(a + b, caps, msg, o)
         == var r := Exec(a, caps, msg, o); if r.Going? then Exec(b, caps, msg, r.outcome) else r
    decreases |a|
  {
    if a == [] {
      assert a + b == b;
    } else {
      assert (a + b)[1..] == a[1..] + b;
      var r := ExecOne(a[0], caps, msg, o);
      if r.Going? {
        ExecCat(a[1..], b, caps, msg, r.outcome);
      }
    }
  }

  lemma HeaderTestOne(m: string, name: string, key: string, msg: Message)
    ensures HeaderTest(m, [name], [key], msg)
        <==> exists i :: 0 <= i < |msg.headers| && Lower(msg.headers[i].name) == Lower(name)
               && ValueMatches(m, msg.headers[i].value, key)
  {
    if i :| 0 <= i < |msg.headers| && Lower(msg.headers[i].name) == Lower(name)
            && ValueMatches(m, msg.headers[i].value, key) {
      assert Lower(msg.headers[i].name) == Lower([name][0]) && ValueMatches(m, msg.headers[i].value, [key][0]);
    }
  }

  lemma HeaderIsTest(name: string, key: string, msg: Message)
    ensures HeaderTest("is", [name], [key], msg) <==> HeaderIs(msg, name, key)
  {
    HeaderTestOne("is", name, key, msg);
    if HeaderIs(msg, name, key) {
      var i :| 0 <= i < |msg.headers|
        && Lower(msg.headers[i].name) == Lower(name) && Lower(msg.headers[i].value) == Lower(key);
      assert ValueMatches("is", msg.headers[i].value, key);
    }
  }

  lemma ExecPair(action: Command, caps: set<string>, msg: Message, o: Outcome)
    requires action.name != "if" && ExecPlain(action, caps, o).Going?
    ensures Exec([action, STOP], caps, msg, o) == Stopped(ExecPlain(action, caps, o).outcome)
  {
    var two := [action, STOP];
    var next := ExecPlain(action, caps, o).outcome;
    assert two[0] == action && two[1..] == [STOP];
    assert ExecOne(STOP, caps, msg, next) == Stopped(next);
    assert Exec([STOP], caps, msg, next) == Stopped(next);
  }

  lemma ExecRule(m: string, header: string, key: string, action: Command, caps: set<string>, msg: Message, o: Outcome)
    requires m in MATCHES && action.name != "if" && ExecPlain(action, caps, o).Going?
    ensures ExecOne(Rule(m, header, key, action), caps, msg, o)
         == if HeaderTest(m, [header], [key], msg) then Stopped(ExecPlain(action, caps, o).outcome) else Going(o)
  {
    var r := Rule(m, header, key, action);
    assert Eval(r.test.value, msg) == Some(HeaderTest(m, [header], [key], msg));
    ExecPair(action, caps, msg, o);
  }

  lemma {:induction false} ExecFilters(fs: seq<Filter>, caps: set<string>, msg: Message, o: Outcome)
    requires forall f :: f in fs ==> f.matchType in MATCHES && f.action in ACTIONS
    requires Files(fs) ==> {"fileinto", "mailbox"} <= caps
    ensures Exec(FilterCommands(fs), caps, msg, o)
         == match FirstMatch(fs, msg)
            case None => Going(o)
            case Some(f) => Stopped(Outcome(o.actions + [ActionOf(f)], false))
  {
    if fs != [] {
      var f := fs[0];
      FilesConcat([f], fs[1..]);
      assert [f] + fs[1..] == fs;
      if f.action == "fileinto" {
        assert [f][0].action == "fileinto";
      }
      ExecAction(f, caps, o);
      ExecRule(f.matchType, HeaderOf(f), f.pattern, ActionCommand(f), caps, msg, o);
      HeaderTestOne(f.matchType, HeaderOf(f), f.pattern, msg);
      ExecFilters(fs[1..], caps, msg, o);
      assert FilterCommands(fs)[1..] == FilterCommands(fs[1..]);
    }
  }

  lemma ExecAction(f: Filter, caps: set<string>, o: Outcome)
    requires f.action in ACTIONS && (f.action == "fileinto" ==> {"fileinto", "mailbox"} <= caps)
    ensures ExecPlain(ActionCommand(f), caps, o) == Going(Outcome(o.actions + [ActionOf(f)], false))
  {
    assert {"fileinto", "mailbox"} <= caps ==> "fileinto" in caps && "mailbox" in caps;
  }

  lemma ExecSpam(s: Spam, caps: set<string>, msg: Message, o: Outcome)
    requires s.action in {"junk", "discard"}
    requires s.enabled && s.action == "junk" ==> "fileinto" in caps && "mailbox" in caps
    ensures Exec(SpamCommands(s), caps, msg, o)
         == if s.enabled && IsSpam(msg) then
              Stopped(Outcome(o.actions + [if s.action == "junk" then FileInto("Junk", true) else Discard], false))
            else Going(o)
  {
    if s.enabled {
      SpamPlain(s, caps, o);
      HeaderIsTest("X-Spam-Flag", "YES", msg);
      ExecSingle(Rule("is", "X-Spam-Flag", "YES", SpamAction(s)), caps, msg, o);
      ExecRule("is", "X-Spam-Flag", "YES", SpamAction(s), caps, msg, o);
    }
  }

  lemma ExecSingle(c: Command, caps: set<string>, msg: Message, o: Outcome)
    ensures Exec([c], caps, msg, o) == ExecOne(c, caps, msg, o)
  {
    assert [c][1..] == [];
  }

  lemma SpamPlain(s: Spam, caps: set<string>, o: Outcome)
    requires s.action == "junk" ==> "fileinto" in caps && "mailbox" in caps
    ensures ExecPlain(SpamAction(s), caps, o)
         == Going(Outcome(o.actions + [if s.action == "junk" then FileInto("Junk", true) else Discard], false))
  {
  }

  lemma ExecVacation(a: Autoresponder, caps: set<string>, msg: Message, o: Outcome)
    requires a.enabled ==> "vacation" in caps
    ensures Exec(VacationCommands(a), caps, msg, o)
         == Going(if a.enabled
                  then o.(actions := o.actions + [Vacation(a.days, a.subject, NormalizeNewlines(a.body) + "\n")])
                  else o)
  {
    if a.enabled {
      assert VacationCommands(a)[1..] == [];
    }
  }

  lemma ExecFour(a: seq<Command>, b: seq<Command>, c: seq<Command>, d: seq<Command>, caps: set<string>, msg: Message,
                 o: Outcome)
    ensures Exec(a + b + c + d, caps, msg, o) == Then(d, caps, msg, Then(c, caps, msg, Then(b, caps, msg, Exec(a, caps, msg, o))))
  {
    ExecCat(a, b, caps, msg, o);
    ExecCat(a + b, c, caps, msg, o);
    ExecCat(a + b + c, d, caps, msg, o);
  }

  ghost function Then(cs: seq<Command>, caps: set<string>, msg: Message, r: Result): Result {
    if r.Going? then Exec(cs, caps, msg, r.outcome) else r
  }

  lemma BodyDecides(p: Policy, msg: Message)
    requires Sane(p)
    ensures var r := Exec(BodyCommands(p), Caps(p), msg, EMPTY); !r.Fault? && r.outcome == Decide(p, msg)
  {
    var caps := Caps(p);
    CapsAre(p);
    ExecFour(FilterCommands(p.global), SpamCommands(p.spam), FilterCommands(p.filters), VacationCommands(p.auto),
             caps, msg, EMPTY);
    ExecFilters(p.global, caps, msg, EMPTY);
    ExecSpam(p.spam, caps, msg, EMPTY);
    ExecFilters(p.filters, caps, msg, EMPTY);
    ExecVacation(p.auto, caps, msg, EMPTY);
  }

  /** Every script generated from a normalised policy compiles and decides every message as the policy says. */
  lemma CompilerCorrect(p: Policy, msg: Message)
    requires Normalized(p) && BuildScript(p).Some?
    ensures Run(BuildScript(p).value, msg) == Some(Decide(p, msg))
  {
    ScriptParses(p);
    RequiredIsUsed(p);
    NormalizedSane(p);
    BodyDecides(p, msg);
  }

  // ----- filter order -----

  /** Filter i matches, and every other matching filter has a later priority, or the same and comes later in the list. */
  ghost predicate Wins(fs: seq<Filter>, i: nat, msg: Message) {
    && i < |fs| && FilterMatches(fs[i], msg)
    && forall j :: 0 <= j < |fs| && FilterMatches(fs[j], msg) ==>
         fs[i].priority < fs[j].priority || (fs[i].priority == fs[j].priority && i <= j)
  }

  ghost predicate SortedByPriority(fs: seq<Filter>) {
    forall i, j :: 0 <= i < j < |fs| ==> fs[i].priority <= fs[j].priority
  }

  lemma MultisetSnoc<T>(front: seq<T>, last: T)
    ensures multiset(front + [last]) == multiset(front) + multiset{last}
  {
  }

  lemma {:induction false} InsertMembers(sorted: seq<Filter>, f: Filter)
    ensures multiset(Insert(sorted, f)) == multiset(sorted) + multiset{f}
  {
    if sorted == [] || sorted[|sorted| - 1].priority <= f.priority {
      MultisetSnoc(sorted, f);
      assert sorted == [] ==> sorted + [f] == [f];
    } else {
      var front, last := sorted[..|sorted| - 1], sorted[|sorted| - 1];
      InsertMembers(front, f);
      MultisetSnoc(front, last);
      MultisetSnoc(Insert(front, f), last);
      assert sorted == front + [last];
    }
  }

  lemma {:induction false} InsertSorted(sorted: seq<Filter>, f: Filter)
    requires SortedByPriority(sorted)
    ensures SortedByPriority(Insert(sorted, f))
  {
    if sorted != [] && sorted[|sorted| - 1].priority > f.priority {
      var front, last := sorted[..|sorted| - 1], sorted[|sorted| - 1];
      InsertSorted(front, f);
      InsertMembers(front, f);
      var r := Insert(front, f);
      forall i | 0 <= i < |r| ensures r[i].priority <= last.priority {
        assert r[i] in multiset(r);
        if r[i] != f {
          assert r[i] in front;
          var j :| 0 <= j < |front| && front[j] == r[i];
          assert sorted[j] == r[i];
        }
      }
    }
  }

  lemma {:induction false} SortMembers(fs: seq<Filter>)
    ensures multiset(StableSort(fs)) == multiset(fs)
  {
    if fs != [] {
      var front, last := fs[..|fs| - 1], fs[|fs| - 1];
      var sorted := StableSort(front);
      SortMembers(front);
      InsertMembers(sorted, last);
      MultisetSnoc(front, last);
      assert front + [last] == fs;
    }
  }

  lemma {:induction false} SortSorted(fs: seq<Filter>)
    ensures SortedByPriority(StableSort(fs))
  {
    if fs != [] {
      SortSorted(fs[..|fs| - 1]);
      InsertSorted(StableSort(fs[..|fs| - 1]), fs[|fs| - 1]);
    }
  }

  /** Sorting rearranges the filters by priority. */
  lemma SortIsPermutation(fs: seq<Filter>)
    ensures SortedByPriority(StableSort(fs)) && multiset(StableSort(fs)) == multiset(fs)
  {
    SortSorted(fs);
    SortMembers(fs);
  }

  lemma {:induction false} FirstMatchSnoc(fs: seq<Filter>, f: Filter, msg: Message)
    ensures FirstMatch(fs + [f], msg)
         == if FirstMatch(fs, msg).Some? then FirstMatch(fs, msg)
            else if FilterMatches(f, msg) then Some(f) else None
  {
    if fs == [] {
      assert fs + [f] == [f] && [f][1..] == [];
    } else {
      assert (fs + [f])[1..] == fs[1..] + [f];
      FirstMatchSnoc(fs[1..], f, msg);
    }
  }

  lemma {:induction false} FirstMatchIn(fs: seq<Filter>, msg: Message)
    ensures FirstMatch(fs, msg).Some? ==> FirstMatch(fs, msg).value in fs && FilterMatches(FirstMatch(fs, msg).value, msg)
  {
    if fs != [] {
      FirstMatchIn(fs[1..], msg);
    }
  }

  /** The newcomer wins a sorted list only with a strictly smaller priority. */
  lemma {:induction false} FirstMatchInsert(sorted: seq<Filter>, f: Filter, msg: Message)
    requires SortedByPriority(sorted)
    ensures FirstMatch(Insert(sorted, f), msg)
         == match FirstMatch(sorted, msg)
            case None => if FilterMatches(f, msg) then Some(f) else None
            case Some(g) => if FilterMatches(f, msg) && f.priority < g.priority then Some(f) else Some(g)
  {
    if sorted == [] {
      FirstMatchSnoc([], f, msg);
      assert [] + [f] == [f];
    } else {
      var front, last := sorted[..|sorted| - 1], sorted[|sorted| - 1];
      assert sorted == front + [last];
      FirstMatchSnoc(front, last, msg);
      FirstMatchIn(sorted, msg);
      if last.priority <= f.priority {
        FirstMatchSnoc(sorted, f, msg);
        if FirstMatch(sorted, msg).Some? {
          var i :| 0 <= i < |sorted| && sorted[i] == FirstMatch(sorted, msg).value;
        }
      } else {
        FirstMatchInsert(front, f, msg);
        FirstMatchSnoc(Insert(front, f), last, msg);
      }
    }
  }

  ghost predicate NoneMatches(fs: seq<Filter>, msg: Message) {
    forall j :: 0 <= j < |fs| ==> !FilterMatches(fs[j], msg)
  }

  lemma NewcomerFirst(front: seq<Filter>, last: Filter, msg: Message)
    requires NoneMatches(front, msg)
    ensures FilterMatches(last, msg) ==> Wins(front + [last], |front|, msg)
    ensures !FilterMatches(last, msg) ==> NoneMatches(front + [last], msg)
  {
    var fs := front + [last];
    forall j | 0 <= j < |front| ensures !FilterMatches(fs[j], msg) {
      assert fs[j] == front[j];
    }
  }

  lemma NewcomerLater(front: seq<Filter>, last: Filter, i: nat, msg: Message)
    requires Wins(front, i, msg)
    ensures FilterMatches(last, msg) && last.priority < front[i].priority ==> Wins(front + [last], |front|, msg)
    ensures !(FilterMatches(last, msg) && last.priority < front[i].priority) ==> Wins(front + [last], i, msg)
  {
    var fs := front + [last];
    assert fs[i] == front[i];
    forall j | 0 <= j < |front| && FilterMatches(fs[j], msg)
      ensures front[i].priority < fs[j].priority || (front[i].priority == fs[j].priority && i <= j)
    {
      assert fs[j] == front[j];
    }
  }

  /** The filter a script applies is the one that wins in the order the user gave. */
  lemma {:induction false} PriorityOrder(fs: seq<Filter>, msg: Message) returns (i: nat)
    ensures FirstMatch(StableSort(fs), msg).None? ==> NoneMatches(fs, msg)
    ensures FirstMatch(StableSort(fs), msg).Some? ==> Wins(fs, i, msg) && FirstMatch(StableSort(fs), msg).value == fs[i]
  {
    i := 0;
    if fs != [] {
      var front, last := fs[..|fs| - 1], fs[|fs| - 1];
      SortIsPermutation(front);
      i := PriorityOrder(front, msg);
      FirstMatchInsert(StableSort(front), last, msg);
      assert fs == front + [last];
      if FirstMatch(StableSort(front), msg).None? {
        NewcomerFirst(front, last, msg);
        i := |front|;
      } else {
        NewcomerLater(front, last, i, msg);
        i := if FilterMatches(last, msg) && last.priority < front[i].priority then |front| else i;
      }
    }
  }

  lemma {:induction false} CollectOk(raw: seq<RawItem>, global: bool)
    requires Collect(raw, global).Some?
    ensures forall f :: f in Collect(raw, global).value ==> FilterOk(f, global)
  {
    if raw != [] {
      CollectOk(raw[..|raw| - 1], global);
    }
  }

  /** Whatever list of items is accepted, the result is a list the generator accepts. */
  lemma NormalizeOk(raw: seq<RawItem>, global: bool)
    requires NormalizeFilters(raw, global).Some?
    ensures forall f :: f in NormalizeFilters(raw, global).value ==> FilterOk(f, global)
    ensures SortedByPriority(NormalizeFilters(raw, global).value)
  {
    CollectOk(raw, global);
    var fs := Collect(raw, global).value;
    SortIsPermutation(fs);
    forall f | f in StableSort(fs) ensures f in fs {
      assert f in multiset(StableSort(fs));
    }
  }

  ghost predicate WonBy(fs: seq<Filter>, msg: Message, action: Action) {
    exists i: nat :: Wins(fs, i, msg) && action == ActionOf(fs[i])
  }

  /** The outcome described on the items as the user listed them: the winning filter of each list, not the sorted lists. */
  ghost predicate Intended(global: seq<Filter>, filters: seq<Filter>, spam: Spam, auto: Autoresponder, msg: Message,
                           o: Outcome)
  {
    if !NoneMatches(global, msg) then |o.actions| == 1 && !o.keep && WonBy(global, msg, o.actions[0])
    else if spam.enabled && IsSpam(msg) then
      o == Outcome([if spam.action == "junk" then FileInto("Junk", true) else Discard], false)
    else if !NoneMatches(filters, msg) then |o.actions| == 1 && !o.keep && WonBy(filters, msg, o.actions[0])
    else if auto.enabled then
      o == Outcome([Vacation(auto.days, auto.subject, NormalizeNewlines(auto.body) + "\n")], true)
    else o == Outcome([], true)
  }

  lemma DecideIsIntended(global: seq<Filter>, filters: seq<Filter>, spam: Spam, auto: Autoresponder, msg: Message)
    ensures Intended(global, filters, spam, auto, msg,
                     Decide(Policy(StableSort(global), StableSort(filters), spam, auto), msg))
  {
    var i := PriorityOrder(global, msg);
    var j := PriorityOrder(filters, msg);
  }

  /** A request as the agent receives it: two lists of items, the spam policy and the automatic reply. */
  datatype Request = Request(
    global: seq<RawItem>,
    filters: seq<RawItem>,
    spamEnabled: bool,
    spamAction: string,
    autoEnabled: bool,
    subject: string,
    body: string,
    days: Option<int>)

  /** The policy of a request, or None where one of its parts is refused. */
  function PolicyOf(r: Request): Option<Policy> {
    var global, filters := NormalizeFilters(r.global, true), NormalizeFilters(r.filters, false);
    var spam, auto := NormalizeSpam(r.spamEnabled, r.spamAction), NormalizeAuto(r.autoEnabled, r.subject, r.body, r.days);
    if global.None? || filters.None? || spam.None? || auto.None? then None
    else Some(Policy(global.value, filters.value, spam.value, auto.value))
  }

  /** From the raw request to delivery: what an accepted request's script does with any message. */
  lemma RequestsAreHonoured(r: Request, msg: Message)
    requires PolicyOf(r).Some?
    ensures var p := PolicyOf(r).value;
            var script := BuildScript(p);
            && (script.Some? <==> (r.autoEnabled ==> '\n' !in Strip(r.subject)))
            && (script.Some? ==>
                  Run(script.value, msg).Some?
                  && Intended(Collect(r.global, true).value, Collect(r.filters, false).value, p.spam, p.auto, msg,
                              Run(script.value, msg).value))
  {
    var p := PolicyOf(r).value;
    NormalizeOk(r.global, true);
    NormalizeOk(r.filters, false);
    assert Normalized(p);
    BuildFailsExactly(p);
    if BuildScript(p).Some? {
      CompilerCorrect(p, msg);
      DecideIsIntended(Collect(r.global, true).value, Collect(r.filters, false).value, p.spam, p.auto, msg);
    }
  }
}
