/**
 * The part of Sieve (RFC 5228, with vacation of RFC 5230 and mailbox of RFC 5490) that generated scripts use:
 * a lexer over characters, a parser for the generic command grammar, and an interpreter.
 * Lines end in a line feed, as the agent writes them.
 */
module SieveLanguage {
  import opened Text

  // ----- lexical structure: section 8.1 of RFC 5228 -----

  datatype Token =
    | Ident(name: string)
    | Tag(name: string)
    | Num(n: nat)
    | Str(s: string)
    | LBracket | RBracket | LBrace | RBrace | Comma | Semicolon

  datatype Lexed = Got(token: Token, rest: string) | Done | Bad

  predicate IsIdentStart(c: char) {
    IsLetter(c) || c == '_'
  }

  predicate IsIdentChar(c: char) {
    IsIdentStart(c) || IsDigit(c)
  }

  function IdentEnd(s: string): (n: nat)
    ensures n <= |s| && forall i :: 0 <= i < n ==> IsIdentChar(s[i])
  {
    if s != "" && IsIdentChar(s[0]) then 1 + IdentEnd(s[1..]) else 0
  }

  function DigitEnd(s: string): (n: nat)
    ensures n <= |s| && forall i :: 0 <= i < n ==> IsDigit(s[i])
  {
    if s != "" && IsDigit(s[0]) then 1 + DigitEnd(s[1..]) else 0
  }

  /** What follows the first line feed. */
  function AfterLine(s: string): (r: string)
    ensures |r| <= |s| && (s != "" ==> |r| < |s|)
  {
    if s == "" then "" else if s[0] == '\n' then s[1..] else AfterLine(s[1..])
  }

  /** A quoted string after its opening quote: its value and what follows the closing quote. */
  function LexQuoted(s: string): (r: Option<(string, string)>)
    ensures r.Some? ==> |r.value.1| < |s|
  {
    if s == "" then None
    else if s[0] == '"' then Some(("", s[1..]))
    else if s[0] == '\\' then
      if |s| == 1 then None
      else
        match LexQuoted(s[2..])
        case None => None
        case Some((v, rest)) => Some(([s[1]] + v, rest))
    else
      match LexQuoted(s[1..])
      case None => None
      case Some((v, rest)) => Some(([s[0]] + v, rest))
  }

  /** Section 2.4.2: a leading dot that is followed by another is dropped. */
  function Unstuff(line: string): string {
    if StartsWith(line, "..") then line[1..] else line
  }

  function LineEnd(s: string): (n: nat)
    ensures n <= |s|
    ensures n < |s| ==> s[n] == '\n'
    ensures '\n' !in s[..n]
  {
    if s == "" || s[0] == '\n' then 0 else 1 + LineEnd(s[1..])
  }

  /** The lines of a multi-line string up to the line that is a single dot. */
  function LexLines(s: string): (r: Option<(string, string)>)
    ensures r.Some? ==> |r.value.1| < |s|
    decreases |s|
  {
    var n := LineEnd(s);
    if n == |s| then None
    else if s[..n] == "." then Some(("", s[n + 1..]))
    else
      match LexLines(s[n + 1..])
      case None => None
      case Some((v, rest)) => Some((Unstuff(s[..n]) + "\n" + v, rest))
  }

  /** After `text:`: blanks, an optional comment, a line end, and the lines. */
  function LexMultiline(s: string): (r: Option<(string, string)>)
    ensures r.Some? ==> |r.value.1| < |s|
  {
    if s == "" then None
    else if s[0] == ' ' || s[0] == '\t' then LexMultiline(s[1..])
    else if s[0] == '#' then LexLines(AfterLine(s))
    else if s[0] == '\n' then LexLines(s[1..])
    else None
  }

  function Punctuation(c: char): Option<Token> {
    if c == '[' then Some(LBracket) else if c == ']' then Some(RBracket)
    else if c == '{' then Some(LBrace) else if c == '}' then Some(RBrace)
    else if c == ',' then Some(Comma) else if c == ';' then Some(Semicolon)
    else None
  }

  function LexWord(s: string): (r: Lexed)
    requires s != "" && IsIdentStart(s[0])
    ensures r.Got? ==> |r.rest| < |s|
  {
    var n := IdentEnd(s);
    if Lower(s[..n]) == "text" && n < |s| && s[n] == ':' then
      match LexMultiline(s[n + 1..])
      case None => Bad
      case Some((v, rest)) => Got(Str(v), rest)
    else Got(Ident(Lower(s[..n])), s[n..])
  }

  function LexOne(s: string): (r: Lexed)
    ensures r.Got? ==> |r.rest| < |s|
    decreases |s|
  {
    if s == "" then Done
    else if s[0] in " \t\r\n" then LexOne(s[1..])
    else if s[0] == '#' then LexOne(AfterLine(s))
    else if s[0] == '"' then
      match LexQuoted(s[1..])
      case None => Bad
      case Some((v, rest)) => Got(Str(v), rest)
    else if Punctuation(s[0]).Some? then Got(Punctuation(s[0]).value, s[1..])
    else if s[0] == ':' then
      if |s| > 1 && IsIdentStart(s[1]) then
        var n := IdentEnd(s[1..]);
        Got(Tag(Lower(s[1..][..n])), s[1..][n..])
      else Bad
    else if IsDigit(s[0]) then
      var n := DigitEnd(s);
      Got(Num(Number(s[..n])), s[n..])
    else if IsIdentStart(s[0]) then LexWord(s)
    else Bad
  }

  function Prepend<T>(front: seq<T>, rest: Option<seq<T>>): Option<seq<T>> {
    match rest
    case None => None
    case Some(ts) => Some(front + ts)
  }

  function Lex(s: string): Option<seq<Token>>
    decreases |s|
  {
    match LexOne(s)
    case Bad => None
    case Done => Some([])
    case Got(t, rest) => Prepend([t], Lex(rest))
  }

  // ----- grammar: section 8.2 of RFC 5228 -----

  datatype Arg = TagArg(name: string) | NumArg(n: nat) | Strings(values: seq<string>)

  datatype Test = Test(name: string, args: seq<Arg>)

  datatype Command =
    | Plain(name: string, args: seq<Arg>, test: Option<Test>)
    | Block(name: string, args: seq<Arg>, test: Option<Test>, body: seq<Command>)

  /** The strings of a bracketed list after its opening bracket. */
  function ParseList(ts: seq<Token>): (r: Option<(seq<string>, seq<Token>)>)
    ensures r.Some? ==> |r.value.1| < |ts|
  {
    if |ts| < 2 || !ts[0].Str? then None
    else if ts[1] == RBracket then Some(([ts[0].s], ts[2..]))
    else if ts[1] == Comma then
      match ParseList(ts[2..])
      case None => None
      case Some((ss, rest)) => Some(([ts[0].s] + ss, rest))
    else None
  }

  function AddArg(a: Arg, r: Option<(seq<Arg>, seq<Token>)>): Option<(seq<Arg>, seq<Token>)> {
    match r
    case None => None
    case Some((args, rest)) => Some(([a] + args, rest))
  }

  function ParseArgs(ts: seq<Token>): (r: Option<(seq<Arg>, seq<Token>)>)
    ensures r.Some? ==> |r.value.1| <= |ts|
    decreases |ts|
  {
    if ts == [] then Some(([], ts))
    else
      match ts[0]
      case Tag(name) => AddArg(TagArg(name), ParseArgs(ts[1..]))
      case Num(n) => AddArg(NumArg(n), ParseArgs(ts[1..]))
      case Str(s) => AddArg(Strings([s]), ParseArgs(ts[1..]))
      case LBracket =>
        (match ParseList(ts[1..])
         case None => None
         case Some((ss, rest)) => AddArg(Strings(ss), ParseArgs(rest)))
      case _ => Some(([], ts))
  }

  datatype Head = Head(args: seq<Arg>, test: Option<Test>, rest: seq<Token>)

  /** The arguments of a command and the test that may follow them. */
  function ParseHead(ts: seq<Token>): (r: Option<Head>)
    ensures r.Some? ==> |r.value.rest| <= |ts|
  {
    match ParseArgs(ts)
    case None => None
    case Some((args, rest)) =>
      if rest != [] && rest[0].Ident? then
        match ParseArgs(rest[1..])
        case None => None
        case Some((targs, rest2)) => Some(Head(args, Some(Test(rest[0].name, targs)), rest2))
      else Some(Head(args, None, rest))
  }

  function AddCommand(c: Command, r: Option<(seq<Command>, seq<Token>)>): Option<(seq<Command>, seq<Token>)> {
    match r
    case None => None
    case Some((cs, rest)) => Some(([c] + cs, rest))
  }

  /** Commands up to a closing brace or the end. */
  function ParseCommands(ts: seq<Token>): (r: Option<(seq<Command>, seq<Token>)>)
    ensures r.Some? ==> |r.value.1| <= |ts|
    decreases |ts|
  {
    if ts == [] || ts[0] == RBrace then Some(([], ts))
    else if !ts[0].Ident? then None
    else
      match ParseHead(ts[1..])
      case None => None
      case Some(h) =>
        if h.rest == [] then None
        else if h.rest[0] == Semicolon then
          AddCommand(Plain(ts[0].name, h.args, h.test), ParseCommands(h.rest[1..]))
        else if h.rest[0] == LBrace then
          match ParseCommands(h.rest[1..])
          case None => None
          case Some((body, rest)) =>
            if rest == [] || rest[0] != RBrace then None
            else AddCommand(Block(ts[0].name, h.args, h.test, body), ParseCommands(rest[1..]))
        else None
  }

  function Parse(text: string): Option<seq<Command>> {
    match Lex(text)
    case None => None
    case Some(ts) =>
      match ParseCommands(ts)
      case None => None
      case Some((cs, rest)) => if rest == [] then Some(cs) else None
  }

  // ----- execution -----

  datatype Header = Header(name: string, value: string)

  datatype Message = Message(headers: seq<Header>)

  datatype Action =
    | FileInto(folder: string, create: bool)
    | Redirect(address: string)
    | Discard
    | Vacation(days: nat, subject: string, reason: string)

  /** The actions taken, in order, and whether the implicit keep of section 2.10.2 is still in effect. */
  datatype Outcome = Outcome(actions: seq<Action>, keep: bool)

  datatype Result = Going(outcome: Outcome) | Stopped(outcome: Outcome) | Fault

  const EXTENSIONS := {"fileinto", "mailbox", "vacation"}

  ghost predicate Contains(text: string, part: string) {
    exists i :: 0 <= i <= |text| - |part| && StartsWith(text[i..], part)
  }

  /** i;ascii-casemap comparison (section 2.7.3) for the two match types the scripts use. */
  ghost predicate ValueMatches(match_: string, value: string, key: string) {
    if match_ == "is" then Lower(value) == Lower(key) else Contains(Lower(value), Lower(key))
  }

  /** Section 5.7: some value of some named header matches some key. */
  ghost predicate HeaderTest(match_: string, names: seq<string>, keys: seq<string>, msg: Message) {
    exists i, j, k :: 0 <= i < |msg.headers| && 0 <= j < |names| && 0 <= k < |keys|
      && Lower(msg.headers[i].name) == Lower(names[j]) && ValueMatches(match_, msg.headers[i].value, keys[k])
  }

  ghost function Eval(t: Test, msg: Message): Option<bool> {
    if t.name == "header" && |t.args| == 3 && t.args[0].TagArg? && t.args[0].name in {"is", "contains"}
       && t.args[1].Strings? && t.args[2].Strings?
    then Some(HeaderTest(t.args[0].name, t.args[1].values, t.args[2].values, msg))
    else None
  }

  /** Commands other than `if`; using an extension that was not required is a fault. */
  ghost function ExecPlain(c: Command, caps: set<string>, o: Outcome): Result {
    if c.Block? || c.test.Some? then Fault
    else if c.name == "stop" && c.args == [] then Stopped(o)
    else if c.name == "keep" && c.args == [] then Going(o.(keep := true))
    else if c.name == "discard" && c.args == [] then Going(Outcome(o.actions + [Discard], false))
    else if c.name == "redirect" && |c.args| == 1 && c.args[0].Strings? && |c.args[0].values| == 1 then
      Going(Outcome(o.actions + [Redirect(c.args[0].values[0])], false))
    else if c.name == "fileinto" && "fileinto" in caps && |c.args| == 1
            && c.args[0].Strings? && |c.args[0].values| == 1 then
      Going(Outcome(o.actions + [FileInto(c.args[0].values[0], false)], false))
    else if c.name == "fileinto" && "fileinto" in caps && "mailbox" in caps && |c.args| == 2
            && c.args[0] == TagArg("create") && c.args[1].Strings? && |c.args[1].values| == 1 then
      Going(Outcome(o.actions + [FileInto(c.args[1].values[0], true)], false))
    else if c.name == "vacation" && "vacation" in caps && |c.args| == 5
            && c.args[0] == TagArg("days") && c.args[1].NumArg? && c.args[2] == TagArg("subject")
            && c.args[3].Strings? && |c.args[3].values| == 1 && c.args[4].Strings? && |c.args[4].values| == 1 then
      Going(o.(actions := o.actions + [Vacation(c.args[1].n, c.args[3].values[0], c.args[4].values[0])]))
    else Fault
  }

  ghost function ExecOne(c: Command, caps: set<string>, msg: Message, o: Outcome): Result
    decreases c, 1
  {
    if c.name != "if" then ExecPlain(c, caps, o)
    else if c.Plain? || c.args != [] || c.test.None? || Eval(c.test.value, msg).None? then Fault
    else if Eval(c.test.value, msg).value then Exec(c.body, caps, msg, o)
    else Going(o)
  }

  ghost function Exec(cs: seq<Command>, caps: set<string>, msg: Message, o: Outcome): Result
    decreases cs, 0
  {
    if cs == [] then Going(o)
    else
      var r := ExecOne(cs[0], caps, msg, o);
      if r.Going? then Exec(cs[1..], caps, msg, r.outcome) else r
  }

  predicate IsRequire(c: Command) {
    c.Plain? && c.name == "require" && |c.args| == 1 && c.args[0].Strings? && c.test.None?
  }

  /** Section 3.2: capabilities are required before anything else, and must be known ones. */
  function Required(cs: seq<Command>): (set<string>, seq<Command>) {
    if cs == [] || !IsRequire(cs[0]) then ({}, cs)
    else
      var (caps, rest) := Required(cs[1..]);
      (caps + (set s | s in cs[0].args[0].values), rest)
  }

  const EMPTY := Outcome([], true)

  /** Running a script on a message: None when it does not compile or faults. */
  ghost function Run(text: string, msg: Message): Option<Outcome> {
    match Parse(text)
    case None => None
    case Some(cs) =>
      var (caps, body) := Required(cs);
      if !(caps <= EXTENSIONS) then None
      else
        match Exec(body, caps, msg, EMPTY)
        case Fault => None
        case Going(o) => Some(o)
        case Stopped(o) => Some(o)
  }

  /** The extensions a script uses. */
  function UsedBy(c: Command): set<string>
    decreases c, 1
  {
    (if c.name == "fileinto" then {"fileinto"} else {})
    + (if c.name == "fileinto" && TagArg("create") in c.args then {"mailbox"} else {})
    + (if c.name == "vacation" then {"vacation"} else {})
    + (if c.Block? then Used(c.body) else {})
  }

  function Used(cs: seq<Command>): set<string>
    decreases cs, 0
  {
    if cs == [] then {} else UsedBy(cs[0]) + Used(cs[1..])
  }
}
