/** agent/wordpress_staging.py: _rewrite_config as one change of a wp-config.php. */
module WpRewrite {
  import opened Text
  import opened WpConfig
  import opened WpConfigLaws

  const DB_NAME := "DB_NAME"
  const DB_USER := "DB_USER"
  const DB_PASSWORD := "DB_PASSWORD"
  const DB_HOST := "DB_HOST"
  const ENVIRONMENT := "WP_ENVIRONMENT_TYPE"
  const MARKER := "if (!defined('ABSPATH'))"
  const MAX_IDENTIFIER := 32

  /** _safe_db: a letter, then letters, digits and underscores, after stripping. */
  function SafeDb(value: string): (r: Option<string>)
    ensures r.Some? ==> Plain(r.value)
  {
    var v := Strip(value);
    if v != "" && |v| <= MAX_IDENTIFIER && IsLetter(v[0]) && forall i :: 0 <= i < |v| ==> Wordy(v[i]) then Some(v) else None
  }

  /** The first place where s continues with p. */
  function IndexOf(s: string, p: string): (r: Option<nat>)
    ensures r.Some? ==> r.value <= |s| && StartsWith(s[r.value..], p)
  {
    if StartsWith(s, p) then Some(0)
    else if s == "" then None
    else
      match IndexOf(s[1..], p)
      case None => None
      case Some(i) =>
        assert s[1..][i..] == s[i + 1..];
        Some(i + 1)
  }

  const BEFORE_ENVIRONMENT := "define('"
  const AFTER_ENVIRONMENT := "', '"
  const AFTER_VALUE := "');"

  function EnvironmentLine(environment: string): string {
    BEFORE_ENVIRONMENT + ENVIRONMENT + AFTER_ENVIRONMENT + environment + AFTER_VALUE
  }

  /** Replaces the statement that sets the environment, or adds one before the ABSPATH check. */
  function SetEnvironment(s: string, environment: string): Option<string> {
    match Leftmost(s, DefinePart(ENVIRONMENT))
    case Some(i) => Some(s[..i] + (EnvironmentLine(environment) + s[i..][DefineAt(s[i..], ENVIRONMENT).value.end..]))
    case None =>
      match IndexOf(s, MARKER)
      case None => None
      case Some(i) => Some(s[..i] + (EnvironmentLine(environment) + ("\n" + s[i..])))
  }

  datatype Change = Change(
    name: string,
    user: Option<string>,
    password: Option<string>,
    host: Option<string>,
    environment: string)

  function ReplaceSome(s: string, key: string, value: Option<string>): Option<string> {
    match value
    case None => Some(s)
    case Some(v) => ReplaceDefine(s, key, v)
  }

  function Then(s: Option<string>, key: string, value: Option<string>): Option<string> {
    match s
    case None => None
    case Some(t) => ReplaceSome(t, key, value)
  }

  function Credentials(text: string, name: Option<string>, user: Option<string>, password: Option<string>,
                       host: Option<string>): Option<string> {
    Then(Then(Then(Then(Some(text), DB_NAME, name), DB_USER, user), DB_PASSWORD, password), DB_HOST, host)
  }

  /** _rewrite_config: the new text, or None for any of its errors; the file is replaced only by a new text. */
  function Rewrite(text: string, c: Change): Option<string> {
    if c.environment != "staging" && c.environment != "production" then None
    else
      var name := SafeDb(c.name);
      var user := if c.user.Some? then SafeDb(c.user.value) else None;
      if name.None? || (c.user.Some? && user.None?) then None
      else
        match Credentials(text, name, user, c.password, c.host)
        case None => None
        case Some(t) => SetEnvironment(t, c.environment)
  }

  // ----- the environment -----

  lemma EnvironmentKey()
    ensures KeyOk(ENVIRONMENT)
  {
  }

  lemma LinePieces(environment: string, z: string)
    ensures EnvironmentLine(environment) + z
         == "define(" + (['\''] + (ENVIRONMENT + (['\''] + (", " + (['\''] + (environment + (['\''] + (");" + z))))))))
  {
  }

  lemma ClosesHere(z: string)
    ensures CloseAt(");" + z) == Some(2)
  {
    var s := ");" + z;
    assert StripLeft(s) == s;
    assert s[1..] == ";" + z;
    assert StripLeft(s[1..]) == s[1..];
  }

  lemma CommaHere()
    ensures IsComma(", ") && NoQuotes(", ")
  {
    assert StripLeft(", ") == ", ";
    assert ", "[1..] == " ";
    assert " "[1..] == "";
  }

  lemma OpenHere()
    ensures IsOpen("define(") && NoQuotes("define(")
  {
    var s := "define(";
    assert s[..6] == DEFINE;
    assert s[6..] == "(";
    assert "("[1..] == "";
  }

  lemma ValueHere(environment: string, t: string, z: string)
    requires NoQuotes(environment) && t == ");" + z
    ensures AtValue(environment + (['\''] + t)) == Some(Span(0, |environment|, |environment| + 3))
  {
    QuoteAtGap(environment, '\'', t);
    ClosesHere(z);
  }

  /** The line that is written is a statement for the environment key. */
  lemma LineIs(environment: string, z: string)
    requires NoQuotes(environment)
    ensures DefineAt(EnvironmentLine(environment) + z, ENVIRONMENT)
         == Some(Span(31, 31 + |environment|, |EnvironmentLine(environment)|))
  {
    var w := environment + (['\''] + (");" + z));
    ValueHere(environment, ");" + z, z);
    CommaHere();
    GapIs(", ", '\'', w, IsComma, AtValue);
    var t := ", " + (['\''] + w);
    EnvironmentKey();
    GapIs(ENVIRONMENT, '\'', t, IsKey(ENVIRONMENT), AfterKey);
    OpenHere();
    GapIs("define(", '\'', ENVIRONMENT + (['\''] + t), IsOpen, KeyPart(ENVIRONMENT));
    LinePieces(environment, z);
  }

  lemma OpenNoBang(g: string)
    requires '!' in g
    ensures !IsOpen(g)
  {
    var i :| 0 <= i < |g| && g[i] == '!';
    if IsOpen(g) {
      OpenChars(g, i);
    }
  }

  lemma OpenChars(g: string, i: nat)
    requires IsOpen(g) && i < |g|
    ensures g[i] != '!'
  {
    if i < 6 {
      OpenHead(g, i);
    } else {
      OpenTail(g, i);
    }
  }

  const MARKER_GAP := "if (!defined("

  lemma MarkerCut(y: string)
    requires StartsWith(y, MARKER)
    ensures |y| > 14 && y == MARKER_GAP + (['\''] + y[14..]) && y[14] == 'A'
  {
    assert MARKER == MARKER_GAP + (['\''] + "ABSPATH'))");
    forall i | 0 <= i < |MARKER| ensures y[i] == MARKER[i] {
      assert y[..|MARKER|][i] == y[i];
    }
  }

  lemma MarkerBarrier(y: string)
    requires StartsWith(y, MARKER)
    ensures Barrier(y) && '!' in y[..QuoteAt(y)]
  {
    MarkerCut(y);
    QuoteAtGap(MARKER_GAP, '\'', y[14..]);
    assert MARKER_GAP[4] == '!' && MARKER_GAP[3] == '(';
  }

  /** Nothing before the marker is matched into it. */
  lemma ApartMarker(y: string, k: string)
    requires KeyOk(k) && StartsWith(y, MARKER)
    ensures Apart(y, DefinePart(k))
  {
    forall u: string | u != "" ensures DefinePart(k)(u + y) == DefinePart(k)(u) {
      ApartMarkerAt(u, y, k);
    }
  }

  lemma ApartMarkerAt(u: string, y: string, k: string)
    requires KeyOk(k) && StartsWith(y, MARKER)
    ensures DefineAt(u + y, k) == DefineAt(u, k)
  {
    MarkerBarrier(y);
    OpenNoBang(u + y[..QuoteAt(y)]);
    DefineSame(u, y, k);
  }

  lemma Follows(s: string, i: nat)
    requires i <= |s|
    ensures s == s[..i] + s[i..]
  {
  }

  lemma LineEnd(line: string, z: string)
    ensures (line + z)[|line|..] == z
  {
  }

  /** The environment is read back, and every other key is read as before. */
  lemma EnvironmentReads(s: string, environment: string)
    requires NoQuotes(environment) && SetEnvironment(s, environment).Some?
    ensures ConfigValue(SetEnvironment(s, environment).value, ENVIRONMENT) == Some(environment)
  {
    var m := DefinePart(ENVIRONMENT);
    EnvironmentKey();
    match Leftmost(s, m) {
      case Some(i) =>
        var u, y := SplitLeftmost(s, m);
        var z := y[DefineAt(y, ENVIRONMENT).value.end..];
        ApartSame(y, ENVIRONMENT);
        LeftmostApart(u, y, m);
        LineReads(u, environment, z);
      case None =>
        var i := IndexOf(s, MARKER).value;
        Follows(s, i);
        ApartMarker(s[i..], ENVIRONMENT);
        LeftmostApart(s[..i], s[i..], m);
        LineReads(s[..i], environment, "\n" + s[i..]);
    }
  }

  lemma LineReads(u: string, environment: string, z: string)
    requires NoQuotes(environment) && Leftmost(u, DefinePart(ENVIRONMENT)).None?
    ensures ConfigValue(u + (EnvironmentLine(environment) + z), ENVIRONMENT) == Some(environment)
  {
    var y := EnvironmentLine(environment) + z;
    EnvironmentKey();
    LineIs(environment, z);
    ApartSame(y, ENVIRONMENT);
    LeftmostHere(u, y, DefinePart(ENVIRONMENT));
    LineValue(environment, z);
  }

  lemma LineValue(environment: string, z: string)
    ensures (EnvironmentLine(environment) + z)[31..31 + |environment|] == environment
  {
    var h := BEFORE_ENVIRONMENT + ENVIRONMENT + AFTER_ENVIRONMENT;
    assert |h| == 31;
    assert EnvironmentLine(environment) + z == h + environment + (AFTER_VALUE + z);
  }

  lemma LineInvisible(u: string, environment: string, z: string, k: string)
    requires NoQuotes(environment) && KeyOk(k) && !SameText(ENVIRONMENT, k)
    ensures ConfigValue(u + (EnvironmentLine(environment) + z), k)
         == if ConfigValue(u, k).Some? then ConfigValue(u, k) else ConfigValue(z, k)
  {
    EnvironmentKey();
    LineIs(environment, z);
    StatementInvisible(u, EnvironmentLine(environment) + z, ENVIRONMENT, k);
    LineEnd(EnvironmentLine(environment), z);
  }

  lemma ReplacedLine(u: string, y: string, environment: string, k: string)
    requires NoQuotes(environment) && KeyOk(k) && !SameText(ENVIRONMENT, k) && DefineAt(y, ENVIRONMENT).Some?
    ensures ConfigValue(u + (EnvironmentLine(environment) + y[DefineAt(y, ENVIRONMENT).value.end..]), k)
         == ConfigValue(u + y, k)
  {
    EnvironmentKey();
    StatementInvisible(u, y, ENVIRONMENT, k);
    LineInvisible(u, environment, y[DefineAt(y, ENVIRONMENT).value.end..], k);
  }

  lemma NewlineSkipped(y: string, k: string)
    ensures ConfigValue("\n" + y, k) == ConfigValue(y, k)
  {
    DeadPlain("\n", y, k);
  }

  lemma InsertedLine(u: string, y: string, environment: string, k: string)
    requires NoQuotes(environment) && KeyOk(k) && !SameText(ENVIRONMENT, k) && StartsWith(y, MARKER)
    ensures ConfigValue(u + (EnvironmentLine(environment) + ("\n" + y)), k) == ConfigValue(u + y, k)
  {
    ApartMarker(y, k);
    ValueApart(u, y, DefinePart(k));
    LineInvisible(u, environment, "\n" + y, k);
    NewlineSkipped(y, k);
  }

  lemma EnvironmentKeepsOthers(s: string, environment: string, k: string)
    requires NoQuotes(environment) && SetEnvironment(s, environment).Some?
    requires KeyOk(k) && !SameText(ENVIRONMENT, k)
    ensures ConfigValue(SetEnvironment(s, environment).value, k) == ConfigValue(s, k)
  {
    match Leftmost(s, DefinePart(ENVIRONMENT)) {
      case Some(i) =>
        Follows(s, i);
        ReplacedLine(s[..i], s[i..], environment, k);
      case None =>
        var i := IndexOf(s, MARKER).value;
        Follows(s, i);
        InsertedLine(s[..i], s[i..], environment, k);
    }
  }

  // ----- the whole change -----

  /** The keys a change may write. */
  const KEYS := {DB_NAME, DB_USER, DB_PASSWORD, DB_HOST, ENVIRONMENT}

  lemma KeysApart(a: string, b: string)
    requires a in KEYS && b in KEYS
    ensures KeyOk(a) && (SameText(a, b) <==> a == b)
  {
  }

  /** A key that is one of the five, or differs from all of them whatever the case of its letters. */
  ghost predicate Known(k: string) {
    KeyOk(k) && forall key :: key in KEYS ==> (SameText(key, k) <==> key == k)
  }

  lemma KeysKnown(k: string)
    requires k in KEYS
    ensures Known(k)
  {
    forall key | key in KEYS ensures SameText(key, k) <==> key == k {
      KeysApart(key, k);
    }
    KeysApart(k, k);
  }

  /** What k reads when `key` is given `value`, if any. */
  function After(was: Option<string>, key: string, value: Option<string>, k: string): Option<string> {
    if k == key && value.Some? then value else was
  }

  function Escaped(value: Option<string>): Option<string> {
    match value
    case None => None
    case Some(v) => Some(PhpEscape(v))
  }

  ghost predicate Quotable(value: Option<string>) {
    value.Some? ==> NoQuotes(value.value)
  }

  lemma StepReads(s: string, key: string, value: Option<string>, k: string)
    requires key in KEYS && Known(k) && Quotable(value) && ReplaceSome(s, key, value).Some?
    ensures ConfigValue(ReplaceSome(s, key, value).value, k) == After(ConfigValue(s, k), key, Escaped(value), k)
  {
    KeysApart(key, key);
    if value.Some? {
      GetAfterReplace(s, key, value.value);
      if key != k {
        ReplaceKeepsOthers(s, key, value.value, k);
      }
    }
  }

  /** What k reads after a change, from what it read before: each of the five keys takes its value if it has one. */
  function Expected(was: Option<string>, c: Change, k: string): Option<string> {
    var user := if c.user.Some? then SafeDb(c.user.value) else None;
    var name := After(After(was, DB_NAME, SafeDb(c.name), k), DB_USER, user, k);
    var host := After(After(name, DB_PASSWORD, Escaped(c.password), k), DB_HOST, Escaped(c.host), k);
    After(host, ENVIRONMENT, Some(c.environment), k)
  }

  lemma EnvironmentNames(e: string)
    requires e == "staging" || e == "production"
    ensures NoQuotes(e)
  {
  }

  /**
   * Rewriting is a lens on the five keys: each that is written reads its new value, escaped, and every key that is not
   * written, the other three of the five and any key of WordPress or a plugin, reads what it read before.
   */
  lemma RewriteReads(text: string, c: Change, k: string)
    requires Quotable(c.password) && Quotable(c.host) && Known(k) && Rewrite(text, c).Some?
    ensures ConfigValue(Rewrite(text, c).value, k) == Expected(ConfigValue(text, k), c, k)
  {
    var name := SafeDb(c.name);
    var user := if c.user.Some? then SafeDb(c.user.value) else None;
    SafeEscape(name);
    SafeEscape(user);
    CredentialsRead(text, name, user, c.password, c.host, k);
    EnvironmentNames(c.environment);
    EnvironmentStep(Credentials(text, name, user, c.password, c.host).value, c.environment, k);
  }

  /**
   * And only then: with a quote in the password or the host some key reads something else, because a value that is read
   * never has a quote.
   */
  lemma RewriteIsLens(text: string, c: Change)
    requires Rewrite(text, c).Some?
    ensures (forall k :: Known(k) ==> ConfigValue(Rewrite(text, c).value, k) == Expected(ConfigValue(text, k), c, k))
       <==> Quotable(c.password) && Quotable(c.host)
  {
    if Quotable(c.password) && Quotable(c.host) {
      forall k | Known(k) ensures ConfigValue(Rewrite(text, c).value, k) == Expected(ConfigValue(text, k), c, k) {
        RewriteReads(text, c, k);
      }
    } else {
      var key, value := if Quotable(c.password) then DB_HOST else DB_PASSWORD,
                        if Quotable(c.password) then c.host.value else c.password.value;
      KeysKnown(key);
      EscapeKeepsQuotes(value);
      if ConfigValue(Rewrite(text, c).value, key) == Some(PhpEscape(value)) {
        ReadsClean(Rewrite(text, c).value, key);
      }
    }
  }

  lemma {:induction false} EscapeKeepsQuotes(v: string)
    requires !NoQuotes(v)
    ensures !NoQuotes(PhpEscape(v))
  {
    var e := PhpEscape(v);
    if IsQuote(v[0]) {
      assert IsQuote(e[0]) || IsQuote(e[1]);
    } else {
      assert v == [v[0]] + v[1..];
      EscapeKeepsQuotes(v[1..]);
      var n := |e| - |PhpEscape(v[1..])|;
      var i :| 0 <= i < |PhpEscape(v[1..])| && IsQuote(PhpEscape(v[1..])[i]);
      assert e[n..] == PhpEscape(v[1..]) && e[n + i] == e[n..][i];
    }
  }

  lemma ThenReads(s: Option<string>, key: string, value: Option<string>, k: string)
    requires key in KEYS && Known(k) && Quotable(value) && Then(s, key, value).Some?
    ensures s.Some?
    ensures ConfigValue(Then(s, key, value).value, k) == After(ConfigValue(s.value, k), key, Escaped(value), k)
  {
    StepReads(s.value, key, value, k);
  }

  lemma CredentialsRead(text: string, name: Option<string>, user: Option<string>, password: Option<string>,
                        host: Option<string>, k: string)
    requires Quotable(name) && Quotable(user) && Quotable(password) && Quotable(host) && Known(k)
    requires Credentials(text, name, user, password, host).Some?
    ensures ConfigValue(Credentials(text, name, user, password, host).value, k)
         == After(After(After(After(ConfigValue(text, k), DB_NAME, Escaped(name), k), DB_USER, Escaped(user), k),
                        DB_PASSWORD, Escaped(password), k), DB_HOST, Escaped(host), k)
  {
    var t1 := Then(Some(text), DB_NAME, name);
    var t2 := Then(t1, DB_USER, user);
    var t3 := Then(t2, DB_PASSWORD, password);
    ThenReads(t3, DB_HOST, host, k);
    ThenReads(t2, DB_PASSWORD, password, k);
    ThenReads(t1, DB_USER, user, k);
    ThenReads(Some(text), DB_NAME, name, k);
  }

  lemma SafeEscape(value: Option<string>)
    requires value.Some? ==> Plain(value.value)
    ensures Escaped(value) == value && Quotable(value)
  {
    if value.Some? {
      EscapePlain(value.value);
    }
  }

  lemma EnvironmentStep(s: string, environment: string, k: string)
    requires NoQuotes(environment) && Known(k) && SetEnvironment(s, environment).Some?
    ensures ConfigValue(SetEnvironment(s, environment).value, k)
         == After(ConfigValue(s, k), ENVIRONMENT, Some(environment), k)
  {
    EnvironmentKey();
    if k == ENVIRONMENT {
      EnvironmentReads(s, environment);
    } else {
      assert ENVIRONMENT in KEYS;
      EnvironmentKeepsOthers(s, environment, k);
    }
  }

  /** A password is read back exactly when it has no quote and no backslash. */
  lemma PasswordReadsBack(text: string, c: Change)
    requires c.password.Some? && Quotable(c.host) && Rewrite(text, c).Some?
    ensures ConfigValue(Rewrite(text, c).value, DB_PASSWORD) == c.password <==> Plain(c.password.value)
  {
    var t := Rewrite(text, c).value;
    EscapePlain(c.password.value);
    if NoQuotes(c.password.value) {
      KeysKnown(DB_PASSWORD);
      RewriteReads(text, c, DB_PASSWORD);
    } else if ConfigValue(t, DB_PASSWORD) == c.password {
      ReadsClean(t, DB_PASSWORD);
    }
  }
}
