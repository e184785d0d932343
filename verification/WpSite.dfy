/** agent/wordpress_staging.py: what a WordPress site is made of, and the pure parts of publishing one over another. */
module WpSite {
  import opened Text
  import opened WpConfig
  import opened WpConfigLaws
  import opened WpRewrite

  datatype Node = File(text: string) | Dir(entries: map<string, Node>)

  const CONFIG := "wp-config.php"
  const MAINTENANCE := ".maintenance"
  const WELL_KNOWN := ".well-known"
  const CONTENT := "wp-content"
  const MAX_CONFIG := 1024 * 1024
  const MAX_PREFIX := 24

  /** _wordpress_root: a directory with wp-includes/version.php in it. */
  predicate IsWordPress(root: Node) {
    && root.Dir? && "wp-includes" in root.entries && root.entries["wp-includes"].Dir?
    && var includes := root.entries["wp-includes"].entries;
       "version.php" in includes && includes["version.php"].File?
  }

  /** There is a configuration, and it is small enough to be read. */
  predicate Fits(root: Node) {
    root.Dir? && CONFIG in root.entries && root.entries[CONFIG].File? && |root.entries[CONFIG].text| <= MAX_CONFIG
  }

  /** The configuration as Python reads it, with its line ends translated. */
  function ConfigText(root: Node): Option<string> {
    if Fits(root) then Some(NormalizeNewlines(root.entries[CONFIG].text)) else None
  }

  function ConfigKey(root: Node, key: string): Option<string> {
    match ConfigText(root)
    case None => None
    case Some(t) => ConfigValue(t, key)
  }

  const PREFIX_VARIABLE := "$table_prefix"

  /** $table_prefix\s*=\s*Q name Q\s*; at the start of s. */
  function PrefixAt(s: string): Option<string> {
    if !StartsWith(s, PREFIX_VARIABLE) then None
    else
      var r := StripLeft(s[|PREFIX_VARIABLE|..]);
      if r == "" || r[0] != '=' then None
      else
        var t := StripLeft(r[1..]);
        if t == "" || !IsQuote(t[0]) then None
        else
          var n := QuoteAt(t[1..]);
          if n == 0 || n == |t| - 1 || exists i :: 0 <= i < n && !Wordy(t[1..][i]) then None
          else
            var z := StripLeft(t[1..][n + 1..]);
            if z != "" && z[0] == ';' then Some(t[1..][..n]) else None
  }

  function TablePrefix(s: string): Option<string> {
    if s == "" then None
    else
      match PrefixAt(s)
      case Some(p) => Some(p)
      case None => TablePrefix(s[1..])
  }

  datatype Meta = Meta(name: string, user: string, password: string, host: string, prefix: string)

  /** _config_meta, or None for its errors. */
  function ConfigMeta(root: Node): (r: Option<Meta>)
    ensures r.Some? ==> ConfigText(root).Some? && ConfigKey(root, DB_PASSWORD) == Some(r.value.password)
    ensures r.Some? ==> r.value.host in {"localhost", "127.0.0.1", "::1"}
    ensures r.Some? ==> exists name, user :: SafeDb(name) == Some(r.value.name) && SafeDb(user) == Some(r.value.user)
  {
    match ConfigText(root)
    case None => None
    case Some(t) =>
      var name, user := ConfigValue(t, DB_NAME), ConfigValue(t, DB_USER);
      var password, host := ConfigValue(t, DB_PASSWORD), ConfigValue(t, DB_HOST);
      if name.None? || user.None? || password.None? || host.None? then None
      else
        var n, u, h, p := SafeDb(name.value), SafeDb(user.value), Lower(Strip(host.value)), TablePrefix(t);
        if n.None? || u.None? || h !in {"localhost", "127.0.0.1", "::1"} || p.None? || |p.value| > MAX_PREFIX then None
        else Some(Meta(n.value, u.value, password.value, h, p.value))
  }

  // ----- databases -----

  type Table = map<string, string>
  type Db = map<string, Table>

  const HOME := "home"
  const SITE_URL := "siteurl"

  function WithUrls(options: Table, domain: string): Table {
    map k | k in options :: if k == HOME || k == SITE_URL then "https://" + domain else options[k]
  }

  /** _update_urls */
  function UpdateUrls(db: Db, prefix: string, domain: string): Option<Db> {
    var table := prefix + "options";
    if table in db then Some(db[table := WithUrls(db[table], domain)]) else None
  }

  // ----- the tree that is published -----

  /** The change that gives a configuration the credentials of the live site. */
  function LiveChange(m: Meta): Change {
    Change(m.name, Some(m.user), Some(m.password), Some(m.host), "production")
  }

  /** The staging tree without its maintenance flag and with the .well-known directory of the live site, if it has one. */
  function Merged(stage: Node, live: Node): Option<Node> {
    if !stage.Dir? || !live.Dir? then None
    else if MAINTENANCE in stage.entries && stage.entries[MAINTENANCE].Dir? then None
    else
      var calm := stage.entries - {MAINTENANCE};
      if WELL_KNOWN in live.entries && live.entries[WELL_KNOWN].Dir? then
        Some(Dir(calm[WELL_KNOWN := live.entries[WELL_KNOWN]]))
      else Some(Dir(calm))
  }

  function WithConfig(root: Node, text: Option<string>): Option<Node>
    requires root.Dir?
  {
    match text
    case None => None
    case Some(t) => Some(Dir(root.entries[CONFIG := File(t)]))
  }

  /** _prepare_public_copy for publishing `stage` over `live`, or None for an error. */
  function Prepared(stage: Node, live: Node, m: Meta): Option<Node> {
    match Merged(stage, live)
    case None => None
    case Some(root) =>
      match ConfigText(root)
      case None => None
      case Some(t) => WithConfig(root, Rewrite(t, LiveChange(m)))
  }

  lemma NamesDiffer()
    ensures CONFIG != MAINTENANCE && CONFIG != WELL_KNOWN && MAINTENANCE != WELL_KNOWN
  {
    assert |CONFIG| == 13 && |MAINTENANCE| == 12 && |WELL_KNOWN| == 11;
  }

  lemma MergedEntries(stage: Node, live: Node, e: string)
    requires Merged(stage, live).Some?
    ensures var t := Merged(stage, live).value;
            t.Dir? &&
            if e == MAINTENANCE then e !in t.entries
            else if e == WELL_KNOWN && e in live.entries && live.entries[e].Dir? then
              e in t.entries && t.entries[e] == live.entries[e]
            else e in t.entries <==> e in stage.entries && (e in t.entries ==> t.entries[e] == stage.entries[e])
  {
    NamesDiffer();
  }

  lemma MergedConfig(stage: Node, live: Node)
    requires Merged(stage, live).Some?
    ensures ConfigText(Merged(stage, live).value) == ConfigText(stage)
  {
    NamesDiffer();
    MergedEntries(stage, live, CONFIG);
  }

  /** Where each top-level entry of the published tree comes from. */
  lemma PreparedEntries(stage: Node, live: Node, m: Meta, e: string)
    requires Prepared(stage, live, m).Some?
    ensures var p := Prepared(stage, live, m).value;
            p.Dir? && live.Dir? && stage.Dir? &&
            if e == CONFIG then e in p.entries && p.entries[e].File?
            else if e == MAINTENANCE then e !in p.entries
            else if e == WELL_KNOWN && e in live.entries && live.entries[e].Dir? then
              e in p.entries && p.entries[e] == live.entries[e]
            else e in p.entries <==> e in stage.entries && (e in p.entries ==> p.entries[e] == stage.entries[e])
  {
    MergedEntries(stage, live, e);
    var root := Merged(stage, live).value;
    ConfigEntry(root, Rewrite(ConfigText(root).value, LiveChange(m)), e);
  }

  lemma ConfigEntry(root: Node, text: Option<string>, e: string)
    requires root.Dir? && text.Some?
    ensures var p := WithConfig(root, text).value;
            p.Dir? && if e == CONFIG then e in p.entries && p.entries[e] == File(text.value)
                      else e in p.entries <==> e in root.entries && (e in p.entries ==> p.entries[e] == root.entries[e])
  {
  }

  // ----- the configuration that is published -----

  ghost predicate NoReturn(s: string) {
    '\r' !in s
  }

  lemma {:induction false} EscapeNoReturn(v: string)
    requires NoReturn(v)
    ensures NoReturn(PhpEscape(v))
  {
    if v != "" {
      assert v == [v[0]] + v[1..];
      EscapeNoReturn(v[1..]);
    }
  }

  lemma PutNoReturn(s: string, m: Part, text: string)
    requires Sound(m) && NoReturn(s) && NoReturn(text) && PutValue(s, m, text).Some?
    ensures NoReturn(PutValue(s, m, text).value)
  {
    var y := s[Leftmost(s, m).value..];
    assert Inside(y, m(y));
  }

  lemma StepNoReturn(s: Option<string>, key: string, value: Option<string>)
    requires s.Some? ==> NoReturn(s.value)
    requires value.Some? ==> NoReturn(value.value)
    ensures Then(s, key, value).Some? ==> NoReturn(Then(s, key, value).value)
  {
    if s.Some? && value.Some? && Then(s, key, value).Some? {
      EscapeNoReturn(value.value);
      PutNoReturn(s.value, DefinePart(key), PhpEscape(value.value));
    }
  }

  lemma EnvironmentNoReturn(s: string, environment: string)
    requires NoReturn(s) && SetEnvironment(s, environment).Some?
    requires environment == "staging" || environment == "production"
    ensures NoReturn(SetEnvironment(s, environment).value)
  {
    LineNoReturn(environment);
    match Leftmost(s, DefinePart(ENVIRONMENT)) {
      case Some(i) => Three(s[..i], EnvironmentLine(environment), s[i..][DefineAt(s[i..], ENVIRONMENT).value.end..]);
      case None =>
        var i := IndexOf(s, MARKER).value;
        Three(s[..i], EnvironmentLine(environment), "\n" + s[i..]);
    }
  }

  lemma LineNoReturn(environment: string)
    requires environment == "staging" || environment == "production"
    ensures NoReturn(EnvironmentLine(environment))
  {
    assert NoReturn(BEFORE_ENVIRONMENT) && NoReturn(ENVIRONMENT) && NoReturn(AFTER_ENVIRONMENT) && NoReturn(AFTER_VALUE);
  }

  lemma Three(a: string, b: string, c: string)
    requires NoReturn(a) && NoReturn(b) && NoReturn(c)
    ensures NoReturn(a + (b + c))
  {
  }

  /** A rewritten text has no carriage returns, so reading the file again does not change it. */
  lemma RewriteNoReturn(text: string, c: Change)
    requires NoReturn(text) && Rewrite(text, c).Some?
    requires c.password.Some? ==> NoReturn(c.password.value)
    requires c.host.Some? ==> NoReturn(c.host.value)
    ensures NoReturn(Rewrite(text, c).value)
  {
    var name := SafeDb(c.name);
    var user := if c.user.Some? then SafeDb(c.user.value) else None;
    SafeNoReturn(c.name);
    if c.user.Some? {
      SafeNoReturn(c.user.value);
    }
    var t1 := Then(Some(text), DB_NAME, name);
    var t2 := Then(t1, DB_USER, user);
    var t3 := Then(t2, DB_PASSWORD, c.password);
    StepNoReturn(Some(text), DB_NAME, name);
    StepNoReturn(t1, DB_USER, user);
    StepNoReturn(t2, DB_PASSWORD, c.password);
    StepNoReturn(t3, DB_HOST, c.host);
    EnvironmentNoReturn(Then(t3, DB_HOST, c.host).value, c.environment);
  }

  lemma SafeNoReturn(value: string)
    ensures SafeDb(value).Some? ==> NoReturn(SafeDb(value).value) && SafeDb(SafeDb(value).value) == SafeDb(value)
  {
    if SafeDb(value).Some? {
      var v := SafeDb(value).value;
      assert Wordy(v[|v| - 1]);
      WordyPlain(v[0]);
      WordyPlain(v[|v| - 1]);
      StripFixed(v);
    }
  }

  lemma WordyPlain(c: char)
    requires Wordy(c)
    ensures !IsSpace(c)
  {
  }

  lemma ReadNoReturn(s: string, key: string)
    requires NoReturn(s) && ConfigValue(s, key).Some?
    ensures NoReturn(ConfigValue(s, key).value) && NoQuotes(ConfigValue(s, key).value)
  {
    ReadsClean(s, key);
    var u, y := SplitLeftmost(s, DefinePart(key));
    var v := DefineAt(y, key).value;
    assert forall c :: c in y[v.from..v.to] ==> c in y;
  }

  /**
   * The published configuration points at the live database with the live credentials: name, user and host always, the
   * password exactly when it has no backslash, because it is escaped again each time it is written. A configuration that
   * grew past the size that is read reads nothing.
   */
  lemma PublishedCredentials(stage: Node, live: Node, m: Meta)
    requires ConfigMeta(live) == Some(m) && Prepared(stage, live, m).Some?
    ensures var p := Prepared(stage, live, m).value;
            if !Fits(p) then forall k :: ConfigKey(p, k) == None
            else
              && ConfigKey(p, DB_NAME) == Some(m.name)
              && ConfigKey(p, DB_USER) == Some(m.user)
              && ConfigKey(p, DB_HOST) == Some(m.host)
              && (ConfigKey(p, DB_PASSWORD) == Some(m.password) <==> '\\' !in m.password)
              && ConfigKey(p, ENVIRONMENT) == Some("production")
  {
    var root := Merged(stage, live).value;
    var t, c := ConfigText(root).value, LiveChange(m);
    MetaClean(live, m);
    if Fits(Prepared(stage, live, m).value) {
      PublishedText(stage, live, m);
      NameReads(t, c);
      UserReads(t, c);
      HostReads(t, c);
      PasswordReadsBack(t, c);
      ModeReads(t, c);
    }
  }

  /** The keys that a publish does not write are those of the staging site. */
  lemma PublishedRest(stage: Node, live: Node, m: Meta, k: string)
    requires ConfigMeta(live) == Some(m) && Prepared(stage, live, m).Some?
    requires Known(k) && k !in KEYS
    ensures ConfigKey(Prepared(stage, live, m).value, k)
         == if Fits(Prepared(stage, live, m).value) then ConfigKey(stage, k) else None
  {
    if Fits(Prepared(stage, live, m).value) {
      var root := Merged(stage, live).value;
      MetaClean(live, m);
      PublishedText(stage, live, m);
      MergedConfig(stage, live);
      RestReads(ConfigText(root).value, LiveChange(m), k);
    }
  }

  lemma RestReads(t: string, c: Change, k: string)
    requires Quotable(c.password) && Quotable(c.host) && Rewrite(t, c).Some? && Known(k) && k !in KEYS
    ensures ConfigValue(Rewrite(t, c).value, k) == ConfigValue(t, k)
  {
    RewriteReads(t, c, k);
  }

  lemma MetaClean(live: Node, m: Meta)
    requires ConfigMeta(live) == Some(m)
    ensures NoReturn(m.password) && NoQuotes(m.password)
    ensures NoReturn(m.host) && Plain(m.host)
    ensures SafeDb(m.name) == Some(m.name) && SafeDb(m.user) == Some(m.user)
  {
    ReadNoReturn(ConfigText(live).value, DB_PASSWORD);
    LocalHosts(m.host);
    var name, user :| SafeDb(name) == Some(m.name) && SafeDb(user) == Some(m.user);
    SafeNoReturn(name);
    SafeNoReturn(user);
  }

  lemma LocalHosts(host: string)
    requires host in {"localhost", "127.0.0.1", "::1"}
    ensures NoReturn(host) && Plain(host)
  {
  }

  lemma PublishedText(stage: Node, live: Node, m: Meta)
    requires Prepared(stage, live, m).Some?
    requires NoReturn(m.password) && NoReturn(m.host) && Fits(Prepared(stage, live, m).value)
    ensures var root := Merged(stage, live).value;
            ConfigText(Prepared(stage, live, m).value) == Rewrite(ConfigText(root).value, LiveChange(m))
  {
    var t := ConfigText(Merged(stage, live).value).value;
    RewriteNoReturn(t, LiveChange(m));
    NewlinesFixed(Rewrite(t, LiveChange(m)).value);
  }

  lemma NameReads(t: string, c: Change)
    requires Quotable(c.password) && Quotable(c.host) && Rewrite(t, c).Some?
    ensures ConfigValue(Rewrite(t, c).value, DB_NAME) == SafeDb(c.name)
  {
    KeysKnown(DB_NAME);
    RewriteReads(t, c, DB_NAME);
  }

  lemma UserReads(t: string, c: Change)
    requires Quotable(c.password) && Quotable(c.host) && Rewrite(t, c).Some? && c.user.Some?
    ensures ConfigValue(Rewrite(t, c).value, DB_USER) == SafeDb(c.user.value)
  {
    KeysKnown(DB_USER);
    RewriteReads(t, c, DB_USER);
  }

  lemma HostReads(t: string, c: Change)
    requires Quotable(c.password) && c.host.Some? && Plain(c.host.value) && Rewrite(t, c).Some?
    ensures ConfigValue(Rewrite(t, c).value, DB_HOST) == c.host
  {
    KeysKnown(DB_HOST);
    RewriteReads(t, c, DB_HOST);
    EscapePlain(c.host.value);
  }

  lemma ModeReads(t: string, c: Change)
    requires Quotable(c.password) && Quotable(c.host) && Rewrite(t, c).Some?
    ensures ConfigValue(Rewrite(t, c).value, ENVIRONMENT) == Some(c.environment)
  {
    KeysKnown(ENVIRONMENT);
    RewriteReads(t, c, ENVIRONMENT);
  }
}
