/** agent/mail_sieve.py: from account policy to a Sieve script. */
module SieveCompiler {
  import opened Text
  import opened SieveLanguage

  const MAX_FILTERS := 40
  const MAX_GLOBAL_FILTERS := 30
  const MAX_PATTERN := 200
  const MAX_BODY := 5000

  // ----- strings -----

  function ReplaceChar(s: string, c: char, put: string): string {
    if s == "" then "" else (if s[0] == c then put else [s[0]]) + ReplaceChar(s[1..], c, put)
  }

  predicate Quotable(s: string, limit: nat) {
    |s| <= limit && forall c :: c in s ==> c != NUL && c != '\r' && c != '\n'
  }

  /** _quoted, for text it accepts. */
  function Quoted(s: string): string {
    "\"" + ReplaceChar(ReplaceChar(s, '\\', "\\\\"), '"', "\\\"") + "\""
  }

  function StuffLine(line: string): string {
    if StartsWith(line, ".") then "." + line else line
  }

  function StuffLines(lines: seq<string>): (r: seq<string>)
    ensures |r| == |lines|
    ensures forall i :: 0 <= i < |lines| ==> r[i] == StuffLine(lines[i])
  {
    if lines == [] then [] else [StuffLine(lines[0])] + StuffLines(lines[1..])
  }

  predicate Bodied(s: string) {
    |NormalizeNewlines(s)| <= MAX_BODY && NUL !in s
  }

  /** _multiline, for text it accepts. */
  function Multiline(s: string): string {
    "text:\n" + Join(StuffLines(SplitOn(NormalizeNewlines(s), '\n')), "\n") + "\n.\n"
  }

  method MultilineLoop(s: string) returns (r: Option<string>)
    ensures r == if Bodied(s) then Some(Multiline(s)) else None
  {
    var text := NormalizeNewlines(s);
    if |text| > MAX_BODY || NUL in text {
      return None;
    }
    var split := SplitOn(text, '\n');
    var lines: seq<string> := [];
    for i := 0 to |split|
      invariant lines == StuffLines(split)[..i]
    {
      lines := lines + [if StartsWith(split[i], ".") then "." + split[i] else split[i]];
    }
    assert StuffLines(split)[..|split|] == StuffLines(split);
    assert Bodied(s);
    r := Some("text:\n" + Join(lines, "\n") + "\n.\n");
  }

  // ----- policy -----

  datatype Filter = Filter(field: string, headerName: string, matchType: string, pattern: string, action: string,
                           destination: string, priority: int)

  datatype Spam = Spam(enabled: bool, action: string)

  datatype Autoresponder = Autoresponder(enabled: bool, subject: string, body: string, days: nat)

  datatype Policy = Policy(global: seq<Filter>, filters: seq<Filter>, spam: Spam, auto: Autoresponder)

  const ACTIONS := {"fileinto", "redirect", "discard"}
  const MATCHES := {"contains", "is"}

  predicate FieldAllowed(field: string, global: bool) {
    field in {"from", "to", "subject"} || field == (if global then "header" else "spam_flag")
  }

  predicate InClass(s: string, extra: string) {
    forall c :: c in s ==> IsLetter(c) || IsDigit(c) || c in extra
  }

  predicate HeaderNameOk(s: string) {
    1 <= |s| <= 63 && InClass(s[..1], "") && InClass(s, "-")
  }

  predicate FolderOk(s: string) {
    1 <= |s| <= 63 && InClass(s[..1], "") && InClass(s, " ._-")
  }

  const LOCAL_CHARS := ".!#$%&'*+/=?^_`{|}~-"

  /** EMAIL_RE, and no two dots in a row. */
  predicate DestinationOk(s: string) {
    && (exists i :: 1 <= i <= 64 && i < |s| && s[i] == '@'
          && InClass(s[..i], LOCAL_CHARS) && 1 <= |s| - i - 1 <= 253 && InClass(s[i + 1..], ".-"))
    && (forall i :: 0 <= i < |s| - 1 ==> !(s[i] == '.' && s[i + 1] == '.'))
  }

  /** What _normalize_filters guarantees of every filter it returns. */
  predicate FilterOk(f: Filter, global: bool) {
    && FieldAllowed(f.field, global)
    && f.matchType in MATCHES
    && f.action in ACTIONS
    && f.pattern != "" && Quotable(f.pattern, MAX_PATTERN)
    && 1 <= f.priority <= 10000
    && (if global && f.field == "header" then HeaderNameOk(f.headerName) else f.headerName == "")
    && (f.action == "fileinto" ==> FolderOk(f.destination))
    && (f.action == "redirect" ==> DestinationOk(f.destination))
    && (f.action == "discard" ==> f.destination == "")
  }

  /** What _normalize_autoresponder guarantees: a subject without carriage returns, but line feeds may occur in it. */
  predicate AutoOk(a: Autoresponder) {
    && 1 <= a.days <= 30
    && |a.subject| <= 180 && NUL !in a.subject && '\r' !in a.subject
    && |a.body| <= MAX_BODY && NUL !in a.body
    && (a.enabled ==> a.subject != "" && a.body != "")
  }

  predicate Normalized(p: Policy) {
    && (forall f :: f in p.global ==> FilterOk(f, true))
    && (forall f :: f in p.filters ==> FilterOk(f, false))
    && p.spam.action in {"junk", "discard"}
    && AutoOk(p.auto)
  }

  // ----- normalisation of the raw filter list -----

  datatype RawItem =
    | NotAnObject
    | RawItem(enabled: bool, field: string, headerName: string, matchType: string, pattern: string, action: string,
              destination: string, priority: Option<int>)

  predicate Skipped(r: RawItem) {
    r.NotAnObject? || !r.enabled
  }

  /** One enabled item: the normalised filter, or None where the code raises. */
  function NormalizeItem(r: RawItem, global: bool): (f: Option<Filter>)
    requires !Skipped(r)
    ensures f.Some? ==> FilterOk(f.value, global) && r.priority == Some(f.value.priority)
  {
    var field, matchType, action := Lower(Strip(r.field)), Lower(Strip(r.matchType)), Lower(Strip(r.action));
    var pattern, destination, headerName := Strip(r.pattern), Strip(r.destination), Strip(r.headerName);
    if r.priority.None? then None
    else if !FieldAllowed(field, global) || matchType !in MATCHES || action !in ACTIONS || pattern == ""
            || |pattern| > MAX_PATTERN || !(1 <= r.priority.value <= 10000) then None
    else if !Quotable(pattern, MAX_PATTERN) then None
    else if global && field == "header" && !HeaderNameOk(headerName) then None
    else if action == "fileinto" && !FolderOk(destination) then None
    else if action == "redirect" && !DestinationOk(destination) then None
    else Some(Filter(field, if global && field == "header" then headerName else "", matchType, pattern, action,
                     if action == "discard" then "" else destination, r.priority.value))
  }

  /** _normalize_autoresponder */
  function NormalizeAuto(enabled: bool, subject: string, body: string, days: Option<int>): (r: Option<Autoresponder>)
    ensures r.Some? ==> AutoOk(r.value)
  {
    var s, b := Strip(subject), Strip(body);
    if days.None? || !(1 <= days.value <= 30) || |s| > 180 || |b| > MAX_BODY || NUL in s || NUL in b || '\r' in s then None
    else if enabled && (s == "" || b == "") then None
    else Some(Autoresponder(enabled, s, b, days.value))
  }

  /** _normalize_spam */
  function NormalizeSpam(enabled: bool, action: string): (r: Option<Spam>)
    ensures r.Some? ==> r.value.enabled == enabled && r.value.action in {"junk", "discard"}
  {
    var a := Lower(Strip(action));
    if a !in {"junk", "discard"} then None else Some(Spam(enabled, a))
  }

  /** The enabled items in list order, or None when one of them is invalid. */
  function Collect(raw: seq<RawItem>, global: bool): Option<seq<Filter>> {
    if raw == [] then Some([])
    else
      var last := raw[|raw| - 1];
      match Collect(raw[..|raw| - 1], global)
      case None => None
      case Some(out) =>
        if Skipped(last) then Some(out)
        else
          match NormalizeItem(last, global)
          case None => None
          case Some(f) => Some(out + [f])
  }

  /** Insert into a list sorted by priority, after its equals: the step of a stable sort. */
  function Insert(sorted: seq<Filter>, f: Filter): seq<Filter> {
    if sorted == [] then [f]
    else if sorted[|sorted| - 1].priority <= f.priority then sorted + [f]
    else Insert(sorted[..|sorted| - 1], f) + [sorted[|sorted| - 1]]
  }

  /** list.sort(key=priority): sorting is stable. */
  function StableSort(fs: seq<Filter>): seq<Filter> {
    if fs == [] then [] else Insert(StableSort(fs[..|fs| - 1]), fs[|fs| - 1])
  }

  function NormalizeFilters(raw: seq<RawItem>, global: bool): Option<seq<Filter>> {
    if |raw| > (if global then MAX_GLOBAL_FILTERS else MAX_FILTERS) then None
    else
      match Collect(raw, global)
      case None => None
      case Some(fs) => Some(StableSort(fs))
  }

  lemma {:induction false} CollectPrefix(raw: seq<RawItem>, global: bool, n: nat)
    requires n <= |raw| && Collect(raw[..n], global).None?
    ensures Collect(raw, global).None?
    decreases |raw|
  {
    if n < |raw| {
      assert raw[..|raw| - 1][..n] == raw[..n];
      CollectPrefix(raw[..|raw| - 1], global, n);
    } else {
      assert raw[..n] == raw;
    }
  }

  method NormalizeFiltersLoop(raw: seq<RawItem>, global: bool) returns (r: Option<seq<Filter>>)
    ensures r == NormalizeFilters(raw, global)
  {
    if |raw| > (if global then MAX_GLOBAL_FILTERS else MAX_FILTERS) {
      return None;
    }
    var out: seq<Filter> := [];
    for i := 0 to |raw|
      invariant Collect(raw[..i], global) == Some(out)
    {
      assert raw[..i + 1][..i] == raw[..i];
      if !Skipped(raw[i]) {
        var f := NormalizeItem(raw[i], global);
        if f.None? {
          CollectPrefix(raw, global, i + 1);
          return None;
        }
        out := out + [f.value];
      }
    }
    assert raw[..|raw|] == raw;
    var sorted: seq<Filter> := [];
    for i := 0 to |out|
      invariant sorted == StableSort(out[..i])
    {
      assert out[..i + 1][..i] == out[..i];
      sorted := Insert(sorted, out[i]);
    }
    assert out[..|out|] == out;
    r := Some(sorted);
  }

  // ----- generation -----

  function HeaderOf(f: Filter): string {
    if f.field == "from" then "From" else if f.field == "to" then "To"
    else if f.field == "subject" then "Subject" else if f.field == "spam_flag" then "X-Spam-Flag"
    else f.headerName
  }

  function ActionLine(f: Filter): string {
    if f.action == "fileinto" then "  fileinto :create " + Quoted(f.destination) + ";"
    else if f.action == "redirect" then "  redirect " + Quoted(f.destination) + ";"
    else "  discard;"
  }

  function FilterLines(f: Filter): seq<string> {
    ["if header :" + f.matchType + " " + Quoted(HeaderOf(f)) + " " + Quoted(f.pattern) + " {", ActionLine(f), "  stop;", "}"]
  }

  predicate FilterQuotable(f: Filter) {
    && Quotable(HeaderOf(f), 64) && Quotable(f.pattern, MAX_PATTERN)
    && (f.action == "fileinto" ==> Quotable(f.destination, 64))
    && (f.action == "redirect" ==> Quotable(f.destination, 320))
  }

  function AllFilterLines(fs: seq<Filter>): seq<string> {
    if fs == [] then [] else AllFilterLines(fs[..|fs| - 1]) + FilterLines(fs[|fs| - 1])
  }

  predicate Files(fs: seq<Filter>) {
    exists i :: 0 <= i < |fs| && fs[i].action == "fileinto"
  }

  /** The required capabilities in sorted order. */
  function Capabilities(p: Policy): seq<string> {
    (if (p.spam.enabled && p.spam.action == "junk") || Files(p.global) || Files(p.filters)
     then ["fileinto", "mailbox"] else [])
    + (if p.auto.enabled then ["vacation"] else [])
  }

  function QuotedAll(names: seq<string>): (r: seq<string>)
    ensures |r| == |names|
  {
    if names == [] then [] else [Quoted(names[0])] + QuotedAll(names[1..])
  }

  const BANNER := "# Managed by Nexvary Panel." + " Do not edit manually."
  const GLOBAL_BANNER := "# Account-wide global filters"

  function RequireLines(p: Policy): seq<string> {
    if Capabilities(p) == [] then [] else ["require [" + Join(QuotedAll(Capabilities(p)), ", ") + "];"]
  }

  function GlobalLines(p: Policy): seq<string> {
    if p.global == [] then [] else [GLOBAL_BANNER] + AllFilterLines(p.global)
  }

  function SpamLines(s: Spam): seq<string> {
    if !s.enabled then []
    else ["if header :is \"X-Spam-Flag\" \"YES\" {",
          if s.action == "junk" then "  fileinto :create \"Junk\";" else "  discard;", "  stop;", "}"]
  }

  function VacationLines(a: Autoresponder): seq<string> {
    if !a.enabled then []
    else ["vacation :days " + Decimal(a.days) + " :subject " + Quoted(a.subject) + " " + Multiline(a.body) + ";"]
  }

  function ScriptLines(p: Policy): seq<string> {
    [BANNER] + RequireLines(p) + GlobalLines(p) + SpamLines(p.spam) + AllFilterLines(p.filters) + VacationLines(p.auto)
  }

  predicate AllQuotable(p: Policy) {
    && AllFiltersQuotable(p.global)
    && AllFiltersQuotable(p.filters)
    && (p.auto.enabled ==> Quotable(p.auto.subject, 180) && Bodied(p.auto.body))
  }

  /** _build_script: None where some string is refused. */
  function BuildScript(p: Policy): Option<string> {
    if AllQuotable(p) then Some(Join(ScriptLines(p), "\n") + "\n") else None
  }

  method AppendFilter(lines: seq<string>, f: Filter) returns (ok: bool, r: seq<string>)
    ensures ok == FilterQuotable(f)
    ensures ok ==> r == lines + FilterLines(f)
  {
    r := lines;
    if !Quotable(HeaderOf(f), 64) || !Quotable(f.pattern, MAX_PATTERN) {
      return false, r;
    }
    r := r + ["if header :" + f.matchType + " " + Quoted(HeaderOf(f)) + " " + Quoted(f.pattern) + " {"];
    if f.action == "fileinto" {
      if !Quotable(f.destination, 64) {
        return false, r;
      }
      r := r + ["  fileinto :create " + Quoted(f.destination) + ";"];
    } else if f.action == "redirect" {
      if !Quotable(f.destination, 320) {
        return false, r;
      }
      r := r + ["  redirect " + Quoted(f.destination) + ";"];
    } else {
      r := r + ["  discard;"];
    }
    r := r + ["  stop;"];
    r := r + ["}"];
    ok := true;
  }

  lemma AppendStep(lines: seq<string>, fs: seq<Filter>, i: nat)
    requires i < |fs|
    ensures lines + AllFilterLines(fs[..i]) + FilterLines(fs[i]) == lines + AllFilterLines(fs[..i + 1])
  {
    assert fs[..i + 1][..i] == fs[..i];
  }

  predicate AllFiltersQuotable(fs: seq<Filter>) {
    forall f :: f in fs ==> FilterQuotable(f)
  }

  lemma QuotableStep(fs: seq<Filter>, i: nat)
    requires i < |fs|
    ensures AllFiltersQuotable(fs[..i]) && FilterQuotable(fs[i]) ==> AllFiltersQuotable(fs[..i + 1])
    ensures !FilterQuotable(fs[i]) ==> !AllFiltersQuotable(fs)
  {
    assert fs[i] in fs;
  }

  method AppendFilters(lines: seq<string>, fs: seq<Filter>) returns (ok: bool, r: seq<string>)
    ensures ok == AllFiltersQuotable(fs)
    ensures ok ==> r == lines + AllFilterLines(fs)
  {
    r := lines;
    for i := 0 to |fs|
      invariant AllFiltersQuotable(fs[..i])
      invariant r == lines + AllFilterLines(fs[..i])
    {
      AppendStep(lines, fs, i);
      QuotableStep(fs, i);
      ok, r := AppendFilter(r, fs[i]);
      if !ok {
        return;
      }
    }
    assert fs[..|fs|] == fs;
    ok := true;
  }

  /** The set of extensions the policy needs, gathered item by item. */
  method CollectRequires(p: Policy) returns (requires_: set<string>)
    ensures requires_ == set s | s in Capabilities(p)
  {
    requires_ := {};
    if p.auto.enabled {
      requires_ := requires_ + {"vacation"};
    }
    if p.spam.enabled && p.spam.action == "junk" {
      requires_ := requires_ + {"fileinto", "mailbox"};
    }
    ghost var base := requires_;
    var all := p.global + p.filters;
    for i := 0 to |all|
      invariant requires_ == base + (if Files(all[..i]) then {"fileinto", "mailbox"} else {})
    {
      assert all[..i + 1] == all[..i] + [all[i]];
      FilesConcat(all[..i], [all[i]]);
      if all[i].action == "fileinto" {
        assert [all[i]][0].action == "fileinto";
        requires_ := requires_ + {"fileinto", "mailbox"};
      }
    }
    FilesConcat(p.global, p.filters);
    assert all[..|all|] == all;
  }

  /** sorted(requires) */
  function SortedNames(names: set<string>): seq<string> {
    (if "fileinto" in names then ["fileinto"] else [])
    + (if "mailbox" in names then ["mailbox"] else [])
    + (if "vacation" in names then ["vacation"] else [])
  }

  lemma SortedCapabilities(p: Policy)
    ensures var names := set s | s in Capabilities(p);
            SortedNames(names) == Capabilities(p) && (names == {} <==> Capabilities(p) == [])
  {
    var caps := Capabilities(p);
    var names := set s | s in caps;
    assert ["fileinto"] + ["mailbox"] == ["fileinto", "mailbox"];
    if caps != [] {
      assert caps[0] in names;
    }
  }

  method AppendSpam(lines: seq<string>, s: Spam) returns (r: seq<string>)
    ensures r == lines + SpamLines(s)
  {
    r := lines;
    if s.enabled {
      r := r + ["if header :is \"X-Spam-Flag\" \"YES\" {"];
      if s.action == "junk" {
        r := r + ["  fileinto :create \"Junk\";"];
      } else {
        r := r + ["  discard;"];
      }
      r := r + ["  stop;"];
      r := r + ["}"];
    }
  }

  method AppendVacation(lines: seq<string>, a: Autoresponder) returns (ok: bool, r: seq<string>)
    ensures ok == (a.enabled ==> Quotable(a.subject, 180) && Bodied(a.body))
    ensures ok ==> r == lines + VacationLines(a)
  {
    r := lines;
    ok := true;
    if a.enabled {
      var body := MultilineLoop(a.body);
      if !Quotable(a.subject, 180) || body.None? {
        return false, r;
      }
      r := r + ["vacation :days " + Decimal(a.days) + " :subject " + Quoted(a.subject) + " " + body.value + ";"];
    }
  }

  method AppendRequire(lines: seq<string>, p: Policy) returns (r: seq<string>)
    ensures r == lines + RequireLines(p)
  {
    var requires_ := CollectRequires(p);
    SortedCapabilities(p);
    r := lines;
    if requires_ != {} {
      r := r + ["require [" + Join(QuotedAll(SortedNames(requires_)), ", ") + "];"];
    }
  }

  method AppendGlobal(lines: seq<string>, p: Policy) returns (ok: bool, r: seq<string>)
    ensures ok == AllFiltersQuotable(p.global)
    ensures ok ==> r == lines + GlobalLines(p)
  {
    r := lines;
    ok := true;
    if p.global != [] {
      r := r + [GLOBAL_BANNER];
      ok, r := AppendFilters(r, p.global);
      assert lines + [GLOBAL_BANNER] + AllFilterLines(p.global) == lines + ([GLOBAL_BANNER] + AllFilterLines(p.global));
    }
  }

  method BuildScriptLoop(p: Policy) returns (r: Option<string>)
    ensures r == BuildScript(p)
  {
    var lines := AppendRequire([BANNER], p);
    var ok: bool;
    ok, lines := AppendGlobal(lines, p);
    if !ok {
      return None;
    }
    lines := AppendSpam(lines, p.spam);
    ok, lines := AppendFilters(lines, p.filters);
    if !ok {
      return None;
    }
    ok, lines := AppendVacation(lines, p.auto);
    if !ok {
      return None;
    }
    r := Some(Join(lines, "\n") + "\n");
  }

  lemma FilesConcat(a: seq<Filter>, b: seq<Filter>)
    ensures Files(a + b) <==> Files(a) || Files(b)
  {
    if Files(a) {
      var i :| 0 <= i < |a| && a[i].action == "fileinto";
      assert (a + b)[i].action == "fileinto";
    }
    if Files(b) {
      var i :| 0 <= i < |b| && b[i].action == "fileinto";
      assert (a + b)[|a| + i].action == "fileinto";
    }
  }
}
