/** agent/mail_backend.py, agent/mail_agent.py, agent/mail_default.py: the addresses and domains the mail provider accepts. */
module MailAddresses {
  import opened Text
  import opened MailFiles
  import opened HostNames

  const MAX_INPUT := 320
  const MAX_MEMBERS := 100

  predicate LocalChar(c: char) {
    Alnum(c) || c == '.' || c == '_' || c == '+' || c == '-'
  }

  predicate DotDot(s: string) {
    exists i :: 0 <= i < |s| - 1 && s[i] == '.' && s[i + 1] == '.'
  }

  predicate LocalOk(s: string) {
    && 1 <= |s| <= 64 && (forall i :: 0 <= i < |s| ==> LocalChar(s[i]))
    && Alnum(s[0]) && Alnum(s[|s| - 1]) && !DotDot(s)
  }

  function Joined(local: string, domain: string): string {
    local + "@" + domain
  }

  /** _address: the local part and the domain. */
  function Address(value: string): (r: Option<(string, string)>)
    ensures r.Some? ==> LocalOk(r.value.0) && DomainOk(r.value.1)
    ensures r.Some? ==> Lower(Strip(value)) == Joined(r.value.0, r.value.1)
  {
    if |value| > MAX_INPUT then None
    else
      var v := Lower(Strip(value));
      var n := IndexOf(v, '@');
      if n < |v| && LocalOk(v[..n]) && DomainOk(v[n + 1..]) then
        assert v == v[..n] + [v[n]] + v[n + 1..];
        Some((v[..n], v[n + 1..]))
      else None
  }

  const EMAIL_MARKS := ".!#$%&'*+/=?^_`{|}~-"

  predicate EmailChar(c: char) {
    Alnum(c) || c in EMAIL_MARKS
  }

  /** _destination: where a catch-all may forward to. */
  function Destination(value: string, domain: string): (r: Option<string>) {
    var a := Lower(Strip(value));
    var n := IndexOf(a, '@');
    if |a| > MAX_INPUT || n == |a| || DotDot(a) then None
    else
      var local, host := a[..n], a[n + 1..];
      if 1 <= |local| <= 64 && 1 <= |host| <= 253
         && (forall i :: 0 <= i < |local| ==> EmailChar(local[i])) && (forall i :: 0 <= i < |host| ==> HostChar(host[i]))
         && host != domain then Some(a)
      else None
  }

  // ----- keys of the maps -----

  /** An address, or the catch-all of a domain, in lower case. */
  ghost predicate KeyParts(k: string, local: string, domain: string) {
    k == Joined(local, domain) && (local == "" || LocalOk(local)) && DomainOk(domain) && Lower(k) == k
  }

  ghost predicate KeyOk(k: string) {
    exists local, domain :: KeyParts(k, local, domain)
  }

  /** What is after the at sign. */
  function DomainOf(k: string): string {
    var n := IndexOf(k, '@');
    if n == |k| then "" else k[n + 1..]
  }

  predicate PlainChar(c: char) {
    LocalChar(c) || c == '@'
  }

  ghost predicate Plain(s: string) {
    forall i :: 0 <= i < |s| ==> PlainChar(s[i])
  }

  lemma PlainFacts(c: char)
    requires PlainChar(c)
    ensures !IsSpace(c) && !IsBreak(c) && c != '#' && c != ':' && c != ','
  {
  }

  lemma DomainPlain(d: string)
    requires DomainOk(d)
    ensures Plain(d) && '@' !in d && d != ""
  {
    forall i | 0 <= i < |d| ensures PlainChar(d[i]) && d[i] != '@' {
      DomainChars(d, i);
    }
  }

  lemma KeyFacts(k: string, local: string, domain: string)
    requires KeyParts(k, local, domain)
    ensures Plain(k) && IndexOf(k, '@') == |local| && DomainOf(k) == domain && k != ""
  {
    DomainPlain(domain);
    assert forall i :: 0 <= i < |local| ==> LocalChar(local[i]);
    assert '@' !in local;
    IndexOfSep(local, '@', domain);
    assert k[|local| + 1..] == domain;
  }
}
