/** agent/webtools.py and the agents that follow it: the host names that DOMAIN_RE matches. */
module HostNames {
  import opened Text

  predicate Alnum(c: char) {
    IsLetter(c) || IsDigit(c)
  }

  predicate HostChar(c: char) {
    Alnum(c) || c == '.' || c == '-'
  }

  predicate LabelOk(s: string) {
    1 <= |s| <= 63 && (forall i :: 0 <= i < |s| ==> Alnum(s[i]) || s[i] == '-') && Alnum(s[0]) && Alnum(s[|s| - 1])
  }

  predicate TopOk(s: string) {
    2 <= |s| <= 63 && forall i :: 0 <= i < |s| ==> IsLetter(s[i])
  }

  /** DOMAIN_RE */
  predicate DomainOk(d: string) {
    |d| <= 253
    && var parts := SplitOn(d, '.');
       |parts| >= 2 && TopOk(parts[|parts| - 1]) && forall i :: 0 <= i < |parts| - 1 ==> LabelOk(parts[i])
  }

  function StripDots(s: string): string {
    if s != "" && s[|s| - 1] == '.' then StripDots(s[..|s| - 1]) else s
  }

  /** A host name in the form that is stored: in lower case, without space around it and without dots at its end. */
  function Domain(value: string): (r: Option<string>)
    ensures r.Some? ==> DomainOk(r.value)
  {
    var d := StripDots(Lower(Strip(value)));
    if DomainOk(d) then Some(d) else None
  }

  lemma {:induction false} SplitChars(s: string, sep: char, i: nat)
    requires i < |s| && s[i] != sep
    ensures exists j, k :: 0 <= j < |SplitOn(s, sep)| && 0 <= k < |SplitOn(s, sep)[j]| && SplitOn(s, sep)[j][k] == s[i]
  {
    var rest := SplitOn(s[1..], sep);
    if i == 0 {
      assert SplitOn(s, sep)[0][0] == s[0];
    } else {
      SplitChars(s[1..], sep, i - 1);
      var j, k :| 0 <= j < |rest| && 0 <= k < |rest[j]| && rest[j][k] == s[i];
      if s[0] == sep {
        assert SplitOn(s, sep)[j + 1][k] == s[i];
      } else if j == 0 {
        assert SplitOn(s, sep)[0][k + 1] == s[i];
      } else {
        assert SplitOn(s, sep)[j][k] == s[i];
      }
    }
  }

  lemma DomainChars(d: string, i: nat)
    requires DomainOk(d) && i < |d|
    ensures HostChar(d[i])
  {
    if d[i] != '.' {
      SplitChars(d, '.', i);
      var parts := SplitOn(d, '.');
      var j, k :| 0 <= j < |parts| && 0 <= k < |parts[j]| && parts[j][k] == d[i];
      if j == |parts| - 1 {
        assert IsLetter(parts[j][k]);
      } else {
        assert LabelOk(parts[j]);
      }
    }
  }
}
