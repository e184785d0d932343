/** agent/php_ini_agent.py: the managed block of a site's .user.ini. */
module PhpIni {
  import opened Text

  const MARK := "; NEXVARY-MANAGED-PHP-"
  const BEGIN := MARK + "BEGIN"
  const END := MARK + "END"
  const MAX_INI_SIZE := 64 * 1024

  datatype Key =
    | MemoryLimit | UploadMaxFilesize | PostMaxSize
    | MaxExecutionTime | MaxInputTime | MaxInputVars
    | DisplayErrors | LogErrors

  const KEYS: set<Key> := {MemoryLimit, UploadMaxFilesize, PostMaxSize, MaxExecutionTime, MaxInputTime, MaxInputVars,
                           DisplayErrors, LogErrors}

  function Name(key: Key): string {
    match key
    case MemoryLimit => "memory_limit"
    case UploadMaxFilesize => "upload_max_filesize"
    case PostMaxSize => "post_max_size"
    case MaxExecutionTime => "max_execution_time"
    case MaxInputTime => "max_input_time"
    case MaxInputVars => "max_input_vars"
    case DisplayErrors => "display_errors"
    case LogErrors => "log_errors"
  }

  function KeyNamed(name: string): Option<Key> {
    if name == "memory_limit" then Some(MemoryLimit)
    else if name == "upload_max_filesize" then Some(UploadMaxFilesize)
    else if name == "post_max_size" then Some(PostMaxSize)
    else if name == "max_execution_time" then Some(MaxExecutionTime)
    else if name == "max_input_time" then Some(MaxInputTime)
    else if name == "max_input_vars" then Some(MaxInputVars)
    else if name == "display_errors" then Some(DisplayErrors)
    else if name == "log_errors" then Some(LogErrors)
    else None
  }

  lemma NamesRead(key: Key)
    ensures KeyNamed(Name(key)) == Some(key)
  {
  }

  datatype Kind = SizeKind | IntKind | BoolKind

  function KindOf(key: Key): Kind {
    if key.MemoryLimit? || key.UploadMaxFilesize? || key.PostMaxSize? then SizeKind
    else if key.DisplayErrors? || key.LogErrors? then BoolKind
    else IntKind
  }

  /** The allowed range of a size (in megabytes) or number setting. */
  function Limits(key: Key): (nat, nat) {
    match key
    case MemoryLimit => (64, 4096)
    case UploadMaxFilesize => (1, 2048)
    case PostMaxSize => (1, 4096)
    case MaxInputVars => (100, 20000)
    case _ => (10, 900)
  }

  function Default(key: Key): string {
    match key
    case MemoryLimit => "256M"
    case UploadMaxFilesize => "64M"
    case PostMaxSize => "64M"
    case MaxExecutionTime => "60"
    case MaxInputTime => "60"
    case MaxInputVars => "1000"
    case DisplayErrors => "Off"
    case LogErrors => "On"
  }

  // ----- normalisation -----

  /** A decoded JSON value, as far as the settings use it. */
  datatype Raw = RawNone | RawBool(b: bool) | RawInt(n: int) | RawReal(r: real) | RawStr(s: string) | RawOther

  type Settings = map<Key, string>

  function UpperChar(c: char): char {
    if 'a' <= c <= 'z' then c - 'a' + 'A' else c
  }

  function Upper(s: string): string {
    if s == "" then "" else [UpperChar(s[0])] + Upper(s[1..])
  }

  /** SIZE_RE: one to five digits without a leading zero, and M. */
  function SizeOf(s: string): Option<nat> {
    if 2 <= |s| <= 6 && s[|s| - 1] == 'M' && s[0] != '0' && (forall c :: c in s[..|s| - 1] ==> IsDigit(c))
    then Some(Number(s[..|s| - 1])) else None
  }

  /** int(raw) */
  function IntOf(raw: Raw): Option<int> {
    match raw
    case RawBool(b) => Some(if b then 1 else 0)
    case RawInt(n) => Some(n)
    case RawReal(r) => Some(if r >= 0.0 then r.Floor else -((-r).Floor))
    case RawStr(s) => ParseInt(s)
    case _ => None
  }

  /** The lower-case stripped text of a value, where it can be one of the accepted words. */
  function WordOf(raw: Raw): string {
    match raw
    case RawInt(n) => if n < 0 then "-" else Decimal(n)
    case RawStr(s) => Lower(Strip(s))
    case _ => ""
  }

  function SizeValue(text: string, limits: (nat, nat)): Option<string> {
    var size := SizeOf(text);
    if size.Some? && limits.0 <= size.value <= limits.1 then Some(Decimal(size.value) + "M") else None
  }

  function IntValue(n: Option<int>, limits: (nat, nat)): Option<string> {
    if n.Some? && limits.0 <= n.value <= limits.1 then Some(Decimal(n.value)) else None
  }

  function BoolValue(word: string): Option<string> {
    if word == "on" || word == "1" || word == "true" then Some("On")
    else if word == "off" || word == "0" || word == "false" then Some("Off")
    else None
  }

  /** One setting: its canonical text, or None where the code raises. */
  function NormalizeOne(key: Key, raw: Raw): Option<string> {
    match KindOf(key)
    case SizeKind => if raw.RawStr? then SizeValue(Upper(Strip(raw.s)), Limits(key)) else None
    case IntKind => IntValue(IntOf(raw), Limits(key))
    case BoolKind => if raw.RawBool? then Some(if raw.b then "On" else "Off") else BoolValue(WordOf(raw))
  }

  function Megabytes(value: string): nat {
    if value != "" && (forall c :: c in value[..|value| - 1] ==> IsDigit(c)) then Number(value[..|value| - 1]) else 0
  }

  /** A larger request fits in a post, and a post fits in memory. */
  predicate SizesOrdered(s: Settings)
    requires s.Keys == KEYS
  {
    Megabytes(s[MemoryLimit]) >= Megabytes(s[PostMaxSize]) >= Megabytes(s[UploadMaxFilesize])
  }

  /** A dict of settings by key, in insertion order. */
  type Items = seq<(Key, Raw)>

  ghost predicate DistinctKeys(items: Items) {
    forall i, j :: 0 <= i < j < |items| ==> items[i].0 != items[j].0
  }

  const DEFAULTS: Settings := map k | k in KEYS :: Default(k)

  /** How one setting is made canonical. */
  type Canonicaliser = (Key, Raw) -> Option<string>

  /** The canonical values of the given settings, or None when one is invalid. */
  function Values(nz: Canonicaliser, items: Items): (r: Option<Settings>)
    ensures r.Some? ==> forall k :: k in r.value ==> k in KEYS
  {
    if items == [] then Some(map[])
    else
      var (key, raw) := items[|items| - 1];
      match Values(nz, items[..|items| - 1])
      case None => None
      case Some(v) =>
        match nz(key, raw)
        case None => None
        case Some(value) => AllKeys(key); Some(v[key := value])
  }

  lemma AllKeys(k: Key)
    ensures k in KEYS
  {
  }

  lemma MergedKeys(v: Settings)
    requires forall k :: k in v ==> k in KEYS
    ensures (DEFAULTS + v).Keys == KEYS
  {
  }

  /** _normalize, for a dict whose keys are all known. */
  function Normalize(items: Items): Option<Settings> {
    match Values(NormalizeOne, items)
    case None => None
    case Some(v) => MergedKeys(v); if SizesOrdered(DEFAULTS + v) then Some(DEFAULTS + v) else None
  }

  lemma {:induction false} ValuesPrefix(nz: Canonicaliser, items: Items, n: nat)
    requires n <= |items| && Values(nz, items[..n]).None?
    ensures Values(nz, items).None?
    decreases |items|
  {
    if n < |items| {
      assert items[..|items| - 1][..n] == items[..n];
      ValuesPrefix(nz, items[..|items| - 1], n);
    } else {
      assert items[..n] == items;
    }
  }

  /** The loop over the items of the request: the defaults, overridden one by one. */
  method FillIn(nz: Canonicaliser, items: Items) returns (r: Option<Settings>)
    ensures r == match Values(nz, items) case None => None case Some(v) => Some(DEFAULTS + v)
  {
    var output := DEFAULTS;
    ghost var v: Settings := map[];
    for i := 0 to |items|
      invariant Values(nz, items[..i]) == Some(v) && output == DEFAULTS + v
    {
      assert items[..i + 1][..i] == items[..i];
      var value := nz(items[i].0, items[i].1);
      if value.None? {
        ValuesPrefix(nz, items, i + 1);
        return None;
      }
      output := output[items[i].0 := value.value];
      v := v[items[i].0 := value.value];
    }
    assert items[..|items|] == items;
    r := Some(output);
  }

  method NormalizeLoop(items: Items) returns (r: Option<Settings>)
    ensures r == Normalize(items)
  {
    r := FillIn(NormalizeOne, items);
    if r.Some? {
      MergedKeys(Values(NormalizeOne, items).value);
      if !SizesOrdered(r.value) {
        return None;
      }
    }
  }

  /** Each given setting has its canonical value; the others are absent. */
  ghost predicate ValuesOf(nz: Canonicaliser, items: Items, v: Settings) {
    && (forall i :: 0 <= i < |items| ==> items[i].0 in v && nz(items[i].0, items[i].1) == Some(v[items[i].0]))
    && (forall k :: k in v ==> exists i :: 0 <= i < |items| && items[i].0 == k)
  }

  lemma {:induction false} ValuesFound(nz: Canonicaliser, items: Items)
    requires DistinctKeys(items) && Values(nz, items).Some?
    ensures ValuesOf(nz, items, Values(nz, items).value)
  {
    if items != [] {
      var front, last := items[..|items| - 1], items[|items| - 1];
      ValuesFound(nz, front);
      assert front + [last] == items;
      ValuesSnoc(nz, front, last);
    }
  }

  lemma {:induction false} ValuesRefused(nz: Canonicaliser, items: Items) returns (i: nat)
    requires Values(nz, items).None?
    ensures i < |items| && nz(items[i].0, items[i].1).None?
  {
    i := |items| - 1;
    if Values(nz, items[..|items| - 1]).None? {
      i := ValuesRefused(nz, items[..|items| - 1]);
    }
  }

  lemma ValuesSnoc(nz: Canonicaliser, front: Items, last: (Key, Raw))
    requires DistinctKeys(front + [last]) && Values(nz, front).Some? && ValuesOf(nz, front, Values(nz, front).value)
    requires nz(last.0, last.1).Some?
    ensures ValuesOf(nz, front + [last], Values(nz, front).value[last.0 := nz(last.0, last.1).value])
  {
    var items := front + [last];
    var v := Values(nz, front).value;
    var w := v[last.0 := nz(last.0, last.1).value];
    assert items[|front|] == last;
    forall i | 0 <= i < |items| ensures items[i].0 in w && nz(items[i].0, items[i].1) == Some(w[items[i].0]) {
      if i < |front| {
        assert items[i] == front[i];
        assert items[i].0 != items[|front|].0;
      }
    }
    forall k | k in w ensures exists i :: 0 <= i < |items| && items[i].0 == k {
      if k == last.0 {
        assert items[|front|].0 == k;
      } else {
        var i :| 0 <= i < |front| && front[i].0 == k;
        assert items[i].0 == k;
      }
    }
  }

  lemma RefusedToo(nz: Canonicaliser, a: Items, b: Items)
    requires DistinctKeys(b) && (forall x :: x in a ==> x in b) && Values(nz, a).None?
    ensures Values(nz, b).None?
  {
    var i := ValuesRefused(nz, a);
    assert a[i] in b;
    var j :| 0 <= j < |b| && b[j] == a[i];
    if Values(nz, b).Some? {
      ValuesFound(nz, b);
      assert false;
    }
  }

  lemma ValuesOrder(nz: Canonicaliser, a: Items, b: Items)
    requires DistinctKeys(a) && DistinctKeys(b) && (forall x :: x in a <==> x in b)
    ensures Values(nz, a) == Values(nz, b)
  {
    if Values(nz, a).None? {
      RefusedToo(nz, a, b);
    } else if Values(nz, b).None? {
      RefusedToo(nz, b, a);
    } else {
      ValuesFound(nz, a);
      ValuesFound(nz, b);
      SameValues(nz, a, b, Values(nz, a).value, Values(nz, b).value);
    }
  }

  /** The order of the request's keys does not matter. */
  lemma OrderIrrelevant(a: Items, b: Items)
    requires DistinctKeys(a) && DistinctKeys(b) && (forall x :: x in a <==> x in b)
    ensures Normalize(a) == Normalize(b)
  {
    ValuesOrder(NormalizeOne, a, b);
  }

  lemma Found(nz: Canonicaliser, a: Items, b: Items, v: Settings, w: Settings, k: Key)
    requires ValuesOf(nz, a, v) && ValuesOf(nz, b, w) && (forall x :: x in a ==> x in b) && k in v
    ensures k in w && v[k] == w[k]
  {
    var i :| 0 <= i < |a| && a[i].0 == k;
    assert a[i] in b;
    var j :| 0 <= j < |b| && b[j] == a[i];
  }

  lemma SameValues(nz: Canonicaliser, a: Items, b: Items, v: Settings, w: Settings)
    requires ValuesOf(nz, a, v) && ValuesOf(nz, b, w) && (forall x :: x in a <==> x in b)
    ensures v == w
  {
    forall k | k in v ensures k in w && v[k] == w[k] {
      Found(nz, a, b, v, w, k);
    }
    forall k | k in w ensures k in v {
      Found(nz, b, a, w, v, k);
    }
  }

  // ----- canonical values stay as they are -----

  ghost predicate NoSpaces(s: string) {
    forall c :: c in s ==> !IsSpace(c)
  }

  lemma StripNoSpaces(s: string)
    requires NoSpaces(s)
    ensures Strip(s) == s
  {
    if s != "" {
      assert s[0] in s && s[|s| - 1] in s;
    }
    StripFixed(s);
  }

  lemma {:induction false} UpperFixed(s: string)
    requires forall c :: c in s ==> UpperChar(c) == c
    ensures Upper(s) == s
  {
    if s != "" {
      assert s[0] in s;
      UpperFixed(s[1..]);
    }
  }

  lemma DigitsPlain(s: string)
    requires forall c :: c in s ==> IsDigit(c)
    ensures NoSpaces(s) && NoSpaces(s + "M") && (forall c :: c in s + "M" ==> UpperChar(c) == c)
  {
    assert !IsSpace('M');
  }

  lemma SizeRead(n: nat, limits: (nat, nat))
    requires 1 <= limits.0 <= n <= limits.1 <= 4096
    ensures SizeValue(Decimal(n) + "M", limits) == Some(Decimal(n) + "M") && Megabytes(Decimal(n) + "M") == n
  {
    var d := Decimal(n);
    var v := d + "M";
    assert Power10(4) == 10000 by {
      assert Power10(2) == 100;
    }
    DecimalLength(n, 4);
    assert v[..|v| - 1] == d;
    assert v[0] == d[0];
    NumberDecimal(n);
  }

  /** What a stored value of a key looks like. */
  ghost predicate Canonical(key: Key, value: string) {
    match KindOf(key)
    case SizeKind => exists n: nat :: Limits(key).0 <= n <= Limits(key).1 && value == Decimal(n) + "M"
    case IntKind => exists n: nat :: Limits(key).0 <= n <= Limits(key).1 && value == Decimal(n)
    case BoolKind => value == "On" || value == "Off"
  }

  lemma DefaultNumbers()
    ensures Decimal(256) == "256" && Decimal(64) == "64" && Decimal(60) == "60" && Decimal(1000) == "1000"
  {
    assert Decimal(2) == "2" && Decimal(6) == "6" && Decimal(1) == "1";
    assert Decimal(25) == "2" + "5" && Decimal(10) == "1" + "0";
    assert Decimal(100) == "10" + "0";
  }

  lemma DefaultCanonical(key: Key)
    ensures Canonical(key, Default(key))
  {
    DefaultNumbers();
    if key.MemoryLimit? {
      assert Decimal(256) + "M" == "256M";
    } else if KindOf(key).SizeKind? {
      assert Decimal(64) + "M" == "64M";
    }
  }

  lemma NormalizedCanonical(key: Key, raw: Raw)
    requires NormalizeOne(key, raw).Some?
    ensures Canonical(key, NormalizeOne(key, raw).value)
  {
  }

  lemma SizeVia(key: Key, text: string, upper: string)
    requires KindOf(key).SizeKind? && Upper(Strip(text)) == upper
    ensures NormalizeOne(key, RawStr(text)) == SizeValue(upper, Limits(key))
  {
  }

  lemma SizePlain(d: string)
    requires forall c :: c in d ==> IsDigit(c)
    ensures Upper(Strip(d + "M")) == d + "M"
  {
    DigitsPlain(d);
    StripNoSpaces(d + "M");
    UpperFixed(d + "M");
  }

  lemma CanonicalSize(key: Key, n: nat)
    requires KindOf(key).SizeKind? && Limits(key).0 <= n <= Limits(key).1
    ensures NormalizeOne(key, RawStr(Decimal(n) + "M")) == Some(Decimal(n) + "M")
  {
    SizePlain(Decimal(n));
    SizeVia(key, Decimal(n) + "M", Decimal(n) + "M");
    SizeRead(n, Limits(key));
  }

  lemma IntVia(key: Key, text: string, n: nat)
    requires KindOf(key).IntKind? && ParseInt(text) == Some(n) && Limits(key).0 <= n <= Limits(key).1
    ensures NormalizeOne(key, RawStr(text)) == Some(Decimal(n))
  {
  }

  lemma CanonicalInt(key: Key, n: nat)
    requires KindOf(key).IntKind? && Limits(key).0 <= n <= Limits(key).1
    ensures NormalizeOne(key, RawStr(Decimal(n))) == Some(Decimal(n))
  {
    ParseDecimal(n);
    IntVia(key, Decimal(n), n);
  }

  lemma WordRead(value: string)
    requires value == "On" || value == "Off"
    ensures NoSpaces(value) && BoolValue(Lower(value)) == Some(value)
  {
    var w := Lower(value);
    assert value == "On" ==> w == "on";
    assert value == "Off" ==> w == "off";
  }

  lemma BoolVia(key: Key, text: string, word: string)
    requires KindOf(key).BoolKind? && Strip(text) == text && Lower(text) == word
    ensures NormalizeOne(key, RawStr(text)) == BoolValue(word)
  {
  }

  lemma CanonicalBool(key: Key, value: string)
    requires KindOf(key).BoolKind? && (value == "On" || value == "Off")
    ensures NormalizeOne(key, RawStr(value)) == Some(value)
  {
    WordRead(value);
    StripNoSpaces(value);
    BoolVia(key, value, Lower(value));
  }

  lemma CanonicalFixed(key: Key, value: string)
    requires Canonical(key, value)
    ensures NormalizeOne(key, RawStr(value)) == Some(value)
  {
    match KindOf(key)
    case SizeKind =>
      var n: nat :| Limits(key).0 <= n <= Limits(key).1 && value == Decimal(n) + "M";
      CanonicalSize(key, n);
    case IntKind =>
      var n: nat :| Limits(key).0 <= n <= Limits(key).1 && value == Decimal(n);
      CanonicalInt(key, n);
    case BoolKind =>
      CanonicalBool(key, value);
  }

  ghost predicate AllCanonical(s: Settings) {
    forall k :: k in s ==> Canonical(k, s[k])
  }

  /** Settings as _normalize returns them. */
  ghost predicate Normal(s: Settings) {
    s.Keys == KEYS && AllCanonical(s) && SizesOrdered(s)
  }

  lemma {:induction false} ValuesCanonical(items: Items)
    requires Values(NormalizeOne, items).Some?
    ensures AllCanonical(Values(NormalizeOne, items).value)
  {
    if items != [] {
      ValuesCanonical(items[..|items| - 1]);
      NormalizedCanonical(items[|items| - 1].0, items[|items| - 1].1);
    }
  }

  lemma NormalizeGivesNormal(items: Items)
    requires Normalize(items).Some?
    ensures Normal(Normalize(items).value)
  {
    ValuesCanonical(items);
    var v := Values(NormalizeOne, items).value;
    MergedKeys(v);
    var s := DEFAULTS + v;
    forall k | k in s ensures Canonical(k, s[k]) {
      if k !in v {
        DefaultCanonical(k);
      }
    }
  }

  function ValueOf(s: Settings, key: Key): string
    requires s.Keys == KEYS
  {
    AllKeys(key);
    s[key]
  }

  /** Settings read back as strings, in some order of the keys. */
  function AsItems(s: Settings, order: seq<Key>): Items
    requires s.Keys == KEYS
  {
    seq(|order|, i requires 0 <= i < |order| => (order[i], RawStr(ValueOf(s, order[i]))))
  }

  lemma {:induction false} ItemsValues(s: Settings, order: seq<Key>)
    requires s.Keys == KEYS && AllCanonical(s)
    ensures Values(NormalizeOne, AsItems(s, order)).Some?
    ensures var v := Values(NormalizeOne, AsItems(s, order)).value;
            (forall k :: k in v <==> k in order) && (forall k :: k in v ==> v[k] == ValueOf(s, k))
  {
    if order != [] {
      var front, last := order[..|order| - 1], order[|order| - 1];
      ItemsValues(s, front);
      AllKeys(last);
      CanonicalFixed(last, s[last]);
      assert AsItems(s, order)[..|order| - 1] == AsItems(s, front);
      assert order == front + [last];
    }
  }

  /** A listing of all keys. */
  ghost predicate Listing(order: seq<Key>) {
    && (forall k :: k in KEYS ==> k in order)
    && (forall i, j :: 0 <= i < j < |order| ==> order[i] != order[j])
  }

  lemma MergeAll(s: Settings, v: Settings)
    requires s.Keys == KEYS && (forall k :: k in KEYS ==> k in v) && (forall k :: k in v ==> k in s && v[k] == s[k])
    ensures DEFAULTS + v == s
  {
  }

  lemma NormalFixed(s: Settings, order: seq<Key>)
    requires Normal(s) && Listing(order)
    ensures Normalize(AsItems(s, order)) == Some(s)
  {
    ItemsValues(s, order);
    var v := Values(NormalizeOne, AsItems(s, order)).value;
    forall k | k in v ensures k in s && v[k] == s[k] {
      AllKeys(k);
    }
    MergeAll(s, v);
  }

  /** Normalising normalised settings changes nothing; sizes keep memory >= post >= upload, each within its limits. */
  lemma NormalizeIdempotent(items: Items, order: seq<Key>)
    requires Normalize(items).Some? && Listing(order)
    ensures var s := Normalize(items).value;
            && s.Keys == KEYS
            && Normalize(AsItems(s, order)) == Some(s)
            && 64 <= Megabytes(s[MemoryLimit]) <= 4096
            && Megabytes(s[MemoryLimit]) >= Megabytes(s[PostMaxSize]) >= Megabytes(s[UploadMaxFilesize]) >= 1
  {
    NormalizeGivesNormal(items);
    var s := Normalize(items).value;
    NormalFixed(s, order);
    SizeWithin(s, MemoryLimit);
    SizeWithin(s, UploadMaxFilesize);
  }

  lemma SizeWithin(s: Settings, key: Key)
    requires Normal(s) && KindOf(key).SizeKind?
    ensures key in s && Limits(key).0 <= Megabytes(s[key]) <= Limits(key).1
  {
    AllKeys(key);
    assert Canonical(key, s[key]);
    var n: nat :| Limits(key).0 <= n <= Limits(key).1 && s[key] == Decimal(n) + "M";
    SizeRead(n, Limits(key));
  }
}
