/**
 * agent/mail_backend.py, agent/mail_agent.py, agent/mail_default.py: the four maps of the mail provider, changed together
 * and put back together.
 */
module MailStore {
  import opened Text
  import opened MailFiles
  import opened HostNames
  import opened MailAddresses

  datatype State = State(users: Map, domains: Map, boxes: Map, aliases: Map)

  /** What makes a key, and the domain it belongs to. */
  datatype Keys = Keys(ok: string -> bool, domain: string -> string)

  ghost predicate Served(w: Keys, domains: Map, k: string) {
    w.ok(k) && w.domain(k) in domains
  }

  /**
   * Users and boxes have the same keys, no box is an alias or a catch-all, keys are keys, and the domain of every key is
   * served.
   */
  ghost predicate Consistent(w: Keys, s: State) {
    && s.users.Keys == s.boxes.Keys
    && (forall k :: k in s.boxes ==> k !in s.aliases && Served(w, s.domains, k) && k != "" && k[0] != '@')
    && (forall k :: k in s.aliases ==> Served(w, s.domains, k))
  }

  /** Keys are addresses or catch-alls in lower case; their domain is what is after the at sign. */
  ghost function MailKeys(): Keys {
    Keys((k: string) => KeyOk(k), DomainOf)
  }

  ghost predicate Inv(s: State) {
    Consistent(MailKeys(), s)
  }

  // ----- members of a mailing list -----

  function Member(raw: string): Option<string> {
    match Address(raw)
    case None => None
    case Some((local, domain)) => Some(Joined(local, domain))
  }

  type Reader = string -> Option<string>

  /** The members without repetitions, in the order they are first named; None for a bad address or the list itself. */
  function Gathered(member: Reader, value: seq<string>, source: string): Option<seq<string>> {
    if value == [] then Some([])
    else
      match Gathered(member, value[..|value| - 1], source)
      case None => None
      case Some(members) => GatherOne(members, member(value[|value| - 1]), source)
  }

  function GatherOne(members: seq<string>, member: Option<string>, source: string): Option<seq<string>> {
    match member
    case None => None
    case Some(a) => if a == source then None else if a in members then Some(members) else Some(members + [a])
  }

  function Members(value: seq<string>, source: string): Option<seq<string>> {
    if |value| > MAX_MEMBERS then None else Gathered(Member, value, source)
  }

  lemma GatheredMore(member: Reader, value: seq<string>, source: string, i: nat)
    requires i < |value|
    ensures Gathered(member, value[..i + 1], source)
         == match Gathered(member, value[..i], source)
            case None => None
            case Some(members) => GatherOne(members, member(value[i]), source)
  {
    assert value[..i + 1][..i] == value[..i];
  }

  lemma GatheredNone(member: Reader, value: seq<string>, source: string, i: nat)
    requires i <= |value| && Gathered(member, value[..i], source).None?
    ensures Gathered(member, value, source).None?
    decreases |value| - i
  {
    if i < |value| {
      GatheredMore(member, value, source, i);
      GatheredNone(member, value, source, i + 1);
    } else {
      assert value[..i] == value;
    }
  }

  /** _validated_members with allow_empty; `member` reads one address. */
  method ValidatedMembers(member: Reader, value: seq<string>, source: string) returns (r: Option<seq<string>>)
    ensures r == if |value| > MAX_MEMBERS then None else Gathered(member, value, source)
  {
    if |value| > MAX_MEMBERS {
      return None;
    }
    var members: seq<string> := [];
    var seen: set<string> := {};
    var i := 0;
    while i < |value|
      invariant 0 <= i <= |value|
      invariant Gathered(member, value[..i], source) == Some(members)
      invariant forall a :: a in seen <==> a in members
    {
      GatheredMore(member, value, source, i);
      var m := member(value[i]);
      if m.None? || m.value == source {
        GatheredNone(member, value, source, i + 1);
        return None;
      }
      if m.value !in seen {
        seen := seen + {m.value};
        members := members + [m.value];
      }
      i := i + 1;
    }
    assert value[..|value|] == value;
    r := Some(members);
  }

  /** The members are the addresses that were given, each once and without the list itself. */
  lemma {:induction false} GatheredOnce(member: Reader, value: seq<string>, source: string)
    requires Gathered(member, value, source).Some?
    ensures var r := Gathered(member, value, source).value;
            && (forall i, j :: 0 <= i < j < |r| ==> r[i] != r[j])
            && (forall a :: a in r <==> a != source && Named(member, value, a))
  {
    if value != [] {
      var n := |value| - 1;
      GatheredOnce(member, value[..n], source);
      forall a ensures Named(member, value, a) <==> Named(member, value[..n], a) || member(value[n]) == Some(a) {
        NamedMore(member, value, a);
      }
    }
  }

  ghost predicate Named(member: Reader, value: seq<string>, a: string) {
    exists i :: 0 <= i < |value| && member(value[i]) == Some(a)
  }

  lemma NamedMore(member: Reader, value: seq<string>, a: string)
    requires value != []
    ensures var n := |value| - 1; Named(member, value, a) <==> Named(member, value[..n], a) || member(value[n]) == Some(a)
  {
    var n := |value| - 1;
    if Named(member, value[..n], a) {
      var i :| 0 <= i < n && member(value[..n][i]) == Some(a);
      assert member(value[i]) == Some(a);
    }
    if Named(member, value, a) && member(value[n]) != Some(a) {
      var i :| 0 <= i < |value| && member(value[i]) == Some(a);
      assert member(value[..n][i]) == Some(a);
    }
  }

  // ----- what each request does to the maps -----

  datatype Request =
    | MailboxUpsert(address: string, hash: Option<string>, up: bool)
    | MailboxDelete(address: string)
    | ForwarderUpsert(source: string, destination: string, up: bool)
    | ForwarderDelete(source: string)
    | RoutingSync(domain: string, mode: string)
    | MailingListSync(address: string, members: seq<string>, expected: seq<string>)
    | DefaultAddressSync(domain: string, mode: string, destination: string)

  function Mode(mode: string): string {
    Lower(Strip(mode))
  }

  /** mailbox_upsert; `hash` is the hashed password, if it could be hashed. */
  function Upserted(s: State, address: string, hash: string): Option<State> {
    match Address(address)
    case None => None
    case Some((local, domain)) =>
      var key := Lower(address);
      Some(State(s.users[key := hash], s.domains[domain := "OK"], s.boxes[key := domain + "/" + local + "/"],
                 s.aliases - {key}))
  }

  function Deleted(s: State, address: string): Option<State> {
    if Address(address).None? then None
    else
      var key := Lower(address);
      Some(s.(users := s.users - {key}, boxes := s.boxes - {key}))
  }

  function Forwarded(s: State, source: string, destination: string): Option<State> {
    match Address(source)
    case None => None
    case Some((_, domain)) =>
      var key := Lower(source);
      if Address(destination).None? || key in s.boxes then None
      else Some(s.(domains := s.domains[domain := "OK"], aliases := s.aliases[key := Lower(destination)]))
  }

  function Unforwarded(s: State, source: string): Option<State> {
    if Address(source).None? then None else Some(s.(aliases := s.aliases - {Lower(source)}))
  }

  predicate InDomain(k: string, domain: string) {
    EndsWith(Lower(k), "@" + domain)
  }

  predicate Uses(m: Map, domain: string) {
    exists k :: k in m && InDomain(k, domain)
  }

  function Routed(s: State, domain: string, mode: string): Option<State> {
    match Domain(domain)
    case None => None
    case Some(d) =>
      if Mode(mode) == "remote" then
        if Uses(s.boxes, d) || Uses(s.users, d) || Uses(s.aliases, d) then None
        else Some(s.(domains := s.domains - {d}))
      else if Mode(mode) == "local" then Some(s.(domains := s.domains[d := "OK"]))
      else None
  }

  function Listed(s: State, address: string, members: seq<string>, expected: seq<string>): Option<State> {
    match Address(address)
    case None => None
    case Some((local, domain)) =>
      var source := Joined(local, domain);
      match (Members(members, source), Members(expected, source))
      case (Some(desired), Some(known)) =>
        var current := if source in s.aliases then Strip(s.aliases[source]) else "";
        if current != Join(known, ",") then None
        else if desired == [] then Some(s.(aliases := s.aliases - {source}))
        else if source in s.boxes || source in s.users then None
        else Some(s.(domains := s.domains[domain := "OK"], aliases := s.aliases[source := Join(desired, ",")]))
      case _ => None
  }

  function Defaulted(s: State, domain: string, mode: string, destination: string): Option<State> {
    match Domain(domain)
    case None => None
    case Some(d) =>
      if Mode(mode) == "reject" then Some(s.(aliases := s.aliases - {Joined("", d)}))
      else if Mode(mode) == "forward" then
        match Destination(destination, d)
        case None => None
        case Some(target) =>
          Some(s.(domains := s.domains[d := "OK"], aliases := s.aliases[Joined("", d) := target]))
      else None
  }

  /** The maps a request asks for, or None when it is refused. */
  function Apply(s: State, r: Request): Option<State> {
    match r
    case MailboxUpsert(address, hash, up) => if up && hash.Some? then Upserted(s, address, hash.value) else None
    case MailboxDelete(address) => Deleted(s, address)
    case ForwarderUpsert(source, destination, up) => if up then Forwarded(s, source, destination) else None
    case ForwarderDelete(source) => Unforwarded(s, source)
    case RoutingSync(domain, mode) => Routed(s, domain, mode)
    case MailingListSync(address, members, expected) => Listed(s, address, members, expected)
    case DefaultAddressSync(domain, mode, destination) => Defaulted(s, domain, mode, destination)
  }

  // ----- requests keep the maps clean and consistent -----

  lemma {:induction false} LowerTwice(s: string)
    ensures Lower(Lower(s)) == Lower(s)
  {
    assert forall i :: 0 <= i < |s| ==> LowerChar(LowerChar(s[i])) == LowerChar(s[i]);
  }

  /** Without space around it an address is its own key. */
  lemma AddressKey(address: string)
    requires Address(address).Some? && Stripped(address)
    ensures var (local, domain) := Address(address).value;
            KeyParts(Lower(address), local, domain) && Lower(address) == Joined(local, domain) && local != ""
  {
    StripFixed(address);
    LowerTwice(address);
  }

  lemma EndsPlain(address: string)
    requires address != "" && Plain(Lower(address))
    ensures Stripped(address)
  {
    var k := Lower(address);
    PlainFacts(k[0]);
    PlainFacts(k[|k| - 1]);
  }

  /** With space around it the key is not an address. */
  lemma SpacedKey(address: string)
    requires Address(address).Some? && !Stripped(address)
    ensures !KeyOk(Lower(address))
  {
    var k := Lower(address);
    assert address != "";
    if KeyOk(k) {
      var local, domain :| KeyParts(k, local, domain);
      KeyFacts(k, local, domain);
      EndsPlain(address);
    }
  }

  lemma KeyServed(key: string, local: string, domain: string)
    requires KeyParts(key, local, domain)
    ensures MailKeys().ok(key) && MailKeys().domain(key) == domain && Plain(key) && key != ""
    ensures local != "" ==> key[0] != '@'
  {
    KeyFacts(key, local, domain);
    if local != "" {
      assert LocalChar(local[0]) && key[0] == local[0];
    }
  }

  lemma BoxAdded(w: Keys, s: State, key: string, domain: string, hash: string, box: string)
    requires Consistent(w, s) && w.ok(key) && w.domain(key) == domain && key != "" && key[0] != '@'
    ensures Consistent(w, State(s.users[key := hash], s.domains[domain := "OK"], s.boxes[key := box], s.aliases - {key}))
  {
  }

  lemma AliasAdded(w: Keys, s: State, key: string, domain: string, value: string)
    requires Consistent(w, s) && w.ok(key) && w.domain(key) == domain && key !in s.boxes
    ensures Consistent(w, s.(domains := s.domains[domain := "OK"], aliases := s.aliases[key := value]))
  {
  }

  lemma Dropped(w: Keys, s: State, key: string)
    requires Consistent(w, s)
    ensures Consistent(w, s.(aliases := s.aliases - {key}))
    ensures Consistent(w, s.(users := s.users - {key}, boxes := s.boxes - {key}))
  {
  }

  lemma DomainAdded(w: Keys, s: State, domain: string)
    requires Consistent(w, s)
    ensures Consistent(w, s.(domains := s.domains[domain := "OK"]))
  {
  }

  /** A domain that no key belongs to can be given up. */
  lemma DomainDropped(w: Keys, s: State, domain: string)
    requires Consistent(w, s)
    requires forall k :: k in s.boxes || k in s.aliases ==> w.domain(k) != domain
    ensures Consistent(w, s.(domains := s.domains - {domain}))
  {
  }

  /**
   * A mailbox that is added keeps the maps consistent exactly when there is no space around its address: the parts of the
   * address are taken without it, the key with it.
   */
  lemma UpsertKeeps(s: State, address: string, hash: string)
    requires Inv(s) && Upserted(s, address, hash).Some?
    ensures Inv(Upserted(s, address, hash).value) <==> Stripped(address)
  {
    var key := Lower(address);
    var (local, domain) := Address(address).value;
    if Stripped(address) {
      AddressKey(address);
      KeyServed(key, local, domain);
      BoxAdded(MailKeys(), s, key, domain, hash, domain + "/" + local + "/");
    } else {
      SpacedKey(address);
      if Inv(Upserted(s, address, hash).value) {
        BoxKeys(Upserted(s, address, hash).value, key);
      }
    }
  }

  lemma BoxKeys(s: State, key: string)
    requires Inv(s) && key in s.boxes
    ensures KeyOk(key)
  {
    assert Served(MailKeys(), s.domains, key);
  }

  /** An address that becomes a key as it is has no space around it. */
  ghost predicate KeyStripped(r: Request) {
    match r
    case MailboxUpsert(address, _, _) => Stripped(address)
    case ForwarderUpsert(source, _, _) => Stripped(source)
    case _ => true
  }

  /** The same for a forwarder, which takes its key from the source address. */
  lemma ForwardKeeps(s: State, source: string, destination: string)
    requires Inv(s) && Forwarded(s, source, destination).Some?
    ensures Inv(Forwarded(s, source, destination).value) <==> Stripped(source)
  {
    var (local, domain) := Address(source).value;
    if Stripped(source) {
      AddressKey(source);
      KeyServed(Lower(source), local, domain);
      AliasAdded(MailKeys(), s, Lower(source), domain, Lower(destination));
    } else {
      SpacedKey(source);
      if Inv(Forwarded(s, source, destination).value) {
        AliasKeys(Forwarded(s, source, destination).value, Lower(source));
      }
    }
  }

  lemma AliasKeys(s: State, key: string)
    requires Inv(s) && key in s.aliases
    ensures KeyOk(key)
  {
    assert Served(MailKeys(), s.domains, key);
  }

  lemma InItsDomain(k: string, local: string, domain: string)
    requires KeyParts(k, local, domain)
    ensures InDomain(k, domain)
  {
    assert k == local + ("@" + domain);
    assert k[|local|..] == "@" + domain;
  }

  /** A key is in use by the domain that it belongs to. */
  lemma KeyUses(k: string, d: string)
    requires KeyOk(k) && DomainOf(k) == d
    ensures InDomain(k, d)
  {
    var local, domain :| KeyParts(k, local, domain);
    KeyFacts(k, local, domain);
    InItsDomain(k, local, domain);
  }

  lemma RouteKeeps(s: State, domain: string, mode: string)
    requires Inv(s) && Routed(s, domain, mode).Some?
    ensures Inv(Routed(s, domain, mode).value)
  {
    var d := Domain(domain).value;
    if Mode(mode) == "remote" {
      forall k | k in s.boxes || k in s.aliases ensures DomainOf(k) != d {
        assert Served(MailKeys(), s.domains, k);
        if DomainOf(k) == d {
          KeyUses(k, d);
        }
      }
      DomainDropped(MailKeys(), s, d);
    } else {
      DomainAdded(MailKeys(), s, d);
    }
  }

  lemma SourceKey(address: string)
    requires Address(address).Some?
    ensures var (local, domain) := Address(address).value; KeyParts(Joined(local, domain), local, domain) && local != ""
  {
    LowerTwice(Strip(address));
  }

  lemma ListKeeps(s: State, address: string, members: seq<string>, expected: seq<string>)
    requires Inv(s) && Listed(s, address, members, expected).Some?
    ensures Inv(Listed(s, address, members, expected).value)
  {
    var (local, domain) := Address(address).value;
    var source := Joined(local, domain);
    SourceKey(address);
    KeyServed(source, local, domain);
    var desired := Members(members, source).value;
    if desired == [] {
      Dropped(MailKeys(), s, source);
    } else {
      AliasAdded(MailKeys(), s, source, domain, Join(desired, ","));
    }
  }

  lemma {:induction false} StripDotsLower(s: string)
    requires Lower(s) == s
    ensures Lower(StripDots(s)) == StripDots(s)
  {
    if s != "" && s[|s| - 1] == '.' {
      var t := s[..|s| - 1];
      assert forall i :: 0 <= i < |t| ==> LowerChar(t[i]) == Lower(s)[i] == t[i];
      assert Lower(t) == t;
      StripDotsLower(t);
    }
  }

  lemma CatchAllKey(domain: string)
    requires Domain(domain).Some?
    ensures KeyParts(Joined("", Domain(domain).value), "", Domain(domain).value)
  {
    LowerTwice(Strip(domain));
    StripDotsLower(Lower(Strip(domain)));
    var d := Domain(domain).value;
    var k := Joined("", d);
    assert forall i :: 0 <= i < |k| ==> LowerChar(k[i]) == if i == 0 then '@' else Lower(d)[i - 1];
    assert Lower(k) == k;
  }

  lemma DefaultKeeps(s: State, domain: string, mode: string, destination: string)
    requires Inv(s) && Defaulted(s, domain, mode, destination).Some?
    ensures Inv(Defaulted(s, domain, mode, destination).value)
  {
    var d := Domain(domain).value;
    var key := Joined("", d);
    CatchAllKey(domain);
    KeyServed(key, "", d);
    if Mode(mode) == "reject" {
      Dropped(MailKeys(), s, key);
    } else {
      assert key[0] == '@';
      AliasAdded(MailKeys(), s, key, d, Destination(destination, d).value);
    }
  }

  /** A request that is not refused keeps the maps consistent exactly when its key has no space around it. */
  lemma ApplyKeeps(s: State, r: Request)
    requires Inv(s) && Apply(s, r).Some?
    ensures Inv(Apply(s, r).value) <==> KeyStripped(r)
  {
    match r {
      case MailboxUpsert(address, hash, up) => UpsertKeeps(s, address, hash.value);
      case MailboxDelete(address) => Dropped(MailKeys(), s, Lower(address));
      case ForwarderUpsert(source, destination, up) => ForwardKeeps(s, source, destination);
      case ForwarderDelete(source) => Dropped(MailKeys(), s, Lower(source));
      case RoutingSync(domain, mode) => RouteKeeps(s, domain, mode);
      case MailingListSync(address, members, expected) => ListKeeps(s, address, members, expected);
      case DefaultAddressSync(domain, mode, destination) => DefaultKeeps(s, domain, mode, destination);
    }
  }
}
