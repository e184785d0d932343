/** agent/mail_backend.py: a request to the mail provider as one transaction over its four files. */
module MailTransactions {
  import opened Text
  import opened Sorting
  import opened MailFiles
  import opened MailLines
  import opened HostNames
  import opened MailAddresses
  import opened MailStore

  ghost predicate AllClean(s: State) {
    Clean(USERS, s.users) && Clean(MAP, s.domains) && Clean(MAP, s.boxes) && Clean(MAP, s.aliases)
  }

  // ----- what is written can be read -----

  ghost predicate Tame(v: string) {
    v != "" && NoBreaks(v) && !IsSpace(v[0]) && !IsSpace(v[|v| - 1])
  }

  lemma PlainTame(v: string)
    requires Plain(v) && v != ""
    ensures Tame(v) && ':' !in v && ' ' !in v && v[0] != '#'
  {
    forall i | 0 <= i < |v| ensures !IsBreak(v[i]) && !IsSpace(v[i]) && v[i] != ':' && v[i] != ' ' && v[i] != '#' {
      PlainFacts(v[i]);
    }
  }

  lemma PairClean(f: Format, k: string, v: string)
    requires f in {USERS, MAP} && Plain(k) && k != "" && Tame(v)
    ensures CleanPair(f, k, v)
  {
    PlainTame(k);
  }

  lemma CleanMore(f: Format, m: Map, k: string, v: string)
    requires Clean(f, m)
    ensures Clean(f, m[k := v]) <==> CleanPair(f, k, v)
  {
    assert Clean(f, m[k := v]) ==> k in m[k := v] && m[k := v][k] == v;
  }

  lemma CleanLess(f: Format, m: Map, k: string)
    requires Clean(f, m)
    ensures Clean(f, m - {k})
  {
  }

  lemma OkTame()
    ensures Tame("OK")
  {
  }

  lemma DomainClean(m: Map, d: string)
    requires Clean(MAP, m) && DomainOk(d)
    ensures Clean(MAP, m[d := "OK"]) && Clean(MAP, m - {d})
  {
    DomainPlain(d);
    OkTame();
    PairClean(MAP, d, "OK");
    CleanMore(MAP, m, d, "OK");
    CleanLess(MAP, m, d);
  }

  lemma BoxTame(local: string, domain: string)
    requires LocalOk(local) && DomainOk(domain)
    ensures Tame(domain + "/" + local + "/")
  {
    DomainPlain(domain);
    var v := domain + "/" + local + "/";
    forall i | 0 <= i < |v| ensures !IsBreak(v[i]) && (i == 0 || i == |v| - 1 ==> !IsSpace(v[i])) {
      if i < |domain| {
        PlainFacts(domain[i]);
      } else if |domain| < i < |domain| + 1 + |local| {
        assert v[i] == local[i - |domain| - 1];
        assert LocalChar(v[i]);
        PlainFacts(v[i]);
      } else {
        assert v[i] == '/';
      }
    }
  }

  lemma UpsertClean(s: State, address: string, hash: string)
    requires AllClean(s) && Upserted(s, address, hash).Some?
    ensures AllClean(Upserted(s, address, hash).value)
       <==> CleanKey(USERS, Lower(address)) && CleanKey(MAP, Lower(address)) && CleanValue(USERS, hash)
  {
    var (local, domain) := Address(address).value;
    var key := Lower(address);
    BoxTame(local, domain);
    DomainClean(s.domains, domain);
    CleanMore(USERS, s.users, key, hash);
    CleanMore(MAP, s.boxes, key, domain + "/" + local + "/");
    CleanLess(MAP, s.aliases, key);
  }

  lemma AliasClean(s: State, key: string, domain: string, value: string)
    requires AllClean(s) && Plain(key) && key != "" && DomainOk(domain) && Tame(value)
    ensures AllClean(s.(domains := s.domains[domain := "OK"], aliases := s.aliases[key := value]))
  {
    DomainClean(s.domains, domain);
    PairClean(MAP, key, value);
    CleanMore(MAP, s.aliases, key, value);
  }

  lemma ForwardClean(s: State, source: string, destination: string)
    requires AllClean(s) && Forwarded(s, source, destination).Some?
    ensures AllClean(Forwarded(s, source, destination).value)
       <==> CleanKey(MAP, Lower(source)) && CleanValue(MAP, Lower(destination))
  {
    DomainClean(s.domains, Address(source).value.1);
    CleanMore(MAP, s.aliases, Lower(source), Lower(destination));
  }

  lemma {:induction false} JoinTame(parts: seq<string>)
    requires parts != [] && forall i :: 0 <= i < |parts| ==> Tame(parts[i])
    ensures Tame(Join(parts, ","))
  {
    assert Tame(parts[0]);
    if |parts| > 1 {
      var rest := Join(parts[1..], ",");
      JoinTame(parts[1..]);
      var v := parts[0] + "," + rest;
      forall i | 0 <= i < |v| ensures !IsBreak(v[i]) {
        if i > |parts[0]| {
          assert v[i] == rest[i - |parts[0]| - 1];
        }
      }
      assert v[|v| - 1] == rest[|rest| - 1];
    }
  }

  lemma MemberTame(raw: string)
    requires Member(raw).Some?
    ensures Tame(Member(raw).value)
  {
    var (local, domain) := Address(raw).value;
    SourceKey(raw);
    KeyServed(Joined(local, domain), local, domain);
    PlainTame(Joined(local, domain));
  }

  lemma MembersTame(value: seq<string>, source: string, i: nat)
    requires Members(value, source).Some? && i < |Members(value, source).value|
    ensures Tame(Members(value, source).value[i])
  {
    GatheredOnce(Member, value, source);
    var a := Members(value, source).value[i];
    assert Named(Member, value, a);
    var j :| 0 <= j < |value| && Member(value[j]) == Some(a);
    MemberTame(value[j]);
  }

  lemma ListClean(s: State, address: string, members: seq<string>, expected: seq<string>)
    requires AllClean(s) && Listed(s, address, members, expected).Some?
    ensures AllClean(Listed(s, address, members, expected).value)
  {
    var (local, domain) := Address(address).value;
    var source := Joined(local, domain);
    SourceKey(address);
    KeyServed(source, local, domain);
    var desired := Members(members, source).value;
    CleanLess(MAP, s.aliases, source);
    if desired != [] {
      forall i | 0 <= i < |desired| ensures Tame(desired[i]) {
        MembersTame(members, source, i);
      }
      JoinTame(desired);
      AliasClean(s, source, domain, Join(desired, ","));
    }
  }

  lemma EmailFacts(c: char)
    requires EmailChar(c) || HostChar(c) || c == '@'
    ensures !IsSpace(c) && !IsBreak(c)
  {
    if c in EMAIL_MARKS {
      assert '!' <= c <= '~';
    }
  }

  lemma DestinationTame(value: string, domain: string)
    requires Destination(value, domain).Some?
    ensures Tame(Destination(value, domain).value)
  {
    var a := Lower(Strip(value));
    var n := IndexOf(a, '@');
    forall i | 0 <= i < |a| ensures !IsSpace(a[i]) && !IsBreak(a[i]) {
      assert i < n ==> a[i] == a[..n][i];
      assert i > n ==> a[i] == a[n + 1..][i - n - 1];
      EmailFacts(a[i]);
    }
  }

  lemma DefaultClean(s: State, domain: string, mode: string, destination: string)
    requires AllClean(s) && Defaulted(s, domain, mode, destination).Some?
    ensures AllClean(Defaulted(s, domain, mode, destination).value)
  {
    var d := Domain(domain).value;
    var key := Joined("", d);
    CatchAllKey(domain);
    KeyServed(key, "", d);
    CleanLess(MAP, s.aliases, key);
    if Mode(mode) == "forward" {
      DestinationTame(destination, d);
      AliasClean(s, key, d, Destination(destination, d).value);
    }
  }

  /** What a request puts in a file as it is can be read back from a line of the file. */
  ghost predicate Writable(r: Request) {
    match r
    case MailboxUpsert(address, hash, _) =>
      CleanKey(USERS, Lower(address)) && CleanKey(MAP, Lower(address)) && (hash.Some? ==> CleanValue(USERS, hash.value))
    case ForwarderUpsert(source, destination, _) => CleanKey(MAP, Lower(source)) && CleanValue(MAP, Lower(destination))
    case _ => true
  }

  /** A request that is not refused leaves maps that can be written and read exactly when what it puts there as it is can. */
  lemma ApplyClean(s: State, r: Request)
    requires AllClean(s) && Apply(s, r).Some?
    ensures AllClean(Apply(s, r).value) <==> Writable(r)
  {
    match r {
      case MailboxUpsert(address, hash, up) => UpsertClean(s, address, hash.value);
      case MailboxDelete(address) =>
        CleanLess(USERS, s.users, Lower(address));
        CleanLess(MAP, s.boxes, Lower(address));
      case ForwarderUpsert(source, destination, up) => ForwardClean(s, source, destination);
      case ForwarderDelete(source) => CleanLess(MAP, s.aliases, Lower(source));
      case RoutingSync(domain, mode) => DomainClean(s.domains, Domain(domain).value);
      case MailingListSync(address, members, expected) => ListClean(s, address, members, expected);
      case DefaultAddressSync(domain, mode, destination) => DefaultClean(s, domain, mode, destination);
    }
  }

  // ----- what the files hold -----

  /** What the files mean that are written for a state. */
  ghost function Stored(s: State): State {
    State(Contents(USERS, TextOf(USERS, s.users)), Contents(MAP, TextOf(MAP, s.domains)),
          Contents(MAP, TextOf(MAP, s.boxes)), Contents(MAP, TextOf(MAP, s.aliases)))
  }

  lemma StoredExactly(s: State)
    ensures Stored(s) == s <==> AllClean(s)
  {
    RoundTripExactly(USERS, s.users, Sorted(s.users.Keys));
    RoundTripExactly(MAP, s.domains, Sorted(s.domains.Keys));
    RoundTripExactly(MAP, s.boxes, Sorted(s.boxes.Keys));
    RoundTripExactly(MAP, s.aliases, Sorted(s.aliases.Keys));
  }

  lemma StoredMap(m: Map)
    requires Clean(MAP, m)
    ensures Contents(MAP, TextOf(MAP, m)) == m
  {
    RoundTrip(MAP, m, Sorted(m.Keys));
  }

  lemma StoredUsers(m: Map)
    requires Clean(USERS, m)
    ensures Contents(USERS, TextOf(USERS, m)) == m
  {
    RoundTrip(USERS, m, Sorted(m.Keys));
  }

  lemma {:induction false} LowerSpaces(w: string)
    requires AllSpace(w)
    ensures Lower(w) == w
  {
    assert forall i :: 0 <= i < |w| ==> Lower(w)[i] == LowerChar(w[i]) == w[i];
  }

  lemma LowerCat(x: string, y: string)
    ensures Lower(x + y) == Lower(x) + Lower(y)
  {
    forall i | 0 <= i < |x + y| ensures Lower(x + y)[i] == (Lower(x) + Lower(y))[i] {
    }
  }

  /** The address without the space around it. */
  function Bare(address: string): string {
    Lower(Strip(address))
  }

  /** The key of an address is the address with the space that stood around it. */
  lemma AddressParts(address: string)
    requires Address(address).Some?
    ensures Lower(address) == Lead(address) + (Bare(address) + Trail(address))
    ensures AllSpace(Lead(address)) && AllSpace(Trail(address)) && Core(Bare(address)) && ':' !in Bare(address)
    ensures var (local, domain) := Address(address).value; KeyParts(Bare(address), local, domain) && local != ""
  {
    StripParts(address);
    LowerCat(Lead(address), Strip(address) + Trail(address));
    LowerCat(Strip(address), Trail(address));
    LowerSpaces(Lead(address));
    LowerSpaces(Trail(address));
    SourceKey(address);
    var (local, domain) := Address(address).value;
    KeyFacts(Bare(address), local, domain);
    PlainTame(Bare(address));
    PlainCore(Bare(address));
  }

  lemma PlainCore(k: string)
    requires Plain(k) && k != ""
    ensures Core(k)
  {
    forall i | 0 <= i < |k| ensures !IsSpace(k[i]) && !IsBreak(k[i]) && k[i] != '#' {
      PlainFacts(k[i]);
    }
  }

  lemma BoxCore(local: string, domain: string)
    requires LocalOk(local) && DomainOk(domain)
    ensures Core(domain + "/" + local + "/")
  {
    DomainPlain(domain);
    PlainCore(domain);
    var v := domain + "/" + local + "/";
    forall i | 0 <= i < |v| ensures !IsBreak(v[i]) && !IsSpace(v[i]) {
      if |domain| < i < |domain| + 1 + |local| {
        assert v[i] == local[i - |domain| - 1];
        assert LocalChar(v[i]);
        PlainFacts(v[i]);
      } else {
        assert v[i] == if i < |domain| then domain[i] else '/';
      }
    }
  }

  /** Which keys the files have after a mailbox was added. */
  lemma UpsertStored(s: State, address: string, hash: string)
    requires AllClean(s) && Upserted(s, address, hash).Some? && CleanValue(USERS, hash)
    ensures var t, key := Stored(Upserted(s, address, hash).value), Lower(address);
            && t.users.Keys == (s.users.Keys - {key}) + UserGives(Bare(address), Trail(address))
            && t.boxes.Keys == (s.boxes.Keys - {key}) + MapGives(Bare(address), Trail(address), "")
            && t.domains == s.domains[Address(address).value.1 := "OK"] && t.aliases == s.aliases - {key}
  {
    var (local, domain) := Address(address).value;
    var key, a, box := Lower(address), Bare(address), domain + "/" + local + "/";
    AddressParts(address);
    BoxCore(local, domain);
    UserKeys(s.users, Lead(address), a, Trail(address), hash);
    MapKeys(s.boxes, Lead(address), a, Trail(address), "", box, "");
    assert "" + (box + "") == box;
    DomainClean(s.domains, domain);
    StoredMap(s.domains[domain := "OK"]);
    StoredMap(s.aliases - {key});
  }

  lemma AliasStored(m: Map, source: string, destination: string)
    requires Clean(MAP, m) && Address(source).Some? && Address(destination).Some?
    ensures Contents(MAP, TextOf(MAP, m[Lower(source) := Lower(destination)])).Keys
         == (m.Keys - {Lower(source)}) + MapGives(Bare(source), Trail(source), Lead(destination))
  {
    AddressParts(source);
    AddressParts(destination);
    MapKeys(m, Lead(source), Bare(source), Trail(source), Lead(destination), Bare(destination), Trail(destination));
  }

  lemma ForwardStored(s: State, source: string, destination: string)
    requires AllClean(s) && Forwarded(s, source, destination).Some?
    ensures var t, key := Stored(Forwarded(s, source, destination).value), Lower(source);
            && t.users == s.users && t.boxes == s.boxes && t.domains == s.domains[Address(source).value.1 := "OK"]
            && t.aliases.Keys == (s.aliases.Keys - {key}) + MapGives(Bare(source), Trail(source), Lead(destination))
  {
    var domain := Address(source).value.1;
    AliasStored(s.aliases, source, destination);
    DomainClean(s.domains, domain);
    StoredMap(s.domains[domain := "OK"]);
    StoredMap(s.boxes);
    StoredUsers(s.users);
  }

  /** Consistency is about keys. */
  lemma KeysDecide(w: Keys, s: State, t: State)
    requires Consistent(w, s)
    requires s.users.Keys == t.users.Keys && s.boxes.Keys == t.boxes.Keys && s.aliases.Keys == t.aliases.Keys
    requires s.domains.Keys == t.domains.Keys
    ensures Consistent(w, t)
  {
    forall k | k in t.boxes ensures k !in t.aliases && Served(w, t.domains, k) && k != "" && k[0] != '@' {
      assert k in s.boxes.Keys;
      assert k in s.aliases.Keys <==> k in t.aliases.Keys;
      assert w.domain(k) in s.domains.Keys;
    }
    forall k | k in t.aliases ensures Served(w, t.domains, k) {
      assert k in s.aliases.Keys;
      assert w.domain(k) in s.domains.Keys;
    }
  }

  /** No key of consistent maps has space in it. */
  lemma SpaceNoKey(k: string, i: nat)
    requires i < |k| && IsSpace(k[i])
    ensures !KeyOk(k)
  {
    if KeyOk(k) {
      var local, domain :| KeyParts(k, local, domain);
      KeyFacts(k, local, domain);
      PlainFacts(k[i]);
    }
  }

  lemma SpacedUnused(s: State, address: string)
    requires Inv(s) && Address(address).Some? && (Lead(address) != "" || Trail(address) != "")
    ensures var key := Lower(address); key !in s.users.Keys && key !in s.boxes && key !in s.aliases && key != Bare(address)
  {
    AddressParts(address);
    var key, n := Lower(address), |Lead(address)|;
    if n > 0 {
      assert key[0] == Lead(address)[0];
      SpaceNoKey(key, 0);
    } else {
      assert key[|key| - 1] == Trail(address)[|Trail(address)| - 1];
      SpaceNoKey(key, |key| - 1);
    }
    assert key in s.boxes ==> Served(MailKeys(), s.domains, key);
    assert key in s.aliases ==> Served(MailKeys(), s.domains, key);
    assert key in s.users <==> key in s.boxes.Keys;
  }

  /** What is read after a mailbox was added is consistent, in terms of the space around its address. */
  predicate BoxReads(s: State, address: string) {
    HasBreak(Trail(address)) || (Trail(address) == "" && (Lead(address) == "" || Bare(address) !in s.aliases))
  }

  lemma UpsertKept(s: State, address: string, hash: string)
    requires AllClean(s) && Inv(s) && Upserted(s, address, hash).Some? && CleanValue(USERS, hash)
    ensures Inv(Stored(Upserted(s, address, hash).value)) <==> BoxReads(s, address)
  {
    var t := Stored(Upserted(s, address, hash).value);
    var (local, domain) := Address(address).value;
    UpsertStored(s, address, hash);
    AddressParts(address);
    if Lead(address) != "" || Trail(address) != "" {
      SpacedUnused(s, address);
    }
    KeyServed(Bare(address), local, domain);
    TrailRead(Bare(address), Trail(address));
    var k, broken := Bare(address) + Trail(address), HasBreak(Trail(address));
    assert Lower(address) == Lead(address) + k;
    BoxKept(MailKeys(), s, Lower(address), Bare(address), k, broken, MapGives(Bare(address), Trail(address), ""), domain, t);
  }

  lemma TrailRead(a: string, trail: string)
    requires AllSpace(trail)
    ensures trail == "" ==> a + trail == a && !HasBreak(trail) && MapGives(a, trail, "") == {a}
    ensures trail != "" ==> a + trail != a && !KeyOk(a + trail)
    ensures HasBreak(trail) ==> MapGives(a, trail, "") == {}
  {
    if trail != "" {
      SpaceNoKey(a + trail, |a|);
    }
  }

  /** What was read as the key of the user is k, or nothing was read. */
  lemma BoxKept(w: Keys, s: State, key: string, a: string, k: string, broken: bool, box: set<string>, domain: string,
                t: State)
    requires Consistent(w, s) && w.ok(a) && w.domain(a) == domain && a != "" && a[0] != '@'
    requires key != a ==> key !in s.users.Keys && key !in s.boxes && key !in s.aliases
    requires t.users.Keys == (s.users.Keys - {key}) + (if broken then {} else {k})
    requires t.boxes.Keys == (s.boxes.Keys - {key}) + box && t.aliases == s.aliases - {key}
    requires t.domains == s.domains[domain := "OK"]
    requires (broken ==> box == {} && key != a) && (!broken && k == a ==> box == {a}) && (k != a ==> !w.ok(k))
    ensures Consistent(w, t) <==> broken || (k == a && (key == a || a !in s.aliases))
  {
    if broken {
      assert t.users.Keys == s.users.Keys && t.boxes.Keys == s.boxes.Keys && t.aliases == s.aliases;
      BoxNothing(w, s, domain, t);
    } else if k == a {
      BoxBare(w, s, key, a, domain, t);
    } else {
      assert k in t.users.Keys;
      BoxOther(w, t, k);
    }
  }

  lemma BoxOther(w: Keys, t: State, k: string)
    requires k in t.users.Keys && !w.ok(k)
    ensures !Consistent(w, t)
  {
    assert Consistent(w, t) ==> k in t.boxes.Keys && Served(w, t.domains, k);
  }

  lemma BoxNothing(w: Keys, s: State, domain: string, t: State)
    requires Consistent(w, s) && t.users.Keys == s.users.Keys && t.boxes.Keys == s.boxes.Keys && t.aliases == s.aliases
    requires t.domains == s.domains[domain := "OK"]
    ensures Consistent(w, t)
  {
    DomainAdded(w, s, domain);
    KeysDecide(w, s.(domains := t.domains), t);
  }

  lemma BoxBare(w: Keys, s: State, key: string, a: string, domain: string, t: State)
    requires Consistent(w, s) && w.ok(a) && w.domain(a) == domain && a != "" && a[0] != '@'
    requires key != a ==> key !in s.users.Keys && key !in s.boxes && key !in s.aliases
    requires t.users.Keys == (s.users.Keys - {key}) + {a} && t.boxes.Keys == (s.boxes.Keys - {key}) + {a}
    requires t.aliases == s.aliases - {key} && t.domains == s.domains[domain := "OK"]
    ensures Consistent(w, t) <==> key == a || a !in s.aliases
  {
    if key == a || a !in s.aliases {
      var u := State(s.users[a := ""], s.domains[domain := "OK"], s.boxes[a := ""], s.aliases - {a});
      BoxAdded(w, s, a, domain, "", "");
      assert s.aliases - {a} == s.aliases - {key};
      KeysDecide(w, u, t);
    } else {
      assert a in t.boxes.Keys && a in t.aliases;
    }
  }

  /** The same for a forwarder, whose file also drops the space between a key and its value. */
  predicate AliasReads(s: State, source: string, destination: string) {
    || HasBreak(Trail(source)) || HasBreak(Lead(destination))
    || ((Trail(source) == "" || Trail(source)[0] == ' ') && Bare(source) !in s.boxes)
  }

  lemma ForwardKept(s: State, source: string, destination: string)
    requires AllClean(s) && Inv(s) && Forwarded(s, source, destination).Some?
    ensures Inv(Stored(Forwarded(s, source, destination).value)) <==> AliasReads(s, source, destination)
  {
    var t := Stored(Forwarded(s, source, destination).value);
    var (local, domain) := Address(source).value;
    ForwardStored(s, source, destination);
    AddressParts(source);
    AliasKept(s, Lower(source), Bare(source), Trail(source), Lead(destination), local, domain, t);
  }

  lemma AliasKept(s: State, key: string, a: string, trail: string, before: string, local: string, domain: string, t: State)
    requires Inv(s) && KeyParts(a, local, domain) && AllSpace(trail)
    requires t.users == s.users && t.boxes == s.boxes && t.domains == s.domains[domain := "OK"]
    requires t.aliases.Keys == (s.aliases.Keys - {key}) + MapGives(a, trail, before)
    ensures Inv(t) <==> HasBreak(trail) || HasBreak(before) || ((trail == "" || trail[0] == ' ') && a !in s.boxes)
  {
    var u := s.(domains := t.domains, aliases := s.aliases - {key});
    DomainAdded(MailKeys(), s, domain);
    Dropped(MailKeys(), s.(domains := t.domains), key);
    if HasBreak(trail) || HasBreak(before) {
      KeysDecide(MailKeys(), u, t);
    } else if trail == "" || trail[0] == ' ' {
      assert a + trail[..IndexOf(trail, ' ')] == a;
      KeyServed(a, local, domain);
      ForwardBare(u, a, domain, t);
    } else {
      AliasSpaced(a, trail, t);
    }
  }

  lemma AliasSpaced(a: string, trail: string, t: State)
    requires AllSpace(trail) && trail != "" && trail[0] != ' ' && a + trail[..IndexOf(trail, ' ')] in t.aliases.Keys
    ensures !Inv(t)
  {
    var k := a + trail[..IndexOf(trail, ' ')];
    assert k[|a|] == trail[0];
    SpaceNoKey(k, |a|);
    assert Inv(t) ==> Served(MailKeys(), t.domains, k);
  }

  lemma ForwardBare(u: State, a: string, domain: string, t: State)
    requires Inv(u) && MailKeys().ok(a) && MailKeys().domain(a) == domain && domain in u.domains
    requires t.users == u.users && t.boxes == u.boxes && t.domains == u.domains && t.aliases.Keys == u.aliases.Keys + {a}
    ensures Inv(t) <==> a !in u.boxes
  {
    if a !in u.boxes {
      AliasAdded(MailKeys(), u, a, domain, "");
      KeysDecide(MailKeys(), u.(domains := u.domains[domain := "OK"], aliases := u.aliases[a := ""]), t);
    } else {
      assert a in t.boxes && a in t.aliases.Keys;
    }
  }

  /** The hash of a password is one line that does not end in space. */
  ghost predicate HashOk(r: Request) {
    r.MailboxUpsert? && r.hash.Some? ==> CleanValue(USERS, r.hash.value)
  }

  predicate Reads(s: State, r: Request) {
    match r
    case MailboxUpsert(address, _, _) => BoxReads(s, address)
    case ForwarderUpsert(source, destination, _) => AliasReads(s, source, destination)
    case _ => true
  }

  /**
   * A request that is not refused leaves files that mean consistent maps exactly when Reads says so: space before an address
   * is harmless unless it hides that the address is taken, space after it is read into the key of a mailbox, and a line
   * break there means that nothing is stored.
   */
  lemma StoredKeeps(s: State, r: Request)
    requires AllClean(s) && Inv(s) && Apply(s, r).Some? && HashOk(r)
    ensures Inv(Stored(Apply(s, r).value)) <==> Reads(s, r)
  {
    match r {
      case MailboxUpsert(address, hash, up) => UpsertKept(s, address, hash.value);
      case ForwarderUpsert(source, destination, up) => ForwardKept(s, source, destination);
      case _ =>
        ApplyClean(s, r);
        StoredExactly(Apply(s, r).value);
        ApplyKeeps(s, r);
    }
  }

  /**
   * A blank after any address that is free: the file of the users has the key with the blank, the file of the boxes has it
   * without.
   */
  lemma BlankAfterAddress(s: State, address: string, hash: string)
    requires AllClean(s) && Inv(s) && CleanValue(USERS, hash)
    requires Address(address).Some? && Stripped(address) && |address| < MAX_INPUT && Bare(address) !in s.boxes
    ensures Upserted(s, address + " ", hash).Some?
    ensures var t := Stored(Upserted(s, address + " ", hash).value);
            && Bare(address) + " " in t.users.Keys && Bare(address) !in t.users.Keys && Bare(address) in t.boxes.Keys
            && !Inv(t)
  {
    var spaced, a := address + " ", Bare(address);
    BlankParts(address, spaced);
    assert Address(spaced) == Address(address);
    UpsertStored(s, spaced, hash);
    UpsertKept(s, spaced, hash);
    BlankGives(a, Trail(spaced));
    assert a in s.users.Keys <==> a in s.boxes.Keys;
  }

  lemma BlankParts(address: string, spaced: string)
    requires address != "" && Stripped(address) && spaced == address + " "
    ensures Strip(spaced) == address == Strip(address) && Trail(spaced) == " "
  {
    StripTail(address, " ");
    StripFixed(address);
    StripParts(spaced);
    assert StripLeft(spaced) == spaced && Lead(spaced) == "";
    assert |Trail(spaced)| == 1;
  }

  lemma BlankGives(a: string, blank: string)
    requires blank == " "
    ensures UserGives(a, blank) == {a + " "} && MapGives(a, blank, "") == {a} && !HasBreak(blank)
    ensures a + " " != a
  {
    assert blank[0] == ' ' && IndexOf(blank, ' ') == 0;
    assert a + blank[..0] == a;
  }

  /** There are such addresses: one letter, an at sign and the shortest host names. */
  lemma ShortAddress(l: char, x: char, y: char, z: char)
    requires 'a' <= l <= 'z' && 'a' <= x <= 'z' && 'a' <= y <= 'z' && 'a' <= z <= 'z'
    ensures Address([l, '@', x, '.', y, z]) == Some(([l], [x, '.', y, z])) && Stripped([l, '@', x, '.', y, z])
  {
    var v, d := [l, '@', x, '.', y, z], [x, '.', y, z];
    StripFixed(v);
    assert Lower(v) == v;
    IndexIs(v, '@', 1);
    assert v[..1] == [l] && v[2..] == d;
    ShortDomain(x, y, z);
  }

  lemma ShortDomain(x: char, y: char, z: char)
    requires 'a' <= x <= 'z' && 'a' <= y <= 'z' && 'a' <= z <= 'z'
    ensures DomainOk([x, '.', y, z])
  {
    var d, r := [x, '.', y, z], ['.', y, z];
    SplitMore(z, []);
    SplitMore(y, [z]);
    SplitMore(x, r);
    assert [z] + [] == [z] && [y] + [z] == [y, z] && [x] + r == d && r[1..] == [y, z];
    assert SplitOn([], '.') == [[]];
    assert SplitOn([z], '.') == [[z]];
    assert SplitOn([y, z], '.') == [[y, z]];
    assert SplitOn(r, '.') == [[]] + [[y, z]];
    assert [x] + SplitOn(r, '.')[0] == [x] && SplitOn(r, '.')[1..] == [[y, z]];
    assert SplitOn(d, '.') == [[x], [y, z]];
  }

  lemma SplitMore(c: char, s: string)
    requires c != '.'
    ensures SplitOn([c] + s, '.') == [[c] + SplitOn(s, '.')[0]] + SplitOn(s, '.')[1..]
  {
    assert ([c] + s)[1..] == s;
  }

  /** Addresses without space around them are always read back. */
  lemma StrippedReads(s: State, r: Request)
    requires Apply(s, r).Some? && KeyStripped(r)
    ensures Reads(s, r)
  {
    match r {
      case MailboxUpsert(address, hash, up) => NoSpace(address);
      case ForwarderUpsert(source, destination, up) =>
        NoSpace(source);
        StripFixed(source);
      case _ =>
    }
  }

  lemma NoSpace(address: string)
    requires Stripped(address)
    ensures Lead(address) == Trail(address) == ""
  {
  }

  // ----- the files -----

  class Store {
    var users: string
    var domains: string
    var boxes: string
    var aliases: string

    /** What the four files mean. */
    ghost function Maps(): State
      reads this
    {
      State(Contents(USERS, users), Contents(MAP, domains), Contents(MAP, boxes), Contents(MAP, aliases))
    }

    /** _snapshot */
    method Snapshot() returns (s: State)
      ensures s == Maps() && AllClean(s)
    {
      var u := Read(USERS, users);
      var d := Read(MAP, domains);
      var b := Read(MAP, boxes);
      var a := Read(MAP, aliases);
      ContentsClean(USERS, users);
      ContentsClean(MAP, domains);
      ContentsClean(MAP, boxes);
      ContentsClean(MAP, aliases);
      s := State(u, d, b, a);
    }

    /** _write_state: one file after the other, unless writing one fails. */
    method WriteState(s: State, fault: Option<nat>) returns (ok: bool)
      modifies this
      ensures ok <==> fault !in {Some(0), Some(1), Some(2), Some(3)}
      ensures ok ==> Maps() == Stored(s)
    {
      var text;
      if fault == Some(0) {
        return false;
      }
      text := Write(USERS, s.users);
      users := text;
      if fault == Some(1) {
        return false;
      }
      text := Write(MAP, s.domains);
      domains := text;
      if fault == Some(2) {
        return false;
      }
      text := Write(MAP, s.boxes);
      boxes := text;
      if fault == Some(3) {
        return false;
      }
      text := Write(MAP, s.aliases);
      aliases := text;
      ok := true;
    }

    /**
     * A request: read the maps, change copies, write them and reload. A fault is a write that fails (0 to 3) or anything
     * after the writes (4 and more). A request that fails takes no effect on any of the four maps; one that succeeds takes
     * effect on all of them exactly when it is writable, and keeps them consistent exactly when Reads says so.
     */
    method Serve(r: Request, fault: Option<nat>) returns (ok: bool)
      modifies this
      ensures ok <==> Apply(old(Maps()), r).Some? && fault.None?
      ensures ok ==> Maps() == Stored(Apply(old(Maps()), r).value)
      ensures ok ==> (Some(Maps()) == Apply(old(Maps()), r) <==> Writable(r))
      ensures ok && Inv(old(Maps())) && HashOk(r) ==> (Inv(Maps()) <==> Reads(old(Maps()), r))
      ensures !ok ==> Maps() == old(Maps())
    {
      var snapshot := Snapshot();
      var state := Apply(snapshot, r);
      if state.None? {
        return false;
      }
      ApplyClean(snapshot, r);
      StoredExactly(state.value);
      ok := WriteState(state.value, fault);
      if !ok || fault.Some? {
        StoredExactly(snapshot);
        ok := WriteState(snapshot, None);
        return false;
      }
      if Inv(snapshot) && HashOk(r) {
        StoredKeeps(snapshot, r);
      }
    }

    /**
     * Over any sequence of requests, with any faults, the files mean what the requests that succeed make of the maps. They
     * stay consistent when no address that becomes a key has space around it.
     */
    method ServeAll(requests: seq<Request>, faults: seq<Option<nat>>)
      requires |faults| == |requests|
      modifies this
      ensures Maps() == Taken(old(Maps()), requests, faults)
      ensures Inv(old(Maps())) && (forall i :: 0 <= i < |requests| ==> KeyStripped(requests[i]) && HashOk(requests[i])) ==>
                Inv(Maps())
    {
      ghost var before := Snapshot();
      var i := 0;
      while i < |requests|
        invariant 0 <= i <= |requests|
        invariant Maps() == Taken(old(Maps()), requests[..i], faults[..i])
      {
        TakenMore(old(Maps()), requests, faults, i);
        var ok := Serve(requests[i], faults[i]);
        i := i + 1;
      }
      assert requests[..i] == requests && faults[..i] == faults;
      if Inv(before) && forall i :: 0 <= i < |requests| ==> KeyStripped(requests[i]) && HashOk(requests[i]) {
        TakenConsistent(before, requests, faults);
      }
    }
  }

  /** What a request makes of the maps that are stored; one that is refused or has a fault changes nothing. */
  ghost function Take(s: State, r: Request, fault: Option<nat>): State {
    if Apply(s, r).Some? && fault.None? then Stored(Apply(s, r).value) else s
  }

  /** Requests one after the other. */
  ghost function Taken(s: State, requests: seq<Request>, faults: seq<Option<nat>>): State
    requires |faults| == |requests|
    decreases |requests|
  {
    if requests == [] then s
    else
      var n := |requests| - 1;
      Take(Taken(s, requests[..n], faults[..n]), requests[n], faults[n])
  }

  lemma TakenMore(s: State, requests: seq<Request>, faults: seq<Option<nat>>, i: nat)
    requires i < |requests| == |faults|
    ensures Taken(s, requests[..i + 1], faults[..i + 1]) == Take(Taken(s, requests[..i], faults[..i]), requests[i], faults[i])
  {
    assert requests[..i + 1][..i] == requests[..i] && faults[..i + 1][..i] == faults[..i];
  }

  lemma StoredClean(s: State)
    ensures AllClean(Stored(s))
  {
    ContentsClean(USERS, TextOf(USERS, s.users));
    ContentsClean(MAP, TextOf(MAP, s.domains));
    ContentsClean(MAP, TextOf(MAP, s.boxes));
    ContentsClean(MAP, TextOf(MAP, s.aliases));
  }

  /** Consistent maps stay consistent, when no address that becomes a key has space around it. */
  lemma {:induction false} TakenConsistent(s: State, requests: seq<Request>, faults: seq<Option<nat>>)
    requires |faults| == |requests| && AllClean(s) && Inv(s)
    requires forall i :: 0 <= i < |requests| ==> KeyStripped(requests[i]) && HashOk(requests[i])
    ensures AllClean(Taken(s, requests, faults)) && Inv(Taken(s, requests, faults))
    decreases |requests|
  {
    if requests != [] {
      var n := |requests| - 1;
      TakenConsistent(s, requests[..n], faults[..n]);
      var t := Taken(s, requests[..n], faults[..n]);
      if Apply(t, requests[n]).Some? {
        StoredClean(Apply(t, requests[n]).value);
        StrippedReads(t, requests[n]);
        StoredKeeps(t, requests[n]);
      }
    }
  }

  /** Requests that are writable take effect as they ask. */
  lemma WritableTaken(s: State, r: Request, fault: Option<nat>)
    requires AllClean(s) && Writable(r)
    ensures Take(s, r, fault) == if Apply(s, r).Some? && fault.None? then Apply(s, r).value else s
  {
    if Apply(s, r).Some? {
      ApplyClean(s, r);
      StoredExactly(Apply(s, r).value);
    }
  }
}
