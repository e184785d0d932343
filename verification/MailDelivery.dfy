/**
 * agent/mail_backend.py, agent/mail_agent.py, agent/mail_default.py: what the maps mean for an address, and which addresses
 * a request changes it for. Own mailboxes and aliases go before the catch-all of a domain, as agent/mail_default.py:39 says.
 */
module MailDelivery {
  import opened Text
  import opened MailFiles
  import opened HostNames
  import opened MailAddresses
  import opened MailStore

  datatype Route = Box(path: string) | Forward(target: string) | Rejected | NotServed

  function CatchAll(a: string): string {
    Joined("", DomainOf(a))
  }

  /** The domain and the catch-all of an address. */
  datatype View = View(domain: string -> string, all: string -> string)

  function MailView(): View {
    View(DomainOf, CatchAll)
  }

  /** What an address without a mailbox and an alias of its own gets, in a domain that is served. */
  function Otherwise(w: View, s: State, a: string): Route {
    if w.all(a) in s.aliases then Forward(s.aliases[w.all(a)]) else Rejected
  }

  /** Where mail for an address goes. */
  function Resolve(w: View, s: State, a: string): Route {
    if w.domain(a) !in s.domains then NotServed
    else if a in s.boxes then Box(s.boxes[a])
    else if a in s.aliases then Forward(s.aliases[a])
    else Otherwise(w, s, a)
  }

  /** An address, as opposed to a catch-all. */
  predicate IsAddress(a: string) {
    a != "" && a[0] != '@'
  }

  /** Catch-alls are not addresses. */
  ghost predicate Sane(w: View) {
    forall a {:trigger w.all(a)} :: w.all(a) != "" && w.all(a)[0] == '@'
  }

  lemma MailViewSane()
    ensures Sane(MailView())
  {
  }

  /** Nothing but the mail of `a` and, when the domain was not served, of that domain goes elsewhere than before. */
  ghost predicate OnlyFor(w: View, s: State, t: State, a: string, domain: string) {
    forall b {:trigger Resolve(w, t, b)} :: IsAddress(b) && b != a && (w.domain(b) != domain || domain in s.domains) ==>
      Resolve(w, t, b) == Resolve(w, s, b)
  }

  lemma BoxResolves(w: View, s: State, key: string, domain: string, hash: string, box: string)
    requires Sane(w) && IsAddress(key) && w.domain(key) == domain
    ensures var t := State(s.users[key := hash], s.domains[domain := "OK"], s.boxes[key := box], s.aliases - {key});
            Resolve(w, t, key) == Box(box) && OnlyFor(w, s, t, key, domain)
  {
  }

  lemma AliasResolves(w: View, s: State, key: string, domain: string, value: string)
    requires Sane(w) && IsAddress(key) && w.domain(key) == domain && key !in s.boxes
    ensures var t := s.(domains := s.domains[domain := "OK"], aliases := s.aliases[key := value]);
            Resolve(w, t, key) == Forward(value) && OnlyFor(w, s, t, key, domain)
  {
  }

  lemma DroppedAlias(w: View, s: State, key: string)
    requires Sane(w) && IsAddress(key)
    ensures var t := s.(aliases := s.aliases - {key});
            && (forall b :: IsAddress(b) && b != key ==> Resolve(w, t, b) == Resolve(w, s, b))
            && Resolve(w, t, key)
               == if w.domain(key) !in s.domains then NotServed
                  else if key in s.boxes then Box(s.boxes[key])
                  else Otherwise(w, s, key)
  {
  }

  lemma DroppedBox(w: View, s: State, key: string)
    requires w.domain(key) in s.domains && key !in s.aliases
    ensures var t := s.(users := s.users - {key}, boxes := s.boxes - {key});
            Resolve(w, t, key) == Otherwise(w, s, key) && forall b :: b != key ==> Resolve(w, t, b) == Resolve(w, s, b)
  {
  }

  lemma AddressDomain(address: string)
    requires Address(address).Some? && Stripped(address)
    ensures DomainOf(Lower(address)) == Address(address).value.1 && IsAddress(Lower(address))
  {
    var (local, domain) := Address(address).value;
    AddressKey(address);
    KeyFacts(Lower(address), local, domain);
    KeyServed(Lower(address), local, domain);
  }

  /** A new mailbox gets its mail under its domain and local part, whatever the address was before, and no other changes. */
  lemma UpsertDelivers(s: State, address: string, hash: string)
    requires Upserted(s, address, hash).Some? && Stripped(address)
    ensures var (local, domain) := Address(address).value;
            var t := Upserted(s, address, hash).value;
            && Resolve(MailView(), t, Lower(address)) == Box(domain + "/" + local + "/")
            && Lower(address) in t.users && t.users[Lower(address)] == hash
            && OnlyFor(MailView(), s, t, Lower(address), domain)
  {
    var (local, domain) := Address(address).value;
    AddressDomain(address);
    MailViewSane();
    BoxResolves(MailView(), s, Lower(address), domain, hash, domain + "/" + local + "/");
  }

  /** A removed mailbox leaves its address to the catch-all, if there is one, and no other address changes. */
  lemma DeleteDelivers(s: State, address: string)
    requires Inv(s) && Deleted(s, address).Some? && Lower(address) in s.boxes
    ensures var a, t := Lower(address), Deleted(s, address).value;
            && Resolve(MailView(), t, a) == Otherwise(MailView(), s, a)
            && a !in t.users && forall b :: b != a ==> Resolve(MailView(), t, b) == Resolve(MailView(), s, b)
  {
    assert Served(MailKeys(), s.domains, Lower(address));
    DroppedBox(MailView(), s, Lower(address));
  }

  /** A forwarder sends the mail of its address to its target, and no other changes; an address with a mailbox is refused. */
  lemma ForwardDelivers(s: State, source: string, destination: string)
    requires Address(source).Some? && Address(destination).Some? && Stripped(source)
    ensures Forwarded(s, source, destination).None? <==> Lower(source) in s.boxes
    ensures Forwarded(s, source, destination).Some? ==>
              var t := Forwarded(s, source, destination).value;
              && Resolve(MailView(), t, Lower(source)) == Forward(Lower(destination))
              && OnlyFor(MailView(), s, t, Lower(source), Address(source).value.1)
  {
    AddressDomain(source);
    MailViewSane();
    if Lower(source) !in s.boxes {
      AliasResolves(MailView(), s, Lower(source), Address(source).value.1, Lower(destination));
    }
  }

  /** A removed forwarder touches no other address and no mailbox, and leaves its own to the catch-all. */
  lemma UnforwardDelivers(s: State, source: string)
    requires Unforwarded(s, source).Some? && Stripped(source)
    ensures var a, t := Lower(source), Unforwarded(s, source).value;
            && (forall b :: IsAddress(b) && b != a ==> Resolve(MailView(), t, b) == Resolve(MailView(), s, b))
            && Resolve(MailView(), t, a)
               == if DomainOf(a) !in s.domains then NotServed
                  else if a in s.boxes then Box(s.boxes[a])
                  else Otherwise(MailView(), s, a)
  {
    AddressDomain(source);
    MailViewSane();
    DroppedAlias(MailView(), s, Lower(source));
  }

  /** A catch-all takes the mail of exactly the addresses of its domain that have no mailbox and no alias of their own. */
  lemma DefaultDelivers(s: State, domain: string, mode: string, destination: string, b: string)
    requires Defaulted(s, domain, mode, destination).Some? && IsAddress(b)
    ensures var d, t := Domain(domain).value, Defaulted(s, domain, mode, destination).value;
            Resolve(MailView(), t, b)
            == if DomainOf(b) != d then Resolve(MailView(), s, b)
               else if Mode(mode) == "reject" && d !in s.domains then NotServed
               else if b in s.boxes then Box(s.boxes[b])
               else if b in s.aliases then Forward(s.aliases[b])
               else if Mode(mode) == "reject" then Rejected
               else Forward(Destination(destination, d).value)
  {
    var d := Domain(domain).value;
    var all := Joined("", d);
    assert b != all && (CatchAll(b) == all <==> DomainOf(b) == d) by {
      assert CatchAll(b)[1..] == DomainOf(b) && all[1..] == d;
    }
    if Mode(mode) == "reject" {
      CatchAllDropped(MailView(), s, d, all, b);
    } else {
      CatchAllSet(MailView(), s, d, all, Destination(destination, d).value, b);
    }
  }

  lemma CatchAllDropped(w: View, s: State, d: string, all: string, b: string)
    requires b != all && (w.all(b) == all <==> w.domain(b) == d)
    ensures Resolve(w, s.(aliases := s.aliases - {all}), b)
         == if w.domain(b) != d then Resolve(w, s, b)
            else if d !in s.domains then NotServed
            else if b in s.boxes then Box(s.boxes[b])
            else if b in s.aliases then Forward(s.aliases[b])
            else Rejected
  {
  }

  lemma CatchAllSet(w: View, s: State, d: string, all: string, target: string, b: string)
    requires b != all && (w.all(b) == all <==> w.domain(b) == d)
    ensures Resolve(w, s.(domains := s.domains[d := "OK"], aliases := s.aliases[all := target]), b)
         == if w.domain(b) != d then Resolve(w, s, b)
            else if b in s.boxes then Box(s.boxes[b])
            else if b in s.aliases then Forward(s.aliases[b])
            else Forward(target)
  {
  }

  /** Routing a domain elsewhere is refused while it has any key; then it stops serving exactly that domain. */
  lemma RouteDelivers(s: State, domain: string, mode: string, b: string)
    requires Routed(s, domain, mode).Some? && Mode(mode) == "remote"
    ensures var d, t := Domain(domain).value, Routed(s, domain, mode).value;
            && Resolve(MailView(), t, b) == (if DomainOf(b) == d then NotServed else Resolve(MailView(), s, b))
            && !Uses(s.boxes, d) && !Uses(s.users, d) && !Uses(s.aliases, d)
  {
  }

  /** A list sends the mail of its address to all its members, and no other changes; an empty one is no list. */
  lemma ListDelivers(s: State, address: string, members: seq<string>, expected: seq<string>)
    requires Listed(s, address, members, expected).Some?
    ensures var (local, domain) := Address(address).value;
            var source, t := Joined(local, domain), Listed(s, address, members, expected).value;
            var desired := Members(members, source).value;
            && (desired != [] ==> Resolve(MailView(), t, source) == Forward(Join(desired, ",")))
            && (desired == [] ==> source !in t.aliases && t.boxes == s.boxes)
            && OnlyFor(MailView(), s, t, source, domain)
  {
    var (local, domain) := Address(address).value;
    var source := Joined(local, domain);
    SourceKey(address);
    KeyFacts(source, local, domain);
    KeyServed(source, local, domain);
    MailViewSane();
    var desired := Members(members, source).value;
    if desired == [] {
      DroppedAlias(MailView(), s, source);
    } else {
      AliasResolves(MailView(), s, source, domain, Join(desired, ","));
    }
  }
}
