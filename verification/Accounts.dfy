/**
 * panel/routes_accounts.py: suspending and activating a hosting account: its row, its login, its sites and the sites at
 * the provider, with requests that fail or are interrupted at any point.
 */
module Accounts {

  datatype Status = Active | Suspending | Suspended | Activating

  type Sites = map<string, bool>

  /** Where a toggle of several sites stops: never, at a site that fails, or because the panel dies. */
  datatype Stop =
    | Runs
    | Fails(at: nat)
    | Dies(at: nat)
    | DiesUndoing(at: nat, left: nat)

  datatype Result = Done | Refused | Died

  /** What the panel stores of an account, its own sites, and which sites are on at the provider. */
  datatype Account = Account(status: Status, login: bool, rows: Sites, snapshot: Sites, provider: Sites)

  predicate On(p: Sites, d: string) {
    d in p && p[d]
  }

  /** Sites set one after the other. */
  function Set(p: Sites, ds: seq<string>, v: bool): Sites {
    if ds == [] then p else Set(p, ds[..|ds| - 1], v)[ds[|ds| - 1] := v]
  }

  /** Sites set from the last to the first. */
  function SetBack(p: Sites, ds: seq<string>, v: bool): Sites {
    if ds == [] then p else SetBack(p, ds[1..], v)[ds[0] := v]
  }

  lemma {:induction false} OnSet(p: Sites, ds: seq<string>, v: bool, d: string)
    ensures On(Set(p, ds, v), d) == if d in ds then v else On(p, d)
  {
    if ds != [] {
      assert d in ds <==> d in ds[..|ds| - 1] || d == ds[|ds| - 1];
      OnSet(p, ds[..|ds| - 1], v, d);
    }
  }

  lemma {:induction false} OnSetBack(p: Sites, ds: seq<string>, v: bool, d: string)
    ensures On(SetBack(p, ds, v), d) == if d in ds then v else On(p, d)
  {
    if ds != [] {
      assert d in ds <==> d in ds[1..] || d == ds[0];
      OnSetBack(p, ds[1..], v, d);
    }
  }

  /** A stop that can happen while these sites are toggled. */
  predicate Possible(order: seq<string>, stop: Stop) {
    match stop
    case Runs => true
    case Fails(at) => at < |order|
    case Dies(at) => at <= |order|
    case DiesUndoing(at, left) => left <= at < |order|
  }

  /** What a toggle leaves at the provider: a failure undoes what was done, in reverse. */
  function Toggled(p: Sites, order: seq<string>, desired: bool, stop: Stop): (Sites, Result)
    requires Possible(order, stop)
  {
    match stop
    case Runs => (Set(p, order, desired), Done)
    case Fails(at) => (SetBack(Set(p, order[..at], desired), order[..at], !desired), Refused)
    case Dies(at) => (Set(p, order[..at], desired), Died)
    case DiesUndoing(at, left) => (SetBack(Set(p, order[..at], desired), order[left..at], !desired), Died)
  }

  ghost predicate Distinct(ds: seq<string>) {
    forall i, j :: 0 <= i < j < |ds| ==> ds[i] != ds[j]
  }

  /**
   * A failed toggle leaves every site as it was exactly when the sites that were done had the opposite state before.
   */
  lemma FailureUndone(p: Sites, order: seq<string>, desired: bool, at: nat)
    requires at < |order|
    ensures (forall d :: On(Toggled(p, order, desired, Fails(at)).0, d) == On(p, d))
            <==> forall d :: d in order[..at] ==> On(p, d) == !desired
  {
    forall d ensures On(Toggled(p, order, desired, Fails(at)).0, d) == if d in order[..at] then !desired else On(p, d) {
      OnSet(p, order[..at], desired, d);
      OnSetBack(Set(p, order[..at], desired), order[..at], !desired, d);
    }
  }

  // ----- account_status -----

  /** The sites a request toggles, in the order of the list. */
  ghost predicate Lists(order: seq<string>, domains: set<string>) {
    Distinct(order) && forall d :: d in order <==> d in domains
  }

  function Enabled(a: Account): set<string> {
    set d | d in a.rows && a.rows[d]
  }

  /** Sites that were on when the snapshot was taken and still belong to the account. */
  function Remembered(a: Account): set<string> {
    set d | d in a.snapshot && a.snapshot[d] && d in a.rows
  }

  function Domains(a: Account, suspend: bool): set<string> {
    if suspend then Enabled(a) else Remembered(a)
  }

  /** The first transaction. */
  function Begun(a: Account, suspend: bool): Account {
    if suspend then a.(status := Suspending, login := false, snapshot := a.rows) else a.(status := Activating)
  }

  /** The last transaction, after the sites were toggled or not. */
  function Ended(a: Account, suspend: bool, order: seq<string>, ok: bool): Account {
    if ok then
      var rows := map d | d in a.rows :: if d in order then !suspend else a.rows[d];
      if suspend then a.(status := Suspended, login := false, rows := rows)
      else a.(status := Active, login := true, rows := rows, snapshot := map[])
    else if suspend then a.(status := Active, login := true, snapshot := map[])
    else a.(status := Suspended, login := false)
  }

  predicate Already(a: Account, suspend: bool) {
    a.status == if suspend then Suspended else Active
  }

  /** What a request leaves. */
  function After(a: Account, suspend: bool, order: seq<string>, stop: Stop): Account
    requires Possible(order, stop)
  {
    if Already(a, suspend) then a
    else
      var (p, result) := Toggled(a.provider, order, !suspend, stop);
      var b := Begun(a, suspend).(provider := p);
      if result.Died? then b else Ended(b, suspend, order, result.Done?)
  }

  class Panel {
    var account: Account

    /** _toggle_sites */
    method ToggleSites(order: seq<string>, desired: bool, stop: Stop) returns (r: Result)
      requires Possible(order, stop)
      modifies this
      ensures account == old(account).(provider := Toggled(old(account).provider, order, desired, stop).0)
      ensures r == Toggled(old(account).provider, order, desired, stop).1
    {
      var i := 0;
      ghost var p := account.provider;
      while i < |order|
        invariant 0 <= i <= |order|
        invariant account == old(account).(provider := Set(p, order[..i], desired))
        invariant stop.Runs? || i <= stop.at
      {
        if stop == Dies(i) {
          return Died;
        }
        if stop == Fails(i) || (stop.DiesUndoing? && stop.at == i) {
          var left := if stop.Fails? then 0 else stop.left;
          var k := i;
          while k > left
            invariant left <= k <= i
            invariant account == old(account).(provider := SetBack(Set(p, order[..i], desired), order[k..i], !desired))
          {
            k := k - 1;
            assert order[k..i][1..] == order[k + 1..i];
            account := account.(provider := account.provider[order[k] := !desired]);
          }
          assert order[0..i] == order[..i];
          return if stop.Fails? then Refused else Died;
        }
        assert order[..i + 1][..i] == order[..i];
        account := account.(provider := account.provider[order[i] := desired]);
        i := i + 1;
      }
      assert order[..|order|] == order;
      r := if stop.Dies? then Died else Done;
    }

    /** account_status, for an account that exists and that the caller may change. */
    method AccountStatus(suspend: bool, order: seq<string>, stop: Stop)
      requires Possible(order, stop) && Lists(order, Domains(account, suspend))
      modifies this
      ensures account == After(old(account), suspend, order, stop)
    {
      if Already(account, suspend) {
        return;
      }
      account := Begun(account, suspend);
      var r := ToggleSites(order, !suspend, stop);
      if r == Died {
        return;
      }
      account := Ended(account, suspend, order, r == Done);
    }
  }

  // ----- runs -----

  /**
   * What happens to an account: a request, a site that is removed or given to another account, and, while the account is
   * active, a site that is added or toggled by itself.
   */
  datatype Event =
    | Request(suspend: bool, order: seq<string>, stop: Stop)
    | Drop(domain: string)
    | Change(domain: string, enabled: bool)

  ghost predicate Legal(a: Account, e: Event) {
    match e
    case Request(suspend, order, stop) => Possible(order, stop) && Lists(order, Domains(a, suspend))
    case Drop(_) => true
    case Change(_, _) => a.status.Active?
  }

  ghost function Step(a: Account, e: Event): Account
    requires Legal(a, e)
  {
    match e
    case Request(suspend, order, stop) => After(a, suspend, order, stop)
    case Drop(d) => a.(rows := a.rows - {d})
    case Change(d, on) => a.(rows := a.rows[d := on], provider := a.provider[d := on])
  }

  /** The sites as the owner left them, kept apart from what the panel stores. */
  function Home(home: Sites, e: Event): Sites {
    if e.Change? then home[e.domain := e.enabled] else home
  }

  /** s has what home has, for the sites the account owns. */
  ghost predicate Keeps(a: Account, s: Sites, home: Sites) {
    forall d :: d in a.rows ==> d in s && d in home && s[d] == home[d]
  }

  ghost predicate Inv(a: Account, home: Sites) {
    && (forall d :: d in a.rows ==> d in home)
    && (forall d :: d in a.rows ==> (a.rows[d] ==> home[d]) && (On(a.provider, d) ==> home[d]))
    && match a.status
       case Active => a.snapshot == map[] && Keeps(a, a.rows, home)
       case Suspending => Keeps(a, a.snapshot, home) && Keeps(a, a.rows, home)
       case Suspended => Keeps(a, a.snapshot, home)
       case Activating => Keeps(a, a.snapshot, home)
  }

  /** A suspension begun while the account is being activated, after its rows were already cleared, is not safe. */
  ghost predicate Safe(a: Account, e: Event) {
    e.Request? && e.suspend && a.status.Activating? ==> Keeps(a, a.rows, a.snapshot)
  }

  /** What a toggle leaves at the provider: nothing outside the list, and nothing but the two states. */
  lemma ToggledOn(p: Sites, order: seq<string>, desired: bool, stop: Stop, d: string)
    requires Possible(order, stop)
    ensures d !in order ==> On(Toggled(p, order, desired, stop).0, d) == On(p, d)
    ensures d in order && stop.Runs? ==> On(Toggled(p, order, desired, stop).0, d) == desired
  {
    match stop {
      case Runs => OnSet(p, order, desired, d);
      case Fails(at) =>
        OnSet(p, order[..at], desired, d);
        OnSetBack(Set(p, order[..at], desired), order[..at], !desired, d);
      case Dies(at) => OnSet(p, order[..at], desired, d);
      case DiesUndoing(at, left) =>
        OnSet(p, order[..at], desired, d);
        OnSetBack(Set(p, order[..at], desired), order[left..at], !desired, d);
    }
  }

  /** Only sites that the owner had on are toggled, so the provider never has more on than the owner had. */
  lemma ProviderBound(a: Account, home: Sites, suspend: bool, order: seq<string>, stop: Stop, d: string)
    requires Inv(a, home) && Possible(order, stop) && Lists(order, Domains(a, suspend)) && d in a.rows
    ensures On(Toggled(a.provider, order, !suspend, stop).0, d) ==> home[d]
    ensures d in order ==> home[d]
  {
    ToggledOn(a.provider, order, !suspend, stop, d);
  }

  /** The provider after a toggle, and the list that was toggled, stay within what the owner had on. */
  ghost predicate Within(a: Account, home: Sites, order: seq<string>, p: Sites) {
    forall d :: d in a.rows ==> d in home && (On(p, d) ==> home[d]) && (d in order ==> home[d])
  }

  lemma SuspensionKeeps(a: Account, home: Sites, order: seq<string>, p: Sites, result: Result)
    requires Inv(a, home) && !a.status.Suspended? && Within(a, home, order, p)
    requires forall d :: d in order <==> d in Enabled(a)
    ensures var b := Begun(a, true).(provider := p);
            Inv(if result.Died? then b else Ended(b, true, order, result.Done?), home) <==> Keeps(a, a.rows, home)
  {
    var b := Begun(a, true).(provider := p);
    assert b.snapshot == a.rows;
    assert Keeps(b, b.rows, home) <==> Keeps(a, a.rows, home);
    var c := Ended(b, true, order, true);
    assert Keeps(c, c.snapshot, home) <==> Keeps(a, a.rows, home);
  }

  lemma ActivationKeeps(a: Account, home: Sites, order: seq<string>, p: Sites, result: Result)
    requires Inv(a, home) && !a.status.Active? && Within(a, home, order, p)
    requires forall d :: d in order <==> d in Remembered(a)
    ensures var b := Begun(a, false).(provider := p);
            Inv(if result.Died? then b else Ended(b, false, order, result.Done?), home)
  {
    var b := Begun(a, false).(provider := p);
    assert Keeps(b, b.snapshot, home);
    var c := Ended(b, false, order, true);
    forall d | d in a.rows ensures c.rows[d] == home[d] {
      assert a.snapshot[d] == home[d];
    }
  }

  lemma RequestKeeps(a: Account, home: Sites, suspend: bool, order: seq<string>, stop: Stop)
    requires Inv(a, home) && Legal(a, Request(suspend, order, stop))
    ensures Inv(After(a, suspend, order, stop), home) <==> Safe(a, Request(suspend, order, stop))
  {
    if !Already(a, suspend) {
      var (p, result) := Toggled(a.provider, order, !suspend, stop);
      forall d | d in a.rows ensures (On(p, d) ==> home[d]) && (d in order ==> home[d]) {
        ProviderBound(a, home, suspend, order, stop, d);
      }
      if suspend {
        SuspensionKeeps(a, home, order, p, result);
      } else {
        ActivationKeeps(a, home, order, p, result);
      }
    }
  }

  lemma DropKeeps(a: Account, home: Sites, domain: string)
    requires Inv(a, home)
    ensures Inv(a.(rows := a.rows - {domain}), home)
  {
    var b := a.(rows := a.rows - {domain});
    assert forall d :: d in b.rows <==> d in a.rows && d != domain;
  }

  lemma ChangeKeeps(a: Account, home: Sites, domain: string, on: bool)
    requires Inv(a, home) && a.status.Active?
    ensures Inv(a.(rows := a.rows[domain := on], provider := a.provider[domain := on]), home[domain := on])
  {
    var b := a.(rows := a.rows[domain := on], provider := a.provider[domain := on]);
    forall d | d in b.rows ensures d in home[domain := on] && b.rows[d] == home[domain := on][d]
                                   && (On(b.provider, d) ==> home[domain := on][d]) {
      if d != domain {
        assert d in a.rows;
      }
    }
  }

  /** A step keeps the invariant exactly when it is safe. */
  lemma StepKeeps(a: Account, home: Sites, e: Event)
    requires Inv(a, home) && Legal(a, e)
    ensures Inv(Step(a, e), Home(home, e)) <==> Safe(a, e)
  {
    match e {
      case Request(suspend, order, stop) => RequestKeeps(a, home, suspend, order, stop);
      case Drop(d) => DropKeeps(a, home, d);
      case Change(d, on) => ChangeKeeps(a, home, d, on);
    }
  }

  /** A run whose every step can happen and is safe. */
  ghost predicate Runnable(a: Account, events: seq<Event>)
    decreases |events|
  {
    events == [] || (Legal(a, events[0]) && Safe(a, events[0]) && Runnable(Step(a, events[0]), events[1..]))
  }

  ghost function Play(a: Account, events: seq<Event>): Account
    requires Runnable(a, events)
    decreases |events|
  {
    if events == [] then a else Play(Step(a, events[0]), events[1..])
  }

  function Homes(home: Sites, events: seq<Event>): Sites
    decreases |events|
  {
    if events == [] then home else Homes(Home(home, events[0]), events[1..])
  }

  lemma {:induction false} PlayKeeps(a: Account, home: Sites, events: seq<Event>)
    requires Inv(a, home) && Runnable(a, events)
    ensures Inv(Play(a, events), Homes(home, events))
    decreases |events|
  {
    if events != [] {
      StepKeeps(a, home, events[0]);
      PlayKeeps(Step(a, events[0]), Home(home, events[0]), events[1..]);
    }
  }

  /** Everything the account owns is on exactly where the owner had it on, in the panel and at the provider. */
  ghost predicate AsAtHome(a: Account, home: Sites) {
    forall d :: d in a.rows ==> d in home && a.rows[d] == home[d] && On(a.provider, d) == home[d]
  }

  lemma ActivationRestores(a: Account, home: Sites, order: seq<string>)
    requires Inv(a, home) && !a.status.Active? && Lists(order, Remembered(a))
    ensures var b := After(a, false, order, Runs);
            b.status.Active? && b.login && b.snapshot == map[] && b.rows.Keys == a.rows.Keys && AsAtHome(b, home)
  {
    var b := After(a, false, order, Runs);
    forall d | d in a.rows ensures d in home && b.rows[d] == home[d] && On(b.provider, d) == home[d] {
      ToggledOn(a.provider, order, true, Runs, d);
      assert a.snapshot[d] == home[d];
      assert d in order <==> home[d];
    }
  }

  /**
   * An account that starts active may be suspended and activated any number of times, with requests that fail or die
   * anywhere, sites that are dropped, and sites that are changed while it is active: an activation that then runs to its
   * end brings back exactly the sites the owner had on, among those that are still the account's own.
   */
  lemma RunRestores(a: Account, events: seq<Event>, order: seq<string>)
    requires a.status.Active? && a.snapshot == map[] && (forall d :: d in a.rows ==> (On(a.provider, d) ==> a.rows[d]))
    requires Runnable(a, events) && !Play(a, events).status.Active? && Lists(order, Remembered(Play(a, events)))
    ensures var b := After(Play(a, events), false, order, Runs);
            b.status.Active? && b.login && b.snapshot == map[] && AsAtHome(b, Homes(a.rows, events))
  {
    PlayKeeps(a, a.rows, events);
    ActivationRestores(Play(a, events), Homes(a.rows, events), order);
  }

  /** A run whose every step can happen, safe or not. */
  ghost predicate Possibly(a: Account, events: seq<Event>)
    decreases |events|
  {
    events == [] || (Legal(a, events[0]) && Possibly(Step(a, events[0]), events[1..]))
  }

  ghost function PlayAll(a: Account, events: seq<Event>): Account
    requires Possibly(a, events)
    decreases |events|
  {
    if events == [] then a else PlayAll(Step(a, events[0]), events[1..])
  }

  /** In every run, also one that loses a snapshot, an active account has none stored. */
  lemma {:induction false} ActiveHasNoSnapshot(a: Account, events: seq<Event>)
    requires a.status.Active? ==> a.snapshot == map[]
    requires Possibly(a, events)
    ensures PlayAll(a, events).status.Active? ==> PlayAll(a, events).snapshot == map[]
    decreases |events|
  {
    if events != [] {
      ActiveHasNoSnapshot(Step(a, events[0]), events[1..]);
    }
  }

  // ----- what the two statuses say about the sites -----

  /** No own site is on at the provider. */
  ghost predicate Dark(a: Account) {
    forall d :: d in a.rows ==> !On(a.provider, d)
  }

  /** Every own site is on at the provider exactly when its row says so. */
  ghost predicate Agrees(a: Account) {
    forall d :: d in a.rows ==> On(a.provider, d) == a.rows[d]
  }

  /**
   * A suspension that runs to its end clears every row, and leaves no site on at the provider exactly when every site that
   * was on there had its row on: only those are turned off.
   */
  lemma SuspensionClears(a: Account, order: seq<string>)
    requires !a.status.Suspended? && Lists(order, Enabled(a))
    ensures var b := After(a, true, order, Runs);
            && b.status.Suspended? && !b.login && b.rows.Keys == a.rows.Keys
            && (forall d :: d in b.rows ==> !b.rows[d])
            && (Dark(b) <==> forall d :: d in a.rows && On(a.provider, d) ==> a.rows[d])
  {
    var b := After(a, true, order, Runs);
    forall d | d in a.rows ensures On(b.provider, d) <==> On(a.provider, d) && !a.rows[d] {
      ToggledOn(a.provider, order, false, Runs, d);
    }
  }

  /** What a failure at a site leaves on. */
  lemma FailedOn(p: Sites, order: seq<string>, desired: bool, at: nat, d: string)
    requires at < |order|
    ensures On(Toggled(p, order, desired, Fails(at)).0, d) == if d in order[..at] then !desired else On(p, d)
  {
    OnSet(p, order[..at], desired, d);
    OnSetBack(Set(p, order[..at], desired), order[..at], !desired, d);
  }

  /**
   * An activation that fails leaves the account `suspended`. Its sites are then off exactly when each that was on is one
   * of those the activation had done and turned off again.
   */
  lemma FailedActivation(a: Account, order: seq<string>, at: nat)
    requires !a.status.Active? && Lists(order, Remembered(a)) && at < |order|
    ensures var b := After(a, false, order, Fails(at));
            && b.status.Suspended? && !b.login && b.rows == a.rows && b.snapshot == a.snapshot
            && (Dark(b) <==> forall d :: d in a.rows && On(a.provider, d) ==> d in order[..at])
  {
    var b := After(a, false, order, Fails(at));
    forall d ensures On(b.provider, d) <==> On(a.provider, d) && d !in order[..at] {
      FailedOn(a.provider, order, true, at, d);
    }
  }

  /** So wherever it fails the sites are off, exactly when none was on before. */
  lemma FailedActivationAnywhere(a: Account, order: seq<string>)
    requires !a.status.Active? && Lists(order, Remembered(a)) && order != []
    ensures (forall at: nat {:trigger order[at]} :: at < |order| ==> Dark(After(a, false, order, Fails(at)))) <==> Dark(a)
  {
    forall at: nat | at < |order| ensures Dark(a) ==> Dark(After(a, false, order, Fails(at))) {
      FailedActivation(a, order, at);
    }
    FailedActivation(a, order, 0);
    assert order[0] in order && order[..0] == [];
  }

  /**
   * A suspension that fails leaves the account `active`. Provider and rows then agree exactly when they did for every site
   * that the suspension had not done: those it had done it turns on again, as their rows say.
   */
  lemma FailedSuspension(a: Account, order: seq<string>, at: nat)
    requires !a.status.Suspended? && Lists(order, Enabled(a)) && at < |order|
    ensures var b := After(a, true, order, Fails(at));
            && b.status.Active? && b.login && b.rows == a.rows && b.snapshot == map[]
            && (Agrees(b) <==> forall d :: d in a.rows && d !in order[..at] ==> On(a.provider, d) == a.rows[d])
  {
    var b := After(a, true, order, Fails(at));
    forall d ensures On(b.provider, d) == if d in order[..at] then true else On(a.provider, d) {
      FailedOn(a.provider, order, false, at, d);
    }
    forall d | d in order[..at] ensures d in a.rows && a.rows[d] {
      assert d in order;
    }
  }

  /** So wherever it fails they agree, exactly when they agreed before. */
  lemma FailedSuspensionAnywhere(a: Account, order: seq<string>)
    requires !a.status.Suspended? && Lists(order, Enabled(a)) && order != []
    ensures (forall at: nat {:trigger order[at]} :: at < |order| ==> Agrees(After(a, true, order, Fails(at)))) <==> Agrees(a)
  {
    forall at: nat | at < |order| ensures Agrees(a) ==> Agrees(After(a, true, order, Fails(at))) {
      FailedSuspension(a, order, at);
    }
    FailedSuspension(a, order, 0);
    assert order[0] in order && order[..0] == [];
  }

  /**
   * Suspending and activating an account whose activation was interrupted brings the owner's sites back exactly when its
   * rows still said what the snapshot says.
   */
  lemma ReactivationRestores(a: Account, home: Sites, order: seq<string>, again: seq<string>)
    requires Inv(a, home) && a.status.Activating?
    requires Lists(order, Enabled(a)) && Lists(again, Remembered(After(a, true, order, Runs)))
    ensures AsAtHome(After(After(a, true, order, Runs), false, again, Runs), home) <==> Keeps(a, a.rows, a.snapshot)
  {
    var b := After(a, true, order, Runs);
    var c := After(b, false, again, Runs);
    assert b.snapshot == a.rows && b.rows.Keys == a.rows.Keys;
    forall d | d in a.rows ensures c.rows[d] == a.rows[d] && On(c.provider, d) == (a.rows[d] || On(b.provider, d)) {
      ToggledOn(b.provider, again, true, Runs, d);
      assert d in again <==> a.rows[d];
    }
    forall d | d in a.rows ensures On(b.provider, d) ==> home[d] {
      ProviderBound(a, home, true, order, Runs, d);
    }
    assert Keeps(a, a.snapshot, home);
  }

  // ----- runs that go wrong -----

  /**
   * What the guard is for: an activation that dies and a new suspension lose the snapshot, and the site that was on never
   * comes back.
   */
  lemma SnapshotLost(d: string)
    ensures var a := Account(Active, true, map[d := true], map[], map[d := true]);
            var b := After(After(a, true, [d], Runs), false, [d], Dies(0));
            var c := After(After(b, true, [], Runs), false, [], Runs);
            && Lists([d], Domains(a, true)) && Lists([d], Domains(After(a, true, [d], Runs), false))
            && Lists([], Domains(b, true)) && Lists([], Domains(After(b, true, [], Runs), false))
            && c.status.Active? && !c.rows[d] && !On(c.provider, d)
  {
    var a := Account(Active, true, map[d := true], map[], map[d := true]);
    var s := After(a, true, [d], Runs);
    assert s.rows == map[d := false] && s.snapshot == map[d := true];
    assert Set(map[d := true], [d], false) == map[d := false];
    assert s.provider == map[d := false];
    var b := After(s, false, [d], Dies(0));
    assert b == Account(Activating, false, map[d := false], map[d := true], map[d := false]);
    assert [d][..0] == [];
    var t := After(b, true, [], Runs);
    assert t == Account(Suspended, false, map[d := false], map[d := false], map[d := false]);
  }

  /**
   * The status `suspended` does not mean that the sites are off: when a suspension dies before it reaches a site and the
   * activation that follows fails, the account is called suspended and the site stays on.
   */
  lemma SuspendedButOn(d: string)
    ensures var a := Account(Active, true, map[d := true], map[], map[d := true]);
            var b := After(a, true, [d], Dies(0));
            var c := After(b, false, [d], Fails(0));
            && Lists([d], Domains(a, true)) && Lists([d], Domains(b, false))
            && c.status.Suspended? && On(c.provider, d)
            && forall order, stop | Possible(order, stop) :: After(c, true, order, stop) == c
  {
    assert [d][..0] == [];
  }

  /**
   * Nor does `active` mean that every site is on that should be: when a suspension dies after it turned a site off and a
   * second one fails before it reaches that site, only what the second one did is undone.
   */
  lemma ActiveButOff(c: string, d: string)
    requires c != d
    ensures var a := Account(Active, true, map[c := true, d := true], map[], map[c := true, d := true]);
            var b := After(After(a, true, [d, c], Dies(1)), true, [c, d], Fails(0));
            && Lists([d, c], Domains(a, true)) && Lists([c, d], Domains(After(a, true, [d, c], Dies(1)), true))
            && b.status.Active? && b.snapshot == map[] && b.rows[d] && !On(b.provider, d)
  {
    var p := map[c := true, d := true];
    assert [d, c][..1] == [d];
    assert Set(p, [d], false) == p[d := false];
    assert [c, d][..0] == [];
  }

  /**
   * Nor does a suspension that runs to its end turn off what an interrupted activation had turned on: its row is still off,
   * so it is not among the sites to toggle.
   */
  lemma SuspendedAfterActivating(d: string)
    ensures var a := Account(Active, true, map[d := true], map[], map[d := true]);
            var b := After(After(a, true, [d], Runs), false, [d], Dies(1));
            var c := After(b, true, [], Runs);
            && Lists([d], Domains(a, true)) && Lists([d], Domains(After(a, true, [d], Runs), false))
            && Lists([], Domains(b, true))
            && c.status.Suspended? && On(c.provider, d)
  {
    var a := Account(Active, true, map[d := true], map[], map[d := true]);
    var s := After(a, true, [d], Runs);
    assert s.rows == map[d := false] && s.snapshot == map[d := true];
    assert [d][..1] == [d];
    OnSet(s.provider, [d], true, d);
  }
}
