/** panel/routes_advanced_ops.py: the rows of dns_changes, with handlers that apply and roll back in three steps. */
module DnsChanges {
  import opened Text
  import opened PowerDns

  datatype Status = Preview | Applied | RolledBack

  datatype Row = Row(change: Change, status: Status, snapshot: Snapshot)

  /** What a handler has done: read its row, or also called the provider. */
  datatype Handler =
    | Applying(id: nat)
    | AppliedBy(id: nat, snapshot: Snapshot)
    | Undoing(id: nat, snapshot: Snapshot)
    | UndoneBy(id: nat)

  datatype Panel = Panel(rows: map<nat, Row>, zone: Zone, handlers: map<nat, Handler>)

  datatype Event =
    | Create(id: nat, change: Change)
    | StartApply(h: nat, id: nat)
    | StartUndo(h: nat, id: nat)
    | Call(h: nat)
    | Store(h: nat)
    | Die(h: nat)

  predicate Busy(p: Panel, id: nat) {
    exists h :: h in p.handlers && p.handlers[h].id == id
  }

  /** What the code checks before a step. */
  predicate Allowed(p: Panel, e: Event) {
    match e
    case Create(id, _) => id !in p.rows
    case StartApply(h, id) => h !in p.handlers && id in p.rows && p.rows[id].status == Preview
    case StartUndo(h, id) => h !in p.handlers && id in p.rows && p.rows[id].status == Applied
    case Call(h) => h in p.handlers && (p.handlers[h].Applying? || p.handlers[h].Undoing?) && p.handlers[h].id in p.rows
    case Store(h) => h in p.handlers && (p.handlers[h].AppliedBy? || p.handlers[h].UndoneBy?) && p.handlers[h].id in p.rows
    case Die(h) => h in p.handlers
  }

  /** One handler at a time for a row, which the code does not check. */
  predicate Alone(p: Panel, e: Event) {
    match e
    case StartApply(_, id) => !Busy(p, id)
    case StartUndo(_, id) => !Busy(p, id)
    case _ => true
  }

  function Step(p: Panel, e: Event): Panel
    requires Allowed(p, e)
  {
    match e
    case Create(id, c) => p.(rows := p.rows[id := Row(c, Preview, Snapshot([], c.key))])
    case StartApply(h, id) => p.(handlers := p.handlers[h := Applying(id)])
    case StartUndo(h, id) => p.(handlers := p.handlers[h := Undoing(id, p.rows[id].snapshot)])
    case Call(h) =>
      (match p.handlers[h]
       case Applying(id) =>
         var (z, s) := Apply(p.zone, p.rows[id].change);
         p.(zone := z, handlers := p.handlers[h := AppliedBy(id, s)])
       case Undoing(id, s) => p.(zone := Undo(p.zone, s), handlers := p.handlers[h := UndoneBy(id)])
       case _ => p)
    case Store(h) =>
      var q := p.(handlers := p.handlers - {h});
      (match p.handlers[h]
       case AppliedBy(id, s) => q.(rows := q.rows[id := q.rows[id].(status := Applied, snapshot := s)])
       case UndoneBy(id) => q.(rows := q.rows[id := q.rows[id].(status := RolledBack)])
       case _ => p)
    case Die(h) => p.(handlers := p.handlers - {h})
  }

  ghost predicate Fits(p: Panel, h: nat)
    requires h in p.handlers
  {
    var x := p.handlers[h];
    x.id in p.rows && p.rows[x.id].status == if x.Applying? || x.AppliedBy? then Preview else Applied
  }

  ghost predicate Inv(p: Panel) {
    && (forall h :: h in p.handlers ==> Fits(p, h))
    && (forall g, h :: g in p.handlers && h in p.handlers && p.handlers[g].id == p.handlers[h].id ==> g == h)
  }

  /** A row stays, or goes from preview to applied, or from applied to rolled back. */
  ghost predicate Forward(p: Panel, q: Panel, id: nat)
    requires id in p.rows && id in q.rows
  {
    var a, b := p.rows[id].status, q.rows[id].status;
    p.rows[id].change == q.rows[id].change && (a == b || (a == Preview && b == Applied) || (a == Applied && b == RolledBack))
  }

  lemma StepForward(p: Panel, e: Event)
    requires Inv(p) && Allowed(p, e) && Alone(p, e)
    ensures Inv(Step(p, e))
    ensures forall id :: id in p.rows ==> id in Step(p, e).rows && Forward(p, Step(p, e), id)
  {
    var q := Step(p, e);
    forall h | h in q.handlers ensures Fits(q, h) {
      assert h in p.handlers ==> Fits(p, h);
    }
  }

  function Rank(s: Status): nat {
    match s
    case Preview => 0
    case Applied => 1
    case RolledBack => 2
  }

  /** A run in which every step passes the checks of the code, and no row ever has two handlers. */
  ghost predicate Serial(p: Panel, events: seq<Event>)
    decreases |events|
  {
    events == [] || (Allowed(p, events[0]) && Alone(p, events[0]) && Serial(Step(p, events[0]), events[1..]))
  }

  ghost function Play(p: Panel, events: seq<Event>): Panel
    requires Serial(p, events)
    decreases |events|
  {
    if events == [] then p else Play(Step(p, events[0]), events[1..])
  }

  /**
   * When no row has two handlers, rows only go forward over any run, however the handlers of different rows interleave and
   * wherever they die: no row is removed or changes what it is about, and its status never goes back.
   */
  lemma {:induction false} RowsGoForward(p: Panel, events: seq<Event>, id: nat)
    requires Inv(p) && Serial(p, events) && id in p.rows
    ensures Inv(Play(p, events)) && id in Play(p, events).rows
    ensures Play(p, events).rows[id].change == p.rows[id].change
    ensures Rank(p.rows[id].status) <= Rank(Play(p, events).rows[id].status)
    decreases |events|
  {
    if events != [] {
      StepForward(p, events[0]);
      assert Forward(p, Step(p, events[0]), id);
      RowsGoForward(Step(p, events[0]), events[1..], id);
    }
  }

  /**
   * In any state whatever, the write that ends a handler takes its row forward exactly when the row is not already rolled
   * back, for an apply, or not still a preview, for a rollback. The code writes without looking.
   */
  lemma WriteForward(p: Panel, h: nat)
    requires Allowed(p, Store(h))
    ensures var id := p.handlers[h].id;
            id in Step(p, Store(h)).rows
            && (Forward(p, Step(p, Store(h)), id)
                <==> if p.handlers[h].AppliedBy? then p.rows[id].status != RolledBack else p.rows[id].status != Preview)
  {
    var x, q := p.handlers[h], Step(p, Store(h));
    assert q.rows[x.id].status == if x.AppliedBy? then Applied else RolledBack;
  }

  // ----- two handlers on one row -----

  /** A run, or None when a step is not allowed. */
  function Run(p: Panel, events: seq<Event>): Option<Panel>
    decreases |events|
  {
    if events == [] then Some(p)
    else if Allowed(p, events[0]) then Run(Step(p, events[0]), events[1..])
    else None
  }

  lemma RunStep(p: Panel, e: Event, rest: seq<Event>)
    requires Allowed(p, e)
    ensures Run(p, [e] + rest) == Run(Step(p, e), rest)
  {
    assert ([e] + rest)[1..] == rest;
  }

  lemma RunThree(p: Panel, a: Event, b: Event, c: Event, rest: seq<Event>)
    requires Allowed(p, a) && Allowed(Step(p, a), b) && Allowed(Step(Step(p, a), b), c)
    ensures Run(p, [a] + ([b] + ([c] + rest))) == Run(Step(Step(Step(p, a), b), c), rest)
  {
    RunStep(p, a, [b] + ([c] + rest));
    RunStep(Step(p, a), b, [c] + rest);
    RunStep(Step(Step(p, a), b), c, rest);
  }

  /** A row in preview, and two handlers that have both read it and called the provider. */
  function Start(z: Zone, c: Change): Panel {
    Panel(map[0 := Row(c, Preview, Snapshot([], c.key))], z, map[])
  }

  function Both(): seq<Event> {
    [StartApply(1, 0)] + ([StartApply(2, 0)] + ([Call(1)] + [Call(2)]))
  }

  function AfterBoth(z: Zone, c: Change): Panel {
    var (y, s) := Apply(z, c);
    var (x, t) := Apply(y, c);
    Panel(map[0 := Row(c, Preview, Snapshot([], c.key))], x, map[1 := AppliedBy(0, s), 2 := AppliedBy(0, t)])
  }

  lemma BothRun(z: Zone, c: Change, rest: seq<Event>)
    ensures Run(Start(z, c), Both() + rest) == Run(AfterBoth(z, c), rest)
  {
    var p0 := Start(z, c);
    var p1 := Step(p0, StartApply(1, 0));
    var p2 := Step(p1, StartApply(2, 0));
    var p3 := Step(p2, Call(1));
    var p4 := Step(p3, Call(2));
    RunThree(p0, StartApply(1, 0), StartApply(2, 0), Call(1), [Call(2)] + rest);
    RunStep(p3, Call(2), rest);
    assert p4 == AfterBoth(z, c);
    assert Both() + rest == [StartApply(1, 0)] + ([StartApply(2, 0)] + ([Call(1)] + ([Call(2)] + rest)));
  }

  /** A handler u that rolls the row back. */
  function UndoIt(u: nat): seq<Event> {
    [StartUndo(u, 0)] + ([Call(u)] + ([Store(u)] + []))
  }

  lemma UndoRun(p: Panel, u: nat)
    requires u !in p.handlers && 0 in p.rows && p.rows[0].status == Applied
    ensures Run(p, UndoIt(u))
         == Some(Panel(p.rows[0 := p.rows[0].(status := RolledBack)], Undo(p.zone, p.rows[0].snapshot), p.handlers))
  {
    var r := Step(Step(p, StartUndo(u, 0)), Call(u));
    assert Step(r, Store(u)).handlers == p.handlers;
    RunThree(p, StartUndo(u, 0), Call(u), Store(u), []);
  }

  /** Only handlers that apply row 0. */
  predicate Applies(e: Event) {
    e.Call? || e.Store? || e.Die? || (e.StartApply? && e.id == 0)
  }

  /** Which handler was the first to call, while it has not stored, and whether the last one to store was that one. */
  datatype Order = Order(called: bool, first: Option<nat>, firstStoredLast: bool)

  function Follow(o: Order, e: Event): Order {
    match e
    case Call(h) => if o.called then o else Order(true, Some(h), o.firstStoredLast)
    case Store(h) => Order(o.called, if o.first == Some(h) then None else o.first, o.first == Some(h))
    case Die(h) => if o.first == Some(h) then o.(first := None) else o
    case _ => o
  }

  function OrderOf(o: Order, events: seq<Event>): Order
    decreases |events|
  {
    if events == [] then o else OrderOf(Follow(o, events[0]), events[1..])
  }

  predicate FirstStoredLast(events: seq<Event>) {
    OrderOf(Order(false, None, false), events).firstStoredLast
  }

  /** Only the first handler to call has seen the original; y is the changed zone. */
  ghost predicate Overlapping(p: Panel, z: Zone, y: Zone, c: Change, o: Order) {
    && p.rows.Keys == {0} && p.rows[0].change == c && p.rows[0].status != RolledBack
    && (p.rows[0].status == Applied ==> o.called && p.rows[0].snapshot == SnapshotOf(if o.firstStoredLast then z else y, c.key))
    && p.zone == (if o.called then y else z)
    && (o.first.Some? ==> o.called && o.first.value in p.handlers && p.handlers[o.first.value].AppliedBy?)
    && (forall h :: h in p.handlers ==> Seen(p.handlers[h], if o.first == Some(h) then z else y, o.called, c.key))
  }

  ghost predicate Seen(x: Handler, was: Zone, called: bool, k: Key) {
    x.id == 0 && (x.Applying? || (called && x == AppliedBy(0, SnapshotOf(was, k))))
  }

  lemma ApplyTwice(z: Zone, c: Change)
    ensures var y := Apply(z, c).0; Apply(y, c) == (y, SnapshotOf(y, c.key)) && Apply(z, c).1 == SnapshotOf(z, c.key)
  {
    var y := Apply(z, c).0;
    assert Apply(y, c).0 == y;
  }

  lemma OverlapStep(p: Panel, z: Zone, c: Change, o: Order, e: Event)
    requires Overlapping(p, z, Apply(z, c).0, c, o) && Applies(e) && Allowed(p, e)
    ensures Overlapping(Step(p, e), z, Apply(z, c).0, c, Follow(o, e))
  {
    ApplyTwice(z, c);
    var q := Step(p, e);
    forall h | h in q.handlers
      ensures Seen(q.handlers[h], if Follow(o, e).first == Some(h) then z else Apply(z, c).0, Follow(o, e).called, c.key)
    {
      assert h in p.handlers ==> Seen(p.handlers[h], if o.first == Some(h) then z else Apply(z, c).0, o.called, c.key);
    }
  }

  lemma {:induction false} OverlapRun(p: Panel, z: Zone, c: Change, o: Order, events: seq<Event>)
    requires Overlapping(p, z, Apply(z, c).0, c, o) && Run(p, events).Some?
    requires forall i :: 0 <= i < |events| ==> Applies(events[i])
    ensures Overlapping(Run(p, events).value, z, Apply(z, c).0, c, OrderOf(o, events))
    decreases |events|
  {
    if events != [] {
      OverlapStep(p, z, c, o, events[0]);
      OverlapRun(Step(p, events[0]), z, c, Follow(o, events[0]), events[1..]);
    }
  }

  /**
   * However any number of handlers that apply one row overlap, and wherever some of them die: rolling the applied row back
   * restores the zone exactly when the handler that stored last was the first to call, or the change had changed nothing.
   */
  lemma OverlapLosesOriginal(z: Zone, c: Change, events: seq<Event>, u: nat)
    requires Proper(z) && forall i :: 0 <= i < |events| ==> Applies(events[i])
    requires var end := Run(Start(z, c), events);
             end.Some? && 0 in end.value.rows && end.value.rows[0].status == Applied && u !in end.value.handlers
    ensures var end := Run(Run(Start(z, c), events).value, UndoIt(u));
            end.Some? && (end.value.zone == z <==> FirstStoredLast(events) || Apply(z, c).0 == z)
  {
    var y, o := Apply(z, c).0, Order(false, None, false);
    OverlapRun(Start(z, c), z, c, o, events);
    UndoRun(Run(Start(z, c), events).value, u);
    ApplyTwice(z, c);
    ApplyAt(z, c);
    Undone(z, c);
    Undone(y, c);
  }

  /** So two handlers that overlap lose the original when the second to call also stores last and the change changes z. */
  lemma SecondStoresLast(z: Zone, c: Change)
    requires Proper(z)
    ensures var end := Run(Start(z, c), Both() + ([Store(1)] + ([Store(2)] + UndoIt(3))));
            end.Some? && (end.value.zone == z <==> Apply(z, c).0 == z)
  {
    var p := AfterBoth(z, c);
    var q := Step(p, Store(1));
    var r := Step(q, Store(2));
    BothRun(z, c, [Store(1)] + ([Store(2)] + UndoIt(3)));
    RunStep(p, Store(1), [Store(2)] + UndoIt(3));
    RunStep(q, Store(2), UndoIt(3));
    UndoRun(r, 3);
    ApplyAt(z, c);
    Undone(Apply(z, c).0, c);
  }

  /** And a late handler stores `applied` over a row that was rolled back in the meantime. */
  lemma RolledBackThenApplied(z: Zone, c: Change)
    ensures var mid := Run(Start(z, c), Both() + ([Store(1)] + UndoIt(3)));
            && mid.Some? && 0 in mid.value.rows && mid.value.rows[0].status == RolledBack
            && Allowed(mid.value, Store(2)) && 0 in Step(mid.value, Store(2)).rows
            && Step(mid.value, Store(2)).rows[0].status == Applied
  {
    var p := AfterBoth(z, c);
    var q := Step(p, Store(1));
    BothRun(z, c, [Store(1)] + UndoIt(3));
    RunStep(p, Store(1), UndoIt(3));
    UndoRun(q, 3);
  }
}
