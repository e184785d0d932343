/**
 * agent/hosting_ops_agent.py and panel/routes_advanced_ops.py: what a zone is after any number of changes have been applied
 * and rolled back, in any order and with the handlers of different rows interleaved.
 */
module DnsRuns {
  import opened Text
  import opened PowerDns
  import opened DnsChanges

  function KeyOf(p: Panel, id: nat): Key
    requires id in p.rows
  {
    p.rows[id].change.key
  }

  /** A row that is applied, or that a handler is at work on. */
  ghost predicate Engaged(p: Panel, id: nat) {
    id in p.rows && (p.rows[id].status == Applied || Busy(p, id))
  }

  /** No row for k is engaged. */
  ghost predicate Free(p: Panel, k: Key) {
    forall id :: Engaged(p, id) ==> KeyOf(p, id) != k
  }

  /**
   * What a run must keep to: one handler for a row, no change that is applied while another for its name and type is or is
   * under way, and no handler that dies between changing the zone and recording what was there.
   */
  ghost predicate Careful(p: Panel, e: Event) {
    && Alone(p, e)
    && (e.StartApply? && e.id in p.rows ==> Free(p, KeyOf(p, e.id)))
    && (e.Die? && e.h in p.handlers ==> !p.handlers[e.h].AppliedBy?)
  }

  ghost predicate CarefulRun(p: Panel, events: seq<Event>)
    decreases |events|
  {
    events == [] || (Allowed(p, events[0]) && Careful(p, events[0]) && CarefulRun(Step(p, events[0]), events[1..]))
  }

  ghost function PlayOn(p: Panel, events: seq<Event>): Panel
    requires CarefulRun(p, events)
    decreases |events|
  {
    if events == [] then p else PlayOn(Step(p, events[0]), events[1..])
  }

  ghost predicate HandlerOk(p: Panel, was: Zone, h: nat)
    requires h in p.handlers && p.handlers[h].id in p.rows
  {
    var k := KeyOf(p, p.handlers[h].id);
    match p.handlers[h]
    case Applying(_) => SameAt(p.zone, was, k)
    case AppliedBy(_, s) => s == SnapshotOf(was, k)
    case Undoing(_, s) => s == SnapshotOf(was, k)
    case UndoneBy(_) => SameAt(p.zone, was, k)
  }

  ghost predicate HandlersOk(p: Panel, was: Zone)
    requires Inv(p)
  {
    forall h :: h in p.handlers ==> Fits(p, h) && HandlerOk(p, was, h)
  }

  ghost predicate RowsOk(p: Panel, was: Zone) {
    forall id :: id in p.rows && p.rows[id].status == Applied ==> p.rows[id].snapshot == SnapshotOf(was, KeyOf(p, id))
  }

  ghost predicate RestOk(p: Panel, was: Zone) {
    forall k :: Free(p, k) ==> SameAt(p.zone, was, k)
  }

  ghost predicate OneEach(p: Panel) {
    forall i, j :: Engaged(p, i) && Engaged(p, j) && KeyOf(p, i) == KeyOf(p, j) ==> i == j
  }

  /** Every change can still be undone to what `was` had. */
  ghost predicate Undoable(p: Panel, was: Zone) {
    Inv(p) && Proper(p.zone) && Proper(was) && OneEach(p) && RowsOk(p, was) && HandlersOk(p, was) && RestOk(p, was)
  }

  /** A zone that differs only at k keeps what is said of other keys. */
  lemma Elsewhere(z: Zone, y: Zone, was: Zone, k: Key, j: Key)
    requires y - {k} == z - {k} && j != k
    ensures SameAt(y, was, j) <==> SameAt(z, was, j)
  {
    assert j in y <==> j in y - {k};
    assert j in z <==> j in z - {k};
    assert j in y ==> y[j] == (y - {k})[j];
    assert j in z ==> z[j] == (z - {k})[j];
  }

  /** Rows are engaged as before when the same rows have handlers and rows did not become applied. */
  lemma EngagedSame(p: Panel, q: Panel, id: nat)
    requires (id in p.rows <==> id in q.rows) && (Busy(p, id) <==> Busy(q, id))
    requires id in p.rows ==> (p.rows[id].status == Applied <==> q.rows[id].status == Applied)
    ensures Engaged(p, id) <==> Engaged(q, id)
  {
  }

  lemma BusyElse(p: Panel, q: Panel, h: nat, id: nat)
    requires q.handlers - {h} == p.handlers - {h}
    requires h in p.handlers && p.handlers[h].id == id ==> h in q.handlers && q.handlers[h].id == id
    requires h in q.handlers && q.handlers[h].id == id ==> h in p.handlers && p.handlers[h].id == id
    ensures Busy(q, id) <==> Busy(p, id)
  {
    OtherHandlers(p, q, h);
    if Busy(p, id) {
      var g :| g in p.handlers && p.handlers[g].id == id;
      assert g in q.handlers && q.handlers[g].id == id;
    }
    if Busy(q, id) {
      var g :| g in q.handlers && q.handlers[g].id == id;
      assert g in p.handlers && p.handlers[g].id == id;
    }
  }

  lemma OtherHandlers(p: Panel, q: Panel, h: nat)
    requires q.handlers - {h} == p.handlers - {h}
    ensures forall g :: g != h ==> (g in q.handlers <==> g in p.handlers)
    ensures forall g :: g != h && g in p.handlers ==> q.handlers[g] == p.handlers[g]
  {
    forall g | g != h ensures (g in q.handlers <==> g in p.handlers) && (g in p.handlers ==> q.handlers[g] == p.handlers[g]) {
      assert g in q.handlers <==> g in q.handlers - {h};
      assert g in p.handlers <==> g in p.handlers - {h};
      assert g in q.handlers ==> q.handlers[g] == (q.handlers - {h})[g];
    }
  }

  // ----- a call -----

  lemma CallEngaged(p: Panel, h: nat, q: Panel, id: nat)
    requires h in p.handlers && h in q.handlers && q.rows == p.rows
    requires q.handlers - {h} == p.handlers - {h} && q.handlers[h].id == p.handlers[h].id
    ensures Engaged(q, id) <==> Engaged(p, id)
  {
    BusyElse(p, q, h, id);
    EngagedSame(p, q, id);
  }

  lemma CallHandlers(p: Panel, was: Zone, h: nat, q: Panel)
    requires Undoable(p, was) && h in p.handlers && p.handlers[h].id in p.rows && h in q.handlers
    requires q.rows == p.rows && q.handlers - {h} == p.handlers - {h} && Inv(q)
    requires var k := KeyOf(p, p.handlers[h].id); q.zone - {k} == p.zone - {k}
    requires q.handlers[h].id in q.rows && HandlerOk(q, was, h)
    ensures HandlersOk(q, was)
  {
    OtherHandlers(p, q, h);
    forall g | g in q.handlers ensures Fits(q, g) && HandlerOk(q, was, g) {
      if g != h {
        assert Fits(p, g) && HandlerOk(p, was, g);
        KeysApart(p, g, h);
        Elsewhere(p.zone, q.zone, was, KeyOf(p, p.handlers[h].id), KeyOf(p, p.handlers[g].id));
      }
    }
  }

  /** Two handlers work on different keys. */
  lemma KeysApart(p: Panel, g: nat, h: nat)
    requires Inv(p) && OneEach(p) && g in p.handlers && h in p.handlers && g != h
    ensures p.handlers[g].id in p.rows && p.handlers[h].id in p.rows
    ensures KeyOf(p, p.handlers[g].id) != KeyOf(p, p.handlers[h].id)
  {
    assert Fits(p, g) && Fits(p, h);
    assert Engaged(p, p.handlers[g].id) && Engaged(p, p.handlers[h].id);
  }

  lemma CallRest(p: Panel, was: Zone, h: nat, q: Panel)
    requires Undoable(p, was) && h in p.handlers && p.handlers[h].id in p.rows && h in q.handlers && q.rows == p.rows
    requires q.handlers - {h} == p.handlers - {h} && q.handlers[h].id == p.handlers[h].id
    requires var k := KeyOf(p, p.handlers[h].id); q.zone - {k} == p.zone - {k}
    ensures RestOk(q, was) && OneEach(q)
  {
    forall id ensures Engaged(q, id) <==> Engaged(p, id) {
      CallEngaged(p, h, q, id);
    }
    assert Engaged(p, p.handlers[h].id);
    forall j | Free(q, j) ensures SameAt(q.zone, was, j) {
      assert Free(p, j);
      Elsewhere(p.zone, q.zone, was, KeyOf(p, p.handlers[h].id), j);
    }
  }

  /** A call keeps the invariant when it does for the handler. */
  lemma CallKeeps(p: Panel, was: Zone, h: nat, q: Panel)
    requires Undoable(p, was) && h in p.handlers && p.handlers[h].id in p.rows && h in q.handlers
    requires q.rows == p.rows && q.handlers - {h} == p.handlers - {h} && q.handlers[h].id == p.handlers[h].id
    requires var k := KeyOf(p, p.handlers[h].id); q.zone - {k} == p.zone - {k}
    requires Inv(q) && Proper(q.zone) && HandlerOk(q, was, h)
    ensures Undoable(q, was)
  {
    CallHandlers(p, was, h, q);
    CallRest(p, was, h, q);
  }

  lemma CallApplyKeeps(p: Panel, was: Zone, h: nat)
    requires Undoable(p, was) && Allowed(p, Call(h)) && p.handlers[h].Applying?
    ensures Undoable(Step(p, Call(h)), was)
  {
    var id, q := p.handlers[h].id, Step(p, Call(h));
    StepForward(p, Call(h));
    assert Fits(p, h) && HandlerOk(p, was, h);
    ApplyAt(p.zone, p.rows[id].change);
    Shown(p.zone, was, KeyOf(p, id));
    CallKeeps(p, was, h, q);
  }

  lemma UndoProper(z: Zone, was: Zone, k: Key)
    requires Proper(z) && Proper(was)
    ensures var y := Undo(z, SnapshotOf(was, k)); Proper(y) && y - {k} == z - {k} && SameAt(y, was, k)
  {
    UndoAt(z, SnapshotOf(was, k), was);
  }

  lemma CallUndoKeeps(p: Panel, was: Zone, h: nat)
    requires Undoable(p, was) && Allowed(p, Call(h)) && p.handlers[h].Undoing?
    ensures Undoable(Step(p, Call(h)), was)
  {
    var id, q := p.handlers[h].id, Step(p, Call(h));
    StepForward(p, Call(h));
    assert Fits(p, h) && HandlerOk(p, was, h);
    UndoProper(p.zone, was, KeyOf(p, id));
    CallKeeps(p, was, h, q);
  }

  // ----- the other steps leave the zone alone -----

  lemma OthersEngaged(p: Panel, q: Panel, h: nat, id: nat)
    requires q.handlers - {h} == p.handlers - {h}
    requires (h in p.handlers ==> p.handlers[h].id == id) && (h in q.handlers ==> q.handlers[h].id == id)
    requires q.rows - {id} == p.rows - {id}
    ensures forall i :: i != id ==> (Engaged(q, i) <==> Engaged(p, i))
  {
    forall i | i != id ensures Engaged(q, i) <==> Engaged(p, i) {
      BusyElse(p, q, h, i);
      assert i in p.rows <==> i in p.rows - {id};
      assert i in q.rows <==> i in q.rows - {id};
      assert i in p.rows ==> p.rows[i] == (p.rows - {id})[i] == q.rows[i];
      EngagedSame(p, q, i);
    }
  }

  /** When a row becomes free its key must be as it was. */
  lemma FewerEngaged(p: Panel, was: Zone, q: Panel, id: nat)
    requires Undoable(p, was) && q.zone == p.zone
    requires forall i :: i in p.rows <==> i in q.rows
    requires forall i :: i in p.rows ==> KeyOf(q, i) == KeyOf(p, i)
    requires forall i :: i != id ==> (Engaged(q, i) <==> Engaged(p, i))
    requires Engaged(q, id) ==> Engaged(p, id)
    requires Engaged(p, id) && !Engaged(q, id) ==> SameAt(p.zone, was, KeyOf(p, id))
    ensures OneEach(q) && RestOk(q, was)
  {
    forall k | Free(q, k) ensures SameAt(q.zone, was, k) {
      if !Engaged(p, id) || KeyOf(p, id) != k {
        forall i | Engaged(p, i) ensures KeyOf(p, i) != k {
          assert i != id ==> Engaged(q, i);
        }
        assert Free(p, k);
      }
    }
  }

  lemma StoreKeeps(p: Panel, was: Zone, h: nat)
    requires Undoable(p, was) && Allowed(p, Store(h))
    ensures Undoable(Step(p, Store(h)), was)
  {
    var x, q := p.handlers[h], Step(p, Store(h));
    StepForward(p, Store(h));
    assert Fits(p, h) && HandlerOk(p, was, h);
    OthersEngaged(p, q, h, x.id);
    FewerEngaged(p, was, q, x.id);
    StoreHandlers(p, was, h);
  }

  lemma StoreHandlers(p: Panel, was: Zone, h: nat)
    requires Undoable(p, was) && Allowed(p, Store(h)) && Inv(Step(p, Store(h)))
    ensures HandlersOk(Step(p, Store(h)), was)
  {
    var q := Step(p, Store(h));
    forall g | g in q.handlers ensures Fits(q, g) && HandlerOk(q, was, g) {
      assert Fits(p, g) && HandlerOk(p, was, g);
    }
  }

  lemma DieKeeps(p: Panel, was: Zone, h: nat)
    requires Undoable(p, was) && Allowed(p, Die(h)) && Careful(p, Die(h))
    ensures Undoable(Step(p, Die(h)), was)
  {
    var x, q := p.handlers[h], Step(p, Die(h));
    StepForward(p, Die(h));
    assert Fits(p, h) && HandlerOk(p, was, h);
    OthersEngaged(p, q, h, x.id);
    FewerEngaged(p, was, q, x.id);
    forall g | g in q.handlers ensures Fits(q, g) && HandlerOk(q, was, g) {
      assert Fits(p, g) && HandlerOk(p, was, g);
    }
  }

  lemma StartApplyKeeps(p: Panel, was: Zone, h: nat, id: nat)
    requires Undoable(p, was) && Allowed(p, StartApply(h, id)) && Careful(p, StartApply(h, id))
    ensures Undoable(Step(p, StartApply(h, id)), was)
  {
    var q := Step(p, StartApply(h, id));
    StepForward(p, StartApply(h, id));
    OthersEngaged(p, q, h, id);
    forall k | Free(q, k) ensures SameAt(q.zone, was, k) {
      assert !Engaged(p, id);
      forall i | Engaged(p, i) ensures KeyOf(p, i) != k {
        assert Engaged(q, i);
      }
      assert Free(p, k);
    }
    forall g | g in q.handlers ensures Fits(q, g) && HandlerOk(q, was, g) {
      if g != h {
        assert Fits(p, g) && HandlerOk(p, was, g);
      }
    }
  }

  lemma StartUndoKeeps(p: Panel, was: Zone, h: nat, id: nat)
    requires Undoable(p, was) && Allowed(p, StartUndo(h, id)) && Careful(p, StartUndo(h, id))
    ensures Undoable(Step(p, StartUndo(h, id)), was)
  {
    var q := Step(p, StartUndo(h, id));
    StepForward(p, StartUndo(h, id));
    OthersEngaged(p, q, h, id);
    assert Engaged(p, id);
    FewerEngaged(p, was, q, id);
    forall g | g in q.handlers ensures Fits(q, g) && HandlerOk(q, was, g) {
      if g != h {
        assert Fits(p, g) && HandlerOk(p, was, g);
      }
    }
  }

  lemma CreateKeeps(p: Panel, was: Zone, id: nat, c: Change)
    requires Undoable(p, was) && Allowed(p, Create(id, c))
    ensures Undoable(Step(p, Create(id, c)), was)
  {
    var q := Step(p, Create(id, c));
    StepForward(p, Create(id, c));
    forall g | g in p.handlers ensures p.handlers[g].id != id {
      assert Fits(p, g);
    }
    assert !Busy(q, id);
    forall i ensures Engaged(q, i) <==> Engaged(p, i) {
      assert Busy(q, i) <==> Busy(p, i);
    }
    forall k | Free(q, k) ensures SameAt(q.zone, was, k) {
      forall i | Engaged(p, i) ensures KeyOf(p, i) != k {
        assert Engaged(q, i);
      }
      assert Free(p, k);
    }
    forall g | g in q.handlers ensures Fits(q, g) && HandlerOk(q, was, g) {
      assert HandlerOk(p, was, g) && Fits(p, g);
    }
  }

  lemma StepUndoable(p: Panel, was: Zone, e: Event)
    requires Undoable(p, was) && Allowed(p, e) && Careful(p, e)
    ensures Undoable(Step(p, e), was)
  {
    match e {
      case Create(id, c) => CreateKeeps(p, was, id, c);
      case StartApply(h, id) => StartApplyKeeps(p, was, h, id);
      case StartUndo(h, id) => StartUndoKeeps(p, was, h, id);
      case Call(h) =>
        if p.handlers[h].Applying? {
          CallApplyKeeps(p, was, h);
        } else {
          CallUndoKeeps(p, was, h);
        }
      case Store(h) => StoreKeeps(p, was, h);
      case Die(h) => DieKeeps(p, was, h);
    }
  }

  lemma {:induction false} RunUndoable(p: Panel, was: Zone, events: seq<Event>)
    requires Undoable(p, was) && CarefulRun(p, events)
    ensures Undoable(PlayOn(p, events), was)
    decreases |events|
  {
    if events != [] {
      StepUndoable(p, was, events[0]);
      RunUndoable(Step(p, events[0]), was, events[1..]);
    }
  }

  /** Nothing is applied and nothing is under way. */
  ghost predicate Settled(p: Panel) {
    p.handlers == map[] && forall id :: id in p.rows ==> p.rows[id].status != Applied
  }

  /**
   * However changes are created, applied and rolled back, in any order, interleaved step by step, one at a time for a name
   * and type, with handlers that die anywhere but between changing the zone and recording it: once every applied row is
   * rolled back, the zone has exactly the record sets it began with.
   */
  lemma SettledRestored(z: Zone, events: seq<Event>)
    requires Proper(z) && CarefulRun(Panel(map[], z, map[]), events)
    ensures var end := PlayOn(Panel(map[], z, map[]), events); Settled(end) ==> end.zone == z
  {
    RunUndoable(Panel(map[], z, map[]), z, events);
    var end := PlayOn(Panel(map[], z, map[]), events);
    if Settled(end) {
      forall k ensures SameAt(end.zone, z, k) {
        assert Free(end, k);
      }
      SameZone(end.zone, z);
    }
  }

  /** A row in preview whose change has been made by a handler that died. */
  lemma DiedRun(z: Zone, c: Change, rest: seq<Event>)
    ensures Run(Start(z, c), [StartApply(1, 0)] + ([Call(1)] + ([Die(1)] + rest))) == Run(Start(Apply(z, c).0, c), rest)
  {
    var p0 := Start(z, c);
    var p1 := Step(p0, StartApply(1, 0));
    var p2 := Step(p1, Call(1));
    RunThree(p0, StartApply(1, 0), Call(1), Die(1), rest);
    assert Step(p2, Die(1)) == Start(Apply(z, c).0, c);
  }

  lemma AppliedRun(z: Zone, c: Change, rest: seq<Event>)
    ensures var (y, s) := Apply(z, c);
            (Run(Start(z, c), [StartApply(1, 0)] + ([Call(1)] + ([Store(1)] + rest)))
             == Run(Panel(map[0 := Row(c, Applied, s)], y, map[]), rest))
  {
    var p0 := Start(z, c);
    var p1 := Step(p0, StartApply(1, 0));
    var p2 := Step(p1, Call(1));
    RunThree(p0, StartApply(1, 0), Call(1), Store(1), rest);
    assert Step(p2, Store(1)) == Panel(map[0 := Row(c, Applied, Apply(z, c).1)], Apply(z, c).0, map[]);
  }

  /**
   * A handler that dies between changing the zone and recording it breaks this: applying the row again takes its snapshot of
   * the changed zone, and rolling that back restores the zone exactly when the change had changed nothing.
   */
  lemma UnrecordedCall(z: Zone, c: Change)
    requires Proper(z)
    ensures var again := [StartApply(1, 0)] + ([Call(1)] + ([Store(1)] + UndoIt(3)));
            var end := Run(Start(z, c), [StartApply(1, 0)] + ([Call(1)] + ([Die(1)] + again)));
            end.Some? && end.value.handlers == map[] && (end.value.zone == z <==> Apply(z, c).0 == z)
  {
    var y := Apply(z, c).0;
    DiedRun(z, c, [StartApply(1, 0)] + ([Call(1)] + ([Store(1)] + UndoIt(3))));
    AppliedRun(y, c, UndoIt(3));
    UndoRun(Panel(map[0 := Row(c, Applied, Apply(y, c).1)], Apply(y, c).0, map[]), 3);
    ApplyAt(z, c);
    Undone(y, c);
  }
}
