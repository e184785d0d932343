/** agent/hosting_ops_agent.py: changing a PowerDNS zone and undoing the change from the snapshot taken before it. */
module PowerDns {

  /** A record set has a name, a type, one TTL and at least one record; section 5 of RFC 2181. */
  datatype Key = Key(name: string, rtype: string)

  datatype Record = Record(content: string, disabled: bool)

  datatype RRset = RRset(ttl: nat, records: seq<Record>)

  type Zone = map<Key, RRset>

  ghost predicate Proper(z: Zone) {
    forall k :: k in z ==> z[k].records != []
  }

  /** The content as the provider wants it is already in `content`. */
  datatype Change = Put(key: Key, ttl: nat, content: string) | Remove(key: Key)

  datatype Snapshot = Snapshot(rrsets: seq<(Key, RRset)>, key: Key)

  /** One entry of a PATCH; replacing a record set by no records removes it. */
  datatype Patch = Replace(key: Key, rrset: RRset) | Delete(key: Key)

  function Patched(z: Zone, p: Patch): Zone {
    match p
    case Replace(k, s) => if s.records == [] then z - {k} else z[k := s]
    case Delete(k) => z - {k}
  }

  function PatchedAll(z: Zone, ps: seq<Patch>): Zone {
    if ps == [] then z else Patched(PatchedAll(z, ps[..|ps| - 1]), ps[|ps| - 1])
  }

  /** What the snapshot of a change of k says when it is taken in z. */
  function SnapshotOf(z: Zone, k: Key): Snapshot {
    Snapshot(if k in z then [(k, z[k])] else [], k)
  }

  /** _dns_apply: what is there under the name and type, then the one record that replaces it. */
  function Apply(z: Zone, c: Change): (Zone, Snapshot) {
    var before := SnapshotOf(z, c.key);
    match c
    case Put(k, ttl, content) => (Patched(z, Replace(k, RRset(ttl, [Record(content, false)]))), before)
    case Remove(k) => (Patched(z, Delete(k)), before)
  }

  const MAX_RRSETS := 5

  /** The patches of a rollback: the record sets of the snapshot, or removal when there were none. */
  function Patches(s: Snapshot): seq<Patch> {
    var n := if |s.rrsets| < MAX_RRSETS then |s.rrsets| else MAX_RRSETS;
    if n == 0 then [Delete(s.key)]
    else seq(n, i requires 0 <= i < n => Replace(s.rrsets[i].0, s.rrsets[i].1))
  }

  function Undo(z: Zone, s: Snapshot): Zone {
    PatchedAll(z, Patches(s))
  }

  /** _dns_rollback */
  method Rollback(z: Zone, s: Snapshot) returns (r: Zone, restored: nat)
    ensures r == Undo(z, s)
    ensures restored == |Patches(s)|
  {
    var patches: seq<Patch> := [];
    var i := 0;
    while i < |s.rrsets| && i < MAX_RRSETS
      invariant 0 <= i <= |s.rrsets| && i <= MAX_RRSETS && |patches| == i
      invariant forall j :: 0 <= j < i ==> patches[j] == Replace(s.rrsets[j].0, s.rrsets[j].1)
    {
      patches := patches + [Replace(s.rrsets[i].0, s.rrsets[i].1)];
      i := i + 1;
    }
    if patches == [] {
      patches := [Delete(s.key)];
    }
    assert patches == Patches(s);
    r, restored := PatchedAll(z, patches), |patches|;
  }

  /** What a change of one key leaves and what its undo puts back, seen at every key. */
  lemma UndoAt(z: Zone, s: Snapshot, was: Zone)
    requires Proper(was) && s == SnapshotOf(was, s.key)
    ensures Undo(z, s) == if s.key in was then z[s.key := was[s.key]] else z - {s.key}
  {
    var ps := Patches(s);
    assert |ps| == 1 && ps[..0] == [];
    assert PatchedAll(z, ps) == Patched(z, ps[0]);
  }

  lemma ApplyAt(z: Zone, c: Change)
    requires Proper(z)
    ensures var (y, s) := Apply(z, c);
            Proper(y) && s.key == c.key && y - {c.key} == z - {c.key}
            && s == SnapshotOf(z, c.key)
  {
  }

  /** A change is undone: the zone has exactly the record sets it had. */
  lemma Undone(z: Zone, c: Change)
    requires Proper(z)
    ensures var (y, s) := Apply(z, c); Undo(y, s) == z
  {
    var (y, s) := Apply(z, c);
    ApplyAt(z, c);
    UndoAt(y, s, z);
  }

  // ----- many changes -----

  /** Changes one after the other: the zone, and the snapshot of each. */
  function ApplyAll(z: Zone, cs: seq<Change>): (Zone, seq<Snapshot>) {
    if cs == [] then (z, [])
    else
      var (y, ss) := ApplyAll(z, cs[..|cs| - 1]);
      var (x, s) := Apply(y, cs[|cs| - 1]);
      (x, ss + [s])
  }

  /** Undone from the last to the first. */
  function UndoBack(z: Zone, ss: seq<Snapshot>): Zone
    decreases |ss|
  {
    if ss == [] then z else UndoBack(Undo(z, ss[|ss| - 1]), ss[..|ss| - 1])
  }

  lemma {:induction false} AllProper(z: Zone, cs: seq<Change>)
    requires Proper(z)
    ensures Proper(ApplyAll(z, cs).0) && |ApplyAll(z, cs).1| == |cs|
  {
    if cs != [] {
      AllProper(z, cs[..|cs| - 1]);
      ApplyAt(ApplyAll(z, cs[..|cs| - 1]).0, cs[|cs| - 1]);
    }
  }

  /** Any changes undone in reverse order leave the zone as it was. */
  lemma {:induction false} ReverseUndone(z: Zone, cs: seq<Change>)
    requires Proper(z)
    ensures UndoBack(ApplyAll(z, cs).0, ApplyAll(z, cs).1) == z
  {
    if cs != [] {
      var front, c := cs[..|cs| - 1], cs[|cs| - 1];
      var (y, ss) := ApplyAll(z, front);
      AllProper(z, front);
      Undone(y, c);
      ReverseUndone(z, front);
      var (x, s) := Apply(y, c);
      assert (ss + [s])[..|ss + [s]| - 1] == ss;
    }
  }

  ghost predicate DistinctKeys(cs: seq<Change>) {
    forall i, j :: 0 <= i < j < |cs| ==> cs[i].key != cs[j].key
  }

  ghost function KeysOf(cs: seq<Change>): set<Key> {
    set c | c in cs :: c.key
  }

  lemma KeysMore(cs: seq<Change>)
    requires cs != [] && DistinctKeys(cs)
    ensures var n := |cs| - 1;
            KeysOf(cs) == KeysOf(cs[..n]) + {cs[n].key} && cs[n].key !in KeysOf(cs[..n]) && DistinctKeys(cs[..n])
  {
    var n := |cs| - 1;
    assert forall d :: d in cs <==> d in cs[..n] || d == cs[n];
  }

  /** The snapshot of each change tells what the first zone had, when no two changes share a key. */
  lemma {:induction false} SnapshotsAre(z: Zone, cs: seq<Change>)
    requires Proper(z) && DistinctKeys(cs)
    ensures |ApplyAll(z, cs).1| == |cs|
    ensures forall i :: 0 <= i < |cs| ==> ApplyAll(z, cs).1[i] == SnapshotOf(z, cs[i].key)
    ensures SameBut(ApplyAll(z, cs).0, z, KeysOf(cs))
  {
    if cs != [] {
      var front, c := cs[..|cs| - 1], cs[|cs| - 1];
      KeysMore(cs);
      SnapshotsAre(z, front);
      AllProper(z, front);
      var (y, ss) := ApplyAll(z, front);
      ApplyAt(y, c);
      assert SameAt(y, z, c.key);
      OneMore(Apply(y, c).0, y, z, c.key, KeysOf(front));
    }
  }

  ghost predicate SameAt(a: Zone, b: Zone, k: Key) {
    (k in a <==> k in b) && (k in a ==> a[k] == b[k])
  }

  ghost predicate SameBut(a: Zone, b: Zone, keys: set<Key>) {
    forall k {:trigger SameAt(a, b, k)} :: k !in keys ==> SameAt(a, b, k)
  }

  lemma OneMore(x: Zone, y: Zone, z: Zone, k: Key, keys: set<Key>)
    requires SameBut(y, z, keys) && x - {k} == y - {k}
    ensures SameBut(x, z, keys + {k})
  {
    forall j | j !in keys + {k} ensures SameAt(x, z, j) {
      assert SameAt(y, z, j);
      assert j in x <==> j in x - {k};
      assert j in y <==> j in y - {k};
      assert j in x ==> x[j] == (x - {k})[j];
      assert j in y ==> y[j] == (y - {k})[j];
    }
  }

  ghost predicate Indexes(order: seq<nat>, n: nat) {
    forall m :: 0 <= m < |order| ==> order[m] < n
  }

  /** The snapshots that are undone, one after the other. */
  ghost function UndoSome(z: Zone, ss: seq<Snapshot>, order: seq<nat>): Zone
    requires Indexes(order, |ss|)
    decreases |order|
  {
    if order == [] then z
    else
      assert Indexes(order[1..], |ss|) by {
        assert forall m :: 0 <= m < |order[1..]| ==> order[1..][m] == order[m + 1];
      }
      UndoSome(Undo(z, ss[order[0]]), ss, order[1..])
  }

  ghost predicate Covers(order: seq<nat>, cs: seq<Change>, k: Key)
    requires Indexes(order, |cs|)
  {
    exists m :: 0 <= m < |order| && cs[order[m]].key == k
  }

  /** What is known of k at the end: the snapshot that was undone last for it, or what `now` has when none was. */
  ghost function Decides(now: Zone, cs: seq<Change>, ss: seq<Snapshot>, order: seq<nat>, k: Key): Snapshot
    requires |ss| == |cs| && Indexes(order, |cs|)
    decreases |order|
  {
    if order == [] then SnapshotOf(now, k)
    else
      var n := |order| - 1;
      if cs[order[n]].key == k then ss[order[n]] else Decides(now, cs, ss, order[..n], k)
  }

  /** The same from the front: a first undo only counts when no later one is for its key. */
  lemma {:induction false} DecidesFirst(now: Zone, cs: seq<Change>, ss: seq<Snapshot>, order: seq<nat>, k: Key)
    requires |ss| == |cs| && Indexes(order, |cs|) && order != [] && Indexes(order[1..], |cs|) && ProperSnapshots(cs, ss)
    ensures Decides(now, cs, ss, order, k) == Decides(Undo(now, ss[order[0]]), cs, ss, order[1..], k)
    decreases |order|
  {
    var n := |order| - 1;
    UndoShows(now, ss[order[0]], k);
    if n > 0 {
      assert order[1..][n - 1] == order[n] && order[1..][..n - 1] == order[..n][1..];
      if cs[order[n]].key != k {
        DecidesFirst(now, cs, ss, order[..n], k);
      }
    }
  }

  /** A snapshot that was taken in some zone. */
  ghost predicate ProperSnapshot(s: Snapshot) {
    s.rrsets == [] || (|s.rrsets| == 1 && s.rrsets[0].0 == s.key && s.rrsets[0].1.records != [])
  }

  ghost predicate ProperSnapshots(cs: seq<Change>, ss: seq<Snapshot>) {
    |ss| == |cs| && forall i :: 0 <= i < |ss| ==> ss[i].key == cs[i].key && ProperSnapshot(ss[i])
  }

  lemma UndoShows(now: Zone, s: Snapshot, k: Key)
    requires ProperSnapshot(s)
    ensures SnapshotOf(Undo(now, s), k) == if s.key == k then s else SnapshotOf(now, k)
  {
    var ps := Patches(s);
    assert |ps| == 1 && ps[..0] == [];
    assert PatchedAll(now, ps) == Patched(now, ps[0]);
  }

  lemma {:induction false} UndoneShows(now: Zone, cs: seq<Change>, ss: seq<Snapshot>, order: seq<nat>, k: Key)
    requires ProperSnapshots(cs, ss) && Indexes(order, |cs|)
    ensures SnapshotOf(UndoSome(now, ss, order), k) == Decides(now, cs, ss, order, k)
    decreases |order|
  {
    if order != [] {
      assert forall m :: 0 <= m < |order[1..]| ==> order[1..][m] == order[m + 1];
      DecidesFirst(now, cs, ss, order, k);
      UndoneShows(Undo(now, ss[order[0]]), cs, ss, order[1..], k);
    }
  }

  lemma {:induction false} AllSnapshots(z: Zone, cs: seq<Change>)
    requires Proper(z)
    ensures ProperSnapshots(cs, ApplyAll(z, cs).1) && SameBut(ApplyAll(z, cs).0, z, KeysOf(cs))
  {
    AllProper(z, cs);
    if cs != [] {
      var front, c := cs[..|cs| - 1], cs[|cs| - 1];
      assert forall d :: d in cs <==> d in front || d == c;
      AllSnapshots(z, front);
      AllProper(z, front);
      var (y, ss) := ApplyAll(z, front);
      ApplyAt(y, c);
      OneMore(Apply(y, c).0, y, z, c.key, KeysOf(front));
      assert KeysOf(cs) == KeysOf(front) + {c.key};
    }
  }

  lemma {:induction false} DecidesElsewhere(now: Zone, cs: seq<Change>, ss: seq<Snapshot>, order: seq<nat>, k: Key)
    requires |ss| == |cs| && Indexes(order, |cs|) && k !in KeysOf(cs)
    ensures Decides(now, cs, ss, order, k) == SnapshotOf(now, k)
    decreases |order|
  {
    if order != [] {
      var n := |order| - 1;
      assert cs[order[n]] in cs;
      DecidesElsewhere(now, cs, ss, order[..n], k);
    }
  }

  /**
   * Any changes, undone in any order, also some of them twice or not at all, leave the zone as it was exactly when for every
   * name and type that was changed the snapshot that is undone last, or the zone when none is, says what was there at first.
   */
  lemma OrderDecides(z: Zone, cs: seq<Change>, order: seq<nat>)
    requires Proper(z) && Indexes(order, |cs|)
    ensures |ApplyAll(z, cs).1| == |cs|
    ensures var (y, ss) := ApplyAll(z, cs);
            UndoSome(y, ss, order) == z <==> forall k :: k in KeysOf(cs) ==> Decides(y, cs, ss, order, k) == SnapshotOf(z, k)
  {
    var (y, ss) := ApplyAll(z, cs);
    AllSnapshots(z, cs);
    var x := UndoSome(y, ss, order);
    forall k ensures SnapshotOf(x, k) == Decides(y, cs, ss, order, k) {
      UndoneShows(y, cs, ss, order, k);
    }
    if forall k :: k in KeysOf(cs) ==> Decides(y, cs, ss, order, k) == SnapshotOf(z, k) {
      forall k ensures SameAt(x, z, k) {
        if k !in KeysOf(cs) {
          DecidesElsewhere(y, cs, ss, order, k);
          assert SameAt(y, z, k);
        }
        Shown(x, z, k);
      }
      SameZone(x, z);
    }
  }

  lemma Shown(a: Zone, b: Zone, k: Key)
    ensures SnapshotOf(a, k) == SnapshotOf(b, k) <==> SameAt(a, b, k)
  {
    if k in a && k in b {
      assert SnapshotOf(a, k).rrsets[0] == (k, a[k]) && SnapshotOf(b, k).rrsets[0] == (k, b[k]);
    }
  }

  lemma SameZone(a: Zone, b: Zone)
    requires forall k :: SameAt(a, b, k)
    ensures a == b
  {
    forall k | k in a ensures k in b && a[k] == b[k] {
      assert SameAt(a, b, k);
    }
    forall k | k in b ensures k in a {
      assert SameAt(a, b, k);
    }
  }

  /** When no two changes share a name and a type, undoing each of them in any order leaves the zone as it was. */
  lemma AnyOrderUndone(z: Zone, cs: seq<Change>, order: seq<nat>)
    requires Proper(z) && DistinctKeys(cs) && Indexes(order, |cs|)
    requires forall i: nat :: i < |cs| ==> i in order
    ensures |ApplyAll(z, cs).1| == |cs|
    ensures UndoSome(ApplyAll(z, cs).0, ApplyAll(z, cs).1, order) == z
  {
    var (y, ss) := ApplyAll(z, cs);
    SnapshotsAre(z, cs);
    forall k | k in KeysOf(cs) ensures Decides(y, cs, ss, order, k) == SnapshotOf(z, k) {
      var i: nat :| i < |cs| && cs[i].key == k;
      assert i in order;
      var m :| 0 <= m < |order| && order[m] == i;
      DecidedBy(y, z, cs, ss, order, k);
    }
    OrderDecides(z, cs, order);
  }

  lemma {:induction false} DecidedBy(now: Zone, z: Zone, cs: seq<Change>, ss: seq<Snapshot>, order: seq<nat>, k: Key)
    requires |ss| == |cs| && Indexes(order, |cs|) && Covers(order, cs, k)
    requires forall i :: 0 <= i < |cs| ==> ss[i] == SnapshotOf(z, cs[i].key)
    ensures Decides(now, cs, ss, order, k) == SnapshotOf(z, k)
    decreases |order|
  {
    var n := |order| - 1;
    if cs[order[n]].key != k {
      var m :| 0 <= m < |order| && cs[order[m]].key == k;
      assert order[..n][m] == order[m];
      DecidedBy(now, z, cs, ss, order[..n], k);
    }
  }

  /**
   * Two changes of one key undone in the order they were made leave the zone as it was exactly when the first of them had
   * changed nothing.
   */
  lemma WrongOrder(z: Zone, c: Change, d: Change)
    requires Proper(z) && c.key == d.key
    ensures var (y, s) := Apply(z, c);
            var (x, t) := Apply(y, d);
            Undo(Undo(x, s), t) == z <==> y == z
  {
    var (y, s) := Apply(z, c);
    var (x, t) := Apply(y, d);
    ApplyAt(z, c);
    ApplyAt(y, d);
    UndoAt(x, s, z);
    UndoAt(Undo(x, s), t, y);
    Extend(Undo(Undo(x, s), t), y, c.key);
  }

  lemma Extend(a: Zone, b: Zone, k: Key)
    requires a - {k} == b - {k} && SameAt(a, b, k)
    ensures a == b
  {
    forall j | j in a || j in b ensures SameAt(a, b, j) {
      if j != k {
        assert j in a <==> j in a - {k};
        assert j in b <==> j in b - {k};
        assert j in a ==> a[j] == (a - {k})[j];
        assert j in b ==> b[j] == (b - {k})[j];
      }
    }
  }
}
