/** agent/hosting_ops_agent.py: the same for Cloudflare, which names each record by an identifier. */
module Cloudflare {
  import opened Text

  datatype Rec = Rec(rtype: string, name: string, content: string, ttl: nat, priority: Option<nat>, proxied: Option<bool>)

  type Zone = map<string, Rec>

  datatype Operation = Create | Update | Remove

  datatype Change = Change(operation: Operation, rec: Rec, id: string)

  datatype Snapshot = Snapshot(operation: Operation, records: seq<(string, Rec)>, created: string)

  const MAX_RECORDS := 20

  /**
   * _dns_apply, or None when the provider or the agent refuses. Without an identifier the records of the same type and
   * name are listed; a new record gets the identifier `newId`.
   */
  function Apply(z: Zone, c: Change, listed: seq<(string, Rec)>, newId: string): Option<(Zone, Snapshot)> {
    var before := if c.id == "" then listed else if c.id in z then [(c.id, z[c.id])] else [];
    match c.operation
    case Create => Some((z[newId := c.rec], Snapshot(Create, before, newId)))
    case Update => if c.id !in z then None else Some((z[c.id := c.rec], Snapshot(Update, before, "")))
    case Remove => if c.id !in z then None else Some((z - {c.id}, Snapshot(Remove, before, "")))
  }

  /** One record of the snapshot: posted again after a removal, otherwise put back under its identifier. */
  function PutBack(z: Zone, op: Operation, id: string, rec: Rec, newId: string): Option<Zone> {
    if rec.rtype == "" || rec.name == "" then Some(z)
    else if op == Remove then Some(z[newId := rec])
    else if id == "" then Some(z)
    else if id !in z then None
    else Some(z[id := rec])
  }

  /** The first n records of the snapshot, with a new identifier for each. */
  function PutBackAll(z: Zone, s: Snapshot, newIds: seq<string>, n: nat): Option<Zone>
    requires n <= |s.records| <= |newIds|
  {
    if n == 0 then Some(z)
    else
      match PutBackAll(z, s, newIds, n - 1)
      case None => None
      case Some(y) => PutBack(y, s.operation, s.records[n - 1].0, s.records[n - 1].1, newIds[n - 1])
  }

  function Undo(z: Zone, s: Snapshot, newIds: seq<string>): Option<Zone>
    requires |s.records| <= |newIds|
  {
    if s.created != "" then if s.created in z then Some(z - {s.created}) else None
    else PutBackAll(z, s, newIds, if |s.records| < MAX_RECORDS then |s.records| else MAX_RECORDS)
  }

  lemma PutBackNone(z: Zone, s: Snapshot, newIds: seq<string>, n: nat, m: nat)
    requires n <= m <= |s.records| <= |newIds| && PutBackAll(z, s, newIds, n).None?
    ensures PutBackAll(z, s, newIds, m).None?
    decreases m
  {
    if n < m {
      PutBackNone(z, s, newIds, n, m - 1);
    }
  }

  /** _dns_rollback */
  method Rollback(z: Zone, s: Snapshot, newIds: seq<string>) returns (r: Option<Zone>)
    requires |s.records| <= |newIds|
    ensures r == Undo(z, s, newIds)
  {
    if s.created != "" {
      return if s.created in z then Some(z - {s.created}) else None;
    }
    var y := z;
    var i := 0;
    while i < |s.records| && i < MAX_RECORDS
      invariant 0 <= i <= |s.records| && i <= MAX_RECORDS
      invariant PutBackAll(z, s, newIds, i) == Some(y)
    {
      var next := PutBack(y, s.operation, s.records[i].0, s.records[i].1, newIds[i]);
      if next.None? {
        PutBackNone(z, s, newIds, i + 1, if |s.records| < MAX_RECORDS then |s.records| else MAX_RECORDS);
        return None;
      }
      y := next.value;
      i := i + 1;
    }
    r := Some(y);
  }

  /**
   * One change is undone: a creation and an update exactly, a removal up to the identifier, which is a new one for the
   * same record.
   */
  lemma Undone(z: Zone, c: Change, listed: seq<(string, Rec)>, newId: string, again: seq<string>)
    requires newId != "" && newId !in z && "" !in z
    requires forall id :: id in z ==> z[id].rtype != "" && z[id].name != ""
    requires Apply(z, c, listed, newId).Some? && |Apply(z, c, listed, newId).value.1.records| <= |again|
    ensures var (y, s) := Apply(z, c, listed, newId).value;
            Undo(y, s, again)
            == if c.operation == Remove then Some((z - {c.id})[again[0] := z[c.id]]) else Some(z)
  {
    var (y, s) := Apply(z, c, listed, newId).value;
    match c.operation {
      case Create => assert y - {newId} == z;
      case Update =>
        assert s.records == [(c.id, z[c.id])];
        assert PutBackAll(y, s, again, 0) == Some(y);
        assert PutBackAll(y, s, again, 1) == Some(y[c.id := z[c.id]]);
        assert y[c.id := z[c.id]] == z;
      case Remove =>
        assert s.records == [(c.id, z[c.id])];
        assert PutBackAll(y, s, again, 0) == Some(y);
        assert PutBackAll(y, s, again, 1) == Some(y[again[0] := z[c.id]]);
    }
  }
}
