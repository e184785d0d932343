/**
 * agent/wordpress_staging.py and agent/wordpress_entry.py: publishing a staging site over the live one, the undo of a
 * publish that fails, and the later rollback of one that did not.
 *
 * A run has at most one fault, which makes the step with its number fail; the steps that undo are assumed to succeed
 * unless what they need is not there.
 */
module WpPublish {
  import opened Text
  import opened WpSite

  /** Directories beside a site's public one; temporary ones carry a random number. */
  datatype Kind = Incoming | Previous | Failed | Restoring | Replaced

  datatype Name = Public(domain: string) | Temp(domain: string, kind: Kind, id: nat)

  datatype Snapshot = Snapshot(files: Node, db: string, user: string, sql: Db)

  /** What a publish works with: the live site as it is, the tree and the dump that replace it, and the final database. */
  datatype Plan = Plan(saved: Snapshot, copy: Node, dump: Db, updated: Option<Db>)

  /** The step that fails, if any, and what it leaves of a database or of a copy it was writing. */
  datatype Fault = Fault(at: Option<nat>, database: Option<Db>, copy: Option<Node>)

  const CALM := Fault(None, None, None)

  predicate Fails(f: Fault, step: nat) {
    f.at == Some(step)
  }

  predicate FailsIn(f: Fault, first: nat, last: nat) {
    f.at.Some? && first <= f.at.value <= last
  }

  /** Directories other than the one of `live` and the temporary ones of this run. */
  ghost predicate SameElsewhere(a: map<Name, Node>, b: map<Name, Node>, live: string, id: nat) {
    forall n {:trigger n in a} {:trigger n in b} :: n != Public(live) && (n.Temp? ==> n.domain != live || n.id != id) ==>
      (n in a <==> n in b) && (n in a ==> a[n] == b[n])
  }

  ghost predicate SameSite(a: map<Name, Node>, b: map<Name, Node>, live: string) {
    (Public(live) in a <==> Public(live) in b) && (Public(live) in a ==> a[Public(live)] == b[Public(live)])
  }

  function Left<K, V>(m: map<K, V>, k: K, left: Option<V>): map<K, V> {
    match left
    case None => m - {k}
    case Some(v) => m[k := v]
  }

  lemma PutAgain<K, V>(a: map<K, V>, b: map<K, V>, k: K)
    requires a - {k} == b - {k} && k in b
    ensures a[k := b[k]] == b
  {
    forall x | x in a ensures x in b && (x != k ==> a[x] == b[x]) {
      if x != k {
        assert x in a - {k};
      }
    }
    forall x | x in b ensures x == k || x in a {
      if x != k {
        assert x in b - {k};
      }
    }
  }

  // ----- what a publish needs -----

  /** How a site's files and databases are read and changed; the steps of a publish do not depend on it. */
  datatype Rules = Rules(
    isSite: Node -> bool,
    meta: Node -> Option<Meta>,
    copy: (Node, Node, Meta) -> Option<Node>,
    urls: (Db, string, string) -> Option<Db>)

  function WordPress(): Rules {
    Rules(IsWordPress, ConfigMeta, Prepared, UpdateUrls)
  }

  /** Both sites and their configurations. */
  datatype Sites = Sites(live: Node, stage: Node, liveMeta: Meta, stageMeta: Meta)

  function SitesOf(r: Rules, dirs: map<Name, Node>, live: string, stage: string): Option<Sites> {
    if live == stage || Public(live) !in dirs || Public(stage) !in dirs then None
    else
      var l, s := dirs[Public(live)], dirs[Public(stage)];
      if !r.isSite(l) || !r.isSite(s) then None
      else
        var m, n := r.meta(l), r.meta(s);
        if m.None? || n.None? then None else Some(Sites(l, s, m.value, n.value))
  }

  /** The snapshot that is taken of the live site first. */
  function SavedOf(x: Sites, dbs: map<string, Db>): Option<Snapshot> {
    var m := x.liveMeta;
    if m.name in dbs then Some(Snapshot(x.live, m.name, m.user, dbs[m.name])) else None
  }

  /** What is prepared beside the live site. */
  function PlanOf(r: Rules, x: Sites, saved: Snapshot, dbs: map<string, Db>, live: string): Option<Plan> {
    var n := x.stageMeta;
    var copy := r.copy(x.stage, x.live, x.liveMeta);
    if n.name !in dbs || copy.None? then None
    else Some(Plan(saved, copy.value, dbs[n.name], r.urls(dbs[n.name], n.prefix, live)))
  }

  /** Everything publish prepares, or None when something it needs is missing. */
  function Prepare(r: Rules, dirs: map<Name, Node>, dbs: map<string, Db>, live: string, stage: string): Option<Plan> {
    match SitesOf(r, dirs, live, stage)
    case None => None
    case Some(x) =>
      match SavedOf(x, dbs)
      case None => None
      case Some(saved) => PlanOf(r, x, saved, dbs, live)
  }

  class Server {
    var dirs: map<Name, Node>
    var dbs: map<string, Db>
    var users: set<string>
    var snapshots: map<(string, string), Snapshot>

    /** _replace_db: drop, create and import are the steps from `step` on. */
    method ReplaceDb(name: string, user: string, dump: Db, f: Fault, step: nat) returns (ok: bool)
      modifies `dbs
      ensures ok <==> user in users && !FailsIn(f, step, step + 2)
      ensures ok ==> dbs == old(dbs)[name := dump]
      ensures !ok ==> dbs - {name} == old(dbs) - {name}
      ensures !ok && !Fails(f, step) && user !in users ==> dbs == old(dbs) - {name}
    {
      if Fails(f, step) {
        dbs := Left(dbs, name, f.database);
        return false;
      }
      dbs := dbs - {name};
      if user !in users {
        return false;
      }
      if Fails(f, step + 1) {
        dbs := Left(dbs, name, f.database);
        return false;
      }
      dbs := dbs[name := map[]];
      if Fails(f, step + 2) {
        dbs := dbs - {name};
        return false;
      }
      dbs := dbs[name := dump];
      return true;
    }

    /** _swap_public: two renames, the first undone when the second fails. */
    method SwapPublic(target: Name, prepared: Name, previous: Name, f: Fault, step: nat) returns (ok: bool)
      requires target in dirs && prepared in dirs && previous !in dirs && target != prepared
      modifies `dirs
      ensures ok <==> !FailsIn(f, step, step + 1)
      ensures ok ==> dirs == (old(dirs) - {prepared})[target := old(dirs[prepared])][previous := old(dirs[target])]
      ensures !ok ==> dirs == old(dirs)
    {
      if Fails(f, step) {
        return false;
      }
      dirs := dirs[previous := dirs[target]] - {target};
      if Fails(f, step + 1) {
        dirs := dirs[target := dirs[previous]] - {previous};
        return false;
      }
      dirs := dirs[target := dirs[prepared]] - {prepared};
      return true;
    }

    /** _restore_publish: steps `step` to `step + 6`. */
    method RestorePublish(live: string, s: Snapshot, id: nat, f: Fault, step: nat) returns (ok: bool)
      requires Temp(live, Restoring, id) !in dirs && Temp(live, Replaced, id) !in dirs
      modifies `dirs, `dbs
      ensures ok <==> Public(live) in old(dirs) && s.user in users && !FailsIn(f, step, step + 6)
      ensures ok ==> Public(live) in dirs && dirs[Public(live)] == s.files && dbs == old(dbs)[s.db := s.sql]
      ensures !ok ==> SameSite(old(dirs), dirs, live) && dbs - {s.db} == old(dbs) - {s.db}
      ensures SameElsewhere(old(dirs), dirs, live, id)
      ensures Public(live) in old(dirs) && s.user !in users && !FailsIn(f, step, step + 2) ==> dbs == old(dbs) - {s.db}
    {
      if Public(live) !in dirs {
        return false;
      }
      var prepared, previous := Temp(live, Restoring, id), Temp(live, Replaced, id);
      if Fails(f, step) {
        dirs := Left(dirs, prepared, f.copy);
        return false;
      }
      dirs := dirs[prepared := s.files];
      if Fails(f, step + 1) {
        return false;
      }
      ok := ReplaceDb(s.db, s.user, s.sql, f, step + 2);
      if !ok {
        return;
      }
      ok := SwapPublic(Public(live), prepared, previous, f, step + 5);
      if !ok {
        return;
      }
      dirs := dirs - {previous};
    }

    /**
     * The part of publish that changes the live site, and its undo. Steps: 8 drop, 9 create and 10 import of the
     * database, 11 its addresses; 12 and 13 renames; 14 the final check.
     */
    method Commit(live: string, p: Plan, id: nat, f: Fault) returns (ok: bool)
      requires Public(live) in dirs && dirs[Public(live)] == p.saved.files
      requires p.saved.db in dbs && dbs[p.saved.db] == p.saved.sql
      requires forall k :: k != Incoming ==> Temp(live, k, id) !in dirs
      modifies `dirs, `dbs
      ensures ok <==> p.saved.user in users && p.updated.Some? && !FailsIn(f, 8, 14)
      ensures ok ==> Public(live) in dirs && dirs[Public(live)] == p.copy && dbs == old(dbs)[p.saved.db := p.updated.value]
      ensures !ok ==> SameSite(old(dirs), dirs, live)
      ensures !ok ==> dbs == if p.saved.user in users then old(dbs) else old(dbs) - {p.saved.db}
      ensures SameElsewhere(old(dirs), dirs, live, id)
    {
      ok := Attempt(live, p, id, f);
      if !ok {
        ghost var broken := dbs;
        var undone := RestorePublish(live, p.saved, id, CALM, 1);
        PutAgain(broken, old(dbs), p.saved.db);
      }
    }

    /** The changes; when they fail the directory is put back, the database is not. */
    method Attempt(live: string, p: Plan, id: nat, f: Fault) returns (ok: bool)
      requires Public(live) in dirs && forall k :: k != Incoming ==> Temp(live, k, id) !in dirs
      modifies `dirs, `dbs
      ensures ok <==> p.saved.user in users && p.updated.Some? && !FailsIn(f, 8, 14)
      ensures ok ==> Public(live) in dirs && dirs[Public(live)] == p.copy && dbs == old(dbs)[p.saved.db := p.updated.value]
      ensures !ok ==> SameSite(old(dirs), dirs, live) && dbs - {p.saved.db} == old(dbs) - {p.saved.db}
      ensures forall k :: Temp(live, k, id) !in dirs
      ensures SameElsewhere(old(dirs), dirs, live, id)
    {
      var incoming, previous := Temp(live, Incoming, id), Temp(live, Previous, id);
      dirs := dirs[incoming := p.copy];
      var swapped := false;
      ok := Replace(p, f);
      if ok {
        swapped := SwapPublic(Public(live), incoming, previous, f, 12);
        ok := swapped && !Fails(f, 14);
      }
      if ok {
        dirs := dirs - {previous};
        return;
      }
      if swapped {
        PutBack(live, previous, Temp(live, Failed, id));
      }
      dirs := dirs - {incoming};
    }

    /** The first part of the undo: the previous directory gets its name back. */
    method PutBack(live: string, previous: Name, failed: Name)
      requires Public(live) in dirs && previous in dirs && failed !in dirs
      requires previous.Temp? && failed.Temp?
      modifies `dirs
      ensures dirs == old(dirs)[Public(live) := old(dirs[previous])] - {previous}
    {
      dirs := dirs[failed := dirs[Public(live)]] - {Public(live)};
      dirs := dirs[Public(live) := dirs[previous]] - {previous};
      dirs := dirs - {failed};
    }

    /** The database part of a publish. */
    method Replace(p: Plan, f: Fault) returns (ok: bool)
      modifies `dbs
      ensures ok <==> p.saved.user in users && p.updated.Some? && !FailsIn(f, 8, 11)
      ensures ok ==> dbs == old(dbs)[p.saved.db := p.updated.value]
      ensures dbs - {p.saved.db} == old(dbs) - {p.saved.db}
    {
      ok := ReplaceDb(p.saved.db, p.saved.user, p.dump, f, 8);
      if !ok {
        return;
      }
      if Fails(f, 11) || p.updated.None? {
        return false;
      }
      dbs := dbs[p.saved.db := p.updated.value];
    }

    /** What follows the snapshot: the copy of the staging site is prepared, then the live site changes. */
    method Proceed(live: string, saved: Snapshot, plan: Option<Plan>, id: nat, f: Fault) returns (ok: bool)
      requires Public(live) in dirs && dirs[Public(live)] == saved.files
      requires saved.db in dbs && dbs[saved.db] == saved.sql
      requires plan.Some? ==> plan.value.saved == saved
      requires forall k :: Temp(live, k, id) !in dirs
      modifies `dirs, `dbs
      ensures ok <==> plan.Some? && saved.user in users && plan.value.updated.Some? && !FailsIn(f, 4, 14)
      ensures ok ==> Public(live) in dirs && dirs[Public(live)] == plan.value.copy
      ensures ok ==> dbs == old(dbs)[saved.db := plan.value.updated.value]
      ensures !ok ==> SameSite(old(dirs), dirs, live)
      ensures !ok ==> dbs == if plan.Some? && saved.user !in users && !FailsIn(f, 4, 7) then old(dbs) - {saved.db}
                             else old(dbs)
      ensures SameElsewhere(old(dirs), dirs, live, id)
    {
      var incoming := Temp(live, Incoming, id);
      if Fails(f, 4) {
        return false;
      }
      if plan.None? || FailsIn(f, 5, 7) {
        dirs := Left(dirs, incoming, f.copy);
        return false;
      }
      ok := Commit(live, plan.value, id, f);
    }

    /**
     * publish. Steps: 1 copy and 2 dump of the live site, 3 the manifest; 4 dump and 5 copy of the staging site, 6 its
     * configuration, 7 its owner; then those of Commit.
     *
     * It fails exactly when a step does or something it needs is missing. Then the live directory and every database are
     * as before, with one exception: when the live database user is not a local one the live database is dropped and
     * neither publish nor its undo can create it again.
     */
    method Publish(r: Rules, live: string, stage: string, snapshot: string, id: nat, f: Fault) returns (ok: bool)
      requires (live, snapshot) !in snapshots
      requires forall k :: Temp(live, k, id) !in dirs
      modifies `dirs, `dbs, `snapshots
      ensures var p := Prepare(r, old(dirs), old(dbs), live, stage);
              && (ok <==> p.Some? && p.value.saved.user in users && p.value.updated.Some? && !FailsIn(f, 1, 14))
              && (ok ==>
                    && Public(live) in dirs && dirs[Public(live)] == p.value.copy
                    && dbs == old(dbs)[p.value.saved.db := p.value.updated.value]
                    && snapshots == old(snapshots)[(live, snapshot) := p.value.saved])
              && (!ok ==> dbs == if p.Some? && p.value.saved.user !in users && !FailsIn(f, 1, 7) then
                                   old(dbs) - {p.value.saved.db}
                                 else old(dbs))
      ensures !ok ==> SameSite(old(dirs), dirs, live)
      ensures !ok ==> snapshots - {(live, snapshot)} == old(snapshots)
      ensures SameElsewhere(old(dirs), dirs, live, id)
    {
      var x := SitesOf(r, dirs, live, stage);
      if x.None? {
        return false;
      }
      var saved := SavedOf(x.value, dbs);
      if FailsIn(f, 1, 3) || saved.None? {
        return false;
      }
      snapshots := snapshots[(live, snapshot) := saved.value];
      var plan := PlanOf(r, x.value, saved.value, dbs, live);
      SitesAre(r, dirs, live, stage);
      SavedIs(r, x.value, saved.value, dbs, live);
      ok := Proceed(live, saved.value, plan, id, f);
    }

    /**
     * rollback_publish: steps 1 to 7 restore, 8 checks. The snapshot stays, so a rollback that fails half-way can be run
     * again and then restores the same pair.
     */
    method RollbackPublish(live: string, snapshot: string, id: nat, f: Fault) returns (ok: bool)
      requires forall k :: Temp(live, k, id) !in dirs
      modifies `dirs, `dbs
      ensures var k := (live, snapshot);
              && (ok <==> k in snapshots && Public(live) in old(dirs) && snapshots[k].user in users && !FailsIn(f, 1, 8))
              && (ok ==> Public(live) in dirs && dirs[Public(live)] == snapshots[k].files
                         && dbs == old(dbs)[snapshots[k].db := snapshots[k].sql])
              && (k !in snapshots ==> dbs == old(dbs) && dirs == old(dirs))
              && (k in snapshots ==> dbs - {snapshots[k].db} == old(dbs) - {snapshots[k].db})
      ensures !ok && !Fails(f, 8) ==> SameSite(old(dirs), dirs, live)
      ensures SameElsewhere(old(dirs), dirs, live, id)
    {
      if (live, snapshot) !in snapshots {
        return false;
      }
      ok := RestorePublish(live, snapshots[(live, snapshot)], id, f, 1);
      ok := ok && !Fails(f, 8);
    }

    /** A publish that succeeds can be undone: its rollback brings back the live directory and every database. */
    method PublishAndRollBack(r: Rules, live: string, stage: string, snapshot: string, id: nat, other: nat)
      returns (published: bool, undone: bool)
      requires (live, snapshot) !in snapshots && id != other
      requires forall k :: Temp(live, k, id) !in dirs && Temp(live, k, other) !in dirs
      modifies `dirs, `dbs, `snapshots
      ensures published ==> undone
      ensures published ==> SameSite(old(dirs), dirs, live) && dbs == old(dbs)
      ensures forall d :: d != live ==> SameSite(old(dirs), dirs, d)
    {
      ghost var p := Prepare(r, dirs, dbs, live, stage);
      if p.Some? {
        PlanSaved(r, dirs, dbs, live, stage);
      }
      published := Publish(r, live, stage, snapshot, id, CALM);
      undone := false;
      if published {
        assert forall k :: Temp(live, k, other) !in dirs;
        undone := RollbackPublish(live, snapshot, other, CALM);
      }
    }
  }

  lemma PlanSaved(r: Rules, dirs: map<Name, Node>, dbs: map<string, Db>, live: string, stage: string)
    requires Prepare(r, dirs, dbs, live, stage).Some?
    ensures var s := Prepare(r, dirs, dbs, live, stage).value.saved;
            && Public(live) in dirs && s.files == dirs[Public(live)]
            && s.db in dbs && s.sql == dbs[s.db]
  {
    var x := SitesOf(r, dirs, live, stage).value;
    SitesAre(r, dirs, live, stage);
    SavedIs(r, x, SavedOf(x, dbs).value, dbs, live);
  }

  lemma SitesAre(r: Rules, dirs: map<Name, Node>, live: string, stage: string)
    requires SitesOf(r, dirs, live, stage).Some?
    ensures Public(live) in dirs && SitesOf(r, dirs, live, stage).value.live == dirs[Public(live)]
  {
  }

  lemma SavedIs(r: Rules, x: Sites, saved: Snapshot, dbs: map<string, Db>, live: string)
    requires SavedOf(x, dbs) == Some(saved)
    ensures saved.files == x.live && saved.db in dbs && dbs[saved.db] == saved.sql
    ensures var p := PlanOf(r, x, saved, dbs, live); p.Some? ==> p.value.saved == saved
  {
  }

  // ----- what a publish of WordPress leaves -----

  /** What is published, in terms of the two sites. */
  lemma PlanMeaning(dirs: map<Name, Node>, dbs: map<string, Db>, live: string, stage: string)
    requires Prepare(WordPress(), dirs, dbs, live, stage).Some?
    ensures Public(live) in dirs && Public(stage) in dirs
    ensures var l, s := dirs[Public(live)], dirs[Public(stage)];
            var m, n := ConfigMeta(l), ConfigMeta(s);
            var p := Prepare(WordPress(), dirs, dbs, live, stage).value;
            && m.Some? && n.Some? && m.value.name in dbs && n.value.name in dbs
            && p.saved == Snapshot(l, m.value.name, m.value.user, dbs[m.value.name])
            && Prepared(s, l, m.value) == Some(p.copy)
            && UpdateUrls(dbs[n.value.name], n.value.prefix, live) == p.updated
  {
  }

  /** The published database is the staging one, except that its two addresses are those of the live site. */
  lemma UrlsMeaning(db: Db, prefix: string, domain: string, table: string, option: string)
    requires UpdateUrls(db, prefix, domain).Some?
    ensures var d := UpdateUrls(db, prefix, domain).value;
            && (table in d <==> table in db)
            && (table in d ==>
                  && (option in d[table] <==> option in db[table])
                  && (option in d[table] ==>
                        d[table][option]
                        == if table == prefix + "options" && option in {HOME, SITE_URL} then "https://" + domain
                           else db[table][option]))
  {
  }
}
