/** agent/wordpress_entry.py: publishing only the plugins and the themes of a staging site. */
module WpSelective {
  import opened Text
  import opened WpSite
  import opened WpPublish

  /** The directories a scope names, if it is a known one. */
  function ScopeNames(scope: string): Option<seq<string>> {
    if Lower(Strip(scope)) == "plugins_themes" then Some(["plugins", "themes"]) else None
  }

  function ContentOf(root: Node): Option<map<string, Node>> {
    if root.Dir? && CONTENT in root.entries && root.entries[CONTENT].Dir? then Some(root.entries[CONTENT].entries) else None
  }

  function WithContent(root: Node, c: map<string, Node>): Node
    requires root.Dir?
  {
    Dir(root.entries[CONTENT := Dir(c)])
  }

  /** Temporary entries of wp-content; the tag is random. */
  function Staged(name: string, tag: string): string {
    ".nvp-wp-selective-" + name + "-" + tag
  }

  function Old(name: string, tag: string): string {
    ".nvp-wp-previous-" + name + "-" + tag
  }

  lemma StagedInjective(a: string, b: string, tag: string)
    ensures Staged(a, tag) == Staged(b, tag) <==> a == b
  {
    assert Staged(a, tag) == ".nvp-wp-selective-" + a + ("-" + tag);
    assert Staged(b, tag) == ".nvp-wp-selective-" + b + ("-" + tag);
    Middle(".nvp-wp-selective-", a, b, "-" + tag);
  }

  lemma OldInjective(a: string, b: string, tag: string)
    ensures Old(a, tag) == Old(b, tag) <==> a == b
  {
    assert Old(a, tag) == ".nvp-wp-previous-" + a + ("-" + tag);
    assert Old(b, tag) == ".nvp-wp-previous-" + b + ("-" + tag);
    Middle(".nvp-wp-previous-", a, b, "-" + tag);
  }

  lemma Middle(p: string, a: string, b: string, z: string)
    ensures p + a + z == p + b + z <==> a == b
  {
    if p + a + z == p + b + z {
      assert |a| == |b|;
      assert (p + a + z)[|p|..|p| + |a|] == a;
      assert (p + b + z)[|p|..|p| + |b|] == b;
    }
  }

  lemma StagedNotOld(a: string, b: string, tag: string)
    ensures Staged(a, tag) != Old(b, tag)
  {
    assert Staged(a, tag)[8] == 's' && Old(b, tag)[8] == 'p';
  }

  ghost predicate SameEntry(c: map<string, Node>, d: map<string, Node>, e: string) {
    (e in c <==> e in d) && (e in c ==> c[e] == d[e])
  }

  ghost predicate Holds(c: map<string, Node>, e: string, n: Node) {
    e in c && c[e] == n
  }

  /** What every run of the two loops is about; `key` and `aside` are the temporary names. */
  datatype Job = Job(
    before: map<string, Node>,
    stage: map<string, Node>,
    names: seq<string>,
    key: string -> string,
    aside: string -> string)

  function JobOf(before: map<string, Node>, stage: map<string, Node>, names: seq<string>, tag: string): Job {
    Job(before, stage, names, name => Staged(name, tag), name => Old(name, tag))
  }

  /** The directory a name has on the staging site; only asked for when it is there. */
  function StageOf(w: Job, name: string): Node {
    if name in w.stage then w.stage[name] else Dir(map[])
  }

  /** The names used for one directory are not those used for another. */
  ghost predicate NamesApart(w: Job, a: string, b: string) {
    && w.key(a) != a && w.key(a) != w.aside(a) && a != w.aside(a)
    && (a != b ==> b !in {w.key(a), w.aside(a)} && w.key(b) !in {a, w.key(a), w.aside(a)} && w.aside(b) != w.aside(a))
  }

  ghost predicate Distinct(names: seq<string>) {
    forall i, j :: 0 <= i < j < |names| ==> names[i] != names[j]
  }

  /** Nothing has one of the temporary names yet. */
  ghost predicate Fresh(w: Job) {
    && Distinct(w.names)
    && (forall j :: 0 <= j < |w.names| ==> w.key(w.names[j]) !in w.before && w.aside(w.names[j]) !in w.before)
    && (forall i, j :: 0 <= i < |w.names| && 0 <= j < |w.names| ==> NamesApart(w, w.names[i], w.names[j]))
  }

  ghost function Names(w: Job, hi: nat): set<string>
    requires hi <= |w.names|
  {
    set j | 0 <= j < hi :: w.names[j]
  }

  ghost function Stageds(w: Job, lo: nat, hi: nat): set<string>
    requires hi <= |w.names|
  {
    set j | lo <= j < hi :: w.key(w.names[j])
  }

  ghost function Olds(w: Job, hi: nat): set<string>
    requires hi <= |w.names|
  {
    set j | 0 <= j < hi :: w.aside(w.names[j])
  }

  lemma OneMore(w: Job, i: nat)
    requires i < |w.names|
    ensures Names(w, i + 1) == Names(w, i) + {w.names[i]}
    ensures Olds(w, i + 1) == Olds(w, i) + {w.aside(w.names[i])}
    ensures Stageds(w, 0, i + 1) == Stageds(w, 0, i) + {w.key(w.names[i])}
    ensures Stageds(w, i, |w.names|) == Stageds(w, i + 1, |w.names|) + {w.key(w.names[i])}
  {
  }

  /** Entries outside `but` are as before. */
  ghost predicate SameBut(c: map<string, Node>, d: map<string, Node>, but: set<string>) {
    forall e {:trigger SameEntry(c, d, e)} :: e !in but ==> SameEntry(c, d, e)
  }

  lemma SameButStep(c: map<string, Node>, c': map<string, Node>, d: map<string, Node>, but: set<string>, but': set<string>)
    requires SameBut(c, d, but) && but <= but'
    requires forall e :: e !in but' ==> (e in c <==> e in c') && (e in c ==> c[e] == c'[e])
    ensures SameBut(c', d, but')
  {
    forall e | e !in but' ensures SameEntry(c', d, e) {
      assert SameEntry(c, d, e);
    }
  }

  ghost predicate StagedUpTo(w: Job, c: map<string, Node>, i: nat)
    requires i <= |w.names|
  {
    && (forall j :: 0 <= j < i ==> Holds(c, w.key(w.names[j]), StageOf(w, w.names[j])))
    && SameBut(c, w.before, Stageds(w, 0, i))
  }

  lemma StageStep(w: Job, c: map<string, Node>, i: nat)
    requires Fresh(w) && i < |w.names| && StagedUpTo(w, c, i)
    ensures StagedUpTo(w, c[w.key(w.names[i]) := StageOf(w, w.names[i])], i + 1)
  {
    var key, node := w.key(w.names[i]), StageOf(w, w.names[i]);
    var c' := c[key := node];
    OneMore(w, i);
    SameButStep(c, c', w.before, Stageds(w, 0, i), Stageds(w, 0, i + 1));
    forall j | 0 <= j < i + 1 ensures Holds(c', w.key(w.names[j]), StageOf(w, w.names[j])) {
      assert NamesApart(w, w.names[i], w.names[j]);
      if j < i {
        assert Holds(c, w.key(w.names[j]), StageOf(w, w.names[j]));
      }
    }
  }

  predicate CanStage(w: Job, i: nat)
    requires i < |w.names|
  {
    w.names[i] in w.stage && w.stage[w.names[i]].Dir?
  }

  /** Copying the directories beside the live ones: one step for each, after `step`. */
  method StageAll(w: Job, f: Fault, step: nat) returns (ok: bool, c: map<string, Node>, prepared: nat)
    requires Fresh(w)
    ensures ok <==> !FailsIn(f, step + 1, step + |w.names|) && forall j :: 0 <= j < |w.names| ==> CanStage(w, j)
    ensures prepared <= |w.names| && (ok ==> prepared == |w.names| && StagedUpTo(w, c, |w.names|))
    ensures !ok ==> StagedSome(w, f, step, c, prepared)
  {
    c, prepared := w.before, 0;
    while prepared < |w.names|
      invariant 0 <= prepared <= |w.names|
      invariant forall j :: 0 <= j < prepared ==> CanStage(w, j)
      invariant !FailsIn(f, step + 1, step + prepared)
      invariant StagedUpTo(w, c, prepared)
    {
      if !CanStage(w, prepared) {
        return false, c, prepared;
      }
      var key := w.key(w.names[prepared]);
      if Fails(f, step + prepared + 1) {
        assert StagedUpTo(w, c, prepared);
        return false, Left(c, key, f.copy), prepared;
      }
      StageStep(w, c, prepared);
      c := c[key := StageOf(w, w.names[prepared])];
      prepared := prepared + 1;
    }
    ok := true;
  }

  /** The first `prepared` directories are copied; the next cannot be, or its copy breaks off and leaves what it leaves. */
  ghost predicate StagedSome(w: Job, f: Fault, step: nat, c: map<string, Node>, prepared: nat) {
    && prepared < |w.names|
    && (forall j :: 0 <= j < prepared ==> CanStage(w, j)) && !FailsIn(f, step + 1, step + prepared)
    && if CanStage(w, prepared) then
         Fails(f, step + prepared + 1)
         && exists b :: StagedUpTo(w, b, prepared) && c == Left(b, w.key(w.names[prepared]), f.copy)
       else StagedUpTo(w, c, prepared)
  }

  // ----- the second loop -----

  /** The first i directories are those of the staging site, and what was there is beside them. */
  ghost predicate SwappedUpTo(w: Job, c: map<string, Node>, i: nat)
    requires i <= |w.names|
  {
    && (forall j :: 0 <= j < i ==> Holds(c, w.names[j], StageOf(w, w.names[j])))
    && (forall j :: 0 <= j < i ==> SetAside(w, c, j))
    && (forall j :: i <= j < |w.names| ==> Holds(c, w.key(w.names[j]), StageOf(w, w.names[j])))
    && SameBut(c, w.before, Stageds(w, i, |w.names|) + Names(w, i) + Olds(w, i))
  }

  ghost predicate SetAside(w: Job, c: map<string, Node>, j: nat)
    requires j < |w.names|
  {
    if w.names[j] in w.before then Holds(c, w.aside(w.names[j]), w.before[w.names[j]]) else w.aside(w.names[j]) !in c
  }

  /** The two renames for one directory. */
  function Swap(c: map<string, Node>, name: string, key: string, aside: string): map<string, Node>
    requires key in c && key != name && key != aside
  {
    var away := if name in c then c[aside := c[name]] - {name} else c;
    away[name := away[key]] - {key}
  }

  lemma SwapShape(c: map<string, Node>, name: string, key: string, aside: string)
    requires key in c && key != name && key != aside && name != aside
    ensures var c' := Swap(c, name, key, aside);
            && Holds(c', name, c[key]) && key !in c' && SameBut(c', c, {name, key, aside})
            && (if name in c then Holds(c', aside, c[name]) else SameEntry(c', c, aside))
  {
  }

  lemma SwapBut(w: Job, c: map<string, Node>, c': map<string, Node>, i: nat)
    requires Fresh(w) && i < |w.names|
    requires SameBut(c, w.before, Stageds(w, i, |w.names|) + Names(w, i) + Olds(w, i))
    requires var name := w.names[i];
             w.key(name) !in c' && SameBut(c', c, {name, w.key(name), w.aside(name)})
    ensures SameBut(c', w.before, Stageds(w, i + 1, |w.names|) + Names(w, i + 1) + Olds(w, i + 1))
  {
    OneMore(w, i);
    var key := w.key(w.names[i]);
    forall e | e !in Stageds(w, i + 1, |w.names|) + Names(w, i + 1) + Olds(w, i + 1) ensures SameEntry(c', w.before, e) {
      if e != key {
        assert SameEntry(c, w.before, e);
        assert SameEntry(c', c, e);
      }
    }
  }

  lemma StillBefore(w: Job, c: map<string, Node>, i: nat)
    requires Fresh(w) && i < |w.names| && SwappedUpTo(w, c, i)
    ensures SameEntry(c, w.before, w.names[i]) && w.aside(w.names[i]) !in c
  {
    var name, aside := w.names[i], w.aside(w.names[i]);
    assert NamesApart(w, name, name);
    forall j | i <= j < |w.names| ensures w.key(w.names[j]) !in {name, aside} {
      assert NamesApart(w, w.names[j], name);
      assert NamesApart(w, name, w.names[j]);
    }
    forall j | 0 <= j < i ensures w.names[j] !in {name, aside} && w.aside(w.names[j]) !in {name, aside} {
      assert NamesApart(w, w.names[j], name);
      assert NamesApart(w, name, w.names[j]);
    }
    assert SameEntry(c, w.before, name);
    assert SameEntry(c, w.before, aside);
  }

  lemma AsideStep(w: Job, c: map<string, Node>, c': map<string, Node>, i: nat)
    requires Fresh(w) && i < |w.names| && SwappedUpTo(w, c, i)
    requires var name, key, aside := w.names[i], w.key(w.names[i]), w.aside(w.names[i]);
             SameBut(c', c, {name, key, aside})
             && (if name in c then Holds(c', aside, c[name]) else SameEntry(c', c, aside))
    ensures forall j :: 0 <= j < i + 1 ==> SetAside(w, c', j)
  {
    StillBefore(w, c, i);
    forall j | 0 <= j < i ensures SetAside(w, c', j) {
      assert SetAside(w, c, j);
      assert NamesApart(w, w.names[j], w.names[i]);
      if w.names[j] in w.before {
        HoldsStill(c, c', w.aside(w.names[j]), w.before[w.names[j]],
                   {w.names[i], w.key(w.names[i]), w.aside(w.names[i])});
      } else {
        assert SameEntry(c', c, w.aside(w.names[j]));
      }
    }
  }

  lemma SwapStep(w: Job, c: map<string, Node>, i: nat)
    requires Fresh(w) && i < |w.names| && SwappedUpTo(w, c, i)
    ensures var name, key, aside := w.names[i], w.key(w.names[i]), w.aside(w.names[i]);
            && key in c && key != name && key != aside
            && SwappedUpTo(w, Swap(c, name, key, aside), i + 1)
  {
    var name, key, aside := w.names[i], w.key(w.names[i]), w.aside(w.names[i]);
    assert Holds(c, key, StageOf(w, name));
    assert NamesApart(w, w.names[i], w.names[i]);
    SwapShape(c, name, key, aside);
    var c' := Swap(c, name, key, aside);
    SwapBut(w, c, c', i);
    forall j | 0 <= j < i + 1 ensures Holds(c', w.names[j], StageOf(w, w.names[j])) {
      assert NamesApart(w, w.names[i], w.names[j]);
      if j < i {
        HoldsStill(c, c', w.names[j], StageOf(w, w.names[j]), {name, key, aside});
      }
    }
    AsideStep(w, c, c', i);
    forall j | i + 1 <= j < |w.names| ensures Holds(c', w.key(w.names[j]), StageOf(w, w.names[j])) {
      assert NamesApart(w, w.names[i], w.names[j]);
      HoldsStill(c, c', w.key(w.names[j]), StageOf(w, w.names[j]), {name, key, aside});
    }
  }

  lemma HoldsStill(c: map<string, Node>, c': map<string, Node>, e: string, n: Node, but: set<string>)
    requires Holds(c, e, n) && SameBut(c', c, but) && e !in but
    ensures Holds(c', e, n)
  {
    assert SameEntry(c', c, e);
  }

  /** Whether one directory can be swapped: two steps after `step`, the first only when there is something to move. */
  predicate CanSwap(w: Job, f: Fault, step: nat, i: nat)
    requires i < |w.names|
  {
    && (w.names[i] in w.before ==> w.before[w.names[i]].Dir? && !Fails(f, step + 2 * i + 1))
    && !Fails(f, step + 2 * i + 2)
  }

  /** The directories before the first that cannot be swapped are swapped. */
  ghost predicate SwappedFirst(w: Job, f: Fault, step: nat, c: map<string, Node>, i: nat) {
    && i <= |w.names| && SwappedUpTo(w, c, i)
    && (forall j :: 0 <= j < i ==> CanSwap(w, f, step, j))
    && (i < |w.names| ==> !CanSwap(w, f, step, i))
  }

  ghost predicate SwappedSome(w: Job, f: Fault, step: nat, c: map<string, Node>) {
    exists i :: SwappedFirst(w, f, step, c, i)
  }

  /** Swapping the directories; one that fails leaves its own directory as it was. */
  method SwapAll(w: Job, staged: map<string, Node>, f: Fault, step: nat) returns (ok: bool, c: map<string, Node>)
    requires Fresh(w) && SwappedUpTo(w, staged, 0)
    ensures ok <==> forall j :: 0 <= j < |w.names| ==> CanSwap(w, f, step, j)
    ensures ok ==> SwappedUpTo(w, c, |w.names|)
    ensures !ok ==> SwappedSome(w, f, step, c)
  {
    c := staged;
    var i := 0;
    while i < |w.names|
      invariant 0 <= i <= |w.names|
      invariant forall j :: 0 <= j < i ==> CanSwap(w, f, step, j)
      invariant SwappedUpTo(w, c, i)
    {
      var name := w.names[i];
      StillBefore(w, c, i);
      if name in c && (!c[name].Dir? || Fails(f, step + 2 * i + 1)) {
        assert !CanSwap(w, f, step, i);
        assert SwappedFirst(w, f, step, c, i);
        return false, c;
      }
      if Fails(f, step + 2 * i + 2) {
        assert !CanSwap(w, f, step, i);
        assert SwappedFirst(w, f, step, c, i);
        return false, c;
      }
      SwapStep(w, c, i);
      c := Swap(c, name, w.key(name), w.aside(name));
      i := i + 1;
    }
    ok := true;
  }

  /** wp-content with the named directories of the staging site and everything else as it was. */
  ghost predicate Published(w: Job, c: map<string, Node>) {
    && (forall j :: 0 <= j < |w.names| ==> Holds(c, w.names[j], StageOf(w, w.names[j])))
    && SameBut(c, w.before, Names(w, |w.names|))
  }

  /** Removing what was set aside. */
  method RemoveAside(w: Job, swapped: map<string, Node>) returns (c: map<string, Node>)
    requires Fresh(w) && SwappedUpTo(w, swapped, |w.names|)
    ensures Published(w, c)
  {
    c := swapped;
    var i := 0;
    while i < |w.names|
      invariant 0 <= i <= |w.names|
      invariant c == swapped - Olds(w, i)
    {
      OneMore(w, i);
      c := c - {w.aside(w.names[i])};
      i := i + 1;
    }
    RemovedAside(w, swapped, c);
  }

  lemma RemovedAside(w: Job, swapped: map<string, Node>, c: map<string, Node>)
    requires Fresh(w) && SwappedUpTo(w, swapped, |w.names|) && c == swapped - Olds(w, |w.names|)
    ensures Published(w, c)
  {
    forall j | 0 <= j < |w.names| ensures Holds(c, w.names[j], StageOf(w, w.names[j])) {
      assert Holds(swapped, w.names[j], StageOf(w, w.names[j]));
      forall i | 0 <= i < |w.names| ensures w.aside(w.names[i]) != w.names[j] {
        assert NamesApart(w, w.names[i], w.names[j]);
      }
    }
    forall e | e !in Names(w, |w.names|) ensures SameEntry(c, w.before, e) {
      if e !in Olds(w, |w.names|) {
        assert SameEntry(swapped, w.before, e);
      }
    }
  }

  // ----- selective_publish -----

  lemma JobFresh(before: map<string, Node>, stage: map<string, Node>, names: seq<string>, tag: string)
    requires names == ["plugins", "themes"]
    requires forall name :: name in names ==> Staged(name, tag) !in before && Old(name, tag) !in before
    ensures Fresh(JobOf(before, stage, names, tag))
  {
    var w := JobOf(before, stage, names, tag);
    assert names[0] != names[1];
    forall i, j | 0 <= i < |w.names| && 0 <= j < |w.names| ensures NamesApart(w, w.names[i], w.names[j]) {
      ApartNames(w, tag, w.names[i], w.names[j]);
    }
  }

  lemma ApartNames(w: Job, tag: string, a: string, b: string)
    requires w.key == ((name: string) => Staged(name, tag)) && w.aside == ((name: string) => Old(name, tag))
    requires a != "" && a[0] != '.' && b != "" && b[0] != '.'
    ensures NamesApart(w, a, b)
  {
    StagedInjective(a, b, tag);
    OldInjective(a, b, tag);
    StagedNotOld(a, a, tag);
    StagedNotOld(b, a, tag);
    assert Staged(a, tag)[0] == '.' && Old(a, tag)[0] == '.' && Staged(b, tag)[0] == '.';
  }

  /** The snapshot of the live site, when both sites are there and the live one can be read. */
  function SelectionOf(r: Rules, server: map<Name, Node>, dbs: map<string, Db>, live: string, stage: string): Option<Snapshot> {
    if live == stage || Public(live) !in server || Public(stage) !in server then None
    else if !r.isSite(server[Public(live)]) || !r.isSite(server[Public(stage)]) then None
    else
      var m := r.meta(server[Public(live)]);
      if m.None? || m.value.name !in dbs then None
      else Some(Snapshot(server[Public(live)], m.value.name, m.value.user, dbs[m.value.name]))
  }

  lemma SelectionSaved(r: Rules, server: map<Name, Node>, dbs: map<string, Db>, live: string, stage: string)
    requires SelectionOf(r, server, dbs, live, stage).Some?
    ensures Public(live) in server && Public(stage) in server && live != stage
    ensures var s := SelectionOf(r, server, dbs, live, stage).value;
            s.files == server[Public(live)] && s.db in dbs && s.sql == dbs[s.db]
  {
  }

  /** What the two loops work on, when both sites have a wp-content directory. */
  function JobFor(live: Node, stage: Node, names: seq<string>, tag: string): Option<Job> {
    var b, s := ContentOf(live), ContentOf(stage);
    if b.None? || s.None? then None else Some(JobOf(b.value, s.value, names, tag))
  }

  /** The live site with the two directories of the staging site, and nothing else changed. */
  ghost predicate SelectivelyPublished(live: Node, w: Job, after: Node) {
    live.Dir? && exists c :: Published(w, c) && after == WithContent(live, c)
  }

  /** No step of the loops fails: 4 and 5 copy, 6 to 9 rename. */
  ghost predicate Works(w: Job, f: Fault) {
    && !FailsIn(f, 4, 3 + |w.names|)
    && (forall j :: 0 <= j < |w.names| ==> CanStage(w, j))
    && (forall j :: 0 <= j < |w.names| ==> CanSwap(w, f, 5, j))
  }

  // ----- what a failure leaves -----

  /** Removing the copies that are still there. */
  method RemovePrepared(w: Job, c: map<string, Node>, prepared: nat) returns (d: map<string, Node>)
    requires prepared <= |w.names|
    ensures d == c - Stageds(w, 0, prepared)
  {
    d := c;
    var i := 0;
    while i < prepared
      invariant 0 <= i <= prepared
      invariant d == c - Stageds(w, 0, i)
    {
      OneMore(w, i);
      d := d - {w.key(w.names[i])};
      i := i + 1;
    }
  }

  /** No copy is left but the one that broke off. */
  ghost predicate StoppedStaging(w: Job, f: Fault, c: map<string, Node>) {
    exists i ::
      && 0 <= i < |w.names| && (forall j :: 0 <= j < i ==> CanStage(w, j)) && !FailsIn(f, 4, 3 + i)
      && if CanStage(w, i) then Fails(f, 4 + i) && c == Left(w.before, w.key(w.names[i]), f.copy) else c == w.before
  }

  /** The directories before the first that cannot be swapped are swapped, and the rest is as it was. */
  ghost predicate StoppedSwapping(w: Job, f: Fault, c: map<string, Node>) {
    exists i ::
      && 0 <= i <= |w.names| && SweptUpTo(w, c, i)
      && (forall j :: 0 <= j < i ==> CanSwap(w, f, 5, j)) && (i < |w.names| ==> !CanSwap(w, f, 5, i))
  }

  ghost predicate SweptUpTo(w: Job, c: map<string, Node>, i: nat)
    requires i <= |w.names|
  {
    && (forall j :: 0 <= j < i ==> Holds(c, w.names[j], StageOf(w, w.names[j])) && SetAside(w, c, j))
    && SameBut(c, w.before, Names(w, i) + Olds(w, i))
  }

  lemma StagedRemoved(w: Job, b: map<string, Node>, i: nat, left: Option<Node>)
    requires Fresh(w) && i < |w.names| && StagedUpTo(w, b, i)
    ensures b - Stageds(w, 0, i) == w.before
    ensures Left(b, w.key(w.names[i]), left) - Stageds(w, 0, i) == Left(w.before, w.key(w.names[i]), left)
  {
    forall j | 0 <= j < i ensures w.key(w.names[j]) != w.key(w.names[i]) {
      assert NamesApart(w, w.names[j], w.names[i]);
    }
    forall e ensures SameEntry(b - Stageds(w, 0, i), w.before, e) {
      if e !in Stageds(w, 0, i) {
        assert SameEntry(b, w.before, e);
      }
    }
    SameEntries(b - Stageds(w, 0, i), w.before);
    var key := w.key(w.names[i]);
    assert Left(b, key, left) - Stageds(w, 0, i) == Left(b - Stageds(w, 0, i), key, left);
  }

  lemma SameEntries(c: map<string, Node>, d: map<string, Node>)
    requires forall e :: SameEntry(c, d, e)
    ensures c == d
  {
    forall e | e in c ensures e in d && c[e] == d[e] {
      assert SameEntry(c, d, e);
    }
    forall e | e in d ensures e in c {
      assert SameEntry(c, d, e);
    }
  }

  lemma SwappedRemoved(w: Job, c: map<string, Node>, i: nat)
    requires Fresh(w) && i <= |w.names| && SwappedUpTo(w, c, i)
    ensures SweptUpTo(w, c - Stageds(w, 0, |w.names|), i)
  {
    var d := c - Stageds(w, 0, |w.names|);
    forall j | 0 <= j < i ensures Holds(d, w.names[j], StageOf(w, w.names[j])) && SetAside(w, d, j) {
      assert Holds(c, w.names[j], StageOf(w, w.names[j])) && SetAside(w, c, j);
      forall m | 0 <= m < |w.names| ensures w.key(w.names[m]) !in {w.names[j], w.aside(w.names[j])} {
        assert NamesApart(w, w.names[m], w.names[j]);
        assert NamesApart(w, w.names[j], w.names[m]);
      }
    }
    forall e | e !in Names(w, i) + Olds(w, i) ensures SameEntry(d, w.before, e) {
      if e !in Stageds(w, 0, |w.names|) {
        assert SameEntry(c, w.before, e);
      }
    }
  }

  /**
   * What a failure leaves in wp-content once the copies are removed and before the snapshot is put back. While the
   * directories were being copied nothing but a broken copy is left; afterwards the directories before the first that could
   * not be renamed are those of the staging site, with what was there beside them.
   */
  ghost predicate Stopped(w: Job, f: Fault, c: map<string, Node>) {
    if Stages(w, f) then StoppedSwapping(w, f, c) else StoppedStaging(w, f, c)
  }

  ghost predicate Stages(w: Job, f: Fault) {
    !FailsIn(f, 4, 3 + |w.names|) && forall j :: 0 <= j < |w.names| ==> CanStage(w, j)
  }

  lemma StagingStopped(w: Job, f: Fault, c: map<string, Node>, prepared: nat)
    requires Fresh(w) && StagedSome(w, f, 3, c, prepared)
    ensures StoppedStaging(w, f, c - Stageds(w, 0, prepared))
  {
    if CanStage(w, prepared) {
      var b :| StagedUpTo(w, b, prepared) && c == Left(b, w.key(w.names[prepared]), f.copy);
      StagedRemoved(w, b, prepared, f.copy);
    } else {
      StagedRemoved(w, c, prepared, None);
    }
  }

  lemma SwappingStopped(w: Job, f: Fault, c: map<string, Node>)
    requires Fresh(w) && SwappedSome(w, f, 5, c)
    ensures StoppedSwapping(w, f, c - Stageds(w, 0, |w.names|))
  {
    var i :| SwappedFirst(w, f, 5, c, i);
    SwappedRemoved(w, c, i);
  }

  /** The loops over wp-content and the final check, and what is removed after them. */
  method RunLoops(w: Job, f: Fault) returns (ok: bool, c: map<string, Node>)
    requires Fresh(w) && |w.names| == 2
    ensures ok <==> Works(w, f) && !Fails(f, 10)
    ensures ok ==> Published(w, c)
    ensures !ok ==> Stopped(w, f, c)
  {
    var prepared;
    ok, c, prepared := StageAll(w, f, 3);
    if !ok {
      StagingStopped(w, f, c, prepared);
      c := RemovePrepared(w, c, prepared);
      return;
    }
    FirstSwap(w, c);
    ok, c := SwapAll(w, c, f, 5);
    if !ok || Fails(f, 10) {
      assert ok ==> SwappedFirst(w, f, 5, c, |w.names|);
      SwappingStopped(w, f, c);
      c := RemovePrepared(w, c, prepared);
      return false, c;
    }
    c := RemoveAside(w, c);
  }

  /** The live site as a failure leaves it. */
  ghost predicate HalfPublished(live: Node, w: Option<Job>, f: Fault, after: Node) {
    if w.None? then after == live
    else live.Dir? && exists c :: Stopped(w.value, f, c) && after == WithContent(live, c)
  }

  ghost predicate OnlyLive(a: map<Name, Node>, b: map<Name, Node>, live: string) {
    forall n {:trigger n in a} {:trigger n in b} :: n != Public(live) ==> (n in a <==> n in b) && (n in a ==> a[n] == b[n])
  }

  method TrySelective(server: Server, live: string, stage: string, names: seq<string>, tag: string, f: Fault)
    returns (ok: bool)
    requires Public(live) in server.dirs && Public(stage) in server.dirs
    requires var w := JobFor(server.dirs[Public(live)], server.dirs[Public(stage)], names, tag);
             |names| == 2 && (w.Some? ==> Fresh(w.value))
    modifies server`dirs
    ensures var w := JobFor(old(server.dirs[Public(live)]), old(server.dirs[Public(stage)]), names, tag);
            && (ok <==> w.Some? && Works(w.value, f) && !Fails(f, 10))
            && Public(live) in server.dirs
            && (ok ==> SelectivelyPublished(old(server.dirs[Public(live)]), w.value, server.dirs[Public(live)]))
            && (!ok ==> HalfPublished(old(server.dirs[Public(live)]), w, f, server.dirs[Public(live)]))
    ensures OnlyLive(old(server.dirs), server.dirs, live)
  {
    var root := server.dirs[Public(live)];
    var job := JobFor(root, server.dirs[Public(stage)], names, tag);
    if job.None? {
      return false;
    }
    var c;
    ok, c := RunLoops(job.value, f);
    server.dirs := server.dirs[Public(live) := WithContent(root, c)];
  }

  lemma FirstSwap(w: Job, c: map<string, Node>)
    requires StagedUpTo(w, c, |w.names|)
    ensures SwappedUpTo(w, c, 0)
  {
  }

  /**
   * selective_publish. Steps: 1 copy, 2 dump and 3 manifest of the snapshot, 4 and 5 copies of the directories, 6 to 9
   * their renames, 10 the final check.
   *
   * When it succeeds no database changed, and the live site has the plugins and themes of the staging site and everything
   * else as it was. When it fails everything is as before, except when the live database user is not a local one: then the
   * undo, which replaces the database although it never changed, drops it and never reaches the files, and the directories
   * that were already swapped stay swapped.
   */
  method SelectivePublish(server: Server, r: Rules, live: string, stage: string, scope: string, snapshot: string,
                          tag: string, id: nat, f: Fault)
    returns (ok: bool)
    requires (live, snapshot) !in server.snapshots
    requires forall k :: Temp(live, k, id) !in server.dirs
    requires Public(live) in server.dirs && ContentOf(server.dirs[Public(live)]).Some? ==>
               forall name :: name in ["plugins", "themes"] ==>
                 && Staged(name, tag) !in ContentOf(server.dirs[Public(live)]).value
                 && Old(name, tag) !in ContentOf(server.dirs[Public(live)]).value
    modifies server`dirs, server`dbs, server`snapshots
    ensures var s := SelectionOf(r, old(server.dirs), old(server.dbs), live, stage);
            var names := ScopeNames(scope);
            var started := names.Some? && s.Some? && !FailsIn(f, 1, 3);
            && (started ==>
                  var w := JobFor(s.value.files, old(server.dirs)[Public(stage)], names.value, tag);
                  && (ok <==> w.Some? && Works(w.value, f) && !Fails(f, 10))
                  && (ok ==> Public(live) in server.dirs
                             && SelectivelyPublished(s.value.files, w.value, server.dirs[Public(live)])))
            && (ok ==> started && server.dbs == old(server.dbs)
                       && server.snapshots == old(server.snapshots)[(live, snapshot) := s.value])
            && (!ok && started && s.value.user !in server.users ==>
                  && server.dbs == old(server.dbs) - {s.value.db} && Public(live) in server.dirs
                  && HalfPublished(s.value.files, JobFor(s.value.files, old(server.dirs)[Public(stage)], names.value, tag), f,
                                   server.dirs[Public(live)]))
            && (!ok && !(started && s.value.user !in server.users) ==>
                  server.dbs == old(server.dbs) && SameSite(old(server.dirs), server.dirs, live))
    ensures SameElsewhere(old(server.dirs), server.dirs, live, id)
  {
    var names := ScopeNames(scope);
    var s := SelectionOf(r, server.dirs, server.dbs, live, stage);
    if names.None? || s.None? || FailsIn(f, 1, 3) {
      return false;
    }
    SelectionSaved(r, server.dirs, server.dbs, live, stage);
    ghost var job := JobFor(server.dirs[Public(live)], server.dirs[Public(stage)], names.value, tag);
    if job.Some? {
      JobFresh(job.value.before, job.value.stage, names.value, tag);
    }
    server.snapshots := server.snapshots[(live, snapshot) := s.value];
    ok := TrySelective(server, live, stage, names.value, tag, f);
    if !ok {
      ghost var broken := server.dbs;
      var undone := server.RestorePublish(live, s.value, id, CALM, 1);
      PutAgain(broken, old(server.dbs), s.value.db);
    }
  }
}
