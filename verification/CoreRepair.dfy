/** agent/wordpress_agent.py: checking the files of WordPress against a checksum catalogue, repairing them and undoing it. */
module CoreRepair {
  import opened Text
  import opened Sorting

  type Path = seq<string>
  type Tree = map<Path, string>
  type Hash = string -> string

  const MAX_ISSUES := 100
  const MAX_NAME := 300
  const MAX_CORE_FILE := 32 * 1024 * 1024

  function Named(parts: seq<string>): seq<string> {
    if parts == [] then []
    else (if parts[0] == "" || parts[0] == "." then [] else [parts[0]]) + Named(parts[1..])
  }

  /** The parts of a PurePosixPath. */
  function Parts(relative: string): Path {
    Named(SplitOn(relative, '/'))
  }

  /** _safe_checksum_path does not refuse the path. */
  predicate IsSafe(relative: string) {
    var parts := Parts(relative);
    (relative == "" || relative[0] != '/') && parts != [] && ".." !in parts && parts[0] != "wp-content"
  }

  predicate Skipped(relative: string) {
    StartsWith(relative, "wp-content/")
  }

  datatype Line = Line(relative: string, expected: string)

  /** A catalogue has each path once, and digests are not empty. */
  ghost predicate IsCatalogue(cat: seq<Line>) {
    && (forall i, j :: 0 <= i < j < |cat| ==> cat[i].relative != cat[j].relative)
    && (forall i :: 0 <= i < |cat| ==> cat[i].expected != "")
  }

  /** _md5_file, with "" for a file that is too large. */
  function Digest(h: Hash, content: string): string {
    if |content| > MAX_CORE_FILE then "" else h(content)
  }

  predicate Matches(h: Hash, content: string, expected: string) {
    Lower(Digest(h, content)) == Lower(expected)
  }

  predicate IsMissing(files: Tree, line: Line) {
    !Skipped(line.relative) && Parts(line.relative) !in files
  }

  predicate IsMismatched(h: Hash, files: Tree, line: Line) {
    !Skipped(line.relative) && Parts(line.relative) in files
    && !Matches(h, files[Parts(line.relative)], line.expected)
  }

  /** What the check is for: every file of the catalogue outside wp-content is there with its digest. */
  ghost predicate Intact(h: Hash, files: Tree, cat: seq<Line>) {
    forall line :: line in cat && !Skipped(line.relative) ==>
      Parts(line.relative) in files && Matches(h, files[Parts(line.relative)], line.expected)
  }

  /** The lines that a test picks, in order. */
  function Picked(cat: seq<Line>, test: Line -> bool): seq<string> {
    if cat == [] then []
    else
      var last := cat[|cat| - 1];
      Picked(cat[..|cat| - 1], test) + (if test(last) then [last.relative] else [])
  }

  lemma {:induction false} PickedIs(cat: seq<Line>, test: Line -> bool, name: string)
    ensures name in Picked(cat, test) <==> exists line :: line in cat && test(line) && line.relative == name
  {
    if cat != [] {
      var last := cat[|cat| - 1];
      assert forall line :: line in cat <==> line in cat[..|cat| - 1] || line == last;
      PickedIs(cat[..|cat| - 1], test, name);
    }
  }

  /** relative[:300] */
  function Short(name: string): string {
    if |name| <= MAX_NAME then name else name[..MAX_NAME]
  }

  /** The names that a report shows. */
  function Shown(names: seq<string>): seq<string> {
    seq(if |names| < MAX_ISSUES then |names| else MAX_ISSUES, i requires 0 <= i < |names| => Short(names[i]))
  }

  datatype Report = Report(
    checked: nat,
    missing: seq<string>,
    mismatched: seq<string>,
    missingCount: nat,
    mismatchedCount: nat)
  {
    predicate Truncated() {
      missingCount > |missing| || mismatchedCount > |mismatched|
    }

    predicate IntegrityOk() {
      missingCount == 0 && mismatchedCount == 0
    }
  }

  function CheckedTest(): Line -> bool {
    (line: Line) => !Skipped(line.relative)
  }

  function MissingTest(files: Tree): Line -> bool {
    line => IsMissing(files, line)
  }

  function MismatchedTest(h: Hash, files: Tree): Line -> bool {
    line => IsMismatched(h, files, line)
  }

  ghost predicate Describes(r: Report, h: Hash, files: Tree, cat: seq<Line>) {
    var missing, mismatched := Picked(cat, MissingTest(files)), Picked(cat, MismatchedTest(h, files));
    && r.checked == |Picked(cat, CheckedTest())|
    && r.missing == Shown(missing) && r.missingCount == |missing|
    && r.mismatched == Shown(mismatched) && r.mismatchedCount == |mismatched|
  }

  lemma ShownMore(names: seq<string>, name: string)
    ensures Shown(names + [name]) == Added(Shown(names), name)
  {
  }

  lemma PickedMore(cat: seq<Line>, i: nat, test: Line -> bool)
    requires i < |cat|
    ensures Picked(cat[..i + 1], test) == Picked(cat[..i], test) + (if test(cat[i]) then [cat[i].relative] else [])
  {
    assert cat[..i + 1][..i] == cat[..i];
  }

  /** names.append(relative[:300]) while there are fewer than 100. */
  function Added(names: seq<string>, name: string): seq<string> {
    if |names| < MAX_ISSUES then names + [Short(name)] else names
  }

  lemma PickedAll(cat: seq<Line>, i: nat, h: Hash, files: Tree)
    requires i < |cat|
    ensures forall test :: test in {CheckedTest(), MissingTest(files), MismatchedTest(h, files)} ==>
      Picked(cat[..i + 1], test) == Picked(cat[..i], test) + (if test(cat[i]) then [cat[i].relative] else [])
  {
    PickedMore(cat, i, CheckedTest());
    PickedMore(cat, i, MissingTest(files));
    PickedMore(cat, i, MismatchedTest(h, files));
  }

  lemma SkippedStep(r: Report, h: Hash, files: Tree, cat: seq<Line>, i: nat)
    requires i < |cat| && Describes(r, h, files, cat[..i]) && Skipped(cat[i].relative)
    ensures Describes(r, h, files, cat[..i + 1])
  {
    PickedAll(cat, i, h, files);
  }

  lemma IntactStep(r: Report, h: Hash, files: Tree, cat: seq<Line>, i: nat)
    requires i < |cat| && Describes(r, h, files, cat[..i]) && !Skipped(cat[i].relative)
    requires !IsMissing(files, cat[i]) && !IsMismatched(h, files, cat[i])
    ensures Describes(r.(checked := r.checked + 1), h, files, cat[..i + 1])
  {
    PickedAll(cat, i, h, files);
  }

  lemma MissingStep(r: Report, h: Hash, files: Tree, cat: seq<Line>, i: nat)
    requires i < |cat| && Describes(r, h, files, cat[..i]) && IsMissing(files, cat[i])
    ensures Describes(r.(checked := r.checked + 1, missingCount := r.missingCount + 1,
                         missing := Added(r.missing, cat[i].relative)), h, files, cat[..i + 1])
  {
    PickedAll(cat, i, h, files);
    ShownMore(Picked(cat[..i], MissingTest(files)), cat[i].relative);
  }

  lemma MismatchedStep(r: Report, h: Hash, files: Tree, cat: seq<Line>, i: nat)
    requires i < |cat| && Describes(r, h, files, cat[..i]) && IsMismatched(h, files, cat[i])
    ensures Describes(r.(checked := r.checked + 1, mismatchedCount := r.mismatchedCount + 1,
                         mismatched := Added(r.mismatched, cat[i].relative)), h, files, cat[..i + 1])
  {
    PickedAll(cat, i, h, files);
    ShownMore(Picked(cat[..i], MismatchedTest(h, files)), cat[i].relative);
  }

  ghost predicate AllSafe(cat: seq<Line>) {
    forall line :: line in cat ==> Skipped(line.relative) || IsSafe(line.relative)
  }

  predicate SafeAt(cat: seq<Line>, i: nat)
    requires i < |cat|
  {
    Skipped(cat[i].relative) || IsSafe(cat[i].relative)
  }

  lemma Unsafe(cat: seq<Line>, i: nat)
    requires i < |cat| && !SafeAt(cat, i)
    ensures !AllSafe(cat)
  {
    assert cat[i] in cat;
  }

  lemma SafeAll(cat: seq<Line>)
    requires forall i :: 0 <= i < |cat| ==> SafeAt(cat, i)
    ensures AllSafe(cat)
  {
    forall line | line in cat ensures Skipped(line.relative) || IsSafe(line.relative) {
      var i :| 0 <= i < |cat| && cat[i] == line;
      assert SafeAt(cat, i);
    }
  }

  /** _integrity_with_catalog: it fails on an unsafe path and otherwise reports exactly the files that are not intact. */
  method Integrity(h: Hash, files: Tree, cat: seq<Line>) returns (r: Option<Report>)
    ensures r.Some? <==> AllSafe(cat)
    ensures r.Some? ==> Describes(r.value, h, files, cat)
    ensures r.Some? ==> (r.value.IntegrityOk() <==> Intact(h, files, cat))
  {
    var report := Report(0, [], [], 0, 0);
    var i := 0;
    while i < |cat|
      invariant 0 <= i <= |cat|
      invariant forall j :: 0 <= j < i ==> SafeAt(cat, j)
      invariant Describes(report, h, files, cat[..i])
    {
      var line := cat[i];
      if Skipped(line.relative) {
        SkippedStep(report, h, files, cat, i);
      } else {
        if !IsSafe(line.relative) {
          Unsafe(cat, i);
          return None;
        }
        if Parts(line.relative) !in files {
          MissingStep(report, h, files, cat, i);
          report := report.(missingCount := report.missingCount + 1, missing := Added(report.missing, line.relative));
        } else if !Matches(h, files[Parts(line.relative)], line.expected) {
          MismatchedStep(report, h, files, cat, i);
          report := report.(mismatchedCount := report.mismatchedCount + 1,
                            mismatched := Added(report.mismatched, line.relative));
        } else {
          IntactStep(report, h, files, cat, i);
        }
        report := report.(checked := report.checked + 1);
      }
      i := i + 1;
    }
    assert cat[..|cat|] == cat;
    r := Some(report);
    SafeAll(cat);
    NothingPicked(h, files, cat);
  }

  lemma NothingPicked(h: Hash, files: Tree, cat: seq<Line>)
    ensures Picked(cat, MissingTest(files)) == [] && Picked(cat, MismatchedTest(h, files)) == [] <==> Intact(h, files, cat)
  {
    var missing, mismatched := Picked(cat, MissingTest(files)), Picked(cat, MismatchedTest(h, files));
    if missing == [] && mismatched == [] {
      forall line | line in cat && !Skipped(line.relative)
        ensures Parts(line.relative) in files && Matches(h, files[Parts(line.relative)], line.expected)
      {
        PickedIs(cat, MissingTest(files), line.relative);
        PickedIs(cat, MismatchedTest(h, files), line.relative);
        assert !MissingTest(files)(line) && !MismatchedTest(h, files)(line);
      }
    }
    if missing != [] {
      PickedIs(cat, MissingTest(files), missing[0]);
    }
    if mismatched != [] {
      PickedIs(cat, MismatchedTest(h, files), mismatched[0]);
    }
  }

  // ----- repairing -----

  datatype Entry = Entry(path: string, existed: bool)

  datatype Snapshot = Snapshot(entries: seq<Entry>, saved: Tree)

  /** Where a repair goes wrong, if anywhere: saving or writing the file with that index, or at the end. */
  datatype Fault = NoFault | Saving(index: nat) | Writing(index: nat) | Manifest | Validation

  datatype Outcome = Clean | Refused | Repaired(count: nat) | Failed | RolledBack

  ghost predicate SameAt(a: Tree, b: Tree, p: Path) {
    (p in a <==> p in b) && (p in a ==> a[p] == b[p])
  }

  ghost function Paths(names: seq<string>): set<Path> {
    set name | name in names :: Parts(name)
  }

  ghost function Recorded(entries: seq<Entry>): set<Path> {
    set e | e in entries :: Parts(e.path)
  }

  /** The entries and the saved files tell what `before` has at their paths. */
  ghost predicate Records(s: Snapshot, before: Tree) {
    forall e :: e in s.entries ==>
      && IsSafe(e.path)
      && (e.existed <==> Parts(e.path) in before)
      && (e.existed ==> Parts(e.path) in s.saved && s.saved[Parts(e.path)] == before[Parts(e.path)])
  }

  /** A file that _atomic_copy refuses to write back. */
  predicate TooLarge(files: Tree, p: Path) {
    p in files && |files[p]| > MAX_CORE_FILE
  }

  /** `now` has what `before` has at `paths` and what `was` has elsewhere. */
  ghost predicate RestoredAt(now: Tree, was: Tree, before: Tree, paths: set<Path>) {
    forall p {:trigger SameAt(now, before, p)} {:trigger SameAt(now, was, p)} ::
      if p in paths then SameAt(now, before, p) else SameAt(now, was, p)
  }

  lemma RestoreStep(now: Tree, was: Tree, before: Tree, entries: seq<Entry>, i: nat, next: Tree)
    requires i < |entries| && RestoredAt(now, was, before, Recorded(entries[..i]))
    requires var p := Parts(entries[i].path); SameAt(next, before, p) && forall q :: q != p ==> SameAt(next, now, q)
    ensures RestoredAt(next, was, before, Recorded(entries[..i + 1]))
  {
    var p := Parts(entries[i].path);
    assert entries[..i + 1] == entries[..i] + [entries[i]];
    assert forall e :: e in entries[..i + 1] <==> e in entries[..i] || e == entries[i];
    forall q ensures if q in Recorded(entries[..i + 1]) then SameAt(next, before, q) else SameAt(next, was, q) {
      if q != p {
        assert SameAt(next, now, q);
        assert if q in Recorded(entries[..i]) then SameAt(now, before, q) else SameAt(now, was, q);
      }
    }
  }

  /** The first n entries are restored, and none of them was too large. */
  ghost predicate Rolled(s: Snapshot, before: Tree, now: Tree, was: Tree, n: nat) {
    && n <= |s.entries|
    && (forall j :: 0 <= j < n ==> !TooLarge(before, Parts(s.entries[j].path)))
    && RestoredAt(now, was, before, Recorded(s.entries[..n]))
  }

  lemma RolledNone(s: Snapshot, before: Tree, was: Tree)
    ensures Rolled(s, before, was, was, 0)
  {
  }

  function Restored(now: Tree, saved: Tree, e: Entry): Tree {
    var p := Parts(e.path);
    if e.existed && p in saved then now[p := saved[p]] else now - {p}
  }

  lemma RolledStep(s: Snapshot, before: Tree, now: Tree, was: Tree, i: nat)
    requires i < |s.entries| && Records(s, before) && Rolled(s, before, now, was, i)
    ensures var e := s.entries[i];
            var p := Parts(e.path);
            && (e.existed ==> p in s.saved)
            && (TooLarge(before, p) <==> e.existed && |s.saved[p]| > MAX_CORE_FILE)
            && (!TooLarge(before, p) ==> Rolled(s, before, Restored(now, s.saved, e), was, i + 1))
  {
    var e := s.entries[i];
    RecordedEntry(s, before, now, e);
    RestoreStep(now, was, before, s.entries, i, Restored(now, s.saved, e));
  }

  lemma RecordedEntry(s: Snapshot, before: Tree, now: Tree, e: Entry)
    requires Records(s, before) && e in s.entries
    ensures var p := Parts(e.path);
            && (e.existed ==> p in s.saved)
            && (TooLarge(before, p) <==> e.existed && |s.saved[p]| > MAX_CORE_FILE)
            && SameAt(Restored(now, s.saved, e), before, p)
            && forall q :: q != p ==> SameAt(Restored(now, s.saved, e), now, q)
  {
  }

  class Installation {
    var files: Tree
    var snapshots: map<string, Snapshot>

    /** _rollback_snapshot: it stops at the first file that is too large to write back. */
    method RollbackSnapshot(s: Snapshot, ghost before: Tree) returns (n: nat)
      requires Records(s, before)
      modifies `files
      ensures Rolled(s, before, files, old(files), n)
      ensures n < |s.entries| ==> TooLarge(before, Parts(s.entries[n].path))
    {
      n := 0;
      RolledNone(s, before, files);
      while n < |s.entries|
        invariant Rolled(s, before, files, old(files), n)
      {
        RolledStep(s, before, files, old(files), n);
        var e := s.entries[n];
        var p := Parts(e.path);
        if e.existed {
          if |s.saved[p]| > MAX_CORE_FILE {
            return;
          }
          files := files[p := s.saved[p]];
        } else {
          files := files - {p};
        }
        n := n + 1;
      }
    }

    /** The loop of repair_core: each file is recorded before it is replaced. */
    method RepairAll(h: Hash, cat: seq<Line>, release: Tree, issues: seq<string>, f: Fault)
      returns (ok: bool, s: Snapshot, done: nat)
      requires IsCatalogue(cat) && DistinctPaths(cat) && Distinct(issues)
      modifies `files
      ensures Progress(h, cat, release, issues, old(files), files, s, done) && |s.entries| <= done + 1
      ensures ok ==> |s.entries| == |issues|
      ensures ok <==> done == |issues|
      ensures Reaches(h, cat, release, old(files), issues, f, done)
    {
      s, done := Snapshot([], map[]), 0;
      while done < |issues|
        invariant 0 <= done <= |issues| && |s.entries| == done
        invariant Progress(h, cat, release, issues, old(files), files, s, done)
        invariant forall j :: 0 <= j < done ==> Goes(h, cat, release, old(files), issues, f, j)
      {
        var name := issues[done];
        GoesNow(h, cat, release, issues, old(files), files, s, done, f);
        if !Fixable(h, cat, release, files, name) || f == Saving(done) {
          return false, s, done;
        }
        SaveStep(h, cat, release, issues, old(files), files, s, done);
        s := Save(s, files, name);
        if Blocked(files, Parts(name)) || f == Writing(done) {
          return false, s, done;
        }
        WriteStep(h, cat, release, issues, old(files), files, s, done);
        files := files[Parts(name) := release[Parts(name)]];
        done := done + 1;
      }
      ok := true;
    }

    /** repair_core from the issues on. */
    method RepairIssues(h: Hash, cat: seq<Line>, release: Tree, issues: seq<string>, ghost report: Report, id: string, f: Fault)
      returns (r: Outcome, done: nat)
      requires IsCatalogue(cat) && DistinctPaths(cat) && Distinct(issues) && id !in snapshots
      requires Describes(report, h, files, cat) && !report.Truncated() && AllSafe(cat)
      requires forall name :: name in issues <==> name in report.missing || name in report.mismatched
      modifies `files, `snapshots
      ensures r.Repaired? || r.Failed? || r.RolledBack?
      ensures Reaches(h, cat, release, old(files), issues, f, done)
      ensures r.Repaired? ==>
                && r.count == done == |issues| && !f.Manifest? && !f.Validation? && Intact(h, files, cat)
                && PatchedAt(files, old(files), release, Paths(issues))
                && id in snapshots && Records(snapshots[id], old(files))
                && Recorded(snapshots[id].entries) == Paths(issues)
      ensures !r.Repaired? ==> Left(files, old(files), release, issues[..done])
      ensures !r.Repaired? ==> (files == old(files) <==> FirstLarge(old(files), issues[..done]) == done)
      ensures !r.Repaired? && done == |issues| && !f.Manifest? && !f.Validation? ==> HasLong(cat)
      ensures !r.Repaired? ==> (r.RolledBack? <==> files == old(files) && done == |issues| && !f.Manifest?)
      ensures !r.Repaired? && !r.RolledBack? ==> snapshots == old(snapshots)
    {
      var ok, s;
      ok, s, done := RepairAll(h, cat, release, issues, f);
      if !ok || f.Manifest? {
        var n := Undo(h, cat, release, issues, s, done, old(files));
        return Failed, done;
      }
      var after := Integrity(h, files, cat);
      Fixed(h, cat, release, issues, report, old(files), files, s);
      if after.None? || !after.value.IntegrityOk() || f.Validation? {
        var n := Undo(h, cat, release, issues, s, done, old(files));
        if n < |s.entries| {
          return Failed, done;
        }
        snapshots := snapshots[id := s];
        return RolledBack, done;
      }
      snapshots := snapshots[id := s];
      RecordedIssues(s, issues);
      r := Repaired(|issues|);
    }

    /**
     * repair_core. `release` is the downloaded release of the same version, if it could be had.
     *
     * The issues are the files that are missing or do not match. A repair that succeeds leaves every file of the catalogue
     * intact and no other file changed. One that does not has replaced the issues before the first that could not be, and
     * put them back up to the first that was too large to be written back: that one and the later ones stay replaced.
     */
    method RepairCore(h: Hash, cat: seq<Line>, release: Option<Tree>, id: string, f: Fault)
      returns (r: Outcome, issues: seq<string>, done: nat)
      requires IsCatalogue(cat) && DistinctPaths(cat) && id !in snapshots
      modifies `files, `snapshots
      ensures Distinct(issues) && Increasing(issues) && (issues != [] ==> AreIssues(issues, h, old(files), cat))
      ensures if issues == [] || |issues| > MAX_ISSUES || release.None?
              then done == 0 && !r.Repaired? && !r.RolledBack? && files == old(files)
              else
                && (r.Repaired? || r.Failed? || r.RolledBack?)
                && Reaches(h, cat, release.value, old(files), issues, f, done)
                && (!r.Repaired? ==> (r.RolledBack? <==> files == old(files) && done == |issues| && !f.Manifest?))
      ensures r.Clean? || r.Repaired? ==> Intact(h, files, cat)
      ensures r.Clean? || r.Refused? ==> files == old(files)
      ensures (r.Failed? || r.RolledBack?) && files != old(files) ==>
                release.Some? && done <= |issues| && Left(files, old(files), release.value, issues[..done])
      ensures r.Failed? || r.RolledBack? ==>
                done <= |issues| && (files == old(files) <==> FirstLarge(old(files), issues[..done]) == done)
      ensures r.Repaired? ==>
                && r.count == done == |issues| <= MAX_ISSUES && !f.Manifest? && !f.Validation?
                && release.Some? && PatchedAt(files, old(files), release.value, Paths(issues))
                && id in snapshots && Records(snapshots[id], old(files))
                && Recorded(snapshots[id].entries) == Paths(issues)
      ensures !r.Repaired? && !r.RolledBack? ==> snapshots == old(snapshots)
      ensures Asked(h, cat, old(files)) ==> issues != [] && |issues| <= MAX_ISSUES
      ensures release.Some? && !r.Repaired? && done == |issues| > 0 && !f.Manifest? && !f.Validation? ==> HasLong(cat)
    {
      issues, done := [], 0;
      var before := Integrity(h, files, cat);
      if before.None? {
        return Failed, issues, done;
      }
      CountsFit(h, cat, files, before.value);
      if before.value.IntegrityOk() {
        return Clean, issues, done;
      }
      if before.value.Truncated() {
        return Refused, issues, done;
      }
      issues := IssuesOf(before.value);
      IssuesAre(h, files, cat, before.value, issues);
      assert before.value.missing != [] ==> before.value.missing[0] in issues;
      assert before.value.mismatched != [] ==> before.value.mismatched[0] in issues;
      if issues == [] || |issues| > MAX_ISSUES {
        return Refused, issues, done;
      }
      if release.None? {
        return Failed, issues, done;
      }
      r, done := RepairIssues(h, cat, release.value, issues, before.value, id, f);
    }

    /**
     * What can be told before the call: a repair that is ready succeeds when nothing goes wrong; when the last check fails
     * everything is put back exactly when no file that did not match was too large.
     */
    method RepairReady(h: Hash, cat: seq<Line>, release: Tree, id: string, f: Fault) returns (r: Outcome)
      requires IsCatalogue(cat) && DistinctPaths(cat) && id !in snapshots && Ready(h, cat, release, files)
      modifies `files, `snapshots
      ensures f.NoFault? ==> r.Repaired? && Intact(h, files, cat)
      ensures f.Validation? ==> r == if LargeMismatch(h, old(files), cat) then Failed else RolledBack
      ensures f.Manifest? || f.Validation? ==> (files == old(files) <==> !LargeMismatch(h, old(files), cat))
    {
      ghost var before := files;
      var issues, done;
      r, issues, done := RepairCore(h, cat, Some(release), id, f);
      if !f.Saving? && !f.Writing? {
        ReadyMet(h, cat, release, before, issues, f, done);
      }
    }

    /** The undo of a repair; one that stops early is tried once more and stops at the same file. */
    method Undo(h: Hash, cat: seq<Line>, release: Tree, issues: seq<string>, s: Snapshot, done: nat, ghost before: Tree)
      returns (n: nat)
      requires IsCatalogue(cat) && DistinctPaths(cat) && Distinct(issues)
      requires Progress(h, cat, release, issues, before, files, s, done) && |s.entries| <= done + 1
      modifies `files
      ensures Left(files, before, release, issues[..done])
      ensures files == before <==> FirstLarge(before, issues[..done]) == done
      ensures n <= |s.entries| && (|s.entries| == done ==> (n == done <==> files == before))
    {
      ghost var patched := files;
      n := RollbackSnapshot(s, before);
      ghost var m := n;
      if n < |s.entries| {
        ghost var once := files;
        n := RollbackSnapshot(s, before);
        RestoredTwice(files, once, patched, before, Recorded(s.entries[..n]));
      }
      Undone(h, cat, release, issues, before, patched, files, s, done, n);
    }

    /**
     * rollback_repair: what the snapshot recorded comes back up to the first file that is too large, the other files are
     * not touched.
     */
    method RollbackRepair(id: string, ghost before: Tree) returns (ok: bool)
      requires id in snapshots ==> Records(snapshots[id], before)
      modifies `files
      ensures id !in snapshots ==> !ok && files == old(files)
      ensures id in snapshots ==> (ok <==> forall e :: e in snapshots[id].entries ==> !TooLarge(before, Parts(e.path)))
      ensures ok ==> RestoredAt(files, old(files), before, Recorded(snapshots[id].entries))
      ensures id in snapshots && !ok ==> Interrupted(snapshots[id], before, files, old(files))
    {
      if id !in snapshots {
        return false;
      }
      var s := snapshots[id];
      var n := RollbackSnapshot(s, before);
      ok := n == |s.entries|;
      if ok {
        assert s.entries[..n] == s.entries;
      } else {
        assert s.entries[n] in s.entries;
      }
    }

    /**
     * A repair is undone by rolling it back, with every file as before, exactly when no file that did not match was too
     * large; otherwise the rollback stops and files stay replaced.
     */
    method RepairAndRollBack(h: Hash, cat: seq<Line>, release: Option<Tree>, id: string, f: Fault)
      returns (repaired: bool, undone: bool)
      requires IsCatalogue(cat) && DistinctPaths(cat) && id !in snapshots
      modifies `files, `snapshots
      ensures repaired ==> (undone <==> !LargeMismatch(h, old(files), cat))
      ensures repaired ==> (files == old(files) <==> !LargeMismatch(h, old(files), cat))
      ensures !LargeMismatch(h, old(files), cat) ==> files == old(files)
    {
      ghost var before := files;
      var r, issues, done := RepairCore(h, cat, release, id, f);
      repaired, undone := r.Repaired?, false;
      if repaired {
        ghost var patched := files;
        LargeIssues(h, cat, release.value, before, patched, issues, f);
        undone := RollbackRepair(id, before);
        if undone {
          AllSmall(snapshots[id], issues, before);
          PatchUndone(files, patched, before, release.value, Paths(issues));
        } else {
          StillReplaced(h, cat, release.value, issues, before, patched, files, snapshots[id], f);
        }
      } else if done > 0 {
        SmallIssues(h, cat, release.value, before, issues, f, done);
      }
    }
  }

  /** A rollback that stopped at an entry whose file is too large, with the entries before it restored. */
  ghost predicate Interrupted(s: Snapshot, before: Tree, now: Tree, was: Tree) {
    exists n :: 0 <= n < |s.entries| && Rolled(s, before, now, was, n) && TooLarge(before, Parts(s.entries[n].path))
  }

  /** After a repair that succeeded: a file that did not match was too large exactly when one that was replaced was. */
  lemma LargeIssues(h: Hash, cat: seq<Line>, release: Tree, before: Tree, patched: Tree, issues: seq<string>, f: Fault)
    requires IsCatalogue(cat) && DistinctPaths(cat)
    requires Reaches(h, cat, release, before, issues, f, |issues|)
    requires Intact(h, patched, cat) && PatchedAt(patched, before, release, Paths(issues))
    ensures LargeMismatch(h, before, cat) <==> exists p :: p in Paths(issues) && TooLarge(before, p)
  {
    if line :| line in cat && IsMismatched(h, before, line) && TooLarge(before, Parts(line.relative)) {
      var p := Parts(line.relative);
      assert p !in Paths(issues) ==> SameAt(patched, before, p);
    }
    if p :| p in Paths(issues) && TooLarge(before, p) {
      var name :| name in issues && Parts(name) == p;
      var i :| 0 <= i < |issues| && issues[i] == name;
      assert Goes(h, cat, release, before, issues, f, i);
      LargeLine(h, cat, release, before, name);
    }
  }

  lemma SmallIssues(h: Hash, cat: seq<Line>, release: Tree, before: Tree, issues: seq<string>, f: Fault, done: nat)
    requires IsCatalogue(cat) && Reaches(h, cat, release, before, issues, f, done)
    ensures !LargeMismatch(h, before, cat) ==> FirstLarge(before, issues[..done]) == done
  {
    var i := FirstLarge(before, issues[..done]);
    if i < done {
      assert Goes(h, cat, release, before, issues, f, i);
      LargeLine(h, cat, release, before, issues[i]);
    }
  }

  lemma LargeLine(h: Hash, cat: seq<Line>, release: Tree, before: Tree, name: string)
    requires IsCatalogue(cat) && Fixable(h, cat, release, before, name) && TooLarge(before, Parts(name))
    ensures LargeMismatch(h, before, cat)
  {
    FixableLine(h, cat, release, before, name);
    var line := Line(name, Lookup(cat, name).value);
    assert line.expected != "";
    assert |Lower(line.expected)| > 0;
    assert IsMismatched(h, before, line);
  }

  lemma AllSmall(s: Snapshot, issues: seq<string>, before: Tree)
    requires Recorded(s.entries) == Paths(issues)
    requires forall e :: e in s.entries ==> !TooLarge(before, Parts(e.path))
    ensures forall p :: p in Paths(issues) ==> !TooLarge(before, p)
  {
    forall p | p in Paths(issues) ensures !TooLarge(before, p) {
      var e :| e in s.entries && Parts(e.path) == p;
    }
  }

  lemma StillReplaced(h: Hash, cat: seq<Line>, release: Tree, issues: seq<string>, before: Tree, patched: Tree, now: Tree,
                      s: Snapshot, f: Fault)
    requires IsCatalogue(cat) && Reaches(h, cat, release, before, issues, f, |issues|)
    requires Recorded(s.entries) == Paths(issues) && PatchedAt(patched, before, release, Paths(issues))
    requires Interrupted(s, before, now, patched)
    ensures now != before && exists p :: p in Paths(issues) && TooLarge(before, p)
  {
    var n :| 0 <= n < |s.entries| && Rolled(s, before, now, patched, n) && TooLarge(before, Parts(s.entries[n].path));
    var p := Parts(s.entries[n].path);
    assert s.entries[n] in s.entries;
    assert p in Recorded(s.entries);
    assert p in Paths(issues);
    forall e | e in s.entries[..n] ensures Parts(e.path) != p {
      var j :| 0 <= j < n && s.entries[j] == e;
    }
    assert p !in Recorded(s.entries[..n]);
    assert SameAt(now, patched, p);
    assert SameAt(patched, release, p);
    var name :| name in issues && Parts(name) == p;
    var i :| 0 <= i < |issues| && issues[i] == name;
    assert Goes(h, cat, release, before, issues, f, i);
    FixableLine(h, cat, release, before, name);
    ReleaseFits(h, cat, release, name);
  }

  lemma {:induction false} NamesFit(names: seq<string>)
    ensures |set name | name in names| <= |names|
  {
    if names != [] {
      NamesFit(names[1..]);
      assert (set name | name in names) == {names[0]} + set name | name in names[1..];
    }
  }

  /** sorted(set(missing + mismatched)) */
  method IssuesOf(r: Report) returns (issues: seq<string>)
    ensures Distinct(issues) && forall name :: name in issues <==> name in r.missing || name in r.mismatched
    ensures Increasing(issues) && |issues| <= |r.missing| + |r.mismatched|
  {
    NamesFit(r.missing);
    NamesFit(r.mismatched);
    issues := Sort((set name | name in r.missing) + (set name | name in r.mismatched));
    forall i, j | 0 <= i < j < |issues| ensures issues[i] != issues[j] {
      LessOrder(issues[i], issues[j], "");
    }
  }

  /** The checks of the loop before it saves a file. */
  predicate Fixable(h: Hash, cat: seq<Line>, release: Tree, files: Tree, name: string) {
    var p, expected := Parts(name), Lookup(cat, name);
    && expected.Some? && !Skipped(name) && name != "wp-config.php"
    && p in release && Matches(h, release[p], expected.value) && IsSafe(name)
    && !IsDirectory(files, p)
  }

  /** The first `done` issues are replaced, and the entries are recorded. */
  ghost predicate Progress(h: Hash, cat: seq<Line>, release: Tree, issues: seq<string>, before: Tree, files: Tree,
                           s: Snapshot, done: nat)
  {
    && done <= |s.entries| <= |issues|
    && (forall j :: 0 <= j < |s.entries| ==> s.entries[j].path == issues[j])
    && Records(s, before)
    && PatchedAt(files, before, release, Paths(issues[..done]))
    && (forall j :: 0 <= j < done ==> HasLine(h, cat, release, issues[j]))
  }

  lemma SaveStep(h: Hash, cat: seq<Line>, release: Tree, issues: seq<string>, before: Tree, files: Tree, s: Snapshot,
                 i: nat)
    requires IsCatalogue(cat) && DistinctPaths(cat) && Distinct(issues)
    requires i < |issues| && |s.entries| == i && Progress(h, cat, release, issues, before, files, s, i)
    requires Fixable(h, cat, release, files, issues[i])
    ensures Progress(h, cat, release, issues, before, files, Save(s, files, issues[i]), i)
    ensures HasLine(h, cat, release, issues[i])
  {
    var name, t := issues[i], Save(s, files, issues[i]);
    FixableLine(h, cat, release, files, name);
    NotYet(cat, issues, i, h, release);
    Unpatched(files, before, release, Paths(issues[..i]), Parts(name));
    RecordStep(s, before, files, name);
    assert forall j :: 0 <= j < i + 1 ==> t.entries[j].path == issues[j];
  }

  lemma Unpatched(now: Tree, was: Tree, release: Tree, paths: set<Path>, p: Path)
    requires PatchedAt(now, was, release, paths) && p !in paths
    ensures SameAt(now, was, p)
  {
  }

  lemma FixableLine(h: Hash, cat: seq<Line>, release: Tree, files: Tree, name: string)
    requires Fixable(h, cat, release, files, name)
    ensures HasLine(h, cat, release, name) && Lookup(cat, name).Some? && IsSafe(name)
  {
    var line := Line(name, Lookup(cat, name).value);
    assert line in cat && line.relative == name;
  }

  lemma WriteStep(h: Hash, cat: seq<Line>, release: Tree, issues: seq<string>, before: Tree, files: Tree, s: Snapshot,
                  i: nat)
    requires i < |issues| && |s.entries| == i + 1 && Progress(h, cat, release, issues, before, files, s, i)
    requires HasLine(h, cat, release, issues[i])
    ensures Parts(issues[i]) in release
    ensures Progress(h, cat, release, issues, before, files[Parts(issues[i]) := release[Parts(issues[i])]], s, i + 1)
  {
    PatchStep(files, before, release, issues, i, files[Parts(issues[i]) := release[Parts(issues[i])]]);
  }

  /** Catalogue paths name distinct files. */
  ghost predicate DistinctPaths(cat: seq<Line>) {
    forall a, b :: a in cat && b in cat && Parts(a.relative) == Parts(b.relative) ==> a.relative == b.relative
  }

  ghost predicate Distinct(names: seq<string>) {
    forall i, j :: 0 <= i < j < |names| ==> names[i] != names[j]
  }

  function Lookup(cat: seq<Line>, name: string): (r: Option<string>)
    ensures r.Some? ==> Line(name, r.value) in cat
    ensures r.None? ==> forall line :: line in cat ==> line.relative != name
  {
    if cat == [] then None
    else if cat[0].relative == name then
      assert cat[0] in cat;
      Some(cat[0].expected)
    else
      assert forall line :: line in cat <==> line == cat[0] || line in cat[1..];
      Lookup(cat[1..], name)
  }

  /** The release has the file that the catalogue describes. */
  ghost predicate HasLine(h: Hash, cat: seq<Line>, release: Tree, name: string) {
    exists line :: line in cat && line.relative == name && !Skipped(name) && IsSafe(name)
      && Parts(name) in release && Matches(h, release[Parts(name)], line.expected)
  }

  /** The name of a directory that has files. */
  predicate IsDirectory(files: Tree, p: Path) {
    exists q :: q in files && p < q
  }

  /** A parent that is a file. */
  predicate Blocked(files: Tree, p: Path) {
    exists q :: q in files && q < p
  }

  function Save(s: Snapshot, files: Tree, name: string): Snapshot {
    var p := Parts(name);
    Snapshot(s.entries + [Entry(name, p in files)], if p in files then s.saved[p := files[p]] else s.saved)
  }

  ghost predicate PatchedAt(now: Tree, was: Tree, release: Tree, paths: set<Path>) {
    forall p {:trigger SameAt(now, release, p)} {:trigger SameAt(now, was, p)} ::
      if p in paths then p in release && SameAt(now, release, p) else SameAt(now, was, p)
  }

  lemma PatchStep(now: Tree, was: Tree, release: Tree, issues: seq<string>, i: nat, next: Tree)
    requires i < |issues| && PatchedAt(now, was, release, Paths(issues[..i]))
    requires var p := Parts(issues[i]);
             p in release && SameAt(next, release, p) && forall q :: q != p ==> SameAt(next, now, q)
    ensures PatchedAt(next, was, release, Paths(issues[..i + 1]))
  {
    var p := Parts(issues[i]);
    assert forall e :: e in issues[..i + 1] <==> e in issues[..i] || e == issues[i];
    forall q ensures if q in Paths(issues[..i + 1]) then q in release && SameAt(next, release, q) else SameAt(next, was, q) {
      if q != p {
        assert SameAt(next, now, q);
        assert if q in Paths(issues[..i]) then q in release && SameAt(now, release, q) else SameAt(now, was, q);
      }
    }
  }

  /** The file of an issue has not been replaced by an earlier one. */
  lemma NotYet(cat: seq<Line>, issues: seq<string>, i: nat, h: Hash, release: Tree)
    requires DistinctPaths(cat) && Distinct(issues) && i < |issues| && Lookup(cat, issues[i]).Some?
    requires forall j :: 0 <= j < i ==> HasLine(h, cat, release, issues[j])
    ensures Parts(issues[i]) !in Paths(issues[..i])
  {
    var line := Line(issues[i], Lookup(cat, issues[i]).value);
    forall name | name in issues[..i] ensures Parts(name) != Parts(issues[i]) {
      var j :| 0 <= j < i && issues[j] == name;
      assert HasLine(h, cat, release, issues[j]);
      var other :| other in cat && other.relative == name;
      assert line in cat;
    }
  }

  lemma RecordStep(s: Snapshot, before: Tree, files: Tree, name: string)
    requires Records(s, before) && IsSafe(name) && SameAt(files, before, Parts(name))
    ensures Records(Save(s, files, name), before)
    ensures Save(s, files, name).entries == s.entries + [Entry(name, Parts(name) in files)]
  {
  }

  lemma RestoredTwice(after: Tree, once: Tree, patched: Tree, before: Tree, paths: set<Path>)
    requires RestoredAt(once, patched, before, paths) && RestoredAt(after, once, before, paths)
    ensures RestoredAt(after, patched, before, paths)
  {
    forall p ensures if p in paths then SameAt(after, before, p) else SameAt(after, patched, p) {
      assert if p in paths then SameAt(after, before, p) else SameAt(after, once, p);
      assert if p in paths then SameAt(once, before, p) else SameAt(once, patched, p);
    }
  }

  lemma SameTree(a: Tree, b: Tree)
    requires forall p :: SameAt(a, b, p)
    ensures a == b
  {
    forall p | p in a ensures p in b && a[p] == b[p] {
      assert SameAt(a, b, p);
    }
    forall p | p in b ensures p in a {
      assert SameAt(a, b, p);
    }
  }

  lemma PatchUndone(after: Tree, patched: Tree, before: Tree, release: Tree, paths: set<Path>)
    requires PatchedAt(patched, before, release, paths) && RestoredAt(after, patched, before, paths)
    ensures after == before
  {
    forall p ensures SameAt(after, before, p) {
      assert if p in paths then SameAt(after, before, p) else SameAt(after, patched, p);
      assert p !in paths ==> SameAt(patched, before, p);
    }
    SameTree(after, before);
  }

  lemma RecordedIssues(s: Snapshot, issues: seq<string>)
    requires |s.entries| == |issues| && forall j :: 0 <= j < |issues| ==> s.entries[j].path == issues[j]
    ensures Recorded(s.entries) == Paths(issues) && issues[..|issues|] == issues
  {
    forall p | p in Recorded(s.entries) ensures p in Paths(issues) {
      var j :| 0 <= j < |issues| && Parts(s.entries[j].path) == p;
      assert issues[j] in issues;
    }
    forall p | p in Paths(issues) ensures p in Recorded(s.entries) {
      var j :| 0 <= j < |issues| && Parts(issues[j]) == p;
      assert s.entries[j] in s.entries;
    }
  }

  /** A file that was written fits. */
  lemma ReleaseFits(h: Hash, cat: seq<Line>, release: Tree, name: string)
    requires IsCatalogue(cat) && HasLine(h, cat, release, name)
    ensures Parts(name) in release && |release[Parts(name)]| <= MAX_CORE_FILE
  {
    var line :| line in cat && line.relative == name && Matches(h, release[Parts(name)], line.expected);
    assert line.expected != "";
    assert |Lower(line.expected)| > 0;
  }

  /** The first name whose file is too large to be written back. */
  function FirstLarge(files: Tree, names: seq<string>): (r: nat)
    ensures r <= |names|
    ensures forall j :: 0 <= j < r ==> !TooLarge(files, Parts(names[j]))
    ensures r < |names| ==> TooLarge(files, Parts(names[r]))
  {
    if names == [] || TooLarge(files, Parts(names[0])) then 0 else 1 + FirstLarge(files, names[1..])
  }

  /** After an undo: the files from the first one that is too large stay replaced, and everything else is as before. */
  ghost predicate Left(after: Tree, before: Tree, release: Tree, names: seq<string>) {
    PatchedAt(after, before, release, Paths(names[FirstLarge(before, names)..]))
  }

  lemma Undone(h: Hash, cat: seq<Line>, release: Tree, issues: seq<string>, before: Tree, patched: Tree, after: Tree,
               s: Snapshot, done: nat, n: nat)
    requires IsCatalogue(cat) && DistinctPaths(cat) && Distinct(issues)
    requires Progress(h, cat, release, issues, before, patched, s, done)
    requires n <= |s.entries| && RestoredAt(after, patched, before, Recorded(s.entries[..n]))
    requires forall j :: 0 <= j < n ==> !TooLarge(before, Parts(s.entries[j].path))
    requires n < |s.entries| ==> TooLarge(before, Parts(s.entries[n].path))
    ensures Left(after, before, release, issues[..done])
    ensures after == before <==> FirstLarge(before, issues[..done]) == done
    ensures |s.entries| == done ==> (n == done <==> after == before)
  {
    var stop := FirstLarge(before, issues[..done]);
    assert forall j :: 0 <= j < stop ==> issues[..done][j] == issues[j];
    StopIs(issues, before, s, done, n, stop);
    assert issues[..done][stop..] == issues[stop..done];
    forall p ensures if p in Paths(issues[stop..done]) then p in release && SameAt(after, release, p) else SameAt(after, before, p) {
      PieceUndone(h, cat, issues, before, patched, after, release, s, done, n, stop, p);
    }
    if stop == done {
      forall p ensures SameAt(after, before, p) {
        assert if p in Paths(issues[stop..done]) then SameAt(after, release, p) else SameAt(after, before, p);
      }
      SameTree(after, before);
    } else {
      var p := Parts(issues[stop]);
      assert issues[stop] in issues[stop..done];
      assert p in Paths(issues[stop..done]);
      assert SameAt(after, release, p);
      ReleaseFits(h, cat, release, issues[stop]);
    }
  }

  lemma StopIs(issues: seq<string>, before: Tree, s: Snapshot, done: nat, n: nat, stop: nat)
    requires stop <= done <= |s.entries| <= |issues| && n <= |s.entries|
    requires forall j :: 0 <= j < |s.entries| ==> s.entries[j].path == issues[j]
    requires forall j :: 0 <= j < n ==> !TooLarge(before, Parts(s.entries[j].path))
    requires n < |s.entries| ==> TooLarge(before, Parts(s.entries[n].path))
    requires forall j :: 0 <= j < stop ==> !TooLarge(before, Parts(issues[j]))
    requires stop < done ==> TooLarge(before, Parts(issues[stop]))
    ensures stop == if n < done then n else done
  {
    assert n < |s.entries| ==> s.entries[n].path == issues[n];
    assert stop < done ==> s.entries[stop].path == issues[stop];
  }

  /** A path of an issue that stays replaced, or any other path. */
  lemma PieceUndone(h: Hash, cat: seq<Line>, issues: seq<string>, before: Tree, patched: Tree, after: Tree, release: Tree,
                    s: Snapshot, done: nat, n: nat, stop: nat, p: Path)
    requires IsCatalogue(cat) && DistinctPaths(cat) && Distinct(issues)
    requires Progress(h, cat, release, issues, before, patched, s, done)
    requires n <= |s.entries| && stop == if n < done then n else done
    requires RestoredAt(after, patched, before, Recorded(s.entries[..n]))
    ensures if p in Paths(issues[stop..done]) then p in release && SameAt(after, release, p) else SameAt(after, before, p)
  {
    if n < done && p in Paths(issues[n..done]) {
      StaysReplaced(h, cat, issues, s, done, n, p, release);
      assert SameAt(after, patched, p);
      assert SameAt(patched, release, p);
    } else {
      assert if p in Recorded(s.entries[..n]) then SameAt(after, before, p) else SameAt(after, patched, p);
      if p !in Recorded(s.entries[..n]) {
        NeverReplaced(issues, s, done, n, stop, p);
        assert SameAt(patched, before, p);
      }
    }
  }

  lemma StaysReplaced(h: Hash, cat: seq<Line>, issues: seq<string>, s: Snapshot, done: nat, n: nat, p: Path,
                      release: Tree)
    requires DistinctPaths(cat) && Distinct(issues) && n < done <= |s.entries| <= |issues|
    requires forall j :: 0 <= j < |s.entries| ==> s.entries[j].path == issues[j]
    requires forall j :: 0 <= j < done ==> HasLine(h, cat, release, issues[j])
    requires p in Paths(issues[n..done])
    ensures p in Paths(issues[..done]) && p !in Recorded(s.entries[..n])
  {
    var name :| name in issues[n..done] && Parts(name) == p;
    var j :| n <= j < done && issues[j] == name;
    assert issues[j] in issues[..done];
    forall i | 0 <= i < n ensures Parts(s.entries[i].path) != p {
      DistinctIssues(h, cat, release, issues, i, j);
    }
    NotRecorded(s.entries[..n], p);
  }

  lemma NotRecorded(entries: seq<Entry>, p: Path)
    requires forall i :: 0 <= i < |entries| ==> Parts(entries[i].path) != p
    ensures p !in Recorded(entries)
  {
  }

  lemma NeverReplaced(issues: seq<string>, s: Snapshot, done: nat, n: nat, stop: nat, p: Path)
    requires n <= |s.entries| && stop == if n < done then n else done
    requires done <= |s.entries| <= |issues| && forall j :: 0 <= j < |s.entries| ==> s.entries[j].path == issues[j]
    requires p !in Paths(issues[stop..done]) && p !in Recorded(s.entries[..n])
    ensures p !in Paths(issues[..done])
  {
    forall name | name in issues[..done] ensures Parts(name) != p {
      var j :| 0 <= j < done && issues[j] == name;
      if j < n {
        assert s.entries[j] in s.entries[..n];
      } else {
        assert issues[j] in issues[stop..done];
      }
    }
  }

  lemma DistinctIssues(h: Hash, cat: seq<Line>, release: Tree, issues: seq<string>, i: nat, j: nat)
    requires DistinctPaths(cat) && Distinct(issues) && i < j < |issues|
    requires HasLine(h, cat, release, issues[i]) && HasLine(h, cat, release, issues[j])
    ensures Parts(issues[i]) != Parts(issues[j])
  {
  }

  // ----- which issues are replaced -----

  predicate Apart(p: Path, q: Path) {
    !(p < q) && !(q < p)
  }

  /** Issue i can be replaced: it passes every check, its path is free, and no fault strikes it. */
  ghost predicate Goes(h: Hash, cat: seq<Line>, release: Tree, before: Tree, issues: seq<string>, f: Fault, i: nat)
    requires i < |issues|
  {
    && Fixable(h, cat, release, before, issues[i]) && !Blocked(before, Parts(issues[i]))
    && (forall j :: 0 <= j < i ==> Apart(Parts(issues[j]), Parts(issues[i])))
    && f != Saving(i) && f != Writing(i)
  }

  /** The issues before `done` can be replaced, and the next cannot. */
  ghost predicate Reaches(h: Hash, cat: seq<Line>, release: Tree, before: Tree, issues: seq<string>, f: Fault, done: nat) {
    && done <= |issues|
    && (forall j :: 0 <= j < done ==> Goes(h, cat, release, before, issues, f, j))
    && (done < |issues| ==> !Goes(h, cat, release, before, issues, f, done))
  }

  lemma Around(now: Tree, before: Tree, release: Tree, issues: seq<string>, i: nat, p: Path)
    requires i <= |issues| && PatchedAt(now, before, release, Paths(issues[..i]))
    ensures IsDirectory(now, p) || Blocked(now, p)
       <==> IsDirectory(before, p) || Blocked(before, p) || exists j :: 0 <= j < i && !Apart(Parts(issues[j]), p)
  {
    forall q ensures q in now <==> q in before || q in Paths(issues[..i]) {
      if q in Paths(issues[..i]) {
        assert SameAt(now, release, q);
      } else {
        assert SameAt(now, before, q);
      }
    }
    if j :| 0 <= j < i && !Apart(Parts(issues[j]), p) {
      assert issues[j] in issues[..i];
      assert Parts(issues[j]) in now;
    }
    if q :| q in Paths(issues[..i]) && !Apart(q, p) {
      var j :| 0 <= j < i && Parts(issues[j]) == q;
    }
  }

  /** The checks at the time, on files that have already been patched, come to the same. */
  lemma GoesNow(h: Hash, cat: seq<Line>, release: Tree, issues: seq<string>, before: Tree, files: Tree, s: Snapshot,
                i: nat, f: Fault)
    requires i < |issues| && Progress(h, cat, release, issues, before, files, s, i)
    ensures Goes(h, cat, release, before, issues, f, i)
       <==> Fixable(h, cat, release, files, issues[i]) && f != Saving(i) && !Blocked(files, Parts(issues[i])) && f != Writing(i)
  {
    Around(files, before, release, issues, i, Parts(issues[i]));
  }

  predicate IsIssue(h: Hash, files: Tree, line: Line) {
    IsMissing(files, line) || IsMismatched(h, files, line)
  }

  /** The names, as they are shown, of the files that are missing or do not match. */
  ghost predicate AreIssues(issues: seq<string>, h: Hash, files: Tree, cat: seq<Line>) {
    forall name :: name in issues <==> exists line :: line in cat && IsIssue(h, files, line) && Short(line.relative) == name
  }

  lemma ShownOf(names: seq<string>, name: string)
    requires |Shown(names)| == |names|
    ensures name in Shown(names) <==> exists n :: n in names && Short(n) == name
  {
    if name in Shown(names) {
      var i :| 0 <= i < |names| && Shown(names)[i] == name;
      assert names[i] in names && Short(names[i]) == name;
    }
    if n :| n in names && Short(n) == name {
      var i :| 0 <= i < |names| && names[i] == n;
      assert Shown(names)[i] == name;
    }
  }

  lemma ShownPicked(cat: seq<Line>, test: Line -> bool, name: string)
    requires |Shown(Picked(cat, test))| == |Picked(cat, test)|
    ensures name in Shown(Picked(cat, test)) <==> exists line :: line in cat && test(line) && Short(line.relative) == name
  {
    ShownOf(Picked(cat, test), name);
    if n :| n in Picked(cat, test) && Short(n) == name {
      PickedIs(cat, test, n);
    }
    if line :| line in cat && test(line) && Short(line.relative) == name {
      PickedIs(cat, test, line.relative);
    }
  }

  lemma IssuesAre(h: Hash, files: Tree, cat: seq<Line>, r: Report, issues: seq<string>)
    requires Describes(r, h, files, cat) && !r.Truncated()
    requires forall name :: name in issues <==> name in r.missing || name in r.mismatched
    ensures AreIssues(issues, h, files, cat)
  {
    forall name ensures name in issues <==> exists line :: line in cat && IsIssue(h, files, line) && Short(line.relative) == name {
      ShownPicked(cat, MissingTest(files), name);
      ShownPicked(cat, MismatchedTest(h, files), name);
    }
  }

  /** A name that a report cuts short. */
  ghost predicate HasLong(cat: seq<Line>) {
    exists line :: line in cat && |line.relative| > MAX_NAME
  }

  // ----- what can be told before the call -----

  /** Some file is missing or does not match, and there are not too many of them. */
  ghost predicate Asked(h: Hash, cat: seq<Line>, files: Tree) {
    && AllSafe(cat) && !Intact(h, files, cat)
    && |Picked(cat, MissingTest(files))| + |Picked(cat, MismatchedTest(h, files))| <= MAX_ISSUES
  }

  /** And each can be replaced. */
  ghost predicate Ready(h: Hash, cat: seq<Line>, release: Tree, before: Tree) {
    && Asked(h, cat, before) && !HasLong(cat)
    && (forall line :: line in cat && IsIssue(h, before, line) ==>
          Fixable(h, cat, release, before, line.relative) && !Blocked(before, Parts(line.relative)))
    && (forall a, b :: a in cat && b in cat && IsIssue(h, before, a) && IsIssue(h, before, b) ==>
          Apart(Parts(a.relative), Parts(b.relative)))
  }

  /** A file that does not match is too large to be written back. */
  ghost predicate LargeMismatch(h: Hash, files: Tree, cat: seq<Line>) {
    exists line :: line in cat && IsMismatched(h, files, line) && TooLarge(files, Parts(line.relative))
  }

  lemma ReadyGoes(h: Hash, cat: seq<Line>, release: Tree, before: Tree, issues: seq<string>, f: Fault, done: nat)
    requires Ready(h, cat, release, before) && AreIssues(issues, h, before, cat)
    requires Reaches(h, cat, release, before, issues, f, done) && !f.Saving? && !f.Writing?
    ensures done == |issues|
  {
    if done < |issues| {
      OneGoes(h, cat, release, before, issues, f, done);
    }
  }

  lemma ReadyMet(h: Hash, cat: seq<Line>, release: Tree, before: Tree, issues: seq<string>, f: Fault, done: nat)
    requires Ready(h, cat, release, before) && AreIssues(issues, h, before, cat)
    requires Reaches(h, cat, release, before, issues, f, done) && !f.Saving? && !f.Writing?
    ensures done == |issues| && !HasLong(cat)
    ensures FirstLarge(before, issues[..done]) == done <==> !LargeMismatch(h, before, cat)
  {
    ReadyGoes(h, cat, release, before, issues, f, done);
    ReadyLarge(h, cat, release, before, issues);
    assert issues[..done] == issues;
  }

  lemma CountsFit(h: Hash, cat: seq<Line>, files: Tree, r: Report)
    requires Describes(r, h, files, cat) && (r.IntegrityOk() <==> Intact(h, files, cat))
    ensures Asked(h, cat, files) ==>
              !r.IntegrityOk() && !r.Truncated() && (r.missing != [] || r.mismatched != [])
              && |r.missing| + |r.mismatched| <= MAX_ISSUES
  {
  }

  lemma OneGoes(h: Hash, cat: seq<Line>, release: Tree, before: Tree, issues: seq<string>, f: Fault, i: nat)
    requires Ready(h, cat, release, before) && AreIssues(issues, h, before, cat) && i < |issues|
    requires !f.Saving? && !f.Writing?
    ensures Goes(h, cat, release, before, issues, f, i)
  {
    var a := IssueLine(h, cat, release, before, issues, i);
    forall j | 0 <= j < i ensures Apart(Parts(issues[j]), Parts(issues[i])) {
      var b := IssueLine(h, cat, release, before, issues, j);
    }
  }

  lemma IssueLine(h: Hash, cat: seq<Line>, release: Tree, before: Tree, issues: seq<string>, i: nat) returns (line: Line)
    requires Ready(h, cat, release, before) && AreIssues(issues, h, before, cat) && i < |issues|
    ensures line in cat && IsIssue(h, before, line) && line.relative == issues[i]
  {
    assert issues[i] in issues;
    line :| line in cat && IsIssue(h, before, line) && Short(line.relative) == issues[i];
  }

  lemma ReadyLarge(h: Hash, cat: seq<Line>, release: Tree, before: Tree, issues: seq<string>)
    requires Ready(h, cat, release, before) && AreIssues(issues, h, before, cat)
    ensures FirstLarge(before, issues) == |issues| <==> !LargeMismatch(h, before, cat)
  {
    var stop := FirstLarge(before, issues);
    if stop < |issues| {
      var line := IssueLine(h, cat, release, before, issues, stop);
      assert IsMismatched(h, before, line);
    }
    if line :| line in cat && IsMismatched(h, before, line) && TooLarge(before, Parts(line.relative)) {
      assert IsIssue(h, before, line) && Short(line.relative) == line.relative;
      assert line.relative in issues;
    }
  }

  /** When every issue is replaced the check that follows finds nothing, unless a name was cut short. */
  lemma Fixed(h: Hash, cat: seq<Line>, release: Tree, issues: seq<string>, report: Report, before: Tree, files: Tree,
              s: Snapshot)
    requires IsCatalogue(cat) && DistinctPaths(cat)
    requires Describes(report, h, before, cat) && !report.Truncated()
    requires forall name :: name in issues <==> name in report.missing || name in report.mismatched
    requires Progress(h, cat, release, issues, before, files, s, |issues|)
    ensures Intact(h, files, cat) || HasLong(cat)
  {
    if !HasLong(cat) {
      forall line | line in cat && !Skipped(line.relative)
        ensures Parts(line.relative) in files && Matches(h, files[Parts(line.relative)], line.expected)
      {
        FixedLine(h, cat, release, issues, report, before, files, s, line);
      }
    }
  }

  lemma FixedLine(h: Hash, cat: seq<Line>, release: Tree, issues: seq<string>, report: Report, before: Tree, files: Tree,
                  s: Snapshot, line: Line)
    requires IsCatalogue(cat) && DistinctPaths(cat)
    requires Describes(report, h, before, cat) && !report.Truncated()
    requires forall name :: name in issues <==> name in report.missing || name in report.mismatched
    requires Progress(h, cat, release, issues, before, files, s, |issues|)
    requires line in cat && !Skipped(line.relative) && |line.relative| <= MAX_NAME
    ensures Parts(line.relative) in files && Matches(h, files[Parts(line.relative)], line.expected)
  {
    var p := Parts(line.relative);
    assert issues[..|issues|] == issues;
    if line.relative in issues {
      assert p in Paths(issues);
      assert SameAt(files, release, p);
      var j :| 0 <= j < |issues| && issues[j] == line.relative;
      OneLine(h, cat, release, line);
    } else {
      NotPicked(h, cat, report, before, line);
      forall name | name in issues ensures Parts(name) != p {
        var j :| 0 <= j < |issues| && issues[j] == name;
        assert HasLine(h, cat, release, issues[j]);
      }
      assert SameAt(files, before, p);
    }
  }

  lemma OneLine(h: Hash, cat: seq<Line>, release: Tree, line: Line)
    requires IsCatalogue(cat) && line in cat && HasLine(h, cat, release, line.relative)
    ensures Parts(line.relative) in release && Matches(h, release[Parts(line.relative)], line.expected)
  {
  }

  /** A file whose name is not shown is intact, when all names are. */
  lemma NotPicked(h: Hash, cat: seq<Line>, report: Report, before: Tree, line: Line)
    requires Describes(report, h, before, cat) && !report.Truncated()
    requires line in cat && !Skipped(line.relative) && |line.relative| <= MAX_NAME
    requires line.relative !in report.missing && line.relative !in report.mismatched
    ensures Parts(line.relative) in before && Matches(h, before[Parts(line.relative)], line.expected)
  {
    var missing, mismatched := Picked(cat, MissingTest(before)), Picked(cat, MismatchedTest(h, before));
    ShownAll(missing, line.relative);
    ShownAll(mismatched, line.relative);
    PickedIs(cat, MissingTest(before), line.relative);
    PickedIs(cat, MismatchedTest(h, before), line.relative);
    assert !MissingTest(before)(line) && !MismatchedTest(h, before)(line);
  }

  lemma ShownAll(names: seq<string>, name: string)
    requires |Shown(names)| == |names| && |name| <= MAX_NAME
    ensures name in names ==> name in Shown(names)
  {
    if name in names {
      var i :| 0 <= i < |names| && names[i] == name;
      assert Shown(names)[i] == name;
    }
  }
}
