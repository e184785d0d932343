/** agent/bandwidth_accounting.py: reading a rotating access log incrementally. */
module Bandwidth {
  import opened Text

  const MAX_LINE := 65536

  // ----- log lines -----

  /** A calendar month. */
  datatype Period = Period(year: int, month: int)

  /** What LOG_RE extracts from a line: the date text and the size, which is absent for "-". */
  datatype Hit = Hit(date: string, size: Option<nat>)

  /** The log format: which lines match, and what they carry. */
  type Format = string -> Option<Hit>

  function Month(name: string): Option<int> {
    if name == "Jan" then Some(1) else if name == "Feb" then Some(2) else if name == "Mar" then Some(3)
    else if name == "Apr" then Some(4) else if name == "May" then Some(5) else if name == "Jun" then Some(6)
    else if name == "Jul" then Some(7) else if name == "Aug" then Some(8) else if name == "Sep" then Some(9)
    else if name == "Oct" then Some(10) else if name == "Nov" then Some(11) else if name == "Dec" then Some(12)
    else None
  }

  function LinePeriod(date: string): Option<Period> {
    if |date| < 11 || date[2] != '/' || date[6] != '/' then None
    else
      var day, month, year := ParseInt(date[0..2]), Month(date[3..6]), ParseInt(date[7..11]);
      if day.None? || year.None? || month.None? || !(1 <= day.value <= 31) then None
      else Some(Period(year.value, month.value))
  }

  /** The bytes a line adds to a month. */
  function LineBytes(f: Format, line: string, p: Period): nat {
    match f(line)
    case None => 0
    case Some(hit) => if LinePeriod(hit.date) == Some(p) && hit.size.Some? then hit.size.value else 0
  }

  /** How many bytes a line adds to a month, with the line format fixed. */
  type Meter = (string, Period) -> nat

  function MeterOf(f: Format): Meter {
    (line, p) => LineBytes(f, line, p)
  }

  function Sum(m: Meter, lines: seq<string>, p: Period): nat {
    if lines == [] then 0 else m(lines[0], p) + Sum(m, lines[1..], p)
  }

  // ----- scanning -----

  /** readline(MAX_LINE + 1): how many characters of a non-empty rest it returns. */
  function ChunkEnd(s: string, limit: nat): (n: nat)
    requires s != "" && limit >= 1
    ensures 1 <= n <= |s|
  {
    if s[0] == '\n' || |s| == 1 || limit == 1 then 1 else 1 + ChunkEnd(s[1..], limit - 1)
  }

  /** A chunk ends at a line feed, at the limit or at the end of the text. */
  lemma {:induction false} ChunkEndStops(s: string, limit: nat)
    requires s != "" && limit >= 1
    ensures var n := ChunkEnd(s, limit); n < limit && n < |s| ==> s[n - 1] == '\n'
  {
    if !(s[0] == '\n' || |s| == 1 || limit == 1) {
      ChunkEndStops(s[1..], limit - 1);
    }
  }

  function ChunkBytes(m: Meter, chunk: string, p: Period): nat
    requires chunk != ""
  {
    if |chunk| > MAX_LINE || chunk[|chunk| - 1] != '\n' then 0 else m(chunk, p)
  }

  function ScanTotal(m: Meter, s: string, p: Period): nat
    decreases |s|
  {
    if s == "" then 0
    else
      var n := ChunkEnd(s, MAX_LINE + 1);
      ChunkBytes(m, s[..n], p) + ScanTotal(m, s[n..], p)
  }

  /** _scan: the counted bytes and the new offset, or None where it raises. */
  function ScanFrom(m: Meter, text: string, offset: int, p: Period): Option<(nat, nat)> {
    if offset < 0 || offset > |text| then None else Some((ScanTotal(m, text[offset..], p), |text|))
  }

  lemma ScanStep(m: Meter, text: string, pos: nat, n: nat, p: Period)
    requires pos < |text| && n == ChunkEnd(text[pos..], MAX_LINE + 1)
    ensures ScanTotal(m, text[pos..], p) == ChunkBytes(m, text[pos..pos + n], p) + ScanTotal(m, text[pos + n..], p)
  {
    assert text[pos..][..n] == text[pos..pos + n];
    assert text[pos..][n..] == text[pos + n..];
  }

  method Scan(m: Meter, text: string, offset: int, p: Period) returns (r: Option<(nat, nat)>)
    ensures r == ScanFrom(m, text, offset, p)
  {
    if offset < 0 || offset > |text| {
      return None;
    }
    var total: nat, pos: nat := 0, offset;
    ghost var all := ScanTotal(m, text[offset..], p);
    while pos < |text|
      invariant pos <= |text|
      invariant total + ScanTotal(m, text[pos..], p) == all
    {
      var n := ChunkEnd(text[pos..], MAX_LINE + 1);
      ScanStep(m, text, pos, n, p);
      var line := text[pos..pos + n];
      pos := pos + n;
      if |line| > MAX_LINE || line[|line| - 1] != '\n' {
        continue;
      }
      total := total + m(line, p);
    }
    assert text[pos..] == "";
    r := Some((total, pos));
  }

  // ----- whole lines -----

  predicate IsLine(s: string) {
    1 <= |s| <= MAX_LINE && s[|s| - 1] == '\n' && '\n' !in s[..|s| - 1]
  }

  ghost predicate AllLines(lines: seq<string>) {
    forall i :: 0 <= i < |lines| ==> IsLine(lines[i])
  }

  function Concat(lines: seq<string>): string {
    if lines == [] then "" else lines[0] + Concat(lines[1..])
  }

  lemma {:induction false} FirstChunk(line: string, rest: string, limit: nat)
    requires line != "" && line[|line| - 1] == '\n' && '\n' !in line[..|line| - 1] && limit > |line|
    ensures ChunkEnd(line + rest, limit) == |line|
  {
    if |line| > 1 {
      assert line[0] in line[..|line| - 1];
      assert (line + rest)[1..] == line[1..] + rest;
      assert line[1..][..|line[1..]| - 1] == line[..|line| - 1][1..];
      FirstChunk(line[1..], rest, limit - 1);
    }
  }

  /** On whole lines the scanner counts exactly the lines, and does so piece by piece. */
  lemma {:induction false} ScanLines(m: Meter, lines: seq<string>, p: Period)
    requires AllLines(lines)
    ensures ScanTotal(m, Concat(lines), p) == Sum(m, lines, p)
  {
    if lines != [] {
      var text := Concat(lines);
      FirstChunk(lines[0], Concat(lines[1..]), MAX_LINE + 1);
      assert text[..|lines[0]|] == lines[0] && text[|lines[0]|..] == Concat(lines[1..]);
      assert AllLines(lines[1..]);
      ScanLines(m, lines[1..], p);
    }
  }

  lemma {:induction false} ConcatCat(a: seq<string>, b: seq<string>)
    ensures Concat(a + b) == Concat(a) + Concat(b)
  {
    if a == [] {
      assert a + b == b;
    } else {
      assert (a + b)[1..] == a[1..] + b;
      ConcatCat(a[1..], b);
    }
  }

  lemma {:induction false} SumCat(m: Meter, a: seq<string>, b: seq<string>, p: Period)
    ensures Sum(m, a + b, p) == Sum(m, a, p) + Sum(m, b, p)
  {
    if a == [] {
      assert a + b == b;
    } else {
      assert (a + b)[1..] == a[1..] + b;
      SumCat(m, a[1..], b, p);
    }
  }

  lemma WholeLine(m: Meter, line: string, p: Period)
    requires line != "" && |line| <= MAX_LINE && line[|line| - 1] == '\n' && '\n' !in line[..|line| - 1]
    ensures ScanTotal(m, line, p) == m(line, p)
  {
    FirstChunk(line, "", MAX_LINE + 1);
    assert line + "" == line && line[..|line|] == line && line[|line|..] == "";
  }

  lemma HalfLine(m: Meter, half: string, p: Period)
    requires half != "" && |half| <= MAX_LINE && '\n' !in half
    ensures ScanTotal(m, half, p) == 0
  {
    var n := ChunkEnd(half, MAX_LINE + 1);
    ChunkEndStops(half, MAX_LINE + 1);
    assert half[n - 1] in half;
    assert n == |half| && half[..n] == half && half[n..] == "";
  }

  /**
   * A line read in two halves counts what its tail would count as a line of its own, so the count is right exactly when the
   * tail counts as much as the line; a tail without a date counts nothing and the line is lost.
   */
  lemma PartialLineLost(m: Meter, line: string, cut: nat, p: Period)
    requires IsLine(line) && 0 < cut < |line|
    ensures ScanTotal(m, line[..cut], p) + ScanTotal(m, line[cut..], p) == m(line[cut..], p)
    ensures ScanTotal(m, line[..cut], p) + ScanTotal(m, line[cut..], p) == ScanTotal(m, line, p)
       <==> m(line[cut..], p) == m(line, p)
  {
    WholeLine(m, line, p);
    var body := line[..|line| - 1];
    assert line[..cut] == body[..cut];
    HalfLine(m, line[..cut], p);
    var tail := line[cut..];
    assert tail[..|tail| - 1] == body[cut..];
    WholeLine(m, tail, p);
  }

  // ----- the ledger -----

  datatype LogFile = LogFile(inode: nat, text: string)

  /** The saved state of one domain; `inode` is None when the log was unavailable. */
  datatype Saved = Saved(period: Period, bytes: nat, complete: bool, continuous: bool, inode: Option<nat>, offset: nat,
                         reason: string)

  /** What one accounting call saves. */
  function Accounted(m: Meter, saved: Option<Saved>, current: Option<LogFile>, rotated: Option<LogFile>, p: Period): Saved {
    if current.None? then Saved(p, 0, false, false, None, 0, "current-log-unavailable")
    else
      var log := current.value;
      if saved.None? then
        Saved(p, ScanTotal(m, log.text, p), false, true, Some(log.inode), |log.text|, "tracking-started-mid-period")
      else
        var old_ := saved.value;
        var total := if old_.period == p then old_.bytes else 0;
        var complete := if old_.period == p then old_.complete else old_.continuous && old_.inode.Some?;
        var failed := Saved(p, total, false, false, Some(log.inode), |log.text|, "scan-gap-detected");
        if old_.inode == Some(log.inode) then
          match ScanFrom(m, log.text, old_.offset, p)
          case None => failed
          case Some((added, end)) =>
            Saved(p, total + added, complete, old_.continuous, Some(log.inode), end, "continuous")
        else if rotated.Some? && old_.inode == Some(rotated.value.inode) then
          match ScanFrom(m, rotated.value.text, old_.offset, p)
          case None => failed
          case Some((added, _)) =>
            Saved(p, total + added + ScanTotal(m, log.text, p), complete, old_.continuous, Some(log.inode), |log.text|,
                  "continuous")
        else
          Saved(p, total + ScanTotal(m, log.text, p), false, false, Some(log.inode), |log.text|, "rotation-gap-detected")
  }

  class Ledger {
    var saved: Option<Saved>

    constructor ()
      ensures saved == None
    {
      saved := None;
    }

    /** account_domain */
    method AccountDomain(m: Meter, current: Option<LogFile>, rotated: Option<LogFile>, p: Period)
      modifies this
      ensures saved == Some(Accounted(m, old(saved), current, rotated, p))
    {
      if current.None? {
        saved := Some(Saved(p, 0, false, false, None, 0, "current-log-unavailable"));
        return;
      }
      var log := current.value;
      if saved.None? {
        var first := Scan(m, log.text, 0, p);
        assert log.text[0..] == log.text;
        saved := Some(Saved(p, first.value.0, false, true, Some(log.inode), first.value.1, "tracking-started-mid-period"));
        return;
      }
      var oldInode, oldOffset := saved.value.inode, saved.value.offset;
      var samePeriod := saved.value.period == p;
      var total := if samePeriod then saved.value.bytes else 0;
      var continuous := saved.value.continuous;
      var complete := if samePeriod then saved.value.complete else continuous && oldInode.Some?;
      var reason, end := "continuous", |log.text|;
      var scanFailed := false;
      if oldInode == Some(log.inode) {
        var r := Scan(m, log.text, oldOffset, p);
        if r.Some? {
          total, end := total + r.value.0, r.value.1;
        }
        scanFailed := r.None?;
      } else if rotated.Some? && oldInode == Some(rotated.value.inode) {
        var addedOld := Scan(m, rotated.value.text, oldOffset, p);
        var addedNew := Scan(m, log.text, 0, p);
        assert log.text[0..] == log.text;
        if addedOld.Some? {
          total, end := total + addedOld.value.0 + addedNew.value.0, addedNew.value.1;
        }
        scanFailed := addedOld.None?;
      } else {
        var addedNew := Scan(m, log.text, 0, p);
        assert log.text[0..] == log.text;
        total, end := total + addedNew.value.0, addedNew.value.1;
        continuous, complete, reason := false, false, "rotation-gap-detected";
      }
      if scanFailed {
        continuous, complete, reason, end := false, false, "scan-gap-detected", |log.text|;
      }
      saved := Some(Saved(p, total, complete, continuous, Some(log.inode), end, reason));
    }
  }

  // ----- the world around it -----

  /** A log file holding the lines numbered `from` up to but excluding `to` of all lines ever written. */
  datatype Slice = Slice(inode: nat, from: nat, to: nat)

  /**
   * `lines` is everything ever logged. The last four fields are bookkeeping for the statements below: how many lines
   * there were at the last accounting call, where tracking began, the lines that were in neither file when a call
   * joined the rotated log to the current one, and the rotations since the last call.
   */
  datatype World = World(lines: seq<string>, current: Option<Slice>, rotated: Option<Slice>, nextInode: nat, clock: Period,
                         saved: Option<Saved>, mark: nat, start: nat, lost: seq<string>, rotations: nat)

  datatype Event =
    | Append(lines: seq<string>)
    | Rotate
    | RemoveCurrent
    | RemoveRotated
    | Create
    | Advance(clock: Period)
    | Account

  predicate Earlier(a: Period, b: Period) {
    a.year < b.year || (a.year == b.year && a.month < b.month)
  }

  /** A line written in month p counts for no other month. */
  ghost predicate Dated(m: Meter, line: string, p: Period) {
    forall q: Period :: q != p ==> m(line, q) == 0
  }

  /** The month that a line of a log format adds bytes to, if any. */
  function MonthOf(f: Format, line: string): Option<Period> {
    match f(line)
    case None => None
    case Some(hit) => if hit.size.Some? && hit.size.value > 0 then LinePeriod(hit.date) else None
  }

  /** For the meter of a log format, a line is dated in p exactly when it adds to no other month by its own date. */
  lemma DatedExactly(f: Format, line: string, p: Period)
    ensures Dated(MeterOf(f), line, p) <==> MonthOf(f, line) in {None, Some(p)}
  {
    if MonthOf(f, line).Some? {
      assert MeterOf(f)(line, MonthOf(f, line).value) > 0;
    }
  }

  ghost predicate DatedAll(m: Meter, lines: seq<string>, p: Period) {
    forall i :: 0 <= i < |lines| ==> IsLine(lines[i]) && Dated(m, lines[i], p)
  }

  predicate Within(w: World, s: Option<Slice>) {
    s.Some? ==> s.value.from <= s.value.to <= |w.lines|
  }

  function FileOf(w: World, s: Option<Slice>): Option<LogFile>
    requires Within(w, s)
  {
    match s
    case None => None
    case Some(f) => Some(LogFile(f.inode, Concat(w.lines[f.from..f.to])))
  }

  /** Lines that fell between the rotated log and the current one. */
  function Between(w: World): seq<string>
    requires Within(w, w.current) && Within(w, w.rotated)
  {
    if w.saved.Some? && w.current.Some? && w.rotated.Some? && w.saved.value.inode != Some(w.current.value.inode)
       && w.saved.value.inode == Some(w.rotated.value.inode) && w.rotated.value.to <= w.current.value.from
    then w.lines[w.rotated.value.to..w.current.value.from]
    else []
  }

  ghost function Step(m: Meter, w: World, e: Event): World
    requires Within(w, w.current) && Within(w, w.rotated)
  {
    match e
    case Append(lines) =>
      if w.current.Some? && DatedAll(m, lines, w.clock) then
        w.(lines := w.lines + lines, current := Some(w.current.value.(to := |w.lines| + |lines|)))
      else w
    case Rotate =>
      if w.current.None? then w
      else w.(rotated := w.current, current := Some(Slice(w.nextInode, |w.lines|, |w.lines|)),
              nextInode := w.nextInode + 1, rotations := w.rotations + 1)
    case RemoveCurrent => w.(current := None)
    case RemoveRotated => w.(rotated := None)
    case Create =>
      if w.current.Some? then w
      else w.(current := Some(Slice(w.nextInode, |w.lines|, |w.lines|)), nextInode := w.nextInode + 1)
    case Advance(clock) => if Earlier(w.clock, clock) then w.(clock := clock) else w
    case Account =>
      w.(saved := Some(Accounted(m, w.saved, FileOf(w, w.current), FileOf(w, w.rotated), w.clock)), mark := |w.lines|,
         start := if w.saved.None? && w.current.Some? then w.current.value.from else w.start,
         lost := w.lost + Between(w), rotations := 0)
  }

  ghost predicate FilesOk(w: World) {
    && (w.current.Some? ==> w.current.value.from <= w.current.value.to == |w.lines| && w.current.value.inode < w.nextInode)
    && (w.rotated.Some? ==> w.rotated.value.from <= w.rotated.value.to <= |w.lines| && w.rotated.value.inode < w.nextInode)
    && (w.current.Some? && w.rotated.Some? ==>
          w.rotated.value.to <= w.current.value.from && w.rotated.value.inode != w.current.value.inode)
  }

  ghost predicate LinesOk(w: World) {
    forall i :: 0 <= i < |w.lines| ==> IsLine(w.lines[i])
  }

  /** Nothing logged so far counts for a later month; nothing logged before the last call counts after its month. */
  ghost predicate DatesOk(m: Meter, w: World) {
    && (forall i, q: Period :: 0 <= i < |w.lines| && Earlier(w.clock, q) ==> m(w.lines[i], q) == 0)
    && (w.saved.Some? ==>
          forall i, q: Period :: 0 <= i < w.mark <= |w.lines| && Earlier(w.saved.value.period, q) ==> m(w.lines[i], q) == 0)
  }

  /** The stored position of a file is the line that was last when it was accounted. */
  ghost predicate At(w: World, f: Slice)
    requires w.saved.Some? && f.from <= f.to <= |w.lines|
  {
    w.saved.value.inode == Some(f.inode) ==>
      f.from <= w.mark <= f.to && w.saved.value.offset == |Concat(w.lines[f.from..w.mark])|
  }

  ghost predicate SavedOk(m: Meter, w: World)
    requires FilesOk(w)
  {
    w.saved.Some? ==>
      var s := w.saved.value;
      && w.mark <= |w.lines| && w.start <= w.mark
      && (s.inode.Some? ==> s.inode.value < w.nextInode)
      && (s.period == w.clock || Earlier(s.period, w.clock))
      && (s.complete ==> s.continuous)
      && (s.continuous ==> s.inode.Some?)
      && (w.current.Some? ==> At(w, w.current.value))
      && (w.rotated.Some? ==> At(w, w.rotated.value))
      && (s.continuous ==> s.bytes + Sum(m, w.lost, s.period) == Sum(m, w.lines[w.start..w.mark], s.period))
      && (s.complete ==> s.bytes + Sum(m, w.lost, s.period) == Sum(m, w.lines[..w.mark], s.period))
      && (forall q: Period :: Earlier(s.period, q) ==> Sum(m, w.lost, q) == 0)
  }

  ghost predicate Inv(m: Meter, w: World) {
    FilesOk(w) && LinesOk(w) && DatesOk(m, w) && SavedOk(m, w) && (w.saved.None? ==> w.lost == [] && w.start == 0)
  }

  function Beginning(p: Period): World {
    World([], None, None, 0, p, None, 0, 0, [], 0)
  }

  lemma {:induction false} SumZero(m: Meter, lines: seq<string>, p: Period)
    requires forall i :: 0 <= i < |lines| ==> m(lines[i], p) == 0
    ensures Sum(m, lines, p) == 0
  {
    if lines != [] {
      SumZero(m, lines[1..], p);
    }
  }

  lemma SumSplit(m: Meter, lines: seq<string>, a: nat, b: nat, c: nat, p: Period)
    requires a <= b <= c <= |lines|
    ensures Sum(m, lines[a..c], p) == Sum(m, lines[a..b], p) + Sum(m, lines[b..c], p)
  {
    assert lines[a..c] == lines[a..b] + lines[b..c];
    SumCat(m, lines[a..b], lines[b..c], p);
  }

  /** Scanning a file from the position of line k counts exactly the lines from k on. */
  lemma SliceScan(m: Meter, lines: seq<string>, from: nat, k: nat, to: nat, p: Period)
    requires from <= k <= to <= |lines| && forall i :: 0 <= i < |lines| ==> IsLine(lines[i])
    ensures var text := Concat(lines[from..to]);
            var offset := |Concat(lines[from..k])|;
            offset <= |text| && ScanTotal(m, text[offset..], p) == Sum(m, lines[k..to], p)
  {
    assert lines[from..to] == lines[from..k] + lines[k..to];
    ConcatCat(lines[from..k], lines[k..to]);
    var text := Concat(lines[from..to]);
    assert text[|Concat(lines[from..k])|..] == Concat(lines[k..to]);
    ScanLines(m, lines[k..to], p);
  }

  lemma FileScan(m: Meter, w: World, f: Slice, p: Period)
    requires LinesOk(w) && f.from <= f.to <= |w.lines|
    ensures ScanTotal(m, Concat(w.lines[f.from..f.to]), p) == Sum(m, w.lines[f.from..f.to], p)
  {
    ScanLines(m, w.lines[f.from..f.to], p);
  }

  // ----- everything but accounting keeps it -----

  lemma KeepAppend(m: Meter, w: World, lines: seq<string>)
    requires Inv(m, w) && w.current.Some? && DatedAll(m, lines, w.clock)
    ensures Inv(m, Step(m, w, Append(lines)))
  {
    var t := Step(m, w, Append(lines));
    if w.saved.Some? {
      assert t.lines[..w.mark] == w.lines[..w.mark];
      assert t.lines[w.start..w.mark] == w.lines[w.start..w.mark];
      assert t.lines[w.current.value.from..][..0] == [];
      if At(w, w.current.value) && w.current.value.from <= w.mark {
        assert t.lines[w.current.value.from..w.mark] == w.lines[w.current.value.from..w.mark];
      }
      if w.rotated.Some? && At(w, w.rotated.value) && w.rotated.value.from <= w.mark {
        assert t.lines[w.rotated.value.from..w.mark] == w.lines[w.rotated.value.from..w.mark];
      }
    }
  }

  lemma KeepAdvance(m: Meter, w: World, clock: Period)
    requires Inv(m, w) && Earlier(w.clock, clock)
    ensures Inv(m, w.(clock := clock))
  {
    forall i, q: Period | 0 <= i < |w.lines| && Earlier(clock, q) ensures m(w.lines[i], q) == 0 {
      assert Earlier(w.clock, q);
    }
  }

  lemma KeepFiles(m: Meter, w: World, e: Event)
    requires Inv(m, w) && (e.Rotate? || e.RemoveCurrent? || e.RemoveRotated? || e.Create?)
    ensures Inv(m, Step(m, w, e))
  {
    var t := Step(m, w, e);
    assert FilesOk(t) && LinesOk(t) && DatesOk(m, t);
  }

  // ----- accounting -----

  /** What the invariant says of totals, for a call that counted `added` of the `unread` lines and lost the rest. */
  lemma Totals(m: Meter, w: World, p: Period)
    requires Inv(m, w) && w.saved.Some? && p == w.clock
    ensures var s := w.saved.value;
            var total := if s.period == p then s.bytes else 0;
            var complete := if s.period == p then s.complete else s.continuous && s.inode.Some?;
            && (s.continuous ==> total + Sum(m, w.lost, p) == Sum(m, w.lines[w.start..w.mark], p))
            && (complete ==> total + Sum(m, w.lost, p) == Sum(m, w.lines[..w.mark], p))
  {
    var s := w.saved.value;
    if s.period != p {
      SumZero(m, w.lines[w.start..w.mark], p);
      SumZero(m, w.lines[..w.mark], p);
    }
  }

  lemma LostLater(m: Meter, w: World, q: Period)
    requires Inv(m, w) && Earlier(w.clock, q)
    ensures Sum(m, w.lost + Between(w), q) == 0
  {
    SumCat(m, w.lost, Between(w), q);
    SumZero(m, Between(w), q);
    if w.saved.Some? {
      assert Earlier(w.saved.value.period, q);
    }
  }

  lemma KeepFirst(m: Meter, w: World)
    requires Inv(m, w) && w.saved.None?
    ensures SavedOk(m, Step(m, w, Account))
  {
    var t := Step(m, w, Account);
    forall q: Period | Earlier(w.clock, q) ensures Sum(m, t.lost, q) == 0 {
      LostLater(m, w, q);
    }
    if w.current.Some? {
      FileScan(m, w, w.current.value, w.clock);
      assert t.lost == [];
    }
  }

  lemma KeepUnavailable(m: Meter, w: World)
    requires Inv(m, w) && w.saved.Some? && w.current.None?
    ensures SavedOk(m, Step(m, w, Account))
  {
    forall q: Period | Earlier(w.clock, q) ensures Sum(m, w.lost + Between(w), q) == 0 {
      LostLater(m, w, q);
    }
  }

  lemma KeepSameFile(m: Meter, w: World)
    requires Inv(m, w) && w.saved.Some? && w.current.Some? && w.saved.value.inode == Some(w.current.value.inode)
    ensures SavedOk(m, Step(m, w, Account))
  {
    var p, c, n := w.clock, w.current.value, |w.lines|;
    forall q: Period | Earlier(w.clock, q) ensures Sum(m, w.lost + Between(w), q) == 0 {
      LostLater(m, w, q);
    }
    assert At(w, c);
    Totals(m, w, p);
    SliceScan(m, w.lines, c.from, w.mark, n, p);
    SumSplit(m, w.lines, w.start, w.mark, n, p);
    SumSplit(m, w.lines, 0, w.mark, n, p);
    assert w.lines[0..n] == w.lines[..n] && w.lines[0..w.mark] == w.lines[..w.mark];
    assert w.lost + Between(w) == w.lost;
  }

  lemma KeepRotated(m: Meter, w: World)
    requires Inv(m, w) && w.saved.Some? && w.current.Some? && w.rotated.Some?
    requires w.saved.value.inode == Some(w.rotated.value.inode)
    ensures SavedOk(m, Step(m, w, Account))
  {
    var p, c, r, n := w.clock, w.current.value, w.rotated.value, |w.lines|;
    forall q: Period | Earlier(w.clock, q) ensures Sum(m, w.lost + Between(w), q) == 0 {
      LostLater(m, w, q);
    }
    assert At(w, r);
    Totals(m, w, p);
    SliceScan(m, w.lines, r.from, w.mark, r.to, p);
    FileScan(m, w, c, p);
    SumCat(m, w.lost, Between(w), p);
    SumSplit(m, w.lines, w.mark, r.to, n, p);
    SumSplit(m, w.lines, r.to, c.from, n, p);
    SumSplit(m, w.lines, w.start, w.mark, n, p);
    SumSplit(m, w.lines, 0, w.mark, n, p);
    assert w.lines[0..n] == w.lines[..n] && w.lines[0..w.mark] == w.lines[..w.mark];
  }

  lemma KeepGap(m: Meter, w: World)
    requires Inv(m, w) && w.saved.Some? && w.current.Some?
    requires w.saved.value.inode != Some(w.current.value.inode)
    requires w.rotated.Some? ==> w.saved.value.inode != Some(w.rotated.value.inode)
    ensures SavedOk(m, Step(m, w, Account))
  {
    forall q: Period | Earlier(w.clock, q) ensures Sum(m, w.lost + Between(w), q) == 0 {
      LostLater(m, w, q);
    }
  }

  lemma KeepAccount(m: Meter, w: World)
    requires Inv(m, w)
    ensures Inv(m, Step(m, w, Account))
  {
    if w.saved.None? {
      KeepFirst(m, w);
    } else if w.current.None? {
      KeepUnavailable(m, w);
    } else if w.saved.value.inode == Some(w.current.value.inode) {
      KeepSameFile(m, w);
    } else if w.rotated.Some? && w.saved.value.inode == Some(w.rotated.value.inode) {
      KeepRotated(m, w);
    } else {
      KeepGap(m, w);
    }
  }

  lemma StepKeeps(m: Meter, w: World, e: Event)
    requires Inv(m, w)
    ensures Inv(m, Step(m, w, e))
  {
    match e
    case Append(lines) => if w.current.Some? && DatedAll(m, lines, w.clock) { KeepAppend(m, w, lines); }
    case Account => KeepAccount(m, w);
    case Advance(clock) => if Earlier(w.clock, clock) { KeepAdvance(m, w, clock); }
    case _ => KeepFiles(m, w, e);
  }

  ghost function Play(m: Meter, w: World, events: seq<Event>): World
    requires Inv(m, w)
    decreases |events|
  {
    if events == [] then w
    else
      StepKeeps(m, w, events[0]);
      Play(m, Step(m, w, events[0]), events[1..])
  }

  lemma {:induction false} PlayKeeps(m: Meter, w: World, events: seq<Event>)
    requires Inv(m, w)
    ensures Inv(m, Play(m, w, events))
    decreases |events|
  {
    if events != [] {
      StepKeeps(m, w, events[0]);
      PlayKeeps(m, Step(m, w, events[0]), events[1..]);
    }
  }

  ghost predicate JustAccounted(w: World) {
    w.saved.Some? && w.mark == |w.lines|
  }

  /**
   * Over every run of appends, rotations, removals and accounting calls: right after a call, a month reported complete
   * is short of a recount of everything ever logged by exactly the lost lines, so it is exact if and only if those
   * count nothing for that month.
   */
  lemma CompleteMonths(m: Meter, p: Period, events: seq<Event>)
    requires var w := Play(m, Beginning(p), events); JustAccounted(w) && w.saved.value.complete
    ensures var w := Play(m, Beginning(p), events);
            var s := w.saved.value;
            && s.bytes + Sum(m, w.lost, s.period) == Sum(m, w.lines, s.period)
            && (s.bytes == Sum(m, w.lines, s.period) <==> Sum(m, w.lost, s.period) == 0)
  {
    var w := Play(m, Beginning(p), events);
    PlayKeeps(m, Beginning(p), events);
    assert w.lines[..w.mark] == w.lines;
  }

  /** The bytes of the lines whose date is in month p, added up over everything logged. */
  function Recount(f: Format, lines: seq<string>, p: Period): nat {
    if lines == [] then 0 else LineBytes(f, lines[0], p) + Recount(f, lines[1..], p)
  }

  lemma {:induction false} RecountIs(f: Format, lines: seq<string>, p: Period)
    ensures Recount(f, lines, p) == Sum(MeterOf(f), lines, p)
  {
    if lines != [] {
      RecountIs(f, lines[1..], p);
    }
  }

  /** For the agent's own log format and dates: what a month reported complete is short of is what the lost lines carry. */
  lemma CompleteLogs(f: Format, p: Period, events: seq<Event>)
    requires var w := Play(MeterOf(f), Beginning(p), events); JustAccounted(w) && w.saved.value.complete
    ensures var w := Play(MeterOf(f), Beginning(p), events);
            var s := w.saved.value;
            && s.bytes + Recount(f, w.lost, s.period) == Recount(f, w.lines, s.period)
            && (KeepsCurrent(events) ==> s.bytes == Recount(f, w.lines, s.period))
  {
    var w := Play(MeterOf(f), Beginning(p), events);
    CompleteMonths(MeterOf(f), p, events);
    RecountIs(f, w.lost, w.saved.value.period);
    RecountIs(f, w.lines, w.saved.value.period);
    if KeepsCurrent(events) {
      CompleteIsExact(MeterOf(f), p, events);
    }
  }

  ghost predicate Joined(w: World) {
    (w.current.Some? && w.rotated.Some? ==> w.rotated.value.to == w.current.value.from)
    && (w.current.None? ==> w.rotated.None?)
  }

  predicate KeepsCurrent(events: seq<Event>) {
    forall i :: 0 <= i < |events| ==> !events[i].RemoveCurrent?
  }

  lemma {:induction false} NothingLost(m: Meter, w: World, events: seq<Event>)
    requires Inv(m, w) && Joined(w) && KeepsCurrent(events) && w.lost == []
    ensures Play(m, w, events).lost == []
    decreases |events|
  {
    if events != [] {
      StepKeeps(m, w, events[0]);
      var t := Step(m, w, events[0]);
      assert Between(w) == [];
      NothingLost(m, t, events[1..]);
    }
  }

  /** When the current log is only ever rotated, never removed, every month reported complete is exact. */
  lemma CompleteIsExact(m: Meter, p: Period, events: seq<Event>)
    requires KeepsCurrent(events)
    requires var w := Play(m, Beginning(p), events); JustAccounted(w) && w.saved.value.complete
    ensures var w := Play(m, Beginning(p), events); w.saved.value.bytes == Sum(m, w.lines, w.saved.value.period)
  {
    CompleteMonths(m, p, events);
    NothingLost(m, Beginning(p), events);
  }

  ghost predicate Broken(w: World) {
    w.saved.Some? && !w.saved.value.continuous && !w.saved.value.complete
  }

  lemma BrokenStep(m: Meter, w: World, e: Event)
    requires Within(w, w.current) && Within(w, w.rotated) && Broken(w)
    ensures Broken(Step(m, w, e))
  {
  }

  /** Once a gap was seen no later month is ever reported complete. */
  lemma {:induction false} GapIsForGood(m: Meter, w: World, events: seq<Event>)
    requires Inv(m, w) && w.saved.Some? && !w.saved.value.continuous
    ensures Broken(Play(m, w, events))
    decreases |events|
  {
    assert Broken(w);
    if events != [] {
      StepKeeps(m, w, events[0]);
      BrokenStep(m, w, events[0]);
      GapIsForGood(m, Step(m, w, events[0]), events[1..]);
    }
  }

  // ----- at most one rotation between calls -----

  /** No removals, and the log is rotated at most once between two calls. */
  ghost predicate Gentle(m: Meter, w: World, events: seq<Event>)
    requires Inv(m, w)
    decreases |events|
  {
    events == [] ||
    (&& !events[0].RemoveCurrent? && !events[0].RemoveRotated?
     && (events[0].Rotate? ==> w.rotations == 0)
     && (events[0].Account? ==> w.current.Some?)
     && (StepKeeps(m, w, events[0]); Gentle(m, Step(m, w, events[0]), events[1..])))
  }

  ghost predicate Tracking(w: World) {
    && w.rotations <= 1 && w.lost == [] && Joined(w)
    && (w.saved.Some? ==>
          && w.current.Some? && w.saved.value.continuous
          && (w.rotations == 0 ==> w.saved.value.inode == Some(w.current.value.inode))
          && (w.rotations == 1 ==> w.rotated.Some? && w.saved.value.inode == Some(w.rotated.value.inode)))
  }

  lemma TrackingStep(m: Meter, w: World, e: Event)
    requires Inv(m, w) && Tracking(w)
    requires !e.RemoveCurrent? && !e.RemoveRotated? && (e.Rotate? ==> w.rotations == 0) && (e.Account? ==> w.current.Some?)
    ensures Tracking(Step(m, w, e))
  {
    if e.Account? && w.saved.Some? {
      var p := w.clock;
      if w.rotations == 0 {
        assert At(w, w.current.value);
        SliceScan(m, w.lines, w.current.value.from, w.mark, |w.lines|, p);
      } else {
        assert At(w, w.rotated.value);
        SliceScan(m, w.lines, w.rotated.value.from, w.mark, w.rotated.value.to, p);
      }
    }
  }

  lemma {:induction false} TrackingKept(m: Meter, w: World, events: seq<Event>)
    requires Inv(m, w) && Tracking(w) && Gentle(m, w, events)
    ensures Tracking(Play(m, w, events)) && Inv(m, Play(m, w, events))
    decreases |events|
  {
    if events != [] {
      StepKeeps(m, w, events[0]);
      TrackingStep(m, w, events[0]);
      TrackingKept(m, Step(m, w, events[0]), events[1..]);
    }
  }

  /** With at most one rotation between calls the count is exact for everything logged since tracking began. */
  lemma CountIsExactSinceStart(m: Meter, p: Period, events: seq<Event>)
    requires Gentle(m, Beginning(p), events) && JustAccounted(Play(m, Beginning(p), events))
    ensures var w := Play(m, Beginning(p), events);
            w.start <= |w.lines| && w.saved.value.continuous
            && w.saved.value.bytes == Sum(m, w.lines[w.start..], w.saved.value.period)
  {
    TrackingKept(m, Beginning(p), events);
    var w := Play(m, Beginning(p), events);
    assert w.lines[w.start..w.mark] == w.lines[w.start..];
  }

  // ----- a loss the code does not notice -----

  lemma PlayCons(m: Meter, w: World, e: Event, rest: seq<Event>)
    requires Inv(m, w)
    ensures Inv(m, Step(m, w, e)) && Play(m, w, [e] + rest) == Play(m, Step(m, w, e), rest)
  {
    StepKeeps(m, w, e);
    assert ([e] + rest)[1..] == rest;
  }

  const TRACKED := Saved(Period(0, 0), 0, false, true, Some(0), 0, "tracking-started-mid-period")

  /** An empty log, accounted in month p. */
  function Tracked(p: Period): World {
    World([], Some(Slice(0, 0, 0)), None, 1, p, Some(TRACKED.(period := p)), 0, 0, [], 0)
  }

  /** The same in month q, after the log was rotated. */
  function RotatedAway(p: Period, q: Period): World {
    World([], Some(Slice(1, 0, 0)), Some(Slice(0, 0, 0)), 2, q, Some(TRACKED.(period := p)), 0, 0, [], 1)
  }

  lemma LossTracked(m: Meter, p: Period, rest: seq<Event>)
    ensures Inv(m, Tracked(p)) && Play(m, Beginning(p), [Create] + ([Account] + rest)) == Play(m, Tracked(p), rest)
  {
    var w0 := Beginning(p);
    PlayCons(m, w0, Create, [Account] + rest);
    var w1 := Step(m, w0, Create);
    PlayCons(m, w1, Account, rest);
    assert w1.lines[0..0] == [];
    assert Step(m, w1, Account) == Tracked(p);
  }

  lemma LossRotated(m: Meter, p: Period, q: Period, rest: seq<Event>)
    requires Earlier(p, q)
    ensures Inv(m, RotatedAway(p, q))
    ensures Inv(m, Tracked(p)) && Play(m, Tracked(p), [Advance(q)] + ([Rotate] + rest)) == Play(m, RotatedAway(p, q), rest)
  {
    LossTracked(m, p, []);
    PlayCons(m, Tracked(p), Advance(q), [Rotate] + rest);
    PlayCons(m, Step(m, Tracked(p), Advance(q)), Rotate, rest);
  }

  lemma LossJoined(m: Meter, line: string, p: Period, q: Period)
    requires Inv(m, RotatedAway(p, q))
    requires Earlier(p, q) && IsLine(line) && Dated(m, line, q) && m(line, q) > 0
    ensures var w := Play(m, RotatedAway(p, q), [Append([line])] + ([RemoveCurrent] + ([Create] + ([Account] + []))));
            && JustAccounted(w) && w.saved.value.complete && w.saved.value.continuous
            && w.saved.value.period == q && w.saved.value.bytes == 0 && w.lines == [line]
  {
    var w4 := RotatedAway(p, q);
    PlayCons(m, w4, Append([line]), [RemoveCurrent] + ([Create] + ([Account] + [])));
    var w5 := Step(m, w4, Append([line]));
    assert w5.lines == [line];
    PlayCons(m, w5, RemoveCurrent, [Create] + ([Account] + []));
    var w6 := Step(m, w5, RemoveCurrent);
    PlayCons(m, w6, Create, [Account] + []);
    var w7 := Step(m, w6, Create);
    PlayCons(m, w7, Account, []);
    assert w7.lines[0..0] == [] && w7.lines[1..1] == [];
  }

  /**
   * A month is reported complete although a line is missing: the log is rotated, the new log receives a line and is
   * removed, another is created, and the next call joins it to the rotated log as if nothing had been between.
   */
  lemma UnnoticedLoss(m: Meter, line: string, p: Period, q: Period) returns (events: seq<Event>)
    requires Earlier(p, q) && IsLine(line) && Dated(m, line, q) && m(line, q) > 0
    ensures var w := Play(m, Beginning(p), events);
            && JustAccounted(w) && w.saved.value.complete && w.saved.value.continuous
            && w.saved.value.period == q && w.saved.value.bytes == 0
            && Sum(m, w.lines, q) > 0
  {
    var rest := [Append([line])] + ([RemoveCurrent] + ([Create] + ([Account] + [])));
    events := [Create] + ([Account] + ([Advance(q)] + ([Rotate] + rest)));
    LossTracked(m, p, [Advance(q)] + ([Rotate] + rest));
    LossRotated(m, p, q, rest);
    LossJoined(m, line, p, q);
    assert [line][1..] == [];
  }
}
