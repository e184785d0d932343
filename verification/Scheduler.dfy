/** agent/scheduler_agent.py: which scheduled tasks a tick runs, over any sequence of ticks and requests. */
module Scheduler {
  import opened Calendar

  const LIMIT := 500

  /** A row of scheduled_tasks; `allowed` says that its type is one the scheduler runs. */
  datatype Task = Task(
    id: nat,
    enabled: bool,
    requested: bool,
    allowed: bool,
    cadence: Cadence,
    minute: nat,
    hour: nat,
    weekday: nat,
    last: nat)

  /** A run; `asked` is the flag in the row that was read, `cleared` the one that was set back. */
  datatype Run = Run(id: nat, time: nat, cadence: Cadence, asked: bool, cleared: bool)

  predicate AtOrAfter(now: nat, hour: nat, minute: nat) {
    HourOf(now) > hour || (HourOf(now) == hour && MinuteOf(now) >= minute)
  }

  predicate InWindow(row: Task, now: nat) {
    match row.cadence
    case Hourly => MinuteOf(now) >= row.minute
    case Daily => AtOrAfter(now, row.hour, row.minute)
    case Weekly => Weekday(DayOf(now)) == row.weekday && AtOrAfter(now, row.hour, row.minute)
    case Other => false
  }

  /** _due */
  predicate Due(row: Task, now: nat) {
    row.requested || (row.enabled && InWindow(row, now) && !SamePeriod(row.cadence, row.last, now))
  }

  function Eligible(tasks: seq<Task>): seq<Task> {
    if tasks == [] then []
    else
      var t := tasks[|tasks| - 1];
      Eligible(tasks[..|tasks| - 1]) + (if t.enabled || t.requested then [t] else [])
  }

  /** The rows a tick reads. */
  function Rows(tasks: seq<Task>): seq<Task> {
    var e := Eligible(tasks);
    if |e| <= LIMIT then e else e[..LIMIT]
  }

  /** The tasks, with the one of that id changed. */
  function Change(tasks: seq<Task>, id: nat, f: Task -> Task): seq<Task> {
    seq(|tasks|, i requires 0 <= i < |tasks| => if tasks[i].id == id then f(tasks[i]) else tasks[i])
  }

  function Started(now: nat): Task -> Task {
    (t: Task) => t.(requested := false, last := now)
  }

  function Asked(): Task -> Task {
    (t: Task) => t.(requested := true)
  }

  function Switched(on: bool): Task -> Task {
    (t: Task) => t.(enabled := on)
  }

  predicate Flagged(tasks: seq<Task>, id: nat) {
    exists i :: 0 <= i < |tasks| && tasks[i].id == id && tasks[i].requested
  }

  /** The tasks, what has run, and every request that found no other one waiting. */
  datatype World = World(tasks: seq<Task>, log: seq<Run>, made: seq<nat>, clock: nat, pending: seq<Task>)

  /** One row of a tick. */
  function Visit(w: World, row: Task): World {
    if row.allowed && Due(row, w.clock) then
      w.(tasks := Change(w.tasks, row.id, Started(w.clock)),
         log := w.log + [Run(row.id, w.clock, row.cadence, row.requested, Flagged(w.tasks, row.id))])
    else w
  }

  /** Reading the rows; visiting the next one; a tick that breaks off; and what the panel does at any time. */
  datatype Event =
    | Begin(now: nat)
    | Next
    | Abort
    | Ask(id: nat)
    | Switch(id: nat, enabled: bool)

  ghost predicate Legal(w: World, e: Event) {
    match e
    case Begin(now) => w.pending == [] && w.clock <= now && now > 0
    case Next => w.pending != []
    case _ => true
  }

  ghost function Step(w: World, e: Event): World
    requires Legal(w, e)
  {
    match e
    case Begin(now) => w.(clock := now, pending := Rows(w.tasks))
    case Next => Visit(w.(pending := w.pending[1..]), w.pending[0])
    case Abort => w.(pending := [])
    case Ask(id) =>
      if (exists t :: t in w.tasks && t.id == id) && !Flagged(w.tasks, id) then
        w.(tasks := Change(w.tasks, id, Asked()), made := w.made + [id])
      else w
    case Switch(id, on) => w.(tasks := Change(w.tasks, id, Switched(on)))
  }

  // ----- the invariant -----

  ghost predicate DistinctIds(tasks: seq<Task>) {
    forall i, j :: 0 <= i < j < |tasks| ==> tasks[i].id != tasks[j].id
  }

  /** Every run of t so far was at `last` or before. */
  ghost predicate Covered(t: Task, log: seq<Run>, clock: nat) {
    t.last <= clock && forall i :: 0 <= i < |log| && log[i].id == t.id ==> log[i].time <= t.last
  }

  /** A run that was not asked for is the first of its task in its period. */
  ghost predicate FirstInPeriod(log: seq<Run>, j: nat)
    requires j < |log|
  {
    log[j].asked || forall i :: 0 <= i < j && log[i].id == log[j].id ==>
      Period(log[j].cadence, log[i].time) != Period(log[j].cadence, log[j].time)
  }

  ghost predicate Inv(w: World) {
    && DistinctIds(w.tasks) && DistinctIds(w.pending)
    && (forall i :: 0 <= i < |w.tasks| ==> Covered(w.tasks[i], w.log, w.clock))
    && (forall i :: 0 <= i < |w.pending| ==> Covered(w.pending[i], w.log, w.clock))
    && (forall i :: 0 <= i < |w.pending| ==> w.pending[i].requested ==> Flagged(w.tasks, w.pending[i].id))
    && (forall j :: 0 <= j < |w.log| ==> 0 < w.log[j].time && FirstInPeriod(w.log, j))
    && (forall j :: 0 <= j < |w.log| ==> w.log[j].asked ==> w.log[j].cleared)
    && (w.pending != [] ==> w.clock > 0)
  }

  lemma ChangeDistinct(tasks: seq<Task>, id: nat, f: Task -> Task)
    requires DistinctIds(tasks) && forall t :: f(t).id == t.id
    ensures DistinctIds(Change(tasks, id, f))
  {
  }

  lemma {:induction false} EligibleFacts(tasks: seq<Task>)
    requires DistinctIds(tasks)
    ensures DistinctIds(Eligible(tasks))
    ensures forall t :: t in Eligible(tasks) <==> t in tasks && (t.enabled || t.requested)
  {
    if tasks != [] {
      var front, t := tasks[..|tasks| - 1], tasks[|tasks| - 1];
      EligibleFacts(front);
      assert forall u :: u in tasks <==> u in front || u == t;
    }
  }

  /** Rows that were just read agree with the table. */
  lemma BeginKeeps(w: World, now: nat)
    requires Inv(w) && Legal(w, Begin(now))
    ensures Inv(Step(w, Begin(now)))
  {
    EligibleFacts(w.tasks);
    var rows := Rows(w.tasks);
    forall i | 0 <= i < |rows|
      ensures Covered(rows[i], w.log, now) && (rows[i].requested ==> Flagged(w.tasks, rows[i].id))
    {
      assert rows[i] in Eligible(w.tasks);
      var k :| 0 <= k < |w.tasks| && w.tasks[k] == rows[i];
      assert Covered(w.tasks[k], w.log, w.clock);
    }
  }

  lemma FlagStays(tasks: seq<Task>, id: nat, f: Task -> Task, other: nat)
    requires (forall t :: f(t).id == t.id) && Flagged(tasks, other)
    requires id != other || forall t :: f(t).requested == t.requested || f(t).requested
    ensures Flagged(Change(tasks, id, f), other)
  {
    var i :| 0 <= i < |tasks| && tasks[i].id == other && tasks[i].requested;
    assert Change(tasks, id, f)[i].id == other && Change(tasks, id, f)[i].requested;
  }

  /** What the panel does to the table does not touch the invariant. */
  lemma EditKeeps(w: World, id: nat, f: Task -> Task, made: seq<nat>)
    requires Inv(w)
    requires forall t :: f(t).id == t.id && f(t).last == t.last && (f(t).requested == t.requested || f(t).requested)
    ensures Inv(w.(tasks := Change(w.tasks, id, f), made := made))
  {
    ChangeDistinct(w.tasks, id, f);
    forall i | 0 <= i < |w.pending| && w.pending[i].requested
      ensures Flagged(Change(w.tasks, id, f), w.pending[i].id)
    {
      FlagStays(w.tasks, id, f, w.pending[i].id);
    }
    forall i | 0 <= i < |w.tasks| ensures Covered(Change(w.tasks, id, f)[i], w.log, w.clock) {
      assert Covered(w.tasks[i], w.log, w.clock);
    }
  }

  /** A run that was not asked for comes after every run of its task in an earlier period. */
  lemma NewPeriod(row: Task, log: seq<Run>, clock: nat, i: nat)
    requires Covered(row, log, clock) && Due(row, clock) && !row.requested
    requires i < |log| && log[i].id == row.id && log[i].time > 0
    ensures Period(row.cadence, log[i].time) != Period(row.cadence, clock)
  {
    SamePeriodIs(row.cadence, row.last, clock);
    PeriodGrows(row.cadence, log[i].time, row.last);
    PeriodGrows(row.cadence, row.last, clock);
  }

  lemma RunFirst(row: Task, log: seq<Run>, clock: nat, cleared: bool)
    requires Covered(row, log, clock) && Due(row, clock) && clock > 0
    requires forall j :: 0 <= j < |log| ==> 0 < log[j].time && FirstInPeriod(log, j)
    ensures var more := log + [Run(row.id, clock, row.cadence, row.requested, cleared)];
            forall j :: 0 <= j < |more| ==> 0 < more[j].time && FirstInPeriod(more, j)
  {
    var more := log + [Run(row.id, clock, row.cadence, row.requested, cleared)];
    forall j | 0 <= j < |more| ensures 0 < more[j].time && FirstInPeriod(more, j) {
      if j < |log| {
        assert FirstInPeriod(log, j);
      } else if !row.requested {
        forall i | 0 <= i < j && more[i].id == row.id ensures Period(row.cadence, more[i].time) != Period(row.cadence, clock) {
          NewPeriod(row, log, clock, i);
        }
      }
    }
  }

  lemma RunKeeps(w: World, row: Task)
    requires Inv(w) && Covered(row, w.log, w.clock) && w.clock > 0 && row.allowed && Due(row, w.clock)
    requires row.requested ==> Flagged(w.tasks, row.id)
    requires forall i :: 0 <= i < |w.pending| ==> w.pending[i].id != row.id
    ensures Inv(Visit(w, row))
  {
    var v := Visit(w, row);
    ChangeDistinct(w.tasks, row.id, Started(w.clock));
    RunFirst(row, w.log, w.clock, Flagged(w.tasks, row.id));
    forall i | 0 <= i < |w.pending|
      ensures Covered(w.pending[i], v.log, w.clock) && (w.pending[i].requested ==> Flagged(v.tasks, w.pending[i].id))
    {
      assert Covered(w.pending[i], w.log, w.clock);
      if w.pending[i].requested {
        FlagStays(w.tasks, row.id, Started(w.clock), w.pending[i].id);
      }
    }
    forall i | 0 <= i < |w.tasks| ensures Covered(v.tasks[i], v.log, w.clock) {
      assert Covered(w.tasks[i], w.log, w.clock);
      if w.tasks[i].id == row.id {
        TimesBefore(w, row);
      }
    }
  }

  lemma TimesBefore(w: World, row: Task)
    requires Covered(row, w.log, w.clock)
    ensures forall i :: 0 <= i < |w.log| && w.log[i].id == row.id ==> w.log[i].time <= w.clock
  {
  }

  lemma NextKeeps(w: World)
    requires Inv(w) && w.pending != []
    ensures Inv(Step(w, Next))
  {
    var row, rest := w.pending[0], w.pending[1..];
    var v := w.(pending := rest);
    assert forall i :: 0 <= i < |rest| ==> rest[i] == w.pending[i + 1];
    if row.allowed && Due(row, w.clock) {
      RunKeeps(v, row);
    }
  }

  /** Every step keeps the invariant. */
  lemma StepKeeps(w: World, e: Event)
    requires Inv(w) && Legal(w, e)
    ensures Inv(Step(w, e))
  {
    match e {
      case Begin(now) => BeginKeeps(w, now);
      case Next => NextKeeps(w);
      case Abort =>
      case Ask(id) => EditKeeps(w, id, Asked(), w.made + [id]);
      case Switch(id, on) => EditKeeps(w, id, Switched(on), w.made);
    }
  }

  // ----- runs -----

  ghost predicate Runnable(w: World, events: seq<Event>)
    decreases |events|
  {
    events == [] || (Legal(w, events[0]) && Runnable(Step(w, events[0]), events[1..]))
  }

  ghost function Play(w: World, events: seq<Event>): World
    requires Runnable(w, events)
    decreases |events|
  {
    if events == [] then w else Play(Step(w, events[0]), events[1..])
  }

  /** Nothing has run yet, nobody has asked, and no task has run in the future. */
  ghost predicate Fresh(w: World) {
    && w.log == [] && w.made == [] && w.pending == [] && DistinctIds(w.tasks)
    && forall i :: 0 <= i < |w.tasks| ==> w.tasks[i].last <= w.clock && !w.tasks[i].requested
  }

  lemma {:induction false} PlayKeeps(w: World, events: seq<Event>)
    requires Inv(w) && Runnable(w, events)
    ensures Inv(Play(w, events))
    decreases |events|
  {
    if events != [] {
      StepKeeps(w, events[0]);
      PlayKeeps(Step(w, events[0]), events[1..]);
    }
  }

  /**
   * Whatever ticks there are, with a clock that does not go back, and whatever users ask for and switch in between: of two
   * runs of a task in the same hour, day or ISO week, the later one was asked for.
   */
  lemma AtMostOncePerPeriod(w: World, events: seq<Event>, i: nat, j: nat)
    requires Fresh(w) && Runnable(w, events) && i < j < |Play(w, events).log|
    ensures var log := Play(w, events).log;
            log[i].id == log[j].id && !log[j].asked && !log[j].cadence.Other? ==>
              !SamePeriod(log[j].cadence, log[i].time, log[j].time)
  {
    PlayKeeps(w, events);
    var log := Play(w, events).log;
    assert FirstInPeriod(log, j);
    if !log[j].cadence.Other? {
      SamePeriodIs(log[j].cadence, log[i].time, log[j].time);
    }
  }

  // ----- requests are neither lost nor doubled -----

  function Count(ids: seq<nat>, id: nat): nat {
    if ids == [] then 0 else Count(ids[..|ids| - 1], id) + (if ids[|ids| - 1] == id then 1 else 0)
  }

  /** How many runs took a request. */
  function Taken(log: seq<Run>, id: nat): nat {
    if log == [] then 0
    else
      var r := log[|log| - 1];
      Taken(log[..|log| - 1], id) + (if r.id == id && r.cleared then 1 else 0)
  }

  /** Each request that was made was taken by one run, except the one that may be waiting. */
  ghost predicate Balanced(w: World) {
    forall i :: 0 <= i < |w.tasks| ==>
      Count(w.made, w.tasks[i].id) == Taken(w.log, w.tasks[i].id) + (if w.tasks[i].requested then 1 else 0)
  }

  lemma FlagOf(tasks: seq<Task>, i: nat)
    requires DistinctIds(tasks) && i < |tasks|
    ensures Flagged(tasks, tasks[i].id) <==> tasks[i].requested
  {
  }

  lemma AskBalanced(w: World, id: nat)
    requires DistinctIds(w.tasks) && Balanced(w)
    ensures Balanced(Step(w, Ask(id)))
  {
    var v := Step(w, Ask(id));
    forall i | 0 <= i < |v.tasks|
      ensures Count(v.made, v.tasks[i].id) == Taken(v.log, v.tasks[i].id) + (if v.tasks[i].requested then 1 else 0)
    {
      FlagOf(w.tasks, i);
      assert (w.made + [id])[..|w.made|] == w.made;
    }
  }

  lemma VisitBalanced(w: World, row: Task)
    requires DistinctIds(w.tasks) && Balanced(w)
    ensures Balanced(Visit(w, row))
  {
    var v := Visit(w, row);
    forall i | 0 <= i < |v.tasks|
      ensures Count(v.made, v.tasks[i].id) == Taken(v.log, v.tasks[i].id) + (if v.tasks[i].requested then 1 else 0)
    {
      FlagOf(w.tasks, i);
      assert v.log != w.log ==> v.log[..|w.log|] == w.log;
    }
  }

  lemma StepBalanced(w: World, e: Event)
    requires Inv(w) && Balanced(w) && Legal(w, e)
    ensures Balanced(Step(w, e))
  {
    match e {
      case Begin(now) =>
      case Next => VisitBalanced(w.(pending := w.pending[1..]), w.pending[0]);
      case Abort =>
      case Ask(id) => AskBalanced(w, id);
      case Switch(id, on) =>
    }
  }

  lemma {:induction false} PlayBalanced(w: World, events: seq<Event>)
    requires Inv(w) && Balanced(w) && Runnable(w, events)
    ensures Balanced(Play(w, events))
    decreases |events|
  {
    if events != [] {
      StepKeeps(w, events[0]);
      StepBalanced(w, events[0]);
      PlayBalanced(Step(w, events[0]), events[1..]);
    }
  }

  /**
   * Over any run, every request of a task was taken by exactly one run, except one that is still waiting; and every run
   * that was asked for took one.
   */
  lemma RequestsConserved(w: World, events: seq<Event>)
    requires Fresh(w) && Runnable(w, events)
    ensures Balanced(Play(w, events))
    ensures forall j :: 0 <= j < |Play(w, events).log| ==> Play(w, events).log[j].asked ==> Play(w, events).log[j].cleared
  {
    PlayKeeps(w, events);
    PlayBalanced(w, events);
  }

  // ----- one whole tick -----

  function Finish(w: World): World
    decreases |w.pending|
  {
    if w.pending == [] then w else Finish(Visit(w.(pending := w.pending[1..]), w.pending[0]))
  }

  function Ids(log: seq<Run>): seq<nat> {
    seq(|log|, i requires 0 <= i < |log| => log[i].id)
  }

  /** The rows that a tick at `now` runs. */
  function DueIds(rows: seq<Task>, now: nat): seq<nat> {
    if rows == [] then []
    else (if rows[0].allowed && Due(rows[0], now) then [rows[0].id] else []) + DueIds(rows[1..], now)
  }

  /** A tick that is not broken off runs exactly the rows that are due, once each and in order. */
  lemma {:induction false} FinishRuns(w: World)
    ensures Ids(Finish(w).log) == Ids(w.log) + DueIds(w.pending, w.clock)
    decreases |w.pending|
  {
    if w.pending != [] {
      var v := Visit(w.(pending := w.pending[1..]), w.pending[0]);
      FinishRuns(v);
      assert Ids(v.log) == Ids(w.log) + if w.pending[0].allowed && Due(w.pending[0], w.clock) then [w.pending[0].id] else [];
    }
  }

  lemma {:induction false} DueIdsHave(rows: seq<Task>, now: nat, id: nat)
    ensures id in DueIds(rows, now) <==> exists t :: t in rows && t.id == id && t.allowed && Due(t, now)
  {
    if rows != [] {
      DueIdsHave(rows[1..], now, id);
      assert forall t :: t in rows <==> t == rows[0] || t in rows[1..];
    }
  }

  /** With no more rows than a tick reads, a task in its window that has not run in its period is run. */
  lemma WindowRuns(w: World, now: nat, t: Task)
    requires Inv(w) && Legal(w, Begin(now)) && t in w.tasks && |Eligible(w.tasks)| <= LIMIT
    requires t.enabled && t.allowed && InWindow(t, now) && !SamePeriod(t.cadence, t.last, now)
    ensures var v := Finish(Step(w, Begin(now)));
            |v.log| > |w.log| && exists j :: |w.log| <= j < |v.log| && Ids(v.log)[j] == t.id
  {
    var b := Step(w, Begin(now));
    EligibleFacts(w.tasks);
    FinishRuns(b);
    DueIdsHave(b.pending, now, t.id);
    assert t in b.pending;
    var k :| 0 <= k < |DueIds(b.pending, now)| && DueIds(b.pending, now)[k] == t.id;
    assert Ids(Finish(b).log)[|w.log| + k] == t.id;
  }

  class Agent {
    var tasks: seq<Task>
    var log: seq<Run>

    /** tick: the rows are read once, and each that is due is run. */
    method Tick(now: nat)
      modifies this
      ensures var v := Finish(World(old(tasks), old(log), [], now, Rows(old(tasks)))); tasks == v.tasks && log == v.log
    {
      var rows := Rows(tasks);
      var i := 0;
      assert rows[0..] == rows;
      while i < |rows|
        invariant 0 <= i <= |rows|
        invariant Finish(World(tasks, log, [], now, rows[i..])) == Finish(World(old(tasks), old(log), [], now, rows))
      {
        var row := rows[i];
        assert rows[i..][1..] == rows[i + 1..];
        if row.allowed && Due(row, now) {
          RunTask(row, now);
        }
        i := i + 1;
      }
    }

    /** _run_task, up to the first commit; what the run itself does is not modelled. */
    method RunTask(row: Task, now: nat)
      modifies this
      ensures tasks == Change(old(tasks), row.id, Started(now))
      ensures log == old(log) + [Run(row.id, now, row.cadence, row.requested, Flagged(old(tasks), row.id))]
    {
      log := log + [Run(row.id, now, row.cadence, row.requested, Flagged(tasks, row.id))];
      tasks := Change(tasks, row.id, Started(now));
    }
  }
}
