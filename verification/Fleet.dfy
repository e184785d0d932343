/** Node selection for a fleet batch. */
module FleetSelection {

  const MAX_PROBE_BATCH := 25

  /** A fleet_nodes row with the readiness its latest probe gives it, and where its endpoint and credential lead. */
  datatype Node = Node(id: int, owner: string, enabled: bool, ready: bool, target: string, remoteOwner: string)

  datatype Selection = Selected(nodes: seq<Node>) | Refused

  predicate Eligible(n: Node, owner: string, ids: set<int>) {
    n.owner == owner && n.enabled && n.id in ids
  }

  function Keep(table: seq<Node>, owner: string, ids: set<int>): (r: seq<Node>)
    ensures forall n :: n in r <==> n in table && Eligible(n, owner, ids)
  {
    if table == [] then []
    else (if Eligible(table[0], owner, ids) then [table[0]] else []) + Keep(table[1..], owner, ids)
  }

  predicate Distinct(ids: seq<int>) {
    forall i, j :: 0 <= i < j < |ids| ==> ids[i] != ids[j]
  }

  function Ids(nodes: seq<Node>): (r: seq<int>)
    ensures |r| == |nodes|
    ensures forall i :: 0 <= i < |r| ==> r[i] == nodes[i].id
  {
    seq(|nodes|, i requires 0 <= i < |nodes| => nodes[i].id)
  }

  function AsSet(ids: seq<int>): set<int> {
    set i | i in ids
  }

  /** The nodes of `table` (in name order) a request names, or all enabled ones when it names none. */
  function SelectNodes(table: seq<Node>, owner: string, rawIds: seq<int>, all: bool): Selection {
    if all then
      var rows := Keep(table, owner, AsSet(Ids(table)));
      if |rows| > MAX_PROBE_BATCH then Refused else Selected(rows)
    else if !(1 <= |rawIds| <= MAX_PROBE_BATCH) then Refused
    else if (exists i :: 0 <= i < |rawIds| && rawIds[i] < 1) || !Distinct(rawIds) then Refused
    else
      var rows := Keep(table, owner, AsSet(rawIds));
      if |rows| != |rawIds| then Refused else Selected(rows)
  }

  /** Selection for an apply additionally needs every chosen node to be ready. */
  function SelectReady(table: seq<Node>, owner: string, rawIds: seq<int>, all: bool): Selection {
    match SelectNodes(table, owner, rawIds, all)
    case Refused => Refused
    case Selected(nodes) =>
      if forall i :: 0 <= i < |nodes| ==> nodes[i].ready then Selected(nodes) else Refused
  }

  lemma {:induction false} KeepDistinct(table: seq<Node>, owner: string, ids: set<int>)
    requires Distinct(Ids(table))
    ensures Distinct(Ids(Keep(table, owner, ids)))
  {
    if table != [] {
      assert Ids(table)[1..] == Ids(table[1..]);
      KeepDistinct(table[1..], owner, ids);
      var rest := Keep(table[1..], owner, ids);
      forall j | 0 <= j < |rest| ensures rest[j].id != table[0].id {
        assert rest[j] in table[1..];
        var k :| 0 <= k < |table[1..]| && table[1..][k] == rest[j];
        assert Ids(table)[k + 1] == rest[j].id;
        assert Ids(table)[0] == table[0].id;
      }
    }
  }

  lemma {:induction false} DistinctCount(ids: seq<int>)
    ensures |AsSet(ids)| <= |ids|
    ensures Distinct(ids) ==> |AsSet(ids)| == |ids|
  {
    if ids != [] {
      DistinctCount(ids[1..]);
      assert AsSet(ids) == AsSet(ids[1..]) + {ids[0]};
      if Distinct(ids) && ids[0] in ids[1..] {
        assert false;
      }
    }
  }

  lemma SubsetSameSize(a: set<int>, b: set<int>)
    requires a <= b && |a| == |b|
    ensures a == b
  {
    assert |b - a| == |b| - |a|;
  }

  /** An accepted explicit selection is exactly the named nodes: all of them, once each, owned and enabled. */
  lemma SelectedExactly(table: seq<Node>, owner: string, rawIds: seq<int>)
    requires Distinct(Ids(table))
    ensures var s := SelectNodes(table, owner, rawIds, false);
            s.Selected? ==>
              && AsSet(Ids(s.nodes)) == AsSet(rawIds)
              && Distinct(Ids(s.nodes))
              && |s.nodes| == |rawIds| <= MAX_PROBE_BATCH
              && (forall n :: n in s.nodes ==> n in table && n.owner == owner && n.enabled)
  {
    var s := SelectNodes(table, owner, rawIds, false);
    if s.Selected? {
      KeepDistinct(table, owner, AsSet(rawIds));
      DistinctCount(rawIds);
      DistinctCount(Ids(s.nodes));
      forall x | x in AsSet(Ids(s.nodes)) ensures x in AsSet(rawIds) {
        var i :| 0 <= i < |s.nodes| && s.nodes[i].id == x;
        assert s.nodes[i] in s.nodes;
      }
      SubsetSameSize(AsSet(Ids(s.nodes)), AsSet(rawIds));
    }
  }
}

/**
 * Remote apply between panels. Every panel has one job table that holds the jobs it sends and the jobs it receives.
 * The network is not modelled: any request whatever may reach any panel at any time and any number of times, which
 * covers loss, delay, reordering, duplication and requests from other senders. Handlers and senders interleave at
 * every database block and at every provider call, and may stop for good between any two steps.
 */
module Fleet {
  import opened Json
  import opened FleetSelection

  const PLAN_OPERATIONS := {"restart-nginx", "restart-mariadb", "enable-ntp", "system-updates"}
  const REQUEST_TTL_SECONDS := 300
  const HEX := "0123456789abcdef"

  datatype Status = Running | Applied | Failed
  datatype Direction = Inbound | Outbound

  /** request_id is UNIQUE within one panel's table, so a panel and an id name at most one row. */
  datatype Key = Key(panel: string, id: string)

  datatype Row = Row(direction: Direction, owner: string, operation: string, status: Status, result: Dict,
                     node: seq<Node>)

  /** A request after the handler's own trimming; `owner` is the owner of the bearer token, [] when none matches. */
  datatype Request = Request(operation: string, id: string, idempotencyKey: string, issuedAt: int,
                             fingerprint: string, owner: seq<string>)

  datatype Reply = Reply(panel: string, request: Request, http: int, ok: bool, status: seq<Status>, result: Dict)

  datatype Execution = Execution(ok: bool, result: Dict)

  /** One run of _execute_inbound; `called` says whether it reached the local provider. */
  datatype Run = Run(key: Key, operation: string, execution: Execution, called: bool)

  datatype Phase =
    | Lookup
    | Insert
    | Execute
    | Record(execution: Execution)
    | Answer(reply: Reply)
    | Over

  datatype Handler = Handler(panel: string, request: Request, phase: Phase)

  datatype Job = Job(id: string, node: int, status: Status)

  datatype CallResult = CallResult(ok: bool, result: Dict)

  datatype SendPhase =
    | Next
    | Calling(request: Request)
    | Returned(request: Request, outcome: CallResult)
    | Stopped

  datatype Sender = Sender(panel: string, owner: string, operation: string, fingerprint: string, nodes: seq<Node>,
                           jobs: seq<Job>, phase: SendPhase)

  datatype State = State(table: map<Key, Row>, runs: seq<Run>, replies: set<Reply>, handlers: map<nat, Handler>,
                         senders: map<nat, Sender>)

  const INITIAL := State(map[], [], {}, map[], map[])

  // ----- the receiving handler -----

  predicate HexString(s: string, n: nat) {
    |s| == n && forall c :: c in s ==> c in HEX
  }

  function Abs(x: int): int {
    if x < 0 then -x else x
  }

  /** The checks made before the table is read: an HTTP error code, or [] to go on. */
  function Reject(r: Request, now: int): seq<int> {
    if r.owner == [] then [401]
    else if r.operation !in PLAN_OPERATIONS || !HexString(r.id, 32) then [400]
    else if r.idempotencyKey != r.id then [400]
    else if Abs(now - r.issuedAt) > REQUEST_TTL_SECONDS then [409]
    else []
  }

  /** _execute_inbound, given what the local provider would answer if it is called. */
  function ExecuteInbound(operation: string, fingerprint: string, provider: Value): (Execution, bool) {
    if operation !in PLAN_OPERATIONS then (Execution(false, []), false)
    else if operation == "system-updates" && !HexString(fingerprint, 64) then (Execution(false, []), false)
    else if !provider.Obj? || !Truthy(Get(provider.fields, "ok", Null)) then (Execution(false, []), true)
    else (Execution(true, SafeResult(provider)), true)
  }

  function StatusOf(ok: bool): Status {
    if ok then Applied else Failed
  }

  function KeyOf(h: Handler): Key {
    Key(h.panel, h.request.id)
  }

  /** The SELECT sees a row only when it is inbound and has the caller's owner. */
  predicate Visible(s: State, h: Handler) {
    && KeyOf(h) in s.table
    && s.table[KeyOf(h)].direction == Inbound
    && [s.table[KeyOf(h)].owner] == h.request.owner
  }

  /** The answer to a request whose row already exists. */
  function Replay(h: Handler, row: Row): Reply {
    if row.operation != h.request.operation then Reply(h.panel, h.request, 409, false, [], [])
    else Reply(h.panel, h.request, 200, row.status == Applied, [row.status], SafeResult(Obj(row.result)))
  }

  /** The answer after running the operation. */
  function Answered(h: Handler, e: Execution): Reply {
    if e.ok then Reply(h.panel, h.request, 200, true, [Applied], SafeResult(Obj(e.result)))
    else Reply(h.panel, h.request, 503, false, [Failed], [])
  }

  // ----- the sending side -----

  /** Which replies send_apply accepts, and what it makes of them. */
  function SendApply(r: Reply): CallResult {
    if r.http < 200 || r.http >= 300 || !r.ok then CallResult(false, [])
    else CallResult(true, SafeResult(Obj(r.result)))
  }

  // ----- steps -----

  datatype Event =
    | Arrive(h: nat, panel: string, request: Request, now: int)
    | Look(h: nat)
    | Claim(h: nat)
    | Perform(h: nat, provider: Value)
    | Store(h: nat)
    | Send(h: nat)
    | Crash(h: nat)
    | Begin(k: nat, panel: string, owner: string, operation: string, fingerprint: string, nodeTable: seq<Node>,
            rawIds: seq<int>, all: bool)
    | Open(k: nat, id: string, issuedAt: int)
    | Hear(k: nat, reply: Reply)
    | GiveUp(k: nat)
    | Close(k: nat)
    | Abandon(k: nat)

  function Goto(s: State, h: nat, phase: Phase): State
    requires h in s.handlers
  {
    s.(handlers := s.handlers[h := s.handlers[h].(phase := phase)])
  }

  function SendGoto(s: State, k: nat, phase: SendPhase): State
    requires k in s.senders
  {
    s.(senders := s.senders[k := s.senders[k].(phase := phase)])
  }

  function DoArrive(s: State, h: nat, panel: string, request: Request, now: int): State {
    if h in s.handlers then s
    else
      var bad := Reject(request, now);
      var phase := if bad == [] then Lookup else Answer(Reply(panel, request, bad[0], false, [], []));
      s.(handlers := s.handlers[h := Handler(panel, request, phase)])
  }

  function DoLook(s: State, h: nat): State
    requires h in s.handlers && s.handlers[h].phase.Lookup?
  {
    var p := s.handlers[h];
    Goto(s, h, if Visible(s, p) then Answer(Replay(p, s.table[KeyOf(p)])) else Insert)
  }

  /** The INSERT: a taken request id violates the UNIQUE constraint and the handler dies with a server error. */
  function DoClaim(s: State, h: nat): State
    requires h in s.handlers && s.handlers[h].phase.Insert? && s.handlers[h].request.owner != []
  {
    var p := s.handlers[h];
    if KeyOf(p) in s.table then Goto(s, h, Answer(Reply(p.panel, p.request, 500, false, [], [])))
    else
      var row := Row(Inbound, p.request.owner[0], p.request.operation, Running, [], []);
      Goto(s.(table := s.table[KeyOf(p) := row]), h, Execute)
  }

  function DoPerform(s: State, h: nat, provider: Value): State
    requires h in s.handlers && s.handlers[h].phase.Execute?
  {
    var p := s.handlers[h];
    var (e, called) := ExecuteInbound(p.request.operation, p.request.fingerprint, provider);
    Goto(s.(runs := s.runs + [Run(KeyOf(p), p.request.operation, e, called)]), h, Record(e))
  }

  /** The UPDATE by request id. */
  function DoStore(s: State, h: nat): State
    requires h in s.handlers && s.handlers[h].phase.Record?
  {
    var p := s.handlers[h];
    var e := p.phase.execution;
    var table := if KeyOf(p) !in s.table then s.table
                 else s.table[KeyOf(p) := s.table[KeyOf(p)].(status := StatusOf(e.ok),
                                                             result := SafeResult(Obj(e.result)))];
    Goto(s.(table := table), h, Answer(Answered(p, e)))
  }

  function DoSend(s: State, h: nat): State
    requires h in s.handlers && s.handlers[h].phase.Answer?
  {
    Goto(s.(replies := s.replies + {s.handlers[h].phase.reply}), h, Over)
  }

  function DoBegin(s: State, k: nat, panel: string, owner: string, operation: string, fingerprint: string,
                   nodeTable: seq<Node>, rawIds: seq<int>, all: bool): State {
    var chosen := SelectReady(nodeTable, owner, rawIds, all);
    if k in s.senders || operation !in PLAN_OPERATIONS || chosen.Refused?
       || (operation == "system-updates" && !HexString(fingerprint, 64)) then s
    else s.(senders := s.senders[k := Sender(panel, owner, operation, fingerprint, chosen.nodes, [], Next)])
  }

  /** Insert the outbound row of the next node; a taken id aborts the call. */
  function DoOpen(s: State, k: nat, id: string, issuedAt: int): State
    requires k in s.senders && s.senders[k].phase.Next? && |s.senders[k].jobs| < |s.senders[k].nodes|
  {
    var p := s.senders[k];
    var node := p.nodes[|p.jobs|];
    var key := Key(p.panel, id);
    if key in s.table then SendGoto(s, k, Stopped)
    else
      var request := Request(p.operation, id, id, issuedAt, p.fingerprint, [node.remoteOwner]);
      var row := Row(Outbound, p.owner, p.operation, Running, [], [node]);
      SendGoto(s.(table := s.table[key := row]), k, Calling(request))
  }

  /** The call returns: a reply some handler of the target gave to this very request, or nothing usable. */
  function DoHear(s: State, k: nat, reply: Reply): State
    requires k in s.senders && s.senders[k].phase.Calling? && |s.senders[k].jobs| < |s.senders[k].nodes|
  {
    var p := s.senders[k];
    if reply in s.replies && reply.request == p.phase.request && reply.panel == p.nodes[|p.jobs|].target then
      SendGoto(s, k, Returned(p.phase.request, SendApply(reply)))
    else s
  }

  /** The UPDATE of the outbound row and the entry in the list of jobs. */
  function DoClose(s: State, k: nat): State
    requires k in s.senders && s.senders[k].phase.Returned? && |s.senders[k].jobs| < |s.senders[k].nodes|
  {
    var p := s.senders[k];
    var id, outcome := p.phase.request.id, p.phase.outcome;
    var key := Key(p.panel, id);
    var table := if key !in s.table then s.table
                 else s.table[key := s.table[key].(status := StatusOf(outcome.ok),
                                                   result := SafeResult(Obj(outcome.result)))];
    var jobs := p.jobs + [Job(id, p.nodes[|p.jobs|].id, StatusOf(outcome.ok))];
    s.(table := table, senders := s.senders[k := p.(jobs := jobs, phase := Next)])
  }

  function Step(s: State, e: Event): State {
    match e
    case Arrive(h, panel, request, now) => DoArrive(s, h, panel, request, now)
    case Look(h) => if h in s.handlers && s.handlers[h].phase.Lookup? then DoLook(s, h) else s
    case Claim(h) =>
      if h in s.handlers && s.handlers[h].phase.Insert? && s.handlers[h].request.owner != [] then DoClaim(s, h) else s
    case Perform(h, provider) =>
      if h in s.handlers && s.handlers[h].phase.Execute? then DoPerform(s, h, provider) else s
    case Store(h) => if h in s.handlers && s.handlers[h].phase.Record? then DoStore(s, h) else s
    case Send(h) => if h in s.handlers && s.handlers[h].phase.Answer? then DoSend(s, h) else s
    case Crash(h) => if h in s.handlers then Goto(s, h, Over) else s
    case Begin(k, panel, owner, operation, fingerprint, nodeTable, rawIds, all) =>
      DoBegin(s, k, panel, owner, operation, fingerprint, nodeTable, rawIds, all)
    case Open(k, id, issuedAt) =>
      if k in s.senders && s.senders[k].phase.Next? && |s.senders[k].jobs| < |s.senders[k].nodes|
      then DoOpen(s, k, id, issuedAt) else s
    case Hear(k, reply) =>
      if k in s.senders && s.senders[k].phase.Calling? && |s.senders[k].jobs| < |s.senders[k].nodes|
      then DoHear(s, k, reply) else s
    case GiveUp(k) =>
      if k in s.senders && s.senders[k].phase.Calling?
      then SendGoto(s, k, Returned(s.senders[k].phase.request, CallResult(false, []))) else s
    case Close(k) =>
      if k in s.senders && s.senders[k].phase.Returned? && |s.senders[k].jobs| < |s.senders[k].nodes|
      then DoClose(s, k) else s
    case Abandon(k) => if k in s.senders then SendGoto(s, k, Stopped) else s
  }

  function Play(s: State, events: seq<Event>): State
    decreases |events|
  {
    if events == [] then s else Play(Step(s, events[0]), events[1..])
  }

  // ----- the invariant -----

  ghost predicate Owning(h: Handler) {
    h.phase.Execute? || h.phase.Record?
  }

  ghost predicate HasRun(runs: seq<Run>, key: Key) {
    exists i :: 0 <= i < |runs| && runs[i].key == key
  }

  /** The row of `key` records that `operation` ran here and reported ok with `result`. */
  ghost predicate DoneHere(table: map<Key, Row>, key: Key, operation: string, result: Dict) {
    key in table && table[key].direction == Inbound && table[key].status == Applied
    && table[key].operation == operation && table[key].result == result
  }

  ghost predicate HandlerOk(table: map<Key, Row>, runs: seq<Run>, h: Handler) {
    && (h.phase.Lookup? || h.phase.Insert? || Owning(h) ==> h.request.owner != [])
    && (Owning(h) ==>
          && KeyOf(h) in table
          && table[KeyOf(h)] == Row(Inbound, h.request.owner[0], h.request.operation, Running, [], []))
    && (h.phase.Execute? ==> !HasRun(runs, KeyOf(h)))
    && (h.phase.Record? ==>
          exists i :: 0 <= i < |runs| && runs[i].key == KeyOf(h) && runs[i].execution == h.phase.execution)
    && (h.phase.Answer? ==> ReplyOk(table, h.phase.reply))
  }

  ghost predicate ReplyOk(table: map<Key, Row>, r: Reply) {
    && Safe(r.result)
    && (r.ok ==>
          && r.http == 200 && r.status == [Applied]
          && DoneHere(table, Key(r.panel, r.request.id), r.request.operation, r.result))
  }

  ghost predicate RunOk(table: map<Key, Row>, r: Run) {
    && r.key in table
    && table[r.key].direction == Inbound
    && table[r.key].operation == r.operation
    && Safe(r.execution.result)
    && (r.execution.ok ==> r.called && r.operation in PLAN_OPERATIONS)
    && (table[r.key].status != Running ==>
          table[r.key].status == StatusOf(r.execution.ok) && table[r.key].result == r.execution.result)
  }

  ghost predicate RowOk(table: map<Key, Row>, runs: seq<Run>, k: Key)
    requires k in table
  {
    var row := table[k];
    && Safe(row.result)
    && (row.direction == Inbound && row.status != Running ==> HasRun(runs, k))
    && (row.direction == Outbound ==> |row.node| == 1)
    && (row.direction == Outbound && row.status == Applied ==>
          DoneHere(table, Key(row.node[0].target, k.id), row.operation, row.result))
  }

  ghost predicate JobOk(table: map<Key, Row>, p: Sender, i: nat)
    requires i < |p.jobs| <= |p.nodes|
  {
    var key := Key(p.panel, p.jobs[i].id);
    && key in table
    && table[key].direction == Outbound
    && table[key].operation == p.operation
    && table[key].node == [p.nodes[i]]
    && table[key].status == p.jobs[i].status != Running
    && p.jobs[i].node == p.nodes[i].id
  }

  ghost predicate Waiting(p: Sender) {
    p.phase.Calling? || p.phase.Returned?
  }

  ghost function WaitKey(p: Sender): Key
    requires Waiting(p)
  {
    Key(p.panel, p.phase.request.id)
  }

  ghost predicate SenderOk(table: map<Key, Row>, p: Sender) {
    && |p.jobs| <= |p.nodes|
    && (forall i :: 0 <= i < |p.jobs| ==> JobOk(table, p, i))
    && (forall i, j :: 0 <= i < j < |p.jobs| ==> p.jobs[i].id != p.jobs[j].id)
    && (Waiting(p) ==>
          && |p.jobs| < |p.nodes|
          && WaitKey(p) in table
          && table[WaitKey(p)] == Row(Outbound, p.owner, p.operation, Running, [], [p.nodes[|p.jobs|]])
          && p.phase.request.operation == p.operation)
    && (p.phase.Returned? ==>
          && Safe(p.phase.outcome.result)
          && (p.phase.outcome.ok ==>
            DoneHere(table, Key(p.nodes[|p.jobs|].target, p.phase.request.id), p.operation, p.phase.outcome.result)))
  }

  ghost predicate HandlersOk(table: map<Key, Row>, runs: seq<Run>, handlers: map<nat, Handler>) {
    && (forall h :: h in handlers ==> HandlerOk(table, runs, handlers[h]))
    && (forall g, h :: g in handlers && h in handlers && g != h && Owning(handlers[g]) && Owning(handlers[h])
          ==> KeyOf(handlers[g]) != KeyOf(handlers[h]))
  }

  ghost predicate RunsOk(table: map<Key, Row>, runs: seq<Run>) {
    && (forall i :: 0 <= i < |runs| ==> RunOk(table, runs[i]))
    && (forall i, j :: 0 <= i < j < |runs| ==> runs[i].key != runs[j].key)
  }

  ghost predicate RowsOk(table: map<Key, Row>, runs: seq<Run>) {
    forall k :: k in table ==> RowOk(table, runs, k)
  }

  ghost predicate RepliesOk(table: map<Key, Row>, replies: set<Reply>) {
    forall r :: r in replies ==> ReplyOk(table, r)
  }

  ghost predicate SendersOk(table: map<Key, Row>, senders: map<nat, Sender>) {
    && (forall k :: k in senders ==> SenderOk(table, senders[k]))
    && (forall j, k :: j in senders && k in senders && j != k && Waiting(senders[j]) && Waiting(senders[k])
          ==> WaitKey(senders[j]) != WaitKey(senders[k]))
  }

  ghost predicate Inv(s: State) {
    && HandlersOk(s.table, s.runs, s.handlers)
    && RunsOk(s.table, s.runs)
    && RowsOk(s.table, s.runs)
    && RepliesOk(s.table, s.replies)
    && SendersOk(s.table, s.senders)
  }

  /** Rows are never removed, keep who asked for what, and a row that is no longer running never changes again. */
  ghost predicate Grows(before: map<Key, Row>, after: map<Key, Row>) {
    forall k :: k in before ==>
      && k in after
      && (before[k].status != Running ==> after[k] == before[k])
      && after[k].(status := Running, result := []) == before[k].(status := Running, result := [])
  }

  // ----- what a write to one row leaves alone -----

  ghost predicate Writes(before: map<Key, Row>, after: map<Key, Row>, key: Key) {
    && key in after
    && after == before[key := after[key]]
    && Grows(before, after)
  }

  lemma ReplyFrame(before: map<Key, Row>, after: map<Key, Row>, r: Reply)
    requires Grows(before, after) && ReplyOk(before, r)
    ensures ReplyOk(after, r)
  {
  }

  lemma SenderFrame(before: map<Key, Row>, after: map<Key, Row>, key: Key, p: Sender)
    requires Writes(before, after, key) && SenderOk(before, p)
    requires Waiting(p) ==> WaitKey(p) != key
    ensures SenderOk(after, p)
  {
    forall i | 0 <= i < |p.jobs| ensures JobOk(after, p, i) {
      assert JobOk(before, p, i);
    }
  }

  lemma HandlerFrame(before: map<Key, Row>, after: map<Key, Row>, key: Key, runs: seq<Run>, h: Handler)
    requires Writes(before, after, key) && HandlerOk(before, runs, h)
    requires Owning(h) ==> KeyOf(h) != key
    ensures HandlerOk(after, runs, h)
  {
  }

  lemma HandlerRuns(table: map<Key, Row>, runs: seq<Run>, run: Run, h: Handler)
    requires HandlerOk(table, runs, h)
    requires Owning(h) ==> KeyOf(h) != run.key
    ensures HandlerOk(table, runs + [run], h)
  {
    if h.phase.Record? {
      var i :| 0 <= i < |runs| && runs[i].key == KeyOf(h) && runs[i].execution == h.phase.execution;
      assert (runs + [run])[i] == runs[i];
    }
  }

  lemma RowFrame(before: map<Key, Row>, after: map<Key, Row>, key: Key, runs: seq<Run>, k: Key)
    requires Writes(before, after, key) && k in before && k != key && RowOk(before, runs, k)
    ensures RowOk(after, runs, k)
  {
  }

  lemma RepliesFrame(s: State, after: map<Key, Row>)
    requires Inv(s) && Grows(s.table, after)
    ensures RepliesOk(after, s.replies)
  {
    forall r | r in s.replies ensures ReplyOk(after, r) {
      ReplyFrame(s.table, after, r);
    }
  }

  lemma SendersFrame(s: State, after: map<Key, Row>, key: Key)
    requires Inv(s) && Writes(s.table, after, key)
    requires key in s.table ==> s.table[key].direction == Inbound
    ensures SendersOk(after, s.senders)
  {
    forall k | k in s.senders ensures SenderOk(after, s.senders[k]) {
      SenderFrame(s.table, after, key, s.senders[k]);
    }
  }

  lemma HandlersFrame(s: State, after: map<Key, Row>, key: Key)
    requires Inv(s) && Writes(s.table, after, key)
    requires key in s.table ==> s.table[key].direction == Outbound
    ensures HandlersOk(after, s.runs, s.handlers)
  {
    forall h | h in s.handlers ensures HandlerOk(after, s.runs, s.handlers[h]) {
      HandlerFrame(s.table, after, key, s.runs, s.handlers[h]);
    }
  }

  lemma RowsFrame(s: State, after: map<Key, Row>, key: Key)
    requires Inv(s) && Writes(s.table, after, key) && RowOk(after, s.runs, key)
    ensures RowsOk(after, s.runs)
  {
    forall k | k in after ensures RowOk(after, s.runs, k) {
      if k != key {
        RowFrame(s.table, after, key, s.runs, k);
      }
    }
  }

  // ----- every step keeps it -----

  lemma KeepLook(s: State, h: nat)
    requires Inv(s) && h in s.handlers && s.handlers[h].phase.Lookup?
    ensures Inv(DoLook(s, h))
  {
    var p := s.handlers[h];
    if Visible(s, p) {
      SafeResultFixed(s.table[KeyOf(p)].result);
    }
  }

  lemma KeepClaim(s: State, h: nat)
    requires Inv(s) && h in s.handlers && s.handlers[h].phase.Insert? && s.handlers[h].request.owner != []
    ensures Inv(DoClaim(s, h)) && Grows(s.table, DoClaim(s, h).table)
  {
    var key := KeyOf(s.handlers[h]);
    if key !in s.table {
      var t := DoClaim(s, h);
      ClaimFresh(s, t.table, key);
      HandlersFrame(s, t.table, key);
      assert HandlerOk(t.table, t.runs, t.handlers[h]);
    }
  }

  /** Adding a running row without a run disturbs nothing. */
  lemma ClaimFresh(s: State, after: map<Key, Row>, key: Key)
    requires Inv(s) && key !in s.table && Writes(s.table, after, key)
    requires after[key].status == Running && after[key].result == []
    requires after[key].direction == Outbound ==> |after[key].node| == 1
    ensures RepliesOk(after, s.replies) && SendersOk(after, s.senders) && RowsOk(after, s.runs)
    ensures RunsOk(after, s.runs) && !HasRun(s.runs, key)
  {
    RepliesFrame(s, after);
    SendersFrame(s, after, key);
    RowsFrame(s, after, key);
  }

  lemma KeepPerform(s: State, h: nat, provider: Value)
    requires Inv(s) && h in s.handlers && s.handlers[h].phase.Execute?
    ensures Inv(DoPerform(s, h, provider))
  {
    SafeResultIsSafe(provider);
    var t := DoPerform(s, h, provider);
    var run := t.runs[|s.runs|];
    forall g | g in s.handlers && g != h ensures HandlerOk(t.table, t.runs, s.handlers[g]) {
      HandlerRuns(s.table, s.runs, run, s.handlers[g]);
    }
    assert t.runs[|s.runs|].key == KeyOf(s.handlers[h]);
    forall k | k in s.table ensures RowOk(t.table, t.runs, k) {
      if HasRun(s.runs, k) {
        var i :| 0 <= i < |s.runs| && s.runs[i].key == k;
        assert t.runs[i].key == k;
      }
    }
  }

  lemma StoreRuns(before: map<Key, Row>, after: map<Key, Row>, key: Key, runs: seq<Run>, i: nat)
    requires RunsOk(before, runs) && Writes(before, after, key) && i < |runs| && runs[i].key == key
    requires RunOk(after, runs[i])
    ensures RunsOk(after, runs)
  {
    forall j | 0 <= j < |runs| ensures RunOk(after, runs[j]) {
      if j != i {
        assert runs[if i < j then i else j].key != runs[if i < j then j else i].key;
        assert RunOk(before, runs[j]);
      }
    }
  }

  lemma StoreHandlers(s: State, after: map<Key, Row>, h: nat)
    requires Inv(s) && h in s.handlers && Owning(s.handlers[h]) && Writes(s.table, after, KeyOf(s.handlers[h]))
    ensures forall g :: g in s.handlers && g != h ==> HandlerOk(after, s.runs, s.handlers[g])
  {
    forall g | g in s.handlers && g != h ensures HandlerOk(after, s.runs, s.handlers[g]) {
      HandlerFrame(s.table, after, KeyOf(s.handlers[h]), s.runs, s.handlers[g]);
    }
  }

  /** The row a handler records is the one it claimed, and its run is the only one of that key. */
  lemma StoreRow(s: State, h: nat)
    requires Inv(s) && h in s.handlers && s.handlers[h].phase.Record?
    ensures var key, t := KeyOf(s.handlers[h]), DoStore(s, h);
            && key in s.table && s.table[key].direction == Inbound
            && Writes(s.table, t.table, key)
            && RunsOk(t.table, s.runs)
            && RowOk(t.table, s.runs, key)
            && ReplyOk(t.table, t.handlers[h].phase.reply)
  {
    var p, t := s.handlers[h], DoStore(s, h);
    var e, key := p.phase.execution, KeyOf(p);
    assert HandlerOk(s.table, s.runs, p);
    var i :| 0 <= i < |s.runs| && s.runs[i].key == key && s.runs[i].execution == e;
    assert RunOk(s.table, s.runs[i]);
    SafeResultFixed(e.result);
    assert t.table[key] == s.table[key].(status := StatusOf(e.ok), result := e.result);
    StoreRuns(s.table, t.table, key, s.runs, i);
  }

  lemma KeepStore(s: State, h: nat)
    requires Inv(s) && h in s.handlers && s.handlers[h].phase.Record?
    ensures Inv(DoStore(s, h)) && Grows(s.table, DoStore(s, h).table)
  {
    var t, key := DoStore(s, h), KeyOf(s.handlers[h]);
    StoreRow(s, h);
    RepliesFrame(s, t.table);
    SendersFrame(s, t.table, key);
    RowsFrame(s, t.table, key);
    StoreHandlers(s, t.table, h);
    assert HandlersOk(t.table, t.runs, t.handlers);
  }

  /** Moving a sender to another phase keeps its finished jobs. */
  lemma SenderMoves(table: map<Key, Row>, p: Sender, q: Sender)
    requires SenderOk(table, p) && q == p.(phase := q.phase)
    ensures forall i :: 0 <= i < |q.jobs| ==> JobOk(table, q, i)
  {
    forall i | 0 <= i < |q.jobs| ensures JobOk(table, q, i) {
      assert JobOk(table, p, i);
    }
  }

  lemma KeepOpen(s: State, k: nat, id: string, issuedAt: int)
    requires Inv(s) && k in s.senders && s.senders[k].phase.Next? && |s.senders[k].jobs| < |s.senders[k].nodes|
    ensures Inv(DoOpen(s, k, id, issuedAt)) && Grows(s.table, DoOpen(s, k, id, issuedAt).table)
  {
    var key := Key(s.senders[k].panel, id);
    var t := DoOpen(s, k, id, issuedAt);
    if key in s.table {
      KeepSendGoto(s, k, Stopped);
    } else {
      ClaimFresh(s, t.table, key);
      HandlersFrame(s, t.table, key);
      SenderMoves(t.table, s.senders[k], t.senders[k]);
      assert SenderOk(t.table, t.senders[k]);
      assert SendersOk(t.table, t.senders);
    }
  }

  lemma KeepHear(s: State, k: nat, reply: Reply)
    requires Inv(s) && k in s.senders && s.senders[k].phase.Calling? && |s.senders[k].jobs| < |s.senders[k].nodes|
    ensures Inv(DoHear(s, k, reply))
  {
    if reply in s.replies {
      SafeResultFixed(reply.result);
    }
    SenderMoves(s.table, s.senders[k], DoHear(s, k, reply).senders[k]);
  }

  lemma KeepSendGoto(s: State, k: nat, phase: SendPhase)
    requires Inv(s) && k in s.senders
    requires phase.Stopped?
             || (s.senders[k].phase.Calling? && phase == Returned(s.senders[k].phase.request, CallResult(false, [])))
    ensures Inv(SendGoto(s, k, phase))
  {
    SenderMoves(s.table, s.senders[k], SendGoto(s, k, phase).senders[k]);
  }

  /** The sender that closes a call: its new job is the finished row, and its id is new among its jobs. */
  lemma CloseSender(s: State, k: nat)
    requires Inv(s) && k in s.senders && s.senders[k].phase.Returned? && |s.senders[k].jobs| < |s.senders[k].nodes|
    requires Writes(s.table, DoClose(s, k).table, WaitKey(s.senders[k]))
    ensures SenderOk(DoClose(s, k).table, DoClose(s, k).senders[k])
  {
    var p, t := s.senders[k], DoClose(s, k);
    var q := t.senders[k];
    forall i | 0 <= i < |p.jobs| ensures JobOk(t.table, q, i) && p.jobs[i].id != p.phase.request.id {
      assert JobOk(s.table, p, i);
    }
    assert JobOk(t.table, q, |p.jobs|);
  }

  lemma KeepClose(s: State, k: nat)
    requires Inv(s) && k in s.senders && s.senders[k].phase.Returned? && |s.senders[k].jobs| < |s.senders[k].nodes|
    ensures Inv(DoClose(s, k)) && Grows(s.table, DoClose(s, k).table)
  {
    var p, t := s.senders[k], DoClose(s, k);
    var key := WaitKey(p);
    assert SenderOk(s.table, p);
    SafeResultFixed(p.phase.outcome.result);
    assert Writes(s.table, t.table, key);
    CloseSender(s, k);
    forall j | j in s.senders && j != k ensures SenderOk(t.table, s.senders[j]) {
      SenderFrame(s.table, t.table, key, s.senders[j]);
    }
    assert SendersOk(t.table, t.senders);
    CloseRest(s, k);
  }

  lemma CloseRest(s: State, k: nat)
    requires Inv(s) && k in s.senders && s.senders[k].phase.Returned? && |s.senders[k].jobs| < |s.senders[k].nodes|
    requires Writes(s.table, DoClose(s, k).table, WaitKey(s.senders[k]))
    ensures var t := DoClose(s, k);
            HandlersOk(t.table, t.runs, t.handlers) && RunsOk(t.table, t.runs) && RowsOk(t.table, t.runs)
            && RepliesOk(t.table, t.replies)
  {
    var p, t := s.senders[k], DoClose(s, k);
    var key := WaitKey(p);
    assert SenderOk(s.table, p);
    SafeResultFixed(p.phase.outcome.result);
    RepliesFrame(s, t.table);
    HandlersFrame(s, t.table, key);
    RowsFrame(s, t.table, key);
  }

  lemma KeepGoto(s: State, h: nat, phase: Phase)
    requires Inv(s) && h in s.handlers && phase == Over
    ensures Inv(Goto(s, h, phase))
  {
  }

  lemma KeepArrive(s: State, h: nat, panel: string, request: Request, now: int)
    requires Inv(s)
    ensures Inv(DoArrive(s, h, panel, request, now))
  {
  }

  lemma KeepSend(s: State, h: nat)
    requires Inv(s) && h in s.handlers && s.handlers[h].phase.Answer?
    ensures Inv(DoSend(s, h))
  {
    KeepGoto(s, h, Over);
    assert HandlerOk(s.table, s.runs, s.handlers[h]);
  }

  lemma KeepBegin(s: State, k: nat, panel: string, owner: string, operation: string, fingerprint: string,
                  nodeTable: seq<Node>, rawIds: seq<int>, all: bool)
    requires Inv(s)
    ensures Inv(DoBegin(s, k, panel, owner, operation, fingerprint, nodeTable, rawIds, all))
    ensures DoBegin(s, k, panel, owner, operation, fingerprint, nodeTable, rawIds, all).table == s.table
  {
  }

  lemma StepKeeps(s: State, e: Event)
    requires Inv(s)
    ensures Inv(Step(s, e)) && Grows(s.table, Step(s, e).table)
  {
    if e.Begin? || e.Open? || e.Hear? || e.GiveUp? || e.Close? || e.Abandon? {
      SenderStepKeeps(s, e);
    } else {
      HandlerStepKeeps(s, e);
    }
  }

  lemma HandlerStepKeeps(s: State, e: Event)
    requires Inv(s) && (e.Arrive? || e.Look? || e.Claim? || e.Perform? || e.Store? || e.Send? || e.Crash?)
    ensures Inv(Step(s, e)) && Grows(s.table, Step(s, e).table)
  {
    match e
    case Arrive(h, panel, request, now) => KeepArrive(s, h, panel, request, now);
    case Look(h) => if Step(s, e) != s { KeepLook(s, h); }
    case Claim(h) => if Step(s, e) != s { KeepClaim(s, h); }
    case Perform(h, provider) => if Step(s, e) != s { KeepPerform(s, h, provider); }
    case Store(h) => if Step(s, e) != s { KeepStore(s, h); }
    case Send(h) => if Step(s, e) != s { KeepSend(s, h); }
    case Crash(h) => if Step(s, e) != s { KeepGoto(s, h, Over); }
  }

  lemma SenderStepKeeps(s: State, e: Event)
    requires Inv(s) && (e.Begin? || e.Open? || e.Hear? || e.GiveUp? || e.Close? || e.Abandon?)
    ensures Inv(Step(s, e)) && Grows(s.table, Step(s, e).table)
  {
    match e
    case Begin(k, panel, owner, operation, fingerprint, nodeTable, rawIds, all) =>
      KeepBegin(s, k, panel, owner, operation, fingerprint, nodeTable, rawIds, all);
    case Open(k, id, issuedAt) => if Step(s, e) != s { KeepOpen(s, k, id, issuedAt); }
    case Hear(k, reply) => if Step(s, e) != s { KeepHear(s, k, reply); }
    case GiveUp(k) =>
      if Step(s, e) != s {
        KeepSendGoto(s, k, Returned(s.senders[k].phase.request, CallResult(false, [])));
      }
    case Close(k) => if Step(s, e) != s { KeepClose(s, k); }
    case Abandon(k) => if Step(s, e) != s { KeepSendGoto(s, k, Stopped); }
  }

  lemma {:induction false} PlayKeeps(s: State, events: seq<Event>)
    requires Inv(s)
    ensures Inv(Play(s, events)) && Grows(s.table, Play(s, events).table)
    decreases |events|
  {
    if events != [] {
      StepKeeps(s, events[0]);
      PlayKeeps(Step(s, events[0]), events[1..]);
    }
  }

  // ----- what holds of every run -----

  ghost function Count(runs: seq<Run>, key: Key): nat {
    if runs == [] then 0 else (if runs[|runs| - 1].key == key then 1 else 0) + Count(runs[..|runs| - 1], key)
  }

  lemma {:induction false} CountDistinct(runs: seq<Run>, key: Key)
    requires forall i, j :: 0 <= i < j < |runs| ==> runs[i].key != runs[j].key
    ensures Count(runs, key) == if HasRun(runs, key) then 1 else 0
  {
    if runs != [] {
      var front, last := runs[..|runs| - 1], runs[|runs| - 1];
      CountDistinct(front, key);
      if HasRun(front, key) {
        var i :| 0 <= i < |front| && front[i].key == key;
        assert runs[i].key == key;
      }
      if last.key != key && HasRun(runs, key) {
        var i :| 0 <= i < |runs| && runs[i].key == key;
        assert front[i].key == key;
      }
    }
  }

  /** A request id runs its operation at most once on a panel, whatever is sent, repeated, interleaved or lost. */
  lemma AtMostOnce(events: seq<Event>, key: Key)
    ensures Count(Play(INITIAL, events).runs, key) <= 1
  {
    PlayKeeps(INITIAL, events);
    CountDistinct(Play(INITIAL, events).runs, key);
  }

  lemma {:induction false} PlayAppend(s: State, first: seq<Event>, second: seq<Event>)
    ensures Play(s, first + second) == Play(Play(s, first), second)
    decreases |first|
  {
    if first == [] {
      assert first + second == second;
    } else {
      assert (first + second)[1..] == first[1..] + second;
      PlayAppend(Step(s, first[0]), first[1..], second);
    }
  }

  /** A job leaves `running` at most once: what a later state shows for a finished row is what it first showed. */
  lemma FinishedForGood(first: seq<Event>, second: seq<Event>, key: Key)
    ensures var s := Play(INITIAL, first);
            key in s.table && s.table[key].status != Running ==>
              var t := Play(INITIAL, first + second);
              key in t.table && t.table[key] == s.table[key]
  {
    PlayKeeps(INITIAL, first);
    PlayAppend(INITIAL, first, second);
    PlayKeeps(Play(INITIAL, first), second);
  }

  /** Two successful answers for one request id on one panel agree on operation, status and result. */
  lemma RepliesAgree(events: seq<Event>, a: Reply, b: Reply)
    requires a in Play(INITIAL, events).replies && b in Play(INITIAL, events).replies
    requires a.ok && b.ok && a.panel == b.panel && a.request.id == b.request.id
    ensures a.request.operation == b.request.operation && a.http == b.http == 200
    ensures a.status == b.status == [Applied] && a.result == b.result
  {
    PlayKeeps(INITIAL, events);
  }

  /**
   * Looking up a job answers with the recorded status and the recorded result, unchanged, or with a conflict when the
   * request is for another operation; either way nothing is written and nothing runs.
   */
  lemma ReplayReturnsRecord(events: seq<Event>, h: nat)
    requires var s := Play(INITIAL, events);
             h in s.handlers && s.handlers[h].phase.Lookup? && Visible(s, s.handlers[h])
    ensures var s := Play(INITIAL, events);
            var row := s.table[KeyOf(s.handlers[h])];
            var phase := Step(s, Look(h)).handlers[h].phase;
            && phase.Answer?
            && (if row.operation == s.handlers[h].request.operation then
                  && phase.reply.http == 200 && phase.reply.status == [row.status] && phase.reply.result == row.result
                  && (phase.reply.ok <==> row.status == Applied)
                else phase.reply.http == 409 && !phase.reply.ok && phase.reply.status == [] && phase.reply.result == [])
            && Step(s, Look(h)).table == s.table && Step(s, Look(h)).runs == s.runs
  {
    var s := Play(INITIAL, events);
    PlayKeeps(INITIAL, events);
    assert RowOk(s.table, s.runs, KeyOf(s.handlers[h]));
    SafeResultFixed(s.table[KeyOf(s.handlers[h])].result);
  }

  /**
   * End to end: when a sender's row is applied, the panel its node leads to holds an applied row of the same id,
   * operation and result, and ran that operation exactly once, with success.
   */
  lemma AppliedMeansExecutedOnce(events: seq<Event>, key: Key)
    requires var s := Play(INITIAL, events);
             key in s.table && s.table[key].direction == Outbound && s.table[key].status == Applied
    ensures var s := Play(INITIAL, events);
            var row := s.table[key];
            |row.node| == 1 &&
            var there := Key(row.node[0].target, key.id);
            && DoneHere(s.table, there, row.operation, row.result)
            && Count(s.runs, there) == 1
            && exists i :: 0 <= i < |s.runs| && s.runs[i].key == there && s.runs[i].operation == row.operation
                  && s.runs[i].called && s.runs[i].execution == Execution(true, row.result)
  {
    var s := Play(INITIAL, events);
    PlayKeeps(INITIAL, events);
    assert RowOk(s.table, s.runs, key);
    var there := Key(s.table[key].node[0].target, key.id);
    assert RowOk(s.table, s.runs, there);
    CountDistinct(s.runs, there);
    var i :| 0 <= i < |s.runs| && s.runs[i].key == there;
    assert RunOk(s.table, s.runs[i]);
  }

  function Tally(jobs: seq<Job>, status: Status): nat {
    if jobs == [] then 0 else (if jobs[0].status == status then 1 else 0) + Tally(jobs[1..], status)
  }

  lemma {:induction false} TallyTotal(jobs: seq<Job>)
    requires forall i :: 0 <= i < |jobs| ==> jobs[i].status != Running
    ensures Tally(jobs, Applied) + Tally(jobs, Failed) == |jobs|
  {
    if jobs != [] {
      TallyTotal(jobs[1..]);
    }
  }

  /**
   * A batch that has been through all its nodes created one row per selected node, under distinct ids, in order;
   * each reported status is the row's, and the applied and failed counts add up to the number of nodes selected.
   */
  lemma BatchAccounting(events: seq<Event>, k: nat)
    requires k in Play(INITIAL, events).senders
    requires |Play(INITIAL, events).senders[k].jobs| == |Play(INITIAL, events).senders[k].nodes|
    ensures var s := Play(INITIAL, events);
            var p := s.senders[k];
            && Tally(p.jobs, Applied) + Tally(p.jobs, Failed) == |p.nodes|
            && (forall i, j :: 0 <= i < j < |p.jobs| ==> p.jobs[i].id != p.jobs[j].id)
            && (forall i :: 0 <= i < |p.jobs| ==> p.jobs[i].node == p.nodes[i].id && JobOk(s.table, p, i))
  {
    var s := Play(INITIAL, events);
    PlayKeeps(INITIAL, events);
    var p := s.senders[k];
    forall i | 0 <= i < |p.jobs| ensures p.jobs[i].status != Running && p.jobs[i].node == p.nodes[i].id {
      assert JobOk(s.table, p, i);
    }
    TallyTotal(p.jobs);
  }

  ghost predicate Orphaned(s: State, key: Key) {
    && key in s.table && s.table[key].direction == Inbound && s.table[key].status == Running
    && forall h :: h in s.handlers && Owning(s.handlers[h]) ==> KeyOf(s.handlers[h]) != key
  }

  lemma OrphanRow(s: State, e: Event, key: Key)
    requires Orphaned(s, key) && (forall k :: k in s.senders ==> SenderOk(s.table, s.senders[k]))
    ensures key in Step(s, e).table && Step(s, e).table[key] == s.table[key]
  {
    if e.Close? && e.k in s.senders {
      assert SenderOk(s.table, s.senders[e.k]);
    }
  }

  lemma OrphanOwners(s: State, e: Event, key: Key, h: nat)
    requires Orphaned(s, key) && h in Step(s, e).handlers && Owning(Step(s, e).handlers[h])
    ensures KeyOf(Step(s, e).handlers[h]) != key
  {
  }

  lemma OrphanCount(s: State, e: Event, key: Key)
    requires Orphaned(s, key)
    ensures Count(Step(s, e).runs, key) == Count(s.runs, key)
  {
    if e.Perform? && Step(s, e) != s {
      assert Step(s, e).runs[..|s.runs|] == s.runs;
    }
  }

  lemma OrphanStep(s: State, e: Event, key: Key)
    requires Inv(s) && Orphaned(s, key)
    ensures Orphaned(Step(s, e), key) && Count(Step(s, e).runs, key) == Count(s.runs, key)
  {
    OrphanRow(s, e, key);
    OrphanCount(s, e, key);
    var t := Step(s, e);
    forall h | h in t.handlers && Owning(t.handlers[h]) ensures KeyOf(t.handlers[h]) != key {
      OrphanOwners(s, e, key, h);
    }
  }

  /**
   * The price of at-most-once: a job whose handler died between claiming it and recording its outcome stays
   * `running` in every continuation, and its operation is never run again.
   */
  lemma {:induction false} OrphanedForever(first: seq<Event>, second: seq<Event>, key: Key)
    requires Orphaned(Play(INITIAL, first), key)
    ensures Orphaned(Play(INITIAL, first + second), key)
    ensures Count(Play(INITIAL, first + second).runs, key) == Count(Play(INITIAL, first).runs, key)
    decreases |second|
  {
    if second == [] {
      assert first + second == first;
    } else {
      var last := second[|second| - 1];
      OrphanedForever(first, second[..|second| - 1], key);
      var before := first + second[..|second| - 1];
      assert first + second == before + [last];
      PlayAppend(INITIAL, before, [last]);
      PlayKeeps(INITIAL, before);
      var s := Play(INITIAL, before);
      assert Play(s, [last]) == Play(Step(s, last), []);
      OrphanStep(s, last, key);
    }
  }

  /** Such a job can come about on any panel, from any request that passes the first checks. */
  lemma OrphanReached(panel: string, r: Request, now: int)
    requires Reject(r, now) == []
    ensures Orphaned(Play(INITIAL, [Arrive(0, panel, r, now), Look(0), Claim(0), Crash(0)]), Key(panel, r.id))
  {
    var s1 := Step(INITIAL, Arrive(0, panel, r, now));
    var s2 := Step(s1, Look(0));
    var s3 := Step(s2, Claim(0));
    var s4 := Step(s3, Crash(0));
    PlayFour(INITIAL, Arrive(0, panel, r, now), Look(0), Claim(0), Crash(0));
  }

  lemma PlayFour(s: State, a: Event, b: Event, c: Event, d: Event)
    ensures Play(s, [a, b, c, d]) == Step(Step(Step(Step(s, a), b), c), d)
  {
    PlayFirst(s, a, [b, c, d]);
    PlayFirst(Step(s, a), b, [c, d]);
    PlayFirst(Step(Step(s, a), b), c, [d]);
    PlayFirst(Step(Step(Step(s, a), b), c), d, []);
    assert [a, b, c, d] == [a] + [b, c, d] && [b, c, d] == [b] + [c, d] && [c, d] == [c] + [d] && [d] == [d] + [];
  }

  lemma PlayFirst(s: State, e: Event, rest: seq<Event>)
    ensures Play(s, [e] + rest) == Play(Step(s, e), rest)
  {
    assert ([e] + rest)[1..] == rest;
  }

  /** A running job that some handler still owns can be finished by that handler. */
  lemma OwnedCanFinish(s: State, key: Key) returns (events: seq<Event>)
    requires Inv(s) && key in s.table && s.table[key].direction == Inbound && s.table[key].status == Running
    requires !Orphaned(s, key)
    ensures key in Play(s, events).table && Play(s, events).table[key].status != Running
  {
    var h :| h in s.handlers && Owning(s.handlers[h]) && KeyOf(s.handlers[h]) == key;
    if s.handlers[h].phase.Record? {
      events := [Store(h)];
      assert Play(s, events) == Play(Step(s, Store(h)), []);
    } else {
      events := [Perform(h, Null), Store(h)];
      var t := Step(s, Perform(h, Null));
      assert events[1..] == [Store(h)];
      assert Play(t, [Store(h)]) == Play(Step(t, Store(h)), []);
    }
  }

  ghost predicate RunningAfter(first: seq<Event>, second: seq<Event>, key: Key) {
    var t := Play(INITIAL, first + second);
    key in t.table && t.table[key].status == Running
  }

  /** A running job stays `running` in every continuation exactly when no live handler owns it. */
  lemma StuckExactlyWhenOrphaned(first: seq<Event>, key: Key)
    requires var s := Play(INITIAL, first);
             key in s.table && s.table[key].direction == Inbound && s.table[key].status == Running
    ensures Orphaned(Play(INITIAL, first), key) <==> forall second :: RunningAfter(first, second, key)
  {
    var s := Play(INITIAL, first);
    if Orphaned(s, key) {
      forall second: seq<Event> ensures RunningAfter(first, second, key) {
        OrphanedForever(first, second, key);
      }
    } else {
      PlayKeeps(INITIAL, first);
      var second := OwnedCanFinish(s, key);
      PlayAppend(INITIAL, first, second);
      assert !RunningAfter(first, second, key);
    }
  }
}
