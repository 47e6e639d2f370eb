/** One owner's catalog of agents, and every operation that changes it. */
module AgentService {
  import opened Common
  import opened AgentRecord
  import opened AgentSchema
  import opened AgentReducers

  datatype Catalog = Catalog(revision: nat, agents: seq<Agent>)

  /** What became of one catalog write; an unconfirmed write is installed and still throws. */
  datatype Storage = Confirmed | InstalledUnconfirmed | WriteFailed | OwnerMissing

  /** What one call meets outside the model: the write, the field formats, the durability probe. */
  datatype Env = Env(storage: Storage, formatsOk: bool, durable: bool)

  function Store(c: Catalog, agents: seq<Agent>, s: Storage): Catalog {
    if s.Confirmed? || s.InstalledUnconfirmed? then Catalog(c.revision + 1, agents) else c
  }

  /** The schema accepts the record: its history and cross-field rules hold, and so do its field formats. */
  predicate Parses(a: Agent, env: Env) {
    HistoryOk(a) && SchemaOk(a) && env.formatsOk
  }

  function FirstAgent(agents: seq<Agent>, id: string): (i: nat)
    ensures i <= |agents| && (i < |agents| ==> agents[i].agentId == id)
    ensures forall j :: 0 <= j < i ==> agents[j].agentId != id
  {
    if agents == [] then 0 else if agents[0].agentId == id then 0 else 1 + FirstAgent(agents[1..], id)
  }

  /** The one agent with this id; nothing when it is missing or claimed twice. */
  function Locate(agents: seq<Agent>, id: string): (r: Option<nat>)
    ensures r.Some? ==> r.value < |agents| && agents[r.value].agentId == id
  {
    var i := FirstAgent(agents, id);
    if i < |agents| && FirstAgent(agents[i + 1..], id) == |agents| - i - 1 then Some(i) else None
  }

  // ----- Replay -----

  function OperationsNamed(ops: seq<Operation>, id: string): (r: seq<Operation>)
    ensures forall o :: o in r ==> o in ops && o.operationId == id
    ensures r == [] <==> forall k :: 0 <= k < |ops| ==> ops[k].operationId != id
  {
    if ops == [] then []
    else (if ops[0].operationId == id then [ops[0]] else []) + OperationsNamed(ops[1..], id)
  }

  /** Every stored operation with this id, across the catalog. */
  function Claimants(agents: seq<Agent>, id: string): (r: seq<Operation>)
    ensures r == [] <==>
      forall i, k :: 0 <= i < |agents| && 0 <= k < |agents[i].operations| ==> agents[i].operations[k].operationId != id
  {
    if agents == [] then []
    else
      var rest := Claimants(agents[1..], id);
      assert forall i :: 1 <= i < |agents| ==> agents[i] == agents[1..][i - 1];
      OperationsNamed(agents[0].operations, id) + rest
  }

  /** Only `Committed` authorises a first dispatch. */
  datatype BeginOutcome = Committed | ReplayedOp | IndeterminateOp | Threw

  function Replay(c: Catalog, i: Intent, env: Env): Option<BeginOutcome> {
    var found := Claimants(c.agents, i.operationId);
    if found == [] then None
    else if |found| > 1 || found[0].fingerprint != i.fingerprint then Some(Threw)
    else if found[0].state.Accepted? && !found[0].acceptanceUnverified && env.durable then Some(ReplayedOp)
    else Some(IndeterminateOp)
  }

  // ----- Begin -----

  function CommitNew(c: Catalog, agents: seq<Agent>, a: Agent, env: Env): (Catalog, BeginOutcome) {
    if !Parses(a, env) then (c, Threw)
    else (Store(c, agents, env.storage), if env.storage.Confirmed? then Committed else Threw)
  }

  function BeginStart(c: Catalog, i: Intent, target: TargetKind, env: Env): (Catalog, BeginOutcome) {
    var replay := Replay(c, i, env);
    if replay.Some? then (c, replay.value)
    else if FirstAgent(c.agents, i.agentId) < |c.agents| then (c, Threw)
    else
      var a := NewAgent(i, target);
      CommitNew(c, c.agents + [a], a, env)
  }

  predicate CanBegin(a: Agent) {
    && a.threadId.Some? && a.fence.Some? && (a.agentState.Idle? || a.agentState.Working?)
    && a.pendingInterrupt.None? && !HasPendingPrompt(a.operations)
  }

  function BeginMessage(c: Catalog, i: Intent, env: Env): (Catalog, BeginOutcome) {
    var replay, at := Replay(c, i, env), Locate(c.agents, i.agentId);
    if replay.Some? then (c, replay.value)
    else if at.None? || !CanBegin(c.agents[at.value]) then (c, Threw)
    else
      var a := WithMessage(c.agents[at.value], i);
      CommitNew(c, c.agents[at.value := a], a, env)
  }

  function BeginStop(c: Catalog, i: Intent, env: Env): (Catalog, BeginOutcome) {
    var replay, at := Replay(c, i, env), Locate(c.agents, i.agentId);
    if replay.Some? then (c, replay.value)
    else if at.None? || !CanBegin(c.agents[at.value]) then (c, Threw)
    else if c.agents[at.value].agentState.Working? && c.agents[at.value].activeTurnId.None? then (c, Threw)
    else
      var a := WithStop(c.agents[at.value], i);
      CommitNew(c, c.agents[at.value := a], a, env)
  }

  // ----- Deliveries -----

  datatype AcceptOutcome = AcceptThrew | AcceptCommitted | AcceptReplayed | AcceptIndeterminate(unresolved: bool)

  function RefuseDelivery(c: Catalog, at: nat, o: nat, e: nat, now: nat, env: Env): (Catalog, AcceptOutcome)
    requires at < |c.agents| && o < |c.agents[at].operations| && e < |c.agents[at].exchanges|
  {
    if !c.agents[at].operations[o].state.Requested? then (c, AcceptIndeterminate(false))
    else
      var a := WithRefusal(c.agents[at], o, e, now);
      if !Parses(a, env) then (c, AcceptIndeterminate(true))
      else (Store(c, c.agents[at := a], env.storage), AcceptIndeterminate(!env.storage.Confirmed?))
  }

  function AcceptDelivery(c: Catalog, agentId: string, operationId: string, r: Receipt, now: nat, env: Env)
    : (Catalog, AcceptOutcome)
  {
    var at := Locate(c.agents, agentId);
    if at.None? then (c, AcceptThrew)
    else
      var a := c.agents[at.value];
      var o, e := OperationIndex(a.operations, operationId), ExchangeIndex(a.exchanges, operationId);
      if o == |a.operations| || e == |a.exchanges| then (c, AcceptThrew)
      else
        match DecideAcceptance(a, a.operations[o], a.exchanges[e], r)
        case Unplaceable => (c, AcceptIndeterminate(true))
        case Conflict => (c, AcceptThrew)
        case Replayed => (c, if env.durable then AcceptReplayed else AcceptIndeterminate(true))
        case Refuse => RefuseDelivery(c, at.value, o, e, now, env)
        case Unresolved => (c, AcceptIndeterminate(true))
        case Accept(settled) =>
          var a' := WithAcceptance(a, o, e, r, settled, now);
          if !Parses(a', env) then (c, AcceptIndeterminate(true))
          else (Store(c, c.agents[at.value := a'], env.storage),
                if env.storage.Confirmed? then AcceptCommitted else AcceptIndeterminate(true))
  }

  function AbandonDelivery(c: Catalog, agentId: string, operationId: string, now: nat, env: Env): Catalog {
    var at := FirstAgent(c.agents, agentId);
    if at == |c.agents| then c
    else
      var a := c.agents[at];
      var o, e := OperationIndex(a.operations, operationId), ExchangeIndex(a.exchanges, operationId);
      if o == |a.operations| || e == |a.exchanges| then c else RefuseDelivery(c, at, o, e, now, env).0
  }

  // ----- Daemon traffic -----

  /** What the daemon is told: applied and ignored may be retired, the rest may not. */
  datatype Disposition = Applied | Ignored | Reconcile | FailedRecord

  /** Only a confirmed write lets the daemon retire what it sent; ignored and failed records write nothing. */
  ghost predicate Answered(c: Catalog, next: Catalog, d: Disposition, env: Env) {
    match d
    case Applied => env.storage.Confirmed? && next.revision == c.revision + 1
    case Reconcile => !env.storage.Confirmed? || next == c
    case _ => next == c
  }

  function ApplyAgent(c: Catalog, at: nat, a: Agent, env: Env): (r: (Catalog, Disposition))
    requires at < |c.agents|
    ensures Answered(c, r.0, r.1, env)
  {
    if !Parses(a, env) then (c, FailedRecord)
    else (Store(c, c.agents[at := a], env.storage), if env.storage.Confirmed? then Applied else Reconcile)
  }

  type Outcome = s: TurnState | !s.InProgress? witness Interrupted

  datatype EventBody = ActivityEvent(itemId: string, text: string) | TerminalEvent(outcome: Outcome)

  datatype Event = Event(agentId: string, threadId: string, turnId: string, fence: Fence, body: EventBody)

  function ApplyEvent(c: Catalog, ev: Event, now: nat, env: Env): (Catalog, Disposition) {
    var at := Locate(c.agents, ev.agentId);
    if at.None? then (c, Ignored)
    else
      var a := c.agents[at.value];
      var t := TurnIndex(a.turns, ev.turnId);
      if a.threadId != Some(ev.threadId) then (c, Ignored)
      else if ClassifyEventFence(a.fence, ev.fence).Duplicate? then (c, Ignored)
      else if ClassifyEventFence(a.fence, ev.fence).Foreign? then (c, Reconcile)
      else if t == |a.turns| then (c, Reconcile)
      else if !a.turns[t].state.InProgress? then (c, Ignored)
      else if a.activeTurnId != Some(a.turns[t].id) then (c, Reconcile)
      else
        match ev.body
        case ActivityEvent(itemId, text) =>
          var acts := AppendActivity(a.turns[t].activities, itemId, text, MAX_ACTIVITIES);
          if acts.None? then (c, Ignored) else ApplyAgent(c, at.value, WithActivity(a, t, acts.value, ev.fence, now), env)
        case TerminalEvent(outcome) => ApplyAgent(c, at.value, WithTerminal(a, t, outcome, ev.fence, now), env)
  }

  function ApplyRejection(c: Catalog, agentId: string, operationId: Option<string>, now: nat, env: Env)
    : (Catalog, Disposition)
  {
    var at := Locate(c.agents, agentId);
    if at.None? || operationId.None? then (c, Ignored)
    else
      var a := c.agents[at.value];
      var o := OperationIndex(a.operations, operationId.value);
      if o == |a.operations| || !a.operations[o].state.Requested? then (c, Ignored)
      else ApplyAgent(c, at.value, WithRejection(a, o, ExchangeIndex(a.exchanges, operationId.value), now), env)
  }

  function ApplyInterruptOutcome(c: Catalog, agentId: string, operationId: string, threadId: string, turnId: string,
                                 delivered: bool, fence: Fence, now: nat, env: Env): (Catalog, Disposition)
  {
    var at := Locate(c.agents, agentId);
    if at.None? then (c, Ignored)
    else
      var a := c.agents[at.value];
      var o := OperationIndex(a.operations, operationId);
      if a.threadId != Some(threadId) then (c, Ignored)
      else if a.pendingInterrupt.None? || a.pendingInterrupt.value.operationId != operationId
           || a.pendingInterrupt.value.turnId != turnId then (c, Ignored)
      else if ClassifyEventFence(a.fence, fence).Duplicate? then (c, Ignored)
      else if ClassifyEventFence(a.fence, fence).Foreign? then (c, Reconcile)
      else if o == |a.operations| then (c, Ignored)
      else ApplyAgent(c, at.value, WithInterruptOutcome(a, o, delivered, fence, now), env)
  }

  function ApplyReconciliation(c: Catalog, agentId: string, threadId: string, resolvedTarget: Target,
                               turnId: Option<string>, turnRuns: bool, fence: Fence, now: nat, env: Env)
    : (Catalog, Disposition)
  {
    var at := Locate(c.agents, agentId);
    if at.None? then (c, Ignored)
    else
      var a := c.agents[at.value];
      if a.threadId != Some(threadId) || a.resolvedTarget != Some(resolvedTarget) then (c, Ignored)
      else if ClassifyEventFence(a.fence, fence).Duplicate? then (c, Ignored)
      else ApplyAgent(c, at.value, WithReconciliation(a, turnId, turnRuns, fence, now), env)
  }

  /** An acceptance the gateway could not place stays with the daemon; any other answer retires it. */
  function DispositionOf(o: AcceptOutcome): Disposition {
    match o
    case AcceptThrew => Ignored
    case AcceptIndeterminate(true) => Reconcile
    case _ => Applied
  }
}
