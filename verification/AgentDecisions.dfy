/** Which receipts are accepted, which calls are recognised: the decisions as tables, and what a call leaves on record. */
module AgentDecisions {
  import opened Common
  import opened AgentRecord
  import opened AgentSchema
  import opened AgentReducers
  import opened AgentInvariant
  import opened AgentTransitions
  import opened AgentAcceptance
  import opened AgentService
  import opened AgentRuns
  import opened AgentParses

  // ----- Receipts -----

  /** The receipt speaks of the agent's own target and thread, as far as they are known. */
  predicate SameRoute(a: Agent, r: Receipt) {
    && r.resolvedTarget.kind == a.requestedTarget
    && (a.threadId == None || a.threadId == Some(r.threadId))
    && (a.resolvedTarget == None || a.resolvedTarget == Some(r.resolvedTarget))
  }

  /** Places in one stream: they differ in the event alone. */
  predicate SameLine(x: Fence, y: Fence) {
    x.(lastEventId := y.lastEventId) == y
  }

  /** The agent has come as far as this place, or further. */
  predicate Seen(a: Agent, f: Fence) {
    a.fence.Some? && SameLine(a.fence.value, f) && f.lastEventId <= a.fence.value.lastEventId
  }

  /** The place lies ahead in the stream the agent is in. */
  predicate Follows(a: Agent, f: Fence) {
    a.fence.Some? && SameLine(a.fence.value, f) && f.lastEventId > a.fence.value.lastEventId
  }

  predicate InStep(a: Agent, r: Receipt) {
    a.fence.None? || Follows(a, r.fence)
  }

  /** The agent stands exactly as it did when the prompt was sent. */
  predicate Unmoved(a: Agent, op: Operation) {
    StandingOf(a) == op.preDispatch
  }

  /** The turn the message was sent into has ended since, and the agent is idle on the same thread. */
  ghost predicate Outlived(a: Agent, op: Operation) {
    && op.kind.Message? && op.preDispatch.agentState.Working? && HasSettledTurn(a.turns, op.preDispatch.turnId)
    && a.agentState.Idle? && a.threadId == op.preDispatch.threadId
  }

  /** The way a prompt should be delivered to an agent that has not moved: steered while working, else as a new turn. */
  predicate ExpectedWay(op: Operation, r: Receipt) {
    if op.preDispatch.agentState.Working? then r.delivery.Steered? else r.delivery.Started?
  }

  ghost predicate NewTurn(a: Agent, r: Receipt) {
    r.delivery.Started? && !HasTurn(a.turns, r.turnId)
  }

  /** Steered into the turn it was meant for, after that turn ended. */
  ghost predicate SteersIntoEnded(a: Agent, op: Operation, r: Receipt) {
    Outlived(a, op) && r.delivery.Steered? && op.preDispatch.turnId == Some(r.turnId)
  }

  /** Delivered to the agent where it was expected, or as a new turn after the expected one ended. */
  ghost predicate Delivers(a: Agent, op: Operation, r: Receipt) {
    || (Unmoved(a, op) && ExpectedWay(op, r) && if r.delivery.Steered? then a.activeTurnId == Some(r.turnId) else NewTurn(a, r))
    || (Outlived(a, op) && NewTurn(a, r))
  }

  lemma TurnIndexMeans(a: Agent, id: string)
    requires UniqueTurnIds(a.turns)
    ensures TurnIndex(a.turns, id) < |a.turns| <==> HasTurn(a.turns, id)
    ensures HasSettledTurn(a.turns, Some(id)) <==>
      TurnIndex(a.turns, id) < |a.turns| && !a.turns[TurnIndex(a.turns, id)].state.InProgress?
  {
  }

  lemma SentFrom(a: Agent, o: nat)
    requires SchemaOk(a) && o < |a.operations| && IsPrompt(a.operations[o].kind)
    ensures var op := a.operations[o];
      if op.kind.Start? then op.preDispatch == PreDispatch(Creating, None, None, None)
      else (op.preDispatch.agentState.Idle? && op.preDispatch.turnId.None?) || (op.preDispatch.agentState.Working? && op.preDispatch.turnId.Some?)
  {
    assert OperationRules(a.operations[o]);
  }

  /**
   The fate of a receipt for a prompt still requested, in four exclusive cases: accepted into an ended
   turn, accepted otherwise, left unresolved because it came the expected way but out of step, refused.
   */
  lemma RequestedReceipts(a: Agent, o: nat, e: nat, r: Receipt)
    requires RecordOk(a) && SchemaOk(a) && Paired(a, o, e) && a.operations[o].state.Requested?
    ensures
      var d, op := Decision(a, o, e, r), a.operations[o];
      && (d == Accept(true) <==> SameRoute(a, r) && InStep(a, r) && SteersIntoEnded(a, op, r))
      && (d == Accept(false) <==> SameRoute(a, r) && InStep(a, r) && Delivers(a, op, r))
      && (d == Unresolved <==> SameRoute(a, r) && !InStep(a, r) && Unmoved(a, op) && ExpectedWay(op, r))
      && (d.Accept? || d.Unresolved? || d.Refuse?)
  {
    hide PairingOk, OperationShape, PendingOk, WindowsOk, ExchangesOk, ExchangeTimesOk, TurnsFollowDeliveries, SchemaOk, TurnIndex, HasTurn, HasSettledTurn;
    PairedPrompt(a, o, e);
    SentFrom(a, o);
    TurnIndexMeans(a, r.turnId);
    if a.operations[o].preDispatch.turnId.Some? {
      TurnIndexMeans(a, a.operations[o].preDispatch.turnId.value);
    }
    SettledIsNotActive(a, a.operations[o].preDispatch.turnId);
    ActiveIsThere(a);
  }

  lemma SettledIsNotActive(a: Agent, id: Option<string>)
    requires TurnHistoryOk(a)
    ensures HasSettledTurn(a.turns, id) ==> a.activeTurnId != id
  {
    assert a.activeTurnId.Some? ==> Runs(a.turns, a.activeTurnId.value);
  }

  lemma ActiveIsThere(a: Agent)
    requires TurnHistoryOk(a)
    ensures a.activeTurnId.Some? ==> HasTurn(a.turns, a.activeTurnId.value)
  {
  }

  /** The receipt says what is on record for the delivery. */
  predicate MatchesRecord(a: Agent, op: Operation, ex: Exchange, r: Receipt) {
    && op.turnId == Some(r.turnId) && op.acceptanceFence == Some(r.fence) && ex.delivery == Some(r.delivery)
    && a.threadId == Some(r.threadId) && a.resolvedTarget == Some(r.resolvedTarget)
  }

  /** A receipt for a settled delivery: recognised if it matches, unplaceable while unverified, a conflict otherwise; refused if given up on. */
  lemma SettledReceipts(a: Agent, o: nat, e: nat, r: Receipt)
    requires Paired(a, o, e) && !a.operations[o].state.Requested?
    ensures
      var d, op := Decision(a, o, e, r), a.operations[o];
      && (d.Unplaceable? <==> op.state.Accepted? && op.acceptanceUnverified)
      && (d.Replayed? <==> op.state.Accepted? && !op.acceptanceUnverified && MatchesRecord(a, op, a.exchanges[e], r))
      && (d.Conflict? <==> op.state.Accepted? && !op.acceptanceUnverified && !MatchesRecord(a, op, a.exchanges[e], r))
      && (d.Refuse? <==> op.state.Indeterminate?)
  {
    hide PlaceTurn, TurnIndex;
  }

  // ----- What a call leaves on record -----

  /** The operation a call asks for, as first recorded. */
  ghost predicate Asked(op: Operation, kind: OperationKind, i: Intent, sent: PreDispatch) {
    && op.operationId == i.operationId && op.kind == kind && op.fingerprint == i.fingerprint && op.preDispatch == sent
    && op.acceptanceFence.None? && !op.acceptanceUnverified
  }

  /** The exchange a prompt opens. */
  ghost predicate Opened(ex: Exchange, kind: OperationKind, i: Intent) {
    ex.operationId == i.operationId && ex.kind == kind && ex.prompt == i.prompt && ex.status.Requested? && ex.turnId.None?
  }

  /** A committed start adds one agent, asked for as intended; every other agent is as it was. */
  lemma StartIsRecorded(c: Catalog, i: Intent, target: TargetKind, env: Env)
    requires BeginStart(c, i, target, env).1.Committed?
    ensures
      var c', n := BeginStart(c, i, target, env).0, |c.agents|;
      && |c'.agents| == n + 1 && c'.agents[..n] == c.agents
      && var a := c'.agents[n];
      && a.agentId == i.agentId && a.requestedTarget == target && a.agentState.Creating? && a.createdAt == i.at
      && |a.operations| == 1 && a.operations[0].state.Requested?
      && Asked(a.operations[0], Start, i, PreDispatch(Creating, None, None, None))
      && |a.exchanges| == 1 && Opened(a.exchanges[0], Start, i)
  {
    hide HistoryOk, SchemaOk, Claimants, FirstAgent;
  }

  /** A committed message adds one requested prompt to its agent, sent from where the agent stands; nothing else moves. */
  lemma MessageIsRecorded(c: Catalog, i: Intent, env: Env)
    requires BeginMessage(c, i, env).1.Committed?
    ensures
      var c', at := BeginMessage(c, i, env).0, Locate(c.agents, i.agentId);
      && at.Some? && |c'.agents| == |c.agents| && (forall k :: 0 <= k < |c.agents| && k != at.value ==> c'.agents[k] == c.agents[k])
      && var a, a' := c.agents[at.value], c'.agents[at.value];
      var n, m := |a.operations|, |a.exchanges|;
      && a'.operations[..n] == a.operations && |a'.operations| == n + 1 && a'.operations[n].state.Requested?
      && Asked(a'.operations[n], Message, i, StandingOf(a))
      && a'.exchanges[..m] == a.exchanges && |a'.exchanges| == m + 1 && Opened(a'.exchanges[m], Message, i)
      && a' == a.(operations := a'.operations, exchanges := a'.exchanges, updatedAt := a'.updatedAt)
  {
    hide HistoryOk, SchemaOk, Claimants, Locate, CanBegin;
    var a := c.agents[Locate(c.agents, i.agentId).value];
    var a' := WithMessage(a, i);
    assert a'.operations[..|a.operations|] == a.operations && a'.exchanges[..|a.exchanges|] == a.exchanges;
  }

  /** A committed stop adds one operation: an accepted no-op for an idle agent, else an interrupt of the active turn. */
  lemma StopIsRecorded(c: Catalog, i: Intent, env: Env)
    requires BeginStop(c, i, env).1.Committed?
    ensures
      var c', at := BeginStop(c, i, env).0, Locate(c.agents, i.agentId);
      && at.Some? && |c'.agents| == |c.agents| && (forall k :: 0 <= k < |c.agents| && k != at.value ==> c'.agents[k] == c.agents[k])
      && var a, a' := c.agents[at.value], c'.agents[at.value];
      var n := |a.operations|;
      && a'.operations[..n] == a.operations && |a'.operations| == n + 1
      && Asked(a'.operations[n], Stop, i, StandingOf(a)) && a'.operations[n].turnId == a.activeTurnId
      && (if a.agentState.Idle? then a'.operations[n].state.Accepted? && a'.operations[n].noOp && a'.pendingInterrupt.None?
          else a'.operations[n].state.Requested? && !a'.operations[n].noOp && a'.pendingInterrupt.Some?
               && a'.pendingInterrupt.value.operationId == i.operationId && Some(a'.pendingInterrupt.value.turnId) == a.activeTurnId)
      && a' == a.(operations := a'.operations, pendingInterrupt := a'.pendingInterrupt, updatedAt := a'.updatedAt)
  {
    hide HistoryOk, SchemaOk, Claimants, Locate;
    var a := c.agents[Locate(c.agents, i.agentId).value];
    var a' := WithStop(a, i);
    assert a'.operations[..|a.operations|] == a.operations;
  }

  // ----- A call made again -----

  /** An operation with this id and fingerprint is on record. */
  ghost predicate Recorded(c: Catalog, n: nat, k: nat, id: string, fingerprint: string) {
    && n < |c.agents| && k < |c.agents[n].operations|
    && c.agents[n].operations[k].operationId == id && c.agents[n].operations[k].fingerprint == fingerprint
  }

  lemma CommittedIsRecorded(c: Catalog, s: Step) returns (n: nat, k: nat)
    requires (s.StepStart? || s.StepMessage? || s.StepStop?) && Answer(c, s).Committed?
    ensures Recorded(Next(c, s), n, k, s.i.operationId, s.i.fingerprint)
  {
    hide BeginStart, BeginMessage, BeginStop, Locate, StandingOf;
    match s {
      case StepStart(i, target, env) =>
        StartIsRecorded(c, i, target, env);
        n, k := |c.agents|, 0;
      case StepMessage(i, env) =>
        MessageIsRecorded(c, i, env);
        n := Locate(c.agents, i.agentId).value;
        k := |c.agents[n].operations|;
      case StepStop(i, env) =>
        StopIsRecorded(c, i, env);
        n := Locate(c.agents, i.agentId).value;
        k := |c.agents[n].operations|;
    }
  }

  lemma StaysRecorded(c: Catalog, c': Catalog, n: nat, k: nat, id: string, fingerprint: string)
    requires CatalogEvolves(c, c') && Recorded(c, n, k, id, fingerprint)
    ensures Recorded(c', n, k, id, fingerprint)
  {
    assert OperationEvolves(c.agents[n].operations[k], c'.agents[n].operations[k]);
  }

  lemma SameOperation(c: Catalog, n: nat, k: nat, n': nat, k': nat)
    requires CatalogOk(c) && n < |c.agents| && k < |c.agents[n].operations| && n' < |c.agents| && k' < |c.agents[n'].operations|
    requires c.agents[n].operations[k].operationId == c.agents[n'].operations[k'].operationId
    ensures n == n' && k == k'
  {
    hide HistoryOk, PairingOk, PendingOk, WindowsOk;
  }

  lemma RecordedIsRecognised(c: Catalog, s: Step, n: nat, k: nat, fingerprint: string)
    requires CatalogOk(c) && (s.StepStart? || s.StepMessage? || s.StepStop?) && Recorded(c, n, k, s.i.operationId, fingerprint)
    ensures Next(c, s) == c
    ensures var op := c.agents[n].operations[k];
      Answer(c, s) == if s.i.fingerprint != fingerprint then Threw
                      else if op.state.Accepted? && !op.acceptanceUnverified && s.env.durable then ReplayedOp
                      else IndeterminateOp
  {
    hide CatalogOk, Claimants, Locate, FirstAgent, CanBegin, Parses, NewAgent, WithMessage, WithStop;
    var id := s.i.operationId;
    var found := Claimants(c.agents, id);
    assert found != [];
    OneClaimant(c, id);
    var n', k' := ClaimantIsStored(c.agents, id, found[0]);
    SameOperation(c, n, k, n', k');
  }

  lemma OneClaimant(c: Catalog, id: string)
    requires CatalogOk(c)
    ensures |Claimants(c.agents, id)| <= 1
  {
    AtMostOneClaimant(c.agents, id);
  }

  /**
   In any run, once a call has been committed its operation id answers for that request alone: the
   same request again is recognised and changes nothing, a different one under that id is refused.
   */
  lemma CommittedCallIsRecognised(c: Catalog, steps: seq<Step>, m: nat, again: Step)
    requires CatalogOk(c) && m < |steps| && (steps[m].StepStart? || steps[m].StepMessage? || steps[m].StepStop?)
    requires Answer(Run(c, steps[..m]), steps[m]).Committed? && Begins(again, steps[m].i.operationId)
    ensures var end := Run(c, steps);
      && Next(end, again) == end
      && if again.i.fingerprint == steps[m].i.fingerprint then Answer(end, again).ReplayedOp? || Answer(end, again).IndeterminateOp?
         else Answer(end, again).Threw?
  {
    hide CatalogOk, CatalogEvolves, Next, Answer, Recorded;
    var before, after := Run(c, steps[..m]), Run(c, steps[..m + 1]);
    assert steps[..m + 1][..m] == steps[..m];
    assert after == Next(before, steps[m]);
    var n, k := CommittedIsRecorded(before, steps[m]);
    LaterEvolves(c, steps, m + 1);
    StaysRecorded(after, Run(c, steps), n, k, steps[m].i.operationId, steps[m].i.fingerprint);
    EveryRunIsSound(c, steps);
    RecordedIsRecognised(Run(c, steps), again, n, k, steps[m].i.fingerprint);
  }
}
