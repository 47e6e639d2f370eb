/** Exactly when the schema turns a transition down, given well-formed field values. */
module AgentParses {
  import opened Common
  import opened AgentRecord
  import opened AgentSchema
  import opened AgentReducers
  import opened AgentInvariant
  import opened AgentTransitions
  import opened AgentSchemaKept
  import opened AgentService
  import opened AgentRuns

  /** Every stored record meets the schema's cross-field rules. */
  ghost predicate AllMeetSchema(c: Catalog) {
    forall i :: 0 <= i < |c.agents| ==> SchemaOk(c.agents[i])
  }

  /** What holds of every catalog the service stores. */
  ghost predicate Good(c: Catalog) {
    CatalogOk(c) && AllMeetSchema(c)
  }

  /** The write goes through and the field values are well formed. */
  predicate Smooth(env: Env) {
    env.storage.Confirmed? && env.formatsOk
  }

  // ----- Only what parsed is stored -----

  lemma BeginStoresParsed(c: Catalog, s: Step)
    requires AllMeetSchema(c) && (s.StepStart? || s.StepMessage? || s.StepStop?)
    ensures AllMeetSchema(Next(c, s))
  {
    hide HistoryOk, SchemaOk, Replay, Locate, FirstAgent, CanBegin, NewAgent, WithMessage, WithStop;
  }

  lemma DeliveryStoresParsed(c: Catalog, s: Step)
    requires AllMeetSchema(c) && (s.StepAccept? || s.StepAbandon?)
    ensures AllMeetSchema(Next(c, s))
  {
    hide HistoryOk, SchemaOk, DecideAcceptance, Locate, FirstAgent, OperationIndex, ExchangeIndex, WithRefusal, WithAcceptance;
  }

  lemma TrafficStoresParsed(c: Catalog, s: Step)
    requires AllMeetSchema(c) && (s.StepReject? || s.StepInterrupt? || s.StepEvent? || s.StepReconcile?)
    ensures AllMeetSchema(Next(c, s))
  {
    hide HistoryOk, SchemaOk, Locate, OperationIndex, ExchangeIndex, TurnIndex, AppendActivity, ClassifyEventFence;
    hide WithActivity, WithTerminal, WithReconciliation, WithRejection, WithInterruptOutcome;
  }

  lemma GoodStep(c: Catalog, s: Step)
    requires Good(c)
    ensures Good(Next(c, s))
  {
    hide CatalogOk, CatalogEvolves, AllMeetSchema, Next;
    StepSound(c, s);
    if s.StepStart? || s.StepMessage? || s.StepStop? {
      BeginStoresParsed(c, s);
    } else if s.StepAccept? || s.StepAbandon? {
      DeliveryStoresParsed(c, s);
    } else {
      TrafficStoresParsed(c, s);
    }
  }

  lemma {:induction false} EveryRunIsGood(c: Catalog, steps: seq<Step>)
    requires Good(c)
    ensures Good(Run(c, steps))
  {
    hide Good, Next;
    if steps != [] {
      EveryRunIsGood(c, steps[..|steps| - 1]);
      GoodStep(Run(c, steps[..|steps| - 1]), steps[|steps| - 1]);
    }
  }

  // ----- Begin -----

  /** The guards of a begin call, read off the catalog before it. */
  predicate MayStart(c: Catalog, s: Step)
    requires s.StepStart? || s.StepMessage? || s.StepStop?
  {
    if s.StepStart? then FirstAgent(c.agents, s.i.agentId) == |c.agents|
    else var at := Locate(c.agents, s.i.agentId); at.Some? && CanBegin(c.agents[at.value])
  }

  lemma BegunParses(c: Catalog, s: Step)
    requires Good(c) && (s.StepStart? || s.StepMessage? || s.StepStop?)
    requires Unclaimed(c, s.i.operationId) && MayStart(c, s)
    ensures match s
      case StepStart(i, target, _) => HistoryOk(NewAgent(i, target)) && SchemaOk(NewAgent(i, target))
      case StepMessage(i, _) =>
        var a := c.agents[Locate(c.agents, i.agentId).value];
        HistoryOk(WithMessage(a, i)) && SchemaOk(WithMessage(a, i))
      case StepStop(i, _) =>
        var a := c.agents[Locate(c.agents, i.agentId).value];
        && (a.agentState.Idle? || a.activeTurnId.Some?)
        && HistoryOk(WithStop(a, i)) && SchemaOk(WithStop(a, i))
  {
    hide HistoryOk, SchemaOk, PairingOk, OperationShape, PendingOk, WindowsOk, Evolves, NewAgent, WithMessage, WithStop;
    match s
    case StepStart(i, target, _) =>
      NewAgentOk(i, target);
      NewAgentMeetsSchema(i, target);
    case StepMessage(i, _) =>
      var a := c.agents[Locate(c.agents, i.agentId).value];
      WithMessageOk(a, i);
      WithMessageMeetsSchema(a, i);
    case StepStop(i, _) =>
      var a := c.agents[Locate(c.agents, i.agentId).value];
      IdleMeansNoTurn(a);
      WithStopOk(a, i);
      WithStopMeetsSchema(a, i);
  }

  /**
   A begin under a new operation id commits exactly when its guards let it: the schema never turns
   it down, and a working agent always has the turn that a stop needs.
   */
  lemma BeginCommitsIffAllowed(c: Catalog, s: Step)
    requires Good(c) && (s.StepStart? || s.StepMessage? || s.StepStop?)
    requires Unclaimed(c, s.i.operationId) && Smooth(s.env)
    ensures Answer(c, s).Committed? <==> MayStart(c, s)
  {
    hide CatalogOk, AllMeetSchema, HistoryOk, SchemaOk, Locate, FirstAgent, CanBegin, NewAgent, WithMessage, WithStop;
    assert Claimants(c.agents, s.i.operationId) == [];
    if MayStart(c, s) {
      BegunParses(c, s);
    }
  }

  // ----- Daemon traffic -----

  /** The event is for the running turn of a known agent, advances its fence, and brings something new. */
  predicate Lands(c: Catalog, ev: Event) {
    var at := Locate(c.agents, ev.agentId);
    at.Some? &&
    var a := c.agents[at.value];
    var t := TurnIndex(a.turns, ev.turnId);
    && a.threadId == Some(ev.threadId) && ClassifyEventFence(a.fence, ev.fence).Advances?
    && t < |a.turns| && a.turns[t].state.InProgress? && a.activeTurnId == Some(a.turns[t].id)
    && (ev.body.ActivityEvent? ==>
         AppendActivity(a.turns[t].activities, ev.body.itemId, ev.body.text, MAX_ACTIVITIES).Some?)
  }

  /** The schema turns down an event only when it ends a turn of an agent whose acceptances are still to be verified. */
  lemma EventFailsIffUnverified(c: Catalog, ev: Event, now: nat, env: Env)
    requires Good(c) && env.formatsOk
    ensures ApplyEvent(c, ev, now, env).1.FailedRecord? <==>
      && Lands(c, ev) && ev.body.TerminalEvent?
      && Unverified(c.agents[Locate(c.agents, ev.agentId).value].operations)
  {
    hide HistoryOk, SchemaOk, PairingOk, OperationShape, PendingOk, WindowsOk, Evolves, AppendActivity, Unverified;
    hide WithActivity, WithTerminal;
    if Lands(c, ev) {
      var a := c.agents[Locate(c.agents, ev.agentId).value];
      var t := TurnIndex(a.turns, ev.turnId);
      match ev.body
      case ActivityEvent(itemId, text) =>
        var acts := AppendActivity(a.turns[t].activities, itemId, text, MAX_ACTIVITIES).value;
        WithActivityOk(a, t, itemId, text, ev.fence, now);
        WithActivityMeetsSchema(a, t, acts, ev.fence, now);
      case TerminalEvent(outcome) =>
        WithTerminalOk(a, t, outcome, ev.fence, now);
        WithTerminalMeetsSchema(a, t, outcome, ev.fence, now);
    }
  }

  lemma RejectionNeverFails(c: Catalog, agentId: string, operationId: Option<string>, now: nat, env: Env)
    requires Good(c) && env.formatsOk
    ensures !ApplyRejection(c, agentId, operationId, now, env).1.FailedRecord?
  {
    hide HistoryOk, SchemaOk, PairingOk, OperationShape, PendingOk, WindowsOk, Evolves, WithRejection;
    var at := Locate(c.agents, agentId);
    if at.Some? && operationId.Some? {
      var a := c.agents[at.value];
      var o := OperationIndex(a.operations, operationId.value);
      if o < |a.operations| && a.operations[o].state.Requested? {
        var e := ExchangeIndex(a.exchanges, operationId.value);
        WithRejectionOk(a, o, e, now);
        RejectionMeetsSchema(a, o, e, now);
      }
    }
  }

  lemma RejectionMeetsSchema(a: Agent, o: nat, e: nat, now: nat)
    requires RecordOk(a) && SchemaOk(a) && o < |a.operations| && a.operations[o].state.Requested?
    requires e == ExchangeIndex(a.exchanges, a.operations[o].operationId)
    ensures SchemaOk(WithRejection(a, o, e, now))
  {
    hide RecordOk, SchemaOk;
    if e < |a.exchanges| {
      PairedPrompt(a, o, e);
      WithRefusalMeetsSchema(a, o, e, now);
      assert WithRejection(a, o, e, now) == WithRefusal(a, o, e, now);
    } else {
      NoExchangeMeansStop(a, o);
      StopRejectedMeetsSchema(a, o, now);
    }
  }

  lemma InterruptNeverFails(c: Catalog, agentId: string, operationId: string, threadId: string, turnId: string,
                            delivered: bool, fence: Fence, now: nat, env: Env)
    requires Good(c) && env.formatsOk
    ensures !ApplyInterruptOutcome(c, agentId, operationId, threadId, turnId, delivered, fence, now, env).1.FailedRecord?
  {
    hide HistoryOk, SchemaOk, PairingOk, OperationShape, PendingOk, WindowsOk, Evolves, WithInterruptOutcome;
    var at := Locate(c.agents, agentId);
    if at.Some? {
      var a := c.agents[at.value];
      var o := OperationIndex(a.operations, operationId);
      if a.pendingInterrupt.Some? && a.pendingInterrupt.value.operationId == operationId && o < |a.operations|
         && ClassifyEventFence(a.fence, fence).Advances? {
        WithInterruptOutcomeOk(a, o, delivered, fence, now);
        WithInterruptOutcomeMeetsSchema(a, o, delivered, fence, now);
      }
    }
  }

  /** A reconciliation that reaches its agent fails exactly when it does not bring what the record needs. */
  lemma ReconciliationFailsIff(c: Catalog, agentId: string, threadId: string, target: Target, turn: Option<string>,
                               turnRuns: bool, fence: Fence, now: nat, env: Env)
    requires Good(c) && env.formatsOk
    ensures
      var at := Locate(c.agents, agentId);
      ApplyReconciliation(c, agentId, threadId, target, turn, turnRuns, fence, now, env).1.FailedRecord? <==>
        && at.Some? && c.agents[at.value].threadId == Some(threadId) && c.agents[at.value].resolvedTarget == Some(target)
        && !ClassifyEventFence(c.agents[at.value].fence, fence).Duplicate?
        && !Reconcilable(c.agents[at.value], fence)
  {
    hide HistoryOk, SchemaOk, PairingOk, OperationShape, PendingOk, WindowsOk, Evolves, WithReconciliation, Reconcilable;
    var at := Locate(c.agents, agentId);
    if at.Some? && c.agents[at.value].threadId == Some(threadId) {
      var a := c.agents[at.value];
      WithReconciliationOk(a, turn, turnRuns, fence, now);
      WithReconciliationMeetsSchema(a, turn, turnRuns, fence, now);
    }
  }

  /** A stored reconciliation leaves nothing to verify and the state the daemon reported. */
  lemma ReconciledState(c: Catalog, agentId: string, threadId: string, target: Target, turn: Option<string>,
                        turnRuns: bool, fence: Fence, now: nat, env: Env)
    requires Good(c)
    requires ApplyReconciliation(c, agentId, threadId, target, turn, turnRuns, fence, now, env).0 != c
    ensures
      var c', at := ApplyReconciliation(c, agentId, threadId, target, turn, turnRuns, fence, now, env).0, Locate(c.agents, agentId);
      at.Some? &&
      var a, a' := c.agents[at.value], c'.agents[at.value];
      && !Unverified(a'.operations) && a'.fence == Some(fence) && a'.activeTurnId == a.activeTurnId
      && (a'.agentState.Idle? <==> a.activeTurnId.None?)
      && (a'.agentState.Working? <==> a.activeTurnId.Some? && turn == a.activeTurnId && turnRuns)
      && (CanBegin(a') <==> !a'.agentState.Recovering? && a.pendingInterrupt.None? && !HasPendingPrompt(a.operations))
  {
    hide PairingOk, OperationShape, WindowsOk, SchemaOk, ExchangesOk, ExchangeTimesOk, TurnsFollowDeliveries;
    var a := c.agents[Locate(c.agents, agentId).value];
    AllVerified(a.operations, fence);
    SamePending(a.operations, fence);
  }

  lemma SamePending(ops: seq<Operation>, fence: Fence)
    ensures HasPendingPrompt(RefenceUnverified(ops, fence)) <==> HasPendingPrompt(ops)
  {
    var ops' := RefenceUnverified(ops, fence);
    assert forall k :: 0 <= k < |ops| ==> (PendingPrompt(ops'[k]) <==> PendingPrompt(ops[k]));
  }

  /**
   A recorded interrupt outcome: a delivered stop is accepted and blocks further calls until its
   turn ends; a failed one is given up on, and a working agent can be messaged or stopped again.
   */
  lemma InterruptSettles(c: Catalog, agentId: string, operationId: string, threadId: string, turnId: string,
                         delivered: bool, fence: Fence, now: nat, env: Env)
    requires Good(c)
    requires ApplyInterruptOutcome(c, agentId, operationId, threadId, turnId, delivered, fence, now, env).0 != c
    ensures
      var c' := ApplyInterruptOutcome(c, agentId, operationId, threadId, turnId, delivered, fence, now, env).0;
      var at := Locate(c.agents, agentId);
      at.Some? &&
      var a, a' := c.agents[at.value], c'.agents[at.value];
      var o := OperationIndex(a.operations, operationId);
      && o < |a'.operations| && a'.operations[o].kind.Stop?
      && a'.operations[o].state == (if delivered then Accepted else Indeterminate)
      && (CanBegin(a') <==> a.agentState.Working? && !delivered)
  {
    hide PairingOk, OperationShape, WindowsOk, SchemaOk, ExchangesOk, ExchangeTimesOk, TurnsFollowDeliveries;
    var a := c.agents[Locate(c.agents, agentId).value];
    var o := OperationIndex(a.operations, operationId);
    InterruptIsAStop(a, o);
    HasNative(a);
  }

  lemma HasNative(a: Agent)
    requires SchemaOk(a) && a.activeTurnId.Some?
    ensures a.threadId.Some?
  {
  }

  ghost predicate ProvedAccepted(c: Catalog, i: Intent) {
    exists n, k ::
      && 0 <= n < |c.agents| && 0 <= k < |c.agents[n].operations|
      && var o := c.agents[n].operations[k];
      && o.operationId == i.operationId && o.fingerprint == i.fingerprint && o.state.Accepted?
      && (IsPrompt(o.kind) ==> o.acceptanceFence.Some?)
  }

  lemma {:induction false} ClaimantIsStored(agents: seq<Agent>, id: string, x: Operation) returns (n: nat, k: nat)
    requires x in Claimants(agents, id)
    ensures n < |agents| && k < |agents[n].operations| && agents[n].operations[k] == x && x.operationId == id
  {
    var here := OperationsNamed(agents[0].operations, id);
    if x in here {
      n := 0;
      k :| 0 <= k < |agents[0].operations| && agents[0].operations[k] == x;
    } else {
      n, k := ClaimantIsStored(agents[1..], id, x);
      n := n + 1;
    }
  }

  /** A call is answered as already done only for the same request, accepted under a fence if it was a prompt, and durable. */
  lemma ReplayedMeansAccepted(c: Catalog, s: Step)
    requires Good(c) && (s.StepStart? || s.StepMessage? || s.StepStop?) && Answer(c, s).ReplayedOp?
    ensures s.env.durable && ProvedAccepted(c, s.i)
  {
    hide CatalogOk, Claimants, Locate, FirstAgent, CanBegin, Parses, NewAgent, WithMessage, WithStop;
    var found := Claimants(c.agents, s.i.operationId);
    var n, k := ClaimantIsStored(c.agents, s.i.operationId, found[0]);
    assert OperationRules(c.agents[n].operations[k]);
  }
}
