/** When a transition builds a record the schema accepts. */
module AgentSchemaKept {
  import opened Common
  import opened AgentRecord
  import opened AgentSchema
  import opened AgentReducers
  import opened AgentInvariant
  import opened AgentTransitions

  // ----- What carries over -----

  /** Turns are kept in place, and settled ones stay settled. */
  ghost predicate TurnsCarryOver(turns: seq<Turn>, turns': seq<Turn>) {
    && |turns| <= |turns'|
    && forall t :: 0 <= t < |turns| ==>
         turns'[t].id == turns[t].id && (!turns[t].state.InProgress? ==> !turns'[t].state.InProgress?)
  }

  lemma TurnsStillNamed(turns: seq<Turn>, turns': seq<Turn>)
    requires TurnsCarryOver(turns, turns')
    ensures forall id :: HasTurn(turns, id) ==> HasTurn(turns', id)
    ensures forall id :: HasSettledTurn(turns, id) ==> HasSettledTurn(turns', id)
  {
    forall id | HasTurn(turns, id) ensures HasTurn(turns', id) {
      var t :| 0 <= t < |turns| && turns[t].id == id;
      assert turns'[t].id == id;
    }
    forall id | HasSettledTurn(turns, id) ensures HasSettledTurn(turns', id) {
      var t :| 0 <= t < |turns| && Some(turns[t].id) == id && !turns[t].state.InProgress?;
      assert turns'[t].id == turns[t].id;
    }
  }

  /** The record's own place only moves forward: what fitted it still fits. */
  ghost predicate CarriesOver(a: Agent, a': Agent) {
    && a'.createdAt == a.createdAt && a'.updatedAt >= a.updatedAt
    && TurnsCarryOver(a.turns, a'.turns)
    && (a.threadId.Some? ==> a'.threadId == a.threadId)
    && (a.resolvedTarget.Some? ==> a'.resolvedTarget == a.resolvedTarget)
    && (a'.fence == a.fence || (a.fence.Some? && a'.fence.Some? && ClassifyAcceptanceFence(a.fence, a'.fence.value).Advances?))
  }

  lemma StillFits(a: Agent, a': Agent, o: Operation)
    requires CarriesOver(a, a') && OperationFits(a, o)
    ensures OperationFits(a', o)
  {
    TurnsStillNamed(a.turns, a'.turns);
  }

  /** Each operation is as it was, or meets its rules in the new record. */
  lemma OperationsStillFit(a: Agent, a': Agent)
    requires CarriesOver(a, a') && OperationsRules(a) && |a.operations| <= |a'.operations|
    requires forall k :: 0 <= k < |a'.operations| ==>
      || (k < |a.operations| && a'.operations[k] == a.operations[k])
      || (OperationRules(a'.operations[k]) && OperationFits(a', a'.operations[k]))
    ensures OperationsRules(a')
  {
    hide OperationRules, OperationFits, CarriesOver;
    forall k | 0 <= k < |a'.operations| ensures OperationRules(a'.operations[k]) && OperationFits(a', a'.operations[k]) {
      if k < |a.operations| && a'.operations[k] == a.operations[k] {
        StillFits(a, a', a.operations[k]);
      }
    }
  }

  /** What an operation shares with its exchange. */
  ghost predicate SameDelivery(o: Operation, o': Operation) {
    && o'.operationId == o.operationId && o'.turnId == o.turnId && o'.createdAt == o.createdAt
    && o'.updatedAt == o.updatedAt && o'.preDispatch == o.preDispatch
  }

  ghost predicate HasNoExchange(exs: seq<Exchange>, id: string) {
    forall i :: 0 <= i < |exs| ==> exs[i].operationId != id
  }

  /** Operations without an exchange may change; the others keep what they share with it. */
  lemma ExchangesStillFit(a: Agent, a': Agent)
    requires ExchangesRules(a) && TurnsCarryOver(a.turns, a'.turns) && a'.exchanges == a.exchanges
    requires forall k :: 0 <= k < |a'.operations| ==>
      || HasNoExchange(a.exchanges, a'.operations[k].operationId)
      || (k < |a.operations| && SameDelivery(a.operations[k], a'.operations[k]))
    ensures ExchangesRules(a')
  {
    TurnsStillNamed(a.turns, a'.turns);
    hide HasTurn, HasSettledTurn, TurnsCarryOver;
    forall i, k | 0 <= i < |a'.exchanges| && 0 <= k < |a'.operations|
      && a'.exchanges[i].operationId == a'.operations[k].operationId
      ensures ExchangeFits(a'.turns, a'.exchanges[i], a'.operations[k])
    {
      assert ExchangeFits(a.turns, a.exchanges[i], a.operations[k]);
    }
  }

  lemma StopHasNoExchange(a: Agent, k: nat)
    requires RecordOk(a) && k < |a.operations| && a.operations[k].kind.Stop?
    ensures HasNoExchange(a.exchanges, a.operations[k].operationId)
  {
    hide TurnHistoryOk, ExchangeTimesOk, TurnsFollowDeliveries, OperationShape, PendingOk, WindowsOk, TurnsMatch;
    forall i | 0 <= i < |a.exchanges| ensures a.exchanges[i].operationId != a.operations[k].operationId {
      assert ExchangeOk(a.exchanges[i]);
    }
  }

  lemma NewIdHasNoExchange(a: Agent, id: string)
    requires RecordOk(a) && forall k :: 0 <= k < |a.operations| ==> a.operations[k].operationId != id
    ensures HasNoExchange(a.exchanges, id)
  {
    hide HistoryOk, OperationShape, PendingOk, WindowsOk;
    forall i | 0 <= i < |a.exchanges| ensures a.exchanges[i].operationId != id {
      assert HasOperation(a.operations, a.exchanges[i].operationId);
    }
  }

  /** One operation and its exchange change together. */
  lemma PairStillFits(a: Agent, a': Agent, o: nat, e: nat)
    requires RecordOk(a) && ExchangesRules(a) && TurnsCarryOver(a.turns, a'.turns)
    requires o < |a.operations| && e < |a.exchanges| && a.operations[o].operationId == a.exchanges[e].operationId
    requires |a'.operations| == |a.operations| && a'.operations == a.operations[o := a'.operations[o]]
    requires |a'.exchanges| == |a.exchanges| && a'.exchanges == a.exchanges[e := a'.exchanges[e]]
    requires a'.operations[o].operationId == a'.exchanges[e].operationId == a.operations[o].operationId
    requires ExchangeFits(a'.turns, a'.exchanges[e], a'.operations[o])
    ensures ExchangesRules(a')
  {
    hide HistoryOk, PendingOk, WindowsOk;
    TurnsStillNamed(a.turns, a'.turns);
    hide HasTurn, HasSettledTurn, TurnsCarryOver;
    forall i, k | 0 <= i < |a'.exchanges| && 0 <= k < |a'.operations|
      && a'.exchanges[i].operationId == a'.operations[k].operationId
      ensures ExchangeFits(a'.turns, a'.exchanges[i], a'.operations[k])
    {
      if i != e {
        assert a.exchanges[i].operationId != a.exchanges[e].operationId;
        assert ExchangeFits(a.turns, a.exchanges[i], a.operations[k]);
      } else {
        assert k == o;
      }
    }
  }

  /** The same prompts are accepted and the same ones await verification. */
  ghost predicate SameAcceptances(ops: seq<Operation>, ops': seq<Operation>) {
    && |ops| <= |ops'|
    && (forall k :: 0 <= k < |ops| ==>
         && (AcceptedPrompt(ops'[k]) <==> AcceptedPrompt(ops[k]))
         && (ops'[k].acceptanceUnverified <==> ops[k].acceptanceUnverified))
    && (forall k :: |ops| <= k < |ops'| ==> !AcceptedPrompt(ops'[k]) && !ops'[k].acceptanceUnverified)
  }

  lemma AcceptancesCarryOver(ops: seq<Operation>, ops': seq<Operation>)
    requires SameAcceptances(ops, ops')
    ensures HasAcceptedPrompt(ops') <==> HasAcceptedPrompt(ops)
    ensures Unverified(ops') <==> Unverified(ops)
  {
    if HasAcceptedPrompt(ops) {
      var k :| 0 <= k < |ops| && AcceptedPrompt(ops[k]);
      assert AcceptedPrompt(ops'[k]);
    }
    if Unverified(ops) {
      var k :| 0 <= k < |ops| && ops[k].acceptanceUnverified;
      assert ops'[k].acceptanceUnverified;
    }
  }

  /** With thread and target in place, the native rules only look at the agent's state. */
  lemma NativeStillFits(a: Agent, a': Agent)
    requires NativeRules(a) && CarriesOver(a, a') && SameAcceptances(a.operations, a'.operations)
    requires a'.threadId == a.threadId && a'.resolvedTarget == a.resolvedTarget && a'.requestedTarget == a.requestedTarget
    requires |a'.turns| == |a.turns|
    requires a'.agentState == a.agentState || a'.agentState.Recovering? || a'.agentState.Unavailable?
          || (a.threadId.Some? && !Unverified(a.operations))
    requires a'.activeTurnId.Some? ==> a'.activeTurnId == a.activeTurnId
    ensures NativeRules(a')
  {
    AcceptancesCarryOver(a.operations, a'.operations);
    hide HasAcceptedPrompt, Unverified;
  }

  /** The pending interrupt, if it is still pending, keeps its stop. */
  lemma InterruptStillFits(a: Agent, a': Agent)
    requires RecordOk(a) && InterruptRules(a) && a'.createdAt == a.createdAt && a'.updatedAt >= a.updatedAt
    requires a'.pendingInterrupt.Some? ==> a'.pendingInterrupt == a.pendingInterrupt && a'.activeTurnId == a.activeTurnId
    requires |a.operations| <= |a'.operations|
    requires forall k :: 0 <= k < |a.operations| ==>
      && a'.operations[k].operationId == a.operations[k].operationId && a'.operations[k].kind == a.operations[k].kind
      && (a.operations[k].kind.Stop? ==> a'.operations[k].turnId == a.operations[k].turnId)
      && a'.operations[k].createdAt == a.operations[k].createdAt
    requires |a'.operations| > |a.operations| ==> a'.pendingInterrupt.None?
    ensures InterruptRules(a')
  {
  }

  // ----- Begin -----

  lemma NewAgentMeetsSchema(i: Intent, target: TargetKind)
    ensures SchemaOk(NewAgent(i, target))
  {
  }

  /** An operational agent with a thread and a fence can be sent to. */
  ghost predicate Reachable(a: Agent) {
    a.threadId.Some? && a.fence.Some? && (a.agentState.Idle? || a.agentState.Working?)
  }

  lemma IdleMeansNoTurn(a: Agent)
    requires RecordOk(a) && Reachable(a)
    ensures (a.agentState.Idle? <==> a.activeTurnId.None?) && a.createdAt <= a.updatedAt
  {
  }

  lemma SendFits(a: Agent, a': Agent, o: Operation)
    requires RecordOk(a) && SchemaOk(a) && Reachable(a) && CarriesOver(a, a')
    requires o.preDispatch == StandingOf(a) && o.acceptanceFence.None? && a.updatedAt <= o.createdAt && o.updatedAt <= a'.updatedAt
    requires o.turnId.None? || o.turnId == a.activeTurnId
    ensures OperationFits(a', o)
  {
    hide PairingOk, OperationShape, ExchangesOk, ExchangeTimesOk, TurnsFollowDeliveries, PendingOk, WindowsOk;
    TurnsStillNamed(a.turns, a'.turns);
    if a.activeTurnId.Some? {
      var t :| 0 <= t < |a.turns| && a.turns[t].id == a.activeTurnId.value && a.turns[t].state.InProgress?;
      assert HasTurn(a.turns, a.activeTurnId.value);
    }
    assert FenceFits(a, a.fence.value);
  }

  lemma WithMessageMeetsSchema(a: Agent, i: Intent)
    requires RecordOk(a) && SchemaOk(a) && Reachable(a) && MayBegin(a, i.operationId)
    ensures SchemaOk(WithMessage(a, i))
  {
    hide HistoryOk, PairingOk, OperationShape, PendingOk, WindowsOk, NativeRules, OperationFits, Unverified;
    IdleMeansNoTurn(a);
    var a' := WithMessage(a, i);
    var n := |a.operations|;
    SendFits(a, a', a'.operations[n]);
    OperationsStillFit(a, a');
    NativeStillFits(a, a');
    NewIdHasNoExchange(a, i.operationId);
    forall e, k | 0 <= e < |a'.exchanges| && 0 <= k <= n && a'.exchanges[e].operationId == a'.operations[k].operationId
      ensures ExchangeFits(a'.turns, a'.exchanges[e], a'.operations[k])
    {
      assert e < |a.exchanges| ==> a.exchanges[e].operationId != i.operationId;
    }
  }

  lemma WithStopMeetsSchema(a: Agent, i: Intent)
    requires RecordOk(a) && SchemaOk(a) && Reachable(a) && MayBegin(a, i.operationId)
    requires a.agentState.Idle? || a.activeTurnId.Some?
    ensures SchemaOk(WithStop(a, i))
  {
    hide HistoryOk, PairingOk, OperationShape, PendingOk, WindowsOk, NativeRules, OperationFits, Unverified;
    IdleMeansNoTurn(a);
    var a' := WithStop(a, i);
    SendFits(a, a', a'.operations[|a.operations|]);
    OperationsStillFit(a, a');
    NativeStillFits(a, a');
    NewIdHasNoExchange(a, i.operationId);
    ExchangesStillFit(a, a');
  }

  // ----- Refusals -----

  lemma WithRefusalMeetsSchema(a: Agent, o: nat, e: nat, now: nat)
    requires RecordOk(a) && SchemaOk(a) && o < |a.operations| && e < |a.exchanges|
    requires a.operations[o].operationId == a.exchanges[e].operationId && a.operations[o].state.Requested?
    ensures SchemaOk(WithRefusal(a, o, e, now))
  {
    hide HistoryOk, PairingOk, OperationShape, PendingOk, WindowsOk, NativeRules, OperationFits, RecordOk;
    var a' := WithRefusal(a, o, e, now);
    PairedPrompt(a, o, e);
    RequestedFits(a, a', o);
    OperationsStillFit(a, a');
    NativeStillFits(a, a');
    assert ExchangeFits(a.turns, a.exchanges[e], a.operations[o]);
    PairStillFits(a, a', o, e);
  }

  /** A requested operation that is given up on stays within its rules. */
  lemma RequestedFits(a: Agent, a': Agent, o: nat)
    requires OperationsRules(a) && CarriesOver(a, a') && o < |a.operations| && a.operations[o].state.Requested?
    ensures var op := a.operations[o].(state := Indeterminate, updatedAt := a'.updatedAt);
      OperationRules(op) && OperationFits(a', op)
  {
    StillFits(a, a', a.operations[o]);
  }

  lemma StopRejectedMeetsSchema(a: Agent, o: nat, now: nat)
    requires RecordOk(a) && SchemaOk(a) && o < |a.operations| && a.operations[o].kind.Stop? && a.operations[o].state.Requested?
    ensures SchemaOk(WithRejection(a, o, |a.exchanges|, now))
  {
    hide RecordOk, NativeRules, OperationFits, OperationRules, InterruptRules, ExchangesRules, Unverified;
    var a' := WithRejection(a, o, |a.exchanges|, now);
    RequestedFits(a, a', o);
    OperationsStillFit(a, a');
    NativeStillFits(a, a');
    InterruptStillFits(a, a');
    StopHasNoExchange(a, o);
    ExchangesStillFit(a, a');
  }

  // ----- Interrupts and events -----

  lemma WithInterruptOutcomeMeetsSchema(a: Agent, o: nat, delivered: bool, fence: Fence, now: nat)
    requires RecordOk(a) && SchemaOk(a) && a.pendingInterrupt.Some?
    requires o < |a.operations| && a.operations[o].operationId == a.pendingInterrupt.value.operationId
    requires ClassifyEventFence(a.fence, fence).Advances?
    ensures SchemaOk(WithInterruptOutcome(a, o, delivered, fence, now))
  {
    hide RecordOk, NativeRules, InterruptRules, ExchangesRules, Unverified;
    var a' := WithInterruptOutcome(a, o, delivered, fence, now);
    InterruptIsAStop(a, o);
    AimedStop(a, o);
    StillFits(a, a', a.operations[o]);
    assert FenceFits(a, a.fence.value) by { OwnFenceFits(a); }
    OperationsStillFit(a, a');
    NativeStillFits(a, a');
    InterruptStillFits(a, a');
    StopHasNoExchange(a, o);
    ExchangesStillFit(a, a');
  }

  lemma OwnFenceFits(a: Agent)
    requires SchemaOk(a) && a.fence.Some?
    ensures FenceFits(a, a.fence.value)
  {
  }

  lemma AimedStop(a: Agent, o: nat)
    requires SchemaOk(a) && a.pendingInterrupt.Some?
    requires o < |a.operations| && a.operations[o].operationId == a.pendingInterrupt.value.operationId
    ensures !a.operations[o].noOp
  {
    assert OperationRules(a.operations[o]);
  }

  lemma WithActivityMeetsSchema(a: Agent, t: nat, activities: seq<Activity>, fence: Fence, now: nat)
    requires SchemaOk(a) && t < |a.turns| && ClassifyEventFence(a.fence, fence).Advances?
    ensures SchemaOk(WithActivity(a, t, activities, fence, now))
  {
    hide NativeRules, OperationFits, OperationRules, ExchangesRules, Unverified, HasAcceptedPrompt;
    var a' := WithActivity(a, t, activities, fence, now);
    OperationsStillFit(a, a');
    NativeStillFits(a, a');
    ExchangesStillFit(a, a');
  }

  lemma SettledStopFits(a: Agent, a': Agent, k: nat, fence: Fence)
    requires SchemaOk(a) && CarriesOver(a, a') && a'.fence == Some(fence) && a.fence.Some?
    requires k < |a.operations| && a.operations[k].kind.Stop? && a.operations[k].state.Requested?
    ensures var op := a.operations[k].(state := Accepted, acceptanceFence := Some(fence), updatedAt := a'.updatedAt);
      OperationRules(op) && OperationFits(a', op)
  {
    StillFits(a, a', a.operations[k]);
    OwnFenceFits(a);
  }

  lemma TerminalOperations(a: Agent, t: nat, outcome: TurnState, fence: Fence, now: nat)
    requires RecordOk(a) && SchemaOk(a) && t < |a.turns| && !outcome.InProgress?
    requires ClassifyEventFence(a.fence, fence).Advances?
    ensures var a' := WithTerminal(a, t, outcome, fence, now);
      CarriesOver(a, a') && OperationsRules(a') && ExchangesRules(a') && SameAcceptances(a.operations, a'.operations)
  {
    hide RecordOk, SchemaOk, OperationRules, OperationFits, ExchangesRules;
    var a' := WithTerminal(a, t, outcome, fence, now);
    forall k | 0 <= k < |a.operations| && a'.operations[k] != a.operations[k]
      ensures OperationRules(a'.operations[k]) && OperationFits(a', a'.operations[k])
      ensures HasNoExchange(a.exchanges, a.operations[k].operationId)
    {
      SettledStopFits(a, a', k, fence);
      StopHasNoExchange(a, k);
    }
    assert OperationsRules(a) && ExchangesRules(a) by { PartsOf(a); }
    OperationsStillFit(a, a');
    ExchangesStillFit(a, a');
  }

  lemma PartsOf(a: Agent)
    requires SchemaOk(a)
    ensures NativeRules(a) && CreatingRules(a) && InterruptRules(a) && OperationsRules(a) && ExchangesRules(a)
  {
  }

  /** A turn's end is recordable unless an acceptance still has to be verified: that forbids an idle agent. */
  lemma WithTerminalMeetsSchema(a: Agent, t: nat, outcome: TurnState, fence: Fence, now: nat)
    requires RecordOk(a) && SchemaOk(a) && RunningAt(a, t) && !outcome.InProgress?
    requires ClassifyEventFence(a.fence, fence).Advances?
    ensures SchemaOk(WithTerminal(a, t, outcome, fence, now)) <==> !Unverified(a.operations)
  {
    hide RecordOk, OperationsRules, ExchangesRules, HasAcceptedPrompt, Unverified;
    var a' := WithTerminal(a, t, outcome, fence, now);
    TerminalOperations(a, t, outcome, fence, now);
    AcceptancesCarryOver(a.operations, a'.operations);
    if !Unverified(a.operations) {
      NativeStillFits(a, a');
    }
  }

  // ----- Reconciliation -----

  ghost predicate NotPast(f: Option<Fence>, fence: Fence) {
    f.Some? && f.value.daemonInstanceId == fence.daemonInstanceId && f.value.generation == fence.generation ==>
      f.value.lastEventId <= fence.lastEventId
  }

  /**
   What a reconciliation must bring: a fence of the agent's own target, behind no fence recorded of
   the same daemon and generation; and a message still to be verified must have recorded the fence
   it was sent at.
   */
  ghost predicate Reconcilable(a: Agent, fence: Fence) {
    && FenceFits(a, fence)
    && forall k :: 0 <= k < |a.operations| ==>
         var o := a.operations[k];
         && NotPast(o.preDispatch.fence, fence) && NotPast(o.acceptanceFence, fence)
         && (o.acceptanceUnverified && o.kind.Message? ==> o.preDispatch.fence.Some?)
  }

  lemma ReconciledOperations(a: Agent, turnId: Option<string>, turnRuns: bool, fence: Fence, now: nat)
    requires SchemaOk(a)
    ensures var a' := WithReconciliation(a, turnId, turnRuns, fence, now);
      FenceFits(a, fence) ==> (OperationsRules(a') <==> Reconcilable(a, fence))
  {
    hide NativeRules, CreatingRules, InterruptRules, ExchangesRules, Runs, HasTurn;
    var a' := WithReconciliation(a, turnId, turnRuns, fence, now);
    assert forall k :: 0 <= k < |a.operations| ==> OperationRules(a.operations[k]) && OperationFits(a, a.operations[k]);
    if FenceFits(a, fence) && OperationsRules(a') {
      forall k | 0 <= k < |a.operations|
        ensures var o := a.operations[k];
          && NotPast(o.preDispatch.fence, fence) && NotPast(o.acceptanceFence, fence)
          && (o.acceptanceUnverified && o.kind.Message? ==> o.preDispatch.fence.Some?)
      {
        assert OperationRules(a'.operations[k]) && OperationFits(a', a'.operations[k]);
      }
    }
  }

  /** A reconciled record is one the schema accepts exactly when the reconciliation brings what it must. */
  lemma WithReconciliationMeetsSchema(a: Agent, turnId: Option<string>, turnRuns: bool, fence: Fence, now: nat)
    requires RecordOk(a) && SchemaOk(a) && a.threadId.Some?
    ensures SchemaOk(WithReconciliation(a, turnId, turnRuns, fence, now)) <==> Reconcilable(a, fence)
  {
    hide RecordOk, OperationsRules, ExchangesRules, Reconcilable, InterruptRules, Runs;
    var a' := WithReconciliation(a, turnId, turnRuns, fence, now);
    ReconciledOperations(a, turnId, turnRuns, fence, now);
    AllVerified(a.operations, fence);
    ExchangesStillFit(a, a');
    InterruptStillFits(a, a');
    if Reconcilable(a, fence) || SchemaOk(a') {
      assert FenceFits(a, fence) by { ReconcilableFits(a, fence); }
    }
  }

  lemma ReconcilableFits(a: Agent, fence: Fence)
    ensures Reconcilable(a, fence) ==> FenceFits(a, fence)
  {
  }

  /** Nothing is left to verify, and the same prompts are accepted. */
  lemma AllVerified(ops: seq<Operation>, fence: Fence)
    ensures !Unverified(RefenceUnverified(ops, fence))
    ensures HasAcceptedPrompt(RefenceUnverified(ops, fence)) <==> HasAcceptedPrompt(ops)
  {
    var ops' := RefenceUnverified(ops, fence);
    assert forall k :: 0 <= k < |ops| ==> (AcceptedPrompt(ops'[k]) <==> AcceptedPrompt(ops[k]));
  }
}
