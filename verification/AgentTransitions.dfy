/** Every transition keeps the record invariant and undoes nothing. */
module AgentTransitions {
  import opened Common
  import opened AgentRecord
  import opened AgentReducers
  import opened AgentInvariant

  ghost predicate Keeps(a: Agent, a': Agent) {
    RecordOk(a') && Evolves(a, a')
  }

  // ----- Begin -----

  lemma NewAgentOk(i: Intent, target: TargetKind)
    ensures RecordOk(NewAgent(i, target))
  {
    var a := NewAgent(i, target);
    assert a.operations[0].operationId == a.exchanges[0].operationId;
  }

  ghost predicate MayBegin(a: Agent, operationId: string) {
    && (forall k :: 0 <= k < |a.operations| ==> a.operations[k].operationId != operationId)
    && (a.agentState.Idle? || a.agentState.Working?) && a.pendingInterrupt.None? && !HasPendingPrompt(a.operations)
  }

  lemma WithMessageOk(a: Agent, i: Intent)
    requires RecordOk(a) && MayBegin(a, i.operationId)
    ensures Keeps(a, WithMessage(a, i))
  {
    hide PairingOk, OperationShape, TurnsMatch, Runs;
    var a' := WithMessage(a, i);
    PairingAppended(a.operations, a.exchanges, a'.operations[|a.operations|], [a'.exchanges[|a.exchanges|]]);
    TurnsMatchKept(a.turns, a.turns, a.exchanges, a'.exchanges);
  }

  lemma WithStopOk(a: Agent, i: Intent)
    requires RecordOk(a) && MayBegin(a, i.operationId)
    ensures Keeps(a, WithStop(a, i))
  {
    hide PairingOk, OperationShape, TurnsMatch, Runs;
    var a' := WithStop(a, i);
    PairingAppended(a.operations, a.exchanges, a'.operations[|a.operations|], []);
    assert a.exchanges + [] == a.exchanges;
    assert a'.operations[|a.operations|].operationId == i.operationId;
  }

  // ----- Refusals -----

  /** A requested operation with an exchange is a pending prompt whose exchange names no turn yet. */
  lemma PairedPrompt(a: Agent, o: nat, e: nat)
    requires RecordOk(a) && o < |a.operations| && e < |a.exchanges|
    requires a.operations[o].operationId == a.exchanges[e].operationId && a.operations[o].state.Requested?
    ensures PendingPrompt(a.operations[o]) && a.pendingInterrupt.None?
    ensures a.exchanges[e].kind == a.operations[o].kind && a.exchanges[e].status.Requested?
    ensures a.exchanges[e].turnId.None? && a.exchanges[e].delivery.None? && a.exchanges[e].acceptedAt.None?
  {
    assert ExchangeOk(a.exchanges[e]);
    assert PendingPrompt(a.operations[o]);
  }

  lemma WithRefusalOk(a: Agent, o: nat, e: nat, now: nat)
    requires RecordOk(a) && o < |a.operations| && e < |a.exchanges|
    requires a.operations[o].operationId == a.exchanges[e].operationId && a.operations[o].state.Requested?
    ensures Keeps(a, WithRefusal(a, o, e, now))
  {
    hide PairingOk, OperationShape, TurnsMatch, Runs, HasStop;
    var a' := WithRefusal(a, o, e, now);
    PairedPrompt(a, o, e);
    PairingSettled(a.operations, a.exchanges, o, e, a'.operations[o], a'.exchanges[e]);
    TurnsMatchKept(a.turns, a.turns, a.exchanges, a'.exchanges);
  }

  /** A rejection of a prompt is a refusal; a rejection of a stop leaves the turn running. */
  lemma WithRejectionOk(a: Agent, o: nat, e: nat, now: nat)
    requires RecordOk(a) && o < |a.operations| && a.operations[o].state.Requested?
    requires e == ExchangeIndex(a.exchanges, a.operations[o].operationId)
    ensures Keeps(a, WithRejection(a, o, e, now))
  {
    hide RecordOk, Evolves;
    if e < |a.exchanges| {
      PairedPrompt(a, o, e);
      WithRefusalOk(a, o, e, now);
      assert a.operations[o].kind.Start? || a.operations[o].kind.Message?;
    } else {
      NoExchangeMeansStop(a, o);
      StopRejectedOk(a, o, now);
    }
  }

  lemma StopRejectedOk(a: Agent, o: nat, now: nat)
    requires RecordOk(a) && o < |a.operations| && a.operations[o].kind.Stop?
    ensures Keeps(a, WithRejection(a, o, |a.exchanges|, now))
  {
    hide OperationShape, TurnsMatch, Runs, HasStop, PairingOk, ExchangeShape, HasPendingPrompt;
    StopSettled(a, WithRejection(a, o, |a.exchanges|, now).operations);
  }

  lemma NoExchangeMeansStop(a: Agent, o: nat)
    requires RecordOk(a) && o < |a.operations|
    requires forall i :: 0 <= i < |a.exchanges| ==> a.exchanges[i].operationId != a.operations[o].operationId
    ensures a.operations[o].kind.Stop?
  {
    assert !HasExchange(a.exchanges, a.operations[o].operationId);
  }

  /** Changing stops only: prompts, pairing and the pending interrupt's operation stay. */
  lemma StopSettled(a: Agent, ops: seq<Operation>)
    requires RecordOk(a) && |ops| == |a.operations| && OperationsKept(a.operations, ops)
    ensures OperationShape(ops) && PairingOk(ops, a.exchanges) && OnePending(ops)
    ensures HasPendingPrompt(a.operations) <==> HasPendingPrompt(ops)
    ensures a.pendingInterrupt.Some? ==> HasStop(ops, a.pendingInterrupt.value.operationId)
  {
    hide TurnsMatch, Runs, HasStop, PairingOk, OperationShape;
    PairingKept(a.operations, ops, a.exchanges);
    assert forall k :: 0 <= k < |ops| ==> (PendingPrompt(ops[k]) <==> PendingPrompt(a.operations[k]));
    if a.pendingInterrupt.Some? {
      StopKept(a.operations, ops, a.pendingInterrupt.value.operationId);
    }
  }

  // ----- Interrupts -----

  lemma InterruptIsAStop(a: Agent, o: nat)
    requires RecordOk(a) && a.pendingInterrupt.Some?
    requires o < |a.operations| && a.operations[o].operationId == a.pendingInterrupt.value.operationId
    ensures a.operations[o].kind.Stop?
  {
    hide HistoryOk, PairingOk, OnePending;
  }

  lemma WithInterruptOutcomeOk(a: Agent, o: nat, delivered: bool, fence: Fence, now: nat)
    requires RecordOk(a) && a.pendingInterrupt.Some?
    requires o < |a.operations| && a.operations[o].operationId == a.pendingInterrupt.value.operationId
    ensures Keeps(a, WithInterruptOutcome(a, o, delivered, fence, now))
  {
    hide OperationShape, TurnsMatch, Runs, HasStop, PairingOk, ExchangeShape, HasPendingPrompt;
    InterruptIsAStop(a, o);
    StopSettled(a, WithInterruptOutcome(a, o, delivered, fence, now).operations);
  }

  // ----- Events -----

  ghost predicate RunningAt(a: Agent, t: nat) {
    t < |a.turns| && a.turns[t].state.InProgress? && a.activeTurnId == Some(a.turns[t].id)
  }

  lemma WithActivityOk(a: Agent, t: nat, itemId: string, text: string, fence: Fence, now: nat)
    requires RecordOk(a) && RunningAt(a, t)
    requires AppendActivity(a.turns[t].activities, itemId, text, MAX_ACTIVITIES).Some?
    ensures Keeps(a, WithActivity(a, t, AppendActivity(a.turns[t].activities, itemId, text, MAX_ACTIVITIES).value, fence, now))
  {
    hide OperationShape, TurnsMatch, HasStop, PairingOk, AppendActivity, ActivitiesOk, ExchangeShape;
    var acts := AppendActivity(a.turns[t].activities, itemId, text, MAX_ACTIVITIES).value;
    var a' := WithActivity(a, t, acts, fence, now);
    AppendKeepsActivitiesOk(a.turns[t].activities, itemId, text, MAX_ACTIVITIES);
    TurnsMatchKept(a.turns, a'.turns, a.exchanges, a.exchanges);
    assert a'.turns[t].state.InProgress?;
  }

  lemma WithTerminalOk(a: Agent, t: nat, outcome: TurnState, fence: Fence, now: nat)
    requires RecordOk(a) && RunningAt(a, t) && !outcome.InProgress?
    ensures Keeps(a, WithTerminal(a, t, outcome, fence, now))
  {
    hide OperationShape, TurnsMatch, HasStop, PairingOk, ActivitiesOk, ExchangeShape;
    var a' := WithTerminal(a, t, outcome, fence, now);
    TurnsMatchKept(a.turns, a'.turns, a.exchanges, a.exchanges);
    StopSettled(a, a'.operations);
  }

  lemma WithReconciliationOk(a: Agent, turnId: Option<string>, turnRuns: bool, fence: Fence, now: nat)
    requires RecordOk(a)
    ensures Keeps(a, WithReconciliation(a, turnId, turnRuns, fence, now))
  {
    hide OperationShape, TurnsMatch, HasStop, PairingOk, ExchangeShape, Runs;
    StopSettled(a, RefenceUnverified(a.operations, fence));
  }
}
