/** When an accepted receipt builds a record the schema accepts. */
module AgentSchemaAcceptance {
  import opened Common
  import opened AgentRecord
  import opened AgentSchema
  import opened AgentReducers
  import opened AgentInvariant
  import opened AgentTransitions
  import opened AgentAcceptance
  import opened AgentSchemaKept

  /** What an accepted receipt agrees with: the agent's place, and where its operation expected to go. */
  ghost predicate Agrees(a: Agent, o: nat, r: Receipt)
    requires o < |a.operations|
  {
    var p := a.operations[o].preDispatch;
    && (a.agentState.Idle? || a.agentState == p.agentState)
    && r.resolvedTarget.kind == a.requestedTarget
    && (a.threadId.Some? ==> a.threadId == Some(r.threadId))
    && (a.resolvedTarget.Some? ==> a.resolvedTarget == Some(r.resolvedTarget))
    && ClassifyAcceptanceFence(a.fence, r.fence).Advances?
    && (a.operations[o].kind.Message? ==>
         && (p.agentState.Idle? ==> r.delivery.Started?)
         && (r.delivery.Steered? && p.agentState.Working? ==> p.turnId == Some(r.turnId))
         && (r.delivery.Started? && p.agentState.Working? ==>
              p.turnId != Some(r.turnId) && HasSettledTurn(a.turns, p.turnId)))
  }

  lemma AcceptAgrees(a: Agent, o: nat, e: nat, r: Receipt)
    requires Paired(a, o, e) && Decision(a, o, e, r).Accept?
    ensures Agrees(a, o, r)
  {
    hide HasSettledTurn;
    var p := a.operations[o].preDispatch;
    if a.operations[o].kind.Message? && r.delivery.Started? && p.agentState.Working? {
      var t := TurnIndex(a.turns, p.turnId.value);
      assert Some(a.turns[t].id) == p.turnId && !a.turns[t].state.InProgress?;
      SettledAt(a.turns, t);
    }
  }

  lemma SettledAt(turns: seq<Turn>, t: nat)
    requires t < |turns| && !turns[t].state.InProgress?
    ensures HasSettledTurn(turns, Some(turns[t].id))
  {
  }

  /** An agent that can take a delivery has nothing left to verify. */
  lemma NothingUnverified(a: Agent, o: nat, r: Receipt)
    requires SchemaOk(a) && o < |a.operations| && IsPrompt(a.operations[o].kind) && Agrees(a, o, r)
    ensures !Unverified(a.operations)
  {
    hide Unverified, HasAcceptedPrompt, HasTurn, HasSettledTurn;
    assert OperationRules(a.operations[o]);
  }

  /** Without a fence nothing but the start was ever recorded. */
  lemma OnlyTheStart(a: Agent)
    requires RecordOk(a) && SchemaOk(a) && !Unverified(a.operations) && a.fence.None?
    ensures |a.operations| == 1 && a.threadId.None? && a.resolvedTarget.None?
  {
    hide HistoryOk, PairingOk, PendingOk, WindowsOk;
    assert a.threadId.None?;
    assert |a.operations| > 1 ==> a.operations[1].preDispatch.threadId == a.threadId;
  }

  lemma AcceptedTurns(a: Agent, o: nat, e: nat, r: Receipt, settled: bool, now: nat)
    requires Paired(a, o, e)
    ensures var a' := WithAcceptance(a, o, e, r, settled, now);
      TurnsCarryOver(a.turns, a'.turns) && HasTurn(a'.turns, r.turnId) && a'.turns != []
  {
    var a', t := WithAcceptance(a, o, e, r, settled, now), TurnIndex(a.turns, r.turnId);
    assert a'.turns[t].id == r.turnId;
  }

  /** The receipt's fence belongs to its target; for a fenced agent that follows from the fence advancing. */
  ghost predicate FencesItsTarget(a: Agent, r: Receipt) {
    a.fence.Some? || r.fence.targetId == r.resolvedTarget.targetId
  }

  lemma AcceptedOperation(a: Agent, o: nat, e: nat, r: Receipt, settled: bool, now: nat)
    requires RecordOk(a) && SchemaOk(a) && Paired(a, o, e) && Agrees(a, o, r)
    requires a.operations[o].state.Requested? && IsPrompt(a.operations[o].kind)
    ensures var a' := WithAcceptance(a, o, e, r, settled, now);
      && (FencesItsTarget(a, r) <==> FenceFits(a', r.fence))
      && (FencesItsTarget(a, r) ==> OperationRules(a'.operations[o]) && OperationFits(a', a'.operations[o]))
  {
    hide RecordOk, Unverified, HasAcceptedPrompt, HasSettledTurn, HasTurn, InterruptRules, ExchangesRules;
    var a' := WithAcceptance(a, o, e, r, settled, now);
    assert OperationRules(a.operations[o]) && OperationFits(a, a.operations[o]);
    AcceptedTurns(a, o, e, r, settled, now);
    TurnsStillNamed(a.turns, a'.turns);
    if a.fence.Some? {
      OwnFenceFits(a);
      StillFits(a, a', a.operations[o]);
    } else {
      NothingUnverified(a, o, r);
      OnlyTheStart(a);
    }
  }

  lemma AcceptedOperations(a: Agent, o: nat, e: nat, r: Receipt, settled: bool, now: nat)
    requires RecordOk(a) && SchemaOk(a) && Paired(a, o, e) && Agrees(a, o, r)
    requires a.operations[o].state.Requested? && IsPrompt(a.operations[o].kind) && FencesItsTarget(a, r)
    ensures OperationsRules(WithAcceptance(a, o, e, r, settled, now))
  {
    hide RecordOk, SchemaOk, OperationRules, OperationFits, HasTurn, HasSettledTurn;
    var a' := WithAcceptance(a, o, e, r, settled, now);
    AcceptedTurns(a, o, e, r, settled, now);
    AcceptedOperation(a, o, e, r, settled, now);
    PartsOf(a);
    if a.fence.Some? {
      OperationsStillFit(a, a');
    } else {
      NothingUnverified(a, o, r);
      OnlyTheStart(a);
    }
  }

  lemma AcceptedExchange(a: Agent, o: nat, e: nat, r: Receipt, settled: bool, now: nat)
    requires RecordOk(a) && SchemaOk(a) && Paired(a, o, e) && Agrees(a, o, r)
    requires a.operations[o].state.Requested? && IsPrompt(a.operations[o].kind)
    ensures ExchangesRules(WithAcceptance(a, o, e, r, settled, now))
  {
    hide RecordOk, NativeRules, InterruptRules, CreatingRules, HasTurn, HasSettledTurn, TurnsCarryOver;
    var a' := WithAcceptance(a, o, e, r, settled, now);
    AcceptedTurns(a, o, e, r, settled, now);
    TurnsStillNamed(a.turns, a'.turns);
    PairedPrompt(a, o, e);
    assert ExchangeFits(a.turns, a.exchanges[e], a.operations[o]);
    assert OperationRules(a.operations[o]) && OperationFits(a, a.operations[o]);
    PairStillFits(a, a', o, e);
  }

  /**
   An accepted receipt builds a record that meets the rest of the schema, provided a first receipt
   is fenced by the target it names.
   */
  lemma AcceptanceMeetsSchema(a: Agent, o: nat, e: nat, r: Receipt, now: nat)
    requires RecordOk(a) && SchemaOk(a) && Paired(a, o, e) && Decision(a, o, e, r).Accept?
    ensures var a' := WithAcceptance(a, o, e, r, Decision(a, o, e, r).steeredIntoSettledTurn, now);
      SchemaOk(a') <==> FencesItsTarget(a, r)
  {
    hide RecordOk, OperationsRules, ExchangesRules, Agrees, DecideAcceptance, HasTurn, FenceFits;
    var settled := Decision(a, o, e, r).steeredIntoSettledTurn;
    var a' := WithAcceptance(a, o, e, r, settled, now);
    AcceptMeans(a, o, e, r);
    AcceptAgrees(a, o, e, r);
    PairedPrompt(a, o, e);
    NothingUnverified(a, o, r);
    AcceptedOperation(a, o, e, r, settled, now);
    AcceptedExchange(a, o, e, r, settled, now);
    AcceptedTurns(a, o, e, r, settled, now);
    if FencesItsTarget(a, r) {
      AcceptedOperations(a, o, e, r, settled, now);
      assert NativeRules(a') by { AcceptedNative(a, o, e, r, settled, now); }
    }
  }

  lemma AcceptedNative(a: Agent, o: nat, e: nat, r: Receipt, settled: bool, now: nat)
    requires Paired(a, o, e) && Agrees(a, o, r) && SchemaOk(a) && IsPrompt(a.operations[o].kind)
    requires a.operations[o].state.Requested?
    requires FenceFits(WithAcceptance(a, o, e, r, settled, now), r.fence)
    ensures NativeRules(WithAcceptance(a, o, e, r, settled, now))
  {
    hide InterruptRules, CreatingRules, ExchangesRules, OperationFits, HasAcceptedPrompt, HasSettledTurn;
    var a' := WithAcceptance(a, o, e, r, settled, now);
    AcceptedTurns(a, o, e, r, settled, now);
    NothingUnverified(a, o, r);
    assert OperationRules(a.operations[o]);
    assert forall k :: 0 <= k < |a.operations| ==> !a.operations[k].acceptanceUnverified;
  }
}
