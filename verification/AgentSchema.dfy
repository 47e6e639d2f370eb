/** The cross-field rules the persisted schema puts on operations, exchanges and fences. */
module AgentSchema {
  import opened Common
  import opened AgentRecord

  predicate NativePreDispatch(p: PreDispatch) {
    p.threadId.Some? || p.turnId.Some? || p.fence.Some?
  }

  /** What one stored operation must satisfy by itself. */
  predicate OperationRules(o: Operation) {
    && o.createdAt <= o.updatedAt
    && (o.noOp ==> o.kind.Stop?)
    && (o.acceptanceFence.Some? ==> o.state.Accepted?)
    && (o.acceptanceUnverified ==> o.state.Accepted? && IsPrompt(o.kind) && o.acceptanceFence.None?)
    && (IsPrompt(o.kind) && o.state.Accepted? ==> o.turnId.Some? && (o.acceptanceFence.Some? || o.acceptanceUnverified))
    && (o.kind.Start? ==> o.preDispatch.agentState.Creating? && !NativePreDispatch(o.preDispatch))
    && (!o.kind.Start? ==> SentFromThread(o))
    && (o.kind.Stop? ==> StopAimed(o))
  }

  /** An operation on an existing agent was sent from an operational state of a known thread. */
  predicate SentFromThread(o: Operation) {
    var p := o.preDispatch;
    && p.threadId.Some? && (p.fence.Some? || o.acceptanceUnverified)
    && (p.agentState.Idle? || p.agentState.Working?)
    && (p.agentState.Idle? <==> p.turnId.None?)
  }

  /** A stop is aimed at the turn that was running, or is an accepted no-op. */
  predicate StopAimed(o: Operation) {
    if o.noOp then o.state.Accepted? && o.turnId.None? else o.turnId.Some? && o.turnId == o.preDispatch.turnId
  }

  predicate FenceFits(a: Agent, f: Fence) {
    a.resolvedTarget.Some? && f.targetId == a.resolvedTarget.value.targetId
  }

  /** A fence of the agent's own daemon and generation is not ahead of the agent's. */
  predicate NotAhead(a: Agent, f: Fence) {
    a.fence.Some? && f.daemonInstanceId == a.fence.value.daemonInstanceId && f.generation == a.fence.value.generation ==>
      f.lastEventId <= a.fence.value.lastEventId
  }

  predicate FenceOk(a: Agent, f: Option<Fence>) {
    f.Some? ==> FenceFits(a, f.value) && NotAhead(a, f.value)
  }

  predicate TurnNamed(a: Agent, id: Option<string>) {
    id.Some? ==> HasTurn(a.turns, id.value)
  }

  /** What a stored operation must satisfy within its record. */
  predicate OperationFits(a: Agent, o: Operation) {
    && a.createdAt <= o.createdAt && o.updatedAt <= a.updatedAt
    && TurnNamed(a, o.turnId) && TurnNamed(a, o.preDispatch.turnId)
    && (o.preDispatch.threadId.Some? ==> o.preDispatch.threadId == a.threadId)
    && FenceOk(a, o.preDispatch.fence) && FenceOk(a, o.acceptanceFence)
  }

  predicate HasSettledTurn(turns: seq<Turn>, id: Option<string>) {
    exists t :: 0 <= t < |turns| && Some(turns[t].id) == id && !turns[t].state.InProgress?
  }

  /** An exchange repeats its operation, and a message went where its operation expected. */
  predicate ExchangeFits(turns: seq<Turn>, e: Exchange, o: Operation) {
    && e.turnId == o.turnId && e.createdAt == o.createdAt
    && (e.acceptedAt.Some? ==> o.updatedAt == e.acceptedAt.value && e.createdAt <= e.acceptedAt.value)
    && (e.kind.Message? && e.status.Accepted? && o.preDispatch.agentState.Idle? ==> e.delivery == Some(Started))
    && (e.kind.Message? && e.delivery == Some(Steered) ==>
         o.preDispatch.agentState.Working? && o.preDispatch.turnId == e.turnId)
    && (e.kind.Message? && e.delivery == Some(Started) && o.preDispatch.agentState.Working? ==>
         o.preDispatch.turnId != e.turnId && HasSettledTurn(turns, o.preDispatch.turnId))
  }

  predicate AcceptedPrompt(o: Operation) {
    IsPrompt(o.kind) && o.state.Accepted?
  }

  predicate HasAcceptedPrompt(ops: seq<Operation>) {
    exists k :: 0 <= k < |ops| && AcceptedPrompt(ops[k])
  }

  /** Something was delivered to the native agent. */
  predicate Native(a: Agent) {
    a.turns != [] || HasAcceptedPrompt(a.operations)
  }

  predicate Unverified(ops: seq<Operation>) {
    exists k :: 0 <= k < |ops| && ops[k].acceptanceUnverified
  }

  /** A thread, its target and a fence are known exactly as far as something was delivered. */
  predicate NativeRules(a: Agent) {
    && (a.resolvedTarget.Some? <==> a.threadId.Some?)
    && (Native(a) <==> a.threadId.Some?)
    && (Native(a) && !Unverified(a.operations) ==> a.fence.Some?)
    && (a.agentState.Idle? || a.activeTurnId.Some? ==> a.threadId.Some?)
    && (a.resolvedTarget.Some? ==> a.resolvedTarget.value.kind == a.requestedTarget)
    && (a.fence.Some? ==> FenceFits(a, a.fence.value))
    && (Unverified(a.operations) ==> a.agentState.Recovering? || a.agentState.Unavailable?)
  }

  predicate CreatingRules(a: Agent) {
    a.agentState.Creating? ==>
      && !Native(a) && a.resolvedTarget.None? && a.activeTurnId.None? && a.pendingInterrupt.None? && a.fence.None?
      && |a.operations| == 1 && a.operations[0].kind.Start? && a.operations[0].state.Requested?
  }

  /** A pending interrupt is a stored stop, asked for at the same time and for the same turn. */
  predicate InterruptRules(a: Agent) {
    a.pendingInterrupt.Some? ==>
      var p := a.pendingInterrupt.value;
      && a.activeTurnId == Some(p.turnId) && a.createdAt <= p.requestedAt <= a.updatedAt
      && forall k | 0 <= k < |a.operations| :: a.operations[k].operationId == p.operationId ==>
           && a.operations[k].kind.Stop? && a.operations[k].turnId == Some(p.turnId)
           && a.operations[k].createdAt == p.requestedAt
  }

  predicate OperationsRules(a: Agent) {
    forall k :: 0 <= k < |a.operations| ==> OperationRules(a.operations[k]) && OperationFits(a, a.operations[k])
  }

  predicate ExchangesRules(a: Agent) {
    forall i, k | 0 <= i < |a.exchanges| && 0 <= k < |a.operations| ::
      a.exchanges[i].operationId == a.operations[k].operationId ==>
        ExchangeFits(a.turns, a.exchanges[i], a.operations[k])
  }

  /** The record passes the rest of the schema's rules. */
  predicate SchemaOk(a: Agent) {
    NativeRules(a) && CreatingRules(a) && InterruptRules(a) && OperationsRules(a) && ExchangesRules(a)
  }
}
