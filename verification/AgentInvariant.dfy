/** The invariant every transition keeps, and what no transition ever undoes. */
module AgentInvariant {
  import opened Common
  import opened AgentRecord
  import opened AgentReducers

  ghost predicate HasOperation(ops: seq<Operation>, id: string) {
    exists k :: 0 <= k < |ops| && ops[k].operationId == id
  }

  ghost predicate HasExchange(exs: seq<Exchange>, id: string) {
    exists i :: 0 <= i < |exs| && exs[i].operationId == id
  }

  /** One leading start, unique ids, and each prompt sent from a state that allows it. */
  ghost predicate OperationShape(ops: seq<Operation>) {
    && |ops| > 0
    && (forall k :: 0 <= k < |ops| ==>
         && (ops[k].kind.Start? <==> k == 0)
         && (ops[k].kind.Start? ==> ops[k].preDispatch.agentState.Creating?)
         && (ops[k].kind.Message? ==> ops[k].preDispatch.agentState.Idle? || ops[k].preDispatch.agentState.Working?))
    && (forall k, l :: 0 <= k < l < |ops| ==> ops[k].operationId != ops[l].operationId)
  }

  /** Operations and exchanges describe the same prompts: an exchange's status is its operation's state. */
  ghost predicate PairingOk(ops: seq<Operation>, exs: seq<Exchange>) {
    && (forall i, j :: 0 <= i < j < |exs| ==> exs[i].operationId != exs[j].operationId)
    && (forall i, k :: 0 <= i < |exs| && 0 <= k < |ops| && exs[i].operationId == ops[k].operationId ==>
          exs[i].kind == ops[k].kind && exs[i].status == ops[k].state)
    && (forall i :: 0 <= i < |exs| ==> HasOperation(ops, exs[i].operationId))
    && (forall k :: 0 <= k < |ops| && IsPrompt(ops[k].kind) ==> HasExchange(exs, ops[k].operationId))
  }

  ghost predicate OnePending(ops: seq<Operation>) {
    forall k, l :: 0 <= k < l < |ops| ==> !(PendingPrompt(ops[k]) && PendingPrompt(ops[l]))
  }

  ghost predicate HasStop(ops: seq<Operation>, id: string) {
    exists k :: 0 <= k < |ops| && ops[k].kind.Stop? && ops[k].operationId == id
  }

  /** At most one prompt is pending; none while an interrupt is, and the interrupt is for the active turn. */
  ghost predicate PendingOk(a: Agent) {
    && OnePending(a.operations)
    && (a.pendingInterrupt.Some? ==>
         && !HasPendingPrompt(a.operations)
         && a.activeTurnId == Some(a.pendingInterrupt.value.turnId)
         && HasStop(a.operations, a.pendingInterrupt.value.operationId))
  }

  ghost predicate WindowsOk(a: Agent) {
    forall t :: 0 <= t < |a.turns| ==> ActivitiesOk(a.turns[t].activities, MAX_ACTIVITIES)
  }

  ghost predicate RecordOk(a: Agent) {
    HistoryOk(a) && OperationShape(a.operations) && PairingOk(a.operations, a.exchanges) && PendingOk(a) && WindowsOk(a)
  }

  ghost predicate OperationEvolves(o: Operation, o': Operation) {
    && o'.operationId == o.operationId && o'.kind == o.kind && o'.fingerprint == o.fingerprint
    && o'.preDispatch == o.preDispatch && o'.createdAt == o.createdAt
    && (IsPrompt(o.kind) && !o.state.Requested? ==> o'.state == o.state && o'.turnId == o.turnId)
  }

  ghost predicate ExchangeEvolves(e: Exchange, e': Exchange) {
    && e'.operationId == e.operationId && e'.kind == e.kind && e'.prompt == e.prompt && e'.createdAt == e.createdAt
    && (!e.status.Requested? ==> e' == e)
  }

  ghost predicate TurnEvolves(t: Turn, t': Turn) {
    && t'.id == t.id && t'.updatedAt >= t.updatedAt
    && (!t.state.InProgress? ==> t'.state == t.state && t'.activities == t.activities)
  }

  /** Nothing is dropped; settled prompts, exchanges and turns keep their outcome. */
  ghost predicate Evolves(a: Agent, a': Agent) {
    && a'.agentId == a.agentId && a'.createdAt == a.createdAt && a'.updatedAt >= a.updatedAt
    && |a.operations| <= |a'.operations| && |a.exchanges| <= |a'.exchanges| && |a.turns| <= |a'.turns|
    && (forall k :: 0 <= k < |a.operations| ==> OperationEvolves(a.operations[k], a'.operations[k]))
    && (forall i :: 0 <= i < |a.exchanges| ==> ExchangeEvolves(a.exchanges[i], a'.exchanges[i]))
    && (forall t :: 0 <= t < |a.turns| ==> TurnEvolves(a.turns[t], a'.turns[t]))
  }

  lemma EvolvesReflexive(a: Agent)
    ensures Evolves(a, a)
  {
  }

  lemma EvolvesTransitive(a: Agent, b: Agent, c: Agent)
    requires Evolves(a, b) && Evolves(b, c)
    ensures Evolves(a, c)
  {
    assert forall k :: 0 <= k < |a.operations| ==> OperationEvolves(b.operations[k], c.operations[k]);
    assert forall i :: 0 <= i < |a.exchanges| ==> ExchangeEvolves(b.exchanges[i], c.exchanges[i]);
    assert forall t :: 0 <= t < |a.turns| ==> TurnEvolves(b.turns[t], c.turns[t]);
  }

  // ----- How the parts of the invariant move -----

  /** Operations keep their ids, kinds and send states; prompts keep their states. */
  ghost predicate OperationsKept(ops: seq<Operation>, ops': seq<Operation>) {
    && |ops| <= |ops'|
    && forall k :: 0 <= k < |ops| ==>
         && ops'[k].operationId == ops[k].operationId && ops'[k].kind == ops[k].kind
         && ops'[k].preDispatch == ops[k].preDispatch
         && (IsPrompt(ops[k].kind) ==> ops'[k].state == ops[k].state)
  }

  lemma OperationKept(ops: seq<Operation>, ops': seq<Operation>, id: string)
    requires |ops| <= |ops'| && HasOperation(ops, id)
    requires forall k :: 0 <= k < |ops| ==> ops'[k].operationId == ops[k].operationId
    ensures HasOperation(ops', id)
  {
    var k :| 0 <= k < |ops| && ops[k].operationId == id;
    assert ops'[k].operationId == id;
  }

  lemma ExchangeKept(exs: seq<Exchange>, exs': seq<Exchange>, id: string)
    requires |exs| <= |exs'| && HasExchange(exs, id)
    requires forall k :: 0 <= k < |exs| ==> exs'[k].operationId == exs[k].operationId
    ensures HasExchange(exs', id)
  {
    var k :| 0 <= k < |exs| && exs[k].operationId == id;
    assert exs'[k].operationId == id;
  }

  lemma StopKept(ops: seq<Operation>, ops': seq<Operation>, id: string)
    requires |ops| <= |ops'| && HasStop(ops, id)
    requires forall k :: 0 <= k < |ops| ==> ops'[k].operationId == ops[k].operationId && ops'[k].kind == ops[k].kind
    ensures HasStop(ops', id)
  {
    var k :| 0 <= k < |ops| && ops[k].kind.Stop? && ops[k].operationId == id;
    assert ops'[k].operationId == id;
  }

  /** Changing operations without touching prompts keeps the pairing. */
  lemma PairingKept(ops: seq<Operation>, ops': seq<Operation>, exs: seq<Exchange>)
    requires OperationsKept(ops, ops') && |ops'| == |ops| && ExchangeShape(exs)
    requires OperationShape(ops) && PairingOk(ops, exs)
    ensures OperationShape(ops') && PairingOk(ops', exs)
  {
    forall i | 0 <= i < |exs| ensures HasOperation(ops', exs[i].operationId) {
      OperationKept(ops, ops', exs[i].operationId);
    }
  }

  /** Settling an operation together with its exchange keeps the pairing. */
  lemma PairingSettled(ops: seq<Operation>, exs: seq<Exchange>, o: nat, e: nat, op: Operation, ex: Exchange)
    requires OperationShape(ops) && PairingOk(ops, exs) && o < |ops| && e < |exs|
    requires ops[o].operationId == exs[e].operationId == op.operationId == ex.operationId
    requires op.kind == ops[o].kind && op.preDispatch == ops[o].preDispatch && ex.kind == exs[e].kind && ex.status == op.state
    ensures OperationShape(ops[o := op]) && PairingOk(ops[o := op], exs[e := ex])
  {
    var ops', exs' := ops[o := op], exs[e := ex];
    forall i | 0 <= i < |exs'| ensures HasOperation(ops', exs'[i].operationId) {
      OperationKept(ops, ops', exs[i].operationId);
    }
    forall k | 0 <= k < |ops'| && IsPrompt(ops'[k].kind) ensures HasExchange(exs', ops'[k].operationId) {
      ExchangeKept(exs, exs', ops[k].operationId);
    }
  }

  lemma PairingAppended(ops: seq<Operation>, exs: seq<Exchange>, op: Operation, added: seq<Exchange>)
    requires OperationShape(ops) && PairingOk(ops, exs) && ExchangeShape(exs)
    requires forall k :: 0 <= k < |ops| ==> ops[k].operationId != op.operationId
    requires if op.kind.Message? then
        && |added| == 1 && added[0].operationId == op.operationId && added[0].kind.Message? && added[0].status == op.state
        && (op.preDispatch.agentState.Idle? || op.preDispatch.agentState.Working?)
      else op.kind.Stop? && added == []
    ensures OperationShape(ops + [op]) && PairingOk(ops + [op], exs + added)
  {
    var ops', exs' := ops + [op], exs + added;
    forall i | 0 <= i < |exs'| ensures HasOperation(ops', exs'[i].operationId) {
      if i < |exs| {
        OperationKept(ops, ops', exs[i].operationId);
      } else {
        assert ops'[|ops|].operationId == exs'[i].operationId;
      }
    }
    forall k | 0 <= k < |ops'| && IsPrompt(ops'[k].kind) ensures HasExchange(exs', ops'[k].operationId) {
      if k < |ops| {
        ExchangeKept(exs, exs', ops[k].operationId);
      } else {
        assert exs'[|exs|].operationId == op.operationId;
      }
    }
    forall i | 0 <= i < |exs| ensures exs[i].operationId != op.operationId {
      var k :| 0 <= k < |ops| && ops[k].operationId == exs[i].operationId;
    }
  }

  /** Exchanges that name the same turns match the same turns. */
  lemma TurnsMatchKept(turns: seq<Turn>, turns': seq<Turn>, exs: seq<Exchange>, exs': seq<Exchange>)
    requires TurnsMatch(turns, exs) && |turns'| == |turns| && |exs| <= |exs'|
    requires forall t :: 0 <= t < |turns| ==> turns'[t].id == turns[t].id
    requires forall i :: 0 <= i < |exs| ==> exs'[i].turnId == exs[i].turnId && exs'[i].delivery == exs[i].delivery
    requires forall i :: |exs| <= i < |exs'| ==> exs'[i].turnId.None?
    ensures TurnsMatch(turns', exs')
  {
    forall t | 0 <= t < |turns'| ensures HasStarter(exs', turns'[t].id) {
      assert HasStarter(exs, turns[t].id);
      var i :| 0 <= i < |exs| && StartsTurn(exs[i], turns[t].id);
      assert StartsTurn(exs'[i], turns[t].id);
    }
    forall i | 0 <= i < |exs'| && exs'[i].turnId.Some? ensures HasTurn(turns', exs'[i].turnId.value) {
      assert HasTurn(turns, exs[i].turnId.value);
      var t :| 0 <= t < |turns| && turns[t].id == exs[i].turnId.value;
      assert turns'[t].id == turns[t].id;
    }
  }
}
