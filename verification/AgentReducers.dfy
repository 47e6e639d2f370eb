/** Decisions over one agent record, and the next record each transition builds. */
module AgentReducers {
  import opened Common
  import opened AgentRecord

  // ----- Fences -----

  datatype Standing = Advances | Duplicate | Foreign

  predicate SameStream(x: Fence, y: Fence) {
    x.daemonInstanceId == y.daemonInstanceId && x.targetId == y.targetId && x.generation == y.generation
  }

  /** An acceptance gives an unfenced record its first fence. */
  function ClassifyAcceptanceFence(current: Option<Fence>, next: Fence): Standing {
    if current.None? then Advances
    else if !SameStream(current.value, next) then Foreign
    else if next.lastEventId > current.value.lastEventId then Advances else Duplicate
  }

  /** For events, no fence counts as being of another stream. */
  function ClassifyEventFence(current: Option<Fence>, next: Fence): Standing {
    if current.None? then Foreign else ClassifyAcceptanceFence(current, next)
  }

  // ----- Lookups -----

  function Max(x: nat, y: nat): nat {
    if x > y then x else y
  }

  function TurnIndex(turns: seq<Turn>, id: string): (i: nat)
    ensures i <= |turns| && (i < |turns| ==> turns[i].id == id)
    ensures forall j :: 0 <= j < i ==> turns[j].id != id
  {
    if turns == [] then 0 else if turns[0].id == id then 0 else 1 + TurnIndex(turns[1..], id)
  }

  function OperationIndex(ops: seq<Operation>, id: string): (i: nat)
    ensures i <= |ops| && (i < |ops| ==> ops[i].operationId == id)
    ensures forall j :: 0 <= j < i ==> ops[j].operationId != id
  {
    if ops == [] then 0 else if ops[0].operationId == id then 0 else 1 + OperationIndex(ops[1..], id)
  }

  function ExchangeIndex(exs: seq<Exchange>, id: string): (i: nat)
    ensures i <= |exs| && (i < |exs| ==> exs[i].operationId == id)
    ensures forall j :: 0 <= j < i ==> exs[j].operationId != id
  {
    if exs == [] then 0 else if exs[0].operationId == id then 0 else 1 + ExchangeIndex(exs[1..], id)
  }

  predicate PendingPrompt(o: Operation) {
    IsPrompt(o.kind) && o.state.Requested?
  }

  predicate HasPendingPrompt(ops: seq<Operation>) {
    exists i :: 0 <= i < |ops| && PendingPrompt(ops[i])
  }

  // ----- Deciding a delivery receipt -----

  datatype Receipt = Receipt(turnId: string, delivery: Delivery, threadId: string, resolvedTarget: Target, fence: Fence)

  datatype Verdict = Replayed | Unplaceable | Conflict | Refuse | Unresolved | Accept(steeredIntoSettledTurn: bool)

  function DecideAcceptance(a: Agent, op: Operation, ex: Exchange, r: Receipt): Verdict {
    if op.state.Accepted? then
      if op.acceptanceUnverified then Unplaceable
      else if op.turnId != Some(r.turnId) || ex.delivery != Some(r.delivery) || a.threadId != Some(r.threadId)
           || a.resolvedTarget != Some(r.resolvedTarget) || op.acceptanceFence != Some(r.fence) then Conflict
      else Replayed
    else if op.kind.Stop? || ex.kind != op.kind then Refuse
    else if !op.state.Requested? || !ex.status.Requested? then Refuse
    else if op.kind.Start? && !r.delivery.Started? then Refuse
    else
      var expected := if op.preDispatch.turnId.Some? then TurnIndex(a.turns, op.preDispatch.turnId.value) else |a.turns|;
      var expectedSettled :=
        expected < |a.turns| && !a.turns[expected].state.InProgress? && a.activeTurnId != Some(a.turns[expected].id);
      var afterSettlement := op.kind.Message? && op.preDispatch.agentState.Working? && expectedSettled;
      var startedAfterSettlement := afterSettlement && r.delivery.Started?;
      var steeredIntoSettledTurn := afterSettlement && r.delivery.Steered? && r.turnId == a.turns[expected].id;
      if op.kind.Message? && op.preDispatch.agentState.Working? && !r.delivery.Steered? && !startedAfterSettlement then Refuse
      else if op.kind.Message? && op.preDispatch.agentState.Idle? && !r.delivery.Started? then Refuse
      else if a.requestedTarget != r.resolvedTarget.kind then Refuse
      else if a.threadId.Some? && a.threadId != Some(r.threadId) then Refuse
      else if a.resolvedTarget.Some? && a.resolvedTarget != Some(r.resolvedTarget) then Refuse
      else if startedAfterSettlement || steeredIntoSettledTurn then
        if !a.agentState.Idle? || a.activeTurnId.Some? || a.threadId != op.preDispatch.threadId
           || !ClassifyAcceptanceFence(a.fence, r.fence).Advances? then Refuse
        else PlaceTurn(a, r, steeredIntoSettledTurn)
      else if a.agentState != op.preDispatch.agentState || a.threadId != op.preDispatch.threadId
              || a.activeTurnId != op.preDispatch.turnId || a.fence != op.preDispatch.fence then Refuse
      else if !ClassifyAcceptanceFence(op.preDispatch.fence, r.fence).Advances? then Unresolved
      else PlaceTurn(a, r, steeredIntoSettledTurn)
  }

  /** The last checks: a steer needs the running turn, a start needs a turn not seen before. */
  function PlaceTurn(a: Agent, r: Receipt, steeredIntoSettledTurn: bool): Verdict {
    var known := TurnIndex(a.turns, r.turnId) < |a.turns|;
    if r.delivery.Steered? && !steeredIntoSettledTurn && (a.activeTurnId != Some(r.turnId) || !known) then Refuse
    else if r.delivery.Started? && known then Refuse
    else Accept(steeredIntoSettledTurn)
  }

  // ----- The next record -----

  datatype Intent = Intent(agentId: string, operationId: string, prompt: string, fingerprint: string, at: nat)

  function NewAgent(i: Intent, target: TargetKind): Agent {
    Agent(i.agentId, Creating, target, None, None, None, None,
          [Exchange(i.operationId, Start, i.prompt, Requested, None, None, i.at, None)],
          [],
          [Operation(i.operationId, Start, i.fingerprint, Requested, None, None, false,
                     PreDispatch(Creating, None, None, None), false, i.at, i.at)],
          None, i.at, i.at)
  }

  function StandingOf(a: Agent): PreDispatch {
    PreDispatch(a.agentState, a.threadId, a.activeTurnId, a.fence)
  }

  function WithMessage(a: Agent, i: Intent): Agent {
    var at := Max(i.at, a.updatedAt);
    a.(exchanges := a.exchanges + [Exchange(i.operationId, Message, i.prompt, Requested, None, None, at, None)],
       operations := a.operations +
         [Operation(i.operationId, Message, i.fingerprint, Requested, None, None, false, StandingOf(a), false, at, at)],
       updatedAt := at)
  }

  /** Stopping an idle agent is recorded as an accepted no-op. */
  function WithStop(a: Agent, i: Intent): Agent
    requires a.agentState.Idle? || a.activeTurnId.Some?
  {
    var at, noOp := Max(i.at, a.updatedAt), a.agentState.Idle?;
    a.(operations := a.operations +
         [Operation(i.operationId, Stop, i.fingerprint, if noOp then Accepted else Requested, a.activeTurnId, None,
                    false, StandingOf(a), noOp, at, at)],
       pendingInterrupt := if noOp then None else Some(Interrupt(i.operationId, a.activeTurnId.value, at)),
       updatedAt := at)
  }

  function Touch(turns: seq<Turn>, id: string, at: nat): (r: seq<Turn>)
    ensures |r| == |turns|
    ensures forall i :: 0 <= i < |turns| ==> r[i] == if turns[i].id == id then turns[i].(updatedAt := at) else turns[i]
  {
    seq(|turns|, i requires 0 <= i < |turns| => if turns[i].id == id then turns[i].(updatedAt := at) else turns[i])
  }

  function WithAcceptance(a: Agent, o: nat, e: nat, r: Receipt, steeredIntoSettledTurn: bool, now: nat): Agent
    requires o < |a.operations| && e < |a.exchanges|
  {
    var at := Max(now, a.updatedAt);
    var turns :=
      if TurnIndex(a.turns, r.turnId) == |a.turns| then a.turns + [Turn(r.turnId, InProgress, [], at)]
      else if steeredIntoSettledTurn then Touch(a.turns, r.turnId, at)
      else a.turns;
    a.(agentState := if steeredIntoSettledTurn then a.agentState else Working,
       resolvedTarget := Some(r.resolvedTarget),
       threadId := Some(r.threadId),
       activeTurnId := if steeredIntoSettledTurn then a.activeTurnId else Some(r.turnId),
       turns := turns,
       exchanges := a.exchanges[e := a.exchanges[e].(
         status := Accepted, delivery := Some(r.delivery), turnId := Some(r.turnId), acceptedAt := Some(at))],
       operations := a.operations[o := a.operations[o].(
         state := Accepted, turnId := Some(r.turnId), acceptanceFence := Some(r.fence), updatedAt := at)],
       fence := Some(r.fence),
       updatedAt := at)
  }

  /** Settles a requested delivery as unknown. */
  function WithRefusal(a: Agent, o: nat, e: nat, now: nat): Agent
    requires o < |a.operations| && e < |a.exchanges|
  {
    var at := Max(now, a.updatedAt);
    a.(agentState := if a.operations[o].kind.Start? then Unavailable else Recovering,
       operations := a.operations[o := a.operations[o].(state := Indeterminate, updatedAt := at)],
       exchanges := a.exchanges[e := a.exchanges[e].(status := Indeterminate)],
       updatedAt := at)
  }

  /** A daemon's rejection of a requested operation; a stop has no exchange. */
  function WithRejection(a: Agent, o: nat, e: nat, now: nat): Agent
    requires o < |a.operations| && e <= |a.exchanges|
  {
    var at, op := Max(now, a.updatedAt), a.operations[o];
    a.(agentState := if op.kind.Start? then Unavailable else if op.kind.Message? then Recovering else a.agentState,
       pendingInterrupt :=
         if a.pendingInterrupt.Some? && a.pendingInterrupt.value.operationId == op.operationId then None
         else a.pendingInterrupt,
       exchanges := if e == |a.exchanges| then a.exchanges
                    else a.exchanges[e := a.exchanges[e].(status := Indeterminate)],
       operations := a.operations[o := op.(state := Indeterminate, updatedAt := at)],
       updatedAt := at)
  }

  /** A delivered interrupt stays pending until its turn settles. */
  function WithInterruptOutcome(a: Agent, o: nat, delivered: bool, fence: Fence, now: nat): Agent
    requires o < |a.operations|
  {
    var at := Max(now, a.updatedAt);
    a.(pendingInterrupt := if delivered then a.pendingInterrupt else None,
       operations := a.operations[o := a.operations[o].(
         state := if delivered then Accepted else Indeterminate,
         acceptanceFence := if delivered then Some(fence) else None, updatedAt := at)],
       fence := Some(fence),
       updatedAt := at)
  }

  function WithActivity(a: Agent, t: nat, activities: seq<Activity>, fence: Fence, now: nat): Agent
    requires t < |a.turns|
  {
    var at := Max(now, a.updatedAt);
    a.(turns := a.turns[t := a.turns[t].(activities := activities, updatedAt := at)],
       fence := Some(fence),
       updatedAt := at)
  }

  /** Stops waiting for this turn are accepted by its end. */
  function SettleStops(ops: seq<Operation>, turnId: string, fence: Fence, at: nat): (r: seq<Operation>)
    ensures |r| == |ops|
    ensures forall i :: 0 <= i < |ops| ==>
      r[i] == if ops[i].kind.Stop? && ops[i].state.Requested? && ops[i].turnId == Some(turnId)
              then ops[i].(state := Accepted, acceptanceFence := Some(fence), updatedAt := at) else ops[i]
  {
    seq(|ops|, i requires 0 <= i < |ops| =>
      if ops[i].kind.Stop? && ops[i].state.Requested? && ops[i].turnId == Some(turnId)
      then ops[i].(state := Accepted, acceptanceFence := Some(fence), updatedAt := at) else ops[i])
  }

  function WithTerminal(a: Agent, t: nat, outcome: TurnState, fence: Fence, now: nat): Agent
    requires t < |a.turns|
  {
    var at := Max(now, a.updatedAt);
    a.(agentState := Idle, activeTurnId := None, pendingInterrupt := None,
       turns := a.turns[t := a.turns[t].(state := outcome, updatedAt := at)],
       operations := SettleStops(a.operations, a.turns[t].id, fence, at),
       fence := Some(fence),
       updatedAt := at)
  }

  function RefenceUnverified(ops: seq<Operation>, fence: Fence): (r: seq<Operation>)
    ensures |r| == |ops|
    ensures forall i :: 0 <= i < |ops| ==>
      r[i] == if ops[i].acceptanceUnverified then ops[i].(acceptanceUnverified := false, acceptanceFence := Some(fence)) else ops[i]
  {
    seq(|ops|, i requires 0 <= i < |ops| =>
      if ops[i].acceptanceUnverified then ops[i].(acceptanceUnverified := false, acceptanceFence := Some(fence)) else ops[i])
  }

  function WithReconciliation(a: Agent, turnId: Option<string>, turnRuns: bool, fence: Fence, now: nat): Agent {
    var at := Max(now, a.updatedAt);
    var active := a.activeTurnId.Some? && Runs(a.turns, a.activeTurnId.value);
    var survives := active && turnId == a.activeTurnId && turnRuns;
    a.(agentState := if !active then Idle else if survives then Working else Recovering,
       operations := RefenceUnverified(a.operations, fence),
       fence := Some(fence),
       updatedAt := at)
  }
}
