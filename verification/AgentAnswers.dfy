/** What each receipt and event is answered, case by case, and what a recorded receipt leaves behind. */
module AgentAnswers {
  import opened Common
  import opened AgentRecord
  import opened AgentSchema
  import opened AgentReducers
  import opened AgentInvariant
  import opened AgentTransitions
  import opened AgentAcceptance
  import opened AgentSchemaKept
  import opened AgentService
  import opened AgentParses
  import opened AgentDecisions

  // ----- Events -----

  /** The agent an event is for, if it is known under that thread. */
  predicate Knows(c: Catalog, agentId: string, threadId: string) {
    var at := Locate(c.agents, agentId);
    at.Some? && c.agents[at.value].threadId == Some(threadId)
  }

  function AgentOf(c: Catalog, agentId: string): Agent
    requires Locate(c.agents, agentId).Some?
  {
    c.agents[Locate(c.agents, agentId).value]
  }

  /** The event brings nothing: its turn is over, or its item is held. */
  ghost predicate BringsNothing(a: Agent, ev: Event) {
    || HasSettledTurn(a.turns, Some(ev.turnId))
    || (ev.body.ActivityEvent? && exists t :: 0 <= t < |a.turns| && a.turns[t].id == ev.turnId && Holds(a.turns[t], ev.body.itemId))
  }

  ghost predicate Holds(t: Turn, itemId: string) {
    exists k :: 0 <= k < |t.activities| && t.activities[k].Commentary? && t.activities[k].itemId == itemId
  }

  /**
   Ignored: for nobody known, already seen, or bringing nothing. Left with the daemon: of a stream or
   a turn the agent does not know, or not confirmed. Failed or applied: otherwise.
   */
  lemma EventAnswers(c: Catalog, ev: Event, now: nat, env: Env)
    requires Good(c)
    ensures
      var d := ApplyEvent(c, ev, now, env).1;
      if !Knows(c, ev.agentId, ev.threadId) then d.Ignored?
      else
        var a := AgentOf(c, ev.agentId);
        if Seen(a, ev.fence) then d.Ignored?
        else if !Follows(a, ev.fence) || !HasTurn(a.turns, ev.turnId) then d.Reconcile?
        else if BringsNothing(a, ev) then d.Ignored?
        else
          && Lands(c, ev)
          && (d.FailedRecord? <==> !env.formatsOk || (ev.body.TerminalEvent? && Unverified(a.operations)))
          && (d.Applied? <==> !d.FailedRecord? && env.storage.Confirmed?)
          && (d.Reconcile? <==> !d.FailedRecord? && !env.storage.Confirmed?)
  {
    hide HistoryOk, SchemaOk, AppendActivity, Unverified, HasTurn, HasSettledTurn, WithActivity, WithTerminal;
    if Knows(c, ev.agentId, ev.threadId) {
      var a := AgentOf(c, ev.agentId);
      GoodAgent(c, Locate(c.agents, ev.agentId).value);
      TurnIndexMeans(a, ev.turnId);
      var t := TurnIndex(a.turns, ev.turnId);
      if t < |a.turns| {
        RunningIsActive(a, t);
        WhetherHeld(a, ev);
        if env.formatsOk {
          EventFailsIffUnverified(c, ev, now, env);
        }
      }
    }
  }

  lemma GoodAgent(c: Catalog, i: nat)
    requires Good(c) && i < |c.agents|
    ensures RecordOk(c.agents[i]) && SchemaOk(c.agents[i]) && TurnHistoryOk(c.agents[i]) && WindowsOk(c.agents[i])
  {
  }

  lemma RunningIsActive(a: Agent, t: nat)
    requires TurnHistoryOk(a) && t < |a.turns|
    ensures a.turns[t].state.InProgress? ==> a.activeTurnId == Some(a.turns[t].id)
  {
  }

  /** Whether an item is refused is whether some turn of that id holds it. */
  lemma WhetherHeld(a: Agent, ev: Event)
    requires TurnHistoryOk(a) && WindowsOk(a) && TurnIndex(a.turns, ev.turnId) < |a.turns|
    ensures var t := TurnIndex(a.turns, ev.turnId);
      BringsNothing(a, ev) <==>
        || !a.turns[t].state.InProgress?
        || (ev.body.ActivityEvent? && AppendActivity(a.turns[t].activities, ev.body.itemId, ev.body.text, MAX_ACTIVITIES).None?)
  {
    hide ActivitiesOk, AppendActivity, ActiveTurnOk;
    TurnIndexMeans(a, ev.turnId);
    if ev.body.ActivityEvent? {
      var t := TurnIndex(a.turns, ev.turnId);
      AppendKeepsActivitiesOk(a.turns[t].activities, ev.body.itemId, ev.body.text, MAX_ACTIVITIES);
    }
  }

  // ----- Rejections -----

  /** The rejection names a requested operation of a known agent. */
  predicate Awaited(c: Catalog, agentId: string, operationId: Option<string>) {
    && Locate(c.agents, agentId).Some? && operationId.Some?
    && var a := AgentOf(c, agentId);
    var o := OperationIndex(a.operations, operationId.value);
    o < |a.operations| && a.operations[o].state.Requested?
  }

  /** Every other agent is as it was. */
  ghost predicate OnlyAgentMoves(c: Catalog, c': Catalog, at: nat) {
    at < |c.agents| == |c'.agents| && forall k :: 0 <= k < |c.agents| && k != at ==> c'.agents[k] == c.agents[k]
  }

  /** Of the deliveries only this operation and its exchange move, and what identifies them does not. */
  ghost predicate OnlyDeliveryMoves(a: Agent, a': Agent, o: nat) {
    && o < |a.operations| == |a'.operations| && (forall k :: 0 <= k < |a.operations| && k != o ==> a'.operations[k] == a.operations[k])
    && a'.operations[o] == a.operations[o].(state := a'.operations[o].state, turnId := a'.operations[o].turnId,
         acceptanceFence := a'.operations[o].acceptanceFence, updatedAt := a'.operations[o].updatedAt)
    && |a'.exchanges| == |a.exchanges|
    && (forall k :: 0 <= k < |a.exchanges| && a.exchanges[k].operationId != a.operations[o].operationId ==> a'.exchanges[k] == a.exchanges[k])
    && a'.agentId == a.agentId && a'.requestedTarget == a.requestedTarget && a'.createdAt == a.createdAt
  }

  /** Nothing native moves. */
  ghost predicate NativeKept(a: Agent, a': Agent) {
    && a'.turns == a.turns && a'.threadId == a.threadId && a'.resolvedTarget == a.resolvedTarget
    && a'.activeTurnId == a.activeTurnId && a'.fence == a.fence
  }

  /** Given up on: the operation and its exchange are indeterminate, and a prompt takes the agent out of service until reconciled. */
  ghost predicate GivenUp(a: Agent, a': Agent, o: nat) {
    && OnlyDeliveryMoves(a, a', o) && NativeKept(a, a')
    && a'.operations[o].state.Indeterminate? && a'.operations[o].turnId == a.operations[o].turnId
    && (forall k :: 0 <= k < |a'.exchanges| && a'.exchanges[k].operationId == a.operations[o].operationId ==>
         a'.exchanges[k] == a.exchanges[k].(status := Indeterminate))
    && a'.agentState == (match a.operations[o].kind case Start => Unavailable case Message => Recovering case Stop => a.agentState)
    && a'.pendingInterrupt == (if a.pendingInterrupt.Some? && a.pendingInterrupt.value.operationId == a.operations[o].operationId
                               then None else a.pendingInterrupt)
  }

  lemma OnlyExchange(a: Agent, e: nat, id: string)
    requires RecordOk(a) && e == ExchangeIndex(a.exchanges, id)
    ensures forall k :: 0 <= k < |a.exchanges| && a.exchanges[k].operationId == id ==> k == e
  {
    hide HistoryOk, OperationShape, PendingOk, WindowsOk;
  }

  lemma RejectedRecord(a: Agent, o: nat, e: nat, now: nat)
    requires RecordOk(a) && o < |a.operations| && e == ExchangeIndex(a.exchanges, a.operations[o].operationId)
    ensures GivenUp(a, WithRejection(a, o, e, now), o)
  {
    hide RecordOk;
    OnlyExchange(a, e, a.operations[o].operationId);
  }

  lemma RefusedDelivery(a: Agent, o: nat, e: nat, now: nat)
    requires RecordOk(a) && Paired(a, o, e) && a.operations[o].state.Requested?
    ensures GivenUp(a, WithRefusal(a, o, e, now), o)
  {
    hide RecordOk;
    PairedPrompt(a, o, e);
    OneExchange(a, e);
  }

  lemma OneExchange(a: Agent, e: nat)
    requires RecordOk(a) && e < |a.exchanges|
    ensures forall k :: 0 <= k < |a.exchanges| && a.exchanges[k].operationId == a.exchanges[e].operationId ==> k == e
  {
    hide HistoryOk, OperationShape, PendingOk, WindowsOk;
  }

  /** What the write of a record met. */
  ghost predicate WriteAnswer(d: Disposition, parses: bool, env: Env) {
    && (d.FailedRecord? <==> !parses) && (d.Applied? <==> parses && env.storage.Confirmed?)
    && (d.Reconcile? <==> parses && !env.storage.Confirmed?)
  }

  /** The catalog is as it was, or the one agent's record became `a'`. */
  ghost predicate MovedTo(c: Catalog, c': Catalog, at: nat, a': Agent) {
    at < |c.agents| && (c' == c || c' == Catalog(c.revision + 1, c.agents[at := a']))
  }

  lemma AppliedTo(c: Catalog, at: nat, a: Agent, env: Env)
    requires at < |c.agents|
    ensures WriteAnswer(ApplyAgent(c, at, a, env).1, Parses(a, env), env) && MovedTo(c, ApplyAgent(c, at, a, env).0, at, a)
    ensures ApplyAgent(c, at, a, env).0 != c <==> Parses(a, env) && (env.storage.Confirmed? || env.storage.InstalledUnconfirmed?)
  {
    hide Parses;
  }

  /** A rejection of an awaited operation gives it up; any other is ignored. */
  lemma RejectionAnswers(c: Catalog, agentId: string, operationId: Option<string>, now: nat, env: Env)
    requires Good(c)
    ensures
      var (c', d) := ApplyRejection(c, agentId, operationId, now, env);
      if !Awaited(c, agentId, operationId) then d.Ignored? && c' == c
      else
        var at := Locate(c.agents, agentId).value;
        var a := c.agents[at];
        && WriteAnswer(d, env.formatsOk, env)
        && exists a' :: MovedTo(c, c', at, a') && GivenUp(a, a', OperationIndex(a.operations, operationId.value))
  {
    hide Good, Parses, ApplyAgent, GivenUp, MovedTo, WithRejection, RecordOk;
    if env.formatsOk {
      RejectionNeverFails(c, agentId, operationId, now, env);
    }
    if Awaited(c, agentId, operationId) {
      var at := Locate(c.agents, agentId).value;
      GoodAgent(c, at);
      var a := c.agents[at];
      var o, e := OperationIndex(a.operations, operationId.value), ExchangeIndex(a.exchanges, operationId.value);
      RejectedRecord(a, o, e, now);
      AppliedTo(c, at, WithRejection(a, o, e, now), env);
      ParseNeedsFormats(WithRejection(a, o, e, now), env);
    }
  }

  lemma ParseNeedsFormats(a: Agent, env: Env)
    ensures Parses(a, env) ==> env.formatsOk
  {
    hide HistoryOk, SchemaOk;
  }

  // ----- Interrupts -----

  /** The outcome answers the agent's pending interrupt. */
  predicate AnswersInterrupt(c: Catalog, agentId: string, operationId: string, threadId: string, turnId: string) {
    && Knows(c, agentId, threadId)
    && var p := AgentOf(c, agentId).pendingInterrupt;
    p.Some? && p.value.operationId == operationId && p.value.turnId == turnId
  }

  /** A delivered interrupt is accepted and stays pending; a failed one is given up. Nothing else but the fence moves. */
  ghost predicate InterruptRecorded(a: Agent, a': Agent, o: nat, delivered: bool, fence: Fence) {
    && OnlyDeliveryMoves(a, a', o) && a'.exchanges == a.exchanges && a'.operations[o].turnId == a.operations[o].turnId
    && a'.operations[o].state == (if delivered then Accepted else Indeterminate)
    && a'.operations[o].acceptanceFence == (if delivered then Some(fence) else None)
    && a'.pendingInterrupt == (if delivered then a.pendingInterrupt else None)
    && a' == a.(operations := a'.operations, pendingInterrupt := a'.pendingInterrupt, fence := Some(fence), updatedAt := a'.updatedAt)
  }

  lemma InterruptAnswers(c: Catalog, agentId: string, operationId: string, threadId: string, turnId: string,
                         delivered: bool, fence: Fence, now: nat, env: Env)
    requires Good(c)
    ensures
      var (c', d) := ApplyInterruptOutcome(c, agentId, operationId, threadId, turnId, delivered, fence, now, env);
      if !AnswersInterrupt(c, agentId, operationId, threadId, turnId) then d.Ignored? && c' == c
      else
        var at := Locate(c.agents, agentId).value;
        var a := c.agents[at];
        if Seen(a, fence) then d.Ignored? && c' == c
        else if !Follows(a, fence) then d.Reconcile? && c' == c
        else
          && WriteAnswer(d, env.formatsOk, env)
          && exists a' :: MovedTo(c, c', at, a') && InterruptRecorded(a, a', OperationIndex(a.operations, operationId), delivered, fence)
  {
    hide Good, Parses, ApplyAgent, InterruptRecorded, MovedTo, WithInterruptOutcome, RecordOk, SchemaOk, Locate, OperationIndex;
    hide Seen, Follows, ClassifyEventFence;
    if env.formatsOk {
      InterruptNeverFails(c, agentId, operationId, threadId, turnId, delivered, fence, now, env);
    }
    if AnswersInterrupt(c, agentId, operationId, threadId, turnId) {
      var at := Locate(c.agents, agentId).value;
      GoodAgent(c, at);
      var a := c.agents[at];
      var o := OperationIndex(a.operations, operationId);
      PendingIsStored(a);
      EventStandings(a, fence);
      InterruptedRecord(a, o, delivered, fence, now);
      AppliedTo(c, at, WithInterruptOutcome(a, o, delivered, fence, now), env);
      ParseNeedsFormats(WithInterruptOutcome(a, o, delivered, fence, now), env);
    }
  }

  lemma EventStandings(a: Agent, f: Fence)
    ensures ClassifyEventFence(a.fence, f).Duplicate? <==> Seen(a, f)
    ensures ClassifyEventFence(a.fence, f).Advances? <==> Follows(a, f)
  {
  }

  lemma PendingIsStored(a: Agent)
    requires RecordOk(a) && a.pendingInterrupt.Some?
    ensures OperationIndex(a.operations, a.pendingInterrupt.value.operationId) < |a.operations|
  {
    hide HistoryOk, OperationShape, PairingOk, WindowsOk, OnePending, HasPendingPrompt;
    assert HasStop(a.operations, a.pendingInterrupt.value.operationId);
  }

  lemma InterruptedRecord(a: Agent, o: nat, delivered: bool, fence: Fence, now: nat)
    requires o < |a.operations|
    ensures InterruptRecorded(a, WithInterruptOutcome(a, o, delivered, fence, now), o, delivered, fence)
  {
  }

  // ----- Reconciliations -----

  /** The fence and the unverified acceptances move, and the state is what the daemon reports; nothing else. */
  ghost predicate ReconciliationRecorded(a: Agent, a': Agent, turn: Option<string>, turnRuns: bool, fence: Fence) {
    && a' == a.(agentState := a'.agentState, operations := a'.operations, fence := Some(fence), updatedAt := a'.updatedAt)
    && |a'.operations| == |a.operations|
    && (forall k :: 0 <= k < |a.operations| ==>
         a'.operations[k] == if a.operations[k].acceptanceUnverified
                             then a.operations[k].(acceptanceUnverified := false, acceptanceFence := Some(fence)) else a.operations[k])
    && a'.agentState == (if a.activeTurnId.None? then Idle else if turn == a.activeTurnId && turnRuns then Working else Recovering)
  }

  lemma ReconciliationAnswers(c: Catalog, agentId: string, threadId: string, target: Target, turn: Option<string>,
                              turnRuns: bool, fence: Fence, now: nat, env: Env)
    requires Good(c)
    ensures
      var (c', d) := ApplyReconciliation(c, agentId, threadId, target, turn, turnRuns, fence, now, env);
      if !Knows(c, agentId, threadId) || AgentOf(c, agentId).resolvedTarget != Some(target)
         || Seen(AgentOf(c, agentId), fence) then d.Ignored? && c' == c
      else
        var at := Locate(c.agents, agentId).value;
        var a := c.agents[at];
        && WriteAnswer(d, env.formatsOk && Reconcilable(a, fence), env)
        && exists a' :: MovedTo(c, c', at, a') && ReconciliationRecorded(a, a', turn, turnRuns, fence)
  {
    hide Good, Parses, ApplyAgent, ReconciliationRecorded, MovedTo, WithReconciliation, RecordOk, SchemaOk, Reconcilable;
    if Knows(c, agentId, threadId) {
      var at := Locate(c.agents, agentId).value;
      GoodAgent(c, at);
      var a := c.agents[at];
      var a' := WithReconciliation(a, turn, turnRuns, fence, now);
      ReconciledRecord(a, turn, turnRuns, fence, now);
      AppliedTo(c, at, a', env);
      ParseNeedsFormats(a', env);
      if env.formatsOk {
        ReconciliationFailsIff(c, agentId, threadId, target, turn, turnRuns, fence, now, env);
      }
    }
  }

  lemma ReconciledRecord(a: Agent, turn: Option<string>, turnRuns: bool, fence: Fence, now: nat)
    requires RecordOk(a)
    ensures ReconciliationRecorded(a, WithReconciliation(a, turn, turnRuns, fence, now), turn, turnRuns, fence)
  {
    hide OperationShape, PairingOk, PendingOk, WindowsOk, ExchangesOk, ExchangeTimesOk, TurnsFollowDeliveries;
  }

  // ----- Delivery receipts -----

  /** The delivery a receipt names. */
  predicate Names(c: Catalog, agentId: string, operationId: string) {
    && Locate(c.agents, agentId).Some?
    && var a := AgentOf(c, agentId);
    OperationIndex(a.operations, operationId) < |a.operations| && ExchangeIndex(a.exchanges, operationId) < |a.exchanges|
  }

  /** The acceptance as recorded: where the prompt went, when and at which fence; the turn it opened or joined. */
  ghost predicate AcceptanceRecorded(a: Agent, a': Agent, o: nat, e: nat, r: Receipt, ended: bool) {
    && OnlyDeliveryMoves(a, a', o) && e < |a'.exchanges| == |a.exchanges|
    && a'.operations[o].state.Accepted? && a'.operations[o].turnId == Some(r.turnId) && a'.operations[o].acceptanceFence == Some(r.fence)
    && a'.exchanges[e] == a.exchanges[e].(status := Accepted, delivery := Some(r.delivery), turnId := Some(r.turnId),
                                          acceptedAt := Some(a'.updatedAt))
    && a'.threadId == Some(r.threadId) && a'.resolvedTarget == Some(r.resolvedTarget) && a'.fence == Some(r.fence)
    && a'.pendingInterrupt == a.pendingInterrupt
    && (if ended then a'.agentState == a.agentState && a'.activeTurnId == a.activeTurnId
        else a'.agentState.Working? && a'.activeTurnId == Some(r.turnId))
    && (if HasTurn(a.turns, r.turnId)
        then |a'.turns| == |a.turns| && forall t :: 0 <= t < |a.turns| ==> a'.turns[t] == a.turns[t].(updatedAt := a'.turns[t].updatedAt)
        else a'.turns == a.turns + [Turn(r.turnId, InProgress, [], a'.updatedAt)])
  }

  lemma AcceptedRecord(a: Agent, o: nat, e: nat, r: Receipt, ended: bool, now: nat)
    requires RecordOk(a) && Paired(a, o, e)
    ensures AcceptanceRecorded(a, WithAcceptance(a, o, e, r, ended, now), o, e, r, ended)
  {
    hide OperationShape, PendingOk, WindowsOk, ExchangesOk, ExchangeTimesOk, TurnsFollowDeliveries, ActiveTurnOk;
    TurnIndexMeans(a, r.turnId);
  }

  /**
   A receipt for nothing on record, or in conflict with it, throws; one that matches is replayed; one
   accepted is recorded if it parses; one refused gives the delivery up; the rest stays unresolved.
   */
  lemma ReceiptAnswers(c: Catalog, agentId: string, operationId: string, r: Receipt, now: nat, env: Env)
    requires Good(c)
    ensures
      var (c', out) := AcceptDelivery(c, agentId, operationId, r, now, env);
      if !Names(c, agentId, operationId) then out.AcceptThrew? && c' == c
      else
        var at := Locate(c.agents, agentId).value;
        var a := c.agents[at];
        var o, e := OperationIndex(a.operations, operationId), ExchangeIndex(a.exchanges, operationId);
        match DecideAcceptance(a, a.operations[o], a.exchanges[e], r)
        case Conflict => out.AcceptThrew? && c' == c
        case Replayed => out == (if env.durable then AcceptReplayed else AcceptIndeterminate(true)) && c' == c
        case Unplaceable => out == AcceptIndeterminate(true) && c' == c
        case Unresolved => out == AcceptIndeterminate(true) && c' == c
        case Refuse =>
          if !a.operations[o].state.Requested? then out == AcceptIndeterminate(false) && c' == c
          else
            && out == AcceptIndeterminate(!(env.formatsOk && env.storage.Confirmed?))
            && exists a' :: MovedTo(c, c', at, a') && GivenUp(a, a', o)
        case Accept(ended) =>
          && (out == AcceptCommitted || out == AcceptIndeterminate(true)) && (out.AcceptCommitted? ==> c' != c)
          && exists a' :: MovedTo(c, c', at, a') && AcceptanceRecorded(a, a', o, e, r, ended)
  {
    hide Good, Parses, DecideAcceptance, GivenUp, AcceptanceRecorded, RecordOk, SchemaOk, WithRefusal, WithAcceptance;
    if Names(c, agentId, operationId) {
      var at := Locate(c.agents, agentId).value;
      GoodAgent(c, at);
      var a := c.agents[at];
      var o, e := OperationIndex(a.operations, operationId), ExchangeIndex(a.exchanges, operationId);
      match DecideAcceptance(a, a.operations[o], a.exchanges[e], r)
      case Refuse =>
        if a.operations[o].state.Requested? {
          RefusedDelivery(a, o, e, now);
          RefusalParses(a, o, e, now, env);
          assert MovedTo(c, AcceptDelivery(c, agentId, operationId, r, now, env).0, at, WithRefusal(a, o, e, now));
        }
      case Accept(ended) =>
        AcceptedRecord(a, o, e, r, ended, now);
        assert MovedTo(c, AcceptDelivery(c, agentId, operationId, r, now, env).0, at, WithAcceptance(a, o, e, r, ended, now));
      case _ =>
    }
  }

  /** Abandoning a requested delivery gives it up, in memory whenever the write is installed; anything else is left alone. */
  lemma AbandonAnswers(c: Catalog, agentId: string, operationId: string, now: nat, env: Env)
    requires Good(c)
    ensures
      var c' := AbandonDelivery(c, agentId, operationId, now, env);
      if !Names(c, agentId, operationId) then c' == c
      else
        var at := Locate(c.agents, agentId).value;
        var a := c.agents[at];
        var o := OperationIndex(a.operations, operationId);
        && (c' != c ==> exists a' :: MovedTo(c, c', at, a') && GivenUp(a, a', o))
        && (c' != c <==> a.operations[o].state.Requested? && env.formatsOk && (env.storage.Confirmed? || env.storage.InstalledUnconfirmed?))
  {
    hide Good, Parses, GivenUp, RecordOk, SchemaOk, WithRefusal;
    FirstIsOnly(c, agentId);
    if Names(c, agentId, operationId) {
      var at := Locate(c.agents, agentId).value;
      GoodAgent(c, at);
      var a := c.agents[at];
      var o, e := OperationIndex(a.operations, operationId), ExchangeIndex(a.exchanges, operationId);
      if a.operations[o].state.Requested? {
        RefusedDelivery(a, o, e, now);
        RefusalParses(a, o, e, now, env);
        assert MovedTo(c, AbandonDelivery(c, agentId, operationId, now, env), at, WithRefusal(a, o, e, now));
      }
    }
  }

  lemma FirstIsOnly(c: Catalog, agentId: string)
    requires Good(c)
    ensures Locate(c.agents, agentId) == if FirstAgent(c.agents, agentId) < |c.agents| then Some(FirstAgent(c.agents, agentId)) else None
  {
    hide HistoryOk, SchemaOk, PairingOk, PendingOk, WindowsOk, OperationShape;
    LocatesTheOnly(c.agents, agentId);
  }

  /** On any catalog an agent is found iff its id is there, and there only once. */
  lemma LocatesTheOnly(agents: seq<Agent>, id: string)
    ensures forall i :: 0 <= i < |agents| ==>
      (Locate(agents, id) == Some(i) <==> agents[i].agentId == id && forall j :: 0 <= j < |agents| && agents[j].agentId == id ==> j == i)
  {
    var i := FirstAgent(agents, id);
    if i < |agents| {
      var rest := agents[i + 1..];
      assert forall j :: i < j < |agents| ==> agents[j] == rest[j - i - 1];
    }
  }

  lemma RefusalParses(a: Agent, o: nat, e: nat, now: nat, env: Env)
    requires RecordOk(a) && SchemaOk(a) && Paired(a, o, e) && a.operations[o].state.Requested?
    ensures Parses(WithRefusal(a, o, e, now), env) <==> env.formatsOk
  {
    hide RecordOk, SchemaOk, HistoryOk, Evolves, WithRefusal;
    WithRefusalOk(a, o, e, now);
    WithRefusalMeetsSchema(a, o, e, now);
    HistoryOfRecord(WithRefusal(a, o, e, now));
  }
}
