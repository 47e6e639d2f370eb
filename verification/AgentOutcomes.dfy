/** What events leave in a record: outcomes and commentary are those the events carried, and nothing else moves. */
module AgentOutcomes {
  import opened Common
  import opened AgentRecord
  import opened AgentSchema
  import opened AgentReducers
  import opened AgentInvariant
  import opened AgentService
  import opened AgentRuns

  // ----- One event -----

  /** Only turn `t` of agent `i` differs; prompts, exchanges and everything about other agents are as they were. */
  ghost predicate OnlyTurnMoves(c: Catalog, c': Catalog, i: nat, t: nat) {
    && i < |c.agents| == |c'.agents| && (forall k :: 0 <= k < |c.agents| && k != i ==> c'.agents[k] == c.agents[k])
    && var a, a' := c.agents[i], c'.agents[i];
    && a'.agentId == a.agentId && a'.threadId == a.threadId && a'.exchanges == a.exchanges
    && t < |a.turns| == |a'.turns| && (forall k :: 0 <= k < |a.turns| && k != t ==> a'.turns[k] == a.turns[k])
    && |a'.operations| == |a.operations|
    && (forall k :: 0 <= k < |a.operations| && !a.operations[k].kind.Stop? ==> a'.operations[k] == a.operations[k])
  }

  /** The stops that waited for this turn are accepted with its end; the others are as they were. */
  ghost predicate StopsSettle(ops: seq<Operation>, ops': seq<Operation>, turnId: string, fence: Fence) {
    && |ops'| == |ops|
    && forall k :: 0 <= k < |ops| && ops[k].kind.Stop? ==>
         if ops[k].state.Requested? && ops[k].turnId == Some(turnId)
         then ops'[k].state.Accepted? && ops'[k].acceptanceFence == Some(fence) && ops'[k].operationId == ops[k].operationId
         else ops'[k] == ops[k]
  }

  /**
   A terminal event that changes the catalog gives its turn the outcome it carries, keeps the turn's
   commentary, ends the activity of the agent, settles the stops that waited, and moves nothing else.
   */
  lemma TerminalIsRecorded(c: Catalog, ev: Event, now: nat, env: Env)
    requires ev.body.TerminalEvent? && ApplyEvent(c, ev, now, env).0 != c
    ensures
      var c', at := ApplyEvent(c, ev, now, env).0, Locate(c.agents, ev.agentId);
      at.Some? &&
      var a := c.agents[at.value];
      var t := TurnIndex(a.turns, ev.turnId);
      && OnlyTurnMoves(c, c', at.value, t)
      && var a' := c'.agents[at.value];
      && a'.turns[t].id == ev.turnId && a'.turns[t].state == ev.body.outcome && a'.turns[t].activities == a.turns[t].activities
      && a'.agentState.Idle? && a'.activeTurnId.None? && a'.pendingInterrupt.None? && a'.fence == Some(ev.fence)
      && StopsSettle(a.operations, a'.operations, ev.turnId, ev.fence)
  {
    hide HistoryOk, SchemaOk;
  }

  /**
   An activity that changes the catalog leaves its turn running. With room in the window the item is
   appended as it came; otherwise the window keeps its items and counts one more as omitted.
   */
  lemma ActivityIsRecorded(c: Catalog, ev: Event, now: nat, env: Env)
    requires ev.body.ActivityEvent? && ApplyEvent(c, ev, now, env).0 != c
    ensures
      var c', at := ApplyEvent(c, ev, now, env).0, Locate(c.agents, ev.agentId);
      at.Some? &&
      var a := c.agents[at.value];
      var t := TurnIndex(a.turns, ev.turnId);
      && OnlyTurnMoves(c, c', at.value, t)
      && var a' := c'.agents[at.value];
      && a'.turns[t].id == ev.turnId && a'.turns[t].state.InProgress? && a'.operations == a.operations
      && a'.agentState == a.agentState && a'.activeTurnId == a.activeTurnId && a'.pendingInterrupt == a.pendingInterrupt
      && a'.fence == Some(ev.fence)
      && var held := CommentaryOf(a.turns[t].activities);
      a'.turns[t].activities ==
        if |held| < 32 then held + [Commentary(ev.body.itemId, ev.body.text)]
        else held + [Truncated(Omitted(a.turns[t].activities) + 1)]
  {
    hide HistoryOk, SchemaOk, CommentaryOf, Omitted;
  }

  // ----- Runs -----

  /** Turn `t` of agent `i` exists and is in progress, or does not exist yet. */
  ghost predicate NotSettled(c: Catalog, i: nat, t: nat) {
    i < |c.agents| && t < |c.agents[i].turns| ==> c.agents[i].turns[t].state.InProgress?
  }

  ghost predicate SettledAs(c: Catalog, i: nat, t: nat, outcome: TurnState) {
    i < |c.agents| && t < |c.agents[i].turns| && c.agents[i].turns[t].state == outcome && !outcome.InProgress?
  }

  /** The step is the terminal event of that turn, with that outcome. */
  ghost predicate Ends(s: Step, c: Catalog, i: nat, t: nat, outcome: TurnState) {
    && i < |c.agents| && t < |c.agents[i].turns|
    && s.StepEvent? && s.ev.body.TerminalEvent? && s.ev.body.outcome == outcome
    && s.ev.agentId == c.agents[i].agentId && s.ev.turnId == c.agents[i].turns[t].id
  }

  lemma BeginSettlesNothing(c: Catalog, s: Step, i: nat, t: nat)
    requires NotSettled(c, i, t) && (s.StepStart? || s.StepMessage? || s.StepStop?)
    ensures NotSettled(Next(c, s), i, t)
  {
    hide HistoryOk, SchemaOk, Replay, CanBegin, Locate, FirstAgent;
  }

  lemma DeliverySettlesNothing(c: Catalog, s: Step, i: nat, t: nat)
    requires NotSettled(c, i, t) && (s.StepAccept? || s.StepAbandon?)
    ensures NotSettled(Next(c, s), i, t)
  {
    hide HistoryOk, SchemaOk, DecideAcceptance, Locate, FirstAgent, OperationIndex, ExchangeIndex;
  }

  lemma ReceiptSettlesNothing(c: Catalog, s: Step, i: nat, t: nat)
    requires NotSettled(c, i, t) && (s.StepReject? || s.StepInterrupt? || s.StepReconcile?)
    ensures NotSettled(Next(c, s), i, t)
  {
    hide HistoryOk, SchemaOk, Locate, OperationIndex, ExchangeIndex, ClassifyEventFence;
  }

  lemma EventSettles(c: Catalog, s: Step, i: nat, t: nat, outcome: TurnState)
    requires NotSettled(c, i, t) && s.StepEvent? && SettledAs(Next(c, s), i, t, outcome)
    ensures Ends(s, c, i, t, outcome)
  {
    hide ApplyEvent, StopsSettle, CommentaryOf, Omitted;
    if s.ev.body.TerminalEvent? {
      TerminalIsRecorded(c, s.ev, s.now, s.env);
    } else {
      ActivityIsRecorded(c, s.ev, s.now, s.env);
    }
  }

  /** A step settles a turn only by being the terminal event that says so. */
  lemma StepSettles(c: Catalog, s: Step, i: nat, t: nat, outcome: TurnState)
    requires NotSettled(c, i, t) && SettledAs(Next(c, s), i, t, outcome)
    ensures Ends(s, c, i, t, outcome)
  {
    hide Next, Ends;
    if s.StepStart? || s.StepMessage? || s.StepStop? {
      BeginSettlesNothing(c, s, i, t);
    } else if s.StepAccept? || s.StepAbandon? {
      DeliverySettlesNothing(c, s, i, t);
    } else if s.StepEvent? {
      EventSettles(c, s, i, t, outcome);
    } else {
      ReceiptSettlesNothing(c, s, i, t);
    }
  }

  /** In any run, the outcome of a turn settled during the run is that of the terminal event which settled it. */
  lemma {:induction false} OutcomeIsTheEvents(c: Catalog, steps: seq<Step>, i: nat, t: nat, outcome: TurnState)
    requires CatalogOk(c) && NotSettled(c, i, t) && SettledAs(Run(c, steps), i, t, outcome)
    ensures exists m: nat :: m < |steps| && Ends(steps[m], Run(c, steps[..m]), i, t, outcome)
  {
    hide Next, Ends, CatalogOk, CatalogEvolves;
    var n := |steps| - 1;
    var before := Run(c, steps[..n]);
    if NotSettled(before, i, t) {
      StepSettles(before, steps[n], i, t, outcome);
    } else {
      var earlier := before.agents[i].turns[t].state;
      EveryRunIsSound(c, steps[..n]);
      StepSound(before, steps[n]);
      OutcomeStays(before, Run(c, steps), i, t);
      OutcomeIsTheEvents(c, steps[..n], i, t, earlier);
      var m: nat :| m < n && Ends(steps[..n][m], Run(c, steps[..n][..m]), i, t, outcome);
      assert steps[..n][..m] == steps[..m];
    }
  }

  lemma OutcomeStays(c: Catalog, c': Catalog, i: nat, t: nat)
    requires CatalogEvolves(c, c') && i < |c.agents| && t < |c.agents[i].turns| && !c.agents[i].turns[t].state.InProgress?
    ensures i < |c'.agents| && t < |c'.agents[i].turns| && c'.agents[i].turns[t].state == c.agents[i].turns[t].state
  {
    assert Evolves(c.agents[i], c'.agents[i]);
    assert TurnEvolves(c.agents[i].turns[t], c'.agents[i].turns[t]);
  }

  // ----- Commentary over runs -----

  ghost predicate Says(c: Catalog, i: nat, t: nat, x: Activity) {
    i < |c.agents| && t < |c.agents[i].turns| && x in c.agents[i].turns[t].activities
  }

  /** The step is the activity event that brought this commentary to that turn. */
  ghost predicate Brings(s: Step, c: Catalog, i: nat, t: nat, x: Activity) {
    && i < |c.agents| && t < |c.agents[i].turns|
    && s.StepEvent? && s.ev.body.ActivityEvent? && x == Commentary(s.ev.body.itemId, s.ev.body.text)
    && s.ev.agentId == c.agents[i].agentId && s.ev.turnId == c.agents[i].turns[t].id
  }

  lemma BeginSaysNothing(c: Catalog, s: Step, i: nat, t: nat, x: Activity)
    requires Says(Next(c, s), i, t, x) && (s.StepStart? || s.StepMessage? || s.StepStop?)
    ensures Says(c, i, t, x)
  {
    hide HistoryOk, SchemaOk, Replay, CanBegin, Locate, FirstAgent;
  }

  lemma DeliverySaysNothing(c: Catalog, s: Step, i: nat, t: nat, x: Activity)
    requires Says(Next(c, s), i, t, x) && (s.StepAccept? || s.StepAbandon?)
    ensures Says(c, i, t, x)
  {
    hide HistoryOk, SchemaOk, DecideAcceptance, Locate, FirstAgent, OperationIndex, ExchangeIndex;
  }

  lemma ReceiptSaysNothing(c: Catalog, s: Step, i: nat, t: nat, x: Activity)
    requires Says(Next(c, s), i, t, x) && (s.StepReject? || s.StepInterrupt? || s.StepReconcile?)
    ensures Says(c, i, t, x)
  {
    hide HistoryOk, SchemaOk, Locate, OperationIndex, ExchangeIndex, ClassifyEventFence;
  }

  lemma {:induction false} CommentaryIsHeld(acts: seq<Activity>, x: Activity)
    requires x in CommentaryOf(acts)
    ensures x in acts
  {
    var n := |acts| - 1;
    assert acts == acts[..n] + [acts[n]];
    if x in CommentaryOf(acts[..n]) {
      CommentaryIsHeld(acts[..n], x);
    }
  }

  lemma EventSays(c: Catalog, s: Step, i: nat, t: nat, x: Activity)
    requires Says(Next(c, s), i, t, x) && s.StepEvent? && x.Commentary?
    ensures Says(c, i, t, x) || Brings(s, c, i, t, x)
  {
    hide ApplyEvent, StopsSettle, CommentaryOf, Omitted;
    if Next(c, s) != c && s.ev.body.TerminalEvent? {
      TerminalIsRecorded(c, s.ev, s.now, s.env);
    } else if Next(c, s) != c {
      ActivityIsRecorded(c, s.ev, s.now, s.env);
    }
    var at := Locate(c.agents, s.ev.agentId);
    if at == Some(i) && t < |c.agents[i].turns| && x in CommentaryOf(c.agents[i].turns[t].activities) {
      CommentaryIsHeld(c.agents[i].turns[t].activities, x);
    }
  }

  lemma StepSays(c: Catalog, s: Step, i: nat, t: nat, x: Activity)
    requires Says(Next(c, s), i, t, x) && x.Commentary?
    ensures Says(c, i, t, x) || Brings(s, c, i, t, x)
  {
    hide Next, Says, Brings;
    if s.StepStart? || s.StepMessage? || s.StepStop? {
      BeginSaysNothing(c, s, i, t, x);
    } else if s.StepAccept? || s.StepAbandon? {
      DeliverySaysNothing(c, s, i, t, x);
    } else if s.StepEvent? {
      EventSays(c, s, i, t, x);
    } else {
      ReceiptSaysNothing(c, s, i, t, x);
    }
  }

  /** In any run, the commentary of a turn was there at the start or was brought, word for word, by an event of the run. */
  lemma {:induction false} CommentaryIsTheEvents(c: Catalog, steps: seq<Step>, i: nat, t: nat, x: Activity)
    requires x.Commentary? && Says(Run(c, steps), i, t, x)
    ensures Says(c, i, t, x) || exists m: nat :: m < |steps| && Brings(steps[m], Run(c, steps[..m]), i, t, x)
  {
    hide Next, Says, Brings;
    if steps != [] {
      var n := |steps| - 1;
      StepSays(Run(c, steps[..n]), steps[n], i, t, x);
      if Says(Run(c, steps[..n]), i, t, x) {
        CommentaryIsTheEvents(c, steps[..n], i, t, x);
        if m: nat :| m < n && Brings(steps[..n][m], Run(c, steps[..n][..m]), i, t, x) {
          assert steps[..n][..m] == steps[..m];
          assert Brings(steps[m], Run(c, steps[..m]), i, t, x);
        }
      }
    }
  }

  // ----- Times -----

  function Clock(s: Step): nat {
    if s.StepStart? || s.StepMessage? || s.StepStop? then s.i.at else s.now
  }

  /** A record that moves carries the clock, or its own time if that is later, and so does everything that moves or is new in it. */
  ghost predicate Stamped(a: Agent, a': Agent, clock: nat) {
    a' == a ||
    (&& a'.updatedAt == (if clock > a.updatedAt then clock else a.updatedAt)
     && |a.turns| <= |a'.turns| && |a.operations| <= |a'.operations| && |a.exchanges| <= |a'.exchanges|
     && (forall t :: 0 <= t < |a'.turns| && (t < |a.turns| ==> a'.turns[t] != a.turns[t]) ==> a'.turns[t].updatedAt == a'.updatedAt)
     && (forall k :: |a.operations| <= k < |a'.operations| ==> a'.operations[k].createdAt == a'.updatedAt)
     && (forall k :: |a.exchanges| <= k < |a'.exchanges| ==> a'.exchanges[k].createdAt == a'.updatedAt)
     && (forall k :: 0 <= k < |a'.operations| && (k < |a.operations| ==> a'.operations[k].state != a.operations[k].state) ==>
          a'.operations[k].updatedAt == a'.updatedAt))
  }

  ghost predicate AllStamped(c: Catalog, c': Catalog, clock: nat) {
    && |c.agents| <= |c'.agents|
    && (forall i :: 0 <= i < |c.agents| ==> Stamped(c.agents[i], c'.agents[i], clock))
    && (forall i :: |c.agents| <= i < |c'.agents| ==> c'.agents[i].createdAt == c'.agents[i].updatedAt == clock)
  }

  lemma OneStamped(c: Catalog, at: nat, a: Agent, s: Storage, clock: nat)
    requires at < |c.agents| && Stamped(c.agents[at], a, clock)
    ensures AllStamped(c, c, clock) && AllStamped(c, Store(c, c.agents[at := a], s), clock)
  {
  }

  lemma BeginStamps(c: Catalog, s: Step)
    requires s.StepStart? || s.StepMessage? || s.StepStop?
    ensures AllStamped(c, Next(c, s), Clock(s))
  {
    hide HistoryOk, SchemaOk, Replay, CanBegin, Locate, FirstAgent;
    if !s.StepStart? {
      var at := Locate(c.agents, s.i.agentId);
      if at.Some? && CanBegin(c.agents[at.value]) && (s.StepStop? ==> c.agents[at.value].agentState.Idle? || c.agents[at.value].activeTurnId.Some?) {
        OneStamped(c, at.value, if s.StepMessage? then WithMessage(c.agents[at.value], s.i) else WithStop(c.agents[at.value], s.i),
                   s.env.storage, s.i.at);
      }
    }
  }

  lemma AcceptanceIsStamped(a: Agent, o: nat, e: nat, r: Receipt, settled: bool, now: nat)
    requires o < |a.operations| && e < |a.exchanges|
    ensures Stamped(a, WithAcceptance(a, o, e, r, settled, now), now)
  {
    hide TurnIndex;
  }

  lemma RefusalIsStamped(a: Agent, o: nat, e: nat, now: nat)
    requires o < |a.operations| && e < |a.exchanges|
    ensures Stamped(a, WithRefusal(a, o, e, now), now)
  {
  }

  lemma RejectionIsStamped(a: Agent, o: nat, e: nat, now: nat)
    requires o < |a.operations| && e <= |a.exchanges|
    ensures Stamped(a, WithRejection(a, o, e, now), now)
  {
  }

  lemma InterruptIsStamped(a: Agent, o: nat, delivered: bool, fence: Fence, now: nat)
    requires o < |a.operations|
    ensures Stamped(a, WithInterruptOutcome(a, o, delivered, fence, now), now)
  {
  }

  lemma ReconciliationIsStamped(a: Agent, turn: Option<string>, turnRuns: bool, fence: Fence, now: nat)
    ensures Stamped(a, WithReconciliation(a, turn, turnRuns, fence, now), now)
  {
    hide Runs;
  }

  lemma EventIsStamped(a: Agent, t: nat, activities: seq<Activity>, outcome: TurnState, fence: Fence, now: nat)
    requires t < |a.turns|
    ensures Stamped(a, WithActivity(a, t, activities, fence, now), now) && Stamped(a, WithTerminal(a, t, outcome, fence, now), now)
  {
  }

  lemma DeliveryStamps(c: Catalog, s: Step)
    requires s.StepAccept? || s.StepAbandon?
    ensures AllStamped(c, Next(c, s), Clock(s))
  {
    hide HistoryOk, SchemaOk, DecideAcceptance, Locate, FirstAgent, OperationIndex, ExchangeIndex, Stamped, WithAcceptance, WithRefusal;
    forall a: Agent, o: nat, e: nat, r, settled | o < |a.operations| && e < |a.exchanges|
      ensures Stamped(a, WithAcceptance(a, o, e, r, settled, s.now), s.now)
    {
      AcceptanceIsStamped(a, o, e, r, settled, s.now);
    }
    forall a: Agent, o: nat, e: nat | o < |a.operations| && e < |a.exchanges|
      ensures Stamped(a, WithRefusal(a, o, e, s.now), s.now)
    {
      RefusalIsStamped(a, o, e, s.now);
    }
    NotMovedIsStamped(s.now);
  }

  lemma NotMovedIsStamped(clock: nat)
    ensures forall a :: Stamped(a, a, clock)
  {
  }

  lemma TrafficStamps(c: Catalog, s: Step)
    requires s.StepReject? || s.StepInterrupt? || s.StepReconcile? || s.StepEvent?
    ensures AllStamped(c, Next(c, s), Clock(s))
  {
    hide HistoryOk, SchemaOk, Locate, OperationIndex, ExchangeIndex, ClassifyEventFence, AppendActivity, TurnIndex, Stamped;
    hide WithRejection, WithInterruptOutcome, WithReconciliation, WithActivity, WithTerminal;
    NotMovedIsStamped(s.now);
    if s.StepReconcile? {
      forall a ensures Stamped(a, WithReconciliation(a, s.turn, s.turnRuns, s.fence, s.now), s.now) {
        ReconciliationIsStamped(a, s.turn, s.turnRuns, s.fence, s.now);
      }
    } else if s.StepInterrupt? {
      forall a: Agent, o: nat | o < |a.operations| ensures Stamped(a, WithInterruptOutcome(a, o, s.delivered, s.fence, s.now), s.now) {
        InterruptIsStamped(a, o, s.delivered, s.fence, s.now);
      }
    } else if s.StepReject? {
      forall a: Agent, o: nat, e: nat | o < |a.operations| && e <= |a.exchanges|
        ensures Stamped(a, WithRejection(a, o, e, s.now), s.now)
      {
        RejectionIsStamped(a, o, e, s.now);
      }
    } else {
      var at := Locate(c.agents, s.ev.agentId);
      if at.Some? {
        var a := c.agents[at.value];
        var t := TurnIndex(a.turns, s.ev.turnId);
        if t < |a.turns| && s.ev.body.ActivityEvent? {
          var acts := AppendActivity(a.turns[t].activities, s.ev.body.itemId, s.ev.body.text, MAX_ACTIVITIES);
          EventIsStamped(a, t, if acts.Some? then acts.value else [], Interrupted, s.ev.fence, s.now);
        } else if t < |a.turns| {
          EventIsStamped(a, t, [], s.ev.body.outcome, s.ev.fence, s.now);
        }
      }
    }
  }

  /** Whatever a step moves is stamped with its clock, and no record ever goes back in time. */
  lemma ChangesAreStamped(c: Catalog, s: Step)
    ensures AllStamped(c, Next(c, s), Clock(s))
  {
    hide Next, AllStamped;
    if s.StepStart? || s.StepMessage? || s.StepStop? {
      BeginStamps(c, s);
    } else if s.StepAccept? || s.StepAbandon? {
      DeliveryStamps(c, s);
    } else {
      TrafficStamps(c, s);
    }
  }
}
