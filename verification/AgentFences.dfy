/** Fences: an agent's place in its daemon's stream moves forward, so no daemon event takes effect twice. */
module AgentFences {
  import opened Common
  import opened AgentRecord
  import opened AgentSchema
  import opened AgentReducers
  import opened AgentInvariant
  import opened AgentService
  import opened AgentRuns

  /** The fence is kept, advanced within its stream, or given for the first time. */
  ghost predicate FenceAdvances(a: Agent, a': Agent) {
    a'.fence == a.fence || (a'.fence.Some? && ClassifyAcceptanceFence(a.fence, a'.fence.value).Advances?)
  }

  /** Only its own reconciliation may take a fenced agent to another stream. */
  ghost predicate FenceMoves(a: Agent, a': Agent, s: Step) {
    || FenceAdvances(a, a')
    || (&& s.StepReconcile? && s.agentId == a.agentId && a'.fence == Some(s.fence)
        && !ClassifyEventFence(a.fence, s.fence).Duplicate?)
  }

  /** An accepted receipt always advances the fence of the record it is accepted into. */
  lemma AcceptanceAdvances(a: Agent, op: Operation, ex: Exchange, r: Receipt)
    requires DecideAcceptance(a, op, ex, r).Accept?
    ensures ClassifyAcceptanceFence(a.fence, r.fence).Advances?
  {
  }

  lemma AcceptMoves(c: Catalog, agentId: string, operationId: string, r: Receipt, now: nat, env: Env, i: nat)
    requires i < |c.agents|
    ensures var c' := AcceptDelivery(c, agentId, operationId, r, now, env).0;
      |c'.agents| == |c.agents| && FenceAdvances(c.agents[i], c'.agents[i])
  {
    hide HistoryOk, SchemaOk, DecideAcceptance;
    var at := Locate(c.agents, agentId);
    if at.Some? {
      var a := c.agents[at.value];
      var o, e := OperationIndex(a.operations, operationId), ExchangeIndex(a.exchanges, operationId);
      if o < |a.operations| && e < |a.exchanges| && DecideAcceptance(a, a.operations[o], a.exchanges[e], r).Accept? {
        AcceptanceAdvances(a, a.operations[o], a.exchanges[e], r);
      }
    }
  }

  lemma BeginKeepsFences(c: Catalog, s: Step, i: nat)
    requires i < |c.agents| && (s.StepStart? || s.StepMessage? || s.StepStop?)
    ensures |c.agents| <= |Next(c, s).agents| && FenceAdvances(c.agents[i], Next(c, s).agents[i])
  {
    hide HistoryOk, SchemaOk, Replay, CanBegin;
  }

  lemma RefusalKeepsFences(c: Catalog, s: Step, i: nat)
    requires i < |c.agents| && (s.StepAbandon? || s.StepReject?)
    ensures |Next(c, s).agents| == |c.agents| && FenceAdvances(c.agents[i], Next(c, s).agents[i])
  {
    hide HistoryOk, SchemaOk;
  }

  lemma TrafficMovesFences(c: Catalog, s: Step, i: nat)
    requires i < |c.agents| && (s.StepInterrupt? || s.StepEvent? || s.StepReconcile?)
    ensures |Next(c, s).agents| == |c.agents| && FenceMoves(c.agents[i], Next(c, s).agents[i], s)
  {
    hide HistoryOk, SchemaOk, AppendActivity, Locate, TurnIndex, OperationIndex, SettleStops, RefenceUnverified;
    if s.StepEvent? {
      hide ApplyInterruptOutcome, ApplyReconciliation;
    } else if s.StepInterrupt? {
      hide ApplyEvent, ApplyReconciliation;
    } else {
      hide ApplyEvent, ApplyInterruptOutcome;
    }
  }

  /** One step, one agent. */
  lemma FenceStep(c: Catalog, s: Step, i: nat)
    requires i < |c.agents|
    ensures |c.agents| <= |Next(c, s).agents| && FenceMoves(c.agents[i], Next(c, s).agents[i], s)
  {
    if s.StepStart? || s.StepMessage? || s.StepStop? {
      hide Next;
      BeginKeepsFences(c, s, i);
    } else if s.StepAbandon? || s.StepReject? {
      hide Next;
      RefusalKeepsFences(c, s, i);
    } else if s.StepAccept? {
      hide AcceptDelivery, FenceAdvances;
      AcceptMoves(c, s.agentId, s.operationId, s.r, s.now, s.env, i);
    } else {
      hide Next;
      TrafficMovesFences(c, s, i);
    }
  }

  /** Agent `i` stands in another stream than `f`, or at `f` or past it. */
  ghost predicate Past(c: Catalog, i: nat, f: Fence) {
    && i < |c.agents| && c.agents[i].fence.Some?
    && (SameStream(c.agents[i].fence.value, f) ==> f.lastEventId <= c.agents[i].fence.value.lastEventId)
  }

  /** The step does not reconcile this agent back into the stream of `f` behind it. */
  ghost predicate NotRewound(s: Step, agentId: string, f: Fence) {
    s.StepReconcile? && s.agentId == agentId && SameStream(s.fence, f) ==> f.lastEventId <= s.fence.lastEventId
  }

  lemma PastStaysPast(c: Catalog, s: Step, i: nat, f: Fence)
    requires Past(c, i, f) && NotRewound(s, c.agents[i].agentId, f)
    ensures Past(Next(c, s), i, f)
  {
    hide Next;
    FenceStep(c, s, i);
  }

  lemma {:induction false} PastForTheRun(c: Catalog, steps: seq<Step>, i: nat, f: Fence)
    requires CatalogOk(c) && i < |c.agents| && Past(c, i, f)
    requires forall k :: 0 <= k < |steps| ==> NotRewound(steps[k], c.agents[i].agentId, f)
    ensures Past(Run(c, steps), i, f)
  {
    hide Next, Past, NotRewound, CatalogOk, CatalogEvolves;
    if steps != [] {
      var n := |steps| - 1;
      PastForTheRun(c, steps[..n], i, f);
      EveryRunIsSound(c, steps[..n]);
      SameAgent(c, Run(c, steps[..n]), i);
      PastStaysPast(Run(c, steps[..n]), steps[n], i, f);
    }
  }

  lemma StoredEventIsPast(c: Catalog, ev: Event, now: nat, env: Env)
    requires ApplyEvent(c, ev, now, env).0 != c
    ensures var at := Locate(c.agents, ev.agentId);
      at.Some? && Past(ApplyEvent(c, ev, now, env).0, at.value, ev.fence)
  {
    hide HistoryOk, SchemaOk, AppendActivity;
  }

  /** An event the agent is past changes nothing: it is a duplicate, or of a stream the agent has left. */
  lemma PastEventIsInert(c: Catalog, ev: Event, now: nat, env: Env, i: nat)
    requires CatalogOk(c) && Past(c, i, ev.fence) && c.agents[i].agentId == ev.agentId
    ensures var (c', d) := ApplyEvent(c, ev, now, env); c' == c && (d.Ignored? || d.Reconcile?)
  {
    hide RecordOk, HistoryOk, SchemaOk, AppendActivity;
    var at := Locate(c.agents, ev.agentId);
    assert at.Some? ==> at.value == i;
  }

  /**
   In any run, once an event has changed the catalog, it and every event before it in its stream
   never change it again, as long as the agent itself is not reconciled back into that stream
   behind the event. Reconciliations of other agents, and into other streams, do not matter.
   */
  lemma EventTakesEffectOnce(c: Catalog, steps: seq<Step>, m: nat, ev: Event, late: Event, now: nat, env: Env)
    requires CatalogOk(c) && m < |steps| && steps[m].StepEvent? && steps[m].ev == ev
    requires Run(c, steps[..m + 1]) != Run(c, steps[..m])
    requires forall k :: m < k < |steps| ==> NotRewound(steps[k], ev.agentId, ev.fence)
    requires late.agentId == ev.agentId && SameStream(late.fence, ev.fence) && late.fence.lastEventId <= ev.fence.lastEventId
    ensures var (end, d) := ApplyEvent(Run(c, steps), late, now, env); end == Run(c, steps) && (d.Ignored? || d.Reconcile?)
  {
    hide CatalogOk, CatalogEvolves, ApplyEvent, Locate, NotRewound;
    var before, after, end := Run(c, steps[..m]), Run(c, steps[..m + 1]), Run(c, steps);
    assert steps[..m + 1][..m] == steps[..m];
    StoredEventIsPast(before, ev, steps[m].now, steps[m].env);
    var i := Locate(before.agents, ev.agentId).value;
    EveryRunIsSound(c, steps[..m + 1]);
    LaterEvolves(c, steps[..m + 1], m);
    assert steps[..m + 1][..m] == steps[..m];
    SameAgent(before, after, i);
    PastForTheRun(after, steps[m + 1..], i, ev.fence);
    RunSplits(c, steps, m + 1);
    EveryRunIsSound(c, steps);
    LaterEvolves(c, steps, m);
    SameAgent(before, end, i);
    PastEventIsInert(end, late, now, env, i);
  }

  lemma SameAgent(c: Catalog, c': Catalog, i: nat)
    requires CatalogEvolves(c, c') && i < |c.agents|
    ensures i < |c'.agents| && c'.agents[i].agentId == c.agents[i].agentId
  {
  }
}
