/** Delivery receipts over whole runs: recorded once, recognised afterwards. And records no reconciliation can repair. */
module AgentReceipts {
  import opened Common
  import opened AgentRecord
  import opened AgentSchema
  import opened AgentReducers
  import opened AgentInvariant
  import opened AgentTransitions
  import opened AgentAcceptance
  import opened AgentSchemaKept
  import opened AgentSchemaAcceptance
  import opened AgentService
  import opened AgentRuns
  import opened AgentParses

  /**
   An accepted receipt is stored unless it steers into a running turn that was last updated
   earlier, or is a first receipt fenced by a target other than the one it names.
   */
  lemma ReceiptStoredIff(c: Catalog, agentId: string, operationId: string, r: Receipt, now: nat, env: Env, at: nat, o: nat, e: nat)
    requires Good(c) && Smooth(env) && Locate(c.agents, agentId) == Some(at)
    requires o == OperationIndex(c.agents[at].operations, operationId) < |c.agents[at].operations|
    requires e == ExchangeIndex(c.agents[at].exchanges, operationId) < |c.agents[at].exchanges|
    requires Decision(c.agents[at], o, e, r).Accept?
    ensures AcceptDelivery(c, agentId, operationId, r, now, env).1.AcceptCommitted? <==>
      !SteerMissesItsTurn(c.agents[at], o, e, r, now) && FencesItsTarget(c.agents[at], r)
  {
    hide RecordOk, HistoryOk, SchemaOk, DecideAcceptance, SteerMissesItsTurn, FencesItsTarget, WithAcceptance;
    AcceptanceOk(c.agents[at], o, e, r, now);
    AcceptanceMeetsSchema(c.agents[at], o, e, r, now);
  }

  // ----- A receipt delivered again -----

  /** What later steps leave alone: the native identity, and how verified prompts were accepted. */
  ghost predicate IdentityKept(a: Agent, a': Agent) {
    && (a.threadId.Some? ==> a'.threadId == a.threadId)
    && (a.resolvedTarget.Some? ==> a'.resolvedTarget == a.resolvedTarget)
    && |a.operations| <= |a'.operations|
    && forall k :: 0 <= k < |a.operations| && AcceptedPrompt(a.operations[k]) && !a.operations[k].acceptanceUnverified ==>
         !a'.operations[k].acceptanceUnverified && a'.operations[k].acceptanceFence == a.operations[k].acceptanceFence
  }

  lemma BeginKeepsIdentity(c: Catalog, s: Step, i: nat)
    requires i < |c.agents| && (s.StepStart? || s.StepMessage? || s.StepStop?)
    ensures i < |Next(c, s).agents| && IdentityKept(c.agents[i], Next(c, s).agents[i])
  {
    hide HistoryOk, SchemaOk, Replay, CanBegin, Locate, FirstAgent;
  }

  lemma RefusalKeepsIdentity(c: Catalog, at: nat, o: nat, e: nat, now: nat, env: Env, i: nat)
    requires i < |c.agents| && at < |c.agents| && o < |c.agents[at].operations| && e < |c.agents[at].exchanges|
    ensures var c' := RefuseDelivery(c, at, o, e, now, env).0; i < |c'.agents| && IdentityKept(c.agents[i], c'.agents[i])
  {
    hide HistoryOk, SchemaOk;
  }

  lemma AcceptedKeepsIdentity(a: Agent, o: nat, e: nat, r: Receipt, now: nat)
    requires RecordOk(a) && Paired(a, o, e) && Decision(a, o, e, r).Accept?
    ensures IdentityKept(a, WithAcceptance(a, o, e, r, Decision(a, o, e, r).steeredIntoSettledTurn, now))
  {
    hide RecordOk, DecideAcceptance, HasSettledTurn;
    AcceptAgrees(a, o, e, r);
    AcceptMeans(a, o, e, r);
  }

  lemma AcceptKeepsIdentity(c: Catalog, s: Step, i: nat)
    requires CatalogOk(c) && i < |c.agents| && s.StepAccept?
    ensures i < |Next(c, s).agents| && IdentityKept(c.agents[i], Next(c, s).agents[i])
  {
    hide RecordOk, Parses, DecideAcceptance, RefuseDelivery, Locate, WithAcceptance, IdentityKept;
    SameIdentity(c.agents[i]);
    var at := Locate(c.agents, s.agentId);
    if at.Some? {
      var a := c.agents[at.value];
      var o, e := OperationIndex(a.operations, s.operationId), ExchangeIndex(a.exchanges, s.operationId);
      if o < |a.operations| && e < |a.exchanges| {
        RefusalKeepsIdentity(c, at.value, o, e, s.now, s.env, i);
        if Decision(a, o, e, s.r).Accept? {
          AcceptedKeepsIdentity(a, o, e, s.r, s.now);
        }
      }
    }
  }

  lemma SameIdentity(a: Agent)
    ensures IdentityKept(a, a)
  {
  }

  lemma AbandonKeepsIdentity(c: Catalog, s: Step, i: nat)
    requires i < |c.agents| && s.StepAbandon?
    ensures i < |Next(c, s).agents| && IdentityKept(c.agents[i], Next(c, s).agents[i])
  {
    hide RefuseDelivery;
    var at := FirstAgent(c.agents, s.agentId);
    if at < |c.agents| {
      var a := c.agents[at];
      var o, e := OperationIndex(a.operations, s.operationId), ExchangeIndex(a.exchanges, s.operationId);
      if o < |a.operations| && e < |a.exchanges| {
        RefusalKeepsIdentity(c, at, o, e, s.now, s.env, i);
      }
    }
  }

  lemma InterruptKeepsIdentity(c: Catalog, s: Step, i: nat)
    requires CatalogOk(c) && i < |c.agents| && s.StepInterrupt?
    ensures i < |Next(c, s).agents| && IdentityKept(c.agents[i], Next(c, s).agents[i])
  {
    hide RecordOk, HistoryOk, SchemaOk, Locate, ClassifyEventFence;
    var at := Locate(c.agents, s.agentId);
    if at.Some? {
      var a := c.agents[at.value];
      var o := OperationIndex(a.operations, s.operationId);
      if o < |a.operations| && a.pendingInterrupt.Some? && a.pendingInterrupt.value.operationId == s.operationId {
        InterruptIsAStop(a, o);
      }
    }
  }

  lemma TrafficKeepsIdentity(c: Catalog, s: Step, i: nat)
    requires i < |c.agents| && (s.StepReject? || s.StepEvent? || s.StepReconcile?)
    ensures i < |Next(c, s).agents| && IdentityKept(c.agents[i], Next(c, s).agents[i])
  {
    hide HistoryOk, SchemaOk, Locate, TurnIndex, OperationIndex, ExchangeIndex, AppendActivity, ClassifyEventFence;
    if s.StepReject? {
      hide ApplyEvent, ApplyReconciliation;
    } else if s.StepEvent? {
      hide ApplyRejection, ApplyReconciliation;
    } else {
      hide ApplyRejection, ApplyEvent;
    }
  }

  lemma StepKeepsIdentity(c: Catalog, s: Step, i: nat)
    requires CatalogOk(c) && i < |c.agents|
    ensures i < |Next(c, s).agents| && IdentityKept(c.agents[i], Next(c, s).agents[i])
  {
    hide CatalogOk, IdentityKept, Next;
    if s.StepStart? || s.StepMessage? || s.StepStop? {
      BeginKeepsIdentity(c, s, i);
    } else if s.StepAccept? {
      AcceptKeepsIdentity(c, s, i);
    } else if s.StepAbandon? {
      AbandonKeepsIdentity(c, s, i);
    } else if s.StepInterrupt? {
      InterruptKeepsIdentity(c, s, i);
    } else {
      TrafficKeepsIdentity(c, s, i);
    }
  }

  /** The receipt is on record for operation `o` and exchange `e` of agent `i`. */
  ghost predicate OnRecord(c: Catalog, i: nat, o: nat, e: nat, agentId: string, operationId: string, r: Receipt) {
    i < |c.agents| && o < |c.agents[i].operations| && e < |c.agents[i].exchanges| &&
    var a, op, ex := c.agents[i], c.agents[i].operations[o], c.agents[i].exchanges[e];
    && a.agentId == agentId && op.operationId == ex.operationId == operationId
    && AcceptedPrompt(op) && !op.acceptanceUnverified && op.turnId == Some(r.turnId) && op.acceptanceFence == Some(r.fence)
    && ex.status.Accepted? && ex.delivery == Some(r.delivery)
    && a.threadId == Some(r.threadId) && a.resolvedTarget == Some(r.resolvedTarget)
  }

  lemma OnRecordStays(c: Catalog, s: Step, i: nat, o: nat, e: nat, agentId: string, operationId: string, r: Receipt)
    requires CatalogOk(c) && OnRecord(c, i, o, e, agentId, operationId, r)
    ensures OnRecord(Next(c, s), i, o, e, agentId, operationId, r)
  {
    hide CatalogOk, Next;
    StepSound(c, s);
    StepKeepsIdentity(c, s, i);
    var a, a' := c.agents[i], Next(c, s).agents[i];
    assert Evolves(a, a') && OperationEvolves(a.operations[o], a'.operations[o]) && ExchangeEvolves(a.exchanges[e], a'.exchanges[e]);
  }

  lemma {:induction false} OnRecordForTheRun(c: Catalog, steps: seq<Step>, i: nat, o: nat, e: nat,
                                             agentId: string, operationId: string, r: Receipt)
    requires CatalogOk(c) && OnRecord(c, i, o, e, agentId, operationId, r)
    ensures OnRecord(Run(c, steps), i, o, e, agentId, operationId, r)
  {
    hide CatalogOk, CatalogEvolves, Next, OnRecord;
    if steps != [] {
      var n := |steps| - 1;
      OnRecordForTheRun(c, steps[..n], i, o, e, agentId, operationId, r);
      EveryRunIsSound(c, steps[..n]);
      OnRecordStays(Run(c, steps[..n]), steps[n], i, o, e, agentId, operationId, r);
    }
  }

  /** Committing a receipt puts it on record. */
  lemma CommittedIsOnRecord(c: Catalog, agentId: string, operationId: string, r: Receipt, now: nat, env: Env)
    returns (i: nat, o: nat, e: nat)
    requires Good(c) && AcceptDelivery(c, agentId, operationId, r, now, env).1.AcceptCommitted?
    ensures OnRecord(AcceptDelivery(c, agentId, operationId, r, now, env).0, i, o, e, agentId, operationId, r)
  {
    hide RecordOk, HistoryOk, SchemaOk, DecideAcceptance, Locate;
    i := Locate(c.agents, agentId).value;
    var a := c.agents[i];
    o, e := OperationIndex(a.operations, operationId), ExchangeIndex(a.exchanges, operationId);
    AcceptMeans(a, o, e, r);
    PairedPrompt(a, o, e);
    NotYetVerified(a, o);
  }

  lemma NotYetVerified(a: Agent, o: nat)
    requires o < |a.operations| && SchemaOk(a) && a.operations[o].state.Requested?
    ensures !a.operations[o].acceptanceUnverified
  {
    assert OperationRules(a.operations[o]);
  }

  lemma RecordedIsRecognised(c: Catalog, i: nat, o: nat, e: nat, agentId: string, operationId: string, r: Receipt, now: nat, env: Env)
    requires CatalogOk(c) && OnRecord(c, i, o, e, agentId, operationId, r)
    ensures AcceptDelivery(c, agentId, operationId, r, now, env) ==
      (c, if env.durable then AcceptReplayed else AcceptIndeterminate(true))
  {
    hide HistoryOk, PendingOk, WindowsOk;
    assert Locate(c.agents, agentId) == Some(i);
    assert OperationIndex(c.agents[i].operations, operationId) == o;
    assert ExchangeIndex(c.agents[i].exchanges, operationId) == e;
  }

  /**
   In any run, once a receipt has been committed the same receipt never changes anything again: it
   is answered as a replay, or as unresolved while the catalog cannot be confirmed durable.
   */
  lemma ReceiptTakesEffectOnce(c: Catalog, steps: seq<Step>, m: nat, now: nat, env: Env)
    requires Good(c) && m < |steps| && steps[m].StepAccept?
    requires var s := steps[m];
      AcceptDelivery(Run(c, steps[..m]), s.agentId, s.operationId, s.r, s.now, s.env).1.AcceptCommitted?
    ensures var s, end := steps[m], Run(c, steps);
      AcceptDelivery(end, s.agentId, s.operationId, s.r, now, env) ==
        (end, if env.durable then AcceptReplayed else AcceptIndeterminate(true))
  {
    hide Good, CatalogOk, CatalogEvolves, AcceptDelivery, OnRecord;
    var s, before, after := steps[m], Run(c, steps[..m]), Run(c, steps[..m + 1]);
    EveryRunIsGood(c, steps[..m]);
    EveryRunIsGood(c, steps[..m + 1]);
    EveryRunIsGood(c, steps);
    GoodIsOk(after);
    GoodIsOk(Run(c, steps));
    assert steps[..m + 1][..m] == steps[..m];
    var i, o, e := CommittedIsOnRecord(before, s.agentId, s.operationId, s.r, s.now, s.env);
    OnRecordForTheRun(after, steps[m + 1..], i, o, e, s.agentId, s.operationId, s.r);
    RunSplits(c, steps, m + 1);
    RecordedIsRecognised(Run(c, steps), i, o, e, s.agentId, s.operationId, s.r, now, env);
  }

  lemma GoodIsOk(c: Catalog)
    requires Good(c)
    ensures CatalogOk(c)
  {
  }

  // ----- Records no reconciliation can repair -----

  /**
   A message whose acceptance still has to be verified, and that did not record the fence it was
   sent at. A record written before fences were kept can hold one.
   */
  ghost predicate Stuck(c: Catalog, i: nat, k: nat) {
    && i < |c.agents| && k < |c.agents[i].operations|
    && c.agents[i].operations[k].acceptanceUnverified && c.agents[i].operations[k].kind.Message?
    && c.agents[i].operations[k].preDispatch.fence.None?
  }

  ghost predicate StillUnverified(a: Agent, a': Agent) {
    && |a.operations| <= |a'.operations|
    && forall k :: 0 <= k < |a.operations| && a.operations[k].acceptanceUnverified ==> a'.operations[k].acceptanceUnverified
  }

  lemma OthersLeaveUnverified(c: Catalog, s: Step, i: nat)
    requires i < |c.agents| && !s.StepReconcile?
    ensures i < |Next(c, s).agents| && StillUnverified(c.agents[i], Next(c, s).agents[i])
  {
    hide Parses, Replay, CanBegin, Locate, FirstAgent, TurnIndex, OperationIndex, ExchangeIndex, AppendActivity;
    hide ClassifyEventFence, DecideAcceptance;
    if s.StepStart? || s.StepMessage? || s.StepStop? {
      hide AcceptDelivery, AbandonDelivery, ApplyRejection, ApplyInterruptOutcome, ApplyEvent;
    } else if s.StepAccept? || s.StepAbandon? {
      hide BeginStart, BeginMessage, BeginStop, ApplyRejection, ApplyInterruptOutcome, ApplyEvent;
    } else {
      hide BeginStart, BeginMessage, BeginStop, AcceptDelivery, AbandonDelivery;
    }
  }

  lemma StuckIsNotReconciled(c: Catalog, s: Step, i: nat, k: nat)
    requires Good(c) && Stuck(c, i, k) && s.StepReconcile?
    ensures i < |Next(c, s).agents| && Next(c, s).agents[i] == c.agents[i]
  {
    hide HistoryOk, SchemaOk, RecordOk, WithReconciliation;
    var at := Locate(c.agents, s.agentId);
    if at == Some(i) && c.agents[i].threadId == Some(s.threadId) {
      assert !Reconcilable(c.agents[i], s.fence);
      WithReconciliationMeetsSchema(c.agents[i], s.turn, s.turnRuns, s.fence, s.now);
    }
  }

  lemma StuckStays(c: Catalog, s: Step, i: nat, k: nat)
    requires Good(c) && Stuck(c, i, k)
    ensures Stuck(Next(c, s), i, k)
  {
    hide CatalogOk, AllMeetSchema, Next;
    if s.StepReconcile? {
      StuckIsNotReconciled(c, s, i, k);
    } else {
      OthersLeaveUnverified(c, s, i);
      StepSound(c, s);
      assert OperationEvolves(c.agents[i].operations[k], Next(c, s).agents[i].operations[k]);
    }
  }

  /** Such an agent stays in recovery for every run: no reconciliation is recorded and no message or stop is accepted. */
  lemma {:induction false} StuckForGood(c: Catalog, steps: seq<Step>, i: nat, k: nat)
    requires Good(c) && Stuck(c, i, k)
    ensures Stuck(Run(c, steps), i, k) && !CanBegin(Run(c, steps).agents[i])
  {
    hide Good, Next, Stuck;
    if steps != [] {
      var n := |steps| - 1;
      StuckForGood(c, steps[..n], i, k);
      EveryRunIsGood(c, steps[..n]);
      StuckStays(Run(c, steps[..n]), steps[n], i, k);
    }
    EveryRunIsGood(c, steps);
    StuckCannotBegin(Run(c, steps), i, k);
  }

  lemma StuckCannotBegin(c: Catalog, i: nat, k: nat)
    requires Good(c) && Stuck(c, i, k)
    ensures i < |c.agents| && !CanBegin(c.agents[i])
  {
    hide CatalogOk, HasPendingPrompt, Native, OperationsRules, ExchangesRules;
    assert NativeRules(c.agents[i]) && Unverified(c.agents[i].operations);
  }

  /** A recovered record from before fences were kept: a start and a message, both delivered, both ended. */
  function OldRecord(): Agent {
    var target := Target(Host, "host", "/work");
    Agent("a", Recovering, Host, Some(target), Some("th"), None, None,
          [Exchange("op1", Start, "go", Accepted, Some(Started), Some("t1"), 1, Some(2)),
           Exchange("op2", Message, "more", Accepted, Some(Started), Some("t2"), 3, Some(4))],
          [Turn("t1", Completed(None, "ok"), [], 2), Turn("t2", Completed(None, "ok"), [], 4)],
          [Operation("op1", Start, "f1", Accepted, Some("t1"), None, true, PreDispatch(Creating, None, None, None), false, 1, 2),
           Operation("op2", Message, "f2", Accepted, Some("t2"), None, true, PreDispatch(Idle, Some("th"), None, None), false, 3, 4)],
          None, 1, 4)
  }

  lemma OldRecordHistory()
    ensures HistoryOk(OldRecord())
  {
    var a := OldRecord();
    assert StartsTurn(a.exchanges[0], a.turns[0].id) && StartsTurn(a.exchanges[1], a.turns[1].id);
    assert a.turns[0].id == "t1" && a.turns[1].id == "t2";
  }

  lemma OldRecordPairs()
    ensures OperationShape(OldRecord().operations) && PairingOk(OldRecord().operations, OldRecord().exchanges)
  {
    var a := OldRecord();
    assert a.operations[0].operationId == a.exchanges[0].operationId && a.operations[1].operationId == a.exchanges[1].operationId;
  }

  lemma OldRecordOk()
    ensures RecordOk(OldRecord())
  {
    hide HistoryOk, OperationShape, PairingOk;
    OldRecordHistory();
    OldRecordPairs();
  }

  lemma OldRecordMeetsSchema()
    ensures SchemaOk(OldRecord())
  {
    var a := OldRecord();
    assert a.turns[0].id == "t1" && a.turns[1].id == "t2" && a.operations[0].acceptanceUnverified;
    assert AcceptedPrompt(a.operations[0]);
  }

  /** Such a record passes every modelled rule of the schema, and no run repairs it. */
  lemma SomeRecordsAreStuck(steps: seq<Step>)
    ensures var c := Catalog(1, [OldRecord()]);
      Good(c) && Stuck(c, 0, 1) && Stuck(Run(c, steps), 0, 1) && !CanBegin(Run(c, steps).agents[0])
  {
    hide RecordOk, SchemaOk;
    OldRecordOk();
    OldRecordMeetsSchema();
    StuckForGood(Catalog(1, [OldRecord()]), steps, 0, 1);
  }
}
