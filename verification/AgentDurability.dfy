/** The catalog in memory against the one known to be on disk: what an answer to the daemon may rest on. */
module AgentDurability {
  import opened Common
  import opened AgentRecord
  import opened AgentSchema
  import opened AgentReducers
  import opened AgentInvariant
  import opened AgentTransitions
  import opened AgentAcceptance
  import opened AgentSchemaKept
  import opened AgentService
  import opened AgentRuns
  import opened AgentParses
  import opened AgentFences

  /** The installed catalog, and the last one whose write was confirmed. */
  datatype Stored = Stored(catalog: Catalog, confirmed: Catalog)

  /** One call, and what a checkpoint would meet if the call asks whether the catalog is durable. */
  datatype Visit = Visit(step: Step, probe: Storage)

  predicate Durable(st: Stored) {
    st.confirmed.revision == st.catalog.revision
  }

  ghost predicate StoredOk(st: Stored) {
    st.confirmed.revision <= st.catalog.revision && (Durable(st) ==> st.confirmed == st.catalog)
  }

  /** The durability probe: durable already, or confirmed by a checkpoint now. */
  predicate ProbeAnswer(st: Stored, probe: Storage) {
    Durable(st) || probe.Confirmed?
  }

  /** The step with its durability answer taken from the store. */
  function Tied(st: Stored, v: Visit): Step {
    v.step.(env := v.step.env.(durable := ProbeAnswer(st, v.probe)))
  }

  /** The call gets as far as asking whether the catalog is durable. */
  predicate Probes(c: Catalog, s: Step) {
    if s.StepStart? || s.StepMessage? || s.StepStop? then
      var found := Claimants(c.agents, s.i.operationId);
      && |found| == 1 && found[0].fingerprint == s.i.fingerprint
      && found[0].state.Accepted? && !found[0].acceptanceUnverified
    else if s.StepAccept? then
      var at := Locate(c.agents, s.agentId);
      at.Some? &&
      var a := c.agents[at.value];
      var o, e := OperationIndex(a.operations, s.operationId), ExchangeIndex(a.exchanges, s.operationId);
      o < |a.operations| && e < |a.exchanges| && DecideAcceptance(a, a.operations[o], a.exchanges[e], s.r).Replayed?
    else false
  }

  predicate Writes(st: Stored, v: Visit) {
    Next(st.catalog, Tied(st, v)).revision != st.catalog.revision
  }

  /** After this call the whole catalog is known to be on disk: its write was confirmed, or its probe found or made it so. */
  predicate Confirms(st: Stored, v: Visit) {
    if Writes(st, v) then v.step.env.storage.Confirmed?
    else Probes(st.catalog, v.step) && ProbeAnswer(st, v.probe)
  }

  function After(st: Stored, v: Visit): Stored {
    var c' := Next(st.catalog, Tied(st, v));
    Stored(c', if Confirms(st, v) then c' else st.confirmed)
  }

  function StoredRun(st: Stored, visits: seq<Visit>): Stored {
    if visits == [] then st else After(StoredRun(st, visits[..|visits| - 1]), visits[|visits| - 1])
  }

  // ----- One call -----

  lemma BeginWritesOrNot(c: Catalog, s: Step)
    requires s.StepStart? || s.StepMessage? || s.StepStop?
    ensures Next(c, s) == c || Next(c, s).revision == c.revision + 1
  {
    hide HistoryOk, SchemaOk, Replay, CanBegin, Locate, FirstAgent, NewAgent, WithMessage, WithStop;
  }

  lemma DeliveryWritesOrNot(c: Catalog, s: Step)
    requires s.StepAccept? || s.StepAbandon?
    ensures Next(c, s) == c || Next(c, s).revision == c.revision + 1
  {
    hide HistoryOk, SchemaOk, DecideAcceptance, Locate, FirstAgent, OperationIndex, ExchangeIndex, WithRefusal, WithAcceptance;
  }

  lemma TrafficWritesOrNot(c: Catalog, s: Step)
    requires s.StepReject? || s.StepInterrupt? || s.StepEvent? || s.StepReconcile?
    ensures Next(c, s) == c || Next(c, s).revision == c.revision + 1
  {
    hide HistoryOk, SchemaOk, Locate, OperationIndex, ExchangeIndex, TurnIndex, AppendActivity, ClassifyEventFence;
    hide WithActivity, WithTerminal, WithReconciliation, WithRejection, WithInterruptOutcome;
  }

  lemma WritesOrNot(c: Catalog, s: Step)
    ensures Next(c, s) == c || Next(c, s).revision == c.revision + 1
  {
    hide Next;
    if s.StepStart? || s.StepMessage? || s.StepStop? {
      BeginWritesOrNot(c, s);
    } else if s.StepAccept? || s.StepAbandon? {
      DeliveryWritesOrNot(c, s);
    } else {
      TrafficWritesOrNot(c, s);
    }
  }

  lemma AfterOk(st: Stored, v: Visit)
    requires StoredOk(st)
    ensures StoredOk(After(st, v)) && st.catalog.revision <= After(st, v).catalog.revision
    ensures Durable(After(st, v)) <==> Confirms(st, v) || (Durable(st) && !Writes(st, v))
  {
    hide Next, Probes;
    WritesOrNot(st.catalog, Tied(st, v));
  }

  /** A call that asks whether the catalog is durable leaves it so, and is answered as a replay, iff it was or the checkpoint confirms it. */
  lemma ProbeSettles(st: Stored, v: Visit)
    requires StoredOk(st) && Probes(st.catalog, v.step)
    ensures Next(st.catalog, Tied(st, v)) == st.catalog
    ensures Durable(After(st, v)) <==> Durable(st) || v.probe.Confirmed?
    ensures if v.step.StepAccept?
      then AcceptDelivery(st.catalog, v.step.agentId, v.step.operationId, v.step.r, v.step.now, Tied(st, v).env).1
           == if Durable(After(st, v)) then AcceptReplayed else AcceptIndeterminate(true)
      else Answer(st.catalog, Tied(st, v)) == if Durable(After(st, v)) then ReplayedOp else IndeterminateOp
  {
    hide HistoryOk, SchemaOk, DecideAcceptance, Locate, FirstAgent, OperationIndex, ExchangeIndex, Claimants;
    hide WithRefusal, WithAcceptance, NewAgent, WithMessage, WithStop, CanBegin;
  }

  // ----- Runs -----

  ghost predicate WritesAt(st: Stored, visits: seq<Visit>, k: nat)
    requires k < |visits|
  {
    Writes(StoredRun(st, visits[..k]), visits[k])
  }

  ghost predicate ConfirmsAt(st: Stored, visits: seq<Visit>, k: nat)
    requires k < |visits|
  {
    Confirms(StoredRun(st, visits[..k]), visits[k])
  }

  lemma {:induction false} RunOk(st: Stored, visits: seq<Visit>, m: nat)
    requires StoredOk(st) && m <= |visits|
    ensures StoredOk(StoredRun(st, visits))
    ensures StoredRun(st, visits[..m]).catalog.revision <= StoredRun(st, visits).catalog.revision
    decreases |visits|
  {
    hide After;
    if m == |visits| {
      assert visits[..m] == visits;
    }
    if visits != [] {
      var n := |visits| - 1;
      RunOk(st, visits[..n], if m <= n then m else n);
      AfterOk(StoredRun(st, visits[..n]), visits[n]);
      assert m <= n ==> visits[..n][..m] == visits[..m];
    }
  }

  /** A confirmation among the visits from `m` on. */
  ghost predicate ConfirmedFrom(st: Stored, visits: seq<Visit>, m: nat) {
    exists k :: m <= k < |visits| && ConfirmsAt(st, visits, k)
  }

  lemma ConfirmedFromLast(st: Stored, visits: seq<Visit>, m: nat)
    requires m < |visits|
    ensures var n := |visits| - 1;
      ConfirmedFrom(st, visits, m) <==> ConfirmedFrom(st, visits[..n], m) || ConfirmsAt(st, visits, n)
  {
    hide StoredRun, Confirms;
    var n := |visits| - 1;
    assert forall k :: 0 <= k < n ==> visits[..n][..k] == visits[..k] && visits[..n][k] == visits[k];
    if k :| m <= k < n && ConfirmsAt(st, visits, k) {
      assert ConfirmsAt(st, visits[..n], k);
    }
    if k :| m <= k < n && ConfirmsAt(st, visits[..n], k) {
      assert ConfirmsAt(st, visits, k);
    }
  }

  /**
   What visit `m` wrote is in the confirmed catalog exactly when that write or some later write or
   probe was confirmed. It then is the installed catalog of some later point; otherwise it is still
   the one from before the visit.
   */
  ghost predicate EffectDurableIff(st: Stored, visits: seq<Visit>, m: nat)
    requires m < |visits|
  {
    var end, written := StoredRun(st, visits), StoredRun(st, visits[..m + 1]).catalog;
    && (end.confirmed.revision >= written.revision <==> ConfirmedFrom(st, visits, m))
    && (if ConfirmedFrom(st, visits, m) then InstalledLater(st, visits, m, end.confirmed)
        else end.confirmed == StoredRun(st, visits[..m]).confirmed)
  }

  /** `c` was the installed catalog at some point after visit `m`. */
  ghost predicate InstalledLater(st: Stored, visits: seq<Visit>, m: nat, c: Catalog) {
    exists q :: m < q <= |visits| && c == StoredRun(st, visits[..q]).catalog
  }

  lemma RunLast(st: Stored, visits: seq<Visit>)
    requires visits != []
    ensures var n := |visits| - 1;
      StoredRun(st, visits) == After(StoredRun(st, visits[..n]), visits[n]) && visits[..n + 1] == visits
  {
    hide After;
  }

  lemma EffectAtOnce(st: Stored, visits: seq<Visit>, m: nat)
    requires StoredOk(st) && m == |visits| - 1 && WritesAt(st, visits, m)
    ensures EffectDurableIff(st, visits, m)
  {
    hide StoredRun, Writes, Confirms, Next;
    var before := StoredRun(st, visits[..m]);
    RunLast(st, visits);
    RunOk(st, visits[..m], m);
    WriteRaises(before, visits[m]);
    assert ConfirmedFrom(st, visits, m) <==> ConfirmsAt(st, visits, m);
    if ConfirmsAt(st, visits, m) {
      assert StoredRun(st, visits).confirmed == StoredRun(st, visits[..m + 1]).catalog;
      assert InstalledLater(st, visits, m, StoredRun(st, visits).confirmed);
    }
  }

  lemma EffectOneMore(st: Stored, visits: seq<Visit>, m: nat)
    requires StoredOk(st) && m < |visits| - 1 && EffectDurableIff(st, visits[..|visits| - 1], m)
    ensures EffectDurableIff(st, visits, m)
  {
    hide StoredRun, Writes, Confirms, Next, ConfirmedFrom;
    var n := |visits| - 1;
    var front, before, end := visits[..n], StoredRun(st, visits[..n]), StoredRun(st, visits);
    RunLast(st, visits);
    ConfirmedFromLast(st, visits, m);
    RunOk(st, visits, m + 1);
    assert front[..m] == visits[..m] && front[..m + 1] == visits[..m + 1];
    if ConfirmsAt(st, visits, n) {
      assert end.confirmed == StoredRun(st, visits[..n + 1]).catalog;
      assert InstalledLater(st, visits, m, end.confirmed);
    } else if ConfirmedFrom(st, front, m) {
      var q :| m < q <= n && before.confirmed == StoredRun(st, front[..q]).catalog;
      assert front[..q] == visits[..q];
      assert InstalledLater(st, visits, m, end.confirmed);
    }
  }

  /** In every run, from any store. */
  lemma {:induction false} EffectIsDurableIff(st: Stored, visits: seq<Visit>, m: nat)
    requires StoredOk(st) && m < |visits| && WritesAt(st, visits, m)
    ensures EffectDurableIff(st, visits, m)
    decreases |visits|
  {
    hide StoredRun, Writes, EffectDurableIff;
    var n := |visits| - 1;
    if m == n {
      EffectAtOnce(st, visits, m);
    } else {
      assert visits[..n][..m] == visits[..m] && visits[..n][m] == visits[m];
      EffectIsDurableIff(st, visits[..n], m);
      EffectOneMore(st, visits, m);
    }
  }

  lemma WriteRaises(st: Stored, v: Visit)
    requires Writes(st, v)
    ensures After(st, v).catalog.revision > st.catalog.revision
  {
    hide Next;
    WritesOrNot(st.catalog, Tied(st, v));
  }

  // ----- What may be retired -----

  predicate IsMessage(s: Step) {
    s.StepAccept? || s.StepReject? || s.StepInterrupt? || s.StepEvent? || s.StepReconcile?
  }

  /** What the daemon is told. */
  function Told(st: Stored, v: Visit): Disposition
    requires IsMessage(v.step)
  {
    Reaction(st.catalog, Tied(st, v))
  }

  /** The daemon may drop its copy after this answer. */
  predicate Retires(st: Stored, v: Visit)
    requires IsMessage(v.step)
  {
    Told(st, v).Applied? || Told(st, v).Ignored?
  }

  /** The call answered from the record alone: the message was ignored, or its delivery was on record as settled. */
  ghost predicate AnsweredFromRecord(st: Stored, v: Visit)
    requires IsMessage(v.step)
  {
    Told(st, v).Ignored? || (v.step.StepAccept? && AlreadySettled(st.catalog, v.step))
  }

  /**
   After an answer that retires a message the store is durable exactly when it was before or this
   call confirmed it. Otherwise the call wrote nothing and answered from an unconfirmed record.
   */
  lemma RetiredIsDurableIff(st: Stored, v: Visit)
    requires StoredOk(st) && IsMessage(v.step) && Retires(st, v)
    ensures Durable(After(st, v)) <==> Durable(st) || Confirms(st, v)
    ensures !Durable(After(st, v)) ==> After(st, v) == st && AnsweredFromRecord(st, v)
  {
    hide Next, Reaction, Probes, AlreadySettled;
    AfterOk(st, v);
    AnswersFollowTheWrite(st.catalog, Tied(st, v));
    WritesOrNot(st.catalog, Tied(st, v));
    SameDelivery(st, v);
  }

  lemma SameDelivery(st: Stored, v: Visit)
    ensures v.step.StepAccept? ==> (AlreadySettled(st.catalog, Tied(st, v)) <==> AlreadySettled(st.catalog, v.step))
  {
  }

  /** Every write of the run was confirmed, by itself or by a later one. */
  ghost predicate EveryWriteConfirmed(st: Stored, visits: seq<Visit>) {
    && (Durable(st) || ConfirmedFrom(st, visits, 0))
    && forall m :: 0 <= m < |visits| && WritesAt(st, visits, m) ==> ConfirmedFrom(st, visits, m)
  }

  lemma FrontWrites(st: Stored, visits: seq<Visit>, m: nat)
    requires m < |visits| - 1
    ensures WritesAt(st, visits[..|visits| - 1], m) <==> WritesAt(st, visits, m)
  {
    hide StoredRun, Writes;
    var n := |visits| - 1;
    assert visits[..n][..m] == visits[..m] && visits[..n][m] == visits[m];
  }

  /** At the end of a run the whole installed catalog is on disk exactly when every write was confirmed, by itself or later. */
  lemma {:induction false} RunIsDurableIff(st: Stored, visits: seq<Visit>)
    requires StoredOk(st)
    ensures Durable(StoredRun(st, visits)) <==> EveryWriteConfirmed(st, visits)
    decreases |visits|
  {
    hide StoredRun, Writes, Confirms, After, ConfirmedFrom;
    if visits == [] {
      NothingYet(st);
    } else {
      var n := |visits| - 1;
      var front := visits[..n];
      RunLast(st, visits);
      RunIsDurableIff(st, front);
      RunOk(st, front, n);
      AfterOk(StoredRun(st, front), visits[n]);
      forall m | 0 <= m < |visits|
        ensures ConfirmedFrom(st, visits, m) <==> ConfirmedFrom(st, front, m) || ConfirmsAt(st, visits, n)
        ensures m < n ==> (WritesAt(st, front, m) <==> WritesAt(st, visits, m))
      {
        ConfirmedFromLast(st, visits, m);
        if m < n {
          FrontWrites(st, visits, m);
        }
      }
      assert !ConfirmedFrom(st, front, n) by { NoneLeft(st, front); }
    }
  }

  lemma NothingYet(st: Stored)
    ensures StoredRun(st, []) == st && !ConfirmedFrom(st, [], 0)
  {
    hide After;
  }

  lemma NoneLeft(st: Stored, visits: seq<Visit>)
    ensures !ConfirmedFrom(st, visits, |visits|)
  {
    hide ConfirmsAt;
  }

  // ----- Events across a restart -----

  /** The steps the catalog goes through, with their durability answers. */
  function TiedSteps(st: Stored, visits: seq<Visit>): (steps: seq<Step>)
    ensures |steps| == |visits|
  {
    if visits == [] then []
    else var n := |visits| - 1; TiedSteps(st, visits[..n]) + [Tied(StoredRun(st, visits[..n]), visits[n])]
  }

  lemma {:induction false} CatalogOfRun(st: Stored, visits: seq<Visit>)
    ensures StoredRun(st, visits).catalog == Run(st.catalog, TiedSteps(st, visits))
    decreases |visits|
  {
    hide Next, Confirms;
    if visits != [] {
      var n := |visits| - 1;
      CatalogOfRun(st, visits[..n]);
      var steps := TiedSteps(st, visits);
      assert steps[..n] == TiedSteps(st, visits[..n]) && steps[n] == Tied(StoredRun(st, visits[..n]), visits[n]);
    }
  }

  lemma {:induction false} TiedPrefix(st: Stored, visits: seq<Visit>, q: nat)
    requires q <= |visits|
    ensures TiedSteps(st, visits[..q]) == TiedSteps(st, visits)[..q]
    ensures q < |visits| ==> TiedSteps(st, visits)[q] == Tied(StoredRun(st, visits[..q]), visits[q])
    decreases |visits|
  {
    hide StoredRun, Tied;
    if q == |visits| {
      assert visits[..q] == visits;
    } else {
      var n := |visits| - 1;
      var front := visits[..n];
      TiedPrefix(st, front, q);
      assert front[..q] == visits[..q];
      assert TiedSteps(st, visits)[..n] == TiedSteps(st, front);
      assert TiedSteps(st, visits)[..q] == TiedSteps(st, front)[..q];
      if q < n {
        assert front[q] == visits[q];
      }
    }
  }

  lemma EventIsPastAtTheEnd(st: Stored, visits: seq<Visit>, m: nat, ev: Event, now: nat, env: Env)
    requires CatalogOk(st.catalog) && m < |visits| && WritesAt(st, visits, m)
    requires visits[m].step.StepEvent? && visits[m].step.ev == ev
    requires forall k :: m < k < |visits| ==> NotRewound(visits[k].step, ev.agentId, ev.fence)
    ensures Inert(StoredRun(st, visits).catalog, ev, now, env)
  {
    hide StoredRun, CatalogOk, ApplyEvent, Writes, NotRewound, Run, TiedSteps;
    var steps := TiedSteps(st, visits);
    forall k | m <= k < |visits|
      ensures steps[k] == Tied(StoredRun(st, visits[..k]), visits[k])
      ensures m < k ==> NotRewound(steps[k], ev.agentId, ev.fence)
    {
      TiedPrefix(st, visits, k);
      TiedRewinds(StoredRun(st, visits[..k]), visits[k], ev);
    }
    TiedPrefix(st, visits, m);
    TiedPrefix(st, visits, m + 1);
    CatalogOfRun(st, visits);
    CatalogOfRun(st, visits[..m]);
    CatalogOfRun(st, visits[..m + 1]);
    WriteChanges(st, visits, m);
    EventTakesEffectOnce(st.catalog, steps, m, ev, ev, now, env);
  }

  /** Delivered to this catalog the event changes nothing. */
  ghost predicate Inert(c: Catalog, ev: Event, now: nat, env: Env) {
    var (c', d) := ApplyEvent(c, ev, now, env);
    c' == c && (d.Ignored? || d.Reconcile?)
  }

  /**
   Once an event's write, or any later write or probe, was confirmed, a restart from the confirmed
   catalog is past the event: delivered again it changes nothing.
   */
  lemma ConfirmedEventSurvivesRestart(st: Stored, visits: seq<Visit>, m: nat, ev: Event, now: nat, env: Env)
    requires StoredOk(st) && CatalogOk(st.catalog) && m < |visits| && WritesAt(st, visits, m)
    requires visits[m].step.StepEvent? && visits[m].step.ev == ev && ConfirmedFrom(st, visits, m)
    requires forall k :: m < k < |visits| ==> NotRewound(visits[k].step, ev.agentId, ev.fence)
    ensures Inert(StoredRun(st, visits).confirmed, ev, now, env)
  {
    hide StoredRun, CatalogOk, Inert, Writes, NotRewound, ConfirmedFrom;
    EffectIsDurableIff(st, visits, m);
    var confirmed := StoredRun(st, visits).confirmed;
    assert InstalledLater(st, visits, m, confirmed);
    var q :| m < q <= |visits| && confirmed == StoredRun(st, visits[..q]).catalog;
    assert visits[..q][..m] == visits[..m];
    EventIsPastAtTheEnd(st, visits[..q], m, ev, now, env);
  }

  lemma TiedRewinds(st: Stored, v: Visit, ev: Event)
    ensures NotRewound(Tied(st, v), ev.agentId, ev.fence) <==> NotRewound(v.step, ev.agentId, ev.fence)
  {
  }

  lemma WriteChanges(st: Stored, visits: seq<Visit>, m: nat)
    requires m < |visits| && WritesAt(st, visits, m)
    ensures StoredRun(st, visits[..m + 1]).catalog != StoredRun(st, visits[..m]).catalog
  {
    hide Next;
    RunLast(st, visits[..m + 1]);
    assert visits[..m + 1][..m] == visits[..m];
    WriteRaises(StoredRun(st, visits[..m]), visits[m]);
  }

  // ----- The gap -----

  /** An event that lands and that the schema does not turn down. */
  ghost predicate Recordable(c: Catalog, ev: Event) {
    Lands(c, ev) && (ev.body.TerminalEvent? ==> !Unverified(c.agents[Locate(c.agents, ev.agentId).value].operations))
  }

  lemma RecordableIsStored(c: Catalog, ev: Event, now: nat, env: Env)
    requires Good(c) && Recordable(c, ev) && env.formatsOk
    ensures var (c', d) := ApplyEvent(c, ev, now, env);
      if env.storage.Confirmed? then d.Applied? && c' != c
      else d.Reconcile? && (env.storage.InstalledUnconfirmed? <==> c' != c)
  {
    hide Good, Parses, Unverified, AppendActivity;
    EventFailsIffUnverified(c, ev, now, env);
  }

  lemma RepeatIsIgnored(c: Catalog, ev: Event, now: nat, env: Env, now': nat, env': Env)
    requires Good(c) && ApplyEvent(c, ev, now, env).0 != c
    ensures var c' := ApplyEvent(c, ev, now, env).0; ApplyEvent(c', ev, now', env') == (c', Ignored)
  {
    hide RecordOk, SchemaOk, HistoryOk, AppendActivity;
    GoodStep(c, StepEvent(ev, now, env));
    var c', at := ApplyEvent(c, ev, now, env).0, Locate(c.agents, ev.agentId).value;
    var at' := Locate(c'.agents, ev.agentId);
    assert at'.Some? ==> at'.value == at;
  }

  /** One delivery of an event, with what its write meets. */
  function Delivers(ev: Event, now: nat, storage: Storage, probe: Storage): Visit {
    Visit(StepEvent(ev, now, Env(storage, true, true)), probe)
  }

  /**
   An answer can outrun the disk. From any durable store, an event whose write is installed but not
   confirmed is left with the daemon; delivered again it is ignored, which retires it, while the
   confirmed catalog would still apply it.
   */
  lemma UnconfirmedEventIsRetired(c: Catalog, ev: Event, now: nat, again: nat, probe: Storage)
    requires Good(c) && Recordable(c, ev)
    ensures
      var st := Stored(c, c);
      var first, second := Delivers(ev, now, InstalledUnconfirmed, probe), Delivers(ev, again, Storage.Confirmed, probe);
      var middle, end := After(st, first), After(After(st, first), second);
      && Told(st, first).Reconcile? && Told(middle, second).Ignored?
      && end.confirmed == c && !Durable(end) && Told(Stored(c, c), second).Applied?
  {
    hide Good, Recordable, ApplyEvent;
    var st := Stored(c, c);
    var first, second := Delivers(ev, now, InstalledUnconfirmed, probe), Delivers(ev, again, Storage.Confirmed, probe);
    RecordableIsStored(c, ev, now, Tied(st, first).env);
    RecordableIsStored(c, ev, again, Tied(st, second).env);
    RepeatIsIgnored(c, ev, now, Tied(st, first).env, again, Tied(After(st, first), second).env);
    WritesOrNot(c, Tied(st, first));
  }

  /** One delivery of a receipt, with what its write meets. */
  function Acknowledges(agentId: string, operationId: string, r: Receipt, now: nat, storage: Storage, probe: Storage): Visit {
    Visit(StepAccept(agentId, operationId, r, now, Env(storage, true, true)), probe)
  }

  /** The receipt finds a requested prompt and is to be refused. */
  predicate ToBeRefused(c: Catalog, agentId: string, operationId: string, r: Receipt) {
    var at := Locate(c.agents, agentId);
    at.Some? &&
    var a := c.agents[at.value];
    var o, e := OperationIndex(a.operations, operationId), ExchangeIndex(a.exchanges, operationId);
    && o < |a.operations| && e < |a.exchanges| && a.operations[o].state.Requested?
    && DecideAcceptance(a, a.operations[o], a.exchanges[e], r).Refuse?
  }

  lemma RefusalIsStored(c: Catalog, agentId: string, operationId: string, r: Receipt, now: nat, env: Env)
    requires Good(c) && ToBeRefused(c, agentId, operationId, r) && env.formatsOk
    ensures
      var at := Locate(c.agents, agentId).value;
      var o, e := OperationIndex(c.agents[at].operations, operationId), ExchangeIndex(c.agents[at].exchanges, operationId);
      var a' := WithRefusal(c.agents[at], o, e, now);
      AcceptDelivery(c, agentId, operationId, r, now, env)
      == (Store(c, c.agents[at := a'], env.storage), AcceptIndeterminate(!env.storage.Confirmed?))
  {
    hide RecordOk, HistoryOk, SchemaOk, DecideAcceptance, Evolves, WithRefusal;
    var at := Locate(c.agents, agentId).value;
    var a := c.agents[at];
    var o, e := OperationIndex(a.operations, operationId), ExchangeIndex(a.exchanges, operationId);
    WithRefusalOk(a, o, e, now);
    WithRefusalMeetsSchema(a, o, e, now);
    assert HistoryOk(WithRefusal(a, o, e, now)) by { HistoryOfRecord(WithRefusal(a, o, e, now)); }
  }

  lemma GivenUpIsRefused(a: Agent, op: Operation, ex: Exchange, r: Receipt)
    requires op.state.Indeterminate?
    ensures DecideAcceptance(a, op, ex, r).Refuse?
  {
    hide PlaceTurn, TurnIndex;
  }

  lemma RefusedAgainIsSettled(c: Catalog, agentId: string, operationId: string, r: Receipt, now: nat, env: Env, at: nat, o: nat, e: nat)
    requires CatalogOk(c) && at < |c.agents| && c.agents[at].agentId == agentId
    requires o < |c.agents[at].operations| && c.agents[at].operations[o].operationId == operationId
    requires e < |c.agents[at].exchanges| && c.agents[at].exchanges[e].operationId == operationId
    requires c.agents[at].operations[o].state.Indeterminate?
    ensures AcceptDelivery(c, agentId, operationId, r, now, env) == (c, AcceptIndeterminate(false))
  {
    hide HistoryOk, PendingOk, WindowsOk, SchemaOk, DecideAcceptance;
    assert Locate(c.agents, agentId) == Some(at);
    assert OperationIndex(c.agents[at].operations, operationId) == o;
    assert ExchangeIndex(c.agents[at].exchanges, operationId) == e;
    GivenUpIsRefused(c.agents[at], c.agents[at].operations[o], c.agents[at].exchanges[e], r);
  }

  /** A refusal has the same gap: installed unconfirmed it stays with the daemon, delivered again it is answered as applied. */
  lemma UnconfirmedRefusalIsRetired(c: Catalog, agentId: string, operationId: string, r: Receipt, now: nat, again: nat, probe: Storage)
    requires Good(c) && ToBeRefused(c, agentId, operationId, r)
    ensures
      var st := Stored(c, c);
      var first := Acknowledges(agentId, operationId, r, now, InstalledUnconfirmed, probe);
      var second := Acknowledges(agentId, operationId, r, again, Storage.Confirmed, probe);
      var middle, end := After(st, first), After(After(st, first), second);
      Told(st, first).Reconcile? && Told(middle, second).Applied? && end.confirmed == c && !Durable(end)
  {
    hide Good, CatalogOk, AcceptDelivery, After, Told;
    var st := Stored(c, c);
    var first := Acknowledges(agentId, operationId, r, now, InstalledUnconfirmed, probe);
    var second := Acknowledges(agentId, operationId, r, again, Storage.Confirmed, probe);
    var at, o, e := RefusalIsInstalled(c, agentId, operationId, r, now, probe);
    var c' := After(st, first).catalog;
    RefusedAgainIsSettled(c', agentId, operationId, r, again, Tied(After(st, first), second).env, at, o, e);
    NotReplayed(c', agentId, operationId, r, again, second.step.env, at, o, e);
    AnsweredAsApplied(After(st, first), second);
  }

  lemma RefusalIsInstalled(c: Catalog, agentId: string, operationId: string, r: Receipt, now: nat, probe: Storage)
    returns (at: nat, o: nat, e: nat)
    requires Good(c) && ToBeRefused(c, agentId, operationId, r)
    ensures
      var st, first := Stored(c, c), Acknowledges(agentId, operationId, r, now, InstalledUnconfirmed, probe);
      var c' := After(st, first).catalog;
      && Told(st, first).Reconcile? && CatalogOk(c') && After(st, first).confirmed == c && c'.revision == c.revision + 1
      && at < |c'.agents| && c'.agents[at].agentId == agentId
      && o < |c'.agents[at].operations| && c'.agents[at].operations[o].operationId == operationId
      && e < |c'.agents[at].exchanges| && c'.agents[at].exchanges[e].operationId == operationId
      && c'.agents[at].operations[o].state.Indeterminate?
  {
    hide Good, CatalogOk, AcceptDelivery, WithRefusal, DecideAcceptance, Probes;
    var st := Stored(c, c);
    var first := Acknowledges(agentId, operationId, r, now, InstalledUnconfirmed, probe);
    RefusalIsStored(c, agentId, operationId, r, now, Tied(st, first).env);
    at := Locate(c.agents, agentId).value;
    o, e := OperationIndex(c.agents[at].operations, operationId), ExchangeIndex(c.agents[at].exchanges, operationId);
    RefusedRecord(c.agents[at], o, e, now);
    GoodStep(c, Tied(st, first));
    GoodIsSound(Next(c, Tied(st, first)));
  }

  lemma AnsweredAsApplied(st: Stored, v: Visit)
    requires v.step.StepAccept? && !Probes(st.catalog, v.step)
    requires AcceptDelivery(st.catalog, v.step.agentId, v.step.operationId, v.step.r, v.step.now, Tied(st, v).env)
          == (st.catalog, AcceptIndeterminate(false))
    ensures Told(st, v).Applied? && After(st, v) == st
  {
    hide AcceptDelivery, Probes, BeginStart, BeginMessage, BeginStop, AbandonDelivery;
    hide ApplyRejection, ApplyInterruptOutcome, ApplyEvent, ApplyReconciliation;
  }

  lemma GoodIsSound(c: Catalog)
    requires Good(c)
    ensures CatalogOk(c)
  {
  }

  lemma RefusedRecord(a: Agent, o: nat, e: nat, now: nat)
    requires o < |a.operations| && e < |a.exchanges|
    ensures var a' := WithRefusal(a, o, e, now);
      && a'.agentId == a.agentId && |a'.operations| == |a.operations| && |a'.exchanges| == |a.exchanges|
      && a'.operations[o].operationId == a.operations[o].operationId && a'.operations[o].state.Indeterminate?
      && a'.exchanges[e].operationId == a.exchanges[e].operationId
  {
  }

  /** A refused delivery is not probed again. */
  lemma NotReplayed(c: Catalog, agentId: string, operationId: string, r: Receipt, now: nat, env: Env, at: nat, o: nat, e: nat)
    requires CatalogOk(c) && at < |c.agents| && c.agents[at].agentId == agentId
    requires o < |c.agents[at].operations| && c.agents[at].operations[o].operationId == operationId
    requires e < |c.agents[at].exchanges| && c.agents[at].exchanges[e].operationId == operationId
    requires c.agents[at].operations[o].state.Indeterminate?
    ensures !Probes(c, StepAccept(agentId, operationId, r, now, env))
  {
    hide HistoryOk, PendingOk, WindowsOk, SchemaOk, DecideAcceptance;
    assert OperationIndex(c.agents[at].operations, operationId) == o;
    var found := Locate(c.agents, agentId);
    if found.Some? {
      assert found.value == at;
      var ex := ExchangeIndex(c.agents[at].exchanges, operationId);
      if ex < |c.agents[at].exchanges| {
        ReplayedIsSettled(c.agents[at], c.agents[at].operations[o], c.agents[at].exchanges[ex], r);
      }
    }
  }
}
