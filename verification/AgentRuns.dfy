/** What holds of every catalog that any sequence of operations can reach. */
module AgentRuns {
  import opened Common
  import opened AgentRecord
  import opened AgentSchema
  import opened AgentReducers
  import opened AgentInvariant
  import opened AgentTransitions
  import opened AgentAcceptance
  import opened AgentService

  datatype Step =
    | StepStart(i: Intent, target: TargetKind, env: Env)
    | StepMessage(i: Intent, env: Env)
    | StepStop(i: Intent, env: Env)
    | StepAccept(agentId: string, operationId: string, r: Receipt, now: nat, env: Env)
    | StepAbandon(agentId: string, operationId: string, now: nat, env: Env)
    | StepReject(agentId: string, rejected: Option<string>, now: nat, env: Env)
    | StepInterrupt(agentId: string, operationId: string, threadId: string, turnId: string, delivered: bool,
                    fence: Fence, now: nat, env: Env)
    | StepEvent(ev: Event, now: nat, env: Env)
    | StepReconcile(agentId: string, threadId: string, target': Target, turn: Option<string>, turnRuns: bool,
                    fence: Fence, now: nat, env: Env)

  function Next(c: Catalog, s: Step): Catalog {
    match s
    case StepStart(i, target, env) => BeginStart(c, i, target, env).0
    case StepMessage(i, env) => BeginMessage(c, i, env).0
    case StepStop(i, env) => BeginStop(c, i, env).0
    case StepAccept(agentId, operationId, r, now, env) => AcceptDelivery(c, agentId, operationId, r, now, env).0
    case StepAbandon(agentId, operationId, now, env) => AbandonDelivery(c, agentId, operationId, now, env)
    case StepReject(agentId, rejected, now, env) => ApplyRejection(c, agentId, rejected, now, env).0
    case StepInterrupt(agentId, operationId, threadId, turnId, delivered, fence, now, env) =>
      ApplyInterruptOutcome(c, agentId, operationId, threadId, turnId, delivered, fence, now, env).0
    case StepEvent(ev, now, env) => ApplyEvent(c, ev, now, env).0
    case StepReconcile(agentId, threadId, target, turn, turnRuns, fence, now, env) =>
      ApplyReconciliation(c, agentId, threadId, target, turn, turnRuns, fence, now, env).0
  }

  function Run(c: Catalog, steps: seq<Step>): Catalog {
    if steps == [] then c else Next(Run(c, steps[..|steps| - 1]), steps[|steps| - 1])
  }

  // ----- The catalog invariant -----

  ghost predicate Disjoint(x: Agent, y: Agent) {
    && x.agentId != y.agentId
    && forall k, l :: 0 <= k < |x.operations| && 0 <= l < |y.operations| ==>
         x.operations[k].operationId != y.operations[l].operationId
  }

  /** Every record is sound; agent ids and operation ids are unique across the catalog. */
  ghost predicate CatalogOk(c: Catalog) {
    && (forall i :: 0 <= i < |c.agents| ==> RecordOk(c.agents[i]))
    && (forall i, j :: 0 <= i < j < |c.agents| ==> Disjoint(c.agents[i], c.agents[j]))
  }

  ghost predicate CatalogEvolves(c: Catalog, c': Catalog) {
    && c.revision <= c'.revision && |c.agents| <= |c'.agents|
    && forall i :: 0 <= i < |c.agents| ==> Evolves(c.agents[i], c'.agents[i])
  }

  ghost predicate Unclaimed(c: Catalog, id: string) {
    forall i, k :: 0 <= i < |c.agents| && 0 <= k < |c.agents[i].operations| ==>
      c.agents[i].operations[k].operationId != id
  }

  /** `a'` has the operations of `a`, and perhaps one more under an id nobody claims. */
  ghost predicate SameOrOneMore(c: Catalog, a: Agent, a': Agent) {
    || |a'.operations| == |a.operations|
    || (|a'.operations| == |a.operations| + 1 && Unclaimed(c, a'.operations[|a.operations|].operationId))
  }

  lemma CatalogEvolvesReflexive(c: Catalog)
    ensures CatalogEvolves(c, c)
  {
    forall i | 0 <= i < |c.agents| ensures Evolves(c.agents[i], c.agents[i]) {
      EvolvesReflexive(c.agents[i]);
    }
  }

  lemma StillDisjoint(c: Catalog, a: Agent, a': Agent, b: Agent)
    requires Evolves(a, a') && SameOrOneMore(c, a, a') && b in c.agents && (Disjoint(a, b) || Disjoint(b, a))
    ensures Disjoint(a', b) && Disjoint(b, a')
  {
    assert forall k :: 0 <= k < |a.operations| ==> OperationEvolves(a.operations[k], a'.operations[k]);
  }

  lemma ReplaceOk(c: Catalog, at: nat, a': Agent, s: Storage)
    requires CatalogOk(c) && at < |c.agents| && Keeps(c.agents[at], a') && SameOrOneMore(c, c.agents[at], a')
    ensures var c' := Store(c, c.agents[at := a'], s); CatalogOk(c') && CatalogEvolves(c, c')
  {
    hide RecordOk, Evolves, Disjoint, SameOrOneMore;
    CatalogEvolvesReflexive(c);
    var agents := c.agents[at := a'];
    forall i, j | 0 <= i < j < |agents| ensures Disjoint(agents[i], agents[j]) {
      if i == at {
        StillDisjoint(c, c.agents[at], a', c.agents[j]);
      } else if j == at {
        StillDisjoint(c, c.agents[at], a', c.agents[i]);
      }
    }
  }

  lemma AppendOk(c: Catalog, a: Agent, s: Storage)
    requires CatalogOk(c) && RecordOk(a) && |a.operations| == 1 && Unclaimed(c, a.operations[0].operationId)
    requires forall i :: 0 <= i < |c.agents| ==> c.agents[i].agentId != a.agentId
    ensures var c' := Store(c, c.agents + [a], s); CatalogOk(c') && CatalogEvolves(c, c')
  {
    hide RecordOk, Evolves;
    CatalogEvolvesReflexive(c);
  }

  // ----- Each operation -----

  ghost predicate Sound(c: Catalog, c': Catalog) {
    CatalogOk(c') && CatalogEvolves(c, c')
  }

  lemma StartSound(c: Catalog, i: Intent, target: TargetKind, env: Env)
    requires CatalogOk(c)
    ensures Sound(c, BeginStart(c, i, target, env).0)
  {
    hide RecordOk, Evolves, HistoryOk, SchemaOk;
    CatalogEvolvesReflexive(c);
    NewAgentOk(i, target);
    if Replay(c, i, env).None? && FirstAgent(c.agents, i.agentId) == |c.agents| {
      AppendOk(c, NewAgent(i, target), env.storage);
    }
  }

  lemma MessageSound(c: Catalog, i: Intent, env: Env)
    requires CatalogOk(c)
    ensures Sound(c, BeginMessage(c, i, env).0)
  {
    hide RecordOk, Evolves, HistoryOk, SchemaOk;
    CatalogEvolvesReflexive(c);
    var at := Locate(c.agents, i.agentId);
    if Replay(c, i, env).None? && at.Some? && CanBegin(c.agents[at.value]) {
      WithMessageOk(c.agents[at.value], i);
      ReplaceOk(c, at.value, WithMessage(c.agents[at.value], i), env.storage);
    }
  }

  lemma StopSound(c: Catalog, i: Intent, env: Env)
    requires CatalogOk(c)
    ensures Sound(c, BeginStop(c, i, env).0)
  {
    hide RecordOk, Evolves, HistoryOk, SchemaOk;
    CatalogEvolvesReflexive(c);
    var at := Locate(c.agents, i.agentId);
    if Replay(c, i, env).None? && at.Some? && CanBegin(c.agents[at.value])
       && (c.agents[at.value].agentState.Idle? || c.agents[at.value].activeTurnId.Some?) {
      WithStopOk(c.agents[at.value], i);
      ReplaceOk(c, at.value, WithStop(c.agents[at.value], i), env.storage);
    }
  }

  lemma RefuseSound(c: Catalog, at: nat, o: nat, e: nat, now: nat, env: Env)
    requires CatalogOk(c) && at < |c.agents| && Paired(c.agents[at], o, e)
    ensures Sound(c, RefuseDelivery(c, at, o, e, now, env).0)
  {
    hide RecordOk, Evolves, HistoryOk, SchemaOk;
    CatalogEvolvesReflexive(c);
    if c.agents[at].operations[o].state.Requested? {
      WithRefusalOk(c.agents[at], o, e, now);
      ReplaceOk(c, at, WithRefusal(c.agents[at], o, e, now), env.storage);
    }
  }

  lemma AcceptSound(c: Catalog, agentId: string, operationId: string, r: Receipt, now: nat, env: Env)
    requires CatalogOk(c)
    ensures Sound(c, AcceptDelivery(c, agentId, operationId, r, now, env).0)
  {
    hide RecordOk, Evolves, HistoryOk, SchemaOk, DecideAcceptance, RefuseDelivery, CatalogEvolves;
    CatalogEvolvesReflexive(c);
    var at := Locate(c.agents, agentId);
    if at.Some? {
      var a := c.agents[at.value];
      var o, e := OperationIndex(a.operations, operationId), ExchangeIndex(a.exchanges, operationId);
      if o < |a.operations| && e < |a.exchanges| {
        RefuseSound(c, at.value, o, e, now, env);
        var verdict := Decision(a, o, e, r);
        if verdict.Accept? {
          AcceptanceOk(a, o, e, r, now);
          var a' := WithAcceptance(a, o, e, r, verdict.steeredIntoSettledTurn, now);
          if HistoryOk(a') {
            ReplaceOk(c, at.value, a', env.storage);
          }
        }
      }
    }
  }

  lemma AbandonSound(c: Catalog, agentId: string, operationId: string, now: nat, env: Env)
    requires CatalogOk(c)
    ensures Sound(c, AbandonDelivery(c, agentId, operationId, now, env))
  {
    hide RecordOk, Evolves, HistoryOk, SchemaOk, RefuseDelivery;
    CatalogEvolvesReflexive(c);
    var at := FirstAgent(c.agents, agentId);
    if at < |c.agents| {
      var a := c.agents[at];
      var o, e := OperationIndex(a.operations, operationId), ExchangeIndex(a.exchanges, operationId);
      if o < |a.operations| && e < |a.exchanges| {
        RefuseSound(c, at, o, e, now, env);
      }
    }
  }

  lemma RejectSound(c: Catalog, agentId: string, operationId: Option<string>, now: nat, env: Env)
    requires CatalogOk(c)
    ensures Sound(c, ApplyRejection(c, agentId, operationId, now, env).0)
  {
    hide RecordOk, Evolves, HistoryOk, SchemaOk;
    CatalogEvolvesReflexive(c);
    var at := Locate(c.agents, agentId);
    if at.Some? && operationId.Some? {
      var a := c.agents[at.value];
      var o := OperationIndex(a.operations, operationId.value);
      if o < |a.operations| && a.operations[o].state.Requested? {
        var e := ExchangeIndex(a.exchanges, operationId.value);
        WithRejectionOk(a, o, e, now);
        ReplaceOk(c, at.value, WithRejection(a, o, e, now), env.storage);
      }
    }
  }

  lemma InterruptSound(c: Catalog, agentId: string, operationId: string, threadId: string, turnId: string,
                       delivered: bool, fence: Fence, now: nat, env: Env)
    requires CatalogOk(c)
    ensures Sound(c, ApplyInterruptOutcome(c, agentId, operationId, threadId, turnId, delivered, fence, now, env).0)
  {
    hide RecordOk, Evolves, HistoryOk, SchemaOk;
    CatalogEvolvesReflexive(c);
    var at := Locate(c.agents, agentId);
    if at.Some? {
      var a := c.agents[at.value];
      var o := OperationIndex(a.operations, operationId);
      if a.pendingInterrupt.Some? && a.pendingInterrupt.value.operationId == operationId && o < |a.operations| {
        WithInterruptOutcomeOk(a, o, delivered, fence, now);
        ReplaceOk(c, at.value, WithInterruptOutcome(a, o, delivered, fence, now), env.storage);
      }
    }
  }

  lemma EventSound(c: Catalog, ev: Event, now: nat, env: Env)
    requires CatalogOk(c)
    ensures Sound(c, ApplyEvent(c, ev, now, env).0)
  {
    hide RecordOk, Evolves, HistoryOk, SchemaOk, AppendActivity;
    CatalogEvolvesReflexive(c);
    var at := Locate(c.agents, ev.agentId);
    if at.Some? {
      var a := c.agents[at.value];
      var t := TurnIndex(a.turns, ev.turnId);
      if t < |a.turns| && RunningAt(a, t) {
        match ev.body
        case ActivityEvent(itemId, text) =>
          var acts := AppendActivity(a.turns[t].activities, itemId, text, MAX_ACTIVITIES);
          if acts.Some? {
            WithActivityOk(a, t, itemId, text, ev.fence, now);
            ReplaceOk(c, at.value, WithActivity(a, t, acts.value, ev.fence, now), env.storage);
          }
        case TerminalEvent(outcome) =>
          WithTerminalOk(a, t, outcome, ev.fence, now);
          ReplaceOk(c, at.value, WithTerminal(a, t, outcome, ev.fence, now), env.storage);
      }
    }
  }

  lemma ReconcileSound(c: Catalog, agentId: string, threadId: string, target: Target, turn: Option<string>,
                       turnRuns: bool, fence: Fence, now: nat, env: Env)
    requires CatalogOk(c)
    ensures Sound(c, ApplyReconciliation(c, agentId, threadId, target, turn, turnRuns, fence, now, env).0)
  {
    hide RecordOk, Evolves, HistoryOk, SchemaOk;
    CatalogEvolvesReflexive(c);
    var at := Locate(c.agents, agentId);
    if at.Some? {
      WithReconciliationOk(c.agents[at.value], turn, turnRuns, fence, now);
      ReplaceOk(c, at.value, WithReconciliation(c.agents[at.value], turn, turnRuns, fence, now), env.storage);
    }
  }

  // ----- Every run -----

  lemma StepSound(c: Catalog, s: Step)
    requires CatalogOk(c)
    ensures Sound(c, Next(c, s))
  {
    hide CatalogOk, CatalogEvolves;
    match s
    case StepStart(i, target, env) => StartSound(c, i, target, env);
    case StepMessage(i, env) => MessageSound(c, i, env);
    case StepStop(i, env) => StopSound(c, i, env);
    case StepAccept(agentId, operationId, r, now, env) => AcceptSound(c, agentId, operationId, r, now, env);
    case StepAbandon(agentId, operationId, now, env) => AbandonSound(c, agentId, operationId, now, env);
    case StepReject(agentId, rejected, now, env) => RejectSound(c, agentId, rejected, now, env);
    case StepInterrupt(agentId, operationId, threadId, turnId, delivered, fence, now, env) =>
      InterruptSound(c, agentId, operationId, threadId, turnId, delivered, fence, now, env);
    case StepEvent(ev, now, env) => EventSound(c, ev, now, env);
    case StepReconcile(agentId, threadId, target, turn, turnRuns, fence, now, env) =>
      ReconcileSound(c, agentId, threadId, target, turn, turnRuns, fence, now, env);
  }

  lemma CatalogEvolvesTransitive(x: Catalog, y: Catalog, z: Catalog)
    requires CatalogEvolves(x, y) && CatalogEvolves(y, z)
    ensures CatalogEvolves(x, z)
  {
    forall i | 0 <= i < |x.agents| ensures Evolves(x.agents[i], z.agents[i]) {
      EvolvesTransitive(x.agents[i], y.agents[i], z.agents[i]);
    }
  }

  /**
   From any sound catalog, in particular the empty one, every sequence of operations, whatever the
   storage and the schema answer, reaches a sound catalog in which nothing recorded was dropped and
   no settled prompt, exchange or turn changed its outcome.
   */
  lemma {:induction false} EveryRunIsSound(c: Catalog, steps: seq<Step>)
    requires CatalogOk(c)
    ensures Sound(c, Run(c, steps))
  {
    hide CatalogOk, CatalogEvolves, Next;
    if steps == [] {
      CatalogEvolvesReflexive(c);
    } else {
      var n := |steps| - 1;
      EveryRunIsSound(c, steps[..n]);
      StepSound(Run(c, steps[..n]), steps[n]);
      CatalogEvolvesTransitive(c, Run(c, steps[..n]), Run(c, steps));
    }
  }

  lemma EmptyCatalogOk(revision: nat)
    ensures CatalogOk(Catalog(revision, []))
  {
  }

  // ----- Operation ids -----

  /** Under the invariant an operation id has at most one claimant, so replay never sees two. */
  lemma {:induction false} AtMostOneClaimant(agents: seq<Agent>, id: string)
    requires CatalogOk(Catalog(0, agents))
    ensures |Claimants(agents, id)| <= 1
  {
    hide HistoryOk, SchemaOk, PairingOk, PendingOk, WindowsOk;
    if agents != [] {
      var rest := agents[1..];
      assert CatalogOk(Catalog(0, rest));
      AtMostOneClaimant(rest, id);
      UniqueOperations(agents[0].operations, id);
      if OperationsNamed(agents[0].operations, id) != [] {
        var k :| 0 <= k < |agents[0].operations| && agents[0].operations[k].operationId == id;
        forall i, l | 0 <= i < |rest| && 0 <= l < |rest[i].operations| ensures rest[i].operations[l].operationId != id {
          assert Disjoint(agents[0], agents[i + 1]);
        }
      }
    }
  }

  lemma {:induction false} UniqueOperations(ops: seq<Operation>, id: string)
    requires forall k, l :: 0 <= k < l < |ops| ==> ops[k].operationId != ops[l].operationId
    ensures |OperationsNamed(ops, id)| <= 1
  {
    if ops != [] {
      UniqueOperations(ops[1..], id);
      assert ops[0].operationId == id ==> OperationsNamed(ops[1..], id) == [];
    }
  }

  predicate Begins(s: Step, id: string) {
    (s.StepStart? || s.StepMessage? || s.StepStop?) && s.i.operationId == id
  }

  /** The answer to a caller's own intent. */
  function Answer(c: Catalog, s: Step): BeginOutcome
    requires s.StepStart? || s.StepMessage? || s.StepStop?
  {
    match s
    case StepStart(i, target, env) => BeginStart(c, i, target, env).1
    case StepMessage(i, env) => BeginMessage(c, i, env).1
    case StepStop(i, env) => BeginStop(c, i, env).1
  }

  /** What the daemon is told about a receipt or an event. */
  function Reaction(c: Catalog, s: Step): Disposition
    requires s.StepAccept? || s.StepReject? || s.StepInterrupt? || s.StepEvent? || s.StepReconcile?
  {
    match s
    case StepAccept(agentId, operationId, r, now, env) =>
      DispositionOf(AcceptDelivery(c, agentId, operationId, r, now, env).1)
    case StepReject(agentId, rejected, now, env) => ApplyRejection(c, agentId, rejected, now, env).1
    case StepInterrupt(agentId, operationId, threadId, turnId, delivered, fence, now, env) =>
      ApplyInterruptOutcome(c, agentId, operationId, threadId, turnId, delivered, fence, now, env).1
    case StepEvent(ev, now, env) => ApplyEvent(c, ev, now, env).1
    case StepReconcile(agentId, threadId, target, turn, turnRuns, fence, now, env) =>
      ApplyReconciliation(c, agentId, threadId, target, turn, turnRuns, fence, now, env).1
  }

  /** A receipt that names a delivery already settled on record. */
  ghost predicate AlreadySettled(c: Catalog, s: Step)
    requires s.StepAccept?
  {
    exists i, k ::
      && 0 <= i < |c.agents| && 0 <= k < |c.agents[i].operations|
      && c.agents[i].agentId == s.agentId && c.agents[i].operations[k].operationId == s.operationId
      && !c.agents[i].operations[k].state.Requested?
  }

  /**
   Applied means that this call's confirmed write holds the effect, or that the delivery was
   settled before; ignored and failed leave the catalog alone.
   */
  lemma AnswersFollowTheWrite(c: Catalog, s: Step)
    requires s.StepAccept? || s.StepReject? || s.StepInterrupt? || s.StepEvent? || s.StepReconcile?
    ensures
      || Answered(c, Next(c, s), Reaction(c, s), s.env)
      || (Reaction(c, s).Applied? && Next(c, s) == c && s.StepAccept? && AlreadySettled(c, s))
  {
    if s.StepAccept? {
      hide AcceptDelivery, AlreadySettled, Answered;
      AcceptRetires(c, s);
    } else {
      hide ApplyAgent, AppendActivity, Locate, TurnIndex, OperationIndex, ExchangeIndex;
      hide WithActivity, WithTerminal, WithReconciliation, WithRejection, WithInterruptOutcome;
    }
  }

  lemma AcceptRetires(c: Catalog, s: Step)
    requires s.StepAccept?
    ensures var (next, o) := AcceptDelivery(c, s.agentId, s.operationId, s.r, s.now, s.env);
      || Answered(c, next, DispositionOf(o), s.env)
      || (DispositionOf(o).Applied? && next == c && AlreadySettled(c, s))
  {
    hide HistoryOk, SchemaOk, DecideAcceptance, WithAcceptance, WithRefusal;
    var at := Locate(c.agents, s.agentId);
    if at.Some? {
      var a := c.agents[at.value];
      var o, e := OperationIndex(a.operations, s.operationId), ExchangeIndex(a.exchanges, s.operationId);
      if o < |a.operations| && e < |a.exchanges| {
        assert !a.operations[o].state.Requested? ==> AlreadySettled(c, s);
        ReplayedIsSettled(a, a.operations[o], a.exchanges[e], s.r);
      }
    }
  }

  lemma ReplayedIsSettled(a: Agent, op: Operation, ex: Exchange, r: Receipt)
    ensures DecideAcceptance(a, op, ex, r).Replayed? ==> op.state.Accepted?
  {
    hide TurnIndex;
  }

  lemma ClaimedAnswersReplay(c: Catalog, s: Step, id: string)
    requires Begins(s, id) && !Unclaimed(c, id)
    ensures !Answer(c, s).Committed?
  {
    hide WithMessage, WithStop, NewAgent, HistoryOk, SchemaOk;
    assert Claimants(c.agents, id) != [];
  }

  lemma CommittedClaims(c: Catalog, s: Step, id: string)
    requires Begins(s, id) && Answer(c, s).Committed?
    ensures !Unclaimed(Next(c, s), id)
  {
    hide HistoryOk, SchemaOk, Claimants, Locate, FirstAgent;
    var c' := Next(c, s);
    var at := if s.StepStart? then |c.agents| else Locate(c.agents, s.i.agentId).value;
    var last := |c'.agents[at].operations| - 1;
    assert c'.agents[at].operations[last].operationId == id;
  }

  lemma ClaimSurvives(c: Catalog, c': Catalog, id: string)
    requires CatalogEvolves(c, c') && !Unclaimed(c, id)
    ensures !Unclaimed(c', id)
  {
    var i, k :| 0 <= i < |c.agents| && 0 <= k < |c.agents[i].operations| && c.agents[i].operations[k].operationId == id;
    assert OperationEvolves(c.agents[i].operations[k], c'.agents[i].operations[k]);
  }

  lemma {:induction false} RunSplits(c: Catalog, steps: seq<Step>, m: nat)
    requires m <= |steps|
    ensures Run(Run(c, steps[..m]), steps[m..]) == Run(c, steps)
    decreases |steps|
  {
    hide Next;
    if m == |steps| {
      assert steps[..m] == steps && steps[m..] == [];
    } else {
      var n := |steps| - 1;
      RunSplits(c, steps[..n], m);
      assert steps[..n][..m] == steps[..m] && steps[m..][..n - m] == steps[..n][m..];
    }
  }

  /** Whatever is on record at some point of a run has only evolved by its end. */
  lemma LaterEvolves(c: Catalog, steps: seq<Step>, m: nat)
    requires CatalogOk(c) && m <= |steps|
    ensures CatalogEvolves(Run(c, steps[..m]), Run(c, steps))
  {
    hide CatalogOk, CatalogEvolves, Next;
    EveryRunIsSound(c, steps[..m]);
    EveryRunIsSound(Run(c, steps[..m]), steps[m..]);
    RunSplits(c, steps, m);
  }

  /** In any run an operation id is committed, and so first dispatched, at most once. */
  lemma CommittedAtMostOnce(c: Catalog, steps: seq<Step>, m: nat, n: nat, id: string)
    requires CatalogOk(c) && m < n < |steps| && Begins(steps[m], id) && Begins(steps[n], id)
    requires Answer(Run(c, steps[..m]), steps[m]).Committed?
    ensures !Answer(Run(c, steps[..n]), steps[n]).Committed?
  {
    hide CatalogOk, CatalogEvolves, Next, Answer, Unclaimed;
    CommittedClaims(Run(c, steps[..m]), steps[m], id);
    assert steps[..m + 1][..m] == steps[..m] && steps[..m + 1][m] == steps[m];
    assert Run(c, steps[..m + 1]) == Next(Run(c, steps[..m]), steps[m]);
    LaterEvolves(c, steps[..n], m + 1);
    assert steps[..n][..m + 1] == steps[..m + 1];
    ClaimSurvives(Run(c, steps[..m + 1]), Run(c, steps[..n]), id);
    ClaimedAnswersReplay(Run(c, steps[..n]), steps[n], id);
  }

  ghost predicate SettledPrompt(c: Catalog, i: nat, k: nat) {
    && i < |c.agents| && k < |c.agents[i].operations|
    && IsPrompt(c.agents[i].operations[k].kind) && !c.agents[i].operations[k].state.Requested?
  }

  /** A prompt that has left the requested state keeps its state for the rest of the run, and its exchange says the same. */
  lemma PromptSettlesOnce(c: Catalog, steps: seq<Step>, m: nat, i: nat, k: nat)
    requires CatalogOk(c) && m <= |steps|
    requires SettledPrompt(Run(c, steps[..m]), i, k)
    ensures var end, state := Run(c, steps), Run(c, steps[..m]).agents[i].operations[k].state;
      && SettledPrompt(end, i, k) && end.agents[i].operations[k].state == state
      && exists e: nat :: Paired(end.agents[i], k, e) && end.agents[i].exchanges[e].status == state
  {
    hide Next, HistoryOk, SchemaOk, PendingOk, WindowsOk;
    LaterEvolves(c, steps, m);
    EveryRunIsSound(c, steps);
    var before, after := Run(c, steps[..m]).agents[i], Run(c, steps).agents[i];
    assert OperationEvolves(before.operations[k], after.operations[k]);
    var e: nat :| e < |after.exchanges| && after.exchanges[e].operationId == after.operations[k].operationId;
    assert Paired(after, k, e);
  }
}
