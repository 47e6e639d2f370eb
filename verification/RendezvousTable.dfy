/** The trust rendezvous as a table: two sides commit, then reveal. */
module RendezvousTable {
  import opened Common

  datatype Side = Initiator | Target

  datatype Slot = Slot(commitment: string, secret: Option<string>)

  datatype Rendezvous = Rendezvous(
    createdAt: int, initiatorOwner: string, targetOwner: string, attempts: nat,
    initiator: Option<Slot>, target: Option<Slot>)
  {
    function At(side: Side): Option<Slot> {
      if side.Initiator? then initiator else target
    }

    function With(side: Side, slot: Slot): Rendezvous {
      if side.Initiator? then this.(initiator := Some(slot)) else this.(target := Some(slot))
    }
  }

  function Peer(side: Side): Side {
    if side.Initiator? then Target else Initiator
  }

  datatype Op =
    | Arm(id: string, initiatorOwner: string, targetOwner: string, commitment: string)
    | Join(id: string, joiner: string, commitment: string)
    | Reveal(id: string, side: Side, secret: string)
    | Cancel(id: string)

  datatype Reply = Reply(ok: bool, peerCommitment: Option<string>, peerReveal: Option<string>)

  const REFUSED := Reply(false, None, None)

  type Table = map<string, Rendezvous>

  datatype Limits = Limits(ttlMs: nat, maxAttempts: nat, maxRendezvous: nat, maxPerTarget: nat)

  /** The ids of live rendezvous for one target, by a scan of the table. */
  function IdsFor(table: Table, target: string): set<string> {
    set id | id in table && table[id].targetOwner == target
  }

  // ----- One rendezvous -----

  function CommitmentOf(s: Option<Slot>): Option<string> {
    if s.Some? then Some(s.value.commitment) else None
  }

  function RevealOf(s: Option<Slot>): Option<string> {
    if s.Some? then s.value.secret else None
  }

  /** A repeat is answered, a try too many drops the rendezvous (None), a different commitment is refused. */
  function AfterCommit(r: Rendezvous, side: Side, commitment: string, maxAttempts: nat): (Option<Rendezvous>, Reply) {
    var peer, counted := CommitmentOf(r.At(Peer(side))), r.(attempts := r.attempts + 1);
    if CommitmentOf(r.At(side)) == Some(commitment) then (Some(r), Reply(true, peer, None))
    else if counted.attempts > maxAttempts then (None, REFUSED)
    else if r.At(side).Some? then (Some(counted), REFUSED)
    else (Some(counted.With(side, Slot(commitment, None))), Reply(true, peer, None))
  }

  /** The first reveal after a commitment is kept, and the peer's reveal is handed out. */
  function AfterReveal(r: Rendezvous, side: Side, secret: string): (Rendezvous, Reply) {
    if r.At(side).None? then (r, REFUSED)
    else
      var slot := r.At(side).value;
      (if slot.secret.None? then r.With(side, slot.(secret := Some(secret))) else r,
       Reply(true, None, RevealOf(r.At(Peer(side)))))
  }

  lemma CommitKeepsLife(r: Rendezvous, side: Side, commitment: string, maxAttempts: nat)
    requires r.attempts <= maxAttempts
    ensures var (after, reply) := AfterCommit(r, side, commitment, maxAttempts);
      && reply.peerReveal.None?
      && (after.Some? ==> SameLife(r, after.value) && after.value.attempts <= maxAttempts)
      && (after.Some? ==> after.value.At(Peer(side)) == r.At(Peer(side)))
      && (after.Some? && r.At(side).Some? ==> after.value.At(side) == r.At(side))
      && (after.Some? && r.At(side).None? ==> after.value.At(side) == Some(Slot(commitment, None)))
      && (reply.ok <==> after.Some? && CommitmentOf(after.value.At(side)) == Some(commitment))
      && (reply.ok ==> reply.peerCommitment == CommitmentOf(r.At(Peer(side))))
      && (after.None? <==> r.attempts == maxAttempts && CommitmentOf(r.At(side)) != Some(commitment))
  {
  }

  lemma RevealKeepsLife(r: Rendezvous, side: Side, secret: string)
    ensures var (after, reply) := AfterReveal(r, side, secret);
      && SameLife(r, after) && after.attempts == r.attempts
      && after.At(Peer(side)) == r.At(Peer(side)) && CommitmentOf(after.At(side)) == CommitmentOf(r.At(side))
      && (reply.ok <==> r.At(side).Some?)
      && (reply.ok ==> reply.peerReveal == RevealOf(r.At(Peer(side))))
      && (reply.ok ==> RevealOf(after.At(side)) == if RevealOf(r.At(side)).Some? then RevealOf(r.At(side)) else Some(secret))
      && (!reply.ok ==> after == r && reply.peerReveal.None?)
  {
  }

  /** One rendezvous waiting for its target: not both sides have revealed. */
  predicate Waiting(r: Rendezvous) {
    RevealOf(r.initiator).None? || RevealOf(r.target).None?
  }

  /** Within one life of a rendezvous its owners and age are fixed, and a stored commitment or reveal never changes. */
  ghost predicate SameLife(r: Rendezvous, r': Rendezvous) {
    && r'.createdAt == r.createdAt && r'.initiatorOwner == r.initiatorOwner && r'.targetOwner == r.targetOwner
    && r'.attempts >= r.attempts
    && forall side :: SlotKept(r.At(side), r'.At(side))
  }

  ghost predicate SlotKept(s: Option<Slot>, s': Option<Slot>) {
    s.Some? ==> s'.Some? && s'.value.commitment == s.value.commitment
                && (s.value.secret.Some? ==> s'.value.secret == s.value.secret)
  }

  lemma SameLifeReflexive(r: Rendezvous)
    ensures SameLife(r, r)
  {
  }

  lemma SameLifeTransitive(x: Rendezvous, y: Rendezvous, z: Rendezvous)
    requires SameLife(x, y) && SameLife(y, z)
    ensures SameLife(x, z)
  {
    forall side ensures SlotKept(x.At(side), z.At(side)) {
      assert SlotKept(x.At(side), y.At(side)) && SlotKept(y.At(side), z.At(side));
    }
  }

  // ----- One frame -----

  /** The entries that have not outlived their time. */
  function Young(table: Table, now: int, ttlMs: nat): Table {
    map id | id in table && table[id].createdAt > now - ttlMs :: table[id]
  }

  function CommitIn(table: Table, id: string, side: Side, commitment: string, maxAttempts: nat): (Table, Reply)
    requires id in table
  {
    var (after, reply) := AfterCommit(table[id], side, commitment, maxAttempts);
    (if after.Some? then table[id := after.value] else table - {id}, reply)
  }

  function ArmIn(table: Table, id: string, initiatorOwner: string, targetOwner: string, commitment: string, now: int,
                 limits: Limits): (Table, Reply)
  {
    if id in table then
      if table[id].initiatorOwner != initiatorOwner || table[id].targetOwner != targetOwner then (table, REFUSED)
      else CommitIn(table, id, Initiator, commitment, limits.maxAttempts)
    else if |table| >= limits.maxRendezvous then (table, REFUSED)
    else if IdsFor(table, targetOwner) != {} && |IdsFor(table, targetOwner)| >= limits.maxPerTarget then (table, REFUSED)
    else
      var armed := table[id := Rendezvous(now, initiatorOwner, targetOwner, 0, None, None)];
      CommitIn(armed, id, Initiator, commitment, limits.maxAttempts)
  }

  function JoinIn(table: Table, id: string, joiner: string, commitment: string, limits: Limits): (Table, Reply) {
    if id !in table || table[id].targetOwner != joiner then (table, REFUSED)
    else CommitIn(table, id, Target, commitment, limits.maxAttempts)
  }

  function RevealIn(table: Table, id: string, side: Side, secret: string): (Table, Reply) {
    if id !in table then (table, REFUSED)
    else
      var (after, reply) := AfterReveal(table[id], side, secret);
      (table[id := after], reply)
  }

  /** One frame on a swept table. `now` is the clock at the sweep, `armedAt` when a rendezvous is created. */
  datatype Call = Call(op: Op, now: int, armedAt: int)

  function Step(table: Table, call: Call, limits: Limits): (Table, Reply) {
    var young := Young(table, call.now, limits.ttlMs);
    match call.op
    case Arm(id, initiatorOwner, targetOwner, commitment) =>
      ArmIn(young, id, initiatorOwner, targetOwner, commitment, call.armedAt, limits)
    case Join(id, joiner, commitment) => JoinIn(young, id, joiner, commitment, limits)
    case Reveal(id, side, secret) => RevealIn(young, id, side, secret)
    case Cancel(id) => (young - {id}, Reply(true, None, None))
  }

  // ----- Bounds -----

  /** A target without any entry is never refused, so one is always possible. */
  function PerTarget(limits: Limits): nat {
    if limits.maxPerTarget == 0 then 1 else limits.maxPerTarget
  }

  ghost predicate Bounded(table: Table, limits: Limits) {
    && |table| <= limits.maxRendezvous
    && (forall t :: |IdsFor(table, t)| <= PerTarget(limits))
    && (forall id :: id in table ==> table[id].attempts <= limits.maxAttempts)
  }

  /** Every entry of `table'` is one of `table`, for the same target. */
  lemma SmallerIsBounded(table: Table, table': Table, limits: Limits)
    requires Bounded(table, limits) && table'.Keys <= table.Keys
    requires forall id :: id in table' ==>
      table'[id].targetOwner == table[id].targetOwner && table'[id].attempts <= limits.maxAttempts
    ensures Bounded(table', limits)
  {
    SubsetSize(table'.Keys, table.Keys);
    forall t ensures |IdsFor(table', t)| <= PerTarget(limits) {
      SubsetSize(IdsFor(table', t), IdsFor(table, t));
    }
  }

  lemma SubsetSize<T>(a: set<T>, b: set<T>)
    requires a <= b
    ensures |a| <= |b|
  {
    assert b == a + (b - a);
  }

  lemma CommitBounded(table: Table, id: string, side: Side, commitment: string, limits: Limits)
    requires Bounded(table, limits) && id in table
    ensures Bounded(CommitIn(table, id, side, commitment, limits.maxAttempts).0, limits)
  {
    hide Bounded;
    AttemptsBounded(table, limits);
    CommitKeepsLife(table[id], side, commitment, limits.maxAttempts);
    SmallerIsBounded(table, CommitIn(table, id, side, commitment, limits.maxAttempts).0, limits);
  }

  lemma AttemptsBounded(table: Table, limits: Limits)
    requires Bounded(table, limits)
    ensures forall id :: id in table ==> table[id].attempts <= limits.maxAttempts
  {
  }

  lemma NewEntryBounded(table: Table, id: string, r: Rendezvous, limits: Limits)
    requires Bounded(table, limits) && id !in table && |table| < limits.maxRendezvous && r.attempts == 0
    requires IdsFor(table, r.targetOwner) == {} || |IdsFor(table, r.targetOwner)| < limits.maxPerTarget
    ensures Bounded(table[id := r], limits)
  {
    hide IdsFor;
    var table' := table[id := r];
    assert table'.Keys == table.Keys + {id};
    forall t ensures |IdsFor(table', t)| <= PerTarget(limits) {
      NewEntryCounts(table, id, r, t);
    }
  }

  lemma NewEntryCounts(table: Table, id: string, r: Rendezvous, t: string)
    requires id !in table
    ensures |IdsFor(table[id := r], t)| == |IdsFor(table, t)| + if t == r.targetOwner then 1 else 0
  {
    assert IdsFor(table[id := r], t) == IdsFor(table, t) + (if t == r.targetOwner then {id} else {});
  }

  lemma ArmBounded(table: Table, id: string, initiatorOwner: string, targetOwner: string, commitment: string, now: int, limits: Limits)
    requires Bounded(table, limits)
    ensures Bounded(ArmIn(table, id, initiatorOwner, targetOwner, commitment, now, limits).0, limits)
  {
    hide Bounded, CommitIn, IdsFor;
    if id in table {
      CommitBounded(table, id, Initiator, commitment, limits);
    } else if |table| < limits.maxRendezvous
              && (IdsFor(table, targetOwner) == {} || |IdsFor(table, targetOwner)| < limits.maxPerTarget) {
      var r := Rendezvous(now, initiatorOwner, targetOwner, 0, None, None);
      NewEntryBounded(table, id, r, limits);
      CommitBounded(table[id := r], id, Initiator, commitment, limits);
    }
  }

  lemma RevealBounded(table: Table, id: string, side: Side, secret: string, limits: Limits)
    requires Bounded(table, limits)
    ensures Bounded(RevealIn(table, id, side, secret).0, limits)
  {
    hide Bounded, AfterReveal;
    AttemptsBounded(table, limits);
    if id in table {
      RevealKeepsLife(table[id], side, secret);
      SmallerIsBounded(table, RevealIn(table, id, side, secret).0, limits);
    }
  }

  lemma StepBounded(table: Table, call: Call, limits: Limits)
    requires Bounded(table, limits)
    ensures Bounded(Step(table, call, limits).0, limits)
  {
    hide Bounded, CommitIn, ArmIn, RevealIn;
    var young := Young(table, call.now, limits.ttlMs);
    AttemptsBounded(table, limits);
    SmallerIsBounded(table, young, limits);
    match call.op
    case Arm(id, initiatorOwner, targetOwner, commitment) =>
      ArmBounded(young, id, initiatorOwner, targetOwner, commitment, call.armedAt, limits);
    case Join(id, joiner, commitment) =>
      if id in young {
        CommitBounded(young, id, Target, commitment, limits);
      }
    case Reveal(id, side, secret) =>
      RevealBounded(young, id, side, secret, limits);
    case Cancel(id) =>
      AttemptsBounded(young, limits);
      SmallerIsBounded(young, young - {id}, limits);
  }

  // ----- Lives -----

  /** An entry that is still young and still there afterwards is the same rendezvous, further along. */
  lemma StepKeepsLives(table: Table, call: Call, limits: Limits, id: string)
    requires Bounded(table, limits)
    requires id in Young(table, call.now, limits.ttlMs) && id in Step(table, call, limits).0
    ensures SameLife(table[id], Step(table, call, limits).0[id])
  {
    hide AfterCommit, AfterReveal, SameLife;
    SameLifeReflexive(table[id]);
    AttemptsBounded(table, limits);
    match call.op
    case Arm(_, _, _, commitment) => CommitKeepsLife(table[id], Initiator, commitment, limits.maxAttempts);
    case Join(_, _, commitment) => CommitKeepsLife(table[id], Target, commitment, limits.maxAttempts);
    case Reveal(_, side, secret) => RevealKeepsLife(table[id], side, secret);
    case Cancel(_) =>
  }

  /** The call arms `id` anew. */
  predicate Arms(table: Table, call: Call, limits: Limits, id: string) {
    call.op.Arm? && id == call.op.id && id !in Young(table, call.now, limits.ttlMs) && id in Step(table, call, limits).0
  }

  /** An entry survived the sweep, so it is younger than the time to live, or was armed by this very call. */
  lemma StepAges(table: Table, call: Call, limits: Limits)
    ensures forall id :: id in Step(table, call, limits).0 ==>
      if id in Young(table, call.now, limits.ttlMs)
      then Step(table, call, limits).0[id].createdAt == table[id].createdAt > call.now - limits.ttlMs
      else Arms(table, call, limits, id) && Step(table, call, limits).0[id].createdAt == call.armedAt
  {
  }

  /** After a call everything is younger than the time to live, unless it armed an entry at a time already too old. */
  lemma StepYoungIff(table: Table, call: Call, limits: Limits)
    ensures (forall id :: id in Step(table, call, limits).0 ==> Step(table, call, limits).0[id].createdAt > call.now - limits.ttlMs) <==>
      (call.op.Arm? && Arms(table, call, limits, call.op.id) ==> call.armedAt > call.now - limits.ttlMs)
  {
    hide Step, Young;
    StepAges(table, call, limits);
  }

  /**
   A reply carries the peer's reveal only to a side that had committed before the call and whose own
   reveal is stored by its end.
   */
  lemma StepEarnsReveal(table: Table, call: Call, limits: Limits)
    ensures var (after, reply) := Step(table, call, limits);
      reply.peerReveal.Some? ==>
        && call.op.Reveal? && call.op.id in table && call.op.id in after
        && table[call.op.id].At(call.op.side).Some? && RevealOf(after[call.op.id].At(call.op.side)).Some?
        && reply.peerReveal == RevealOf(after[call.op.id].At(Peer(call.op.side)))
  {
  }

  /** A call touches its own id alone: any other is there afterwards, unchanged, iff it was and is young. */
  lemma StepElsewhere(table: Table, call: Call, limits: Limits, id: string)
    requires id != call.op.id
    ensures var after := Step(table, call, limits).0;
      && (id in after <==> id in table && call.now - table[id].createdAt < limits.ttlMs)
      && (id in after ==> after[id] == table[id])
  {
  }

  /** The call spends an attempt on a side other than by repeating its commitment. */
  predicate Spends(r: Rendezvous, op: Op) {
    match op
    case Arm(_, initiatorOwner, targetOwner, commitment) =>
      && r.initiatorOwner == initiatorOwner && r.targetOwner == targetOwner
      && CommitmentOf(r.initiator) != Some(commitment)
    case Join(_, joiner, commitment) => r.targetOwner == joiner && CommitmentOf(r.target) != Some(commitment)
    case Reveal(_, _, _) => false
    case Cancel(_) => false
  }

  /** A young entry goes only when it is cancelled or its attempts are used up; only spent ones are counted. */
  lemma StepDropsIff(table: Table, call: Call, limits: Limits)
    requires call.op.id in table && call.now - table[call.op.id].createdAt < limits.ttlMs
    ensures
      var after, r := Step(table, call, limits).0, table[call.op.id];
      && (call.op.id !in after <==> call.op.Cancel? || (Spends(r, call.op) && r.attempts >= limits.maxAttempts))
      && (call.op.id in after ==> after[call.op.id].attempts == r.attempts + if Spends(r, call.op) then 1 else 0)
  {
  }

  /** An unknown id is armed iff there is room in the table and for its target, and one attempt is allowed. */
  lemma ArmsIff(table: Table, call: Call, limits: Limits, id: string)
    requires id !in Young(table, call.now, limits.ttlMs)
    ensures var young := Young(table, call.now, limits.ttlMs);
      id in Step(table, call, limits).0 <==>
        && call.op.Arm? && call.op.id == id && |young| < limits.maxRendezvous && limits.maxAttempts >= 1
        && (|IdsFor(young, call.op.targetOwner)| < limits.maxPerTarget || IdsFor(young, call.op.targetOwner) == {})
  {
  }

  /** A call is granted iff it cancels, or the state it leaves holds what it brought. */
  lemma StepOkIff(table: Table, call: Call, limits: Limits)
    ensures var (after, reply) := Step(table, call, limits);
      reply.ok <==>
        match call.op
        case Arm(id, initiatorOwner, targetOwner, commitment) =>
          && id in after && after[id].initiatorOwner == initiatorOwner && after[id].targetOwner == targetOwner
          && CommitmentOf(after[id].initiator) == Some(commitment)
        case Join(id, joiner, commitment) =>
          id in after && after[id].targetOwner == joiner && CommitmentOf(after[id].target) == Some(commitment)
        case Reveal(id, side, _) => id in after && RevealOf(after[id].At(side)).Some?
        case Cancel(_) => true
  {
  }

  /** A target waits on a rendezvous until both sides have revealed. */
  lemma WaitingMeans(r: Rendezvous)
    ensures Waiting(r) <==> exists side :: RevealOf(r.At(side)).None?
  {
    assert r.At(Initiator) == r.initiator && r.At(Target) == r.target;
  }

  function Run(table: Table, calls: seq<Call>, limits: Limits): Table {
    if calls == [] then table else Step(Run(table, calls[..|calls| - 1], limits), calls[|calls| - 1], limits).0
  }

  lemma {:induction false} RunBounded(table: Table, calls: seq<Call>, limits: Limits)
    requires Bounded(table, limits)
    ensures Bounded(Run(table, calls, limits), limits)
  {
    hide Bounded, Step;
    if calls != [] {
      RunBounded(table, calls[..|calls| - 1], limits);
      StepBounded(Run(table, calls[..|calls| - 1], limits), calls[|calls| - 1], limits);
    }
  }

  // ----- The limit per target -----

  /** No target has more rendezvous than its limit. */
  ghost predicate WithinLimit(table: Table, limits: Limits) {
    forall t :: |IdsFor(table, t)| <= limits.maxPerTarget
  }

  /** A limit of 0 does not stop the first rendezvous of a target. */
  lemma LimitOfZeroAdmitsOne()
    ensures var call, limits := Call(Arm("r", "i", "t", "c"), 0, 0), Limits(1000, 1, 1, 0);
      IdsFor(Run(map[], [call], limits), "t") == {"r"}
  {
    FirstIsArmed(Limits(1000, 1, 1, 0));
  }

  const FIRST := Call(Arm("r", "i", "t", "c"), 0, 0)

  lemma FirstIsArmed(limits: Limits)
    requires limits.maxRendezvous > 0 && limits.maxAttempts > 0
    ensures IdsFor(Run(map[], [FIRST], limits), "t") == {"r"}
  {
    assert [FIRST][..0] == [];
    var table: Table := map[];
    assert Young(table, 0, limits.ttlMs) == table && IdsFor(table, "t") == {};
    assert Run(table, [FIRST], limits) == Step(table, FIRST, limits).0;
  }

  lemma {:induction false} NothingIsArmed(calls: seq<Call>, limits: Limits)
    requires limits.maxRendezvous == 0 || limits.maxAttempts == 0
    ensures Run(map[], calls, limits) == map[]
  {
    if calls != [] {
      var n := |calls| - 1;
      NothingIsArmed(calls[..n], limits);
      StaysEmpty(calls[n], limits);
    }
  }

  lemma StaysEmpty(call: Call, limits: Limits)
    requires limits.maxRendezvous == 0 || limits.maxAttempts == 0
    ensures Step(map[], call, limits).0 == map[]
  {
    var table: Table := map[];
    assert Young(table, call.now, limits.ttlMs) == table;
    if call.op.Arm? && limits.maxRendezvous > 0 {
      var r := Rendezvous(call.armedAt, call.op.initiatorOwner, call.op.targetOwner, 0, None, None);
      assert table[call.op.id := r] - {call.op.id} == table;
    }
  }

  lemma EmptyIsBounded(limits: Limits)
    ensures Bounded(map[], limits)
  {
    var table: Table := map[];
    assert forall t :: IdsFor(table, t) == {};
  }

  /** Every run from the empty table keeps every target within its limit iff the limit is positive or nothing can be armed at all. */
  lemma LimitIsKeptIff(limits: Limits)
    ensures (forall calls :: WithinLimit(Run(map[], calls, limits), limits)) <==>
      limits.maxPerTarget > 0 || limits.maxRendezvous == 0 || limits.maxAttempts == 0
  {
    hide IdsFor, Run;
    EmptyIsBounded(limits);
    if limits.maxRendezvous == 0 || limits.maxAttempts == 0 {
      forall calls ensures WithinLimit(Run(map[], calls, limits), limits) {
        NothingIsArmed(calls, limits);
        EmptyIsWithin(limits);
      }
    } else if limits.maxPerTarget > 0 {
      forall calls ensures WithinLimit(Run(map[], calls, limits), limits) {
        RunBounded(map[], calls, limits);
      }
    } else {
      FirstIsArmed(limits);
      assert !WithinLimit(Run(map[], [FIRST], limits), limits);
    }
  }

  lemma EmptyIsWithin(limits: Limits)
    ensures WithinLimit(map[], limits)
  {
    var table: Table := map[];
    assert forall t :: IdsFor(table, t) == {};
  }

  ghost predicate SurvivesCall(table: Table, calls: seq<Call>, limits: Limits, k: nat, id: string)
    requires k < |calls|
  {
    id in Young(Run(table, calls[..k], limits), calls[k].now, limits.ttlMs) && id in Run(table, calls[..k + 1], limits)
  }

  /** `id` is not swept or dropped at any call from `m` on. */
  ghost predicate StaysAlive(table: Table, calls: seq<Call>, limits: Limits, m: nat, id: string) {
    forall k :: m <= k < |calls| ==> SurvivesCall(table, calls, limits, k, id)
  }

  lemma FrontStaysAlive(table: Table, calls: seq<Call>, limits: Limits, m: nat, id: string)
    requires calls != [] && StaysAlive(table, calls, limits, m, id)
    ensures StaysAlive(table, calls[..|calls| - 1], limits, m, id)
  {
    hide Step, Young;
    var front := calls[..|calls| - 1];
    forall k | m <= k < |front| ensures SurvivesCall(table, front, limits, k, id) {
      assert SurvivesCall(table, calls, limits, k, id);
      assert front[..k] == calls[..k] && front[..k + 1] == calls[..k + 1];
    }
  }

  /** Over the life of a rendezvous, in any run, no stored commitment or reveal changes. */
  lemma {:induction false} LifeIsImmutable(table: Table, calls: seq<Call>, limits: Limits, m: nat, id: string)
    requires Bounded(table, limits) && m <= |calls| && StaysAlive(table, calls, limits, m, id)
    requires id in Run(table, calls[..m], limits)
    ensures id in Run(table, calls, limits) && SameLife(Run(table, calls[..m], limits)[id], Run(table, calls, limits)[id])
    decreases |calls|
  {
    hide Bounded, Step, SameLife, Young;
    if m == |calls| {
      assert calls[..m] == calls;
      SameLifeReflexive(Run(table, calls, limits)[id]);
    } else {
      var n := |calls| - 1;
      var front := calls[..n];
      assert calls[..n + 1] == calls && front[..m] == calls[..m];
      assert SurvivesCall(table, calls, limits, n, id);
      FrontStaysAlive(table, calls, limits, m, id);
      LifeIsImmutable(table, front, limits, m, id);
      RunBounded(table, front, limits);
      StepKeepsLives(Run(table, front, limits), calls[n], limits, id);
      SameLifeTransitive(Run(table, calls[..m], limits)[id], Run(table, front, limits)[id], Run(table, calls, limits)[id]);
    }
  }

  // ----- Where stored values come from -----

  /** A stored reveal was stored before, in this life, or is the first one sent after its side committed. */
  lemma StepStoresReveal(table: Table, call: Call, limits: Limits, id: string, side: Side, x: string)
    requires id in Step(table, call, limits).0 && RevealOf(Step(table, call, limits).0[id].At(side)) == Some(x)
    ensures id in Young(table, call.now, limits.ttlMs)
    ensures
      || RevealOf(table[id].At(side)) == Some(x)
      || (call.op == Reveal(id, side, x) && table[id].At(side).Some? && RevealOf(table[id].At(side)).None?)
  {
  }

  /** A stored commitment was stored before, in this life, or is the first one its side sent. */
  lemma StepStoresCommitment(table: Table, call: Call, limits: Limits, id: string, side: Side, x: string)
    requires id in Step(table, call, limits).0 && CommitmentOf(Step(table, call, limits).0[id].At(side)) == Some(x)
    ensures
      || (id in Young(table, call.now, limits.ttlMs) && CommitmentOf(table[id].At(side)) == Some(x))
      || Commits(Young(table, call.now, limits.ttlMs), call.op, id, side, x)
  {
  }

  /** The operation brings the first commitment of this side: from the owner who arms, or from the target's owner. */
  predicate Commits(table: Table, op: Op, id: string, side: Side, x: string) {
    if side.Initiator? then
      && op.Arm? && op.id == id && op.commitment == x
      && (id in table ==>
           table[id].initiator.None? && table[id].initiatorOwner == op.initiatorOwner && table[id].targetOwner == op.targetOwner)
    else
      && op.Join? && op.id == id && op.commitment == x
      && id in table && table[id].target.None? && table[id].targetOwner == op.joiner
  }

  /** A rendezvous begins with what the arming call says of it. */
  lemma ArmedAsAsked(table: Table, call: Call, limits: Limits, id: string)
    requires Arms(table, call, limits, id)
    ensures Step(table, call, limits)
         == (Young(table, call.now, limits.ttlMs)[id := Rendezvous(call.armedAt, call.op.initiatorOwner, call.op.targetOwner, 1,
                                                                  Some(Slot(call.op.commitment, None)), None)],
             Reply(true, None, None))
  {
    var young := Young(table, call.now, limits.ttlMs);
    var r := Rendezvous(call.armedAt, call.op.initiatorOwner, call.op.targetOwner, 0, None, None);
    var r' := r.(attempts := 1, initiator := Some(Slot(call.op.commitment, None)));
    assert young[id := r][id := r'] == young[id := r'];
  }

  /** Call `m` brought the first commitment of this side, and the rendezvous has lived since. */
  ghost predicate CommittedAt(calls: seq<Call>, limits: Limits, m: nat, id: string, side: Side, x: string) {
    && m < |calls| && Commits(Young(Run(map[], calls[..m], limits), calls[m].now, limits.ttlMs), calls[m].op, id, side, x)
    && id in Run(map[], calls[..m + 1], limits) && StaysAlive(map[], calls, limits, m + 1, id)
  }

  ghost predicate WasCommitted(calls: seq<Call>, limits: Limits, id: string, side: Side, x: string) {
    exists m: nat :: CommittedAt(calls, limits, m, id, side, x)
  }

  lemma CommittedEarlier(calls: seq<Call>, limits: Limits, id: string, side: Side, x: string)
    requires calls != [] && WasCommitted(calls[..|calls| - 1], limits, id, side, x)
    requires SurvivesCall(map[], calls, limits, |calls| - 1, id)
    ensures WasCommitted(calls, limits, id, side, x)
  {
    hide Step, Young, Run, Commits;
    var n := |calls| - 1;
    var front := calls[..n];
    var m: nat :| CommittedAt(front, limits, m, id, side, x);
    assert front[..m] == calls[..m] && front[m] == calls[m] && front[..m + 1] == calls[..m + 1];
    forall k | m + 1 <= k < |calls| ensures SurvivesCall(map[], calls, limits, k, id) {
      if k < n {
        assert SurvivesCall(map[], front, limits, k, id);
        assert front[..k] == calls[..k] && front[..k + 1] == calls[..k + 1];
      }
    }
    assert CommittedAt(calls, limits, m, id, side, x);
  }

  lemma CommittedNow(calls: seq<Call>, limits: Limits, id: string, side: Side, x: string)
    requires calls != [] && id in Run(map[], calls, limits)
    requires var n := |calls| - 1;
      Commits(Young(Run(map[], calls[..n], limits), calls[n].now, limits.ttlMs), calls[n].op, id, side, x)
    ensures WasCommitted(calls, limits, id, side, x)
  {
    hide Step, Young, Run, Commits;
    var n := |calls| - 1;
    assert calls[..n + 1] == calls;
    assert CommittedAt(calls, limits, n, id, side, x);
  }

  /** In every run from the empty table, a stored commitment is the first one its side's owner sent in the present life. */
  lemma {:induction false} StoredCommitmentWasSent(calls: seq<Call>, limits: Limits, id: string, side: Side, x: string)
    requires id in Run(map[], calls, limits) && CommitmentOf(Run(map[], calls, limits)[id].At(side)) == Some(x)
    ensures WasCommitted(calls, limits, id, side, x)
  {
    hide Step, Young, WasCommitted, Commits;
    if calls != [] {
      var n := |calls| - 1;
      var before := Run(map[], calls[..n], limits);
      StepStoresCommitment(before, calls[n], limits, id, side, x);
      assert calls[..n + 1] == calls;
      if Commits(Young(before, calls[n].now, limits.ttlMs), calls[n].op, id, side, x) {
        CommittedNow(calls, limits, id, side, x);
      } else {
        YoungIsIn(before, calls[n].now, limits.ttlMs, id);
        StoredCommitmentWasSent(calls[..n], limits, id, side, x);
        CommittedEarlier(calls, limits, id, side, x);
      }
    }
  }

  /** In every run, the commitment a reply hands out is the one the peer's owner sent. */
  lemma HandedCommitmentWasSent(calls: seq<Call>, call: Call, limits: Limits)
    requires Step(Run(map[], calls, limits), call, limits).1.peerCommitment.Some?
    ensures call.op.Arm? || call.op.Join?
    ensures WasCommitted(calls, limits, call.op.id, if call.op.Arm? then Target else Initiator,
                         Step(Run(map[], calls, limits), call, limits).1.peerCommitment.value)
  {
    hide Run, WasCommitted;
    var table := Run(map[], calls, limits);
    var x, side := Step(table, call, limits).1.peerCommitment.value, if call.op.Arm? then Target else Initiator;
    assert CommitmentOf(table[call.op.id].At(side)) == Some(x);
    StoredCommitmentWasSent(calls, limits, call.op.id, side, x);
  }

  /** Call `m` revealed `x` for this side, the first reveal after it committed, and the rendezvous has lived since. */
  ghost predicate RevealedAt(calls: seq<Call>, limits: Limits, m: nat, id: string, side: Side, x: string) {
    && m < |calls| && calls[m].op == Reveal(id, side, x)
    && id in Young(Run(map[], calls[..m], limits), calls[m].now, limits.ttlMs)
    && Run(map[], calls[..m], limits)[id].At(side).Some? && RevealOf(Run(map[], calls[..m], limits)[id].At(side)).None?
    && StaysAlive(map[], calls, limits, m, id)
  }

  ghost predicate WasRevealed(calls: seq<Call>, limits: Limits, id: string, side: Side, x: string) {
    exists m: nat :: RevealedAt(calls, limits, m, id, side, x)
  }

  lemma RevealedEarlier(calls: seq<Call>, limits: Limits, id: string, side: Side, x: string)
    requires calls != [] && WasRevealed(calls[..|calls| - 1], limits, id, side, x)
    requires SurvivesCall(map[], calls, limits, |calls| - 1, id)
    ensures WasRevealed(calls, limits, id, side, x)
  {
    hide Step, Young, Run;
    var n := |calls| - 1;
    var front := calls[..n];
    var m: nat :| RevealedAt(front, limits, m, id, side, x);
    assert front[..m] == calls[..m] && front[m] == calls[m];
    forall k | m <= k < |calls| ensures SurvivesCall(map[], calls, limits, k, id) {
      if k < n {
        assert SurvivesCall(map[], front, limits, k, id);
        assert front[..k] == calls[..k] && front[..k + 1] == calls[..k + 1];
      }
    }
    assert RevealedAt(calls, limits, m, id, side, x);
  }

  /**
   In every run from the empty table, a stored reveal is the secret of one earlier call for that id
   and side: the first after that side committed in the rendezvous' present life.
   */
  lemma {:induction false} StoredRevealWasSent(calls: seq<Call>, limits: Limits, id: string, side: Side, x: string)
    requires id in Run(map[], calls, limits) && RevealOf(Run(map[], calls, limits)[id].At(side)) == Some(x)
    ensures WasRevealed(calls, limits, id, side, x)
  {
    hide Step, Young, WasRevealed, RevealedAt;
    if calls != [] {
      var n := |calls| - 1;
      var before := Run(map[], calls[..n], limits);
      StepStoresReveal(before, calls[n], limits, id, side, x);
      assert calls[..n + 1] == calls;
      YoungIsIn(before, calls[n].now, limits.ttlMs, id);
      if RevealOf(before[id].At(side)) == Some(x) {
        StoredRevealWasSent(calls[..n], limits, id, side, x);
        RevealedEarlier(calls, limits, id, side, x);
      } else {
        RevealedNow(calls, limits, id, side, x);
      }
    }
  }

  lemma YoungIsIn(table: Table, now: int, ttlMs: nat, id: string)
    requires id in Young(table, now, ttlMs)
    ensures id in table && Young(table, now, ttlMs)[id] == table[id]
  {
  }

  lemma RevealedNow(calls: seq<Call>, limits: Limits, id: string, side: Side, x: string)
    requires calls != [] && id in Run(map[], calls, limits)
    requires var n := |calls| - 1; var before := Run(map[], calls[..n], limits);
      && calls[n].op == Reveal(id, side, x) && id in Young(before, calls[n].now, limits.ttlMs)
      && before[id].At(side).Some? && RevealOf(before[id].At(side)).None?
    ensures WasRevealed(calls, limits, id, side, x)
  {
    hide Step, Young, Run;
    var n := |calls| - 1;
    assert calls[..n + 1] == calls;
    assert SurvivesCall(map[], calls, limits, n, id);
    assert RevealedAt(calls, limits, n, id, side, x);
  }

  /** In every run, the reveal a reply hands out is the one the peer sent, first after it committed in this life. */
  lemma HandedRevealWasSent(calls: seq<Call>, call: Call, limits: Limits)
    requires Step(Run(map[], calls, limits), call, limits).1.peerReveal.Some?
    ensures call.op.Reveal? && call.op.id in Young(Run(map[], calls, limits), call.now, limits.ttlMs)
    ensures WasRevealed(calls, limits, call.op.id, Peer(call.op.side), Step(Run(map[], calls, limits), call, limits).1.peerReveal.value)
  {
    hide Run, WasRevealed;
    var table := Run(map[], calls, limits);
    var x := Step(table, call, limits).1.peerReveal.value;
    assert RevealOf(table[call.op.id].At(Peer(call.op.side))) == Some(x);
    StoredRevealWasSent(calls, limits, call.op.id, Peer(call.op.side), x);
  }
}
