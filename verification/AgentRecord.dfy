/** One delegated agent's durable record and the history rules its schema checks. */
module AgentRecord {
  import opened Common

  /** A place in the event stream of one generation of a daemon's target. */
  datatype Fence = Fence(daemonInstanceId: string, targetId: string, generation: nat, lastEventId: nat)

  datatype AgentState = Creating | Idle | Working | Recovering | Unavailable

  datatype OperationKind = Start | Message | Stop

  datatype OperationState = Requested | Accepted | Indeterminate

  datatype Delivery = Started | Steered

  datatype TurnState =
    | InProgress
    | Completed(finalItemId: Option<string>, finalResponse: string)
    | Failed(error: string)
    | Interrupted

  datatype Activity = Commentary(itemId: string, text: string) | Truncated(omitted: nat)

  datatype Turn = Turn(id: string, state: TurnState, activities: seq<Activity>, updatedAt: nat)

  datatype Exchange = Exchange(
    operationId: string, kind: OperationKind, prompt: string, status: OperationState,
    delivery: Option<Delivery>, turnId: Option<string>, createdAt: nat, acceptedAt: Option<nat>)

  datatype PreDispatch = PreDispatch(
    agentState: AgentState, threadId: Option<string>, turnId: Option<string>, fence: Option<Fence>)

  datatype Operation = Operation(
    operationId: string, kind: OperationKind, fingerprint: string, state: OperationState,
    turnId: Option<string>, acceptanceFence: Option<Fence>, acceptanceUnverified: bool,
    preDispatch: PreDispatch, noOp: bool, createdAt: nat, updatedAt: nat)

  datatype TargetKind = Host | Devcontainer

  datatype Target = Target(kind: TargetKind, targetId: string, cwd: string)

  datatype Interrupt = Interrupt(operationId: string, turnId: string, requestedAt: nat)

  datatype Agent = Agent(
    agentId: string, agentState: AgentState, requestedTarget: TargetKind, resolvedTarget: Option<Target>,
    threadId: Option<string>, activeTurnId: Option<string>, pendingInterrupt: Option<Interrupt>,
    exchanges: seq<Exchange>, turns: seq<Turn>, operations: seq<Operation>,
    fence: Option<Fence>, createdAt: nat, updatedAt: nat)

  predicate IsPrompt(kind: OperationKind) {
    kind.Start? || kind.Message?
  }

  // ----- Turn history -----

  datatype Issue =
    | UpdatePredatesCreation
    | ActiveTurnUnresolved
    | RunningTurnNotActive
    | WorkingWithoutTurn
    | IdleWithTurn
    | DuplicateTurnIds
    | TurnOutsideLifetime

  function TurnsWithId(turns: seq<Turn>, id: string): (r: seq<Turn>) {
    if turns == [] then []
    else TurnsWithId(turns[..|turns| - 1], id) + if turns[|turns| - 1].id == id then [turns[|turns| - 1]] else []
  }

  function RunningTurns(turns: seq<Turn>): (r: seq<Turn>) {
    if turns == [] then []
    else RunningTurns(turns[..|turns| - 1]) + if turns[|turns| - 1].state.InProgress? then [turns[|turns| - 1]] else []
  }

  predicate UniqueTurnIds(turns: seq<Turn>) {
    forall i, j :: 0 <= i < j < |turns| ==> turns[i].id != turns[j].id
  }

  /** The rules of the active turn as they are checked, by counting matching turns. */
  predicate ActiveTurnRules(a: Agent) {
    var running := RunningTurns(a.turns);
    && (a.activeTurnId.Some? ==>
         var active := TurnsWithId(a.turns, a.activeTurnId.value);
         |active| == 1 && active[0].state.InProgress? && |running| == 1)
    && (a.activeTurnId.None? ==> |running| == 0)
    && (a.agentState.Working? ==> a.activeTurnId.Some?)
    && (a.agentState.Idle? ==> a.activeTurnId.None?)
  }

  lemma ActiveTurnRulesMeaning(a: Agent)
    requires UniqueTurnIds(a.turns)
    ensures ActiveTurnRules(a) <==> ActiveTurnOk(a)
  {
    hide RunningTurns, TurnsWithId;
    var running := RunningTurns(a.turns);
    RunningTurnsMeaning(a.turns);
    assert running != [] ==> running[0] in running;
    assert forall i :: 0 <= i < |a.turns| ==> a.turns[i] in a.turns;
    if a.activeTurnId.Some? {
      var active := TurnsWithId(a.turns, a.activeTurnId.value);
      TurnsWithIdMeaning(a.turns, a.activeTurnId.value);
      assert active != [] ==> active[0] in active;
    }
  }

  predicate WithinLifetime(a: Agent, t: Turn) {
    a.createdAt <= t.updatedAt <= a.updatedAt
  }

  /** The rule behind each issue is broken. */
  predicate Breaks(a: Agent, issue: Issue) {
    match issue
    case UpdatePredatesCreation => a.updatedAt < a.createdAt
    case ActiveTurnUnresolved =>
      a.activeTurnId.Some? &&
      var active := TurnsWithId(a.turns, a.activeTurnId.value);
      |active| != 1 || !active[0].state.InProgress? || |RunningTurns(a.turns)| != 1
    case RunningTurnNotActive => a.activeTurnId.None? && |RunningTurns(a.turns)| > 0
    case WorkingWithoutTurn => a.agentState.Working? && a.activeTurnId.None?
    case IdleWithTurn => a.agentState.Idle? && a.activeTurnId.Some?
    case DuplicateTurnIds => !UniqueTurnIds(a.turns)
    case TurnOutsideLifetime => exists i :: 0 <= i < |a.turns| && !WithinLifetime(a, a.turns[i])
  }

  /** No rule is broken exactly when the history is in order. */
  lemma NoIssuesMeaning(a: Agent)
    ensures (forall x :: !Breaks(a, x)) <==> TurnHistoryOk(a)
  {
    hide ActiveTurnOk, UniqueTurnIds, RunningTurns, TurnsWithId;
    if UniqueTurnIds(a.turns) {
      ActiveTurnRulesMeaning(a);
    }
    assert Breaks(a, UpdatePredatesCreation) || Breaks(a, DuplicateTurnIds) || Breaks(a, TurnOutsideLifetime)
        || Breaks(a, ActiveTurnUnresolved) || Breaks(a, RunningTurnNotActive)
        || Breaks(a, WorkingWithoutTurn) || Breaks(a, IdleWithTurn) || TurnHistoryOk(a);
  }

  /** The turn-level issues of a record: exactly those whose rule is broken, so none when the history is in order. */
  method TurnHistoryIssues(a: Agent) returns (issues: seq<Issue>)
    ensures forall x :: x in issues <==> Breaks(a, x)
    ensures issues == [] <==> TurnHistoryOk(a)
  {
    hide TurnHistoryOk, UniqueTurnIds, RunningTurns, TurnsWithId;
    NoIssuesMeaning(a);
    issues := [];
    if a.updatedAt < a.createdAt {
      issues := issues + [UpdatePredatesCreation];
    }
    var active := if a.activeTurnId.Some? then TurnsWithId(a.turns, a.activeTurnId.value) else [];
    var running := RunningTurns(a.turns);
    if a.activeTurnId.Some? && (|active| != 1 || !active[0].state.InProgress? || |running| != 1) {
      issues := issues + [ActiveTurnUnresolved];
    }
    if a.activeTurnId.None? && |running| > 0 {
      issues := issues + [RunningTurnNotActive];
    }
    if a.agentState.Working? && a.activeTurnId.None? {
      issues := issues + [WorkingWithoutTurn];
    }
    if a.agentState.Idle? && a.activeTurnId.Some? {
      issues := issues + [IdleWithTurn];
    }
    if !UniqueTurnIds(a.turns) {
      issues := issues + [DuplicateTurnIds];
    }
    assert forall x :: x in issues <==> Breaks(a, x) && x != TurnOutsideLifetime;
    for i := 0 to |a.turns|
      invariant forall x :: x in issues <==>
        if x == TurnOutsideLifetime then exists j :: 0 <= j < i && !WithinLifetime(a, a.turns[j]) else Breaks(a, x)
    {
      if a.turns[i].updatedAt < a.createdAt || a.turns[i].updatedAt > a.updatedAt {
        issues := issues + [TurnOutsideLifetime];
      }
    }
    assert issues != [] ==> issues[0] in issues;
  }

  predicate Runs(turns: seq<Turn>, id: string) {
    exists i :: 0 <= i < |turns| && turns[i].id == id && turns[i].state.InProgress?
  }

  predicate HasTurn(turns: seq<Turn>, id: string) {
    exists i :: 0 <= i < |turns| && turns[i].id == id
  }

  /** A turn is in progress exactly when it is the active one, and the agent's state agrees. */
  predicate ActiveTurnOk(a: Agent) {
    && (forall i :: 0 <= i < |a.turns| && a.turns[i].state.InProgress? ==> a.activeTurnId == Some(a.turns[i].id))
    && (a.activeTurnId.Some? ==> Runs(a.turns, a.activeTurnId.value))
    && (a.agentState.Working? ==> a.activeTurnId.Some?)
    && (a.agentState.Idle? ==> a.activeTurnId.None?)
  }

  predicate TurnHistoryOk(a: Agent) {
    && a.createdAt <= a.updatedAt
    && ActiveTurnOk(a)
    && UniqueTurnIds(a.turns)
    && forall i :: 0 <= i < |a.turns| ==> a.createdAt <= a.turns[i].updatedAt <= a.updatedAt
  }

  lemma {:induction false} TurnsWithIdMeaning(turns: seq<Turn>, id: string)
    ensures var r := TurnsWithId(turns, id);
      && (forall t :: t in r <==> t in turns && t.id == id)
      && (|r| <= 1 <==> forall i, j :: 0 <= i < j < |turns| ==> !(turns[i].id == turns[j].id == id))
  {
    if turns != [] {
      var n := |turns| - 1;
      TurnsWithIdMeaning(turns[..n], id);
      assert turns == turns[..n] + [turns[n]];
      var r := TurnsWithId(turns[..n], id);
      assert r != [] ==> r[0] in r;
      assert forall i :: 0 <= i < n ==> turns[i] in turns[..n];
    }
  }

  lemma {:induction false} RunningTurnsMeaning(turns: seq<Turn>)
    ensures var r := RunningTurns(turns);
      && (forall t :: t in r <==> t in turns && t.state.InProgress?)
      && (|r| <= 1 <==> forall i, j :: 0 <= i < j < |turns| ==> !(turns[i].state.InProgress? && turns[j].state.InProgress?))
  {
    if turns != [] {
      var n := |turns| - 1;
      RunningTurnsMeaning(turns[..n]);
      assert turns == turns[..n] + [turns[n]];
      var r := RunningTurns(turns[..n]);
      assert r != [] ==> r[0] in r;
      assert forall i :: 0 <= i < n ==> turns[i] in turns[..n];
    }
  }

  // ----- Exchanges against turns -----

  /** A requested or abandoned exchange names no turn; an accepted one names its delivery, turn and time. */
  predicate ExchangeOk(e: Exchange) {
    && IsPrompt(e.kind)
    && e.delivery.Some? == e.turnId.Some? == e.acceptedAt.Some? == e.status.Accepted?
    && (e.kind.Start? && e.delivery.Some? ==> e.delivery.value.Started?)
  }

  predicate StartsTurn(e: Exchange, id: string) {
    e.delivery == Some(Started) && e.turnId == Some(id)
  }

  predicate HasStarter(exs: seq<Exchange>, id: string) {
    exists i :: 0 <= i < |exs| && StartsTurn(exs[i], id)
  }

  /** One leading start, each exchange well formed, and no turn started twice. */
  predicate ExchangeShape(exs: seq<Exchange>) {
    && |exs| > 0
    && (forall i :: 0 <= i < |exs| ==> ExchangeOk(exs[i]) && (exs[i].kind.Start? <==> i == 0))
    && (forall i, j :: 0 <= i < j < |exs| ==>
         !(exs[i].delivery == exs[j].delivery == Some(Started) && exs[i].turnId == exs[j].turnId))
  }

  /** Every turn was started by an exchange, and every turn an exchange names is present. */
  predicate TurnsMatch(turns: seq<Turn>, exs: seq<Exchange>) {
    && (forall t :: 0 <= t < |turns| ==> HasStarter(exs, turns[t].id))
    && (forall i :: 0 <= i < |exs| && exs[i].turnId.Some? ==> HasTurn(turns, exs[i].turnId.value))
  }

  predicate CreatingOk(a: Agent) {
    a.agentState.Creating? ==>
      a.activeTurnId.None? && a.turns == [] && |a.exchanges| == 1 && a.exchanges[0].status.Requested?
  }

  predicate ExchangesOk(a: Agent) {
    ExchangeShape(a.exchanges) && TurnsMatch(a.turns, a.exchanges) && CreatingOk(a)
  }

  predicate ExchangeTimesOk(a: Agent) {
    forall i :: 0 <= i < |a.exchanges| ==>
      var e := a.exchanges[i];
      && a.createdAt <= e.createdAt <= a.updatedAt
      && (e.acceptedAt.Some? ==> e.acceptedAt.value <= a.updatedAt)
  }

  /** No turn was last updated before a delivery it received. */
  predicate TurnsFollowDeliveries(a: Agent) {
    forall t, i | 0 <= t < |a.turns| && 0 <= i < |a.exchanges| ::
      a.exchanges[i].turnId == Some(a.turns[t].id) && a.exchanges[i].acceptedAt.Some? ==>
        a.exchanges[i].acceptedAt.value <= a.turns[t].updatedAt
  }

  /** The record passes every history rule. */
  predicate HistoryOk(a: Agent) {
    TurnHistoryOk(a) && ExchangesOk(a) && ExchangeTimesOk(a) && TurnsFollowDeliveries(a)
  }

  // ----- Activities -----

  const MAX_ACTIVITIES: nat := 32

  function CommentaryOf(acts: seq<Activity>): (r: seq<Activity>)
    ensures forall i :: 0 <= i < |r| ==> r[i].Commentary?
    ensures (forall i :: 0 <= i < |acts| ==> acts[i].Commentary?) ==> r == acts
  {
    if acts == [] then []
    else
      var n := |acts| - 1;
      assert acts == acts[..n] + [acts[n]];
      CommentaryOf(acts[..n]) + if acts[n].Commentary? then [acts[n]] else []
  }

  function Omitted(acts: seq<Activity>): nat {
    if acts == [] then 0 else if acts[0].Truncated? then acts[0].omitted else Omitted(acts[1..])
  }

  /** The stored window: distinct commentary first, and a truncation marker only at the end of a full window. */
  predicate ActivitiesOk(acts: seq<Activity>, max: nat) {
    var n := |acts|;
    && (forall i :: 0 <= i < n - 1 ==> acts[i].Commentary?)
    && (forall i, j :: 0 <= i < j < n && acts[i].Commentary? && acts[j].Commentary? ==> acts[i].itemId != acts[j].itemId)
    && (if n > 0 && acts[n - 1].Truncated? then n == max + 1 && acts[n - 1].omitted > 0 else n <= max)
  }

  /** The window after one more item: retained while there is room, else counted; None for a known item. */
  function AppendActivity(acts: seq<Activity>, itemId: string, text: string, max: nat): Option<seq<Activity>> {
    var held := CommentaryOf(acts);
    if exists i :: 0 <= i < |held| && held[i].itemId == itemId then None
    else if |held| < max then Some(held + [Commentary(itemId, text)])
    else Some(held + [Truncated(Omitted(acts) + 1)])
  }

  lemma {:induction false} OmittedAfter(held: seq<Activity>, rest: seq<Activity>)
    requires forall i :: 0 <= i < |held| ==> held[i].Commentary?
    ensures Omitted(held + rest) == Omitted(rest)
  {
    if held == [] {
      assert held + rest == rest;
    } else {
      assert (held + rest)[1..] == held[1..] + rest;
      OmittedAfter(held[1..], rest);
    }
  }

  ghost predicate AllCommentary(acts: seq<Activity>) {
    forall i :: 0 <= i < |acts| ==> acts[i].Commentary?
  }

  lemma CommentaryThen(held: seq<Activity>, last: Activity)
    requires AllCommentary(held)
    ensures CommentaryOf(held + [last]) == if last.Commentary? then held + [last] else held
    ensures Omitted(held + [last]) == if last.Truncated? then last.omitted else 0
  {
    assert (held + [last])[..|held|] == held;
    OmittedAfter(held, [last]);
  }

  /** A well-formed window is its commentary, followed by a marker when something was omitted. */
  lemma WindowShape(acts: seq<Activity>, max: nat)
    requires ActivitiesOk(acts, max)
    ensures var held, k := CommentaryOf(acts), Omitted(acts);
      && AllCommentary(held) && |held| <= max
      && acts == held + (if k == 0 then [] else [Truncated(k)]) && (k > 0 ==> |held| == max)
  {
    var n := |acts|;
    if n > 0 {
      assert acts == acts[..n - 1] + [acts[n - 1]];
      CommentaryThen(acts[..n - 1], acts[n - 1]);
    }
  }

  /** Appending keeps the window well-formed; an item is refused exactly when it is already held. */
  lemma AppendKeepsActivitiesOk(acts: seq<Activity>, itemId: string, text: string, max: nat)
    requires ActivitiesOk(acts, max)
    ensures match AppendActivity(acts, itemId, text, max)
      case None => exists i :: 0 <= i < |acts| && acts[i].Commentary? && acts[i].itemId == itemId
      case Some(next) =>
        ActivitiesOk(next, max) && forall i :: 0 <= i < |acts| && acts[i].Commentary? ==> acts[i].itemId != itemId
  {
    hide CommentaryOf, Omitted;
    WindowShape(acts, max);
    var held := CommentaryOf(acts);
    assert forall i :: 0 <= i < |held| ==> held[i] == acts[i];
  }

  /** The retained opening never changes, and every item taken in is either retained or counted as omitted. */
  lemma AppendCounts(acts: seq<Activity>, itemId: string, text: string, max: nat)
    requires ActivitiesOk(acts, max) && AppendActivity(acts, itemId, text, max).Some?
    ensures var next := AppendActivity(acts, itemId, text, max).value;
      && CommentaryOf(acts) <= CommentaryOf(next)
      && |CommentaryOf(next)| + Omitted(next) == |CommentaryOf(acts)| + Omitted(acts) + 1
  {
    hide CommentaryOf, Omitted;
    WindowShape(acts, max);
    var held := CommentaryOf(acts);
    CommentaryThen(held, Commentary(itemId, text));
    CommentaryThen(held, Truncated(Omitted(acts) + 1));
  }
}
