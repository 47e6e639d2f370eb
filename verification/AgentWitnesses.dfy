/** Concrete records at which the exceptions proved elsewhere really occur. */
module AgentWitnesses {
  import opened Common
  import opened AgentRecord
  import opened AgentSchema
  import opened AgentReducers
  import opened AgentInvariant
  import opened AgentTransitions
  import opened AgentAcceptance
  import opened AgentService
  import opened AgentRuns
  import opened AgentParses
  import opened AgentSchemaKept
  import opened AgentFences
  import opened AgentDurability

  const HOST := Target(Host, "host", "/work")

  const SMOOTH := Env(Confirmed, true, true)

  /** Where daemon `d` stands on the host. */
  function At(d: string, eventId: nat): Fence {
    Fence(d, "host", 0, eventId)
  }

  function StartedExchange(): Exchange {
    Exchange("op1", Start, "go", Accepted, Some(Started), Some("t1"), 1, Some(2))
  }

  function StartedOperation(fence: Option<Fence>): Operation {
    Operation("op1", Start, "f1", Accepted, Some("t1"), fence, fence.None?, PreDispatch(Creating, None, None, None), false, 1, 2)
  }

  /** One agent whose start was delivered at event 1 and whose turn is running. */
  function Running(state: AgentState, activities: seq<Activity>, verified: bool): Agent {
    Agent("a", state, Host, Some(HOST), Some("th"), Some("t1"), None,
          [StartedExchange()], [Turn("t1", InProgress, activities, 2)],
          [StartedOperation(if verified then Some(At("A", 1)) else None)], Some(At("A", 1)), 1, 2)
  }

  lemma RunningHistory(state: AgentState, activities: seq<Activity>, verified: bool)
    requires state.Working? || state.Recovering?
    ensures HistoryOk(Running(state, activities, verified))
  {
    var a := Running(state, activities, verified);
    assert StartsTurn(a.exchanges[0], a.turns[0].id) && a.turns[0].id == "t1";
  }

  lemma RunningOk(state: AgentState, activities: seq<Activity>, verified: bool)
    requires state.Working? || state.Recovering?
    requires ActivitiesOk(activities, MAX_ACTIVITIES)
    ensures RecordOk(Running(state, activities, verified))
  {
    hide HistoryOk, ActivitiesOk;
    var a := Running(state, activities, verified);
    RunningHistory(state, activities, verified);
    assert a.operations[0].operationId == a.exchanges[0].operationId;
  }

  lemma RunningMeetsSchema(state: AgentState, activities: seq<Activity>, verified: bool)
    requires state == if verified then Working else Recovering
    ensures SchemaOk(Running(state, activities, verified))
  {
    var a := Running(state, activities, verified);
    assert a.turns[0].id == "t1" && AcceptedPrompt(a.operations[0]);
    assert !verified ==> a.operations[0].acceptanceUnverified;
  }

  lemma OneAgentIsGood(a: Agent)
    requires RecordOk(a) && SchemaOk(a)
    ensures Good(Catalog(1, [a])) && Locate([a], a.agentId) == Some(0)
  {
    hide RecordOk, SchemaOk;
    assert [a][1..] == [];
  }

  // ----- A turn's end that cannot be recorded -----

  /** A recovering agent with an unverified start: its running turn ends, and the schema turns the record down. */
  lemma SomeTurnEndsFail(now: nat)
    ensures
      var c := Catalog(1, [Running(Recovering, [], false)]);
      var ev := Event("a", "th", "t1", At("A", 2), TerminalEvent(Interrupted));
      Good(c) && Lands(c, ev) && Unverified(c.agents[0].operations) && ApplyEvent(c, ev, now, SMOOTH) == (c, FailedRecord)
  {
    hide RecordOk, SchemaOk, HistoryOk, Good, ApplyEvent;
    var a := Running(Recovering, [], false);
    var c, ev := Catalog(1, [a]), Event("a", "th", "t1", At("A", 2), TerminalEvent(Interrupted));
    RunningOk(Recovering, [], false);
    RunningMeetsSchema(Recovering, [], false);
    OneAgentIsGood(a);
    assert TurnIndex(a.turns, "t1") == 0;
    assert a.operations[0].acceptanceUnverified;
    EventFailsIffUnverified(c, ev, now, SMOOTH);
    FailureWritesNothing(c, ev, now, SMOOTH);
  }

  lemma FailureWritesNothing(c: Catalog, ev: Event, now: nat, env: Env)
    requires ApplyEvent(c, ev, now, env).1.FailedRecord?
    ensures ApplyEvent(c, ev, now, env).0 == c
  {
    hide ApplyAgent, AppendActivity, Locate, TurnIndex, WithActivity, WithTerminal;
  }

  // ----- A steer that misses its turn -----

  /** A working agent whose turn was last updated at 2, with a message requested at 3. */
  function Messaged(): Agent {
    WithMessage(Running(Working, [], true), Intent("a", "op2", "more", "f2", 3))
  }

  lemma MessagedIsGood()
    ensures RecordOk(Messaged()) && Good(Catalog(1, [Messaged()])) && Locate([Messaged()], "a") == Some(0)
  {
    hide RecordOk, SchemaOk, HistoryOk, Evolves, WithMessage;
    var a, i := Running(Working, [], true), Intent("a", "op2", "more", "f2", 3);
    RunningOk(Working, [], true);
    RunningMeetsSchema(Working, [], true);
    WithMessageOk(a, i);
    WithMessageMeetsSchema(a, i);
    SentTo(a, i);
    OneAgentIsGood(Messaged());
  }

  lemma SentTo(a: Agent, i: Intent)
    ensures WithMessage(a, i).agentId == a.agentId
  {
  }

  /** The message is steered into that turn at 4: accepted, refused by the history rules, and left unresolved. */
  lemma SomeSteersMissTheirTurn()
    ensures
      var c, r := Catalog(1, [Messaged()]), Receipt("t1", Steered, "th", HOST, At("A", 2));
      && Good(c) && Paired(Messaged(), 1, 1) && SteerMissesItsTurn(Messaged(), 1, 1, r, 4)
      && AcceptDelivery(c, "a", "op2", r, 4, SMOOTH) == (c, AcceptIndeterminate(true))
  {
    hide RecordOk, SchemaOk, HistoryOk, Good, Locate;
    MessagedIsGood();
    var a, r := Messaged(), Receipt("t1", Steered, "th", HOST, At("A", 2));
    assert a.operations[0].operationId == "op1" && a.exchanges[0].operationId == "op1";
    assert a.operations[1].operationId == "op2" && a.exchanges[1].operationId == "op2";
    assert a.operations[1..][0] == a.operations[1] && a.exchanges[1..][0] == a.exchanges[1];
    assert OperationIndex(a.operations, "op2") == 1 && ExchangeIndex(a.exchanges, "op2") == 1;
    assert TurnIndex(a.turns, "t1") == 0;
    assert Decision(a, 1, 1, r) == Accept(false);
    AcceptanceOk(a, 1, 1, r, 4);
  }

  // ----- An agent reconciled back behind an event -----

  /** As much commentary as a turn retains. */
  function FullWindow(): (w: seq<Activity>)
    ensures |w| == MAX_ACTIVITIES && AllCommentary(w)
    ensures forall i :: 0 <= i < |w| ==> |w[i].itemId| == i + 2
  {
    seq(MAX_ACTIVITIES, i requires 0 <= i < MAX_ACTIVITIES => Commentary(seq(i + 2, _ => 'x'), ""))
  }

  /** The full window after `k` further items. */
  function Overfull(k: nat): seq<Activity> {
    if k == 0 then FullWindow() else FullWindow() + [Truncated(k)]
  }

  lemma OneMoreItem(k: nat)
    ensures AppendActivity(Overfull(k), "y", "", MAX_ACTIVITIES) == Some(Overfull(k + 1))
  {
    hide FullWindow, CommentaryOf, Omitted;
    var w := FullWindow();
    assert AllCommentary(w);
    if k == 0 {
      CommentaryAlone(w);
    } else {
      CommentaryThen(w, Truncated(k));
    }
    assert forall i :: 0 <= i < |w| ==> w[i].itemId != "y";
  }

  lemma CommentaryAlone(w: seq<Activity>)
    requires AllCommentary(w)
    ensures CommentaryOf(w) == w && Omitted(w) == 0
  {
    OmittedAfter(w, []);
    assert w + [] == w;
  }

  /** The running agent, `k` items past its full window, at `fence`. */
  function Watched(k: nat, fence: Fence, now: nat): Agent {
    Running(Working, Overfull(k), true).(
      turns := [Turn("t1", InProgress, Overfull(k), if k == 0 then 2 else 3)], fence := Some(fence), updatedAt := now)
  }

  const ITEM := Event("a", "th", "t1", At("A", 5), ActivityEvent("y", ""))

  lemma ItemIsApplied(c: Catalog, k: nat, fence: Fence, at: nat, now: nat)
    requires Good(c) && c.agents == [Watched(k, fence, at)] && at <= now
    requires fence == At("A", fence.lastEventId) && fence.lastEventId < 5
    ensures var a := Watched(k, fence, at);
      ApplyEvent(c, ITEM, now, SMOOTH) ==
        (Catalog(c.revision + 1, [WithActivity(a, 0, Overfull(k + 1), ITEM.fence, now)]), AgentService.Disposition.Applied)
  {
    hide Good, Overfull, AppendActivity, SchemaOk, HistoryOk;
    var a := Watched(k, fence, at);
    OneMoreItem(k);
    assert c.agents[1..] == [];
    assert Locate(c.agents, "a") == Some(0) && TurnIndex(a.turns, "t1") == 0;
    assert Lands(c, ITEM) && !Unverified(a.operations);
    EventFailsIffUnverified(c, ITEM, now, SMOOTH);
    var a' := WithActivity(a, 0, Overfull(k + 1), ITEM.fence, now);
    assert c.agents[0 := a'] == [a'];
  }

  lemma MoveIsApplied(c: Catalog, k: nat, from: Fence, to: Fence, at: nat, now: nat)
    requires Good(c) && c.agents == [Watched(k, from, at)] && at <= now
    requires to.targetId == "host" && !SameStream(from, to) && (to.daemonInstanceId == "A" && to.generation == 0 ==> to.lastEventId >= 1)
    ensures ApplyReconciliation(c, "a", "th", HOST, Some("t1"), true, to, now, SMOOTH).0
         == Catalog(c.revision + 1, [Watched(k, to, now)])
  {
    hide Good, Overfull, SchemaOk, HistoryOk;
    var a := Watched(k, from, at);
    assert c.agents[1..] == [];
    assert Locate(c.agents, "a") == Some(0);
    assert Reconcilable(a, to);
    ReconciliationFailsIff(c, "a", "th", HOST, Some("t1"), true, to, now, SMOOTH);
    assert a.turns[0].id == "t1" && Runs(a.turns, "t1");
    assert RefenceUnverified(a.operations, to) == a.operations;
  }

  function Move(to: Fence, now: nat): Step {
    StepReconcile("a", "th", HOST, Some("t1"), true, to, now, SMOOTH)
  }

  lemma RunOfThree(c: Catalog, steps: seq<Step>)
    requires |steps| == 3
    ensures var c1 := Next(c, steps[0]);
      && steps[..1] == [steps[0]] && Run(c, steps[..1]) == c1
      && Run(c, steps) == Next(Next(c1, steps[1]), steps[2])
  {
    hide Next;
    var one, two := steps[..1], steps[..2];
    assert one[..0] == [] && Run(c, one[..0]) == c;
    assert Run(c, one) == Next(c, one[0]);
    assert two[..1] == one;
    assert Run(c, two) == Next(Run(c, one), two[1]);
    assert Run(c, steps) == Next(Run(c, two), steps[2]);
  }

  lemma WatchedIsGood()
    ensures Good(Catalog(1, [Watched(0, At("A", 1), 2)]))
  {
    hide RecordOk, SchemaOk, HistoryOk;
    assert Watched(0, At("A", 1), 2) == Running(Working, FullWindow(), true);
    assert ActivitiesOk(FullWindow(), MAX_ACTIVITIES);
    RunningOk(Working, FullWindow(), true);
    RunningMeetsSchema(Working, FullWindow(), true);
    OneAgentIsGood(Running(Working, FullWindow(), true));
  }

  /** The agent with the one item counted as two omitted ones. */
  function CountedTwice(): (a: Agent)
    ensures a.turns == [Turn("t1", InProgress, Overfull(2), 6)]
  {
    WithActivity(Watched(1, At("A", 2), 5), 0, Overfull(2), ITEM.fence, 6)
  }

  /**
   The condition is needed: an item is counted, the agent is reconciled to another daemon and back
   behind the item, and the same item is counted again.
   */
  lemma RewoundEventTakesEffectTwice()
    ensures
      var c := Catalog(1, [Watched(0, At("A", 1), 2)]);
      var steps := [StepEvent(ITEM, 3, SMOOTH), Move(At("B", 0), 4), Move(At("A", 2), 5)];
      var end := Run(c, steps);
      && Good(c) && Run(c, steps[..1]) != c && NotRewound(steps[1], "a", ITEM.fence) && !NotRewound(steps[2], "a", ITEM.fence)
      && end.agents == [Watched(1, At("A", 2), 5)]
      && ApplyEvent(end, ITEM, 6, SMOOTH) == (Catalog(end.revision + 1, [CountedTwice()]), AgentService.Disposition.Applied)
  {
    hide Good, ApplyEvent, ApplyReconciliation, Overfull;
    var c := Catalog(1, [Watched(0, At("A", 1), 2)]);
    var steps := [StepEvent(ITEM, 3, SMOOTH), Move(At("B", 0), 4), Move(At("A", 2), 5)];
    WatchedIsGood();
    ItemIsApplied(c, 0, At("A", 1), 2, 3);
    var c1 := Next(c, steps[0]);
    var a := WithActivity(Watched(0, At("A", 1), 2), 0, Overfull(1), ITEM.fence, 3);
    assert a.turns == [Turn("t1", InProgress, Overfull(1), 3)];
    assert a == Watched(1, At("A", 5), 3);
    GoodStep(c, steps[0]);
    MoveIsApplied(c1, 1, At("A", 5), At("B", 0), 3, 4);
    var c2 := Next(c1, steps[1]);
    GoodStep(c1, steps[1]);
    MoveIsApplied(c2, 1, At("B", 0), At("A", 2), 4, 5);
    var c3 := Next(c2, steps[2]);
    GoodStep(c2, steps[2]);
    ItemIsApplied(c3, 1, At("A", 2), 5, 6);
    RunOfThree(c, steps);
  }

  // ----- An answer that outruns the disk -----

  /** Such an event exists: the item, whose first write is installed but not confirmed. */
  lemma SomeEventsAreLost(probe: Storage)
    ensures
      var c := Catalog(1, [Watched(0, At("A", 1), 2)]);
      Good(c) && Recordable(c, ITEM) && Told(After(Stored(c, c), Delivers(ITEM, 3, InstalledUnconfirmed, probe)),
                                             Delivers(ITEM, 4, Storage.Confirmed, probe)).Ignored?
  {
    hide Good, AppendActivity, Overfull, After;
    var a := Watched(0, At("A", 1), 2);
    var c := Catalog(1, [a]);
    WatchedIsGood();
    OneMoreItem(0);
    assert c.agents[1..] == [];
    assert Locate(c.agents, "a") == Some(0) && TurnIndex(a.turns, "t1") == 0;
    UnconfirmedEventIsRetired(c, ITEM, 3, 4, probe);
  }
}
