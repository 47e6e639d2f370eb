/** The relay and the catalog together: what an acknowledged event has done to the records it was for. */
module RelayedCatalog {
  import opened Common
  import opened AgentRecord
  import opened AgentSchema
  import opened AgentReducers
  import opened AgentService
  import opened AgentRuns
  import opened AgentParses
  import opened AgentFences
  import opened AgentDurability
  import R = RelayBook
  import Q = CodexRelay

  /** The fence a streamed frame carries. */
  function FenceOfFrame(f: R.Frame): Fence
    requires f.stream.Some?
  {
    var s := f.stream.value;
    Fence(s.daemonInstanceId, s.targetId, s.generation, f.eventId)
  }

  /** The service call a frame leads to: an event is applied under its own fence, a receipt by its kind. */
  predicate LeadsTo(f: R.Frame, s: Step) {
    if f.isEvent then
      s.StepEvent? && s.ev.agentId == f.agent.agentId && f.stream.Some? && s.ev.fence == FenceOfFrame(f)
    else s.StepAccept? || s.StepReject? || s.StepInterrupt? || s.StepReconcile?
  }

  /** The agent has a thread and a target, so it can be asked to reconcile. */
  predicate Askable(c: Catalog, agentId: string) {
    var at := Locate(c.agents, agentId);
    at.Some? && c.agents[at.value].threadId.Some? && c.agents[at.value].resolvedTarget.Some?
  }

  /** The service's disposition as the relay sees it. */
  function SeenAs(d: Disposition, askable: bool): R.Application {
    match d
    case Applied => R.Application.Applied
    case Ignored => R.Application.Ignored
    case FailedRecord => R.Application.Failed
    case Reconcile => R.Application.Reconcile(askable)
  }

  /** Entry `x` of the relay's log is what the service answered to visit `v` of the store `st`. */
  predicate ServedBy(x: R.Entry, st: Stored, v: Visit) {
    && LeadsTo(x.frame, v.step) && IsMessage(v.step)
    && (x.frame.isEvent ==> x.application == SeenAs(Told(st, v), Askable(st.catalog, x.frame.agent.agentId)))
  }

  /** The owner's frames in the log were served, in order, by visits of one run of the owner's store. */
  ghost predicate Served(log: seq<R.Entry>, owner: string, st: Stored, visits: seq<Visit>, call: map<nat, nat>) {
    && (forall j :: 0 <= j < |log| && log[j].frame.agent.ownerKey == owner ==>
         && j in call && call[j] < |visits| && ServedBy(log[j], StoredRun(st, visits[..call[j]]), visits[call[j]]))
    && (forall j, k :: j in call && k in call && j < k ==> call[j] < call[k])
  }

  // ----- One event -----

  /** A good catalog can always ask for what it cannot place: such an event is never given up on. */
  lemma UnplacedIsAskable(c: Catalog, ev: Event, now: nat, env: Env)
    requires Good(c) && ApplyEvent(c, ev, now, env).1.Reconcile?
    ensures Askable(c, ev.agentId)
  {
    hide CatalogOk, Parses, AppendActivity, Native, Unverified;
    var at := Locate(c.agents, ev.agentId);
    assert NativeRules(c.agents[at.value]);
  }

  lemma DecidedIsAppliedOrIgnored(x: R.Entry, st: Stored, v: Visit)
    requires Good(st.catalog) && x.frame.isEvent && ServedBy(x, st, v) && !R.Repairable(x.application)
    ensures Told(st, v).Applied? || Told(st, v).Ignored?
  {
    hide Good, ApplyEvent, Askable;
    var s := Tied(st, v);
    if Told(st, v).Reconcile? {
      UnplacedIsAskable(st.catalog, s.ev, s.now, s.env);
    }
  }

  /** Applied means written and confirmed by this very call. */
  lemma AppliedIsConfirmed(st: Stored, v: Visit)
    requires StoredOk(st) && v.step.StepEvent? && Told(st, v).Applied?
    ensures Writes(st, v) && Confirms(st, v)
  {
    hide Next, Reaction;
    AnswersFollowTheWrite(st.catalog, Tied(st, v));
  }

  // ----- Acknowledged events -----

  ghost predicate IgnoredAt(log: seq<R.Entry>, e: (R.StreamKey, nat), st: Stored, visits: seq<Visit>, call: map<nat, nat>, j: nat) {
    && j < |log| && R.IsEventOf(log[j].frame, e) && j in call && call[j] < |visits| && visits[call[j]].step.StepEvent?
    && Told(StoredRun(st, visits[..call[j]]), visits[call[j]]).Ignored?
  }

  /** Applied, on disk at once, and from then on inert unless its agent is taken back behind it: in memory and after a restart. */
  ghost predicate AppliedAt(log: seq<R.Entry>, e: (R.StreamKey, nat), st: Stored, visits: seq<Visit>, call: map<nat, nat>, j: nat) {
    && j < |log| && R.IsEventOf(log[j].frame, e) && j in call && call[j] < |visits| && visits[call[j]].step.StepEvent?
    && WritesAt(st, visits, call[j]) && ConfirmsAt(st, visits, call[j])
    && ((forall k :: call[j] < k < |visits| ==> NotRewound(visits[k].step, visits[call[j]].step.ev.agentId, visits[call[j]].step.ev.fence)) ==>
         forall now, env ::
           && Inert(StoredRun(st, visits).catalog, visits[call[j]].step.ev, now, env)
           && Inert(StoredRun(st, visits).confirmed, visits[call[j]].step.ev, now, env))
  }

  /** Reduced again after its release, and again left for a repair. */
  ghost predicate HeldAgain(b: R.Book, e: (R.StreamKey, nat)) {
    e in b.released && exists j :: b.released[e].at <= j < |b.log| && R.IsEventOf(b.log[j].frame, e) && R.Repairable(b.log[j].application)
  }

  lemma AppliedIsSafe(log: seq<R.Entry>, e: (R.StreamKey, nat), st: Stored, visits: seq<Visit>, call: map<nat, nat>, j: nat)
    requires StoredOk(st) && Good(st.catalog) && j < |log| && R.IsEventOf(log[j].frame, e)
    requires j in call && call[j] < |visits| && visits[call[j]].step.StepEvent?
    requires Told(StoredRun(st, visits[..call[j]]), visits[call[j]]).Applied?
    ensures AppliedAt(log, e, st, visits, call, j)
  {
    hide StoredRun, Writes, Confirms, Inert, NotRewound, CatalogOk, AllMeetSchema, Told;
    var m := call[j];
    var ev := visits[m].step.ev;
    RunOk(st, visits[..m], m);
    AppliedIsConfirmed(StoredRun(st, visits[..m]), visits[m]);
    assert ConfirmsAt(st, visits, m) && ConfirmedFrom(st, visits, m);
    if forall k :: m < k < |visits| ==> NotRewound(visits[k].step, ev.agentId, ev.fence) {
      forall now, env
        ensures Inert(StoredRun(st, visits).catalog, ev, now, env) && Inert(StoredRun(st, visits).confirmed, ev, now, env)
      {
        EventIsPastAtTheEnd(st, visits, m, ev, now, env);
        ConfirmedEventSurvivesRestart(st, visits, m, ev, now, env);
      }
    }
  }

  lemma DecidedInCatalog(b: R.Book, e: (R.StreamKey, nat), owner: string, st: Stored, visits: seq<Visit>, call: map<nat, nat>)
    requires StoredOk(st) && Good(st.catalog) && Served(b.log, owner, st, visits, call)
    requires forall j :: 0 <= j < |b.log| && R.IsEventOf(b.log[j].frame, e) ==> b.log[j].frame.isEvent && b.log[j].frame.agent.ownerKey == owner
    requires R.WasDecided(b.log, e)
    ensures exists j: nat :: IgnoredAt(b.log, e, st, visits, call, j) || AppliedAt(b.log, e, st, visits, call, j)
  {
    hide StoredRun, Good, AppliedAt;
    var j: nat :| j < |b.log| && R.IsEventOf(b.log[j].frame, e) && !R.Repairable(b.log[j].application);
    var before := StoredRun(st, visits[..call[j]]);
    GoodStore(st, visits[..call[j]]);
    DecidedIsAppliedOrIgnored(b.log[j], before, visits[call[j]]);
    if Told(before, visits[call[j]]).Applied? {
      AppliedIsSafe(b.log, e, st, visits, call, j);
    } else {
      assert IgnoredAt(b.log, e, st, visits, call, j);
    }
  }

  lemma GoodStore(st: Stored, visits: seq<Visit>)
    requires Good(st.catalog)
    ensures Good(StoredRun(st, visits).catalog)
  {
    hide Good, StoredRun, Run;
    CatalogOfRun(st, visits);
    EveryRunIsGood(st.catalog, TiedSteps(st, visits));
  }

  /**
   Every event of an owner that an acknowledgement let the daemon delete was applied, and is then on
   disk and inert ever after; or was ignored by the catalog; or was reduced again after its release
   and left for another repair; or had lost its deferred frame.
   */
  lemma AcknowledgedEvents(streams: R.Streams, b: R.Book, i: nat, e: (R.StreamKey, nat), owner: string,
                           st: Stored, visits: seq<Visit>, call: map<nat, nat>)
    requires R.BooksBalance(streams, b) && R.LogAgrees(streams, b) && R.AllRedone(b)
    requires StoredOk(st) && Good(st.catalog) && Served(b.log, owner, st, visits, call)
    requires i < |b.acks| && e in b.acks[i].covered
    requires forall j :: 0 <= j < |b.log| && R.IsEventOf(b.log[j].frame, e) ==> b.log[j].frame.isEvent && b.log[j].frame.agent.ownerKey == owner
    ensures
      || (exists j: nat :: IgnoredAt(b.log, e, st, visits, call, j) || AppliedAt(b.log, e, st, visits, call, j))
      || HeldAgain(b, e)
      || e in b.lost
  {
    hide StoredRun, Good, AppliedAt, IgnoredAt, Served, R.BooksBalance;
    R.AcksAreAnswered(streams, b);
    if R.WasDecided(b.log, e) {
      DecidedInCatalog(b, e, owner, st, visits, call);
    } else if e !in b.lost {
      assert e in b.released && R.ReducedAgain(b.log, b.released[e].at, e);
      var j :| b.released[e].at <= j < |b.log| && R.IsEventOf(b.log[j].frame, e);
      assert R.Repairable(b.log[j].application);
    }
  }

  // ----- Events replayed together -----

  /** The two events do not get into each other's way: the first leaves the turn running and is not the same item. */
  predicate Compatible(g: Event, h: Event) {
    && g.agentId == h.agentId && g.fence.lastEventId < h.fence.lastEventId && g.body.ActivityEvent?
    && (h.body.ActivityEvent? ==> h.body.itemId != g.body.itemId)
  }

  lemma NewItemStillFits(acts: seq<Activity>, g: EventBody, itemId: string, text: string)
    requires g.ActivityEvent? && itemId != g.itemId
    requires AppendActivity(acts, itemId, text, MAX_ACTIVITIES).Some? && AppendActivity(acts, g.itemId, g.text, MAX_ACTIVITIES).Some?
    ensures AppendActivity(AppendActivity(acts, g.itemId, g.text, MAX_ACTIVITIES).value, itemId, text, MAX_ACTIVITIES).Some?
  {
    hide CommentaryOf, Omitted;
    var held := CommentaryOf(acts);
    assert AllCommentary(held);
    CommentaryThen(held, Commentary(g.itemId, g.text));
    CommentaryThen(held, Truncated(Omitted(acts) + 1));
  }

  lemma LaterEventStillLands(c: Catalog, g: Event, h: Event, now: nat, env: Env)
    requires Good(c) && Recordable(c, g) && Recordable(c, h) && Compatible(g, h) && Smooth(env)
    ensures ApplyEvent(c, g, now, env).1.Applied? && Recordable(ApplyEvent(c, g, now, env).0, h)
  {
    hide CatalogOk, HistoryOk, SchemaOk, AppendActivity, Unverified;
    RecordableIsStored(c, g, now, env);
    GoodStep(c, StepEvent(g, now, env));
    var c' := ApplyEvent(c, g, now, env).0;
    var at := Locate(c.agents, g.agentId).value;
    var a, a' := c.agents[at], c'.agents[at];
    var t := TurnIndex(a.turns, g.turnId);
    assert TurnIndex(a.turns, h.turnId) == t;
    if h.body.ActivityEvent? {
      NewItemStillFits(a.turns[t].activities, g.body, h.body.itemId, h.body.text);
    }
    StillLocated(c, c', at, g.agentId);
    SameTurnIndex(a.turns, a'.turns, h.turnId);
  }

  lemma StillLocated(c: Catalog, c': Catalog, at: nat, agentId: string)
    requires Locate(c.agents, agentId) == Some(at) && |c'.agents| == |c.agents| && c'.agents[at].agentId == agentId
    requires forall k :: 0 <= k < |c.agents| && k != at ==> c'.agents[k] == c.agents[k]
    ensures Locate(c'.agents, agentId) == Some(at)
  {
    assert forall k :: 0 <= k < |c.agents| ==> c'.agents[k].agentId == c.agents[k].agentId;
    SameLocation(c.agents, c'.agents, agentId);
  }

  lemma {:induction false} SameFirst(agents: seq<Agent>, agents': seq<Agent>, id: string)
    requires |agents'| == |agents| && forall k :: 0 <= k < |agents| ==> agents'[k].agentId == agents[k].agentId
    ensures FirstAgent(agents', id) == FirstAgent(agents, id)
  {
    if agents != [] {
      SameFirst(agents[1..], agents'[1..], id);
    }
  }

  lemma SameLocation(agents: seq<Agent>, agents': seq<Agent>, id: string)
    requires |agents'| == |agents| && forall k :: 0 <= k < |agents| ==> agents'[k].agentId == agents[k].agentId
    ensures Locate(agents', id) == Locate(agents, id)
  {
    SameFirst(agents, agents', id);
    var i := FirstAgent(agents, id);
    if i < |agents| {
      SameFirst(agents[i + 1..], agents'[i + 1..], id);
    }
  }

  lemma {:induction false} SameTurnIndex(turns: seq<Turn>, turns': seq<Turn>, id: string)
    requires |turns'| == |turns| && forall k :: 0 <= k < |turns| ==> turns'[k].id == turns[k].id
    ensures TurnIndex(turns', id) == TurnIndex(turns, id)
  {
    if turns != [] {
      SameTurnIndex(turns[1..], turns'[1..], id);
    }
  }

  /** Delivered the other way round, the earlier one is taken for a repeat and lost. */
  lemma OutOfOrderIsLost(c: Catalog, g: Event, h: Event, now: nat, env: Env, now': nat, env': Env)
    requires Good(c) && Recordable(c, h) && Smooth(env) && g.agentId == h.agentId && SameStream(g.fence, h.fence)
    requires g.fence.lastEventId <= h.fence.lastEventId
    ensures var c' := ApplyEvent(c, h, now, env).0;
      ApplyEvent(c, h, now, env).1.Applied? && Inert(c', g, now', env')
  {
    hide CatalogOk, HistoryOk, SchemaOk, AppendActivity, Unverified, Lands;
    RecordableIsStored(c, h, now, env);
    StoredEventIsPast(c, h, now, env);
    GoodStep(c, StepEvent(h, now, env));
    var c', at := ApplyEvent(c, h, now, env).0, Locate(c.agents, h.agentId).value;
    StepSound(c, StepEvent(h, now, env));
    SameAgent(c, c', at);
    PastEventIsInert(c', g, now', env', at);
  }

  // ----- A drain whose events all land -----

  /** From visit `m` on the store is given these events, one after the other, and their writes meet no trouble. */
  ghost predicate Given(visits: seq<Visit>, m: nat, evs: seq<Event>) {
    && m + |evs| <= |visits|
    && forall x :: 0 <= x < |evs| ==> visits[m + x].step.StepEvent? && visits[m + x].step.ev == evs[x] && Smooth(visits[m + x].step.env)
  }

  /** Each of the events would land on this catalog. */
  ghost predicate AllLand(c: Catalog, evs: seq<Event>) {
    forall x :: 0 <= x < |evs| ==> Recordable(c, evs[x])
  }

  ghost predicate Rising(evs: seq<Event>) {
    forall x, y :: 0 <= x < y < |evs| ==> Compatible(evs[x], evs[y])
  }

  lemma EventVisit(st: Stored, v: Visit)
    requires v.step.StepEvent?
    ensures var s := Tied(st, v);
      && s.StepEvent? && s.ev == v.step.ev && s.now == v.step.now && (Smooth(v.step.env) ==> Smooth(s.env))
      && After(st, v).catalog == ApplyEvent(st.catalog, s.ev, s.now, s.env).0 && Told(st, v) == ApplyEvent(st.catalog, s.ev, s.now, s.env).1
  {
    hide ApplyEvent, Confirms, BeginStart, BeginMessage, BeginStop, AcceptDelivery, AbandonDelivery;
    hide ApplyRejection, ApplyInterruptOutcome, ApplyReconciliation;
  }

  lemma NextStore(st: Stored, visits: seq<Visit>, m: nat)
    requires m < |visits|
    ensures StoredRun(st, visits[..m + 1]) == After(StoredRun(st, visits[..m]), visits[m])
  {
    hide After;
    RunLast(st, visits[..m + 1]);
    assert visits[..m + 1][..m] == visits[..m];
  }

  lemma {:induction false} LandsInTurn(st: Stored, visits: seq<Visit>, m: nat, evs: seq<Event>, x: nat, y: nat)
    requires Good(st.catalog) && Given(visits, m, evs) && Rising(evs) && x <= y < |evs|
    requires AllLand(StoredRun(st, visits[..m]).catalog, evs)
    ensures Recordable(StoredRun(st, visits[..m + x]).catalog, evs[y])
    decreases x
  {
    hide StoredRun, Good, Recordable, Compatible, After, ApplyEvent, Tied, Told;
    if x > 0 {
      var i := x - 1;
      LandsInTurn(st, visits, m, evs, i, i);
      LandsInTurn(st, visits, m, evs, i, y);
      var before, v := StoredRun(st, visits[..m + i]), visits[m + i];
      GoodStore(st, visits[..m + i]);
      EventVisit(before, v);
      LaterEventStillLands(before.catalog, evs[i], evs[y], v.step.now, Tied(before, v).env);
      NextStore(st, visits, m + i);
    }
  }

  /** Events that would each land, given in the order of their numbers, are all applied. */
  lemma InOrderAllApplied(st: Stored, visits: seq<Visit>, m: nat, evs: seq<Event>, x: nat)
    requires Good(st.catalog) && Given(visits, m, evs) && Rising(evs) && x < |evs|
    requires AllLand(StoredRun(st, visits[..m]).catalog, evs)
    ensures IsMessage(visits[m + x].step) && Told(StoredRun(st, visits[..m + x]), visits[m + x]).Applied?
  {
    hide StoredRun, Good, Recordable, Rising, AllLand, After, ApplyEvent, Tied, Told;
    LandsInTurn(st, visits, m, evs, x, x);
    var before, v := StoredRun(st, visits[..m + x]), visits[m + x];
    GoodStore(st, visits[..m + x]);
    EventVisit(before, v);
    RecordableIsStored(before.catalog, evs[x], v.step.now, Tied(before, v).env);
  }

  /** The entries of the log from `from` on are the service's answers to these events. */
  ghost predicate DrainServed(log: seq<R.Entry>, from: nat, st: Stored, visits: seq<Visit>, m: nat, evs: seq<Event>) {
    && from + |evs| == |log| && Given(visits, m, evs)
    && forall x :: 0 <= x < |evs| ==> AnswerTo(log, from, st, visits, m, x)
  }

  /** Entry `from + x` is the answer to the event of visit `m + x`. */
  ghost predicate AnswerTo(log: seq<R.Entry>, from: nat, st: Stored, visits: seq<Visit>, m: nat, x: nat) {
    && from + x < |log| && m + x < |visits| && log[from + x].frame.isEvent
    && ServedBy(log[from + x], StoredRun(st, visits[..m + x]), visits[m + x])
  }

  /** A drain that reduces each number once goes by the numbers. */
  lemma DrainIsSorted(log: seq<R.Entry>, from: nat, held: seq<R.Frame>, j: nat, k: nat)
    requires Q.OnlyFrom(log, from, held) && Q.LowerFirst(log, from, held) && from <= j < k < |log|
    requires forall x, y :: from <= x < y < |log| ==> log[x].frame.eventId != log[y].frame.eventId
    ensures log[j].frame.eventId < log[k].frame.eventId
  {
    assert log[k].frame.eventId < log[j].frame.eventId ==> R.Ahead(held, log[k].frame, log[j].frame);
  }

  lemma ServedFence(x: R.Entry, st: Stored, v: Visit)
    requires x.frame.isEvent && ServedBy(x, st, v)
    ensures v.step.StepEvent? && v.step.ev.fence.lastEventId == x.frame.eventId
  {
    hide Told;
  }

  /**
   A drain that reduces each deferred event once applies them all, if each would land where the
   drain begins, a turn's end has the highest number, and no item comes twice: none is taken for a repeat.
   */
  lemma DrainedTogetherAreApplied(log: seq<R.Entry>, from: nat, held: seq<R.Frame>, st: Stored, visits: seq<Visit>, m: nat,
                                  evs: seq<Event>, j: nat)
    requires Q.OnlyFrom(log, from, held) && Q.LowerFirst(log, from, held) && from <= j < |log|
    requires forall x, y :: from <= x < y < |log| ==> log[x].frame.eventId != log[y].frame.eventId
    requires Good(st.catalog) && DrainServed(log, from, st, visits, m, evs)
    requires AllLand(StoredRun(st, visits[..m]).catalog, evs)
    requires forall x, y :: 0 <= x < |evs| && 0 <= y < |evs| && evs[x].fence.lastEventId < evs[y].fence.lastEventId ==>
      Compatible(evs[x], evs[y])
    ensures log[j].application.Applied?
  {
    hide StoredRun, Good, AllLand, Told, Compatible;
    forall x, y | 0 <= x < y < |evs| ensures Compatible(evs[x], evs[y]) {
      DrainIsSorted(log, from, held, from + x, from + y);
      assert AnswerTo(log, from, st, visits, m, x) && AnswerTo(log, from, st, visits, m, y);
      ServedFence(log[from + x], StoredRun(st, visits[..m + x]), visits[m + x]);
      ServedFence(log[from + y], StoredRun(st, visits[..m + y]), visits[m + y]);
    }
    var i := j - from;
    InOrderAllApplied(st, visits, m, evs, i);
    assert AnswerTo(log, from, st, visits, m, i);
  }
}
