/** The relay's data, its deferral queue, and the bookkeeping its acknowledgements answer to. */
module RelayBook {
  import opened Common

  datatype StreamKey = StreamKey(daemonInstanceId: string, targetId: string, generation: nat)

  datatype AgentKey = AgentKey(ownerKey: string, agentId: string)

  datatype FrameKind = Activity | Terminal | Accepted | Rejected(namesOperation: bool)
                     | InterruptResult | InterruptFailed | Reconciled

  /** A daemon event or receipt; a rejection belongs to no stream. */
  datatype Frame = Frame(isEvent: bool, agent: AgentKey, stream: Option<StreamKey>, eventId: nat, kind: FrameKind)

  // ----- Deferral -----

  const MAX_DEFERRED_PER_AGENT: nat := 128

  /** The identity replays are deduplicated by. It does not name the stream. */
  predicate SameIdentity(f: Frame, g: Frame) {
    f.isEvent == g.isEvent && f.eventId == g.eventId
  }

  predicate Holds(held: seq<Frame>, f: Frame) {
    exists i :: 0 <= i < |held| && SameIdentity(held[i], f)
  }

  predicate NoRepeats(held: seq<Frame>) {
    forall i, j :: 0 <= i < j < |held| ==> !SameIdentity(held[i], held[j])
  }

  /** The first activity, which is dropped before anything else. */
  function EvictionIndex(held: seq<Frame>): (i: nat)
    requires held != []
    ensures i < |held|
    ensures forall j :: 0 <= j < i ==> !held[j].kind.Activity?
    ensures held[i].kind.Activity? || (i == 0 && forall j :: 0 <= j < |held| ==> !held[j].kind.Activity?)
  {
    if held[0].kind.Activity? || |held| == 1 then 0
    else
      var rest := EvictionIndex(held[1..]);
      assert forall j :: 1 <= j < |held| ==> held[j] == held[1..][j - 1];
      if held[rest + 1].kind.Activity? then rest + 1 else 0
  }

  function Without(held: seq<Frame>, i: nat): (r: seq<Frame>)
    requires i < |held|
    ensures |r| == |held| - 1 && (forall f :: f in r ==> f in held)
    ensures NoRepeats(held) ==> NoRepeats(r)
  {
    held[..i] + held[i + 1..]
  }

  ghost predicate QueueOk(held: seq<Frame>, key: AgentKey) {
    |held| <= MAX_DEFERRED_PER_AGENT && NoRepeats(held) && forall f :: f in held ==> f.agent == key
  }

  /** A frame set aside for its agent: duplicates are ignored, an overfull queue sheds activity first. */
  function AfterDefer(held: seq<Frame>, f: Frame): (r: seq<Frame>)
    ensures forall g :: g in r ==> g in held || g == f
  {
    if Holds(held, f) then held
    else if |held| < MAX_DEFERRED_PER_AGENT then held + [f]
    else Without(held + [f], EvictionIndex(held + [f]))
  }

  lemma AfterDeferOk(held: seq<Frame>, f: Frame)
    requires QueueOk(held, f.agent)
    ensures QueueOk(AfterDefer(held, f), f.agent)
  {
    hide EvictionIndex, Without, SameIdentity;
    if !Holds(held, f) {
      NoRepeatAppended(held, f);
    }
  }

  lemma NoRepeatAppended(held: seq<Frame>, f: Frame)
    requires NoRepeats(held) && !Holds(held, f)
    ensures NoRepeats(held + [f])
  {
    hide SameIdentity;
  }

  method Deferred(held: seq<Frame>, f: Frame) returns (r: seq<Frame>)
    requires QueueOk(held, f.agent)
    ensures r == AfterDefer(held, f)
  {
    if Holds(held, f) {
      return held;
    }
    r := held + [f];
    while |r| > MAX_DEFERRED_PER_AGENT
      invariant r == held + [f] || (|held| == MAX_DEFERRED_PER_AGENT && r == AfterDefer(held, f))
      decreases |r|
    {
      r := Without(r, EvictionIndex(r));
    }
  }

  // ----- Frames that are set aside and yet not kept -----

  /** The event a frame carries. */
  function EventOf(f: Frame): (StreamKey, nat)
    requires f.stream.Some?
  {
    (f.stream.value, f.eventId)
  }

  predicate IsEventOf(f: Frame, e: (StreamKey, nat)) {
    f.stream == Some(e.0) && f.eventId == e.1
  }

  predicate HasFrame(held: seq<Frame>, e: (StreamKey, nat)) {
    exists i :: 0 <= i < |held| && IsEventOf(held[i], e)
  }

  /** A frame set aside is queued unless another of its identity is there already, or the full queue sheds it. */
  lemma DeferredFrameIsQueuedIff(held: seq<Frame>, f: Frame)
    requires QueueOk(held, f.agent)
    ensures f in AfterDefer(held, f) <==>
      || f in held
      || ((forall g :: g in held ==> g.isEvent != f.isEvent || g.eventId != f.eventId)
          && (|held| < 128 || EvictionIndex(held + [f]) < |held|))
  {
    hide EvictionIndex;
    assert forall g :: g in held && SameIdentity(g, f) ==> Holds(held, f);
    if !Holds(held, f) {
      assert SameIdentity(f, f) && f !in held;
      if |held| >= MAX_DEFERRED_PER_AGENT {
        var all, i := held + [f], EvictionIndex(held + [f]);
        assert all[|held|] == f;
        if i < |held| {
          assert (all[..i] + all[i + 1..])[|held| - 1] == f;
        } else {
          assert all[..i] + all[i + 1..] == held;
        }
      }
    }
  }

  /** Events that had a frame in the queue, or brought one, and have none left. */
  function LostBy(held: seq<Frame>, f: Frame): set<(StreamKey, nat)> {
    set g | g in held + [f] && g.stream.Some? && !HasFrame(AfterDefer(held, f), EventOf(g)) :: EventOf(g)
  }

  lemma DeferKeepsOrLoses(held: seq<Frame>, f: Frame, e: (StreamKey, nat))
    requires HasFrame(held, e) || IsEventOf(f, e)
    ensures HasFrame(AfterDefer(held, f), e) || e in LostBy(held, f)
  {
    hide AfterDefer;
    var all := held + [f];
    assert all[|held|] == f;
    if HasFrame(held, e) {
      var i :| 0 <= i < |held| && IsEventOf(held[i], e);
      assert all[i] == held[i] && all[i] in all && EventOf(all[i]) == e;
    } else {
      assert all[|held|] in all && EventOf(f) == e;
    }
  }

  /**
   Exactly when an event loses its last frame: it arrives while a frame of its identity but of
   another stream is queued, or its frame is the one a full queue sheds and no other carries it.
   */
  lemma LostIff(held: seq<Frame>, f: Frame, e: (StreamKey, nat))
    ensures e in LostBy(held, f) <==>
      if Holds(held, f) then IsEventOf(f, e) && !HasFrame(held, e)
      else
        && |held| >= MAX_DEFERRED_PER_AGENT
        && IsEventOf((held + [f])[EvictionIndex(held + [f])], e)
        && !HasFrame(Without(held + [f], EvictionIndex(held + [f])), e)
  {
    hide EvictionIndex, HasFrame, Holds;
    var all := held + [f];
    LostMeans(held, f, e);
    FrameOrFrame(held, f, e);
    if !Holds(held, f) && |held| >= MAX_DEFERRED_PER_AGENT {
      ShedOnly(all, EvictionIndex(all), e);
    }
  }

  lemma LostMeans(held: seq<Frame>, f: Frame, e: (StreamKey, nat))
    ensures e in LostBy(held, f) <==> HasFrame(held + [f], e) && !HasFrame(AfterDefer(held, f), e)
  {
    hide AfterDefer;
    var all := held + [f];
    if HasFrame(all, e) {
      var i :| 0 <= i < |all| && IsEventOf(all[i], e);
      assert all[i] in all && EventOf(all[i]) == e;
    }
    EveryFrameStays(all, e);
  }

  lemma FrameOrFrame(held: seq<Frame>, f: Frame, e: (StreamKey, nat))
    ensures HasFrame(held + [f], e) <==> HasFrame(held, e) || IsEventOf(f, e)
  {
    var all := held + [f];
    assert all[|held|] == f;
    if HasFrame(held, e) {
      var i :| 0 <= i < |held| && IsEventOf(held[i], e);
      assert all[i] == held[i];
    }
  }

  lemma ShedOnly(all: seq<Frame>, i: nat, e: (StreamKey, nat))
    requires i < |all|
    ensures HasFrame(all, e) <==> IsEventOf(all[i], e) || HasFrame(Without(all, i), e)
  {
    var rest := Without(all, i);
    if HasFrame(all, e) {
      var j :| 0 <= j < |all| && IsEventOf(all[j], e);
      if j != i {
        assert rest[if j < i then j else j - 1] == all[j];
      }
    }
    if HasFrame(rest, e) {
      var j :| 0 <= j < |rest| && IsEventOf(rest[j], e);
      assert rest[j] == all[if j < i then j else j + 1];
    }
  }

  lemma EveryFrameStays(all: seq<Frame>, e: (StreamKey, nat))
    ensures (exists g :: g in all && g.stream.Some? && EventOf(g) == e) ==> HasFrame(all, e)
  {
    if g :| g in all && g.stream.Some? && EventOf(g) == e {
      var i :| 0 <= i < |all| && all[i] == g;
      assert IsEventOf(all[i], e);
    }
  }

  /** The queue's identity ignores the stream: an event of another generation with the same number is lost on arrival. */
  lemma DeduplicationIgnoresTheStream(held: seq<Frame>, f: Frame, s: StreamKey)
    requires f in held && !HasFrame(held, (s, f.eventId))
    ensures var other := f.(stream := Some(s));
      AfterDefer(held, other) == held && LostBy(held, other) == {(s, f.eventId)}
  {
    var other := f.(stream := Some(s));
    var i :| 0 <= i < |held| && held[i] == f;
    assert SameIdentity(held[i], other);
    forall e ensures e in LostBy(held, other) <==> e == (s, f.eventId) {
      LostIff(held, other, e);
    }
  }

  ghost predicate EventOrdered(s: seq<Frame>) {
    forall i, j :: 0 <= i < j < |s| ==> s[i].eventId <= s[j].eventId
  }

  /** Insertion by event id, after equal ids. */
  function InsertByEvent(s: seq<Frame>, f: Frame): (r: seq<Frame>)
    ensures |r| == |s| + 1 && multiset(r) == multiset(s) + multiset{f}
  {
    if s == [] then [f]
    else
      var n := |s| - 1;
      assert s == s[..n] + [s[n]];
      if f.eventId < s[n].eventId then InsertByEvent(s[..n], f) + [s[n]] else s + [f]
  }

  lemma {:induction false} InsertStaysBelow(s: seq<Frame>, f: Frame, top: nat)
    requires f.eventId <= top && forall i :: 0 <= i < |s| ==> s[i].eventId <= top
    ensures forall i :: 0 <= i < |InsertByEvent(s, f)| ==> InsertByEvent(s, f)[i].eventId <= top
  {
    if s != [] {
      InsertStaysBelow(s[..|s| - 1], f, top);
    }
  }

  lemma {:induction false} InsertKeepsEventOrder(s: seq<Frame>, f: Frame)
    requires EventOrdered(s)
    ensures EventOrdered(InsertByEvent(s, f))
  {
    if s != [] {
      var n := |s| - 1;
      if f.eventId < s[n].eventId {
        InsertKeepsEventOrder(s[..n], f);
        InsertStaysBelow(s[..n], f, s[n].eventId);
      }
    }
  }

  /** Frames in event order. */
  function InEventOrder(s: seq<Frame>): (r: seq<Frame>)
    ensures |r| == |s| && multiset(r) == multiset(s) && EventOrdered(r)
  {
    if s == [] then []
    else
      assert s == s[..|s| - 1] + [s[|s| - 1]];
      var rest := InEventOrder(s[..|s| - 1]);
      InsertKeepsEventOrder(rest, s[|s| - 1]);
      InsertByEvent(rest, s[|s| - 1])
  }

  /** `g` is to be replayed before `h`: it has the lower number, or the same one and was queued earlier. */
  ghost predicate Ahead(held: seq<Frame>, g: Frame, h: Frame) {
    g in held && h in held && (g.eventId < h.eventId || (g.eventId == h.eventId && Precedes(held, g, h)))
  }

  lemma {:induction false} InsertAfterLower(s: seq<Frame>, f: Frame, g: Frame)
    requires EventOrdered(s) && g in s && g.eventId <= f.eventId
    ensures Precedes(InsertByEvent(s, f), g, f)
  {
    var n := |s| - 1;
    assert s == s[..n] + [s[n]];
    if f.eventId < s[n].eventId {
      assert g in s[..n];
      InsertAfterLower(s[..n], f, g);
      PrecedesMore(InsertByEvent(s[..n], f), s[n], g, f);
    } else {
      var i :| 0 <= i < |s| && s[i] == g;
      assert (s + [f])[i] == g && (s + [f])[|s|] == f;
    }
  }

  lemma {:induction false} InsertHolds(s: seq<Frame>, f: Frame, g: Frame)
    ensures g in InsertByEvent(s, f) <==> g in s || g == f
  {
    if s != [] {
      var n := |s| - 1;
      assert s == s[..n] + [s[n]];
      InsertHolds(s[..n], f, g);
    }
  }

  lemma {:induction false} InsertKeepsPrecedes(s: seq<Frame>, f: Frame, g: Frame, h: Frame)
    requires Precedes(s, g, h)
    ensures Precedes(InsertByEvent(s, f), g, h)
  {
    var n := |s| - 1;
    assert s == s[..n] + [s[n]];
    if f.eventId < s[n].eventId {
      var i, j :| 0 <= i < j < |s| && s[i] == g && s[j] == h;
      if j < n {
        assert s[..n][i] == g && s[..n][j] == h;
        InsertKeepsPrecedes(s[..n], f, g, h);
        PrecedesMore(InsertByEvent(s[..n], f), s[n], g, h);
      } else {
        InsertHolds(s[..n], f, g);
        assert s[..n][i] == g;
        var r := InsertByEvent(s[..n], f);
        var k :| 0 <= k < |r| && r[k] == g;
        assert (r + [s[n]])[k] == g && (r + [s[n]])[|r|] == h;
      }
    } else {
      PrecedesMore(s, f, g, h);
    }
  }

  lemma {:induction false} OrderHolds(s: seq<Frame>, g: Frame)
    ensures g in InEventOrder(s) <==> g in s
  {
    if s != [] {
      var n := |s| - 1;
      assert s == s[..n] + [s[n]];
      OrderHolds(s[..n], g);
      InsertHolds(InEventOrder(s[..n]), s[n], g);
    }
  }

  /** The sort is by number, and stable. */
  lemma {:induction false} OrderIsStable(s: seq<Frame>, g: Frame, h: Frame)
    requires Precedes(s, g, h) && g.eventId <= h.eventId
    ensures Precedes(InEventOrder(s), g, h)
  {
    var n := |s| - 1;
    assert s == s[..n] + [s[n]];
    var i, j :| 0 <= i < j < |s| && s[i] == g && s[j] == h;
    var r := InEventOrder(s[..n]);
    if j < n {
      assert s[..n][i] == g && s[..n][j] == h;
      OrderIsStable(s[..n], g, h);
      InsertKeepsPrecedes(r, s[n], g, h);
    } else {
      OrderHolds(s[..n], g);
      assert s[..n][i] == g;
      InsertAfterLower(r, s[n], g);
    }
  }

  /** What is to be replayed first stands first. */
  lemma AheadPrecedes(held: seq<Frame>, g: Frame, h: Frame)
    requires Ahead(held, g, h)
    ensures Precedes(InEventOrder(held), g, h)
  {
    hide InEventOrder;
    if g.eventId == h.eventId {
      OrderIsStable(held, g, h);
    } else {
      OrderHolds(held, g);
      OrderHolds(held, h);
      var r := InEventOrder(held);
      var i :| 0 <= i < |r| && r[i] == g;
      var j :| 0 <= j < |r| && r[j] == h;
      assert i < j;
    }
  }

  // ----- Streams -----

  /** One stream: the last acknowledged event, the highest one decided, and those held with whom they are held for. */
  datatype Progress = Progress(committedThrough: int, highestDecided: int, undecided: map<nat, AgentKey>)

  type Streams = map<StreamKey, Progress>

  /** One acknowledgement handed to the transport after `at` entries of the log, with the received events it covers. */
  datatype Ack = Ack(stream: StreamKey, through: int, delivered: bool, covered: set<(StreamKey, nat)>, at: nat)

  /** An event let go of because its agent was reconciled, after the first `at` entries of the log. */
  datatype Release = Release(agent: AgentKey, at: nat)

  /** What the service made of a frame. */
  datatype Application = Applied | Ignored | Failed | Reconcile(askable: bool)

  /** The frame is kept back: it may still be repaired. */
  predicate Repairable(a: Application) {
    a.Failed? || a == Reconcile(true)
  }

  datatype Entry = Entry(frame: Frame, application: Application)

  /**
   History of a relay: the frames reduced and their outcomes, what became of their events, which
   events lost their last deferred frame, and what was acknowledged.
   */
  datatype Book = Book(
    log: seq<Entry>, received: set<(StreamKey, nat)>, decided: set<(StreamKey, nat)>,
    released: map<(StreamKey, nat), Release>, lost: set<(StreamKey, nat)>, acks: seq<Ack>, everySendArrived: bool)

  // What the log says, independently of the relay's own fields.

  ghost predicate WasReceived(log: seq<Entry>, e: (StreamKey, nat)) {
    exists i :: 0 <= i < |log| && IsEventOf(log[i].frame, e)
  }

  ghost predicate WasDecided(log: seq<Entry>, e: (StreamKey, nat)) {
    exists i :: 0 <= i < |log| && IsEventOf(log[i].frame, e) && !Repairable(log[i].application)
  }

  ghost predicate WasHeld(log: seq<Entry>, e: (StreamKey, nat), key: AgentKey) {
    exists i :: 0 <= i < |log| && IsEventOf(log[i].frame, e) && Repairable(log[i].application) && log[i].frame.agent == key
  }

  /** An answer to a reconciliation request. */
  predicate AnswersReconciliation(f: Frame) {
    !f.isEvent && (f.kind.Reconciled? || f.kind == Rejected(false))
  }

  ghost predicate WasReconciled(log: seq<Entry>, key: AgentKey) {
    exists i :: 0 <= i < |log| && log[i].frame.agent == key && AnswersReconciliation(log[i].frame) && log[i].application.Applied?
  }

  /** The books say exactly what the log says; an event is released only for an agent it was held for and that was reconciled. */
  ghost predicate LogAgrees(streams: Streams, b: Book) {
    && (forall e :: e in b.received <==> WasReceived(b.log, e))
    && (forall e :: e in b.decided <==> WasDecided(b.log, e))
    && (forall s, n :: s in streams && n in streams[s].undecided ==> WasHeld(b.log, (s, n), streams[s].undecided[n]))
    && (forall e :: e in b.released ==>
         && WasHeld(b.log, e, b.released[e].agent) && WasReconciled(b.log, b.released[e].agent)
         && b.released[e].at <= |b.log|)
  }

  /** The received events an acknowledgement lets the daemon delete. */
  function Covered(b: Book, s: StreamKey, through: int): set<(StreamKey, nat)> {
    set e | e in b.received && e.0 == s && e.1 <= through
  }

  ghost predicate ProgressOk(s: StreamKey, p: Progress, b: Book) {
    && p.committedThrough >= -1 && p.highestDecided >= -1
    && (forall n :: n in p.undecided ==> (s, n) in b.received)
    && (forall n: nat :: (s, n) in b.received && (s, n) !in b.decided && (s, n) !in b.released ==> n in p.undecided)
    && (forall n: nat :: (s, n) in b.decided ==> n <= p.highestDecided)
    && (p.highestDecided >= 0 ==> (s, p.highestDecided as nat) in b.decided)
  }

  /** Acknowledgements reach no further than the highest decided event; those that arrived strictly increase per stream. */
  ghost predicate AcksOk(streams: Streams, acks: seq<Ack>) {
    && (forall i :: 0 <= i < |acks| ==>
         && acks[i].stream in streams
         && acks[i].through <= streams[acks[i].stream].highestDecided
         && (acks[i].delivered ==> acks[i].through <= streams[acks[i].stream].committedThrough))
    && (forall i, j | 0 <= i < j < |acks| && acks[i].stream == acks[j].stream ::
         acks[i].delivered && acks[j].delivered ==> acks[i].through < acks[j].through)
  }

  /** Whatever was acknowledged was decided or released. */
  ghost predicate AcksAccounted(b: Book) {
    forall i, e :: 0 <= i < |b.acks| && e in b.acks[i].covered ==> e in b.decided || e in b.released
  }

  /** Every received event is decided, released or still held, and the acknowledgements were in order. */
  ghost predicate BooksBalance(streams: Streams, b: Book) {
    && (forall s :: s in streams ==> ProgressOk(s, streams[s], b))
    && (forall e :: e in b.received ==> e.0 in streams)
    && b.decided <= b.received && b.released.Keys <= b.received
    && AcksOk(streams, b.acks) && AcksAccounted(b)
  }

  /** The watermark is not below min(highest decided, lowest held - 1). */
  ghost predicate CaughtUp(p: Progress) {
    p.highestDecided <= p.committedThrough || exists n :: n in p.undecided && n <= p.committedThrough + 1
  }

  ghost predicate AllCaughtUpBut(streams: Streams, b: Book, behind: set<StreamKey>) {
    b.everySendArrived ==> forall s :: s in streams && s !in behind ==> CaughtUp(streams[s])
  }

  /** min(highest decided, lowest held - 1) */
  ghost predicate IsThrough(p: Progress, t: int) {
    && t <= p.highestDecided && (forall n :: n in p.undecided ==> t < n)
    && (t == p.highestDecided || exists n :: n in p.undecided && t == n - 1)
  }

  method Through(p: Progress) returns (t: int)
    ensures IsThrough(p, t)
  {
    t := p.highestDecided;
    var todo := p.undecided.Keys;
    while todo != {}
      invariant t <= p.highestDecided && todo <= p.undecided.Keys
      invariant forall n :: n in p.undecided && n !in todo ==> t < n
      invariant t == p.highestDecided || exists n :: n in p.undecided && t == n - 1
      decreases |todo|
    {
      var n :| n in todo;
      if n - 1 < t {
        t := n - 1;
      }
      todo := todo - {n};
    }
  }

  // ----- How the books move -----

  lemma ProgressIgnoresAcks(s: StreamKey, p: Progress, p': Progress, b: Book, b': Book)
    requires ProgressOk(s, p, b) && p'.committedThrough >= -1
    requires p'.undecided == p.undecided && p'.highestDecided == p.highestDecided
    requires b'.received == b.received && b'.decided == b.decided && b'.released == b.released
    ensures ProgressOk(s, p', b')
  {
  }

  lemma ProgressAtLeast(streams: Streams, b: Book, s: StreamKey)
    requires BooksBalance(streams, b) && s in streams
    ensures streams[s].committedThrough >= -1
  {
  }

  /** Every received event at or below min(highest decided, lowest held - 1) is decided or released. */
  lemma AllAccounted(streams: Streams, b: Book, s: StreamKey, t: int)
    requires BooksBalance(streams, b) && s in streams && IsThrough(streams[s], t)
    ensures forall e :: e in Covered(b, s, t) ==> e in b.decided || e in b.released
  {
    assert ProgressOk(s, streams[s], b);
  }

  lemma AckAppended(streams: Streams, acks: seq<Ack>, s: StreamKey, t: int, arrived: bool, covered: set<(StreamKey, nat)>, at: nat)
    requires AcksOk(streams, acks) && s in streams && streams[s].committedThrough < t <= streams[s].highestDecided
    ensures AcksOk(if arrived then streams[s := streams[s].(committedThrough := t)] else streams,
                   acks + [Ack(s, t, arrived, covered, at)])
  {
  }

  lemma AckBalances(streams: Streams, b: Book, s: StreamKey, t: int, arrived: bool)
    requires BooksBalance(streams, b) && s in streams && IsThrough(streams[s], t) && t > streams[s].committedThrough
    requires AllCaughtUpBut(streams, b, {s})
    ensures
      var p := streams[s];
      var streams' := if arrived then streams[s := p.(committedThrough := t)] else streams;
      var b' := b.(acks := b.acks + [Ack(s, t, arrived, Covered(b, s, t), |b.log|)],
                   everySendArrived := b.everySendArrived && arrived);
      BooksBalance(streams', b') && AllCaughtUpBut(streams', b', {})
  {
    AllAccounted(streams, b, s, t);
    AckAppended(streams, b.acks, s, t, arrived, Covered(b, s, t), |b.log|);
    hide ProgressOk, Covered, AcksOk;
    var p' := streams[s].(committedThrough := t);
    var streams' := if arrived then streams[s := p'] else streams;
    var b' := b.(acks := b.acks + [Ack(s, t, arrived, Covered(b, s, t), |b.log|)],
                 everySendArrived := b.everySendArrived && arrived);
    assert p'.committedThrough >= -1 by { ProgressAtLeast(streams, b, s); }
    forall x | x in streams ensures ProgressOk(x, streams'[x], b') {
      ProgressAtLeast(streams, b, x);
      ProgressIgnoresAcks(x, streams[x], streams'[x], b, b');
    }
    assert CaughtUp(p');
  }

  // ----- Acknowledgements against the log -----

  /**
   An acknowledgement covers exactly the events of its stream received by then and no later than
   its mark, and an event at or past the mark had been decided by then.
   */
  ghost predicate AckTraced(log: seq<Entry>, k: Ack) {
    && k.at <= |log|
    && (forall e: (StreamKey, nat) :: e in k.covered <==> WasReceived(log[..k.at], e) && e.0 == k.stream && e.1 <= k.through)
    && exists n: nat :: n >= k.through && WasDecided(log[..k.at], (k.stream, n))
  }

  ghost predicate HasAck(acks: seq<Ack>, s: StreamKey, t: int) {
    exists i :: 0 <= i < |acks| && acks[i].stream == s && acks[i].delivered && acks[i].through == t
  }

  /** Every watermark is that of a delivered acknowledgement, and every acknowledgement answers to the log. */
  ghost predicate AcksTraced(streams: Streams, b: Book) {
    && (forall i :: 0 <= i < |b.acks| ==> AckTraced(b.log, b.acks[i]))
    && forall s :: s in streams && streams[s].committedThrough >= 0 ==> HasAck(b.acks, s, streams[s].committedThrough)
  }

  lemma TracedGrows(streams: Streams, streams': Streams, b: Book, b': Book)
    requires AcksTraced(streams, b) && b.log <= b'.log && b'.acks == b.acks
    requires forall s :: s in streams' ==>
      streams'[s].committedThrough < 0 || (s in streams && streams'[s].committedThrough == streams[s].committedThrough)
    ensures AcksTraced(streams', b')
  {
    hide WasReceived, WasDecided, HasAck;
    forall i | 0 <= i < |b'.acks| ensures AckTraced(b'.log, b'.acks[i]) {
      assert AckTraced(b.log, b.acks[i]);
      assert b'.log[..b.acks[i].at] == b.log[..b.acks[i].at];
    }
  }

  lemma TracedAck(streams: Streams, b: Book, s: StreamKey, t: int, arrived: bool)
    requires AcksTraced(streams, b) && BooksBalance(streams, b) && LogAgrees(streams, b)
    requires s in streams && IsThrough(streams[s], t) && t > streams[s].committedThrough
    ensures
      var streams' := if arrived then streams[s := streams[s].(committedThrough := t)] else streams;
      AcksTraced(streams', b.(acks := b.acks + [Ack(s, t, arrived, Covered(b, s, t), |b.log|)],
                              everySendArrived := b.everySendArrived && arrived))
  {
    hide WasReceived, WasDecided, WasHeld, WasReconciled, AcksOk, AcksAccounted;
    var k := Ack(s, t, arrived, Covered(b, s, t), |b.log|);
    var acks := b.acks + [k];
    assert b.log[..|b.log|] == b.log;
    assert ProgressOk(s, streams[s], b);
    assert WasDecided(b.log, (s, streams[s].highestDecided as nat));
    assert AckTraced(b.log, k);
    assert acks[|b.acks|] == k;
    forall x, m | HasAck(b.acks, x, m) ensures HasAck(acks, x, m) {
      var i :| 0 <= i < |b.acks| && b.acks[i].stream == x && b.acks[i].delivered && b.acks[i].through == m;
      assert acks[i] == b.acks[i];
    }
    assert arrived ==> HasAck(acks, s, t);
  }

  lemma NoAckNeeded(streams: Streams, b: Book, s: StreamKey, t: int)
    requires s in streams && IsThrough(streams[s], t) && t <= streams[s].committedThrough
    requires AllCaughtUpBut(streams, b, {s})
    ensures AllCaughtUpBut(streams, b, {})
  {
    assert CaughtUp(streams[s]);
  }

  const FRESH := Progress(-1, -1, map[])

  function ProgressOf(streams: Streams, s: StreamKey): Progress {
    if s in streams then streams[s] else FRESH
  }

  lemma HoldBalances(streams: Streams, b: Book, s: StreamKey, n: nat, key: AgentKey, log: seq<Entry>)
    requires BooksBalance(streams, b) && AllCaughtUpBut(streams, b, {})
    ensures
      var p := ProgressOf(streams, s);
      var streams' := streams[s := p.(undecided := p.undecided[n := key])];
      var b' := b.(log := log, received := b.received + {(s, n)});
      BooksBalance(streams', b') && AllCaughtUpBut(streams', b', {})
  {
    var p := ProgressOf(streams, s);
    var p' := p.(undecided := p.undecided[n := key]);
    assert CaughtUp(p) ==> CaughtUp(p') by {
      if CaughtUp(p) && p.highestDecided > p.committedThrough {
        var m :| m in p.undecided && m <= p.committedThrough + 1;
        assert m in p'.undecided;
      }
    }
  }

  lemma DecideElsewhere(x: StreamKey, p: Progress, b: Book, s: StreamKey, n: nat, log: seq<Entry>)
    requires ProgressOk(x, p, b) && x != s
    ensures ProgressOk(x, p, b.(log := log, received := b.received + {(s, n)}, decided := b.decided + {(s, n)}))
  {
  }

  lemma DecideHere(streams: Streams, b: Book, s: StreamKey, n: nat, log: seq<Entry>)
    requires BooksBalance(streams, b)
    ensures
      var p := ProgressOf(streams, s);
      var high := if n > p.highestDecided then n else p.highestDecided;
      ProgressOk(s, p.(undecided := p.undecided - {n}, highestDecided := high),
                 b.(log := log, received := b.received + {(s, n)}, decided := b.decided + {(s, n)}))
  {
    if s in streams {
      assert ProgressOk(s, streams[s], b);
    }
  }

  lemma DecideBalances(streams: Streams, b: Book, s: StreamKey, n: nat, log: seq<Entry>)
    requires BooksBalance(streams, b) && AllCaughtUpBut(streams, b, {})
    ensures
      var p := ProgressOf(streams, s);
      var high := if n > p.highestDecided then n else p.highestDecided;
      var streams' := streams[s := p.(undecided := p.undecided - {n}, highestDecided := high)];
      var b' := b.(log := log, received := b.received + {(s, n)}, decided := b.decided + {(s, n)});
      BooksBalance(streams', b') && AllCaughtUpBut(streams', b', {s})
  {
    var p := ProgressOf(streams, s);
    var high := if n > p.highestDecided then n else p.highestDecided;
    var streams' := streams[s := p.(undecided := p.undecided - {n}, highestDecided := high)];
    var b' := b.(log := log, received := b.received + {(s, n)}, decided := b.decided + {(s, n)});
    DecideHere(streams, b, s, n, log);
    hide ProgressOk;
    forall x | x in streams' ensures ProgressOk(x, streams'[x], b') {
      if x != s {
        DecideElsewhere(x, streams[x], b, s, n, log);
      }
    }
  }

  lemma BooksIgnoreLog(streams: Streams, b: Book, log: seq<Entry>)
    requires BooksBalance(streams, b) && AllCaughtUpBut(streams, b, {})
    ensures BooksBalance(streams, b.(log := log)) && AllCaughtUpBut(streams, b.(log := log), {})
  {
  }

  /** The events of stream `s` held for `key`. */
  function HeldFor(streams: Streams, s: StreamKey, key: AgentKey): set<nat>
    requires s in streams
  {
    set n | n in streams[s].undecided && streams[s].undecided[n] == key
  }

  /** The events of `gone`, released. */
  function Freed(s: StreamKey, gone: set<nat>, release: Release): (m: map<(StreamKey, nat), Release>)
    ensures forall e :: e in m <==> e.0 == s && e.1 in gone
    ensures forall e :: e in m ==> m[e] == release
  {
    var events := set n | n in gone :: (s, n);
    assert forall e: (StreamKey, nat) :: e.0 == s && e.1 in gone ==> e == (s, e.1);
    map e | e in events :: release
  }

  lemma ReleaseBalances(streams: Streams, b: Book, s: StreamKey, key: AgentKey)
    requires BooksBalance(streams, b) && AllCaughtUpBut(streams, b, {}) && s in streams
    ensures
      var p, gone := streams[s], HeldFor(streams, s, key);
      var streams' := streams[s := p.(undecided := p.undecided - gone)];
      var b' := b.(released := b.released + Freed(s, gone, Release(key, |b.log|)));
      BooksBalance(streams', b') && AllCaughtUpBut(streams', b', {s})
  {
  }

  // ----- The log and the books -----

  lemma LogSnoc(log: seq<Entry>, x: Entry)
    ensures forall e :: WasReceived(log + [x], e) <==> WasReceived(log, e) || IsEventOf(x.frame, e)
    ensures forall e :: WasDecided(log + [x], e) <==> WasDecided(log, e) || (IsEventOf(x.frame, e) && !Repairable(x.application))
    ensures forall e, k :: WasHeld(log, e, k) ==> WasHeld(log + [x], e, k)
    ensures forall e :: IsEventOf(x.frame, e) && Repairable(x.application) ==> WasHeld(log + [x], e, x.frame.agent)
    ensures forall k :: WasReconciled(log, k) ==> WasReconciled(log + [x], k)
    ensures AnswersReconciliation(x.frame) && x.application.Applied? ==> WasReconciled(log + [x], x.frame.agent)
  {
    var log' := log + [x];
    assert log'[|log|] == x;
    assert forall i :: 0 <= i < |log| ==> log'[i] == log[i];
  }

  lemma LogHold(streams: Streams, b: Book, s: StreamKey, n: nat, x: Entry)
    requires LogAgrees(streams, b) && IsEventOf(x.frame, (s, n)) && Repairable(x.application)
    ensures
      var p := ProgressOf(streams, s);
      LogAgrees(streams[s := p.(undecided := p.undecided[n := x.frame.agent])],
                b.(log := b.log + [x], received := b.received + {(s, n)}))
  {
    hide WasReceived, WasDecided, WasHeld, WasReconciled;
    LogSnoc(b.log, x);
  }

  lemma LogDecide(streams: Streams, b: Book, s: StreamKey, n: nat, x: Entry, high: int)
    requires LogAgrees(streams, b) && IsEventOf(x.frame, (s, n)) && !Repairable(x.application)
    ensures
      var p := ProgressOf(streams, s);
      LogAgrees(streams[s := p.(undecided := p.undecided - {n}, highestDecided := high)],
                b.(log := b.log + [x], received := b.received + {(s, n)}, decided := b.decided + {(s, n)}))
  {
    hide WasReceived, WasDecided, WasHeld, WasReconciled;
    LogSnoc(b.log, x);
  }

  lemma LogOther(streams: Streams, b: Book, x: Entry)
    requires LogAgrees(streams, b) && x.frame.stream.None?
    ensures LogAgrees(streams, b.(log := b.log + [x]))
  {
    hide WasReceived, WasDecided, WasHeld, WasReconciled;
    LogSnoc(b.log, x);
  }

  /** Watermarks and acknowledgements are not the log's business. */
  lemma LogIgnoresAcks(streams: Streams, streams': Streams, b: Book, b': Book)
    requires LogAgrees(streams, b) && b'.log == b.log && b'.received == b.received && b'.decided == b.decided
    requires b'.released == b.released && streams'.Keys == streams.Keys
    requires forall s :: s in streams ==> streams'[s].undecided == streams[s].undecided
    ensures LogAgrees(streams', b')
  {
    hide WasReceived, WasDecided, WasHeld, WasReconciled;
  }

  lemma LogRelease(streams: Streams, b: Book, s: StreamKey, key: AgentKey)
    requires LogAgrees(streams, b) && s in streams && WasReconciled(b.log, key)
    ensures
      var p, gone := streams[s], HeldFor(streams, s, key);
      LogAgrees(streams[s := p.(undecided := p.undecided - gone)],
                b.(released := b.released + Freed(s, gone, Release(key, |b.log|))))
  {
    hide WasReceived, WasDecided, WasHeld, WasReconciled;
  }

  // ----- Held events and their frames -----

  type Queues = map<AgentKey, seq<Frame>>

  function Held(deferred: Queues, key: AgentKey): seq<Frame> {
    if key in deferred then deferred[key] else []
  }

  /** Every event held for `key` has a frame among `frames`, or lost it. */
  ghost predicate FramesFor(streams: Streams, key: AgentKey, lost: set<(StreamKey, nat)>, frames: seq<Frame>) {
    forall s, n :: s in streams && n in streams[s].undecided && streams[s].undecided[n] == key ==>
      (s, n) in lost || HasFrame(frames, (s, n))
  }

  /** Every event held, but for those of `exempt`, has a deferred frame or lost it. */
  ghost predicate FramesKept(streams: Streams, deferred: Queues, lost: set<(StreamKey, nat)>, exempt: set<AgentKey>) {
    forall key :: key !in exempt ==> FramesFor(streams, key, lost, Held(deferred, key))
  }

  lemma FramesAfterDefer(streams: Streams, deferred: Queues, lost: set<(StreamKey, nat)>, f: Frame)
    requires FramesKept(streams, deferred, lost, {})
    ensures
      var held := Held(deferred, f.agent);
      var lost' := lost + LostBy(held, f);
      && FramesKept(streams, deferred[f.agent := AfterDefer(held, f)], lost', {})
      && (f.stream.Some? ==> EventOf(f) in lost' || HasFrame(AfterDefer(held, f), EventOf(f)))
  {
    hide AfterDefer, LostBy, HasFrame;
    var held := Held(deferred, f.agent);
    var deferred', lost' := deferred[f.agent := AfterDefer(held, f)], lost + LostBy(held, f);
    forall key ensures FramesFor(streams, key, lost', Held(deferred', key)) {
      assert FramesFor(streams, key, lost, Held(deferred, key));
      forall s, n | s in streams && n in streams[s].undecided && streams[s].undecided[n] == key
        ensures (s, n) in lost' || HasFrame(Held(deferred', key), (s, n))
      {
        if key == f.agent && (s, n) !in lost {
          DeferKeepsOrLoses(held, f, (s, n));
        }
      }
    }
    if f.stream.Some? {
      DeferKeepsOrLoses(held, f, EventOf(f));
    }
  }

  /** Letting go of events loses no frame. */
  lemma FramesOfFewer(streams: Streams, streams': Streams, deferred: Queues, lost: set<(StreamKey, nat)>, exempt: set<AgentKey>)
    requires FramesKept(streams, deferred, lost, exempt)
    requires forall s, n :: s in streams' && n in streams'[s].undecided ==>
      s in streams && n in streams[s].undecided && streams[s].undecided[n] == streams'[s].undecided[n]
    ensures FramesKept(streams', deferred, lost, exempt)
  {
    hide HasFrame;
    forall key | key !in exempt ensures FramesFor(streams', key, lost, Held(deferred, key)) {
      assert FramesFor(streams, key, lost, Held(deferred, key));
    }
  }

  lemma FramesAfterHold(streams: Streams, deferred: Queues, lost: set<(StreamKey, nat)>, s: StreamKey, n: nat, key: AgentKey)
    requires FramesKept(streams, deferred, lost, {})
    requires (s, n) in lost || HasFrame(Held(deferred, key), (s, n))
    ensures var p := ProgressOf(streams, s);
      FramesKept(streams[s := p.(undecided := p.undecided[n := key])], deferred, lost, {})
  {
    hide HasFrame;
    var p := ProgressOf(streams, s);
    var streams' := streams[s := p.(undecided := p.undecided[n := key])];
    forall k ensures FramesFor(streams', k, lost, Held(deferred, k)) {
      assert FramesFor(streams, k, lost, Held(deferred, k));
    }
  }

  lemma FramesForFewer(streams: Streams, streams': Streams, key: AgentKey, lost: set<(StreamKey, nat)>, frames: seq<Frame>)
    requires FramesFor(streams, key, lost, frames)
    requires forall s, n :: s in streams' && n in streams'[s].undecided ==>
      s in streams && n in streams[s].undecided && streams[s].undecided[n] == streams'[s].undecided[n]
    ensures FramesFor(streams', key, lost, frames)
  {
    hide HasFrame;
  }

  /** Taking an agent's queue away leaves the others', and its own frames in whatever order. */
  lemma FramesReordered(streams: Streams, deferred: Queues, key: AgentKey, lost: set<(StreamKey, nat)>, frames: seq<Frame>)
    requires FramesKept(streams, deferred, lost, {}) && forall g :: g in Held(deferred, key) ==> g in frames
    ensures FramesKept(streams, deferred - {key}, lost, {key}) && FramesFor(streams, key, lost, frames)
  {
    forall k | k != key ensures FramesFor(streams, k, lost, Held(deferred - {key}, k)) {
      assert FramesFor(streams, k, lost, Held(deferred, k));
    }
    var held := Held(deferred, key);
    assert FramesFor(streams, key, lost, held);
    forall e | HasFrame(held, e) ensures HasFrame(frames, e) {
      var i :| 0 <= i < |held| && IsEventOf(held[i], e);
      assert held[i] in frames;
      var j :| 0 <= j < |frames| && frames[j] == held[i];
      assert IsEventOf(frames[j], e);
    }
  }

  lemma NothingHeldIsFramed(streams: Streams, deferred: Queues, key: AgentKey, lost: set<(StreamKey, nat)>)
    requires FramesKept(streams, deferred, lost, {key}) && forall s :: s in streams ==> HeldFor(streams, s, key) == {}
    ensures FramesKept(streams, deferred, lost, {})
  {
    hide HasFrame;
    forall s, n | s in streams && n in streams[s].undecided ensures streams[s].undecided[n] != key {
      assert HeldFor(streams, s, key) == {};
      assert n !in HeldFor(streams, s, key);
    }
    forall k ensures FramesFor(streams, k, lost, Held(deferred, k)) {
      assert k != key ==> FramesFor(streams, k, lost, Held(deferred, k));
    }
  }

  lemma LostIsNotBalanced(streams: Streams, b: Book, lost: set<(StreamKey, nat)>)
    requires BooksBalance(streams, b) && AllCaughtUpBut(streams, b, {}) && LogAgrees(streams, b)
    ensures var b' := b.(lost := lost);
      BooksBalance(streams, b') && AllCaughtUpBut(streams, b', {}) && LogAgrees(streams, b')
  {
    hide WasReceived, WasDecided, WasHeld, WasReconciled;
  }

  /** Events not carried by `f` that were held still are, for the same agent. */
  ghost predicate HoldsKept(streams: Streams, streams': Streams, f: Frame) {
    forall s, n :: s in streams && n in streams[s].undecided && !IsEventOf(f, (s, n)) ==>
      s in streams' && n in streams'[s].undecided && streams'[s].undecided[n] == streams[s].undecided[n]
  }

  /** What is held for `key` was held for it before, or came in with an entry of the log from `from` on. */
  ghost predicate HeldSince(streams: Streams, streams': Streams, key: AgentKey, log: seq<Entry>, from: nat) {
    forall s, n :: s in streams' && n in HeldFor(streams', s, key) ==>
      (s in streams && n in HeldFor(streams, s, key)) || ReducedAgain(log, from, (s, n))
  }

  // ----- Released events are reduced again -----

  ghost predicate ReducedAgain(log: seq<Entry>, from: nat, e: (StreamKey, nat)) {
    exists i :: from <= i < |log| && IsEventOf(log[i].frame, e)
  }

  /** Released in `b'` and not already so in `b`. */
  ghost predicate NewlyReleased(b: Book, b': Book, e: (StreamKey, nat)) {
    e in b'.released && !(e in b.released && b.released[e] == b'.released[e])
  }

  /** Whatever was released since `b` was reduced again after its release, lost its frame, or is still among `rest`. */
  ghost predicate RedoneBut(b: Book, b': Book, rest: seq<Frame>) {
    forall e :: NewlyReleased(b, b', e) ==>
      e in b'.lost || ReducedAgain(b'.log, b'.released[e].at, e) || HasFrame(rest, e)
  }

  /** Every released event was reduced again after its release, or had lost its last deferred frame. */
  ghost predicate AllRedone(b: Book) {
    forall e :: e in b.released ==> e in b.lost || ReducedAgain(b.log, b.released[e].at, e)
  }

  /** The history only grows. */
  ghost predicate Grows(b: Book, b': Book) {
    && b.log <= b'.log && b.received <= b'.received && b.decided <= b'.decided && b.released.Keys <= b'.released.Keys
    && (forall e :: NewlyReleased(b, b', e) ==> b'.released[e].at >= |b.log|)
    && b.lost <= b'.lost && b.acks <= b'.acks
    && (b'.everySendArrived ==> b.everySendArrived)
  }

  lemma GrowsThen(b: Book, b': Book, b'': Book)
    requires Grows(b, b') && Grows(b', b'')
    ensures Grows(b, b'') && b'.released.Keys <= b''.released.Keys && b'.log <= b''.log && b.log <= b'.log
  {
  }

  lemma GrowsNot(b: Book)
    ensures Grows(b, b)
  {
  }

  lemma StillAgain(b: Book, b': Book, from: nat, e: (StreamKey, nat))
    requires b.log <= b'.log && ReducedAgain(b.log, from, e)
    ensures ReducedAgain(b'.log, from, e)
  {
    var i :| from <= i < |b.log| && IsEventOf(b.log[i].frame, e);
    assert b'.log[i] == b.log[i];
  }

  lemma RedoneThen(b: Book, b': Book, b'': Book, rest: seq<Frame>)
    requires RedoneBut(b, b', rest) && RedoneBut(b', b'', []) && Grows(b', b'')
    ensures RedoneBut(b, b'', rest)
  {
    hide ReducedAgain;
    forall e | NewlyReleased(b, b'', e)
      ensures e in b''.lost || ReducedAgain(b''.log, b''.released[e].at, e) || HasFrame(rest, e)
    {
      if !NewlyReleased(b', b'', e) && ReducedAgain(b'.log, b'.released[e].at, e) {
        StillAgain(b', b'', b'.released[e].at, e);
      }
    }
  }

  /** Reducing the first of the outstanding frames again. */
  lemma RedoneNext(b: Book, b': Book, b'': Book, rest: seq<Frame>)
    requires rest != [] && RedoneBut(b, b', rest) && RedoneBut(b', b'', []) && Grows(b', b'')
    requires |b''.log| > |b'.log| && b''.log[|b'.log|].frame == rest[0]
    requires forall e :: e in b'.released ==> b'.released[e].at <= |b'.log|
    ensures RedoneBut(b, b'', rest[1..])
  {
    RedoneThen(b, b', b'', rest);
    forall e | NewlyReleased(b, b'', e)
      ensures e in b''.lost || ReducedAgain(b''.log, b''.released[e].at, e) || HasFrame(rest[1..], e)
    {
      if !NewlyReleased(b', b'', e) && HasFrame(rest, e) {
        var i :| 0 <= i < |rest| && IsEventOf(rest[i], e);
        if i > 0 {
          assert rest[1..][i - 1] == rest[i];
        }
      }
    }
  }

  lemma RedoneForAll(b: Book, b': Book)
    requires AllRedone(b) && RedoneBut(b, b', []) && Grows(b, b')
    ensures AllRedone(b')
  {
    hide ReducedAgain;
    forall e | e in b'.released ensures e in b'.lost || ReducedAgain(b'.log, b'.released[e].at, e) {
      if !NewlyReleased(b, b', e) && ReducedAgain(b.log, b.released[e].at, e) {
        StillAgain(b, b', b.released[e].at, e);
      }
    }
  }

  lemma NothingReleased(b: Book, b': Book, rest: seq<Frame>)
    requires b'.released == b.released
    ensures RedoneBut(b, b', rest)
  {
  }

  /** What is released for an agent has its frame among those about to be replayed, or lost it. */
  lemma ReleaseIsRedone(start: Book, streams: Streams, b: Book, s: StreamKey, key: AgentKey, frames: seq<Frame>)
    requires s in streams && FramesFor(streams, key, b.lost, frames) && RedoneBut(start, b, frames)
    ensures RedoneBut(start, b.(released := b.released + Freed(s, HeldFor(streams, s, key), Release(key, |b.log|))), frames)
  {
    hide HasFrame, ReducedAgain;
    var freed := Freed(s, HeldFor(streams, s, key), Release(key, |b.log|));
    var b' := b.(released := b.released + freed);
    forall e | NewlyReleased(start, b', e)
      ensures e in b'.lost || ReducedAgain(b'.log, b'.released[e].at, e) || HasFrame(frames, e)
    {
      if e in freed {
        assert e == (s, e.1) && e.1 in streams[s].undecided;
      } else {
        assert NewlyReleased(start, b, e);
      }
    }
  }

  lemma ReleasedInTime(streams: Streams, b: Book)
    requires LogAgrees(streams, b)
    ensures forall e :: e in b.released ==> b.released[e].at <= |b.log|
  {
  }

  /**
   Every event an acknowledgement let the daemon delete was decided, or was reduced again after its
   release, or had lost its last deferred frame to a frame of another stream or to a full queue.
   */
  ghost predicate EveryAckAnswered(b: Book) {
    forall i, e :: 0 <= i < |b.acks| && e in b.acks[i].covered ==>
      e in b.decided || e in b.lost || (e in b.released && ReducedAgain(b.log, b.released[e].at, e))
  }

  lemma AcksAreAnswered(streams: Streams, b: Book)
    requires BooksBalance(streams, b) && AllRedone(b)
    ensures EveryAckAnswered(b)
  {
    hide ReducedAgain;
    assert AcksAccounted(b);
  }

  /** `f` was reduced after the first `from` entries of the log. */
  ghost predicate ReducedSince(log: seq<Entry>, from: nat, f: Frame) {
    exists i :: from <= i < |log| && log[i].frame == f
  }
}
