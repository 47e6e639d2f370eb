/** The relay: it reduces daemon frames and acknowledges a stream only through what is accounted for. */
module CodexRelay {
  import opened Common
  import opened RelayBook

  const RECONCILE_GUARD_MS: nat := 300000

  ghost predicate QueuesOk(deferred: Queues) {
    forall k :: k in deferred ==> QueueOk(deferred[k], k)
  }

  /** Only the queue of `key` may change, and only by frames it held or the frames in `extra`. */
  ghost predicate QueuesKept(d: Queues, d': Queues, key: AgentKey, extra: set<Frame>) {
    && (forall k :: k != key ==> Held(d', k) == Held(d, k))
    && (forall g :: g in Held(d', key) ==> g in Held(d, key) || g in extra)
  }

  class Relay {
    var streams: Streams
    var deferred: Queues
    var reconciling: map<AgentKey, nat>
    const transportUp: bool
    ghost var book: Book

    /** With `transportUp` no send ever fails. */
    constructor (transportUp: bool)
      ensures Valid() && book == Book([], {}, {}, map[], {}, [], true) && AllRedone(book)
      ensures deferred == map[] && reconciling == map[] && this.transportUp == transportUp
    {
      streams, deferred, reconciling := map[], map[], map[];
      this.transportUp := transportUp;
      book := Book([], {}, {}, map[], {}, [], true);
    }

    /**
     Every received event is decided, released or held; every acknowledgement covered only decided
     or released events; those that arrived increase per stream; the queues are bounded and free of
     repeats; every held event still has its frame queued or lost it; and while every send arrives
     no stream lags behind what it could acknowledge. Watermarks and acknowledgements answer to the log.
     */
    ghost predicate Valid()
      reads this
    {
      Balanced() && FramesKept(streams, deferred, book.lost, {})
    }

    ghost predicate Balanced()
      reads this
    {
      && BooksBalance(streams, book) && AllCaughtUpBut(streams, book, {})
      && LogAgrees(streams, book) && AcksTraced(streams, book) && QueuesOk(deferred)
      && (transportUp ==> book.everySendArrived)
    }

    // The service, the transport and the clock answer as they like.

    method Apply(f: Frame) returns (application: Application) {
      application := *;
    }

    method SendToHost() returns (sent: bool)
      ensures transportUp ==> sent
    {
      sent := *;
      sent := transportUp || sent;
    }

    method Now() returns (now: nat) {
      now := *;
    }

    /**
     One host message. Afterwards every event an acknowledgement covers was decided, or reduced
     again after its release, or had lost its deferred frame.
     */
    method HandleFrame(f: Frame)
      requires Valid() && AllRedone(book)
      modifies this
      ensures Valid() && AllRedone(book) && EveryAckAnswered(book) && Grows(old(book), book)
      ensures |book.log| > |old(book).log| && book.log[|old(book).log|].frame == f
    {
      hide AcksTraced, BooksBalance, AllCaughtUpBut, LogAgrees, FramesKept, QueuesOk, AllRedone, RedoneBut;
      Reduce(f);
      RedoneForAll(old(book), book);
      AcksAreAnswered(streams, book);
    }

    /** A hello drops outstanding guards and asks again for exactly the askable agents that are `stale` or have held frames. */
    method OnHello(agents: seq<AgentKey>, stale: set<AgentKey>, askable: set<AgentKey>) returns (ghost asked: set<AgentKey>)
      requires Valid()
      modifies this`reconciling
      ensures Valid()
      ensures forall k :: k in asked <==> k in agents && k in askable && (k in stale || k in deferred)
      ensures reconciling.Keys <= asked
    {
      hide AcksTraced, BooksBalance, AllCaughtUpBut, LogAgrees, FramesKept, QueuesOk;
      reconciling, asked := map[], {};
      for i := 0 to |agents|
        invariant Valid() && reconciling.Keys <= asked
        invariant forall k :: k in asked <==> k in agents[..i] && k in askable && (k in stale || k in deferred)
      {
        assert agents[..i + 1] == agents[..i] + [agents[i]];
        if agents[i] in stale || agents[i] in deferred {
          ghost var now', sent', at := RequestReconciliation(agents[i], agents[i] in askable);
          if now' {
            asked := asked + {agents[i]};
          }
        }
      }
      assert agents[..|agents|] == agents;
    }

    /** One frame, event or receipt. */
    method Reduce(f: Frame)
      requires Valid()
      modifies this
      ensures Valid() && Grows(old(book), book) && QueuesKept(old(deferred), deferred, f.agent, {f})
      ensures |book.log| > |old(book).log| && book.log[|old(book).log|].frame == f
      ensures RedoneBut(old(book), book, []) && OnlyFrom(book.log, |old(book).log| + 1, Held(old(deferred), f.agent))
      ensures HeldSince(old(streams), streams, f.agent, book.log, |old(book).log|)
      decreases |Held(deferred, f.agent)|, 3
    {
      hide AcksTraced, BooksBalance, AllCaughtUpBut, QueuesOk, LogAgrees, FramesKept, RedoneBut, HeldSince;
      if f.isEvent {
        ReduceEvent(f);
      } else {
        ReduceReceipt(f);
      }
    }

    method ReduceEvent(f: Frame)
      requires Valid()
      modifies this
      ensures Valid() && Grows(old(book), book) && QueuesKept(old(deferred), deferred, f.agent, {f})
      ensures |book.log| == |old(book).log| + 1 && book.log[|old(book).log|].frame == f
      ensures book.released == old(book).released && RedoneBut(old(book), book, [])
      ensures HeldSince(old(streams), streams, f.agent, book.log, |old(book).log|)
    {
      hide HeldSince, HoldsKept;
      var application := Apply(f);
      Settle(f, application);
      NothingReleased(old(book), book, []);
    }

    method ReduceReceipt(f: Frame)
      requires Valid() && !f.isEvent
      modifies this
      ensures Valid() && Grows(old(book), book) && QueuesKept(old(deferred), deferred, f.agent, {f})
      ensures |book.log| > |old(book).log| && book.log[|old(book).log|].frame == f
      ensures RedoneBut(old(book), book, []) && OnlyFrom(book.log, |old(book).log| + 1, Held(old(deferred), f.agent))
      ensures HeldSince(old(streams), streams, f.agent, book.log, |old(book).log|)
      decreases |Held(deferred, f.agent)|, 2
    {
      hide AcksTraced, BooksBalance, AllCaughtUpBut, QueuesOk, LogAgrees, FramesKept, RedoneBut, HeldSince, OnlyFrom;
      var application := Apply(f);
      ReduceReceiptAs(f, application);
    }

    /**
     A receipt the service made `application` of. An applied answer to an outstanding reconciliation
     releases what is held for its agent and reduces again exactly what has a deferred frame; any
     other receipt is one step that releases nothing.
     */
    method ReduceReceiptAs(f: Frame, application: Application)
      requires Valid() && !f.isEvent
      modifies this
      ensures Valid() && Grows(old(book), book) && QueuesKept(old(deferred), deferred, f.agent, {f})
      ensures |book.log| > |old(book).log| && book.log[|old(book).log|] == Entry(f, application)
      ensures RedoneBut(old(book), book, []) && OnlyFrom(book.log, |old(book).log| + 1, Held(old(deferred), f.agent))
      ensures HeldSince(old(streams), streams, f.agent, book.log, |old(book).log|)
      ensures
        if application.Applied? && (f.kind.Reconciled? || f.kind == Rejected(false)) && f.agent in old(reconciling) then
          && (forall g :: g in Held(old(deferred), f.agent) ==> ReducedSince(book.log, |old(book).log| + 1, g))
          && LowerFirst(book.log, |old(book).log| + 1, Held(old(deferred), f.agent))
          && (forall s, n :: s in streams && n in HeldFor(streams, s, f.agent) ==> ReducedAgain(book.log, |old(book).log| + 1, (s, n)))
          && (forall s, n | s in old(streams) && n in HeldFor(old(streams), s, f.agent) && !IsEventOf(f, (s, n)) ::
               && (s, n) in book.released && book.released[(s, n)].at > |old(book).log|
               && (ReducedAgain(book.log, |old(book).log| + 1, (s, n)) <==> HasFrame(Held(old(deferred), f.agent), (s, n))))
        else
          && |book.log| == |old(book).log| + 1 && book.released == old(book).released
          && (f.kind.Reconciled? || f.kind == Rejected(false) ==> f.agent !in reconciling)
      decreases |Held(deferred, f.agent)|, 1
    {
      hide AcksTraced, BooksBalance, AllCaughtUpBut, QueuesOk, LogAgrees, WasReconciled, FramesKept, RedoneBut;
      hide HeldFor, ReducedAgain, HasFrame, LostBy, AfterDefer, LowerFirst;
      Settle(f, application);
      NothingReleased(old(book), book, []);
      if f.kind.Rejected? && f.kind.namesOperation {
        return;
      }
      if !f.kind.Reconciled? && !f.kind.Rejected? {
        return;
      }
      if f.agent !in reconciling {
        return;
      }
      reconciling := reconciling - {f.agent};
      if !application.Applied? {
        return;
      }
      LogSnoc(old(book).log, Entry(f, application));
      ghost var settled, held := book, streams;
      DrainDeferred(f.agent);
      RedoneThen(old(book), settled, book, []);
      StillHeld(old(streams), held, f, f.agent);
      AgainSooner(book.log, |old(book).log|);
    }

    /** Books one outcome: a repairable frame is set aside and its event held, any other decides its event. */
    method Settle(f: Frame, application: Application)
      requires Valid()
      modifies this
      ensures Valid() && Grows(old(book), book) && QueuesKept(old(deferred), deferred, f.agent, {f})
      ensures book.log == old(book).log + [Entry(f, application)] && book.released == old(book).released
      ensures deferred == if application.Failed? || application == Reconcile(true)
        then old(deferred)[f.agent := AfterDefer(Held(old(deferred), f.agent), f)] else old(deferred)
      ensures book.lost == old(book).lost + if Repairable(application) then LostBy(Held(old(deferred), f.agent), f) else {}
      ensures !application.Reconcile? ==> reconciling == old(reconciling)
      ensures transportUp && application == Reconcile(true) ==> f.agent in reconciling
      ensures HoldsKept(old(streams), streams, f) && HeldSince(old(streams), streams, f.agent, book.log, |old(book).log|)
      ensures f.stream.Some? ==>
        f.stream.value in streams &&
        (f.eventId in streams[f.stream.value].undecided <==> application.Failed? || application == Reconcile(true))
    {
      hide AcksTraced, BooksBalance, AllCaughtUpBut, QueuesOk, LogAgrees, FramesKept, LostBy, AfterDefer, HasFrame, HoldsKept, HeldSince;
      if Repairable(application) {
        Defer(f);
        if application.Reconcile? {
          ghost var asked, sent, now := RequestReconciliation(f.agent, application.askable);
        }
      }
      if f.stream.Some? {
        Advance(f.stream.value, f.eventId, f.agent, Repairable(application), Entry(f, application));
      } else {
        BooksIgnoreLog(streams, book, book.log + [Entry(f, application)]);
        LogOther(streams, book, Entry(f, application));
        ghost var before := book;
        book := book.(log := book.log + [Entry(f, application)]);
        TracedGrows(streams, streams, before, book);
        HoldsUnmoved(streams, f, book.log, |old(book).log|);
      }
    }

    method Advance(s: StreamKey, n: nat, key: AgentKey, hold: bool, ghost x: Entry)
      requires Valid() && IsEventOf(x.frame, (s, n)) && x.frame.agent == key && hold == Repairable(x.application)
      requires hold ==> (s, n) in book.lost || HasFrame(Held(deferred, key), (s, n))
      modifies this`streams, this`book
      ensures Valid() && Grows(old(book), book)
      ensures book.log == old(book).log + [x] && book.released == old(book).released && book.lost == old(book).lost
      ensures s in streams && (n in streams[s].undecided <==> hold)
      ensures HoldsKept(old(streams), streams, x.frame) && HeldSince(old(streams), streams, key, book.log, |old(book).log|)
    {
      hide AcksTraced, BooksBalance, AllCaughtUpBut, QueuesOk, LogAgrees, FramesKept, HasFrame, HoldsKept, HeldSince, HeldFor, Grows;
      var p := ProgressOf(streams, s);
      if hold {
        FramesAfterHold(streams, deferred, book.lost, s, n, key);
        HoldBalances(streams, book, s, n, key, book.log + [x]);
        LogHold(streams, book, s, n, x);
        streams := streams[s := p.(undecided := p.undecided[n := key])];
        book := book.(log := book.log + [x], received := book.received + {(s, n)});
        TracedGrows(old(streams), streams, old(book), book);
        HoldMoves(old(streams), streams, s, n, key, x, book.log, |old(book).log|);
        LogGrows(old(book), book);
        return;
      }
      var high := if n > p.highestDecided then n else p.highestDecided;
      DecideBalances(streams, book, s, n, book.log + [x]);
      LogDecide(streams, book, s, n, x, high);
      streams := streams[s := p.(undecided := p.undecided - {n}, highestDecided := high)];
      book := book.(log := book.log + [x], received := book.received + {(s, n)}, decided := book.decided + {(s, n)});
      TracedGrows(old(streams), streams, old(book), book);
      Acknowledge(s);
      FramesOfFewer(old(streams), streams, deferred, book.lost, {});
      HoldMoves(old(streams), streams, s, n, key, x, book.log, |old(book).log|);
      LogGrows(old(book), book);
    }

    /** Acknowledges through min(highest decided, lowest held - 1) when that is news. */
    method Acknowledge(s: StreamKey)
      requires BooksBalance(streams, book) && AllCaughtUpBut(streams, book, {s}) && LogAgrees(streams, book) && s in streams
      requires AcksTraced(streams, book) && (transportUp ==> book.everySendArrived)
      modifies this`streams, this`book
      ensures BooksBalance(streams, book) && AllCaughtUpBut(streams, book, {}) && LogAgrees(streams, book)
      ensures AcksTraced(streams, book) && (transportUp ==> book.everySendArrived)
      ensures book.log == old(book.log) && book.received == old(book.received) && book.decided == old(book.decided) && book.released == old(book.released) && book.lost == old(book.lost)
      ensures old(book.acks) <= book.acks && (book.everySendArrived ==> old(book.everySendArrived))
      ensures streams.Keys == old(streams.Keys) && forall k :: k in streams ==> streams[k].undecided == old(streams)[k].undecided
    {
      hide AcksTraced, BooksBalance, AllCaughtUpBut, LogAgrees, Covered;
      ghost var streams0, book0 := streams, book;
      var p := streams[s];
      var through := Through(p);
      if through <= p.committedThrough {
        NoAckNeeded(streams, book, s, through);
        return;
      }
      var sent := SendToHost();
      AckBalances(streams, book, s, through, sent);
      TracedAck(streams, book, s, through, sent);
      book := book.(acks := book.acks + [Ack(s, through, sent, Covered(book, s, through), |book.log|)],
                    everySendArrived := book.everySendArrived && sent);
      if sent {
        streams := streams[s := p.(committedThrough := through)];
      }
      LogIgnoresAcks(streams0, streams, book0, book);
    }

    method Defer(f: Frame)
      requires Valid()
      modifies this`deferred, this`book
      ensures Valid() && QueuesKept(old(deferred), deferred, f.agent, {f})
      ensures deferred == old(deferred)[f.agent := AfterDefer(Held(old(deferred), f.agent), f)]
      ensures book == old(book).(lost := old(book).lost + LostBy(Held(old(deferred), f.agent), f))
      ensures f.stream.Some? ==> EventOf(f) in book.lost || HasFrame(Held(deferred, f.agent), EventOf(f))
    {
      hide AcksTraced, FramesKept, LostBy, HasFrame;
      AfterDeferOk(Held(deferred, f.agent), f);
      FramesAfterDefer(streams, deferred, book.lost, f);
      LostIsNotBalanced(streams, book, book.lost + LostBy(Held(deferred, f.agent), f));
      var held := Deferred(Held(deferred, f.agent), f);
      book := book.(lost := book.lost + LostBy(Held(deferred, f.agent), f));
      TracedGrows(streams, streams, old(book), book);
      deferred := deferred[f.agent := held];
    }

    /** Reconciliation supersedes everything held for the agent; its frames are then replayed in event order. */
    method DrainDeferred(key: AgentKey)
      requires Valid() && WasReconciled(book.log, key)
      modifies this
      ensures Valid() && Grows(old(book), book) && QueuesKept(old(deferred), deferred, key, {})
      ensures forall g :: g in Held(old(deferred), key) ==> ReducedSince(book.log, |old(book).log|, g)
      ensures RedoneBut(old(book), book, []) && OnlyFrom(book.log, |old(book).log|, Held(old(deferred), key))
      ensures LowerFirst(book.log, |old(book).log|, Held(old(deferred), key))
      ensures forall s, n | s in old(streams) && n in HeldFor(old(streams), s, key) ::
        && (s, n) in book.released && book.released[(s, n)].at >= |old(book).log|
        && (ReducedAgain(book.log, |old(book).log|, (s, n)) <==> HasFrame(Held(old(deferred), key), (s, n)))
      ensures forall s, n :: s in streams && n in HeldFor(streams, s, key) ==> ReducedAgain(book.log, |old(book).log|, (s, n))
      decreases |Held(deferred, key)|, 0
    {
      hide AcksTraced, BooksBalance, AllCaughtUpBut, QueueOk, InEventOrder, ReplayOrder, InOrderSoFar, LogAgrees, WasReconciled, FramesKept, FramesFor;
      hide RedoneBut, HeldFor, ReducedSince, ReducedAgain, OnlyFrom, LowerFirst, Grows, Replaying, HeldSince;
      var frames := InEventOrder(Held(deferred, key));
      ReplayIsTheQueue(deferred, key);
      FramesReordered(streams, deferred, key, book.lost, frames);
      deferred := deferred - {key};
      ReleaseAll(key, frames);
      ReplayStarts(old(streams), old(book), streams, book, key, frames);
      OrderStarts(book.log, Held(old(deferred), key), frames);
      for i := 0 to |frames|
        invariant Valid() && QueuesKept(old(deferred), deferred, key, {})
        invariant forall g :: g in Held(deferred, key) ==> g in frames[..i]
        invariant Replaying(old(streams), old(book), streams, book, key, frames, i)
        invariant InOrderSoFar(book.log, |old(book).log|, Held(old(deferred), key), frames, i)
      {
        ghost var streams1, book1, queued := streams, book, Held(deferred, key);
        ReleasedInTime(streams, book);
        AlreadyReplayed(deferred, key, frames[..i]);
        Reduce(frames[i]);
        assert frames[..i + 1] == frames[..i] + [frames[i]];
        ReplayStep(old(streams), old(book), streams1, book1, streams, book, key, frames, i, queued);
        OrderStep(book1.log, book.log, |old(book).log|, Held(old(deferred), key), frames, i, queued);
      }
      SoFarIsLowerFirst(book.log, |old(book).log|, Held(old(deferred), key), frames);
      ReplayEnds(old(streams), old(book), streams, book, key, frames, Held(old(deferred), key));
    }

    /** Releases what is held for `key`, stream by stream, and acknowledges what that frees. */
    method ReleaseAll(key: AgentKey, ghost frames: seq<Frame>)
      requires Balanced() && WasReconciled(book.log, key)
      requires FramesKept(streams, deferred, book.lost, {key}) && FramesFor(streams, key, book.lost, frames)
      modifies this`streams, this`book
      ensures Valid() && Grows(old(book), book) && book.log == old(book).log && RedoneBut(old(book), book, frames)
      ensures forall s :: s in streams ==> HeldFor(streams, s, key) == {}
      ensures ReleasedAll(old(streams), key, book, |old(book).log|)
    {
      hide AcksTraced, BooksBalance, AllCaughtUpBut, QueuesOk, HeldFor, LogAgrees, WasReconciled, FramesKept, FramesFor, RedoneBut, Grows;
      NothingReleased(book, book, frames);
      GrowsNot(book);
      var todo := streams.Keys;
      while todo != {}
        invariant Balanced() && Grows(old(book), book) && book.log == old(book).log && todo <= streams.Keys == old(streams).Keys
        invariant FramesKept(streams, deferred, book.lost, {key}) && FramesFor(streams, key, book.lost, frames)
        invariant RedoneBut(old(book), book, frames)
        invariant forall s :: s in streams && s !in todo ==> HeldFor(streams, s, key) == {}
        invariant forall s :: s in todo ==> HeldFor(streams, s, key) == HeldFor(old(streams), s, key)
        invariant forall s, n :: s in streams && s !in todo && n in HeldFor(old(streams), s, key) ==>
          ReleasedFrom(book, (s, n), |book.log|)
        decreases |todo|
      {
        var s :| s in todo;
        todo := todo - {s};
        ghost var before := book;
        Release(s, key, old(book), frames);
        GrowsThen(old(book), before, book);
        ReleasedStill(before, book);
      }
      NothingHeldIsFramed(streams, deferred, key, book.lost);
    }

    method Release(s: StreamKey, key: AgentKey, ghost start: Book, ghost frames: seq<Frame>)
      requires Balanced() && s in streams && WasReconciled(book.log, key)
      requires FramesKept(streams, deferred, book.lost, {key}) && FramesFor(streams, key, book.lost, frames)
      requires RedoneBut(start, book, frames)
      modifies this`streams, this`book
      ensures Balanced() && Grows(old(book), book) && book.log == old(book).log && streams.Keys == old(streams.Keys)
      ensures FramesKept(streams, deferred, book.lost, {key}) && FramesFor(streams, key, book.lost, frames)
      ensures RedoneBut(start, book, frames)
      ensures HeldFor(streams, s, key) == {}
      ensures forall k :: k in streams && k != s ==> HeldFor(streams, k, key) == HeldFor(old(streams), k, key)
      ensures forall n :: n in HeldFor(old(streams), s, key) ==> ReleasedFrom(book, (s, n), |book.log|)
    {
      hide AcksTraced, BooksBalance, AllCaughtUpBut, QueuesOk, LogAgrees, WasReconciled, FramesKept, FramesFor, RedoneBut, HeldFor, Grows, ReleasedFrom;
      var p, gone := streams[s], HeldFor(streams, s, key);
      ReleaseBalances(streams, book, s, key);
      LogRelease(streams, book, s, key);
      ReleaseIsRedone(start, streams, book, s, key, frames);
      streams := streams[s := p.(undecided := p.undecided - gone)];
      book := book.(released := book.released + Freed(s, gone, RelayBook.Release(key, |book.log|)));
      ghost var freed := book;
      TracedGrows(old(streams), streams, old(book), book);
      Acknowledge(s);
      FramesOfFewer(old(streams), streams, deferred, book.lost, {key});
      FramesForFewer(old(streams), streams, key, book.lost, frames);
      NothingReleased(freed, book, []);
      AcksGrow(freed, book);
      RedoneThen(start, freed, book, frames);
      ReleaseGrows(old(book), book, s, gone, key);
      HeldForReleased(old(streams), streams, s, key);
    }

    /** At most one request per agent within the guard; an unsent request does not hold the guard. */
    method RequestReconciliation(key: AgentKey, askable: bool) returns (ghost asked: bool, ghost sent: bool, ghost now: nat)
      modifies this`reconciling
      ensures asked <==> askable && !(key in old(reconciling) && now as int - old(reconciling)[key] < 300000)
      ensures transportUp && asked ==> sent
      ensures reconciling == if !asked then old(reconciling) else if sent then old(reconciling)[key := now] else old(reconciling) - {key}
    {
      asked, sent, now := false, false, 0;
      if !askable {
        return;
      }
      var at := Now();
      now := at;
      if key in reconciling && at as int - reconciling[key] < RECONCILE_GUARD_MS {
        return;
      }
      reconciling := reconciling[key := at];
      var arrived := SendToHost();
      asked, sent := true, arrived;
      if !arrived {
        reconciling := reconciling - {key};
      }
    }
  }

  // ----- The replay of an agent's queue -----

  ghost predicate ReleasedFrom(b: Book, e: (StreamKey, nat), from: nat) {
    e in b.released && b.released[e].at >= from
  }

  /** Whatever `streams` holds for `key` has been released after the first `from` entries of the log. */
  ghost predicate ReleasedAll(streams: Streams, key: AgentKey, b: Book, from: nat) {
    forall s, n :: s in streams && n in HeldFor(streams, s, key) ==> ReleasedFrom(b, (s, n), from)
  }

  /** Whatever is held for `key` came in with an entry of the log from `from` on. */
  ghost predicate AllHeldSince(streams: Streams, key: AgentKey, log: seq<Entry>, from: nat) {
    forall s, n :: s in streams && n in HeldFor(streams, s, key) ==> ReducedAgain(log, from, (s, n))
  }

  lemma ReleasedStill(b: Book, b': Book)
    requires Grows(b, b')
    ensures forall e, from: nat :: from <= |b.log| && ReleasedFrom(b, e, from) ==> ReleasedFrom(b', e, from)
  {
    forall e, from: nat | from <= |b.log| && ReleasedFrom(b, e, from) ensures ReleasedFrom(b', e, from) {
      assert e in b'.released;
      if NewlyReleased(b, b', e) {
        assert b'.released[e].at >= |b.log|;
      }
    }
  }

  /** The first `i` frames have been reduced again since the drain began at `streams0` and `b0`. */
  ghost predicate Replaying(streams0: Streams, b0: Book, streams: Streams, b: Book, key: AgentKey, frames: seq<Frame>, i: nat)
    requires i <= |frames|
  {
    && Grows(b0, b) && RedoneBut(b0, b, frames[i..])
    && (forall j :: 0 <= j < i ==> ReducedSince(b.log, |b0.log|, frames[j]))
    && OnlyFrom(b.log, |b0.log|, frames)
    && ReleasedAll(streams0, key, b, |b0.log|) && AllHeldSince(streams, key, b.log, |b0.log|)
  }

  /** Entry `k` of the log comes after an entry of `g`, both from `from` on. */
  ghost predicate ReducedBefore(log: seq<Entry>, from: nat, k: nat, g: Frame) {
    exists i :: from <= i < k && i < |log| && log[i].frame == g
  }

  /** From `from` on no frame is reduced before those of `held` that are ahead of it have been. */
  ghost predicate LowerFirst(log: seq<Entry>, from: nat, held: seq<Frame>) {
    forall k, g | from <= k < |log| && g in held :: Ahead(held, g, log[k].frame) ==> ReducedBefore(log, from, k, g)
  }

  /** The frames stand in the order in which `held` is to be replayed, each once. */
  ghost predicate ReplayOrder(held: seq<Frame>, frames: seq<Frame>) {
    Distinct(frames) && forall g, h :: Ahead(held, g, h) ==> Precedes(frames, g, h)
  }

  /** The first `i` frames were reduced in their order, and nothing else was. */
  ghost predicate InOrderSoFar(log: seq<Entry>, from: nat, held: seq<Frame>, frames: seq<Frame>, i: nat)
    requires i <= |frames|
  {
    && OnlyFrom(log, from, frames[..i]) && LowerFirst(log, from, held)
    && forall j :: 0 <= j < i ==> ReducedBefore(log, from, |log|, frames[j])
  }

  lemma OrderStarts(log: seq<Entry>, held: seq<Frame>, frames: seq<Frame>)
    ensures InOrderSoFar(log, |log|, held, frames, 0)
  {
  }

  lemma SoFarIsLowerFirst(log: seq<Entry>, from: nat, held: seq<Frame>, frames: seq<Frame>)
    requires InOrderSoFar(log, from, held, frames, |frames|)
    ensures LowerFirst(log, from, held)
  {
  }

  lemma EarlierIn(held: seq<Frame>, frames: seq<Frame>, i: nat, g: Frame, h: Frame)
    requires ReplayOrder(held, frames) && i < |frames| && h in frames[..i + 1] && Ahead(held, g, h)
    ensures exists m :: 0 <= m < i && frames[m] == g
  {
    var j :| 0 <= j <= i && frames[..i + 1][j] == h;
    assert Precedes(frames, g, h);
    var m, j' :| 0 <= m < j' < |frames| && frames[m] == g && frames[j'] == h;
    assert j == j';
  }

  lemma OrderStep(log: seq<Entry>, log': seq<Entry>, from: nat, held: seq<Frame>, frames: seq<Frame>, i: nat, queued: seq<Frame>)
    requires i < |frames| && ReplayOrder(held, frames) && InOrderSoFar(log, from, held, frames, i) && from <= |log|
    requires log <= log' && |log'| > |log| && log'[|log|].frame == frames[i]
    requires OnlyFrom(log', |log| + 1, queued) && forall g :: g in queued ==> g in frames[..i]
    ensures InOrderSoFar(log', from, held, frames, i + 1)
  {
    hide ReplayOrder, Ahead;
    assert frames[..i + 1] == frames[..i] + [frames[i]];
    forall k | from <= k < |log'| ensures log'[k].frame in frames[..i + 1] {
      assert k < |log| ==> log'[k] == log[k];
    }
    forall j | 0 <= j < i + 1 ensures ReducedBefore(log', from, |log'|, frames[j]) {
      StillBefore(log, log', from, frames, i, j);
    }
    forall k, g | from <= k < |log'| && g in held && Ahead(held, g, log'[k].frame)
      ensures ReducedBefore(log', from, k, g)
    {
      if k < |log| {
        assert log'[k] == log[k] && ReducedBefore(log, from, k, g);
        var n :| from <= n < k && n < |log| && log[n].frame == g;
        assert log'[n] == log[n];
      } else {
        EarlierIn(held, frames, i, g, log'[k].frame);
        var m :| 0 <= m < i && frames[m] == g;
        assert ReducedBefore(log, from, |log|, frames[m]);
        var n :| from <= n < |log| && log[n].frame == g;
        assert log'[n] == log[n];
      }
    }
  }

  lemma StillBefore(log: seq<Entry>, log': seq<Entry>, from: nat, frames: seq<Frame>, i: nat, j: nat)
    requires i < |frames| && j <= i && from <= |log| && log <= log' && |log'| > |log| && log'[|log|].frame == frames[i]
    requires j < i ==> ReducedBefore(log, from, |log|, frames[j])
    ensures ReducedBefore(log', from, |log'|, frames[j])
  {
    if j < i {
      var n :| from <= n < |log| && log[n].frame == frames[j];
      assert log'[n] == log[n];
    } else {
      assert log'[|log|].frame == frames[j];
    }
  }

  lemma ReplayStarts(streams0: Streams, b0: Book, streams: Streams, b: Book, key: AgentKey, frames: seq<Frame>)
    requires Grows(b0, b) && b.log == b0.log && RedoneBut(b0, b, frames) && ReleasedAll(streams0, key, b, |b0.log|)
    requires forall s :: s in streams ==> HeldFor(streams, s, key) == {}
    ensures Replaying(streams0, b0, streams, b, key, frames, 0)
  {
    hide Grows, RedoneBut, HeldFor, ReleasedAll;
    assert frames[0..] == frames;
    OnlyFromNone(b.log, frames);
  }

  lemma ReplayStep(streams0: Streams, b0: Book, streams1: Streams, b1: Book, streams2: Streams, b2: Book, key: AgentKey,
                   frames: seq<Frame>, i: nat, queued: seq<Frame>)
    requires i < |frames| && Replaying(streams0, b0, streams1, b1, key, frames, i)
    requires Grows(b1, b2) && RedoneBut(b1, b2, []) && HeldSince(streams1, streams2, key, b2.log, |b1.log|)
    requires |b2.log| > |b1.log| && b2.log[|b1.log|].frame == frames[i]
    requires OnlyFrom(b2.log, |b1.log| + 1, queued) && forall g :: g in queued ==> g in frames
    requires forall e :: e in b1.released ==> b1.released[e].at <= |b1.log|
    ensures Replaying(streams0, b0, streams2, b2, key, frames, i + 1) && |b0.log| <= |b1.log| && b1.log <= b2.log
  {
    hide Grows, RedoneBut, HeldFor, ReducedSince, OnlyFrom, ReleasedFrom, ReducedAgain;
    GrowsThen(b0, b1, b2);
    assert frames[i..][0] == frames[i] && frames[i..][1..] == frames[i + 1..];
    RedoneNext(b0, b1, b2, frames[i..]);
    OnlyFromMore(b2.log, |b1.log| + 1, queued, frames);
    OnlyFromGrows(b1.log, b2.log, |b0.log|, frames);
    StillReduced(b1.log, b2.log, |b0.log|);
    NowReduced(b1.log, b2.log, |b0.log|);
    ReleasedStill(b1, b2);
    AgainLater(b1.log, b2.log, |b0.log|);
  }

  lemma ReplayEnds(streams0: Streams, b0: Book, streams: Streams, b: Book, key: AgentKey, frames: seq<Frame>, held: seq<Frame>)
    requires Replaying(streams0, b0, streams, b, key, frames, |frames|)
    requires (forall g :: g in frames ==> g in held) && (forall g :: g in held ==> g in frames)
    ensures Grows(b0, b) && RedoneBut(b0, b, []) && OnlyFrom(b.log, |b0.log|, held)
    ensures forall g :: g in held ==> ReducedSince(b.log, |b0.log|, g)
    ensures AllHeldSince(streams, key, b.log, |b0.log|)
    ensures forall s, n | s in streams0 && n in HeldFor(streams0, s, key) ::
      ReleasedFrom(b, (s, n), |b0.log|) && (ReducedAgain(b.log, |b0.log|, (s, n)) <==> HasFrame(held, (s, n)))
  {
    hide Grows, RedoneBut, HeldFor, ReleasedFrom, ReducedAgain, HasFrame, AllHeldSince;
    assert frames[|frames|..] == [];
    OnlyFromMore(b.log, |b0.log|, frames, held);
    AgainIff(b.log, |b0.log|, held);
  }

  /** What the log reduces from `from` on is what has a frame among the frames it reduces. */
  lemma AgainIff(log: seq<Entry>, from: nat, held: seq<Frame>)
    requires OnlyFrom(log, from, held) && forall g :: g in held ==> ReducedSince(log, from, g)
    ensures forall e :: ReducedAgain(log, from, e) <==> HasFrame(held, e)
  {
    forall e | ReducedAgain(log, from, e) ensures HasFrame(held, e) {
      var i :| from <= i < |log| && IsEventOf(log[i].frame, e);
      var j :| 0 <= j < |held| && held[j] == log[i].frame;
    }
    forall e | HasFrame(held, e) ensures ReducedAgain(log, from, e) {
      var j :| 0 <= j < |held| && IsEventOf(held[j], e);
      assert ReducedSince(log, from, held[j]);
    }
  }

  lemma AgainLater(log: seq<Entry>, log': seq<Entry>, from: nat)
    requires log <= log' && from <= |log|
    ensures forall e :: ReducedAgain(log, from, e) || ReducedAgain(log', |log|, e) ==> ReducedAgain(log', from, e)
  {
    forall e | ReducedAgain(log, from, e) ensures ReducedAgain(log', from, e) {
      var i :| from <= i < |log| && IsEventOf(log[i].frame, e);
      assert log'[i] == log[i];
    }
  }

  lemma AgainSooner(log: seq<Entry>, from: nat)
    ensures forall e :: ReducedAgain(log, from + 1, e) ==> ReducedAgain(log, from, e)
  {
  }

  // ----- How holds move -----

  lemma ReleaseGrows(b: Book, b': Book, s: StreamKey, gone: set<nat>, key: AgentKey)
    requires b'.log == b.log && b'.received == b.received && b'.decided == b.decided && b'.lost == b.lost
    requires b'.released == b.released + Freed(s, gone, Release(key, |b.log|))
    requires b.acks <= b'.acks && (b'.everySendArrived ==> b.everySendArrived)
    ensures Grows(b, b') && forall n :: n in gone ==> ReleasedFrom(b', (s, n), |b.log|)
  {
  }

  lemma LogGrows(b: Book, b': Book)
    requires b.log <= b'.log && b.received <= b'.received && b.decided <= b'.decided && b'.lost == b.lost && b'.released == b.released
    requires b.acks <= b'.acks && (b'.everySendArrived ==> b.everySendArrived)
    ensures Grows(b, b')
  {
  }

  lemma AcksGrow(b: Book, b': Book)
    requires b'.log == b.log && b'.received == b.received && b'.decided == b.decided && b'.lost == b.lost && b'.released == b.released
    requires b.acks <= b'.acks && (b'.everySendArrived ==> b.everySendArrived)
    ensures Grows(b, b')
  {
  }

  lemma HeldForReleased(streams: Streams, streams': Streams, s: StreamKey, key: AgentKey)
    requires s in streams && streams'.Keys == streams.Keys
    requires streams'[s].undecided == streams[s].undecided - HeldFor(streams, s, key)
    requires forall k :: k in streams && k != s ==> streams'[k].undecided == streams[k].undecided
    ensures HeldFor(streams', s, key) == {}
    ensures forall k :: k in streams && k != s ==> HeldFor(streams', k, key) == HeldFor(streams, k, key)
  {
  }

  lemma StillHeld(streams: Streams, streams': Streams, f: Frame, key: AgentKey)
    requires HoldsKept(streams, streams', f)
    ensures forall s, n :: s in streams && n in HeldFor(streams, s, key) && !IsEventOf(f, (s, n)) ==>
      s in streams' && n in HeldFor(streams', s, key)
  {
  }

  lemma HoldsUnmoved(streams: Streams, f: Frame, log: seq<Entry>, from: nat)
    ensures HoldsKept(streams, streams, f) && HeldSince(streams, streams, f.agent, log, from)
  {
  }

  /** One event held or let go of, the rest as it was. */
  lemma HoldMoves(streams: Streams, streams': Streams, s: StreamKey, n: nat, key: AgentKey, x: Entry, log: seq<Entry>, from: nat)
    requires IsEventOf(x.frame, (s, n)) && from < |log| && log[from] == x
    requires s in streams' && forall t :: t in streams' && t != s ==> t in streams && streams'[t].undecided == streams[t].undecided
    requires streams.Keys <= streams'.Keys
    requires var u := ProgressOf(streams, s).undecided;
      streams'[s].undecided == u[n := key] || streams'[s].undecided == u - {n}
    ensures HoldsKept(streams, streams', x.frame) && HeldSince(streams, streams', key, log, from)
  {
    assert ReducedAgain(log, from, (s, n));
  }

  /** The log beyond its first `from` entries holds only frames of `frames`. */
  ghost predicate OnlyFrom(log: seq<Entry>, from: nat, frames: seq<Frame>) {
    forall i :: from <= i < |log| ==> log[i].frame in frames
  }

  lemma OnlyFromMore(log: seq<Entry>, from: nat, frames: seq<Frame>, more: seq<Frame>)
    requires OnlyFrom(log, from, frames) && forall g :: g in frames ==> g in more
    ensures OnlyFrom(log, from, more)
  {
  }

  lemma OnlyFromNone(log: seq<Entry>, frames: seq<Frame>)
    ensures OnlyFrom(log, |log|, frames)
  {
  }

  lemma OnlyFromGrows(log: seq<Entry>, log': seq<Entry>, from: nat, frames: seq<Frame>)
    requires log <= log' && from <= |log| < |log'| && OnlyFrom(log, from, frames)
    requires log'[|log|].frame in frames && OnlyFrom(log', |log| + 1, frames)
    ensures OnlyFrom(log', from, frames)
  {
  }

  lemma ReplayIsOrdered(held: seq<Frame>)
    requires NoRepeats(held)
    ensures ReplayOrder(held, InEventOrder(held))
  {
    hide InEventOrder;
    forall g, h | Ahead(held, g, h) ensures Precedes(InEventOrder(held), g, h) {
      AheadPrecedes(held, g, h);
    }
    assert forall i, j :: 0 <= i < j < |held| ==> held[i] != held[j];
    OnceEach(held);
    SameOnceEach(held, InEventOrder(held));
  }

  lemma {:induction false} OnceEach(s: seq<Frame>)
    requires Distinct(s)
    ensures forall g :: multiset(s)[g] <= 1
  {
    if s != [] {
      var n := |s| - 1;
      assert s == s[..n] + [s[n]];
      OnceEach(s[..n]);
    }
  }

  lemma {:induction false} SameOnceEach(s: seq<Frame>, r: seq<Frame>)
    requires multiset(r) == multiset(s) && forall g :: multiset(s)[g] <= 1
    ensures Distinct(r)
  {
    forall i, j | 0 <= i < j < |r| ensures r[i] != r[j] {
      assert r == r[..j] + [r[j]] + r[j + 1..];
      assert multiset(r)[r[j]] >= multiset(r[..j])[r[j]] + 1;
      assert r[..j][i] == r[i] && multiset(r[..j])[r[i]] >= 1;
    }
  }

  lemma ReplayIsTheQueue(deferred: Queues, key: AgentKey)
    requires QueuesOk(deferred)
    ensures var frames := InEventOrder(Held(deferred, key));
      && |frames| == |Held(deferred, key)| && ReplayOrder(Held(deferred, key), frames)
      && (forall i :: 0 <= i < |frames| ==> frames[i] in Held(deferred, key) && frames[i].agent == key)
      && (forall g :: g in Held(deferred, key) ==> g in frames)
  {
    var frames := InEventOrder(Held(deferred, key));
    forall i | 0 <= i < |frames| ensures frames[i] in Held(deferred, key) {
      assert frames[i] in multiset(frames);
    }
    forall g | g in Held(deferred, key) ensures g in frames {
      assert g in multiset(Held(deferred, key));
    }
    ReplayIsOrdered(Held(deferred, key));
  }

  lemma NowReduced(log: seq<Entry>, log': seq<Entry>, from: nat)
    requires from <= |log| < |log'|
    ensures ReducedSince(log', from, log'[|log|].frame)
  {
  }

  lemma StillReduced(log: seq<Entry>, log': seq<Entry>, from: nat)
    requires log <= log'
    ensures forall f :: ReducedSince(log, from, f) ==> ReducedSince(log', from, f)
  {
    forall f | ReducedSince(log, from, f) ensures ReducedSince(log', from, f) {
      var i :| from <= i < |log| && log[i].frame == f;
      assert log'[i].frame == f;
    }
  }

  /** A queue without repeats that holds only replayed frames is no longer than the replay. */
  lemma AlreadyReplayed(deferred: Queues, key: AgentKey, replayed: seq<Frame>)
    requires QueuesOk(deferred) && forall g :: g in Held(deferred, key) ==> g in replayed
    ensures |Held(deferred, key)| <= |replayed|
  {
    DistinctLength(Held(deferred, key), set g | g in replayed);
    SetOfSeq(replayed);
  }

  lemma {:induction false} SetOfSeq(s: seq<Frame>)
    ensures |set g | g in s| <= |s|
  {
    if s != [] {
      var n := |s| - 1;
      SetOfSeq(s[..n]);
      assert (set g | g in s) == (set g | g in s[..n]) + {s[n]};
    }
  }

  // ----- A run that loses an event -----

  function Numbered(stream: StreamKey, key: AgentKey, n: nat): Frame {
    Frame(true, key, Some(stream), n, Activity)
  }

  /** The run's four frames and what the service made of them. */
  function LossLog(key: AgentKey, a: StreamKey, b: StreamKey): seq<Entry> {
    [Entry(Numbered(a, key, 5), Reconcile(true)), Entry(Numbered(b, key, 5), Reconcile(true)),
     Entry(Numbered(b, key, 6), Applied), Entry(Frame(false, key, Some(a), 7, Reconciled), Applied)]
  }

  /**
   Two streams of one agent's daemon use the number 5, and no send fails. Both events are held and
   a reconciliation is asked for; the second one's frame is taken for a repeat. The next event of its
   stream is decided. The answer to the request then releases both, only the first is reduced again,
   and a delivered acknowledgement covers the second, which nothing decided or reduced again.
   */
  method LostEventIsAcknowledged(key: AgentKey, a: StreamKey, b: StreamKey) returns (relay: Relay)
    requires a != b
    ensures relay.Valid() && AllRedone(relay.book) && LossLog(key, a, b) <= relay.book.log
    ensures (b, 5) in relay.book.lost && (b, 5) !in relay.book.decided
    ensures ReleasedFrom(relay.book, (b, 5), 4) && !ReducedAgain(relay.book.log, 4, (b, 5))
    ensures exists i :: 0 <= i < |relay.book.acks| && relay.book.acks[i].delivered && (b, 5) in relay.book.acks[i].covered
  {
    hide AcksTraced, BooksBalance, AllCaughtUpBut, QueuesOk, FramesKept, LogAgrees, LostBy, AfterDefer, AllRedone, RedoneBut;
    hide WasReceived, WasDecided, WasHeld, WasReconciled, ReducedAgain, HeldFor, HoldsKept, HeldSince, HasFrame, Grows;
    relay := new Relay(true);
    ghost var start := relay.book;
    var f, g, d, r := Numbered(a, key, 5), Numbered(b, key, 5), Numbered(b, key, 6), Frame(false, key, Some(a), 7, Reconciled);
    relay.Settle(f, Reconcile(true));
    FirstIsQueued(f);
    relay.Settle(g, Reconcile(true));
    ShadowedFrame(f, b);
    relay.Settle(d, Applied);
    ghost var before, streams0 := relay.book, relay.streams;
    assert before.log == LossLog(key, a, b)[..3] && Held(relay.deferred, key) == [f];
    HeldInLossLog(streams0, before, key, a, b);
    relay.ReduceReceiptAs(r, Applied);
    GrowsKeepsLost(before, relay.book);
    assert relay.book.log[..3] == before.log;
    OnlyFromLoss(relay.book.log, key, a, b);
    LossEnds(relay.streams, relay.book, key, a, b);
    assert AllRedone(before) by { NoneReleased(before); }
    RedoneForAll(before, relay.book);
  }

  lemma FirstIsQueued(f: Frame)
    ensures AfterDefer([], f) == [f] && LostBy([], f) == {}
  {
  }

  lemma ShadowedFrame(f: Frame, s: StreamKey)
    requires f.stream != Some(s)
    ensures var other := f.(stream := Some(s)); AfterDefer([f], other) == [f] && (s, f.eventId) in LostBy([f], other)
  {
    DeduplicationIgnoresTheStream([f], f, s);
  }

  lemma NoneReleased(b: Book)
    requires b.released == map[]
    ensures AllRedone(b)
  {
  }

  lemma GrowsKeepsLost(b: Book, b': Book)
    requires Grows(b, b')
    ensures b.lost <= b'.lost && b.log <= b'.log
  {
  }

  lemma OnlyFromLoss(log: seq<Entry>, key: AgentKey, a: StreamKey, b: StreamKey)
    requires |log| >= 4 && log[..3] == LossLog(key, a, b)[..3] && log[3] == LossLog(key, a, b)[3]
    ensures LossLog(key, a, b) <= log
  {
    assert log[..4] == log[..3] + [log[3]];
  }

  lemma HeldInLossLog(streams: Streams, b: Book, key: AgentKey, a: StreamKey, s: StreamKey)
    requires a != s && BooksBalance(streams, b) && LogAgrees(streams, b) && b.log == LossLog(key, a, s)[..3] && b.released == map[]
    ensures s in streams && 5 in HeldFor(streams, s, key) && !HasFrame([Numbered(a, key, 5)], (s, 5))
  {
    hide BooksBalance, LogAgrees, HeldFor;
    assert b.log[0] == LossLog(key, a, s)[0] && b.log[1] == LossLog(key, a, s)[1] && b.log[2] == LossLog(key, a, s)[2];
    assert IsEventOf(b.log[1].frame, (s, 5));
    OnlyHeld(streams, b, (s, 5), key);
  }

  /** A received event that is neither decided nor released is held, for the agent it was received for. */
  lemma OnlyHeld(streams: Streams, b: Book, e: (StreamKey, nat), key: AgentKey)
    requires BooksBalance(streams, b) && LogAgrees(streams, b) && WasReceived(b.log, e) && !WasDecided(b.log, e) && e !in b.released
    requires forall k :: WasHeld(b.log, e, k) ==> k == key
    ensures e.0 in streams && e.1 in HeldFor(streams, e.0, key)
  {
    hide WasReceived, WasDecided, WasHeld, WasReconciled;
    assert e == (e.0, e.1) && e in b.received && e !in b.decided;
    assert ProgressOk(e.0, streams[e.0], b);
  }

  /** A log that goes on from the run's four entries with nothing but the first frame. */
  ghost predicate GoesOn(log: seq<Entry>, key: AgentKey, a: StreamKey, b: StreamKey) {
    LossLog(key, a, b) <= log && OnlyFrom(log, 4, [Numbered(a, key, 5)])
  }

  /** In such a log the stream `b` has the held 5 and the decided 6 and nothing else. */
  lemma LossLogSays(log: seq<Entry>, key: AgentKey, a: StreamKey, b: StreamKey)
    requires a != b && GoesOn(log, key, a, b)
    ensures !ReducedAgain(log, 4, (b, 5)) && WasDecided(log, (b, 6)) && !WasDecided(log, (b, 5))
    ensures forall n, k :: WasHeld(log, (b, n), k) ==> n == 5 && k == key
    ensures forall at: nat, n: nat :: at <= |log| && n >= 5 && WasDecided(log[..at], (b, n)) ==> WasReceived(log[..at], (b, 5))
  {
    var l := LossLog(key, a, b);
    assert log[0] == l[0] && log[1] == l[1] && log[2] == l[2] && log[3] == l[3];
    assert forall i :: 4 <= i < |log| ==> log[i].frame == Numbered(a, key, 5);
    assert IsEventOf(log[2].frame, (b, 6));
    forall at: nat, n: nat | at <= |log| && n >= 5 && WasDecided(log[..at], (b, n)) ensures WasReceived(log[..at], (b, 5)) {
      var i :| 0 <= i < at && IsEventOf(log[..at][i].frame, (b, n)) && !Repairable(log[..at][i].application);
      assert i == 2 && log[..at][1] == log[1];
    }
  }

  lemma LossEnds(streams: Streams, bk: Book, key: AgentKey, a: StreamKey, b: StreamKey)
    requires a != b && GoesOn(bk.log, key, a, b) && bk.everySendArrived
    requires BooksBalance(streams, bk) && AllCaughtUpBut(streams, bk, {}) && LogAgrees(streams, bk) && AcksTraced(streams, bk)
    requires AllHeldSince(streams, key, bk.log, 4)
    ensures (b, 5) !in bk.decided && !ReducedAgain(bk.log, 4, (b, 5))
    ensures exists i :: 0 <= i < |bk.acks| && bk.acks[i].delivered && (b, 5) in bk.acks[i].covered
  {
    hide WasReceived, WasDecided, WasHeld, WasReconciled, ReducedAgain, AcksOk, AcksAccounted;
    LossLogSays(bk.log, key, a, b);
    assert (b, 6) in bk.decided && (b, 5) !in bk.decided;
    assert (b, 6) in bk.received;
    assert ProgressOk(b, streams[b], bk);
    var p := streams[b];
    assert forall n :: n in p.undecided ==> n in HeldFor(streams, b, key);
    assert CaughtUp(p) && p.committedThrough >= 6;
    assert HasAck(bk.acks, b, p.committedThrough);
    var i :| 0 <= i < |bk.acks| && bk.acks[i].stream == b && bk.acks[i].delivered && bk.acks[i].through == p.committedThrough;
    assert AckTraced(bk.log, bk.acks[i]);
  }
}
