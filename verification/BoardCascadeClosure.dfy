/** What a drained cascade leaves behind: finished parents have no unfinished live children. */
module BoardCascadeClosure {
  import opened BoardCascade

  /** `k` is unfinished under a finished parent, both live. */
  ghost predicate Broken(b: Board, st: States, k: Id)
    requires Fits(b, st)
  {
    && Live(b, k)
    && b.entries[k].parent.Some?
    && Live(b, b.entries[k].parent.value)
    && Terminal(st[b.entries[k].parent.value])
    && !Terminal(st[k])
  }

  /** `p` is unfinished although it has live children and all of them are finished. */
  ghost predicate Lagging(b: Board, st: States, p: Id)
    requires WellFormed(b) && Fits(b, st)
  {
    && Live(b, p)
    && !Terminal(st[p])
    && Kids(b, p) != []
    && forall k :: k in Kids(b, p) ==> Terminal(st[k])
  }

  /** A pending step that will look at the pair of `k` and its parent. */
  ghost predicate PairPending(b: Board, q: seq<Step>, k: Id)
    requires k in b.entries && b.entries[k].parent.Some?
  {
    var p := b.entries[k].parent.value;
    Step(k, false) in q || Step(p, false) in q || Step(p, true) in q
  }

  /** A pending step that will derive `p` from its children. */
  ghost predicate DerivePending(b: Board, q: seq<Step>, p: Id) {
    Step(p, true) in q || exists k :: k in Kids(b, p) && Step(k, false) in q
  }

  /** Every broken pair, and every lagging parent outside `exempt`, still has a step pending. */
  ghost predicate Covered(b: Board, c: Config, exempt: set<Id>)
    requires WellFormed(b) && Fits(b, c.state)
  {
    && (forall k :: Broken(b, c.state, k) ==> PairPending(b, c.queue, k))
    && (forall p :: Lagging(b, c.state, p) ==> p in exempt || DerivePending(b, c.queue, p))
  }

  lemma QueueMembers(q: seq<Step>)
    requires q != []
    ensures forall s :: s in q <==> s in q[..|q| - 1] || s == q[|q| - 1]
  {
  }

  lemma PushesMembers(ids: seq<Id>)
    ensures forall k, d :: Step(k, d) in Pushes(ids) <==> k in ids && !d
  {
    forall k | k in ids
      ensures Step(k, false) in Pushes(ids)
    {
      var i :| 0 <= i < |ids| && ids[i] == k;
      assert Pushes(ids)[i] == Step(k, false);
    }
  }

  lemma TakeCoversPairs(b: Board, c: Config, exempt: set<Id>)
    requires WellFormed(b) && Fits(b, c.state) && c.queue != [] && Covered(b, c, exempt)
    ensures forall k :: Broken(b, Take(b, c).state, k) ==> PairPending(b, Take(b, c).queue, k)
  {
    var n, c' := |c.queue| - 1, Take(b, c);
    var id := c.queue[n].id;
    QueueMembers(c.queue);
    forall k | Broken(b, c'.state, k)
      ensures PairPending(b, c'.queue, k)
    {
      var p := b.entries[k].parent.value;
      assert k in Kids(b, p);
      if Live(b, id) && !c.queue[n].derive {
        PushesMembers(Downward(b, c.state, id));
        if id == k {
          assert c'.queue[|c'.queue| - 1] == Step(p, true);
        }
      }
      if !Broken(b, c.state, k) {
        assert Step(k, false) in c'.queue || Step(p, false) in c'.queue;
      }
    }
  }

  lemma TakeCoversParents(b: Board, c: Config, exempt: set<Id>)
    requires WellFormed(b) && Fits(b, c.state) && c.queue != [] && Covered(b, c, exempt)
    ensures forall p :: Lagging(b, Take(b, c).state, p) ==> p in exempt || DerivePending(b, Take(b, c).queue, p)
  {
    var n, c' := |c.queue| - 1, Take(b, c);
    var id := c.queue[n].id;
    QueueMembers(c.queue);
    forall p | Lagging(b, c'.state, p) && p !in exempt
      ensures DerivePending(b, c'.queue, p)
    {
      if Live(b, id) && !c.queue[n].derive {
        PushesMembers(Downward(b, c.state, id));
      }
      if !Lagging(b, c.state, p) {
        var k :| k in Kids(b, p) && !Terminal(c.state[k]) && Terminal(c'.state[k]);
        assert Step(k, false) in c'.queue;
      }
    }
  }

  lemma {:induction false} RunCovers(b: Board, c: Config, fuel: nat, exempt: set<Id>)
    requires WellFormed(b) && Fits(b, c.state) && Covered(b, c, exempt)
    ensures Covered(b, Run(b, c, fuel), exempt)
    decreases fuel
  {
    if fuel != 0 && c.queue != [] {
      TakeCoversPairs(b, c, exempt);
      TakeCoversParents(b, c, exempt);
      RunCovers(b, Take(b, c), fuel - 1, exempt);
    }
  }

  /** Parents that lag before the call and that no seed asks to derive: they stay as they are. */
  ghost function LeftAlone(b: Board, st: States, written: seq<Id>, orphaned: seq<Id>): set<Id>
    requires WellFormed(b) && Fits(b, st)
  {
    set p | p in b.entries && Lagging(b, st, p) && p !in orphaned
            && forall k :: k in Kids(b, p) ==> k !in written
  }

  /**
   A cascade that empties its worklist leaves no finished entry over an unfinished live child,
   provided each such pair beforehand had a written end or an orphaned parent; and it leaves a
   parent unfinished over finished children only if that was so before and no seed touched it.
   Parent cycles are allowed.
   */
  lemma DrainedCascadeCloses(b: Board, st: States, written: seq<Id>, orphaned: seq<Id>, fuel: nat)
    requires WellFormed(b) && Fits(b, st)
    requires forall k :: Broken(b, st, k) ==>
      var p := b.entries[k].parent.value; k in written || p in written || p in orphaned
    ensures
      var end := Run(b, Config(st, Seeds(written, orphaned), []), fuel);
      end.queue == [] ==>
        && (forall k :: !Broken(b, end.state, k))
        && (forall p :: Lagging(b, end.state, p) ==> p in LeftAlone(b, st, written, orphaned))
  {
    var start := Config(st, Seeds(written, orphaned), []);
    var exempt := LeftAlone(b, st, written, orphaned);
    assert Covered(b, start, exempt);
    RunCovers(b, start, fuel, exempt);
    var end := Run(b, start, fuel);
    assert end.queue == [] ==> forall p :: Lagging(b, end.state, p) ==> p in exempt || DerivePending(b, [], p);
  }
}
