/** Which seeds go first: orphaned parents are derived before any written entry is looked at. */
module BoardCascadeOrder {
  import opened Common
  import opened BoardCascade
  import opened BoardCascadeBounds
  import opened BoardCascadeSequence

  /** Each orphaned parent derived by its own cascade, from the last to the first. */
  function DeriveEach(b: Board, st: States, orphaned: seq<Id>, log: seq<Change>): (r: Config)
    requires WellFormed(b) && Fits(b, st)
    ensures Fits(b, r.state)
    decreases |orphaned|
  {
    if orphaned == [] then Config(st, [], log)
    else
      var n := |orphaned| - 1;
      var one := OneSeed(b, st, Step(orphaned[n], true));
      DeriveEach(b, one.state, orphaned[..n], log + one.changes)
  }

  /** Each written entry followed by its own cascade, from the last to the first. */
  function PushEach(b: Board, st: States, written: seq<Id>, log: seq<Change>): Config
    requires WellFormed(b) && Fits(b, st)
    decreases |written|
  {
    if written == [] then Config(st, [], log)
    else
      var n := |written| - 1;
      var one := OneSeed(b, st, Step(written[n], false));
      PushEach(b, one.state, written[..n], log + one.changes)
  }

  lemma {:induction false} PushesInTurn(b: Board, st: States, written: seq<Id>, log: seq<Change>)
    requires WellFormed(b) && Fits(b, st)
    ensures InTurn(b, st, Seeds(written, []), log) == PushEach(b, st, written, log)
    decreases |written|
  {
    hide OneSeed, Seeds, WellFormed, Fits;
    var seeds := Seeds(written, []);
    if written != [] {
      var n := |written| - 1;
      LastSeedIsWritten(written);
      var one := OneSeed(b, st, seeds[n]);
      PushesInTurn(b, one.state, written[..n], log + one.changes);
    }
  }

  lemma LastSeedIsWritten(written: seq<Id>)
    requires written != []
    ensures var seeds, n := Seeds(written, []), |written| - 1;
      |seeds| == n + 1 && seeds[n] == Step(written[n], false) && seeds[..n] == Seeds(written[..n], [])
  {
  }

  lemma LastSeedIsAnOrphan(written: seq<Id>, orphaned: seq<Id>)
    requires orphaned != []
    ensures var seeds, n := Seeds(written, orphaned), |orphaned| - 1;
      seeds[|seeds| - 1] == Step(orphaned[n], true) && seeds[..|seeds| - 1] == Seeds(written, orphaned[..n])
  {
  }

  lemma {:induction false} SeedsInOrder(b: Board, st: States, written: seq<Id>, orphaned: seq<Id>, log: seq<Change>)
    requires WellFormed(b) && Fits(b, st)
    ensures var derived := DeriveEach(b, st, orphaned, log);
      InTurn(b, st, Seeds(written, orphaned), log) == PushEach(b, derived.state, written, derived.changes)
    decreases |orphaned|
  {
    hide OneSeed, PushEach, Seeds;
    var seeds := Seeds(written, orphaned);
    if orphaned == [] {
      PushesInTurn(b, st, written, log);
    } else {
      var n := |seeds| - 1;
      LastSeedIsAnOrphan(written, orphaned);
      var one := OneSeed(b, st, seeds[n]);
      SeedsInOrder(b, one.state, written, orphaned[..|orphaned| - 1], log + one.changes);
    }
  }

  /**
   On an acyclic board a cascade that drains derives every orphaned parent, from the last to the
   first, and only then follows the written entries, from the last to the first.
   */
  lemma OrphansGoFirst(b: Board, st: States, written: seq<Id>, orphaned: seq<Id>)
    requires WellFormed(b) && Fits(b, st) && Acyclic(b) && Cascade(b, st, written, orphaned).queue == []
    ensures var derived := DeriveEach(b, st, orphaned, []);
      Cascade(b, st, written, orphaned) == PushEach(b, derived.state, written, derived.changes)
  {
    hide Run, InTurn, Seeds, DeriveEach, PushEach, Acyclic;
    SeedsRunInTurn(b, st, Seeds(written, orphaned), [], Ceiling(b));
    SeedsInOrder(b, st, written, orphaned, []);
  }

  /** One of each: the orphaned parent's cascade, then the written entry's. */
  lemma OneOfEach(b: Board, st: States, w: Id, o: Id)
    requires WellFormed(b) && Fits(b, st) && Acyclic(b)
    ensures
      var first := OneSeed(b, st, Step(o, true));
      var second := OneSeed(b, first.state, Step(w, false));
      Cascade(b, st, [w], [o]) == Config(second.state, [], first.changes + second.changes)
  {
    hide OneSeed, Cascade, Acyclic;
    TwoSeedsNeverHitCeiling(b, st, [w], [o]);
    OrphansGoFirst(b, st, [w], [o]);
    assert [o][..0] == [] && [w][..0] == [];
    var first := OneSeed(b, st, Step(o, true));
    assert [] + first.changes == first.changes;
    assert DeriveEach(b, st, [o], []) == DeriveEach(b, first.state, [o][..0], [] + first.changes);
  }

  // ----- A finished orphaned parent is reopened, not pushed down -----

  lemma {:induction false} LogOnlyGrows(b: Board, c: Config, fuel: nat)
    requires WellFormed(b) && Fits(b, c.state)
    ensures c.changes <= Run(b, c, fuel).changes
    decreases fuel
  {
    hide SettledState, Downward;
    if fuel != 0 && c.queue != [] {
      LogOnlyGrows(b, Take(b, c), fuel - 1);
    }
  }

  lemma FirstStep(b: Board, c: Config, fuel: nat)
    requires WellFormed(b) && Fits(b, c.state) && fuel > 0 && c.queue != []
    ensures Run(b, c, fuel) == Run(b, Take(b, c), fuel - 1)
  {
    hide Take;
  }

  /**
   On any board, whatever else is written or orphaned: a live finished entry over an unfinished live
   child, orphaned last, is reopened before anything else happens, so it finishes none of its children.
   */
  lemma OrphanedParentReopensFirst(b: Board, st: States, written: seq<Id>, orphaned: seq<Id>, child: Id)
    requires WellFormed(b) && Fits(b, st) && orphaned != []
    requires var o := orphaned[|orphaned| - 1];
      Live(b, o) && Terminal(st[o]) && IsKid(b, o, child) && !Terminal(st[child])
    ensures
      var o, log := orphaned[|orphaned| - 1], Cascade(b, st, written, orphaned).changes;
      |log| > 0 && log[0] == Change(o, b.entries[o].title, st[o], Open, ChildReopened)
  {
    var o, seeds := orphaned[|orphaned| - 1], Seeds(written, orphaned);
    hide Take, Seeds, Run;
    var c := Config(st, seeds, []);
    LastSeedIsAnOrphan(written, orphaned);
    var rest := seeds[..|seeds| - 1];
    assert seeds == rest + [Step(o, true)];
    ReopenStep(b, st, o, child, rest);
    LogOnlyGrows(b, Take(b, c), Ceiling(b) - 1);
    FirstStep(b, c, Ceiling(b));
  }

  // ----- One write that finishes a parent and trashes a child -----

  lemma FourSteps(b: Board, c: Config, fuel: nat)
    requires WellFormed(b) && Fits(b, c.state) && fuel >= 4 && c.queue != []
    requires var c1 := Take(b, c); c1.queue != []
    requires var c2 := Take(b, Take(b, c)); c2.queue != []
    requires var c3 := Take(b, Take(b, Take(b, c))); c3.queue != []
    requires Take(b, Take(b, Take(b, Take(b, c)))).queue == []
    ensures Run(b, c, fuel) == Take(b, Take(b, Take(b, Take(b, c))))
  {
    hide Take;
    var c1 := Take(b, c);
    var c2 := Take(b, c1);
    var c3 := Take(b, c2);
    assert Run(b, c, fuel) == Run(b, c1, fuel - 1) == Run(b, c2, fuel - 2);
    assert Run(b, c2, fuel - 2) == Run(b, c3, fuel - 3) == Run(b, Take(b, c3), fuel - 4);
  }

  lemma ReopenStep(b: Board, st: States, o: Id, child: Id, rest: seq<Step>)
    requires WellFormed(b) && Fits(b, st) && Live(b, o) && Terminal(st[o]) && IsKid(b, o, child) && !Terminal(st[child])
    ensures Take(b, Config(st, rest + [Step(o, true)], []))
         == Config(st[o := Open], rest + [Step(o, false)], [Change(o, b.entries[o].title, st[o], Open, ChildReopened)])
  {
    hide KidsAmong;
    assert child in Kids(b, o);
    assert SettledState(b, st, o) == Some(Open);
  }

  lemma AbsentStep(b: Board, st: States, x: Id, rest: seq<Step>, log: seq<Change>)
    requires WellFormed(b) && Fits(b, st) && !Live(b, x)
    ensures Take(b, Config(st, rest + [Step(x, false)], log)) == Config(st, rest, log)
  {
  }

  /**
   A root marked done in the same write that trashes one of its children, while another live child is
   unfinished: it is reopened, and that child stays as it is.
   */
  lemma TrashingReopensTheParent(b: Board, st: States, p: Id, x: Id, child: Id)
    requires WellFormed(b) && Fits(b, st) && Live(b, p) && b.entries[p].parent == None && !Live(b, x)
    requires Terminal(st[p]) && IsKid(b, p, child) && !Terminal(st[child])
    ensures Cascade(b, st, [p, x], [p])
         == Config(st[p := Open], [], [Change(p, b.entries[p].title, st[p], Open, ChildReopened)])
  {
    hide Take, Run, WellFormed;
    var st', log := st[p := Open], [Change(p, b.entries[p].title, st[p], Open, ChildReopened)];
    var c := Config(st, [Step(p, false), Step(x, false), Step(p, true)], []);
    assert Seeds([p, x], [p]) == c.queue;
    assert c.queue == [Step(p, false), Step(x, false)] + [Step(p, true)];
    ReopenStep(b, st, p, child, [Step(p, false), Step(x, false)]);
    NothingToPush(b, st', p, [Step(p, false), Step(x, false)], log);
    assert [Step(p, false), Step(x, false)] == [Step(p, false)] + [Step(x, false)];
    AbsentStep(b, st', x, [Step(p, false)], log);
    assert [Step(p, false)] == [] + [Step(p, false)];
    NothingToPush(b, st', p, [], log);
    FourSteps(b, c, Ceiling(b));
  }

  lemma NothingToPush(b: Board, st: States, id: Id, rest: seq<Step>, log: seq<Change>)
    requires WellFormed(b) && Fits(b, st) && Live(b, id) && !Terminal(st[id]) && b.entries[id].parent == None
    ensures Take(b, Config(st, rest + [Step(id, false)], log)) == Config(st, rest, log)
  {
    hide KidsAmong, SettledState;
    assert Downward(b, st, id) == [];
    assert Finish(st, [], st[id]) == st;
  }

  // ----- An orphaned parent's own cascade only reopens -----

  ghost predicate OnlyReopens(log: seq<Change>) {
    forall i :: 0 <= i < |log| ==> log[i].reason.ChildReopened? && log[i].to.Open?
  }

  /** Nothing but the way up is left to do: a parent over an unfinished child, or an entry itself unfinished. */
  ghost predicate OnTheWayUp(b: Board, st: States, queue: seq<Step>)
    requires WellFormed(b) && Fits(b, st)
  {
    queue == []
    || (|queue| == 1 && (Live(b, queue[0].id) ==>
                          if queue[0].derive then exists k :: IsKid(b, queue[0].id, k) && !Terminal(st[k])
                          else !Terminal(st[queue[0].id])))
  }

  lemma StepUp(b: Board, c: Config)
    requires WellFormed(b) && Fits(b, c.state) && c.queue != [] && OnTheWayUp(b, c.state, c.queue)
    requires OnlyReopens(c.changes)
    ensures var r := Take(b, c);
      && OnTheWayUp(b, r.state, r.queue) && OnlyReopens(r.changes)
      && forall k :: k in c.state && !Terminal(c.state[k]) ==> r.state[k] == c.state[k]
  {
    hide KidsAmong;
    var id := c.queue[0].id;
    if Live(b, id) && !c.queue[0].derive {
      assert Downward(b, c.state, id) == [];
      if b.entries[id].parent.Some? {
        assert IsKid(b, b.entries[id].parent.value, id);
      }
    } else if Live(b, id) {
      var k :| IsKid(b, id, k) && !Terminal(c.state[k]);
      assert k in Kids(b, id);
    }
  }

  lemma {:induction false} RunsUp(b: Board, c: Config, fuel: nat)
    requires WellFormed(b) && Fits(b, c.state) && OnTheWayUp(b, c.state, c.queue) && OnlyReopens(c.changes)
    ensures OnlyReopens(Run(b, c, fuel).changes)
    ensures forall k :: k in c.state && !Terminal(c.state[k]) ==> Run(b, c, fuel).state[k] == c.state[k]
    decreases fuel
  {
    hide Take, OnTheWayUp, OnlyReopens;
    if fuel != 0 && c.queue != [] {
      StepUp(b, c);
      RunsUp(b, Take(b, c), fuel - 1);
    }
  }

  /**
   The cascade of an orphaned parent over an unfinished live child only reopens entries: it finishes
   none, and leaves every unfinished entry, that child among them, as it is.
   */
  lemma OrphanOnlyReopens(b: Board, st: States, o: Id, child: Id)
    requires WellFormed(b) && Fits(b, st) && IsKid(b, o, child) && !Terminal(st[child])
    ensures OnlyReopens(OneSeed(b, st, Step(o, true)).changes)
    ensures forall k :: k in st && !Terminal(st[k]) ==> OneSeed(b, st, Step(o, true)).state[k] == st[k]
  {
    RunsUp(b, Config(st, [Step(o, true)], []), PassBound(b));
  }

  // ----- Children are taken in table order -----

  lemma {:induction false} KidsAmongInOrder(b: Board, ids: seq<Id>, p: Id)
    ensures InOrder(KidsAmong(b, ids, p), ids)
  {
    if ids != [] {
      var n := |ids| - 1;
      KidsAmongInOrder(b, ids[..n], p);
      InOrderMore(KidsAmong(b, ids[..n], p), ids[..n], ids[n]);
      assert ids == ids[..n] + [ids[n]];
    }
  }

  lemma {:induction false} UnfinishedInOrder(st: States, ids: seq<Id>)
    requires forall k :: k in ids ==> k in st
    ensures InOrder(Unfinished(st, ids), ids)
  {
    if ids != [] {
      var n := |ids| - 1;
      UnfinishedInOrder(st, ids[..n]);
      InOrderMore(Unfinished(st, ids[..n]), ids[..n], ids[n]);
      assert ids == ids[..n] + [ids[n]];
    }
  }

  lemma InOrderThrough(ids: seq<Id>, mid: seq<Id>, order: seq<Id>)
    requires InOrder(ids, mid) && InOrder(mid, order)
    ensures InOrder(ids, order)
  {
    forall i, j | 0 <= i < j < |ids| ensures Precedes(order, ids[i], ids[j]) {
      assert Precedes(mid, ids[i], ids[j]);
      var x, y :| 0 <= x < y < |mid| && mid[x] == ids[i] && mid[y] == ids[j];
      assert Precedes(order, mid[x], mid[y]);
    }
  }

  lemma DownwardInOrder(b: Board, st: States, id: Id)
    requires WellFormed(b) && Fits(b, st) && id in st
    ensures InOrder(Downward(b, st, id), b.order)
  {
    hide InOrder, KidsAmong, Unfinished;
    if Terminal(st[id]) {
      KidsAmongInOrder(b, b.order, id);
      UnfinishedInOrder(st, Kids(b, id));
      InOrderThrough(Downward(b, st, id), Kids(b, id), b.order);
    } else {
      NoneInOrder(b.order);
    }
  }

  lemma NoneInOrder(order: seq<Id>)
    ensures InOrder([], order)
  {
  }

  /**
   A finished entry finishes its unfinished live children in table order: so run the new log lines,
   and so lie the new work items, below the one for the entry's parent.
   */
  lemma PushedInTableOrder(b: Board, c: Config)
    requires WellFormed(b) && Fits(b, c.state) && c.queue != []
    requires !c.queue[|c.queue| - 1].derive
    ensures
      var r, n := Take(b, c), |c.queue| - 1;
      && (forall i, j :: |c.changes| <= i < j < |r.changes| ==> Precedes(b.order, r.changes[i].id, r.changes[j].id))
      && (forall i, j :: n <= i < j < |r.queue| && !r.queue[j].derive ==>
           !r.queue[i].derive && Precedes(b.order, r.queue[i].id, r.queue[j].id))
  {
    hide InOrder, Precedes, Downward, SettledState, Finish, WellFormed;
    var id := c.queue[|c.queue| - 1].id;
    if Live(b, id) {
      var u, r, n := Downward(b, c.state, id), Take(b, c), |c.queue| - 1;
      DownwardInOrder(b, c.state, id);
      PairsInOrder(u, b.order);
      assert forall i :: |c.changes| <= i < |r.changes| ==> r.changes[i].id == u[i - |c.changes|];
      assert forall i :: n <= i < n + |u| ==> r.queue[i] == Step(u[i - n], false);
    }
  }

  lemma PairsInOrder(ids: seq<Id>, order: seq<Id>)
    requires InOrder(ids, order)
    ensures forall i, j :: 0 <= i < j < |ids| ==> Precedes(order, ids[i], ids[j])
  {
  }
}
