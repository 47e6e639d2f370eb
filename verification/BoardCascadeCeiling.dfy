/** Two seeds are the most the ceiling is good for: three can flip a long chain three times. */
module BoardCascadeCeiling {
  import opened Common
  import opened BoardCascade
  import opened BoardCascadeClosure
  import opened BoardCascadeBounds
  import opened BoardCascadeSequence

  /** A live branch from a root down, each entry the child of the one before. */
  ghost predicate Branch(b: Board, p: seq<Id>) {
    && p != [] && Distinct(p)
    && (forall i :: 0 <= i < |p| ==> Live(b, p[i]))
    && b.entries[p[0]].parent == None
    && forall i :: 0 < i < |p| ==> b.entries[p[i]].parent == Some(p[i - 1])
  }

  ghost predicate HasOpenKid(b: Board, st: States, p: Id)
    requires WellFormed(b) && Fits(b, st)
  {
    exists k :: k in Kids(b, p) && !Terminal(st[k])
  }

  /** The branch is finished, but its last entry has an unfinished child. */
  ghost predicate Reopening(b: Board, st: States, p: seq<Id>)
    requires WellFormed(b) && Fits(b, st)
  {
    && Branch(b, p) && (forall i :: 0 <= i < |p| ==> Terminal(st[p[i]]))
    && HasOpenKid(b, st, p[|p| - 1])
  }

  /** The children of `x` are done, except perhaps `but`. */
  ghost predicate DoneUnder(b: Board, st: States, x: Id, but: Option<Id>)
    requires WellFormed(b) && Fits(b, st)
  {
    forall k :: k in Kids(b, x) ==> st[k] == Done || but == Some(k)
  }

  /** The branch is unfinished, and all that hangs from it is done. */
  ghost predicate Finishing(b: Board, st: States, p: seq<Id>)
    requires WellFormed(b) && Fits(b, st)
  {
    && Branch(b, p) && (forall i :: 0 <= i < |p| ==> !Terminal(st[p[i]]))
    && Kids(b, p[|p| - 1]) != [] && DoneUnder(b, st, p[|p| - 1], None)
    && forall i :: 0 <= i < |p| - 1 ==> DoneUnder(b, st, p[i], Some(p[i + 1]))
  }

  /** The branch is about to turn, from its last entry up: to Open or to Done. */
  ghost predicate Turning(b: Board, st: States, p: seq<Id>, to: State)
    requires WellFormed(b) && Fits(b, st)
  {
    (to == Open && Reopening(b, st, p)) || (to == Done && Finishing(b, st, p))
  }

  lemma BranchCut(b: Board, p: seq<Id>)
    requires Branch(b, p) && |p| > 1
    ensures Branch(b, p[..|p| - 1])
  {
  }

  lemma LastCalls(b: Board, st: States, p: seq<Id>, to: State)
    requires WellFormed(b) && Fits(b, st) && Turning(b, st, p, to)
    ensures var x := p[|p| - 1];
      Live(b, x) && b.entries[x].parent != Some(x) && SettledState(b, st, x) == Some(to) && st[x] != to
  {
    hide KidsAmong;
    var n := |p| - 1;
    HeadIsIn(Kids(b, p[n]));
    assert n > 0 ==> p[n - 1] != p[n];
  }

  lemma NothingBelow(b: Board, st: States, p: seq<Id>, to: State)
    requires WellFormed(b) && Fits(b, st) && Turning(b, st, p, to)
    ensures var x := p[|p| - 1];
      Downward(b, st[x := to], x) == []
  {
    hide KidsAmong, Unfinished;
    var x := p[|p| - 1];
    var u := Downward(b, st[x := to], x);
    HeadIsIn(u);
  }

  /** An entry whose children call for a change, and that has nothing to push down afterwards. */
  lemma EntryTurns(b: Board, st: States, x: Id, to: State, log: seq<Change>)
    requires WellFormed(b) && Fits(b, st) && Live(b, x) && SettledState(b, st, x) == Some(to) && st[x] != to
    requires Downward(b, st[x := to], x) == []
    ensures var turned := Take(b, Config(st, [Step(x, true)], log));
      && turned.state == st[x := to] && turned.queue == [Step(x, false)]
      && Take(b, turned) == Config(st[x := to], ParentStep(b, x), turned.changes)
  {
    hide KidsAmong, SettledState, Downward, ParentStep, WellFormed;
    var st' := st[x := to];
    assert Finish(st', [], to) == st';
  }

  lemma LastParent(b: Board, st: States, p: seq<Id>, to: State)
    requires WellFormed(b) && Fits(b, st) && Turning(b, st, p, to)
    ensures p != [] && p[|p| - 1] in b.entries
    ensures var n := |p| - 1; ParentStep(b, p[n]) == if n == 0 then [] else [Step(p[n - 1], true)]
  {
    hide DoneUnder, HasOpenKid, KidsAmong;
    assert Branch(b, p);
  }

  /** Two steps turn the last entry and move on to the one above it. */
  lemma LastTurns(b: Board, st: States, p: seq<Id>, to: State, log: seq<Change>)
    requires WellFormed(b) && Fits(b, st) && Turning(b, st, p, to)
    ensures
      var n, st' := |p| - 1, st[p[|p| - 1] := to];
      var turned := Take(b, Config(st, [Step(p[n], true)], log));
      && turned.state == st' && turned.queue == [Step(p[n], false)]
      && Take(b, turned) == Config(st', if n == 0 then [] else [Step(p[n - 1], true)], turned.changes)
  {
    hide Take, Turning, SettledState, Downward, ParentStep, WellFormed, Live;
    LastParent(b, st, p, to);
    LastCalls(b, st, p, to);
    NothingBelow(b, st, p, to);
    EntryTurns(b, st, p[|p| - 1], to, log);
  }

  /** Once its last entry has turned, the rest of the branch is about to turn. */
  lemma RestTurns(b: Board, st: States, p: seq<Id>, to: State)
    requires WellFormed(b) && Fits(b, st) && Turning(b, st, p, to) && |p| > 1
    ensures Turning(b, st[p[|p| - 1] := to], p[..|p| - 1], to)
  {
    hide KidsAmong;
    var n := |p| - 1;
    BranchCut(b, p);
    assert IsKid(b, p[n - 1], p[n]) && p[n] in Kids(b, p[n - 1]);
    assert forall i :: 0 <= i < n ==> p[..n][i] == p[i] && p[i] != p[n];
    if to == Done {
      assert DoneUnder(b, st[p[n] := to], p[n - 1], None);
      forall i | 0 <= i < n - 1 ensures DoneUnder(b, st[p[n] := to], p[i], Some(p[i + 1])) {
        assert DoneUnder(b, st, p[i], Some(p[i + 1]));
      }
    }
  }

  /** The branch turned as a whole. */
  ghost function Turned(st: States, p: seq<Id>, to: State): States {
    map id | id in st :: if id in p then to else st[id]
  }

  lemma TwoSteps(b: Board, c: Config, fuel: nat)
    requires WellFormed(b) && Fits(b, c.state) && c.queue != [] && Take(b, c).queue != []
    ensures Run(b, c, fuel + 2) == Run(b, Take(b, Take(b, c)), fuel)
    ensures Cost(b, c, fuel + 2) == 2 + Cost(b, Take(b, Take(b, c)), fuel)
  {
    hide Take;
    assert Run(b, c, fuel + 2) == Run(b, Take(b, c), fuel + 1);
    assert Cost(b, c, fuel + 2) == 1 + Cost(b, Take(b, c), fuel + 1);
  }

  lemma OneStep(b: Board, c: Config, fuel: nat)
    requires WellFormed(b) && Fits(b, c.state) && c.queue != []
    ensures Run(b, c, fuel + 1) == Run(b, Take(b, c), fuel)
    ensures Cost(b, c, fuel + 1) == 1 + Cost(b, Take(b, c), fuel)
  {
    hide Take;
  }

  lemma NoStep(b: Board, c: Config)
    requires WellFormed(b) && Fits(b, c.state)
    ensures Run(b, c, 0) == c && Cost(b, c, 0) == 0
  {
    hide Take;
  }

  lemma TurnedStep(st: States, p: seq<Id>, to: State)
    requires p != [] && p[|p| - 1] in st
    ensures var n := |p| - 1;
      Turned(st, p, to) == Turned(st[p[n] := to], p[..n], to)
  {
    var n := |p| - 1;
    assert p == p[..n] + [p[n]];
  }

  lemma LastIsIn(b: Board, st: States, p: seq<Id>, to: State)
    requires WellFormed(b) && Fits(b, st) && Turning(b, st, p, to)
    ensures p != [] && p[|p| - 1] in st
  {
  }

  lemma LastBreaks(b: Board, st: States, p: seq<Id>)
    requires WellFormed(b) && Fits(b, st) && Turning(b, st, p, Open) && |p| > 1
    ensures Broken(b, st[p[|p| - 1] := Open], p[|p| - 1])
  {
    var n := |p| - 1;
    assert p[n - 1] != p[n];
  }

  /** A branch of n entries turns in exactly 2n steps. */
  lemma {:induction false} BranchTurns(b: Board, st: States, p: seq<Id>, to: State, log: seq<Change>)
    requires WellFormed(b) && Fits(b, st) && Turning(b, st, p, to)
    ensures
      var c := Config(st, [Step(p[|p| - 1], true)], log);
      && Run(b, c, 2 * |p|).queue == [] && Run(b, c, 2 * |p|).state == Turned(st, p, to)
      && Cost(b, c, 2 * |p|) == 2 * |p|
    decreases |p|
  {
    hide Take, Run, Cost, Turning, WellFormed;
    LastIsIn(b, st, p, to);
    LastTurns(b, st, p, to, log);
    TurnedStep(st, p, to);
    var n := |p| - 1;
    var c := Config(st, [Step(p[n], true)], log);
    var st', next := st[p[n] := to], Take(b, Take(b, c));
    TwoSteps(b, c, 2 * n);
    if n > 0 {
      RestTurns(b, st, p, to);
      BranchTurns(b, st', p[..n], to, next.changes);
    } else {
      NoStep(b, next);
      assert Turned(st', p[..n], to) == st';
    }
  }

  /** Stopped before its root, a reopening branch leaves an unfinished entry under a finished one. */
  lemma {:induction false} CutShort(b: Board, st: States, p: seq<Id>, log: seq<Change>, fuel: nat)
    requires WellFormed(b) && Fits(b, st) && Turning(b, st, p, Open) && 1 <= fuel <= 2 * |p| - 2
    ensures
      var r := Run(b, Config(st, [Step(p[|p| - 1], true)], log), fuel);
      r.queue != [] && exists k :: Broken(b, r.state, k)
    decreases |p|
  {
    hide Take, Run, Cost, Turning, Broken, WellFormed;
    var n := |p| - 1;
    LastIsIn(b, st, p, Open);
    LastBreaks(b, st, p);
    var c := Config(st, [Step(p[n], true)], log);
    LastTurns(b, st, p, Open, log);
    if fuel == 1 {
      OneStep(b, c, 0);
      NoStep(b, Take(b, c));
    } else if fuel == 2 {
      NoStep(b, Take(b, Take(b, c)));
      TwoSteps(b, c, 0);
    } else {
      TwoSteps(b, c, fuel - 2);
      RestTurns(b, st, p, Open);
      CutShort(b, st[p[n] := Open], p[..n], Take(b, c).changes, fuel - 2);
    }
  }

  // ----- One seed that hands the branch its first derivation -----

  /** A seed with nothing to finish below it, hanging from the last entry of a turning branch. */
  ghost predicate Triggers(b: Board, st: States, seed: Id, p: seq<Id>, to: State)
    requires WellFormed(b) && Fits(b, st)
  {
    && Live(b, seed) && Downward(b, st, seed) == [] && Turning(b, st, p, to)
    && p != [] && b.entries[seed].parent == Some(p[|p| - 1])
  }

  lemma SeedStep(b: Board, st: States, seed: Id, p: seq<Id>, to: State)
    requires WellFormed(b) && Fits(b, st) && Triggers(b, st, seed, p, to)
    ensures Take(b, Config(st, [Step(seed, false)], [])) == Config(st, [Step(p[|p| - 1], true)], [])
  {
    hide KidsAmong, SettledState, Downward, Turning;
    assert Finish(st, [], st[seed]) == st;
  }

  /** The seed's cascade over older work costs 2n + 1 steps and turns the whole branch. */
  lemma SeedTurns(b: Board, st: States, base: seq<Step>, log: seq<Change>, seed: Id, p: seq<Id>, to: State, fuel: nat)
    returns (log': seq<Change>)
    requires WellFormed(b) && Fits(b, st) && Triggers(b, st, seed, p, to) && fuel >= 2 * |p| + 1
    ensures Fits(b, Turned(st, p, to))
    ensures Run(b, Config(st, base + [Step(seed, false)], log), fuel)
         == Run(b, Config(Turned(st, p, to), base, log'), fuel - 2 * |p| - 1)
  {
    hide Take, Run, Cost, Turning, Downward, WellFormed;
    SeedStep(b, st, seed, p, to);
    BranchTurns(b, st, p, to, []);
    var c, steps := Config(st, [Step(seed, false)], []), 2 * |p| + 1;
    var r := Run(b, c, steps);
    OneStep(b, c, steps - 1);
    assert r.queue == [] && r.state == Turned(st, p, to) && Cost(b, c, steps) == steps;
    CostSettles(b, c, steps, fuel);
    MoreFuel(b, c, steps, fuel);
    RunOver(b, base, log, c, fuel);
    log' := log + r.changes;
    assert Over(base, log, c) == Config(st, base + [Step(seed, false)], log);
    assert Over(base, log, r) == Config(Turned(st, p, to), base, log');
  }

  lemma {:induction false} CostSettles(b: Board, c: Config, fuel: nat, more: nat)
    requires WellFormed(b) && Fits(b, c.state) && fuel <= more && Run(b, c, fuel).queue == []
    ensures Cost(b, c, more) == Cost(b, c, fuel)
    decreases fuel
  {
    hide Take;
    if fuel != 0 && c.queue != [] {
      CostSettles(b, Take(b, c), fuel - 1, more - 1);
    }
  }

  /** Out of steps inside the seed's cascade. */
  lemma SeedCutShort(b: Board, st: States, log: seq<Change>, seed: Id, p: seq<Id>, fuel: nat)
    requires WellFormed(b) && Fits(b, st) && Triggers(b, st, seed, p, Open) && 2 <= fuel < 2 * |p|
    ensures
      var r := Run(b, Config(st, [Step(seed, false)], log), fuel);
      r.queue != [] && exists k :: Broken(b, r.state, k)
  {
    hide Take, Run, Cost, Turning, Downward, Broken, WellFormed;
    SeedStep(b, st, seed, p, Open);
    CutShort(b, st, p, [], fuel - 1);
    var c := Config(st, [Step(seed, false)], []);
    OneStep(b, c, fuel - 1);
    RunOver(b, [], log, c, fuel);
    assert Over([], log, c) == Config(st, [Step(seed, false)], log);
  }

  // ----- A board where three live seeds use up the ceiling -----

  function Name(k: nat): (id: Id)
    ensures |id| == k
  {
    seq(k, _ => 'x')
  }

  /**
   The parent of entry `k`: a chain 0, …, m - 1 with the entries m and m + 1 under its end, m + 2
   under m, m + 3 under m + 1, and m + 4 under m + 2.
   */
  function Above(m: nat, k: nat): (p: nat)
    requires k > 0 && m > 0
    ensures p < k
  {
    if k <= m then k - 1 else if k < m + 4 then k - 2 else m + 2
  }

  /** Entries are named by their number, in unary. */
  function ForkEntry(m: nat, id: Id): Entry
    requires m > 0
  {
    Entry("", if |id| == 0 then None else Some(Name(Above(m, |id|))), None)
  }

  function Fork(m: nat): Board
    requires m > 0
  {
    var order := seq(m + 5, i requires i >= 0 => Name(i));
    Board(order, map id | id in order :: ForkEntry(m, id))
  }

  /** Everything is done but the entries m + 2 and m + 3, just reopened. */
  function Before(m: nat): States
    requires m > 0
  {
    map id | id in Fork(m).entries :: if m + 2 <= |id| <= m + 3 then Open else Done
  }

  ghost predicate OnFork(m: nat, id: Id) {
    |id| < m + 5 && id == Name(|id|)
  }

  lemma ForkMembers(m: nat)
    requires m > 0
    ensures var b := Fork(m);
      && WellFormed(b) && Fits(b, Before(m))
      && (forall id :: id in b.entries <==> OnFork(m, id))
      && forall id :: id in b.entries ==> b.entries[id] == ForkEntry(m, id)
  {
    hide ForkEntry, Name;
    var b := Fork(m);
    assert forall i :: 0 <= i < m + 5 ==> b.order[i] == Name(i) && |b.order[i]| == i;
    assert forall id :: OnFork(m, id) ==> id == b.order[|id|];
  }

  lemma ForkSize(m: nat)
    requires m > 0
    ensures |Fork(m).entries| == m + 5
  {
    hide ForkEntry, Name;
    ForkMembers(m);
    var b := Fork(m);
    assert b.entries.Keys == set id | id in b.order;
    OrderSize(b.order);
  }

  lemma ForkIsAcyclic(m: nat)
    requires m > 0
    ensures Acyclic(Fork(m))
  {
    hide Fork, Above, OnFork, Name;
    ForkMembers(m);
    var b := Fork(m);
    var rank: map<Id, nat> := map id | id in b.entries :: |id|;
    assert Ranked(b, rank);
  }

  lemma {:induction false} OrderSize(ids: seq<Id>)
    requires Distinct(ids)
    ensures |set id | id in ids| == |ids|
  {
    if ids != [] {
      var n := |ids| - 1;
      OrderSize(ids[..n]);
      assert (set id | id in ids) == (set id | id in ids[..n]) + {ids[n]};
    }
  }

  lemma KidOnFork(m: nat, p: Id, k: Id)
    requires m > 0 && k in Kids(Fork(m), p)
    ensures OnFork(m, k) && |k| > 0 && p == Name(Above(m, |k|))
  {
    hide KidsAmong, Fork, Above, Name;
    ForkMembers(m);
  }

  lemma ForkParent(m: nat, k: nat)
    requires m > 0 && k < m + 5
    ensures var b := Fork(m);
      Live(b, Name(k)) && b.entries[Name(k)].parent == if k == 0 then None else Some(Name(Above(m, k)))
  {
    hide Fork, Above, Name;
    ForkMembers(m);
    assert OnFork(m, Name(k));
  }

  /** The branch 0, …, n - 1, last. */
  function Way(n: nat, last: nat): (p: seq<Id>)
    ensures |p| == n + 1 && p[n] == Name(last) && forall i :: 0 <= i < n ==> p[i] == Name(i)
  {
    seq(n + 1, i requires i >= 0 => Name(if i < n then i else last))
  }

  lemma WayIsBranch(m: nat, n: nat, last: nat)
    requires m > 0 && 0 < n <= last < m + 5 && n <= m + 1 && Above(m, last) == n - 1
    ensures Branch(Fork(m), Way(n, last))
  {
    hide Fork, Name;
    var b, p := Fork(m), Way(n, last);
    forall i | 0 <= i <= n
      ensures Live(b, p[i]) && b.entries[p[i]].parent == (if i == 0 then None else Some(p[i - 1]))
      ensures |p[i]| == if i < n then i else last
    {
      ForkParent(m, if i < n then i else last);
    }
    assert Distinct(p) by {
      forall i, j | 0 <= i < j < |p| ensures p[i] != p[j] {
        assert |p[i]| < |p[j]|;
      }
    }
    ForkParent(m, 0);
  }

  lemma InWay(n: nat, last: nat, id: Id)
    ensures id in Way(n, last) <==> id == Name(|id|) && (|id| < n || |id| == last)
  {
    hide Name;
    var p := Way(n, last);
    if id == Name(|id|) && (|id| < n || |id| == last) {
      assert id == p[if |id| == last then n else |id|];
    }
  }

  /** After the seed m + 2: the chain and the entry m are open again. */
  function Reopened(m: nat): States
    requires m > 0
  {
    map id | id in Fork(m).entries :: if |id| <= m || m + 2 <= |id| <= m + 3 then Open else Done
  }

  /** After the seed m + 4: only the entry m + 3 is open. */
  function Refinished(m: nat): States
    requires m > 0
  {
    map id | id in Fork(m).entries :: if |id| == m + 3 then Open else Done
  }

  lemma TurnsReopened(m: nat)
    requires m > 0
    ensures Turned(Before(m), Way(m, m), Open) == Reopened(m)
  {
    hide Fork, Name, Way, WellFormed, Fits;
    ForkMembers(m);
    forall id | id in Fork(m).entries ensures Turned(Before(m), Way(m, m), Open)[id] == Reopened(m)[id] {
      InWay(m, m, id);
    }
  }

  lemma TurnsRefinished(m: nat)
    requires m > 0
    ensures Turned(Reopened(m), Way(m + 1, m + 2), Done) == Refinished(m)
  {
    hide Fork, Name, Way, WellFormed, Fits;
    ForkMembers(m);
    forall id | id in Fork(m).entries
      ensures Turned(Reopened(m), Way(m + 1, m + 2), Done)[id] == Refinished(m)[id]
    {
      InWay(m + 1, m + 2, id);
    }
  }

  lemma FirstTriggers(m: nat)
    requires m > 0
    ensures WellFormed(Fork(m)) && Fits(Fork(m), Before(m))
    ensures Triggers(Fork(m), Before(m), Name(m + 2), Way(m, m), Open)
  {
    hide Fork, Name, Branch, KidsAmong, Unfinished, WellFormed;
    var b := Fork(m);
    ForkMembers(m);
    WayIsBranch(m, m, m);
    ForkParent(m, m + 2);
    assert IsKid(b, Name(m), Name(m + 2)) && Name(m + 2) in Kids(b, Name(m));
  }

  /** Under `Reopened` every child of an entry on the second seed's branch is done or on it. */
  lemma SecondHangsDone(m: nat, i: nat)
    requires m > 0 && i <= m + 1
    ensures WellFormed(Fork(m)) && Fits(Fork(m), Reopened(m))
    ensures var p := Way(m + 1, m + 2);
      DoneUnder(Fork(m), Reopened(m), p[i], if i <= m then Some(p[i + 1]) else None)
  {
    hide Fork, Name, KidsAmong, WellFormed;
    ForkMembers(m);
    var b, p := Fork(m), Way(m + 1, m + 2);
    forall k | k in Kids(b, p[i])
      ensures Reopened(m)[k] == Done || (i <= m && k == p[i + 1])
    {
      KidOnFork(m, p[i], k);
      assert |p[i]| == Above(m, |k|);
    }
  }

  lemma LeafHasNoKids(m: nat)
    requires m > 0
    ensures Kids(Fork(m), Name(m + 4)) == []
  {
    hide Fork, Name, KidsAmong, WellFormed;
    var kids := Kids(Fork(m), Name(m + 4));
    HeadIsIn(kids);
    if kids != [] {
      KidOnFork(m, Name(m + 4), kids[0]);
    }
  }

  lemma SecondTriggers(m: nat)
    requires m > 0
    ensures WellFormed(Fork(m)) && Fits(Fork(m), Reopened(m))
    ensures Triggers(Fork(m), Reopened(m), Name(m + 4), Way(m + 1, m + 2), Done)
  {
    hide Fork, Name, Finishing, Reopening, KidsAmong, WellFormed;
    ForkMembers(m);
    ForkParent(m, m + 4);
    LeafHasNoKids(m);
    SecondFinishes(m);
  }

  lemma SecondFinishes(m: nat)
    requires m > 0
    ensures WellFormed(Fork(m)) && Fits(Fork(m), Reopened(m))
    ensures Finishing(Fork(m), Reopened(m), Way(m + 1, m + 2))
  {
    hide Fork, Name, Branch, KidsAmong, WellFormed, DoneUnder;
    var b, p := Fork(m), Way(m + 1, m + 2);
    ForkMembers(m);
    WayIsBranch(m, m + 1, m + 2);
    ForkParent(m, m + 4);
    assert IsKid(b, Name(m + 2), Name(m + 4)) && Name(m + 4) in Kids(b, Name(m + 2));
    forall i | 0 <= i <= m + 1
      ensures DoneUnder(b, Reopened(m), p[i], if i <= m then Some(p[i + 1]) else None)
    {
      SecondHangsDone(m, i);
    }
    SecondHangsDone(m, m + 1);
  }

  lemma ThirdTriggers(m: nat)
    requires m > 0
    ensures WellFormed(Fork(m)) && Fits(Fork(m), Refinished(m))
    ensures Triggers(Fork(m), Refinished(m), Name(m + 3), Way(m, m + 1), Open)
  {
    hide Fork, Name, Branch, KidsAmong, Unfinished, WellFormed;
    var b := Fork(m);
    ForkMembers(m);
    WayIsBranch(m, m, m + 1);
    ForkParent(m, m + 3);
    assert IsKid(b, Name(m + 1), Name(m + 3)) && Name(m + 3) in Kids(b, Name(m + 1));
  }

  /** The three passes cost 2m + 3, 2m + 5 and 2m + 3 steps; the third is cut short. */
  lemma ThreePasses(m: nat)
    requires m >= 14
    ensures WellFormed(Fork(m)) && Fits(Fork(m), Before(m))
    ensures
      var seeds := [Step(Name(m + 3), false), Step(Name(m + 4), false), Step(Name(m + 2), false)];
      var r := Run(Fork(m), Config(Before(m), seeds, []), 4 * m + 36);
      r.queue != [] && exists k :: Broken(Fork(m), r.state, k)
  {
    hide Fork, Name, Run, Triggers, Turned, Before, Reopened, Refinished, WellFormed, Fits, Broken;
    var b := Fork(m);
    TurnsReopened(m);
    TurnsRefinished(m);
    FirstTriggers(m);
    SecondTriggers(m);
    ThirdTriggers(m);
    var third, second, first := Step(Name(m + 3), false), Step(Name(m + 4), false), Step(Name(m + 2), false);
    assert [third, second, first] == [third, second] + [first];
    assert [third, second] == [third] + [second] && [third] == [] + [third];
    var log := SeedTurns(b, Before(m), [third, second], [], Name(m + 2), Way(m, m), Open, 4 * m + 36);
    var log' := SeedTurns(b, Reopened(m), [third], log, Name(m + 4), Way(m + 1, m + 2), Done, 2 * m + 33);
    SeedCutShort(b, Refinished(m), log', Name(m + 3), Way(m, m + 1), 28);
  }

  /**
   Two live seeds are the most the ceiling is good for: on this acyclic board, with everything
   done but two reopened entries, three written entries turn the chain three times, the ceiling
   ends the loop inside the third, and an unfinished entry is left under a finished one.
   */
  lemma ThreeLiveSeedsCanHitCeiling(m: nat)
    requires m >= 14
    ensures var b, written := Fork(m), [Name(m + 3), Name(m + 4), Name(m + 2)];
      && WellFormed(b) && Acyclic(b) && Fits(b, Before(m))
      && (forall i :: 0 <= i < 3 ==> Live(b, written[i]))
      && Cascade(b, Before(m), written, []).queue != []
      && exists k :: Broken(b, Cascade(b, Before(m), written, []).state, k)
  {
    hide Fork, Name, Run, Before, WellFormed, Fits, Acyclic, Broken, Live;
    var b, written := Fork(m), [Name(m + 3), Name(m + 4), Name(m + 2)];
    ForkSize(m);
    ForkIsAcyclic(m);
    ForkParent(m, m + 2);
    ForkParent(m, m + 3);
    ForkParent(m, m + 4);
    assert Seeds(written, []) == [Step(Name(m + 3), false), Step(Name(m + 4), false), Step(Name(m + 2), false)];
    ThreePasses(m);
  }

  /** The entries of `written` at the bottom of the stack are never reached. */
  lemma MoreSeedsAreNoHelp(m: nat, extra: seq<Id>)
    requires m >= 14
    ensures var b, written := Fork(m), extra + [Name(m + 3), Name(m + 4), Name(m + 2)];
      WellFormed(b) && Acyclic(b) && Fits(b, Before(m)) && Cascade(b, Before(m), written, []).queue != []
  {
    hide Fork, Name, Run, Before, WellFormed, Fits, Acyclic, Broken, Live;
    var b, three := Fork(m), [Name(m + 3), Name(m + 4), Name(m + 2)];
    ThreeLiveSeedsCanHitCeiling(m);
    var base, c := Seeds(extra, []), Config(Before(m), Seeds(three, []), []);
    assert Seeds(extra + three, []) == base + Seeds(three, []);
    RunOver(b, base, [], c, Ceiling(b));
    assert Over(base, [], c) == Config(Before(m), Seeds(extra + three, []), []);
  }

  /** Every acyclic cascade from `k` seeds drains. */
  ghost predicate CeilingSuffices(k: nat) {
    forall b, st, written, orphaned | WellFormed(b) && Fits(b, st) && Acyclic(b) && |written| + |orphaned| == k ::
      Cascade(b, st, written, orphaned).queue == []
  }

  /** The ceiling is enough for exactly those calls with at most two seeds. */
  lemma CeilingSufficesIff(k: nat)
    ensures CeilingSuffices(k) <==> k <= 2
  {
    hide Cascade, WellFormed, Fits, Acyclic, Fork, Before, Name;
    if k <= 2 {
      forall b, st, written, orphaned | WellFormed(b) && Fits(b, st) && Acyclic(b) && |written| + |orphaned| == k
        ensures Cascade(b, st, written, orphaned).queue == []
      {
        TwoSeedsNeverHitCeiling(b, st, written, orphaned);
      }
    } else {
      var extra := seq(k - 3, _ => Name(0));
      MoreSeedsAreNoHelp(14, extra);
      var b, st, written := Fork(14), Before(14), extra + [Name(17), Name(18), Name(16)];
      var none: seq<Id> := [];
      assert |written| + |none| == k && Cascade(b, st, written, none).queue != [];
    }
  }
}
