/** How long a cascade runs: step accounting, one change per entry per seed, and the ceiling. */
module BoardCascadeBounds {
  import opened Common
  import opened BoardCascade

  // ----- Accounting: every change pays for two steps -----

  ghost function Plain(q: seq<Step>): nat {
    if q == [] then 0 else Plain(q[..|q| - 1]) + if q[|q| - 1].derive then 0 else 1
  }

  /** A pending plain step may still push one derive step, so it weighs two. */
  ghost function Weight(q: seq<Step>): nat {
    |q| + Plain(q)
  }

  lemma {:induction false} PlainAppend(q: seq<Step>, r: seq<Step>)
    ensures Plain(q + r) == Plain(q) + Plain(r)
  {
    if r == [] {
      assert q + r == q;
    } else {
      var n := |r| - 1;
      assert (q + r)[..|q + r| - 1] == q + r[..n];
      PlainAppend(q, r[..n]);
    }
  }

  lemma {:induction false} PlainPushes(ids: seq<Id>)
    ensures Plain(Pushes(ids)) == |ids|
  {
    if ids != [] {
      var n := |ids| - 1;
      assert Pushes(ids)[..n] == Pushes(ids[..n]);
      PlainPushes(ids[..n]);
    }
  }

  lemma TakeWeight(b: Board, c: Config)
    requires WellFormed(b) && Fits(b, c.state) && c.queue != []
    ensures var r := Take(b, c);
      1 + Weight(r.queue) + 2 * |c.changes| <= Weight(c.queue) + 2 * |r.changes|
  {
    var n := |c.queue| - 1;
    var id, rest := c.queue[n].id, c.queue[..n];
    if Live(b, id) {
      if c.queue[n].derive {
        PlainAppend(rest, [Step(id, false)]);
      } else {
        var u := Downward(b, c.state, id);
        PlainAppend(rest + Pushes(u), ParentStep(b, id));
        PlainAppend(rest, Pushes(u));
        PlainPushes(u);
      }
    }
  }

  /** A run still busy after `fuel` steps has paid for all of them with its changes. */
  lemma {:induction false} StepsArePaidFor(b: Board, c: Config, fuel: nat)
    requires WellFormed(b) && Fits(b, c.state)
    ensures var r := Run(b, c, fuel);
      r.queue != [] ==> fuel + Weight(r.queue) + 2 * |c.changes| <= Weight(c.queue) + 2 * |r.changes|
    decreases fuel
  {
    if fuel != 0 && c.queue != [] {
      TakeWeight(b, c);
      StepsArePaidFor(b, Take(b, c), fuel - 1);
    }
  }

  // ----- One seed changes each entry at most once -----

  /** `rank` witnesses that parent chains are acyclic: a present parent ranks below its child. */
  ghost predicate Ranked(b: Board, rank: map<Id, nat>) {
    && rank.Keys == b.entries.Keys
    && forall id :: id in b.entries && b.entries[id].parent.Some? && b.entries[id].parent.value in b.entries ==>
      rank[b.entries[id].parent.value] < rank[id]
  }

  ghost predicate Acyclic(b: Board) {
    exists rank :: Ranked(b, rank)
  }

  ghost predicate OncePerEntry(changes: seq<Change>) {
    forall i, j :: 0 <= i < j < |changes| ==> changes[i].id != changes[j].id
  }

  /** Nothing around `p` moves any more: `p` and all its live children are finished. */
  ghost predicate Calm(b: Board, st: States, p: Id)
    requires WellFormed(b) && Fits(b, st)
  {
    p in st && Terminal(st[p]) && forall k :: k in Kids(b, p) ==> Terminal(st[k])
  }

  /** A step below the seed: its entry was finished by a parent around which all is calm. */
  ghost predicate Descending(b: Board, st: States, rank: map<Id, nat>, low: nat, s: Step)
    requires WellFormed(b) && Ranked(b, rank) && Fits(b, st)
  {
    && !s.derive && Live(b, s.id) && rank[s.id] > low && Terminal(st[s.id])
    && b.entries[s.id].parent.Some?
    && Calm(b, st, b.entries[s.id].parent.value)
    && rank[b.entries[s.id].parent.value] >= low
  }

  /** A step above the seed: it climbs past every entry the climb has changed so far. */
  ghost predicate Climbing(b: Board, c: Config, rank: map<Id, nat>, low: nat, s: Step)
    requires WellFormed(b) && Ranked(b, rank) && Fits(b, c.state)
  {
    s.id in b.entries ==>
      if s.derive then
        && rank[s.id] < low
        && forall i :: 0 <= i < |c.changes| ==> c.changes[i].id in rank && rank[c.changes[i].id] > rank[s.id]
      else
        && rank[s.id] <= low
        && (Terminal(c.state[s.id]) ==> Calm(b, c.state, s.id))
        && forall i :: 0 <= i < |c.changes| ==> c.changes[i].id in rank && rank[c.changes[i].id] >= rank[s.id]
  }

  ghost predicate Echo(b: Board, st: States, rank: map<Id, nat>, low: nat, s: Step)
    requires WellFormed(b) && Ranked(b, rank) && Fits(b, st)
  {
    s.derive && Calm(b, st, s.id) && rank[s.id] >= low
  }

  ghost predicate QueueShape(b: Board, c: Config, rank: map<Id, nat>, low: nat)
    requires WellFormed(b) && Ranked(b, rank) && Fits(b, c.state)
  {
    && (forall i :: 0 <= i < |c.queue| - 1 ==> Descending(b, c.state, rank, low, c.queue[i]))
    && (c.queue != [] ==>
         var top := c.queue[|c.queue| - 1];
         || Descending(b, c.state, rank, low, top)
         || Echo(b, c.state, rank, low, top)
         || Climbing(b, c, rank, low, top))
  }

  ghost predicate LogShape(b: Board, c: Config, rank: map<Id, nat>, low: nat)
    requires Ranked(b, rank) && Fits(b, c.state)
  {
    && OncePerEntry(c.changes)
    && forall i :: 0 <= i < |c.changes| ==>
         var id := c.changes[i].id;
         id in b.entries && (rank[id] > low ==> Terminal(c.state[id]))
  }

  /** The shape of a one-seed run once its seed, of rank `low`, has been taken. */
  ghost predicate OnePass(b: Board, c: Config, rank: map<Id, nat>, low: nat)
    requires WellFormed(b) && Ranked(b, rank) && Fits(b, c.state)
  {
    QueueShape(b, c, rank, low) && LogShape(b, c, rank, low)
  }

  lemma HeadIsIn<T>(s: seq<T>)
    ensures s == [] || s[0] in s
  {
  }

  /** A descending step stays one as long as nothing at or below the seed is unfinished again. */
  lemma DescendingKept(b: Board, st: States, st': States, rank: map<Id, nat>, low: nat, s: Step)
    requires WellFormed(b) && Ranked(b, rank) && Fits(b, st) && Fits(b, st')
    requires Descending(b, st, rank, low, s)
    requires forall id :: id in st && rank[id] >= low && Terminal(st[id]) ==> Terminal(st'[id])
    ensures Descending(b, st', rank, low, s)
  {
  }

  lemma DescendingQueue(b: Board, c: Config, rank: map<Id, nat>, low: nat)
    requires WellFormed(b) && Ranked(b, rank) && Fits(b, c.state) && c.queue != [] && QueueShape(b, c, rank, low)
    requires Descending(b, c.state, rank, low, c.queue[|c.queue| - 1])
    ensures QueueShape(b, Take(b, c), rank, low)
  {
    hide KidsAmong, Unfinished, SettledState, Downward;
    var n, c' := |c.queue| - 1, Take(b, c);
    var id := c.queue[n].id;
    var u := Downward(b, c.state, id);
    assert c'.queue == c.queue[..n] + Pushes(u) + ParentStep(b, id);
    forall i | 0 <= i < n + |u| ensures Descending(b, c'.state, rank, low, c'.queue[i]) {
      if i < n {
        DescendingKept(b, c.state, c'.state, rank, low, c.queue[i]);
      } else {
        assert c'.queue[i] == Step(u[i - n], false) && u[i - n] in u;
      }
    }
    assert Echo(b, c'.state, rank, low, c'.queue[n + |u|]);
  }

  lemma DescendingLog(b: Board, c: Config, rank: map<Id, nat>, low: nat)
    requires WellFormed(b) && Ranked(b, rank) && Fits(b, c.state) && c.queue != [] && LogShape(b, c, rank, low)
    requires Descending(b, c.state, rank, low, c.queue[|c.queue| - 1])
    ensures LogShape(b, Take(b, c), rank, low)
  {
    hide KidsAmong, Unfinished, SettledState, Downward;
  }

  lemma ClimbPlain(b: Board, c: Config, rank: map<Id, nat>, low: nat)
    requires WellFormed(b) && Ranked(b, rank) && Fits(b, c.state) && c.queue != [] && OnePass(b, c, rank, low)
    requires var s := c.queue[|c.queue| - 1]; Climbing(b, c, rank, low, s) && Live(b, s.id) && !s.derive
    ensures OnePass(b, Take(b, c), rank, low)
  {
    var n, c' := |c.queue| - 1, Take(b, c);
    var id := c.queue[n].id;
    var u := Downward(b, c.state, id);
    assert forall k :: k !in u;
    HeadIsIn(u);
    assert c'.state == c.state && c'.changes == c.changes;
    assert c'.queue == c.queue[..n] + ParentStep(b, id);
  }

  lemma ClimbDeriveQueue(b: Board, c: Config, rank: map<Id, nat>, low: nat, to: State)
    requires WellFormed(b) && Ranked(b, rank) && Fits(b, c.state) && c.queue != [] && QueueShape(b, c, rank, low)
    requires var s := c.queue[|c.queue| - 1];
      Climbing(b, c, rank, low, s) && Live(b, s.id) && s.derive && SettledState(b, c.state, s.id) == Some(to)
    ensures QueueShape(b, Take(b, c), rank, low)
  {
    hide KidsAmong, Unfinished, Downward;
    var n, c' := |c.queue| - 1, Take(b, c);
    var id := c.queue[n].id;
    assert c'.state == c.state[id := to] && c'.queue == c.queue[..n] + [Step(id, false)];
    assert Terminal(to) ==> Calm(b, c'.state, id);
  }

  lemma ClimbDeriveLog(b: Board, c: Config, rank: map<Id, nat>, low: nat, to: State)
    requires WellFormed(b) && Ranked(b, rank) && Fits(b, c.state) && c.queue != [] && LogShape(b, c, rank, low)
    requires var s := c.queue[|c.queue| - 1];
      Climbing(b, c, rank, low, s) && Live(b, s.id) && s.derive && SettledState(b, c.state, s.id) == Some(to)
    ensures LogShape(b, Take(b, c), rank, low)
  {
  }

  lemma OnePassStep(b: Board, c: Config, rank: map<Id, nat>, low: nat)
    requires WellFormed(b) && Ranked(b, rank) && Fits(b, c.state) && c.queue != [] && OnePass(b, c, rank, low)
    ensures OnePass(b, Take(b, c), rank, low)
  {
    var top := c.queue[|c.queue| - 1];
    if Descending(b, c.state, rank, low, top) {
      DescendingQueue(b, c, rank, low);
      DescendingLog(b, c, rank, low);
    } else if Climbing(b, c, rank, low, top) {
      if Live(b, top.id) && !top.derive {
        ClimbPlain(b, c, rank, low);
      } else if Live(b, top.id) && SettledState(b, c.state, top.id).Some? {
        var to := SettledState(b, c.state, top.id).value;
        ClimbDeriveQueue(b, c, rank, low, to);
        ClimbDeriveLog(b, c, rank, low, to);
      }
    } else {
      assert Take(b, c) == c.(queue := c.queue[..|c.queue| - 1]);
    }
  }

  lemma {:induction false} OnePassRun(b: Board, c: Config, fuel: nat, rank: map<Id, nat>, low: nat)
    requires WellFormed(b) && Ranked(b, rank) && Fits(b, c.state) && OnePass(b, c, rank, low)
    ensures OnePass(b, Run(b, c, fuel), rank, low)
    decreases fuel
  {
    hide OnePass, Take;
    if fuel != 0 && c.queue != [] {
      OnePassStep(b, c, rank, low);
      OnePassRun(b, Take(b, c), fuel - 1, rank, low);
    }
  }

  ghost function SeedRank(rank: map<Id, nat>, seed: Step): nat {
    if seed.id in rank then rank[seed.id] else 0
  }

  lemma PlainSeedTaken(b: Board, st: States, id: Id, rank: map<Id, nat>)
    requires WellFormed(b) && Ranked(b, rank) && Fits(b, st) && Live(b, id)
    ensures OnePass(b, Take(b, Config(st, [Step(id, false)], [])), rank, rank[id])
  {
    hide KidsAmong, Unfinished, SettledState, Downward;
    var u, c' := Downward(b, st, id), Take(b, Config(st, [Step(id, false)], []));
    assert c'.queue == Pushes(u) + ParentStep(b, id);
    assert Terminal(st[id]) ==> Calm(b, c'.state, id);
    forall i | 0 <= i < |u|
      ensures Descending(b, c'.state, rank, rank[id], c'.queue[i]) && c'.changes[i].id in u
    {
      assert c'.queue[i] == Step(u[i], false) && u[i] in u;
    }
    assert b.entries[id].parent.Some? ==> Climbing(b, c', rank, rank[id], c'.queue[|u|]);
  }

  /** Taking the seed itself establishes the shape. */
  lemma SeedTaken(b: Board, st: States, seed: Step, rank: map<Id, nat>)
    requires WellFormed(b) && Ranked(b, rank) && Fits(b, st)
    ensures OnePass(b, Take(b, Config(st, [seed], [])), rank, SeedRank(rank, seed))
  {
    if Live(b, seed.id) && !seed.derive {
      PlainSeedTaken(b, st, seed.id, rank);
    } else if Live(b, seed.id) && SettledState(b, st, seed.id).Some? {
      var c' := Take(b, Config(st, [seed], []));
      assert c'.queue == [Step(seed.id, false)];
      assert Terminal(c'.state[seed.id]) ==> Calm(b, c'.state, seed.id);
      assert Climbing(b, c', rank, rank[seed.id], c'.queue[0]);
    }
  }

  lemma {:induction false} OneSeedOnce(b: Board, st: States, seed: Step, fuel: nat)
    requires WellFormed(b) && Fits(b, st) && Acyclic(b)
    ensures var r := Run(b, Config(st, [seed], []), fuel);
      OncePerEntry(r.changes) && |r.changes| <= |b.entries|
  {
    hide Take, QueueShape;
    var rank :| Ranked(b, rank);
    if fuel != 0 {
      SeedTaken(b, st, seed, rank);
      OnePassRun(b, Take(b, Config(st, [seed], [])), fuel - 1, rank, SeedRank(rank, seed));
    }
    var r := Run(b, Config(st, [seed], []), fuel);
    var ids := seq(|r.changes|, i requires 0 <= i < |r.changes| => r.changes[i].id);
    DistinctLength(ids, b.entries.Keys);
  }

  /** Steps one seed can need. */
  function PassBound(b: Board): nat {
    2 * |b.entries| + 2
  }

  /**
   On an acyclic board a cascade from one seed drains within 2n + 2 steps and changes no entry twice.
   */
  lemma OneSeedDrains(b: Board, st: States, seed: Step)
    requires WellFormed(b) && Fits(b, st) && Acyclic(b)
    ensures var r := Run(b, Config(st, [seed], []), PassBound(b));
      r.queue == [] && OncePerEntry(r.changes)
  {
    var c := Config(st, [seed], []);
    OneSeedOnce(b, st, seed, PassBound(b));
    StepsArePaidFor(b, c, PassBound(b));
    assert c.queue[..0] == [];
    assert Plain(c.queue) <= 1;
  }
}
