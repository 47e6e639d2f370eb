/** A list of seeds behaves as one-seed cascades run in turn, the last seed first. */
module BoardCascadeSequence {
  import opened Common
  import opened BoardCascade
  import opened BoardCascadeClosure
  import opened BoardCascadeBounds

  /** `c` on top of older pending steps and an older change log. */
  ghost function Over(base: seq<Step>, log: seq<Change>, c: Config): Config {
    Config(c.state, base + c.queue, log + c.changes)
  }

  lemma TakeOver(b: Board, base: seq<Step>, log: seq<Change>, c: Config)
    requires WellFormed(b) && Fits(b, c.state) && c.queue != []
    ensures Take(b, Over(base, log, c)) == Over(base, log, Take(b, c))
  {
    hide KidsAmong, SettledState, Downward, Finish, Finishes, Pushes, ParentStep;
    var n := |c.queue| - 1;
    var whole := Over(base, log, c);
    assert whole.queue[..|whole.queue| - 1] == base + c.queue[..n];
    assert whole.queue[|whole.queue| - 1] == c.queue[n];
  }

  /** Steps a run uses before it drains or runs out of fuel. */
  ghost function Cost(b: Board, c: Config, fuel: nat): (k: nat)
    requires WellFormed(b) && Fits(b, c.state)
    ensures k <= fuel
    decreases fuel
  {
    if fuel == 0 || c.queue == [] then 0 else 1 + Cost(b, Take(b, c), fuel - 1)
  }

  lemma {:induction false} MoreFuel(b: Board, c: Config, fuel: nat, more: nat)
    requires WellFormed(b) && Fits(b, c.state) && fuel <= more && Run(b, c, fuel).queue == []
    ensures Run(b, c, more) == Run(b, c, fuel)
    decreases fuel
  {
    hide Take;
    if fuel != 0 && c.queue != [] {
      MoreFuel(b, Take(b, c), fuel - 1, more - 1);
    }
  }

  /** Steps pending underneath are not touched until everything above them is done. */
  lemma {:induction false} RunOver(b: Board, base: seq<Step>, log: seq<Change>, c: Config, fuel: nat)
    requires WellFormed(b) && Fits(b, c.state)
    ensures var r := Run(b, c, fuel);
      Run(b, Over(base, log, c), fuel) ==
        if r.queue == [] then Run(b, Over(base, log, r), fuel - Cost(b, c, fuel)) else Over(base, log, r)
    decreases fuel
  {
    hide Take;
    if fuel != 0 && c.queue != [] {
      TakeOver(b, base, log, c);
      RunOver(b, base, log, Take(b, c), fuel - 1);
    }
  }

  function OneSeed(b: Board, st: States, seed: Step): (r: Config)
    requires WellFormed(b) && Fits(b, st)
    ensures Fits(b, r.state)
  {
    Run(b, Config(st, [seed], []), PassBound(b))
  }

  /** The seeds cascaded one after the other, from the last to the first. */
  function InTurn(b: Board, st: States, seeds: seq<Step>, log: seq<Change>): Config
    requires WellFormed(b) && Fits(b, st)
    decreases |seeds|
  {
    if seeds == [] then Config(st, [], log)
    else
      var n := |seeds| - 1;
      var one := OneSeed(b, st, seeds[n]);
      InTurn(b, one.state, seeds[..n], log + one.changes)
  }

  /**
   On an acyclic board a worklist that drains has run its seeds one at a time, last first, and it
   drains whenever 2n + 2 steps per seed are allowed.
   */
  lemma {:induction false} SeedsRunInTurn(b: Board, st: States, seeds: seq<Step>, log: seq<Change>, fuel: nat)
    requires WellFormed(b) && Fits(b, st) && Acyclic(b)
    ensures var r := Run(b, Config(st, seeds, log), fuel);
      && (r.queue == [] ==> r == InTurn(b, st, seeds, log))
      && (fuel >= |seeds| * PassBound(b) ==> r.queue == [])
    decreases |seeds|
  {
    hide Take, PassBound;
    if seeds != [] {
      var n := |seeds| - 1;
      var top := Config(st, [seeds[n]], []);
      var whole := Config(st, seeds, log);
      assert Over(seeds[..n], log, top) == whole;
      OneSeedDrains(b, st, seeds[n]);
      RunOver(b, seeds[..n], log, top, fuel);
      assert |seeds| * PassBound(b) == n * PassBound(b) + PassBound(b);
      if fuel >= PassBound(b) {
        MoreFuel(b, top, PassBound(b), fuel);
        CostWithin(b, top, PassBound(b), fuel);
      } else if Run(b, top, fuel).queue == [] {
        MoreFuel(b, top, fuel, PassBound(b));
      }
      var one := Run(b, top, fuel);
      if one.queue == [] {
        var rest := fuel - Cost(b, top, fuel);
        assert Over(seeds[..n], log, one) == Config(one.state, seeds[..n], log + one.changes);
        SeedsRunInTurn(b, one.state, seeds[..n], log + one.changes, rest);
      }
    }
  }

  lemma {:induction false} CostWithin(b: Board, c: Config, fuel: nat, more: nat)
    requires WellFormed(b) && Fits(b, c.state) && fuel <= more && Run(b, c, fuel).queue == []
    ensures Cost(b, c, more) <= fuel
    decreases fuel
  {
    hide Take;
    if fuel != 0 && c.queue != [] {
      CostWithin(b, Take(b, c), fuel - 1, more - 1);
    }
  }

  lemma TwoPassesFit(b: Board, k: nat)
    requires k <= 2
    ensures k * PassBound(b) <= Ceiling(b)
  {
    assert k == 0 || k == 1 || k == 2;
  }

  /** With at most two seeds the ceiling of 4n + 16 steps never stops an acyclic cascade. */
  lemma TwoSeedsNeverHitCeiling(b: Board, st: States, written: seq<Id>, orphaned: seq<Id>)
    requires WellFormed(b) && Fits(b, st) && Acyclic(b)
    requires |written| + |orphaned| <= 2
    ensures Cascade(b, st, written, orphaned) == InTurn(b, st, Seeds(written, orphaned), [])
    ensures Cascade(b, st, written, orphaned).queue == []
  {
    hide Take, Run, InTurn, Acyclic, Seeds, WellFormed, PassBound, Ceiling;
    var seeds := Seeds(written, orphaned);
    TwoPassesFit(b, |seeds|);
    SeedsRunInTurn(b, st, seeds, [], Ceiling(b));
  }

  // ----- With more seeds the ceiling can bite -----

  lemma {:induction false} AbsentSeedsOnlyBurnSteps(b: Board, st: States, base: seq<Step>, absent: seq<Step>, fuel: nat)
    requires WellFormed(b) && Fits(b, st) && fuel <= |absent|
    requires forall i :: 0 <= i < |absent| ==> !Live(b, absent[i].id)
    ensures Run(b, Config(st, base + absent, []), fuel) == Config(st, base + absent[..|absent| - fuel], [])
    decreases fuel
  {
    var c := Config(st, base + absent, []);
    if fuel == 0 {
      assert absent[..|absent|] == absent;
    } else {
      var n := |absent| - 1;
      assert c.queue[|c.queue| - 1] == absent[n] && c.queue[..|c.queue| - 1] == base + absent[..n];
      AbsentSeedsOnlyBurnSteps(b, st, base, absent[..n], fuel - 1);
      assert absent[..n][..n - (fuel - 1)] == absent[..|absent| - fuel];
    }
  }

  /** Ids popped first that are no longer on the board can use up the whole ceiling. */
  lemma AbsentIdsStarveWrites(b: Board, st: States, written: seq<Id>, absent: seq<Id>)
    requires WellFormed(b) && Fits(b, st) && |absent| >= Ceiling(b)
    requires forall i :: 0 <= i < |absent| ==> !Live(b, absent[i])
    ensures Cascade(b, st, written + absent, []).state == st
    ensures written != [] ==> Cascade(b, st, written + absent, []).queue != []
  {
    hide Ceiling;
    var gone := Seeds(absent, []);
    assert forall i :: 0 <= i < |absent| ==> gone[i].id == absent[i];
    assert Seeds(written + absent, []) == Seeds(written, []) + gone;
    AbsentSeedsOnlyBurnSteps(b, st, Seeds(written, []), gone, Ceiling(b));
  }

  /** `n` distinct ids of two characters or more. */
  function Strays(n: nat): (ids: seq<Id>)
    ensures |ids| == n && forall i :: 0 <= i < n ==> |ids[i]| == i + 2
  {
    seq(n, i requires i >= 0 => seq(i + 2, _ => 'x'))
  }

  function TwoEntries(): Board {
    Board(["p", "c"], map["p" := Entry("P", None, None), "c" := Entry("C", Some("p"), None)])
  }

  lemma TwoEntriesFacts()
    ensures var b := TwoEntries(); WellFormed(b) && Acyclic(b) && |b.entries| == 2
    ensures forall id :: id in TwoEntries().entries ==> |id| == 1
  {
    var b := TwoEntries();
    assert b.order[0] == "p" && b.order[1] == "c" && b.entries.Keys == {"p", "c"};
    assert Ranked(b, map["p" := 0, "c" := 1]);
  }

  /**
   The ceiling is not only a guard against cycles: on this acyclic two-entry board a written child
   followed by 24 distinct ids that are no longer on the board is never looked at, and its
   finished parent stays finished.
   */
  lemma CeilingCanStarveAWrite()
    ensures
      var b, st := TwoEntries(), map["p" := Done, "c" := Open];
      && WellFormed(b) && Fits(b, st) && Acyclic(b)
      && Distinct(["c"] + Strays(24))
      && Cascade(b, st, ["c"] + Strays(24), []).queue != []
      && Broken(b, Cascade(b, st, ["c"] + Strays(24), []).state, "c")
  {
    hide Cascade, WellFormed, Acyclic, Strays;
    var b, st := TwoEntries(), map["p" := Done, "c" := Open];
    TwoEntriesFacts();
    AbsentIdsStarveWrites(b, st, ["c"], Strays(24));
  }
}
