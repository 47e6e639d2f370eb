/** Rebalancing a sibling group and placing a new member at its end. */
module BoardPlacement {
  import opened Common
  import opened RankOrder
  import opened BoardRank

  /** One more than the number of mintable ranks. */
  ghost function Capacity(): nat {
    Pow(RANK_MAX_LENGTH)
  }

  /** New ranks for a whole group, with the two checks on them that may throw. */
  method RebalanceRanks(count: int) returns (r: Result<seq<string>>)
    ensures count <= 0 ==> r == Ok([])
    ensures count > 0 ==> (r.Ok? <==> count + 1 <= Capacity())
    ensures r.Ok? && count > 0 ==>
      && |r.value| == count && AllValid(r.value) && Increasing(r.value)
      && exists w :: NarrowestWidth(count, w) && forall i :: 0 <= i < count ==> r.value[i] == FreshRank(i, count, w)
  {
    hide FreshRank, Capacity;
    if count <= 0 {
      return Ok([]);
    }
    var width, slots := 1, BASE;
    assert Pow(0) == 1 && Pow(1) == BASE;
    while slots <= count + 1
      invariant width >= 1 && slots == Pow(width) && Pow(width - 1) <= count + 1
      decreases count + 1 - slots
    {
      width := width + 1;
      slots := slots * BASE;
    }
    var out: seq<string> := [];
    for i := 0 to count
      invariant |out| == i && forall j :: 0 <= j < i ==> out[j] == FreshRank(j, count, width)
    {
      var rank := MintSlot(i, count, slots, width);
      out := out + [rank];
    }
    for i := 0 to |out|
      invariant AllValid(out[..i]) && Increasing(out[..i])
      invariant i > 0 ==> count + 1 <= Capacity()
    {
      SelfCheck(i, count, width);
      assert out[..i + 1] == out[..i] + [out[i]];
      if !IsValidRank(out[i]) {
        return Err("rebalance minted an invalid rank");
      }
      if i > 0 {
        SelfCheckOrder(i, count, width);
        if !Less(out[i - 1], out[i]) {
          return Err("rebalance produced a non-increasing pair");
        }
      }
    }
    assert out[..|out|] == out && NarrowestWidth(count, width);
    return Ok(out);
  }

  /** One slot written in base 62, digit by digit from the right, trailing zeros removed. */
  method MintSlot(i: nat, count: nat, slots: nat, width: nat) returns (rank: string)
    requires slots == Pow(width)
    ensures rank == FreshRank(i, count, width)
  {
    var slot: nat := Slot(i, count, slots);
    rank := "";
    ghost var x: nat := slot;
    assert Numeral(slot, width) + "" == Numeral(slot, width);
    for d := 0 to width
      invariant Numeral(x, width) == Numeral(slot, width - d) + rank
    {
      var digit := [Digit(slot % BASE)];
      assert Numeral(slot / BASE, width - d - 1) + digit + rank == Numeral(slot / BASE, width - d - 1) + (digit + rank);
      rank := digit + rank;
      slot := slot / BASE;
    }
    assert Numeral(x, width) == rank;
    rank := Strip(rank);
  }

  lemma SelfCheck(i: nat, count: nat, width: nat)
    requires i < count && NarrowestWidth(count, width)
    ensures count + 1 <= Capacity() ==> IsValidRank(FreshRank(i, count, width))
    ensures i == 0 && count + 1 > Capacity() ==> !IsValidRank(FreshRank(i, count, width))
  {
    hide FreshRank, Pow;
    FreshRankIsMintable(i, count, width);
    if count + 1 <= Capacity() {
      FreshRankFits(i, count, width, RANK_MAX_LENGTH);
    } else {
      TooManySiblings(count, width, RANK_MAX_LENGTH);
    }
  }

  lemma SelfCheckOrder(i: nat, count: nat, width: nat)
    requires 0 < i < count && NarrowestWidth(count, width)
    ensures Less(FreshRank(i - 1, count, width), FreshRank(i, count, width))
  {
    FreshRanksIncrease(i - 1, count, width);
  }

  // ----- Placing a member at the end -----

  datatype Sibling = Sibling(id: string, rank: string)

  datatype Placement = Placement(rank: string, rebalanced: seq<Sibling>)

  /** The sort's order: by rank, equal ranks in their original order. */
  predicate SortsBefore(s: seq<Sibling>, x: nat, y: nat)
    requires x < |s| && y < |s|
  {
    Less(s[x].rank, s[y].rank) || (s[x].rank == s[y].rank && x < y)
  }

  lemma SortsBeforeTransitive(s: seq<Sibling>, x: nat, y: nat, z: nat)
    requires x < |s| && y < |s| && z < |s| && SortsBefore(s, x, y) && SortsBefore(s, y, z)
    ensures SortsBefore(s, x, z)
  {
    if Less(s[x].rank, s[y].rank) && Less(s[y].rank, s[z].rank) {
      LessTransitive(s[x].rank, s[y].rank, s[z].rank);
    }
  }

  /** Distinct positions below `n`, in sort order. */
  ghost predicate InSortOrder(s: seq<Sibling>, p: seq<nat>, n: nat)
    requires n <= |s|
  {
    && Distinct(p) && (forall i :: 0 <= i < |p| ==> p[i] < n)
    && forall i, j :: 0 <= i < j < |p| ==> SortsBefore(s, p[i], p[j])
  }

  function InsertPosition(s: seq<Sibling>, p: seq<nat>, x: nat): (q: seq<nat>)
    requires x < |s| && forall i :: 0 <= i < |p| ==> p[i] < x
    ensures |q| == |p| + 1 && forall y :: y in q ==> y in p || y == x
  {
    if p == [] then [x]
    else
      var m := |p| - 1;
      if Less(s[x].rank, s[p[m]].rank) then InsertPosition(s, p[..m], x) + [p[m]] else p + [x]
  }

  lemma AppendKeepsOrder(s: seq<Sibling>, q: seq<nat>, y: nat, n: nat)
    requires y < n <= |s| && InSortOrder(s, q, n) && y !in q
    requires forall i :: 0 <= i < |q| ==> SortsBefore(s, q[i], y)
    ensures InSortOrder(s, q + [y], n)
  {
    hide SortsBefore;
  }

  lemma {:induction false} InsertKeepsOrder(s: seq<Sibling>, p: seq<nat>, x: nat)
    requires x < |s| && InSortOrder(s, p, x)
    ensures InSortOrder(s, InsertPosition(s, p, x), x + 1)
  {
    if p != [] {
      var m := |p| - 1;
      if Less(s[x].rank, s[p[m]].rank) {
        InsertKeepsOrder(s, p[..m], x);
        var q := InsertPosition(s, p[..m], x);
        assert forall i :: 0 <= i < |q| ==> q[i] in q;
        AppendKeepsOrder(s, q, p[m], x + 1);
      } else {
        LessTotal(s[x].rank, s[p[m]].rank);
        forall i | 0 <= i < m ensures SortsBefore(s, p[i], x) {
          SortsBeforeTransitive(s, p[i], p[m], x);
        }
        AppendKeepsOrder(s, p, x, x + 1);
      }
    }
  }

  /** The positions of the first `n` siblings in sort order. */
  function Positions(s: seq<Sibling>, n: nat): (p: seq<nat>)
    requires n <= |s|
    ensures |p| == n && InSortOrder(s, p, n)
  {
    if n == 0 then []
    else
      InsertKeepsOrder(s, Positions(s, n - 1), n - 1);
      InsertPosition(s, Positions(s, n - 1), n - 1)
  }

  predicate AllInAlphabet(s: seq<Sibling>) {
    forall i :: 0 <= i < |s| ==> InAlphabet(s[i].rank)
  }

  function Ranks(s: seq<Sibling>): (r: seq<string>)
    ensures |r| == |s|
  {
    seq(|s|, i requires 0 <= i < |s| => s[i].rank)
  }

  /** The highest rank; the empty string, below every rank, for an empty group. */
  function Highest(ranks: seq<string>): (h: string)
    ensures h == "" || h in ranks
    ensures forall i :: 0 <= i < |ranks| ==> ranks[i] == h || Less(ranks[i], h)
  {
    if ranks == [] then ""
    else
      var n := |ranks| - 1;
      var h := Highest(ranks[..n]);
      LessTotal(ranks[n], h);
      assert forall i :: 0 <= i < n ==> Less(ranks[i], h) && Less(h, ranks[n]) ==> Less(ranks[i], ranks[n]) by {
        forall i | 0 <= i < n && Less(ranks[i], h) && Less(h, ranks[n]) ensures Less(ranks[i], ranks[n]) {
          LessTransitive(ranks[i], h, ranks[n]);
        }
      }
      assert forall i :: 0 <= i < n ==> ranks[i] == ranks[..n][i];
      if Less(h, ranks[n]) then ranks[n] else h
  }

  /** What a group would mint for its next member. */
  function NextRank(ranks: seq<string>): string
    requires forall i :: 0 <= i < |ranks| ==> InAlphabet(ranks[i])
  {
    Mid(Highest(ranks), None)
  }

  lemma NextRankIsAbove(ranks: seq<string>)
    requires forall i :: 0 <= i < |ranks| ==> InAlphabet(ranks[i])
    ensures var r := NextRank(ranks);
      Trimmed(r) && InAlphabet(r) && forall i :: 0 <= i < |ranks| ==> Less(ranks[i], r)
  {
    var h := Highest(ranks);
    AboveOpenEnd(h);
    forall i | 0 <= i < |ranks| ensures Less(ranks[i], NextRank(ranks)) {
      if ranks[i] != h {
        LessTransitive(ranks[i], h, NextRank(ranks));
      }
    }
  }

  // ----- The rank after a rebalance -----

  function Nines(w: nat): (s: string)
    ensures |s| == w && InAlphabet(s)
  {
    seq(w, _ => 'z')
  }

  /** Above a string that is not `w` times "z" the open-ended midpoint needs at most `w` characters. */
  lemma {:induction false} MidStaysWithin(a: string, w: nat)
    requires InAlphabet(a) && |a| <= w && a != Nines(w)
    ensures |Mid(a, None)| <= w
  {
    if a != [] && a[0] == 'z' {
      assert a == ['z'] + a[1..] && Nines(w) == ['z'] + Nines(w - 1);
      MidStaysWithin(a[1..], w - 1);
    }
  }

  lemma {:induction false} MidAboveNines(w: nat)
    ensures |Mid(Nines(w), None)| == w + 1
  {
    if w != 0 {
      assert Nines(w)[1..] == Nines(w - 1);
      MidAboveNines(w - 1);
    }
  }

  lemma {:induction false} NumeralOfNines(x: nat, w: nat)
    requires x < Pow(w)
    ensures Numeral(x, w) == Nines(w) <==> x + 1 == Pow(w)
  {
    if w != 0 {
      NumeralOfNines(x / BASE, w - 1);
      var s := Numeral(x, w);
      assert s[..w - 1] == Numeral(x / BASE, w - 1) && s[w - 1] == Digit(x % BASE);
      assert Nines(w) == Nines(w - 1) + ['z'] && Nines(w)[..w - 1] == Nines(w - 1);
    }
  }

  /** The last fresh rank leaves room for one more within the same width. */
  lemma TailFits(count: nat, width: nat)
    requires count > 0 && count + 1 < Pow(width)
    ensures |Mid(FreshRank(count - 1, count, width), None)| <= width
  {
    var d, s := count + 1, Pow(width);
    var x := Slot(count - 1, count, s);
    SlotsAreSpread(count - 1, count, s);
    assert count * s == d * (s - 1) - (s - d);
    DivBelow(count * s, d, s - 1);
    NumeralOfNines(x, width);
    MidStaysWithin(FreshRank(count - 1, count, width), width);
  }

  /** With exactly 62^max - 1 siblings there is no room left. */
  lemma TailOverflows(count: nat, max: nat)
    requires count > 0 && count + 1 == Pow(max)
    ensures |Mid(FreshRank(count - 1, count, max + 1), None)| == max + 1
  {
    hide Mid, Nines, Strip;
    OverflowSlot(count, max);
    NumeralOfNines(count, max);
    DivIs(BASE * count, BASE, count, 0);
    var s := Numeral(BASE * count, max + 1);
    assert s == Nines(max) + ['0'];
    StripNines(max);
    MidAboveNines(max);
  }

  lemma OverflowSlot(count: nat, max: nat)
    requires count > 0 && count + 1 == Pow(max)
    ensures Slot(count - 1, count, Pow(max + 1)) == BASE * count
  {
    var d, s := count + 1, Pow(max + 1);
    assert s == BASE * d;
    assert count * s == d * (BASE * count) + 0;
    DivIs(count * s, d, BASE * count, 0);
  }

  lemma {:induction false} StripNines(w: nat)
    ensures Strip(Nines(w) + ['0']) == Nines(w)
  {
    if w != 0 {
      assert (Nines(w) + ['0'])[1..] == Nines(w - 1) + ['0'];
      StripNines(w - 1);
    }
  }

  lemma WidthIs(count: nat, width: nat, max: nat)
    requires NarrowestWidth(count, width) && count + 1 <= Pow(max)
    ensures count + 1 < Pow(max) ==> width <= max
    ensures count + 1 == Pow(max) ==> width == max + 1
  {
    if max < width - 1 {
      PowGrows(max, width - 1);
    } else if width < max {
      PowGrows(width, max);
    }
  }

  lemma TailCheck(count: nat, width: nat)
    requires count > 0 && NarrowestWidth(count, width) && count + 1 <= Capacity()
    ensures IsValidRank(Mid(FreshRank(count - 1, count, width), None)) <==> count + 1 < Capacity()
  {
    hide FreshRank, Pow, Mid;
    FreshRankIsMintable(count - 1, count, width);
    AboveOpenEnd(FreshRank(count - 1, count, width));
    WidthIs(count, width, RANK_MAX_LENGTH);
    if count + 1 < Capacity() {
      TailFits(count, width);
    } else {
      TailOverflows(count, RANK_MAX_LENGTH);
    }
  }

  /** The siblings in sort order carry the fresh ranks. */
  ghost predicate Rebalances(siblings: seq<Sibling>, placed: Placement) {
    var p, n := Positions(siblings, |siblings|), |siblings|;
    && |placed.rebalanced| == n
    && (forall i :: 0 <= i < n ==> placed.rebalanced[i].id == siblings[p[i]].id)
    && AllValid(Ranks(placed.rebalanced)) && Increasing(Ranks(placed.rebalanced))
    && (forall i :: 0 <= i < n ==> Less(placed.rebalanced[i].rank, placed.rank))
  }

  /**
   Appends to a group. When the next rank would be too long the group
   is rewritten to fresh ranks in its present order, ties in table order, and the new rank follows them.
   */
  method PlaceAtEnd(siblings: seq<Sibling>) returns (r: Result<Placement>)
    requires AllInAlphabet(siblings)
    ensures var next := NextRank(Ranks(siblings));
      if IsValidRank(next) then
        r == Ok(Placement(next, [])) && forall i :: 0 <= i < |siblings| ==> Less(siblings[i].rank, next)
      else
        && (r.Ok? <==> |siblings| + 1 < Capacity())
        && (r.Ok? ==> IsValidRank(r.value.rank) && Rebalances(siblings, r.value))
  {
    hide Mid, FreshRank, Capacity, Highest, Positions, Increasing, Strip;
    var last: Option<string> := None;
    assert Highest([]) == "" by { HighestSnoc([]); }
    for i := 0 to |siblings|
      invariant last.Some? ==> InAlphabet(last.value)
      invariant (if last.Some? then last.value else "") == Highest(Ranks(siblings)[..i])
    {
      assert Ranks(siblings)[..i + 1][..i] == Ranks(siblings)[..i];
      HighestSnoc(Ranks(siblings)[..i + 1]);
      if last.None? || Less(last.value, siblings[i].rank) {
        last := Some(siblings[i].rank);
      }
    }
    assert Ranks(siblings)[..|siblings|] == Ranks(siblings);
    assert forall i :: 0 <= i < |siblings| ==> Ranks(siblings)[i] == siblings[i].rank;
    NextRankIsAbove(Ranks(siblings));
    var minted := RankBetween(last, None);
    if IsValidRank(minted.value) {
      return Ok(Placement(minted.value, []));
    }
    var n := |siblings|;
    var ordered := Positions(siblings, n);
    var spread := RebalanceRanks(n);
    if spread.Err? {
      return Err(spread.error);
    }
    ghost var w :| NarrowestWidth(n, w) && forall i :: 0 <= i < n ==> spread.value[i] == FreshRank(i, n, w);
    TailCheck(n, w);
    var tail := RankBetween(Some(spread.value[n - 1]), None);
    if !IsValidRank(tail.value) {
      return Err("rank rebalance produced invalid ranks");
    }
    IncreasingIsTotal(spread.value, tail.value);
    var rebalanced := seq(n, i requires 0 <= i < n => Sibling(siblings[ordered[i]].id, spread.value[i]));
    assert Ranks(rebalanced) == spread.value;
    return Ok(Placement(tail.value, rebalanced));
  }

  lemma {:induction false} IncreasingIsTotal(ranks: seq<string>, top: string)
    requires Increasing(ranks) && (ranks != [] ==> Less(ranks[|ranks| - 1], top))
    ensures forall i :: 0 <= i < |ranks| ==> Less(ranks[i], top)
  {
    if |ranks| > 1 {
      var n := |ranks| - 1;
      LessTransitive(ranks[n - 1], ranks[n], top);
      IncreasingIsTotal(ranks[..n], top);
      assert forall i :: 0 <= i < n ==> ranks[i] == ranks[..n][i];
    }
  }

  lemma HighestSnoc(ranks: seq<string>)
    ensures Highest(ranks) == if ranks == [] then "" else
      var n := |ranks| - 1;
      if Less(Highest(ranks[..n]), ranks[n]) then ranks[n] else Highest(ranks[..n])
  {
  }

  lemma IncreasingPairs(ranks: seq<string>, i: nat, j: nat)
    requires Increasing(ranks) && i < j < |ranks|
    ensures Less(ranks[i], ranks[j])
  {
    IncreasingIsTotal(ranks[..j], ranks[j]);
    assert ranks[..j][i] == ranks[i];
  }

  lemma PositionsAreOrdered(siblings: seq<Sibling>, i: nat, j: nat)
    requires i < j < |siblings|
    ensures var p := Positions(siblings, |siblings|);
      SortsBefore(siblings, p[i], p[j]) && !SortsBefore(siblings, p[j], p[i])
  {
    hide Less, Positions, Distinct;
    var p := Positions(siblings, |siblings|);
    LessTotal(siblings[p[i]].rank, siblings[p[j]].rank);
  }

  /** A rebalance keeps the old order: two siblings compare by their new ranks as they sorted before. */
  lemma RebalanceKeepsOrder(siblings: seq<Sibling>, placed: Placement, i: nat, j: nat)
    requires Rebalances(siblings, placed) && i < |siblings| && j < |siblings|
    ensures var p := Positions(siblings, |siblings|);
      SortsBefore(siblings, p[i], p[j]) <==> Less(placed.rebalanced[i].rank, placed.rebalanced[j].rank)
  {
    var p, r := Positions(siblings, |siblings|), Ranks(placed.rebalanced);
    assert r[i] == placed.rebalanced[i].rank && r[j] == placed.rebalanced[j].rank;
    if i == j {
      hide Positions, InSortOrder, AllValid, Increasing;
      LessTotal(r[i], r[j]);
      LessTotal(siblings[p[i]].rank, siblings[p[j]].rank);
    } else {
      hide Less, Positions, InSortOrder, SortsBefore, AllValid, Increasing;
      PositionsAreOrdered(siblings, if i < j then i else j, if i < j then j else i);
      IncreasingPairs(r, if i < j then i else j, if i < j then j else i);
      LessTotal(r[i], r[j]);
    }
  }

  // ----- Successive appends -----

  /** The ranks of a group that started empty, after `k` appends. */
  function Appended(k: nat): (ranks: seq<string>)
    ensures |ranks| == k && forall i :: 0 <= i < k ==> InAlphabet(ranks[i])
  {
    if k == 0 then [] else Appended(k - 1) + [NextRank(Appended(k - 1))]
  }

  function LastDigit(k: nat): char
    requires k < 5
  {
    ['V', 'l', 't', 'x', 'z'][k]
  }

  lemma MidAfterDigit(k: nat)
    requires k < 5
    ensures Mid([LastDigit(k)], None) == if k < 4 then [LastDigit(k + 1)] else ['z', LastDigit(0)]
  {
  }

  lemma MidUnderZ(a: string)
    requires InAlphabet(a)
    ensures Mid(['z'] + a, None) == ['z'] + Mid(a, None)
  {
    assert (['z'] + a)[1..] == a;
  }

  lemma {:induction false} MidAfterNines(w: nat, k: nat)
    requires k < 5
    ensures Mid(Nines(w) + [LastDigit(k)], None) ==
      if k < 4 then Nines(w) + [LastDigit(k + 1)] else Nines(w + 1) + [LastDigit(0)]
  {
    hide Mid, LastDigit;
    if w == 0 {
      MidAfterDigit(k);
      assert Nines(0) + [LastDigit(k)] == [LastDigit(k)] && Nines(1) + [LastDigit(0)] == ['z', LastDigit(0)];
      assert k < 4 ==> Nines(0) + [LastDigit(k + 1)] == [LastDigit(k + 1)];
    } else {
      var a := Nines(w - 1) + [LastDigit(k)];
      assert Nines(w) == ['z'] + Nines(w - 1) && Nines(w + 1) == ['z'] + Nines(w);
      assert Nines(w) + [LastDigit(k)] == ['z'] + a;
      DigitsInAlphabet();
      MidUnderZ(a);
      MidAfterNines(w - 1, k);
    }
  }

  lemma DigitsInAlphabet()
    ensures forall k :: 0 <= k < 5 ==> InAlphabet([LastDigit(k)])
  {
  }

  lemma FirstRank()
    ensures NextRank(Appended(0)) == Nines(0) + [LastDigit(0)]
  {
    HighestSnoc([]);
  }

  lemma NewestIsHighest(k: nat)
    ensures Highest(Appended(k + 1)) == NextRank(Appended(k))
  {
    hide Mid, Highest;
    NextRankIsAbove(Appended(k));
    HighestSnoc(Appended(k + 1));
    assert Appended(k + 1)[..k] == Appended(k);
  }

  lemma NextFollowsNewest(k: nat)
    ensures InAlphabet(NextRank(Appended(k))) && NextRank(Appended(k + 1)) == Mid(NextRank(Appended(k)), None)
  {
    hide Mid, Highest;
    NextRankIsAbove(Appended(k));
    NewestIsHighest(k);
  }

  /** Five appends use up one digit. */
  lemma {:induction false} AppendedRank(k: nat)
    ensures NextRank(Appended(k)) == Nines(k / 5) + [LastDigit(k % 5)]
  {
    hide Mid, Nines, LastDigit, Highest, NextRank, Appended;
    if k == 0 {
      FirstRank();
    } else {
      AppendedRank(k - 1);
      NextFollowsNewest(k - 1);
      MidAfterNines((k - 1) / 5, (k - 1) % 5);
    }
  }

  /** The k-th append to an empty group has length k/5 rounded up: the 320th still fits, the 321st does not. */
  lemma AppendsFitUntil320(k: nat)
    requires k >= 1
    ensures |Appended(k)[k - 1]| == (k + 4) / 5
    ensures IsValidRank(Appended(k)[k - 1]) <==> k <= 320
  {
    hide NextRank;
    AppendedRank(k - 1);
  }
}
