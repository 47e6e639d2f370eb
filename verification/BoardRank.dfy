/** Fractional ranks: a string between two neighbours, and evenly spaced fresh ranks. */
module BoardRank {
  import opened Common
  import opened RankOrder

  const RANK_MAX_LENGTH: nat := 64

  /** A mintable rank. */
  predicate IsValidRank(rank: string) {
    0 < |rank| <= RANK_MAX_LENGTH && Trimmed(rank) && InAlphabet(rank)
  }

  function Head(a: string): char {
    if a == [] then '0' else a[0]
  }

  function Tail(a: string): (t: string)
    ensures InAlphabet(a) ==> InAlphabet(t)
    ensures |t| == if a == [] then 0 else |a| - 1
  {
    if a == [] then [] else a[1..]
  }

  // ----- The midpoint -----

  /** The key between `a` and `b`, digit by digit; None is the open end. */
  function Mid(a: string, b: Option<string>): (r: string)
    requires InAlphabet(a) && (b.Some? ==> InAlphabet(b.value))
    ensures InAlphabet(r) && r != []
    decreases if b.Some? then |b.value| + 1 else 0, |a|
  {
    var low := Value(Head(a));
    if b.None? then
      if low < BASE - 1 then [Digit((low + BASE + 1) / 2)] else [Digit(low)] + Mid(Tail(a), None)
    else if b.value == [] then [Digit(low)] + Mid(Tail(a), None)
    else if Head(a) == b.value[0] then [b.value[0]] + Mid(Tail(a), Some(b.value[1..]))
    else
      var high := Value(b.value[0]);
      if high - low > 1 then [Digit((low + high + 1) / 2)]
      else if |b.value| > 1 then [b.value[0]]
      else [Digit(low)] + Mid(Tail(a), None)
  }

  /** `b` only adds zeros to `a`: no trimmed string lies between them. */
  ghost predicate OnlyPads(a: string, b: string) {
    |a| <= |b| && b == a + Zeros(|b| - |a|)
  }

  lemma {:induction false} AboveOpenEnd(a: string)
    requires InAlphabet(a)
    ensures var r := Mid(a, None); Less(a, r) && Trimmed(r) && |r| <= |a| + 1
  {
    if a != [] && a[0] == Digit(BASE - 1) {
      AboveOpenEnd(Tail(a));
    }
  }

  lemma OnlyPadsTail(a: string, b: string)
    requires b != [] && Head(a) == b[0] && (a == [] ==> Less(a, b))
    ensures OnlyPads(a, b) <==> OnlyPads(Tail(a), b[1..])
  {
    if a == [] {
      assert b == [b[0]] + b[1..];
      assert Zeros(|b|) == ['0'] + Zeros(|b| - 1);
      assert OnlyPads(a, b) <==> b == Zeros(|b|);
      assert OnlyPads([], b[1..]) <==> b[1..] == Zeros(|b| - 1);
    } else {
      assert b == [b[0]] + b[1..] && a == [a[0]] + a[1..];
      if OnlyPads(a, b) {
        assert b[1..] == a[1..] + Zeros(|b| - |a|);
      }
    }
  }

  /**
   For any in-alphabet neighbours the key lies above `a` and is trimmed; it lies below `b` exactly
   when `b` is not `a` plus zeros, and is then at most one character longer than the longer of them.
   */
  lemma {:induction false} MidLiesBetween(a: string, b: string)
    requires InAlphabet(a) && InAlphabet(b) && (Less(a, b) || a == b == [])
    ensures var r := Mid(a, Some(b));
      && Less(a, r) && Trimmed(r)
      && (!OnlyPads(a, b) ==> |r| <= (if |a| > |b| then |a| else |b|) + 1)
      && (Less(r, b) <==> !OnlyPads(a, b))
    decreases |b|
  {
    if b == [] {
      AboveOpenEnd([]);
    } else if Head(a) == b[0] {
      OnlyPadsTail(a, b);
      MidLiesBetween(Tail(a), b[1..]);
    } else {
      hide Mid;
      MidOfOtherDigits(a, b);
    }
  }

  lemma MidOfOtherDigits(a: string, b: string)
    requires InAlphabet(a) && InAlphabet(b) && Less(a, b) && Head(a) != b[0]
    ensures var r := Mid(a, Some(b));
      !OnlyPads(a, b) && Less(a, r) && Less(r, b) && Trimmed(r) && |r| <= (if |a| > |b| then |a| else |b|) + 1
  {
    hide Mid;
    if Value(b[0]) > Value(Head(a)) + 1 {
      WideGap(a, b);
    } else {
      NarrowGap(a, b);
      AboveOpenEnd(Tail(a));
    }
  }

  lemma NarrowGap(a: string, b: string)
    requires InAlphabet(a) && InAlphabet(b) && b != [] && Head(a) != b[0] && Value(b[0]) <= Value(Head(a)) + 1
    ensures Mid(a, Some(b)) == if |b| > 1 then [b[0]] else [Head(a)] + Mid(Tail(a), None)
  {
  }

  // ----- Which key it is -----

  lemma {:induction false} ShortestAboveOpenEnd(a: string, x: string)
    requires InAlphabet(a) && InAlphabet(x) && Less(a, x)
    ensures |Mid(a, None)| <= |x|
  {
    if a != [] && a[0] == Digit(BASE - 1) {
      assert x[0] == a[0];
      ShortestAboveOpenEnd(a[1..], x[1..]);
    }
  }

  /** No mintable key strictly between the neighbours is shorter. */
  lemma {:induction false} MidIsShortest(a: string, b: string, x: string)
    requires InAlphabet(a) && InAlphabet(b) && InAlphabet(x) && Trimmed(x) && Less(a, x) && Less(x, b)
    ensures |Mid(a, Some(b))| <= |x|
    decreases |b|
  {
    if Head(a) == b[0] {
      assert x[0] == b[0];
      if a != [] || |x| > 1 {
        MidIsShortest(Tail(a), b[1..], x[1..]);
      }
    } else if x[0] == Head(a) && |x| > 1 {
      ShortestAboveOpenEnd(Tail(a), x[1..]);
    }
  }

  /** `a`, followed by zeros without end, begins with the first `n` digits of `b`. */
  ghost predicate Shares(a: string, b: string, n: nat)
    requires n <= |b|
  {
    forall i :: 0 <= i < n ==> (if i < |a| then a[i] else '0') == b[i]
  }

  /**
   Where the neighbours first differ by more than one, the key ends in the digit halfway between
   theirs; of two such digits it takes the higher.
   */
  lemma {:induction false} MidIsCentral(a: string, b: string, n: nat)
    requires InAlphabet(a) && InAlphabet(b) && n < |b| && Shares(a, b, n)
    requires Value(b[n]) > Value(if n < |a| then a[n] else '0') + 1
    ensures var r, low, high := Mid(a, Some(b)), Value(if n < |a| then a[n] else '0'), Value(b[n]);
      |r| == n + 1 && r[..n] == b[..n] && low + high <= 2 * Value(r[n]) <= low + high + 1
    decreases n
  {
    hide Mid;
    if n > 0 {
      SharesTail(a, b, n);
      MidOfShared(a, b);
      MidIsCentral(Tail(a), b[1..], n - 1);
      assert b[..n] == [b[0]] + b[1..][..n - 1];
    } else {
      WideGap(a, b);
    }
  }

  lemma SharesTail(a: string, b: string, n: nat)
    requires 0 < n <= |b| && Shares(a, b, n)
    ensures Head(a) == b[0] && Shares(Tail(a), b[1..], n - 1)
  {
    assert (if 0 < |a| then a[0] else '0') == b[0];
    var a', b' := Tail(a), b[1..];
    forall i | 0 <= i < n - 1 ensures (if i < |a'| then a'[i] else '0') == b'[i] {
      assert (if i + 1 < |a| then a[i + 1] else '0') == b[i + 1];
    }
  }

  lemma MidOfShared(a: string, b: string)
    requires InAlphabet(a) && InAlphabet(b) && b != [] && Head(a) == b[0]
    ensures Mid(a, Some(b)) == [b[0]] + Mid(Tail(a), Some(b[1..]))
  {
  }

  lemma WideGap(a: string, b: string)
    requires InAlphabet(a) && InAlphabet(b) && b != [] && Value(b[0]) > Value(Head(a)) + 1
    ensures Mid(a, Some(b)) == [Digit((Value(Head(a)) + Value(b[0]) + 1) / 2)]
  {
  }

  /** When `b` only pads `a`, everything between them ends in "0". */
  lemma {:induction false} NothingInAPaddedGap(a: string, b: string, x: string)
    requires OnlyPads(a, b) && Less(a, x) && Less(x, b) && InAlphabet(x)
    ensures !Trimmed(x)
    decreases |b|
  {
    assert b[0] == Head(a);
    if a == [] {
      assert b[1..] == Zeros(|b| - 1);
      if |x| > 1 {
        NothingInAPaddedGap([], b[1..], x[1..]);
      }
    } else {
      assert b[1..] == a[1..] + Zeros(|b| - |a|);
      NothingInAPaddedGap(a[1..], b[1..], x[1..]);
    }
  }

  function Drop(a: string, n: nat): (t: string)
    ensures InAlphabet(a) ==> InAlphabet(t)
  {
    if n <= |a| then a[n..] else []
  }

  lemma MidSkips(a: string, b: string, n: nat)
    requires InAlphabet(a) && InAlphabet(b) && n < |b| && Head(Drop(a, n)) == b[n]
    ensures b[..n] + Mid(Drop(a, n), Some(b[n..])) == b[..n + 1] + Mid(Drop(a, n + 1), Some(b[n + 1..]))
  {
    assert b[n..][1..] == b[n + 1..] && b[..n + 1] == b[..n] + [b[n]];
    assert Tail(Drop(a, n)) == Drop(a, n + 1);
  }

  /** The midpoint once no digit is shared; a `high` of -1 stands for an upper neighbour used up. */
  lemma MidDiffers(a: string, b: Option<string>, high: int)
    requires InAlphabet(a) && (b.Some? ==> InAlphabet(b.value))
    requires b.Some? && b.value != [] ==> Head(a) != b.value[0] && high == Value(b.value[0])
    requires b.Some? && b.value == [] ==> high == -1
    requires b.None? ==> high == BASE
    ensures var low := Value(Head(a));
      Mid(a, b) == if high - low > 1 then [Digit((low + high + 1) / 2)]
                   else if b.Some? && |b.value| > 1 then [b.value[0]]
                   else [Digit(low)] + Mid(Tail(a), None)
  {
  }

  /** The midpoint as minted: the shared prefix is skipped in one go. */
  method Midpoint(a: string, b: Option<string>) returns (r: string)
    requires InAlphabet(a) && (b.Some? ==> InAlphabet(b.value))
    ensures r == Mid(a, b)
    decreases if b.Some? then |b.value| + 1 else 0, |a|
  {
    hide Mid;
    if b.Some? {
      var n := 0;
      assert b.value[0..] == b.value && Drop(a, 0) == a && b.value[..0] + Mid(a, b) == Mid(a, b);
      while n < |b.value| && (if n < |a| then a[n] else '0') == b.value[n]
        invariant n <= |b.value|
        invariant Mid(a, b) == b.value[..n] + Mid(Drop(a, n), Some(b.value[n..]))
      {
        MidSkips(a, b.value, n);
        n := n + 1;
      }
      if n > 0 {
        var rest := Midpoint(Drop(a, n), Some(b.value[n..]));
        return b.value[..n] + rest;
      }
    }
    var digitA: int := if a != [] then Value(a[0]) else 0;
    var digitB: int := if b.None? then BASE else if b.value == [] then -1 else Value(b.value[0]);
    MidDiffers(a, b, digitB);
    if digitB - digitA > 1 {
      return [Digit((digitA + digitB + 1) / 2)];
    }
    if b.Some? && |b.value| > 1 {
      return [b.value[0]];
    }
    var rest := Midpoint(Tail(a), None);
    return [Digit(digitA)] + rest;
  }

  /** A new rank above `before` and below `after`, where None leaves that side unbounded. */
  method RankBetween(before: Option<string>, after: Option<string>) returns (r: Result<string>)
    requires before.Some? ==> InAlphabet(before.value)
    requires after.Some? ==> InAlphabet(after.value)
    ensures var a := if before.Some? then before.value else "";
      && (r.Err? <==> after.Some? && !Less(a, after.value))
      && (r.Ok? ==> r.value == Mid(a, after) && r.value != [] && Less(a, r.value) && Trimmed(r.value) && InAlphabet(r.value))
      && (r.Ok? && after.None? ==> |r.value| <= |a| + 1)
      && (r.Ok? && after.Some? ==> (Less(r.value, after.value) <==> !OnlyPads(a, after.value)))
      && (r.Ok? && after.Some? && Trimmed(after.value) ==>
           Less(r.value, after.value) && |r.value| <= (if |a| > |after.value| then |a| else |after.value|) + 1)
  {
    var a := if before.Some? then before.value else "";
    if after.Some? && !Less(a, after.value) {
      return Err("no gap between the neighbours");
    }
    if after.Some? {
      MidLiesBetween(a, after.value);
      assert OnlyPads(a, after.value) && Trimmed(after.value) ==> a == after.value;
      LessTotal(a, after.value);
    } else {
      AboveOpenEnd(a);
    }
    var minted := Midpoint(a, after);
    return Ok(minted);
  }

  // ----- Rebalancing -----

  ghost predicate AllValid(ranks: seq<string>) {
    forall i :: 0 <= i < |ranks| ==> IsValidRank(ranks[i])
  }

  ghost predicate Increasing(ranks: seq<string>) {
    forall i :: 0 < i < |ranks| ==> Less(ranks[i - 1], ranks[i])
  }

  /** The narrowest width from `w` on whose numerals outnumber `count` + 1. */
  ghost predicate NarrowestWidth(count: nat, w: nat) {
    w >= 1 && Pow(w - 1) <= count + 1 < Pow(w)
  }

  function Slot(i: nat, count: nat, slots: nat): nat {
    (i + 1) * slots / (count + 1)
  }

  function FreshRank(i: nat, count: nat, width: nat): string {
    Strip(Numeral(Slot(i, count, Pow(width)), width))
  }

  lemma MulApart(d: int, k: int)
    requires d > 0
    ensures (k >= 1 ==> d * k >= d) && (k <= -1 ==> d * k <= -d)
  {
  }

  lemma MulStrict(a: int, b: int, c: int)
    requires a < b && c > 0
    ensures a * c < b * c
  {
  }

  lemma DivIs(x: int, d: int, q: int, r: int)
    requires d > 0 && x == d * q + r && 0 <= r < d
    ensures x / d == q
  {
    var q' := x / d;
    assert d * (q - q') == d * q - d * q';
    MulApart(d, q - q');
  }

  lemma DivMonotone(x: int, y: int, d: int)
    requires d > 0 && x <= y
    ensures x / d <= y / d
  {
    var p, q := x / d, y / d;
    assert d * (p - q) == d * p - d * q;
    MulApart(d, p - q);
  }

  lemma DivBelow(x: int, d: int, q: int)
    requires d > 0 && x < d * q
    ensures x / d < q
  {
    var p := x / d;
    assert d * (p - q) == d * p - d * q;
    MulApart(d, p - q);
  }

  lemma SlotStep(x: nat, d: nat, slots: nat)
    requires 0 < d < slots
    ensures x / d < (x + slots) / d
  {
    DivIs(x + d, d, x / d + 1, x % d);
    DivMonotone(x + d, x + slots, d);
  }

  lemma SlotFits(i: nat, count: nat, slots: nat)
    requires i < count && count + 1 < slots
    ensures 1 <= Slot(i, count, slots) < slots
  {
    var d := count + 1;
    MulStrict(i + 1, d, slots);
    DivBelow((i + 1) * slots, d, slots);
    assert (i + 1) * slots == i * slots + slots;
    SlotStep(0, d, slots);
    DivMonotone(slots, (i + 1) * slots, d);
  }

  /** Consecutive slots differ, the first is not zero and the last fits. */
  lemma SlotsAreSpread(i: nat, count: nat, slots: nat)
    requires i < count && count + 1 < slots
    ensures 1 <= Slot(i, count, slots) < slots
    ensures Slot(i, count, slots) < Slot(i + 1, count, slots)
  {
    SlotFits(i, count, slots);
    assert (i + 2) * slots == (i + 1) * slots + slots;
    SlotStep((i + 1) * slots, count + 1, slots);
  }

  /**
   A slot is the last one at or below its even share, so any two neighbouring gaps, the one below the
   first slot among them, differ by at most one.
   */
  lemma SlotsAreEven(i: nat, count: nat, slots: nat)
    requires i < count
    ensures Slot(i, count, slots) * (count + 1) <= (i + 1) * slots < (Slot(i, count, slots) + 1) * (count + 1)
    ensures
      var gap := Slot(i, count, slots) - if i == 0 then 0 else Slot(i - 1, count, slots);
      slots / (count + 1) <= gap <= slots / (count + 1) + 1
  {
    var d, x := count + 1, i * slots;
    assert (i + 1) * slots == x + slots;
    FloorMeans(x + slots, d);
    GapIsEven(x, d, slots);
    DivIs(0, d, 0, 0);
  }

  lemma FloorMeans(x: nat, d: nat)
    requires d > 0
    ensures x / d * d <= x < (x / d + 1) * d
  {
    assert x == x / d * d + x % d;
    assert (x / d + 1) * d == x / d * d + d;
  }

  lemma GapIsEven(x: nat, d: nat, slots: nat)
    requires d > 0
    ensures slots / d <= (x + slots) / d - x / d <= slots / d + 1
  {
    var q, r := x / d + slots / d, x % d + slots % d;
    assert x + slots == d * q + r;
    if r < d {
      DivIs(x + slots, d, q, r);
    } else {
      assert d * (q + 1) == d * q + d;
      DivIs(x + slots, d, q + 1, r - d);
    }
  }

  lemma FreshRankIsMintable(i: nat, count: nat, width: nat)
    requires i < count && count + 1 < Pow(width)
    ensures var r := FreshRank(i, count, width); 0 < |r| <= width && Trimmed(r) && InAlphabet(r)
  {
    SlotsAreSpread(i, count, Pow(width));
    NumeralOfZero(Slot(i, count, Pow(width)), width);
  }

  lemma FreshRanksIncrease(i: nat, count: nat, width: nat)
    requires i + 1 < count && count + 1 < Pow(width)
    ensures Less(FreshRank(i, count, width), FreshRank(i + 1, count, width))
  {
    var s := Pow(width);
    SlotsAreSpread(i, count, s);
    SlotsAreSpread(i + 1, count, s);
    NumeralOrder(Slot(i, count, s), Slot(i + 1, count, s), width);
    StripKeepsOrder(Numeral(Slot(i, count, s), width), Numeral(Slot(i + 1, count, s), width));
  }

  /** Up to 62^max - 1 siblings every fresh rank has at most `max` characters. */
  lemma FreshRankFits(i: nat, count: nat, width: nat, max: nat)
    requires i < count && NarrowestWidth(count, width) && count + 1 <= Pow(max)
    ensures |FreshRank(i, count, width)| <= max
  {
    hide FreshRank, Pow;
    if max + 1 < width {
      PowGrows(max, width - 1);
    } else if width == max + 1 {
      ExactlyFull(i, count, max);
    } else {
      FreshRankIsMintable(i, count, width);
    }
  }

  /** With exactly 62^max - 1 siblings the width is `max` + 1 and every numeral ends in "0". */
  lemma ExactlyFull(i: nat, count: nat, max: nat)
    requires i < count && count + 1 == Pow(max)
    ensures |FreshRank(i, count, max + 1)| <= max
  {
    var d, w := count + 1, max + 1;
    assert (i + 1) * Pow(w) == d * (BASE * (i + 1)) + 0;
    DivIs((i + 1) * Pow(w), d, BASE * (i + 1), 0);
    DivIs(BASE * (i + 1), BASE, i + 1, 0);
    var s := Numeral(BASE * (i + 1), w);
    assert s[w - 1] == Digit(0);
  }

  /** Beyond that the very first fresh rank is too long. */
  lemma TooManySiblings(count: nat, width: nat, max: nat)
    requires NarrowestWidth(count, width) && count + 1 > Pow(max)
    ensures count > 0 && |FreshRank(0, count, width)| > max
  {
    if width < max {
      PowGrows(width, max);
    }
    var more := width - max;
    PowAdds(max, more);
    MulStrict(Pow(max), count + 1, Pow(more));
    var x := Slot(0, count, Pow(width));
    DivBelow(Pow(width), count + 1, Pow(more));
    SlotsAreSpread(0, count, Pow(width));
    LeadingZeros(x, more, max);
    NumeralOfZero(x, more);
    StripStopsAtDigits(Zeros(max), Numeral(x, more));
  }

  /** Stripping never cuts into an ending that is not all zeros. */
  lemma StripStopsAtDigits(s: string, t: string)
    requires t != Zeros(|t|)
    ensures |Strip(s + t)| > |s|
  {
    assert t == (s + t)[|s|..];
  }
}
