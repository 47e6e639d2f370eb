/** Digits, plain string order, and the order-preserving numerals behind sibling ranks. */
module RankOrder {

  const BASE: nat := 62

  /** Position `v` of the alphabet: the ten digits, then A to Z, then a to z, in character order. */
  function Digit(v: nat): char
    requires v < BASE
  {
    if v < 10 then (v + 48) as char else if v < 36 then (v + 55) as char else (v + 61) as char
  }

  predicate IsDigit(c: char) {
    '0' <= c <= '9' || 'A' <= c <= 'Z' || 'a' <= c <= 'z'
  }

  /** The position of a character in the alphabet. */
  function Value(c: char): (v: nat)
    requires IsDigit(c)
    ensures v < BASE && Digit(v) == c
  {
    if c <= '9' then c as int - 48 else if c <= 'Z' then c as int - 55 else c as int - 61
  }

  predicate InAlphabet(s: string) {
    forall i :: 0 <= i < |s| ==> IsDigit(s[i])
  }

  /** Plain string order. */
  predicate Less(a: string, b: string) {
    b != [] && (a == [] || a[0] < b[0] || (a[0] == b[0] && Less(a[1..], b[1..])))
  }

  lemma {:induction false} LessTransitive(a: string, b: string, c: string)
    requires Less(a, b) && Less(b, c)
    ensures Less(a, c)
  {
    if a != [] && a[0] == b[0] == c[0] {
      LessTransitive(a[1..], b[1..], c[1..]);
    }
  }

  lemma {:induction false} LessTotal(a: string, b: string)
    ensures Less(a, b) || a == b || Less(b, a)
    ensures !(Less(a, b) && Less(b, a)) && !Less(a, a)
  {
    if a != [] {
      LessTotal(a[1..], a[1..]);
      if b != [] && a[0] == b[0] {
        LessTotal(a[1..], b[1..]);
        assert a == [a[0]] + a[1..] && b == [b[0]] + b[1..];
      }
    }
  }

  /** Equally long strings keep their order under any endings. */
  lemma {:induction false} LessExtends(a: string, b: string, x: string, y: string)
    requires |a| == |b| && Less(a, b)
    ensures Less(a + x, b + y)
  {
    assert (a + x)[1..] == a[1..] + x && (b + y)[1..] == b[1..] + y;
    if a[0] == b[0] {
      LessExtends(a[1..], b[1..], x, y);
    }
  }

  lemma {:induction false} LessSamePrefix(p: string, x: string, y: string)
    ensures Less(p + x, p + y) <==> Less(x, y)
  {
    if p == [] {
      assert p + x == x && p + y == y;
    } else {
      assert (p + x)[1..] == p[1..] + x && (p + y)[1..] == p[1..] + y;
      LessSamePrefix(p[1..], x, y);
    }
  }

  /** No trailing "0". */
  predicate Trimmed(s: string) {
    s == [] || s[|s| - 1] != '0'
  }

  function Zeros(k: nat): (z: string)
    ensures |z| == k && InAlphabet(z)
  {
    seq(k, _ => '0')
  }

  /** Trailing zeros removed. */
  function Strip(s: string): (r: string)
    ensures |r| <= |s| && s == r + Zeros(|s| - |r|) && Trimmed(r)
    ensures InAlphabet(s) ==> InAlphabet(r)
  {
    if s == [] then []
    else
      var rest := Strip(s[1..]);
      assert s == [s[0]] + s[1..];
      if rest == [] && s[0] == '0' then [] else [s[0]] + rest
  }

  /** Stripping equally long strings keeps their strict order. */
  lemma {:induction false} StripKeepsOrder(s: string, t: string)
    requires |s| == |t| && Less(s, t) && InAlphabet(s) && InAlphabet(t)
    ensures Less(Strip(s), Strip(t))
  {
    if s[0] == t[0] {
      StripKeepsOrder(s[1..], t[1..]);
    }
  }

  // ----- Fixed-width numerals -----

  function Pow(k: nat): (p: nat)
    ensures p >= 1
  {
    if k == 0 then 1 else BASE * Pow(k - 1)
  }

  /** `x` in base 62 with exactly `width` digits. */
  function Numeral(x: nat, width: nat): (s: string)
    ensures |s| == width && InAlphabet(s)
  {
    if width == 0 then [] else Numeral(x / BASE, width - 1) + [Digit(x % BASE)]
  }

  lemma {:induction false} NumeralOrder(x: nat, y: nat, width: nat)
    requires x < y < Pow(width)
    ensures Less(Numeral(x, width), Numeral(y, width))
  {
    if width != 0 {
      var p, q := Numeral(x / BASE, width - 1), Numeral(y / BASE, width - 1);
      if x / BASE < y / BASE {
        NumeralOrder(x / BASE, y / BASE, width - 1);
        LessExtends(p, q, [Digit(x % BASE)], [Digit(y % BASE)]);
      } else {
        LessSamePrefix(p, [Digit(x % BASE)], [Digit(y % BASE)]);
      }
    }
  }

  /** A numeral is all zeros exactly for zero. */
  lemma {:induction false} NumeralOfZero(x: nat, width: nat)
    requires x < Pow(width)
    ensures Numeral(x, width) == Zeros(width) <==> x == 0
  {
    if width != 0 {
      NumeralOfZero(x / BASE, width - 1);
      assert Zeros(width) == Zeros(width - 1) + ['0'];
      var s := Numeral(x, width);
      assert s[..width - 1] == Numeral(x / BASE, width - 1) && s[width - 1] == Digit(x % BASE);
      assert Zeros(width)[..width - 1] == Zeros(width - 1);
    }
  }

  /** A small number has leading zeros. */
  lemma {:induction false} LeadingZeros(x: nat, width: nat, lead: nat)
    requires x < Pow(width)
    ensures Numeral(x, lead + width) == Zeros(lead) + Numeral(x, width)
  {
    if width == 0 {
      if lead != 0 {
        LeadingZeros(0, 0, lead - 1);
        assert Zeros(lead) == Zeros(lead - 1) + ['0'];
      }
    } else {
      LeadingZeros(x / BASE, width - 1, lead);
    }
  }

  lemma {:induction false} PowAdds(j: nat, k: nat)
    ensures Pow(j + k) == Pow(j) * Pow(k)
  {
    if j != 0 {
      PowAdds(j - 1, k);
      assert Pow(j + k) == BASE * (Pow(j - 1) * Pow(k)) == (BASE * Pow(j - 1)) * Pow(k);
    }
  }

  lemma {:induction false} PowGrows(j: nat, k: nat)
    requires j < k
    ensures Pow(j) < Pow(k)
    decreases k
  {
    if j < k - 1 {
      PowGrows(j, k - 1);
    }
  }
}
