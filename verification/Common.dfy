/** Shared vocabulary: an optional value and the outcome of an operation that may throw. */
module Common {
  datatype Option<+T> = None | Some(value: T)

  datatype Result<+T> = Ok(value: T) | Err(error: string)

  /** No element occurs twice. */
  ghost predicate Distinct<T>(s: seq<T>) {
    forall i, j :: 0 <= i < j < |s| ==> s[i] != s[j]
  }

  /** A duplicate-free sequence is no longer than a set holding all its elements. */
  lemma {:induction false} DistinctLength<T>(s: seq<T>, u: set<T>)
    requires Distinct(s)
    requires forall x :: x in s ==> x in u
    ensures |s| <= |u|
  {
    if s != [] {
      var n := |s| - 1;
      DistinctLength(s[..n], u - {s[n]});
    }
  }

  /** Some `x` stands before some `y`. */
  ghost predicate Precedes<T>(s: seq<T>, x: T, y: T) {
    exists i, j :: 0 <= i < j < |s| && s[i] == x && s[j] == y
  }

  /** The elements of `s` stand as they do in `order`. */
  ghost predicate InOrder<T>(s: seq<T>, order: seq<T>) {
    forall i, j :: 0 <= i < j < |s| ==> Precedes(order, s[i], s[j])
  }

  lemma PrecedesMore<T>(s: seq<T>, last: T, x: T, y: T)
    requires Precedes(s, x, y)
    ensures Precedes(s + [last], x, y)
  {
    var i, j :| 0 <= i < j < |s| && s[i] == x && s[j] == y;
    assert (s + [last])[i] == x && (s + [last])[j] == y;
  }

  lemma PrecedesLast<T>(s: seq<T>, x: T, last: T)
    requires x in s
    ensures Precedes(s + [last], x, last)
  {
    var i :| 0 <= i < |s| && s[i] == x;
    assert (s + [last])[i] == x && (s + [last])[|s|] == last;
  }

  lemma InOrderMore<T>(s: seq<T>, order: seq<T>, last: T)
    requires InOrder(s, order) && forall x :: x in s ==> x in order
    ensures InOrder(s, order + [last]) && InOrder(s + [last], order + [last])
  {
    hide Precedes;
    forall i, j | 0 <= i < j < |s| ensures Precedes(order + [last], s[i], s[j]) {
      PrecedesMore(order, last, s[i], s[j]);
    }
    forall i | 0 <= i < |s| ensures Precedes(order + [last], s[i], last) {
      assert s[i] in s;
      PrecedesLast(order, s[i], last);
    }
  }
}
