/** Tree positions.  Position (k, x) is the x-th range of size ps * 2^k.  Every proof
    about ranges is done on positions; the lemmas at the end tie them to the byte
    arithmetic of common/structures.hpp. */
module Dyadic {
  import opened Arithmetic
  import opened Metadata

  /** The size in bytes of a range at level k: ps * 2^k. */
  function Size(ps: nat, k: nat): nat {
    if k == 0 then ps else 2 * Size(ps, k - 1)
  }

  /** The index at level k of the range that holds page n: n / 2^k. */
  function Shift(n: nat, k: nat): nat {
    if k == 0 then n else Shift(n, k - 1) / 2
  }

  /** Pages first..last touch position (k, x). */
  predicate Touches(first: nat, last: nat, k: nat, x: nat) {
    Shift(first, k) <= x <= Shift(last, k)
  }

  function Position(ps: nat, id: nat, version: nat, k: nat, x: nat): Query {
    Query(id, version, x * Size(ps, k), Size(ps, k))
  }

  lemma SizePositive(ps: nat, k: nat)
    requires ps > 0
    ensures Size(ps, k) > 0
  {
  }

  lemma {:induction false} SizeGrows(ps: nat, j: nat, k: nat)
    requires ps > 0 && j < k
    ensures Size(ps, j) < Size(ps, k)
    decreases k
  {
    SizePositive(ps, k - 1);
    if j < k - 1 {
      SizeGrows(ps, j, k - 1);
    }
  }

  lemma ShiftHalf(n: nat, k: nat)
    ensures Shift(n, k + 1) == Shift(n, k) / 2
  {
  }

  lemma {:induction false} ShiftMonotone(a: nat, b: nat, k: nat)
    requires a <= b
    ensures Shift(a, k) <= Shift(b, k)
  {
    if k > 0 {
      ShiftMonotone(a, b, k - 1);
    }
  }

  lemma {:induction false} ShiftZeroUp(n: nat, j: nat, k: nat)
    requires Shift(n, j) == 0 && j <= k
    ensures Shift(n, k) == 0
    decreases k
  {
    if j < k {
      ShiftZeroUp(n, j, k - 1);
    }
  }

  /** A page inside position (k, x) makes everything that touches the page touch (k, x). */
  lemma TouchesUp(first: nat, last: nat, p: nat, k: nat)
    requires first <= p <= last
    ensures Touches(first, last, k, Shift(p, k))
  {
    ShiftMonotone(first, p, k);
    ShiftMonotone(p, last, k);
  }

  /** A position is touched exactly when one of its halves is. */
  lemma TouchesChildren(first: nat, last: nat, k: nat, x: nat)
    requires first <= last && k > 0
    ensures Touches(first, last, k, x) <==>
            Touches(first, last, k - 1, 2 * x) || Touches(first, last, k - 1, 2 * x + 1)
  {
    ShiftMonotone(first, last, k - 1);
  }

  lemma DoubleSize(ps: nat, k: nat, x: nat)
    requires k > 0
    ensures x * Size(ps, k) == (2 * x) * Size(ps, k - 1)
  {
    var s := Size(ps, k - 1);
    assert x * (2 * s) == (2 * x) * s;
  }

  /** Page n starts below x * Size exactly when its level-k range does. */
  lemma {:induction false} BelowShift(ps: nat, n: nat, k: nat, x: nat)
    requires ps > 0
    ensures n * ps < x * Size(ps, k) <==> Shift(n, k) < x
  {
    if k == 0 {
      MulOrder(n, x, ps);
    } else {
      DoubleSize(ps, k, x);
      BelowShift(ps, n, k - 1, 2 * x);
    }
  }

  /** Page n ends past x * Size exactly when its level-k range does. */
  lemma {:induction false} EndShift(ps: nat, n: nat, k: nat, x: nat)
    requires ps > 0
    ensures x * Size(ps, k) < (n + 1) * ps <==> x <= Shift(n, k)
  {
    if k == 0 {
      MulOrder(x, n + 1, ps);
    } else {
      DoubleSize(ps, k, x);
      EndShift(ps, n, k - 1, 2 * x);
    }
  }

  /** Byte intersection of a tree range and a page-aligned range is Touches. */
  lemma IntersectsIsTouches(ps: nat, t: Query, k: nat, x: nat, q: Query, first: nat, last: nat)
    requires ps > 0 && first <= last
    requires SameRange(t, x * Size(ps, k), Size(ps, k))
    requires q.offset == first * ps && q.size == (last - first + 1) * ps
    ensures Intersects(t, q) <==> Touches(first, last, k, x)
    ensures Intersects(q, t) <==> Touches(first, last, k, x)
  {
    SizePositive(ps, k);
    Distribute(x, 1, Size(ps, k));
    Distribute(first, last - first + 1, ps);
    Positive(last - first + 1, ps);
    BelowShift(ps, first, k, x + 1);
    EndShift(ps, last, k, x);
  }

  /** getParent on positions: halve the index, odd indices are right children. */
  lemma ParentPosition(ps: nat, id: nat, version: nat, k: nat, x: nat)
    requires ps > 0
    ensures var q := Position(ps, id, version, k, x);
            && q.size > 0
            && (q.offset % (2 * q.size) != 0 ==> q.size <= q.offset)
            && GetParent(q) == (Position(ps, id, version, k + 1, x / 2),
                                if x % 2 == 0 then LeftChild else RightChild)
  {
    var s := Size(ps, k);
    SizePositive(ps, k);
    ModEven(x, s);
    assert x * s == (x / 2) * (2 * s) + (x % 2) * s;
    if x % 2 == 1 {
      assert x * s == (x / 2) * (2 * s) + s;
      assert s <= x * s;
    }
  }

  /** A range determines its position. */
  lemma RangeIsPosition(ps: nat, k: nat, x: nat, j: nat, y: nat)
    requires ps > 0
    requires Size(ps, k) == Size(ps, j) && x * Size(ps, k) == y * Size(ps, j)
    ensures k == j && x == y
  {
    if j < k { SizeGrows(ps, j, k); } else if k < j { SizeGrows(ps, k, j); }
    SizePositive(ps, k);
    MulOrder(x, y, Size(ps, k));
    MulOrder(y, x, Size(ps, k));
  }
}
