/** Facts about products, quotients and remainders that the solver needs one at a time. */
module Arithmetic {

  function Max(x: int, y: int): (r: int)
    ensures r >= x && r >= y && (r == x || r == y)
  {
    if x < y then y else x
  }

  function Min(x: int, y: int): (r: int)
    ensures r <= x && r <= y && (r == x || r == y)
  {
    if x < y then x else y
  }

  lemma Distribute(a: nat, b: nat, s: nat)
    ensures (a + b) * s == a * s + b * s
  {
  }

  lemma Positive(a: nat, b: nat)
    requires a > 0 && b > 0
    ensures a * b > 0
  {
  }

  lemma MulOrder(a: nat, b: nat, s: nat)
    requires s > 0
    ensures a < b <==> a * s < b * s
  {
    var d: int := b - a;
    assert b * s == a * s + d * s;
    if d > 0 { assert d * s > 0; } else { assert d * s <= 0; }
  }

  lemma MulStep(a: nat, b: nat, s: nat)
    requires a < b
    ensures a * s + s <= b * s
  {
    var d: nat := b - a - 1;
    Distribute(a + 1, d, s);
    Distribute(a, 1, s);
    assert d * s >= 0;
  }

  lemma ModOf(m: nat, d: nat, r: nat)
    requires r < d
    ensures (m * d + r) % d == r
  {
    var a := m * d + r;
    var q := a / d;
    assert a == q * d + a % d;
    if q < m {
      MulStep(q, m, d);
    } else if m < q {
      MulStep(m, q, d);
    }
  }

  lemma ModEven(x: nat, s: nat)
    requires s > 0
    ensures (x * s) % (2 * s) == (x % 2) * s
  {
    var m := x / 2;
    assert x * s == m * (2 * s) + (x % 2) * s;
    ModOf(m, 2 * s, (x % 2) * s);
  }

  lemma DivMod(y: nat, ps: nat)
    requires ps > 0
    ensures y == (y / ps) * ps + y % ps && y % ps < ps
  {
  }

  lemma DivOf(m: nat, d: nat, r: nat)
    requires r < d
    ensures (m * d + r) / d == m
  {
    var a := m * d + r;
    ModOf(m, d, r);
    assert a == (a / d) * d + a % d;
    MulOrder(a / d, m, d);
    MulOrder(m, a / d, d);
  }

  lemma DivExact(a: nat, d: nat)
    requires d > 0
    ensures (a * d) / d == a && (a * d) % d == 0
  {
    ModOf(a, d, 0);
    var q := (a * d) / d;
    assert a * d == q * d;
    MulOrder(a, q, d);
    MulOrder(q, a, d);
  }
}
