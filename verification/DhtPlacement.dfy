/** Where the DHT client puts the replicas of a key (common/simple_dht.hpp:157-199). */
module DhtPlacement {
  import opened Arithmetic
  import opened Metadata
  import opened Dyadic

  const WORD := 0x1_0000_0000

  /** An unsigned int. */
  type Word = n: int | 0 <= n < WORD

  /** One byte of the sdbm hash: 6- and 16-bit left shifts, an addition and a subtraction, all
      modulo 2^32. */
  function Mix(hash: Word, b: Byte): Word {
    (b as int + (hash * 64) % WORD + (hash * 65536) % WORD - hash) % WORD
  }

  function Hash(key: seq<Byte>, n: Word): Word {
    if key == [] then n else Hash(key[1..], Mix(n, key[0]))
  }

  function Gateway(key: seq<Byte>, n: Word, gateways: nat): (g: nat)
    requires gateways > 0
    ensures g < gateways
  {
    Hash(key, n) % gateways
  }

  method ChooseGateway(key: seq<Byte>, n: Word, gateways: nat) returns (index: nat)
    requires gateways > 0
    ensures index == Gateway(key, n, gateways)
  {
    var hash: Word := n;
    for i := 0 to |key|
      invariant Hash(key, n) == Hash(key[i..], hash)
    {
      assert key[i..][1..] == key[i + 1..];
      hash := (key[i] as int + (hash * 64) % WORD + (hash * 65536) % WORD - hash) % WORD;
    }
    return hash % gateways;
  }

  // ---- Congruence ----

  ghost predicate Congruent(a: int, b: int, m: nat) {
    exists q: int :: a == b + q * m
  }

  lemma CongruentBy(a: int, b: int, m: nat, q: int)
    requires a == b + q * m
    ensures Congruent(a, b, m)
  {
  }

  lemma DivModInt(x: int, m: nat)
    requires m > 0
    ensures x == (x / m) * m + x % m
  {
  }

  /** Reducing modulo a multiple of m does not change the residue modulo m. */
  lemma ReduceCongruent(x: int, m: nat, k: nat)
    requires m > 0 && k > 0 && m * k == WORD
    ensures Congruent(x % WORD, x, m)
  {
    DivModInt(x, WORD);
    var q := x / WORD;
    assert q * WORD == q * (m * k) == (q * k) * m;
    assert (-(q * k)) * m == -((q * k) * m);
    CongruentBy(x % WORD, x, m, -(q * k));
  }

  lemma CongruentSymmetric(a: int, b: int, m: nat)
    requires Congruent(a, b, m)
    ensures Congruent(b, a, m)
  {
    var q: int :| a == b + q * m;
    assert (-q) * m == -(q * m);
    CongruentBy(b, a, m, -q);
  }

  lemma CongruentTransitive(a: int, b: int, c: int, m: nat)
    requires Congruent(a, b, m) && Congruent(b, c, m)
    ensures Congruent(a, c, m)
  {
    var p: int :| a == b + p * m;
    var q: int :| b == c + q * m;
    assert (p + q) * m == p * m + q * m;
    CongruentBy(a, c, m, p + q);
  }

  /** Equal remainders mean congruence. */
  lemma SameRemainder(a: nat, b: nat, m: nat)
    requires m > 0 && a % m == b % m
    ensures Congruent(a, b, m)
  {
    DivModInt(a, m);
    DivModInt(b, m);
    var p, q := a / m, b / m;
    assert (p - q) * m == p * m - q * m;
    CongruentBy(a, b, m, p - q);
  }

  lemma CongruentSmall(a: nat, b: nat, m: nat)
    requires Congruent(a, b, m) && a < m && b < m
    ensures a == b
  {
    var q: int :| a == b + q * m;
    if q > 0 { MulStep(0, q, m); } else if q < 0 { MulStep(0, -q, m); assert (-q) * m == -(q * m); }
  }

  // ---- The multiplier ----

  function MixExact(hash: int, b: Byte): int {
    65599 * hash + b as int
  }

  /** A mixing step is multiplication by 65599 and an addition, modulo 2^32. */
  lemma MixIsAffine(hash: Word, b: Byte)
    ensures Mix(hash, b) == MixExact(hash, b) % WORD
  {
    var x, y := hash * 64, hash * 65536;
    var p, q := x / WORD, y / WORD;
    assert x == p * WORD + x % WORD && y == q * WORD + y % WORD;
    var s := b as int + x % WORD + y % WORD - hash;
    assert MixExact(hash, b) == s + (p + q) * WORD;
    ModShift(s, p + q);
  }

  lemma ModShift(s: int, k: int)
    ensures (s + k * WORD) % WORD == s % WORD
  {
  }

  /** 65599 is odd, so it can be cancelled modulo a power of two. */
  lemma {:induction false} CancelOdd(d: int, q: int, e: nat) returns (r: int)
    requires 65599 * d == q * Size(1, e)
    ensures d == r * Size(1, e)
    decreases e
  {
    if e == 0 {
      r := d;
    } else {
      var half := Size(1, e - 1);
      assert q * (2 * half) == 2 * (q * half);
      assert d % 2 == 0;
      var h := d / 2;
      r := CancelOdd(h, q, e - 1);
      assert r * (2 * half) == 2 * (r * half);
    }
  }

  /** A mixing step is injective modulo a power of two. */
  lemma MixInjective(a: Word, b: Word, c: Byte, e: nat, k: nat)
    requires k > 0 && Size(1, e) * k == WORD && Congruent(Mix(a, c), Mix(b, c), Size(1, e))
    ensures Congruent(a, b, Size(1, e))
  {
    var m := Size(1, e);
    SizePositive(1, e);
    MixIsAffine(a, c);
    MixIsAffine(b, c);
    ReduceCongruent(MixExact(a, c), m, k);
    ReduceCongruent(MixExact(b, c), m, k);
    CongruentSymmetric(Mix(a, c), MixExact(a, c), m);
    CongruentTransitive(MixExact(a, c), Mix(a, c), Mix(b, c), m);
    CongruentTransitive(MixExact(a, c), Mix(b, c), MixExact(b, c), m);
    var q: int :| MixExact(a, c) == MixExact(b, c) + q * m;
    var r := CancelOdd(a - b, q, e);
    CongruentBy(a, b, m, r);
  }

  /** The whole hash is injective in the replica number modulo a power of two. */
  lemma {:induction false} HashInjective(key: seq<Byte>, a: Word, b: Word, e: nat, k: nat)
    requires k > 0 && Size(1, e) * k == WORD && Congruent(Hash(key, a), Hash(key, b), Size(1, e))
    ensures Congruent(a, b, Size(1, e))
    decreases |key|
  {
    if key != [] {
      HashInjective(key[1..], Mix(a, key[0]), Mix(b, key[0]), e, k);
      MixInjective(a, b, key[0], e, k);
    }
  }

  lemma {:induction false} PowersDivide(e: nat, f: nat)
    ensures Size(1, e) * Size(1, f) == Size(1, e + f)
  {
    if f > 0 {
      PowersDivide(e, f - 1);
      var x, y := Size(1, e), Size(1, f - 1);
      assert x * (2 * y) == 2 * (x * y);
    }
  }

  lemma WordIsPower()
    ensures Size(1, 32) == WORD
  {
    assert Size(1, 8) == 256;
    PowersDivide(8, 8);
    PowersDivide(16, 16);
  }

  /** With 2^e gateways, e <= 32, and no more replicas than gateways, the replicas of every
      key of any length lie on pairwise distinct gateways. */
  lemma ReplicasDistinct(key: seq<Byte>, e: nat, replication: nat, a: nat, b: nat)
    requires e <= 32 && replication <= Size(1, e) && a < b < replication
    ensures Size(1, e) > 0 && b < WORD
    ensures Gateway(key, a, Size(1, e)) != Gateway(key, b, Size(1, e))
  {
    var m, k := Size(1, e), Size(1, 32 - e);
    SizePositive(1, e);
    SizePositive(1, 32 - e);
    PowersDivide(e, 32 - e);
    WordIsPower();
    if e < 32 { SizeGrows(1, e, 32); }
    if Gateway(key, a, m) == Gateway(key, b, m) {
      SameRemainder(Hash(key, a), Hash(key, b), m);
      HashInjective(key, a, b, e, k);
      CongruentSmall(a, b, m);
    }
  }

  // ---- Only powers of two will do ----

  /** A divisor of a power of two is one. */
  lemma {:induction false} DivisorOfPower(d: nat, k: nat, e: nat) returns (f: nat)
    requires d * k == Size(1, e)
    ensures f <= e && d == Size(1, f)
    decreases e
  {
    SizePositive(1, e);
    if e == 0 {
      assert d == 1 by { if d > 1 && k > 0 { MulStep(1, d, k); } }
      f := 0;
    } else if d % 2 == 0 {
      assert (d / 2) * k * 2 == d * k;
      f := DivisorOfPower(d / 2, k, e - 1);
      f := f + 1;
    } else {
      OddFactor(d, k, Size(1, e - 1));
      assert d * (k / 2) * 2 == d * k;
      f := DivisorOfPower(d, k / 2, e - 1);
    }
  }

  lemma OddFactor(d: nat, k: nat, m: nat)
    requires d % 2 == 1 && d * k == 2 * m
    ensures k % 2 == 0
  {
    var h := d / 2;
    assert d == 2 * h + 1;
    Distribute(2 * h, 1, k);
    assert (2 * h) * k == 2 * (h * k);
    assert k == 2 * (m - h * k);
  }

  function Zeros(n: nat): seq<Byte> {
    seq(n, _ => 0)
  }

  lemma MixAdds(x: Word, y: Word, c: Byte)
    ensures Mix((x + y) % WORD, c) == (Mix(x, 0) + Mix(y, c)) % WORD
  {
    hide Mix;
    MixIsAffine((x + y) % WORD, c);
    MixIsAffine(x, 0);
    MixIsAffine(y, c);
    var sum := MixExact(x + y, c);
    var k := (x + y) / WORD;
    assert sum == MixExact((x + y) % WORD, c) + (65599 * k) * WORD by { DivModInt(x + y, WORD); }
    ModShift(MixExact((x + y) % WORD, c), 65599 * k);
    AddRemainders(MixExact(x, 0), MixExact(y, c));
  }

  lemma AddRemainders(x: int, y: int)
    ensures (x % WORD + y % WORD) % WORD == (x + y) % WORD
  {
    var p, q := x / WORD, y / WORD;
    DivModInt(x, WORD);
    DivModInt(y, WORD);
    ModShift(x % WORD + y % WORD, p + q);
  }

  /** The hash of a key is the hash of as many zeros plus a number of the key's own. */
  lemma {:induction false} HashAdds(key: seq<Byte>, x: Word, y: Word)
    ensures Hash(key, (x + y) % WORD) == (Hash(Zeros(|key|), x) + Hash(key, y)) % WORD
    decreases |key|
  {
    hide Mix;
    if key != [] {
      assert Zeros(|key|)[1..] == Zeros(|key| - 1);
      MixAdds(x, y, key[0]);
      HashAdds(key[1..], Mix(x, 0), Mix(y, key[0]));
    }
  }

  /** A key of four bytes whose hash from 0 is the largest word. */
  const LAST: seq<Byte> := [16, 47, 110, 78]

  lemma LastHash()
    ensures Hash(LAST, 0) == WORD - 1
  {
    hide Mix;
    MixBy(0, 16, 16, 0);
    MixBy(16, 47, 1049631, 0);
    MixBy(1049631, 110, 135267343, 16);
    MixBy(135267343, 78, WORD - 1, 2065);
    var a, b, c := [47, 110, 78], [110, 78], [78];
    assert LAST[1..] == a && a[1..] == b && b[1..] == c && c[1..] == [];
    assert Hash(LAST, 0) == Hash(a, 16) && Hash(a, 16) == Hash(b, 1049631);
    assert Hash(b, 1049631) == Hash(c, 135267343) && Hash(c, 135267343) == Hash([], WORD - 1);
  }

  lemma {:induction false} ZerosHash(n: nat)
    ensures Hash(Zeros(n), 0) == 0
  {
    if n > 0 {
      assert Zeros(n)[1..] == Zeros(n - 1);
      ZerosHash(n - 1);
    }
  }

  /** The key LAST hashes every number to one less than the key of four zeros does. */
  lemma OneLess(n: Word)
    requires n > 0
    ensures Hash(Zeros(4), n) > 0 && Hash(LAST, n) == Hash(Zeros(4), n) - 1
  {
    hide Hash, Mix;
    LastHash();
    HashAdds(LAST, n, 0);
    ZerosHash(4);
    WordIsPower();
    if Hash(Zeros(4), n) == 0 {
      CongruentBy(0, 0, Size(1, 32), 0);
      HashInjective(Zeros(4), n, 0, 32, 1);
      CongruentSmall(n, 0, WORD);
    }
  }

  /** The numbers below n. */
  function Below(n: nat): (all: set<nat>)
    ensures |all| == n && forall i: nat :: i in all <==> i < n
  {
    if n == 0 then {} else Below(n - 1) + {n - 1}
  }

  /** The gateways of the first n replicas. */
  function Used(key: seq<Byte>, n: nat, g: nat): set<nat>
    requires 0 < g && n <= g <= WORD
  {
    set i: nat | i < n :: Gateway(key, i, g)
  }

  ghost predicate Apart(key: seq<Byte>, g: nat)
    requires 0 < g <= WORD
  {
    forall a: nat, b: nat :: a < b < g ==> Gateway(key, a, g) != Gateway(key, b, g)
  }

  lemma {:induction false} UsedCount(key: seq<Byte>, n: nat, g: nat)
    requires 0 < g <= WORD && n <= g && Apart(key, g)
    ensures |Used(key, n, g)| == n
  {
    hide Gateway;
    if n > 0 {
      UsedCount(key, n - 1, g);
      assert Used(key, n, g) == Used(key, n - 1, g) + {Gateway(key, n - 1, g)};
      assert Gateway(key, n - 1, g) !in Used(key, n - 1, g);
    }
  }

  /** Replicas on pairwise distinct gateways reach every gateway. */
  lemma SomeReplica(key: seq<Byte>, g: nat, t: nat) returns (b: nat)
    requires t < g <= WORD && Apart(key, g)
    ensures b < g && Gateway(key, b, g) == t
  {
    hide Hash;
    var all := Below(g);
    UsedCount(key, g, g);
    assert Used(key, g, g) <= all;
    if t !in Used(key, g, g) {
      Subset(Used(key, g, g), all - {t});
    }
    b :| b < g && Gateway(key, b, g) == t;
  }

  lemma {:induction false} Subset(a: set<nat>, b: set<nat>)
    requires a <= b
    ensures |a| <= |b|
    decreases |a|
  {
    if a != {} {
      var x :| x in a;
      Subset(a - {x}, b - {x});
    }
  }

  lemma GatewayOf(key: seq<Byte>, n: Word, g: nat, hash: nat)
    requires 0 < g && Hash(key, n) == hash
    ensures Gateway(key, n, g) == hash % g
  {
  }

  /** Any other number of gateways makes two replicas of some key of four bytes collide:
      the key of four zeros, or LAST. */
  lemma OthersCollide(g: nat)
    requires 0 < g <= WORD && WORD % g != 0
    ensures !Apart(Zeros(4), g) || !Apart(LAST, g)
  {
    hide Gateway, Hash, Apart, Zeros;
    if Apart(Zeros(4), g) {
      var t := WORD % g;
      var b := SomeReplica(Zeros(4), g, t);
      ZerosHash(4);
      LastHash();
      GatewayOf(Zeros(4), 0, g, 0);
      OneLess(b);
      var y := Hash(Zeros(4), b);
      GatewayOf(Zeros(4), b, g, y);
      LastGateway(g, y);
      GatewayOf(LAST, b, g, y - 1);
      GatewayOf(LAST, 0, g, WORD - 1);
      NotApart(LAST, 0, b, g);
    }
  }

  lemma LastGateway(g: nat, y: nat)
    requires 0 < g <= WORD && WORD % g != 0 && 0 < y < WORD && y % g == WORD % g
    ensures (y - 1) % g == (WORD - 1) % g
  {
    ModLess(WORD, g);
    ModLess(y, g);
  }

  lemma ModLess(x: nat, g: nat)
    requires g > 0 && x % g != 0
    ensures (x - 1) % g == x % g - 1
  {
    DivMod(x, g);
    ModOf(x / g, g, x % g - 1);
  }

  lemma NotApart(key: seq<Byte>, a: nat, b: nat, g: nat)
    requires 0 < g <= WORD && a < b < g && Gateway(key, a, g) == Gateway(key, b, g)
    ensures !Apart(key, g)
  {
  }

  /** The main result: one replica per gateway lands on pairwise distinct gateways for every
      key if and only if the number of gateways is a power of two. */
  lemma DistinctIffPower(g: nat)
    requires 0 < g <= WORD
    ensures (forall key: seq<Byte> :: Apart(key, g)) <==> exists e: nat :: e <= 32 && g == Size(1, e)
  {
    hide Gateway, Hash;
    if e: nat :| e <= 32 && g == Size(1, e) {
      forall key: seq<Byte> ensures Apart(key, g) {
        forall a: nat, b: nat | a < b < g ensures Gateway(key, a, g) != Gateway(key, b, g) {
          ReplicasDistinct(key, e, g, a, b);
        }
      }
    } else if WORD % g == 0 {
      WordIsPower();
      DivMod(WORD, g);
      assert g * (WORD / g) == (WORD / g) * g;
      var e := DivisorOfPower(g, WORD / g, 32);
    } else {
      OthersCollide(g);
    }
  }

  /** For example, with 3 gateways the first two replicas of every two-byte key
      share a gateway. */
  lemma ThreeGatewaysCollide(x: Byte, y: Byte)
    ensures Gateway([x, y], 0, 3) == Gateway([x, y], 1, 3)
  {
    hide Mix, Hash;
    var g := 65599 * (x as int) + y as int;
    TwoBytes(x, y, 0);
    TwoBytes(x, y, 1);
    FirstByte(x);
    SecondByte(x, y);
    assert Hash([x, y], 1) == g + 3 * 2753835;
    ByThree(g, 2753835);
  }

  lemma MixBy(hash: Word, b: Byte, v: Word, k: int)
    requires MixExact(hash, b) == v + k * WORD
    ensures Mix(hash, b) == v
  {
    hide Mix, MixExact;
    MixIsAffine(hash, b);
    WordRest(MixExact(hash, b), v, k);
  }

  lemma WordRest(x: int, v: Word, k: int)
    requires x == v + k * WORD
    ensures x % WORD == v
  {
    DivModInt(x, WORD);
    var q := x / WORD;
    assert (q - k) * WORD == v - x % WORD;
  }

  lemma FirstByte(x: Byte)
    ensures Mix(0, x) == x as int && Mix(1, x) == 65599 + x as int
  {
    hide Mix;
    MixBy(0, x, x as int, 0);
    MixBy(1, x, 65599 + x as int, 0);
  }

  /** 65599^2 is 8261505 more than 2^32. */
  lemma SecondByte(x: Byte, y: Byte)
    ensures var g := 65599 * (x as int) + y as int;
            Mix(x as int, y) == g && Mix(65599 + x as int, y) == g + 8261505
  {
    hide Mix;
    var g := 65599 * (x as int) + y as int;
    MixBy(x as int, y, g, 0);
    MixBy(65599 + x as int, y, g + 8261505, 1);
  }

  lemma ByThree(g: nat, k: nat)
    ensures g % 3 == (g + 3 * k) % 3
  {
  }

  lemma TwoBytes(x: Byte, y: Byte, n: Word)
    ensures Hash([x, y], n) == Mix(Mix(n, x), y)
  {
    assert [x, y][1..] == [y] && [y][1..] == [];
    assert Hash([y], Mix(n, x)) == Hash([], Mix(Mix(n, x), y));
  }
}
