/** The cache of common/cache_mt.hpp with its LRU policy, as a value: the entries, the
    recency queue, and what each operation does to them.  CacheService holds the classes. */
module LruCache {
  import opened Basics

  datatype Entry<+V> = Entry(value: V, dirty: bool)

  datatype Cache<K(==), V> = Cache(entries: map<K, Entry<V>>, queue: seq<K>, capacity: nat)

  // ---- The recency queue ----

  function Without<K(==)>(q: seq<K>, k: K): seq<K> {
    if q == [] then [] else if q[0] == k then q[1..] else [q[0]] + Without(q[1..], k)
  }

  function Hit<K(==)>(q: seq<K>, k: K): seq<K> {
    Without(q, k) + [k]
  }

  ghost function KeySet<K>(q: seq<K>): set<K> {
    set x | x in q
  }

  /** Without cuts out the first place of k, if there is one. */
  lemma {:induction false} WithoutAt<K>(q: seq<K>, k: K) returns (i: nat)
    ensures i <= |q| && forall j :: 0 <= j < i ==> q[j] != k
    ensures i < |q| ==> q[i] == k && Without(q, k) == q[..i] + q[i + 1..]
    ensures i == |q| ==> Without(q, k) == q
  {
    if q == [] || q[0] == k {
      i := 0;
    } else {
      var j := WithoutAt(q[1..], k);
      i := j + 1;
      assert q == [q[0]] + q[1..];
      assert j < |q[1..]| ==> [q[0]] + (q[1..][..j] + q[1..][j + 1..]) == q[..i] + q[i + 1..];
    }
  }

  lemma CutDistinct<K>(q: seq<K>, i: nat)
    requires Distinct(q) && i < |q|
    ensures Distinct(q[..i] + q[i + 1..]) && q[i] !in q[..i] + q[i + 1..]
  {
    var r := q[..i] + q[i + 1..];
    assert forall j :: 0 <= j < |r| ==> r[j] == q[if j < i then j else j + 1];
  }

  lemma CutSet<K>(q: seq<K>, i: nat)
    requires i < |q| && q[i] !in q[..i] + q[i + 1..]
    ensures KeySet(q[..i] + q[i + 1..]) == KeySet(q) - {q[i]}
  {
    assert q == q[..i] + [q[i]] + q[i + 1..];
  }

  lemma WithoutSet<K>(q: seq<K>, k: K)
    requires Distinct(q)
    ensures KeySet(Without(q, k)) == KeySet(q) - {k} && Distinct(Without(q, k))
  {
    var i := WithoutAt(q, k);
    var r := Without(q, k);
    if i < |q| {
      hide Without, Distinct;
      CutDistinct(q, i);
      CutSet(q, i);
    }
  }

  lemma HitSet<K>(q: seq<K>, k: K)
    requires Distinct(q)
    ensures KeySet(Hit(q, k)) == KeySet(q) + {k} && Distinct(Hit(q, k))
  {
    hide Without;
    WithoutSet(q, k);
    var r := Without(q, k);
    forall j | 0 <= j < |r| ensures r[j] != k {
      assert r[j] in KeySet(r);
    }
    assert KeySet(r + [k]) == KeySet(r) + {k};
    assert KeySet(q) - {k} + {k} == KeySet(q) + {k};
  }

  // ---- Operations ----

  /** Entries and queue hold the same keys, each once, and no more than fit. */
  ghost predicate Valid<K, V>(c: Cache<K, V>) {
    && Distinct(c.queue)
    && KeySet(c.queue) == c.entries.Keys
    && |c.entries| <= c.capacity
  }

  function Empty<K, V>(capacity: nat): Cache<K, V> {
    Cache(map[], [], capacity)
  }

  /** The key that a write of k must push out first: the head of the queue. */
  predicate MustEvict<K, V>(c: Cache<K, V>, k: K) {
    |c.entries - {k}| == c.capacity
  }

  predicate Accepts<K, V>(c: Cache<K, V>, k: K) {
    MustEvict(c, k) ==> c.queue != []
  }

  function WriteTo<K, V>(c: Cache<K, V>, k: K, v: V, dirty: bool): Cache<K, V> {
    var rest := c.entries - {k};
    if !MustEvict(c, k) then Cache(rest[k := Entry(v, dirty)], Hit(c.queue, k), c.capacity)
    else if c.queue == [] then Cache(rest, [], c.capacity)
    else
      var out := c.queue[0];
      Cache((rest - {out})[k := Entry(v, dirty)], Hit(Without(c.queue, out), k), c.capacity)
  }

  /** The entry handed to the evict callback by a write: the evicted one, if dirty. */
  function Handed<K, V>(c: Cache<K, V>, k: K): Option<(K, V)> {
    if MustEvict(c, k) && c.queue != [] && c.queue[0] in c.entries && c.entries[c.queue[0]].dirty
    then Some((c.queue[0], c.entries[c.queue[0]].value))
    else None
  }

  function ReadFrom<K, V>(c: Cache<K, V>, k: K): Cache<K, V> {
    if k in c.entries then c.(queue := Hit(c.queue, k)) else c
  }

  function Free<K, V>(c: Cache<K, V>, k: K): Cache<K, V> {
    Cache(c.entries - {k}, Without(c.queue, k), c.capacity)
  }

  /** Growing takes effect.  Shrinking does not: the new capacity is never stored, and the
      eviction loop compares with the old one, which the size never exceeds. */
  function Resize<K, V>(c: Cache<K, V>, capacity: nat): Cache<K, V> {
    if c.capacity < capacity then c.(capacity := capacity) else c
  }

  // ---- What every operation keeps ----

  lemma RemoveSize<K, V>(m: map<K, V>, k: K)
    ensures |m - {k}| == if k in m then |m| - 1 else |m|
    ensures (m - {k}).Keys == m.Keys - {k}
  {
    assert (m - {k}).Keys == m.Keys - {k};
    assert |(m - {k}).Keys| == |m.Keys - {k}|;
  }

  lemma InsertSize<K, V>(m: map<K, V>, k: K, v: V)
    requires k !in m
    ensures |m[k := v]| == |m| + 1 && m[k := v].Keys == m.Keys + {k}
  {
    assert m[k := v].Keys == m.Keys + {k};
  }

  /** A full cache without k does not hold k, so its head is another key. */
  lemma EvictsOther<K, V>(c: Cache<K, V>, k: K)
    requires Valid(c) && MustEvict(c, k)
    ensures k !in c.entries && c.entries - {k} == c.entries
    ensures c.queue == [] <==> c.capacity == 0
    ensures c.queue != [] ==> c.queue[0] in c.entries && c.queue[0] != k
  {
    RemoveSize(c.entries, k);
    if c.queue == [] {
      assert c.entries.Keys == {};
    } else {
      assert c.queue[0] in KeySet(c.queue);
      assert |c.entries.Keys| > 0;
    }
  }

  /** The shared part of every accepted write: k joins what is left. */
  lemma AddKeepsValid<K, V>(entries: map<K, Entry<V>>, queue: seq<K>, capacity: nat, k: K, e: Entry<V>)
    requires Distinct(queue) && k !in entries && KeySet(queue) + {k} == entries.Keys + {k} && |entries| < capacity
    ensures Valid(Cache(entries[k := e], Hit(queue, k), capacity))
  {
    HitSet(queue, k);
    InsertSize(entries, k, e);
  }

  lemma WriteKeepsValid<K, V>(c: Cache<K, V>, k: K, v: V, dirty: bool)
    requires Valid(c)
    ensures Valid(WriteTo(c, k, v, dirty))
    ensures Accepts(c, k) <==> c.capacity > 0
    ensures k in WriteTo(c, k, v, dirty).entries <==> Accepts(c, k)
  {
    hide Hit, Without, KeySet, Distinct;
    RemoveSize(c.entries, k);
    if MustEvict(c, k) {
      EvictsOther(c, k);
      if c.queue != [] {
        WithoutSet(c.queue, c.queue[0]);
        RemoveSize(c.entries, c.queue[0]);
        AddKeepsValid(c.entries - {c.queue[0]}, Without(c.queue, c.queue[0]), c.capacity, k, Entry(v, dirty));
      }
    } else {
      assert c.entries.Keys + {k} == (c.entries - {k}).Keys + {k};
      AddKeepsValid(c.entries - {k}, c.queue, c.capacity, k, Entry(v, dirty));
    }
  }

  lemma ReadKeepsValid<K, V>(c: Cache<K, V>, k: K)
    requires Valid(c)
    ensures Valid(ReadFrom(c, k))
  {
    hide Hit, KeySet, Distinct;
    HitSet(c.queue, k);
    if k in c.entries {
      assert c.entries.Keys + {k} == c.entries.Keys;
    }
  }

  lemma FreeKeepsValid<K, V>(c: Cache<K, V>, k: K)
    requires Valid(c)
    ensures Valid(Free(c, k))
  {
    hide Without, KeySet, Distinct;
    WithoutSet(c.queue, k);
    RemoveSize(c.entries, k);
  }

  // ---- Whole runs ----

  datatype Op<K, V> = Write(k: K, v: V, dirty: bool) | Read(k: K) | Drop(k: K) | Clear | SetSize(capacity: nat)

  function Apply<K, V>(c: Cache<K, V>, op: Op<K, V>): Cache<K, V> {
    match op
    case Write(k, v, dirty) => WriteTo(c, k, v, dirty)
    case Read(k) => ReadFrom(c, k)
    case Drop(k) => Free(c, k)
    case Clear => Cache(map[], [], c.capacity)
    case SetSize(n) => Resize(c, n)
  }

  lemma ApplyKeepsValid<K, V>(c: Cache<K, V>, op: Op<K, V>)
    requires Valid(c)
    ensures Valid(Apply(c, op))
  {
    match op
    case Write(k, v, dirty) => WriteKeepsValid(c, k, v, dirty);
    case Read(k) => ReadKeepsValid(c, k);
    case Drop(k) => FreeKeepsValid(c, k);
    case Clear =>
    case SetSize(n) =>
  }

  /** The cache after a run from an empty one. */
  ghost function Run<K(!new), V(!new)>(capacity: nat, ops: seq<Op<K, V>>): (c: Cache<K, V>)
    ensures Valid(c)
  {
    if ops == [] then Empty(capacity)
    else
      ApplyKeepsValid(Run(capacity, ops[..|ops| - 1]), ops[|ops| - 1]);
      Apply(Run(capacity, ops[..|ops| - 1]), ops[|ops| - 1])
  }

  // ---- Values ----

  /** What the operations so far last did to a key: an entry written, or nothing. */
  function LastWrite<K(==), V>(ops: seq<Op<K, V>>, k: K): Option<Entry<V>> {
    if ops == [] then None
    else match ops[|ops| - 1]
      case Write(x, v, dirty) => if x == k then Some(Entry(v, dirty)) else LastWrite(ops[..|ops| - 1], k)
      case Drop(x) => if x == k then None else LastWrite(ops[..|ops| - 1], k)
      case Clear => None
      case _ => LastWrite(ops[..|ops| - 1], k)
  }

  /** In every run, what is cached for a key is what was last written to it, with its dirty
      mark, and nothing is cached for a key that was dropped since. */
  lemma {:induction false} CachedIsLastWritten<K(!new), V(!new)>(capacity: nat, ops: seq<Op<K, V>>, k: K)
    ensures k in Run(capacity, ops).entries ==> LastWrite(ops, k) == Some(Run(capacity, ops).entries[k])
    decreases |ops|
  {
    hide Apply, Valid;
    if ops != [] {
      CachedIsLastWritten(capacity, ops[..|ops| - 1], k);
      ApplyLast(Run(capacity, ops[..|ops| - 1]), ops[|ops| - 1], k);
    }
  }

  lemma ApplyLast<K, V>(c: Cache<K, V>, op: Op<K, V>, k: K)
    ensures k in Apply(c, op).entries ==>
      match op
      case Write(x, v, dirty) => if x == k then Apply(c, op).entries[k] == Entry(v, dirty)
                                 else k in c.entries && Apply(c, op).entries[k] == c.entries[k]
      case Drop(x) => x != k && k in c.entries && Apply(c, op).entries[k] == c.entries[k]
      case Clear => false
      case _ => k in c.entries && Apply(c, op).entries[k] == c.entries[k]
  {
    hide Hit, Without, MustEvict;
  }

  // ---- Recency ----

  predicate Uses<K(==), V>(op: Op<K, V>, k: K) {
    (op.Write? || op.Read?) && op.k == k
  }

  /** When k was last written or read, or -1. */
  function LastUse<K(==), V>(ops: seq<Op<K, V>>, k: K): (i: int)
    ensures -1 <= i < |ops|
  {
    if ops == [] then -1
    else if Uses(ops[|ops| - 1], k) then |ops| - 1
    else LastUse(ops[..|ops| - 1], k)
  }

  /** The queue lists its keys from the least to the most recently used. */
  ghost predicate ByRecency<K, V>(q: seq<K>, ops: seq<Op<K, V>>) {
    forall i, j :: 0 <= i < j < |q| ==> LastUse(ops, q[i]) < LastUse(ops, q[j])
  }

  /** A key that the last operation did not use keeps its last use. */
  lemma LastUseKept<K, V>(ops: seq<Op<K, V>>, k: K)
    requires ops != [] && !Uses(ops[|ops| - 1], k)
    ensures LastUse(ops, k) == LastUse(ops[..|ops| - 1], k)
  {
  }

  lemma WithoutByRecency<K, V>(q: seq<K>, k: K, ops: seq<Op<K, V>>)
    requires Distinct(q) && ByRecency(q, ops)
    ensures ByRecency(Without(q, k), ops)
  {
    hide LastUse, Without;
    var i := WithoutAt(q, k);
    var r := Without(q, k);
    assert i < |q| ==> forall j :: 0 <= j < |r| ==> r[j] == q[if j < i then j else j + 1];
  }

  /** Moving the used key to the back keeps the order. */
  lemma HitByRecency<K, V>(q: seq<K>, k: K, ops: seq<Op<K, V>>)
    requires ops != [] && Uses(ops[|ops| - 1], k) && Distinct(q) && ByRecency(q, ops[..|ops| - 1])
    ensures ByRecency(Hit(q, k), ops)
  {
    var rest := Without(q, k);
    WithoutSet(q, k);
    WithoutByRecency(q, k, ops[..|ops| - 1]);
    SameOrder(rest, ops);
    forall j | 0 <= j < |rest| ensures LastUse(ops, rest[j]) < |ops| - 1 {
      assert rest[j] in KeySet(rest);
      LastUseKept(ops, rest[j]);
    }
  }

  /** Keys that the last operation did not use keep their order. */
  lemma SameOrder<K, V>(q: seq<K>, ops: seq<Op<K, V>>)
    requires ops != [] && ByRecency(q, ops[..|ops| - 1])
    requires forall k :: k in KeySet(q) ==> !Uses(ops[|ops| - 1], k)
    ensures ByRecency(q, ops)
  {
    hide LastUse;
    forall i, j | 0 <= i < j < |q| ensures LastUse(ops, q[i]) < LastUse(ops, q[j]) {
      assert q[i] in KeySet(q) && q[j] in KeySet(q);
      LastUseKept(ops, q[i]);
      LastUseKept(ops, q[j]);
    }
  }

  lemma ApplyByRecency<K, V>(c: Cache<K, V>, ops: seq<Op<K, V>>)
    requires Valid(c) && ops != [] && ByRecency(c.queue, ops[..|ops| - 1])
    ensures ByRecency(Apply(c, ops[|ops| - 1]).queue, ops)
  {
    hide LastUse, Without, Hit, ByRecency;
    var before := ops[..|ops| - 1];
    match ops[|ops| - 1]
    case Write(k, v, dirty) =>
      if MustEvict(c, k) {
        EvictsOther(c, k);
        if c.queue != [] {
          WithoutSet(c.queue, c.queue[0]);
          WithoutByRecency(c.queue, c.queue[0], before);
          HitByRecency(Without(c.queue, c.queue[0]), k, ops);
        } else {
          SameOrder([], ops);
        }
      } else {
        HitByRecency(c.queue, k, ops);
      }
    case Read(k) =>
      if k in c.entries {
        HitByRecency(c.queue, k, ops);
      } else {
        SameOrder(c.queue, ops);
      }
    case Drop(k) =>
      WithoutSet(c.queue, k);
      WithoutByRecency(c.queue, k, before);
      SameOrder(Without(c.queue, k), ops);
    case Clear => NoneByRecency(ops);
    case SetSize(n) => SameOrder(c.queue, ops);
  }

  lemma NoneByRecency<K, V>(ops: seq<Op<K, V>>)
    ensures ByRecency([], ops)
  {
  }

  /** In every run the queue is the cached keys in order of last use. */
  lemma {:induction false} QueueIsRecencyOrder<K(!new), V(!new)>(capacity: nat, ops: seq<Op<K, V>>)
    ensures Valid(Run(capacity, ops)) && ByRecency(Run(capacity, ops).queue, ops)
    decreases |ops|
  {
    hide Apply;
    if ops != [] {
      QueueIsRecencyOrder(capacity, ops[..|ops| - 1]);
      ApplyByRecency(Run(capacity, ops[..|ops| - 1]), ops);
    }
  }

  /** In every run, the key that a write evicts is the least recently used one. */
  lemma EvictsLeastRecentlyUsed<K(!new), V(!new)>(capacity: nat, ops: seq<Op<K, V>>, k: K, v: V, dirty: bool)
    requires var c := Run(capacity, ops); MustEvict(c, k) && c.queue != []
    ensures var c := Run(capacity, ops); var out := c.queue[0];
            && out in c.entries && out !in WriteTo(c, k, v, dirty).entries
            && (forall x :: x in c.entries && x != out ==>
                  LastUse(ops, out) < LastUse(ops, x) && x in WriteTo(c, k, v, dirty).entries
                  && WriteTo(c, k, v, dirty).entries[x] == c.entries[x])
  {
    hide LastUse, Run, Apply;
    var c := Run(capacity, ops);
    QueueIsRecencyOrder(capacity, ops);
    EvictsOther(c, k);
    forall x | x in c.entries && x != c.queue[0] ensures LastUse(ops, c.queue[0]) < LastUse(ops, x) {
      assert x in KeySet(c.queue);
      var j :| 0 <= j < |c.queue| && c.queue[j] == x;
    }
  }

  // ---- Conservation of dirty values ----

  /** The dirty entries of a cache, as a bag. */
  ghost function DirtyOf<K(!new), V(!new)>(entries: map<K, Entry<V>>): multiset<(K, V)> {
    multiset(DirtySet(entries))
  }

  function One<K(==), V(==)>(entries: map<K, Entry<V>>, k: K): multiset<(K, V)> {
    if k in entries && entries[k].dirty then multiset{(k, entries[k].value)} else multiset{}
  }

  ghost function DirtySet<K(!new), V(!new)>(entries: map<K, Entry<V>>): set<(K, V)> {
    set k | k in entries && entries[k].dirty :: (k, entries[k].value)
  }

  lemma DirtySetHas<K(!new), V(!new)>(entries: map<K, Entry<V>>, e: (K, V))
    ensures e in DirtySet(entries) <==> e.0 in entries && entries[e.0] == Entry(e.1, true)
  {
  }

  lemma DirtyRemove<K(!new), V(!new)>(entries: map<K, Entry<V>>, k: K)
    ensures DirtyOf(entries) == DirtyOf(entries - {k}) + One(entries, k)
  {
    hide DirtySet;
    var a, b := DirtySet(entries), DirtySet(entries - {k});
    forall e ensures e in a <==> e in b || (e.0 == k && k in entries && entries[k] == Entry(e.1, true)) {
      DirtySetHas(entries, e);
      DirtySetHas(entries - {k}, e);
    }
    if k in entries && entries[k].dirty {
      assert a == b + {(k, entries[k].value)} && (k, entries[k].value) !in b by {
        DirtySetHas(entries - {k}, (k, entries[k].value));
      }
    } else {
      assert a == b;
    }
  }

  lemma DirtyInsert<K(!new), V(!new)>(entries: map<K, Entry<V>>, k: K, e: Entry<V>)
    requires k !in entries
    ensures DirtyOf(entries[k := e]) == DirtyOf(entries) + One(entries[k := e], k)
  {
    DirtyRemove(entries[k := e], k);
    assert entries[k := e] - {k} == entries;
  }

  /** The dirty value that an operation brings in. */
  ghost function BroughtIn<K(!new), V(!new)>(c: Cache<K, V>, op: Op<K, V>): multiset<(K, V)> {
    if op.Write? && op.dirty && Accepts(c, op.k) then multiset{(op.k, op.v)} else multiset{}
  }

  /** The dirty value handed to the evict callback. */
  ghost function HandedOut<K(!new), V(!new)>(c: Cache<K, V>, op: Op<K, V>): multiset<(K, V)> {
    if op.Write? && Handed(c, op.k).Some? then multiset{Handed(c, op.k).value} else multiset{}
  }

  /** The dirty values that an operation drops by request: the old value of a written or
      freed key, or everything on clear. */
  ghost function Dropped<K(!new), V(!new)>(c: Cache<K, V>, op: Op<K, V>): multiset<(K, V)> {
    match op
    case Write(k, v, dirty) => One(c.entries, k)
    case Drop(k) => One(c.entries, k)
    case Clear => DirtyOf(c.entries)
    case Read(k) => multiset{}
    case SetSize(n) => multiset{}
  }

  /** No operation loses or duplicates a dirty value. */
  lemma ApplyConserves<K(!new), V(!new)>(c: Cache<K, V>, op: Op<K, V>)
    requires Valid(c)
    ensures DirtyOf(c.entries) + BroughtIn(c, op)
         == DirtyOf(Apply(c, op).entries) + HandedOut(c, op) + Dropped(c, op)
  {
    hide DirtyOf, Hit, Without;
    match op
    case Write(k, v, dirty) => WriteConserves(c, k, v, dirty);
    case Read(k) =>
    case Drop(k) => DirtyRemove(c.entries, k);
    case Clear => NoDirty<K, V>();
    case SetSize(n) =>
  }

  lemma NoDirty<K(!new), V(!new)>()
    ensures DirtyOf<K, V>(map[]) == multiset{}
  {
  }

  lemma WriteConserves<K(!new), V(!new)>(c: Cache<K, V>, k: K, v: V, dirty: bool)
    requires Valid(c)
    ensures var op := Write(k, v, dirty);
            DirtyOf(c.entries) + BroughtIn(c, op) == DirtyOf(Apply(c, op).entries) + HandedOut(c, op) + Dropped(c, op)
  {
    hide DirtyOf, Hit, Without, Valid;
    var rest := c.entries - {k};
    DirtyRemove(c.entries, k);
    if MustEvict(c, k) {
      EvictsOther(c, k);
      if c.queue != [] {
        EvictingWriteConserves(c, k, v, dirty);
      }
    } else {
      DirtyInsert(rest, k, Entry(v, dirty));
    }
  }

  lemma EvictingWriteConserves<K(!new), V(!new)>(c: Cache<K, V>, k: K, v: V, dirty: bool)
    requires Valid(c) && MustEvict(c, k) && c.queue != []
    ensures DirtyOf(c.entries) + BroughtIn(c, Write(k, v, dirty))
         == DirtyOf(WriteTo(c, k, v, dirty).entries) + HandedOut(c, Write(k, v, dirty))
  {
    hide DirtyOf, Hit, Without, Valid;
    EvictsOther(c, k);
    DirtyRemove(c.entries, c.queue[0]);
    DirtyInsert(c.entries - {c.queue[0]}, k, Entry(v, dirty));
  }

  lemma Rearrange<T(!new)>(before: multiset<T>, a: multiset<T>, after: multiset<T>, e: multiset<T>, d: multiset<T>,
                     evicted: multiset<T>, discarded: multiset<T>)
    requires before + a == after + e + d
    ensures before + evicted + discarded + a == after + (evicted + e) + (discarded + d)
  {
    forall x: T ensures (before + evicted + discarded + a)[x] == (after + (evicted + e) + (discarded + d))[x] {
      assert (before + a)[x] == (after + e + d)[x];
    }
  }

  /** What a run brought in, handed out and dropped in all. */
  ghost function Totals<K(!new), V(!new)>(capacity: nat, ops: seq<Op<K, V>>): (multiset<(K, V)>, multiset<(K, V)>, multiset<(K, V)>) {
    if ops == [] then (multiset{}, multiset{}, multiset{})
    else
      var c, op := Run(capacity, ops[..|ops| - 1]), ops[|ops| - 1];
      var (a, e, d) := Totals(capacity, ops[..|ops| - 1]);
      (a + BroughtIn(c, op), e + HandedOut(c, op), d + Dropped(c, op))
  }

  /** In every run, every dirty value ever accepted is still cached, or was handed to the
      evict callback, or was dropped by request: each exactly once. */
  lemma {:induction false} DirtyConserved<K(!new), V(!new)>(capacity: nat, ops: seq<Op<K, V>>)
    ensures var (accepted, evicted, discarded) := Totals(capacity, ops);
            accepted == DirtyOf(Run(capacity, ops).entries) + evicted + discarded
    decreases |ops|
  {
    hide DirtyOf, BroughtIn, HandedOut, Dropped, Apply;
    if ops == [] {
      NoDirty<K, V>();
    } else {
      var c, op := Run(capacity, ops[..|ops| - 1]), ops[|ops| - 1];
      var t := Totals(capacity, ops[..|ops| - 1]);
      DirtyConserved(capacity, ops[..|ops| - 1]);
      ApplyConserves(c, op);
      Rearrange(DirtyOf(c.entries), BroughtIn(c, op), DirtyOf(Apply(c, op).entries), HandedOut(c, op), Dropped(c, op), t.1, t.2);
    }
  }
}
