/** When setting a cache's size takes effect (cache_mt::resize in common/cache_mt.hpp).
    Growing does.  Shrinking does not: the new size is never stored, and the eviction loop
    compares with the old one, which the cache never exceeds. */
module CacheResize {
  import opened Basics
  import opened LruCache

  /** A cache with two entries is told to hold one, and keeps both. */
  lemma ShrinkKeepsBoth<V>(v: V, w: V)
    ensures var c := Cache(map[1 as nat := Entry(v, true), 2 := Entry(w, true)], [1, 2], 2);
            Valid(c) && Resize(c, 1) == c && |Resize(c, 1).entries| == 2
  {
    var c := Cache(map[1 as nat := Entry(v, true), 2 := Entry(w, true)], [1, 2], 2);
    assert KeySet(c.queue) == {1, 2} == c.entries.Keys;
    assert |c.entries.Keys| == 2;
  }

  /** The size asked for is stored if and only if it is no smaller than the old one, and the
      call itself never removes an entry. */
  lemma ResizeIff<K, V>(c: Cache<K, V>, n: nat)
    requires Valid(c)
    ensures Valid(Resize(c, n)) && (Resize(c, n).capacity == n <==> c.capacity <= n)
    ensures Resize(c, n).entries == c.entries && Resize(c, n).queue == c.queue
    ensures |Resize(c, n).entries| <= n <==> |c.entries| <= n
  {
  }

  ghost predicate NoResize<K, V>(ops: seq<Op<K, V>>) {
    forall i :: 0 <= i < |ops| ==> !ops[i].SetSize?
  }

  lemma {:induction false} CapacityStays<K(!new), V(!new)>(capacity: nat, ops: seq<Op<K, V>>, more: seq<Op<K, V>>)
    requires NoResize(more)
    ensures Run(capacity, ops + more).capacity == Run(capacity, ops).capacity
    decreases |more|
  {
    if more != [] {
      var rest := more[..|more| - 1];
      assert (ops + more)[..|ops + more| - 1] == ops + rest;
      CapacityStays(capacity, ops, rest);
    } else {
      assert ops + more == ops;
    }
  }

  // ---- Filling a cache ----

  function Upto(n: nat): seq<nat> {
    seq(n, i => i)
  }

  function Fill<V>(n: nat, v: V): seq<Op<nat, V>> {
    seq(n, i => Write(i, v, true))
  }

  predicate EndsWith<K(==)>(q: seq<K>, tail: seq<K>) {
    |tail| <= |q| && q[|q| - |tail|..] == tail
  }

  /** Cutting out a key that is not in the tail keeps the tail. */
  lemma WithoutEnds<K>(q: seq<K>, k: K, tail: seq<K>)
    requires EndsWith(q, tail) && k !in tail
    ensures EndsWith(Without(q, k), tail)
  {
    hide Without;
    var i := WithoutAt(q, k);
    var n := |q| - |tail|;
    forall j | n <= j < |q| ensures q[j] in tail {
      assert q[j] == q[n..][j - n];
    }
  }

  lemma {:induction false} QueueSize<K>(q: seq<K>)
    requires Distinct(q)
    ensures |KeySet(q)| == |q|
  {
    if q != [] {
      var rest := q[..|q| - 1];
      QueueSize(rest);
      assert q == rest + [q[|q| - 1]];
      assert KeySet(q) == KeySet(rest) + {q[|q| - 1]};
      assert q[|q| - 1] !in KeySet(rest);
    }
  }

  /** A full cache evicts none of its most recently used keys. */
  lemma HeadIsOld<V>(c: Cache<nat, V>, j: nat)
    requires Valid(c) && EndsWith(c.queue, Upto(j)) && j < |c.queue|
    ensures c.queue[0] !in Upto(j)
  {
    var n := |c.queue| - j;
    forall i | 0 <= i < j ensures Upto(j)[i] != c.queue[0] {
      assert Upto(j)[i] == c.queue[n..][i] == c.queue[n + i];
    }
  }

  lemma WriteEnds<V>(c: Cache<nat, V>, j: nat, v: V)
    requires Valid(c) && EndsWith(c.queue, Upto(j)) && j < c.capacity
    ensures EndsWith(WriteTo(c, j, v, true).queue, Upto(j + 1))
  {
    hide Without, KeySet;
    assert Upto(j + 1) == Upto(j) + [j];
    if MustEvict(c, j) {
      EvictsOther(c, j);
      QueueSize(c.queue);
      HeadIsOld(c, j);
      WithoutEnds(c.queue, c.queue[0], Upto(j));
      WithoutEnds(Without(c.queue, c.queue[0]), j, Upto(j));
    } else {
      WithoutEnds(c.queue, j, Upto(j));
    }
  }

  lemma {:induction false} FillEnds<V(!new)>(capacity: nat, ops: seq<Op<nat, V>>, j: nat, v: V)
    requires j <= Run(capacity, ops).capacity
    ensures EndsWith(Run(capacity, ops + Fill(j, v)).queue, Upto(j))
    decreases j
  {
    hide Run, EndsWith, WriteTo, Valid;
    if j > 0 {
      var before := ops + Fill(j - 1, v);
      assert ops + Fill(j, v) == before + [Write(j - 1, v, true)];
      FillEnds(capacity, ops, j - 1, v);
      CapacityStays(capacity, ops, Fill(j - 1, v));
      RunPush(capacity, before, Write(j - 1, v, true));
      WriteEnds(Run(capacity, before), j - 1, v);
    } else {
      NothingEnds(Run(capacity, ops + Fill(0, v)).queue);
    }
  }

  lemma NothingEnds(q: seq<nat>)
    ensures EndsWith(q, Upto(0))
  {
  }

  lemma RunPush<V(!new)>(capacity: nat, ops: seq<Op<nat, V>>, op: Op<nat, V>)
    ensures Run(capacity, ops + [op]) == Apply(Run(capacity, ops), op)
  {
    hide Apply;
    assert (ops + [op])[..|ops|] == ops;
  }

  /** The exact condition, over every run: after resize(n) the cache holds at most n entries
      from then on, until its size is set again, if and only if n was no smaller than the
      size in force. */
  lemma ResizeHoldsIff<V(!new)>(capacity: nat, ops: seq<Op<nat, V>>, n: nat, v: V)
    ensures (forall more: seq<Op<nat, V>> :: NoResize(more) ==> |Run(capacity, ops + [SetSize(n)] + more).entries| <= n)
            <==> Run(capacity, ops).capacity <= n
  {
    hide Run, Apply, EndsWith, Valid;
    var begun := ops + [SetSize(n)];
    RunPush(capacity, ops, SetSize(n));
    ResizeIff(Run(capacity, ops), n);
    var c := Run(capacity, begun);
    assert c == Resize(Run(capacity, ops), n) by { ApplyResize(Run(capacity, ops), n); }
    if Run(capacity, ops).capacity <= n {
      forall more: seq<Op<nat, V>> | NoResize(more) ensures |Run(capacity, begun + more).entries| <= n {
        CapacityStays(capacity, begun, more);
        WithinCapacity(Run(capacity, begun + more));
      }
    } else {
      FillEnds(capacity, begun, n + 1, v);
      HoldsTail(Run(capacity, begun + Fill(n + 1, v)), n + 1);
      assert NoResize(Fill(n + 1, v));
    }
  }

  lemma ApplyResize<V>(c: Cache<nat, V>, n: nat)
    ensures Apply(c, SetSize(n)) == Resize(c, n)
  {
  }

  lemma WithinCapacity<V>(c: Cache<nat, V>)
    requires Valid(c)
    ensures |c.entries| <= c.capacity
  {
  }

  lemma HoldsTail<V>(c: Cache<nat, V>, n: nat)
    requires Valid(c) && EndsWith(c.queue, Upto(n))
    ensures |c.entries| >= n
  {
    QueueSize(c.queue);
    assert |c.entries.Keys| == |c.entries|;
  }
}
