/** writeRecordLocations (client/range_query.cpp:91-211): publish the page locations and
    leaves of a write, find the brothers of its edges, and weave its inner nodes. */
module WriteLocations {
  import opened Arithmetic
  import opened Metadata
  import opened Dyadic
  import opened History
  import opened Siblings
  import opened Descent
  import opened Weave
  import opened NodeDeque

  /** The version manager's answer to a ticket request.  The own interval comes last. */
  datatype Reply = Reply(intervals: seq<Query>, rootSize: nat, stableRoot: Root)

  type Provider = string

  /** The reply describes log h, of which the first n writes were published. */
  ghost predicate Describes(reply: Reply, h: Log, n: nat) {
    var ps := reply.stableRoot.pageSize;
    && ps > 0 && n < |h|
    && WellFormed(h)
    && Intervals(ps, reply.intervals, h[n..])
    && (forall i :: n <= i < |h| ==> h[i].id == h[|h| - 1].id)
    && reply.rootSize == Size(ps, Own(h).level)
    && StableRoot(ps, h[..n], reply.stableRoot.node)
  }

  /** The keys under which the writer stored its pages. */
  ghost predicate PageKeys(ps: nat, w: Write, pages: seq<Query>) {
    && w.first <= w.last
    && |pages| == w.last - w.first + 1
    && forall i :: 0 <= i < |pages| ==> pages[i] == PageKey(ps, w, w.first + i)
  }

  function LeafPuts(ps: nat, w: Write, n: nat): seq<Put>
  {
    seq(n, i requires 0 <= i => (NodeKey(ps, w, 0, w.first + i), Leaf(PageKey(ps, w, w.first + i))))
  }

  /** The leaf loop: each page key is bound to its block of providers, and each leaf to
      its page key.  The queue of leaves replaces the queue of page keys. */
  method WriteLeaves(ps: nat, query: Query, pages: seq<Query>, replicas: nat, providers: seq<Provider>, ghost w: Write)
    returns (leaves: seq<Query>, pagePuts: seq<(Query, seq<Provider>)>, puts: seq<Put>)
    requires ps > 0 && PageKeys(ps, w, pages) && query == IntervalOf(ps, w)
    requires |pages| * replicas <= |providers|
    ensures leaves == Row(ps, w, 0, w.first, w.last + 1)
    ensures puts == LeafPuts(ps, w, |pages|)
    ensures |pagePuts| == |pages|
    ensures forall i: nat :: i < |pages| ==>
      i * replicas + replicas <= |providers| && pagePuts[i] == (pages[i], providers[i * replicas..i * replicas + replicas])
  {
    leaves, pagePuts, puts := [], [], [];
    var j := 0;
    for i := 0 to |pages|
      invariant j == i * replicas
      invariant leaves == Row(ps, w, 0, w.first, w.first + i)
      invariant puts == LeafPuts(ps, w, i)
      invariant |pagePuts| == i
      invariant forall m: nat :: m < i ==>
        m * replicas + replicas <= |providers| && pagePuts[m] == (pages[m], providers[m * replicas..m * replicas + replicas])
    {
      MulStep(i, |pages|, replicas);
      var leaf := Query(pages[i].id, query.version, query.offset + pages[i].offset * pages[i].size, pages[i].size);
      Distribute(w.first, i, ps);
      RowBack(ps, w, 0, w.first, w.first + i);
      leaves := leaves + [leaf];
      pagePuts := pagePuts + [(pages[i], providers[j..j + replicas])];
      puts := puts + [(leaf, Leaf(pages[i]))];
      j := j + replicas;
      Distribute(i, 1, replicas);
    }
  }

  /** The page-aligned ends of the write. */
  method EdgeLeaves(ps: nat, query: Query, ghost w: Write) returns (left: Query, right: Query)
    requires ps > 0 && w.first <= w.last && query == IntervalOf(ps, w)
    ensures left == LeafOf(ps, w, w.first) && right == LeafOf(ps, w, w.last)
  {
    Distribute(w.first, w.last - w.first + 1, ps);
    DivExact(w.first, ps);
    DivExact(w.last + 1, ps);
    var end := query.offset + query.size;
    left := Query(query.id, query.version, (query.offset / ps) * ps, ps);
    right := Query(query.id, query.version, (end / ps - (if end % ps == 0 then 1 else 0)) * ps, ps);
  }

  lemma PendingIntervals(reply: Reply, h: Log, n: nat)
    requires Describes(reply, h, n)
    ensures var ps := reply.stableRoot.pageSize;
            && |reply.intervals| == |h| - n
            && reply.intervals[|h| - n - 1] == IntervalOf(ps, Own(h))
            && Intervals(ps, reply.intervals[..|h| - n - 1], Pending(h, n))
            && forall i :: 0 <= i < |Pending(h, n)| ==> Pending(h, n)[i].id == Own(h).id && Pending(h, n)[i].version > 0
  {
    assert h[n..][|h| - n - 1] == Own(h);
    forall i | 0 <= i < |Pending(h, n)|
      ensures Pending(h, n)[i] == h[n + i] && h[n..][i] == h[n + i] {
    }
  }

  /** The brothers of both edges. */
  method FindSiblings(dht: Dht, reply: Reply, front: Query, back: Query, ghost h: Log, ghost n: nat)
    returns (left: seq<Query>, right: seq<Query>)
    requires Describes(reply, h, n)
    requires front == LeafOf(reply.stableRoot.pageSize, Own(h), Own(h).first)
    requires back == LeafOf(reply.stableRoot.pageSize, Own(h), Own(h).last)
    ensures left == LeftList(reply.stableRoot.pageSize, dht, h, n, reply.stableRoot.node)
    ensures right == RightList(reply.stableRoot.pageSize, dht, h, n, reply.stableRoot.node)
  {
    var ps, stable := reply.stableRoot.pageSize, reply.stableRoot.node;
    PendingIntervals(reply, h, n);
    var query := reply.intervals[|reply.intervals| - 1];
    var pending := reply.intervals[..|reply.intervals| - 1];
    var leftEdge, rightEdge := EdgeLeaves(ps, query, Own(h));
    left := ComputeSiblingVersions(ps, leftEdge, pending, reply.rootSize, Pending(h, n), Own(h).first, Own(h).level);
    right := ComputeSiblingVersions(ps, rightEdge, pending, reply.rootSize, Pending(h, n), Own(h).last, Own(h).level);
    if Intersects(stable, front) {
      left := SiblingsCallback(dht, true, front, left, stable);
    } else {
      var present := SearchList(left, stable.offset, stable.size);
      if present == NO_QUERY {
        left := left + [stable];
      }
    }
    if Intersects(stable, back) {
      right := SiblingsCallback(dht, false, back, right, stable);
    }
  }

  /** All the puts of one write, in program order: page locations, leaves, inner nodes. */
  method WriteRecordLocations(dht: Dht, reply: Reply, pages: seq<Query>, providers: seq<Provider>,
                              ghost h: Log, ghost n: nat)
    returns (ok: bool, pagePuts: seq<(Query, seq<Provider>)>, puts: seq<Put>)
    requires Describes(reply, h, n)
    requires pages == [] || PageKeys(reply.stableRoot.pageSize, Own(h), pages)
    requires |pages| * reply.stableRoot.replicaCount <= |providers|
    ensures ok <==> pages != []
    ensures ok ==> |pagePuts| == |pages|
    ensures ok ==>
      var ps, stable := reply.stableRoot.pageSize, reply.stableRoot.node;
      puts == LeafPuts(ps, Own(h), |pages|) +
              TreePuts(ps, Own(h), LeftList(ps, dht, h, n, stable), RightList(ps, dht, h, n, stable), Own(h).level)
    ensures ok ==> forall i: nat :: i < |pages| ==>
      var rc := reply.stableRoot.replicaCount;
      i * rc + rc <= |providers| && pagePuts[i] == (pages[i], providers[i * rc..i * rc + rc])
  {
    if pages == [] {
      return false, [], [];
    }
    var ps := reply.stableRoot.pageSize;
    PendingIntervals(reply, h, n);
    var query := reply.intervals[|reply.intervals| - 1];
    var leaves;
    leaves, pagePuts, puts := WriteLeaves(ps, query, pages, reply.stableRoot.replicaCount, providers, Own(h));
    RowFront(ps, Own(h), 0, Own(h).first, Own(h).last + 1);
    assert leaves[|leaves| - 1] == NodeKey(ps, Own(h), 0, Own(h).first + (|leaves| - 1));
    var left, right := FindSiblings(dht, reply, leaves[0], leaves[|leaves| - 1], h, n);
    var inner := ProcessNodes(ps, leaves, reply.rootSize, left, right, Own(h));
    return true, pagePuts, puts + inner;
  }
}
