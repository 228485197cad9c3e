/** Weaving: which brothers a writer links and which nodes it stores, and why the result
    is the canonical tree of its version (writeRecordLocations in client/range_query.cpp). */
module Weave {
  import opened Metadata
  import opened Dyadic
  import opened History
  import opened Siblings
  import opened Descent

  /** The left brothers: pending ones, then the stable tree's, or the stable root itself
      when the write starts beyond it. */
  function LeftSiblings(dht: Dht, pendingSiblings: seq<Query>, stable: Query, front: Query): seq<Query> {
    if Intersects(stable, front) then Descend(dht, true, front, pendingSiblings, stable)
    else AddIfAbsent(pendingSiblings, stable)
  }

  function RightSiblings(dht: Dht, pendingSiblings: seq<Query>, stable: Query, back: Query): seq<Query> {
    if Intersects(stable, back) then Descend(dht, false, back, pendingSiblings, stable)
    else pendingSiblings
  }

  /** The root of the last published tree: a blob without versions has a root of size 0. */
  ghost predicate StableRoot(ps: nat, stableLog: Log, q: Query) {
    if stableLog == [] then q.offset == 0 && q.size == 0
    else q == NodeKey(ps, stableLog[|stableLog| - 1], stableLog[|stableLog| - 1].level, 0)
  }

  /** What the last write of h was told with its ticket: the first n writes were
      published, the others pending, and the tree of the published ones is complete. */
  ghost predicate Granted(ps: nat, dht: Dht, h: Log, n: nat, stable: Query) {
    && ps > 0 && n < |h|
    && WellFormed(h)
    && AllInReach(h[..|h| - 1])
    && StableRoot(ps, h[..n], stable)
    && (n > 0 ==> StableTree(ps, dht, h[..n]))
    && (forall q :: q in dht ==> q.id > 0)
  }

  function Own(h: Log): Write
    requires h != []
  {
    h[|h| - 1]
  }

  function Pending(h: Log, n: nat): Log
    requires n < |h|
  {
    h[n..|h| - 1]
  }

  function LeafOf(ps: nat, w: Write, p: nat): Query {
    Position(ps, w.id, w.version, 0, p)
  }

  lemma LeafRange(ps: nat, w: Write, p: nat)
    ensures SameRange(LeafOf(ps, w, p), p * ps, ps)
  {
  }

  function LeftList(ps: nat, dht: Dht, h: Log, n: nat, stable: Query): seq<Query>
    requires n < |h|
  {
    var w := Own(h);
    LeftSiblings(dht, PendingSiblings(ps, Pending(h, n), w.first, 0, w.level), stable, LeafOf(ps, w, w.first))
  }

  function RightList(ps: nat, dht: Dht, h: Log, n: nat, stable: Query): seq<Query>
    requires n < |h|
  {
    var w := Own(h);
    RightSiblings(dht, PendingSiblings(ps, Pending(h, n), w.last, 0, w.level), stable, LeafOf(ps, w, w.last))
  }

  lemma {:induction false} NewestSplit(h: Log, n: nat, k: nat, x: nat)
    requires n <= |h|
    ensures Newest(h, k, x) == if Newest(h[n..], k, x) >= 0 then n + Newest(h[n..], k, x) else Newest(h[..n], k, x)
  {
    if |h| > n {
      var g := h[..|h| - 1];
      assert h[n..][..|h| - n - 1] == g[n..];
      assert g[..n] == h[..n];
      NewestSplit(g, n, k, x);
    } else {
      assert h[..n] == h;
    }
  }

  /** Where the own write does not reach, the right link is the newest pending write's
      node, or else the published tree's link. */
  lemma FilledLinks(ps: nat, h: Log, n: nat, k: nat, x: nat, q: Query)
    requires n < |h| && WellFormed(h) && !Touch(Own(h), k, x)
    requires FilledFrom(ps, h[..n], PendingEntry(ps, Pending(h, n), k, x), true, k, x, q)
    ensures Links(ps, h, k, x, q)
  {
    var g := h[..|h| - 1];
    assert g[n..] == Pending(h, n) && g[..n] == h[..n];
    NewestCut(h, |h| - 1, k, x);
    NewestSplit(g, n, k, x);
    var i := Newest(Pending(h, n), k, x);
    if i >= 0 {
      assert Pending(h, n)[i] == h[n + i];
    }
  }

  lemma PendingBrother(ps: nat, h: Log, n: nat, e: nat, j: nat)
    requires ps > 0 && n < |h| && WellFormed(h) && j < Own(h).level
    ensures var y := Brother(Shift(e, j));
            At(ps, PendingSiblings(ps, Pending(h, n), e, 0, Own(h).level), j, y) == PendingEntry(ps, Pending(h, n), j, y)
  {
    forall i | 0 <= i < |Pending(h, n)| ensures Pending(h, n)[i].id > 0 {
      assert Pending(h, n)[i] == h[n + i];
    }
    PendingSiblingsAt(ps, Pending(h, n), e, 0, Own(h).level, j, Brother(Shift(e, j)));
  }

  /** The stable tree holds nothing at or above the level of its own root except at 0. */
  lemma StableTouchesLow(h: Log, i: nat, k: nat, x: nat)
    requires WellFormed(h) && i < |h| && h[|h| - 1].level <= k && x > 0
    ensures !Touch(h[i], k, x)
  {
    ShiftZeroUp(h[i].last, h[i].level, k);
  }

  /** A brother beside the path of a page beyond the stable root is not in the stable tree,
      unless it is the range [0, 2^j) at or above the stable root. */
  lemma BeyondStable(h: Log, t: nat, j: nat)
    requires h != [] && WellFormed(h)
    requires Shift(t, h[|h| - 1].level) > 0
    requires j < h[|h| - 1].level || Brother(Shift(t, j)) > 0
    ensures Newest(h, j, Brother(Shift(t, j))) < 0
  {
    var level := h[|h| - 1].level;
    forall i: nat | i < |h| ensures !Touch(h[i], j, Brother(Shift(t, j))) {
      if j < level {
        StableTouchesLow(h, i, level, Shift(t, level));
        UntouchedBelow(h[i], t, j, level);
      } else {
        StableTouchesLow(h, i, j, Brother(Shift(t, j)));
      }
    }
  }

  lemma SearchOtherSize(siblings: seq<Query>, q: Query, offset: nat, size: nat)
    requires q.size != size
    ensures Search(AddIfAbsent(siblings, q), offset, size) == Search(siblings, offset, size)
  {
    SearchConcat(siblings, [q], offset, size);
    if forall s :: s in siblings ==> !SameRange(s, offset, size) {
      assert Search(siblings, offset, size) == NO_QUERY;
      assert Search([q], offset, size) == NO_QUERY;
    }
  }

  /** The stable root of an unwritten blob meets nothing. */
  lemma NoStable(stable: Query, q: Query)
    requires stable.offset == 0 && stable.size == 0
    ensures !Intersects(stable, q)
  {
  }

  lemma StableRootMeets(ps: nat, s: Log, stable: Query, id: nat, version: nat, t: nat)
    requires ps > 0 && s != [] && StableRoot(ps, s, stable)
    ensures Intersects(stable, Position(ps, id, version, 0, t)) <==> Shift(t, s[|s| - 1].level) == 0
  {
    IntersectsIsTouches(ps, stable, s[|s| - 1].level, 0, Position(ps, id, version, 0, t), t, t);
  }

  lemma RootLinks(ps: nat, s: Log)
    requires s != [] && WellFormed(s)
    ensures Links(ps, s, s[|s| - 1].level, 0, NodeKey(ps, s[|s| - 1], s[|s| - 1].level, 0))
  {
    var w := s[|s| - 1];
    ShiftMonotone(w.first, w.last, w.level);
  }

  /** Some pending write touches every range [0, 2^j) that is larger than the stable root
      but that the write was in reach of. */
  lemma PendingCoversLow(ps: nat, h: Log, n: nat, j: nat)
    requires WellFormed(h) && AllInReach(h) && 0 < n < |h|
    requires h[n - 1].level < j && Shift(Own(h).first, j) == 1
    ensures PendingEntry(ps, Pending(h, n), j, 0) != NO_QUERY
  {
    var g := h[..|h| - 1];
    assert InReach(h, |h| - 1);
    if h[|h| - 2].level < j {
      ShiftZeroUp(Own(h).first, h[|h| - 2].level + 1, j);
    }
    var m := FirstAtLevel(g, n - 1, j);
    assert InReach(h, m);
    ShiftZeroUp(h[m].first, h[m - 1].level + 1, j);
    assert Touch(Pending(h, n)[m - n], j, 0);
  }

  lemma AllInReachExtend(h: Log)
    requires h != [] && AllInReach(h[..|h| - 1]) && InReach(h, |h| - 1)
    ensures AllInReach(h)
  {
    forall i: nat | i < |h| ensures InReach(h, i) {
      if i < |h| - 1 {
        assert InReach(h[..|h| - 1], i);
      }
    }
  }

  /** Every left brother of the left edge is linked to the newest older write touching it. */
  lemma LeftBrotherLinks(ps: nat, dht: Dht, h: Log, n: nat, stable: Query, j: nat)
    requires Granted(ps, dht, h, n, stable) && InReach(h, |h| - 1)
    requires j < Own(h).level && Shift(Own(h).first, j) % 2 == 1
    ensures var y := Shift(Own(h).first, j) - 1;
            Links(ps, h, j, y, At(ps, LeftList(ps, dht, h, n, stable), j, y))
  {
    hide Shift, Size, Newest, Search, PendingSiblings, Descend;
    var y := Shift(Own(h).first, j) - 1;
    AllInReachExtend(h);
    if n == 0 {
      LeftBrotherFresh(ps, dht, h, stable, j);
    } else {
      StableRootMeets(ps, h[..n], stable, Own(h).id, Own(h).version, Own(h).first);
      if Shift(Own(h).first, h[n - 1].level) == 0 {
        LeftBrotherInside(ps, dht, h, n, stable, j);
      } else {
        LeftBrotherOutside(ps, dht, h, n, stable, j);
      }
    }
    FilledLinks(ps, h, n, j, y, At(ps, LeftList(ps, dht, h, n, stable), j, y));
  }

  lemma LeftBrotherFresh(ps: nat, dht: Dht, h: Log, stable: Query, j: nat)
    requires Granted(ps, dht, h, 0, stable)
    requires j < Own(h).level && Shift(Own(h).first, j) % 2 == 1
    ensures var y := Shift(Own(h).first, j) - 1;
            FilledFrom(ps, [], PendingEntry(ps, Pending(h, 0), j, y), true, j, y,
                       At(ps, LeftList(ps, dht, h, 0, stable), j, y))
  {
    hide Shift, Size, Newest, Search, PendingSiblings, Descend;
    var w, t := Own(h), Own(h).first;
    PendingBrother(ps, h, 0, t, j);
    SizePositive(ps, j);
    NoStable(stable, LeafOf(ps, w, t));
    SearchOtherSize(PendingSiblings(ps, Pending(h, 0), t, 0, w.level), stable,
                    (Shift(t, j) - 1) * Size(ps, j), Size(ps, j));
  }

  lemma LeftBrotherInside(ps: nat, dht: Dht, h: Log, n: nat, stable: Query, j: nat)
    requires Granted(ps, dht, h, n, stable) && n > 0
    requires j < Own(h).level && Shift(Own(h).first, j) % 2 == 1
    requires Intersects(stable, LeafOf(ps, Own(h), Own(h).first)) && Shift(Own(h).first, h[n - 1].level) == 0
    ensures var y := Shift(Own(h).first, j) - 1;
            FilledFrom(ps, h[..n], PendingEntry(ps, Pending(h, n), j, y), true, j, y,
                       At(ps, LeftList(ps, dht, h, n, stable), j, y))
  {
    hide Shift, Size, Newest, Search, PendingSiblings, Descend;
    var w, t, level := Own(h), Own(h).first, h[n - 1].level;
    PrefixFacts(h, n);
    PendingBrother(ps, h, n, t, j);
    RootLinks(ps, h[..n]);
    LeafRange(ps, w, t);
    if level <= j { ShiftZeroUp(t, level, j); }
    DescendAt(ps, dht, h[..n], true, t, LeafOf(ps, w, t),
              PendingSiblings(ps, Pending(h, n), t, 0, w.level), stable, level, j, Shift(t, j) - 1);
  }

  lemma LeftBrotherOutside(ps: nat, dht: Dht, h: Log, n: nat, stable: Query, j: nat)
    requires Granted(ps, dht, h, n, stable) && AllInReach(h) && n > 0
    requires j < Own(h).level && Shift(Own(h).first, j) % 2 == 1
    requires !Intersects(stable, LeafOf(ps, Own(h), Own(h).first)) && Shift(Own(h).first, h[n - 1].level) > 0
    ensures var y := Shift(Own(h).first, j) - 1;
            FilledFrom(ps, h[..n], PendingEntry(ps, Pending(h, n), j, y), true, j, y,
                       At(ps, LeftList(ps, dht, h, n, stable), j, y))
  {
    hide Shift, Size, Newest, Search, PendingSiblings, Descend;
    var w, t, level := Own(h), Own(h).first, h[n - 1].level;
    var y := Shift(t, j) - 1;
    PendingBrother(ps, h, n, t, j);
    AddIfAbsentAt(ps, PendingSiblings(ps, Pending(h, n), t, 0, w.level), stable, level, 0, j, y);
    if PendingEntry(ps, Pending(h, n), j, y) == NO_QUERY {
      UnfilledOutside(ps, h, n, j);
    }
  }

  /** Beyond the stable root, what no pending write touches is the stable root or a hole. */
  lemma UnfilledOutside(ps: nat, h: Log, n: nat, j: nat)
    requires WellFormed(h) && AllInReach(h) && 0 < n < |h|
    requires Shift(Own(h).first, j) % 2 == 1 && Shift(Own(h).first, h[n - 1].level) > 0
    requires PendingEntry(ps, Pending(h, n), j, Shift(Own(h).first, j) - 1) == NO_QUERY
    ensures var y, level := Shift(Own(h).first, j) - 1, h[n - 1].level;
            Links(ps, h[..n], j, y, if (j, y) == (level, 0) then NodeKey(ps, h[n - 1], level, 0) else NO_QUERY)
  {
    var y, level := Shift(Own(h).first, j) - 1, h[n - 1].level;
    PrefixFacts(h, n);
    if (j, y) == (level, 0) {
      RootLinks(ps, h[..n]);
    } else {
      assert level < j ==> y != 0 by {
        if level < j && y == 0 {
          PendingCoversLow(ps, h, n, j);
        }
      }
      BeyondStable(h[..n], Own(h).first, j);
    }
  }

  /** Every right brother of the right edge is linked to the newest older write touching
      it; this needs no bound on the offset. */
  lemma RightBrotherLinks(ps: nat, dht: Dht, h: Log, n: nat, stable: Query, j: nat)
    requires Granted(ps, dht, h, n, stable)
    requires j < Own(h).level && Shift(Own(h).last, j) % 2 == 0
    ensures var y := Shift(Own(h).last, j) + 1;
            Links(ps, h, j, y, At(ps, RightList(ps, dht, h, n, stable), j, y))
  {
    hide Shift, Size, Newest, Search, PendingSiblings, Descend;
    if n == 0 {
      NoStable(stable, LeafOf(ps, Own(h), Own(h).last));
      PendingBrother(ps, h, n, Own(h).last, j);
    } else {
      RightBrotherStable(ps, dht, h, n, stable, j);
    }
    FilledLinks(ps, h, n, j, Shift(Own(h).last, j) + 1,
                At(ps, RightList(ps, dht, h, n, stable), j, Shift(Own(h).last, j) + 1));
  }

  lemma RightBrotherStable(ps: nat, dht: Dht, h: Log, n: nat, stable: Query, j: nat)
    requires Granted(ps, dht, h, n, stable) && n > 0
    requires j < Own(h).level && Shift(Own(h).last, j) % 2 == 0
    ensures var y := Shift(Own(h).last, j) + 1;
            FilledFrom(ps, h[..n], PendingEntry(ps, Pending(h, n), j, y), true, j, y,
                       At(ps, RightList(ps, dht, h, n, stable), j, y))
  {
    hide Shift, Size, Newest, Search, PendingSiblings, Descend;
    var w, t := Own(h), Own(h).last;
    var y := Shift(t, j) + 1;
    var s, level := h[..n], h[n - 1].level;
    PrefixFacts(h, n);
    PendingBrother(ps, h, n, t, j);
    StableRootMeets(ps, s, stable, w.id, w.version, t);
    RootLinks(ps, s);
    LeafRange(ps, w, t);
    if Shift(t, level) == 0 {
      DescendAt(ps, dht, s, false, t, LeafOf(ps, w, t),
                PendingSiblings(ps, Pending(h, n), t, 0, w.level), stable, level, j, y);
      if level <= j {
        forall i: nat | i < |s| ensures !Touch(s[i], j, y) {
          StableTouchesLow(s, i, j, y);
        }
      }
    } else {
      BeyondStable(s, t, j);
    }
  }

  /** The child a writer links at (k, x): its own node, or a brother. */
  function PlanChild(ps: nat, w: Write, left: seq<Query>, right: seq<Query>, k: nat, x: nat): Query {
    if Touch(w, k, x) then NodeKey(ps, w, k, x)
    else if x % 2 == 0 then At(ps, left, k, x)
    else At(ps, right, k, x)
  }

  /** The node a writer stores at (k, x). */
  function PlanNode(ps: nat, w: Write, left: seq<Query>, right: seq<Query>, k: nat, x: nat): DhtNode
    requires Touch(w, k, x)
  {
    if k == 0 then Leaf(PageKey(ps, w, x))
    else Inner(PlanChild(ps, w, left, right, k - 1, 2 * x), PlanChild(ps, w, left, right, k - 1, 2 * x + 1))
  }

  /** A child of a stored node is linked to the newest write touching it. */
  lemma PlanChildLinks(ps: nat, dht: Dht, h: Log, n: nat, stable: Query, k: nat, c: nat)
    requires Granted(ps, dht, h, n, stable) && InReach(h, |h| - 1)
    requires k < Own(h).level && Touch(Own(h), k + 1, c / 2)
    ensures Links(ps, h, k, c,
                  PlanChild(ps, Own(h), LeftList(ps, dht, h, n, stable), RightList(ps, dht, h, n, stable), k, c))
  {
    hide Shift, Size, Search, PendingSiblings, Descend, LeftSiblings, RightSiblings;
    var w := Own(h);
    ShiftMonotone(w.first, w.last, k);
    ShiftHalf(w.first, k);
    ShiftHalf(w.last, k);
    if !Touch(w, k, c) {
      if c % 2 == 0 {
        LeftBrotherLinks(ps, dht, h, n, stable, k);
      } else {
        RightBrotherLinks(ps, dht, h, n, stable, k);
      }
    }
  }

  /** Weaving picks the right brothers: every node a writer stores is canonical. */
  lemma WeaveIsCanonical(ps: nat, dht: Dht, h: Log, n: nat, stable: Query, k: nat, x: nat)
    requires Granted(ps, dht, h, n, stable) && InReach(h, |h| - 1)
    requires k <= Own(h).level && Touch(Own(h), k, x)
    ensures Canonical(ps, h, k, x,
                      PlanNode(ps, Own(h), LeftList(ps, dht, h, n, stable), RightList(ps, dht, h, n, stable), k, x))
  {
    hide Shift, Size, Newest, LeftList, RightList, Granted, Links, PlanChild;
    if k > 0 {
      PlanChildLinks(ps, dht, h, n, stable, k - 1, 2 * x);
      PlanChildLinks(ps, dht, h, n, stable, k - 1, 2 * x + 1);
    }
  }
}
