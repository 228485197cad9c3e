/** The exact condition for trees without dangling links.  A writer may link a pending
    write's node that is larger than that write's own root; nobody ever stores such a node.
    It happens only when the writer's left brother at offset 0 is taken from the pending
    writes (compute_sibling_versions in client/range_query.cpp). */
module Dangling {
  import opened Metadata
  import opened Dyadic
  import opened History
  import opened Siblings
  import opened Descent
  import opened Weave
  import opened Shape
  import opened Reach

  /** In reach, every ticket is safe. */
  lemma InReachIsSafe(h: Log, n: nat)
    requires WellFormed(h) && AllInReach(h) && n < |h|
    ensures SafeTicket(h, n)
  {
    forall k: nat | k < Own(h).level && Shift(Own(h).first, k) == 1 ensures SafeBrother(Pending(h, n), k) {
      InReachBrother(h, n, k);
    }
  }

  lemma InReachBrother(h: Log, n: nat, k: nat)
    requires WellFormed(h) && AllInReach(h) && n < |h| && k < Own(h).level && Shift(Own(h).first, k) == 1
    ensures SafeBrother(Pending(h, n), k)
  {
    var i := Newest(Pending(h, n), k, 0);
    if i >= 0 && Pending(h, n)[i].level < k {
      var j := LaterTouch(h, n, i, k);
    }
  }

  /** After a pending write with too small a root comes one that touches [0, 2^k). */
  lemma LaterTouch(h: Log, n: nat, i: nat, k: nat) returns (j: nat)
    requires WellFormed(h) && AllInReach(h) && n < |h| && k < Own(h).level && Shift(Own(h).first, k) == 1
    requires i < |Pending(h, n)| && Pending(h, n)[i].level < k
    ensures i < j < |Pending(h, n)| && Touch(Pending(h, n)[j], k, 0)
  {
    var g := h[..|h| - 1];
    assert Pending(h, n)[i] == g[n + i];
    assert InReach(h, |h| - 1);
    if g[|g| - 1].level < k { ShiftZeroUp(Own(h).first, g[|g| - 1].level + 1, k); }
    var m := FirstAtLevel(g, n + i, k);
    assert InReach(h, m);
    ShiftZeroUp(h[m].first, h[m - 1].level + 1, k);
    j := m - n;
    assert Pending(h, n)[j] == h[m];
  }

  /** A ticket granted with nothing pending is safe, whatever its offset. */
  lemma NothingPendingIsSafe(h: Log)
    requires h != []
    ensures SafeTicket(h, |h| - 1)
  {
    assert Pending(h, |h| - 1) == [];
  }

  // ---- An unsafe ticket leaves a dangling link ----

  lemma AddKeeps(siblings: seq<Query>, q: Query, offset: nat, size: nat)
    requires size > 0 && Search(siblings, offset, size) != NO_QUERY
    ensures Search(AddIfAbsent(siblings, q), offset, size) == Search(siblings, offset, size)
  {
    SearchConcat(siblings, [q], offset, size);
  }

  /** The walk never replaces an entry. */
  lemma {:induction false} DescendKeeps(dht: Dht, isLeft: bool, target: Query, siblings: seq<Query>, parent: Query, offset: nat, size: nat)
    requires size > 0 && Search(siblings, offset, size) != NO_QUERY
    ensures Search(Descend(dht, isLeft, target, siblings, parent), offset, size) == Search(siblings, offset, size)
    decreases parent.size
  {
    hide Search, AddIfAbsent, Intersects;
    if GoesOn(dht, parent) {
      var (left, right) := Children(dht[parent], parent);
      AddKeeps(siblings, left, offset, size);
      AddKeeps(siblings, right, offset, size);
      var (more, next) := Visit(dht[parent], isLeft, target, siblings, parent);
      DescendKeeps(dht, isLeft, target, more, next, offset, size);
    }
  }

  /** A brother found among the pending writes is the one that is linked. */
  lemma PendingIsLinked(ps: nat, dht: Dht, h: Log, n: nat, stable: Query, j: nat)
    requires ps > 0 && n < |h| && WellFormed(h) && j < Own(h).level && Shift(Own(h).first, j) == 1
    requires Newest(Pending(h, n), j, 0) >= 0
    ensures At(ps, LeftList(ps, dht, h, n, stable), j, 0) == NodeKey(ps, Pending(h, n)[Newest(Pending(h, n), j, 0)], j, 0)
  {
    hide Shift, Size, Newest, Search, PendingSiblings, Descend, AddIfAbsent;
    var w := Own(h);
    var sibs := PendingSiblings(ps, Pending(h, n), w.first, 0, w.level);
    PendingBrother(ps, h, n, w.first, j);
    SizePositive(ps, j);
    AddKeeps(sibs, stable, 0 * Size(ps, j), Size(ps, j));
    DescendKeeps(dht, true, LeafOf(ps, w, w.first), sibs, stable, 0 * Size(ps, j), Size(ps, j));
  }

  /** Down the left spine of a plan, a link that is not present spoils the root. */
  lemma {:induction false} SpinePresent(ps: nat, dht: Dht, h: Log, left: seq<Query>, right: seq<Query>, j: nat, k: nat)
    requires h != [] && WellFormedWrite(Own(h)) && PlanStored(ps, dht, h, left, right)
    requires j < k <= Own(h).level && Shift(Own(h).first, j) == 1
    requires Present(dht, NodeKey(ps, Own(h), k, 0), k)
    ensures Present(dht, At(ps, left, j, 0), j)
    decreases k
  {
    hide Shift, PlanStored, PlanChild, At, Position, Present;
    ShiftHalf(Own(h).first, j);
    ShiftZeroUp(Own(h).first, j + 1, k);
    PresentChild(ps, dht, h, left, right, k);
    SpineChild(ps, Own(h), left, right, j, k);
    if j + 1 < k {
      SpinePresent(ps, dht, h, left, right, j, k - 1);
    }
  }

  lemma PresentChild(ps: nat, dht: Dht, h: Log, left: seq<Query>, right: seq<Query>, k: nat)
    requires h != [] && Own(h).id > 0 && PlanStored(ps, dht, h, left, right)
    requires 0 < k <= Own(h).level && Shift(Own(h).first, k) == 0
    requires Present(dht, NodeKey(ps, Own(h), k, 0), k)
    ensures Present(dht, PlanChild(ps, Own(h), left, right, k - 1, 0), k - 1)
  {
    assert Touch(Own(h), k, 0);
  }

  lemma UnsafeDangles(ps: nat, dht: Dht, dht': Dht, h: Log, n: nat, stable: Query)
    requires ps > 0 && n < |h| && WellFormed(h) && !SafeTicket(h, n)
    requires PlanStored(ps, dht', h, LeftList(ps, dht, h, n, stable), RightList(ps, dht, h, n, stable))
    requires NoneAboveRoot(ps, dht', h)
    ensures !Present(dht', RootKey(ps, h), Own(h).level)
  {
    hide Shift, PlanStored, Present, At, Newest, LeftList, RightList;
    var w := Own(h);
    var j: nat :| j < w.level && Shift(w.first, j) == 1 && !SafeBrother(Pending(h, n), j);
    var i := Newest(Pending(h, n), j, 0);
    assert Pending(h, n)[i] == h[n + i];
    PendingIsLinked(ps, dht, h, n, stable, j);
    NotPresent(dht', NodeKey(ps, h[n + i], j, 0), j);
    if Present(dht', RootKey(ps, h), w.level) {
      SpinePresent(ps, dht', h, LeftList(ps, dht, h, n, stable), RightList(ps, dht, h, n, stable), j, w.level);
    }
  }

  lemma NotPresent(dht: Dht, q: Query, k: nat)
    requires !IsHole(q) && q !in dht
    ensures !Present(dht, q, k)
  {
  }

  // ---- Safe tickets leave none ----

  /** A safe writer keeps every link no larger than the linked version's root. */
  lemma SafeFits(ps: nat, dht: Dht, h: Log, n: nat, stable: Query)
    requires Ticketed(ps, dht, h, n, stable, true) && SafeTicket(h, n)
    requires PlanStored(ps, dht, h, LeftList(ps, dht, h, n, stable), RightList(ps, dht, h, n, stable))
    ensures Shaped(ps, dht, h, true)
  {
    hide Ticketed, SafeTicket, LeftList, RightList, PlanNode, NodeShape;
    TicketedLog(ps, dht, h, n, stable);
    forall k: nat, x: nat | k <= Own(h).level && Touch(Own(h), k, x) ensures ShapedAt(ps, dht, h, k, x, true) {
      PlanShape(ps, dht, h, n, stable, k, x, true);
    }
  }

  lemma TicketedLog(ps: nat, dht: Dht, h: Log, n: nat, stable: Query)
    requires Ticketed(ps, dht, h, n, stable, true)
    ensures h != []
  {
  }
}
