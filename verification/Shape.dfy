/** What holds of every stored tree, whatever offsets were written: each link is a hole or
    names a node that some write of the history touches.  Such a tree may lead to nodes that
    nobody stores, but never changes once it is published.  With `fit`, linked nodes are also
    no larger than the root of their own version, and then none of them is missing. */
module Shape {
  import opened Metadata
  import opened Dyadic
  import opened History
  import opened Siblings
  import opened Descent
  import opened Weave

  /** q may be linked at (k, x) over log h. */
  ghost predicate Candidate(ps: nat, h: Log, k: nat, x: nat, q: Query, fit: bool) {
    HoleAt(ps, k, x, q) || exists i: nat :: i < |h| && Names(ps, h[i], k, x, q, fit)
  }

  predicate Names(ps: nat, w: Write, k: nat, x: nat, q: Query, fit: bool) {
    Touch(w, k, x) && q == NodeKey(ps, w, k, x) && (fit ==> k <= w.level)
  }

  ghost predicate NodeShape(ps: nat, h: Log, k: nat, x: nat, node: DhtNode, fit: bool)
    requires h != [] && Touch(Own(h), k, x)
  {
    if k == 0 then node == Leaf(PageKey(ps, Own(h), x))
    else
      && node.Inner?
      && Candidate(ps, h, k - 1, 2 * x, node.left, fit)
      && Candidate(ps, h, k - 1, 2 * x + 1, node.right, fit)
  }

  ghost predicate ShapedAt(ps: nat, dht: Dht, h: Log, k: nat, x: nat, fit: bool)
    requires h != [] && Touch(Own(h), k, x)
  {
    NodeKey(ps, Own(h), k, x) in dht && NodeShape(ps, h, k, x, dht[NodeKey(ps, Own(h), k, x)], fit)
  }

  /** The last write of h has stored every node of its tree. */
  ghost predicate Shaped(ps: nat, dht: Dht, h: Log, fit: bool)
    requires h != []
  {
    forall k: nat, x: nat :: k <= Own(h).level && Touch(Own(h), k, x) ==> ShapedAt(ps, dht, h, k, x, fit)
  }

  ghost predicate AllShaped(ps: nat, dht: Dht, h: Log, fit: bool) {
    forall m: nat :: 0 < m <= |h| ==> Shaped(ps, dht, h[..m], fit)
  }

  /** No write has a node larger than its own root. */
  ghost predicate NoneAboveRoot(ps: nat, dht: Dht, h: Log) {
    forall i: nat, k: nat, x: nat :: i < |h| && h[i].level < k ==> NodeKey(ps, h[i], k, x) !in dht
  }

  ghost predicate HasIds(dht: Dht) {
    forall q :: q in dht ==> q.id > 0
  }

  /** The published tree as a writer finds it. */
  ghost predicate StableShape(ps: nat, dht: Dht, h: Log, fit: bool) {
    && ps > 0 && WellFormed(h) && AllShaped(ps, dht, h, fit) && NoneAboveRoot(ps, dht, h) && HasIds(dht)
  }

  lemma CandidateMore(ps: nat, g: Log, h: Log, k: nat, x: nat, q: Query, fit: bool)
    requires g <= h && Candidate(ps, g, k, x, q, fit)
    ensures Candidate(ps, h, k, x, q, fit)
  {
    if !HoleAt(ps, k, x, q) {
      var i: nat :| i < |g| && Names(ps, g[i], k, x, q, fit);
      assert Names(ps, h[i], k, x, q, fit);
    }
  }

  /** A candidate that is stored is a node of some write, with candidates below it. */
  lemma CandidateNode(ps: nat, dht: Dht, h: Log, k: nat, x: nat, q: Query, fit: bool) returns (i: nat)
    requires StableShape(ps, dht, h, fit) && Candidate(ps, h, k, x, q, fit) && q in dht
    ensures i < |h| && Names(ps, h[i], k, x, q, fit) && k <= h[i].level
    ensures k == 0 ==> dht[q] == Leaf(PageKey(ps, h[i], x))
    ensures k > 0 ==> dht[q].Inner? && Candidate(ps, h, k - 1, 2 * x, dht[q].left, fit)
                      && Candidate(ps, h, k - 1, 2 * x + 1, dht[q].right, fit)
  {
    hide Shift, Size, WellFormed, HoleAt, Candidate;
    CandidateStored(ps, dht, h, k, x, q, fit);
    i :| i < |h| && Names(ps, h[i], k, x, q, fit);
    var g := h[..i + 1];
    assert Shaped(ps, dht, g, fit);
    assert ShapedAt(ps, dht, g, k, x, fit);
    if k > 0 {
      CandidateMore(ps, g, h, k - 1, 2 * x, dht[q].left, fit);
      CandidateMore(ps, g, h, k - 1, 2 * x + 1, dht[q].right, fit);
    }
  }

  lemma CandidateStored(ps: nat, dht: Dht, h: Log, k: nat, x: nat, q: Query, fit: bool)
    requires HasIds(dht) && Candidate(ps, h, k, x, q, fit) && q in dht
    ensures exists i: nat :: i < |h| && Names(ps, h[i], k, x, q, fit)
  {
  }

  /** Whether a candidate is stored is settled for good. */
  lemma CandidateSettled(ps: nat, dht: Dht, dht': Dht, h: Log, k: nat, x: nat, q: Query, fit: bool)
    requires StableShape(ps, dht, h, fit) && Candidate(ps, h, k, x, q, fit)
    requires Extends(dht, dht') && HasIds(dht') && NoneAboveRoot(ps, dht', h)
    ensures q in dht <==> q in dht'
  {
    if q in dht' {
      CandidateStored(ps, dht', h, k, x, q, fit);
      var i: nat :| i < |h| && Names(ps, h[i], k, x, q, fit);
      assert Shaped(ps, dht, h[..i + 1], fit);
      assert ShapedAt(ps, dht, h[..i + 1], k, x, fit);
    }
  }

  /** With `fit`, a candidate that is no hole is stored. */
  lemma FittingIsStored(ps: nat, dht: Dht, h: Log, k: nat, x: nat, q: Query)
    requires StableShape(ps, dht, h, true) && Candidate(ps, h, k, x, q, true) && !IsHole(q)
    ensures q in dht
  {
    var i: nat :| i < |h| && Names(ps, h[i], k, x, q, true);
    assert Shaped(ps, dht, h[..i + 1], true);
    assert ShapedAt(ps, dht, h[..i + 1], k, x, true);
  }

  // ---- Reading ----

  /** Nothing stored later changes what a published tree reads. */
  lemma {:induction false} ReadSettled(ps: nat, dht: Dht, dht': Dht, h: Log, k: nat, q: Query, p: nat)
    requires StableShape(ps, dht, h, false) && Candidate(ps, h, k, Shift(p, k), q, false)
    requires Extends(dht, dht') && HasIds(dht') && NoneAboveRoot(ps, dht', h)
    ensures ReadTree(dht', q, k, p) == ReadTree(dht, q, k, p)
    decreases k
  {
    hide Shift, Size, StableShape, Candidate;
    CandidateSettled(ps, dht, dht', h, k, Shift(p, k), q, false);
    if q in dht {
      var i := CandidateNode(ps, dht, h, k, Shift(p, k), q, false);
      if k > 0 {
        TowardsCandidate(ps, h, k, dht[q], p);
        ReadSettled(ps, dht, dht', h, k - 1, ChildTowards(dht[q], k, p), p);
      }
    }
  }

  lemma TowardsCandidate(ps: nat, h: Log, k: nat, node: DhtNode, p: nat)
    requires k > 0 && node.Inner? && Candidate(ps, h, k - 1, 2 * Shift(p, k), node.left, false)
    requires Candidate(ps, h, k - 1, 2 * Shift(p, k) + 1, node.right, false)
    ensures Candidate(ps, h, k - 1, Shift(p, k - 1), ChildTowards(node, k, p), false)
  {
    hide Candidate;
    ShiftHalf(p, k - 1);
  }

  /** A page that a published tree reads was written there by some version of its history. */
  lemma {:induction false} ReadIsWritten(ps: nat, dht: Dht, h: Log, k: nat, q: Query, p: nat)
    requires StableShape(ps, dht, h, false) && Candidate(ps, h, k, Shift(p, k), q, false)
    ensures var r := ReadTree(dht, q, k, p);
            r.Page? ==> exists i: nat :: i < |h| && Touch(h[i], 0, p) && r.key == PageKey(ps, h[i], p)
    decreases k
  {
    hide Shift, Size, StableShape, Candidate;
    if q in dht {
      var i := CandidateNode(ps, dht, h, k, Shift(p, k), q, false);
      if k > 0 {
        TowardsCandidate(ps, h, k, dht[q], p);
        ReadIsWritten(ps, dht, h, k - 1, ChildTowards(dht[q], k, p), p);
      } else {
        LeafTouch(h[i], p);
      }
    }
  }

  lemma LeafTouch(w: Write, p: nat)
    requires Touch(w, 0, Shift(p, 0))
    ensures Shift(p, 0) == p && Touch(w, 0, p)
  {
  }

  /** A tree that fits has no dangling link. */
  lemma {:induction false} FittingIsPresent(ps: nat, dht: Dht, h: Log, k: nat, x: nat, q: Query)
    requires StableShape(ps, dht, h, true) && Candidate(ps, h, k, x, q, true)
    ensures Present(dht, q, k)
    decreases k
  {
    hide Shift, Size, StableShape, Candidate;
    if !IsHole(q) {
      FittingIsStored(ps, dht, h, k, x, q);
      var i := CandidateNode(ps, dht, h, k, x, q, true);
      if k > 0 {
        FittingIsPresent(ps, dht, h, k - 1, 2 * x, dht[q].left);
        FittingIsPresent(ps, dht, h, k - 1, 2 * x + 1, dht[q].right);
      }
    }
  }

  // ---- The walk of a writer ----

  /** q is where the walk towards page t stands at level k. */
  ghost predicate WalkAt(ps: nat, h: Log, t: nat, k: nat, q: Query, fit: bool) {
    && SameRange(q, Shift(t, k) * Size(ps, k), Size(ps, k))
    && Candidate(ps, h, k, Shift(t, k), q, fit)
  }

  /** Rewriting a child's range leaves it a candidate, now with its range. */
  lemma ChildCandidate(ps: nat, h: Log, k: nat, x: nat, q: Query, offset: nat, size: nat, fit: bool)
    requires Candidate(ps, h, k, x, q, fit) && offset == x * Size(ps, k) && size == Size(ps, k)
    ensures Candidate(ps, h, k, x, q.(offset := offset, size := size), fit)
  {
    if !HoleAt(ps, k, x, q) {
      var i: nat :| i < |h| && Names(ps, h[i], k, x, q, fit);
      assert q.(offset := offset, size := size) == q;
    }
  }

  lemma ChildrenCandidates(ps: nat, h: Log, k: nat, x: nat, node: DhtNode, parent: Query, fit: bool)
    requires ps > 0 && k > 0 && node.Inner? && SameRange(parent, x * Size(ps, k), Size(ps, k))
    requires Candidate(ps, h, k - 1, 2 * x, node.left, fit) && Candidate(ps, h, k - 1, 2 * x + 1, node.right, fit)
    ensures var (left, right) := Children(node, parent);
            && SameRange(left, (2 * x) * Size(ps, k - 1), Size(ps, k - 1))
            && SameRange(right, (2 * x + 1) * Size(ps, k - 1), Size(ps, k - 1))
            && Candidate(ps, h, k - 1, 2 * x, left, fit) && Candidate(ps, h, k - 1, 2 * x + 1, right, fit)
  {
    hide Candidate;
    ChildRanges(ps, k, x, node, parent);
    var (left, right) := Children(node, parent);
    ChildCandidate(ps, h, k - 1, 2 * x, node.left, left.offset, left.size, fit);
    ChildCandidate(ps, h, k - 1, 2 * x + 1, node.right, right.offset, right.size, fit);
  }

  /** One callback moves the walk one level down and records only candidates. */
  lemma VisitShape(ps: nat, h: Log, g: Log, isLeft: bool, t: nat, target: Query, siblings: seq<Query>,
                   node: DhtNode, parent: Query, k: nat, j: nat, y: nat, fit: bool)
    requires ps > 0 && k > 0 && node.Inner? && SameRange(target, t * ps, ps) && h <= g
    requires SameRange(parent, Shift(t, k) * Size(ps, k), Size(ps, k))
    requires Candidate(ps, h, k - 1, 2 * Shift(t, k), node.left, fit)
    requires Candidate(ps, h, k - 1, 2 * Shift(t, k) + 1, node.right, fit)
    ensures var (more, next) := Visit(node, isLeft, target, siblings, parent);
            && WalkAt(ps, h, t, k - 1, next, fit)
            && (Candidate(ps, g, j, y, At(ps, siblings, j, y), fit) ==> Candidate(ps, g, j, y, At(ps, more, j, y), fit))
  {
    hide Candidate, Search;
    var x := Shift(t, k);
    ChildrenCandidates(ps, h, k, x, node, parent, fit);
    var (left, right) := Children(node, parent);
    CandidateMore(ps, h, g, k - 1, 2 * x, left, fit);
    CandidateMore(ps, h, g, k - 1, 2 * x + 1, right, fit);
    IntersectsIsTouches(ps, left, k - 1, 2 * x, target, t, t);
    AddIfAbsentAt(ps, siblings, left, k - 1, 2 * x, j, y);
    AddIfAbsentAt(ps, siblings, right, k - 1, 2 * x + 1, j, y);
  }

  lemma WalkMoves(ps: nat, dht: Dht, h: Log, g: Log, isLeft: bool, t: nat, target: Query, siblings: seq<Query>,
                  k: nat, q: Query, j: nat, y: nat, fit: bool)
    requires StableShape(ps, dht, h, fit) && WalkAt(ps, h, t, k, q, fit) && SameRange(target, t * ps, ps) && GoesOn(dht, q) && h <= g
    ensures k > 0 && dht[q].Inner?
    ensures var (more, next) := Visit(dht[q], isLeft, target, siblings, q);
            && WalkAt(ps, h, t, k - 1, next, fit)
            && (Candidate(ps, g, j, y, At(ps, siblings, j, y), fit) ==> Candidate(ps, g, j, y, At(ps, more, j, y), fit))
  {
    hide Candidate, Visit, Shift, Size;
    var i := CandidateNode(ps, dht, h, k, Shift(t, k), q, fit);
    if k > 0 {
      VisitShape(ps, h, g, isLeft, t, target, siblings, dht[q], q, k, j, y, fit);
    }
  }

  /** Nodes stored meanwhile by anyone do not change what the walk finds. */
  lemma {:induction false} DescendGrows(ps: nat, dht: Dht, dht': Dht, h: Log, isLeft: bool, t: nat, target: Query,
                                        siblings: seq<Query>, k: nat, q: Query)
    requires StableShape(ps, dht, h, false) && WalkAt(ps, h, t, k, q, false) && SameRange(target, t * ps, ps)
    requires Extends(dht, dht') && HasIds(dht') && NoneAboveRoot(ps, dht', h)
    ensures Descend(dht', isLeft, target, siblings, q) == Descend(dht, isLeft, target, siblings, q)
    decreases k
  {
    hide Candidate, Visit, Shift, Size, StableShape, NoneAboveRoot;
    CandidateSettled(ps, dht, dht', h, k, Shift(t, k), q, false);
    if GoesOn(dht, q) {
      WalkMoves(ps, dht, h, h, isLeft, t, target, siblings, k, q, 0, 0, false);
      var (more, next) := Visit(dht[q], isLeft, target, siblings, q);
      DescendGrows(ps, dht, dht', h, isLeft, t, target, more, k - 1, next);
    }
  }

  lemma StableWalk(ps: nat, s: Log, stable: Query, id: nat, version: nat, t: nat, fit: bool)
    requires ps > 0 && s != [] && WellFormed(s) && StableRoot(ps, s, stable)
    requires Intersects(stable, Position(ps, id, version, 0, t))
    ensures WalkAt(ps, s, t, s[|s| - 1].level, stable, fit)
  {
    StableRootMeets(ps, s, stable, id, version, t);
    RootCandidate(ps, s, fit);
  }

  lemma RootCandidate(ps: nat, s: Log, fit: bool)
    requires s != [] && WellFormed(s)
    ensures Candidate(ps, s, Own(s).level, 0, NodeKey(ps, Own(s), Own(s).level, 0), fit)
  {
    ShiftMonotone(Own(s).first, Own(s).last, Own(s).level);
    assert Names(ps, s[|s| - 1], Own(s).level, 0, NodeKey(ps, Own(s), Own(s).level, 0), fit);
  }

  // ---- What a writer links ----

  function FinalList(ps: nat, dht: Dht, h: Log, n: nat, stable: Query, isLeft: bool): seq<Query>
    requires n < |h|
  {
    if isLeft then LeftList(ps, dht, h, n, stable) else RightList(ps, dht, h, n, stable)
  }

  function Edge(w: Write, isLeft: bool): nat {
    if isLeft then w.first else w.last
  }

  /** What the last write of h was told with its ticket: the first n writes were published
      and the others pending. */
  ghost predicate Ticketed(ps: nat, dht: Dht, h: Log, n: nat, stable: Query, fit: bool) {
    && ps > 0 && n < |h| && WellFormed(h) && StableRoot(ps, h[..n], stable)
    && (n > 0 ==> StableShape(ps, dht, h[..n], fit))
  }

  /** The pending write that a writer links as its left brother at offset 0 is no smaller
      than that brother.  A writer can tell from the reply to its ticket. */
  predicate SafeTicket(h: Log, n: nat)
    requires n < |h|
  {
    forall k: nat :: k < Own(h).level && Shift(Own(h).first, k) == 1 ==> SafeBrother(Pending(h, n), k)
  }

  predicate SafeBrother(pending: Log, k: nat) {
    var i := Newest(pending, k, 0);
    i >= 0 ==> k <= pending[i].level
  }

  lemma PendingFits(h: Log, n: nat, isLeft: bool, j: nat, y: nat)
    requires n < |h| && WellFormed(h) && SafeTicket(h, n) && (isLeft <==> y % 2 == 0)
    requires j < Own(h).level && y == Brother(Shift(Edge(Own(h), isLeft), j))
    ensures var i := Newest(Pending(h, n), j, y); i >= 0 ==> j <= Pending(h, n)[i].level
  {
    var i := Newest(Pending(h, n), j, y);
    if i >= 0 && Pending(h, n)[i].level < j {
      var u := Pending(h, n)[i];
      assert u == h[n + i];
      ShiftZeroUp(u.last, u.level, j);
    }
  }

  lemma PendingCandidate(ps: nat, h: Log, n: nat, isLeft: bool, j: nat, y: nat, fit: bool)
    requires ps > 0 && n < |h| && WellFormed(h)
    requires fit ==> SafeTicket(h, n) && (isLeft <==> y % 2 == 0)
    ensures Candidate(ps, h[..|h| - 1], j, y,
                      At(ps, PendingSiblings(ps, Pending(h, n), Edge(Own(h), isLeft), 0, Own(h).level), j, y), fit)
  {
    hide Shift, Size, PendingSiblings, SafeTicket;
    var e := Edge(Own(h), isLeft);
    forall i | 0 <= i < |Pending(h, n)| ensures Pending(h, n)[i].id > 0 {
      assert Pending(h, n)[i] == h[n + i];
    }
    PendingSiblingsAt(ps, Pending(h, n), e, 0, Own(h).level, j, y);
    var i := Newest(Pending(h, n), j, y);
    if j < Own(h).level && y == Brother(Shift(e, j)) && i >= 0 {
      if fit { PendingFits(h, n, isLeft, j, y); }
      assert Pending(h, n)[i] == h[..|h| - 1][n + i];
      assert Names(ps, h[..|h| - 1][n + i], j, y, NodeKey(ps, h[n + i], j, y), fit);
    }
  }

  /** Every brother that a writer ends up with is a candidate. */
  lemma FinalShape(ps: nat, dht: Dht, h: Log, n: nat, stable: Query, isLeft: bool, j: nat, y: nat, fit: bool)
    requires Ticketed(ps, dht, h, n, stable, fit)
    requires fit ==> SafeTicket(h, n) && (isLeft <==> y % 2 == 0)
    ensures Candidate(ps, h[..|h| - 1], j, y, At(ps, FinalList(ps, dht, h, n, stable, isLeft), j, y), fit)
  {
    hide Shift, Size, PendingSiblings, SafeTicket, Descend, Candidate, Search;
    var w, t := Own(h), Edge(Own(h), isLeft);
    var sibs := PendingSiblings(ps, Pending(h, n), t, 0, w.level);
    PendingCandidate(ps, h, n, isLeft, j, y, fit);
    if n == 0 {
      NoStable(stable, LeafOf(ps, w, t));
      SizePositive(ps, j);
      SearchOtherSize(sibs, stable, y * Size(ps, j), Size(ps, j));
    } else {
      FinalFromStable(ps, dht, h, n, stable, isLeft, sibs, j, y, fit);
    }
  }

  lemma FinalFromStable(ps: nat, dht: Dht, h: Log, n: nat, stable: Query, isLeft: bool, sibs: seq<Query>, j: nat, y: nat, fit: bool)
    requires Ticketed(ps, dht, h, n, stable, fit) && n > 0
    requires Candidate(ps, h[..|h| - 1], j, y, At(ps, sibs, j, y), fit)
    ensures var t := Edge(Own(h), isLeft);
            Intersects(stable, LeafOf(ps, Own(h), t)) ==>
              Candidate(ps, h[..|h| - 1], j, y, At(ps, Descend(dht, isLeft, LeafOf(ps, Own(h), t), sibs, stable), j, y), fit)
    ensures Candidate(ps, h[..|h| - 1], j, y, At(ps, AddIfAbsent(sibs, stable), j, y), fit)
  {
    hide Shift, Size, Descend, Candidate, Search, AllShaped, NoneAboveRoot;
    var w, t, s, g := Own(h), Edge(Own(h), isLeft), h[..n], h[..|h| - 1];
    PrefixFacts(h, n);
    RootCandidate(ps, s, fit);
    CandidateMore(ps, s, g, s[n - 1].level, 0, stable, fit);
    AddIfAbsentAt(ps, sibs, stable, s[n - 1].level, 0, j, y);
    if Intersects(stable, LeafOf(ps, w, t)) {
      StableWalk(ps, s, stable, w.id, w.version, t, fit);
      LeafRange(ps, w, t);
      DescendOver(ps, dht, s, g, isLeft, t, LeafOf(ps, w, t), sibs, s[n - 1].level, stable, j, y, fit);
    }
  }

  /** The walk, with entries of a longer log already in the list. */
  lemma {:induction false} DescendOver(ps: nat, dht: Dht, s: Log, g: Log, isLeft: bool, t: nat, target: Query,
                                       siblings: seq<Query>, k: nat, q: Query, j: nat, y: nat, fit: bool)
    requires StableShape(ps, dht, s, fit) && WalkAt(ps, s, t, k, q, fit) && SameRange(target, t * ps, ps) && s <= g
    requires Candidate(ps, g, j, y, At(ps, siblings, j, y), fit)
    ensures Candidate(ps, g, j, y, At(ps, Descend(dht, isLeft, target, siblings, q), j, y), fit)
    decreases k
  {
    hide Candidate, Visit, Shift, Size, StableShape, WalkAt, At;
    if GoesOn(dht, q) {
      WalkMoves(ps, dht, s, g, isLeft, t, target, siblings, k, q, j, y, fit);
      var (more, next) := Visit(dht[q], isLeft, target, siblings, q);
      DescendOver(ps, dht, s, g, isLeft, t, target, more, k - 1, next, j, y, fit);
    }
  }

  /** Whatever the offset, a writer plans only nodes of the right shape. */
  lemma PlanShape(ps: nat, dht: Dht, h: Log, n: nat, stable: Query, k: nat, x: nat, fit: bool)
    requires Ticketed(ps, dht, h, n, stable, fit) && (fit ==> SafeTicket(h, n))
    requires k <= Own(h).level && Touch(Own(h), k, x)
    ensures NodeShape(ps, h, k, x,
                      PlanNode(ps, Own(h), LeftList(ps, dht, h, n, stable), RightList(ps, dht, h, n, stable), k, x), fit)
  {
    hide Shift, Size, LeftList, RightList, Ticketed, Candidate, PlanChild, SafeTicket;
    if k > 0 {
      ChildShape(ps, dht, h, n, stable, k - 1, 2 * x, fit);
      ChildShape(ps, dht, h, n, stable, k - 1, 2 * x + 1, fit);
    }
  }

  lemma ChildShape(ps: nat, dht: Dht, h: Log, n: nat, stable: Query, k: nat, c: nat, fit: bool)
    requires Ticketed(ps, dht, h, n, stable, fit) && (fit ==> SafeTicket(h, n)) && k < Own(h).level
    ensures Candidate(ps, h, k, c,
                      PlanChild(ps, Own(h), LeftList(ps, dht, h, n, stable), RightList(ps, dht, h, n, stable), k, c), fit)
  {
    hide Shift, Size, LeftList, RightList, StableShape, StableRoot, SafeTicket, At;
    var w := Own(h);
    if Touch(w, k, c) {
      assert Names(ps, h[|h| - 1], k, c, NodeKey(ps, w, k, c), fit);
    } else {
      hide Candidate;
      FinalShape(ps, dht, h, n, stable, c % 2 == 0, k, c, fit);
      CandidateMore(ps, h[..|h| - 1], h, k, c, At(ps, FinalList(ps, dht, h, n, stable, c % 2 == 0), k, c), fit);
    }
  }

  /** The final lists do not depend on when they are computed. */
  lemma FinalListGrows(ps: nat, dht: Dht, dht': Dht, h: Log, n: nat, stable: Query, isLeft: bool)
    requires Ticketed(ps, dht, h, n, stable, false)
    requires Extends(dht, dht') && HasIds(dht') && NoneAboveRoot(ps, dht', h[..n])
    ensures FinalList(ps, dht', h, n, stable, isLeft) == FinalList(ps, dht, h, n, stable, isLeft)
  {
    hide Shift, Size, AllShaped, NoneAboveRoot, Candidate, Descend, PendingSiblings;
    var w, t := Own(h), Edge(Own(h), isLeft);
    var sibs := PendingSiblings(ps, Pending(h, n), t, 0, w.level);
    if n == 0 {
      NoStable(stable, LeafOf(ps, w, t));
    } else if Intersects(stable, LeafOf(ps, w, t)) {
      PrefixFacts(h, n);
      LeafRange(ps, w, t);
      StableWalk(ps, h[..n], stable, w.id, w.version, t, false);
      DescendGrows(ps, dht, dht', h[..n], isLeft, t, LeafOf(ps, w, t), sibs, h[n - 1].level, stable);
    }
  }

  // ---- Growth ----

  lemma ShapedGrows(ps: nat, dht: Dht, dht': Dht, h: Log, fit: bool)
    requires h != [] && Shaped(ps, dht, h, fit) && Extends(dht, dht')
    ensures Shaped(ps, dht', h, fit)
  {
    forall k: nat, x: nat | k <= Own(h).level && Touch(Own(h), k, x) ensures ShapedAt(ps, dht', h, k, x, fit) {
      assert ShapedAt(ps, dht, h, k, x, fit);
    }
  }

  lemma AllShapedGrows(ps: nat, dht: Dht, dht': Dht, h: Log, fit: bool)
    requires AllShaped(ps, dht, h, fit) && Extends(dht, dht')
    ensures AllShaped(ps, dht', h, fit)
  {
    forall m: nat | 0 < m <= |h| ensures Shaped(ps, dht', h[..m], fit) {
      ShapedGrows(ps, dht, dht', h[..m], fit);
    }
  }

  lemma AllShapedPrefix(ps: nat, dht: Dht, h: Log, n: nat, fit: bool)
    requires n <= |h| && AllShaped(ps, dht, h, fit)
    ensures AllShaped(ps, dht, h[..n], fit)
  {
    forall m: nat | 0 < m <= n ensures Shaped(ps, dht, h[..n][..m], fit) {
      assert h[..n][..m] == h[..m];
    }
  }

  lemma AllShapedStep(ps: nat, dht: Dht, h: Log, n: nat, fit: bool)
    requires n < |h| && AllShaped(ps, dht, h[..n], fit) && Shaped(ps, dht, h[..n + 1], fit)
    ensures AllShaped(ps, dht, h[..n + 1], fit)
  {
    var g := h[..n + 1];
    forall m: nat | 0 < m <= |g| ensures Shaped(ps, dht, g[..m], fit) {
      assert g[..m] == h[..m];
      if m <= n { assert h[..n][..m] == h[..m]; }
    }
  }

  lemma NoneAbovePrefix(ps: nat, dht: Dht, h: Log, n: nat)
    requires n <= |h| && NoneAboveRoot(ps, dht, h)
    ensures NoneAboveRoot(ps, dht, h[..n])
  {
  }
}
