/** The walk down the last stable tree that fills in the brothers which no pending write
    touches (siblings_callback in client/range_query.cpp). */
module Descent {
  import opened Arithmetic
  import opened Metadata
  import opened Dyadic
  import opened History
  import opened Siblings

  /** A node's children with the ranges they stand for.  A hole gets a range here too. */
  function Children(node: DhtNode, parent: Query): (Query, Query)
    requires node.Inner?
  {
    var half := parent.size / 2;
    (node.left.(offset := parent.offset, size := half),
     node.right.(offset := parent.offset + half, size := half))
  }

  function AddIfAbsent(siblings: seq<Query>, q: Query): seq<Query> {
    if Search(siblings, q.offset, q.size) == NO_QUERY then siblings + [q] else siblings
  }

  /** One callback on an inner node: the new sibling list and the child to fetch next. */
  function Visit(node: DhtNode, isLeft: bool, target: Query, siblings: seq<Query>, parent: Query): (seq<Query>, Query)
    requires node.Inner?
  {
    var (left, right) := Children(node, parent);
    if Intersects(left, target) then
      (if isLeft then siblings else AddIfAbsent(siblings, right), left)
    else
      (if isLeft then AddIfAbsent(siblings, left) else siblings, right)
  }

  /** The walk goes on from `parent`.  No range of size 0 is ever stored. */
  predicate GoesOn(dht: Dht, parent: Query) {
    parent in dht && dht[parent].Inner? && parent.size > 0
  }

  /** The sibling list once the whole chain of callbacks has run. */
  function Descend(dht: Dht, isLeft: bool, target: Query, siblings: seq<Query>, parent: Query): seq<Query>
    decreases parent.size
  {
    if !GoesOn(dht, parent) then siblings
    else
      var (more, next) := Visit(dht[parent], isLeft, target, siblings, parent);
      Descend(dht, isLeft, target, more, next)
  }

  method SiblingsCallback(dht: Dht, isLeft: bool, target: Query, siblings: seq<Query>, parent: Query)
    returns (result: seq<Query>)
    ensures result == Descend(dht, isLeft, target, siblings, parent)
  {
    result := siblings;
    var current := parent;
    while current in dht && dht[current].Inner? && current.size > 0
      invariant Descend(dht, isLeft, target, siblings, parent) == Descend(dht, isLeft, target, result, current)
      decreases current.size
    {
      var half := current.size / 2;
      var left := dht[current].left.(offset := current.offset, size := half);
      var right := dht[current].right.(offset := current.offset + half, size := half);
      if Intersects(left, target) {
        if !isLeft {
          var present := SearchList(result, right.offset, right.size);
          if present == NO_QUERY {
            result := result + [right];
          }
        }
        current := left;
      } else {
        if isLeft {
          var present := SearchList(result, left.offset, left.size);
          if present == NO_QUERY {
            result := result + [left];
          }
        }
        current := right;
      }
    }
  }

  /** Position (j, y) is a brother, on the wanted side, of the path of page t. */
  predicate BesidePath(isLeft: bool, t: nat, j: nat, y: nat) {
    y == Brother(Shift(t, j)) && (isLeft <==> Shift(t, j) % 2 == 1)
  }

  /** The stable tree as a writer may rely on it. */
  ghost predicate StableTree(ps: nat, dht: Dht, h: Log) {
    && ps > 0 && h != []
    && WellFormed(h) && AllInReach(h) && Complete(ps, dht, h)
    && forall q :: q in dht ==> q.id > 0
  }

  /** A write that misses a position misses everything below it. */
  lemma {:induction false} UntouchedBelow(w: Write, t: nat, j: nat, k: nat)
    requires w.first <= w.last && j < k && !Touch(w, k, Shift(t, k))
    ensures !Touch(w, j, Shift(t, j)) && !Touch(w, j, Brother(Shift(t, j)))
    decreases k
  {
    if j + 1 < k {
      TouchesChildren(w.first, w.last, k, Shift(t, k));
      UntouchedBelow(w, t, j, k - 1);
    } else {
      TouchesChildren(w.first, w.last, k, Shift(t, k));
    }
  }

  lemma UntouchedHolesBelow(h: Log, t: nat, j: nat, k: nat)
    requires WellFormed(h) && j < k && Newest(h, k, Shift(t, k)) < 0
    ensures Newest(h, j, Brother(Shift(t, j))) < 0
  {
    forall i | 0 <= i < |h| ensures !Touch(h[i], j, Brother(Shift(t, j))) {
      UntouchedBelow(h[i], t, j, k);
    }
  }

  /** The children a complete tree stores are the right ones for the whole log. */
  lemma ChildLinks(ps: nat, dht: Dht, h: Log, k: nat, x: nat, c: nat)
    requires StableTree(ps, dht, h) && 0 < k <= h[|h| - 1].level
    requires Newest(h, k, x) >= 0 && c / 2 == x
    ensures var q := NodeKey(ps, h[Newest(h, k, x)], k, x);
            && q in dht && dht[q].Inner?
            && Links(ps, h, k - 1, c, if c % 2 == 0 then dht[q].left else dht[q].right)
  {
    var i := Newest(h, k, x);
    LinkedNodeStored(ps, dht, h, k, x);
    forall m | i < m < |h| ensures !Touch(h[m], k - 1, c) {
      TouchesChildren(h[m].first, h[m].last, k, x);
    }
    NewestCut(h, i + 1, k - 1, c);
  }

  lemma ChildRanges(ps: nat, k: nat, x: nat, node: DhtNode, parent: Query)
    requires ps > 0 && k > 0 && node.Inner? && SameRange(parent, x * Size(ps, k), Size(ps, k))
    ensures var (left, right) := Children(node, parent);
            && SameRange(left, (2 * x) * Size(ps, k - 1), Size(ps, k - 1))
            && SameRange(right, (2 * x + 1) * Size(ps, k - 1), Size(ps, k - 1))
  {
    DoubleSize(ps, k, x);
    Distribute(2 * x, 1, Size(ps, k - 1));
  }

  /** Rewriting a stored child's range leaves it the right link, now with its range. */
  lemma ChildrenArePositions(ps: nat, h: Log, k: nat, x: nat, node: DhtNode, parent: Query)
    requires ps > 0 && k > 0 && node.Inner?
    requires SameRange(parent, x * Size(ps, k), Size(ps, k))
    requires Links(ps, h, k - 1, 2 * x, node.left) && Links(ps, h, k - 1, 2 * x + 1, node.right)
    ensures var (left, right) := Children(node, parent);
            && SameRange(left, (2 * x) * Size(ps, k - 1), Size(ps, k - 1))
            && SameRange(right, (2 * x + 1) * Size(ps, k - 1), Size(ps, k - 1))
            && Links(ps, h, k - 1, 2 * x, left) && Links(ps, h, k - 1, 2 * x + 1, right)
  {
    ChildRanges(ps, k, x, node, parent);
  }

  ghost predicate FilledFrom(ps: nat, h: Log, before: Query, wanted: bool, j: nat, y: nat, after: Query) {
    if wanted && before == NO_QUERY then Links(ps, h, j, y, after) else after == before
  }

  lemma AddIfAbsentAt(ps: nat, siblings: seq<Query>, q: Query, k: nat, x: nat, j: nat, y: nat)
    requires ps > 0 && SameRange(q, x * Size(ps, k), Size(ps, k))
    ensures At(ps, AddIfAbsent(siblings, q), j, y) ==
            if (j, y) == (k, x) && At(ps, siblings, j, y) == NO_QUERY then q else At(ps, siblings, j, y)
  {
    AtPush(ps, siblings, q, k, x, j, y);
  }

  /** One callback records the wanted brother one level down and steps towards the target. */
  lemma VisitAt(ps: nat, h: Log, isLeft: bool, t: nat, target: Query, siblings: seq<Query>,
                node: DhtNode, parent: Query, k: nat, j: nat, y: nat)
    requires ps > 0 && k > 0 && node.Inner?
    requires SameRange(target, t * ps, ps)
    requires SameRange(parent, Shift(t, k) * Size(ps, k), Size(ps, k))
    requires Links(ps, h, k - 1, 2 * Shift(t, k), node.left)
    requires Links(ps, h, k - 1, 2 * Shift(t, k) + 1, node.right)
    ensures var (more, next) := Visit(node, isLeft, target, siblings, parent);
            && SameRange(next, Shift(t, k - 1) * Size(ps, k - 1), Size(ps, k - 1))
            && Links(ps, h, k - 1, Shift(t, k - 1), next)
            && FilledFrom(ps, h, At(ps, siblings, j, y), j == k - 1 && BesidePath(isLeft, t, j, y), j, y,
                          At(ps, more, j, y))
  {
    var x := Shift(t, k);
    ChildrenArePositions(ps, h, k, x, node, parent);
    var (left, right) := Children(node, parent);
    IntersectsIsTouches(ps, left, k - 1, 2 * x, target, t, t);
    AddIfAbsentAt(ps, siblings, left, k - 1, 2 * x, j, y);
    AddIfAbsentAt(ps, siblings, right, k - 1, 2 * x + 1, j, y);
  }

  /** The walk fills every wanted brother below the start that was still empty with the
      stable tree's own link, and changes nothing else. */
  lemma {:induction false} DescendAt(ps: nat, dht: Dht, h: Log, isLeft: bool, t: nat, target: Query,
                                     siblings: seq<Query>, parent: Query, k: nat, j: nat, y: nat)
    requires StableTree(ps, dht, h) && k <= h[|h| - 1].level
    requires SameRange(target, t * ps, ps)
    requires SameRange(parent, Shift(t, k) * Size(ps, k), Size(ps, k))
    requires Links(ps, h, k, Shift(t, k), parent)
    ensures FilledFrom(ps, h, At(ps, siblings, j, y), j < k && BesidePath(isLeft, t, j, y), j, y,
                       At(ps, Descend(dht, isLeft, target, siblings, parent), j, y))
    decreases k
  {
    if Newest(h, k, Shift(t, k)) < 0 {
      if j < k {
        UntouchedHolesBelow(h, t, j, k);
      }
    } else if k == 0 {
      LinkedNodeStored(ps, dht, h, 0, t);
    } else {
      ChildLinks(ps, dht, h, k, Shift(t, k), 2 * Shift(t, k));
      ChildLinks(ps, dht, h, k, Shift(t, k), 2 * Shift(t, k) + 1);
      SizePositive(ps, k);
      VisitAt(ps, h, isLeft, t, target, siblings, dht[parent], parent, k, j, y);
      var (more, next) := Visit(dht[parent], isLeft, target, siblings, parent);
      DescendAt(ps, dht, h, isLeft, t, target, more, next, k - 1, j, y);
    }
  }

  ghost predicate Extends(dht: Dht, dht': Dht) {
    forall q :: q in dht ==> q in dht' && dht'[q] == dht[q]
  }
}
