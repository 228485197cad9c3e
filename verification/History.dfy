/** The flat meaning of a versioned blob, and the segment tree that stores it.

    A blob's log lists its granted writes in ticket order.  The flat meaning of a log
    is: a page holds what the newest write covering it stored.  The tree meaning is:
    the child at position (k, x) belongs to the newest write touching (k, x).
    TreeReadsLog says that a complete tree reads exactly as the flat log. */
module History {
  import opened Metadata
  import opened Dyadic

  /** One granted ticket: pages first..last of version `version` of blob `id`, a tree
      root at `level`, and the page tag under which the writer stored its pages. */
  datatype Write = Write(id: nat, version: nat, first: nat, last: nat, level: nat, tag: nat)

  type Log = seq<Write>

  predicate Touch(w: Write, k: nat, x: nat) {
    Touches(w.first, w.last, k, x)
  }

  function NodeKey(ps: nat, w: Write, k: nat, x: nat): Query {
    Position(ps, w.id, w.version, k, x)
  }

  /** Pages are stored under the writer's tag and their index within the write. */
  function PageKey(ps: nat, w: Write, p: nat): Query
    requires w.first <= p
  {
    Query(w.id, w.tag, p - w.first, ps)
  }

  predicate WellFormedWrite(w: Write) {
    && w.id > 0 && w.version > 0
    && w.first <= w.last
    && Shift(w.last, w.level) == 0
  }

  /** Roots only grow, and every write fits under its own root. */
  predicate WellFormed(h: Log) {
    && (forall i :: 0 <= i < |h| ==> WellFormedWrite(h[i]))
    && (forall i, j :: 0 <= i <= j < |h| ==> h[i].level <= h[j].level)
  }

  /** Write i starts below twice the root size in force when its ticket was granted. */
  predicate InReach(h: Log, i: nat)
    requires i < |h|
  {
    i == 0 || Shift(h[i].first, h[i - 1].level + 1) == 0
  }

  predicate AllInReach(h: Log) {
    forall i: nat :: i < |h| ==> InReach(h, i)
  }

  /** The newest write touching (k, x), or -1. */
  function Newest(h: Log, k: nat, x: nat): (i: int)
    ensures -1 <= i < |h|
    ensures i >= 0 ==> Touch(h[i], k, x)
    ensures forall j :: i < j < |h| ==> !Touch(h[j], k, x)
  {
    if h == [] then -1
    else if Touch(h[|h| - 1], k, x) then |h| - 1
    else Newest(h[..|h| - 1], k, x)
  }

  /** A hole at position (k, x), in either of its two forms. */
  predicate HoleAt(ps: nat, k: nat, x: nat, q: Query) {
    IsHole(q) && (q == NO_QUERY || SameRange(q, x * Size(ps, k), Size(ps, k)))
  }

  /** q is what a tree over log h must hold at position (k, x). */
  predicate Links(ps: nat, h: Log, k: nat, x: nat, q: Query) {
    var i := Newest(h, k, x);
    if i < 0 then HoleAt(ps, k, x, q) else q == NodeKey(ps, h[i], k, x)
  }

  /** `node` is what the last write of h must store at position (k, x). */
  predicate Canonical(ps: nat, h: Log, k: nat, x: nat, node: DhtNode)
    requires h != [] && Touch(h[|h| - 1], k, x)
  {
    if k == 0 then node == Leaf(PageKey(ps, h[|h| - 1], x))
    else
      && node.Inner?
      && Links(ps, h, k - 1, 2 * x, node.left)
      && Links(ps, h, k - 1, 2 * x + 1, node.right)
  }

  predicate Stored(ps: nat, dht: Dht, h: Log, k: nat, x: nat)
    requires h != [] && Touch(h[|h| - 1], k, x)
  {
    var q := NodeKey(ps, h[|h| - 1], k, x);
    q in dht && Canonical(ps, h, k, x, dht[q])
  }

  /** The last write of h has stored every node of its tree. */
  ghost predicate Woven(ps: nat, dht: Dht, h: Log)
    requires h != []
  {
    forall k: nat, x: nat ::
      k <= h[|h| - 1].level && Touch(h[|h| - 1], k, x) ==> Stored(ps, dht, h, k, x)
  }

  ghost predicate Complete(ps: nat, dht: Dht, h: Log) {
    forall n: nat :: 0 < n <= |h| ==> Woven(ps, dht, h[..n])
  }

  /** What a reader finds for one page. */
  datatype Found = Page(key: Query) | Unwritten | Missing

  /** The flat meaning: the newest write covering page p. */
  function ReadLog(ps: nat, h: Log, p: nat): Found {
    var i := Newest(h, 0, p);
    if i < 0 then Unwritten else Page(PageKey(ps, h[i], p))
  }

  /** Walk the tree from node q at level k towards page p. */
  function ReadTree(dht: Dht, q: Query, k: nat, p: nat): Found
    decreases k
  {
    if IsHole(q) then Unwritten
    else if q !in dht then Missing
    else match dht[q]
      case Leaf(page) => Page(page)
      case Inner(left, right) =>
        if k == 0 then Missing
        else ReadTree(dht, if Shift(p, k - 1) % 2 == 0 then left else right, k - 1, p)
  }

  /** The linked size never exceeds the linked version's own root size. */
  lemma LinkFits(h: Log, k: nat, x: nat)
    requires WellFormed(h) && AllInReach(h) && h != []
    requires k <= h[|h| - 1].level
    ensures var i := Newest(h, k, x); i >= 0 ==> k <= h[i].level
  {
    var i := Newest(h, k, x);
    if i >= 0 && h[i].level < k {
      ShiftZeroUp(h[i].last, h[i].level, k);
      var j := FirstAtLevel(h, i, k);
      assert InReach(h, j);
      ShiftZeroUp(h[j].first, h[j - 1].level + 1, k);
    }
  }

  /** The first write after i whose root reaches level k. */
  lemma FirstAtLevel(h: Log, i: nat, k: nat) returns (j: nat)
    requires i < |h| && h[i].level < k <= h[|h| - 1].level
    ensures i < j < |h| && h[j - 1].level < k <= h[j].level
  {
    j := i + 1;
    while h[j].level < k
      invariant i < j < |h| && h[j - 1].level < k
      decreases |h| - j
    {
      j := j + 1;
    }
  }

  lemma PrefixFacts(h: Log, n: nat)
    requires n <= |h|
    ensures WellFormed(h) ==> WellFormed(h[..n])
    ensures AllInReach(h) ==> AllInReach(h[..n])
  {
    if AllInReach(h) {
      forall i: nat | i < n ensures InReach(h[..n], i) {
        assert InReach(h, i);
      }
    }
  }

  lemma CompletePrefix(ps: nat, dht: Dht, h: Log, n: nat)
    requires n <= |h| && Complete(ps, dht, h)
    ensures Complete(ps, dht, h[..n])
  {
    forall m: nat | 0 < m <= n ensures Woven(ps, dht, h[..n][..m]) {
      assert h[..n][..m] == h[..m];
    }
  }

  /** Writes that do not touch a position can be cut off the end of the log. */
  lemma {:induction false} NewestCut(h: Log, n: nat, k: nat, x: nat)
    requires n <= |h|
    requires forall j :: n <= j < |h| ==> !Touch(h[j], k, x)
    ensures Newest(h, k, x) == Newest(h[..n], k, x)
  {
    if n < |h| {
      assert h[..|h| - 1][..n] == h[..n];
      NewestCut(h[..|h| - 1], n, k, x);
    } else {
      assert h[..n] == h;
    }
  }

  /** Cutting a log just after the newest write at (k, x) changes no page below (k, x). */
  lemma ReadLogCut(ps: nat, h: Log, k: nat, p: nat)
    ensures var i := Newest(h, k, Shift(p, k)); ReadLog(ps, h, p) == ReadLog(ps, h[..i + 1], p)
  {
    hide Newest;
    var i := Newest(h, k, Shift(p, k));
    forall j | i < j < |h| ensures !Touch(h[j], 0, p) {
      if Touch(h[j], 0, p) {
        TouchesUp(h[j].first, h[j].last, p, k);
      }
    }
    NewestCut(h, i + 1, 0, p);
  }

  /** In a complete tree the node linked at (k, x) is present and canonical. */
  lemma LinkedNodeStored(ps: nat, dht: Dht, h: Log, k: nat, x: nat)
    requires WellFormed(h) && AllInReach(h) && Complete(ps, dht, h)
    requires h != [] && k <= h[|h| - 1].level && Newest(h, k, x) >= 0
    ensures Stored(ps, dht, h[..Newest(h, k, x) + 1], k, x)
  {
    LinkFits(h, k, x);
    assert Woven(ps, dht, h[..Newest(h, k, x) + 1]);
  }

  /** Tree lookup refines the flat log, below any position of a complete tree. */
  lemma {:induction false} TreeReadsLog(ps: nat, dht: Dht, h: Log, k: nat, q: Query, p: nat)
    requires WellFormed(h) && AllInReach(h) && Complete(ps, dht, h)
    requires h == [] || k <= h[|h| - 1].level
    requires Links(ps, h, k, Shift(p, k), q)
    ensures ReadTree(dht, q, k, p) == ReadLog(ps, h, p)
    decreases k
  {
    hide Shift, Canonical, Stored, Woven, ReadLog, ReadTree, Position, Size, Complete;
    var i := Newest(h, k, Shift(p, k));
    ReadLogCut(ps, h, k, p);
    if i >= 0 {
      LinkedNodeStored(ps, dht, h, k, Shift(p, k));
      if k > 0 {
        DescendOneLevel(ps, dht, h[..i + 1], k, q, p);
        LinkFits(h, k, Shift(p, k));
        PrefixFacts(h, i + 1);
        CompletePrefix(ps, dht, h, i + 1);
        TreeReadsLog(ps, dht, h[..i + 1], k - 1, ChildTowards(dht[q], k, p), p);
      } else {
        ReadLeaf(ps, dht, h[..i + 1], q, p);
      }
    } else {
      assert h[..i + 1] == [];
      ReadNothing(ps, dht, q, k, p);
    }
  }

  lemma ReadNothing(ps: nat, dht: Dht, q: Query, k: nat, p: nat)
    requires IsHole(q)
    ensures ReadTree(dht, q, k, p) == ReadLog(ps, [], p)
  {
  }

  lemma ReadLeaf(ps: nat, dht: Dht, h: Log, q: Query, p: nat)
    requires h != [] && h[|h| - 1].id > 0 && Touch(h[|h| - 1], 0, Shift(p, 0))
    requires q == NodeKey(ps, h[|h| - 1], 0, Shift(p, 0)) && Stored(ps, dht, h, 0, Shift(p, 0))
    ensures ReadTree(dht, q, 0, p) == ReadLog(ps, h, p)
  {
  }

  function ChildTowards(node: DhtNode, k: nat, p: nat): Query
    requires node.Inner? && k > 0
  {
    if Shift(p, k - 1) % 2 == 0 then node.left else node.right
  }

  lemma DescendOneLevel(ps: nat, dht: Dht, h: Log, k: nat, q: Query, p: nat)
    requires h != [] && k > 0 && Touch(h[|h| - 1], k, Shift(p, k))
    requires q == NodeKey(ps, h[|h| - 1], k, Shift(p, k)) && h[|h| - 1].id > 0
    requires Stored(ps, dht, h, k, Shift(p, k))
    ensures q in dht && dht[q].Inner?
    ensures Links(ps, h, k - 1, Shift(p, k - 1), ChildTowards(dht[q], k, p))
    ensures ReadTree(dht, q, k, p) == ReadTree(dht, ChildTowards(dht[q], k, p), k - 1, p)
  {
  }

  /** Every node reachable from q is in the DHT, down to the leaves or to holes. */
  ghost predicate Present(dht: Dht, q: Query, k: nat)
    decreases k
  {
    IsHole(q) ||
    (q in dht && match dht[q]
                 case Leaf(_) => k == 0
                 case Inner(left, right) => k > 0 && Present(dht, left, k - 1) && Present(dht, right, k - 1))
  }

  /** A complete tree has no dangling link anywhere. */
  lemma {:induction false} CompleteIsPresent(ps: nat, dht: Dht, h: Log, k: nat, x: nat, q: Query)
    requires WellFormed(h) && AllInReach(h) && Complete(ps, dht, h)
    requires h == [] || k <= h[|h| - 1].level
    requires Links(ps, h, k, x, q)
    ensures Present(dht, q, k)
    decreases k
  {
    hide Shift, Size, Woven, Complete;
    var i := Newest(h, k, x);
    if i >= 0 {
      LinkedNodeStored(ps, dht, h, k, x);
      if k > 0 {
        LinkFits(h, k, x);
        PrefixFacts(h, i + 1);
        CompletePrefix(ps, dht, h, i + 1);
        CompleteIsPresent(ps, dht, h[..i + 1], k - 1, 2 * x, dht[q].left);
        CompleteIsPresent(ps, dht, h[..i + 1], k - 1, 2 * x + 1, dht[q].right);
      }
    }
  }
}
