/** The bottom-up loop of writeRecordLocations (client/range_query.cpp:166-208): a queue of
    nodes is paired off into parents until the root is reached. */
module NodeDeque {
  import opened Arithmetic
  import opened Metadata
  import opened Dyadic
  import opened History
  import opened Siblings
  import opened Weave

  type Put = (Query, DhtNode)

  /** The nodes of write w at level k with index a..b-1. */
  function Row(ps: nat, w: Write, k: nat, a: nat, b: nat): (r: seq<Query>)
    requires a <= b
    ensures |r| == b - a
  {
    seq(b - a, i requires 0 <= i => NodeKey(ps, w, k, a + i))
  }

  function First(w: Write, k: nat): nat { Shift(w.first, k) }

  /** One past the last touched index of level k. */
  function End(w: Write, k: nat): (e: nat)
    ensures e > 0
  {
    Shift(w.last, k) + 1
  }

  function PutAt(ps: nat, w: Write, left: seq<Query>, right: seq<Query>, k: nat, x: nat): Put
    requires Touch(w, k, x)
  {
    (NodeKey(ps, w, k, x), PlanNode(ps, w, left, right, k, x))
  }

  /** The puts of level k up to index b, in order. */
  function RowPuts(ps: nat, w: Write, left: seq<Query>, right: seq<Query>, k: nat, b: nat): (r: seq<Put>)
    requires First(w, k) <= b <= End(w, k)
    ensures |r| == b - First(w, k)
  {
    seq(b - First(w, k), i requires 0 <= i < b - First(w, k) => PutAt(ps, w, left, right, k, First(w, k) + i))
  }

  /** All puts of levels 1..k, level by level and left to right. */
  function TreePuts(ps: nat, w: Write, left: seq<Query>, right: seq<Query>, k: nat): seq<Put>
    requires w.first <= w.last
  {
    if k == 0 then [] else
      ShiftMonotone(w.first, w.last, k);
      TreePuts(ps, w, left, right, k - 1) + RowPuts(ps, w, left, right, k, End(w, k))
  }

  lemma RowFront(ps: nat, w: Write, k: nat, a: nat, b: nat)
    requires a < b
    ensures Row(ps, w, k, a, b)[0] == NodeKey(ps, w, k, a)
    ensures Row(ps, w, k, a, b)[1..] == Row(ps, w, k, a + 1, b)
  {
  }

  lemma RowBack(ps: nat, w: Write, k: nat, a: nat, b: nat)
    requires a <= b
    ensures Row(ps, w, k, a, b) + [NodeKey(ps, w, k, b)] == Row(ps, w, k, a, b + 1)
  {
  }

  /** How far level k+1 has been produced once level k is consumed up to index c. */
  function Produced(w: Write, k: nat, c: nat): nat {
    if c == First(w, k) then First(w, k + 1) else (c + 1) / 2
  }

  /** The queue holds the rest of level k followed by the produced part of level k+1. */
  ghost predicate QueueAt(ps: nat, w: Write, deque: seq<Query>, k: nat, c: nat) {
    && w.first <= w.last && k <= w.level
    && First(w, k) <= c <= End(w, k)
    && (c == First(w, k) || c == End(w, k) || c % 2 == 0)
    && First(w, k + 1) <= Produced(w, k, c) <= End(w, k + 1)
    && deque == Row(ps, w, k, c, End(w, k)) +
                (if k < w.level then Row(ps, w, k + 1, First(w, k + 1), Produced(w, k, c)) else [])
  }

  ghost predicate PutsAt(ps: nat, w: Write, left: seq<Query>, right: seq<Query>, puts: seq<Put>, k: nat, c: nat)
    requires w.first <= w.last && First(w, k + 1) <= Produced(w, k, c) <= End(w, k + 1)
  {
    puts == TreePuts(ps, w, left, right, k) +
            (if k < w.level then RowPuts(ps, w, left, right, k + 1, Produced(w, k, c)) else [])
  }

  lemma RowsStart(w: Write, k: nat)
    requires w.first <= w.last
    ensures First(w, k) < End(w, k)
    ensures First(w, k + 1) == First(w, k) / 2 && End(w, k + 1) == (End(w, k) + 1) / 2
  {
    ShiftMonotone(w.first, w.last, k);
  }

  /** A fully consumed level hands over to the next one. */
  lemma NextLevel(ps: nat, w: Write, left: seq<Query>, right: seq<Query>, deque: seq<Query>, puts: seq<Put>, k: nat)
    requires k < w.level && QueueAt(ps, w, deque, k, End(w, k)) && PutsAt(ps, w, left, right, puts, k, End(w, k))
    ensures QueueAt(ps, w, deque, k + 1, First(w, k + 1))
    ensures PutsAt(ps, w, left, right, puts, k + 1, First(w, k + 1))
  {
    RowsStart(w, k);
    RowsStart(w, k + 1);
    assert Row(ps, w, k, End(w, k), End(w, k)) == [];
    assert Row(ps, w, k + 2, First(w, k + 2), First(w, k + 2)) == [];
    assert RowPuts(ps, w, left, right, k + 2, First(w, k + 2)) == [];
  }

  /** Whether the node after the front one is its right brother. */
  method PairsWith(ps: nat, parent: Query, next: Query, rootSize: nat, ghost w: Write,
                   ghost k: nat, ghost c: nat, ghost j: nat, ghost y: nat)
    returns (paired: bool)
    requires ps > 0 && k < w.level && rootSize == Size(ps, w.level)
    requires parent == NodeKey(ps, w, k + 1, c / 2) && next == NodeKey(ps, w, j, y) && j <= w.level
    requires j == k ==> y == c + 1
    ensures paired <==> j == k && c % 2 == 0
  {
    paired := false;
    ParentPosition(ps, w.id, w.version, j, y);
    if next.size != rootSize {
      var (nextParent, kind) := GetParent(next);
      paired := kind == RightChild && parent == nextParent;
      if j != k && parent == nextParent {
        RangeIsPosition(ps, k + 1, c / 2, j + 1, y / 2);
      }
    } else if j < w.level {
      SizeGrows(ps, j, w.level);
    }
  }

  /** The node after the front one, if any, is the next of this level or the first of the
      level above. */
  lemma SecondInQueue(ps: nat, w: Write, deque: seq<Query>, k: nat, c: nat)
    requires QueueAt(ps, w, deque, k, c) && c < End(w, k) && k < w.level
    ensures deque != [] && deque[0] == NodeKey(ps, w, k, c)
    ensures c + 1 < End(w, k) ==> |deque| > 1 && deque[1] == NodeKey(ps, w, k, c + 1)
    ensures c + 1 == End(w, k) && |deque| > 1 ==> deque[1] == NodeKey(ps, w, k + 1, First(w, k + 1))
  {
  }

  /** At each level only the first entry can be a right child without its brother, and only
      the last a left child without its. */
  lemma UnpairedOnlyAtEdges(w: Write, k: nat, x: nat)
    requires w.first <= w.last && Touch(w, k, x)
    ensures !Touch(w, k, Brother(x)) <==> if x % 2 == 1 then x == First(w, k) else x == End(w, k) - 1
  {
  }

  lemma AdvanceIndices(w: Write, k: nat, c: nat, paired: bool)
    requires w.first <= w.last && First(w, k) <= c < End(w, k) && (c == First(w, k) || c % 2 == 0)
    requires paired <==> c % 2 == 0 && c + 1 < End(w, k)
    ensures var c' := if paired then c + 2 else c + 1;
            && First(w, k) <= c' <= End(w, k) && (c' == End(w, k) || c' % 2 == 0)
            && First(w, k + 1) <= c / 2 < End(w, k + 1)
            && Produced(w, k, c) == c / 2 && Produced(w, k, c') == c / 2 + 1
  {
    RowsStart(w, k);
  }

  /** Consuming the front node, or the front pair, produces the next parent. */
  lemma QueueAdvance(ps: nat, w: Write, deque: seq<Query>, k: nat, c: nat, paired: bool)
    requires QueueAt(ps, w, deque, k, c) && c < End(w, k) && k < w.level
    requires paired <==> c % 2 == 0 && c + 1 < End(w, k)
    ensures var c' := if paired then c + 2 else c + 1;
            && |deque| >= c' - c
            && QueueAt(ps, w, deque[c' - c..] + [NodeKey(ps, w, k + 1, c / 2)], k, c')
            && First(w, k + 1) <= c / 2 < End(w, k + 1)
            && Produced(w, k, c) == c / 2 && Produced(w, k, c') == c / 2 + 1
  {
    hide Shift, Size, Produced, NodeKey, First, End;
    AdvanceIndices(w, k, c, paired);
    var c' := if paired then c + 2 else c + 1;
    var up := Row(ps, w, k + 1, First(w, k + 1), c / 2);
    var row := Row(ps, w, k, c, End(w, k));
    RowDrop(ps, w, k, c, End(w, k), c' - c);
    assert deque == row + up;
    assert deque[c' - c..] == row[c' - c..] + up;
    RowBack(ps, w, k + 1, First(w, k + 1), c / 2);
    assert (row[c' - c..] + up) + [NodeKey(ps, w, k + 1, c / 2)]
        == row[c' - c..] + (up + [NodeKey(ps, w, k + 1, c / 2)]);
  }

  lemma RowDrop(ps: nat, w: Write, k: nat, a: nat, b: nat, d: nat)
    requires a + d <= b
    ensures Row(ps, w, k, a, b)[d..] == Row(ps, w, k, a + d, b)
  {
  }

  lemma PutsAdvance(ps: nat, w: Write, left: seq<Query>, right: seq<Query>, puts: seq<Put>, k: nat, c: nat, c': nat)
    requires w.first <= w.last && k < w.level && First(w, k) <= c < End(w, k)
    requires First(w, k + 1) <= Produced(w, k, c) == c / 2 < End(w, k + 1) && Produced(w, k, c') == c / 2 + 1
    requires PutsAt(ps, w, left, right, puts, k, c)
    ensures PutsAt(ps, w, left, right, puts + [PutAt(ps, w, left, right, k + 1, c / 2)], k, c')
  {
    assert RowPuts(ps, w, left, right, k + 1, c / 2) + [PutAt(ps, w, left, right, k + 1, c / 2)]
        == RowPuts(ps, w, left, right, k + 1, c / 2 + 1);
  }

  /** What the parent of node c must hold: a full pair, or one brother looked up. */
  lemma ParentNode(ps: nat, w: Write, left: seq<Query>, right: seq<Query>, k: nat, c: nat)
    requires First(w, k) <= c < End(w, k) && (c == First(w, k) || c % 2 == 0) && w.first <= w.last
    ensures Touch(w, k + 1, c / 2)
    ensures PlanNode(ps, w, left, right, k + 1, c / 2) ==
            if c % 2 == 1 then Inner(At(ps, left, k, c - 1), NodeKey(ps, w, k, c))
            else Inner(NodeKey(ps, w, k, c), if c + 1 < End(w, k) then NodeKey(ps, w, k, c + 1) else At(ps, right, k, c + 1))
  {
    RowsStart(w, k);
  }

  /** One iteration on a node below the root: pop it, pop its right brother if it is next,
      otherwise look the brother up, and store the parent. */
  method ProcessFront(ps: nat, deque: seq<Query>, rootSize: nat, left: seq<Query>, right: seq<Query>,
                      ghost w: Write, ghost k: nat, ghost c: nat)
    returns (rest: seq<Query>, put: Put)
    requires ps > 0 && rootSize == Size(ps, w.level)
    requires QueueAt(ps, w, deque, k, c) && c < End(w, k) && k < w.level
    ensures var c' := if c % 2 == 0 && c + 1 < End(w, k) then c + 2 else c + 1;
            && rest == deque[c' - c..] + [NodeKey(ps, w, k + 1, c / 2)]
            && Touch(w, k + 1, c / 2) && put == PutAt(ps, w, left, right, k + 1, c / 2)
  {
    hide Shift, Size, Row, Search, PlanNode, PlanChild;
    SecondInQueue(ps, w, deque, k, c);
    ParentNode(ps, w, left, right, k, c);
    ParentPosition(ps, w.id, w.version, k, c);
    var first, next := deque[0], NO_QUERY;
    rest := deque[1..];
    var (parent, kind) := GetParent(first);
    var paired := false;
    if rest != [] {
      next := rest[0];
      ghost var here := c + 1 < End(w, k);
      paired := PairsWith(ps, parent, next, rootSize, w, k, c,
                          if here then k else k + 1, if here then c + 1 else First(w, k + 1));
    }
    if paired {
      rest := rest[1..];
    } else if kind == LeftChild {
      Distribute(c, 1, Size(ps, k));
      next := SearchList(right, first.offset + first.size, first.size);
    } else {
      Distribute(c - 1, 1, Size(ps, k));
      next := first;
      first := SearchList(left, first.offset - first.size, first.size);
    }
    rest := rest + [parent];
    put := (parent, Inner(first, next));
  }

  ghost predicate LoopAt(ps: nat, w: Write, left: seq<Query>, right: seq<Query>,
                         deque: seq<Query>, puts: seq<Put>, k: nat, c: nat) {
    QueueAt(ps, w, deque, k, c) && PutsAt(ps, w, left, right, puts, k, c)
  }

  lemma LoopStart(ps: nat, w: Write, left: seq<Query>, right: seq<Query>)
    requires w.first <= w.last
    ensures LoopAt(ps, w, left, right, Row(ps, w, 0, w.first, w.last + 1), [], 0, w.first)
  {
    RowsStart(w, 0);
    assert Row(ps, w, 1, First(w, 1), First(w, 1)) == [];
    assert RowPuts(ps, w, left, right, 1, First(w, 1)) == [];
  }

  /** A non-empty queue has a front node at some level. */
  lemma Settle(ps: nat, w: Write, left: seq<Query>, right: seq<Query>, deque: seq<Query>, puts: seq<Put>, k: nat, c: nat)
    returns (k': nat, c': nat)
    requires LoopAt(ps, w, left, right, deque, puts, k, c) && deque != []
    ensures LoopAt(ps, w, left, right, deque, puts, k', c') && c' < End(w, k')
    ensures k' > k || (k', c') == (k, c)
    ensures deque[0] == NodeKey(ps, w, k', c')
  {
    k', c' := k, c;
    if k < w.level && c == End(w, k) {
      NextLevel(ps, w, left, right, deque, puts, k);
      k', c' := k + 1, First(w, k + 1);
      RowsStart(w, k + 1);
    }
    RowFront(ps, w, k', c', End(w, k'));
  }

  /** The root is dropped from the queue without a put. */
  lemma DropRoot(ps: nat, w: Write, left: seq<Query>, right: seq<Query>, deque: seq<Query>, puts: seq<Put>, c: nat)
    requires WellFormedWrite(w) && LoopAt(ps, w, left, right, deque, puts, w.level, c) && c < End(w, w.level)
    ensures LoopAt(ps, w, left, right, deque[1..], puts, w.level, c + 1)
  {
    RowsStart(w, w.level);
    RowFront(ps, w, w.level, c, End(w, w.level));
  }

  lemma LoopEnd(ps: nat, w: Write, left: seq<Query>, right: seq<Query>, puts: seq<Put>, k: nat, c: nat)
    requires LoopAt(ps, w, left, right, [], puts, k, c)
    ensures puts == TreePuts(ps, w, left, right, w.level)
  {
    RowsStart(w, k);
    RowsStart(w, k + 1);
    assert |Row(ps, w, k, c, End(w, k))| == 0;
  }

  /** One iteration of the loop. */
  method Iterate(ps: nat, deque: seq<Query>, puts: seq<Put>, rootSize: nat, left: seq<Query>, right: seq<Query>,
                 ghost w: Write, ghost k: nat, ghost c: nat)
    returns (deque': seq<Query>, puts': seq<Put>, ghost c': nat)
    requires ps > 0 && WellFormedWrite(w) && rootSize == Size(ps, w.level)
    requires LoopAt(ps, w, left, right, deque, puts, k, c) && c < End(w, k)
    requires deque != [] && deque[0] == NodeKey(ps, w, k, c)
    ensures LoopAt(ps, w, left, right, deque', puts', k, c') && c' > c
  {
    hide Shift, Row, RowPuts, TreePuts;
    if deque[0].size == rootSize {
      if k < w.level { SizeGrows(ps, k, w.level); }
      DropRoot(ps, w, left, right, deque, puts, c);
      deque', puts', c' := deque[1..], puts, c + 1;
    } else {
      ghost var paired := c % 2 == 0 && c + 1 < End(w, k);
      c' := if paired then c + 2 else c + 1;
      var rest, put := ProcessFront(ps, deque, rootSize, left, right, w, k, c);
      QueueAdvance(ps, w, deque, k, c, paired);
      PutsAdvance(ps, w, left, right, puts, k, c, c');
      deque', puts' := rest, puts + [put];
    }
  }

  /** The whole loop: it ends, and stores exactly the nodes of levels 1..root level that
      the write touches, level by level, one put each. */
  method ProcessNodes(ps: nat, leaves: seq<Query>, rootSize: nat, left: seq<Query>, right: seq<Query>, ghost w: Write)
    returns (puts: seq<Put>)
    requires ps > 0 && WellFormedWrite(w) && rootSize == Size(ps, w.level)
    requires leaves == Row(ps, w, 0, w.first, w.last + 1)
    ensures puts == TreePuts(ps, w, left, right, w.level)
  {
    puts := [];
    var deque := leaves;
    ghost var k: nat, c: nat := 0, w.first;
    LoopStart(ps, w, left, right);
    while deque != []
      invariant LoopAt(ps, w, left, right, deque, puts, k, c)
      decreases w.level - k, End(w, k) - c
    {
      k, c := Settle(ps, w, left, right, deque, puts, k, c);
      deque, puts, c := Iterate(ps, deque, puts, rootSize, left, right, w, k, c);
    }
    LoopEnd(ps, w, left, right, puts, k, c);
  }

  /** Every put is the put of some touched position of levels 1..k. */
  lemma {:induction false} LocatePut(ps: nat, w: Write, left: seq<Query>, right: seq<Query>, k: nat, i: nat)
    returns (j: nat, x: nat)
    requires w.first <= w.last && i < |TreePuts(ps, w, left, right, k)|
    ensures 1 <= j <= k && Touch(w, j, x)
    ensures TreePuts(ps, w, left, right, k)[i] == PutAt(ps, w, left, right, j, x)
    ensures i >= |TreePuts(ps, w, left, right, k - 1)| ==>
              j == k && x == First(w, k) + (i - |TreePuts(ps, w, left, right, k - 1)|)
    ensures i < |TreePuts(ps, w, left, right, k - 1)| ==> j < k
  {
    var lower := TreePuts(ps, w, left, right, k - 1);
    if i < |lower| {
      j, x := LocatePut(ps, w, left, right, k - 1, i);
    } else {
      ShiftMonotone(w.first, w.last, k);
      j, x := k, First(w, k) + (i - |lower|);
    }
  }

  /** Every touched position of levels 1..k is put. */
  lemma {:induction false} TreePutsHas(ps: nat, w: Write, left: seq<Query>, right: seq<Query>, k: nat, j: nat, x: nat)
    requires w.first <= w.last && 1 <= j <= k && Touch(w, j, x)
    ensures PutAt(ps, w, left, right, j, x) in TreePuts(ps, w, left, right, k)
  {
    ShiftMonotone(w.first, w.last, k);
    if j < k {
      TreePutsHas(ps, w, left, right, k - 1, j, x);
    } else {
      var row := RowPuts(ps, w, left, right, k, End(w, k));
      assert row[x - First(w, k)] == PutAt(ps, w, left, right, k, x);
    }
  }

  /** No key is put twice. */
  lemma {:induction false} TreePutsDistinct(ps: nat, w: Write, left: seq<Query>, right: seq<Query>, k: nat, a: nat, b: nat)
    requires ps > 0 && w.first <= w.last && a < b < |TreePuts(ps, w, left, right, k)|
    ensures TreePuts(ps, w, left, right, k)[a].0 != TreePuts(ps, w, left, right, k)[b].0
  {
    if b < |TreePuts(ps, w, left, right, k - 1)| {
      TreePutsDistinct(ps, w, left, right, k - 1, a, b);
    } else {
      var i, x := LocatePut(ps, w, left, right, k, a);
      var j, y := LocatePut(ps, w, left, right, k, b);
      if NodeKey(ps, w, i, x) == NodeKey(ps, w, j, y) {
        RangeIsPosition(ps, i, x, j, y);
      }
    }
  }
}
