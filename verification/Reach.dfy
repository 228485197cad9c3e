/** The step beyond a history in reach.  After it, a version's tree reads back as the flat
    log exactly when its own write started below twice the root size in force at its ticket.
    What this means for whole histories, in every run, is in OffsetLimits. */
module Reach {
  import opened Metadata
  import opened Dyadic
  import opened History
  import opened Siblings
  import opened Descent
  import opened Weave
  import opened Shape

  /** The last writer of h has stored its whole plan. */
  ghost predicate PlanStored(ps: nat, dht: Dht, h: Log, left: seq<Query>, right: seq<Query>)
    requires h != []
  {
    forall k: nat, x: nat :: k <= Own(h).level && Touch(Own(h), k, x) ==>
      NodeKey(ps, Own(h), k, x) in dht && dht[NodeKey(ps, Own(h), k, x)] == PlanNode(ps, Own(h), left, right, k, x)
  }

  function RootKey(ps: nat, h: Log): Query
    requires h != []
  {
    NodeKey(ps, Own(h), Own(h).level, 0)
  }

  lemma {:induction false} TopBit(n: nat, k: nat, top: nat) returns (j: nat)
    requires k <= top && Shift(n, k) > 0 && Shift(n, top) == 0
    ensures k <= j < top && Shift(n, j) == 1
    decreases top - k
  {
    if Shift(n, k) == 1 {
      j := k;
    } else {
      j := TopBit(n, k + 1, top);
    }
  }

  /** Out of reach, the left brother [0, 2^j) is larger than every older root, and what is
      linked there is a hole or a node that nobody stores. */
  lemma LostBrother(ps: nat, dht: Dht, h: Log, n: nat, stable: Query, j: nat)
    requires Granted(ps, dht, h, n, stable) && |h| >= 2
    requires h[|h| - 2].level < j < Own(h).level && Shift(Own(h).first, j) == 1
    ensures var q := At(ps, LeftList(ps, dht, h, n, stable), j, 0);
            IsHole(q) || exists i: nat :: i < |h| && h[i].level < j && q == NodeKey(ps, h[i], j, 0)
  {
    hide Shift, Size, PendingSiblings, Search, Descend, Newest;
    var w, t := Own(h), Own(h).first;
    var sibs := PendingSiblings(ps, Pending(h, n), t, 0, w.level);
    PendingBrother(ps, h, n, t, j);
    SizePositive(ps, j);
    var i := Newest(Pending(h, n), j, 0);
    if i >= 0 {
      assert Pending(h, n)[i] == h[n + i];
    }
    if n == 0 {
      NoStable(stable, LeafOf(ps, w, t));
      SearchOtherSize(sibs, stable, 0 * Size(ps, j), Size(ps, j));
    } else {
      if Shift(t, h[n - 1].level) == 0 {
        ShiftZeroUp(t, h[n - 1].level, j);
      }
      StableRootMeets(ps, h[..n], stable, w.id, w.version, t);
      AddIfAbsentAt(ps, sibs, stable, h[n - 1].level, 0, j, 0);
    }
  }

  /** Walking down the left spine of the plan reaches the left brother of the top bit. */
  lemma {:induction false} SpineWalk(ps: nat, dht: Dht, h: Log, left: seq<Query>, right: seq<Query>, p: nat, j: nat, k: nat)
    requires h != [] && WellFormedWrite(Own(h)) && PlanStored(ps, dht, h, left, right)
    requires j < k <= Own(h).level && Shift(Own(h).first, j) == 1 && Shift(p, j) == 0
    ensures ReadTree(dht, NodeKey(ps, Own(h), k, 0), k, p) == ReadTree(dht, At(ps, left, j, 0), j, p)
    decreases k
  {
    hide Shift, ReadTree, PlanStored, PlanChild, At, Position;
    var w := Own(h);
    ShiftHalf(w.first, j);
    ShiftZeroUp(w.first, j + 1, k);
    ShiftZeroUp(p, j, k - 1);
    SpineStep(ps, dht, h, left, right, p, k);
    SpineChild(ps, w, left, right, j, k);
    if j + 1 < k {
      SpineWalk(ps, dht, h, left, right, p, j, k - 1);
    }
  }

  lemma SpineChild(ps: nat, w: Write, left: seq<Query>, right: seq<Query>, j: nat, k: nat)
    requires j < k && Shift(w.first, j) == 1
    ensures PlanChild(ps, w, left, right, k - 1, 0) ==
            if j + 1 < k then NodeKey(ps, w, k - 1, 0) else At(ps, left, j, 0)
  {
    if j + 1 < k {
      ShiftZeroUp(w.first, j + 1, k - 1);
    }
  }

  lemma SpineStep(ps: nat, dht: Dht, h: Log, left: seq<Query>, right: seq<Query>, p: nat, k: nat)
    requires h != [] && Own(h).id > 0 && PlanStored(ps, dht, h, left, right)
    requires 0 < k <= Own(h).level && Shift(Own(h).first, k) == 0 && Shift(p, k - 1) == 0
    ensures ReadTree(dht, NodeKey(ps, Own(h), k, 0), k, p)
         == ReadTree(dht, PlanChild(ps, Own(h), left, right, k - 1, 0), k - 1, p)
  {
    assert Touch(Own(h), k, 0);
  }

  /** Every page below the lost brother is lost. */
  lemma LostPage(ps: nat, dht: Dht, dht': Dht, h: Log, n: nat, stable: Query, p: nat, j: nat)
    requires Granted(ps, dht, h, n, stable) && |h| >= 2
    requires h[|h| - 2].level < j < Own(h).level && Shift(Own(h).first, j) == 1 && Shift(p, j) == 0
    requires PlanStored(ps, dht', h, LeftList(ps, dht, h, n, stable), RightList(ps, dht, h, n, stable))
    requires NoneAboveRoot(ps, dht', h)
    ensures !ReadTree(dht', RootKey(ps, h), Own(h).level, p).Page?
  {
    hide Shift, LeftList, RightList, PlanStored, WellFormed;
    GrantedFacts(ps, dht, h, n, stable);
    LostBrother(ps, dht, h, n, stable, j);
    OwnIsWell(h);
    SpineWalk(ps, dht', h, LeftList(ps, dht, h, n, stable), RightList(ps, dht, h, n, stable), p, j, Own(h).level);
  }

  lemma OwnIsWell(h: Log)
    requires WellFormed(h) && h != []
    ensures WellFormedWrite(Own(h))
  {
  }

  lemma OutOfReachLosesPage(ps: nat, dht: Dht, dht': Dht, h: Log, n: nat, stable: Query) returns (p: nat)
    requires Granted(ps, dht, h, n, stable) && !InReach(h, |h| - 1)
    requires PlanStored(ps, dht', h, LeftList(ps, dht, h, n, stable), RightList(ps, dht, h, n, stable))
    requires NoneAboveRoot(ps, dht', h)
    ensures Shift(p, Own(h).level) == 0
    ensures ReadTree(dht', RootKey(ps, h), Own(h).level, p) != ReadLog(ps, h, p)
  {
    var w, u := Own(h), h[|h| - 2];
    ShiftMonotone(w.first, w.last, w.level);
    var j := TopBit(w.first, u.level + 1, w.level);
    p := u.first;
    ShiftMonotone(u.first, u.last, u.level);
    ShiftZeroUp(p, u.level, j);
    ShiftZeroUp(p, u.level, w.level);
    LostPage(ps, dht, dht', h, n, stable, p, j);
    assert Touch(u, 0, p);
  }

  lemma GrantedFacts(ps: nat, dht: Dht, h: Log, n: nat, stable: Query)
    requires Granted(ps, dht, h, n, stable)
    ensures h != [] && ps > 0 && WellFormed(h) && AllInReach(h[..|h| - 1])
  {
  }

  /** In reach, what a writer planned is the canonical tree of its version. */
  lemma PlanIsWoven(ps: nat, dht: Dht, dht': Dht, h: Log, n: nat, stable: Query)
    requires Granted(ps, dht, h, n, stable) && InReach(h, |h| - 1)
    requires PlanStored(ps, dht', h, LeftList(ps, dht, h, n, stable), RightList(ps, dht, h, n, stable))
    ensures Woven(ps, dht', h)
  {
    hide Granted, LeftList, RightList, Canonical, PlanNode, InReach;
    GrantedFacts(ps, dht, h, n, stable);
    forall k: nat, x: nat | k <= Own(h).level && Touch(Own(h), k, x) ensures Stored(ps, dht', h, k, x) {
      WeaveIsCanonical(ps, dht, h, n, stable, k, x);
    }
  }

  lemma CompleteStep(ps: nat, dht: Dht, h: Log)
    requires h != [] && Complete(ps, dht, h[..|h| - 1]) && Woven(ps, dht, h)
    ensures Complete(ps, dht, h)
  {
    hide Woven;
    forall m: nat | 0 < m <= |h| ensures Woven(ps, dht, h[..m]) {
      if m < |h| {
        assert h[..|h| - 1][..m] == h[..m];
      } else {
        assert h[..m] == h;
      }
    }
  }

  lemma InReachReads(ps: nat, dht: Dht, dht': Dht, h: Log, n: nat, stable: Query, p: nat)
    requires Granted(ps, dht, h, n, stable) && InReach(h, |h| - 1)
    requires PlanStored(ps, dht', h, LeftList(ps, dht, h, n, stable), RightList(ps, dht, h, n, stable))
    requires Complete(ps, dht', h[..|h| - 1]) && Shift(p, Own(h).level) == 0
    ensures ReadTree(dht', RootKey(ps, h), Own(h).level, p) == ReadLog(ps, h, p)
  {
    hide Woven, PlanStored, Granted, ReadTree, Shift, InReach, AllInReach, WellFormed;
    GrantedFacts(ps, dht, h, n, stable);
    AllInReachExtend(h);
    PlanIsWoven(ps, dht, dht', h, n, stable);
    CompleteStep(ps, dht', h);
    RootLinks(ps, h);
    TreeReadsLog(ps, dht', h, Own(h).level, RootKey(ps, h), p);
  }

  /** After a history in reach, a write's tree reads every page of the flat log if and only
      if the write itself was in reach: it is the first, or it starts below twice the root
      size before it. */
  lemma ReadableIffInReach(ps: nat, dht: Dht, dht': Dht, h: Log, n: nat, stable: Query)
    requires Granted(ps, dht, h, n, stable)
    requires PlanStored(ps, dht', h, LeftList(ps, dht, h, n, stable), RightList(ps, dht, h, n, stable))
    requires Complete(ps, dht', h[..|h| - 1]) && NoneAboveRoot(ps, dht', h)
    ensures (forall p: nat :: Shift(p, Own(h).level) == 0 ==>
              ReadTree(dht', RootKey(ps, h), Own(h).level, p) == ReadLog(ps, h, p)) <==> InReach(h, |h| - 1)
  {
    if InReach(h, |h| - 1) {
      forall p: nat | Shift(p, Own(h).level) == 0
        ensures ReadTree(dht', RootKey(ps, h), Own(h).level, p) == ReadLog(ps, h, p)
      {
        InReachReads(ps, dht, dht', h, n, stable, p);
      }
    } else {
      var p := OutOfReachLosesPage(ps, dht, dht', h, n, stable);
    }
  }

  // ---- Two writes ----

  /** Page 0, then page 2 of a blob with pages of one byte: twice the root size is 2. */
  function TwoWrites(): Log {
    [Write(1, 1, 0, 0, 0, 7), Write(1, 2, 2, 2, 2, 8)]
  }

  /** A write of page 2 alone touches one position per level. */
  lemma PageTwo(w: Write, k: nat, x: nat)
    requires w.first == w.last == 2 && k <= 2
    ensures Touch(w, k, x) <==> x == (if k == 0 then 2 else if k == 1 then 1 else 0)
    ensures Shift(0, k) == 0
  {
    assert Shift(2, 1) == 1 && Shift(2, 2) == 0;
    assert Shift(0, 1) == 0;
  }

  /** The three nodes that such a write stores. */
  function StorePageTwo(dht: Dht, w: Write, left: seq<Query>, right: seq<Query>): Dht
    requires w.first == w.last == 2
  {
    PageTwo(w, 0, 2); PageTwo(w, 1, 1); PageTwo(w, 2, 0);
    dht[NodeKey(1, w, 0, 2) := PlanNode(1, w, left, right, 0, 2)]
       [NodeKey(1, w, 1, 1) := PlanNode(1, w, left, right, 1, 1)]
       [NodeKey(1, w, 2, 0) := PlanNode(1, w, left, right, 2, 0)]
  }

  lemma PageTwoKeys(w: Write)
    ensures NodeKey(1, w, 0, 0) == Query(w.id, w.version, 0, 1) && NodeKey(1, w, 0, 2) == Query(w.id, w.version, 2, 1)
    ensures NodeKey(1, w, 1, 1) == Query(w.id, w.version, 2, 2) && NodeKey(1, w, 2, 0) == Query(w.id, w.version, 0, 4)
  {
  }

  lemma PageTwoStored(dht: Dht, h: Log, left: seq<Query>, right: seq<Query>)
    requires h != [] && Own(h).first == Own(h).last == 2 && Own(h).level == 2
    ensures PlanStored(1, StorePageTwo(dht, Own(h), left, right), h, left, right)
  {
    hide PlanNode, NodeKey, Touch;
    var w := Own(h);
    PageTwoKeys(w);
    forall k: nat, x: nat | k <= 2 && Touch(w, k, x)
      ensures NodeKey(1, w, k, x) in StorePageTwo(dht, w, left, right)
      ensures StorePageTwo(dht, w, left, right)[NodeKey(1, w, k, x)] == PlanNode(1, w, left, right, k, x)
    {
      PageTwo(w, k, x);
    }
  }

  lemma TallKey(w: Write, k: nat, x: nat)
    requires w.level < k
    ensures NodeKey(1, w, k, x).size > Size(1, w.level) && NodeKey(1, w, k, x).version == w.version
  {
    SizeGrows(1, w.level, k);
  }

  lemma PageTwoNoneAbove(dht: Dht, h: Log, left: seq<Query>, right: seq<Query>)
    requires |h| == 2 && h[0].level == 0 && h[0].version != h[1].version
    requires h[1].first == h[1].last == 2 && h[1].level == 2 && dht.Keys == {NodeKey(1, h[0], 0, 0)}
    ensures NoneAboveRoot(1, StorePageTwo(dht, h[1], left, right), h)
  {
    hide NodeKey, PlanNode;
    PageTwoKeys(h[0]);
    PageTwoKeys(h[1]);
    assert Size(1, 2) == 4;
    forall i: nat, k: nat, x: nat | i < 2 && h[i].level < k
      ensures NodeKey(1, h[i], k, x) !in StorePageTwo(dht, h[1], left, right)
    {
      TallKey(h[i], k, x);
    }
  }

  lemma FirstPublished(dht: Dht, h: Log)
    requires h == TwoWrites() && dht == map[NodeKey(1, h[0], 0, 0) := Leaf(PageKey(1, h[0], 0))]
    ensures Granted(1, dht, h, 1, NodeKey(1, h[0], 0, 0)) && !InReach(h, 1)
  {
    PageTwo(h[1], 1, 1);
    PageTwo(h[1], 2, 0);
    assert h[..1] == [h[0]];
    assert Complete(1, dht, h[..1]) by {
      forall m: nat | 0 < m <= 1 ensures Woven(1, dht, h[..1][..m]) {
        assert h[..1][..m] == [h[0]];
      }
    }
  }

  /** The hypotheses of OutOfReachLosesPage can be met, and what is lost is page 0. */
  lemma TwoWritesLosePage() returns (dht: Dht, dht': Dht, stable: Query)
    ensures var h := TwoWrites();
            && Granted(1, dht, h, 1, stable) && !InReach(h, 1)
            && PlanStored(1, dht', h, LeftList(1, dht, h, 1, stable), RightList(1, dht, h, 1, stable))
            && NoneAboveRoot(1, dht', h)
            && !ReadTree(dht', RootKey(1, h), 2, 0).Page?
            && ReadLog(1, h, 0) == Page(Query(1, 7, 0, 1))
  {
    hide Granted, PlanStored, NoneAboveRoot, LeftList, RightList, ReadTree, RootKey, StorePageTwo;
    var h := TwoWrites();
    stable := NodeKey(1, h[0], 0, 0);
    dht := map[stable := Leaf(PageKey(1, h[0], 0))];
    var left, right := LeftList(1, dht, h, 1, stable), RightList(1, dht, h, 1, stable);
    dht' := StorePageTwo(dht, h[1], left, right);
    FirstPublished(dht, h);
    PageTwoStored(dht, h, left, right);
    PageTwoNoneAbove(dht, h, left, right);
    PageTwo(h[1], 1, 1);
    LostPage(1, dht, dht', h, 1, stable, 0, 1);
  }
}
