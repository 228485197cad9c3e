/** readRecordLocations (client/range_query.cpp:213-263): walk a version's tree, skipping
    subtrees outside the wanted range, and fill one slot per page with its page key.

    Every get is answered by a callback, and answers may come in any order.  A pool holds the
    gets still outstanding; serving any one of them is one callback. */
module ReadLocations {
  import opened Arithmetic
  import opened Metadata
  import opened Dyadic
  import opened History

  /** An outstanding get: of a tree node, with the offset passed to its callback, or of a
      page's provider list, with the slot it is for.  (k, x) is the node's tree position. */
  datatype Get =
    | NodeGet(q: Query, offset: nat, k: nat, x: nat)
    | PageGet(page: Query, slot: nat)

  datatype Slot = Empty | Key(page: Query)

  /** `filled` lists the slots in the order in which they were written. */
  datatype Pool = Pool(gets: seq<Get>, ok: bool, slots: seq<Slot>, filled: seq<nat>)

  function Without(gets: seq<Get>, i: nat): seq<Get>
    requires i < |gets|
  {
    gets[..i] + gets[i + 1..]
  }

  /** The get that a child leads to, if it meets the range. */
  function ChildGet(child: Query, range: Query, k: nat, x: nat): seq<Get> {
    if Intersects(child, range) then [NodeGet(child, child.offset, k, x)] else []
  }

  /** What a callback on a stored node asks for next. */
  function NextGets(node: DhtNode, g: Get, range: Query, ps: nat): seq<Get>
    requires ps > 0 && g.NodeGet?
  {
    match node
    case Leaf(page) => if g.offset < range.offset then [] else [PageGet(page, (g.offset - range.offset) / ps)]
    case Inner(left, right) =>
      if g.k == 0 then []
      else ChildGet(left, range, g.k - 1, 2 * g.x) + ChildGet(right, range, g.k - 1, 2 * g.x + 1)
  }

  /** One callback: the answer to outstanding get number i.  After a failure callbacks do
      nothing; a node that is not found fails the whole request. */
  function Serve(dht: Dht, range: Query, ps: nat, s: Pool, i: nat): Pool
    requires ps > 0 && i < |s.gets|
  {
    var rest := Without(s.gets, i);
    if !s.ok then s.(gets := rest)
    else match s.gets[i]
      case NodeGet(q, offset, k, x) =>
        if q !in dht then s.(gets := rest, ok := false)
        else s.(gets := rest + NextGets(dht[q], s.gets[i], range, ps))
      case PageGet(page, slot) =>
        if slot < |s.slots| then s.(gets := rest, slots := s.slots[slot := Key(page)], filled := s.filled + [slot])
        else s.(gets := rest, ok := false)
  }

  function NoSlots(n: nat): seq<Slot> {
    seq(n, i => Empty)
  }

  function Start(root: Query, level: nat, n: nat): Pool {
    Pool([NodeGet(root, 0, level, 0)], true, NoSlots(n), [])
  }

  /** Callbacks in the order that `order` picks them. */
  function ServeAll(dht: Dht, range: Query, ps: nat, s: Pool, order: seq<nat>): Pool
    requires ps > 0
    decreases |order|
  {
    if order == [] || order[0] >= |s.gets| then s
    else ServeAll(dht, range, ps, Serve(dht, range, ps, s, order[0]), order[1..])
  }

  // ---- Well-formed trees ----

  /** Every link below q lies at its own position; links may lead nowhere. */
  ghost predicate WellPlaced(ps: nat, dht: Dht, q: Query, k: nat, x: nat)
    decreases k
  {
    || HoleAt(ps, k, x, q)
    || (&& !IsHole(q) && SameRange(q, x * Size(ps, k), Size(ps, k))
        && (q in dht ==>
              match dht[q]
              case Leaf(_) => k == 0
              case Inner(left, right) =>
                k > 0 && WellPlaced(ps, dht, left, k - 1, 2 * x) && WellPlaced(ps, dht, right, k - 1, 2 * x + 1)))
  }

  predicate IsRange(range: Query, ps: nat, a: nat, b: nat) {
    a < b && range.offset == a * ps && range.size == (b - a) * ps
  }

  /** A request for pages a..b-1 of the tree below `root`. */
  datatype Request = Request(ps: nat, dht: Dht, root: Query, level: nat, range: Query, a: nat, b: nat)
  {
    ghost predicate Valid() {
      && ps > 0 && (forall q :: q in dht ==> q.id > 0)
      && WellPlaced(ps, dht, root, level, 0)
      && IsRange(range, ps, a, b) && Shift(b - 1, level) == 0
    }

    /** What the tree holds for page p. */
    function View(p: nat): Found {
      ReadTree(dht, root, level, p)
    }

    /** Every wanted page is found by walking the tree. */
    predicate AllFound() {
      forall p: nat :: a <= p < b ==> View(p).Page?
    }

    predicate Covers(g: Get, p: nat) {
      match g
      case NodeGet(q, offset, k, x) => Shift(p, k) == x
      case PageGet(page, slot) => p == a + slot
    }

    predicate Apart(g: Get, g': Get) {
      forall p: nat :: a <= p < b ==> !(Covers(g, p) && Covers(g', p))
    }

    ghost predicate GetOk(g: Get)
      requires Valid()
    {
      match g
      case NodeGet(q, offset, k, x) =>
        && Touches(a, b - 1, k, x) && WellPlaced(ps, dht, q, k, x) && offset == x * Size(ps, k)
        && forall p: nat :: a <= p < b && Shift(p, k) == x ==> ReadTree(dht, q, k, p) == View(p)
      case PageGet(page, slot) => a + slot < b && View(a + slot) == Page(page)
    }

    ghost predicate Outstanding(gets: seq<Get>, p: nat) {
      exists i :: 0 <= i < |gets| && Covers(gets[i], p)
    }

    /** No page is asked for twice. */
    ghost predicate Disjoint(gets: seq<Get>) {
      forall i, j :: 0 <= i < j < |gets| ==> Apart(gets[i], gets[j])
    }

    ghost predicate SlotOk(s: Pool, p: nat)
      requires a <= p < b == a + |s.slots|
    {
      && (s.slots[p - a] != Empty ==> View(p) == Page(s.slots[p - a].page) && !Outstanding(s.gets, p))
      && (s.slots[p - a] != Empty <==> (p - a) in s.filled)
      && (s.ok && View(p).Page? && s.slots[p - a] == Empty ==> Outstanding(s.gets, p))
    }

    ghost predicate PoolOk(s: Pool) {
      && Valid() && a + |s.slots| == b
      && (forall i :: 0 <= i < |s.gets| ==> GetOk(s.gets[i]))
      && Disjoint(s.gets)
      && (forall p: nat :: a <= p < b ==> SlotOk(s, p))
      && (forall i, j :: 0 <= i < j < |s.filled| ==> s.filled[i] != s.filled[j])
      && (forall i :: 0 <= i < |s.filled| ==> s.filled[i] < |s.slots|)
      && (AllFound() ==> s.ok)
    }

    /** The slots of a fully successful request. */
    function AllSlots(): seq<Slot>
      requires a <= b
    {
      seq(b - a, i requires 0 <= i => Key(KeyOf(View(a + i))))
    }
  }

  function KeyOf(found: Found): Query {
    match found
    case Page(key) => key
    case _ => NO_QUERY
  }

  // ---- One callback ----

  lemma StartOk(r: Request)
    requires r.Valid()
    ensures r.PoolOk(Start(r.root, r.level, r.b - r.a))
  {
    hide WellPlaced, ReadTree, Size;
    var s := Start(r.root, r.level, r.b - r.a);
    ShiftMonotone(r.a, r.b - 1, r.level);
    forall p: nat | r.a <= p < r.b ensures Shift(p, r.level) == 0 && r.SlotOk(s, p) {
      ShiftMonotone(p, r.b - 1, r.level);
      assert r.Covers(s.gets[0], p);
    }
  }

  /** Replacing a get by others that ask for less. */
  ghost predicate Narrows(r: Request, g: Get, more: seq<Get>) {
    && r.Disjoint(more)
    && (forall i, p: nat :: 0 <= i < |more| && r.a <= p < r.b && r.Covers(more[i], p) ==> r.Covers(g, p))
  }

  lemma WithoutAt(gets: seq<Get>, i: nat, j: nat)
    requires i < |gets| && j < |gets| - 1
    ensures |Without(gets, i)| == |gets| - 1 && Without(gets, i)[j] == gets[if j < i then j else j + 1]
  {
  }

  lemma ApartSwaps(r: Request, g: Get, g': Get)
    requires r.Apart(g, g')
    ensures r.Apart(g', g)
  {
  }

  lemma NarrowApart(r: Request, g: Get, more: seq<Get>, m: nat, g': Get)
    requires Narrows(r, g, more) && m < |more| && r.Apart(g', g)
    ensures r.Apart(g', more[m])
  {
    forall p: nat | r.a <= p < r.b ensures !(r.Covers(g', p) && r.Covers(more[m], p)) {
      if r.Covers(more[m], p) { assert r.Covers(g, p); }
    }
  }

  lemma NarrowDisjoint(r: Request, gets: seq<Get>, i: nat, more: seq<Get>)
    requires i < |gets| && r.Disjoint(gets) && Narrows(r, gets[i], more)
    ensures r.Disjoint(Without(gets, i) + more)
  {
    var all := Without(gets, i) + more;
    var n := |gets| - 1;
    forall j, l | 0 <= j < l < |all| ensures r.Apart(all[j], all[l]) {
      hide r.Apart;
      if l < n {
        WithoutAt(gets, i, j);
        WithoutAt(gets, i, l);
      } else if j < n {
        WithoutAt(gets, i, j);
        var j' := if j < i then j else j + 1;
        if i < j' { ApartSwaps(r, gets[i], gets[j']); }
        NarrowApart(r, gets[i], more, l - n, gets[j']);
      } else {
        assert all[j] == more[j - n] && all[l] == more[l - n];
      }
    }
  }

  /** Who is still asked for after a callback. */
  lemma NarrowOutstanding(r: Request, gets: seq<Get>, i: nat, more: seq<Get>, p: nat)
    requires i < |gets| && r.Disjoint(gets) && Narrows(r, gets[i], more) && r.a <= p < r.b
    ensures !r.Outstanding(gets, p) ==> !r.Outstanding(Without(gets, i) + more, p)
    ensures r.Outstanding(gets, p) && !r.Covers(gets[i], p) ==> r.Outstanding(Without(gets, i) + more, p)
    ensures r.Outstanding(more, p) ==> r.Outstanding(Without(gets, i) + more, p)
    ensures r.Covers(gets[i], p) && !r.Outstanding(more, p) ==> !r.Outstanding(Without(gets, i) + more, p)
  {
    hide r.Covers;
    var all, n := Without(gets, i) + more, |gets| - 1;
    forall j | 0 <= j < |all| && r.Covers(all[j], p)
      ensures r.Outstanding(gets, p) && (r.Covers(gets[i], p) ==> r.Outstanding(more, p))
    {
      if j < n {
        WithoutAt(gets, i, j);
        var j' := if j < i then j else j + 1;
        assert if i < j' then r.Apart(gets[i], gets[j']) else r.Apart(gets[j'], gets[i]);
      } else {
        assert all[j] == more[j - n];
      }
    }
    if r.Outstanding(more, p) {
      var m :| 0 <= m < |more| && r.Covers(more[m], p);
      assert all[n + m] == more[m];
    }
    if r.Outstanding(gets, p) && !r.Covers(gets[i], p) {
      var m :| 0 <= m < |gets| && r.Covers(gets[m], p);
      WithoutAt(gets, i, if m < i then m else m - 1);
      assert all[if m < i then m else m - 1] == gets[m];
    }
  }

  lemma WithoutOk(r: Request, gets: seq<Get>, i: nat, more: seq<Get>)
    requires r.Valid() && i < |gets| && forall j :: 0 <= j < |gets| ==> r.GetOk(gets[j])
    requires forall j :: 0 <= j < |more| ==> r.GetOk(more[j])
    ensures forall j :: 0 <= j < |Without(gets, i) + more| ==> r.GetOk((Without(gets, i) + more)[j])
  {
    hide r.GetOk, r.Valid;
    var all, n := Without(gets, i) + more, |gets| - 1;
    forall j | 0 <= j < |all| ensures r.GetOk(all[j]) {
      if j < n { WithoutAt(gets, i, j); } else { assert all[j] == more[j - n]; }
    }
  }

  /** A callback that only asks for more keeps the pool right. */
  lemma AskKeeps(r: Request, s: Pool, i: nat, more: seq<Get>)
    requires r.PoolOk(s) && i < |s.gets| && Narrows(r, s.gets[i], more)
    requires forall j :: 0 <= j < |more| ==> r.GetOk(more[j])
    requires forall p: nat :: r.a <= p < r.b && r.Covers(s.gets[i], p) && r.View(p).Page? ==> r.Outstanding(more, p)
    ensures r.PoolOk(s.(gets := Without(s.gets, i) + more))
  {
    hide r.GetOk, r.Covers, r.View, r.Valid, r.Disjoint, r.Outstanding;
    var s' := s.(gets := Without(s.gets, i) + more);
    WithoutOk(r, s.gets, i, more);
    NarrowDisjoint(r, s.gets, i, more);
    forall p: nat | r.a <= p < r.b ensures r.SlotOk(s', p) {
      assert r.SlotOk(s, p);
      NarrowOutstanding(r, s.gets, i, more, p);
    }
  }

  /** After a failure, dropping a get is harmless. */
  lemma DropKeeps(r: Request, s: Pool, i: nat)
    requires r.PoolOk(s) && i < |s.gets| && !r.AllFound()
    ensures r.PoolOk(s.(gets := Without(s.gets, i), ok := false))
  {
    hide r.GetOk, r.Covers, r.View, r.Valid, r.Disjoint, r.Outstanding, r.AllFound;
    var s' := s.(gets := Without(s.gets, i), ok := false);
    NarrowsNone(r, s.gets[i]);
    assert Without(s.gets, i) + [] == Without(s.gets, i);
    WithoutOk(r, s.gets, i, []);
    NarrowDisjoint(r, s.gets, i, []);
    forall p: nat | r.a <= p < r.b ensures r.SlotOk(s', p) {
      assert r.SlotOk(s, p);
      NarrowOutstanding(r, s.gets, i, [], p);
    }
  }

  lemma NarrowsNone(r: Request, g: Get)
    ensures Narrows(r, g, [])
  {
  }

  // ---- The callbacks on nodes ----

  lemma {:induction false} TouchedPage(k: nat, x: nat, a: nat, b: nat) returns (p: nat)
    requires a < b && Touches(a, b - 1, k, x)
    ensures a <= p < b && Shift(p, k) == x
  {
    if k == 0 {
      p := x;
    } else {
      TouchesChildren(a, b - 1, k, x);
      if Touches(a, b - 1, k - 1, 2 * x) {
        p := TouchedPage(k - 1, 2 * x, a, b);
      } else {
        p := TouchedPage(k - 1, 2 * x + 1, a, b);
      }
    }
  }

  /** A wanted page lies below a node that is not stored. */
  lemma MissingNode(r: Request, g: Get)
    requires r.Valid() && r.GetOk(g) && g.NodeGet? && g.q !in r.dht
    ensures !r.AllFound()
  {
    hide Shift, Size, WellPlaced;
    var p := TouchedPage(g.k, g.x, r.a, r.b);
    assert ReadTree(r.dht, g.q, g.k, p) == r.View(p);
  }

  lemma LeafIndex(ps: nat, x: nat, a: nat)
    requires ps > 0 && a <= x
    ensures x * ps >= a * ps && (x * ps - a * ps) / ps == x - a
  {
    Distribute(a, x - a, ps);
    DivExact(x - a, ps);
  }

  /** A leaf leads to the slot of its own page. */
  lemma LeafNext(r: Request, g: Get, page: Query)
    requires r.Valid() && r.GetOk(g) && g.NodeGet? && g.q in r.dht && r.dht[g.q] == Leaf(page)
    ensures g.k == 0 && r.a <= g.x < r.b
    ensures NextGets(r.dht[g.q], g, r.range, r.ps) == [PageGet(page, g.x - r.a)]
    ensures r.GetOk(PageGet(page, g.x - r.a))
  {
    LeafIndex(r.ps, g.x, r.a);
    assert ReadTree(r.dht, g.q, 0, g.x) == r.View(g.x);
  }

  /** A child's get is right if the child meets the range, and a child that does not meet it
      has no wanted page to offer. */
  lemma ChildNext(r: Request, g: Get, c: nat, child: Query)
    requires r.Valid() && r.GetOk(g) && g.NodeGet? && g.q in r.dht && r.dht[g.q].Inner?
    requires c / 2 == g.x && child == if c % 2 == 0 then r.dht[g.q].left else r.dht[g.q].right
    ensures g.k > 0
    ensures Intersects(child, r.range) ==> r.GetOk(NodeGet(child, child.offset, g.k - 1, c))
    ensures !Intersects(child, r.range) ==> forall p: nat :: r.a <= p < r.b && Shift(p, g.k - 1) == c ==> !r.View(p).Page?
  {
    hide Size, Intersects;
    ChildPlaced(r, g, c, child);
    var k := g.k - 1;
    forall p: nat | r.a <= p < r.b && Shift(p, k) == c ensures ReadTree(r.dht, child, k, p) == r.View(p) {
      ChildView(r, g, c, child, p);
    }
    if child == NO_QUERY {
      assert !Intersects(child, r.range) by { EmptyMeets(r.range); }
    } else {
      IntersectsIsTouches(r.ps, child, k, c, r.range, r.a, r.b - 1);
      forall p: nat | r.a <= p < r.b && Shift(p, k) == c ensures Touches(r.a, r.b - 1, k, c) {
        TouchesUp(r.a, r.b - 1, p, k);
      }
    }
  }

  lemma EmptyMeets(range: Query)
    ensures !Intersects(NO_QUERY, range)
  {
  }

  lemma ChildPlaced(r: Request, g: Get, c: nat, child: Query)
    requires r.Valid() && r.GetOk(g) && g.NodeGet? && g.q in r.dht && r.dht[g.q].Inner?
    requires c / 2 == g.x && child == if c % 2 == 0 then r.dht[g.q].left else r.dht[g.q].right
    ensures g.k > 0 && WellPlaced(r.ps, r.dht, child, g.k - 1, c)
    ensures child == NO_QUERY || SameRange(child, c * Size(r.ps, g.k - 1), Size(r.ps, g.k - 1))
  {
    hide Shift, ReadTree, Size;
  }

  lemma ChildView(r: Request, g: Get, c: nat, child: Query, p: nat)
    requires r.Valid() && r.GetOk(g) && g.NodeGet? && g.q in r.dht && r.dht[g.q].Inner? && g.k > 0
    requires c / 2 == g.x && child == if c % 2 == 0 then r.dht[g.q].left else r.dht[g.q].right
    requires r.a <= p < r.b && Shift(p, g.k - 1) == c
    ensures ReadTree(r.dht, child, g.k - 1, p) == r.View(p)
  {
    hide WellPlaced, Size;
    ShiftHalf(p, g.k - 1);
    assert ReadTree(r.dht, g.q, g.k, p) == r.View(p);
  }

  /** The two children's gets together stand for the parent's. */
  lemma InnerNext(r: Request, g: Get)
    requires r.Valid() && r.GetOk(g) && g.NodeGet? && g.q in r.dht && r.dht[g.q].Inner?
    ensures var more := NextGets(r.dht[g.q], g, r.range, r.ps);
            && Narrows(r, g, more)
            && (forall j :: 0 <= j < |more| ==> r.GetOk(more[j]))
            && forall p: nat :: r.a <= p < r.b && r.Covers(g, p) && r.View(p).Page? ==> r.Outstanding(more, p)
  {
    hide r.GetOk, Size, Intersects, ReadTree, WellPlaced;
    ChildNext(r, g, 2 * g.x, r.dht[g.q].left);
    ChildNext(r, g, 2 * g.x + 1, r.dht[g.q].right);
    var more := NextGets(r.dht[g.q], g, r.range, r.ps);
    forall p: nat | r.a <= p < r.b && r.Covers(g, p) && r.View(p).Page? ensures r.Outstanding(more, p) {
      ShiftHalf(p, g.k - 1);
      assert r.Covers(more[0], p) || (|more| == 2 && r.Covers(more[1], p));
    }
    forall j, p: nat | 0 <= j < |more| && r.a <= p < r.b && r.Covers(more[j], p) ensures r.Covers(g, p) {
      ShiftHalf(p, g.k - 1);
    }
  }

  /** Filling a slot retires the get for it. */
  lemma FillKeeps(r: Request, s: Pool, i: nat)
    requires r.PoolOk(s) && i < |s.gets| && s.gets[i].PageGet?
    ensures s.gets[i].slot < |s.slots| && s.gets[i].slot !in s.filled
    ensures var g := s.gets[i];
            r.PoolOk(s.(gets := Without(s.gets, i), slots := s.slots[g.slot := Key(g.page)], filled := s.filled + [g.slot]))
  {
    hide r.View, r.Valid, r.Disjoint, r.Outstanding, r.AllFound;
    var g := s.gets[i];
    assert r.GetOk(g) && r.Covers(g, r.a + g.slot);
    var s' := s.(gets := Without(s.gets, i), slots := s.slots[g.slot := Key(g.page)], filled := s.filled + [g.slot]);
    assert r.Outstanding(s.gets, r.a + g.slot) by { CoversOutstanding(r, s.gets, i, r.a + g.slot); }
    assert r.SlotOk(s, r.a + g.slot);
    NarrowsNone(r, g);
    assert Without(s.gets, i) + [] == Without(s.gets, i);
    hide r.GetOk;
    WithoutOk(r, s.gets, i, []);
    NarrowDisjoint(r, s.gets, i, []);
    forall p: nat | r.a <= p < r.b ensures r.SlotOk(s', p) {
      assert r.SlotOk(s, p);
      NarrowOutstanding(r, s.gets, i, [], p);
      NothingOutstanding(r, p);
      assert p == r.a + g.slot || p - r.a != g.slot;
    }
  }

  lemma CoversOutstanding(r: Request, gets: seq<Get>, i: nat, p: nat)
    requires i < |gets| && r.Covers(gets[i], p)
    ensures r.Outstanding(gets, p)
  {
  }

  lemma NothingOutstanding(r: Request, p: nat)
    ensures !r.Outstanding([], p)
  {
  }

  /** Every callback, whichever get is answered next, keeps: a slot only ever gets the key
      of its own page, no page is asked for twice or filled twice, and no wanted page that
      the tree has is forgotten. */
  lemma ServeKeeps(r: Request, s: Pool, i: nat)
    requires r.ps > 0 && r.PoolOk(s) && i < |s.gets|
    ensures r.PoolOk(Serve(r.dht, r.range, r.ps, s, i))
  {
    hide r.GetOk, r.Covers, r.View, r.Disjoint, r.Outstanding, r.AllFound, r.SlotOk, Narrows, NextGets;
    var g := s.gets[i];
    if !s.ok {
      DropKeeps(r, s, i);
    } else if g.PageGet? {
      FillKeeps(r, s, i);
    } else if g.q !in r.dht {
      MissingNode(r, g);
      DropKeeps(r, s, i);
    } else {
      NodeNext(r, g);
      AskKeeps(r, s, i, NextGets(r.dht[g.q], g, r.range, r.ps));
    }
  }

  lemma NodeNext(r: Request, g: Get)
    requires r.Valid() && r.GetOk(g) && g.NodeGet? && g.q in r.dht
    ensures var more := NextGets(r.dht[g.q], g, r.range, r.ps);
            && Narrows(r, g, more)
            && (forall j :: 0 <= j < |more| ==> r.GetOk(more[j]))
            && forall p: nat :: r.a <= p < r.b && r.Covers(g, p) && r.View(p).Page? ==> r.Outstanding(more, p)
  {
    hide r.GetOk, r.Valid, NextGets, Size, ReadTree;
    match r.dht[g.q]
    case Leaf(page) =>
      LeafNext(r, g, page);
      LeafNarrows(r, g, page);
    case Inner(left, right) => InnerNext(r, g);
  }

  lemma LeafNarrows(r: Request, g: Get, page: Query)
    requires g.NodeGet? && g.k == 0 && r.a <= g.x < r.b
    ensures Narrows(r, g, [PageGet(page, g.x - r.a)])
    ensures forall p: nat :: r.a <= p < r.b && r.Covers(g, p) ==> r.Outstanding([PageGet(page, g.x - r.a)], p)
  {
    var more := [PageGet(page, g.x - r.a)];
    forall p: nat | r.a <= p < r.b && r.Covers(g, p) ensures r.Outstanding(more, p) {
      assert r.Covers(more[0], p);
    }
  }

  // ---- Whole requests ----

  predicate Filled(slots: seq<Slot>) {
    forall j :: 0 <= j < |slots| ==> slots[j] != Empty
  }

  lemma {:induction false} ServeAllKeeps(r: Request, s: Pool, order: seq<nat>)
    requires r.ps > 0 && r.PoolOk(s)
    ensures r.PoolOk(ServeAll(r.dht, r.range, r.ps, s, order))
    decreases |order|
  {
    hide r.PoolOk, Serve;
    if order != [] && order[0] < |s.gets| {
      ServeKeeps(r, s, order[0]);
      ServeAllKeeps(r, Serve(r.dht, r.range, r.ps, s, order[0]), order[1..]);
    }
  }

  lemma FullSlot(r: Request, s: Pool, j: nat)
    requires r.PoolOk(s) && s.gets == [] && r.AllFound() && j < |s.slots|
    ensures s.slots[j] == r.AllSlots()[j] && j in s.filled
  {
    hide r.View, r.Valid, r.GetOk, r.Disjoint, r.Outstanding;
    var p := r.a + j;
    NothingOutstanding(r, p);
    assert r.View(p).Page?;
    assert r.SlotOk(s, p);
    assert p - r.a == j;
    assert !r.Outstanding(s.gets, p);
    assert s.slots[j] != Empty;
    assert r.AllSlots()[j] == Key(KeyOf(r.View(r.a + j)));
  }

  /** What a request has come to once no get is outstanding. */
  lemma FinishedPool(r: Request, s: Pool)
    requires r.PoolOk(s) && s.gets == []
    ensures s.ok && Filled(s.slots) <==> r.AllFound()
    ensures r.AllFound() ==> s.slots == r.AllSlots() && EachOnce(s.filled, |s.slots|)
  {
    hide r.View, r.Valid;
    forall p: nat | r.a <= p < r.b ensures r.SlotOk(s, p) && !r.Outstanding(s.gets, p) {
      NothingOutstanding(r, p);
    }
    if s.ok && Filled(s.slots) {
      forall p: nat | r.a <= p < r.b ensures r.View(p).Page? {
        assert r.SlotOk(s, p) && s.slots[p - r.a] != Empty;
      }
    }
    if r.AllFound() {
      forall j: nat | j < |s.slots| ensures s.slots[j] == r.AllSlots()[j] && j in s.filled {
        FullSlot(r, s, j);
      }
    }
  }

  /** Each of the slots 0..n-1 was written, and none twice. */
  ghost predicate EachOnce(filled: seq<nat>, n: nat) {
    && (forall i, j :: 0 <= i < j < |filled| ==> filled[i] != filled[j])
    && (forall i :: 0 <= i < |filled| ==> filled[i] < n)
    && (forall j: nat :: j < n ==> j in filled)
  }

  /** The main result: in whatever order the gets are answered, a finished request has
      succeeded exactly when every wanted page is found by walking the tree, and then every
      slot was filled exactly once, with the key of its own page. */
  lemma AnyOrderSucceedsIff(r: Request, order: seq<nat>)
    requires r.Valid()
    requires ServeAll(r.dht, r.range, r.ps, Start(r.root, r.level, r.b - r.a), order).gets == []
    ensures var s := ServeAll(r.dht, r.range, r.ps, Start(r.root, r.level, r.b - r.a), order);
            && (s.ok && Filled(s.slots) <==> r.AllFound())
            && (r.AllFound() ==> s.slots == r.AllSlots() && EachOnce(s.filled, r.b - r.a))
  {
    hide r.PoolOk, r.AllFound, r.AllSlots, ServeAll, Start;
    StartOk(r);
    var s := Start(r.root, r.level, r.b - r.a);
    ServeAllKeeps(r, s, order);
    PoolSize(r, ServeAll(r.dht, r.range, r.ps, s, order));
    FinishedPool(r, ServeAll(r.dht, r.range, r.ps, s, order));
  }

  lemma PoolSize(r: Request, s: Pool)
    requires r.PoolOk(s)
    ensures |s.slots| == r.b - r.a
  {
  }

  // ---- Termination ----

  function NodeWeight(k: nat): (w: nat)
    ensures w >= 2
  {
    if k == 0 then 2 else 2 * NodeWeight(k - 1) + 1
  }

  function Weight(g: Get): nat {
    match g
    case NodeGet(q, offset, k, x) => NodeWeight(k)
    case PageGet(page, slot) => 1
  }

  function TotalWeight(gets: seq<Get>): nat {
    if gets == [] then 0 else Weight(gets[0]) + TotalWeight(gets[1..])
  }

  lemma {:induction false} TotalWeightConcat(a: seq<Get>, b: seq<Get>)
    ensures TotalWeight(a + b) == TotalWeight(a) + TotalWeight(b)
  {
    if a == [] {
      assert a + b == b;
    } else {
      assert (a + b)[1..] == a[1..] + b;
      TotalWeightConcat(a[1..], b);
    }
  }

  lemma NextWeighsLess(node: DhtNode, g: Get, range: Query, ps: nat)
    requires ps > 0 && g.NodeGet?
    ensures TotalWeight(NextGets(node, g, range, ps)) < Weight(g)
  {
    match node
    case Leaf(page) =>
      var gets := NextGets(node, g, range, ps);
      if gets != [] { assert gets[1..] == []; }
    case Inner(left, right) =>
      if g.k > 0 {
        TotalWeightConcat(ChildGet(left, range, g.k - 1, 2 * g.x), ChildGet(right, range, g.k - 1, 2 * g.x + 1));
        ChildWeight(left, range, g.k - 1, 2 * g.x);
        ChildWeight(right, range, g.k - 1, 2 * g.x + 1);
      }
  }

  lemma ChildWeight(child: Query, range: Query, k: nat, x: nat)
    ensures TotalWeight(ChildGet(child, range, k, x)) <= NodeWeight(k)
  {
    var gets := ChildGet(child, range, k, x);
    if gets != [] { assert gets[1..] == []; }
  }

  /** Every callback brings the request closer to its end. */
  lemma ServeWeighsLess(dht: Dht, range: Query, ps: nat, s: Pool, i: nat)
    requires ps > 0 && i < |s.gets|
    ensures TotalWeight(Serve(dht, range, ps, s, i).gets) < TotalWeight(s.gets)
  {
    hide NextGets, Weight;
    var g, rest := s.gets[i], Without(s.gets, i);
    assert s.gets == s.gets[..i] + ([g] + s.gets[i + 1..]);
    TotalWeightConcat(s.gets[..i], [g] + s.gets[i + 1..]);
    TotalWeightConcat([g], s.gets[i + 1..]);
    TotalWeightConcat(s.gets[..i], s.gets[i + 1..]);
    OneWeight(g);
    if g.NodeGet? && g.q in dht {
      NextWeighsLess(dht[g.q], g, range, ps);
      TotalWeightConcat(rest, NextGets(dht[g.q], g, range, ps));
    }
  }

  lemma OneWeight(g: Get)
    ensures TotalWeight([g]) == Weight(g) > 0
  {
    assert [g][1..] == [];
  }

  /** readRecordLocations: gets are answered in an order that nothing here chooses.  The
      caller treats an unfilled slot as a failure, like a false result. */
  method ReadRecordLocations(r: Request, leaves: array<Slot>) returns (result: bool)
    requires r.Valid() && leaves.Length == r.b - r.a && forall i :: 0 <= i < leaves.Length ==> leaves[i] == Empty
    modifies leaves
    ensures (result && forall i :: 0 <= i < leaves.Length ==> leaves[i] != Empty) <==> r.AllFound()
    ensures r.AllFound() ==> leaves[..] == r.AllSlots()
  {
    hide r.PoolOk, r.AllFound, r.AllSlots, Serve;
    StartOk(r);
    var pool := Start(r.root, r.level, r.b - r.a);
    PoolSize(r, pool);
    while pool.gets != []
      invariant r.PoolOk(pool) && leaves.Length == |pool.slots| && leaves[..] == pool.slots
      decreases TotalWeight(pool.gets)
    {
      var i: nat :| i < |pool.gets|;
      ServeKeeps(r, pool, i);
      ServeWeighsLess(r.dht, r.range, r.ps, pool, i);
      PoolSize(r, pool);
      pool := Callback(r, pool, i, leaves);
    }
    FinishedPool(r, pool);
    assert forall i :: 0 <= i < leaves.Length ==> leaves[i] == leaves[..][i];
    result := pool.ok;
  }

  /** read_callback and leaf_callback, writing into the shared vector of slots. */
  method Callback(r: Request, pool: Pool, i: nat, leaves: array<Slot>) returns (next: Pool)
    requires r.ps > 0 && i < |pool.gets| && leaves[..] == pool.slots
    modifies leaves
    ensures next == Serve(r.dht, r.range, r.ps, pool, i) && leaves[..] == next.slots
  {
    var rest := Without(pool.gets, i);
    if !pool.ok {
      return pool.(gets := rest);
    }
    match pool.gets[i]
    case NodeGet(q, offset, k, x) =>
      if q !in r.dht {
        return pool.(gets := rest, ok := false);
      }
      var more := [];
      match r.dht[q] {
        case Leaf(page) =>
          if r.range.offset <= offset { more := [PageGet(page, (offset - r.range.offset) / r.ps)]; }
        case Inner(left, right) =>
          if k > 0 && Intersects(left, r.range) { more := more + [NodeGet(left, left.offset, k - 1, 2 * x)]; }
          if k > 0 && Intersects(right, r.range) { more := more + [NodeGet(right, right.offset, k - 1, 2 * x + 1)]; }
      }
      return pool.(gets := rest + more);
    case PageGet(page, slot) =>
      if slot >= leaves.Length {
        return pool.(gets := rest, ok := false);
      }
      leaves[slot] := Key(page);
      return pool.(gets := rest, slots := pool.slots[slot := Key(page)], filled := pool.filled + [slot]);
  }
}
