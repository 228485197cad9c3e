/** What every step of the protocol keeps. */
module ProtocolInvariant {
  import opened Metadata
  import opened Dyadic
  import opened History
  import opened Siblings
  import opened Descent
  import opened Weave
  import opened Shape
  import opened VersionManager
  import opened Protocol

  // ---- Per blob: the version manager agrees with the log ----

  predicate RootSane(ps: nat, r: Root)
    requires ps > 0
  {
    r.pageSize == ps && r.currentSize % ps == 0 && r.currentSize <= r.node.size
  }

  /** Root number i is the root of the first base + i writes. */
  ghost predicate RootsOk(o: ObjInfo, h: Log, b: nat)
    requires o.roots != [] && Ps(o) > 0 && b <= |h|
  {
    && |AllRoots(o)| == |h| - b + 1
    && forall i :: 0 <= i < |AllRoots(o)| ==>
         RootSane(Ps(o), AllRoots(o)[i]) && StableRoot(Ps(o), h[..b + i], AllRoots(o)[i].node)
  }

  /** The queue holds the unpublished writes of the log. */
  ghost predicate QueueOk(o: ObjInfo, h: Log, b: nat)
    requires o.roots != []
  {
    && Published(o, b) + |o.intervals| == |h|
    && Intervals(Ps(o), Queries(o.intervals), h[Published(o, b)..])
  }

  predicate OwnOk(id: nat, h: Log, b: nat) {
    forall i :: b <= i < |h| ==> h[i].id == id && h[i].version == i - b + 1
  }

  predicate SizesOk(o: ObjInfo, h: Log)
    requires o.roots != [] && Ps(o) > 0
  {
    && (o.maxSize == Size(Ps(o), RootLevel(h)) || (h == [] && o.maxSize == 0))
    && o.progressSize % Ps(o) == 0 && o.progressSize <= o.maxSize
  }

  ghost predicate BlobOk(id: nat, o: ObjInfo, h: Log, b: nat) {
    && id > 0 && ObjValid(o) && Ps(o) > 0
    && b <= |h| && o.currentTicket == |h| - b + 1
    && WellFormed(h)
    && SizesOk(o, h) && RootsOk(o, h, b) && QueueOk(o, h, b) && OwnOk(id, h, b)
  }

  /** The trees of published versions are stored, and so are those of versions that wait
      behind an older write. */
  ghost predicate TreeOk(ps: nat, dht: Dht, o: ObjInfo, h: Log, b: nat) {
    && o.roots != [] && Published(o, b) + |o.intervals| == |h|
    && AllShaped(ps, dht, h[..Published(o, b)], false)
    && forall i :: 0 <= i < |o.intervals| && o.intervals[i].done ==> Shaped(ps, dht, h[..Published(o, b) + i + 1], false)
  }

  // ---- Per writer ----

  /** Finishing the walk from here gives the list that weaving needs. */
  ghost predicate SideOk(ps: nat, dht: Dht, h: Log, n: nat, stable: Query, isLeft: bool, side: Side)
    requires n < |h|
  {
    var t := Edge(Own(h), isLeft);
    match side.cursor
    case Idle => side.siblings == FinalList(ps, dht, h, n, stable, isLeft)
    case Fetch(q) =>
      && n > 0
      && Descend(dht, isLeft, LeafOf(ps, Own(h), t), side.siblings, q) == FinalList(ps, dht, h, n, stable, isLeft)
      && exists k: nat :: WalkAt(ps, h[..n], t, k, q, false)
  }

  /** What a writer planned for position (k, x), in terms of what it was told. */
  function Planned(ps: nat, dht: Dht, h: Log, n: nat, stable: Query, k: nat, x: nat): DhtNode
    requires n < |h| && Touch(Own(h), k, x)
  {
    PlanNode(ps, Own(h), LeftList(ps, dht, h, n, stable), RightList(ps, dht, h, n, stable), k, x)
  }

  ghost predicate StoredAt(ps: nat, dht: Dht, h: Log, n: nat, stable: Query, k: nat, x: nat)
    requires n < |h| && Touch(Own(h), k, x)
  {
    NodeKey(ps, Own(h), k, x) in dht && dht[NodeKey(ps, Own(h), k, x)] == Planned(ps, dht, h, n, stable, k, x)
  }

  /** What a writer has stored is what it planned. */
  ghost predicate StoredOk(ps: nat, dht: Dht, wr: Writer)
    requires wr.published < |wr.log|
  {
    forall k: nat, x: nat ::
      k <= Own(wr.log).level && Touch(Own(wr.log), k, x) && NodeKey(ps, Own(wr.log), k, x) in wr.stored
      ==> StoredAt(ps, dht, wr.log, wr.published, wr.stable, k, x)
  }

  ghost predicate OwnNode(ps: nat, w: Write, q: Query) {
    exists k: nat, x: nat :: k <= w.level && q == NodeKey(ps, w, k, x)
  }

  /** A writer stores only nodes of its own, none larger than its root. */
  ghost predicate KeysOk(ps: nat, wr: Writer) {
    wr.log != [] && forall q :: q in wr.stored ==> OwnNode(ps, Own(wr.log), q)
  }

  /** The writer's ticket, in terms of the blob's log. */
  ghost predicate TicketOk(ps: nat, o: ObjInfo, h: Log, b: nat, v: nat, wr: Writer) {
    && o.roots != [] && 1 <= v && b + v <= |h| && wr.log == h[..b + v]
    && wr.published < b + v && wr.published <= Published(o, b)
    && StableRoot(ps, h[..wr.published], wr.stable)
  }

  ghost predicate WriterOk(ps: nat, dht: Dht, o: ObjInfo, h: Log, b: nat, v: nat, wr: Writer) {
    && TicketOk(ps, o, h, b, v, wr)
    && SideOk(ps, dht, wr.log, wr.published, wr.stable, true, wr.left)
    && SideOk(ps, dht, wr.log, wr.published, wr.stable, false, wr.right)
    && StoredOk(ps, dht, wr)
  }

  // ---- Global ----

  /** Every node was put by the writer whose key it carries. */
  ghost predicate DhtOk(dht: Dht, writers: map<(nat, nat), Writer>) {
    forall q :: q in dht ==> q.id > 0 && (q.id, q.version) in writers && q in writers[(q.id, q.version)].stored
  }

  /** Every granted write has its pages in the store. */
  ghost predicate PageOk(ps: nat, w: Write, data: map<(nat, nat), seq<Content>>, pages: map<Query, Content>) {
    && w.first <= w.last
    && (w.id, w.version) in data && |data[(w.id, w.version)]| == w.last - w.first + 1 && Sized(data[(w.id, w.version)], ps)
    && forall p: nat :: w.first <= p <= w.last ==>
         PageKey(ps, w, p) in pages && pages[PageKey(ps, w, p)] == data[(w.id, w.version)][p - w.first]
  }

  ghost predicate PagesOk(ps: nat, h: Log, data: map<(nat, nat), seq<Content>>, pages: map<Query, Content>) {
    forall i :: 0 <= i < |h| ==> PageOk(ps, h[i], data, pages)
  }

  /** Write number i of blob id was granted to a writer that saw the same log so far; for
      an inherited write that is a writer of another blob, with the same page size. */
  ghost predicate Origin(s: State, id: nat, i: nat) {
    && id in s.objs && s.objs[id].roots != [] && id in s.logs && i < |s.logs[id]|
    && var h := s.logs[id];
    && (h[i].id, h[i].version) in s.writers && s.writers[(h[i].id, h[i].version)].log == h[..i + 1]
    && h[i].id in s.objs && s.objs[h[i].id].roots != [] && Ps(s.objs[h[i].id]) == Ps(s.objs[id])
  }

  ghost predicate OriginsOk(s: State, id: nat) {
    && id in s.logs
    && forall i: nat :: i < |s.logs[id]| ==> Origin(s, id, i)
  }

  ghost predicate KeysInv(s: State, w: (nat, nat)) {
    && w in s.writers && w.0 in s.objs && s.objs[w.0].roots != []
    && KeysOk(Ps(s.objs[w.0]), s.writers[w])
  }

  ghost predicate BlobInv(s: State, id: nat) {
    && id in s.objs && id in s.logs && id in s.bases && id <= s.count
    && var o, h, b := s.objs[id], s.logs[id], s.bases[id];
    && BlobOk(id, o, h, b)
    && TreeOk(Ps(o), s.dht, o, h, b)
    && PagesOk(Ps(o), h, s.data, s.pages)
  }

  ghost predicate WriterInv(s: State, w: (nat, nat)) {
    && w in s.writers && w.0 in s.objs && w.0 in s.logs && w.0 in s.bases
    && var o := s.objs[w.0];
    && o.roots != [] && WriterOk(Ps(o), s.dht, o, s.logs[w.0], s.bases[w.0], w.1, s.writers[w])
  }

  ghost predicate Inv(s: State) {
    && Tables(s)
    && (forall id :: id in s.objs ==> BlobInv(s, id))
    && (forall w :: w in s.writers ==> WriterInv(s, w))
    && (forall id :: id in s.objs ==> OriginsOk(s, id))
    && (forall w :: w in s.writers ==> KeysInv(s, w))
    && DhtOk(s.dht, s.writers)
    && (forall d :: d in s.data ==> d in s.writers)
  }

  // ---- Nothing is stored above a root ----

  lemma OwnNodeLevel(ps: nat, w: Write, k: nat, x: nat)
    requires ps > 0 && OwnNode(ps, w, NodeKey(ps, w, k, x))
    ensures k <= w.level
  {
    var j: nat, y: nat :| j <= w.level && NodeKey(ps, w, k, x) == NodeKey(ps, w, j, y);
    RangeIsPosition(ps, k, x, j, y);
  }

  lemma NothingAbove(s: State, id: nat)
    requires id in s.objs && s.objs[id].roots != [] && Ps(s.objs[id]) > 0 && OriginsOk(s, id)
    requires DhtOk(s.dht, s.writers) && forall w :: w in s.writers ==> KeysInv(s, w)
    ensures NoneAboveRoot(Ps(s.objs[id]), s.dht, s.logs[id])
  {
    hide NodeKey, OwnNode;
    var h, ps := s.logs[id], Ps(s.objs[id]);
    forall i: nat, k: nat, x: nat | i < |h| && h[i].level < k ensures NodeKey(ps, h[i], k, x) !in s.dht {
      NothingAboveAt(s, id, i, k, x);
    }
  }

  lemma NothingAboveAt(s: State, id: nat, i: nat, k: nat, x: nat)
    requires id in s.objs && s.objs[id].roots != [] && Ps(s.objs[id]) > 0 && OriginsOk(s, id)
    requires DhtOk(s.dht, s.writers) && forall w :: w in s.writers ==> KeysInv(s, w)
    requires i < |s.logs[id]| && s.logs[id][i].level < k
    ensures NodeKey(Ps(s.objs[id]), s.logs[id][i], k, x) !in s.dht
  {
    hide OwnNode, Size, Shift;
    var h, ps := s.logs[id], Ps(s.objs[id]);
    var q := NodeKey(ps, h[i], k, x);
    if q in s.dht {
      assert Origin(s, id, i) && KeysInv(s, (h[i].id, h[i].version));
      OwnNodeLevel(ps, h[i], k, x);
    }
  }

  // ---- Growth of the DHT ----

  lemma TreeGrows(ps: nat, dht: Dht, dht': Dht, o: ObjInfo, h: Log, b: nat)
    requires TreeOk(ps, dht, o, h, b) && Extends(dht, dht')
    ensures TreeOk(ps, dht', o, h, b)
  {
    hide Shaped, AllShaped;
    AllShapedGrows(ps, dht, dht', h[..Published(o, b)], false);
    forall i | 0 <= i < |o.intervals| && o.intervals[i].done ensures Shaped(ps, dht', h[..Published(o, b) + i + 1], false) {
      ShapedGrows(ps, dht, dht', h[..Published(o, b) + i + 1], false);
    }
  }

  /** What a writer may rely on: the published trees it was told of. */
  lemma WriterTicketed(ps: nat, dht: Dht, o: ObjInfo, h: Log, b: nat, v: nat, wr: Writer)
    requires TicketOk(ps, o, h, b, v, wr) && TreeOk(ps, dht, o, h, b)
    requires ps > 0 && WellFormed(h) && NoneAboveRoot(ps, dht, h) && HasIds(dht)
    ensures Ticketed(ps, dht, wr.log, wr.published, wr.stable, false)
  {
    hide Shift, AllShaped, Shaped, NoneAboveRoot, StableRoot;
    var n := wr.published;
    PrefixFacts(h, b + v);
    PrefixFacts(h, n);
    assert wr.log[..n] == h[..n];
    AllShapedPrefix(ps, dht, h[..Published(o, b)], n, false);
    assert h[..Published(o, b)][..n] == h[..n];
    NoneAbovePrefix(ps, dht, h, n);
  }

  lemma SideGrows(ps: nat, dht: Dht, dht': Dht, h: Log, n: nat, stable: Query, isLeft: bool, side: Side)
    requires Ticketed(ps, dht, h, n, stable, false) && SideOk(ps, dht, h, n, stable, isLeft, side)
    requires Extends(dht, dht') && HasIds(dht') && NoneAboveRoot(ps, dht', h[..n])
    ensures SideOk(ps, dht', h, n, stable, isLeft, side)
  {
    hide Shift, Size, StableShape, NoneAboveRoot, WalkAt, FinalList, Descend;
    FinalListGrows(ps, dht, dht', h, n, stable, isLeft);
    if side.cursor.Fetch? {
      var t := Edge(Own(h), isLeft);
      var k: nat :| WalkAt(ps, h[..n], t, k, side.cursor.node, false);
      LeafRange(ps, Own(h), t);
      DescendGrows(ps, dht, dht', h[..n], isLeft, t, LeafOf(ps, Own(h), t), side.siblings, k, side.cursor.node);
    }
  }

  /** Plans do not change either. */
  lemma PlannedGrows(ps: nat, dht: Dht, dht': Dht, h: Log, n: nat, stable: Query)
    requires Ticketed(ps, dht, h, n, stable, false)
    requires Extends(dht, dht') && HasIds(dht') && NoneAboveRoot(ps, dht', h[..n])
    ensures LeftList(ps, dht', h, n, stable) == LeftList(ps, dht, h, n, stable)
    ensures RightList(ps, dht', h, n, stable) == RightList(ps, dht, h, n, stable)
  {
    hide StableShape, NoneAboveRoot, LeftList, RightList;
    FinalListGrows(ps, dht, dht', h, n, stable, true);
    FinalListGrows(ps, dht, dht', h, n, stable, false);
  }

  lemma StoredGrows(ps: nat, dht: Dht, dht': Dht, wr: Writer)
    requires Ticketed(ps, dht, wr.log, wr.published, wr.stable, false) && StoredOk(ps, dht, wr)
    requires Extends(dht, dht') && HasIds(dht') && NoneAboveRoot(ps, dht', wr.log[..wr.published])
    ensures StoredOk(ps, dht', wr)
  {
    hide StableShape, NoneAboveRoot, LeftList, RightList, PlanNode, NodeKey, Touch;
    PlannedGrows(ps, dht, dht', wr.log, wr.published, wr.stable);
    forall k: nat, x: nat |
      k <= Own(wr.log).level && Touch(Own(wr.log), k, x) && NodeKey(ps, Own(wr.log), k, x) in wr.stored
      ensures StoredAt(ps, dht', wr.log, wr.published, wr.stable, k, x)
    {
      assert StoredAt(ps, dht, wr.log, wr.published, wr.stable, k, x);
    }
  }

  lemma WriterGrows(ps: nat, dht: Dht, dht': Dht, o: ObjInfo, h: Log, b: nat, v: nat, wr: Writer)
    requires WriterOk(ps, dht, o, h, b, v, wr) && TreeOk(ps, dht, o, h, b)
    requires ps > 0 && WellFormed(h) && NoneAboveRoot(ps, dht, h) && HasIds(dht)
    requires Extends(dht, dht') && HasIds(dht') && NoneAboveRoot(ps, dht', h)
    ensures WriterOk(ps, dht', o, h, b, v, wr)
  {
    hide SideOk, StoredOk, NoneAboveRoot, TreeOk, WellFormed, StableRoot;
    var n := wr.published;
    assert wr.log[..n] == h[..n];
    WriterTicketed(ps, dht, o, h, b, v, wr);
    NoneAbovePrefix(ps, dht', h, n);
    SideGrows(ps, dht, dht', wr.log, n, wr.stable, true, wr.left);
    SideGrows(ps, dht, dht', wr.log, n, wr.stable, false, wr.right);
    StoredGrows(ps, dht, dht', wr);
  }
}
