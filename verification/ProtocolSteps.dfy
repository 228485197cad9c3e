/** The invariant holds initially and is kept by every step. */
module ProtocolSteps {
  import opened Metadata
  import opened Dyadic
  import opened History
  import opened Siblings
  import opened Descent
  import opened Weave
  import opened Shape
  import opened VersionManager
  import opened VersionService
  import opened Protocol
  import opened ProtocolInvariant

  lemma InitInv()
    ensures Inv(INIT)
  {
  }

  lemma BlobTables(id: nat, o: ObjInfo, h: Log, b: nat)
    requires BlobOk(id, o, h, b)
    ensures o.roots != [] && Published(o, b) <= |h| && Ps(o) > 0
  {
  }

  lemma DhtFrame(dht: Dht, writers: map<(nat, nat), Writer>, writers': map<(nat, nat), Writer>)
    requires DhtOk(dht, writers)
    requires forall w :: w in writers ==> w in writers' && writers[w].stored <= writers'[w].stored
    ensures DhtOk(dht, writers')
  {
  }

  lemma DhtIds(dht: Dht, writers: map<(nat, nat), Writer>)
    requires DhtOk(dht, writers)
    ensures HasIds(dht)
  {
  }

  lemma BlobFrame(s: State, s': State, id: nat)
    requires Inv(s) && id in s.objs
    requires id in s'.objs && s'.objs[id] == s.objs[id] && id in s'.logs && s'.logs[id] == s.logs[id]
    requires id in s'.bases && s'.bases[id] == s.bases[id] && s'.count >= s.count
    requires s'.dht == s.dht && s'.data == s.data && s'.pages == s.pages
    ensures BlobInv(s', id)
  {
    hide BlobOk, TreeOk, PagesOk, WriterInv, DhtOk;
    assert BlobInv(s, id);
  }

  lemma WriterFrame(s: State, s': State, w: (nat, nat))
    requires Inv(s) && w in s.writers && w in s'.writers && s'.writers[w] == s.writers[w] && s'.dht == s.dht
    requires w.0 in s'.objs && s'.objs[w.0] == s.objs[w.0] && w.0 in s'.logs && s'.logs[w.0] == s.logs[w.0]
    requires w.0 in s'.bases && s'.bases[w.0] == s.bases[w.0]
    ensures WriterInv(s', w)
  {
    hide BlobInv, WriterOk, DhtOk;
    assert WriterInv(s, w);
  }

  /** Blobs keep their page size and writers their log. */
  ghost predicate Carries(s: State, s': State) {
    && (forall id :: id in s.objs ==> SamePs(s, s', id))
    && (forall w :: w in s.writers ==> w in s'.writers && s'.writers[w].log == s.writers[w].log)
  }

  ghost predicate SamePs(s: State, s': State, id: nat) {
    && id in s.objs && id in s'.objs && s.objs[id].roots != [] && s'.objs[id].roots != []
    && Ps(s'.objs[id]) == Ps(s.objs[id])
  }

  lemma OriginsFrame(s: State, s': State, id: nat)
    requires OriginsOk(s, id) && Carries(s, s') && id in s'.logs && s'.logs[id] == s.logs[id]
    ensures OriginsOk(s', id)
  {
    forall i: nat | i < |s'.logs[id]| ensures Origin(s', id, i) {
      assert Origin(s, id, i);
      assert SamePs(s, s', id) && SamePs(s, s', s.logs[id][i].id);
    }
  }

  lemma KeysFrame(s: State, s': State, w: (nat, nat))
    requires KeysInv(s, w) && Carries(s, s') && w in s'.writers && s'.writers[w].stored == s.writers[w].stored
    ensures KeysInv(s', w)
  {
    hide OwnNode;
    assert SamePs(s, s', w.0);
  }

  // ---- Create and Clone ----

  /** Adding a blob under a new id disturbs nobody. */
  lemma AddBlobInv(s: State, s': State, id: nat)
    requires Inv(s) && id !in s.objs && id in s'.objs && id in s'.logs && id in s'.bases
    requires s'.objs == s.objs[id := s'.objs[id]] && s'.logs == s.logs[id := s'.logs[id]]
    requires s'.bases == s.bases[id := s'.bases[id]] && s'.count >= s.count
    requires s'.dht == s.dht && s'.writers == s.writers && s'.data == s.data && s'.pages == s.pages
    requires BlobInv(s', id) && OriginsOk(s', id)
    ensures Inv(s')
  {
    hide BlobInv, WriterInv, DhtOk, OriginsOk, KeysInv;
    AddedTables(s', id);
    AddedOrigins(s, s', id);
    forall i | i in s'.objs ensures BlobInv(s', i) {
      if i != id { BlobFrame(s, s', i); }
    }
    forall w | w in s'.writers ensures WriterInv(s', w) {
      WriterFrame(s, s', w);
    }
  }

  lemma AddedOrigins(s: State, s': State, id: nat)
    requires Inv(s) && id !in s.objs && id in s'.objs && s'.objs == s.objs[id := s'.objs[id]] && s'.writers == s.writers
    requires id in s'.logs && s'.logs == s.logs[id := s'.logs[id]] && OriginsOk(s', id)
    ensures forall i :: i in s'.objs ==> OriginsOk(s', i)
    ensures forall w :: w in s'.writers ==> KeysInv(s', w)
  {
    hide BlobInv, WriterInv, DhtOk, OriginsOk, KeysInv, Carries;
    AddedCarries(s, s', id);
    forall i | i in s'.objs ensures OriginsOk(s', i) {
      if i != id { OriginsFrame(s, s', i); }
    }
    forall w | w in s'.writers ensures KeysInv(s', w) {
      KeysFrame(s, s', w);
    }
  }

  lemma AddedTables(s: State, id: nat)
    requires id in s.objs && id in s.logs && id in s.bases && BlobInv(s, id)
    ensures s.objs[id].roots != [] && Published(s.objs[id], s.bases[id]) <= |s.logs[id]|
  {
    hide TreeOk, PagesOk;
  }

  lemma FreshId(s: State)
    requires Inv(s)
    ensures s.count + 1 !in s.objs
  {
    hide BlobOk, TreeOk, PagesOk, WriterOk, DhtOk;
    assert forall id :: id in s.objs ==> BlobInv(s, id) && id <= s.count;
  }

  lemma CreateOk(id: nat, ps: nat, rc: nat, dht: Dht, data: map<(nat, nat), seq<Content>>, pages: map<Query, Content>)
    requires id > 0 && ps > 0
    ensures BlobOk(id, NewObj(id, ps, rc), [], 0)
    ensures TreeOk(ps, dht, NewObj(id, ps, rc), [], 0) && PagesOk(ps, [], data, pages)
  {
    assert AllRoots(NewObj(id, ps, rc)) == NewObj(id, ps, rc).roots;
  }

  lemma CreateInv(s: State, ps: nat, rc: nat)
    requires Inv(s) && Enabled(s, Create(ps, rc))
    ensures Inv(Next(s, Create(ps, rc)))
  {
    hide BlobOk, TreeOk, PagesOk, WriterInv, DhtOk;
    var s', id := Next(s, Create(ps, rc)), s.count + 1;
    FreshId(s);
    CreateOk(id, ps, rc, s.dht, s.data, s.pages);
    AddBlobInv(s, s', id);
  }

  lemma CloneOk(o: ObjInfo, h: Log, b: nat, src: nat, id: nat, i: nat)
    requires BlobOk(src, o, h, b) && id > 0 && i < |o.roots|
    ensures b + i <= |h| && BlobOk(id, CloneObj(o.roots[i]), h[..b + i], b + i)
    ensures Ps(CloneObj(o.roots[i])) == Ps(o)
  {
    hide Shift, Size, IntervalOf;
    var g, c := h[..b + i], CloneObj(o.roots[i]);
    PrefixFacts(h, b + i);
    assert AllRoots(o)[i] == o.roots[i];
    assert AllRoots(o)[0] == o.roots[0];
    assert AllRoots(c) == c.roots;
    assert g[..b + i] == g;
  }

  lemma CloneTree(ps: nat, dht: Dht, o: ObjInfo, h: Log, b: nat, i: nat)
    requires TreeOk(ps, dht, o, h, b) && i < |o.roots|
    ensures b + i <= |h| && TreeOk(ps, dht, CloneObj(o.roots[i]), h[..b + i], b + i)
  {
    hide Shaped, AllShaped;
    AllShapedPrefix(ps, dht, h[..Published(o, b)], b + i, false);
    assert h[..Published(o, b)][..b + i] == h[..b + i];
    assert h[..b + i][..b + i] == h[..b + i];
  }

  lemma CloneBlob(s: State, source: nat, version: nat)
    requires Inv(s) && Enabled(s, Clone(source, version))
    ensures var s' := Next(s, Clone(source, version));
            BlobInv(s', s.count + 1)
  {
    hide BlobOk, TreeOk, WriterInv, DhtOk, PageOk;
    assert BlobInv(s, source);
    var o, h, b := s.objs[source], s.logs[source], s.bases[source];
    var i := SelectIndex(o, version);
    CloneOk(o, h, b, source, s.count + 1, i);
    CloneTree(Ps(o), s.dht, o, h, b, i);
    assert SelectRoot(o, version) == o.roots[i];
    PagesPrefix(Ps(o), h, b + i, s.data, s.pages);
  }

  lemma PagesPrefix(ps: nat, h: Log, n: nat, data: map<(nat, nat), seq<Content>>, pages: map<Query, Content>)
    requires n <= |h| && PagesOk(ps, h, data, pages)
    ensures PagesOk(ps, h[..n], data, pages)
  {
    hide PageOk;
  }

  /** A prefix of a log has the same origins. */
  lemma OriginsPrefix(s: State, s': State, source: nat, id: nat, n: nat)
    requires OriginsOk(s, source) && Carries(s, s') && source in s.objs && n <= |s.logs[source]|
    requires id in s'.objs && s'.objs[id].roots != [] && s.objs[source].roots != [] && Ps(s'.objs[id]) == Ps(s.objs[source])
    requires id in s'.logs && s'.logs[id] == s.logs[source][..n]
    ensures OriginsOk(s', id)
  {
    var h, g := s.logs[source], s'.logs[id];
    forall i: nat | i < |g| ensures Origin(s', id, i) {
      assert Origin(s, source, i);
      assert SamePs(s, s', h[i].id);
      assert g[..i + 1] == h[..i + 1];
    }
  }

  lemma AddedCarries(s: State, s': State, id: nat)
    requires Inv(s) && id !in s.objs && id in s'.objs && s'.objs == s.objs[id := s'.objs[id]] && s'.writers == s.writers
    ensures Carries(s, s')
  {
    hide BlobInv, WriterInv, DhtOk, OriginsOk, KeysInv;
  }

  /** A clone's writes have the same origins as its source's. */
  lemma CloneOrigins(s: State, source: nat, version: nat)
    requires Inv(s) && Enabled(s, Clone(source, version))
    ensures OriginsOk(Next(s, Clone(source, version)), s.count + 1)
  {
    hide WriterInv, DhtOk, OriginsOk, KeysInv, TreeOk, PagesOk, BlobOk, Carries;
    var s', id := Next(s, Clone(source, version)), s.count + 1;
    var o, h, b := s.objs[source], s.logs[source], s.bases[source];
    assert BlobInv(s, source);
    FreshId(s);
    CloneOk(o, h, b, source, id, SelectIndex(o, version));
    AddedCarries(s, s', id);
    OriginsPrefix(s, s', source, id, b + SelectIndex(o, version));
  }

  lemma CloneInv(s: State, source: nat, version: nat)
    requires Inv(s) && Enabled(s, Clone(source, version))
    ensures Inv(Next(s, Clone(source, version)))
  {
    hide BlobInv, WriterInv, DhtOk, OriginsOk, KeysInv;
    var s', id := Next(s, Clone(source, version)), s.count + 1;
    FreshId(s);
    CloneBlob(s, source, version);
    CloneOrigins(s, source, version);
    AddBlobInv(s, s', id);
  }

  // ---- Fetch ----

  lemma SideFetches(ps: nat, dht: Dht, h: Log, n: nat, stable: Query, isLeft: bool, side: Side)
    requires Ticketed(ps, dht, h, n, stable, false)
    requires SideOk(ps, dht, h, n, stable, isLeft, side) && side.cursor.Fetch?
    ensures SideOk(ps, dht, h, n, stable, isLeft,
                   FetchOnce(dht, isLeft, LeafOf(ps, Own(h), Edge(Own(h), isLeft)), side))
  {
    hide Shift, Size, StableShape, WalkAt, FinalList, Visit;
    var t, q := Edge(Own(h), isLeft), side.cursor.node;
    var k: nat :| WalkAt(ps, h[..n], t, k, q, false);
    LeafRange(ps, Own(h), t);
    if GoesOn(dht, q) {
      WalkMoves(ps, dht, h[..n], h[..n], isLeft, t, LeafOf(ps, Own(h), t), side.siblings, k, q, 0, 0, false);
    }
  }

  lemma FetchWriter(ps: nat, dht: Dht, o: ObjInfo, h: Log, b: nat, v: nat, wr: Writer, isLeft: bool)
    requires WriterOk(ps, dht, o, h, b, v, wr) && TreeOk(ps, dht, o, h, b)
    requires ps > 0 && WellFormed(h) && NoneAboveRoot(ps, dht, h) && HasIds(dht)
    requires SideOf(wr, isLeft).cursor.Fetch?
    ensures WriterOk(ps, dht, o, h, b, v, Fetched(ps, dht, wr, isLeft))
  {
    hide SideOk, WellFormed, FetchOnce, StoredOk, TreeOk, NoneAboveRoot, Ticketed;
    WriterTicketed(ps, dht, o, h, b, v, wr);
    SideFetches(ps, dht, wr.log, wr.published, wr.stable, isLeft, SideOf(wr, isLeft));
    FetchedStored(ps, dht, wr, isLeft);
  }

  lemma FetchedStored(ps: nat, dht: Dht, wr: Writer, isLeft: bool)
    requires wr.published < |wr.log| && StoredOk(ps, dht, wr) && SideOf(wr, isLeft).cursor.Fetch?
    ensures StoredOk(ps, dht, Fetched(ps, dht, wr, isLeft))
  {
  }

  lemma BlobFacts(id: nat, o: ObjInfo, h: Log, b: nat)
    requires BlobOk(id, o, h, b)
    ensures WellFormed(h)
  {
  }

  /** What the invariant says about one blob's trees. */
  lemma BlobTrees(s: State, id: nat)
    requires Inv(s) && id in s.objs
    ensures BlobInv(s, id) && s.objs[id].roots != [] && Ps(s.objs[id]) > 0
    ensures WellFormed(s.logs[id]) && NoneAboveRoot(Ps(s.objs[id]), s.dht, s.logs[id]) && HasIds(s.dht)
  {
    hide TreeOk, PagesOk, WriterInv, DhtOk, OriginsOk, KeysInv, NoneAboveRoot, HasIds, WellFormed, RootsOk, QueueOk;
    assert BlobInv(s, id);
    DhtIds(s.dht, s.writers);
    NothingAbove(s, id);
  }

  lemma UpdatedOrigins(s: State, s': State, u: (nat, nat))
    requires Inv(s) && u in s.writers && u in s'.writers
    requires s' == s.(writers := s.writers[u := s'.writers[u]])
    requires s'.writers[u].stored == s.writers[u].stored && s'.writers[u].log == s.writers[u].log
    ensures forall i :: i in s'.objs ==> OriginsOk(s', i)
    ensures forall w :: w in s'.writers ==> KeysInv(s', w)
  {
    hide BlobInv, WriterInv, DhtOk, OriginsOk, KeysInv;
    assert Carries(s, s');
    forall i | i in s'.objs ensures OriginsOk(s', i) {
      OriginsFrame(s, s', i);
    }
    forall w | w in s'.writers ensures KeysInv(s', w) {
      KeysFrame(s, s', w);
    }
  }

  /** Changing one writer's walks disturbs nobody else. */
  lemma UpdateWriterInv(s: State, s': State, u: (nat, nat))
    requires Inv(s) && u in s.writers && u in s'.writers
    requires s' == s.(writers := s.writers[u := s'.writers[u]])
    requires s'.writers[u].stored == s.writers[u].stored && WriterInv(s', u)
    requires s'.writers[u].log == s.writers[u].log
    ensures Inv(s')
  {
    hide BlobInv, WriterInv, DhtOk, OriginsOk, KeysInv;
    UpdatedOrigins(s, s', u);
    assert DhtOk(s'.dht, s'.writers) by { DhtFrame(s.dht, s.writers, s'.writers); }
    WriterTables(s', u);
    forall w | w in s'.writers ensures WriterInv(s', w) {
      if w != u { WriterFrame(s, s', w); }
    }
    forall i | i in s'.objs ensures BlobInv(s', i) {
      BlobFrame(s, s', i);
    }
  }

  lemma WriterTables(s: State, w: (nat, nat))
    requires WriterInv(s, w)
    ensures w in s.writers && w.0 in s.objs
    ensures s.writers[w].log != [] && s.writers[w].published < |s.writers[w].log|
  {
    hide SideOk, StoredOk;
  }

  lemma FetchWriterInv(s: State, id: nat, v: nat, isLeft: bool)
    requires Inv(s) && Enabled(s, FetchNode(id, v, isLeft))
    ensures WriterInv(Next(s, FetchNode(id, v, isLeft)), (id, v))
  {
    hide BlobOk, TreeOk, PagesOk, WriterOk, DhtOk, WellFormed, FetchOnce, NoneAboveRoot, OriginsOk, KeysInv;
    var o, h, b := s.objs[id], s.logs[id], s.bases[id];
    assert BlobInv(s, id) && WriterInv(s, (id, v));
    BlobTrees(s, id);
    FetchWriter(Ps(o), s.dht, o, h, b, v, s.writers[(id, v)], isLeft);
  }

  lemma FetchInv(s: State, id: nat, v: nat, isLeft: bool)
    requires Inv(s) && Enabled(s, FetchNode(id, v, isLeft))
    ensures Inv(Next(s, FetchNode(id, v, isLeft)))
  {
    hide BlobInv, WriterInv, DhtOk, FetchOnce, OriginsOk, KeysInv;
    var s' := Next(s, FetchNode(id, v, isLeft));
    FetchWriterInv(s, id, v, isLeft);
    UpdateWriterInv(s, s', (id, v));
  }

  // ---- Put ----

  /** What a writer puts is what it planned when it took its ticket. */
  lemma PutPlanned(ps: nat, dht: Dht, dht': Dht, wr: Writer, k: nat, x: nat)
    requires Ticketed(ps, dht, wr.log, wr.published, wr.stable, false)
    requires SideOk(ps, dht, wr.log, wr.published, wr.stable, true, wr.left)
    requires SideOk(ps, dht, wr.log, wr.published, wr.stable, false, wr.right)
    requires Extends(dht, dht') && HasIds(dht') && NoneAboveRoot(ps, dht', wr.log[..wr.published])
    requires Touch(Own(wr.log), k, x) && (k > 0 ==> wr.left.cursor.Idle? && wr.right.cursor.Idle?)
    ensures PlanNode(ps, Own(wr.log), wr.left.siblings, wr.right.siblings, k, x)
         == Planned(ps, dht', wr.log, wr.published, wr.stable, k, x)
  {
    hide Shift, StableShape, NoneAboveRoot, LeftList, RightList, Descend;
    PlannedGrows(ps, dht, dht', wr.log, wr.published, wr.stable);
  }

  lemma PutStored(ps: nat, dht: Dht, wr: Writer, wr': Writer, k: nat, x: nat)
    requires ps > 0 && wr.published < |wr.log| && StoredOk(ps, dht, wr)
    requires k <= Own(wr.log).level && Touch(Own(wr.log), k, x)
    requires wr' == wr.(stored := wr.stored + {NodeKey(ps, Own(wr.log), k, x)})
    requires StoredAt(ps, dht, wr.log, wr.published, wr.stable, k, x)
    ensures StoredOk(ps, dht, wr')
  {
    hide StoredAt, Size, Shift;
    forall j: nat, y: nat |
      j <= Own(wr.log).level && Touch(Own(wr.log), j, y) && NodeKey(ps, Own(wr.log), j, y) in wr'.stored
      ensures StoredAt(ps, dht, wr.log, wr.published, wr.stable, j, y)
    {
      if NodeKey(ps, Own(wr.log), j, y) !in wr.stored {
        RangeIsPosition(ps, j, y, k, x);
      }
    }
  }

  lemma PutKeys(ps: nat, wr: Writer, k: nat, x: nat)
    requires KeysOk(ps, wr) && k <= Own(wr.log).level
    ensures KeysOk(ps, wr.(stored := wr.stored + {NodeKey(ps, Own(wr.log), k, x)}))
  {
    assert OwnNode(ps, Own(wr.log), NodeKey(ps, Own(wr.log), k, x));
    hide OwnNode, NodeKey;
  }

  /** A writer's keys are its own. */
  lemma OwnKey(id: nat, o: ObjInfo, h: Log, b: nat, v: nat, wr: Writer, ps: nat, dht: Dht, k: nat, x: nat)
    requires BlobOk(id, o, h, b) && WriterOk(ps, dht, o, h, b, v, wr)
    ensures id > 0 && NodeKey(ps, Own(wr.log), k, x).id == id && NodeKey(ps, Own(wr.log), k, x).version == v
  {
    hide SideOk, StoredOk, WellFormed, RootsOk, QueueOk;
  }

  lemma PutDht(dht: Dht, writers: map<(nat, nat), Writer>, id: nat, v: nat, key: Query, node: DhtNode)
    requires DhtOk(dht, writers) && (id, v) in writers && id > 0
    requires key.id == id && key.version == v && key !in writers[(id, v)].stored
    ensures key !in dht && Extends(dht, dht[key := node])
    ensures var wr := writers[(id, v)];
            DhtOk(dht[key := node], writers[(id, v) := wr.(stored := wr.stored + {key})])
  {
  }

  lemma PutWriter(ps: nat, dht: Dht, dht': Dht, o: ObjInfo, h: Log, b: nat, v: nat, wr: Writer, k: nat, x: nat)
    requires WriterOk(ps, dht, o, h, b, v, wr) && TreeOk(ps, dht, o, h, b)
    requires ps > 0 && WellFormed(h) && NoneAboveRoot(ps, dht, h) && HasIds(dht)
    requires Extends(dht, dht') && HasIds(dht') && NoneAboveRoot(ps, dht', h)
    requires k <= Own(wr.log).level && Touch(Own(wr.log), k, x)
    requires k > 0 ==> wr.left.cursor.Idle? && wr.right.cursor.Idle?
    requires var key := NodeKey(ps, Own(wr.log), k, x);
             key in dht' && dht'[key] == PlanNode(ps, Own(wr.log), wr.left.siblings, wr.right.siblings, k, x)
    ensures WriterOk(ps, dht', o, h, b, v, wr.(stored := wr.stored + {NodeKey(ps, Own(wr.log), k, x)}))
  {
    hide SideOk, StoredOk, TreeOk, WellFormed, PlanNode, NoneAboveRoot, StableRoot, Planned, StableShape;
    WriterTicketed(ps, dht, o, h, b, v, wr);
    NoneAbovePrefix(ps, dht', h, wr.published);
    assert wr.log[..wr.published] == h[..wr.published];
    PutPlanned(ps, dht, dht', wr, k, x);
    WriterGrows(ps, dht, dht', o, h, b, v, wr);
    PutStored(ps, dht', wr, wr.(stored := wr.stored + {NodeKey(ps, Own(wr.log), k, x)}), k, x);
  }

  /** The put itself: a fresh key of the writer's own. */
  lemma PutOwn(s: State, id: nat, v: nat, k: nat, x: nat)
    requires Inv(s) && Enabled(s, PutNode(id, v, k, x))
    ensures var s' := Next(s, PutNode(id, v, k, x));
            && Extends(s.dht, s'.dht) && DhtOk(s'.dht, s'.writers) && HasIds(s'.dht) && KeysInv(s', (id, v))
  {
    hide BlobOk, TreeOk, PagesOk, WriterOk, DhtOk, PlanNode, NodeKey, Touch, KeysOk, OriginsOk, HasIds;
    var s', wr := Next(s, PutNode(id, v, k, x)), s.writers[(id, v)];
    var o, h, b := s.objs[id], s.logs[id], s.bases[id];
    assert BlobInv(s, id) && WriterInv(s, (id, v)) && KeysInv(s, (id, v));
    BlobTables(id, o, h, b);
    var key := NodeKey(Ps(o), Own(wr.log), k, x);
    OwnKey(id, o, h, b, v, wr, Ps(o), s.dht, k, x);
    PutDht(s.dht, s.writers, id, v, key, s'.dht[key]);
    DhtIds(s'.dht, s'.writers);
    PutKeys(Ps(o), wr, k, x);
  }

  lemma PutOwnWriter(s: State, s': State, id: nat, v: nat, k: nat, x: nat)
    requires Inv(s) && Enabled(s, PutNode(id, v, k, x)) && s' == Next(s, PutNode(id, v, k, x))
    requires Extends(s.dht, s'.dht) && HasIds(s'.dht) && NoneAboveRoot(Ps(s.objs[id]), s'.dht, s.logs[id])
    ensures WriterInv(s', (id, v))
  {
    hide BlobOk, TreeOk, PagesOk, WriterOk, DhtOk, WellFormed, PlanNode, NodeKey, Touch, NoneAboveRoot, HasIds,
      OriginsOk, KeysInv, Extends;
    var o, h, b, wr := s.objs[id], s.logs[id], s.bases[id], s.writers[(id, v)];
    assert WriterInv(s, (id, v));
    BlobTrees(s, id);
    PutWriter(Ps(o), s.dht, s'.dht, o, h, b, v, wr, k, x);
  }

  lemma PutInv(s: State, id: nat, v: nat, k: nat, x: nat)
    requires Inv(s) && Enabled(s, PutNode(id, v, k, x))
    ensures Inv(Next(s, PutNode(id, v, k, x)))
    ensures Extends(s.dht, Next(s, PutNode(id, v, k, x)).dht)
  {
    hide BlobInv, WriterInv, DhtOk, PlanNode, NodeKey, Touch, OriginsOk, KeysInv, HasIds, Extends, NoneAboveRoot;
    var s', u := Next(s, PutNode(id, v, k, x)), (id, v);
    PutOwn(s, id, v, k, x);
    GrowDhtKeys(s, s', u);
    GrowDhtAbove(s, s', id);
    PutOwnWriter(s, s', id, v, k, x);
    GrowDhtInv(s, s', u);
  }

  /** A put by writer u and nothing else. */
  ghost predicate PutBy(s: State, s': State, u: (nat, nat)) {
    && u in s.writers && u in s'.writers && s'.writers[u].log == s.writers[u].log
    && s' == s.(writers := s.writers[u := s'.writers[u]], dht := s'.dht)
    && Extends(s.dht, s'.dht) && DhtOk(s'.dht, s'.writers) && HasIds(s'.dht)
  }

  lemma GrowDhtKeys(s: State, s': State, u: (nat, nat))
    requires Inv(s) && PutBy(s, s', u) && KeysInv(s', u)
    ensures forall w :: w in s'.writers ==> KeysInv(s', w)
    ensures forall i :: i in s'.objs ==> OriginsOk(s', i)
  {
    hide BlobInv, WriterInv, DhtOk, OriginsOk, KeysInv;
    assert Carries(s, s');
    forall i | i in s'.objs ensures OriginsOk(s', i) {
      OriginsFrame(s, s', i);
    }
    forall w | w in s'.writers ensures KeysInv(s', w) {
      if w != u { KeysFrame(s, s', w); }
    }
  }

  lemma GrowDhtAbove(s: State, s': State, id: nat)
    requires Inv(s) && id in s.objs && s'.objs == s.objs && s'.logs == s.logs && DhtOk(s'.dht, s'.writers)
    requires OriginsOk(s', id) && forall w :: w in s'.writers ==> KeysInv(s', w)
    ensures s.objs[id].roots != [] && NoneAboveRoot(Ps(s.objs[id]), s'.dht, s.logs[id])
  {
    hide BlobInv, WriterInv, DhtOk, OriginsOk, KeysInv, NoneAboveRoot;
    BlobTrees(s, id);
    NothingAbove(s', id);
  }

  /** A new node in the DHT, recorded by its writer, disturbs nobody. */
  lemma GrowDhtInv(s: State, s': State, u: (nat, nat))
    requires Inv(s) && PutBy(s, s', u) && WriterInv(s', u)
    requires forall w :: w in s'.writers ==> KeysInv(s', w)
    requires forall i :: i in s'.objs ==> OriginsOk(s', i)
    ensures Inv(s')
  {
    hide BlobInv, WriterInv, DhtOk, OriginsOk, KeysInv, HasIds, Extends;
    WriterTables(s', u);
    forall w | w in s'.writers ensures WriterInv(s', w) {
      if w != u {
        GrowDhtAbove(s, s', w.0);
        OtherWriterGrows(s, s', w);
      }
    }
    forall i | i in s'.objs ensures BlobInv(s', i) {
      BlobGrows(s, s', i);
    }
  }

  lemma BlobGrows(s: State, s': State, id: nat)
    requires Inv(s) && id in s.objs && Extends(s.dht, s'.dht)
    requires s'.objs == s.objs && s'.logs == s.logs && s'.bases == s.bases && s'.count == s.count
    requires s'.data == s.data && s'.pages == s.pages
    ensures BlobInv(s', id)
  {
    hide BlobOk, TreeOk, PagesOk, WriterInv, DhtOk;
    assert BlobInv(s, id);
    TreeGrows(Ps(s.objs[id]), s.dht, s'.dht, s.objs[id], s.logs[id], s.bases[id]);
  }

  lemma OtherWriterGrows(s: State, s': State, w: (nat, nat))
    requires Inv(s) && w in s.writers && w in s'.writers && s'.writers[w] == s.writers[w]
    requires s'.objs == s.objs && s'.logs == s.logs && s'.bases == s.bases
    requires s.objs[w.0].roots != [] && NoneAboveRoot(Ps(s.objs[w.0]), s'.dht, s.logs[w.0])
    requires Extends(s.dht, s'.dht) && HasIds(s'.dht)
    ensures WriterInv(s', w)
  {
    hide BlobOk, TreeOk, PagesOk, WriterOk, DhtOk, WellFormed, NoneAboveRoot, HasIds, OriginsOk, KeysInv, Extends;
    assert WriterInv(s, w);
    BlobTrees(s, w.0);
    WriterGrows(Ps(s.objs[w.0]), s.dht, s'.dht, s.objs[w.0], s.logs[w.0], s.bases[w.0], w.1, s.writers[w]);
  }

  // ---- Publish ----

  lemma {:induction false} DrainTree(ps: nat, dht: Dht, o: ObjInfo, h: Log, b: nat)
    requires TreeOk(ps, dht, o, h, b)
    ensures TreeOk(ps, dht, Drain(o), h, b)
    decreases |o.intervals|
  {
    hide Shaped, AllShaped;
    if o.intervals != [] && o.intervals[0].done {
      var next := o.(roots := o.roots + [o.intervals[0].root], intervals := o.intervals[1..]);
      var n := Published(o, b);
      assert Shaped(ps, dht, h[..n + 0 + 1], false);
      AllShapedStep(ps, dht, h, n, false);
      forall i | 0 <= i < |next.intervals| && next.intervals[i].done
        ensures Shaped(ps, dht, h[..Published(next, b) + i + 1], false)
      {
        assert o.intervals[i + 1].done;
        assert Published(next, b) + i + 1 == n + (i + 1) + 1;
      }
      DrainTree(ps, dht, next, h, b);
    }
  }

  lemma MarkTree(ps: nat, dht: Dht, o: ObjInfo, h: Log, b: nat, v: nat)
    requires TreeOk(ps, dht, o, h, b) && InOrder(o) && IsPending(o, v)
    requires 0 < b + v <= |h| && Shaped(ps, dht, h[..b + v], false)
    ensures TreeOk(ps, dht, MarkDone(o, v), h, b)
  {
    hide Shaped, AllShaped;
    FindInOrder(o, v);
    var m := MarkDone(o, v);
    forall i | 0 <= i < |m.intervals| && m.intervals[i].done ensures Shaped(ps, dht, h[..Published(m, b) + i + 1], false) {
      if i != v - |o.roots| { assert o.intervals[i].done; }
    }
  }

  lemma PublishOk(id: nat, o: ObjInfo, h: Log, b: nat, v: nat)
    requires BlobOk(id, o, h, b)
    ensures BlobOk(id, PublishVersion(o, v), h, b)
    ensures Published(o, b) <= Published(PublishVersion(o, v), b) && Ps(PublishVersion(o, v)) == Ps(o)
  {
    hide WellFormed, Intervals, StableRoot, RootSane, Drain, Find;
    PublishKeepsValid(o, v);
    if IsPending(o, v) {
      PublishQueue(o, h, b, v);
    }
  }

  /** The queue after a publication is the rest of the queue before it. */
  lemma PublishQueue(o: ObjInfo, h: Log, b: nat, v: nat)
    requires o.roots != [] && QueueOk(o, h, b) && InOrder(o) && IsPending(o, v)
    ensures var o' := PublishVersion(o, v);
            && o'.roots != [] && Ps(o') == Ps(o) && QueueOk(o', h, b) && o'.progressSize == o.progressSize
  {
    hide Drain, Find;
    var m := MarkDone(o, v);
    var o' := Drain(m);
    DrainKeepsRoots(m);
    DrainKeepsOrder(m);
    assert Queries(m.intervals) == Queries(o.intervals);
    var d := |o'.roots| - |o.roots|;
    assert Queries(o'.intervals) == Queries(m.intervals)[d..];
    assert h[Published(o, b)..][d..] == h[Published(o', b)..];
  }

  lemma PublishTree(ps: nat, dht: Dht, o: ObjInfo, h: Log, b: nat, v: nat, wr: Writer)
    requires TreeOk(ps, dht, o, h, b) && InOrder(o) && WriterOk(ps, dht, o, h, b, v, wr) && AllStored(ps, wr)
    requires ps > 0 && WellFormed(h) && NoneAboveRoot(ps, dht, h) && HasIds(dht)
    ensures TreeOk(ps, dht, PublishVersion(o, v), h, b)
  {
    hide TreeOk, StoredOk, AllStored, SideOk, InOrder, Drain, MarkDone, Find, WellFormed, NoneAboveRoot, Shaped, Ticketed, StableRoot;
    if IsPending(o, v) {
      WriterTicketed(ps, dht, o, h, b, v, wr);
      StoredIsShaped(ps, dht, wr);
      MarkTree(ps, dht, o, h, b, v);
      DrainTree(ps, dht, MarkDone(o, v), h, b);
    }
  }

  lemma PublishWriter(ps: nat, dht: Dht, o: ObjInfo, o': ObjInfo, h: Log, b: nat, v: nat, wr: Writer)
    requires WriterOk(ps, dht, o, h, b, v, wr) && o'.roots != [] && Published(o, b) <= Published(o', b)
    ensures WriterOk(ps, dht, o', h, b, v, wr)
  {
    hide SideOk, StoredOk;
  }

  lemma BlobOrder(id: nat, o: ObjInfo, h: Log, b: nat)
    requires BlobOk(id, o, h, b)
    ensures InOrder(o)
  {
  }

  predicate Advances(o: ObjInfo, o': ObjInfo, h: Log, b: nat) {
    && o.roots != [] && o'.roots != [] && Ps(o') == Ps(o)
    && Published(o, b) <= Published(o', b) <= |h|
  }

  predicate Advanced(s: State, s': State, id: nat) {
    && id in s.objs && id in s'.objs && id in s.logs && id in s.bases
    && Advances(s.objs[id], s'.objs[id], s.logs[id], s.bases[id])
  }

  lemma PublishBlob(s: State, id: nat, v: nat)
    requires Inv(s) && Enabled(s, Publish(id, v))
    ensures var s' := Next(s, Publish(id, v));
            BlobInv(s', id) && Advanced(s, s', id)
  {
    hide BlobOk, TreeOk, PagesOk, WriterOk, DhtOk, InOrder, AllStored, PublishVersion, NoneAboveRoot, HasIds, OriginsOk, KeysInv;
    var o, h, b := s.objs[id], s.logs[id], s.bases[id];
    assert BlobInv(s, id) && WriterInv(s, (id, v));
    BlobTrees(s, id);
    PublishOk(id, o, h, b, v);
    BlobTables(id, PublishVersion(o, v), h, b);
    BlobOrder(id, o, h, b);
    PublishTree(Ps(o), s.dht, o, h, b, v, s.writers[(id, v)]);
  }

  lemma PublishInv(s: State, id: nat, v: nat)
    requires Inv(s) && Enabled(s, Publish(id, v))
    ensures Inv(Next(s, Publish(id, v)))
  {
    hide BlobInv, WriterInv, DhtOk, AllStored, PublishVersion, Advanced, OriginsOk, KeysInv;
    PublishBlob(s, id, v);
    AdvanceInv(s, Next(s, Publish(id, v)), id);
  }

  lemma AdvanceCarries(s: State, s': State, id: nat)
    requires Inv(s) && id in s.objs && id in s'.objs && s' == s.(objs := s.objs[id := s'.objs[id]]) && Advanced(s, s', id)
    ensures Carries(s, s') && Tables(s')
  {
    hide BlobInv, WriterInv, DhtOk, OriginsOk, KeysInv, Ps;
    forall i | i in s.objs ensures SamePs(s, s', i) {
      assert i != id ==> s'.objs[i] == s.objs[i];
    }
  }

  /** What Carries keeps, for an update that leaves the logs and stored sets alone. */
  lemma CarriedInv(s: State, s': State)
    requires Inv(s) && Carries(s, s') && s'.objs.Keys == s.objs.Keys && s'.logs == s.logs && s'.writers == s.writers
    ensures forall w :: w in s'.writers ==> KeysInv(s', w)
    ensures forall i :: i in s'.objs ==> OriginsOk(s', i)
  {
    hide BlobInv, WriterInv, DhtOk, OriginsOk, KeysInv, Carries;
    forall i | i in s'.objs ensures OriginsOk(s', i) {
      OriginsFrame(s, s', i);
    }
    forall w | w in s'.writers ensures KeysInv(s', w) {
      KeysFrame(s, s', w);
    }
  }

  /** Publishing more versions of one blob disturbs nobody. */
  lemma AdvanceInv(s: State, s': State, id: nat)
    requires Inv(s) && id in s.objs && id in s'.objs && s' == s.(objs := s.objs[id := s'.objs[id]])
    requires BlobInv(s', id) && Advanced(s, s', id)
    ensures Inv(s')
  {
    hide BlobInv, WriterInv, DhtOk, OriginsOk, KeysInv, Advances, Carries;
    AdvanceCarries(s, s', id);
    CarriedInv(s, s');
    forall i | i in s'.objs ensures BlobInv(s', i) {
      if i != id { BlobFrame(s, s', i); }
    }
    forall w | w in s'.writers ensures WriterInv(s', w) {
      if w.0 == id { AdvanceWriter(s, s', w); } else { WriterFrame(s, s', w); }
    }
  }

  lemma AdvanceWriter(s: State, s': State, w: (nat, nat))
    requires Inv(s) && w in s.writers && w.0 in s'.objs && s' == s.(objs := s.objs[w.0 := s'.objs[w.0]])
    requires Advanced(s, s', w.0)
    ensures WriterInv(s', w)
  {
    hide BlobInv, WriterOk, DhtOk;
    assert WriterInv(s, w);
    PublishWriter(Ps(s.objs[w.0]), s.dht, s.objs[w.0], s'.objs[w.0], s.logs[w.0], s.bases[w.0], w.1, s.writers[w]);
  }

  lemma StoredIsShaped(ps: nat, dht: Dht, wr: Writer)
    requires Ticketed(ps, dht, wr.log, wr.published, wr.stable, false) && StoredOk(ps, dht, wr) && AllStored(ps, wr)
    ensures Shaped(ps, dht, wr.log, false)
  {
    hide StableShape, StableRoot, WellFormed, PlanNode, NodeShape, LeftList, RightList;
    forall k: nat, x: nat | k <= Own(wr.log).level && Touch(Own(wr.log), k, x)
      ensures ShapedAt(ps, dht, wr.log, k, x, false)
    {
      assert NodeKey(ps, Own(wr.log), k, x) in wr.stored;
      assert StoredAt(ps, dht, wr.log, wr.published, wr.stable, k, x);
      PlanShape(ps, dht, wr.log, wr.published, wr.stable, k, x, false);
    }
  }
}
