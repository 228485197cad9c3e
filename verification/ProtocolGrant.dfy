/** A ticket keeps the invariant: the byte arithmetic of the version manager agrees with
    the page arithmetic of the log. */
module ProtocolGrant {
  import opened Arithmetic
  import opened Metadata
  import opened Dyadic
  import opened History
  import opened Siblings
  import opened Weave
  import opened Shape
  import opened WriteLocations
  import opened VersionManager
  import opened Protocol
  import opened ProtocolInvariant
  import opened ProtocolSteps

  lemma AlignedIs(ps: nat, off: nat)
    requires ps > 0 && off % ps == 0
    ensures off == (off / ps) * ps
  {
  }

  /** A page-aligned byte range is the pages first..last. */
  lemma AlignedRange(ps: nat, off: nat, n: nat)
    requires ps > 0 && off % ps == 0 && n > 0
    ensures n * ps > 0
    ensures var first, last := off / ps, (off + n * ps - 1) / ps;
            && last == first + n - 1 && off == first * ps && off + n * ps == (last + 1) * ps
            && n * ps == (last - first + 1) * ps
  {
    Positive(n, ps);
    AlignedIs(ps, off);
    var first := off / ps;
    var m: nat := first + n - 1;
    Distribute(first, n, ps);
    Distribute(m, 1, ps);
    DivOf(m, ps, ps - 1);
  }

  /** The offset, size and root level of a granted write. */
  ghost predicate GrantFacts(o: ObjInfo, h: Log, q: Query, append: bool, n: nat)
    requires o.roots != [] && Ps(o) > 0 && q.size > 0 && CanGrant(o, q, append)
  {
    var ps, w, e := Ps(o), GrantedWrite(o, h, q, append), NewInterval(o, q, append);
    && WellFormedWrite(w) && RootLevel(h) <= w.level
    && w.last - w.first + 1 == n && w.id == q.id && w.version == o.currentTicket && w.tag == q.version
    && e.query == IntervalOf(ps, w)
    && e.root.node.size == Size(ps, w.level)
    && e.query.offset + e.query.size == (w.last + 1) * ps <= Size(ps, w.level)
  }

  lemma GrantArithmetic(o: ObjInfo, h: Log, q: Query, append: bool, n: nat)
    requires o.roots != [] && Ps(o) > 0 && n > 0 && q.size == n * Ps(o) && q.size > 0 && q.id > 0
    requires o.maxSize > 0 && o.currentTicket > 0 && SizesOk(o, h)
    requires q.offset % Ps(o) == 0
    ensures GrantFacts(o, h, q, append, n)
    ensures InReach(h + [GrantedWrite(o, h, q, append)], |h|) <==> h == [] || TicketOffset(o, q, append) < 2 * o.maxSize
  {
    var ps, off, k := Ps(o), TicketOffset(o, q, append), RootLevel(h);
    var w := GrantedWrite(o, h, q, append);
    AlignedRange(ps, off, n);
    GrowIsSize(ps, k, off + q.size);
    SizePositive(ps, w.level);
    Distribute(w.last, 1, ps);
    BelowShift(ps, w.last, w.level, 1);
    if h != [] {
      BelowShift(ps, w.first, k + 1, 1);
    }
  }

  /** The last published root is no larger than the root in force. */
  lemma LastRootFits(id: nat, o: ObjInfo, h: Log, b: nat)
    requires BlobOk(id, o, h, b)
    ensures RootSane(Ps(o), LastRoot(o)) && LastRoot(o).currentSize <= o.maxSize && LastRoot(o).node.offset == 0
    ensures StableRoot(Ps(o), h[..Published(o, b)], LastRoot(o).node)
  {
    hide Shift, Newest, QueueOk, OwnOk;
    var i, ps := |o.roots| - 1, Ps(o);
    assert AllRoots(o)[i] == LastRoot(o);
    var g := h[..b + i];
    if g != [] && g[|g| - 1].level < RootLevel(h) {
      SizeGrows(ps, g[|g| - 1].level, RootLevel(h));
    }
  }

  lemma GrantQueue(o: ObjInfo, h: Log, b: nat, q: Query, append: bool, n: nat)
    requires ObjValid(o) && Ps(o) > 0 && b <= |h| && q.size > 0 && CanGrant(o, q, append)
    requires QueueOk(o, h, b) && GrantFacts(o, h, q, append, n)
    ensures var o', w := GrantTicket(o, q, append), GrantedWrite(o, h, q, append);
            && Ps(o') == Ps(o) && QueueOk(o', h + [w], b)
  {
    hide Insert, GrowLevel, Grow, Size, Shift;
    GrantAppends(o, q, append);
    var o', w := GrantTicket(o, q, append), GrantedWrite(o, h, q, append);
    assert Queries(o'.intervals) == Queries(o.intervals) + [NewInterval(o, q, append).query];
    assert (h + [w])[Published(o, b)..] == h[Published(o, b)..] + [w];
  }

  lemma GrantRoots(id: nat, o: ObjInfo, h: Log, b: nat, q: Query, append: bool, n: nat)
    requires BlobOk(id, o, h, b) && q.size > 0 && CanGrant(o, q, append) && GrantFacts(o, h, q, append, n)
    ensures var o', w := GrantTicket(o, q, append), GrantedWrite(o, h, q, append);
            && Ps(o') == Ps(o) && RootsOk(o', h + [w], b)
  {
    hide Insert, GrowLevel, Grow, Shift, WellFormed, QueueOk, StableRoot, Queries, OwnOk, Drain, Find;
    GrantAppends(o, q, append);
    LastRootFits(id, o, h, b);
    var o', w, e := GrantTicket(o, q, append), GrantedWrite(o, h, q, append), NewInterval(o, q, append);
    assert AllRoots(o') == AllRoots(o) + [e.root];
    forall i | 0 <= i < |AllRoots(o')|
      ensures RootSane(Ps(o), AllRoots(o')[i]) && StableRoot(Ps(o), (h + [w])[..b + i], AllRoots(o')[i].node)
    {
      if i < |AllRoots(o)| {
        assert (h + [w])[..b + i] == h[..b + i];
      } else {
        NewRoot(o, h, q, append, n);
        assert (h + [w])[..b + i] == h + [w];
      }
    }
  }

  lemma NewRoot(o: ObjInfo, h: Log, q: Query, append: bool, n: nat)
    requires o.roots != [] && Ps(o) > 0 && q.size > 0 && CanGrant(o, q, append) && GrantFacts(o, h, q, append, n)
    requires RootSane(Ps(o), LastRoot(o)) && LastRoot(o).currentSize <= o.maxSize && LastRoot(o).node.offset == 0
    ensures RootSane(Ps(o), NewInterval(o, q, append).root)
    ensures StableRoot(Ps(o), h + [GrantedWrite(o, h, q, append)], NewInterval(o, q, append).root.node)
  {
    hide Shift, GrowLevel;
    var w := GrantedWrite(o, h, q, append);
    DivExact(w.last + 1, Ps(o));
    assert (h + [w])[|h|] == w;
  }

  lemma GrantLog(h: Log, w: Write)
    requires WellFormed(h) && WellFormedWrite(w) && RootLevel(h) <= w.level
    ensures WellFormed(h + [w])
  {
    hide Shift;
    var g := h + [w];
    forall i, j | 0 <= i <= j < |g| ensures g[i].level <= g[j].level {
      if i < |h| && j == |h| { assert h[i].level <= h[|h| - 1].level; }
    }
  }

  lemma GrantBlob(id: nat, o: ObjInfo, h: Log, b: nat, q: Query, append: bool, n: nat)
    requires BlobOk(id, o, h, b) && q.id == id && n > 0 && q.size == n * Ps(o) && o.maxSize > 0
    requires q.offset % Ps(o) == 0
    ensures q.size > 0 && CanGrant(o, q, append) && GrantFacts(o, h, q, append, n)
    ensures BlobOk(id, GrantTicket(o, q, append), h + [GrantedWrite(o, h, q, append)], b)
    ensures Ps(GrantTicket(o, q, append)) == Ps(o)
  {
    hide Insert, GrowLevel, Grow, Shift, RootsOk, QueueOk, WellFormed, IntervalOf;
    Positive(n, Ps(o));
    GrantArithmetic(o, h, q, append, n);
    var o', w := GrantTicket(o, q, append), GrantedWrite(o, h, q, append);
    GrantAppends(o, q, append);
    GrantQueue(o, h, b, q, append, n);
    GrantRoots(id, o, h, b, q, append, n);
    GrantLog(h, w);
    DivExact(w.last + 1, Ps(o));
    assert RootLevel(h + [w]) == w.level;
  }

  lemma GrantTree(ps: nat, dht: Dht, o: ObjInfo, h: Log, b: nat, q: Query, append: bool, w: Write)
    requires TreeOk(ps, dht, o, h, b) && ObjValid(o) && CanGrant(o, q, append)
    ensures TreeOk(ps, dht, GrantTicket(o, q, append), h + [w], b)
  {
    hide Shaped, AllShaped, Insert, Grow;
    GrantAppends(o, q, append);
    var o', g := GrantTicket(o, q, append), h + [w];
    assert g[..Published(o, b)] == h[..Published(o, b)];
    forall i | 0 <= i < |o'.intervals| && o'.intervals[i].done ensures Shaped(ps, dht, g[..Published(o', b) + i + 1], false) {
      assert g[..Published(o', b) + i + 1] == h[..Published(o, b) + i + 1];
    }
  }

  // ---- Pages ----

  lemma StoreKeeps(pages: map<Query, Content>, id: nat, tag: nat, ps: nat, contents: seq<Content>)
    requires forall p :: p in pages ==> (p.id, p.version) != (id, tag)
    ensures var pages' := StorePages(pages, id, tag, ps, contents);
            && (forall p :: p in pages ==> p in pages' && pages'[p] == pages[p])
            && (forall i: nat :: i < |contents| ==> Query(id, tag, i, ps) in pages' && pages'[Query(id, tag, i, ps)] == contents[i])
  {
  }

  lemma PageKeeps(ps: nat, h: Log, data: map<(nat, nat), seq<Content>>, data': map<(nat, nat), seq<Content>>,
                  pages: map<Query, Content>, pages': map<Query, Content>)
    requires PagesOk(ps, h, data, pages)
    requires forall p :: p in pages ==> p in pages' && pages'[p] == pages[p]
    requires forall d :: d in data ==> d in data' && data'[d] == data[d]
    ensures PagesOk(ps, h, data', pages')
  {
    forall i | 0 <= i < |h| ensures PageOk(ps, h[i], data', pages') {
      assert PageOk(ps, h[i], data, pages);
    }
  }

  // ---- Writers ----

  lemma OldWriter(ps: nat, dht: Dht, o: ObjInfo, o': ObjInfo, h: Log, b: nat, w: Write, v: nat, wr: Writer)
    requires WriterOk(ps, dht, o, h, b, v, wr) && o'.roots == o.roots
    ensures WriterOk(ps, dht, o', h + [w], b, v, wr)
  {
    hide SideOk, StoredOk;
    assert (h + [w])[..b + v] == h[..b + v];
    assert (h + [w])[..wr.published] == h[..wr.published];
  }

  /** A new writer's walks start right. */
  lemma StartSides(ps: nat, dht: Dht, h: Log, n: nat, stable: Query)
    requires ps > 0 && n < |h| && StableRoot(ps, h[..n], stable) && WellFormed(h)
    ensures SideOk(ps, dht, h, n, stable, true, NewWriter(ps, h, n, stable).left)
    ensures SideOk(ps, dht, h, n, stable, false, NewWriter(ps, h, n, stable).right)
  {
    hide PendingSiblings, Shift, Size;
    var w := Own(h);
    if n == 0 {
      NoStable(stable, LeafOf(ps, w, w.first));
      NoStable(stable, LeafOf(ps, w, w.last));
    } else {
      PrefixFacts(h, n);
      if Intersects(stable, LeafOf(ps, w, w.first)) { StableWalk(ps, h[..n], stable, w.id, w.version, w.first, false); }
      if Intersects(stable, LeafOf(ps, w, w.last)) { StableWalk(ps, h[..n], stable, w.id, w.version, w.last, false); }
    }
  }

  lemma FirstWriter(ps: nat, dht: Dht, o: ObjInfo, h: Log, b: nat, n: nat, stable: Query, v: nat)
    requires ps > 0 && o.roots != [] && n == Published(o, b) < |h| && StableRoot(ps, h[..n], stable) && WellFormed(h)
    requires v >= 1 && b + v == |h|
    ensures WriterOk(ps, dht, o, h, b, v, NewWriter(ps, h, n, stable))
  {
    hide SideOk, Shift;
    StartSides(ps, dht, h, n, stable);
    assert h[..b + v] == h;
  }

  /** The reply that a ticket sends describes the log, so weaving may rely on it. */
  lemma ReplyDescribes(id: nat, o: ObjInfo, h: Log, b: nat)
    requires BlobOk(id, o, h, b) && o.intervals != [] && h != []
    ensures Describes(TicketReply(o), h, Published(o, b))
  {
    hide Shift, RootsOk, Newest;
    LastRootFits(id, o, h, b);
    assert h[..|h| - 1] + [h[|h| - 1]] == h;
  }

  // ---- The step ----

  /** Nobody has used this ticket before. */
  lemma TicketFresh(s: State, id: nat)
    requires Inv(s) && id in s.objs
    ensures (id, s.objs[id].currentTicket) !in s.writers && (id, s.objs[id].currentTicket) !in s.data
  {
    hide TreeOk, PagesOk, DhtOk, SideOk, StoredOk, RootsOk, QueueOk, OwnOk, WellFormed, SizesOk;
    var w := (id, s.objs[id].currentTicket);
    assert BlobInv(s, id);
    assert w in s.writers ==> WriterInv(s, w);
  }

  lemma NewPages(ps: nat, h: Log, w: Write, contents: seq<Content>,
                 data: map<(nat, nat), seq<Content>>, pages: map<Query, Content>)
    requires PagesOk(ps, h, data, pages) && (w.id, w.version) !in data
    requires forall p :: p in pages ==> (p.id, p.version) != (w.id, w.tag)
    requires w.first <= w.last && |contents| == w.last - w.first + 1 && Sized(contents, ps)
    ensures PagesOk(ps, h + [w], data[(w.id, w.version) := contents], StorePages(pages, w.id, w.tag, ps, contents))
  {
    var data', pages' := data[(w.id, w.version) := contents], StorePages(pages, w.id, w.tag, ps, contents);
    StoreKeeps(pages, w.id, w.tag, ps, contents);
    PageKeeps(ps, h, data, data', pages, pages');
    assert PageOk(ps, w, data', pages');
  }

  ghost predicate Grantable(o: ObjInfo, h: Log, q: Query, append: bool, n: nat) {
    && o.roots != [] && Ps(o) > 0 && o.maxSize > 0
    && n > 0 && q.size == n * Ps(o) && q.size > 0 && q.offset % Ps(o) == 0
  }

  lemma GrantedFacts(id: nat, o: ObjInfo, h: Log, b: nat, q: Query, append: bool, n: nat)
    requires BlobOk(id, o, h, b) && q.id == id && Grantable(o, h, q, append, n)
    ensures var w := GrantedWrite(o, h, q, append);
            && w.id == id && w.version == o.currentTicket && w.tag == q.version && w.first <= w.last && w.last - w.first + 1 == n
            && ObjValid(o) && GrantTicket(o, q, append).roots == o.roots && 1 <= o.currentTicket
            && b + o.currentTicket == |h| + 1 && Published(o, b) <= |h|
  {
    hide Shift, RootsOk, QueueOk, OwnOk, WellFormed, Grow, GrowLevel, Insert;
    GrantArithmetic(o, h, q, append, n);
  }

  /** What a grant does to the blob it is for: version manager, trees and pages. */
  lemma GrantParts(id: nat, o: ObjInfo, h: Log, b: nat, q: Query, append: bool, dht: Dht,
                   data: map<(nat, nat), seq<Content>>, pages: map<Query, Content>, contents: seq<Content>)
    requires BlobOk(id, o, h, b) && q.id == id && Grantable(o, h, q, append, |contents|)
    requires TreeOk(Ps(o), dht, o, h, b) && PagesOk(Ps(o), h, data, pages)
    requires Sized(contents, Ps(o)) && (id, o.currentTicket) !in data && forall p :: p in pages ==> (p.id, p.version) != (id, q.version)
    ensures var o', g := GrantTicket(o, q, append), h + [GrantedWrite(o, h, q, append)];
            && BlobOk(id, o', g, b) && Ps(o') == Ps(o) && TreeOk(Ps(o), dht, o', g, b)
            && PagesOk(Ps(o), g, data[(id, o.currentTicket) := contents], StorePages(pages, id, q.version, Ps(o), contents))
  {
    hide BlobOk, TreeOk, PagesOk, GrantTicket, StorePages, GrantFacts, GrantedWrite, ObjValid;
    GrantedFacts(id, o, h, b, q, append, |contents|);
    GrantBlob(id, o, h, b, q, append, |contents|);
    GrantTree(Ps(o), dht, o, h, b, q, append, GrantedWrite(o, h, q, append));
    NewPages(Ps(o), h, GrantedWrite(o, h, q, append), contents, data, pages);
  }

  /** The new writer starts right. */
  lemma GrantWriter(id: nat, o: ObjInfo, h: Log, b: nat, q: Query, append: bool, n: nat, dht: Dht)
    requires BlobOk(id, o, h, b) && q.id == id && Grantable(o, h, q, append, n)
    ensures var o', g := GrantTicket(o, q, append), h + [GrantedWrite(o, h, q, append)];
            && Published(o, b) < |g|
            && WriterOk(Ps(o), dht, o', g, b, o.currentTicket, NewWriter(Ps(o), g, Published(o, b), LastRoot(o).node))
  {
    hide BlobOk, GrantTicket, GrantFacts, GrantedWrite, ObjValid, NewWriter, WriterOk, StableRoot, RootSane;
    var o', g := GrantTicket(o, q, append), h + [GrantedWrite(o, h, q, append)];
    GrantedFacts(id, o, h, b, q, append, n);
    GrantBlob(id, o, h, b, q, append, n);
    BlobFacts(id, o', g, b);
    LastRootFits(id, o, h, b);
    assert g[..Published(o, b)] == h[..Published(o, b)];
    FirstWriter(Ps(o), dht, o', g, b, Published(o, b), LastRoot(o).node, o.currentTicket);
  }

  ghost predicate GrantUpdate(s: State, s': State, q: Query, append: bool, contents: seq<Content>) {
    && Tables(s) && Enabled(s, Grant(q, append, contents)) && s' == Next(s, Grant(q, append, contents))
  }

  lemma GrantIsGrantable(s: State, q: Query, append: bool, contents: seq<Content>)
    requires Tables(s) && Enabled(s, Grant(q, append, contents))
    ensures Grantable(s.objs[q.id], s.logs[q.id], q, append, |contents|)
    ensures Sized(contents, Ps(s.objs[q.id])) && forall p :: p in s.pages ==> (p.id, p.version) != (q.id, q.version)
  {
    Positive(|contents|, Ps(s.objs[q.id]));
  }

  lemma GrantOwnBlob(s: State, s': State, q: Query, append: bool, contents: seq<Content>)
    requires Inv(s) && GrantUpdate(s, s', q, append, contents)
    ensures BlobInv(s', q.id) && WriterInv(s', (q.id, s.objs[q.id].currentTicket))
  {
    hide BlobOk, TreeOk, PagesOk, WriterOk, DhtOk, OriginsOk, KeysInv, GrantTicket, NewWriter, StorePages, GrantedWrite, Grantable;
    assert BlobInv(s, q.id);
    var o, h, b := s.objs[q.id], s.logs[q.id], s.bases[q.id];
    TicketFresh(s, q.id);
    GrantIsGrantable(s, q, append, contents);
    GrantParts(q.id, o, h, b, q, append, s.dht, s.data, s.pages, contents);
    GrantWriter(q.id, o, h, b, q, append, |contents|, s.dht);
    BlobTables(q.id, GrantTicket(o, q, append), h + [GrantedWrite(o, h, q, append)], b);
  }

  lemma GrantOtherBlob(s: State, s': State, q: Query, append: bool, contents: seq<Content>, id: nat)
    requires Inv(s) && GrantUpdate(s, s', q, append, contents) && id in s.objs && id != q.id
    ensures BlobInv(s', id)
  {
    hide BlobOk, TreeOk, PagesOk, WriterInv, DhtOk, OriginsOk, KeysInv, GrantTicket, NewWriter, StorePages, GrantedWrite;
    assert BlobInv(s, id);
    TicketFresh(s, q.id);
    StoreKeeps(s.pages, q.id, q.version, Ps(s.objs[q.id]), contents);
    PageKeeps(Ps(s.objs[id]), s.logs[id], s.data, s'.data, s.pages, s'.pages);
  }

  lemma GrantOldWriter(s: State, s': State, q: Query, append: bool, contents: seq<Content>, u: (nat, nat))
    requires Inv(s) && GrantUpdate(s, s', q, append, contents) && u in s.writers
    ensures u in s'.writers && s'.writers[u] == s.writers[u] && WriterInv(s', u)
  {
    hide BlobInv, WriterOk, DhtOk, OriginsOk, KeysInv, Grow, GrowLevel, NewWriter, StorePages, Insert;
    TicketFresh(s, q.id);
    assert WriterInv(s, u);
    if u.0 == q.id {
      var o, h, b := s.objs[q.id], s.logs[q.id], s.bases[q.id];
      OldWriter(Ps(o), s.dht, o, s'.objs[q.id], h, b, s'.logs[q.id][|h|], u.1, s.writers[u]);
      assert s'.logs[q.id] == h + [s'.logs[q.id][|h|]];
    }
  }

  lemma AssembleTables(s': State)
    requires s'.logs.Keys == s'.objs.Keys && s'.bases.Keys == s'.objs.Keys
    requires forall i :: i in s'.objs ==> BlobInv(s', i)
    requires forall w :: w in s'.writers ==> WriterInv(s', w)
    ensures Tables(s')
  {
    hide BlobInv, WriterInv;
    forall i | i in s'.objs ensures s'.objs[i].roots != [] && Published(s'.objs[i], s'.bases[i]) <= |s'.logs[i]| {
      AddedTables(s', i);
    }
    forall w | w in s'.writers
      ensures w.0 in s'.objs && s'.writers[w].log != [] && s'.writers[w].published < |s'.writers[w].log|
    {
      WriterTables(s', w);
    }
  }

  /** A new writer and a changed blob, with everything else as before. */
  lemma AssembleInv(s: State, s': State, id: nat, u: (nat, nat))
    requires Inv(s) && id in s.objs && u.0 == id && u !in s.writers && s'.dht == s.dht && s'.bases == s.bases
    requires s'.objs.Keys == s.objs.Keys && s'.logs.Keys == s.logs.Keys
    requires s'.writers.Keys == s.writers.Keys + {u} && s'.data.Keys == s.data.Keys + {u}
    requires forall w :: w in s.writers ==> w in s'.writers && s'.writers[w] == s.writers[w]
    requires forall i :: i in s'.objs ==> BlobInv(s', i)
    requires forall w :: w in s'.writers ==> WriterInv(s', w) && KeysInv(s', w)
    requires forall i :: i in s'.objs ==> OriginsOk(s', i)
    ensures Inv(s')
  {
    hide BlobInv, WriterInv, DhtOk, OriginsOk, KeysInv;
    AssembleTables(s');
    hide Tables;
    DhtFrame(s.dht, s.writers, s'.writers);
  }

  lemma GrantCarries(s: State, s': State, q: Query, append: bool, contents: seq<Content>)
    requires Inv(s) && GrantUpdate(s, s', q, append, contents)
    ensures Carries(s, s')
  {
    hide BlobInv, WriterInv, DhtOk, OriginsOk, KeysInv, NewWriter, StorePages, GrantedWrite, Insert, Grow;
    TicketFresh(s, q.id);
  }

  lemma GrantKeys(s: State, s': State, q: Query, append: bool, contents: seq<Content>, w: (nat, nat))
    requires Inv(s) && GrantUpdate(s, s', q, append, contents) && w in s'.writers
    ensures KeysInv(s', w)
  {
    hide BlobInv, WriterInv, DhtOk, OriginsOk, KeysOk, GrantTicket, StorePages, GrantedWrite, Carries;
    GrantCarries(s, s', q, append, contents);
    TicketFresh(s, q.id);
    if w in s.writers {
      assert KeysInv(s, w);
      KeysFrame(s, s', w);
    } else {
      NewKeys(s, s', q, append, contents);
    }
  }

  lemma NewKeys(s: State, s': State, q: Query, append: bool, contents: seq<Content>)
    requires Inv(s) && GrantUpdate(s, s', q, append, contents)
    ensures KeysInv(s', (q.id, s.objs[q.id].currentTicket))
  {
    hide BlobInv, WriterInv, DhtOk, OriginsOk, StorePages, GrantedWrite, Insert, Grow;
  }

  lemma GrantOrigins(s: State, s': State, q: Query, append: bool, contents: seq<Content>, id: nat)
    requires Inv(s) && GrantUpdate(s, s', q, append, contents) && id in s.objs
    ensures OriginsOk(s', id)
  {
    hide BlobInv, WriterInv, DhtOk, KeysInv, GrantTicket, NewWriter, StorePages, GrantedWrite, Carries, Origin;
    GrantCarries(s, s', q, append, contents);
    if id != q.id {
      OriginsFrame(s, s', id);
    } else {
      forall i: nat | i < |s'.logs[id]| ensures Origin(s', id, i) {
        if i < |s.logs[id]| {
          OldOrigin(s, s', id, i);
        } else {
          NewOrigin(s, s', q, append, contents);
        }
      }
    }
  }

  lemma OldOrigin(s: State, s': State, id: nat, i: nat)
    requires Carries(s, s') && Origin(s, id, i) && id in s'.logs && s.logs[id] <= s'.logs[id]
    ensures Origin(s', id, i)
  {
    assert SamePs(s, s', id) && SamePs(s, s', s.logs[id][i].id);
    assert s.logs[id][..i + 1] == s'.logs[id][..i + 1];
  }

  lemma NewOrigin(s: State, s': State, q: Query, append: bool, contents: seq<Content>)
    requires Inv(s) && GrantUpdate(s, s', q, append, contents)
    ensures Origin(s', q.id, |s.logs[q.id]|)
  {
    hide BlobInv, WriterInv, DhtOk, KeysInv, OriginsOk, StorePages, Insert, Grow, GrowLevel;
    var h := s'.logs[q.id];
    assert h[..|h|] == h;
  }

  lemma GrantInv(s: State, s': State, q: Query, append: bool, contents: seq<Content>)
    requires Inv(s) && GrantUpdate(s, s', q, append, contents)
    ensures Inv(s')
  {
    hide BlobInv, WriterInv, DhtOk, GrantTicket, NewWriter, StorePages, GrantedWrite, OriginsOk, KeysInv;
    var u := (q.id, s.objs[q.id].currentTicket);
    GrantOwnBlob(s, s', q, append, contents);
    TicketFresh(s, q.id);
    forall w | w in s.writers ensures w in s'.writers && s'.writers[w] == s.writers[w] && WriterInv(s', w) {
      GrantOldWriter(s, s', q, append, contents, w);
    }
    forall i | i in s'.objs ensures BlobInv(s', i) {
      if i != q.id { GrantOtherBlob(s, s', q, append, contents, i); }
    }
    forall i | i in s'.objs ensures OriginsOk(s', i) {
      GrantOrigins(s, s', q, append, contents, i);
    }
    forall w | w in s'.writers ensures KeysInv(s', w) {
      GrantKeys(s, s', q, append, contents, w);
    }
    AssembleInv(s, s', q.id, u);
  }
}
