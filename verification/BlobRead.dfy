/** object_handler::read from end to end (client/object_handler.cpp:204-314): root, tree
    walk, page fetches, and the copy into the caller's buffer, in any reachable state of the
    whole store. */
module BlobRead {
  import opened Arithmetic
  import opened Metadata
  import opened Dyadic
  import opened History
  import opened VersionManager
  import opened Protocol
  import opened ProtocolInvariant
  import opened ReadLocations
  import opened Refinement
  import opened Shape
  import ByteRead

  datatype ReadResult = Done | Failed | BeyondRoot | NoVersion

  /** b is byte y of an array of pages. */
  predicate FlatByte(flat: map<nat, Content>, ps: nat, y: nat, b: Byte)
    requires ps > 0
  {
    y / ps in flat && y % ps < |flat[y / ps]| && b == flat[y / ps][y % ps]
  }

  /** Page p holds some byte of [offset, offset + size). */
  predicate Meets(ps: nat, offset: nat, size: nat, p: nat) {
    p * ps < offset + size && offset < (p + 1) * ps
  }

  /** The pages of the request are exactly those that the byte range meets. */
  lemma RangePages(ps: nat, offset: nat, size: nat, p: nat)
    requires ps > 0 && size > 0
    ensures var a := offset / ps; var n := ByteRead.PageCount(ps, offset % ps, size);
            a <= p < a + n <==> Meets(ps, offset, size, p)
  {
    ByteRead.SplitByte(ps, offset, size);
    StartsBelow(ps, offset + size, p);
    EndsAfter(ps, offset, p);
  }

  lemma StartsBelow(ps: nat, e: nat, p: nat)
    requires ps > 0
    ensures p * ps < e <==> p < e / ps + (if e % ps == 0 then 0 else 1)
  {
    DivMod(e, ps);
    if p < e / ps { MulStep(p, e / ps, ps); } else if e / ps < p { MulStep(e / ps, p, ps); }
  }

  lemma EndsAfter(ps: nat, offset: nat, p: nat)
    requires ps > 0
    ensures offset < (p + 1) * ps <==> offset / ps <= p
  {
    DivMod(offset, ps);
    Distribute(p, 1, ps);
    if p < offset / ps { MulStep(p, offset / ps, ps); } else if offset / ps < p { MulStep(offset / ps, p, ps); }
  }

  lemma RangeCount(ps: nat, offset: nat, size: nat)
    requires ps > 0 && size > 0
    ensures ByteRead.PageCount(ps, offset % ps, size) > 0
    ensures size + offset - (offset / ps) * ps == offset % ps + size && (offset + size) % ps == (offset % ps + size) % ps
  {
    ByteRead.EndRemainder(ps, offset, size);
    ByteRead.PageInCount(ps, offset % ps, size, 0);
  }

  /** A request that ends inside the root asks only for pages below it. */
  lemma InsideRoot(ps: nat, offset: nat, size: nat, level: nat)
    requires ps > 0 && size > 0 && offset + size <= Size(ps, level)
    ensures var b := offset / ps + ByteRead.PageCount(ps, offset % ps, size);
            b > 0 && Shift(b - 1, level) == 0
  {
    RangeCount(ps, offset, size);
    var b := offset / ps + ByteRead.PageCount(ps, offset % ps, size);
    RangePages(ps, offset, size, b - 1);
    BelowShift(ps, b - 1, level, 1);
  }

  lemma RootPageSize(s: State, id: nat, v: nat)
    requires Inv(s) && Readable(s, id, v)
    ensures s.objs[id].roots[v].pageSize == Ps(s.objs[id]) > 0
    ensures s.objs[id].roots[v].node.size == Size(Ps(s.objs[id]), RootLevel(VersionLog(s, id, v)))
  {
    hide TreeOk, PagesOk, WriterInv, DhtOk, WellFormed, QueueOk, OwnOk, SizesOk, StableShape, OriginsOk, KeysInv,
      Candidate, HasData;
    assert BlobInv(s, id);
    VersionFacts(s, id, v);
    assert AllRoots(s.objs[id])[v] == s.objs[id].roots[v];
  }

  predicate FlatPage(flat: map<nat, Content>, ps: nat, p: nat, page: Content) {
    p in flat && page == flat[p] && |page| == ps
  }

  /** pages[i] is page a + i of the flat array. */
  ghost predicate FlatPages(flat: map<nat, Content>, ps: nat, a: nat, pages: seq<Content>) {
    forall i: nat :: i < |pages| ==> FlatPage(flat, ps, a + i, pages[i])
  }

  lemma FlatNone(flat: map<nat, Content>, ps: nat, a: nat)
    ensures FlatPages(flat, ps, a, [])
  {
  }

  lemma FlatPush(flat: map<nat, Content>, ps: nat, a: nat, pages: seq<Content>, page: Content)
    requires FlatPages(flat, ps, a, pages) && FlatPage(flat, ps, a + |pages|, page)
    ensures FlatPages(flat, ps, a, pages + [page])
  {
    var more := pages + [page];
    forall i: nat | i < |more| ensures FlatPage(flat, ps, a + i, more[i]) {
      assert i < |pages| ==> more[i] == pages[i];
    }
  }

  /** The leaves name the keys of pages a.. of a version, all of them found. */
  ghost predicate Leaves(s: State, id: nat, v: nat, a: nat, leaves: seq<Slot>)
    requires Readable(s, id, v)
  {
    forall i: nat :: i < |leaves| ==> LeafOk(s, id, v, a + i, leaves[i])
  }

  ghost predicate LeafOk(s: State, id: nat, v: nat, p: nat, leaf: Slot)
    requires Readable(s, id, v)
  {
    && ReadPage(s, id, v, p).Page? && leaf == Key(ReadPage(s, id, v, p).key)
    && Shift(p, RootLevel(VersionLog(s, id, v))) == 0
  }

  lemma LeafPage(s: State, id: nat, v: nat, p: nat, leaf: Slot)
    requires Inv(s) && Readable(s, id, v) && LeafOk(s, id, v, p, leaf)
    ensures leaf.Key? && leaf.page in s.pages && FlatPage(Seen(s, id, v), Ps(s.objs[id]), p, s.pages[leaf.page])
  {
    hide Inv, Shift, ReadPage, Seen;
    ReadsAreWrites(s, id, v, p);
  }

  method FetchPages(s: State, leaves: array<Slot>, ghost id: nat, ghost v: nat, ghost a: nat)
    returns (pages: seq<Content>)
    requires Inv(s) && Readable(s, id, v) && Leaves(s, id, v, a, leaves[..])
    ensures |pages| == leaves.Length && FlatPages(Seen(s, id, v), Ps(s.objs[id]), a, pages)
  {
    hide Inv, Seen, FlatPages, FlatPage, LeafOk;
    pages := [];
    FlatNone(Seen(s, id, v), Ps(s.objs[id]), a);
    for i := 0 to leaves.Length
      invariant |pages| == i && FlatPages(Seen(s, id, v), Ps(s.objs[id]), a, pages)
    {
      assert LeafOk(s, id, v, a + i, leaves[..][i]);
      LeafPage(s, id, v, a + i, leaves[i]);
      FlatPush(Seen(s, id, v), Ps(s.objs[id]), a, pages, s.pages[leaves[i].page]);
      pages := pages + [s.pages[leaves[i].page]];
    }
  }

  /** A byte of the fetched pages is the flat array's byte. */
  lemma BytesAreFlat(flat: map<nat, Content>, ps: nat, offset: nat, pages: seq<Content>, x: nat, b: Byte)
    requires ps > 0 && FlatPages(flat, ps, offset / ps, pages) && ByteRead.ByteAt(ps, offset, pages, x, b)
    ensures FlatByte(flat, ps, offset + x, b)
  {
    var a, page := offset / ps, (offset + x) / ps;
    assert FlatPage(flat, ps, a + (page - a), pages[page - a]);
  }

  lemma PagesMet(flat: map<nat, Content>, ps: nat, offset: nat, size: nat)
    requires ps > 0 && size > 0
    ensures var a := offset / ps; var n := ByteRead.PageCount(ps, offset % ps, size);
            (forall p: nat :: a <= p < a + n ==> p in flat) <==> (forall p: nat :: Meets(ps, offset, size, p) ==> p in flat)
  {
    hide Meets;
    if p: nat :| Meets(ps, offset, size, p) && p !in flat {
      RangePages(ps, offset, size, p);
    } else {
      var a, n := offset / ps, ByteRead.PageCount(ps, offset % ps, size);
      forall p: nat | a <= p < a + n ensures p in flat {
        RangePages(ps, offset, size, p);
      }
    }
  }

  ghost predicate Located(s: State, id: nat, v: nat, a: nat, found: bool, slots: seq<Slot>)
    requires Readable(s, id, v)
  {
    && slots != []
    && (found <==> forall p: nat :: a <= p < a + |slots| ==> p in Seen(s, id, v))
    && (found ==> Leaves(s, id, v, a, slots))
  }

  lemma PageCountIs(ps: nat, d: nat, size: nat)
    requires ps > 0
    ensures ByteRead.PageCount(ps, d, size) == (d + size) / ps + (if (d + size) % ps == 0 then 0 else 1)
  {
  }

  /** The page-aligned range that a byte range is rounded out to. */
  method RequestRange(root: Root, offset: nat, size: nat) returns (range: Query, a: nat, n: nat)
    requires root.pageSize > 0 && size > 0
    ensures IsRange(range, root.pageSize, a, a + n)
    ensures a == offset / root.pageSize && (range.id, range.version) == (root.node.id, root.node.version)
    ensures n == ByteRead.PageCount(root.pageSize, offset % root.pageSize, size) > 0
  {
    hide ByteRead.PageCount;
    var ps := root.pageSize;
    RangeCount(ps, offset, size);
    a := offset / ps;
    var newOffset := a * ps;
    n := (size + offset - newOffset) / ps + (if (offset + size) % ps == 0 then 0 else 1);
    PageCountIs(ps, offset % ps, size);
    range := Query(root.node.id, root.node.version, newOffset, n * ps);
  }

  /** A finished request has located its pages. */
  lemma RequestLocates(s: State, id: nat, v: nat, a: nat, b: nat, found: bool, slots: seq<Slot>)
    requires Inv(s) && Readable(s, id, v) && a < b && Shift(b - 1, RootLevel(VersionLog(s, id, v))) == 0
    requires var r := PageRequest(s, id, v, a, b);
             && (found <==> r.AllFound()) && (found ==> slots == r.AllSlots()) && |slots| == b - a
    ensures Located(s, id, v, a, found, slots)
  {
    hide Inv, Shift, Seen, ReadTree;
    FoundIsSeen(s, id, v, a, b);
    if found {
      var r := PageRequest(s, id, v, a, b);
      forall i: nat | i < |slots| ensures LeafOk(s, id, v, a + i, slots[i]) {
        ShiftMonotone(a + i, b - 1, RootLevel(VersionLog(s, id, v)));
        assert r.View(a + i).Page?;
        assert r.View(a + i) == ReadPage(s, id, v, a + i);
        assert r.AllSlots()[i] == Key(KeyOf(r.View(a + i)));
      }
    }
  }

  /** What a client knows of a version: its root. */
  ghost predicate IsRoot(s: State, id: nat, v: nat, root: Root) {
    && Readable(s, id, v) && root == s.objs[id].roots[v] && root.pageSize == Ps(s.objs[id]) > 0
    && root.node.size == Size(root.pageSize, RootLevel(VersionLog(s, id, v)))
  }

  function PageOf(root: Root, offset: nat): nat
    requires root.pageSize > 0
  {
    offset / root.pageSize
  }

  function CountOf(root: Root, offset: nat, size: nat): nat
    requires root.pageSize > 0
  {
    ByteRead.PageCount(root.pageSize, offset % root.pageSize, size)
  }

  lemma RequestIs(s: State, id: nat, v: nat, root: Root, range: Query, a: nat, n: nat)
    requires IsRoot(s, id, v, root) && n > 0 && IsRange(range, root.pageSize, a, a + n)
    requires (range.id, range.version) == (root.node.id, root.node.version)
    ensures PageRequest(s, id, v, a, a + n)
         == Request(root.pageSize, s.dht, root.node, RootLevel(VersionLog(s, id, v)), range, a, a + n)
  {
    assert a + n - a == n;
  }

  /** Locations of the pages of a request: found exactly when the version has all of them. */
  method Locate(s: State, id: nat, v: nat, root: Root, offset: nat, size: nat) returns (found: bool, leaves: array<Slot>)
    requires root.pageSize > 0 && IsRoot(s, id, v, root) && size > 0 && offset + size <= root.node.size && Inv(s)
    ensures leaves.Length == CountOf(root, offset, size)
    ensures Located(s, id, v, PageOf(root, offset), found, leaves[..])
  {
    hide Inv, Shift, Size, IsRange, ByteRead.PageCount, Seen, WellPlaced, ReadTree, PageRequest;
    var ps := root.pageSize;
    var range, a, n := RequestRange(root, offset, size);
    leaves := new Slot[n](_ => Empty);
    InsideRoot(ps, offset, size, RootLevel(VersionLog(s, id, v)));
    RequestReady(s, id, v, a, a + n);
    RequestIs(s, id, v, root, range, a, n);
    var ok := ReadRecordLocations(Request(ps, s.dht, root.node, RootLevel(VersionLog(s, id, v)), range, a, a + n), leaves);
    found := ok && forall i :: 0 <= i < leaves.Length ==> leaves[i] != Empty;
    RequestLocates(s, id, v, a, a + n, found, leaves[..]);
  }

  /** A read in any reachable state fails exactly when it leaves the root or meets a page
      that the version does not have; otherwise buffer[x] is byte offset + x of the version,
      and nothing else changes.  In reach, the version is the array of pages with its
      history's writes applied in ticket order. */
  method ReadBlob(s: State, id: nat, v: nat, offset: nat, size: nat, buffer: array<Byte>) returns (r: ReadResult)
    requires Inv(s) && Readable(s, id, v) && 0 < size <= buffer.Length
    modifies buffer
    ensures HasData(VersionLog(s, id, v), s.data) && Ps(s.objs[id]) > 0
    ensures r == BeyondRoot <==> offset + size > s.objs[id].roots[v].node.size
    ensures r == Done <==> offset + size <= s.objs[id].roots[v].node.size
                           && forall p: nat :: Meets(Ps(s.objs[id]), offset, size, p) ==> p in Seen(s, id, v)
    ensures r == Done ==> forall x: nat :: x < size ==> FlatByte(Seen(s, id, v), Ps(s.objs[id]), offset + x, buffer[x])
    ensures AllInReach(VersionLog(s, id, v)) ==> Seen(s, id, v) == Flatten(VersionLog(s, id, v), s.data)
    ensures r != NoVersion
    ensures forall x: nat :: size <= x < buffer.Length ==> buffer[x] == old(buffer[x])
  {
    hide Inv, Seen, Flatten, Shift, Size, HasData, PagesOk, FlatPages, FlatByte, Meets, LeafOk, AllInReach, ByteRead.PageCount;
    RootPageSize(s, id, v);
    VersionHasData(s, id, v);
    if AllInReach(VersionLog(s, id, v)) { SeenIsFlat(s, id, v); }
    var root := s.objs[id].roots[v];
    if offset + size > root.node.size {
      return BeyondRoot;
    }
    ghost var seen := Seen(s, id, v);
    var found, leaves := Locate(s, id, v, root, offset, size);
    PagesMet(seen, root.pageSize, offset, size);
    if !found {
      return Failed;
    }
    var pages := FetchPages(s, leaves, id, v, offset / root.pageSize);
    PagesSized(seen, root.pageSize, offset / root.pageSize, pages);
    ByteRead.Read(offset, size, root.pageSize, pages, buffer);
    forall x: nat | x < size ensures FlatByte(seen, root.pageSize, offset + x, buffer[x]) {
      BytesAreFlat(seen, root.pageSize, offset, pages, x, buffer[x]);
    }
    return Done;
  }

  /** A root of size 0 is that of a blob without versions. */
  lemma SizedIsReadable(s: State, id: nat, v: nat)
    requires Inv(s) && id in s.objs && v < |s.objs[id].roots| && s.objs[id].roots[v].node.size > 0
    ensures Readable(s, id, v)
  {
    hide WriterInv, DhtOk, OriginsOk, KeysInv, TreeOk, PagesOk, QueueOk, OwnOk, SizesOk, WellFormed, RootSane;
    assert BlobInv(s, id);
    var o := s.objs[id];
    assert AllRoots(o)[v] == o.roots[v];
  }

  /** read, given a version number from 1 on: the root is the one that the version manager
      selects, and a version newer than it is refused.  On a blob that is no clone, exactly the
      published versions are read; a clone's first root keeps the version of its source. */
  method ReadAt(s: State, id: nat, version: nat, offset: nat, size: nat, buffer: array<Byte>)
    returns (r: ReadResult, ghost v: nat)
    requires Inv(s) && id in s.objs && s.objs[id].roots != [] && version >= 1 && 0 < size <= buffer.Length
    modifies buffer
    ensures v == if version < |s.objs[id].roots| then version else |s.objs[id].roots| - 1
    ensures r == NoVersion <==> |s.objs[id].roots| <= version && s.objs[id].roots[v].node.version < version
    ensures r == BeyondRoot <==> r != NoVersion && offset + size > s.objs[id].roots[v].node.size
    ensures r == Done || r == Failed ==> Readable(s, id, v) && Ps(s.objs[id]) > 0
    ensures r == Done ==> forall x: nat :: x < size ==> FlatByte(Seen(s, id, v), Ps(s.objs[id]), offset + x, buffer[x])
    ensures r == Failed ==> exists p: nat :: Meets(Ps(s.objs[id]), offset, size, p) && p !in Seen(s, id, v)
    ensures forall x: nat :: size <= x < buffer.Length ==> buffer[x] == old(buffer[x])
  {
    hide Inv, Seen, Flatten, HasData, FlatByte, Meets, AllInReach;
    var o := s.objs[id];
    v := if version < |o.roots| then version else |o.roots| - 1;
    RootVersions(s, id);
    var root := if version == 0 || version >= |o.roots| then o.roots[|o.roots| - 1] else o.roots[version];
    if root.node.version < version {
      return NoVersion, v;
    }
    if offset + size > root.node.size {
      return BeyondRoot, v;
    }
    SizedIsReadable(s, id, v);
    r := ReadBlob(s, id, if version < |o.roots| then version else |o.roots| - 1, offset, size, buffer);
  }

  lemma RootVersions(s: State, id: nat)
    requires Inv(s) && id in s.objs
    ensures forall v :: 1 <= v < |s.objs[id].roots| ==> s.objs[id].roots[v].node.version == v
  {
    hide WriterInv, DhtOk, OriginsOk, KeysInv, TreeOk, PagesOk, QueueOk, OwnOk, SizesOk, WellFormed, RootsOk;
    assert BlobInv(s, id);
  }

  lemma PagesSized(flat: map<nat, Content>, ps: nat, a: nat, pages: seq<Content>)
    requires FlatPages(flat, ps, a, pages)
    ensures ByteRead.Pages(ps, |pages|, pages)
  {
    forall i: nat | i < |pages| ensures |pages[i]| == ps {
      assert FlatPage(flat, ps, a + i, pages[i]);
    }
  }
}
