/** Whole runs of one blob at the version manager: publication is prefix-closed in ticket
    order, and appends tile the blob. */
module Publication {
  import opened Metadata
  import opened Dyadic
  import opened VersionManager

  datatype Op = Ticket(query: Query, append: bool) | Publish(version: nat)

  predicate Fresh(o: ObjInfo) {
    |o.roots| == 1 && o.intervals == [] && o.currentTicket == 1 && o.maxSize > 0
  }

  function Apply(o: ObjInfo, op: Op): ObjInfo
    requires o.roots != [] && o.maxSize > 0
  {
    match op
    case Ticket(q, append) => GrantTicket(o, q, append)
    case Publish(v) => PublishVersion(o, v)
  }

  /** The versions whose publish request was accepted. */
  function Accepted(o: ObjInfo, op: Op): set<nat> {
    if op.Publish? && IsPending(o, op.version) then {op.version} else {}
  }

  lemma ApplyKeeps(o: ObjInfo, op: Op)
    requires ObjValid(o) && o.maxSize > 0
    ensures ObjValid(Apply(o, op)) && Apply(o, op).maxSize > 0
  {
    match op
    case Ticket(q, append) => GrantAppends(o, q, append);
    case Publish(v) => PublishKeepsValid(o, v);
  }

  /** The state after a run, with the set of accepted publish requests. */
  ghost function Run(o: ObjInfo, ops: seq<Op>): (r: (ObjInfo, set<nat>))
    requires ObjValid(o) && o.maxSize > 0
    ensures ObjValid(r.0) && r.0.maxSize > 0
    decreases |ops|
  {
    if ops == [] then (o, {}) else
      var (before, published) := Run(o, ops[..|ops| - 1]);
      ApplyKeeps(before, ops[|ops| - 1]);
      (Apply(before, ops[|ops| - 1]), published + Accepted(before, ops[|ops| - 1]))
  }

  /** Published roots and finished queue entries are exactly the accepted requests. */
  ghost predicate Tracks(o: ObjInfo, published: set<nat>) {
    && InOrder(o)
    && (forall v :: v in published ==> 1 <= v < o.currentTicket)
    && (forall v: nat :: 1 <= v < |o.roots| ==> v in published)
    && (forall i :: 0 <= i < |o.intervals| ==> (o.intervals[i].done <==> |o.roots| + i in published))
  }

  lemma TicketTracks(o: ObjInfo, published: set<nat>, q: Query, append: bool)
    requires Tracks(o, published) && ObjValid(o) && o.maxSize > 0
    ensures Tracks(GrantTicket(o, q, append), published)
  {
    GrantAppends(o, q, append);
  }

  lemma MarkTracks(o: ObjInfo, published: set<nat>, v: nat)
    requires Tracks(o, published) && IsPending(o, v)
    ensures Tracks(MarkDone(o, v), published + {v})
  {
    hide Find;
    FindInOrder(o, v);
  }

  lemma {:induction false} DrainTracks(o: ObjInfo, published: set<nat>)
    requires Tracks(o, published)
    ensures Tracks(Drain(o), published)
    decreases |o.intervals|
  {
    if o.intervals != [] && o.intervals[0].done {
      var next := o.(roots := o.roots + [o.intervals[0].root], intervals := o.intervals[1..]);
      assert |o.roots| + 0 in published;
      forall i | 0 <= i < |next.intervals|
        ensures next.intervals[i].done <==> |next.roots| + i in published
      {
        assert next.intervals[i] == o.intervals[i + 1];
        assert |next.roots| + i == |o.roots| + (i + 1);
      }
      DrainTracks(next, published);
    }
  }

  lemma ApplyTracks(o: ObjInfo, published: set<nat>, op: Op)
    requires Tracks(o, published) && ObjValid(o) && o.maxSize > 0
    ensures Tracks(Apply(o, op), published + Accepted(o, op))
  {
    hide Tracks, ObjValid, Drain, MarkDone, GrantTicket;
    match op
    case Ticket(q, append) =>
      TicketTracks(o, published, q, append);
      assert published + {} == published;
    case Publish(v) =>
      if IsPending(o, v) {
        MarkTracks(o, published, v);
        DrainTracks(MarkDone(o, v), published + {v});
      } else {
        assert published + {} == published;
      }
  }

  lemma {:induction false} RunTracks(o: ObjInfo, ops: seq<Op>)
    requires Fresh(o)
    ensures Tracks(Run(o, ops).0, Run(o, ops).1)
    decreases |ops|
  {
    hide Apply, Accepted;
    if ops != [] {
      RunTracks(o, ops[..|ops| - 1]);
      var (before, published) := Run(o, ops[..|ops| - 1]);
      ApplyTracks(before, published, ops[|ops| - 1]);
    }
  }

  /** What tracking says about visibility. */
  lemma TrackedVisible(o: ObjInfo, published: set<nat>, v: nat)
    requires Tracks(o, published) && HeadUnfinished(o) && v >= 1
    ensures v < |o.roots| <==> forall u: nat :: 1 <= u <= v ==> u in published
  {
    if |o.roots| <= v {
      if o.intervals != [] {
        assert !o.intervals[0].done;
        assert |o.roots| + 0 !in published;
      } else {
        assert |o.roots| !in published;
      }
    }
  }

  /** In every run, version v is visible exactly when tickets 1..v have all been published,
      in whatever order the requests came; and it is visible as root number v. */
  lemma VisibleIffPrefixPublished(o: ObjInfo, ops: seq<Op>, v: nat)
    requires Fresh(o) && v >= 1
    ensures v < |Run(o, ops).0.roots| <==> forall u: nat :: 1 <= u <= v ==> u in Run(o, ops).1
    ensures v < |Run(o, ops).0.roots| ==> Run(o, ops).0.roots[v].node.version == v
  {
    var (s, published) := Run(o, ops);
    RunTracks(o, ops);
    TrackedVisible(s, published, v);
  }

  // ---- Append-only runs ----

  predicate AppendOnly(ops: seq<Op>) {
    forall i :: 0 <= i < |ops| && ops[i].Ticket? ==> ops[i].append && ops[i].query.size > 0
  }

  /** The sizes of the first v appends of a run. */
  function AppendSizes(ops: seq<Op>): seq<nat> {
    if ops == [] then []
    else
      AppendSizes(ops[..|ops| - 1]) +
      (match ops[|ops| - 1] case Ticket(q, _) => [q.size] case Publish(_) => [])
  }

  function Sum(s: seq<nat>): nat {
    if s == [] then 0 else Sum(s[..|s| - 1]) + s[|s| - 1]
  }

  /** Version v covers [start + first v-1 sizes, start + first v sizes) and its current size
      is the end of that range. */
  ghost predicate Tiled(o: ObjInfo, start: nat, sizes: seq<nat>) {
    && InOrder(o)
    && o.currentTicket == |sizes| + 1
    && o.progressSize == start + Sum(sizes)
    && o.progressSize <= o.maxSize
    && (forall i :: 0 <= i < |o.roots| ==> i <= |sizes| && o.roots[i].currentSize == start + Sum(sizes[..i]))
    && (forall i :: 0 <= i < |o.intervals| ==> Grant(o.intervals[i], start, sizes, |o.roots| + i))
  }

  ghost predicate Grant(e: Interval, start: nat, sizes: seq<nat>, v: nat) {
    && 1 <= v <= |sizes|
    && e.query.offset == start + Sum(sizes[..v - 1])
    && e.query.size == sizes[v - 1]
    && e.root.currentSize == start + Sum(sizes[..v])
    && e.query.offset + e.query.size <= e.root.node.size
  }

  lemma SumPrefix(s: seq<nat>, t: seq<nat>, i: nat)
    requires i <= |s|
    ensures (s + t)[..i] == s[..i]
  {
  }

  lemma {:induction false} SumMonotone(s: seq<nat>, i: nat)
    requires i <= |s|
    ensures Sum(s[..i]) <= Sum(s)
  {
    if i < |s| {
      assert s[..|s| - 1][..i] == s[..i];
      SumMonotone(s[..|s| - 1], i);
    } else {
      assert s[..i] == s;
    }
  }

  lemma GrantMore(e: Interval, start: nat, sizes: seq<nat>, size: nat, v: nat)
    requires Grant(e, start, sizes, v)
    ensures Grant(e, start, sizes + [size], v)
  {
    hide Sum;
    SumPrefix(sizes, [size], v);
    SumPrefix(sizes, [size], v - 1);
  }

  lemma SumPush(s: seq<nat>, x: nat)
    ensures Sum(s + [x]) == Sum(s) + x
  {
    assert (s + [x])[..|s|] == s;
  }

  lemma NewGrantIs(e: Interval, start: nat, sizes: seq<nat>, size: nat)
    requires e.query.offset == start + Sum(sizes) && e.query.size == size
    requires e.root.currentSize == start + Sum(sizes) + size && e.query.offset + e.query.size <= e.root.node.size
    ensures Grant(e, start, sizes + [size], |sizes| + 1)
  {
    hide Sum;
    var more := sizes + [size];
    assert more[..|sizes|] == sizes && more[..|more|] == more;
    SumPush(sizes, size);
  }

  lemma NewGrant(o: ObjInfo, start: nat, sizes: seq<nat>, q: Query)
    requires Tiled(o, start, sizes) && ObjValid(o) && o.maxSize > 0 && q.size > 0
    ensures Grant(NewInterval(o, q, true), start, sizes + [q.size], |sizes| + 1)
    ensures GrantTicket(o, q, true).progressSize == start + Sum(sizes + [q.size])
    ensures GrantTicket(o, q, true).progressSize <= GrantTicket(o, q, true).maxSize
  {
    hide Insert, ObjValid, Sum, Grant;
    var more := sizes + [q.size];
    assert more[..|sizes|] == sizes && more[..|more|] == more;
    SumPush(sizes, q.size);
    SumMonotone(sizes, |o.roots| - 1);
    NewGrantIs(NewInterval(o, q, true), start, sizes, q.size);
  }

  lemma AppendTiles(o: ObjInfo, start: nat, sizes: seq<nat>, q: Query)
    requires Tiled(o, start, sizes) && ObjValid(o) && o.maxSize > 0 && q.size > 0
    ensures Tiled(GrantTicket(o, q, true), start, sizes + [q.size])
  {
    hide Sum, Insert, Grow, Grant;
    GrantAppends(o, q, true);
    NewGrant(o, start, sizes, q);
    var o', more := GrantTicket(o, q, true), sizes + [q.size];
    forall i | 0 <= i < |o'.roots| ensures i <= |more| && o'.roots[i].currentSize == start + Sum(more[..i]) {
      SumPrefix(sizes, [q.size], i);
    }
    forall i | 0 <= i < |o'.intervals| ensures Grant(o'.intervals[i], start, more, |o'.roots| + i) {
      if i < |o.intervals| {
        GrantMore(o.intervals[i], start, sizes, q.size, |o.roots| + i);
      }
    }
  }

  lemma {:induction false} DrainTiles(o: ObjInfo, start: nat, sizes: seq<nat>)
    requires Tiled(o, start, sizes)
    ensures Tiled(Drain(o), start, sizes)
    decreases |o.intervals|
  {
    hide Sum;
    if o.intervals != [] && o.intervals[0].done {
      var next := o.(roots := o.roots + [o.intervals[0].root], intervals := o.intervals[1..]);
      assert Grant(o.intervals[0], start, sizes, |o.roots|);
      forall i | 0 <= i < |next.intervals| ensures Grant(next.intervals[i], start, sizes, |next.roots| + i) {
        assert Grant(o.intervals[i + 1], start, sizes, |o.roots| + i + 1);
      }
      DrainTiles(next, start, sizes);
    }
  }

  lemma MarkTiles(o: ObjInfo, start: nat, sizes: seq<nat>, v: nat)
    requires Tiled(o, start, sizes) && IsPending(o, v)
    ensures Tiled(MarkDone(o, v), start, sizes)
  {
    hide Sum;
    var m := MarkDone(o, v);
    forall i | 0 <= i < |m.intervals| ensures Grant(m.intervals[i], start, sizes, |m.roots| + i) {
      assert Grant(o.intervals[i], start, sizes, |o.roots| + i);
    }
  }

  /** In an append-only run the granted ranges tile the blob from its initial size, each
      version's current size is the end of its own range, and the root covers it all, for
      every order of publication. */
  lemma {:induction false} AppendsTile(o: ObjInfo, ops: seq<Op>)
    requires Fresh(o) && AppendOnly(ops)
    requires o.progressSize == o.roots[0].currentSize && o.progressSize <= o.maxSize
    ensures Tiled(Run(o, ops).0, o.progressSize, AppendSizes(ops))
    decreases |ops|
  {
    if ops != [] {
      var op := ops[|ops| - 1];
      AppendsTile(o, ops[..|ops| - 1]);
      var before := Run(o, ops[..|ops| - 1]).0;
      var sizes := AppendSizes(ops[..|ops| - 1]);
      match op
      case Ticket(q, append) => AppendTiles(before, o.progressSize, sizes, q);
      case Publish(v) =>
        assert AppendSizes(ops) == sizes;
        if IsPending(before, v) {
          MarkTiles(before, o.progressSize, sizes, v);
          DrainTiles(MarkDone(before, v), o.progressSize, sizes);
        }
    }
  }

  // ---- Root sizes ----

  /** The tree root is always a page size times a power of two, and it only grows. */
  lemma GrantKeepsDyadic(o: ObjInfo, q: Query, append: bool, ps: nat, k: nat)
    requires ObjValid(o) && ps > 0 && o.maxSize == Size(ps, k) && CanGrant(o, q, append)
    ensures var e := NewInterval(o, q, append);
            var k' := GrowLevel(ps, k, e.query.offset + e.query.size);
            && k <= k' && GrantTicket(o, q, append).maxSize == Size(ps, k') == e.root.node.size
            && e.query.offset + e.query.size <= e.root.node.size
  {
    GrowIsSize(ps, k, TicketOffset(o, q, append) + q.size);
  }
}
