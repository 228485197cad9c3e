/** The version manager (vmanager/vmanagement.cpp): tickets, the queue of unfinished
    writes, and publication in ticket order. */
module VersionManager {
  import opened Metadata
  import opened Dyadic
  import opened WriteLocations

  /** A granted ticket that is not yet published. */
  datatype Interval = Interval(query: Query, root: Root, done: bool)

  /** obj_info.  `intervals` is the std::map in key order. */
  datatype ObjInfo = ObjInfo(roots: seq<Root>, intervals: seq<Interval>, currentTicket: nat,
                             maxSize: nat, progressSize: nat)

  function NewObj(id: nat, ps: nat, rc: nat): ObjInfo {
    ObjInfo([Root(Query(id, 0, 0, 0), rc, 0, ps)], [], 1, ps, 0)
  }

  function CloneObj(root: Root): ObjInfo {
    ObjInfo([root], [], 1, root.node.size, root.currentSize)
  }

  function LastRoot(o: ObjInfo): Root
    requires o.roots != []
  {
    o.roots[|o.roots| - 1]
  }

  // ---- The doubling loop ----

  function Doubled(m: nat, n: nat): nat
    decreases n
  {
    if n == 0 then m else Doubled(2 * m, n - 1)
  }

  /** The doubling loop ends exactly when it starts above zero or has nothing to cover. */
  lemma DoublingEndsIff(m: nat, need: nat)
    ensures (exists n: nat :: need <= Doubled(m, n)) <==> (m > 0 || need == 0)
  {
    if m > 0 {
      DoubledCovers(m, need);
      assert need <= Doubled(m, need);
    } else {
      assert need == 0 ==> need <= Doubled(m, 0);
      forall n: nat ensures Doubled(m, n) == 0 {
        DoubledZero(n);
      }
    }
  }

  lemma {:induction false} DoubledZero(n: nat)
    ensures Doubled(0, n) == 0
  {
    if n > 0 { DoubledZero(n - 1); }
  }

  lemma {:induction false} DoubledCovers(m: nat, n: nat)
    requires m > 0
    ensures Doubled(m, n) >= m + n
    decreases n
  {
    if n > 0 { DoubledCovers(2 * m, n - 1); }
  }

  function Grow(m: nat, need: nat): (r: nat)
    requires m > 0 || need == 0
    ensures m <= r && need <= r
    decreases need - m
  {
    if need <= m then m else Grow(2 * m, need)
  }

  /** The loop ends with the first doubling that covers the write. */
  lemma {:induction false} GrowIsLeast(m: nat, need: nat) returns (n: nat)
    requires m > 0
    ensures Grow(m, need) == Doubled(m, n) >= need
    ensures forall i: nat :: i < n ==> Doubled(m, i) < need
    decreases need - m
  {
    if need <= m {
      n := 0;
    } else {
      var k := GrowIsLeast(2 * m, need);
      n := k + 1;
      forall i: nat | i < n ensures Doubled(m, i) < need {
        assert Doubled(m, i) == if i == 0 then m else Doubled(2 * m, i - 1);
      }
    }
  }

  method GrowMaxSize(m: nat, need: nat) returns (r: nat)
    requires m > 0 || need == 0
    ensures r == Grow(m, need)
  {
    r := m;
    while need > r
      invariant r > 0 || need == 0
      invariant Grow(m, need) == Grow(r, need)
      decreases need - r
    {
      r := 2 * r;
    }
  }

  /** Among sizes ps * 2^k the loop stays on such a size. */
  function GrowLevel(ps: nat, k: nat, need: nat): (r: nat)
    requires ps > 0
    ensures k <= r && need <= Size(ps, r)
    decreases need - Size(ps, k)
  {
    SizePositive(ps, k);
    if need <= Size(ps, k) then k else GrowLevel(ps, k + 1, need)
  }

  lemma {:induction false} GrowIsSize(ps: nat, k: nat, need: nat)
    requires ps > 0
    ensures Size(ps, k) > 0 && Grow(Size(ps, k), need) == Size(ps, GrowLevel(ps, k, need))
    decreases need - Size(ps, k)
  {
    SizePositive(ps, k);
    if need > Size(ps, k) {
      GrowIsSize(ps, k + 1, need);
    }
  }

  // ---- Tickets ----

  function TicketOffset(o: ObjInfo, q: Query, append: bool): nat {
    if append then o.progressSize else q.offset
  }

  predicate CanGrant(o: ObjInfo, q: Query, append: bool) {
    o.maxSize > 0 || TicketOffset(o, q, append) + q.size == 0
  }

  /** The queue entry of a new ticket. */
  function NewInterval(o: ObjInfo, q: Query, append: bool): Interval
    requires o.roots != [] && CanGrant(o, q, append)
  {
    var offset := TicketOffset(o, q, append);
    var last := LastRoot(o);
    var size := Grow(o.maxSize, offset + q.size);
    var current := if offset + q.size > last.currentSize then offset + q.size else last.currentSize;
    Interval(Query(q.id, o.currentTicket, offset, q.size),
             Root(Query(q.id, o.currentTicket, last.node.offset, size), last.replicaCount, current, last.pageSize),
             false)
  }

  /** std::map insertion in key order; an existing key is kept. */
  function Insert(intervals: seq<Interval>, e: Interval): seq<Interval> {
    if intervals == [] then [e]
    else if e.query.version < intervals[0].query.version then [e] + intervals
    else if e.query.version == intervals[0].query.version then intervals
    else [intervals[0]] + Insert(intervals[1..], e)
  }

  function GrantTicket(o: ObjInfo, q: Query, append: bool): ObjInfo
    requires o.roots != [] && CanGrant(o, q, append)
  {
    var e := NewInterval(o, q, append);
    var end := e.query.offset + e.query.size;
    ObjInfo(o.roots, Insert(o.intervals, e), o.currentTicket + 1, e.root.node.size,
            if end > LastRoot(o).currentSize then end else o.progressSize)
  }

  function Queries(intervals: seq<Interval>): seq<Query> {
    seq(|intervals|, i requires 0 <= i < |intervals| => intervals[i].query)
  }

  function TicketReply(o: ObjInfo): Reply
    requires o.roots != []
  {
    Reply(Queries(o.intervals), o.maxSize, LastRoot(o))
  }

  // ---- Publication ----

  function Find(intervals: seq<Interval>, version: nat): (i: nat)
    ensures i <= |intervals|
    ensures i < |intervals| ==> intervals[i].query.version == version
    ensures forall j :: 0 <= j < i ==> intervals[j].query.version != version
  {
    if intervals == [] then 0
    else if intervals[0].query.version == version then 0
    else 1 + Find(intervals[1..], version)
  }

  /** Finished writes at the head of the queue become roots. */
  function Drain(o: ObjInfo): ObjInfo
    decreases |o.intervals|
  {
    if o.intervals == [] || !o.intervals[0].done then o
    else Drain(o.(roots := o.roots + [o.intervals[0].root], intervals := o.intervals[1..]))
  }

  predicate IsPending(o: ObjInfo, version: nat) {
    Find(o.intervals, version) < |o.intervals|
  }

  function MarkDone(o: ObjInfo, version: nat): ObjInfo
    requires IsPending(o, version)
  {
    var i := Find(o.intervals, version);
    o.(intervals := o.intervals[i := o.intervals[i].(done := true)])
  }

  function PublishVersion(o: ObjInfo, version: nat): ObjInfo {
    if IsPending(o, version) then Drain(MarkDone(o, version)) else o
  }

  // ---- What every operation keeps ----

  /** Pending versions are exactly |roots| .. currentTicket - 1 and each root after the
      first carries its own index as version. */
  predicate InOrder(o: ObjInfo) {
    && o.roots != []
    && o.currentTicket == |o.roots| + |o.intervals|
    && (forall i :: 0 <= i < |o.intervals| ==>
          o.intervals[i].query.version == |o.roots| + i && o.intervals[i].root.node.version == |o.roots| + i)
    && (forall i :: 1 <= i < |o.roots| ==> o.roots[i].node.version == i)
  }

  /** The oldest unfinished write is at the head of the queue. */
  predicate HeadUnfinished(o: ObjInfo) {
    o.intervals != [] ==> !o.intervals[0].done
  }

  predicate ObjValid(o: ObjInfo) {
    InOrder(o) && HeadUnfinished(o)
  }

  lemma {:induction false} InsertIsAppend(intervals: seq<Interval>, e: Interval)
    requires forall i :: 0 <= i < |intervals| ==> intervals[i].query.version < e.query.version
    ensures Insert(intervals, e) == intervals + [e]
  {
    if intervals != [] {
      InsertIsAppend(intervals[1..], e);
      assert intervals == [intervals[0]] + intervals[1..];
    }
  }

  /** A ticket is appended to the queue. */
  lemma GrantAppends(o: ObjInfo, q: Query, append: bool)
    requires ObjValid(o) && CanGrant(o, q, append)
    ensures GrantTicket(o, q, append).intervals == o.intervals + [NewInterval(o, q, append)]
    ensures ObjValid(GrantTicket(o, q, append))
  {
    InsertIsAppend(o.intervals, NewInterval(o, q, append));
  }

  lemma FindInOrder(o: ObjInfo, version: nat)
    requires InOrder(o)
    ensures IsPending(o, version) <==> |o.roots| <= version < o.currentTicket
    ensures IsPending(o, version) ==> Find(o.intervals, version) == version - |o.roots|
  {
    if |o.roots| <= version < o.currentTicket {
      assert o.intervals[version - |o.roots|].query.version == version;
    }
  }

  lemma {:induction false} DrainKeepsOrder(o: ObjInfo)
    requires InOrder(o)
    ensures ObjValid(Drain(o))
    ensures Drain(o).currentTicket == o.currentTicket && Drain(o).maxSize == o.maxSize
    ensures Drain(o).progressSize == o.progressSize
    decreases |o.intervals|
  {
    if o.intervals != [] && o.intervals[0].done {
      DrainKeepsOrder(o.(roots := o.roots + [o.intervals[0].root], intervals := o.intervals[1..]));
    }
  }

  /** The roots and queued roots, in version order, are never reordered or lost. */
  function AllRoots(o: ObjInfo): seq<Root> {
    o.roots + seq(|o.intervals|, i requires 0 <= i < |o.intervals| => o.intervals[i].root)
  }

  lemma {:induction false} DrainKeepsRoots(o: ObjInfo)
    ensures AllRoots(Drain(o)) == AllRoots(o) && o.roots <= Drain(o).roots
    ensures |Drain(o).roots| + |Drain(o).intervals| == |o.roots| + |o.intervals|
    ensures Drain(o).intervals == o.intervals[|Drain(o).roots| - |o.roots|..]
    ensures forall i :: 0 <= i < |Drain(o).roots| - |o.roots| ==> o.intervals[i].done
    decreases |o.intervals|
  {
    if o.intervals != [] && o.intervals[0].done {
      var next := o.(roots := o.roots + [o.intervals[0].root], intervals := o.intervals[1..]);
      DrainKeepsRoots(next);
      assert AllRoots(next) == AllRoots(o);
    }
  }

  lemma PublishKeepsValid(o: ObjInfo, version: nat)
    requires ObjValid(o)
    ensures ObjValid(PublishVersion(o, version))
    ensures AllRoots(PublishVersion(o, version)) == AllRoots(o) && o.roots <= PublishVersion(o, version).roots
    ensures PublishVersion(o, version).currentTicket == o.currentTicket
    ensures PublishVersion(o, version).maxSize == o.maxSize
    ensures PublishVersion(o, version).progressSize == o.progressSize
  {
    hide Drain, Find;
    if IsPending(o, version) {
      DrainKeepsOrder(MarkDone(o, version));
      DrainKeepsRoots(MarkDone(o, version));
      assert AllRoots(MarkDone(o, version)) == AllRoots(o);
    }
  }
}
