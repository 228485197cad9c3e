/** What the version manager promises about sizes and replica counts, over every run of the
    whole store (vmanager/vmanagement.cpp:94-110, common/structures.hpp:145-153). */
module BlobSizes {
  import opened Metadata
  import opened Dyadic
  import opened History
  import opened VersionManager
  import opened Protocol
  import opened ProtocolInvariant
  import opened ProtocolGrant
  import opened Refinement
  import Publication

  /** Where a write ends, in bytes. */
  function End(ps: nat, w: Write): nat {
    (w.last + 1) * ps
  }

  /** The largest end of all writes of a log. */
  function MaxEnd(ps: nat, h: Log): nat {
    if h == [] then 0
    else if End(ps, h[|h| - 1]) > MaxEnd(ps, h[..|h| - 1]) then End(ps, h[|h| - 1])
    else MaxEnd(ps, h[..|h| - 1])
  }

  /** MaxEnd is the least bound on the ends. */
  lemma {:induction false} MaxEndIs(ps: nat, h: Log)
    ensures forall i :: 0 <= i < |h| ==> End(ps, h[i]) <= MaxEnd(ps, h)
    ensures h != [] ==> exists i :: 0 <= i < |h| && End(ps, h[i]) == MaxEnd(ps, h)
  {
    if h != [] {
      MaxEndIs(ps, h[..|h| - 1]);
      if |h| > 1 {
        var i :| 0 <= i < |h| - 1 && End(ps, h[..|h| - 1][i]) == MaxEnd(ps, h[..|h| - 1]);
        assert End(ps, h[i]) == MaxEnd(ps, h[..|h| - 1]);
      }
      assert End(ps, h[|h| - 1]) == MaxEnd(ps, h) || MaxEnd(ps, h) == MaxEnd(ps, h[..|h| - 1]);
    }
  }

  lemma {:induction false} MaxEndPrefix(ps: nat, h: Log, n: nat)
    requires n <= |h|
    ensures MaxEnd(ps, h[..n]) <= MaxEnd(ps, h)
  {
    if n < |h| {
      assert h[..|h| - 1][..n] == h[..n];
      MaxEndPrefix(ps, h[..|h| - 1], n);
    } else {
      assert h[..n] == h;
    }
  }

  /** A recorded size never exceeds what has been written and covers the own write; `exact`
      says that it is what has been written. */
  predicate SizeOf(ps: nat, h: Log, own: bool, size: nat, exact: bool) {
    && size <= MaxEnd(ps, h)
    && (own && h != [] ==> End(ps, h[|h| - 1]) <= size)
    && (exact ==> size == MaxEnd(ps, h))
  }

  ghost predicate Measured(o: ObjInfo, h: Log, b: nat, exact: bool) {
    && o.roots != [] && b <= |h| && |AllRoots(o)| == |h| - b + 1
    && (forall i :: 0 <= i < |AllRoots(o)| ==> SizeOf(Ps(o), h[..b + i], i > 0, AllRoots(o)[i].currentSize, exact))
    && (forall i :: 0 <= i < |AllRoots(o)| ==> AllRoots(o)[i].replicaCount == o.roots[0].replicaCount)
    && SizeOf(Ps(o), h, false, o.progressSize, exact)
    && (|h| == b ==> o.progressSize == o.roots[0].currentSize)
  }

  // ---- One step ----

  lemma NewMeasured(id: nat, ps: nat, rc: nat, exact: bool)
    ensures var o := NewObj(id, ps, rc); Measured(o, [], 0, exact) && o.roots[0].replicaCount == rc
  {
    assert AllRoots(NewObj(id, ps, rc)) == NewObj(id, ps, rc).roots;
  }

  lemma CloneMeasured(o: ObjInfo, h: Log, b: nat, i: nat, exact: bool)
    requires Measured(o, h, b, exact) && i < |o.roots| && RootsPs(o)
    ensures b + i <= |h| && Measured(CloneObj(o.roots[i]), h[..b + i], b + i, exact)
    ensures CloneObj(o.roots[i]).roots[0].replicaCount == o.roots[0].replicaCount
  {
    var g, c := h[..b + i], CloneObj(o.roots[i]);
    assert AllRoots(o)[i] == o.roots[i];
    assert AllRoots(c) == c.roots && g[..b + i] == g;
  }

  predicate RootsPs(o: ObjInfo)
    requires o.roots != []
  {
    forall i :: 0 <= i < |o.roots| ==> o.roots[i].pageSize == Ps(o)
  }

  lemma BlobRootsPs(id: nat, o: ObjInfo, h: Log, b: nat)
    requires BlobOk(id, o, h, b)
    ensures o.roots != [] && RootsPs(o)
  {
    hide WellFormed, QueueOk, OwnOk, SizesOk;
    forall i | 0 <= i < |o.roots| ensures o.roots[i].pageSize == Ps(o) {
      assert AllRoots(o)[i] == o.roots[i];
    }
  }

  lemma PushEnd(ps: nat, h: Log, w: Write)
    ensures MaxEnd(ps, h + [w]) == if End(ps, w) > MaxEnd(ps, h) then End(ps, w) else MaxEnd(ps, h)
  {
    assert (h + [w])[..|h|] == h;
  }

  /** The size arithmetic of a ticket.  With nothing pending the last published root has the
      exact size of everything written. */
  lemma GrantSizes(o: ObjInfo, h: Log, b: nat, q: Query, append: bool, n: nat, exact: bool)
    requires Measured(o, h, b, exact) && ObjValid(o) && Ps(o) > 0 && q.size > 0 && CanGrant(o, q, append)
    requires GrantFacts(o, h, q, append, n) && (exact ==> o.intervals == [])
    ensures var o', w := GrantTicket(o, q, append), GrantedWrite(o, h, q, append);
            && SizeOf(Ps(o), h + [w], true, NewInterval(o, q, append).root.currentSize, exact)
            && SizeOf(Ps(o), h + [w], false, o'.progressSize, exact)
  {
    hide Insert, Grow, GrowLevel, Shift, MaxEnd;
    var w, last := GrantedWrite(o, h, q, append), |o.roots| - 1;
    assert AllRoots(o)[last] == LastRoot(o);
    MaxEndPrefix(Ps(o), h, b + last);
    PushEnd(Ps(o), h, w);
    if exact { assert h[..b + last] == h; }
  }

  lemma GrantMeasured(o: ObjInfo, h: Log, b: nat, q: Query, append: bool, n: nat, exact: bool)
    requires Measured(o, h, b, exact) && ObjValid(o) && Ps(o) > 0 && q.size > 0 && CanGrant(o, q, append)
    requires GrantFacts(o, h, q, append, n) && (exact ==> o.intervals == [])
    ensures Measured(GrantTicket(o, q, append), h + [GrantedWrite(o, h, q, append)], b, exact)
  {
    hide Insert, Grow, GrowLevel, Shift, GrantFacts, GrantedWrite, SizeOf;
    GrantAppends(o, q, append);
    GrantSizes(o, h, b, q, append, n, exact);
    var o', g := GrantTicket(o, q, append), h + [GrantedWrite(o, h, q, append)];
    assert AllRoots(o') == AllRoots(o) + [NewInterval(o, q, append).root];
    assert AllRoots(o)[|o.roots| - 1] == LastRoot(o);
    forall i | 0 <= i < |AllRoots(o')|
      ensures SizeOf(Ps(o), g[..b + i], i > 0, AllRoots(o')[i].currentSize, exact)
    {
      if i < |AllRoots(o)| {
        assert g[..b + i] == h[..b + i];
      } else {
        assert g[..b + i] == g;
      }
    }
  }

  lemma PublishMeasured(o: ObjInfo, h: Log, b: nat, v: nat, exact: bool)
    requires Measured(o, h, b, exact) && ObjValid(o)
    ensures Measured(PublishVersion(o, v), h, b, exact)
    ensures PublishVersion(o, v).roots[0] == o.roots[0]
  {
    hide Drain, Find, SizeOf, PublishVersion;
    PublishKeepsValid(o, v);
  }

  // ---- Runs ----

  ghost predicate AllMeasured(s: State, exact: bool) {
    && Tables(s)
    && forall id :: id in s.objs ==> Measured(s.objs[id], s.logs[id], s.bases[id], exact)
  }

  /** Every ticket of a run is granted when nothing of its blob is pending. */
  ghost predicate OneByOne(states: seq<State>, steps: seq<Step>)
    requires Run(states, steps)
  {
    forall i :: 0 <= i < |steps| && steps[i].Grant? ==> Alone(states[i], steps[i].query.id)
  }

  predicate Alone(s: State, id: nat) {
    id in s.objs && s.objs[id].intervals == []
  }

  lemma BlobGrants(s: State, q: Query, append: bool, contents: seq<Content>)
    requires Inv(s) && Enabled(s, Grant(q, append, contents))
    ensures var o, h := s.objs[q.id], s.logs[q.id];
            && ObjValid(o) && Ps(o) > 0 && q.size > 0 && CanGrant(o, q, append)
            && GrantFacts(o, h, q, append, |contents|)
  {
    hide WriterInv, DhtOk, OriginsOk, KeysInv, TreeOk, PagesOk, GrantFacts, WellFormed, RootsOk, QueueOk, OwnOk;
    assert BlobInv(s, q.id);
    GrantIsGrantable(s, q, append, contents);
    GrantArithmetic(s.objs[q.id], s.logs[q.id], q, append, |contents|);
  }

  lemma GrantObj(s: State, q: Query, append: bool, contents: seq<Content>)
    requires Inv(s) && Enabled(s, Grant(q, append, contents))
    ensures var s', o, h := Next(s, Grant(q, append, contents)), s.objs[q.id], s.logs[q.id];
            && o.roots != [] && Ps(o) > 0 && q.size > 0 && CanGrant(o, q, append)
            && s'.objs == s.objs[q.id := GrantTicket(o, q, append)]
            && s'.logs == s.logs[q.id := h + [GrantedWrite(o, h, q, append)]] && s'.bases == s.bases
  {
    hide BlobInv, WriterInv, DhtOk, OriginsOk, KeysInv, NewWriter, StorePages, GrantedWrite, GrantTicket;
    GrantIsGrantable(s, q, append, contents);
  }

  lemma StepMeasured(s: State, step: Step, s': State, exact: bool)
    requires Inv(s) && Inv(s') && StepOf(s, step, s') && AllMeasured(s, exact)
    requires exact && step.Grant? ==> Alone(s, step.query.id)
    ensures AllMeasured(s', exact)
  {
    hide Inv, Enabled, Measured, Next;
    InvTables(s');
    match step
    case Create(ps, rc) => CreateMeasured(s, ps, rc, exact);
    case Clone(source, version) => CloneStepMeasured(s, source, version, exact);
    case Grant(q, append, contents) => GrantStepMeasured(s, q, append, contents, exact);
    case FetchNode(id, version, isLeft) => QuietMeasured(s, step, s', exact);
    case PutNode(id, version, k, x) => QuietMeasured(s, step, s', exact);
    case Publish(id, version) => PublishStepMeasured(s, id, version, exact);
  }

  lemma CreateMeasured(s: State, ps: nat, rc: nat, exact: bool)
    requires Inv(s) && Enabled(s, Create(ps, rc)) && AllMeasured(s, exact)
    requires Tables(Next(s, Create(ps, rc)))
    ensures AllMeasured(Next(s, Create(ps, rc)), exact)
  {
    hide BlobInv, WriterInv, DhtOk, OriginsOk, KeysInv, Measured, Inv, NewObj;
    NewMeasured(s.count + 1, ps, rc, exact);
  }

  lemma CloneStepMeasured(s: State, source: nat, version: nat, exact: bool)
    requires Inv(s) && Enabled(s, Clone(source, version)) && AllMeasured(s, exact)
    requires Tables(Next(s, Clone(source, version)))
    ensures AllMeasured(Next(s, Clone(source, version)), exact)
  {
    hide WriterInv, DhtOk, OriginsOk, KeysInv, Measured, TreeOk, PagesOk, BlobOk, CloneObj;
    assert BlobInv(s, source);
    BlobRootsPs(source, s.objs[source], s.logs[source], s.bases[source]);
    CloneMeasured(s.objs[source], s.logs[source], s.bases[source], SelectIndex(s.objs[source], version), exact);
    CloneSelects(s, source, version);
  }

  lemma CloneSelects(s: State, source: nat, version: nat)
    requires Tables(s) && source in s.objs
    ensures var i, id := SelectIndex(s.objs[source], version), s.count + 1;
            var s' := Next(s, Clone(source, version));
            && i < |s.objs[source].roots| && s.bases[source] + i <= |s.logs[source]|
            && s'.objs == s.objs[id := CloneObj(s.objs[source].roots[i])]
            && s'.logs == s.logs[id := s.logs[source][..s.bases[source] + i]]
            && s'.bases == s.bases[id := s.bases[source] + i]
  {
    hide CloneObj;
  }

  lemma GrantStepMeasured(s: State, q: Query, append: bool, contents: seq<Content>, exact: bool)
    requires Inv(s) && Enabled(s, Grant(q, append, contents)) && AllMeasured(s, exact)
    requires Tables(Next(s, Grant(q, append, contents))) && (exact ==> Alone(s, q.id))
    ensures AllMeasured(Next(s, Grant(q, append, contents)), exact)
  {
    hide BlobInv, WriterInv, DhtOk, OriginsOk, KeysInv, Measured, Inv, GrantFacts, GrantTicket, GrantedWrite, Next, Enabled;
    BlobGrants(s, q, append, contents);
    GrantObj(s, q, append, contents);
    GrantMeasured(s.objs[q.id], s.logs[q.id], s.bases[q.id], q, append, |contents|, exact);
  }

  lemma QuietMeasured(s: State, step: Step, s': State, exact: bool)
    requires StepOf(s, step, s') && AllMeasured(s, exact) && Tables(s') && (step.FetchNode? || step.PutNode?)
    ensures AllMeasured(s', exact)
  {
    hide Measured, Fetched, AllStored, CanTicket, Touch;
  }

  lemma PublishStepMeasured(s: State, id: nat, v: nat, exact: bool)
    requires Inv(s) && Enabled(s, Publish(id, v)) && AllMeasured(s, exact) && Tables(Next(s, Publish(id, v)))
    ensures AllMeasured(Next(s, Publish(id, v)), exact)
  {
    hide BlobInv, WriterInv, DhtOk, OriginsOk, KeysInv, Measured, AllStored, PublishVersion, ObjValid;
    PublishedBlob(s, id);
    PublishMeasured(s.objs[id], s.logs[id], s.bases[id], v, exact);
  }

  lemma PublishedBlob(s: State, id: nat)
    requires Inv(s) && id in s.objs
    ensures ObjValid(s.objs[id])
  {
    hide WriterInv, DhtOk, OriginsOk, KeysInv, TreeOk, PagesOk, BlobOk, ObjValid;
    assert BlobInv(s, id);
    BlobValid(id, s.objs[id], s.logs[id], s.bases[id]);
  }

  lemma BlobValid(id: nat, o: ObjInfo, h: Log, b: nat)
    requires BlobOk(id, o, h, b)
    ensures ObjValid(o)
  {
  }

  lemma {:induction false} RunMeasured(states: seq<State>, steps: seq<Step>, i: nat, exact: bool)
    requires Run(states, steps) && i < |states| && (exact ==> OneByOne(states, steps))
    ensures AllMeasured(states[i], exact)
  {
    hide Inv, StepOf, AllMeasured;
    if i == 0 {
      NothingMeasured(exact);
    } else {
      RunMeasured(states, steps, i - 1, exact);
      RunInv(states, steps, i - 1);
      RunInv(states, steps, i);
      StepMeasured(states[i - 1], steps[i - 1], states[i], exact);
    }
  }

  lemma NothingMeasured(exact: bool)
    ensures AllMeasured(INIT, exact)
  {
  }

  // ---- What it means ----

  /** In every run a published version's size covers its own write and is no larger than
      what its history has written; if every ticket was granted with nothing pending, it is
      the largest end of all writes of the history, and so is the offset of the next append. */
  lemma RunSizes(states: seq<State>, steps: seq<Step>, i: nat, id: nat, v: nat)
    requires Run(states, steps) && i < |states| && id in states[i].objs && v < |states[i].objs[id].roots|
    ensures var s := states[i];
            && Tables(s) && s.bases[id] + v <= |s.logs[id]|
            && var h, o := VersionLog(s, id, v), s.objs[id];
            && o.roots[v].currentSize <= MaxEnd(Ps(o), h)
            && (v > 0 ==> h != [] && End(Ps(o), h[|h| - 1]) <= o.roots[v].currentSize)
            && o.progressSize <= MaxEnd(Ps(o), s.logs[id])
            && (OneByOne(states, steps) ==>
                  o.roots[v].currentSize == MaxEnd(Ps(o), h) && o.progressSize == MaxEnd(Ps(o), s.logs[id]))
  {
    hide Inv, Run;
    var s := states[i];
    RunMeasured(states, steps, i, false);
    MeasuredRoot(s, id, v, false);
    if OneByOne(states, steps) {
      RunMeasured(states, steps, i, true);
      MeasuredRoot(s, id, v, true);
    }
  }

  lemma MeasuredRoot(s: State, id: nat, v: nat, exact: bool)
    requires AllMeasured(s, exact) && id in s.objs && v < |s.objs[id].roots|
    ensures s.bases[id] + v <= |s.logs[id]|
    ensures SizeOf(Ps(s.objs[id]), VersionLog(s, id, v), v > 0, s.objs[id].roots[v].currentSize, exact)
    ensures SizeOf(Ps(s.objs[id]), s.logs[id], false, s.objs[id].progressSize, exact)
    ensures s.objs[id].roots[v].replicaCount == s.objs[id].roots[0].replicaCount
    ensures v > 0 ==> VersionLog(s, id, v) != []
  {
    hide SizeOf;
    assert Measured(s.objs[id], s.logs[id], s.bases[id], exact);
    assert AllRoots(s.objs[id])[v] == s.objs[id].roots[v];
  }

  /** Before its first own ticket a blob appends at the size of its first root. */
  lemma FirstAppend(states: seq<State>, steps: seq<Step>, i: nat, id: nat)
    requires Run(states, steps) && i < |states| && id in states[i].objs && Tables(states[i])
    requires |states[i].logs[id]| == states[i].bases[id]
    ensures states[i].objs[id].progressSize == states[i].objs[id].roots[0].currentSize
  {
    hide Run, SizeOf;
    RunMeasured(states, steps, i, false);
    var s := states[i];
    assert Measured(s.objs[id], s.logs[id], s.bases[id], false);
  }

  // ---- What Create and Clone settle for good ----

  lemma FirstRootStays(states: seq<State>, steps: seq<Step>, i: nat, j: nat, id: nat)
    requires Run(states, steps) && i <= j < |states| && id in states[i].objs && states[i].objs[id].roots != []
    ensures id in states[j].objs && states[j].objs[id].roots != []
    ensures states[j].objs[id].roots[0] == states[i].objs[id].roots[0]
  {
    hide Run, Inv;
    RunGrows(states, steps, i, j);
    assert BlobExtends(states[i], states[j], id);
    assert states[i].objs[id].roots <= states[j].objs[id].roots;
  }

  /** From its creation on, every root of a blob has the page size and replica count that it
      was created with, and the first append starts at 0. */
  lemma CreatedFor(states: seq<State>, steps: seq<Step>, i: nat, j: nat, ps: nat, rc: nat)
    requires Run(states, steps) && i < |steps| && steps[i] == Create(ps, rc) && i < j < |states|
    ensures var s, id := states[j], states[i].count + 1;
            && id in s.objs && Tables(s)
            && (forall v :: 0 <= v < |s.objs[id].roots| ==>
                  s.objs[id].roots[v].pageSize == ps && s.objs[id].roots[v].replicaCount == rc)
            && (|s.logs[id]| == s.bases[id] ==> s.objs[id].progressSize == 0)
  {
    hide Run, Inv, Tables;
    var id := states[i].count + 1;
    CreatedRoot(states, steps, i, ps, rc);
    FirstRootStays(states, steps, i + 1, j, id);
    RunInv(states, steps, j);
    RootsAlike(states, steps, j, id);
    InvTables(states[j]);
    if |states[j].logs[id]| == states[j].bases[id] { FirstAppend(states, steps, j, id); }
  }

  lemma CreatedRoot(states: seq<State>, steps: seq<Step>, i: nat, ps: nat, rc: nat)
    requires Run(states, steps) && i < |steps| && steps[i] == Create(ps, rc)
    ensures var o, id := states[i + 1].objs, states[i].count + 1;
            id in o && |o[id].roots| == 1 && o[id].roots[0].pageSize == ps && o[id].roots[0].replicaCount == rc
            && o[id].roots[0].currentSize == 0
  {
    assert StepOf(states[i], steps[i], states[i + 1]);
  }

  lemma RootsAlike(states: seq<State>, steps: seq<Step>, i: nat, id: nat)
    requires Run(states, steps) && i < |states| && id in states[i].objs
    ensures var o := states[i].objs[id];
            && o.roots != []
            && forall v :: 0 <= v < |o.roots| ==>
                 o.roots[v].pageSize == o.roots[0].pageSize && o.roots[v].replicaCount == o.roots[0].replicaCount
  {
    hide Run, BlobOk, TreeOk, PagesOk, WriterInv, DhtOk, OriginsOk, KeysInv, AllMeasured;
    var s := states[i];
    RunInv(states, steps, i);
    assert BlobInv(s, id);
    BlobRootsPs(id, s.objs[id], s.logs[id], s.bases[id]);
    RunMeasured(states, steps, i, false);
    forall v: nat | v < |s.objs[id].roots| ensures s.objs[id].roots[v].replicaCount == s.objs[id].roots[0].replicaCount {
      MeasuredRoot(s, id, v, false);
    }
  }

  /** From its making on, every root of a clone has the page size and replica count of its
      source, and its first append starts where the version it was made from ended. */
  lemma ClonedFor(states: seq<State>, steps: seq<Step>, i: nat, j: nat, source: nat, version: nat)
    requires Run(states, steps) && i < |steps| && steps[i] == Clone(source, version) && i < j < |states|
    ensures Tables(states[i]) && source in states[i].objs
    ensures var s, id, o := states[j], states[i].count + 1, states[i].objs[source];
            && id in s.objs && Tables(s)
            && (forall v :: 0 <= v < |s.objs[id].roots| ==>
                  && s.objs[id].roots[v].pageSize == o.roots[0].pageSize
                  && s.objs[id].roots[v].replicaCount == o.roots[0].replicaCount)
            && (|s.logs[id]| == s.bases[id] ==>
                  s.objs[id].progressSize == if 1 <= version < |o.roots| then o.roots[version].currentSize
                                             else o.roots[|o.roots| - 1].currentSize)
  {
    hide Run, Inv, Tables;
    var id := states[i].count + 1;
    ClonedRoot(states, steps, i, source, version);
    RootsAlike(states, steps, i, source);
    FirstRootStays(states, steps, i + 1, j, id);
    RunInv(states, steps, j);
    RootsAlike(states, steps, j, id);
    InvTables(states[j]);
    if |states[j].logs[id]| == states[j].bases[id] { FirstAppend(states, steps, j, id); }
  }

  lemma ClonedRoot(states: seq<State>, steps: seq<Step>, i: nat, source: nat, version: nat)
    requires Run(states, steps) && i < |steps| && steps[i] == Clone(source, version)
    ensures Tables(states[i]) && source in states[i].objs
    ensures var os, o, id := states[i + 1].objs, states[i].objs[source], states[i].count + 1;
            && id in os && |os[id].roots| == 1
            && os[id].roots[0] == if 1 <= version < |o.roots| then o.roots[version] else o.roots[|o.roots| - 1]
  {
    assert StepOf(states[i], steps[i], states[i + 1]);
    CloneShares(states[i], source, version);
  }

  // ---- Tickets ----

  /** What a ticket adds to the log: the pages asked for, from the offset asked for or, for
      an append, from the progress size on. */
  lemma TicketLogged(s: State, q: Query, append: bool, contents: seq<Content>)
    requires Inv(s) && Enabled(s, Grant(q, append, contents))
    ensures var s', o, h := Next(s, Grant(q, append, contents)), s.objs[q.id], s.logs[q.id];
            && q.id in s'.objs && q.id in s'.logs && |s'.logs[q.id]| == |h| + 1 && s'.logs[q.id][..|h|] == h
            && var w := s'.logs[q.id][|h|];
            && o.roots != [] && w.first * Ps(o) == (if append then o.progressSize else q.offset)
            && w.last + 1 == w.first + |contents| && w.id == q.id && w.version == o.currentTicket && w.tag == q.version
  {
    hide BlobInv, WriterInv, DhtOk, OriginsOk, KeysInv, GrantTicket, GrantedWrite, Next, Enabled;
    TicketOn(s, Grant(q, append, contents));
    BlobGrants(s, q, append, contents);
    GrantObj(s, q, append, contents);
    TicketFacts(s.objs[q.id], s.logs[q.id], q, append, |contents|);
    TicketRange(s.objs[q.id], s.logs[q.id], q, append, |contents|);
  }

  lemma TicketFacts(o: ObjInfo, h: Log, q: Query, append: bool, n: nat)
    requires o.roots != [] && Ps(o) > 0 && q.size > 0 && CanGrant(o, q, append) && GrantFacts(o, h, q, append, n)
    ensures var w := GrantedWrite(o, h, q, append);
            w.last + 1 == w.first + n && w.id == q.id && w.version == o.currentTicket && w.tag == q.version
  {
    hide Grow, GrowLevel, Shift;
  }

  lemma TicketRange(o: ObjInfo, h: Log, q: Query, append: bool, n: nat)
    requires o.roots != [] && Ps(o) > 0 && q.size > 0 && CanGrant(o, q, append) && GrantFacts(o, h, q, append, n)
    ensures GrantedWrite(o, h, q, append).first * Ps(o) == if append then o.progressSize else q.offset
  {
    hide Grow, GrowLevel, Shift;
  }

  /** If every ticket was granted with nothing pending, an append starts where the blob's
      history ends. */
  lemma AppendStartsAtEnd(states: seq<State>, steps: seq<Step>, i: nat)
    requires Run(states, steps) && OneByOne(states, steps) && i < |steps| && steps[i].Grant? && steps[i].append
    ensures var s, id := states[i], steps[i].query.id;
            && id in s.objs && id in s.logs && s.objs[id].roots != []
            && id in states[i + 1].logs && |s.logs[id]| < |states[i + 1].logs[id]|
            && states[i + 1].logs[id][|s.logs[id]|].first * Ps(s.objs[id]) == MaxEnd(Ps(s.objs[id]), s.logs[id])
  {
    hide Inv, Next, Enabled, MaxEnd;
    assert StepOf(states[i], steps[i], states[i + 1]);
    RunInv(states, steps, i);
    TicketOn(states[i], steps[i]);
    TicketLogged(states[i], steps[i].query, true, steps[i].contents);
    RunSizes(states, steps, i, steps[i].query.id, 0);
  }

  lemma TicketOn(s: State, step: Step)
    requires Tables(s) && step.Grant? && Enabled(s, step)
    ensures step.query.id in s.objs && s.objs[step.query.id].roots != []
  {
  }

  // ---- Appends tile new blobs and clones ----

  /** Append-only runs on a new blob tile it from 0. */
  lemma NewBlobAppends(id: nat, ps: nat, rc: nat, ops: seq<Publication.Op>)
    requires ps > 0 && Publication.AppendOnly(ops)
    ensures Publication.Fresh(NewObj(id, ps, rc))
    ensures Publication.Tiled(Publication.Run(NewObj(id, ps, rc), ops).0, 0, Publication.AppendSizes(ops))
  {
    hide Publication.Run, Publication.Tiled, Publication.AppendSizes, Publication.AppendOnly;
    Publication.AppendsTile(NewObj(id, ps, rc), ops);
  }

  /** Append-only runs on a clone of a written version tile it from that version's size. */
  lemma CloneAppends(states: seq<State>, steps: seq<Step>, i: nat, source: nat, v: nat, ops: seq<Publication.Op>)
    requires Run(states, steps) && i < |states| && Readable(states[i], source, v) && Publication.AppendOnly(ops)
    ensures var root := states[i].objs[source].roots[v];
            && Publication.Fresh(CloneObj(root))
            && Publication.Tiled(Publication.Run(CloneObj(root), ops).0, root.currentSize, Publication.AppendSizes(ops))
  {
    hide Run, Inv, Publication.Run, Publication.Tiled, Publication.AppendSizes, Publication.AppendOnly;
    RunInv(states, steps, i);
    SaneRoot(states[i], source, v);
    Publication.AppendsTile(CloneObj(states[i].objs[source].roots[v]), ops);
  }

  lemma SaneRoot(s: State, id: nat, v: nat)
    requires Inv(s) && Readable(s, id, v)
    ensures s.objs[id].roots[v].currentSize <= s.objs[id].roots[v].node.size && s.objs[id].roots[v].node.size > 0
  {
    hide WriterInv, DhtOk, OriginsOk, KeysInv, TreeOk, PagesOk, QueueOk, OwnOk, SizesOk, WellFormed;
    assert BlobInv(s, id);
    var o := s.objs[id];
    assert AllRoots(o)[v] == o.roots[v];
    SizePositive(Ps(o), RootLevel(VersionLog(s, id, v)));
  }
}
