/** The exact conditions on offsets, over every run.

    A ticket is in reach if its write is the first of the history or starts below twice the
    root size before it.  The version manager grants every offset, so a history may leave the
    reach; this module says what then fails, and that nothing fails otherwise. */
module OffsetLimits {
  import opened Metadata
  import opened Dyadic
  import opened History
  import opened Weave
  import opened Shape
  import opened Reach
  import opened Dangling
  import opened VersionManager
  import opened Protocol
  import opened ProtocolInvariant
  import opened ProtocolGrant
  import opened Refinement

  /** The version behind log h reads as the flat log. */
  ghost predicate ReadsFlat(ps: nat, dht: Dht, h: Log)
    requires h != []
  {
    forall p: nat :: Shift(p, Own(h).level) == 0 ==> ReadTree(dht, RootKey(ps, h), Own(h).level, p) == ReadLog(ps, h, p)
  }

  /** The tree of the version behind log h has no dangling link. */
  ghost predicate TreePresent(ps: nat, dht: Dht, h: Log)
    requires h != []
  {
    Present(dht, RootKey(ps, h), Own(h).level)
  }

  lemma InReachReadsFlat(s: State, id: nat, v: nat, m: nat)
    requires Inv(s) && Readable(s, id, v) && 0 < m <= |VersionLog(s, id, v)|
    requires AllInReach(VersionLog(s, id, v)[..m])
    ensures ReadsFlat(Ps(s.objs[id]), s.dht, VersionLog(s, id, v)[..m])
  {
    hide Inv, WellFormed, AllInReach, Complete, PagesOk, HasData, Shift, StableShape, Candidate, ReadTree, ReadLog;
    VersionFacts(s, id, v);
    CompleteIfInReach(s, id, v, m);
    var h, ps := VersionLog(s, id, v)[..m], Ps(s.objs[id]);
    PrefixFacts(VersionLog(s, id, v), m);
    RootLinks(ps, h);
    forall p: nat | Shift(p, Own(h).level) == 0
      ensures ReadTree(s.dht, RootKey(ps, h), Own(h).level, p) == ReadLog(ps, h, p)
    {
      TreeReadsLog(ps, s.dht, h, Own(h).level, RootKey(ps, h), p);
    }
  }

  /** The first ticket out of reach makes a version that loses a page. */
  lemma FirstOutOfReach(h: Log) returns (m: nat)
    requires !AllInReach(h)
    ensures 0 < m <= |h| && AllInReach(h[..m - 1]) && !InReach(h[..m], m - 1)
  {
    m := 1;
    assert h[..|h|] == h;
    while InReach(h, m - 1)
      invariant 0 < m <= |h| && AllInReach(h[..m - 1])
      decreases |h| - m
    {
      assert AllInReach(h[..m]) by {
        forall i: nat | i < m ensures InReach(h[..m], i) {
          assert InReach(h, i) by {
            if i < m - 1 { assert InReach(h[..m - 1], i); }
          }
        }
      }
      m := m + 1;
    }
  }

  lemma OutOfReachReads(s: State, id: nat, v: nat) returns (m: nat)
    requires Inv(s) && Readable(s, id, v) && !AllInReach(VersionLog(s, id, v))
    ensures 0 < m <= |VersionLog(s, id, v)| && !ReadsFlat(Ps(s.objs[id]), s.dht, VersionLog(s, id, v)[..m])
  {
    hide Inv, WellFormed, AllInReach, InReach, Complete, PagesOk, HasData, Shift, Candidate, ReadTree, ReadLog, AllShaped,
      NoneAboveRoot, PlanStored, Granted;
    VersionFacts(s, id, v);
    var h, ps := VersionLog(s, id, v), Ps(s.objs[id]);
    m := FirstOutOfReach(h);
    CompleteIfInReach(s, id, v, m - 1);
    var n, stable := GrantedOrigin(s, id, v, m);
    NoneAbovePrefix(ps, s.dht, h, m);
    var p := OutOfReachLosesPage(ps, s.dht, s.dht, h[..m], n, stable);
  }

  /** The main result on offsets: in every reachable state, all versions of a published
      history read as their own flat logs if and only if every ticket was in reach. */
  lemma HistoryReadsFlatIff(states: seq<State>, steps: seq<Step>, i: nat, id: nat, v: nat)
    requires Run(states, steps) && i < |states| && Readable(states[i], id, v)
    ensures var s, h := states[i], VersionLog(states[i], id, v);
            && s.objs[id].roots != []
            && ((forall m: nat :: 0 < m <= |h| ==> ReadsFlat(Ps(s.objs[id]), s.dht, h[..m])) <==> AllInReach(h))
  {
    hide Inv, Run, AllInReach, ReadsFlat;
    RunInv(states, steps, i);
    var s, h := states[i], VersionLog(states[i], id, v);
    if AllInReach(h) {
      forall m: nat | 0 < m <= |h| ensures ReadsFlat(Ps(s.objs[id]), s.dht, h[..m]) {
        PrefixFacts(h, m);
        InReachReadsFlat(s, id, v, m);
      }
    } else {
      var m := OutOfReachReads(s, id, v);
    }
  }

  // ---- Dangling links ----

  /** Write number m of a history took a safe ticket. */
  ghost predicate Safe(s: State, id: nat, v: nat, m: nat)
    requires Readable(s, id, v) && 0 < m <= |VersionLog(s, id, v)|
  {
    && m <= |s.logs[id]| && Origin(s, id, m - 1) && PublishedBefore(s, id, m) < m
    && SafeTicket(VersionLog(s, id, v)[..m], PublishedBefore(s, id, m))
  }

  ghost predicate AllSafe(s: State, id: nat, v: nat)
    requires Readable(s, id, v)
  {
    forall m: nat :: 0 < m <= |VersionLog(s, id, v)| ==> Safe(s, id, v, m)
  }

  /** What a writer of a published history was told and stored. */
  lemma PlanOf(s: State, id: nat, v: nat, m: nat) returns (n: nat, stable: Query)
    requires Inv(s) && Readable(s, id, v) && 0 < m <= |VersionLog(s, id, v)|
    ensures m <= |s.logs[id]| && Origin(s, id, m - 1) && n == PublishedBefore(s, id, m) < m
    ensures var h, ps := VersionLog(s, id, v)[..m], Ps(s.objs[id]);
            && ps > 0 && WellFormed(h) && StableShape(ps, s.dht, h, false) && StableRoot(ps, h[..n], stable)
            && PlanStored(ps, s.dht, h, LeftList(ps, s.dht, h, n, stable), RightList(ps, s.dht, h, n, stable))
  {
    hide Inv, WellFormed, Shaped, PlanStored, StableRoot, PagesOk, HasData, Candidate, Origin;
    VersionFacts(s, id, v);
    LogPrefix(s, id, v, m);
    ShapedPrefix(Ps(s.objs[id]), s.dht, VersionLog(s, id, v), m);
    PrefixFacts(VersionLog(s, id, v), m);
    RunTables(s);
    n, stable := OriginPlan(s, id, m);
  }

  lemma RunTables(s: State)
    requires Inv(s)
    ensures Tables(s)
  {
  }

  lemma SafePresent(s: State, id: nat, v: nat, m: nat)
    requires Inv(s) && Readable(s, id, v) && AllSafe(s, id, v) && 0 < m <= |VersionLog(s, id, v)|
    ensures TreePresent(Ps(s.objs[id]), s.dht, VersionLog(s, id, v)[..m])
  {
    hide Inv, WellFormed, AllShaped, AllSafe, Candidate, NoneAboveRoot, PlanStored, Present, Origin;
    var h, ps := VersionLog(s, id, v)[..m], Ps(s.objs[id]);
    var n, stable := PlanOf(s, id, v, m);
    FitShaped(s, id, v, m);
    RootCandidate(ps, h, true);
    FittingIsPresent(ps, s.dht, h, Own(h).level, 0, RootKey(ps, h));
  }

  /** With safe tickets only, every link fits the version it names. */
  lemma {:induction false} FitShaped(s: State, id: nat, v: nat, m: nat)
    requires Inv(s) && Readable(s, id, v) && AllSafe(s, id, v) && m <= |VersionLog(s, id, v)|
    ensures AllShaped(Ps(s.objs[id]), s.dht, VersionLog(s, id, v)[..m], true)
    decreases m
  {
    hide Inv, WellFormed, Shaped, AllShaped, Candidate, NoneAboveRoot, PlanStored, StableRoot, SafeTicket, Origin;
    var h, ps := VersionLog(s, id, v), Ps(s.objs[id]);
    if m > 0 {
      FitShaped(s, id, v, m - 1);
      var n, stable := PlanOf(s, id, v, m);
      assert Safe(s, id, v, m);
      FitTicket(ps, s.dht, h, m, n, stable);
      SafeFits(ps, s.dht, h[..m], n, stable);
      AllShapedStep(ps, s.dht, h, m - 1, true);
    } else {
      NothingShaped(ps, s.dht);
      assert h[..0] == [];
    }
  }

  lemma NothingShaped(ps: nat, dht: Dht)
    ensures AllShaped(ps, dht, [], true)
  {
  }

  lemma FitTicket(ps: nat, dht: Dht, h: Log, m: nat, n: nat, stable: Query)
    requires ps > 0 && n < m <= |h| && WellFormed(h[..m]) && StableRoot(ps, h[..m][..n], stable)
    requires AllShaped(ps, dht, h[..m - 1], true) && StableShape(ps, dht, h[..m], false)
    ensures Ticketed(ps, dht, h[..m], n, stable, true)
  {
    hide Shaped, AllShaped, NoneAboveRoot, StableRoot;
    PrefixFacts(h[..m], n);
    NoneAbovePrefix(ps, dht, h[..m], n);
    AllShapedPrefix(ps, dht, h[..m - 1], n, true);
    assert h[..m - 1][..n] == h[..n] && h[..m][..n] == h[..n];
  }

  lemma UnsafeAbsent(s: State, id: nat, v: nat) returns (m: nat)
    requires Inv(s) && Readable(s, id, v) && !AllSafe(s, id, v)
    ensures 0 < m <= |VersionLog(s, id, v)| && !TreePresent(Ps(s.objs[id]), s.dht, VersionLog(s, id, v)[..m])
  {
    hide Inv, WellFormed, AllShaped, NoneAboveRoot, PlanStored, StableRoot, SafeTicket, Origin, Present;
    m :| 0 < m <= |VersionLog(s, id, v)| && !Safe(s, id, v, m);
    var n, stable := PlanOf(s, id, v, m);
    UnsafeDangles(Ps(s.objs[id]), s.dht, s.dht, VersionLog(s, id, v)[..m], n, stable);
  }

  /** The trees of a published history are all free of dangling links if and only if every
      ticket was safe: no writer's left brother at offset 0 was a pending write with a
      smaller root.  Every ticket in reach is safe, and so is every ticket granted while
      nothing was pending (Dangling). */
  lemma HistoryPresentIff(states: seq<State>, steps: seq<Step>, i: nat, id: nat, v: nat)
    requires Run(states, steps) && i < |states| && Readable(states[i], id, v)
    ensures var s, h := states[i], VersionLog(states[i], id, v);
            && s.objs[id].roots != []
            && ((forall m: nat :: 0 < m <= |h| ==> TreePresent(Ps(s.objs[id]), s.dht, h[..m])) <==> AllSafe(s, id, v))
  {
    hide Inv, Run, AllSafe, TreePresent;
    RunInv(states, steps, i);
    var s, h := states[i], VersionLog(states[i], id, v);
    if AllSafe(s, id, v) {
      forall m: nat | 0 < m <= |h| ensures TreePresent(Ps(s.objs[id]), s.dht, h[..m]) {
        SafePresent(s, id, v, m);
      }
    } else {
      var m := UnsafeAbsent(s, id, v);
    }
  }

  // ---- What a caller can check ----

  /** A ticket keeps a history in reach exactly when it is the first one or its offset is
      below twice the root size in force, which always holds of appends. */
  lemma TicketInReachIff(s: State, q: Query, append: bool, contents: seq<Content>)
    requires Inv(s) && Enabled(s, Grant(q, append, contents)) && AllInReach(s.logs[q.id])
    ensures var o, h := s.objs[q.id], s.logs[q.id];
            && (AllInReach(Next(s, Grant(q, append, contents)).logs[q.id])
                <==> append || h == [] || q.offset < 2 * o.maxSize)
  {
    hide BlobOk, TreeOk, PagesOk, WriterInv, DhtOk, OriginsOk, KeysInv, GrantTicket, NewWriter, StorePages, GrantedWrite, GrantFacts;
    assert BlobInv(s, q.id);
    var o, h := s.objs[q.id], s.logs[q.id];
    GrantIsGrantable(s, q, append, contents);
    BlobSizes(q.id, o, h, s.bases[q.id]);
    GrantArithmetic(o, h, q, append, |contents|);
    var g := h + [GrantedWrite(o, h, q, append)];
    assert g[..|g| - 1] == h;
    if InReach(g, |h|) { AllInReachExtend(g); }
  }

  lemma BlobSizes(id: nat, o: ObjInfo, h: Log, b: nat)
    requires BlobOk(id, o, h, b)
    ensures SizesOk(o, h) && o.currentTicket > 0 && id > 0
  {
  }
}
