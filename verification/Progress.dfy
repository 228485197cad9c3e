/** Runs make progress: a version is visible exactly when it and all older ones were asked to
    be published, whatever state a run is in every granted ticket can still be finished and
    published, and so every write can be made and then read back. */
module Progress {
  import opened Metadata
  import opened Dyadic
  import opened History
  import opened Weave
  import opened Shape
  import opened VersionManager
  import opened Protocol
  import opened ProtocolInvariant
  import opened ProtocolSteps
  import opened ProtocolGrant
  import opened Refinement
  import opened BlobSizes
  import opened WriteRead
  import Publication

  // ---- Visibility on runs ----

  /** The versions of a blob that the steps asked to publish. */
  function Asked(steps: seq<Step>, id: nat): set<nat> {
    if steps == [] then {}
    else Asked(steps[..|steps| - 1], id) +
         (match steps[|steps| - 1] case Publish(i, v) => (if i == id then {v} else {}) case _ => {})
  }

  lemma {:induction false} AskedIs(steps: seq<Step>, id: nat, v: nat)
    ensures v in Asked(steps, id) <==> exists j :: 0 <= j < |steps| && steps[j] == Publish(id, v)
  {
    if steps != [] {
      var rest := steps[..|steps| - 1];
      AskedIs(rest, id, v);
      assert v in Asked(rest, id) ==> exists j :: 0 <= j < |rest| && steps[j] == Publish(id, v) by {
        if v in Asked(rest, id) {
          var j :| 0 <= j < |rest| && rest[j] == Publish(id, v);
          assert steps[j] == Publish(id, v);
        }
      }
      if j :| 0 <= j < |steps| && steps[j] == Publish(id, v) {
        if j < |rest| { assert rest[j] == Publish(id, v); }
      }
    }
  }

  /** Whoever publishes holds a ticket. */
  lemma PublisherHasTicket(s: State, id: nat, v: nat)
    requires Inv(s) && Enabled(s, Publish(id, v))
    ensures id in s.objs && ObjValid(s.objs[id]) && 1 <= v < s.objs[id].currentTicket
  {
    hide DhtOk, OriginsOk, KeysInv, TreeOk, PagesOk, RootsOk, QueueOk, OwnOk, SizesOk, WellFormed, AllStored, SideOk,
      StoredOk;
    assert WriterInv(s, (id, v)) && BlobInv(s, id);
  }

  lemma PublishTracks(o: ObjInfo, published: set<nat>, v: nat)
    requires Publication.Tracks(o, published) && ObjValid(o) && 1 <= v < o.currentTicket
    ensures Publication.Tracks(PublishVersion(o, v), published + {v})
  {
    hide Find, MarkDone, Drain;
    FindInOrder(o, v);
    if IsPending(o, v) {
      Publication.MarkTracks(o, published, v);
      Publication.DrainTracks(MarkDone(o, v), published + {v});
    } else {
      assert published + {v} == published;
    }
  }

  lemma FreshTracks(o: ObjInfo)
    requires |o.roots| == 1 && o.intervals == [] && o.currentTicket == 1
    ensures Publication.Tracks(o, {})
  {
  }

  ghost predicate AllTracked(s: State, steps: seq<Step>) {
    forall id :: if id in s.objs then Publication.Tracks(s.objs[id], Asked(steps, id)) else Asked(steps, id) == {}
  }

  lemma StepTracks(s: State, step: Step, s': State, steps: seq<Step>)
    requires Inv(s) && StepOf(s, step, s') && AllTracked(s, steps)
    ensures AllTracked(s', steps + [step])
  {
    hide BlobInv, WriterInv, DhtOk, OriginsOk, KeysInv, Enabled, Next, Publication.Tracks;
    assert (steps + [step])[..|steps|] == steps;
    forall id ensures if id in s'.objs then Publication.Tracks(s'.objs[id], Asked(steps + [step], id))
                      else Asked(steps + [step], id) == {}
    {
      BlobTracks(s, step, s', steps, id);
    }
  }

  lemma BlobTracks(s: State, step: Step, s': State, steps: seq<Step>, id: nat)
    requires Inv(s) && StepOf(s, step, s') && AllTracked(s, steps) && (steps + [step])[..|steps|] == steps
    ensures if id in s'.objs then Publication.Tracks(s'.objs[id], Asked(steps + [step], id))
            else Asked(steps + [step], id) == {}
  {
    hide Inv, Enabled, Next, Publication.Tracks, Asked;
    AskedPush(steps, step, id);
    match step
    case Create(ps, rc) => CreateTracks(s, ps, rc, Asked(steps, id), id);
    case Clone(source, version) => CloneTracks(s, source, version, Asked(steps, id), id);
    case Grant(q, append, contents) => GrantTracks(s, q, append, contents, Asked(steps, id), id);
    case FetchNode(i, v, isLeft) => QuietObjs(s, step);
    case PutNode(i, v, k, x) => QuietObjs(s, step);
    case Publish(i, v) => PublishStepTracks(s, i, v, Asked(steps, id), id);
  }

  lemma CreateTracks(s: State, ps: nat, rc: nat, published: set<nat>, id: nat)
    requires Inv(s) && Enabled(s, Create(ps, rc))
    requires if id in s.objs then Publication.Tracks(s.objs[id], published) else published == {}
    ensures var s' := Next(s, Create(ps, rc));
            if id in s'.objs then Publication.Tracks(s'.objs[id], published) else published == {}
  {
    hide BlobInv, WriterInv, DhtOk, OriginsOk, KeysInv, Publication.Tracks, NewObj;
    FreshId(s);
    NewIsFresh(s.count + 1, ps, rc);
    FreshTracks(NewObj(s.count + 1, ps, rc));
  }

  lemma CloneTracks(s: State, source: nat, version: nat, published: set<nat>, id: nat)
    requires Inv(s) && Enabled(s, Clone(source, version))
    requires if id in s.objs then Publication.Tracks(s.objs[id], published) else published == {}
    ensures var s' := Next(s, Clone(source, version));
            if id in s'.objs then Publication.Tracks(s'.objs[id], published) else published == {}
  {
    hide BlobInv, WriterInv, DhtOk, OriginsOk, KeysInv, Publication.Tracks, CloneObj, Next;
    FreshId(s);
    CloneSelects(s, source, version);
    var root := s.objs[source].roots[SelectIndex(s.objs[source], version)];
    CloneIsFresh(root);
    FreshTracks(CloneObj(root));
  }

  lemma QuietObjs(s: State, step: Step)
    requires Tables(s) && Enabled(s, step) && (step.FetchNode? || step.PutNode?)
    ensures Next(s, step).objs == s.objs
  {
  }

  lemma PublishStepTracks(s: State, i: nat, v: nat, published: set<nat>, id: nat)
    requires Inv(s) && Enabled(s, Publish(i, v))
    requires if id in s.objs then Publication.Tracks(s.objs[id], published) else published == {}
    ensures var s' := Next(s, Publish(i, v));
            if id in s'.objs then Publication.Tracks(s'.objs[id], if i == id then published + {v} else published)
            else i != id && published == {}
  {
    hide BlobInv, WriterInv, DhtOk, OriginsOk, KeysInv, Publication.Tracks, PublishVersion, AllStored, ObjValid;
    PublisherHasTicket(s, i, v);
    if id == i { PublishTracks(s.objs[id], published, v); }
  }

  lemma NewIsFresh(id: nat, ps: nat, rc: nat)
    ensures var o := NewObj(id, ps, rc); |o.roots| == 1 && o.intervals == [] && o.currentTicket == 1
  {
  }

  lemma CloneIsFresh(root: Root)
    ensures var o := CloneObj(root); |o.roots| == 1 && o.intervals == [] && o.currentTicket == 1
  {
  }

  lemma AskedPush(steps: seq<Step>, step: Step, id: nat)
    requires (steps + [step])[..|steps|] == steps
    ensures Asked(steps + [step], id) == if step.Publish? && step.id == id then Asked(steps, id) + {step.version} else Asked(steps, id)
  {
  }

  lemma GrantTracks(s: State, q: Query, append: bool, contents: seq<Content>, published: set<nat>, id: nat)
    requires Inv(s) && Enabled(s, Grant(q, append, contents))
    requires if id in s.objs then Publication.Tracks(s.objs[id], published) else published == {}
    ensures var s' := Next(s, Grant(q, append, contents));
            if id in s'.objs then Publication.Tracks(s'.objs[id], published) else published == {}
  {
    hide Inv, Publication.Tracks, GrantTicket, GrantFacts, GrantedWrite, Next, Enabled;
    InvTables(s);
    TicketOn(s, Grant(q, append, contents));
    BlobGrants(s, q, append, contents);
    GrantObj(s, q, append, contents);
    GrantKeepsMax(s, q, append, contents);
    if id == q.id { Publication.TicketTracks(s.objs[q.id], published, q, append); }
  }

  lemma GrantKeepsMax(s: State, q: Query, append: bool, contents: seq<Content>)
    requires Tables(s) && Enabled(s, Grant(q, append, contents))
    ensures s.objs[q.id].maxSize > 0
  {
  }

  lemma {:induction false} RunTracks(states: seq<State>, steps: seq<Step>, i: nat)
    requires Run(states, steps) && i < |states|
    ensures AllTracked(states[i], steps[..i])
  {
    hide Inv, StepOf, AllTracked;
    if i == 0 {
      NothingTracked();
    } else {
      RunTracks(states, steps, i - 1);
      RunInv(states, steps, i - 1);
      assert steps[..i] == steps[..i - 1] + [steps[i - 1]];
      StepTracks(states[i - 1], steps[i - 1], states[i], steps[..i - 1]);
    }
  }

  lemma NothingTracked()
    ensures AllTracked(INIT, [])
  {
  }

  /** One of the first i steps asked to publish version u. */
  ghost predicate Requested(steps: seq<Step>, i: nat, id: nat, u: nat)
    requires i <= |steps|
  {
    exists j :: 0 <= j < i && steps[j] == Publish(id, u)
  }

  /** In every run, a version of a blob is visible if and only if it and all older own versions
      of the blob were asked to be published. */
  lemma VisibleIffPublished(states: seq<State>, steps: seq<Step>, i: nat, id: nat, v: nat)
    requires Run(states, steps) && i < |states| && id in states[i].objs && v >= 1
    ensures v < |states[i].objs[id].roots| <==>
            forall u: nat :: 1 <= u <= v ==> Requested(steps, i, id, u)
  {
    hide Inv, StepOf, Publication.Tracks, Asked, ObjValid;
    RunInv(states, steps, i);
    RunTracks(states, steps, i);
    PublishedBlob(states[i], id);
    ValidHead(states[i].objs[id]);
    Publication.TrackedVisible(states[i].objs[id], Asked(steps[..i], id), v);
    forall u: nat ensures u in Asked(steps[..i], id) <==> Requested(steps, i, id, u) {
      AskedSoFar(states, steps, i, id, u);
    }
  }

  lemma AskedSoFar(states: seq<State>, steps: seq<Step>, i: nat, id: nat, u: nat)
    requires i <= |steps|
    ensures u in Asked(steps[..i], id) <==> Requested(steps, i, id, u)
  {
    hide Asked;
    AskedIs(steps[..i], id, u);
    if j :| 0 <= j < i && steps[..i][j] == Publish(id, u) {
      assert steps[j] == Publish(id, u);
    }
    if j :| 0 <= j < i && steps[j] == Publish(id, u) {
      assert steps[..i][j] == Publish(id, u);
    }
  }

  lemma ValidHead(o: ObjInfo)
    requires ObjValid(o)
    ensures HeadUnfinished(o)
  {
  }

  // ---- Paths ----

  /** Any sequence of enabled steps, from any state. */
  ghost predicate Path(states: seq<State>, steps: seq<Step>) {
    && |states| == |steps| + 1
    && forall i :: 0 <= i < |steps| ==> StepOf(states[i], steps[i], states[i + 1])
  }

  function Last(states: seq<State>): State
    requires states != []
  {
    states[|states| - 1]
  }

  lemma Join(a: seq<State>, x: seq<Step>, b: seq<State>, y: seq<Step>) returns (c: seq<State>, z: seq<Step>)
    requires Path(a, x) && Path(b, y) && Last(a) == b[0]
    ensures Path(c, z) && c[0] == a[0] && Last(c) == Last(b) && a <= c && z == x + y
  {
    hide StepOf;
    c, z := a + b[1..], x + y;
    forall i | 0 <= i < |z| ensures StepOf(c[i], z[i], c[i + 1]) {
      if i < |x| {
        assert c[i] == a[i] && c[i + 1] == a[i + 1];
      } else {
        assert c[i] == b[i - |x|] && c[i + 1] == b[i - |x| + 1];
      }
    }
  }

  lemma OneStep(s: State, step: Step) returns (states: seq<State>, steps: seq<Step>)
    requires Inv(s) && Enabled(s, step)
    ensures Path(states, steps) && states[0] == s && steps == [step] && Inv(Last(states)) && Last(states) == Next(s, step)
  {
    hide BlobInv, WriterInv, DhtOk, OriginsOk, KeysInv, Enabled, Next;
    states, steps := [s, Next(s, step)], [step];
    StepInv(s, step, Next(s, step));
  }

  // ---- One writer ----

  /** Only writers' progress and the DHT have changed. */
  ghost predicate Calm(s: State, t: State) {
    && Inv(t) && t.objs == s.objs && t.logs == s.logs && t.bases == s.bases
    && forall w :: w in s.writers ==> w in t.writers && t.writers[w].log == s.writers[w].log
  }

  /** What is left of a walk. */
  function Left(side: Side): nat {
    match side.cursor case Idle => 0 case Fetch(q) => q.size + 1
  }

  lemma FetchShrinks(dht: Dht, isLeft: bool, target: Query, side: Side)
    requires side.cursor.Fetch?
    ensures Left(FetchOnce(dht, isLeft, target, side)) < Left(side)
  {
  }

  lemma FetchStep(s: State, u: (nat, nat), isLeft: bool)
    requires Inv(s) && u in s.writers && SideOf(s.writers[u], isLeft).cursor.Fetch?
    ensures Enabled(s, FetchNode(u.0, u.1, isLeft))
    ensures var t := Next(s, FetchNode(u.0, u.1, isLeft));
            && Calm(s, t) && u in t.writers
            && Left(SideOf(t.writers[u], isLeft)) < Left(SideOf(s.writers[u], isLeft))
            && SideOf(t.writers[u], !isLeft) == SideOf(s.writers[u], !isLeft)
  {
    hide Inv, Fetched, Left, SideOf;
    InvTables(s);
    assert (u.0, u.1) == u;
    FetchInv(s, u.0, u.1, isLeft);
    FetchedShrinks(Ps(s.objs[u.0]), s.dht, s.writers[u], isLeft);
  }

  lemma FetchedShrinks(ps: nat, dht: Dht, wr: Writer, isLeft: bool)
    requires wr.log != [] && SideOf(wr, isLeft).cursor.Fetch?
    ensures var t := Fetched(ps, dht, wr, isLeft);
            && Left(SideOf(t, isLeft)) < Left(SideOf(wr, isLeft)) && SideOf(t, !isLeft) == SideOf(wr, !isLeft) && t.log == wr.log
  {
    hide FetchOnce, Left;
    var w := Own(wr.log);
    FetchShrinks(dht, isLeft, LeafOf(ps, w, Edge(w, isLeft)), SideOf(wr, isLeft));
  }

  lemma {:induction false} FinishWalk(s: State, u: (nat, nat), isLeft: bool) returns (states: seq<State>, steps: seq<Step>)
    requires Inv(s) && u in s.writers
    ensures Path(states, steps) && states[0] == s && Calm(s, Last(states)) && u in Last(states).writers
    ensures SideOf(Last(states).writers[u], isLeft).cursor.Idle?
    ensures SideOf(Last(states).writers[u], !isLeft) == SideOf(s.writers[u], !isLeft)
    decreases Left(SideOf(s.writers[u], isLeft))
  {
    hide Inv, Enabled, Next, Left;
    if SideOf(s.writers[u], isLeft).cursor.Idle? {
      states, steps := [s], [];
    } else {
      FetchStep(s, u, isLeft);
      var a, x := OneStep(s, FetchNode(u.0, u.1, isLeft));
      var b, y := FinishWalk(Last(a), u, isLeft);
      states, steps := Join(a, x, b, y);
    }
  }

  /** The positions of a write whose nodes are not yet stored. */
  function Missing(ps: nat, wr: Writer): set<(nat, nat)>
    requires wr.log != []
  {
    set k: nat, x: nat | k <= Own(wr.log).level && x <= Own(wr.log).last && IsMissing(ps, wr, k, x) :: (k, x)
  }

  predicate IsMissing(ps: nat, wr: Writer, k: nat, x: nat)
    requires wr.log != []
  {
    Touch(Own(wr.log), k, x) && NodeKey(ps, Own(wr.log), k, x) !in wr.stored
  }

  lemma {:induction false} ShiftSmaller(n: nat, k: nat)
    ensures Shift(n, k) <= n
  {
    if k > 0 { ShiftSmaller(n, k - 1); }
  }

  lemma NoneMissing(ps: nat, wr: Writer)
    requires wr.log != [] && Missing(ps, wr) == {}
    ensures AllStored(ps, wr)
  {
    hide NodeKey, Touch;
    forall k: nat, x: nat | k <= Own(wr.log).level && Touch(Own(wr.log), k, x)
      ensures NodeKey(ps, Own(wr.log), k, x) in wr.stored
    {
      if NodeKey(ps, Own(wr.log), k, x) !in wr.stored { InMissing(ps, wr, k, x); }
    }
  }

  lemma InMissing(ps: nat, wr: Writer, k: nat, x: nat)
    requires wr.log != [] && k <= Own(wr.log).level && IsMissing(ps, wr, k, x)
    ensures (k, x) in Missing(ps, wr)
  {
    hide NodeKey;
    TouchBelow(Own(wr.log), k, x);
  }

  lemma TouchBelow(w: Write, k: nat, x: nat)
    requires Touch(w, k, x)
    ensures x <= w.last
  {
    ShiftSmaller(w.last, k);
  }

  lemma PutFills(ps: nat, wr: Writer, wr': Writer, k: nat, x: nat)
    requires wr.log != [] && (k, x) in Missing(ps, wr) && wr'.log == wr.log
    requires wr'.stored == wr.stored + {NodeKey(ps, Own(wr.log), k, x)}
    ensures Missing(ps, wr') < Missing(ps, wr)
  {
    hide NodeKey, Touch;
    assert (k, x) !in Missing(ps, wr');
  }

  lemma PutStep(s: State, u: (nat, nat), k: nat, x: nat)
    requires Inv(s) && u in s.writers && u.0 in s.objs && s.objs[u.0].roots != [] && s.writers[u].log != []
    requires (k, x) in Missing(Ps(s.objs[u.0]), s.writers[u])
    requires s.writers[u].left.cursor.Idle? && s.writers[u].right.cursor.Idle?
    ensures Enabled(s, PutNode(u.0, u.1, k, x))
    ensures var t := Next(s, PutNode(u.0, u.1, k, x));
            && Calm(s, t) && u in t.writers && t.writers[u].left == s.writers[u].left && t.writers[u].right == s.writers[u].right
            && Missing(Ps(t.objs[u.0]), t.writers[u]) < Missing(Ps(s.objs[u.0]), s.writers[u])
  {
    hide BlobInv, WriterInv, DhtOk, OriginsOk, KeysInv, PlanNode, NodeKey, Touch, Missing;
    assert (u.0, u.1) == u;
    MissingIs(Ps(s.objs[u.0]), s.writers[u], k, x);
    PutInv(s, u.0, u.1, k, x);
    var t := Next(s, PutNode(u.0, u.1, k, x));
    PutFills(Ps(s.objs[u.0]), s.writers[u], t.writers[u], k, x);
  }

  lemma MissingIs(ps: nat, wr: Writer, k: nat, x: nat)
    requires wr.log != [] && (k, x) in Missing(ps, wr)
    ensures k <= Own(wr.log).level && IsMissing(ps, wr, k, x)
  {
    hide Touch, NodeKey;
  }

  lemma SubsetSmaller<T>(a: set<T>, b: set<T>)
    requires a < b
    ensures |a| < |b|
  {
    assert b == a + (b - a);
    assert b - a != {};
  }

  lemma {:induction false} PutAll(s: State, u: (nat, nat)) returns (states: seq<State>, steps: seq<Step>)
    requires Inv(s) && u in s.writers && u.0 in s.objs && s.objs[u.0].roots != [] && s.writers[u].log != []
    requires s.writers[u].left.cursor.Idle? && s.writers[u].right.cursor.Idle?
    ensures Path(states, steps) && states[0] == s && Calm(s, Last(states)) && u in Last(states).writers
    ensures AllStored(Ps(s.objs[u.0]), Last(states).writers[u])
    decreases |Missing(Ps(s.objs[u.0]), s.writers[u])|
  {
    hide Inv, Enabled, Next, Missing, AllStored;
    var ps := Ps(s.objs[u.0]);
    if Missing(ps, s.writers[u]) == {} {
      NoneMissing(ps, s.writers[u]);
      states, steps := [s], [];
    } else {
      var position: (nat, nat) :| position in Missing(ps, s.writers[u]);
      var (k, x) := position;
      PutStep(s, u, k, x);
      var a, y := OneStep(s, PutNode(u.0, u.1, k, x));
      SubsetSmaller(Missing(ps, Last(a).writers[u]), Missing(ps, s.writers[u]));
      var b, z := PutAll(Last(a), u);
      states, steps := Join(a, y, b, z);
    }
  }

  /** Every writer can store its whole plan. */
  lemma FinishWriter(s: State, u: (nat, nat)) returns (states: seq<State>, steps: seq<Step>)
    requires Inv(s) && u in s.writers
    ensures Path(states, steps) && states[0] == s && Calm(s, Last(states)) && Enabled(Last(states), Publish(u.0, u.1))
  {
    hide Inv, AllStored, StepOf;
    WriterParts(s, u);
    var a, x := FinishWalk(s, u, true);
    var b, y := FinishWalk(Last(a), u, false);
    var c, z := Join(a, x, b, y);
    WriterParts(Last(c), u);
    var d, w := PutAll(Last(c), u);
    states, steps := Join(c, z, d, w);
    WriterParts(Last(states), u);
    assert (u.0, u.1) == u;
  }

  lemma WriterParts(s: State, u: (nat, nat))
    requires Inv(s) && u in s.writers
    ensures Tables(s) && u.0 in s.objs && s.objs[u.0].roots != [] && s.writers[u].log != []
  {
    hide BlobInv, WriterInv, DhtOk, OriginsOk, KeysInv;
  }

  // ---- One blob ----

  /** Every pending version has a writer. */
  lemma HeadWriter(s: State, id: nat)
    requires Inv(s) && id in s.objs && s.objs[id].intervals != []
    ensures (id, |s.objs[id].roots|) in s.writers
  {
    hide DhtOk, KeysInv, TreeOk, PagesOk, WriterInv, BlobOk, Origin;
    assert BlobInv(s, id) && OriginsOk(s, id);
    HeadEntry(id, s.objs[id], s.logs[id], s.bases[id]);
    var i := s.bases[id] + |s.objs[id].roots| - 1;
    assert Origin(s, id, i);
    OriginWriter(s, id, i);
  }

  lemma HeadEntry(id: nat, o: ObjInfo, h: Log, b: nat)
    requires BlobOk(id, o, h, b) && o.intervals != []
    ensures var i := b + |o.roots| - 1; 0 <= i < |h| && h[i].id == id && h[i].version == |o.roots|
  {
    hide RootsOk, SizesOk, WellFormed;
  }

  lemma OriginWriter(s: State, id: nat, i: nat)
    requires Origin(s, id, i)
    ensures (s.logs[id][i].id, s.logs[id][i].version) in s.writers
  {
  }

  /** Publishing the oldest pending version shortens the queue. */
  lemma HeadDrains(o: ObjInfo)
    requires ObjValid(o) && o.intervals != []
    ensures |PublishVersion(o, |o.roots|).intervals| < |o.intervals|
  {
    FindInOrder(o, |o.roots|);
    var m := MarkDone(o, |o.roots|);
    DrainKeepsRoots(m.(roots := m.roots + [m.intervals[0].root], intervals := m.intervals[1..]));
  }

  lemma PublishStep(s: State, id: nat)
    requires Inv(s) && id in s.objs && s.objs[id].intervals != [] && Enabled(s, Publish(id, |s.objs[id].roots|))
    ensures var t := Next(s, Publish(id, |s.objs[id].roots|));
            && id in t.objs && |t.objs[id].intervals| < |s.objs[id].intervals| && t.logs == s.logs
  {
    hide BlobInv, WriterInv, DhtOk, OriginsOk, KeysInv, AllStored, PublishVersion, ObjValid;
    PublishedBlob(s, id);
    HeadDrains(s.objs[id]);
  }

  lemma {:induction false} FinishBlob(s: State, id: nat) returns (states: seq<State>, steps: seq<Step>)
    requires Inv(s) && id in s.objs
    ensures Path(states, steps) && states[0] == s && Inv(Last(states)) && Last(states).logs == s.logs
    ensures id in Last(states).objs && Last(states).objs[id].intervals == []
    decreases |s.objs[id].intervals|
  {
    hide Inv, Enabled, Next, StepOf;
    if s.objs[id].intervals == [] {
      states, steps := [s], [];
    } else {
      HeadWriter(s, id);
      var v := |s.objs[id].roots|;
      var a, x := FinishWriter(s, (id, v));
      PublishStep(Last(a), id);
      var b, y := OneStep(Last(a), Publish(id, v));
      var c, z := Join(a, x, b, y);
      var d, w := FinishBlob(Last(c), id);
      states, steps := Join(c, z, d, w);
    }
  }

  // ---- The theorems ----

  lemma RunIsPath(states: seq<State>, steps: seq<Step>)
    requires Run(states, steps)
    ensures Path(states, steps)
  {
  }

  lemma PathIsRun(states: seq<State>, steps: seq<Step>)
    requires Path(states, steps) && states[0] == INIT
    ensures Run(states, steps)
  {
  }

  lemma ExtendRun(states: seq<State>, steps: seq<Step>, b: seq<State>, y: seq<Step>) returns (states': seq<State>, steps': seq<Step>)
    requires Run(states, steps) && Path(b, y) && b[0] == Last(states)
    ensures Run(states', steps') && states <= states' && steps' == steps + y && Last(states') == Last(b)
  {
    hide StepOf;
    RunIsPath(states, steps);
    states', steps' := Join(states, steps, b, y);
    PathIsRun(states', steps');
  }

  /** Every run can be continued so that all tickets granted for a blob are published. */
  lemma EveryTicketCanBePublished(states: seq<State>, steps: seq<Step>, id: nat)
    returns (states': seq<State>, steps': seq<Step>)
    requires Run(states, steps) && id in Last(states).objs
    ensures Run(states', steps') && states <= states' && steps <= steps' && Last(states').logs == Last(states).logs
    ensures id in Last(states').objs && Tables(Last(states'))
    ensures Last(states').bases[id] + |Last(states').objs[id].roots| == |Last(states').logs[id]| + 1
  {
    hide Inv, Path, Run;
    RunInv(states, steps, |states| - 1) by { RunLast(states, steps); }
    var b, y := FinishBlob(Last(states), id);
    states', steps' := ExtendRun(states, steps, b, y);
    InvTables(Last(states'));
    NothingPending(Last(states'), id);
  }

  lemma RunLast(states: seq<State>, steps: seq<Step>)
    requires Run(states, steps)
    ensures |states| > 0
  {
  }

  lemma NothingPending(s: State, id: nat)
    requires Inv(s) && id in s.objs && s.objs[id].intervals == []
    ensures id in s.bases && id in s.logs && s.bases[id] + |s.objs[id].roots| == |s.logs[id]| + 1
  {
    hide DhtOk, OriginsOk, KeysInv, TreeOk, PagesOk, WriterInv, RootsOk, SizesOk, OwnOk, WellFormed;
    assert BlobInv(s, id);
  }

  /** A ticket, and everything pending finished after it. */
  lemma GrantAndFinish(states: seq<State>, steps: seq<Step>, step: Step) returns (states': seq<State>, steps': seq<Step>)
    requires Run(states, steps) && step.Grant? && Inv(Last(states)) && Enabled(Last(states), step)
    ensures Run(states', steps') && states <= states' && |steps| < |steps'| && steps'[|steps|] == step
    ensures var id := step.query.id;
            && id in Last(states).objs && Readable(Last(states'), id, Last(states).objs[id].currentTicket)
  {
    hide Inv, Path, Readable, Next, Enabled;
    var s, n, q := Last(states), |steps|, step.query;
    var a, x := OneStep(s, step);
    var b, y := ExtendRun(states, steps, a, x);
    InvTables(s);
    TicketOn(s, step);
    TicketLogged(s, q, step.append, step.contents);
    TicketNumber(s, q.id);
    states', steps' := EveryTicketCanBePublished(b, y, q.id);
    assert y[n] == step && y == steps'[..|y|];
    assert states'[n] == b[n] == states[n];
    TicketStays(states', steps', n, |states'| - 1);
    VersionLogged(Last(states'), q.id, s.objs[q.id].currentTicket, |s.logs[q.id]|);
    RunInv(states', steps', |states'| - 1);
    InvTables(Last(states'));
    NewVersionReadable(Last(states'), q.id, s.objs[q.id].currentTicket);
  }

  /** Version v holds `contents` from page `first` on. */
  ghost predicate Holds(t: State, id: nat, v: nat, first: nat, contents: seq<Content>)
    requires Readable(t, id, v)
  {
    forall k: nat :: k < |contents| ==> HoldsPage(t, id, v, first + k, contents[k])
  }

  ghost predicate HoldsPage(t: State, id: nat, v: nat, p: nat, c: Content)
    requires Readable(t, id, v)
  {
    p in Seen(t, id, v) && Seen(t, id, v)[p] == c
  }

  /** Every write that a client may ask for can be carried out in every state of every run:
      the run can be continued so that the new version is published and reads, from the offset
      asked for on, what was written. */
  lemma WriteCanBeRead(states: seq<State>, steps: seq<Step>, q: Query, append: bool, contents: seq<Content>)
    returns (states': seq<State>, steps': seq<Step>)
    requires Run(states, steps) && q.id in Last(states).objs && Last(states).objs[q.id].roots != []
    requires var o := Last(states).objs[q.id];
             && Ps(o) > 0 && o.maxSize > 0 && |contents| > 0 && q.offset % Ps(o) == 0 && q.size == |contents| * Ps(o)
             && forall i :: 0 <= i < |contents| ==> |contents[i]| == Ps(o)
    requires forall p :: p in Last(states).pages ==> (p.id, p.version) != (q.id, q.version)
    ensures Run(states', steps') && states <= states'
    ensures var o := Last(states).objs[q.id];
            && Readable(Last(states'), q.id, o.currentTicket)
            && Holds(Last(states'), q.id, o.currentTicket, (if append then o.progressSize else q.offset) / Ps(o), contents)
  {
    hide Inv, Seen, Readable, Next, StepOf, Enabled;
    RunInv(states, steps, |steps|);
    GrantEnabled(Last(states), q, append, contents);
    states', steps' := GrantAndFinish(states, steps, Grant(q, append, contents));
    assert states'[|steps|] == Last(states);
    WrittenHolds(states', steps', |steps|, |states'| - 1);
  }

  lemma WrittenHolds(states: seq<State>, steps: seq<Step>, i: nat, j: nat)
    requires Run(states, steps) && i < |steps| && steps[i].Grant? && i < j < |states|
    requires var q, s := steps[i].query, states[i];
             && q.id in s.objs && s.objs[q.id].roots != [] && Ps(s.objs[q.id]) > 0
             && Readable(states[j], q.id, s.objs[q.id].currentTicket)
    ensures var q, o := steps[i].query, states[i].objs[steps[i].query.id];
            Holds(states[j], q.id, o.currentTicket, (if steps[i].append then o.progressSize else q.offset) / Ps(o), steps[i].contents)
  {
    hide Run, Seen, Readable, ReadPage;
    var id, o, t, contents := steps[i].query.id, states[i].objs[steps[i].query.id], states[j], steps[i].contents;
    var first := (if steps[i].append then o.progressSize else steps[i].query.offset) / Ps(o);
    forall k: nat | k < |contents|
      ensures HoldsPage(t, id, o.currentTicket, first + k, contents[k])
    {
      WrittenIsRead(states, steps, i, j, k);
    }
  }

  lemma GrantEnabled(s: State, q: Query, append: bool, contents: seq<Content>)
    requires Inv(s) && q.id in s.objs && s.objs[q.id].roots != [] && Ps(s.objs[q.id]) > 0
    requires var o := s.objs[q.id];
             && o.maxSize > 0 && |contents| > 0 && q.offset % Ps(o) == 0 && q.size == |contents| * Ps(o)
             && forall i :: 0 <= i < |contents| ==> |contents[i]| == Ps(o)
    requires forall p :: p in s.pages ==> (p.id, p.version) != (q.id, q.version)
    ensures Enabled(s, Grant(q, append, contents))
  {
    hide BlobInv, WriterInv, DhtOk, OriginsOk, KeysInv;
  }

  lemma VersionLogged(s: State, id: nat, v: nat, n: nat)
    requires id in s.logs && id in s.bases && s.bases[id] + v == n + 1 && n < |s.logs[id]|
    requires id in s.objs && s.bases[id] + |s.objs[id].roots| == |s.logs[id]| + 1
    ensures v < |s.objs[id].roots| && s.bases[id] + v <= |s.logs[id]|
  {
  }

  lemma NewVersionReadable(s: State, id: nat, v: nat)
    requires Tables(s) && id in s.objs && v < |s.objs[id].roots| && v > 0
    requires s.bases[id] + v <= |s.logs[id]|
    ensures Readable(s, id, v)
  {
  }
}
