/** The main theorems, over every interleaving.  No later step changes what a published
    version reads, clones and sources never disturb each other, and a page that is read was
    written there by some version of the history, whatever offsets were written.  While every
    ticket was in reach, every published version has a complete tree and reads as an array of
    pages with the writes applied in ticket order; OffsetLimits says that this is exactly when
    the whole history reads so. */
module Refinement {
  import opened Metadata
  import opened Dyadic
  import opened History
  import opened Descent
  import opened Weave
  import opened Shape
  import opened Reach
  import opened VersionManager
  import opened Protocol
  import opened ProtocolInvariant
  import opened ProtocolSteps
  import opened ProtocolGrant
  import opened ReadLocations

  /** A run: any sequence of enabled steps from the empty store. */
  ghost predicate Run(states: seq<State>, steps: seq<Step>) {
    && |states| == |steps| + 1 && states[0] == INIT
    && forall i :: 0 <= i < |steps| ==> StepOf(states[i], steps[i], states[i + 1])
  }

  ghost predicate StepOf(s: State, step: Step, s': State) {
    Tables(s) && Enabled(s, step) && s' == Next(s, step)
  }

  lemma StepInv(s: State, step: Step, s': State)
    requires Inv(s) && StepOf(s, step, s')
    ensures Inv(s')
  {
    hide Inv, Enabled, Next;
    match step
    case Create(ps, rc) => CreateInv(s, ps, rc);
    case Clone(source, version) => CloneInv(s, source, version);
    case Grant(q, append, contents) => GrantInv(s, s', q, append, contents);
    case FetchNode(id, version, isLeft) => FetchInv(s, id, version, isLeft);
    case PutNode(id, version, k, x) => PutInv(s, id, version, k, x);
    case Publish(id, version) => PublishInv(s, id, version);
  }

  /** Every reachable state satisfies the invariant. */
  lemma {:induction false} RunInv(states: seq<State>, steps: seq<Step>, i: nat)
    requires Run(states, steps) && i < |states|
    ensures Inv(states[i])
  {
    hide Inv, StepOf;
    if i == 0 {
      InitInv();
    } else {
      RunInv(states, steps, i - 1);
      StepInv(states[i - 1], steps[i - 1], states[i]);
    }
  }

  // ---- The flat store ----

  /** One write applied to an array of pages. */
  function Overwrite(pages: map<nat, Content>, w: Write, contents: seq<Content>): map<nat, Content>
    requires |contents| == w.last - w.first + 1
  {
    pages + map p: nat | w.first <= p <= w.last && Covers(w, p) :: contents[p - w.first]
  }

  predicate Covers(w: Write, p: nat) {
    w.first <= p <= w.last
  }

  ghost predicate HasData(h: Log, data: map<(nat, nat), seq<Content>>) {
    forall i :: 0 <= i < |h| ==>
      (h[i].id, h[i].version) in data && |data[(h[i].id, h[i].version)]| == h[i].last - h[i].first + 1
  }

  /** The writes of a log applied in ticket order to an empty array. */
  ghost function Flatten(h: Log, data: map<(nat, nat), seq<Content>>): map<nat, Content>
    requires HasData(h, data)
  {
    if h == [] then map[]
    else
      var w := h[|h| - 1];
      Overwrite(Flatten(h[..|h| - 1], data), w, data[(w.id, w.version)])
  }

  lemma OverwriteAt(pages: map<nat, Content>, w: Write, contents: seq<Content>, p: nat)
    requires |contents| == w.last - w.first + 1
    ensures p in Overwrite(pages, w, contents) <==> p in pages || Touch(w, 0, p)
    ensures Touch(w, 0, p) ==> w.first <= p <= w.last && Overwrite(pages, w, contents)[p] == contents[p - w.first]
    ensures !Touch(w, 0, p) && p in pages ==> Overwrite(pages, w, contents)[p] == pages[p]
  {
    assert Touch(w, 0, p) <==> Covers(w, p);
  }

  lemma {:induction false} FlattenIsNewest(h: Log, data: map<(nat, nat), seq<Content>>, p: nat)
    requires HasData(h, data)
    ensures p in Flatten(h, data) <==> Newest(h, 0, p) >= 0
    ensures var i := Newest(h, 0, p);
            i >= 0 ==> h[i].first <= p <= h[i].last && Flatten(h, data)[p] == data[(h[i].id, h[i].version)][p - h[i].first]
  {
    hide Overwrite, Touch;
    if h != [] {
      var g, w := h[..|h| - 1], h[|h| - 1];
      FlattenIsNewest(g, data, p);
      OverwriteAt(Flatten(g, data), w, data[(w.id, w.version)], p);
    }
  }

  // ---- Reading a published version ----

  /** The log behind root number v of a blob. */
  function VersionLog(s: State, id: nat, v: nat): Log
    requires id in s.logs && id in s.bases && s.bases[id] + v <= |s.logs[id]|
  {
    s.logs[id][..s.bases[id] + v]
  }

  /** Version v of blob id is published and not empty. */
  ghost predicate Readable(s: State, id: nat, v: nat) {
    && Tables(s) && id in s.objs && v < |s.objs[id].roots|
    && VersionLog(s, id, v) != []
  }

  /** What a client finds for page p: walk the tree, then fetch the page. */
  ghost function ReadPage(s: State, id: nat, v: nat, p: nat): Found
    requires Readable(s, id, v)
  {
    ReadTree(s.dht, s.objs[id].roots[v].node, RootLevel(VersionLog(s, id, v)), p)
  }

  lemma VersionParts(id: nat, o: ObjInfo, h: Log, b: nat, dht: Dht, v: nat)
    requires BlobOk(id, o, h, b) && TreeOk(Ps(o), dht, o, h, b) && v < |o.roots|
    requires NoneAboveRoot(Ps(o), dht, h) && HasIds(dht)
    ensures var g := h[..b + v];
            StableShape(Ps(o), dht, g, false) && StableRoot(Ps(o), g, o.roots[v].node)
  {
    hide Shift, QueueOk, OwnOk, SizesOk, Shaped, AllShaped, WellFormed, StableRoot, NoneAboveRoot, HasIds;
    assert AllRoots(o)[v] == o.roots[v];
    PrefixFacts(h, b + v);
    AllShapedPrefix(Ps(o), dht, h[..Published(o, b)], b + v, false);
    NoneAbovePrefix(Ps(o), dht, h, b + v);
    assert h[..Published(o, b)][..b + v] == h[..b + v];
  }

  /** What holds of every published version in a reachable state. */
  lemma VersionFacts(s: State, id: nat, v: nat)
    requires Inv(s) && Readable(s, id, v)
    ensures var h, ps := VersionLog(s, id, v), Ps(s.objs[id]);
            && ps > 0 && WellFormed(h) && StableShape(ps, s.dht, h, false)
            && s.objs[id].roots[v].node == RootKey(ps, h)
            && Candidate(ps, h, RootLevel(h), 0, s.objs[id].roots[v].node, false)
            && PagesOk(ps, h, s.data, s.pages) && HasData(h, s.data)
  {
    hide BlobOk, TreeOk, PagesOk, WriterInv, DhtOk, WellFormed, NodeKey, AllShaped, NoneAboveRoot, HasIds, OriginsOk, KeysInv, HasData;
    BlobTrees(s, id);
    var o, h, b := s.objs[id], s.logs[id], s.bases[id];
    BlobTables(id, o, h, b);
    VersionParts(id, o, h, b, s.dht, v);
    PagesPrefix(Ps(o), h, b + v, s.data, s.pages);
    PagesHaveData(Ps(o), VersionLog(s, id, v), s.data, s.pages);
    RootCandidate(Ps(o), VersionLog(s, id, v), false);
  }

  // ---- What the writers of a published history planned ----

  lemma OriginParts(s: State, id: nat, m: nat)
    requires Inv(s) && id in s.objs && 0 < m <= |s.logs[id]|
    ensures s.objs[id].roots != [] && Origin(s, id, m - 1) && WriterInv(s, (s.logs[id][m - 1].id, s.logs[id][m - 1].version))
  {
    hide BlobInv, WriterInv, DhtOk, KeysInv;
    assert OriginsOk(s, id);
  }

  /** How many writes were published when write number m of the log took its ticket. */
  ghost function PublishedBefore(s: State, id: nat, m: nat): nat
    requires Tables(s) && id in s.objs && 0 < m <= |s.logs[id]| && Origin(s, id, m - 1)
  {
    s.writers[(s.logs[id][m - 1].id, s.logs[id][m - 1].version)].published
  }

  /** In a published history every write has stored its whole plan, made from what its
      ticket told it. */
  lemma OriginPlan(s: State, id: nat, m: nat) returns (n: nat, stable: Query)
    requires Inv(s) && id in s.objs && 0 < m <= |s.logs[id]| && Shaped(Ps(s.objs[id]), s.dht, s.logs[id][..m], false)
    ensures Origin(s, id, m - 1) && n == PublishedBefore(s, id, m) < m
    ensures var h, ps := s.logs[id][..m], Ps(s.objs[id]);
            && StableRoot(ps, h[..n], stable)
            && PlanStored(ps, s.dht, h, LeftList(ps, s.dht, h, n, stable), RightList(ps, s.dht, h, n, stable))
  {
    hide BlobInv, KeysInv, SideOk, StoredOk, TicketOk, Origin, StableRoot, PlanStored, Shaped, NodeKey, OriginsOk;
    OriginParts(s, id, m);
    assert Origin(s, id, m - 1) ==> s.writers[(s.logs[id][m - 1].id, s.logs[id][m - 1].version)].log == s.logs[id][..m] by {
      OriginLog(s, id, m);
    }
    var u := (s.logs[id][m - 1].id, s.logs[id][m - 1].version);
    n, stable := s.writers[u].published, s.writers[u].stable;
    OriginTicket(s, id, m);
    StoredPlan(s, u, Ps(s.objs[id]));
  }

  lemma OriginLog(s: State, id: nat, m: nat)
    requires 0 < m && Origin(s, id, m - 1)
    ensures s.writers[(s.logs[id][m - 1].id, s.logs[id][m - 1].version)].log == s.logs[id][..m]
  {
  }

  lemma OriginTicket(s: State, id: nat, m: nat)
    requires 0 < m && Origin(s, id, m - 1) && WriterInv(s, (s.logs[id][m - 1].id, s.logs[id][m - 1].version))
    ensures var wr := s.writers[(s.logs[id][m - 1].id, s.logs[id][m - 1].version)];
            && wr.published < m && StableRoot(Ps(s.objs[id]), s.logs[id][..m][..wr.published], wr.stable)
            && StoredOk(Ps(s.objs[id]), s.dht, wr)
  {
    hide SideOk, StoredOk, StableRoot;
    var u := (s.logs[id][m - 1].id, s.logs[id][m - 1].version);
    var wr := s.writers[u];
    assert s.logs[u.0][..wr.published] == wr.log[..wr.published];
  }

  lemma StoredPlan(s: State, u: (nat, nat), ps: nat)
    requires DhtOk(s.dht, s.writers) && u in s.writers
    requires var wr := s.writers[u];
             && wr.published < |wr.log| && u == (Own(wr.log).id, Own(wr.log).version)
             && StoredOk(ps, s.dht, wr) && Shaped(ps, s.dht, wr.log, false)
    ensures var wr := s.writers[u];
            PlanStored(ps, s.dht, wr.log, LeftList(ps, s.dht, wr.log, wr.published, wr.stable),
                       RightList(ps, s.dht, wr.log, wr.published, wr.stable))
  {
    hide PlanNode, LeftList, RightList, NodeShape;
    var wr := s.writers[u];
    forall k: nat, x: nat | k <= Own(wr.log).level && Touch(Own(wr.log), k, x)
      ensures StoredAt(ps, s.dht, wr.log, wr.published, wr.stable, k, x)
    {
      assert ShapedAt(ps, s.dht, wr.log, k, x, false);
    }
  }

  lemma ShapedPrefix(ps: nat, dht: Dht, h: Log, m: nat)
    requires StableShape(ps, dht, h, false) && m <= |h|
    ensures StableShape(ps, dht, h[..m], false) && (m > 0 ==> Shaped(ps, dht, h[..m], false))
  {
    hide Shift, Shaped, NoneAboveRoot;
    PrefixFacts(h, m);
    AllShapedPrefix(ps, dht, h, m, false);
    NoneAbovePrefix(ps, dht, h, m);
  }

  /** A version's history, as a prefix of its blob's log. */
  lemma LogPrefix(s: State, id: nat, v: nat, m: nat)
    requires Tables(s) && id in s.objs && v < |s.objs[id].roots| && m <= |VersionLog(s, id, v)|
    ensures VersionLog(s, id, v)[..m] == s.logs[id][..m] && m <= |s.logs[id]|
  {
    assert VersionLog(s, id, v)[..m] == s.logs[id][..m];
  }

  /** While tickets are in reach, published trees are the canonical ones. */
  lemma {:induction false} CompleteIfInReach(s: State, id: nat, v: nat, m: nat)
    requires Inv(s) && Readable(s, id, v) && m <= |VersionLog(s, id, v)| && AllInReach(VersionLog(s, id, v)[..m])
    ensures Complete(Ps(s.objs[id]), s.dht, VersionLog(s, id, v)[..m])
    decreases m
  {
    hide Inv, WellFormed, AllInReach, InReach, Woven, PlanStored, StableRoot, PagesOk, HasData, Granted, Candidate, StableShape;
    if m > 0 {
      var h, ps := VersionLog(s, id, v), Ps(s.objs[id]);
      var g := h[..m];
      assert g[..m - 1] == h[..m - 1];
      PrefixFacts(g, m - 1);
      CompleteIfInReach(s, id, v, m - 1);
      var n, stable := GrantedOrigin(s, id, v, m);
      LastInReach(g);
      PlanIsWoven(ps, s.dht, s.dht, g, n, stable);
      CompleteStep(ps, s.dht, g);
    }
  }

  lemma LastInReach(h: Log)
    requires AllInReach(h) && h != []
    ensures InReach(h, |h| - 1)
  {
  }

  /** Up to the first ticket out of reach, writers find the trees they rely on. */
  lemma GrantedOrigin(s: State, id: nat, v: nat, m: nat) returns (n: nat, stable: Query)
    requires Inv(s) && Readable(s, id, v) && 0 < m <= |VersionLog(s, id, v)|
    requires AllInReach(VersionLog(s, id, v)[..m - 1]) && Complete(Ps(s.objs[id]), s.dht, VersionLog(s, id, v)[..m - 1])
    ensures var g, ps := VersionLog(s, id, v)[..m], Ps(s.objs[id]);
            && Granted(ps, s.dht, g, n, stable)
            && PlanStored(ps, s.dht, g, LeftList(ps, s.dht, g, n, stable), RightList(ps, s.dht, g, n, stable))
  {
    hide BlobInv, WriterInv, DhtOk, OriginsOk, KeysInv, Origin, WellFormed, AllInReach, Shaped, PlanStored, StableRoot,
      PagesOk, HasData, Candidate, Complete;
    VersionFacts(s, id, v);
    var h, ps := VersionLog(s, id, v), Ps(s.objs[id]);
    LogPrefix(s, id, v, m);
    ShapedPrefix(ps, s.dht, h, m);
    n, stable := OriginPlan(s, id, m);
    PrefixFacts(h, m);
    PrefixFacts(h, n);
    PrefixFacts(h[..m - 1], n);
    CompletePrefix(ps, s.dht, h[..m - 1], n);
    assert h[..m - 1][..n] == h[..n] && h[..m][..n] == h[..n] && h[..m][..m - 1] == h[..m - 1];
  }

  /** Every published version in reach has a complete tree: no link reachable from its root
      dangles, whatever order the writers stored their nodes in. */
  lemma PublishedTreesAreComplete(states: seq<State>, steps: seq<Step>, i: nat, id: nat, v: nat)
    requires Run(states, steps) && i < |states| && Readable(states[i], id, v)
    requires AllInReach(VersionLog(states[i], id, v))
    ensures Present(states[i].dht, states[i].objs[id].roots[v].node, RootLevel(VersionLog(states[i], id, v)))
  {
    hide Inv, Complete, WellFormed, AllInReach, PagesOk, Run, Present, StableShape, Candidate, HasData;
    var s := states[i];
    RunInv(states, steps, i);
    VersionFacts(s, id, v);
    var h := VersionLog(s, id, v);
    assert h[..|h|] == h;
    CompleteIfInReach(s, id, v, |h|);
    RootLinks(Ps(s.objs[id]), h);
    CompleteIsPresent(Ps(s.objs[id]), s.dht, h, RootLevel(h), 0, s.objs[id].roots[v].node);
  }

  // ---- What a version reads ----

  /** The pages that a client finds in a version. */
  ghost function Seen(s: State, id: nat, v: nat): map<nat, Content>
    requires Readable(s, id, v)
  {
    map p: nat | p < Size(1, RootLevel(VersionLog(s, id, v))) && IsSeen(s, id, v, p) :: s.pages[ReadPage(s, id, v, p).key]
  }

  ghost predicate IsSeen(s: State, id: nat, v: nat, p: nat)
    requires Readable(s, id, v)
  {
    ReadPage(s, id, v, p).Page? && ReadPage(s, id, v, p).key in s.pages
  }

  lemma UnderRoot(p: nat, k: nat)
    ensures p < Size(1, k) <==> Shift(p, k) == 0
  {
    BelowShift(1, p, k, 1);
  }

  /** A page of a version's history that was written at p with these contents. */
  ghost predicate WroteAt(s: State, w: Write, p: nat, c: Content) {
    && w.first <= p <= w.last && (w.id, w.version) in s.data
    && p - w.first < |s.data[(w.id, w.version)]| && c == s.data[(w.id, w.version)][p - w.first]
  }

  /** Whatever was written where, a page that a published version reads is in the page store
      and holds what some write of its history put there. */
  lemma ReadsAreWrites(s: State, id: nat, v: nat, p: nat)
    requires Inv(s) && Readable(s, id, v) && Shift(p, RootLevel(VersionLog(s, id, v))) == 0
    ensures var r := ReadPage(s, id, v, p);
            r.Page? ==> r.key in s.pages && p in Seen(s, id, v) && Seen(s, id, v)[p] == s.pages[r.key]
                        && |Seen(s, id, v)[p]| == Ps(s.objs[id])
                        && exists j :: 0 <= j < |VersionLog(s, id, v)| && WroteAt(s, VersionLog(s, id, v)[j], p, Seen(s, id, v)[p])
  {
    hide Inv, WellFormed, Shift, StableShape, Candidate, HasData, ReadTree, PagesOk, Size;
    VersionFacts(s, id, v);
    var h, ps := VersionLog(s, id, v), Ps(s.objs[id]);
    UnderRoot(p, RootLevel(h));
    ReadIsWritten(ps, s.dht, h, RootLevel(h), s.objs[id].roots[v].node, p);
    var r := ReadPage(s, id, v, p);
    if r.Page? {
      var j: nat :| j < |h| && Touch(h[j], 0, p) && r.key == PageKey(ps, h[j], p);
      StoredPage(ps, h, s.data, s.pages, j, p);
      assert WroteAt(s, h[j], p, Seen(s, id, v)[p]);
    }
  }

  lemma StoredPage(ps: nat, h: Log, data: map<(nat, nat), seq<Content>>, pages: map<Query, Content>, j: nat, p: nat)
    requires PagesOk(ps, h, data, pages) && j < |h| && Touch(h[j], 0, p)
    ensures h[j].first <= p <= h[j].last && (h[j].id, h[j].version) in data
    ensures p - h[j].first < |data[(h[j].id, h[j].version)]| && PageKey(ps, h[j], p) in pages
    ensures pages[PageKey(ps, h[j], p)] == data[(h[j].id, h[j].version)][p - h[j].first]
    ensures |pages[PageKey(ps, h[j], p)]| == ps
  {
    assert PageOk(ps, h[j], data, pages);
  }

  lemma NotSeen(s: State, id: nat, v: nat, p: nat)
    requires Readable(s, id, v) && p in Seen(s, id, v)
    ensures ReadPage(s, id, v, p).Page? && Shift(p, RootLevel(VersionLog(s, id, v))) == 0
  {
    hide ReadTree;
    UnderRoot(p, RootLevel(VersionLog(s, id, v)));
  }

  /** Reading page p of a published version in reach finds the page of the newest write of
      that version's history that covers p, or finds it unwritten; it never meets a missing
      node; and the stored page holds what the flat array of pages holds. */
  lemma ReadsRefineFlatStore(states: seq<State>, steps: seq<Step>, i: nat, id: nat, v: nat, p: nat)
    requires Run(states, steps) && i < |states| && Readable(states[i], id, v)
    requires AllInReach(VersionLog(states[i], id, v))
    requires Shift(p, RootLevel(VersionLog(states[i], id, v))) == 0
    ensures var s, h := states[i], VersionLog(states[i], id, v);
            && HasData(h, s.data)
            && ReadPage(s, id, v, p) == ReadLog(Ps(s.objs[id]), h, p)
            && (match ReadPage(s, id, v, p)
                case Page(key) => p in Flatten(h, s.data) && key in s.pages && s.pages[key] == Flatten(h, s.data)[p]
                case Unwritten => p !in Flatten(h, s.data)
                case Missing => false)
  {
    hide Inv, Run, ReadTree, Flatten, AllInReach;
    RunInv(states, steps, i);
    StateReadsFlat(states[i], id, v, p);
  }

  lemma StateReadsFlat(s: State, id: nat, v: nat, p: nat)
    requires Inv(s) && Readable(s, id, v) && Shift(p, RootLevel(VersionLog(s, id, v))) == 0
    requires AllInReach(VersionLog(s, id, v))
    ensures var h := VersionLog(s, id, v);
            && HasData(h, s.data)
            && ReadPage(s, id, v, p) == ReadLog(Ps(s.objs[id]), h, p)
            && (match ReadPage(s, id, v, p)
                case Page(key) => p in Flatten(h, s.data) && key in s.pages && s.pages[key] == Flatten(h, s.data)[p]
                case Unwritten => p !in Flatten(h, s.data)
                case Missing => false)
  {
    hide Inv, Complete, WellFormed, AllInReach, Shift, ReadTree, Flatten, StableShape, Candidate;
    VersionFacts(s, id, v);
    var h, ps := VersionLog(s, id, v), Ps(s.objs[id]);
    assert h[..|h|] == h;
    CompleteIfInReach(s, id, v, |h|);
    RootLinks(ps, h);
    TreeReadsLog(ps, s.dht, h, RootLevel(h), s.objs[id].roots[v].node, p);
    FlattenIsNewest(h, s.data, p);
    if Newest(h, 0, p) >= 0 {
      assert PageOk(ps, h[Newest(h, 0, p)], s.data, s.pages);
    }
  }

  lemma FlattenUnderRoot(h: Log, data: map<(nat, nat), seq<Content>>, p: nat)
    requires WellFormed(h) && HasData(h, data) && p in Flatten(h, data)
    ensures Shift(p, RootLevel(h)) == 0
  {
    hide Flatten;
    FlattenIsNewest(h, data, p);
    var i := Newest(h, 0, p);
    ShiftMonotone(p, h[i].last, h[i].level);
    ShiftZeroUp(p, h[i].level, RootLevel(h));
  }

  /** In reach, a version is the array of pages that its history's writes make. */
  lemma SeenIsFlat(s: State, id: nat, v: nat)
    requires Inv(s) && Readable(s, id, v) && AllInReach(VersionLog(s, id, v))
    ensures HasData(VersionLog(s, id, v), s.data) && Seen(s, id, v) == Flatten(VersionLog(s, id, v), s.data)
  {
    hide Inv, AllInReach, ReadTree, Flatten, Shift, Size, StableShape, Candidate, PagesOk, WellFormed, HasData;
    VersionFacts(s, id, v);
    var h, ps := VersionLog(s, id, v), Ps(s.objs[id]);
    var flat, seen := Flatten(h, s.data), Seen(s, id, v);
    forall p: nat ensures p in flat <==> p in seen
      ensures p in flat ==> flat[p] == seen[p]
    {
      if p in flat { FlattenUnderRoot(h, s.data, p); }
      UnderRoot(p, RootLevel(h));
      if Shift(p, RootLevel(h)) == 0 { StateReadsFlat(s, id, v, p); }
    }
  }

  lemma PagesHaveData(ps: nat, h: Log, data: map<(nat, nat), seq<Content>>, pages: map<Query, Content>)
    requires PagesOk(ps, h, data, pages)
    ensures HasData(h, data)
  {
    forall i | 0 <= i < |h|
      ensures (h[i].id, h[i].version) in data && |data[(h[i].id, h[i].version)]| == h[i].last - h[i].first + 1
    {
      assert PageOk(ps, h[i], data, pages);
    }
  }

  // ---- Snapshot isolation ----

  /** Later states keep every published root, extend every log, and keep what was written. */
  ghost predicate Grows(s: State, s': State) {
    && (forall id :: id in s.objs ==> BlobExtends(s, s', id))
    && (forall d :: d in s.data ==> d in s'.data && s'.data[d] == s.data[d])
    && Extends(s.dht, s'.dht)
  }

  ghost predicate BlobExtends(s: State, s': State, id: nat) {
    && id in s.objs && id in s'.objs && s.objs[id].roots <= s'.objs[id].roots
    && id in s.logs && id in s'.logs && s.logs[id] <= s'.logs[id]
    && id in s.bases && id in s'.bases && s.bases[id] == s'.bases[id]
  }

  lemma TicketRoots(o: ObjInfo, q: Query, append: bool)
    requires o.roots != [] && CanGrant(o, q, append)
    ensures GrantTicket(o, q, append).roots == o.roots
  {
    hide Insert, Grow;
  }

  lemma GrantExtends(s: State, s': State, q: Query, append: bool, contents: seq<Content>, id: nat)
    requires Tables(s) && id in s.objs && GrantUpdate(s, s', q, append, contents)
    ensures BlobExtends(s, s', id)
  {
    hide NewWriter, StorePages, GrantedWrite, GrantTicket, Sized;
    GrantIsGrantable(s, q, append, contents);
    if id == q.id { TicketRoots(s.objs[id], q, append); }
  }

  lemma GrantGrows(s: State, s': State, q: Query, append: bool, contents: seq<Content>)
    requires Inv(s) && GrantUpdate(s, s', q, append, contents)
    ensures Grows(s, s')
  {
    hide BlobInv, WriterInv, DhtOk, OriginsOk, KeysInv, NewWriter, StorePages, GrantedWrite, GrantTicket, BlobExtends;
    TicketFresh(s, q.id);
    forall id | id in s.objs ensures BlobExtends(s, s', id) {
      GrantExtends(s, s', q, append, contents, id);
    }
  }

  lemma PublishRoots(id: nat, o: ObjInfo, h: Log, b: nat, v: nat)
    requires BlobOk(id, o, h, b)
    ensures o.roots <= PublishVersion(o, v).roots
  {
    hide RootsOk, QueueOk, OwnOk, SizesOk, WellFormed, AllInReach, PublishVersion;
    PublishKeepsValid(o, v);
  }

  /** Only one blob's published roots change. */
  lemma RootsGrow(s: State, s': State, id: nat)
    requires Tables(s) && id in s.objs && id in s'.objs && s.objs[id].roots <= s'.objs[id].roots
    requires s'.objs == s.objs[id := s'.objs[id]] && s'.logs == s.logs && s'.bases == s.bases && s'.data == s.data
    requires s'.dht == s.dht
    ensures Grows(s, s')
  {
    forall i | i in s.objs ensures BlobExtends(s, s', i) {
    }
  }

  lemma SameTablesGrow(s: State, s': State)
    requires Tables(s) && s'.objs == s.objs && s'.logs == s.logs && s'.bases == s.bases && s'.data == s.data
    requires Extends(s.dht, s'.dht)
    ensures Grows(s, s')
  {
    forall i | i in s.objs ensures BlobExtends(s, s', i) {
    }
  }

  lemma PublishGrows(s: State, id: nat, v: nat)
    requires Inv(s) && Enabled(s, Publish(id, v))
    ensures Grows(s, Next(s, Publish(id, v)))
  {
    hide WriterInv, DhtOk, OriginsOk, KeysInv, PublishVersion, TreeOk, PagesOk, BlobOk, AllStored, Grows;
    assert BlobInv(s, id);
    PublishRoots(id, s.objs[id], s.logs[id], s.bases[id], v);
    RootsGrow(s, Next(s, Publish(id, v)), id);
  }

  lemma AddedBlobGrows(s: State, s': State, id: nat)
    requires Tables(s) && id !in s.objs && id in s'.objs && id in s'.logs && id in s'.bases && s'.data == s.data
    requires s'.objs == s.objs[id := s'.objs[id]] && s'.logs == s.logs[id := s'.logs[id]]
    requires s'.bases == s.bases[id := s'.bases[id]] && s'.dht == s.dht
    ensures Grows(s, s')
  {
    forall i | i in s.objs ensures BlobExtends(s, s', i) {
    }
  }

  lemma StepGrows(s: State, step: Step, s': State)
    requires Inv(s) && StepOf(s, step, s')
    ensures Grows(s, s')
  {
    hide BlobInv, WriterInv, DhtOk, OriginsOk, KeysInv, GrantTicket, NewWriter, StorePages, GrantedWrite, PlanNode, Fetched, PublishVersion,
      Grows, AllStored, CanTicket, Touch;
    match step
    case Create(ps, rc) =>
      FreshId(s);
      AddedBlobGrows(s, s', s.count + 1);
    case Clone(source, version) =>
      FreshId(s);
      AddedBlobGrows(s, s', s.count + 1);
    case Grant(q, append, contents) => GrantGrows(s, s', q, append, contents);
    case FetchNode(id, version, isLeft) => SameTablesGrow(s, s');
    case PutNode(id, version, k, x) =>
      PutInv(s, id, version, k, x);
      SameTablesGrow(s, s');
    case Publish(id, version) => PublishGrows(s, id, version);
  }

  lemma GrowsTransitive(s: State, t: State, u: State)
    requires Grows(s, t) && Grows(t, u)
    ensures Grows(s, u)
  {
    forall id | id in s.objs ensures BlobExtends(s, u, id) {
      assert BlobExtends(s, t, id) && BlobExtends(t, u, id);
    }
  }

  lemma GrowsReflexive(s: State)
    requires Inv(s)
    ensures Grows(s, s)
  {
    hide BlobInv, WriterInv, DhtOk, OriginsOk, KeysInv;
    SameTablesGrow(s, s);
  }

  lemma {:induction false} RunGrows(states: seq<State>, steps: seq<Step>, i: nat, j: nat)
    requires Run(states, steps) && i <= j < |states|
    ensures Grows(states[i], states[j])
    decreases j
  {
    hide Inv, StepOf, Grows;
    RunInv(states, steps, i);
    if i == j {
      GrowsReflexive(states[i]);
    } else {
      RunGrows(states, steps, i, j - 1);
      RunInv(states, steps, j - 1);
      StepGrows(states[j - 1], steps[j - 1], states[j]);
      GrowsTransitive(states[i], states[j - 1], states[j]);
    }
  }

  lemma VersionKept(s: State, s': State, id: nat, v: nat)
    requires Inv(s) && Inv(s') && Grows(s, s') && Readable(s, id, v)
    ensures Readable(s', id, v) && s'.objs[id].roots[v] == s.objs[id].roots[v]
    ensures VersionLog(s', id, v) == VersionLog(s, id, v) && Ps(s'.objs[id]) == Ps(s.objs[id])
  {
    hide BlobInv, WriterInv, DhtOk, OriginsOk, KeysInv;
    assert BlobExtends(s, s', id);
    assert s.logs[id] <= s'.logs[id];
  }

  /** No later step of any writer, of any blob, changes what a published version reads:
      the same page keys with the same contents.  A clone reads its source's pages, so this
      also says that writes to a clone and to its source never affect each other. */
  lemma SnapshotIsolation(states: seq<State>, steps: seq<Step>, i: nat, j: nat, id: nat, v: nat, p: nat)
    requires Run(states, steps) && i <= j < |states| && Readable(states[i], id, v)
    requires Shift(p, RootLevel(VersionLog(states[i], id, v))) == 0
    ensures Readable(states[j], id, v) && ReadPage(states[j], id, v, p) == ReadPage(states[i], id, v, p)
    ensures var r := ReadPage(states[i], id, v, p);
            r.Page? ==> r.key in states[i].pages && r.key in states[j].pages
                        && states[j].pages[r.key] == states[i].pages[r.key]
  {
    hide Inv, ReadTree, Run, Shift, ReadPage;
    var s, s' := states[i], states[j];
    RunInv(states, steps, i);
    RunInv(states, steps, j);
    RunGrows(states, steps, i, j);
    VersionKept(s, s', id, v);
    StateIsolated(s, s', id, v, p);
  }

  lemma StateIsolated(s: State, s': State, id: nat, v: nat, p: nat)
    requires Inv(s) && Inv(s') && Grows(s, s') && Readable(s, id, v) && Readable(s', id, v)
    requires VersionLog(s', id, v) == VersionLog(s, id, v) && s'.objs[id].roots[v] == s.objs[id].roots[v]
    requires Ps(s'.objs[id]) == Ps(s.objs[id]) && Shift(p, RootLevel(VersionLog(s, id, v))) == 0
    ensures ReadPage(s', id, v, p) == ReadPage(s, id, v, p)
    ensures var r := ReadPage(s, id, v, p);
            r.Page? ==> r.key in s.pages && r.key in s'.pages && s'.pages[r.key] == s.pages[r.key]
  {
    hide Inv, ReadTree, Shift, Size, Candidate, WellFormed, PagesOk, HasData, AllShaped, BlobExtends;
    VersionFacts(s, id, v);
    VersionFacts(s', id, v);
    var h, ps := VersionLog(s, id, v), Ps(s.objs[id]);
    ReadSettled(ps, s.dht, s'.dht, h, RootLevel(h), s.objs[id].roots[v].node, p);
    ReadIsWritten(ps, s.dht, h, RootLevel(h), s.objs[id].roots[v].node, p);
    var r := ReadPage(s, id, v, p);
    if r.Page? {
      var j: nat :| j < |h| && Touch(h[j], 0, p) && r.key == PageKey(ps, h[j], p);
      StoredPage(ps, h, s.data, s.pages, j, p);
      StoredPage(ps, h, s'.data, s'.pages, j, p);
    }
  }

  // ---- Clones and range reads ----

  lemma CloneShares(s: State, source: nat, version: nat)
    requires Tables(s) && source in s.objs
    ensures var s' := Next(s, Clone(source, version));
            var i, id := SelectIndex(s.objs[source], version), s.count + 1;
            && id in s'.objs && id in s'.logs && id in s'.bases && i < |s.objs[source].roots|
            && s'.objs[id].roots == [s.objs[source].roots[i]]
            && s'.bases[id] == |s'.logs[id]| && s'.dht == s.dht
            && s'.logs[id] == VersionLog(s, source, i)
  {
  }

  lemma InvTables(s: State)
    requires Inv(s)
    ensures Tables(s)
  {
  }

  /** A clone reads exactly as the version it was made from. */
  lemma CloneReadsSource(s: State, s': State, source: nat, version: nat, p: nat)
    requires Inv(s) && Inv(s') && StepOf(s, Clone(source, version), s')
    requires Readable(s, source, SelectIndex(s.objs[source], version))
    ensures Readable(s', s.count + 1, 0)
    ensures ReadPage(s', s.count + 1, 0, p) == ReadPage(s, source, SelectIndex(s.objs[source], version), p)
  {
    hide Inv, ReadTree, RootLevel, Next, Tables, Enabled;
    CloneShares(s, source, version);
    InvTables(s');
    var h := s'.logs[s.count + 1];
    assert h[..|h|] == h;
  }

  /** Every published tree is well-formed, wherever its links lead. */
  lemma {:induction false} CandidatePlaced(ps: nat, dht: Dht, h: Log, k: nat, x: nat, q: Query)
    requires StableShape(ps, dht, h, false) && Candidate(ps, h, k, x, q, false)
    ensures WellPlaced(ps, dht, q, k, x)
    decreases k
  {
    hide Shift, Size, StableShape, Candidate;
    CandidateForm(ps, dht, h, k, x, q);
    if q in dht {
      var i := CandidateNode(ps, dht, h, k, x, q, false);
      if k > 0 {
        CandidatePlaced(ps, dht, h, k - 1, 2 * x, dht[q].left);
        CandidatePlaced(ps, dht, h, k - 1, 2 * x + 1, dht[q].right);
      }
    }
  }

  lemma CandidateForm(ps: nat, dht: Dht, h: Log, k: nat, x: nat, q: Query)
    requires StableShape(ps, dht, h, false) && Candidate(ps, h, k, x, q, false)
    ensures HoleAt(ps, k, x, q) || (!IsHole(q) && SameRange(q, x * Size(ps, k), Size(ps, k)))
  {
    hide AllShaped, NoneAboveRoot, HasIds;
  }

  /** The request for pages a..b-1 of a version. */
  function PageRequest(s: State, id: nat, v: nat, a: nat, b: nat): Request
    requires Readable(s, id, v) && a <= b
  {
    var ps, root := Ps(s.objs[id]), s.objs[id].roots[v].node;
    Request(ps, s.dht, root, RootLevel(VersionLog(s, id, v)), Query(root.id, root.version, a * ps, (b - a) * ps), a, b)
  }

  lemma RequestReady(s: State, id: nat, v: nat, a: nat, b: nat)
    requires Inv(s) && Readable(s, id, v) && a < b && Shift(b - 1, RootLevel(VersionLog(s, id, v))) == 0
    ensures PageRequest(s, id, v, a, b).Valid()
  {
    hide Inv, Shift, PagesOk, NodeKey, WellPlaced, Candidate, AllShaped, NoneAboveRoot, WellFormed, HasData;
    VersionFacts(s, id, v);
    CandidatePlaced(Ps(s.objs[id]), s.dht, VersionLog(s, id, v), RootLevel(VersionLog(s, id, v)), 0, s.objs[id].roots[v].node);
  }

  lemma FoundIsSeen(s: State, id: nat, v: nat, a: nat, b: nat)
    requires Inv(s) && Readable(s, id, v) && a < b && Shift(b - 1, RootLevel(VersionLog(s, id, v))) == 0
    ensures PageRequest(s, id, v, a, b).AllFound() <==> forall p: nat :: a <= p < b ==> p in Seen(s, id, v)
  {
    hide Inv, Shift, ReadTree, Size, Seen;
    forall p: nat | a <= p < b ensures p in Seen(s, id, v) <==> PageRequest(s, id, v, a, b).View(p).Page? {
      ShiftMonotone(p, b - 1, RootLevel(VersionLog(s, id, v)));
      ReadsAreWrites(s, id, v, p);
      if p in Seen(s, id, v) { NotSeen(s, id, v, p); }
    }
  }

  /** In every reachable state, a range read of a published version fills every slot and
      succeeds exactly when every page of the range is in that version, in whatever order its
      gets are answered; in reach, those are the pages that have been written. */
  lemma RangeReadsSucceedIffWritten(states: seq<State>, steps: seq<Step>, i: nat, id: nat, v: nat,
                                    a: nat, b: nat, order: seq<nat>)
    requires Run(states, steps) && i < |states| && Readable(states[i], id, v)
    requires a < b && Shift(b - 1, RootLevel(VersionLog(states[i], id, v))) == 0 && Ps(states[i].objs[id]) > 0
    requires var r := PageRequest(states[i], id, v, a, b);
             ServeAll(r.dht, r.range, r.ps, Start(r.root, r.level, b - a), order).gets == []
    ensures var s, h, r := states[i], VersionLog(states[i], id, v), PageRequest(states[i], id, v, a, b);
            var end := ServeAll(r.dht, r.range, r.ps, Start(r.root, r.level, b - a), order);
            && HasData(h, s.data)
            && (end.ok && Filled(end.slots) <==> forall p: nat :: a <= p < b ==> p in Seen(s, id, v))
            && (AllInReach(h) ==> Seen(s, id, v) == Flatten(h, s.data))
  {
    hide Inv, Run, ServeAll, Start, Filled, Flatten, Seen, AllInReach, Shift, HasData;
    RunInv(states, steps, i);
    var s := states[i];
    VersionHasData(s, id, v);
    RequestReady(s, id, v, a, b);
    AnyOrderSucceedsIff(PageRequest(s, id, v, a, b), order);
    FoundIsSeen(s, id, v, a, b);
    if AllInReach(VersionLog(s, id, v)) { SeenIsFlat(s, id, v); }
  }

  lemma VersionHasData(s: State, id: nat, v: nat)
    requires Inv(s) && Readable(s, id, v)
    ensures HasData(VersionLog(s, id, v), s.data) && PagesOk(Ps(s.objs[id]), VersionLog(s, id, v), s.data, s.pages)
  {
    hide Inv, PagesOk, HasData, StableShape, Candidate, WellFormed;
    VersionFacts(s, id, v);
  }
}
