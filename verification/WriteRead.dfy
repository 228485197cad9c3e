/** What a client writes is what clients read: the contents given with a ticket are kept for
    good, and the version that the ticket makes reads them at the offset asked for. */
module WriteRead {
  import Arithmetic
  import opened Metadata
  import opened Dyadic
  import opened History
  import opened Weave
  import opened Shape
  import opened Reach
  import opened VersionManager
  import opened Protocol
  import opened ProtocolInvariant
  import opened Refinement
  import opened BlobSizes

  /** Down a writer's own nodes, the walk towards a page of its own write finds that page. */
  lemma {:induction false} OwnPageRead(ps: nat, dht: Dht, h: Log, left: seq<Query>, right: seq<Query>, k: nat, p: nat)
    requires h != [] && WellFormedWrite(Own(h)) && PlanStored(ps, dht, h, left, right)
    requires k <= Own(h).level && Own(h).first <= p <= Own(h).last
    ensures ReadTree(dht, NodeKey(ps, Own(h), k, Shift(p, k)), k, p) == Page(PageKey(ps, Own(h), p))
    decreases k
  {
    hide Shift, PlanStored, Size;
    var w := Own(h);
    TouchesUp(w.first, w.last, p, k);
    OwnNodeStored(ps, dht, h, left, right, k, Shift(p, k));
    if k > 0 {
      ShiftHalf(p, k - 1);
      TouchesUp(w.first, w.last, p, k - 1);
      OwnPageRead(ps, dht, h, left, right, k - 1, p);
    } else {
      PageItself(p);
    }
  }

  lemma PageItself(p: nat)
    ensures Shift(p, 0) == p
  {
  }

  lemma OwnNodeStored(ps: nat, dht: Dht, h: Log, left: seq<Query>, right: seq<Query>, k: nat, x: nat)
    requires h != [] && PlanStored(ps, dht, h, left, right) && k <= Own(h).level && Touch(Own(h), k, x)
    ensures NodeKey(ps, Own(h), k, x) in dht && dht[NodeKey(ps, Own(h), k, x)] == PlanNode(ps, Own(h), left, right, k, x)
  {
    hide PlanNode, NodeKey;
  }

  /** A published version reads its own write, whatever the offset. */
  lemma OwnWriteRead(s: State, id: nat, v: nat, p: nat)
    requires Inv(s) && Readable(s, id, v) && Own(VersionLog(s, id, v)).first <= p <= Own(VersionLog(s, id, v)).last
    ensures ReadPage(s, id, v, p) == Page(PageKey(Ps(s.objs[id]), Own(VersionLog(s, id, v)), p))
    ensures Shift(p, RootLevel(VersionLog(s, id, v))) == 0
  {
    hide Inv, Shift, WellFormed, PlanStored, StableShape, Candidate, PagesOk, HasData, ReadTree, StableRoot, Origin;
    VersionFacts(s, id, v);
    var h, ps := VersionLog(s, id, v), Ps(s.objs[id]);
    LogPrefix(s, id, v, |h|);
    assert h[..|h|] == h;
    ShapedPrefix(ps, s.dht, h, |h|);
    var n, stable := OriginPlan(s, id, |h|);
    OwnIsWell(h);
    UnderOwnRoot(Own(h), p);
    OwnPageRead(ps, s.dht, h, LeftList(ps, s.dht, h, n, stable), RightList(ps, s.dht, h, n, stable), Own(h).level, p);
  }

  lemma UnderOwnRoot(w: Write, p: nat)
    requires WellFormedWrite(w) && p <= w.last
    ensures Shift(p, w.level) == 0
  {
    ShiftMonotone(p, w.last, w.level);
  }

  /** The contents given with a ticket are never changed. */
  lemma ContentsKept(states: seq<State>, steps: seq<Step>, i: nat, j: nat)
    requires Run(states, steps) && i < |steps| && steps[i].Grant? && i < j < |states|
    ensures var id := steps[i].query.id;
            && id in states[i].objs
            && var u := (id, states[i].objs[id].currentTicket);
            u in states[j].data && states[j].data[u] == steps[i].contents
  {
    hide Inv, Run, BlobExtends;
    ContentsStored(states, steps, i);
    RunGrows(states, steps, i + 1, j);
  }

  lemma ContentsStored(states: seq<State>, steps: seq<Step>, i: nat)
    requires Run(states, steps) && i < |steps| && steps[i].Grant?
    ensures var id := steps[i].query.id;
            && id in states[i].objs
            && var u := (id, states[i].objs[id].currentTicket);
            u in states[i + 1].data && states[i + 1].data[u] == steps[i].contents
  {
    hide GrantTicket, NewWriter, StorePages, GrantedWrite;
    assert StepOf(states[i], steps[i], states[i + 1]);
  }

  /** The log entry that a ticket made, in every later state. */
  lemma TicketStays(states: seq<State>, steps: seq<Step>, i: nat, j: nat)
    requires Run(states, steps) && i < |steps| && steps[i].Grant? && i < j < |states|
    ensures var q, s, t := steps[i].query, states[i], states[j];
            && q.id in s.objs && s.objs[q.id].roots != [] && q.id in s.logs && q.id in s.bases
            && q.id in t.objs && t.objs[q.id].roots != [] && q.id in t.logs && q.id in t.bases
            && Ps(t.objs[q.id]) == Ps(s.objs[q.id]) && t.bases[q.id] == s.bases[q.id]
            && s.bases[q.id] + s.objs[q.id].currentTicket == |s.logs[q.id]| + 1
            && |s.logs[q.id]| < |t.logs[q.id]|
            && var w := t.logs[q.id][|s.logs[q.id]|];
            && w.first * Ps(s.objs[q.id]) == (if steps[i].append then s.objs[q.id].progressSize else q.offset)
            && w.last + 1 == w.first + |steps[i].contents| && w.id == q.id
            && w.version == s.objs[q.id].currentTicket
  {
    hide Run, Inv, Next, Enabled, BlobExtends;
    var q := steps[i].query;
    RunInv(states, steps, i);
    GrantIsStep(states, steps, i);
    TicketOn(states[i], steps[i]);
    TicketLogged(states[i], q, steps[i].append, steps[i].contents);
    TicketNumber(states[i], q.id);
    RunGrows(states, steps, i + 1, j);
    FirstRootStays(states, steps, i, j, q.id);
    RunGrows(states, steps, i, j);
    LogGrows(states[i + 1], states[j], q.id);
    LogGrows(states[i], states[j], q.id);
  }

  lemma GrantIsStep(states: seq<State>, steps: seq<Step>, i: nat)
    requires Run(states, steps) && i < |steps|
    ensures StepOf(states[i], steps[i], states[i + 1])
  {
  }

  lemma TicketNumber(s: State, id: nat)
    requires Inv(s) && id in s.objs
    ensures id in s.logs && id in s.bases && s.bases[id] + s.objs[id].currentTicket == |s.logs[id]| + 1
  {
    hide WriterInv, DhtOk, OriginsOk, KeysInv, TreeOk, PagesOk, RootsOk, QueueOk, OwnOk, SizesOk, WellFormed;
    assert BlobInv(s, id);
  }

  lemma LogGrows(s: State, t: State, id: nat)
    requires Grows(s, t) && id in s.objs
    ensures id in t.objs && id in s.logs && id in t.logs && s.logs[id] <= t.logs[id]
    ensures id in s.bases && id in t.bases && s.bases[id] == t.bases[id]
  {
    assert BlobExtends(s, t, id);
  }

  /** The central law on runs: once the version that a write made is published, page k of what
      was written is read k pages after the offset asked for, in every later state.  For an
      append the offset is the progress size at its ticket. */
  lemma WrittenIsRead(states: seq<State>, steps: seq<Step>, i: nat, j: nat, k: nat)
    requires Run(states, steps) && i < |steps| && steps[i].Grant? && i < j < |states| && k < |steps[i].contents|
    requires steps[i].query.id in states[i].objs
    requires Readable(states[j], steps[i].query.id, states[i].objs[steps[i].query.id].currentTicket)
    ensures var id, s, t := steps[i].query.id, states[i], states[j];
            var v := s.objs[id].currentTicket;
            && s.objs[id].roots != [] && Ps(s.objs[id]) > 0
            && var p := (if steps[i].append then s.objs[id].progressSize else steps[i].query.offset) / Ps(s.objs[id]) + k;
            && ReadPage(t, id, v, p).Page?
            && ReadPage(t, id, v, p).key in t.pages && t.pages[ReadPage(t, id, v, p).key] == steps[i].contents[k]
            && p in Seen(t, id, v) && Seen(t, id, v)[p] == steps[i].contents[k]
  {
    hide Run, Inv, ReadPage, Seen, Shift, Readable, VersionLog, PagesOk, HasData;
    var id, s, t := steps[i].query.id, states[i], states[j];
    var v := s.objs[id].currentTicket;
    RunInv(states, steps, i);
    RunInv(states, steps, j);
    TicketStays(states, steps, i, j);
    ContentsKept(states, steps, i, j);
    PagePositive(s, id);
    var w := t.logs[id][|s.logs[id]|];
    OwnEntry(t, id, v, |s.logs[id]|);
    FirstPage(w, Ps(s.objs[id]));
    var p := w.first + k;
    OwnWriteRead(t, id, v, p);
    ReadsAreWrites(t, id, v, p);
    OwnPageStored(t, id, v, p);
  }

  lemma PagePositive(s: State, id: nat)
    requires Inv(s) && id in s.objs
    ensures s.objs[id].roots != [] && Ps(s.objs[id]) > 0
  {
    hide WriterInv, DhtOk, OriginsOk, KeysInv, TreeOk, PagesOk, RootsOk, QueueOk, OwnOk, SizesOk, WellFormed;
    assert BlobInv(s, id);
  }

  lemma FirstPage(w: Write, ps: nat)
    requires ps > 0
    ensures (w.first * ps) / ps == w.first
  {
    Arithmetic.DivExact(w.first, ps);
  }

  lemma OwnEntry(t: State, id: nat, v: nat, n: nat)
    requires Readable(t, id, v) && t.bases[id] + v == n + 1 && n < |t.logs[id]|
    ensures VersionLog(t, id, v) != [] && Own(VersionLog(t, id, v)) == t.logs[id][n]
  {
  }

  lemma OwnPageStored(t: State, id: nat, v: nat, p: nat)
    requires Inv(t) && Readable(t, id, v) && Own(VersionLog(t, id, v)).first <= p <= Own(VersionLog(t, id, v)).last
    ensures var w := Own(VersionLog(t, id, v));
            && (w.id, w.version) in t.data && p - w.first < |t.data[(w.id, w.version)]|
            && PageKey(Ps(t.objs[id]), w, p) in t.pages
            && t.pages[PageKey(Ps(t.objs[id]), w, p)] == t.data[(w.id, w.version)][p - w.first]
  {
    hide Inv, PagesOk, HasData, Shift;
    VersionHasData(t, id, v);
    var h := VersionLog(t, id, v);
    TouchOwn(Own(h), p);
    StoredPage(Ps(t.objs[id]), h, t.data, t.pages, |h| - 1, p);
  }

  lemma TouchOwn(w: Write, p: nat)
    requires w.first <= p <= w.last
    ensures Touch(w, 0, p)
  {
  }
}
