/** The whole store as a step system: any number of blobs, clones and writers, over one
    DHT.  Tickets, single fetches and single puts of different writers interleave freely.

    A write is: store the pages, take a ticket (both in Grant), fetch brothers from the
    stable tree one node at a time, put leaves and inner nodes one at a time in any order,
    and ask for publication once all are stored (client/object_handler.cpp:324-431). */
module Protocol {
  import opened Arithmetic
  import opened Metadata
  import opened History
  import opened Siblings
  import opened Descent
  import opened Weave
  import opened Shape
  import opened VersionManager
  import opened VersionService

  /** One page. */
  type Content = seq<Byte>

  /** A walk down the stable tree: finished, or about to fetch a node. */
  datatype Cursor = Idle | Fetch(node: Query)

  datatype Side = Side(siblings: seq<Query>, cursor: Cursor)

  /** A writer after its ticket.  `log` is the blob's log up to its own write, of which
      the first `published` writes were published at the ticket. */
  datatype Writer = Writer(log: Log, published: nat, stable: Query, left: Side, right: Side, stored: set<Query>)

  datatype State = State(
    objs: map<nat, ObjInfo>,            // the version manager
    count: nat,
    dht: Dht,                           // the tree nodes
    pages: map<Query, Content>,         // the page store
    writers: map<(nat, nat), Writer>,   // by blob and version
    logs: map<nat, Log>,                // granted writes of each blob; a clone inherits its source's
    bases: map<nat, nat>,               // how many writes a blob inherited
    data: map<(nat, nat), seq<Content>> // what each version wrote
  )

  datatype Step =
    | Create(ps: nat, rc: nat)
    | Clone(source: nat, version: nat)
    | Grant(query: Query, append: bool, contents: seq<Content>)   // query.version is the page tag
    | FetchNode(id: nat, version: nat, isLeft: bool)
    | PutNode(id: nat, version: nat, k: nat, x: nat)
    | Publish(id: nat, version: nat)

  const INIT := State(map[], 0, map[], map[], map[], map[], map[], map[])

  function Ps(o: ObjInfo): nat
    requires o.roots != []
  {
    o.roots[0].pageSize
  }

  ghost predicate Tables(s: State) {
    && s.logs.Keys == s.objs.Keys && s.bases.Keys == s.objs.Keys
    && (forall id :: id in s.objs ==> s.objs[id].roots != [] && Published(s.objs[id], s.bases[id]) <= |s.logs[id]|)
    && (forall w :: w in s.writers ==> w.0 in s.objs && s.writers[w].log != [] && s.writers[w].published < |s.writers[w].log|)
  }

  /** The level of the tree root in force. */
  function RootLevel(h: Log): nat {
    if h == [] then 0 else h[|h| - 1].level
  }

  // ---- Guards ----

  predicate Sized(contents: seq<Content>, ps: nat) {
    forall i :: 0 <= i < |contents| ==> |contents[i]| == ps
  }

  /** A page-aligned, non-empty write of whole pages with a fresh page tag, on a blob with a
      root, at any offset. */
  ghost predicate CanTicket(s: State, q: Query, append: bool, contents: seq<Content>)
    requires Tables(s)
  {
    && q.id in s.objs
    && var o := s.objs[q.id];
    && Ps(o) > 0 && o.maxSize > 0
    && q.offset % Ps(o) == 0 && q.size == |contents| * Ps(o) && |contents| > 0 && Sized(contents, Ps(o))
    && forall p :: p in s.pages ==> (p.id, p.version) != (q.id, q.version)
  }

  ghost predicate AllStored(ps: nat, wr: Writer)
    requires wr.log != []
  {
    forall k: nat, x: nat :: k <= Own(wr.log).level && Touch(Own(wr.log), k, x) ==>
      NodeKey(ps, Own(wr.log), k, x) in wr.stored
  }

  ghost predicate Enabled(s: State, step: Step)
    requires Tables(s)
  {
    match step
    case Create(ps, rc) => ps > 0
    case Clone(source, version) => source in s.objs
    case Grant(q, append, contents) => CanTicket(s, q, append, contents)
    case FetchNode(id, version, isLeft) =>
      && (id, version) in s.writers
      && SideOf(s.writers[(id, version)], isLeft).cursor.Fetch?
    case PutNode(id, version, k, x) =>
      && (id, version) in s.writers
      && var wr := s.writers[(id, version)];
      && k <= Own(wr.log).level && Touch(Own(wr.log), k, x)
      && NodeKey(Ps(s.objs[id]), Own(wr.log), k, x) !in wr.stored
      && (k > 0 ==> wr.left.cursor.Idle? && wr.right.cursor.Idle?)
    case Publish(id, version) =>
      && (id, version) in s.writers
      && AllStored(Ps(s.objs[id]), s.writers[(id, version)])
  }

  // ---- Effects ----

  function SideOf(wr: Writer, isLeft: bool): Side {
    if isLeft then wr.left else wr.right
  }

  /** Where the two walks start. */
  function StartLeft(pendingSiblings: seq<Query>, stable: Query, front: Query): Side {
    if Intersects(stable, front) then Side(pendingSiblings, Fetch(stable))
    else Side(AddIfAbsent(pendingSiblings, stable), Idle)
  }

  function StartRight(pendingSiblings: seq<Query>, stable: Query, back: Query): Side {
    Side(pendingSiblings, if Intersects(stable, back) then Fetch(stable) else Idle)
  }

  /** A new writer's view of its ticket. */
  function NewWriter(ps: nat, h: Log, n: nat, stable: Query): Writer
    requires n < |h|
  {
    var w, pending := Own(h), Pending(h, n);
    Writer(h, n, stable,
           StartLeft(PendingSiblings(ps, pending, w.first, 0, w.level), stable, LeafOf(ps, w, w.first)),
           StartRight(PendingSiblings(ps, pending, w.last, 0, w.level), stable, LeafOf(ps, w, w.last)),
           {})
  }

  /** One fetch of one walk. */
  function FetchOnce(dht: Dht, isLeft: bool, target: Query, side: Side): Side
    requires side.cursor.Fetch?
  {
    var q := side.cursor.node;
    if !GoesOn(dht, q) then Side(side.siblings, Idle)
    else
      var (more, next) := Visit(dht[q], isLeft, target, side.siblings, q);
      Side(more, Fetch(next))
  }

  function Fetched(ps: nat, dht: Dht, wr: Writer, isLeft: bool): Writer
    requires wr.log != [] && SideOf(wr, isLeft).cursor.Fetch?
  {
    var w := Own(wr.log);
    var side := FetchOnce(dht, isLeft, LeafOf(ps, w, Edge(w, isLeft)), SideOf(wr, isLeft));
    if isLeft then wr.(left := side) else wr.(right := side)
  }

  function GrantedWrite(o: ObjInfo, h: Log, q: Query, append: bool): Write
    requires o.roots != [] && Ps(o) > 0 && q.size > 0
  {
    var ps, offset := Ps(o), TicketOffset(o, q, append);
    Write(q.id, o.currentTicket, offset / ps,
          (offset + q.size - 1) / ps,
          GrowLevel(ps, RootLevel(h), offset + q.size), q.version)
  }

  function StorePages(pages: map<Query, Content>, id: nat, tag: nat, ps: nat, contents: seq<Content>): map<Query, Content> {
    pages + map i: nat | i < |contents| :: Query(id, tag, i, ps) := contents[i]
  }

  /** The index of the root that a clone request selects. */
  function SelectIndex(o: ObjInfo, version: nat): nat
    requires o.roots != []
  {
    if version == 0 || version >= |o.roots| then |o.roots| - 1 else version
  }

  function Published(o: ObjInfo, base: nat): nat
    requires o.roots != []
  {
    base + |o.roots| - 1
  }

  ghost function Next(s: State, step: Step): State
    requires Tables(s) && Enabled(s, step)
  {
    match step
    case Create(ps, rc) =>
      var id := s.count + 1;
      s.(count := id, objs := s.objs[id := NewObj(id, ps, rc)], logs := s.logs[id := []], bases := s.bases[id := 0])
    case Clone(source, version) =>
      var id, o := s.count + 1, s.objs[source];
      var h := s.logs[source][..s.bases[source] + SelectIndex(o, version)];
      s.(count := id, objs := s.objs[id := CloneObj(SelectRoot(o, version))],
         logs := s.logs[id := h], bases := s.bases[id := |h|])
    case Grant(q, append, contents) =>
      var o, base := s.objs[q.id], s.bases[q.id];
      MulStep(0, |contents|, Ps(o));
      var w := GrantedWrite(o, s.logs[q.id], q, append);
      var h := s.logs[q.id] + [w];
      s.(objs := s.objs[q.id := GrantTicket(o, q, append)],
         logs := s.logs[q.id := h],
         writers := s.writers[(q.id, o.currentTicket) := NewWriter(Ps(o), h, Published(o, base), LastRoot(o).node)],
         data := s.data[(q.id, o.currentTicket) := contents],
         pages := StorePages(s.pages, q.id, q.version, Ps(o), contents))
    case FetchNode(id, version, isLeft) =>
      s.(writers := s.writers[(id, version) := Fetched(Ps(s.objs[id]), s.dht, s.writers[(id, version)], isLeft)])
    case PutNode(id, version, k, x) =>
      var wr, ps := s.writers[(id, version)], Ps(s.objs[id]);
      var key := NodeKey(ps, Own(wr.log), k, x);
      var node := PlanNode(ps, Own(wr.log), wr.left.siblings, wr.right.siblings, k, x);
      s.(dht := s.dht[key := node], writers := s.writers[(id, version) := wr.(stored := wr.stored + {key})])
    case Publish(id, version) =>
      s.(objs := s.objs[id := PublishVersion(s.objs[id], version)])
  }
}
