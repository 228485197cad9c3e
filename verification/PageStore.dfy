/** The provider's page store (provider/bdb_bw_map.cpp) as a step system: a cache in front
    of a queue of evicted pages, one writer thread that empties the queue, and a database.
    Client calls are cut into steps where the code holds no lock, so any number of clients
    and the writer thread interleave. */
module PageStore {
  import opened Basics
  import opened Metadata
  import opened LruCache

  datatype Key = Key(bytes: seq<Byte>)
  type Value = seq<Byte>
  type Item = (Key, Value)

  datatype Store = Store(
    cache: Cache<Key, Value>,
    evicting: seq<Item>,     // given to a client's evict callback, not yet queued
    writeQueue: seq<Item>,
    hand: Option<Item>,      // taken from the queue by the writer thread
    db: map<Key, Value>,
    fetched: seq<Item>,      // read from the database by a client, not yet cached
    spaceLeft: nat,
    history: seq<Item>,      // the accepted writes, in order
    lost: set<Key>           // pages whose database put failed
  )

  datatype Step =
    | Write(k: Key, v: Value)   // bdb_bw_map::write up to the evict callback
    | ReadCache(k: Key)         // the cache lookup of bdb_bw_map::read
    | DbGet(k: Key)             // its database lookup
    | Fill(i: nat)              // its clean write to the cache
    | Push(i: nat)              // bdb_bw_map::evict
    | Take                      // write_exec, first block
    | Put                       // write_exec, second block
    | PutFails

  // ---- Accepted writes ----

  function Accepted(history: seq<Item>): map<Key, Value> {
    if history == [] then map[]
    else Accepted(history[..|history| - 1])[history[|history| - 1].0 := history[|history| - 1].1]
  }

  function Bytes(history: seq<Item>): nat {
    if history == [] then 0 else Bytes(history[..|history| - 1]) + |history[|history| - 1].1|
  }

  lemma Push1(history: seq<Item>, k: Key, v: Value)
    ensures Accepted(history + [(k, v)]) == Accepted(history)[k := v]
    ensures Bytes(history + [(k, v)]) == Bytes(history) + |v|
  {
    assert (history + [(k, v)])[..|history|] == history;
  }

  // ---- Steps ----

  /** Keys are written once: page keys are fresh and never reused. */
  predicate Enabled(s: Store, step: Step) {
    match step
    case Write(k, v) => k !in Accepted(s.history)
    case ReadCache(k) => true
    case DbGet(k) => true
    case Fill(i) => i < |s.fetched|
    case Push(i) => i < |s.evicting|
    case Take => s.hand.None? && s.writeQueue != []
    case Put => s.hand.Some?
    case PutFails => s.hand.Some?
  }

  function ToSeq(o: Option<Item>): seq<Item> {
    if o.Some? then [o.value] else []
  }

  function Remove(q: seq<Item>, i: nat): seq<Item>
    requires i < |q|
  {
    q[..i] + q[i + 1..]
  }

  /** A cache write, with what it pushes out. */
  function CacheWrite(s: Store, k: Key, v: Value, dirty: bool): Store {
    s.(cache := WriteTo(s.cache, k, v, dirty), evicting := s.evicting + ToSeq(Handed(s.cache, k)))
  }

  predicate AcceptsWrite(s: Store, k: Key, v: Value) {
    |v| <= s.spaceLeft && Accepts(s.cache, k)
  }

  function Next(s: Store, step: Step): Store
    requires Enabled(s, step)
  {
    match step
    case Write(k, v) =>
      if |v| > s.spaceLeft then s
      else if !Accepts(s.cache, k) then CacheWrite(s, k, v, true)
      else CacheWrite(s, k, v, true).(spaceLeft := s.spaceLeft - |v|, history := s.history + [(k, v)])
    case ReadCache(k) => s.(cache := ReadFrom(s.cache, k))
    case DbGet(k) => if k in s.db then s.(fetched := s.fetched + [(k, s.db[k])]) else s
    case Fill(i) => CacheWrite(s, s.fetched[i].0, s.fetched[i].1, false).(fetched := Remove(s.fetched, i))
    case Push(i) => s.(evicting := Remove(s.evicting, i), writeQueue := s.writeQueue + [s.evicting[i]])
    case Take => s.(hand := Some(s.writeQueue[0]), writeQueue := s.writeQueue[1..])
    case Put => s.(hand := None, db := s.db[s.hand.value.0 := s.hand.value.1])
    case PutFails => s.(hand := None, lost := s.lost + {s.hand.value.0})
  }

  function Init(cacheSize: nat, space: nat): Store {
    Store(Empty(cacheSize), [], [], None, map[], [], space, [], {})
  }

  // ---- Where a page is ----

  function Held(q: seq<Item>, k: Key): nat {
    if q == [] then 0 else Held(q[..|q| - 1], k) + (if q[|q| - 1].0 == k then 1 else 0)
  }

  predicate IsDirty(c: Cache<Key, Value>, k: Key) {
    k in c.entries && c.entries[k].dirty
  }

  /** In transit: pushed out of the cache and not yet in the database. */
  function InTransit(s: Store, k: Key): nat {
    Held(s.evicting, k) + Held(s.writeQueue, k) + Held(ToSeq(s.hand), k)
  }

  /** The number of places that are responsible for page k. */
  function Places(s: Store, k: Key): nat {
    If(IsDirty(s.cache, k)) + InTransit(s, k) + If(k in s.db) + If(k in s.lost)
  }

  predicate RightItems(q: seq<Item>, accepted: map<Key, Value>) {
    forall i :: 0 <= i < |q| ==> q[i].0 in accepted && q[i].1 == accepted[q[i].0]
  }

  predicate RightEntry(e: Entry<Value>, db: map<Key, Value>, accepted: map<Key, Value>, k: Key) {
    k in accepted && e.value == accepted[k] && (e.dirty || k in db)
  }

  ghost predicate RightCache(c: Cache<Key, Value>, db: map<Key, Value>, accepted: map<Key, Value>) {
    forall k :: k in c.entries ==> RightEntry(c.entries[k], db, accepted, k)
  }

  ghost predicate RightDb(db: map<Key, Value>, accepted: map<Key, Value>) {
    forall k :: k in db ==> k in accepted && db[k] == accepted[k]
  }

  ghost predicate Right(s: Store) {
    var accepted := Accepted(s.history);
    && RightItems(s.evicting, accepted) && RightItems(s.writeQueue, accepted) && RightItems(ToSeq(s.hand), accepted)
    && RightItems(s.fetched, accepted) && RightDb(s.db, accepted) && RightCache(s.cache, s.db, accepted)
    && (forall i :: 0 <= i < |s.fetched| ==> s.fetched[i].0 in s.db)
  }

  /** Every accepted page has exactly one responsible place, no other page has any, every
      copy anywhere is right, and space is accounted for. */
  ghost predicate Inv(s: Store, space: nat) {
    && Valid(s.cache) && Right(s)
    && (forall k :: Places(s, k) == If(k in Accepted(s.history)))
    && s.spaceLeft + Bytes(s.history) == space
    && (s.cache.capacity == 0 ==> s.history == [])
  }

  // ---- Counting ----

  lemma HeldPush(q: seq<Item>, e: Item, k: Key)
    ensures Held(q + [e], k) == Held(q, k) + If(e.0 == k)
  {
    assert (q + [e])[..|q|] == q;
  }

  lemma {:induction false} HeldConcat(a: seq<Item>, b: seq<Item>, k: Key)
    ensures Held(a + b, k) == Held(a, k) + Held(b, k)
  {
    if b == [] {
      assert a + b == a;
    } else {
      assert (a + b)[..|a + b| - 1] == a + b[..|b| - 1];
      HeldConcat(a, b[..|b| - 1], k);
    }
  }

  lemma HeldRemove(q: seq<Item>, i: nat, k: Key)
    requires i < |q|
    ensures Held(Remove(q, i), k) + If(q[i].0 == k) == Held(q, k)
  {
    HeldConcat(q[..i], q[i + 1..], k);
    HeldPush(q[..i], q[i], k);
    assert q == (q[..i] + [q[i]]) + q[i + 1..];
    HeldConcat(q[..i] + [q[i]], q[i + 1..], k);
  }

  lemma HeldOne(e: Item, k: Key)
    ensures Held([e], k) == If(e.0 == k)
  {
    HeldPush([], e, k);
    assert [] + [e] == [e];
  }

  // ---- Cache writes ----

  /** What a cache write does to responsibility: k becomes dirty or clean, and the page
      pushed out, if dirty, is handed over. */
  lemma CacheWriteMoves(c: Cache<Key, Value>, k: Key, v: Value, dirty: bool, x: Key)
    requires Valid(c)
    ensures If(IsDirty(WriteTo(c, k, v, dirty), x)) + Held(ToSeq(Handed(c, k)), x)
         == if x == k then If(dirty && Accepts(c, k)) else If(IsDirty(c, x))
  {
    hide Hit, Without, Held;
    if MustEvict(c, k) {
      EvictsOther(c, k);
      if c.queue == [] {
        assert c.entries.Keys == {};
      } else {
        HeldOne((c.queue[0], c.entries[c.queue[0]].value), x);
      }
    }
    HeldNone(x);
  }

  lemma HeldNone(x: Key)
    ensures Held([], x) == 0
  {
  }

  /** What a cache write hands over is right, and so is the cache after it. */
  lemma CacheWriteRight(c: Cache<Key, Value>, db: map<Key, Value>, accepted: map<Key, Value>, k: Key, v: Value, dirty: bool)
    requires Valid(c) && k in accepted && v == accepted[k] && (dirty || k in db)
    requires forall x :: x in c.entries && x != k ==> RightEntry(c.entries[x], db, accepted, x)
    ensures RightCache(WriteTo(c, k, v, dirty), db, accepted) && RightItems(ToSeq(Handed(c, k)), accepted)
  {
    hide Hit, Without, Valid;
    if MustEvict(c, k) {
      EvictsOther(c, k);
    }
  }

  // ---- Every step keeps the invariant ----

  lemma PlacesAfterCacheWrite(s: Store, k: Key, v: Value, dirty: bool, x: Key)
    requires Valid(s.cache)
    ensures Places(CacheWrite(s, k, v, dirty), x) ==
            Places(s, x) + (if x == k then If(dirty && Accepts(s.cache, k)) - If(IsDirty(s.cache, k)) else 0)
  {
    hide Held, WriteTo, Handed, IsDirty;
    CacheWriteMoves(s.cache, k, v, dirty, x);
    HeldConcat(s.evicting, ToSeq(Handed(s.cache, k)), x);
  }

  /** A write is the only step that adds a responsible place, for its own page; all others
      only move pages from place to place. */
  lemma StepPlaces(s: Store, step: Step, space: nat, x: Key)
    requires Inv(s, space) && Enabled(s, step)
    ensures Places(Next(s, step), x) == If(x in Accepted(Next(s, step).history))
  {
    hide Held, Accepted, WriteTo, Handed, Right, Bytes, Remove;
    assert Places(s, x) == If(x in Accepted(s.history));
    match step
    case Write(k, v) => WritePlaces(s, k, v, space, x);
    case ReadCache(k) =>
    case DbGet(k) =>
    case Fill(i) => FillPlaces(s, i, space, x);
    case Push(i) =>
      HeldRemove(s.evicting, i, x);
      HeldPush(s.writeQueue, s.evicting[i], x);
    case Take =>
      assert s.writeQueue == [s.writeQueue[0]] + s.writeQueue[1..];
      HeldConcat([s.writeQueue[0]], s.writeQueue[1..], x);
      HeldNone(x);
    case Put =>
      HandCounts(s, space);
      HeldOne(s.hand.value, x);
      HeldNone(x);
    case PutFails =>
      HandCounts(s, space);
      HeldOne(s.hand.value, x);
      HeldNone(x);
  }

  lemma WritePlaces(s: Store, k: Key, v: Value, space: nat, x: Key)
    requires Inv(s, space) && Enabled(s, Step.Write(k, v))
    ensures var s' := Next(s, Step.Write(k, v)); Places(s', x) == If(x in Accepted(s'.history))
  {
    hide Held, Accepted, WriteTo, Handed, Right, Bytes, Valid, Accepts;
    assert Places(s, x) == If(x in Accepted(s.history));
    assert Places(s, k) == 0;
    PlacesAfterCacheWrite(s, k, v, true, x);
    Push1(s.history, k, v);
  }

  lemma FillPlaces(s: Store, i: nat, space: nat, x: Key)
    requires Inv(s, space) && Enabled(s, Fill(i))
    ensures Places(Next(s, Fill(i)), x) == If(x in Accepted(s.history))
  {
    hide Held, Accepted, WriteTo, Handed, Right, Bytes, Valid, Remove;
    assert Places(s, x) == If(x in Accepted(s.history));
    FetchedInDb(s, i);
    assert Places(s, s.fetched[i].0) <= 1;
    PlacesAfterCacheWrite(s, s.fetched[i].0, s.fetched[i].1, false, x);
  }

  lemma FetchedInDb(s: Store, i: nat)
    requires Right(s) && i < |s.fetched|
    ensures s.fetched[i].0 in s.db
  {
  }

  /** A page in the writer's hand is nowhere else, so its put overwrites nothing. */
  lemma HandCounts(s: Store, space: nat)
    requires Inv(s, space) && s.hand.Some?
    ensures var k := s.hand.value.0; k !in s.db && k !in s.lost && !IsDirty(s.cache, k)
  {
    hide Held, Accepted, Right, Bytes;
    HeldOne(s.hand.value, s.hand.value.0);
    assert Places(s, s.hand.value.0) <= 1;
  }

  lemma RightGrows(q: seq<Item>, accepted: map<Key, Value>, k: Key, v: Value)
    requires RightItems(q, accepted) && k !in accepted
    ensures RightItems(q, accepted[k := v])
  {
  }

  lemma RightConcat(a: seq<Item>, b: seq<Item>, accepted: map<Key, Value>)
    requires RightItems(a, accepted) && RightItems(b, accepted)
    ensures RightItems(a + b, accepted)
  {
  }

  lemma RightRemove(q: seq<Item>, i: nat, accepted: map<Key, Value>)
    requires RightItems(q, accepted) && i < |q|
    ensures RightItems(Remove(q, i), accepted)
  {
  }

  lemma RightDbGrows(db: map<Key, Value>, accepted: map<Key, Value>, k: Key, v: Value)
    requires RightDb(db, accepted) && k !in accepted
    ensures RightDb(db, accepted[k := v])
  {
  }

  lemma AcceptedCacheRight(c: Cache<Key, Value>, db: map<Key, Value>, accepted: map<Key, Value>, k: Key, v: Value)
    requires Valid(c) && RightCache(c, db, accepted) && k !in accepted
    ensures RightCache(WriteTo(c, k, v, true), db, accepted[k := v]) && RightItems(ToSeq(Handed(c, k)), accepted[k := v])
  {
    hide WriteTo, Handed, Valid, RightItems, ToSeq;
    CacheWriteRight(c, db, accepted[k := v], k, v, true);
  }

  lemma AcceptedRight(s: Store, k: Key, v: Value)
    requires Valid(s.cache) && Right(s) && k !in Accepted(s.history) && AcceptsWrite(s, k, v)
    ensures Right(Next(s, Step.Write(k, v)))
  {
    hide Accepted, RightItems, WriteTo, Handed, Valid, RightCache, RightDb, ToSeq, Accepts;
    var accepted := Accepted(s.history);
    Push1(s.history, k, v);
    RightGrows(s.evicting, accepted, k, v);
    RightGrows(s.writeQueue, accepted, k, v);
    RightGrows(ToSeq(s.hand), accepted, k, v);
    RightGrows(s.fetched, accepted, k, v);
    RightDbGrows(s.db, accepted, k, v);
    AcceptedCacheRight(s.cache, s.db, accepted, k, v);
    RightConcat(s.evicting, ToSeq(Handed(s.cache, k)), accepted[k := v]);
  }

  lemma WriteRight(s: Store, k: Key, v: Value)
    requires Valid(s.cache) && Right(s) && k !in Accepted(s.history)
    ensures Right(Next(s, Step.Write(k, v)))
  {
    hide Accepted, RightItems, WriteTo, Handed, Valid, Accepts;
    if AcceptsWrite(s, k, v) {
      AcceptedRight(s, k, v);
    } else if |v| <= s.spaceLeft {
      RejectedWrite(s.cache, k, v);
      assert s.evicting + [] == s.evicting;
    }
  }

  lemma PutRight(s: Store)
    requires Right(s) && s.hand.Some?
    ensures Right(Next(s, Put))
  {
    hide Accepted;
    var e := s.hand.value;
    assert ToSeq(s.hand)[0] == e;
    forall x | x in s.cache.entries
      ensures RightEntry(s.cache.entries[x], s.db[e.0 := e.1], Accepted(s.history), x)
    {
      assert RightEntry(s.cache.entries[x], s.db, Accepted(s.history), x);
    }
  }

  lemma RejectedWrite(c: Cache<Key, Value>, k: Key, v: Value)
    requires Valid(c) && !Accepts(c, k)
    ensures WriteTo(c, k, v, true).entries == map[] && Handed(c, k) == None
  {
    EvictsOther(c, k);
    assert c.entries.Keys == {};
  }

  lemma FillRight(s: Store, i: nat)
    requires Valid(s.cache) && Right(s) && i < |s.fetched|
    ensures Right(Next(s, Fill(i)))
  {
    hide Accepted, WriteTo, Handed, Valid;
    var accepted, k, v := Accepted(s.history), s.fetched[i].0, s.fetched[i].1;
    CacheWriteRight(s.cache, s.db, accepted, k, v, false);
    RightConcat(s.evicting, ToSeq(Handed(s.cache, k)), accepted);
    RightRemove(s.fetched, i, accepted);
  }

  lemma PushRight(s: Store, i: nat)
    requires Right(s) && i < |s.evicting|
    ensures Right(Next(s, Push(i)))
  {
    hide Accepted;
    RightRemove(s.evicting, i, Accepted(s.history));
    RightConcat(s.writeQueue, [s.evicting[i]], Accepted(s.history));
  }

  lemma StepRight(s: Store, step: Step)
    requires Valid(s.cache) && Right(s) && Enabled(s, step)
    ensures Right(Next(s, step))
  {
    hide Accepted, WriteTo, Handed, Valid, Remove;
    match step
    case Write(k, v) => WriteRight(s, k, v);
    case Fill(i) => FillRight(s, i);
    case Push(i) => PushRight(s, i);
    case Put => PutRight(s);
    case _ =>
  }

  lemma StepRest(s: Store, step: Step)
    requires Valid(s.cache) && Enabled(s, step)
    ensures Valid(Next(s, step).cache) && Next(s, step).cache.capacity == s.cache.capacity
    ensures s.cache.capacity == 0 ==> Next(s, step).history == s.history
    ensures Next(s, step).spaceLeft + Bytes(Next(s, step).history) == s.spaceLeft + Bytes(s.history)
  {
    hide Valid, Hit, Without;
    match step
    case Write(k, v) =>
      WriteKeepsValid(s.cache, k, v, true);
      Push1(s.history, k, v);
    case ReadCache(k) => ReadKeepsValid(s.cache, k);
    case Fill(i) => WriteKeepsValid(s.cache, s.fetched[i].0, s.fetched[i].1, false);
    case _ =>
  }

  lemma StepInv(s: Store, step: Step, space: nat)
    requires Inv(s, space) && Enabled(s, step)
    ensures Inv(Next(s, step), space)
  {
    hide Places, Right, Valid, Accepted, Bytes;
    StepRight(s, step);
    StepRest(s, step);
    forall x ensures Places(Next(s, step), x) == If(x in Accepted(Next(s, step).history)) {
      StepPlaces(s, step, space, x);
    }
  }

  // ---- Whole runs ----

  ghost predicate Run(states: seq<Store>, steps: seq<Step>, cacheSize: nat, space: nat) {
    && |states| == |steps| + 1 && states[0] == Init(cacheSize, space)
    && forall i :: 0 <= i < |steps| ==> Enabled(states[i], steps[i]) && states[i + 1] == Next(states[i], steps[i])
  }

  lemma InitInv(cacheSize: nat, space: nat)
    ensures Inv(Init(cacheSize, space), space)
  {
  }

  /** In every interleaving, with any cache size, every accepted page has exactly one of:
      a dirty cache entry, a place in transit, a database record, or a failed put.  Copies
      are always right, and free space plus accepted bytes is constant. */
  lemma {:induction false} RunInv(states: seq<Store>, steps: seq<Step>, cacheSize: nat, space: nat, i: nat)
    requires Run(states, steps, cacheSize, space) && i < |states|
    ensures Inv(states[i], space)
  {
    hide Inv, Next, Enabled;
    if i == 0 {
      InitInv(cacheSize, space);
    } else {
      RunInv(states, steps, cacheSize, space, i - 1);
      StepInv(states[i - 1], steps[i - 1], space);
    }
  }

  /** Accepted and no longer dirty in the cache. */
  predicate Flushed(s: Store, k: Key) {
    k in Accepted(s.history) && !IsDirty(s.cache, k)
  }

  /** A page that has left the cache never becomes dirty again. */
  lemma StepFlushed(s: Store, step: Step, space: nat, k: Key)
    requires Inv(s, space) && Enabled(s, step) && Flushed(s, k)
    ensures Flushed(Next(s, step), k)
  {
    hide Accepted, WriteTo, Handed, Right, Places, Bytes, Held, IsDirty;
    match step
    case Write(x, v) =>
      CacheWriteMoves(s.cache, x, v, true, k);
      Push1(s.history, x, v);
    case ReadCache(x) => assert IsDirty(ReadFrom(s.cache, x), k) == IsDirty(s.cache, k) by { ReadDirty(s.cache, x, k); }
    case Fill(i) => CacheWriteMoves(s.cache, s.fetched[i].0, s.fetched[i].1, false, k);
    case _ =>
  }

  lemma ReadDirty(c: Cache<Key, Value>, x: Key, k: Key)
    ensures IsDirty(ReadFrom(c, x), k) == IsDirty(c, k)
  {
  }

  lemma {:induction false} RunFlushed(states: seq<Store>, steps: seq<Step>, cacheSize: nat, space: nat, i: nat, j: nat, k: Key)
    requires Run(states, steps, cacheSize, space) && i <= j < |states| && Flushed(states[i], k)
    ensures Flushed(states[j], k)
    decreases j
  {
    hide Inv, Next, Enabled, Flushed;
    if i < j {
      RunFlushed(states, steps, cacheSize, space, i, j - 1, k);
      RunInv(states, steps, cacheSize, space, j - 1);
      StepFlushed(states[j - 1], steps[j - 1], space, k);
    }
  }

  /** A cache hit returns the accepted value, and so does a database hit. */
  lemma HitsAreRight(states: seq<Store>, steps: seq<Step>, cacheSize: nat, space: nat, i: nat, k: Key)
    requires Run(states, steps, cacheSize, space) && i < |states|
    ensures var s := states[i];
            && (k in s.cache.entries ==> k in Accepted(s.history) && s.cache.entries[k].value == Accepted(s.history)[k])
            && (k in s.db ==> k in Accepted(s.history) && s.db[k] == Accepted(s.history)[k])
  {
    hide Accepted, Run;
    RunInv(states, steps, cacheSize, space, i);
    assert Right(states[i]);
  }

  /** A read looks in the cache at one moment and in the database at a later one.  If the
      page had been accepted before and both looks miss, then at the second look the page is
      in transit, or its put has failed. */
  lemma MissMeansInTransit(states: seq<Store>, steps: seq<Step>, cacheSize: nat, space: nat, i: nat, j: nat, k: Key)
    requires Run(states, steps, cacheSize, space) && i <= j < |states|
    requires k in Accepted(states[i].history) && k !in states[i].cache.entries && k !in states[j].db
    ensures InTransit(states[j], k) + If(k in states[j].lost) == 1
  {
    hide Run, Right, Bytes, InTransit, Accepted;
    RunFlushed(states, steps, cacheSize, space, i, j, k);
    RunInv(states, steps, cacheSize, space, j);
    assert Places(states[j], k) == 1;
  }

  // ---- What was written stays ----

  /** A write is accepted if and only if there is a cache and the page fits into the space
      that the accepted pages leave; otherwise it changes no record. */
  lemma AcceptedIffFits(s: Store, k: Key, v: Value, space: nat)
    requires Inv(s, space) && Enabled(s, Step.Write(k, v))
    ensures Next(s, Step.Write(k, v)).history ==
            if s.cache.capacity > 0 && Bytes(s.history) + |v| <= space then s.history + [(k, v)] else s.history
  {
    hide Right, Places, Accepted, WriteTo, Handed;
    WriteKeepsValid(s.cache, k, v, true);
  }

  /** No step changes an accepted page. */
  lemma AcceptedStays(s: Store, step: Step, k: Key)
    requires Enabled(s, step) && k in Accepted(s.history)
    ensures k in Accepted(Next(s, step).history) && Accepted(Next(s, step).history)[k] == Accepted(s.history)[k]
  {
    hide Accepted, WriteTo, Handed;
    if step.Write? { Push1(s.history, step.k, step.v); }
  }

  lemma {:induction false} RunAccepted(states: seq<Store>, steps: seq<Step>, cacheSize: nat, space: nat, i: nat, j: nat, k: Key)
    requires Run(states, steps, cacheSize, space) && i <= j < |states| && k in Accepted(states[i].history)
    ensures k in Accepted(states[j].history) && Accepted(states[j].history)[k] == Accepted(states[i].history)[k]
    decreases j
  {
    hide Accepted, Next, Enabled;
    if i < j {
      RunAccepted(states, steps, cacheSize, space, i, j - 1, k);
      AcceptedStays(states[j - 1], steps[j - 1], k);
    }
  }

  lemma {:induction false} CapacityStays(states: seq<Store>, steps: seq<Step>, cacheSize: nat, space: nat, i: nat)
    requires Run(states, steps, cacheSize, space) && i < |states|
    ensures states[i].cache.capacity == cacheSize
  {
    hide Inv, Next, Enabled;
    if i > 0 {
      CapacityStays(states, steps, cacheSize, space, i - 1);
      RunInv(states, steps, cacheSize, space, i - 1);
      CapacityKept(states[i - 1], steps[i - 1], space);
    }
  }

  lemma CapacityKept(s: Store, step: Step, space: nat)
    requires Inv(s, space) && Enabled(s, step)
    ensures Next(s, step).cache.capacity == s.cache.capacity
  {
    hide Next, Enabled, Right, Places;
    StepRest(s, step);
  }

  /** In every run, with at least one cache slot, a page written while it fits is accepted,
      and from then on it is in exactly one responsible place, or its put failed, and every
      copy found in the cache or the database holds what was written. */
  lemma WrittenIsFound(states: seq<Store>, steps: seq<Step>, cacheSize: nat, space: nat, i: nat, j: nat, k: Key, v: Value)
    requires Run(states, steps, cacheSize, space) && i < |steps| && steps[i] == Step.Write(k, v) && i < j < |states|
    requires cacheSize > 0 && Bytes(states[i].history) + |v| <= space
    ensures Places(states[j], k) == 1
    ensures k in states[j].cache.entries ==> states[j].cache.entries[k].value == v
    ensures k in states[j].db ==> states[j].db[k] == v
  {
    hide Accepted, Next, Enabled, Bytes, Right, Places;
    RunInv(states, steps, cacheSize, space, i);
    CapacityStays(states, steps, cacheSize, space, i);
    AcceptedIffFits(states[i], k, v, space);
    Push1(states[i].history, k, v);
    RunAccepted(states, steps, cacheSize, space, i + 1, j, k);
    HitsAreRight(states, steps, cacheSize, space, j, k);
    RunInv(states, steps, cacheSize, space, j);
  }

  // ---- The write queue is first in, first out ----

  /** The items pushed to the queue by the first n steps, in order. */
  function Pushed(states: seq<Store>, steps: seq<Step>, n: nat): seq<Item>
    requires n <= |steps| && n <= |states|
  {
    if n == 0 then []
    else
      Pushed(states, steps, n - 1) +
      (if steps[n - 1].Push? && steps[n - 1].i < |states[n - 1].evicting| then [states[n - 1].evicting[steps[n - 1].i]] else [])
  }

  /** The items that came into the writer's hand during the first n steps, in order. */
  function Taken(states: seq<Store>, steps: seq<Step>, n: nat): seq<Item>
    requires n <= |steps| && n < |states|
  {
    if n == 0 then []
    else Taken(states, steps, n - 1) + (if steps[n - 1].Take? then ToSeq(states[n].hand) else [])
  }

  /** In every run the writer thread takes the items in the order in which they were queued. */
  lemma {:induction false} QueueIsFifo(states: seq<Store>, steps: seq<Step>, cacheSize: nat, space: nat, n: nat)
    requires Run(states, steps, cacheSize, space) && n < |states|
    ensures Pushed(states, steps, n) == Taken(states, steps, n) + states[n].writeQueue
  {
    hide Enabled, Next, ToSeq;
    if n > 0 {
      QueueIsFifo(states, steps, cacheSize, space, n - 1);
      var s, t, step := states[n - 1], states[n], steps[n - 1];
      assert Enabled(s, step) && t == Next(s, step);
      StepQueue(s, step);
      var pushed := if step.Push? && step.i < |s.evicting| then [s.evicting[step.i]] else [];
      var taken := if step.Take? then ToSeq(t.hand) else [];
      var before := Taken(states, steps, n - 1);
      assert before + s.writeQueue + pushed == before + (s.writeQueue + pushed);
      assert before + (taken + t.writeQueue) == before + taken + t.writeQueue;
    }
  }

  lemma StepQueue(s: Store, step: Step)
    requires Enabled(s, step)
    ensures var t := Next(s, step);
            s.writeQueue + (if step.Push? && step.i < |s.evicting| then [s.evicting[step.i]] else [])
            == (if step.Take? then ToSeq(t.hand) else []) + t.writeQueue
  {
    hide Accepted, WriteTo, Handed, Remove;
    if step.Take? { assert s.writeQueue == [s.writeQueue[0]] + s.writeQueue[1..]; }
  }

  /** No put of the writer thread ever replaces a database record. */
  lemma PutsNeverOverwrite(states: seq<Store>, steps: seq<Step>, cacheSize: nat, space: nat, i: nat)
    requires Run(states, steps, cacheSize, space) && i < |steps| && steps[i].Put?
    ensures states[i].hand.Some? && states[i].hand.value.0 !in states[i].db
  {
    hide Inv;
    RunInv(states, steps, cacheSize, space, i);
    HandCounts(states[i], space);
  }
}
