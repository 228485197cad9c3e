/** How a writer finds the brothers of its tree's edges (client/range_query.cpp): first
    among the writes that were pending when its ticket was granted, then in the last
    stable tree. */
module Siblings {
  import opened Arithmetic
  import opened Metadata
  import opened Dyadic
  import opened History

  /** The version manager's record of a write, in bytes. */
  function IntervalOf(ps: nat, w: Write): Query
    requires w.first <= w.last
  {
    Query(w.id, w.version, w.first * ps, (w.last - w.first + 1) * ps)
  }

  ghost predicate Intervals(ps: nat, pending: seq<Query>, h: Log) {
    && |pending| == |h|
    && forall i :: 0 <= i < |h| ==> h[i].first <= h[i].last && pending[i] == IntervalOf(ps, h[i])
  }

  /** The newest pending interval that meets `range`: its index, or -1. */
  function NewestPending(pending: seq<Query>, range: Query): (i: int)
    ensures -1 <= i < |pending|
  {
    if pending == [] then -1
    else if Intersects(range, pending[|pending| - 1]) then |pending| - 1
    else NewestPending(pending[..|pending| - 1], range)
  }

  lemma {:induction false} NewestPendingIsNewest(ps: nat, pending: seq<Query>, h: Log, range: Query, k: nat, x: nat)
    requires ps > 0 && Intervals(ps, pending, h)
    requires SameRange(range, x * Size(ps, k), Size(ps, k))
    ensures NewestPending(pending, range) == Newest(h, k, x)
  {
    if h != [] {
      var w := h[|h| - 1];
      IntersectsIsTouches(ps, range, k, x, pending[|h| - 1], w.first, w.last);
      NewestPendingIsNewest(ps, pending[..|h| - 1], h[..|h| - 1], range, k, x);
    }
  }

  function Brother(x: nat): (b: nat)
    ensures b != x && b / 2 == x / 2
  {
    if x % 2 == 0 then x + 1 else x - 1
  }

  /** The direct sibling of an aligned range. */
  function BrotherRange(node: Query): Query
    requires node.size > 0
    requires node.offset % (2 * node.size) != 0 ==> node.size <= node.offset
  {
    if node.offset % (2 * node.size) == 0 then node.(offset := node.offset + node.size)
    else node.(offset := node.offset - node.size)
  }

  lemma BrotherPosition(ps: nat, id: nat, version: nat, k: nat, x: nat)
    requires ps > 0
    ensures var q := Position(ps, id, version, k, x);
            && q.size > 0
            && (q.offset % (2 * q.size) != 0 ==> q.size <= q.offset)
            && BrotherRange(q) == Position(ps, id, version, k, Brother(x))
  {
    SizePositive(ps, k);
    ParentPosition(ps, id, version, k, x);
    ModEven(x, Size(ps, k));
    if x % 2 == 0 { Distribute(x, 1, Size(ps, k)); } else { Distribute(x - 1, 1, Size(ps, k)); }
  }

  /** What one pending write contributes at position (k, x). */
  function PendingEntry(ps: nat, h: Log, k: nat, x: nat): Query {
    var i := Newest(h, k, x);
    if i < 0 then NO_QUERY else NodeKey(ps, h[i], k, x)
  }

  function EntryList(q: Query): seq<Query> {
    if q == NO_QUERY then [] else [q]
  }

  /** The brothers, from level k up, of the path of page e, as far as pending writes know
      them. */
  function PendingSiblings(ps: nat, h: Log, e: nat, k: nat, level: nat): seq<Query>
    decreases level - k
  {
    if level <= k then []
    else EntryList(PendingEntry(ps, h, k, Brother(Shift(e, k)))) + PendingSiblings(ps, h, e, k + 1, level)
  }

  /** The reverse scan over the pending intervals. */
  method FindNewestPending(pending: seq<Query>, range: Query) returns (i: int)
    ensures i == NewestPending(pending, range)
  {
    var j := |pending|;
    assert pending[..j] == pending;
    while j > 0
      invariant 0 <= j <= |pending|
      invariant NewestPending(pending, range) == NewestPending(pending[..j], range)
    {
      j := j - 1;
      assert pending[..j + 1][..j] == pending[..j];
      if Intersects(range, pending[j]) {
        return j;
      }
    }
    return -1;
  }

  /** The parent of `current`, and its brother. */
  method ParentAndBrother(ps: nat, current: Query, ghost k: nat, ghost x: nat) returns (parent: Query, brother: Query)
    requires ps > 0
    requires current == Position(ps, current.id, current.version, k, x)
    ensures parent == Position(ps, current.id, current.version, k + 1, x / 2)
    ensures brother == Position(ps, current.id, current.version, k, Brother(x))
  {
    BrotherPosition(ps, current.id, current.version, k, x);
    ParentPosition(ps, current.id, current.version, k, x);
    parent, brother := current, current;
    if current.offset % (2 * current.size) == 0 {
      brother := brother.(offset := current.offset + current.size);
    } else {
      brother := brother.(offset := current.offset - current.size);
      parent := parent.(offset := brother.offset);
    }
    parent := parent.(size := parent.size * 2);
  }

  lemma PendingEntryIs(ps: nat, pending: seq<Query>, h: Log, brother: Query, k: nat, x: nat)
    requires ps > 0 && Intervals(ps, pending, h)
    requires forall i :: 0 <= i < |h| ==> h[i].id == brother.id && h[i].version > 0
    requires brother == Position(ps, brother.id, brother.version, k, x)
    ensures var j := NewestPending(pending, brother);
            EntryList(PendingEntry(ps, h, k, x)) ==
            if j < 0 then [] else [brother.(version := pending[j].version)]
  {
    NewestPendingIsNewest(ps, pending, h, brother, k, x);
  }

  /** One level of the climb: the parent, and the entry recorded for the brother. */
  method ClimbOnce(ps: nat, current: Query, pending: seq<Query>, ghost h: Log, ghost k: nat, ghost x: nat)
    returns (parent: Query, entry: seq<Query>)
    requires ps > 0 && Intervals(ps, pending, h)
    requires forall i :: 0 <= i < |h| ==> h[i].id == current.id && h[i].version > 0
    requires current == Position(ps, current.id, current.version, k, x)
    ensures parent == Position(ps, current.id, current.version, k + 1, x / 2)
    ensures entry == EntryList(PendingEntry(ps, h, k, Brother(x)))
  {
    var brother;
    parent, brother := ParentAndBrother(ps, current, k, x);
    PendingEntryIs(ps, pending, h, brother, k, Brother(x));
    var j := FindNewestPending(pending, brother);
    entry := if j < 0 then [] else [brother.(version := pending[j].version)];
  }

  /** compute_sibling_versions: climb from an edge leaf to the root and record, for every
      brother that some pending write touches, that brother under the newest such write. */
  method ComputeSiblingVersions(ps: nat, edge: Query, pending: seq<Query>, rootSize: nat,
                                ghost h: Log, ghost e: nat, ghost level: nat)
    returns (siblings: seq<Query>)
    requires ps > 0 && Intervals(ps, pending, h)
    requires forall i :: 0 <= i < |h| ==> h[i].id == edge.id && h[i].version > 0
    requires edge == Position(ps, edge.id, edge.version, 0, e) && rootSize == Size(ps, level)
    ensures siblings == PendingSiblings(ps, h, e, 0, level)
  {
    siblings := [];
    var current := edge;
    ghost var k := 0;
    while current.size < rootSize
      invariant k <= level
      invariant current == Position(ps, edge.id, edge.version, k, Shift(e, k))
      invariant PendingSiblings(ps, h, e, 0, level) == siblings + PendingSiblings(ps, h, e, k, level)
      decreases level - k
    {
      var parent, entry := ClimbOnce(ps, current, pending, h, k, Shift(e, k));
      siblings := siblings + entry;
      current := parent;
      k := k + 1;
    }
    if k < level {
      SizeGrows(ps, k, level);
    }
  }

  /** What a sibling list holds for position (k, x). */
  function At(ps: nat, siblings: seq<Query>, k: nat, x: nat): Query {
    Search(siblings, x * Size(ps, k), Size(ps, k))
  }

  /** Appending an entry for position (k, x) fills (k, x) if it was empty, and nothing else. */
  lemma AtPush(ps: nat, siblings: seq<Query>, q: Query, k: nat, x: nat, j: nat, y: nat)
    requires ps > 0 && SameRange(q, x * Size(ps, k), Size(ps, k))
    ensures At(ps, siblings + [q], j, y) ==
            if (j, y) == (k, x) && At(ps, siblings, j, y) == NO_QUERY then q else At(ps, siblings, j, y)
  {
    SizePositive(ps, j);
    SizePositive(ps, k);
    if SameRange(q, y * Size(ps, j), Size(ps, j)) {
      RangeIsPosition(ps, k, x, j, y);
    }
    SearchConcat(siblings, [q], y * Size(ps, j), Size(ps, j));
    AtEmpty(ps, siblings, j, y);
  }

  lemma {:induction false} AtEmpty(ps: nat, siblings: seq<Query>, k: nat, x: nat)
    requires ps > 0
    ensures At(ps, siblings, k, x) == NO_QUERY <==>
            forall q :: q in siblings ==> !SameRange(q, x * Size(ps, k), Size(ps, k))
  {
    SizePositive(ps, k);
    if siblings != [] {
      AtEmpty(ps, siblings[1..], k, x);
      assert siblings == [siblings[0]] + siblings[1..];
    }
  }

  /** The climb records exactly the brothers of the edge path that pending writes touch,
      each under the newest pending write that touches it. */
  lemma {:induction false} PendingSiblingsAt(ps: nat, h: Log, e: nat, k: nat, level: nat, j: nat, y: nat)
    requires ps > 0 && forall i :: 0 <= i < |h| ==> h[i].id > 0
    ensures At(ps, PendingSiblings(ps, h, e, k, level), j, y) ==
            if k <= j < level && y == Brother(Shift(e, j)) then PendingEntry(ps, h, j, y) else NO_QUERY
    decreases level - k
  {
    if k < level {
      var b := Brother(Shift(e, k));
      var entry := EntryList(PendingEntry(ps, h, k, b));
      var rest := PendingSiblings(ps, h, e, k + 1, level);
      PendingSiblingsAt(ps, h, e, k + 1, level, j, y);
      var q := PendingEntry(ps, h, k, b);
      if q == NO_QUERY {
        assert entry + rest == rest;
      } else {
        AtCons(ps, q, rest, k, b, j, y);
      }
    }
  }

  lemma AtCons(ps: nat, q: Query, rest: seq<Query>, k: nat, x: nat, j: nat, y: nat)
    requires ps > 0 && SameRange(q, x * Size(ps, k), Size(ps, k))
    ensures At(ps, [q] + rest, j, y) == if (j, y) == (k, x) then q else At(ps, rest, j, y)
  {
    if SameRange(q, y * Size(ps, j), Size(ps, j)) {
      RangeIsPosition(ps, k, x, j, y);
    }
    assert ([q] + rest)[1..] == rest;
  }
}
