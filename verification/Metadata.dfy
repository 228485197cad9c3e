/** The records of common/structures.hpp: tree-node keys, tree nodes, roots, and
    the list search used while weaving.  Offsets, sizes and versions are unbounded. */
module Metadata {

  newtype Byte = b: int | 0 <= b < 256

  /** A range of one version of one blob; also the DHT key of a tree node or a page. */
  datatype Query = Query(id: nat, version: nat, offset: nat, size: nat)

  const NO_QUERY := Query(0, 0, 0, 0)

  predicate Intersects(a: Query, b: Query) {
    if a.offset <= b.offset then b.offset < a.offset + a.size
    else a.offset < b.offset + b.size
  }

  /** Blob ids start at 1, so id 0 marks a hole.  Two forms occur: NO_QUERY, and
      id 0 with the offset and size that the sibling search fills in. */
  predicate IsHole(q: Query) {
    q.id == 0
  }

  datatype ChildKind = LeftChild | RightChild

  /** A range's parent, and which child of it the range is.  Unsigned subtraction is
      in range because tree ranges are aligned to their own size. */
  function GetParent(q: Query): (r: (Query, ChildKind))
    requires q.size > 0
    requires q.offset % (2 * q.size) != 0 ==> q.size <= q.offset
  {
    if q.offset % (2 * q.size) == 0 then
      (Query(q.id, q.version, q.offset, 2 * q.size), LeftChild)
    else
      (Query(q.id, q.version, q.offset - q.size, 2 * q.size), RightChild)
  }

  datatype Root = Root(node: Query, replicaCount: nat, currentSize: nat, pageSize: nat)

  datatype DhtNode =
    | Leaf(page: Query)
    | Inner(left: Query, right: Query)

  type Dht = map<Query, DhtNode>

  predicate SameRange(q: Query, offset: nat, size: nat) {
    q.offset == offset && q.size == size
  }

  /** The first entry with the given range, or NO_QUERY. */
  function Search(siblings: seq<Query>, offset: nat, size: nat): (r: Query)
    ensures r == NO_QUERY || (r in siblings && SameRange(r, offset, size))
  {
    if siblings == [] then NO_QUERY
    else if SameRange(siblings[0], offset, size) then siblings[0]
    else Search(siblings[1..], offset, size)
  }

  lemma {:induction false} SearchConcat(a: seq<Query>, b: seq<Query>, offset: nat, size: nat)
    ensures (exists q :: q in a && SameRange(q, offset, size))
              ==> Search(a + b, offset, size) == Search(a, offset, size)
    ensures (forall q :: q in a ==> !SameRange(q, offset, size))
              ==> Search(a + b, offset, size) == Search(b, offset, size)
  {
    if a == [] {
      assert a + b == b;
    } else {
      assert (a + b)[1..] == a[1..] + b;
      SearchConcat(a[1..], b, offset, size);
    }
  }

  /** search_list as written: a scan that stops at the first match. */
  method SearchList(siblings: seq<Query>, offset: nat, size: nat) returns (r: Query)
    ensures r == Search(siblings, offset, size)
  {
    for i := 0 to |siblings|
      invariant Search(siblings, offset, size) == Search(siblings[i..], offset, size)
    {
      if siblings[i].offset == offset && siblings[i].size == size {
        return siblings[i];
      }
    }
    return NO_QUERY;
  }
}
