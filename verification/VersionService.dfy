/** The version manager as a service: the RPC methods of vmanager/vmanagement.cpp, which
    update the table of blobs in place.  Each method is proved against the functions of
    VersionManager, which the protocol model uses. */
module VersionService {
  import opened Metadata
  import opened WriteLocations
  import opened VersionManager

  datatype Status<+T> = Ok(value: T) | NoObject

  const NO_ROOT := Root(NO_QUERY, 0, 0, 0)

  /** The root that a request for `version` selects: 0 and unpublished versions select the
      latest one. */
  function SelectRoot(o: ObjInfo, version: nat): Root
    requires o.roots != []
  {
    if version == 0 || version >= |o.roots| then LastRoot(o) else o.roots[version]
  }

  /** The size 0 is reached by cloning a blob that was never written: the clone's tickets for
      non-empty writes, and only those, send the doubling loop round for ever. */
  lemma CloneOfUnwrittenStuck(id: nat, ps: nat, rc: nat, version: nat, q: Query, append: bool)
    requires append || q.size > 0
    ensures var o := CloneObj(SelectRoot(NewObj(id, ps, rc), version));
            && o.maxSize == 0 && (CanGrant(o, q, append) <==> q.size == 0)
            && ((exists n: nat :: TicketOffset(o, q, append) + q.size <= Doubled(o.maxSize, n)) <==> q.size == 0)
  {
    var o := CloneObj(SelectRoot(NewObj(id, ps, rc), version));
    DoublingEndsIff(o.maxSize, TicketOffset(o, q, append) + q.size);
  }

  class VManagement {
    var objs: map<nat, ObjInfo>
    var objCount: nat

    predicate Valid()
      reads this
    {
      forall id :: id in objs ==> 1 <= id <= objCount && ObjValid(objs[id])
    }

    constructor ()
      ensures Valid() && objs == map[] && objCount == 0
    {
      objs := map[];
      objCount := 0;
    }

    method Create(ps: nat, rc: nat) returns (root: Root)
      requires Valid()
      modifies this
      ensures Valid() && objCount == old(objCount) + 1
      ensures objCount !in old(objs) && objs == old(objs)[objCount := NewObj(objCount, ps, rc)]
      ensures root == LastRoot(objs[objCount]) == Root(Query(objCount, 0, 0, 0), rc, 0, ps)
    {
      objCount := objCount + 1;
      var obj := NewObj(objCount, ps, rc);
      objs := objs[objCount := obj];
      root := LastRoot(obj);
    }

    /** The stored blob keeps the source's root; only the answer carries the new id. */
    method Clone(id: nat, version: nat) returns (root: Root)
      requires Valid()
      modifies this
      ensures Valid()
      ensures id !in old(objs) ==> objs == old(objs) && objCount == old(objCount) && root == NO_ROOT
      ensures id in old(objs) ==>
        && objCount == old(objCount) + 1 && objCount !in old(objs)
        && objs == old(objs)[objCount := CloneObj(SelectRoot(old(objs)[id], version))]
        && root == SelectRoot(old(objs)[id], version).(node := root.node)
        && root.node == SelectRoot(old(objs)[id], version).node.(id := objCount)
      ensures id in old(objs) ==>
        var o := old(objs)[id];
        var selected := if 1 <= version < |o.roots| then o.roots[version] else o.roots[|o.roots| - 1];
        && root == selected.(node := selected.node.(id := objCount))
        && objs[objCount].roots == [selected] && objs[objCount].progressSize == selected.currentSize
        && objs[objCount].maxSize == selected.node.size
    {
      root := NO_ROOT;
      if id in objs {
        var o := objs[id];
        if version == 0 || version >= |o.roots| {
          root := o.roots[|o.roots| - 1];
        } else {
          root := o.roots[version];
        }
        objCount := objCount + 1;
        objs := objs[objCount := CloneObj(root)];
        root := root.(node := root.node.(id := objCount));
      }
    }

    method GetRoot(id: nat, version: nat) returns (root: Root)
      requires Valid()
      ensures root == if id in objs then SelectRoot(objs[id], version) else NO_ROOT
      ensures id in objs && 1 <= version < |objs[id].roots| ==> root == objs[id].roots[version] && root.node.version == version
      ensures id in objs && !(1 <= version < |objs[id].roots|) ==> root == objs[id].roots[|objs[id].roots| - 1]
    {
      root := NO_ROOT;
      if id in objs {
        var o := objs[id];
        if version == 0 || version >= |o.roots| {
          root := o.roots[|o.roots| - 1];
        } else {
          root := o.roots[version];
        }
      }
    }

    /** The doubling loop does not end on a blob whose root has size 0, which a clone of an
        unwritten blob has; see DoublingEndsIff. */
    method GetTicket(query: Query, append: bool) returns (r: Status<Reply>)
      requires Valid()
      requires query.id in objs ==> CanGrant(objs[query.id], query, append)
      modifies this
      ensures Valid() && objCount == old(objCount)
      ensures query.id !in old(objs) ==> r == NoObject && objs == old(objs)
      ensures query.id in old(objs) ==>
        && objs == old(objs)[query.id := GrantTicket(old(objs)[query.id], query, append)]
        && r == Ok(TicketReply(objs[query.id]))
      ensures r.Ok? ==>
        var o, reply := old(objs)[query.id], r.value;
        && reply.stableRoot == o.roots[|o.roots| - 1] && |reply.intervals| == |o.intervals| + 1
        && (forall i :: 0 <= i < |o.intervals| ==> reply.intervals[i] == o.intervals[i].query)
        && reply.intervals[|o.intervals|] ==
             Query(query.id, o.currentTicket, if append then o.progressSize else query.offset, query.size)
        && objs[query.id].roots == o.roots && reply.rootSize == objs[query.id].maxSize
    {
      if query.id !in objs {
        return NoObject;
      }
      var o := objs[query.id];
      GrantAppends(o, query, append);
      var offset := if append then o.progressSize else query.offset;
      var maxSize := GrowMaxSize(o.maxSize, offset + query.size);
      var root := o.roots[|o.roots| - 1];
      root := root.(node := Query(query.id, o.currentTicket, root.node.offset, maxSize));
      var progress := o.progressSize;
      if offset + query.size > root.currentSize {
        root := root.(currentSize := offset + query.size);
        progress := root.currentSize;
      }
      var entry := Interval(Query(query.id, o.currentTicket, offset, query.size), root, false);
      var granted := ObjInfo(o.roots, Insert(o.intervals, entry), o.currentTicket + 1, maxSize, progress);
      objs := objs[query.id := granted];
      return Ok(TicketReply(granted));
    }

    method Publish(interval: Query) returns (r: Status<()>)
      requires Valid()
      modifies this
      ensures Valid() && objCount == old(objCount)
      ensures r.Ok? <==> interval.id in old(objs) && IsPending(old(objs)[interval.id], interval.version)
      ensures objs == if r.Ok? then old(objs)[interval.id := PublishVersion(old(objs)[interval.id], interval.version)]
                      else old(objs)
    {
      if interval.id !in objs {
        return NoObject;
      }
      var o := objs[interval.id];
      var j := Find(o.intervals, interval.version);
      if j == |o.intervals| {
        return NoObject;
      }
      PublishKeepsValid(o, interval.version);
      o := o.(intervals := o.intervals[j := o.intervals[j].(done := true)]);
      while o.intervals != [] && o.intervals[0].done
        invariant Drain(o) == PublishVersion(objs[interval.id], interval.version)
        invariant objs == old(objs) && objCount == old(objCount)
        decreases |o.intervals|
      {
        o := o.(roots := o.roots + [o.intervals[0].root], intervals := o.intervals[1..]);
      }
      objs := objs[interval.id := o];
      return Ok(());
    }
  }
}
