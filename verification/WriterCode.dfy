/** The step system's writers do what the code does: a ticket's reply has what
    WriteRecordLocations asks for, and the nodes a writer puts, one at a time and in any
    order, are exactly the puts that WriteRecordLocations computes. */
module WriterCode {
  import opened Metadata
  import opened History
  import opened Weave
  import opened NodeDeque
  import opened WriteLocations
  import opened VersionManager
  import opened Protocol
  import opened ProtocolInvariant
  import opened ProtocolGrant

  /** Every reply of the version manager describes the blob's log, whatever is pending. */
  lemma RepliesDescribeLog(s: State, id: nat)
    requires Inv(s) && id in s.objs && s.objs[id].intervals != []
    ensures var o := s.objs[id];
            o.roots != [] && Describes(TicketReply(o), s.logs[id], Published(o, s.bases[id]))
  {
    hide TreeOk, PagesOk, WriterInv, DhtOk, BlobOk, Describes;
    assert BlobInv(s, id);
    var o, h, b := s.objs[id], s.logs[id], s.bases[id];
    LogNotEmpty(id, o, h, b);
    ReplyDescribes(id, o, h, b);
  }

  /** A new writer goes by the stable root of its reply, and the reply tells it how many
      replicas the blob's pages have. */
  lemma ReplyIsWriters(s: State, q: Query, append: bool, contents: seq<Content>)
    requires Inv(s) && Enabled(s, Grant(q, append, contents))
    ensures var s' := Next(s, Grant(q, append, contents));
            var u := (q.id, s.objs[q.id].currentTicket);
            && q.id in s'.objs && s'.objs[q.id].roots != [] && u in s'.writers
            && var reply, wr := TicketReply(s'.objs[q.id]), s'.writers[u];
            && wr.stable == reply.stableRoot.node && wr.published < |wr.log|
            && |reply.intervals| == |wr.log| - wr.published
            && Describes(reply, wr.log, wr.published)
  {
    hide BlobInv, WriterInv, DhtOk, OriginsOk, KeysInv, GrantedWrite, StorePages, Describes, Insert, Grow, NewWriter, GrantTicket;
    var s' := Next(s, Grant(q, append, contents));
    var u := (q.id, s.objs[q.id].currentTicket);
    GrantInv(s, s', q, append, contents);
    GrantedQueue(s, q, append, contents);
    RepliesDescribeLog(s', q.id);
    NewWriterLog(s, q, append, contents);
    PendingIntervals(TicketReply(s'.objs[q.id]), s'.writers[u].log, s'.writers[u].published);
  }

  lemma GrantedQueue(s: State, q: Query, append: bool, contents: seq<Content>)
    requires Inv(s) && Enabled(s, Grant(q, append, contents))
    ensures var s' := Next(s, Grant(q, append, contents));
            && q.id in s'.objs && s'.objs[q.id].intervals != [] && s'.objs[q.id].roots == s.objs[q.id].roots
  {
    hide TreeOk, PagesOk, WriterInv, DhtOk, OriginsOk, KeysInv, GrantedWrite, StorePages, NewWriter, Insert, Grow, BlobOk;
    assert BlobInv(s, q.id);
    GrantIsGrantable(s, q, append, contents);
    BlobIsValid(q.id, s.objs[q.id], s.logs[q.id], s.bases[q.id]);
    GrantAppends(s.objs[q.id], q, append);
  }

  lemma BlobIsValid(id: nat, o: ObjInfo, h: Log, b: nat)
    requires BlobOk(id, o, h, b)
    ensures ObjValid(o)
  {
  }

  lemma NewWriterLog(s: State, q: Query, append: bool, contents: seq<Content>)
    requires Inv(s) && Enabled(s, Grant(q, append, contents))
    ensures var s' := Next(s, Grant(q, append, contents));
            var u := (q.id, s.objs[q.id].currentTicket);
            && u in s'.writers && q.id in s'.logs && q.id in s'.bases && s.objs[q.id].roots != []
            && s'.writers[u].log == s'.logs[q.id] && s'.writers[u].published == Published(s.objs[q.id], s'.bases[q.id])
            && s'.writers[u].stable == LastRoot(s.objs[q.id]).node
  {
    hide BlobInv, WriterInv, DhtOk, OriginsOk, KeysInv, GrantedWrite, StorePages, Insert, Grow, GrowLevel;
  }

  lemma LogNotEmpty(id: nat, o: ObjInfo, h: Log, b: nat)
    requires BlobOk(id, o, h, b) && o.intervals != []
    ensures h != [] && o.roots != []
  {
    hide RootsOk, OwnOk, SizesOk, WellFormed, AllInReach;
  }

  /** All puts of one write, as WriteRecordLocations returns them. */
  ghost function CodePuts(ps: nat, dht: Dht, wr: Writer): seq<Put>
    requires wr.published < |wr.log| && WellFormedWrite(Own(wr.log))
  {
    var w := Own(wr.log);
    LeafPuts(ps, w, w.last - w.first + 1) +
    TreePuts(ps, w, LeftList(ps, dht, wr.log, wr.published, wr.stable),
             RightList(ps, dht, wr.log, wr.published, wr.stable), w.level)
  }

  lemma WriterLog(s: State, id: nat, v: nat)
    requires Inv(s) && (id, v) in s.writers
    ensures var wr := s.writers[(id, v)];
            && wr.published < |wr.log| && WellFormedWrite(Own(wr.log))
            && SideOk(Ps(s.objs[id]), s.dht, wr.log, wr.published, wr.stable, true, wr.left)
            && SideOk(Ps(s.objs[id]), s.dht, wr.log, wr.published, wr.stable, false, wr.right)
  {
    hide TreeOk, PagesOk, DhtOk, SideOk, StoredOk, StableRoot, RootsOk, QueueOk, OwnOk, SizesOk, AllInReach, ObjValid;
    assert WriterInv(s, (id, v)) && BlobInv(s, id);
  }

  lemma LeafPutsHas(ps: nat, w: Write, x: nat)
    requires w.first <= x <= w.last
    ensures (NodeKey(ps, w, 0, x), Leaf(PageKey(ps, w, x))) in LeafPuts(ps, w, w.last - w.first + 1)
  {
    assert LeafPuts(ps, w, w.last - w.first + 1)[x - w.first] == (NodeKey(ps, w, 0, x), Leaf(PageKey(ps, w, x)));
  }

  /** Whatever other writers have stored meanwhile, a put of the step system is the put that
      the code computes for that position. */
  lemma StepPutsAreCodePuts(s: State, id: nat, v: nat, k: nat, x: nat)
    requires Inv(s) && Enabled(s, PutNode(id, v, k, x))
    ensures var wr, ps := s.writers[(id, v)], Ps(s.objs[id]);
            && wr.published < |wr.log| && WellFormedWrite(Own(wr.log))
            && (NodeKey(ps, Own(wr.log), k, x), PlanNode(ps, Own(wr.log), wr.left.siblings, wr.right.siblings, k, x))
               in CodePuts(ps, s.dht, wr)
            && Next(s, PutNode(id, v, k, x)).dht == s.dht[NodeKey(ps, Own(wr.log), k, x) :=
                 PlanNode(ps, Own(wr.log), wr.left.siblings, wr.right.siblings, k, x)]
  {
    hide BlobInv, WriterInv, DhtOk, TreePuts, LeftList, RightList, LeafPuts, NodeKey, WellFormed;
    WriterLog(s, id, v);
    var wr, ps := s.writers[(id, v)], Ps(s.objs[id]);
    if k == 0 {
      LeafPutsHas(ps, Own(wr.log), x);
    } else {
      TreePutsHas(ps, Own(wr.log), LeftList(ps, s.dht, wr.log, wr.published, wr.stable),
                  RightList(ps, s.dht, wr.log, wr.published, wr.stable), Own(wr.log).level, k, x);
    }
  }
}
