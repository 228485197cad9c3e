/** request_queue_t (rpc/rpc_client.hpp:19-134): requests by host and number, in two nested
    maps.  Looking up a host creates an empty inner map, so empty ones pile up; the searches
    must see through them. */
module RequestQueue {
  import opened Basics
  import opened RpcClient

  type HostMap = map<Host, set<nat>>

  /** The requests in a map. */
  ghost function Ids(m: HostMap): set<(Host, nat)> {
    set h, i | h in m && i in m[h] :: (h, i)
  }

  lemma IdsHas(m: HostMap, h: Host, i: nat)
    ensures (h, i) in Ids(m) <==> h in m && i in m[h]
  {
  }

  function At(m: HostMap, h: Host): set<nat> {
    if h in m then m[h] else {}
  }

  /** Two maps hold the same requests, up to one request and empty hosts. */
  lemma SameIds(m: HostMap, m': HostMap, h: Host, added: set<nat>, removed: set<nat>)
    requires forall x: Host :: At(m', x) == if x == h then At(m, h) - removed + added else At(m, x)
    ensures Ids(m') == Ids(m) - (set i | i in removed :: (h, i)) + (set i | i in added :: (h, i))
  {
    var r, a := (set i | i in removed :: (h, i)), (set i | i in added :: (h, i));
    forall e: (Host, nat) ensures e in Ids(m') <==> (e in Ids(m) && e !in r) || e in a {
      IdsHas(m, e.0, e.1);
      IdsHas(m', e.0, e.1);
      assert e in r <==> e.0 == h && e.1 in removed;
      assert e in a <==> e.0 == h && e.1 in added;
      assert At(m', e.0) == if e.0 == h then At(m, h) - removed + added else At(m, e.0);
    }
  }

  function Insert(m: HostMap, h: Host, i: nat): HostMap {
    m[h := At(m, h) + {i}]
  }

  /** Take i out; a host left without requests is erased. */
  function Take(m: HostMap, h: Host, i: nat): HostMap {
    if At(m, h) - {i} == {} then m - {h} else m[h := At(m, h) - {i}]
  }

  lemma InsertIds(m: HostMap, h: Host, i: nat)
    ensures Ids(Insert(m, h, i)) == Ids(m) + {(h, i)}
  {
    SameIds(m, Insert(m, h, i), h, {i}, {});
    assert (set x | x in {i} :: (h, x)) == {(h, i)};
  }

  lemma TakeIds(m: HostMap, h: Host, i: nat)
    ensures Ids(Take(m, h, i)) == Ids(m) - {(h, i)}
  {
    SameIds(m, Take(m, h, i), h, {}, {i});
    assert (set x | x in {i} :: (h, x)) == {(h, i)};
  }

  lemma TouchIds(m: HostMap, h: Host)
    ensures Ids(m[h := At(m, h)]) == Ids(m)
  {
    SameIds(m, m[h := At(m, h)], h, {}, {});
  }

  class Requests {
    var requestMap: HostMap
    var pendingMap: HostMap
    var requestId: nat

    constructor ()
      ensures Ids(requestMap) == {} && Ids(pendingMap) == {} && requestId == 0
    {
      requestMap, pendingMap, requestId := map[], map[], 0;
    }

    method Enqueue(host: Host) returns (id: nat)
      modifies this
      ensures id == old(requestId) && requestId == id + 1 && pendingMap == old(pendingMap)
      ensures Ids(requestMap) == old(Ids(requestMap)) + {(host, id)}
    {
      id := requestId;
      requestId := requestId + 1;
      InsertIds(requestMap, host, id);
      requestMap := requestMap[host := At(requestMap, host) + {id}];
    }

    method MarkPending(host: Host, id: nat)
      modifies this
      ensures requestMap == old(requestMap) && requestId == old(requestId)
      ensures Ids(pendingMap) == old(Ids(pendingMap)) + {(host, id)}
    {
      InsertIds(pendingMap, host, id);
      pendingMap := pendingMap[host := At(pendingMap, host) + {id}];
    }

    /** Some request of the host, if there is one. */
    static method DequeueFrom(m: HostMap, host: Host) returns (m': HostMap, r: Option<nat>)
      ensures r == None ==> Ids(m') == Ids(m) && forall i: nat :: (host, i) !in Ids(m)
      ensures r.Some? ==> (host, r.value) in Ids(m) && Ids(m') == Ids(m) - {(host, r.value)}
    {
      TouchIds(m, host);
      m' := m[host := At(m, host)];
      if m'[host] == {} {
        return m', None;
      }
      var id :| id in m'[host];
      TakeIds(m, host, id);
      r := Some(id);
      m' := m'[host := m'[host] - {id}];
      if m'[host] == {} {
        m' := m' - {host};
        assert m' == m - {host};
      } else {
        assert m' == m[host := At(m, host) - {id}];
      }
    }

    method DequeueHost(host: Host) returns (r: Option<nat>)
      modifies this
      ensures pendingMap == old(pendingMap) && requestId == old(requestId)
      ensures r == None ==> Ids(requestMap) == old(Ids(requestMap)) && forall i: nat :: (host, i) !in Ids(requestMap)
      ensures r.Some? ==> (host, r.value) in old(Ids(requestMap)) && Ids(requestMap) == old(Ids(requestMap)) - {(host, r.value)}
    {
      requestMap, r := DequeueFrom(requestMap, host);
    }

    method DequeuePendingHost(host: Host) returns (r: Option<nat>)
      modifies this
      ensures requestMap == old(requestMap) && requestId == old(requestId)
      ensures r == None ==> Ids(pendingMap) == old(Ids(pendingMap)) && forall i: nat :: (host, i) !in Ids(pendingMap)
      ensures r.Some? ==> (host, r.value) in old(Ids(pendingMap)) && Ids(pendingMap) == old(Ids(pendingMap)) - {(host, r.value)}
    {
      pendingMap, r := DequeueFrom(pendingMap, host);
    }

    /** Whether the request was still connecting; the host keeps an empty map. */
    method DequeuePending(host: Host, id: nat) returns (was: bool)
      modifies this
      ensures requestMap == old(requestMap) && requestId == old(requestId)
      ensures was <==> (host, id) in old(Ids(pendingMap))
      ensures Ids(pendingMap) == old(Ids(pendingMap)) - {(host, id)}
    {
      IdsHas(pendingMap, host, id);
      SameIds(pendingMap, pendingMap[host := At(pendingMap, host) - {id}], host, {}, {id});
      assert (set x | x in {id} :: (host, x)) == {(host, id)};
      was := id in At(pendingMap, host);
      pendingMap := pendingMap[host := At(pendingMap, host) - {id}];
    }

    /** Any queued request: hosts with empty maps are skipped, so none is overlooked. */
    method DequeueAny() returns (r: Option<(Host, nat)>)
      modifies this
      ensures pendingMap == old(pendingMap) && requestId == old(requestId)
      ensures r == None <==> old(Ids(requestMap)) == {}
      ensures r == None ==> requestMap == old(requestMap)
      ensures r.Some? ==> r.value in old(Ids(requestMap)) && Ids(requestMap) == old(Ids(requestMap)) - {r.value}
    {
      var hosts := requestMap.Keys;
      while hosts != {}
        invariant hosts <= requestMap.Keys && requestMap == old(requestMap)
        invariant forall h :: h in requestMap && h !in hosts ==> requestMap[h] == {}
        decreases |hosts|
      {
        var host :| host in hosts;
        if requestMap[host] != {} {
          var id :| id in requestMap[host];
          IdsHas(requestMap, host, id);
          TakeIds(requestMap, host, id);
          requestMap := Take(requestMap, host, id);
          return Some((host, id));
        }
        hosts := hosts - {host};
      }
      assert Ids(requestMap) == {};
      return None;
    }
  }
}
