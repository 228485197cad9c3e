/** The classes of common/cache_mt.hpp, which update a hash map and a recency list in
    place, proved against the functions of LruCache.  The lock makes each method one step;
    the evict callback runs after it, so a write returns what the callback is given. */
module CacheService {
  import opened Basics
  import opened LruCache

  class LruPolicy<K(==)> {
    var accessCount: set<K>   // the keys that have a place in the queue
    var queue: seq<K>

    ghost predicate Valid()
      reads this
    {
      Distinct(queue) && accessCount == KeySet(queue)
    }

    constructor ()
      ensures Valid() && queue == []
    {
      accessCount, queue := {}, [];
    }

    /** The place of a key in the queue, which the hash map holds as a list iterator. */
    method Place(key: K) returns (i: nat)
      requires Valid() && key in accessCount
      ensures i < |queue| && queue[i] == key && Without(queue, key) == queue[..i] + queue[i + 1..]
    {
      i := 0;
      while queue[i] != key
        invariant i < |queue| && key in queue[i..] && forall j :: 0 <= j < i ==> queue[j] != key
        decreases |queue| - i
      {
        assert queue[i..] == [queue[i]] + queue[i + 1..];
        i := i + 1;
      }
      ghost var j := WithoutAt(queue, key);
    }

    method Invalidate(key: K)
      requires Valid()
      modifies this
      ensures Valid() && queue == Without(old(queue), key)
    {
      WithoutSet(queue, key);
      if key in accessCount {
        var i := Place(key);
        queue := queue[..i] + queue[i + 1..];
        accessCount := accessCount - {key};
      } else {
        ghost var i := WithoutAt(queue, key);
      }
    }

    method Touch(key: K)
      requires Valid()
      modifies this
      ensures Valid() && queue == Hit(old(queue), key)
    {
      HitSet(queue, key);
      Invalidate(key);
      queue := queue + [key];
      accessCount := accessCount + {key};
    }

    method EvictEntry() returns (key: Option<K>)
      requires Valid()
      modifies this
      ensures Valid()
      ensures old(queue) == [] ==> key == None && queue == []
      ensures old(queue) != [] ==> key == Some(old(queue)[0]) && queue == Without(old(queue), old(queue)[0])
    {
      if queue == [] {
        return None;
      }
      key := Some(queue[0]);
      Invalidate(queue[0]);
    }

    method Reset()
      modifies this
      ensures Valid() && queue == []
    {
      accessCount, queue := {}, [];
    }
  }

  class CacheMt<K(==), V> {
    const policy: LruPolicy<K>
    var cacheMap: map<K, Entry<V>>
    var maxSize: nat

    ghost function Model(): Cache<K, V>
      reads this, policy
    {
      Cache(cacheMap, policy.queue, maxSize)
    }

    ghost predicate Valid()
      reads this, policy
    {
      policy.Valid() && LruCache.Valid(Model())
    }

    constructor (capacity: nat)
      ensures Valid() && fresh(policy) && Model() == Empty(capacity)
    {
      policy := new LruPolicy();
      cacheMap := map[];
      maxSize := capacity;
    }

    method Write(key: K, data: V, dirty: bool) returns (ok: bool, handed: Option<(K, V)>)
      requires Valid()
      modifies this, policy
      ensures Valid() && Model() == WriteTo(old(Model()), key, data, dirty)
      ensures ok <==> Accepts(old(Model()), key)
      ensures handed == Handed(old(Model()), key)
    {
      hide Hit, Without, LruCache.Valid, Distinct, KeySet;
      WriteKeepsValid(Model(), key, data, dirty);
      handed := None;
      var evict := |cacheMap - {key}| == maxSize;
      if evict { EvictsOther(Model(), key); }
      cacheMap := cacheMap - {key};
      if |cacheMap| == maxSize {
        var victim := policy.EvictEntry();
        if victim == None {
          return false, None;
        }
        var entry := cacheMap[victim.value];
        cacheMap := cacheMap - {victim.value};
        if entry.dirty {
          handed := Some((victim.value, entry.value));
        }
      }
      cacheMap := cacheMap[key := Entry(data, dirty)];
      policy.Touch(key);
      ok := true;
    }

    method Read(key: K) returns (data: Option<V>)
      requires Valid()
      modifies policy
      ensures Valid() && Model() == ReadFrom(old(Model()), key)
      ensures data == if key in cacheMap then Some(cacheMap[key].value) else None
    {
      ReadKeepsValid(Model(), key);
      if key !in cacheMap {
        return None;
      }
      policy.Touch(key);
      return Some(cacheMap[key].value);
    }

    method FreeEntry(key: K)
      requires Valid()
      modifies this, policy
      ensures Valid() && Model() == Free(old(Model()), key)
    {
      FreeKeepsValid(Model(), key);
      policy.Invalidate(key);
      cacheMap := cacheMap - {key};
    }

    method ClearAll()
      modifies this, policy
      ensures Valid() && Model() == Empty(maxSize) && maxSize == old(maxSize)
    {
      cacheMap := map[];
      policy.Reset();
    }
  }
}
