/** The class bdb_bw_map (provider/bdb_bw_map.cpp): the calls of one client and the turns of
    the writer thread, proved against the steps of PageStore. */
module PageService {
  import opened Basics
  import opened LruCache
  import opened CacheService
  import opened PageStore

  class BdbBwMap {
    const cache: CacheMt<Key, Value>
    var db: map<Key, Value>
    var spaceLeft: nat
    var writeQueue: seq<Item>
    var hand: Option<Item>
    ghost var history: seq<Item>
    ghost var lost: set<Key>

    /** Between calls nothing is half evicted or half fetched. */
    ghost function Model(): Store
      reads this, cache, cache.policy
    {
      Store(cache.Model(), [], writeQueue, hand, db, [], spaceLeft, history, lost)
    }

    ghost predicate Valid(space: nat)
      reads this, cache, cache.policy
    {
      cache.Valid() && Inv(Model(), space)
    }

    constructor (cacheSize: nat, space: nat)
      ensures Valid(space) && Model() == Init(cacheSize, space)
      ensures fresh(cache) && fresh(cache.policy)
    {
      cache := new CacheMt(cacheSize);
      db, spaceLeft, writeQueue, hand := map[], space, [], None;
      history, lost := [], {};
      new;
      InitInv(cacheSize, space);
    }

    /** The evict callback. */
    method Evict(e: Option<Item>)
      modifies this`writeQueue
      ensures writeQueue == old(writeQueue) + ToSeq(e)
    {
      if e.Some? {
        writeQueue := writeQueue + [e.value];
      }
    }

    /** Evicting at once is a cache write followed by a push. */
    ghost function Settle(s: Store): Store
      requires |s.evicting| <= 1
    {
      if s.evicting == [] then s else Next(s, Step.Push(0))
    }

    lemma SettleIs(s: Store)
      requires |s.evicting| <= 1
      ensures Settle(s) == s.(evicting := [], writeQueue := s.writeQueue + s.evicting)
    {
      if s.evicting == [] {
        assert s.writeQueue + s.evicting == s.writeQueue;
      } else {
        assert s.evicting == [s.evicting[0]] && Remove(s.evicting, 0) == [];
      }
    }

    /** A settled cache write, with its counts of history and space left to the caller. */
    lemma CacheWriteSettles(s: Store, k: Key, v: Value, dirty: bool)
      requires s.evicting == []
      ensures CacheWrite(s, k, v, dirty).evicting == ToSeq(Handed(s.cache, k))
    {
      assert [] + ToSeq(Handed(s.cache, k)) == ToSeq(Handed(s.cache, k));
    }

    /** A database answer is filled into the cache at once. */
    lemma FillAtOnce(s: Store, k: Key)
      requires s.evicting == [] && s.fetched == [] && k in s.db
      ensures var t := Next(Next(s, DbGet(k)), Fill(0));
              t == s.(cache := WriteTo(s.cache, k, s.db[k], false), evicting := ToSeq(Handed(s.cache, k)))
    {
      hide WriteTo, Handed;
      assert [] + [(k, s.db[k])] == [(k, s.db[k])] && Remove([(k, s.db[k])], 0) == [];
      CacheWriteSettles(s, k, s.db[k], false);
    }

    lemma SettleInv(s: Store, space: nat)
      requires Inv(s, space) && |s.evicting| <= 1
      ensures Inv(Settle(s), space)
    {
      hide Inv;
      if s.evicting != [] {
        StepInv(s, Step.Push(0), space);
      }
    }

    /** write: refused without space; otherwise a cache write, whose victim is queued. */
    method Write(key: Key, value: Value, ghost space: nat) returns (ok: bool)
      requires Valid(space) && key !in Accepted(history)
      modifies this, cache, cache.policy
      ensures Valid(space)
      ensures ok <==> AcceptsWrite(old(Model()), key, value)
      ensures ok <==> old(cache.Model().capacity) > 0 && |value| <= old(spaceLeft)
      ensures history == if ok then old(history) + [(key, value)] else old(history)
      ensures spaceLeft == if ok then old(spaceLeft) - |value| else old(spaceLeft)
      ensures Model() == Settle(Next(old(Model()), Step.Write(key, value)))
    {
      hide Inv, WriteTo, Handed, Accepts, LruCache.Valid;
      ghost var s := Model();
      CacheIsValid(s, space);
      WriteKeepsValid(s.cache, key, value, true);
      StepInv(s, Step.Write(key, value), space);
      CacheWriteSettles(s, key, value, true);
      SettleInv(Next(s, Step.Write(key, value)), space);
      SettleIs(Next(s, Step.Write(key, value)));
      if |value| > spaceLeft {
        return false;
      }
      var evicted;
      ok, evicted := cache.Write(key, value, true);
      Evict(evicted);
      if ok {
        spaceLeft := spaceLeft - |value|;
        history := history + [(key, value)];
      }
    }

    /** read: the cache first, then the database, whose answer is cached clean. */
    method Read(key: Key, ghost space: nat) returns (value: Option<Value>)
      requires Valid(space)
      modifies this, cache, cache.policy
      ensures Valid(space)
      ensures history == old(history) && spaceLeft == old(spaceLeft) && db == old(db) && lost == old(lost)
      ensures value.Some? ==> key in Accepted(history) && value.value == Accepted(history)[key]
      ensures value.Some? ==> key in cache.Model().entries
      ensures value.None? && key in Accepted(history) ==>
        InTransit(old(Model()), key) + If(key in old(lost)) == 1
    {
      hide Inv, WriteTo, Handed, Accepts, LruCache.Valid, Accepted, ReadFrom;
      ghost var s := Model();
      StepInv(s, ReadCache(key), space);
      LookupFacts(s, key, space);
      value := cache.Read(key);
      if value.Some? {
        return;
      }
      if key !in db {
        return None;
      }
      ghost var t := Next(s, ReadCache(key));
      StepInv(t, DbGet(key), space);
      StepInv(Next(t, DbGet(key)), Fill(0), space);
      FillAtOnce(t, key);
      SettleInv(Next(Next(t, DbGet(key)), Fill(0)), space);
      SettleIs(Next(Next(t, DbGet(key)), Fill(0)));
      ghost var c := cache.Model();
      CacheIsValid(t, space);
      WriteKeepsValid(c, key, db[key], false);
      value := Some(db[key]);
      var ok, evicted := cache.Write(key, db[key], false);
      Evict(evicted);
      if !ok {
        return None;
      }
    }

    lemma CacheIsValid(s: Store, space: nat)
      requires Inv(s, space)
      ensures LruCache.Valid(s.cache) && (s.cache.capacity == 0 ==> Accepted(s.history) == map[])
    {
    }

    lemma LookupFacts(s: Store, key: Key, space: nat)
      requires Inv(s, space)
      ensures key in s.cache.entries ==> key in Accepted(s.history) && s.cache.entries[key].value == Accepted(s.history)[key]
      ensures key in s.db ==> key in Accepted(s.history) && s.db[key] == Accepted(s.history)[key]
      ensures key in Accepted(s.history) && key !in s.cache.entries && key !in s.db ==> InTransit(s, key) + If(key in s.lost) == 1
    {
      hide Accepted, InTransit;
      assert Places(s, key) == If(key in Accepted(s.history));
    }

    /** write_exec, first block; the thread waits while the queue is empty. */
    method WriterTake(ghost space: nat)
      requires Valid(space) && writeQueue != [] && hand == None
      modifies this
      ensures Valid(space) && Model() == Next(old(Model()), Take)
      ensures hand == Some(old(writeQueue)[0]) && writeQueue == old(writeQueue)[1..]
    {
      hide Inv, LruCache.Valid;
      StepInv(Model(), Take, space);
      hand := Some(writeQueue[0]);
      writeQueue := writeQueue[1..];
    }

    /** write_exec, second block; a failing put is logged and forgotten. */
    method WriterPut(ghost space: nat, works: bool)
      requires Valid(space) && hand.Some?
      modifies this
      ensures Valid(space) && Model() == Next(old(Model()), if works then Put else PutFails)
      ensures hand == None
      ensures db == if works then old(db)[old(hand).value.0 := old(hand).value.1] else old(db)
    {
      hide Inv, LruCache.Valid;
      StepInv(Model(), if works then Put else PutFails, space);
      if works {
        db := db[hand.value.0 := hand.value.1];
      } else {
        lost := lost + {hand.value.0};
      }
      hand := None;
    }
  }
}
