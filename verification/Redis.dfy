/// The Redis commands the services rely on, each atomic, with key expiry on a shared clock.
module Redis {
  import opened Common

  datatype Value = Num(n: int) | Text(s: string)

  datatype Entry = Entry(value: Value, expiresAt: Option<int>)

  /// `now` is in milliseconds. An expired entry may linger; it is never seen.
  datatype Store = Store(now: int, keys: map<string, Entry>)

  predicate Live(s: Store, key: string) {
    key in s.keys && (s.keys[key].expiresAt.Some? ==> s.now <= s.keys[key].expiresAt.value)
  }

  function Get(s: Store, key: string): Option<Value> {
    if Live(s, key) then Some(s.keys[key].value) else None
  }

  function Set(s: Store, key: string, value: Value, ttlMs: Option<int>): Store {
    s.(keys := s.keys[key := Entry(value, if ttlMs.Some? then Some(s.now + ttlMs.value) else None)])
  }

  /// INCRBY: a missing key counts as zero and keeps no expiry; a text value is an error.
  function IncrBy(s: Store, key: string, delta: int): (Store, Option<int>) {
    if !Live(s, key) then (Set(s, key, Num(delta), None), Some(delta))
    else if s.keys[key].value.Text? then (s, None)
    else
      var n := s.keys[key].value.n + delta;
      (s.(keys := s.keys[key := s.keys[key].(value := Num(n))]), Some(n))
  }

  function Expire(s: Store, key: string, ttlMs: int): Store {
    if Live(s, key) then s.(keys := s.keys[key := s.keys[key].(expiresAt := Some(s.now + ttlMs))]) else s
  }

  function Del(s: Store, key: string): Store {
    s.(keys := s.keys - {key})
  }

  /// SET key value NX PX ttl.
  function SetNxPx(s: Store, key: string, value: Value, ttlMs: int): (Store, bool) {
    if Live(s, key) then (s, false) else (Set(s, key, value, Some(ttlMs)), true)
  }

  /// The compare-and-delete script behind releaseLock.
  function CompareAndDelete(s: Store, key: string, value: Value): Store {
    if Get(s, key) == Some(value) then Del(s, key) else s
  }

  function Advance(s: Store, ms: nat): Store {
    s.(now := s.now + ms)
  }

  /// The thin client wrapper. While no connection is ready reads find nothing, writes are dropped
  /// and locks are granted to everyone.
  class RedisService {
    var ready: bool
    var store: Store

    constructor (ready: bool, store: Store)
      ensures this.ready == ready && this.store == store
    {
      this.ready, this.store := ready, store;
    }

    method GetKey(key: string) returns (value: Option<Value>)
      ensures value == if ready then Get(store, key) else None
    {
      if !ready {
        return None;
      }
      value := Get(store, key);
    }

    method SetKey(key: string, value: Value, ttlSeconds: Option<int>)
      modifies this`store
      ensures store == if !ready then old(store)
        else if ttlSeconds.Some? && ttlSeconds.value > 0 then Set(old(store), key, value, Some(ttlSeconds.value * 1000))
        else Set(old(store), key, value, None)
    {
      if !ready {
        return;
      }
      if ttlSeconds.Some? && ttlSeconds.value > 0 {
        store := Set(store, key, value, Some(ttlSeconds.value * 1000));
        return;
      }
      store := Set(store, key, value, None);
    }

    method Incr(key: string) returns (count: Option<int>)
      modifies this`store
      ensures (store, count) == if ready then IncrBy(old(store), key, 1) else (old(store), Some(0))
      ensures ready && count.Some? ==>
        && Get(store, key) == Some(Num(count.value))
        && old(Get(store, key)) == (if old(Live(store, key)) then Some(Num(count.value - 1)) else None)
        && (!old(Live(store, key)) ==> count.value == 1 && store.keys[key].expiresAt.None?)
        && (old(Live(store, key)) ==> store.keys[key].expiresAt == old(store).keys[key].expiresAt)
    {
      if !ready {
        return Some(0);
      }
      var r := IncrBy(store, key, 1);
      store, count := r.0, r.1;
    }

    method Decr(key: string) returns (count: Option<int>)
      modifies this`store
      ensures (store, count) == if ready then IncrBy(old(store), key, -1) else (old(store), Some(0))
    {
      if !ready {
        return Some(0);
      }
      var r := IncrBy(store, key, -1);
      store, count := r.0, r.1;
    }

    method ExpireKey(key: string, ttlSeconds: int)
      modifies this`store
      ensures store == if ready then Expire(old(store), key, ttlSeconds * 1000) else old(store)
    {
      if ready {
        store := Expire(store, key, ttlSeconds * 1000);
      }
    }

    method TryLock(key: string, token: string, ttlMs: int) returns (acquired: bool)
      modifies this`store
      ensures (store, acquired) == if ready then SetNxPx(old(store), key, Text(token), ttlMs) else (old(store), true)
      ensures acquired <==> !(ready && old(Live(store, key)))
      ensures ready && acquired ==> store.keys[key] == Entry(Text(token), Some(store.now + ttlMs))
    {
      if !ready {
        return true;
      }
      var r := SetNxPx(store, key, Text(token), ttlMs);
      store, acquired := r.0, r.1;
    }

    method ReleaseLock(key: string, token: string)
      modifies this`store
      ensures store == if ready then CompareAndDelete(old(store), key, Text(token)) else old(store)
      ensures ready ==>
        && (Live(store, key) <==> old(Live(store, key)) && old(Get(store, key)) != Some(Text(token)))
        && (Live(store, key) ==> Get(store, key) == old(Get(store, key)))
    {
      if ready {
        store := CompareAndDelete(store, key, Text(token));
      }
    }
  }
}
