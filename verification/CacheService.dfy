/// The cache service itself: versions, keys, and one read-through call against a store that other
/// processes may change while the call sleeps.
module CacheService {
  import opened Common
  import opened Redis
  import opened Decimal

  datatype Namespace = Crm | Lms | Inventory

  const STAMPEDE_LOCK_TTL_MS := 5000
  const STAMPEDE_MAX_WAITS := 40
  const VERSION_TTL_SECONDS := 86400

  function NamespaceName(ns: Namespace): string {
    match ns
    case Crm => "crm"
    case Lms => "lms"
    case Inventory => "inventory"
  }

  function VersionKey(tenant: string, ns: Namespace): string {
    "tenant:" + tenant + ":cache:" + NamespaceName(ns) + ":v"
  }

  /// Two keys of the form tenant:...:cache:..., cut behind their tenants.
  lemma TenantPart(tenant: string, rest: string, other: string, otherRest: string)
    requires ':' !in tenant && ':' !in other
    requires "tenant:" + tenant + ":cache:" + rest == "tenant:" + other + ":cache:" + otherRest
    ensures tenant == other && rest == otherRest
  {
    var (a, b) := (tenant + [':'] + ("cache:" + rest), other + [':'] + ("cache:" + otherRest));
    assert ("tenant:" + tenant + ":cache:" + rest)[7..] == a && ("tenant:" + other + ":cache:" + otherRest)[7..] == b;
    CutUnique(tenant, "cache:" + rest, other, "cache:" + otherRest, ':');
    assert ("cache:" + rest)[6..] == rest && ("cache:" + otherRest)[6..] == otherRest;
  }

  lemma NamesDiffer(a: Namespace, b: Namespace)
    ensures NamespaceName(a) == NamespaceName(b) ==> a == b
    ensures ':' !in NamespaceName(a)
  {
    assert NamespaceName(Crm)[0] == 'c' && NamespaceName(Lms)[0] == 'l' && NamespaceName(Inventory)[0] == 'i';
  }

  /// The version keys of a tenant's namespaces differ.
  lemma VersionKeysDiffer(tenant: string, a: Namespace, b: Namespace)
    ensures VersionKey(tenant, a) == VersionKey(tenant, b) ==> a == b
  {
    var n := |"tenant:" + tenant + ":cache:"|;
    assert VersionKey(tenant, a)[n] == NamespaceName(a)[0];
    assert VersionKey(tenant, b)[n] == NamespaceName(b)[0];
  }

  /// And no tenant counts on another's version.
  lemma VersionKeysTell(tenant: string, ns: Namespace, other: string, otherNs: Namespace)
    requires ':' !in tenant && ':' !in other
    ensures VersionKey(tenant, ns) == VersionKey(other, otherNs) <==> tenant == other && ns == otherNs
  {
    if VersionKey(tenant, ns) == VersionKey(other, otherNs) {
      var (rest, otherRest) := (NamespaceName(ns) + ":v", NamespaceName(otherNs) + ":v");
      assert VersionKey(tenant, ns) == "tenant:" + tenant + ":cache:" + rest;
      assert VersionKey(other, otherNs) == "tenant:" + other + ":cache:" + otherRest;
      TenantPart(tenant, rest, other, otherRest);
      VersionKeysDiffer(tenant, ns, otherNs);
    }
  }

  /// Redis keeps a value without a positive TTL for good.
  function Lifetime(ttlSeconds: nat): Option<int> {
    if ttlSeconds > 0 then Some(ttlSeconds * 1000) else None
  }

  function Join(parts: seq<string>): string {
    if parts == [] then "" else
    var part := if parts[0] == "" then "_" else parts[0];
    if |parts| == 1 then part else part + ":" + Join(parts[1..])
  }

  function CacheKey(tenant: string, ns: Namespace, version: nat, parts: seq<string>): string {
    "tenant:" + tenant + ":cache:" + NamespaceName(ns) + ":" + (Show(version) + ":" + Join(parts))
  }

  /// Bumping the version leaves no way to name an old entry, whatever the other parts are.
  lemma OldKeysAreUnreachable(tenant: string, ns: Namespace, v: nat, w: nat, parts: seq<string>, others: seq<string>)
    ensures CacheKey(tenant, ns, v, parts) == CacheKey(tenant, ns, w, others) ==> v == w && Join(parts) == Join(others)
  {
    var prefix := "tenant:" + tenant + ":cache:" + NamespaceName(ns) + ":";
    var a, b := CacheKey(tenant, ns, v, parts), CacheKey(tenant, ns, w, others);
    if a == b {
      assert a[|prefix|..] == Show(v) + [':'] + Join(parts);
      assert b[|prefix|..] == Show(w) + [':'] + Join(others);
      CutUnique(Show(v), Join(parts), Show(w), Join(others), ':');
      ShowInjective(v, w);
    }
  }

  /// The parts as they stand in a key.
  function Plain(parts: seq<string>): seq<string> {
    seq(|parts|, i requires 0 <= i < |parts| => if parts[i] == "" then "_" else parts[i])
  }

  predicate WithoutColons(parts: seq<string>) {
    forall i | 0 <= i < |parts| :: ':' !in parts[i]
  }

  lemma PlainHead(parts: seq<string>)
    requires parts != []
    ensures Plain(parts) == [if parts[0] == "" then "_" else parts[0]] + Plain(parts[1..])
  {
  }

  lemma {:induction false} JoinColons(parts: seq<string>)
    requires WithoutColons(parts) && parts != []
    ensures Join(parts) != "" && (':' in Join(parts) <==> |parts| > 1)
  {
    if |parts| > 1 {
      var head := if parts[0] == "" then "_" else parts[0];
      assert Join(parts)[|head|] == ':';
    }
  }

  /// For parts without colons the joined text tells the parts, up to empty ones and underscores.
  lemma {:induction false} JoinTells(parts: seq<string>, others: seq<string>)
    requires WithoutColons(parts) && WithoutColons(others)
    ensures Join(parts) == Join(others) <==> Plain(parts) == Plain(others)
    decreases |parts|
  {
    if parts == [] || others == [] {
      if parts != [] {
        JoinColons(parts);
      }
      if others != [] {
        JoinColons(others);
      }
    } else {
      PlainHead(parts);
      PlainHead(others);
      JoinColons(parts);
      JoinColons(others);
      JoinTells(parts[1..], others[1..]);
      var (head, other) := (if parts[0] == "" then "_" else parts[0], if others[0] == "" then "_" else others[0]);
      if |parts| > 1 && |others| > 1 {
        JoinCut(head, Join(parts[1..]), other, Join(others[1..]));
        ConsTells(head, Plain(parts[1..]), other, Plain(others[1..]));
      } else {
        SinglesTell(parts, others);
      }
    }
  }

  lemma ConsTells<T>(a: T, b: seq<T>, c: T, d: seq<T>)
    ensures [a] + b == [c] + d <==> a == c && b == d
  {
    if [a] + b == [c] + d {
      assert ([a] + b)[0] == ([c] + d)[0] && ([a] + b)[1..] == b && ([c] + d)[1..] == d;
    }
  }

  lemma JoinCut(a: string, b: string, c: string, d: string)
    requires ':' !in a && ':' !in c
    ensures a + ":" + b == c + ":" + d <==> a == c && b == d
  {
    if a + ":" + b == c + ":" + d {
      CutUnique(a, b, c, d, ':');
    }
  }

  lemma SinglesTell(parts: seq<string>, others: seq<string>)
    requires parts != [] && others != [] && WithoutColons(parts) && WithoutColons(others)
    requires |parts| == 1 || |others| == 1
    ensures Join(parts) == Join(others) <==> Plain(parts) == Plain(others)
  {
    JoinColons(parts);
    JoinColons(others);
    PlainHead(parts);
    PlainHead(others);
    assert |Plain(parts)| == |parts| && |Plain(others)| == |others|;
  }

  /// A cache key tells everything it was made of: no tenant, namespace, version or list of parts ever meets
  /// another's entry.
  lemma KeysTell(tenant: string, ns: Namespace, v: nat, parts: seq<string>,
                 other: string, otherNs: Namespace, w: nat, others: seq<string>)
    requires ':' !in tenant && ':' !in other && WithoutColons(parts) && WithoutColons(others)
    ensures CacheKey(tenant, ns, v, parts) == CacheKey(other, otherNs, w, others)
            <==> tenant == other && ns == otherNs && v == w && Plain(parts) == Plain(others)
  {
    hide *;
    JoinTells(parts, others);
    KeySpelled(tenant, ns, v, parts);
    KeySpelled(other, otherNs, w, others);
    var (a, b) := (Show(v) + [':'] + Join(parts), Show(w) + [':'] + Join(others));
    if CacheKey(tenant, ns, v, parts) == CacheKey(other, otherNs, w, others) {
      TenantPart(tenant, NamespaceName(ns) + [':'] + a, other, NamespaceName(otherNs) + [':'] + b);
      NamesDiffer(ns, otherNs);
      NamesDiffer(otherNs, ns);
      CutUnique(NamespaceName(ns), a, NamespaceName(otherNs), b, ':');
      NoColonInDigits(Show(v));
      NoColonInDigits(Show(w));
      CutUnique(Show(v), Join(parts), Show(w), Join(others), ':');
      ShowInjective(v, w);
    }
  }

  lemma KeySpelled(tenant: string, ns: Namespace, v: nat, parts: seq<string>)
    ensures CacheKey(tenant, ns, v, parts)
            == "tenant:" + tenant + ":cache:" + (NamespaceName(ns) + [':'] + (Show(v) + [':'] + Join(parts)))
  {
    hide NamespaceName, Show, Join;
  }

  lemma NoColonInDigits(s: string)
    requires AllDigits(s)
    ensures ':' !in s
  {
  }

  datatype Fetched = Hit(value: string) | Computed(value: string) | Threw

  datatype Memo = Memo(value: Value, expiresAt: int)

  /// The first cached text under `key` in what the store looks like after each sleep.
  function FirstHit(world: seq<Store>, key: string): Option<string> {
    if world == [] then None
    else if Get(world[0], key).Some? && Get(world[0], key).value.Text? then Some(Get(world[0], key).value.s)
    else FirstHit(world[1..], key)
  }

  lemma {:induction false} NoHitYet(world: seq<Store>, key: string, n: nat)
    requires n < |world| && FirstHit(world[..n], key).None?
    ensures
      var here := Get(world[n], key);
      && (here.Some? && here.value.Text? ==> FirstHit(world, key) == Some(here.value.s))
      && (!(here.Some? && here.value.Text?) ==> FirstHit(world[..n + 1], key).None?)
    decreases n
  {
    if n > 0 {
      assert world[1..][..n - 1] == world[..n][1..];
      assert world[1..][..n] == world[..n + 1][1..];
      NoHitYet(world[1..], key, n - 1);
    } else {
      assert world[..1][1..] == [];
    }
  }

  class CacheService {
    const redis: RedisService
    var memory: map<string, Memo>

    constructor (redis: RedisService)
      ensures this.redis == redis && memory == map[]
    {
      this.redis, this.memory := redis, map[];
    }

    function VersionOf(tenant: string, ns: Namespace): int
      reads this, redis
    {
      var raw := if redis.ready then Get(redis.store, VersionKey(tenant, ns)) else None;
      if raw.Some? then (if raw.value.Num? then raw.value.n else 0)
      else if VersionKey(tenant, ns) in memory && memory[VersionKey(tenant, ns)].value.Num?
      then memory[VersionKey(tenant, ns)].value.n
      else 0
    }

    method GetVersion(tenant: string, ns: Namespace) returns (version: int)
      ensures version == VersionOf(tenant, ns)
    {
      var key := VersionKey(tenant, ns);
      var raw := redis.GetKey(key);
      if raw.Some? {
        return if raw.value.Num? then raw.value.n else 0;
      }
      version := if key in memory && memory[key].value.Num? then memory[key].value.n else 0;
    }

    method BuildKey(tenant: string, ns: Namespace, parts: seq<string>) returns (key: string)
      requires VersionOf(tenant, ns) >= 0
      ensures key == CacheKey(tenant, ns, VersionOf(tenant, ns), parts)
    {
      var version := GetVersion(tenant, ns);
      key := CacheKey(tenant, ns, version, parts);
    }

    /// A version key is usable when Redis holds a number under it, or nothing and no leftover from
    /// a time without Redis.
    predicate Countable(tenant: string, ns: Namespace)
      reads this, redis
    {
      redis.ready ==>
        match Get(redis.store, VersionKey(tenant, ns))
        case None => VersionKey(tenant, ns) !in memory
        case Some(v) => v.Num?
    }

    /// What is kept under `key`, in memory and in Redis.
    function Kept(key: string): (Option<Memo>, Option<Entry>)
      reads this, redis
    {
      (if key in memory then Some(memory[key]) else None,
       if key in redis.store.keys then Some(redis.store.keys[key]) else None)
    }

    /// Bumps each named namespace once, however often it is named, and no other.
    method Invalidate(tenant: string, namespaces: seq<Namespace>, now: int)
      modifies this`memory, redis`store
      ensures forall ns | old(Countable(tenant, ns)) ::
        VersionOf(tenant, ns) == old(VersionOf(tenant, ns)) + if ns in namespaces then 1 else 0
      ensures forall ns | ns in namespaces && redis.ready && old(Countable(tenant, ns)) ::
        && Live(redis.store, VersionKey(tenant, ns))
        && redis.store.keys[VersionKey(tenant, ns)].expiresAt == Some(redis.store.now + 86_400_000)
      ensures forall key | forall ns | ns in namespaces :: key != VersionKey(tenant, ns) :: Kept(key) == old(Kept(key))
    {
      hide VersionOf, Countable, VersionKey, Kept;
      var done: set<Namespace> := {};
      for i := 0 to |namespaces|
        invariant redis.store.now == old(redis.store.now)
        invariant done == set j | 0 <= j < i :: namespaces[j]
        invariant redis.ready ==> memory == old(memory)
        invariant forall key | forall ns | ns in done :: key != VersionKey(tenant, ns) :: Kept(key) == old(Kept(key))
        invariant forall ns | old(Countable(tenant, ns)) :: Countable(tenant, ns)
        invariant forall ns | old(Countable(tenant, ns)) ::
          VersionOf(tenant, ns) == old(VersionOf(tenant, ns)) + if ns in done then 1 else 0
        invariant forall ns | ns in done && redis.ready && old(Countable(tenant, ns)) ::
          && Live(redis.store, VersionKey(tenant, ns))
          && redis.store.keys[VersionKey(tenant, ns)].expiresAt == Some(redis.store.now + VERSION_TTL_SECONDS * 1000)
      {
        if namespaces[i] !in done {
          BumpVersion(tenant, namespaces[i], now);
          done := done + {namespaces[i]};
        }
      }
    }

    method BumpVersion(tenant: string, ns: Namespace, now: int)
      modifies this`memory, redis`store
      ensures redis.store.now == old(redis.store.now)
      ensures redis.ready ==> memory == old(memory)
      ensures forall key | key != VersionKey(tenant, ns) :: Kept(key) == old(Kept(key))
      ensures forall other | old(Countable(tenant, other)) :: Countable(tenant, other)
      ensures forall other | other != ns :: VersionOf(tenant, other) == old(VersionOf(tenant, other))
      ensures forall other | other != ns && old(Live(redis.store, VersionKey(tenant, other))) ::
        && Live(redis.store, VersionKey(tenant, other))
        && redis.store.keys[VersionKey(tenant, other)] == old(redis.store.keys[VersionKey(tenant, other)])
      ensures old(Countable(tenant, ns)) ==> VersionOf(tenant, ns) == old(VersionOf(tenant, ns)) + 1
      ensures redis.ready && old(Countable(tenant, ns)) ==>
        && Live(redis.store, VersionKey(tenant, ns))
        && redis.store.keys[VersionKey(tenant, ns)].expiresAt == Some(redis.store.now + VERSION_TTL_SECONDS * 1000)
    {
      forall a, b {
        VersionKeysDiffer(tenant, a, b);
      }
      hide VersionKey;
      var key := VersionKey(tenant, ns);
      if redis.ready {
        var count := redis.Incr(key);
        if count.Some? {
          redis.ExpireKey(key, VERSION_TTL_SECONDS);
        }
      } else {
        var current := GetVersion(tenant, ns);
        memory := memory[key := Memo(Num(current + 1), now + VERSION_TTL_SECONDS * 1000)];
      }
    }

    /// What a read of `key` finds at `now`.
    function Cached(key: string, now: int): Option<string>
      reads this, redis
    {
      if redis.ready then
        (match Get(redis.store, key)
         case Some(Text(raw)) => Some(raw)
         case _ => None)
      else if key in memory && now <= memory[key].expiresAt && memory[key].value.Text?
      then Some(memory[key].value.s)
      else None
    }

    method ReadJson(key: string, now: int) returns (value: Option<string>)
      modifies this`memory
      ensures value == old(Cached(key, now))
      ensures memory == if redis.ready || key !in old(memory) || now <= old(memory)[key].expiresAt
        then old(memory) else old(memory) - {key}
    {
      if redis.ready {
        var raw := redis.GetKey(key);
        return if raw.Some? && raw.value.Text? then Some(raw.value.s) else None;
      }
      if key !in memory {
        return None;
      }
      if memory[key].expiresAt < now {
        memory := memory - {key};
        return None;
      }
      value := if memory[key].value.Text? then Some(memory[key].value.s) else None;
    }

    method WriteJson(key: string, value: string, ttlSeconds: nat, now: int)
      modifies this`memory, redis`store
      ensures redis.ready ==>
        redis.store == Set(old(redis.store), key, Text(value), Lifetime(ttlSeconds)) && memory == old(memory)
      ensures !redis.ready ==>
        memory == old(memory)[key := Memo(Text(value), now + ttlSeconds * 1000)] && redis.store == old(redis.store)
    {
      if redis.ready {
        redis.SetKey(key, Text(value), Some(ttlSeconds));
        return;
      }
      memory := memory[key := Memo(Text(value), now + ttlSeconds * 1000)];
    }

    /// `world` is the store as the other processes leave it after each of this call's sleeps, and
    /// `produced` is what the producer would compute, or None if it throws. The call returns the cached
    /// value, or waits for the lock holder's, or computes: at most one of those, and it stores only what
    /// it computed. Its lock is free afterwards even if the producer throws.
    method GetOrSet(key: string, produced: Option<string>, ttlSeconds: nat, token: string, now: int, world: seq<Store>)
      returns (fetched: Fetched)
      requires |world| == 40
      modifies this`memory, redis`store
      ensures old(Cached(key, now)).Some? ==>
        fetched == Hit(old(Cached(key, now)).value) && redis.store == old(redis.store) && memory == old(memory)
      ensures old(Cached(key, now)).None? && fetched.Computed? ==> produced == Some(fetched.value)
      ensures old(Cached(key, now)).None? && fetched.Threw? ==> produced.None?
      ensures !redis.ready && old(Cached(key, now)).None? ==>
        && !fetched.Hit? && (fetched.Computed? <==> produced.Some?) && Cached(key, now) == produced
        && redis.store == old(redis.store) && memory - {key} == old(memory) - {key}
        && (produced.Some? ==> key in memory && memory[key] == Memo(Text(produced.value), now + ttlSeconds * 1000))
      ensures redis.ready && old(Cached(key, now)).None? && !old(Live(redis.store, key + ":lock")) ==>
        && fetched == (if produced.Some? then Computed(produced.value) else Threw) && Cached(key, now) == produced
        && memory == old(memory) && redis.store.now == old(redis.store.now)
        && (redis.store.keys - {key} == old(redis.store.keys) - {key + ":lock", key})
        && (produced.Some? ==> key in redis.store.keys && redis.store.keys[key] == Entry(Text(produced.value),
             if ttlSeconds > 0 then Some(redis.store.now + ttlSeconds * 1000) else None))
      ensures redis.ready && old(Cached(key, now)).None? && old(Live(redis.store, key + ":lock")) ==>
        match FirstHit(world, key)
        case Some(hit) => fetched == Hit(hit)
        case None => !fetched.Hit? && (fetched.Computed? <==> produced.Some?)
                     && redis.store == if produced.None? then world[|world| - 1]
                          else Set(world[|world| - 1], key, Text(produced.value), Lifetime(ttlSeconds))
    {
      var cached := ReadJson(key, now);
      if cached.Some? {
        return Hit(cached.value);
      }
      var lockKey := key + ":lock";
      assert lockKey != key by { assert |lockKey| == |key| + 5; }
      var acquired := redis.TryLock(lockKey, token, STAMPEDE_LOCK_TTL_MS);
      if acquired {
        fetched := ComputeAndStore(key, produced, ttlSeconds, now);
        redis.ReleaseLock(lockKey, token);
        return;
      }
      for i := 0 to STAMPEDE_MAX_WAITS
        invariant redis.ready
        invariant FirstHit(world[..i], key).None?
        invariant i > 0 ==> redis.store == world[i - 1]
      {
        redis.store := world[i];
        NoHitYet(world, key, i);
        var again := ReadJson(key, now);
        if again.Some? {
          return Hit(again.value);
        }
      }
      assert world[..STAMPEDE_MAX_WAITS] == world;
      fetched := ComputeAndStore(key, produced, ttlSeconds, now);
    }

    method ComputeAndStore(key: string, produced: Option<string>, ttlSeconds: nat, now: int) returns (fetched: Fetched)
      modifies this`memory, redis`store
      ensures produced.None? ==> fetched.Threw? && memory == old(memory) && redis.store == old(redis.store)
      ensures produced.Some? ==> fetched == Computed(produced.value)
      ensures produced.Some? && redis.ready ==>
        redis.store == Set(old(redis.store), key, Text(produced.value), Lifetime(ttlSeconds)) && memory == old(memory)
      ensures produced.Some? && !redis.ready ==>
        memory == old(memory)[key := Memo(Text(produced.value), now + ttlSeconds * 1000)] && redis.store == old(redis.store)
    {
      if produced.None? {
        return Threw;
      }
      WriteJson(key, produced.value, ttlSeconds, now);
      return Computed(produced.value);
    }
  }

  /// A cached text is found until its time is over and not a millisecond longer, in Redis and in memory.
  lemma CachedForItsLifetime(c: CacheService, key: string, value: string, until: int, now: int)
    requires c.redis.ready ==>
      key in c.redis.store.keys && c.redis.store.keys[key] == Entry(Text(value), Some(until)) && c.redis.store.now == now
    requires !c.redis.ready ==> key in c.memory && c.memory[key] == Memo(Text(value), until)
    ensures c.Cached(key, now) == if now <= until then Some(value) else None
  {
  }
}
