/// The per-tenant API rate limit: one counter per tenant and minute bucket, compared with the
/// plan's requests per minute. Times are milliseconds.
module RateLimit {
  import opened Common

  const MINUTE_MS := 60_000
  const DAY_MS := 86_400_000
  const MINUTE_TTL_SECONDS := 120
  const DAY_TTL_SECONDS := 86400 * 2
  const MINUTE_TTL_MS := MINUTE_TTL_SECONDS * 1000

  datatype Key = Minute(tenant: string, bucket: int) | Day(tenant: string, day: int)

  /// In Redis mode a counter has no expiry until the caller that created it sets one.
  datatype Counter = Counter(count: nat, expiresAt: Option<int>)

  type Counters = map<Key, Counter>

  function MinuteKey(tenant: string, now: int): Key {
    Minute(tenant, now / MINUTE_MS)
  }

  function DayKey(tenant: string, now: int): Key {
    Day(tenant, now / DAY_MS)
  }

  predicate Current(c: Counters, key: Key, now: int) {
    key in c && (c[key].expiresAt.Some? ==> now <= c[key].expiresAt.value)
  }

  function Count(c: Counters, key: Key, now: int): nat {
    if Current(c, key, now) then c[key].count else 0
  }

  /// The counter after one increment; a new one gets `expiry`.
  function Bump(c: Counters, key: Key, now: int, expiry: Option<int>): Counters {
    c[key := if Current(c, key, now) then c[key].(count := c[key].count + 1) else Counter(1, expiry)]
  }

  // ----- The services, one call at a time, in the in-process mode -----------------------------------

  class TenantUsageService {
    var memory: Counters

    constructor ()
      ensures memory == map[]
    {
      memory := map[];
    }

    method MemoryIncr(key: Key, ttlSeconds: nat, now: int) returns (count: nat)
      modifies this
      ensures count == Count(old(memory), key, now) + 1 == Count(memory, key, now)
      ensures memory == Bump(old(memory), key, now, Some(now + ttlSeconds * 1000))
    {
      if key !in memory || (memory[key].expiresAt.Some? && memory[key].expiresAt.value < now) {
        memory := memory[key := Counter(1, Some(now + ttlSeconds * 1000))];
        return 1;
      }
      count := memory[key].count + 1;
      memory := memory[key := memory[key].(count := count)];
    }

    method RecordApiCall(tenant: string, now: int) returns (minuteCount: nat)
      modifies this
      ensures minuteCount == Count(old(memory), MinuteKey(tenant, now), now) + 1
      ensures memory
        == Bump(Bump(old(memory), Minute(tenant, now / 60_000), now, Some(now + 120_000)),
                Day(tenant, now / 86_400_000), now, Some(now + 172_800_000))
    {
      minuteCount := MemoryIncr(MinuteKey(tenant, now), MINUTE_TTL_SECONDS, now);
      var dayCount := MemoryIncr(DayKey(tenant, now), DAY_TTL_SECONDS, now);
    }
  }

  class TenantRateLimitGuard {
    const usage: TenantUsageService

    constructor (usage: TenantUsageService)
      ensures this.usage == usage
    {
      this.usage := usage;
    }

    method CanActivate(isPublic: bool, tenant: Option<string>, rpm: int, now: int) returns (admitted: bool)
      modifies usage
      ensures isPublic || tenant.None? || tenant.value == "" ==> admitted && usage.memory == old(usage.memory)
      ensures !isPublic && tenant.Some? && tenant.value != "" ==>
        && (admitted <==> Count(old(usage.memory), Minute(tenant.value, now / 60_000), now) < rpm)
        && Count(usage.memory, Minute(tenant.value, now / 60_000), now)
           == Count(old(usage.memory), Minute(tenant.value, now / 60_000), now) + 1
        && Count(usage.memory, Day(tenant.value, now / 86_400_000), now)
           == Count(old(usage.memory), Day(tenant.value, now / 86_400_000), now) + 1
    {
      if isPublic || tenant.None? || tenant.value == "" {
        return true;
      }
      var count := usage.RecordApiCall(tenant.value, now);
      return !(count > rpm);
    }
  }

  // ----- Concurrent requests -----------------------------------------------------------------------

  /// A request reads the clock at `readAt` and its increment takes effect at `at`. In Redis mode the
  /// caller that got 1 sets the expiry in a separate command; in memory there is no such command.
  datatype Step = Request(tenant: string, readAt: int, at: int) | SetExpiry(tenant: string, bucket: int, at: int)

  function KeyOf(step: Step): Key {
    match step
    case Request(tenant, readAt, _) => MinuteKey(tenant, readAt)
    case SetExpiry(tenant, bucket, _) => Minute(tenant, bucket)
  }

  function Apply(redis: bool, c: Counters, step: Step): Counters {
    match step
    case Request(_, _, at) => Bump(c, KeyOf(step), at, if redis then None else Some(at + MINUTE_TTL_MS))
    case SetExpiry(_, _, at) =>
      if redis && Current(c, KeyOf(step), at) then c[KeyOf(step) := c[KeyOf(step)].(expiresAt := Some(at + MINUTE_TTL_MS))] else c
  }

  function Run(redis: bool, steps: seq<Step>): Counters {
    if steps == [] then map[] else Apply(redis, Run(redis, steps[..|steps| - 1]), steps[|steps| - 1])
  }

  /// The request that ends `steps` is admitted.
  predicate AdmitsLast(redis: bool, rpm: string -> int, steps: seq<Step>)
    requires steps != [] && steps[|steps| - 1].Request?
  {
    var last := steps[|steps| - 1];
    Count(Run(redis, steps[..|steps| - 1]), KeyOf(last), last.at) + 1 <= rpm(last.tenant)
  }

  /// Requests of one bucket.
  function Requests(steps: seq<Step>, key: Key): nat {
    if steps == [] then 0 else
    var last := steps[|steps| - 1];
    Requests(steps[..|steps| - 1], key) + if last.Request? && KeyOf(last) == key then 1 else 0
  }

  /// Admitted requests of one bucket.
  function Admitted(redis: bool, rpm: string -> int, steps: seq<Step>, key: Key): nat {
    if steps == [] then 0 else
    var last := steps[|steps| - 1];
    Admitted(redis, rpm, steps[..|steps| - 1], key)
    + if last.Request? && KeyOf(last) == key && AdmitsLast(redis, rpm, steps) then 1 else 0
  }

  /// Admitted requests of `tenant` whose clock reading lies in [from, to].
  function AdmittedWithin(redis: bool, rpm: string -> int, steps: seq<Step>, tenant: string, from: int, to: int): nat {
    if steps == [] then 0 else
    var last := steps[|steps| - 1];
    AdmittedWithin(redis, rpm, steps[..|steps| - 1], tenant, from, to)
    + if last.Request? && last.tenant == tenant && from <= last.readAt <= to && AdmitsLast(redis, rpm, steps) then 1 else 0
  }

  // ----- When a bucket's counter counts all its requests -------------------------------------------------

  predicate RequestOf(step: Step, key: Key) {
    step.Request? && KeyOf(step) == key
  }

  /// When the counter of a bucket lapses: two minutes after its first increment; in Redis two minutes
  /// after the last expiry command that still found it, and never before the first one.
  function Deadline(redis: bool, steps: seq<Step>, key: Key): (d: Option<int>)
    ensures d.Some? ==> Requests(steps, key) > 0
  {
    if steps == [] then None else
    var front, last := steps[..|steps| - 1], steps[|steps| - 1];
    var before := Deadline(redis, front, key);
    match last
    case Request(_, _, at) =>
      if KeyOf(last) == key && Requests(front, key) == 0 && !redis then Some(at + MINUTE_TTL_MS) else before
    case SetExpiry(_, _, at) =>
      if redis && KeyOf(last) == key && Requests(front, key) > 0 && (before.None? || at <= before.value)
      then Some(at + MINUTE_TTL_MS) else before
  }

  /// Every increment of the bucket takes effect before its counter lapses.
  predicate OnTime(redis: bool, steps: seq<Step>, key: Key) {
    forall i | 0 <= i < |steps| && RequestOf(steps[i], key) ::
      var d := Deadline(redis, steps[..i], key);
      d.Some? ==> steps[i].at <= d.value
  }

  lemma OnTimeFront(redis: bool, steps: seq<Step>, key: Key)
    requires steps != []
    ensures
      var front, last := steps[..|steps| - 1], steps[|steps| - 1];
      OnTime(redis, steps, key) <==>
        && OnTime(redis, front, key)
        && (RequestOf(last, key) && Deadline(redis, front, key).Some? ==> last.at <= Deadline(redis, front, key).value)
  {
    hide Deadline, RequestOf;
    var front := steps[..|steps| - 1];
    assert forall i | 0 <= i < |front| :: front[i] == steps[i] && front[..i] == steps[..i];
  }

  /// Then the counter is the number of requests, and lapses at the deadline.
  lemma {:induction false} CounterIsExact(redis: bool, steps: seq<Step>, key: Key)
    requires OnTime(redis, steps, key)
    ensures
      var c := Run(redis, steps);
      && (key in c <==> Requests(steps, key) > 0)
      && (key in c ==> c[key] == Counter(Requests(steps, key), Deadline(redis, steps, key)))
  {
    hide OnTime;
    if steps != [] {
      OnTimeFront(redis, steps, key);
      CounterIsExact(redis, steps[..|steps| - 1], key);
    }
  }

  /// The next request of the bucket is counted, or finds the counter lapsed and starts it again.
  lemma NextCount(redis: bool, steps: seq<Step>, key: Key, at: int)
    requires OnTime(redis, steps, key)
    ensures
      var d := Deadline(redis, steps, key);
      Count(Run(redis, steps), key, at) == if d.Some? && d.value < at then 0 else Requests(steps, key)
  {
    hide OnTime, Deadline, Run;
    CounterIsExact(redis, steps, key);
  }

  ghost predicate AdmitsUpToLimit(redis: bool, rpm: string -> int, steps: seq<Step>, key: Key)
    requires key.Minute?
  {
    Admitted(redis, rpm, steps, key) == Min(Max(rpm(key.tenant), 0), Requests(steps, key))
  }

  /// Of the requests of a bucket exactly the first `rpm` are admitted.
  lemma {:induction false} BucketAdmitsUpToLimit(redis: bool, rpm: string -> int, steps: seq<Step>, tenant: string, bucket: int)
    requires OnTime(redis, steps, Minute(tenant, bucket))
    ensures AdmitsUpToLimit(redis, rpm, steps, Minute(tenant, bucket))
  {
    hide OnTime, Deadline, Run;
    if steps != [] {
      var front, last, key := steps[..|steps| - 1], steps[|steps| - 1], Minute(tenant, bucket);
      OnTimeFront(redis, steps, key);
      BucketAdmitsUpToLimit(redis, rpm, front, tenant, bucket);
      if RequestOf(last, key) {
        NextCount(redis, front, key, last.at);
      }
    }
  }

  lemma {:induction false} LateRequestPassesTwice(redis: bool, rpm: string -> int, steps: seq<Step>, tenant: string, bucket: int)
    requires rpm(tenant) == 1 && !OnTime(redis, steps, Minute(tenant, bucket))
    ensures Admitted(redis, rpm, steps, Minute(tenant, bucket)) >= 2
  {
    hide OnTime, Deadline, Run;
    var key := Minute(tenant, bucket);
    assert steps != [] by {
      if steps == [] {
        NothingIsLate(redis, key);
      }
    }
    var front, last := steps[..|steps| - 1], steps[|steps| - 1];
    OnTimeFront(redis, steps, key);
    if OnTime(redis, front, key) {
      BucketAdmitsUpToLimit(redis, rpm, front, tenant, bucket);
      NextCount(redis, front, key, last.at);
    } else {
      LateRequestPassesTwice(redis, rpm, front, tenant, bucket);
    }
  }

  lemma NothingIsLate(redis: bool, key: Key)
    ensures OnTime(redis, [], key)
  {
  }

  /// Exactly when a bucket admits the first `rpm` of its requests whatever the limit is: when all its
  /// increments are on time.
  lemma AdmitsExactlyIffOnTime(redis: bool, steps: seq<Step>, tenant: string, bucket: int)
    ensures (forall rpm: string -> int :: AdmitsUpToLimit(redis, rpm, steps, Minute(tenant, bucket)))
            <==> OnTime(redis, steps, Minute(tenant, bucket))
  {
    hide OnTime;
    if OnTime(redis, steps, Minute(tenant, bucket)) {
      forall rpm: string -> int
        ensures AdmitsUpToLimit(redis, rpm, steps, Minute(tenant, bucket))
      {
        BucketAdmitsUpToLimit(redis, rpm, steps, tenant, bucket);
      }
    } else {
      var one: string -> int := _ => 1;
      LateRequestPassesTwice(redis, one, steps, tenant, bucket);
      assert !AdmitsUpToLimit(redis, one, steps, Minute(tenant, bucket));
    }
  }

  /// When the first increment of the bucket took effect.
  function FirstAt(steps: seq<Step>, key: Key): (at: Option<int>)
    ensures at.Some? <==> Requests(steps, key) > 0
  {
    if steps == [] then None else
    var front, last := steps[..|steps| - 1], steps[|steps| - 1];
    if FirstAt(front, key).Some? then FirstAt(front, key)
    else if RequestOf(last, key) then Some(last.at) else None
  }

  lemma {:induction false} MemoryDeadline(steps: seq<Step>, key: Key)
    ensures Deadline(false, steps, key)
            == match FirstAt(steps, key) case None => None case Some(at) => Some(at + MINUTE_TTL_MS)
  {
    if steps != [] {
      MemoryDeadline(steps[..|steps| - 1], key);
    }
  }

  /// In memory that means: no later than two minutes after the first one.
  lemma {:induction false} OnTimeInMemory(steps: seq<Step>, key: Key)
    ensures OnTime(false, steps, key) <==>
      forall i | 0 <= i < |steps| && RequestOf(steps[i], key) ::
        FirstAt(steps, key).Some? && steps[i].at <= FirstAt(steps, key).value + 120_000
  {
    hide OnTime, Deadline;
    if steps == [] {
      NothingIsLate(false, key);
    } else {
      var front, last := steps[..|steps| - 1], steps[|steps| - 1];
      OnTimeInMemory(front, key);
      OnTimeFront(false, steps, key);
      MemoryDeadline(front, key);
      assert forall i | 0 <= i < |front| :: front[i] == steps[i];
      if FirstAt(front, key).None? {
        NoRequestYet(front, key);
      }
    }
  }

  lemma {:induction false} NoRequestYet(steps: seq<Step>, key: Key)
    requires Requests(steps, key) == 0
    ensures forall i | 0 <= i < |steps| :: !RequestOf(steps[i], key)
  {
    if steps != [] {
      var front := steps[..|steps| - 1];
      NoRequestYet(front, key);
      assert forall i | 0 <= i < |front| :: front[i] == steps[i];
    }
  }

  /// Increments take effect within a minute of reading the clock, and nobody touches a bucket's
  /// expiry before the bucket has begun.
  predicate Timely(steps: seq<Step>) {
    forall i | 0 <= i < |steps| ::
      match steps[i]
      case Request(_, readAt, at) => readAt <= at <= readAt + MINUTE_MS
      case SetExpiry(_, bucket, at) => bucket * MINUTE_MS <= at
  }

  lemma {:induction false} TimelyDeadline(redis: bool, steps: seq<Step>, key: Key)
    requires Timely(steps) && key.Minute?
    ensures
      var d := Deadline(redis, steps, key);
      d.Some? ==> key.bucket * MINUTE_MS + MINUTE_TTL_MS <= d.value
  {
    if steps != [] {
      var n := |steps| - 1;
      TimelyDeadline(redis, steps[..n], key);
      assert RequestOf(steps[n], key) ==> key.bucket * MINUTE_MS <= steps[n].readAt < (key.bucket + 1) * MINUTE_MS;
    }
  }

  /// Prompt increments are on time in every bucket, in Redis and in memory.
  lemma TimelyIsOnTime(redis: bool, steps: seq<Step>, key: Key)
    requires Timely(steps) && key.Minute?
    ensures OnTime(redis, steps, key)
  {
    hide Deadline;
    forall i | 0 <= i < |steps| && RequestOf(steps[i], key) && Deadline(redis, steps[..i], key).Some?
      ensures steps[i].at <= Deadline(redis, steps[..i], key).value
    {
      TimelyDeadline(redis, steps[..i], key);
      assert key.bucket * MINUTE_MS <= steps[i].readAt < (key.bucket + 1) * MINUTE_MS;
    }
  }

  lemma {:induction false} SpanTouchesTwoBuckets(redis: bool, rpm: string -> int, steps: seq<Step>, tenant: string, from: int, to: int)
    requires to <= from + MINUTE_MS
    ensures AdmittedWithin(redis, rpm, steps, tenant, from, to)
         <= Admitted(redis, rpm, steps, Minute(tenant, from / MINUTE_MS))
          + Admitted(redis, rpm, steps, Minute(tenant, from / MINUTE_MS + 1))
  {
    if steps != [] {
      SpanTouchesTwoBuckets(redis, rpm, steps[..|steps| - 1], tenant, from, to);
    }
  }

  /// Whatever the interleaving, a 60-second span sees at most twice the limit, if the increments of its
  /// two buckets are on time.
  lemma SlidingBound(redis: bool, rpm: string -> int, steps: seq<Step>, tenant: string, from: int)
    requires OnTime(redis, steps, Minute(tenant, from / MINUTE_MS))
    requires OnTime(redis, steps, Minute(tenant, from / MINUTE_MS + 1))
    ensures AdmittedWithin(redis, rpm, steps, tenant, from, from + 60_000) <= 2 * Max(rpm(tenant), 0)
  {
    SpanTouchesTwoBuckets(redis, rpm, steps, tenant, from, from + MINUTE_MS);
    BucketAdmitsUpToLimit(redis, rpm, steps, tenant, from / MINUTE_MS);
    BucketAdmitsUpToLimit(redis, rpm, steps, tenant, from / MINUTE_MS + 1);
  }

  // ----- Neither the factor two nor the promptness can be dropped -------------------------------------

  /// `n` requests at instant `at`, after `steps`.
  function Burst(steps: seq<Step>, tenant: string, n: nat, at: int): seq<Step> {
    if n == 0 then steps else Burst(steps, tenant, n - 1, at) + [Request(tenant, at, at)]
  }

  lemma {:induction false} BurstCounts(steps: seq<Step>, tenant: string, n: nat, at: int, key: Key)
    requires Timely(steps)
    ensures Timely(Burst(steps, tenant, n, at))
    ensures Requests(Burst(steps, tenant, n, at), key)
         == Requests(steps, key) + if key == MinuteKey(tenant, at) then n else 0
  {
    if n > 0 {
      BurstCounts(steps, tenant, n - 1, at, key);
      OneMoreRequest(Burst(steps, tenant, n - 1, at), tenant, at, key);
    }
  }

  lemma OneMoreRequest(steps: seq<Step>, tenant: string, at: int, key: Key)
    requires Timely(steps)
    ensures Timely(steps + [Request(tenant, at, at)])
    ensures Requests(steps + [Request(tenant, at, at)], key)
         == Requests(steps, key) + if key == MinuteKey(tenant, at) then 1 else 0
  {
    assert (steps + [Request(tenant, at, at)])[..|steps|] == steps;
  }

  /// Admitted requests of the span that the counts of its two buckets miss.
  function Missed(rpm: string -> int, steps: seq<Step>, tenant: string): int {
    AdmittedWithin(false, rpm, steps, tenant, MINUTE_MS - 1, MINUTE_MS)
    - Admitted(false, rpm, steps, Minute(tenant, 0)) - Admitted(false, rpm, steps, Minute(tenant, 1))
  }

  lemma OneMoreIsCounted(rpm: string -> int, steps: seq<Step>, tenant: string, at: int)
    requires at == MINUTE_MS - 1 || at == MINUTE_MS
    ensures Missed(rpm, steps + [Request(tenant, at, at)], tenant) == Missed(rpm, steps, tenant)
  {
    hide Run, AdmitsLast;
    assert (steps + [Request(tenant, at, at)])[..|steps|] == steps;
  }

  /// When every request so far lies in two adjacent buckets and in the span, nothing escapes the count.
  lemma {:induction false} BurstAllWithin(rpm: string -> int, steps: seq<Step>, tenant: string, n: nat, at: int)
    requires at == MINUTE_MS - 1 || at == MINUTE_MS
    ensures Missed(rpm, Burst(steps, tenant, n, at), tenant) == Missed(rpm, steps, tenant)
  {
    hide Missed;
    if n > 0 {
      BurstAllWithin(rpm, steps, tenant, n - 1, at);
      OneMoreIsCounted(rpm, Burst(steps, tenant, n - 1, at), tenant, at);
    }
  }

  lemma NothingYet(rpm: string -> int, tenant: string)
    ensures Timely([]) && Missed(rpm, [], tenant) == 0
    ensures Requests([], Minute(tenant, 0)) == Requests([], Minute(tenant, 1)) == 0
  {
  }

  /// For every limit there is a run in which twice that many requests pass within one millisecond.
  lemma BoundIsTight(rpm: string -> int, tenant: string)
    requires rpm(tenant) >= 0
    ensures exists steps ::
      && Timely(steps)
      && AdmittedWithin(false, rpm, steps, tenant, MINUTE_MS - 1, MINUTE_MS) == 2 * rpm(tenant)
  {
    hide Burst, Admitted, Requests, AdmittedWithin, Timely, OnTime;
    NothingYet(rpm, tenant);
    var n, b0, b1 := rpm(tenant), Minute(tenant, 0), Minute(tenant, 1);
    var first := Burst([], tenant, n, MINUTE_MS - 1);
    var all := Burst(first, tenant, n, MINUTE_MS);
    BurstCounts([], tenant, n, MINUTE_MS - 1, b0);
    BurstCounts([], tenant, n, MINUTE_MS - 1, b1);
    BurstCounts(first, tenant, n, MINUTE_MS, b0);
    BurstCounts(first, tenant, n, MINUTE_MS, b1);
    BurstAllWithin(rpm, [], tenant, n, MINUTE_MS - 1);
    BurstAllWithin(rpm, first, tenant, n, MINUTE_MS);
    TimelyIsOnTime(false, all, b0);
    TimelyIsOnTime(false, all, b1);
    BucketAdmitsUpToLimit(false, rpm, all, tenant, 0);
    BucketAdmitsUpToLimit(false, rpm, all, tenant, 1);
  }

  /// An increment that reaches Redis more than a minute late may find its counter expired: two
  /// requests of one bucket pass a limit of one.
  lemma LateIncrementEscapes(tenant: string)
    ensures
      var steps := [Request(tenant, 0, 0), Request(tenant, MINUTE_MS - 1, MINUTE_TTL_MS + 1)];
      Admitted(false, _ => 1, steps, Minute(tenant, 0)) == 2
  {
    var steps := [Request(tenant, 0, 0), Request(tenant, MINUTE_MS - 1, MINUTE_TTL_MS + 1)];
    assert steps[..1] == [steps[0]] && steps[..1][..0] == [] && steps[..0] == [];
    assert Run(false, steps[..1]) == map[Minute(tenant, 0) := Counter(1, Some(MINUTE_TTL_MS))];
    assert Admitted(false, _ => 1, steps[..1], Minute(tenant, 0)) == 1;
  }
}
