/// Per-tenant job slots: increment a counter, check it against the cap, give the slot back.
module TenantQueue {
  import opened Common
  import opened Redis

  // ----- The service, one call at a time --------------------------------------------------------

  const ACTIVE_TTL_SECONDS := 600

  datatype Slot = Acquired | AtCap | RedisError

  datatype JobResult = Completed | Threw | Deferred | Broken

  function ActiveKey(tenant: string): string {
    "tenant:" + tenant + ":queue:active"
  }

  /// No tenant counts on another's key.
  lemma ActiveKeysTell(tenant: string, other: string)
    ensures ActiveKey(tenant) == ActiveKey(other) <==> tenant == other
  {
    var (a, b) := (ActiveKey(tenant), ActiveKey(other));
    if a == b {
      assert a[7..|a| - 13] == tenant && b[7..|b| - 13] == other;
    }
  }

  function Cap(queueConcurrency: int): int {
    Max(1, queueConcurrency)
  }

  class TenantQueueService {
    const redis: RedisService
    var memoryActive: map<string, int>

    constructor (redis: RedisService)
      ensures this.redis == redis && memoryActive == map[]
    {
      this.redis, this.memoryActive := redis, map[];
    }

    /// Slots in use, or None when the Redis key does not hold a number.
    function Active(tenant: string): Option<int>
      reads this, redis
    {
      if !redis.ready then Some(if tenant in memoryActive then memoryActive[tenant] else 0) else
      match Get(redis.store, ActiveKey(tenant))
      case None => Some(0)
      case Some(Num(n)) => Some(n)
      case Some(Text(_)) => None
    }

    /// Nothing but the slot count of `tenant` has changed.
    twostate predicate OnlyTenant(tenant: string)
      reads this, redis
    {
      && redis.ready == old(redis.ready)
      && redis.store.now == old(redis.store.now)
      && redis.store.keys - {ActiveKey(tenant)} == old(redis.store.keys) - {ActiveKey(tenant)}
      && memoryActive - {tenant} == old(memoryActive) - {tenant}
    }

    /// So every other tenant has the slots it had.
    twostate lemma OthersKeepTheirs(tenant: string, other: string)
      requires OnlyTenant(tenant) && other != tenant
      ensures Active(other) == old(Active(other))
    {
      ActiveKeysTell(tenant, other);
      hide ActiveKey;
      var (keys, before) := (redis.store.keys - {ActiveKey(tenant)}, old(redis.store.keys) - {ActiveKey(tenant)});
      var key := ActiveKey(other);
      assert key in redis.store.keys <==> key in keys;
      assert key in old(redis.store.keys) <==> key in before;
      assert key in keys ==> redis.store.keys[key] == keys[key] && old(redis.store.keys)[key] == before[key];
      var (memory, was) := (memoryActive - {tenant}, old(memoryActive) - {tenant});
      assert other in memoryActive <==> other in memory;
      assert other in old(memoryActive) <==> other in was;
      assert other in memory ==> memoryActive[other] == memory[other] && old(memoryActive)[other] == was[other];
    }

    method TryAcquireSlot(tenant: string, queueConcurrency: int) returns (slot: Slot)
      modifies this`memoryActive, redis`store
      ensures OnlyTenant(tenant)
      ensures slot.RedisError? <==> old(Active(tenant)).None?
      ensures slot.RedisError? ==> Active(tenant).None?
      ensures !slot.RedisError? ==>
        && Active(tenant).Some?
        && (slot.Acquired? <==> old(Active(tenant)).value < Max(1, queueConcurrency))
        && Active(tenant).value == old(Active(tenant)).value + if slot.Acquired? then 1 else 0
      ensures redis.ready && slot.Acquired? && Active(tenant) == Some(1) ==>
        redis.store.keys[ActiveKey(tenant)].expiresAt == Some(redis.store.now + 600_000)
      ensures redis.ready && !slot.RedisError? && old(Active(tenant)).value != 0 ==>
        && old(Live(redis.store, ActiveKey(tenant))) && Live(redis.store, ActiveKey(tenant))
        && redis.store.keys[ActiveKey(tenant)].expiresAt == old(redis.store).keys[ActiveKey(tenant)].expiresAt
    {
      var max := Cap(queueConcurrency);
      if redis.ready {
        var key := ActiveKey(tenant);
        var count := redis.Incr(key);
        if count.None? {
          return RedisError;
        }
        if count.value == 1 {
          redis.ExpireKey(key, ACTIVE_TTL_SECONDS);
        }
        if count.value > max {
          count := redis.Decr(key);
          return AtCap;
        }
        return Acquired;
      }
      var current := if tenant in memoryActive then memoryActive[tenant] else 0;
      if current >= max {
        return AtCap;
      }
      memoryActive := memoryActive[tenant := current + 1];
      return Acquired;
    }

    method ReleaseSlot(tenant: string)
      modifies this`memoryActive, redis`store
      ensures OnlyTenant(tenant)
      ensures old(Active(tenant)).Some? ==>
        Active(tenant) == Some(Max(0, old(Active(tenant)).value - 1))
      ensures redis.ready && old(Active(tenant)).Some? ==>
        && ActiveKey(tenant) in redis.store.keys
        && (old(Active(tenant)).value <= 0 ==>
              redis.store.keys[ActiveKey(tenant)].expiresAt == Some(redis.store.now + 600_000))
        && (old(Active(tenant)).value > 0 ==>
              ActiveKey(tenant) in old(redis.store.keys)
              && redis.store.keys[ActiveKey(tenant)].expiresAt == old(redis.store).keys[ActiveKey(tenant)].expiresAt)
    {
      if redis.ready {
        var key := ActiveKey(tenant);
        var next := redis.Decr(key);
        if next.Some? && next.value < 0 {
          redis.SetKey(key, Num(0), Some(ACTIVE_TTL_SECONDS));
        }
        return;
      }
      var current := if tenant in memoryActive then memoryActive[tenant] else 0;
      memoryActive := memoryActive[tenant := Max(0, current - 1)];
    }

    method GetActiveCount(tenant: string) returns (count: int)
      ensures redis.ready && Active(tenant).Some? ==> count == Max(0, Active(tenant).value)
      ensures !redis.ready ==> Some(count) == Active(tenant)
    {
      if redis.ready {
        var raw := redis.GetKey(ActiveKey(tenant));
        return if raw.Some? && raw.value.Num? && raw.value.n > 0 then raw.value.n else 0;
      }
      count := if tenant in memoryActive then memoryActive[tenant] else 0;
    }

    /// Whether the work succeeds or throws, and when the job is deferred, the slot count comes back
    /// to what it was.
    method RunFairJob(tenant: string, queueConcurrency: int, workThrows: bool) returns (result: JobResult)
      requires Active(tenant).Some? ==> Active(tenant).value >= 0
      modifies this`memoryActive, redis`store
      ensures OnlyTenant(tenant)
      ensures result.Broken? <==> old(Active(tenant)).None?
      ensures !result.Broken? ==>
        && Active(tenant) == old(Active(tenant))
        && (result.Deferred? <==> old(Active(tenant)).value >= Max(1, queueConcurrency))
        && (result.Threw? ==> workThrows) && (result.Completed? ==> !workThrows)
    {
      var slot := TryAcquireSlot(tenant, queueConcurrency);
      if slot.RedisError? {
        return Broken;
      }
      if slot.AtCap? {
        return Deferred;
      }
      result := if workThrows then Threw else Completed;
      ReleaseSlot(tenant);
    }
  }

  // ----- Concurrent jobs: one atomic command at a time ---------------------------------------------

  type Pid = nat

  /// Where a job stands; an absent process is idle. `Counted(n)` has received `n` from INCR and is
  /// yet to compare it; `Repairing` has seen a negative DECR reply and is about to write 0.
  datatype Pc = Counted(n: int) | TurnedAway | Holding | Repairing

  datatype State = State(counter: int, pcs: map<Pid, Pc>)

  /// `Release` is the finally block, taken whether or not the work threw.
  datatype Step = Incr(pid: Pid) | Check(pid: Pid) | Rollback(pid: Pid) | Release(pid: Pid) | Repair(pid: Pid) | Expire

  function Apply(max: int, s: State, step: Step): State {
    match step
    case Incr(p) =>
      if p in s.pcs then s else State(s.counter + 1, s.pcs[p := Counted(s.counter + 1)])
    case Check(p) =>
      if p !in s.pcs || !s.pcs[p].Counted? then s
      else s.(pcs := s.pcs[p := if s.pcs[p].n > max then TurnedAway else Holding])
    case Rollback(p) =>
      if p !in s.pcs || !s.pcs[p].TurnedAway? then s else State(s.counter - 1, s.pcs - {p})
    case Release(p) =>
      if p !in s.pcs || !s.pcs[p].Holding? then s
      else if s.counter - 1 < 0 then State(s.counter - 1, s.pcs[p := Repairing])
      else State(s.counter - 1, s.pcs - {p})
    case Repair(p) =>
      if p !in s.pcs || !s.pcs[p].Repairing? then s else State(0, s.pcs - {p})
    case Expire => s.(counter := 0)
  }

  function Exec(max: int, s: State, steps: seq<Step>): State
    decreases |steps|
  {
    if steps == [] then s else Exec(max, Apply(max, s, steps[0]), steps[1..])
  }

  /// Uninterrupted, the steps of an attempt are the service's call: a slot and one more on the
  /// counter below the cap, nothing at all at the cap.
  lemma UninterruptedAttempt(max: int, s: State, p: Pid)
    requires p !in s.pcs
    ensures
      var checked := Apply(max, Apply(max, s, Incr(p)), Check(p));
      if s.counter < max then checked == State(s.counter + 1, s.pcs[p := Holding])
      else Apply(max, checked, Rollback(p)) == s
  {
    var counted := Apply(max, s, Incr(p));
    assert counted.pcs == s.pcs[p := Counted(s.counter + 1)];
    if s.counter < max {
      assert counted.pcs[p := Holding] == s.pcs[p := Holding];
    } else {
      assert counted.pcs[p := TurnedAway] - {p} == s.pcs;
    }
  }

  const START := State(0, map[])

  /// Every process whose INCR has not been undone.
  function InFlight(s: State): set<Pid> {
    set p | p in s.pcs && !s.pcs[p].Repairing?
  }

  function Holders(s: State): set<Pid> {
    set p | p in s.pcs && s.pcs[p].Holding?
  }

  /// Processes that hold a slot or are bound to: their count was within the cap.
  function Admitted(max: int, s: State): set<Pid> {
    set p | p in s.pcs && (s.pcs[p].Holding? || (s.pcs[p].Counted? && s.pcs[p].n <= max))
  }

  ghost predicate Inv(max: int, s: State) {
    && s.counter == |InFlight(s)|
    && |Admitted(max, s)| <= max
    && forall p | p in s.pcs :: !s.pcs[p].Repairing?
  }

  /// The key may expire only while no job is in flight.
  ghost predicate ExpiresIdle(max: int, s: State, steps: seq<Step>)
    decreases |steps|
  {
    steps != [] ==>
      && (steps[0].Expire? ==> InFlight(s) == {})
      && ExpiresIdle(max, Apply(max, s, steps[0]), steps[1..])
  }

  lemma SubsetCard(a: set<Pid>, b: set<Pid>)
    requires a <= b
    ensures |a| <= |b|
    decreases b
  {
    if a != {} {
      var x :| x in a;
      SubsetCard(a - {x}, b - {x});
    }
  }

  lemma IncrKeepsInv(max: int, s: State, p: Pid)
    requires Inv(max, s) && p !in s.pcs
    ensures Inv(max, Apply(max, s, Incr(p)))
    ensures Admitted(max, Apply(max, s, Incr(p))) == Admitted(max, s) + if s.counter + 1 <= max then {p} else {}
  {
    hide InFlight, Admitted;
    IncrSets(max, s, p);
    SubsetCard(Admitted(max, s), InFlight(s));
  }

  lemma IncrSets(max: int, s: State, p: Pid)
    requires p !in s.pcs
    ensures InFlight(Apply(max, s, Incr(p))) == InFlight(s) + {p} && p !in InFlight(s)
    ensures Admitted(max, Apply(max, s, Incr(p))) == Admitted(max, s) + if s.counter + 1 <= max then {p} else {}
    ensures Admitted(max, s) <= InFlight(s)
  {
  }

  lemma LeaveKeepsInv(max: int, s: State, p: Pid)
    requires Inv(max, s) && p in s.pcs && (s.pcs[p].TurnedAway? || s.pcs[p].Holding?)
    ensures Inv(max, State(s.counter - 1, s.pcs - {p})) && s.counter >= 1
    ensures Admitted(max, State(s.counter - 1, s.pcs - {p})) == Admitted(max, s) - {p}
  {
    var s' := State(s.counter - 1, s.pcs - {p});
    assert p in InFlight(s) && InFlight(s') == InFlight(s) - {p};
    assert Admitted(max, s') == Admitted(max, s) - {p};
  }

  lemma StepKeepsInv(max: int, s: State, step: Step)
    requires Inv(max, s) && (step.Expire? ==> InFlight(s) == {})
    ensures Inv(max, Apply(max, s, step))
  {
    var s' := Apply(max, s, step);
    if s' != s {
      match step
      case Incr(p) => IncrKeepsInv(max, s, p);
      case Check(_) => assert InFlight(s') == InFlight(s) && Admitted(max, s') == Admitted(max, s);
      case Rollback(p) => LeaveKeepsInv(max, s, p);
      case Release(p) => LeaveKeepsInv(max, s, p);
      case Repair(_) =>
      case Expire =>
    }
  }

  lemma {:induction false} RunKeepsInv(max: int, s: State, steps: seq<Step>)
    requires Inv(max, s) && ExpiresIdle(max, s, steps)
    ensures Inv(max, Exec(max, s, steps))
    decreases |steps|
  {
    if steps != [] {
      StepKeepsInv(max, s, steps[0]);
      RunKeepsInv(max, Apply(max, s, steps[0]), steps[1..]);
    }
  }

  lemma StartInv(max: int)
    requires max >= 0
    ensures Inv(max, START)
  {
    assert InFlight(START) == {} && Admitted(max, START) == {};
  }

  /// In every reachable state the counter is the number of jobs in flight, at most the cap hold a
  /// slot, and nobody is ever about to repair a negative counter.
  lemma SlotsAreConserved(queueConcurrency: int, steps: seq<Step>)
    requires ExpiresIdle(Cap(queueConcurrency), START, steps)
    ensures
      var s := Exec(Cap(queueConcurrency), START, steps);
      && s.counter == |InFlight(s)| >= 0
      && |Holders(s)| <= Cap(queueConcurrency)
      && (forall p | p in s.pcs :: !s.pcs[p].Repairing?)
      && (InFlight(s) == Holders(s) ==> s.counter == |Holders(s)|)
  {
    var max := Cap(queueConcurrency);
    StartInv(max);
    RunKeepsInv(max, START, steps);
    var s := Exec(max, START, steps);
    SubsetCard(Holders(s), Admitted(max, s));
  }

  /// With a cap of one, a job that outlives the key's TTL lets a second one in.
  lemma ExpiryMidJobOverbooks()
    ensures |Holders(Exec(1, START, [Incr(1), Check(1), Expire, Incr(2), Check(2)]))| == 2
  {
    var s1 := Apply(1, START, Incr(1));
    var s2 := Apply(1, s1, Check(1));
    var s3 := Apply(1, s2, Expire);
    var s4 := Apply(1, s3, Incr(2));
    var s5 := Apply(1, s4, Check(2));
    var steps := [Incr(1), Check(1), Expire, Incr(2), Check(2)];
    assert steps[1..] == [Check(1), Expire, Incr(2), Check(2)] && steps[1..][1..] == [Expire, Incr(2), Check(2)];
    assert steps[1..][1..][1..] == [Incr(2), Check(2)] && steps[1..][1..][1..][1..] == [Check(2)];
    assert Exec(1, START, steps) == Exec(1, s3, [Incr(2), Check(2)]);
    assert Exec(1, s4, [Check(2)]) == s5;
    assert Exec(1, s3, [Incr(2), Check(2)]) == Exec(1, s4, [Check(2)]);
    assert Holders(s5) == {1, 2};
  }

  // ----- The atomic counting semaphore -----------------------------------------------------------

  datatype Action = Take(pid: Pid) | Give(pid: Pid)

  /// A counting semaphore that grants at most `max` slots; None once an illegal action is asked of it.
  function Semaphore(max: int, held: set<Pid>, actions: seq<Action>): Option<set<Pid>>
    decreases |actions|
  {
    if actions == [] then Some(held) else
    match actions[0]
    case Take(p) => if p !in held && |held| < max then Semaphore(max, held + {p}, actions[1..]) else None
    case Give(p) => if p in held then Semaphore(max, held - {p}, actions[1..]) else None
  }

  /// A slot is taken by the INCR that stays within the cap and given back by the release.
  function ActionOf(max: int, s: State, step: Step): seq<Action> {
    match step
    case Incr(p) => if p !in s.pcs && s.counter + 1 <= max then [Take(p)] else []
    case Release(p) => if p in s.pcs && s.pcs[p].Holding? then [Give(p)] else []
    case _ => []
  }

  function ActionsOf(max: int, s: State, steps: seq<Step>): seq<Action>
    decreases |steps|
  {
    if steps == [] then []
    else ActionOf(max, s, steps[0]) + ActionsOf(max, Apply(max, s, steps[0]), steps[1..])
  }

  lemma {:induction false} RunSimulatesSemaphore(max: int, s: State, steps: seq<Step>)
    requires Inv(max, s) && ExpiresIdle(max, s, steps)
    ensures Semaphore(max, Admitted(max, s), ActionsOf(max, s, steps)) == Some(Admitted(max, Exec(max, s, steps)))
    decreases |steps|
  {
    if steps != [] {
      var step, next := steps[0], Apply(max, s, steps[0]);
      var action, rest := ActionOf(max, s, step), ActionsOf(max, next, steps[1..]);
      StepKeepsInv(max, s, step);
      RunSimulatesSemaphore(max, next, steps[1..]);
      if action == [] {
        assert action + rest == rest;
        assert Admitted(max, next) == Admitted(max, s);
      } else {
        assert (action + rest)[1..] == rest;
        if action[0].Take? {
          IncrKeepsInv(max, s, step.pid);
        } else {
          LeaveKeepsInv(max, s, step.pid);
        }
      }
    }
  }

  /// A job is turned away when the slots taken and the jobs being turned away add up to the cap; with
  /// none of the latter around, exactly when the semaphore is full.
  lemma DeferralIsJustified(max: int, s: State, p: Pid)
    requires Inv(max, s) && p !in s.pcs
    ensures
      var deferred := p !in Admitted(max, Apply(max, s, Incr(p)));
      && (deferred <==> |Admitted(max, s)| + |InFlight(s) - Admitted(max, s)| >= max)
      && (InFlight(s) == Admitted(max, s) ==> (deferred <==> |Admitted(max, s)| == max))
  {
    assert Admitted(max, s) <= InFlight(s);
    assert InFlight(s) == Admitted(max, s) + (InFlight(s) - Admitted(max, s));
  }

  /// While a rejected job has not rolled back yet, another can be turned away from a free slot.
  lemma RollbackCanStarve()
    ensures
      var s := Exec(1, START, [Incr(1), Check(1), Incr(2), Release(1)]);
      Holders(s) == {} && 3 !in Admitted(1, Apply(1, s, Incr(3)))
  {
    var steps := [Incr(1), Check(1), Incr(2), Release(1)];
    var s1 := Apply(1, START, Incr(1));
    var s2 := Apply(1, s1, Check(1));
    var s3 := Apply(1, s2, Incr(2));
    assert steps[1..] == [Check(1), Incr(2), Release(1)] && steps[1..][1..] == [Incr(2), Release(1)];
    assert steps[1..][1..][1..] == [Release(1)];
    assert Exec(1, START, steps) == Exec(1, s2, [Incr(2), Release(1)]);
    assert Exec(1, s3, [Release(1)]) == Apply(1, s3, Release(1));
    assert Exec(1, s2, [Incr(2), Release(1)]) == Exec(1, s3, [Release(1)]);
  }
}
