/// Mutual exclusion of the SET NX PX / compare-and-delete lock, with expiry.
module LockOwnership {
  import opened Common
  import opened Redis

  type Pid = nat

  const LOCK := "lock"

  /// `tokens` holds, for every process between a successful acquire and its release, the token it wrote.
  datatype State = State(store: Store, tokens: map<Pid, string>)

  datatype Step = Acquire(pid: Pid, token: string, ttlMs: nat) | Release(pid: Pid) | Tick(ms: nat)

  /// Tokens are unique among the acquisitions that are not released yet.
  predicate Enabled(s: State, step: Step) {
    match step
    case Acquire(p, token, _) => p !in s.tokens && token !in s.tokens.Values
    case Release(p) => p in s.tokens
    case Tick(_) => true
  }

  function Apply(s: State, step: Step): State {
    if !Enabled(s, step) then s else
    match step
    case Acquire(p, token, ttl) =>
      var (store, acquired) := SetNxPx(s.store, LOCK, Text(token), ttl);
      if acquired then State(store, s.tokens[p := token]) else s.(store := store)
    case Release(p) => State(CompareAndDelete(s.store, LOCK, Text(s.tokens[p])), s.tokens - {p})
    case Tick(ms) => s.(store := Advance(s.store, ms))
  }

  function Exec(s: State, steps: seq<Step>): State
    decreases |steps|
  {
    if steps == [] then s else Exec(Apply(s, steps[0]), steps[1..])
  }

  predicate Owns(s: State, p: Pid) {
    p in s.tokens && Get(s.store, LOCK) == Some(Text(s.tokens[p]))
  }

  ghost predicate Inv(s: State) {
    && (forall p, q | p in s.tokens && q in s.tokens && s.tokens[p] == s.tokens[q] :: p == q)
    && (Live(s.store, LOCK) ==> exists p :: Owns(s, p))
  }

  lemma StepKeepsInv(s: State, step: Step)
    requires Inv(s)
    ensures Inv(Apply(s, step))
  {
    var s' := Apply(s, step);
    if Enabled(s, step) {
      match step
      case Acquire(p, token, ttl) =>
        forall q | q in s.tokens ensures s.tokens[q] != token {
          assert s.tokens[q] in s.tokens.Values;
        }
        if Live(s.store, LOCK) {
          var q :| Owns(s, q);
          assert Owns(s', q);
        } else {
          assert Owns(s', p);
        }
      case Release(p) =>
        if Live(s'.store, LOCK) {
          var q :| Owns(s, q);
          assert Owns(s', q);
        }
      case Tick(_) =>
        if Live(s'.store, LOCK) {
          var q :| Owns(s, q);
          assert Owns(s', q);
        }
    }
  }

  lemma {:induction false} RunKeepsInv(s: State, steps: seq<Step>)
    requires Inv(s)
    ensures Inv(Exec(s, steps))
    decreases |steps|
  {
    if steps != [] {
      StepKeepsInv(s, steps[0]);
      RunKeepsInv(Apply(s, steps[0]), steps[1..]);
    }
  }

  function Start(now: int): State {
    State(Store(now, map[]), map[])
  }

  /// In every reachable state at most one process owns the lock, an unexpired lock has an owner, and
  /// a further acquire succeeds exactly when nobody owns it.
  lemma MutualExclusion(now: int, steps: seq<Step>, p: Pid, q: Pid)
    ensures
      var s := Exec(Start(now), steps);
      && (Owns(s, p) && Owns(s, q) ==> p == q)
      && (Live(s.store, LOCK) <==> exists r :: Owns(s, r))
      && (forall token, ttl: nat | Enabled(s, Acquire(p, token, ttl)) ::
            Owns(Apply(s, Acquire(p, token, ttl)), p) <==> !Live(s.store, LOCK))
  {
    RunKeepsInv(Start(now), steps);
    var s := Exec(Start(now), steps);
    assert Inv(s);
    forall token, ttl: nat | Enabled(s, Acquire(p, token, ttl))
      ensures Owns(Apply(s, Acquire(p, token, ttl)), p) <==> !Live(s.store, LOCK)
    {
    }
  }

  /// Releasing frees the lock for its owner and changes nothing for a process whose lock has
  /// expired, even when a successor holds it by then.
  lemma LateReleaseIsHarmless(now: int, steps: seq<Step>, p: Pid, successor: Pid)
    ensures
      var s := Exec(Start(now), steps);
      var s' := Apply(s, Release(p));
      && (Owns(s, p) ==> !Live(s'.store, LOCK))
      && (!Owns(s, p) ==> s'.store == s.store)
      && (p != successor && Owns(s, successor) ==> Owns(s', successor))
  {
    MutualExclusion(now, steps, p, successor);
  }

  /// A lock outlives everything the other processes do, until its TTL has passed.
  lemma {:induction false} HeldUntilExpiry(s: State, steps: seq<Step>, p: Pid, deadline: int)
    requires Owns(s, p) && s.store.keys[LOCK].expiresAt == Some(deadline)
    requires Release(p) !in steps && Exec(s, steps).store.now <= deadline
    requires Inv(s)
    ensures Owns(Exec(s, steps), p)
    decreases |steps|
  {
    if steps != [] {
      var next := Apply(s, steps[0]);
      ClockIsMonotone(next, steps[1..]);
      StepKeepsInv(s, steps[0]);
      if steps[0].Release? && Enabled(s, steps[0]) {
        assert steps[0].pid != p;
      }
      HeldUntilExpiry(next, steps[1..], p, deadline);
    }
  }

  lemma {:induction false} ClockIsMonotone(s: State, steps: seq<Step>)
    ensures s.store.now <= Exec(s, steps).store.now
    decreases |steps|
  {
    if steps != [] {
      ClockIsMonotone(Apply(s, steps[0]), steps[1..]);
    }
  }
}
