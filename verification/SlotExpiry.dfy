/// What an expiry of the slot counter can do to the cap on a tenant's jobs: exactly when it lets more
/// jobs run at once than the cap allows.
module SlotExpiry {
  import opened Common
  import opened TenantQueue

  ghost predicate NoExpiry(steps: seq<Step>) {
    forall i | 0 <= i < |steps| :: !steps[i].Expire?
  }

  /// Every continuation without a further expiry keeps the cap.
  ghost predicate CapFromHere(max: int, s: State) {
    forall steps :: NoExpiry(steps) ==> |Holders(Exec(max, s, steps))| <= max
  }

  lemma {:induction false} IdleWithoutExpiry(max: int, s: State, steps: seq<Step>)
    requires NoExpiry(steps)
    ensures ExpiresIdle(max, s, steps)
    decreases |steps|
  {
    if steps != [] {
      IdleWithoutExpiry(max, Apply(max, s, steps[0]), steps[1..]);
    }
  }

  lemma IdleIsEnough(max: int, s: State)
    requires Inv(max, s) && InFlight(s) == {}
    ensures CapFromHere(max, Apply(max, s, Expire))
  {
    var expired := Apply(max, s, Expire);
    StepKeepsInv(max, s, Expire);
    forall steps | NoExpiry(steps)
      ensures |Holders(Exec(max, expired, steps))| <= max
    {
      IdleWithoutExpiry(max, expired, steps);
      RunKeepsInv(max, expired, steps);
      var end := Exec(max, expired, steps);
      SubsetCard(Holders(end), Admitted(max, end));
    }
  }

  // ----- Filling up after an expiry -------------------------------------------------------------------

  lemma ExecSplit(max: int, s: State, first: seq<Step>, rest: seq<Step>)
    ensures Exec(max, s, first + rest) == Exec(max, Exec(max, s, first), rest)
    decreases |first|
  {
    if first == [] {
      assert first + rest == rest;
    } else {
      assert (first + rest)[1..] == first[1..] + rest;
      ExecSplit(max, Apply(max, s, first[0]), first[1..], rest);
    }
  }

  lemma Unroll2(max: int, s: State, a: Step, b: Step)
    ensures Exec(max, s, [a, b]) == Apply(max, Apply(max, s, a), b)
  {
    assert [a, b][1..] == [b] && [b][1..] == [];
    assert Exec(max, Apply(max, s, a), [b]) == Apply(max, Apply(max, s, a), b);
  }

  /// Attempts of `n` new processes, one after the other.
  function Attempts(first: Pid, n: nat): seq<Step> {
    if n == 0 then [] else Attempts(first, n - 1) + [Incr(first + n - 1), Check(first + n - 1)]
  }

  /// As long as the counter stays within the cap each of them gets a slot.
  lemma {:induction false} AttemptsSucceed(max: int, s: State, first: Pid, n: nat)
    requires (forall p | p in s.pcs :: p < first) && s.counter + n <= max
    ensures NoExpiry(Attempts(first, n))
    ensures
      var s' := Exec(max, s, Attempts(first, n));
      && s'.counter == s.counter + n && (forall p | p in s'.pcs :: p < first + n)
      && |Holders(s')| == |Holders(s)| + n
  {
    if n > 0 {
      AttemptsSucceed(max, s, first, n - 1);
      var before, p := Exec(max, s, Attempts(first, n - 1)), first + n - 1;
      ExecSplit(max, s, Attempts(first, n - 1), [Incr(p), Check(p)]);
      Unroll2(max, before, Incr(p), Check(p));
      OneMoreHolder(max, before, p);
    }
  }

  lemma OneMoreHolder(max: int, s: State, p: Pid)
    requires p !in s.pcs && s.counter + 1 <= max
    ensures Apply(max, Apply(max, s, Incr(p)), Check(p)) == State(s.counter + 1, s.pcs[p := Holding])
    ensures |Holders(State(s.counter + 1, s.pcs[p := Holding]))| == |Holders(s)| + 1
  {
    UninterruptedAttempt(max, s, p);
    assert Holders(State(s.counter + 1, s.pcs[p := Holding])) == Holders(s) + {p};
  }

  lemma FillUp(max: int, s: State, n: nat) returns (steps: seq<Step>)
    requires s.counter + n <= max && |Holders(s)| + n > max
    ensures NoExpiry(steps) && |Holders(Exec(max, s, steps))| > max
  {
    var first := UnusedNumber(s.pcs.Keys);
    AttemptsSucceed(max, s, first, n);
    steps := Attempts(first, n);
  }

  /// A job that has a slot, or is about to, is no longer counted: the whole cap is granted beside it.
  lemma UncountedHolder(max: int, s: State, q: Pid) returns (steps: seq<Step>)
    requires s.counter == 0 && max >= 0 && q in s.pcs
    requires s.pcs[q].Holding? || (s.pcs[q].Counted? && s.pcs[q].n <= max)
    ensures NoExpiry(steps) && |Holders(Exec(max, s, steps))| > max
  {
    var checked := Apply(max, s, Check(q));
    assert q in Holders(checked);
    var rest := FillUp(max, checked, max);
    steps := [Check(q)] + rest;
    assert steps[1..] == rest;
  }

  /// A job that is turned away takes its increment back twice over: the counter drops below zero.
  lemma SecondRollback(max: int, s: State, q: Pid) returns (steps: seq<Step>)
    requires s.counter == 0 && max >= 0 && q in s.pcs
    requires s.pcs[q].TurnedAway? || (s.pcs[q].Counted? && s.pcs[q].n > max)
    ensures NoExpiry(steps) && |Holders(Exec(max, s, steps))| > max
  {
    var rolled := Apply(max, Apply(max, s, Check(q)), Rollback(q));
    assert rolled.counter == -1;
    var rest := FillUp(max, rolled, max + 1);
    steps := [Check(q), Rollback(q)] + rest;
    ExecSplit(max, s, [Check(q), Rollback(q)], rest);
    Unroll2(max, s, Check(q), Rollback(q));
  }

  /// Exactly when an expiry of the counter key is safe: when no job is in flight. It does not take a job
  /// that outlives the 600 s: EXPIRE is sent only when INCR returns 1, so at a cap of two or more short
  /// jobs that overlap keep the counter above zero, and it expires under them.
  lemma CapAfterExpiryIff(max: int, s: State)
    requires Inv(max, s)
    ensures CapFromHere(max, Apply(max, s, Expire)) <==> InFlight(s) == {}
  {
    if InFlight(s) == {} {
      IdleIsEnough(max, s);
    } else {
      var q :| q in InFlight(s);
      var expired := Apply(max, s, Expire);
      var steps;
      if s.pcs[q].Holding? || (s.pcs[q].Counted? && s.pcs[q].n <= max) {
        steps := UncountedHolder(max, expired, q);
      } else {
        steps := SecondRollback(max, expired, q);
      }
      assert NoExpiry(steps) && |Holders(Exec(max, expired, steps))| > max;
    }
  }
}
