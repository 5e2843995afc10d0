/// What an expiry of the claim lock can do to the claim history: exactly when it lets a claim be lost
/// from it, or a release clear another claim than the one its caller saw.
module LeadLockExpiry {
  import opened Common
  import opened LeadClaim

  ghost predicate NoExpiry(steps: seq<Step>) {
    forall i | 0 <= i < |steps| :: !steps[i].ExpireLock?
  }

  /// Every continuation in which no lock expires under a busy holder stays orderly.
  ghost predicate OrderlyFromHere(initial: Lead, s: State) {
    forall steps :: ExpiresCalmly(s, steps) ==> Orderly(initial, Exec(s, steps))
  }

  lemma {:induction false} CalmWithoutExpiry(s: State, steps: seq<Step>)
    requires NoExpiry(steps)
    ensures ExpiresCalmly(s, steps)
    decreases |steps|
  {
    if steps != [] {
      CalmWithoutExpiry(Apply(s, steps[0]), steps[1..]);
    }
  }

  lemma CalmIsEnough(initial: Lead, s: State)
    requires Serial(initial, s) && Calm(s)
    ensures OrderlyFromHere(initial, Apply(s, ExpireLock))
  {
    var expired := Apply(s, ExpireLock);
    StepKeepsSerial(initial, s, ExpireLock);
    forall steps | ExpiresCalmly(expired, steps)
      ensures Orderly(initial, Exec(expired, steps))
    {
      RunKeepsSerial(initial, expired, steps);
    }
  }

  // ----- What the others can do meanwhile --------------------------------------------------------------

  lemma Unroll4(s: State, a: Step, b: Step, c: Step, d: Step)
    ensures Exec(s, [a, b, c, d]) == Apply(Apply(Apply(Apply(s, a), b), c), d)
  {
    assert [a, b, c, d][1..] == [b, c, d] && [b, c, d][1..] == [c, d] && [c, d][1..] == [d] && [d][1..] == [];
    assert Exec(s, [a, b, c, d]) == Exec(Apply(s, a), [b, c, d]);
    assert Exec(Apply(s, a), [b, c, d]) == Exec(Apply(Apply(s, a), b), [c, d]);
    assert Exec(Apply(Apply(s, a), b), [c, d]) == Exec(Apply(Apply(Apply(s, a), b), c), [d]);
  }

  function Release(m: Pid): seq<Step> {
    [LockForRelease(m, "manager", true), Read(m), Write(m), Unlock(m)]
  }

  function ClaimBy(q: Pid, user: User): seq<Step> {
    [LockForClaim(q, user), Read(q), Write(q), Unlock(q)]
  }

  function Freed(s: State): State {
    s.(lead := WithoutClaim(s.lead, s.now), log := s.log + [Released("manager", true, s.lead, s.lead)])
  }

  function Taken(s: State, user: User): State {
    s.(lead := WithClaim(s.lead, user, s.now, s.lead.history), log := s.log + [Claimed(Claim(user, s.now))])
  }

  /// A manager releases the lead while the lock is free.
  lemma ManagerReleases(s: State, m: Pid)
    requires s.lock.None? && m !in s.pcs
    ensures Exec(s, Release(m)) == Freed(s)
  {
    var read := Apply(Apply(s, LockForRelease(m, "manager", true)), Read(m));
    assert read == s.(lock := Some(m), pcs := s.pcs[m := ReleaseRead("manager", true, s.lead)]);
    var end := Apply(Apply(read, Write(m)), Unlock(m));
    assert end.pcs == s.pcs;
    Unroll4(s, LockForRelease(m, "manager", true), Read(m), Write(m), Unlock(m));
  }

  /// Somebody claims the free lead while the lock is free.
  lemma SomebodyClaims(s: State, q: Pid, user: User)
    requires s.lock.None? && q !in s.pcs && !s.lead.archived && s.lead.assignedTo.None?
    ensures Exec(s, ClaimBy(q, user)) == Taken(s, user)
  {
    var read := Apply(Apply(s, LockForClaim(q, user)), Read(q));
    assert read == s.(lock := Some(q), pcs := s.pcs[q := ClaimRead(user, s.now, s.lead.history)]);
    var end := Apply(Apply(read, Write(q)), Unlock(q));
    assert end.pcs == s.pcs;
    Unroll4(s, LockForClaim(q, user), Read(q), Write(q), Unlock(q));
  }

  /// The lead made free if it is not, by a manager.
  lemma MakeFree(initial: Lead, s: State) returns (steps: seq<Step>)
    requires s.lock.None? && Orderly(initial, s)
    ensures NoExpiry(steps)
    ensures
      var s' := Exec(s, steps);
      && (s' == s || s' == Freed(s)) && s'.lead.assignedTo.None? && s'.lead.history == s.lead.history
      && Orderly(initial, s')
  {
    if s.lead.assignedTo.None? {
      steps := [];
    } else {
      var m := UnusedNumber(s.pcs.Keys);
      ManagerReleases(s, m);
      FreeingIsOrderly(initial, s);
      steps := Release(m);
    }
  }

  lemma FreeingIsOrderly(initial: Lead, s: State)
    requires Orderly(initial, s)
    ensures Orderly(initial, Freed(s))
  {
    ClaimsInAppend(s.log, Released("manager", true, s.lead, s.lead));
  }

  lemma TakingIsOrderly(initial: Lead, s: State, user: User)
    requires Orderly(initial, s)
    ensures Orderly(initial, Taken(s, user))
  {
    ClaimsInAppend(s.log, Claimed(Claim(user, s.now)));
  }

  /// Uninterrupted, the steps of a claim are the service's call: the lead of a free and unarchived row goes
  /// to the caller with one more entry in its history, and any other row stays as it is.
  lemma UninterruptedClaim(s: State, p: Pid, user: User)
    requires s.lock.None? && p !in s.pcs
    ensures
      var s' := Exec(s, ClaimBy(p, user));
      && s'.pcs == s.pcs && s'.lock.None?
      && (if s.lead.archived || s.lead.assignedTo.Some? then s' == s
          else s'.lead == s.lead.(assignedTo := Some(user), claimedBy := Some(user), claimedAt := Some(s.now),
                                  history := s.lead.history + [Claim(user, s.now)])
               && s'.log == s.log + [Claimed(Claim(user, s.now))])
  {
    if s.lead.archived || s.lead.assignedTo.Some? {
      var locked := Apply(s, LockForClaim(p, user));
      assert locked == s.(lock := Some(p), pcs := s.pcs[p := ClaimLocked(user)]);
      var read := Apply(locked, Read(p));
      assert read == s.(lock := Some(p), pcs := s.pcs[p := Unlocking]);
      assert Apply(Apply(read, Write(p)), Unlock(p)).pcs == s.pcs;
      Unroll4(s, LockForClaim(p, user), Read(p), Write(p), Unlock(p));
    } else {
      SomebodyClaims(s, p, user);
    }
  }

  /// A claim is written only over a row that is free and not archived at that moment, whatever its caller
  /// has read.
  lemma ClaimsNeedAFreeRow(s: State, step: Step)
    ensures
      var s' := Apply(s, step);
      |s'.log| > |s.log| && s'.log[|s.log|].Claimed? ==> s.lead.assignedTo.None? && !s.lead.archived
  {
  }

  /// A release asks whose claim stands, not whom the lead has been assigned to since: whoever that is
  /// loses it.
  lemma ReleaseTakesAssignedLead(lead: Lead, now: int, p: Pid, user: User, owner: User)
    requires lead.claimedBy == Some(user) && WithinWindow(lead, now)
    ensures
      var s := Exec(Start(lead, now), [Assign(Some(owner)), LockForRelease(p, user, false), Read(p), Write(p)]);
      s.lead.assignedTo.None? && |s.log| == 2 && s.log[0] == Assigned(Some(owner)) && s.log[1].Released?
  {
    var start := Start(lead, now);
    Unroll4(start, Assign(Some(owner)), LockForRelease(p, user, false), Read(p), Write(p));
    var handed := Apply(start, Assign(Some(owner)));
    var seen := Apply(Apply(handed, LockForRelease(p, user, false)), Read(p));
    assert seen.pcs == map[p := ReleaseRead(user, false, handed.lead)];
  }

  // ----- A claim without its lock ---------------------------------------------------------------------

  /// The history it read is the current one; after another claim and a release its write loses that claim.
  lemma StaleClaimLosesAnother(initial: Lead, s: State, p: Pid) returns (steps: seq<Step>)
    requires s.lock.None? && !s.lead.archived && s.lead.assignedTo.None? && Orderly(initial, s)
    requires p in s.pcs && s.pcs[p].ClaimRead? && s.pcs[p].history == s.lead.history
    ensures
      var s' := Exec(s, steps);
      NoExpiry(steps) && |s'.lead.history| < |initial.history| + |ClaimsIn(s'.log)|
  {
    var q := UnusedNumber(s.pcs.Keys);
    SomebodyClaims(s, q, "another");
    TakingIsOrderly(initial, s, "another");
    var taken := Taken(s, "another");
    ManagerReleases(taken, q);
    FreeingIsOrderly(initial, taken);
    var freed := Freed(taken);
    var user, at := s.pcs[p].user, s.pcs[p].at;
    var written := Apply(freed, Write(p));
    ClaimsInAppend(freed.log, Claimed(Claim(user, at)));
    steps := ClaimBy(q, "another") + Release(q) + [Write(p)];
    ExecSplit(s, ClaimBy(q, "another"), Release(q));
    ExecSplit(s, ClaimBy(q, "another") + Release(q), [Write(p)]);
    assert Exec(freed, [Write(p)]) == written;
  }

  lemma ClaimUnderExpiredLock(initial: Lead, s: State, p: Pid) returns (steps: seq<Step>)
    requires s.lock.None? && !s.lead.archived && Orderly(initial, s) && p in s.pcs
    requires s.pcs[p].ClaimLocked? || (s.pcs[p].ClaimRead? && s.pcs[p].history == s.lead.history)
    ensures NoExpiry(steps) && !Orderly(initial, Exec(s, steps))
  {
    var free := MakeFree(initial, s);
    var s1 := Exec(s, free);
    var read: seq<Step> := [];
    if s.pcs[p].ClaimLocked? {
      read := [Read(p)];
      assert Exec(s1, read) == Apply(s1, Read(p));
    }
    var s2 := Exec(s1, read);
    var rest := StaleClaimLosesAnother(initial, s2, p);
    steps := free + read + rest;
    ExecSplit(s, free, read);
    ExecSplit(s, free + read, rest);
  }

  // ----- A release without its lock ---------------------------------------------------------------------

  /// A manager's release in between leaves a row that differs from the one the caller saw.
  lemma StaleReleaseIsDishonest(initial: Lead, s: State, p: Pid) returns (steps: seq<Step>)
    requires s.lock.None? && p in s.pcs && s.pcs[p].ReleaseRead?
    ensures NoExpiry(steps) && !Orderly(initial, Exec(s, steps))
  {
    var seen := s.pcs[p].seen;
    var wait := if seen.releasedAt == Some(s.now) then 1 else 0;
    var later := Apply(s, Tick(wait));
    var m := UnusedNumber(s.pcs.Keys);
    ManagerReleases(later, m);
    var freed := Freed(later);
    var written := Apply(freed, Write(p));
    assert !HonestRelease(written.log[|freed.log|]);
    steps := [Tick(wait)] + Release(m) + [Write(p)];
    assert Exec(s, [Tick(wait)]) == later;
    ExecSplit(s, [Tick(wait)], Release(m));
    ExecSplit(s, [Tick(wait)] + Release(m), [Write(p)]);
    assert Exec(freed, [Write(p)]) == written;
  }

  /// A caller who may not release yet may once the lead has been claimed in that user's name.
  lemma MakeReleasable(initial: Lead, s: State, user: User) returns (steps: seq<Step>)
    requires s.lock.None? && !s.lead.archived && Orderly(initial, s)
    ensures NoExpiry(steps)
    ensures
      var s' := Exec(s, steps);
      s'.lock.None? && s'.pcs == s.pcs && MayRelease(s'.lead, user, false, s'.now)
  {
    var free := MakeFree(initial, s);
    var q := UnusedNumber(s.pcs.Keys);
    SomebodyClaims(Exec(s, free), q, user);
    steps := free + ClaimBy(q, user);
    ExecSplit(s, free, ClaimBy(q, user));
  }

  lemma ReleaseUnderExpiredLock(initial: Lead, s: State, p: Pid) returns (steps: seq<Step>)
    requires s.lock.None? && Orderly(initial, s) && p in s.pcs
    requires s.pcs[p].ReleaseRead? || (s.pcs[p].ReleaseLocked? && !s.lead.archived)
    ensures NoExpiry(steps) && !Orderly(initial, Exec(s, steps))
  {
    if s.pcs[p].ReleaseRead? {
      steps := StaleReleaseIsDishonest(initial, s, p);
    } else {
      var user, manager := s.pcs[p].user, s.pcs[p].manager;
      var ready: seq<Step> := [];
      if !MayRelease(s.lead, user, manager, s.now) {
        ready := MakeReleasable(initial, s, user);
      }
      var s1 := Exec(s, ready);
      var s2 := Apply(s1, Read(p));
      assert s2.pcs[p] == ReleaseRead(user, manager, s1.lead);
      var rest := StaleReleaseIsDishonest(initial, s2, p);
      steps := ready + ([Read(p)] + rest);
      assert ([Read(p)] + rest)[1..] == rest;
      ExecSplit(s, ready, [Read(p)] + rest);
    }
  }

  // ----- The exact condition -------------------------------------------------------------------------------

  /// An archived lead is taken back first.
  lemma NotCalmGoesWrong(initial: Lead, s: State) returns (steps: seq<Step>)
    requires Serial(initial, s) && !Calm(s)
    ensures NoExpiry(steps) && !Orderly(initial, Exec(Apply(s, ExpireLock), steps))
  {
    var expired, p := Apply(s, ExpireLock), s.lock.value;
    var back := Apply(expired, Unarchive);
    assert Current(s, s.pcs[p]);
    var rest: seq<Step>;
    if s.pcs[p].ClaimLocked? || s.pcs[p].ClaimRead? {
      rest := ClaimUnderExpiredLock(initial, back, p);
    } else {
      rest := ReleaseUnderExpiredLock(initial, back, p);
    }
    steps := [Unarchive] + rest;
    assert steps[1..] == rest;
  }

  /// Exactly when an expiry of the claim lock is safe: when its holder has written or given up. An archived
  /// lead is no exception, since it can be taken back. Otherwise some continuation loses a claim from
  /// the history, or releases another claim than the one the caller saw.
  lemma OrderlyAfterExpiryIff(initial: Lead, s: State)
    requires Serial(initial, s)
    ensures OrderlyFromHere(initial, Apply(s, ExpireLock)) <==> Calm(s)
  {
    if Calm(s) {
      CalmIsEnough(initial, s);
    } else {
      var steps := NotCalmGoesWrong(initial, s);
      CalmWithoutExpiry(Apply(s, ExpireLock), steps);
      assert ExpiresCalmly(Apply(s, ExpireLock), steps) && !Orderly(initial, Exec(Apply(s, ExpireLock), steps));
    }
  }

  /// So whoever claims a free lead and loses the lock between read and write may erase another claim.
  lemma ExpiryMidClaimLosesHistory(lead: Lead, now: int, p: Pid, user: User)
    requires lead.assignedTo.None? && !lead.archived
    ensures
      var read := [LockForClaim(p, user), Read(p), ExpireLock];
      exists steps :: NoExpiry(steps)
        && var s := Exec(Start(lead, now), read + steps); |s.lead.history| < |lead.history| + |ClaimsIn(s.log)|
  {
    var start, read := Start(lead, now), [LockForClaim(p, user), Read(p), ExpireLock];
    var s := State(now, lead, None, map[p := ClaimRead(user, now, lead.history)], []);
    assert Apply(Apply(Apply(start, read[0]), read[1]), read[2]) == s;
    Unroll3(start, read[0], read[1], read[2]);
    var steps := StaleClaimLosesAnother(lead, s, p);
    ExecSplit(start, read, steps);
    assert NoExpiry(steps);
  }

  lemma Unroll3(s: State, a: Step, b: Step, c: Step)
    ensures Exec(s, [a, b, c]) == Apply(Apply(Apply(s, a), b), c)
  {
    assert [a, b, c][1..] == [b, c] && [b, c][1..] == [c] && [c][1..] == [];
    assert Exec(s, [a, b, c]) == Exec(Apply(s, a), [b, c]);
    assert Exec(Apply(s, a), [b, c]) == Exec(Apply(Apply(s, a), b), [c]);
  }
}
