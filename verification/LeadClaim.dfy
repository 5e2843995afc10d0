/// Claiming and releasing a lead: a Redis lock serialises contenders, and a conditional update of
/// the row is the source of truth.
module LeadClaim {
  import opened Common
  import opened Redis
  import ClaimTokens
  import Decimal

  type User = string

  const RELEASE_WINDOW_MS := 5 * 60000

  datatype Claim = Claim(user: User, at: int)

  datatype Lead = Lead(
    tenant: string, assignedTo: Option<User>, claimedBy: Option<User>, claimedAt: Option<int>,
    releasedAt: Option<int>, history: seq<Claim>, archived: bool)

  /// The row a winning claim writes; `history` is the list its caller read before.
  function WithClaim(lead: Lead, user: User, at: int, history: seq<Claim>): Lead {
    lead.(assignedTo := Some(user), claimedBy := Some(user), claimedAt := Some(at),
          history := history + [Claim(user, at)])
  }

  function WithoutClaim(lead: Lead, at: int): Lead {
    lead.(assignedTo := None, claimedBy := None, releasedAt := Some(at))
  }

  predicate WithinWindow(lead: Lead, now: int) {
    lead.claimedAt.Some? && now - lead.claimedAt.value < RELEASE_WINDOW_MS
  }

  predicate MayRelease(lead: Lead, user: User, manager: bool, now: int) {
    manager || (lead.claimedBy == Some(user) && WithinWindow(lead, now))
  }

  // ----- The service, one call at a time ------------------------------------------------------------

  datatype Outcome = Done | NotFound | Conflict | Forbidden

  function LockKey(tenant: string, leadId: string): string {
    "lead:" + tenant + ":" + leadId + ":claim-lock"
  }

  /// Two leads never share a lock.
  lemma LockKeysTell(tenant: string, leadId: string, other: string, otherId: string)
    requires ':' !in tenant && ':' !in other
    ensures LockKey(tenant, leadId) == LockKey(other, otherId) <==> tenant == other && leadId == otherId
  {
    var (a, b) := (LockKey(tenant, leadId), LockKey(other, otherId));
    if a == b {
      assert a[5..|a| - 11] == tenant + [':'] + leadId && b[5..|b| - 11] == other + [':'] + otherId;
      Decimal.CutUnique(tenant, leadId, other, otherId, ':');
    }
  }

  class LmsDataFeedService {
    const redis: RedisService
    var leads: map<string, Lead>

    constructor (redis: RedisService, leads: map<string, Lead>)
      ensures this.redis == redis && this.leads == leads
    {
      this.redis, this.leads := redis, leads;
    }

    method ClaimLead(tenant: string, leadId: string, user: User, mintedAt: nat, now: int) returns (outcome: Outcome)
      modifies this`leads, redis`store
      ensures redis.ready && old(Live(redis.store, LockKey(tenant, leadId))) ==>
        outcome == Conflict && leads == old(leads) && redis.store == old(redis.store)
      ensures !(redis.ready && old(Live(redis.store, LockKey(tenant, leadId)))) ==>
        && (outcome.NotFound? <==>
              !(leadId in old(leads) && old(leads)[leadId].tenant == tenant && !old(leads)[leadId].archived))
        && (outcome.Done? <==> !outcome.NotFound? && old(leads)[leadId].assignedTo.None?)
        && leads == (if outcome.Done?
             then old(leads)[leadId := old(leads)[leadId].(
                    assignedTo := Some(user), claimedBy := Some(user), claimedAt := Some(now),
                    history := old(leads)[leadId].history + [Claim(user, now)])]
             else old(leads))
      ensures redis.ready && !old(Live(redis.store, LockKey(tenant, leadId))) ==>
        !Live(redis.store, LockKey(tenant, leadId))
    {
      var lockKey := LockKey(tenant, leadId);
      var token := ClaimTokens.Token(ClaimTokens.Ticket(user, false, mintedAt));
      var acquired := redis.TryLock(lockKey, token, ClaimTokens.CLAIM_LOCK_TTL_MS);
      if !acquired {
        return Conflict;
      }
      if leadId !in leads || leads[leadId].tenant != tenant || leads[leadId].archived {
        outcome := NotFound;
      } else if leads[leadId].assignedTo.Some? {
        outcome := Conflict;
      } else {
        leads := leads[leadId := WithClaim(leads[leadId], user, now, leads[leadId].history)];
        outcome := Done;
      }
      redis.ReleaseLock(lockKey, token);
    }

    method ReleaseLead(tenant: string, leadId: string, user: User, manager: bool, mintedAt: nat, now: int)
      returns (outcome: Outcome)
      modifies this`leads, redis`store
      ensures redis.ready && old(Live(redis.store, LockKey(tenant, leadId))) ==>
        outcome == Conflict && leads == old(leads) && redis.store == old(redis.store)
      ensures !(redis.ready && old(Live(redis.store, LockKey(tenant, leadId)))) ==>
        && (outcome.NotFound? <==> !(leadId in old(leads) && old(leads)[leadId].tenant == tenant))
        && (outcome.Done? <==> (
              && !outcome.NotFound?
              && (manager || (old(leads)[leadId].claimedBy == Some(user) && old(leads)[leadId].claimedAt.Some?
                              && now < old(leads)[leadId].claimedAt.value + 5 * 60 * 1000))))
        && (outcome.Forbidden? <==> !outcome.NotFound? && !outcome.Done?)
        && leads == (if outcome.Done?
             then old(leads)[leadId := old(leads)[leadId].(
                    assignedTo := None, claimedBy := None, releasedAt := Some(now))]
             else old(leads))
      ensures redis.ready && !old(Live(redis.store, LockKey(tenant, leadId))) ==>
        !Live(redis.store, LockKey(tenant, leadId))
    {
      var lockKey := LockKey(tenant, leadId);
      var token := ClaimTokens.Token(ClaimTokens.Ticket(user, true, mintedAt));
      var acquired := redis.TryLock(lockKey, token, ClaimTokens.CLAIM_LOCK_TTL_MS);
      if !acquired {
        return Conflict;
      }
      if leadId !in leads || leads[leadId].tenant != tenant {
        outcome := NotFound;
      } else if leads[leadId].claimedBy != Some(user) && !manager {
        outcome := Forbidden;
      } else if !manager && !WithinWindow(leads[leadId], now) {
        outcome := Forbidden;
      } else {
        leads := leads[leadId := WithoutClaim(leads[leadId], now)];
        outcome := Done;
      }
      redis.ReleaseLock(lockKey, token);
    }
  }

  // ----- Concurrent calls on one lead: one command or statement at a time ------------------------------

  type Pid = nat

  datatype Pc =
    | ClaimLocked(user: User)
    | ClaimRead(user: User, at: int, history: seq<Claim>)
    | ReleaseLocked(user: User, manager: bool)
    | ReleaseRead(user: User, manager: bool, seen: Lead)
    | Unlocking

  /// A successful claim, a release write with the row its caller had read and the row it replaced, or an
  /// assignment from outside.
  datatype Event =
    | Claimed(claim: Claim)
    | Released(user: User, manager: bool, seen: Lead, cleared: Lead)
    | Assigned(owner: Option<User>)

  datatype State = State(now: int, lead: Lead, lock: Option<Pid>, pcs: map<Pid, Pc>, log: seq<Event>)

  /// The last three are what the rest of the application does to the row without taking the lock: editing,
  /// assigning and archiving leads, and clearing up duplicates.
  datatype Step =
    | LockForClaim(pid: Pid, user: User)
    | LockForRelease(pid: Pid, user: User, manager: bool)
    | Read(pid: Pid)
    | Write(pid: Pid)
    | Unlock(pid: Pid)
    | ExpireLock
    | Tick(ms: nat)
    | Assign(owner: Option<User>)
    | Archive
    | Unarchive

  function TryLockStep(s: State, p: Pid, pc: Pc): State {
    if p in s.pcs || s.lock.Some? then s else s.(lock := Some(p), pcs := s.pcs[p := pc])
  }

  function ReadStep(s: State, p: Pid): State
    requires p in s.pcs
  {
    match s.pcs[p]
    case ClaimLocked(user) =>
      s.(pcs := s.pcs[p := if s.lead.archived || s.lead.assignedTo.Some? then Unlocking
                           else ClaimRead(user, s.now, s.lead.history)])
    case ReleaseLocked(user, manager) =>
      s.(pcs := s.pcs[p := if MayRelease(s.lead, user, manager, s.now) then ReleaseRead(user, manager, s.lead)
                           else Unlocking])
    case _ => s
  }

  function WriteStep(s: State, p: Pid): State
    requires p in s.pcs
  {
    match s.pcs[p]
    case ClaimRead(user, at, history) =>
      if s.lead.assignedTo.Some? || s.lead.archived then s.(pcs := s.pcs[p := Unlocking])
      else s.(lead := WithClaim(s.lead, user, at, history), pcs := s.pcs[p := Unlocking],
              log := s.log + [Claimed(Claim(user, at))])
    case ReleaseRead(user, manager, seen) =>
      s.(lead := WithoutClaim(s.lead, s.now), pcs := s.pcs[p := Unlocking],
         log := s.log + [Released(user, manager, seen, s.lead)])
    case _ => s
  }

  function Apply(s: State, step: Step): State {
    match step
    case LockForClaim(p, user) => TryLockStep(s, p, ClaimLocked(user))
    case LockForRelease(p, user, manager) => TryLockStep(s, p, ReleaseLocked(user, manager))
    case Read(p) => if p in s.pcs then ReadStep(s, p) else s
    case Write(p) => if p in s.pcs then WriteStep(s, p) else s
    case Unlock(p) =>
      if p !in s.pcs || !s.pcs[p].Unlocking? then s
      else s.(lock := if s.lock == Some(p) then None else s.lock, pcs := s.pcs - {p})
    case ExpireLock => s.(lock := None)
    case Tick(ms) => s.(now := s.now + ms)
    case Assign(owner) => s.(lead := s.lead.(assignedTo := owner), log := s.log + [Assigned(owner)])
    case Archive => s.(lead := s.lead.(archived := true))
    case Unarchive => s.(lead := s.lead.(archived := false))
  }

  function Exec(s: State, steps: seq<Step>): State
    decreases |steps|
  {
    if steps == [] then s else Exec(Apply(s, steps[0]), steps[1..])
  }

  function Start(lead: Lead, now: int): State {
    State(now, lead, None, map[], [])
  }

  /// Who the lead is assigned to after these events.
  function OwnerAfter(initial: Option<User>, log: seq<Event>): Option<User> {
    if log == [] then initial
    else match log[|log| - 1]
      case Claimed(claim) => Some(claim.user)
      case Released(_, _, _, _) => None
      case Assigned(owner) => owner
  }

  /// Whose claim stands after them: assignments do not touch it.
  function ClaimerAfter(initial: Option<User>, log: seq<Event>): Option<User> {
    if log == [] then initial
    else match log[|log| - 1]
      case Claimed(claim) => Some(claim.user)
      case Released(_, _, _, _) => None
      case Assigned(_) => ClaimerAfter(initial, log[..|log| - 1])
  }

  predicate Frees(e: Event) {
    e.Released? || e == Assigned(None)
  }

  ghost predicate ClaimsWereFree(initial: Option<User>, log: seq<Event>) {
    forall i | 0 <= i < |log| && log[i].Claimed? :: OwnerAfter(initial, log[..i]) == None
  }

  ghost predicate RowInv(initial: Lead, s: State) {
    && s.lead.assignedTo == OwnerAfter(initial.assignedTo, s.log)
    && s.lead.claimedBy == ClaimerAfter(initial.claimedBy, s.log)
    && ClaimsWereFree(initial.assignedTo, s.log)
  }

  lemma AppendKeepsFree(initial: Option<User>, log: seq<Event>, e: Event)
    requires ClaimsWereFree(initial, log) && (e.Claimed? ==> OwnerAfter(initial, log) == None)
    ensures ClaimsWereFree(initial, log + [e])
  {
    forall i | 0 <= i < |log + [e]| && (log + [e])[i].Claimed?
      ensures OwnerAfter(initial, (log + [e])[..i]) == None
    {
      assert (log + [e])[..i] == log[..i];
      if i == |log| {
        assert log[..i] == log;
      }
    }
  }

  lemma EventKeepsRow(initial: Lead, s: State, s': State, e: Event)
    requires RowInv(initial, s) && s'.log == s.log + [e]
    requires e.Claimed? ==> s.lead.assignedTo.None?
    requires match e
      case Claimed(claim) => s'.lead.assignedTo == s'.lead.claimedBy == Some(claim.user)
      case Released(_, _, _, _) => s'.lead.assignedTo == s'.lead.claimedBy == None
      case Assigned(owner) => s'.lead.assignedTo == owner && s'.lead.claimedBy == s.lead.claimedBy
    ensures RowInv(initial, s')
  {
    hide ClaimsWereFree;
    assert s'.log[..|s.log|] == s.log;
    AppendKeepsFree(initial.assignedTo, s.log, e);
  }

  lemma StepKeepsRow(initial: Lead, s: State, step: Step)
    requires RowInv(initial, s)
    ensures RowInv(initial, Apply(s, step))
  {
    hide ClaimsWereFree, OwnerAfter, ClaimerAfter;
    var s' := Apply(s, step);
    if s'.log != s.log {
      EventKeepsRow(initial, s, s', s'.log[|s.log|]);
    }
  }

  lemma {:induction false} RunKeepsRow(initial: Lead, s: State, steps: seq<Step>)
    requires RowInv(initial, s)
    ensures RowInv(initial, Exec(s, steps))
    decreases |steps|
  {
    hide RowInv, Apply;
    if steps != [] {
      StepKeepsRow(initial, s, steps[0]);
      RunKeepsRow(initial, Apply(s, steps[0]), steps[1..]);
    }
  }

  /// The lead is never assigned from outside.
  predicate Untouched(steps: seq<Step>) {
    forall i | 0 <= i < |steps| :: !steps[i].Assign?
  }

  predicate NoneAssigned(log: seq<Event>) {
    forall i | 0 <= i < |log| :: !log[i].Assigned?
  }

  lemma {:induction false} UntouchedLog(s: State, steps: seq<Step>)
    requires Untouched(steps) && NoneAssigned(s.log)
    ensures NoneAssigned(Exec(s, steps).log)
    decreases |steps|
  {
    if steps != [] {
      UntouchedLog(Apply(s, steps[0]), steps[1..]);
    }
  }

  lemma {:induction false} SameColumns(initial: Option<User>, log: seq<Event>)
    requires NoneAssigned(log)
    ensures OwnerAfter(initial, log) == ClaimerAfter(initial, log)
  {
  }

  lemma ClaimNeedsFree(initial: Option<User>, log: seq<Event>, j: nat)
    requires ClaimsWereFree(initial, log) && j < |log| && log[j].Claimed?
    ensures if j == 0 then initial.None? else Frees(log[j - 1])
  {
    assert OwnerAfter(initial, log[..j]) == None;
    if j > 0 {
      assert log[..j][j - 1] == log[j - 1];
    }
  }

  /// Even if locks expire at any moment and leads are edited meanwhile: the assignment is that of the last
  /// event, the claim that of the last claim or release, and just before a successful claim the lead has
  /// been freed, by a release or by an assignment to nobody. So between two claims there is one of these;
  /// and as long as nobody assigns from outside, it is a release and the two columns agree.
  lemma ClaimsAlternateWithReleases(lead: Lead, now: int, steps: seq<Step>, i: nat, j: nat)
    ensures
      var s := Exec(Start(lead, now), steps);
      && s.lead.assignedTo == OwnerAfter(lead.assignedTo, s.log)
      && s.lead.claimedBy == ClaimerAfter(lead.claimedBy, s.log)
      && (i < j < |s.log| && s.log[i].Claimed? && s.log[j].Claimed? ==>
            exists k :: i < k < j && Frees(s.log[k]))
      && (j < |s.log| && s.log[j].Claimed? && lead.assignedTo.Some? ==>
            exists k :: 0 <= k < j && Frees(s.log[k]))
      && (Untouched(steps) ==> forall k | 0 <= k < |s.log| && Frees(s.log[k]) :: s.log[k].Released?)
      && (Untouched(steps) && lead.assignedTo == lead.claimedBy ==> s.lead.assignedTo == s.lead.claimedBy)
  {
    hide Exec;
    RunKeepsRow(lead, Start(lead, now), steps);
    var s := Exec(Start(lead, now), steps);
    if j < |s.log| && s.log[j].Claimed? {
      ClaimNeedsFree(lead.assignedTo, s.log, j);
    }
    if Untouched(steps) {
      UntouchedLog(Start(lead, now), steps);
      SameColumns(lead.assignedTo, s.log);
    }
  }

  // ----- While no lock expires before its holder is done ------------------------------------------------

  predicate Busy(pc: Pc) {
    !pc.Unlocking?
  }

  /// The lock may expire: nobody holds it, or its holder has written or given up.
  predicate Calm(s: State) {
    s.lock.Some? && s.lock.value in s.pcs ==> !Busy(s.pcs[s.lock.value])
  }

  ghost predicate ExpiresCalmly(s: State, steps: seq<Step>)
    decreases |steps|
  {
    steps != [] ==>
      && (steps[0].ExpireLock? ==> Calm(s))
      && ExpiresCalmly(Apply(s, steps[0]), steps[1..])
  }

  function ClaimsIn(log: seq<Event>): seq<Claim> {
    if log == [] then []
    else ClaimsIn(log[..|log| - 1]) + (if log[|log| - 1].Claimed? then [log[|log| - 1].claim] else [])
  }

  predicate SameClaim(a: Lead, b: Lead) {
    a.(archived := b.archived, assignedTo := b.assignedTo) == b
  }

  /// A release cleared the very claim its caller had looked at.
  predicate HonestRelease(e: Event) {
    e.Released? ==> SameClaim(e.seen, e.cleared) && (!e.manager ==> e.cleared.claimedBy == Some(e.user))
  }

  /// Every busy call holds the lock.
  predicate Guarded(s: State) {
    forall p | p in s.pcs && Busy(s.pcs[p]) :: s.lock == Some(p)
  }

  /// What a call has read is still in the row.
  predicate Current(s: State, pc: Pc) {
    && (pc.ClaimRead? ==> pc.history == s.lead.history)
    && (pc.ReleaseRead? ==> SameClaim(pc.seen, s.lead) && (!pc.manager ==> pc.seen.claimedBy == Some(pc.user)))
  }

  predicate Informed(s: State) {
    forall p | p in s.pcs :: Current(s, s.pcs[p])
  }

  ghost predicate Serial(initial: Lead, s: State) {
    Guarded(s) && Informed(s) && Orderly(initial, s)
  }

  /// The history is the ordered log of the claims, and every release was honest.
  ghost predicate Orderly(initial: Lead, s: State) {
    && s.lead.history == initial.history + ClaimsIn(s.log)
    && (forall i | 0 <= i < |s.log| :: HonestRelease(s.log[i]))
  }

  lemma WriteKeepsGuarded(s: State, p: Pid)
    requires Guarded(s) && p in s.pcs
    ensures Guarded(WriteStep(s, p))
  {
    var s' := WriteStep(s, p);
    forall q | q in s'.pcs && Busy(s'.pcs[q])
      ensures s'.lock == Some(q)
    {
      if q != p {
        assert s'.pcs[q] == s.pcs[q];
      }
    }
  }

  /// Only the holder's write changes the row, and nobody else has read anything from it by then.
  lemma WriteKeepsInformed(s: State, p: Pid)
    requires Guarded(s) && Informed(s) && p in s.pcs
    ensures Informed(WriteStep(s, p))
  {
    var s' := WriteStep(s, p);
    forall q | q in s'.pcs
      ensures Current(s', s'.pcs[q])
    {
      assert Current(s, s.pcs[p]);
      if q != p {
        assert s'.pcs[q] == s.pcs[q] && Current(s, s.pcs[q]);
      }
    }
  }

  lemma ClaimsInAppend(log: seq<Event>, e: Event)
    ensures ClaimsIn(log + [e]) == ClaimsIn(log) + if e.Claimed? then [e.claim] else []
  {
    assert (log + [e])[..|log|] == log;
  }

  lemma WriteKeepsOrderly(initial: Lead, s: State, p: Pid)
    requires Serial(initial, s) && p in s.pcs
    ensures Orderly(initial, WriteStep(s, p))
  {
    hide ClaimsIn;
    var s' := WriteStep(s, p);
    assert Current(s, s.pcs[p]);
    if s'.log != s.log {
      ClaimsInAppend(s.log, s'.log[|s.log|]);
    }
  }

  lemma LockKeepsSerial(initial: Lead, s: State, p: Pid, pc: Pc)
    requires Serial(initial, s) && (pc.ClaimLocked? || pc.ReleaseLocked?)
    ensures Serial(initial, TryLockStep(s, p, pc))
  {
    hide ClaimsIn, HonestRelease;
    assert forall q | q in s.pcs :: Current(s, s.pcs[q]);
  }

  lemma ReadKeepsSerial(initial: Lead, s: State, p: Pid)
    requires Serial(initial, s) && p in s.pcs
    ensures Serial(initial, ReadStep(s, p))
  {
    hide ClaimsIn, HonestRelease;
    assert forall q | q in s.pcs :: Current(s, s.pcs[q]);
  }

  lemma StepKeepsSerial(initial: Lead, s: State, step: Step)
    requires Serial(initial, s)
    requires step.ExpireLock? ==> Calm(s)
    ensures Serial(initial, Apply(s, step))
  {
    hide ReadStep, WriteStep, TryLockStep;
    match step
    case LockForClaim(p, user) => LockKeepsSerial(initial, s, p, ClaimLocked(user));
    case LockForRelease(p, user, manager) => LockKeepsSerial(initial, s, p, ReleaseLocked(user, manager));
    case Read(p) => if p in s.pcs { ReadKeepsSerial(initial, s, p); }
    case Write(p) =>
      if p in s.pcs {
        WriteKeepsGuarded(s, p);
        WriteKeepsInformed(s, p);
        WriteKeepsOrderly(initial, s, p);
      }
    case Assign(owner) => AssignKeepsSerial(initial, s, owner);
    case _ => RestKeepsSerial(initial, s, step);
  }

  lemma AssignKeepsSerial(initial: Lead, s: State, owner: Option<User>)
    requires Serial(initial, s)
    ensures Serial(initial, Apply(s, Assign(owner)))
  {
    hide ClaimsIn;
    ClaimsInAppend(s.log, Assigned(owner));
    assert forall q | q in s.pcs :: Current(s, s.pcs[q]);
  }

  lemma RestKeepsSerial(initial: Lead, s: State, step: Step)
    requires Serial(initial, s) && (step.Unlock? || step.ExpireLock? || step.Tick? || step.Archive? || step.Unarchive?)
    requires step.ExpireLock? ==> Calm(s)
    ensures Serial(initial, Apply(s, step))
  {
    var s' := Apply(s, step);
    assert s'.log == s.log;
    forall q | q in s'.pcs
      ensures Current(s', s'.pcs[q])
    {
      assert Current(s, s.pcs[q]);
    }
  }

  lemma {:induction false} RunKeepsSerial(initial: Lead, s: State, steps: seq<Step>)
    requires Serial(initial, s) && ExpiresCalmly(s, steps)
    ensures Serial(initial, Exec(s, steps))
    decreases |steps|
  {
    if steps != [] {
      StepKeepsSerial(initial, s, steps[0]);
      RunKeepsSerial(initial, Apply(s, steps[0]), steps[1..]);
    }
  }

  /// Then the claim history is exactly the ordered log of the successful claims, and every release
  /// clears the claim its caller saw: its own one, unless a manager asked. (It clears the assignment too,
  /// seen or not.)
  lemma HistoryIsTheClaimLog(lead: Lead, now: int, steps: seq<Step>, i: nat)
    requires ExpiresCalmly(Start(lead, now), steps)
    ensures
      var s := Exec(Start(lead, now), steps);
      && s.lead.history == lead.history + ClaimsIn(s.log)
      && (i < |s.log| && s.log[i].Released? ==>
            && SameClaim(s.log[i].seen, s.log[i].cleared)
            && (!s.log[i].manager ==> s.log[i].cleared.claimedBy == Some(s.log[i].user)))
  {
    RunKeepsSerial(lead, Start(lead, now), steps);
    var s := Exec(Start(lead, now), steps);
    if i < |s.log| {
      assert HonestRelease(s.log[i]);
    }
  }

  lemma ExecSplit(s: State, first: seq<Step>, rest: seq<Step>)
    ensures Exec(s, first + rest) == Exec(Exec(s, first), rest)
    decreases |first|
  {
    if first == [] {
      assert first + rest == rest;
    } else {
      assert (first + rest)[1..] == first[1..] + rest;
      ExecSplit(Apply(s, first[0]), first[1..], rest);
    }
  }
}
