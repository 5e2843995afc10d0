/// Failed-login counters with exponential lockout, in the in-process mode where times are exact.
/// Times are milliseconds; each login attempt happens at one instant.
module LoginLockout {
  import opened Common

  const FAIL_WINDOW_SECONDS := 3600
  const MAX_FAILURES_BEFORE_LOCK := 5
  const BASE_LOCK_SECONDS := 30
  const MAX_LOCK_SECONDS := 3600
  const WINDOW_MS := FAIL_WINDOW_SECONDS * 1000

  datatype Scope = User | Ip

  /// A subject whose failures are counted: an e-mail address or an IP address.
  datatype Subject = Subject(scope: Scope, id: string)

  datatype Key = FailKey(who: Subject) | LockKey(who: Subject)

  datatype Entry = Entry(count: Option<nat>, lockedUntil: Option<int>, expiresAt: int)

  type Memory = map<Key, Entry>

  /// E-mails are compared in (ASCII) lower case; an empty IP address counts as none.
  datatype Context = Context(email: string, ip: Option<string>)

  function Lower(s: string): string {
    seq(|s|, i requires 0 <= i < |s| =>
      if 'A' <= s[i] <= 'Z' then (s[i] as int - 'A' as int + 'a' as int) as char else s[i])
  }

  function UserOf(ctx: Context): Subject {
    Subject(User, Lower(ctx.email))
  }

  function IpOf(ctx: Context): Option<Subject> {
    if ctx.ip.Some? && ctx.ip.value != "" then Some(Subject(Ip, ctx.ip.value)) else None
  }

  function Subjects(ctx: Context): set<Subject> {
    {UserOf(ctx)} + if IpOf(ctx).Some? then {IpOf(ctx).value} else {}
  }

  function Pow2(n: nat): nat {
    if n == 0 then 1 else 2 * Pow2(n - 1)
  }

  function LockDurationSeconds(failures: nat): int {
    if failures < MAX_FAILURES_BEFORE_LOCK then 0
    else Min(BASE_LOCK_SECONDS * Pow2(failures - MAX_FAILURES_BEFORE_LOCK), MAX_LOCK_SECONDS)
  }

  // ----- Specification functions -----------------------------------------------------------------

  predicate Locked(m: Memory, who: Subject, now: int) {
    LockKey(who) in m && m[LockKey(who)].lockedUntil.Some? && m[LockKey(who)].lockedUntil.value > now
  }

  /// Reading a lock that has run out removes it.
  function Forget(m: Memory, who: Subject, now: int): Memory {
    if LockKey(who) in m && m[LockKey(who)].lockedUntil.Some? && !Locked(m, who, now)
    then m - {LockKey(who)} else m
  }

  function Counted(m: Memory, who: Subject, now: int): nat {
    var key := FailKey(who);
    if key !in m || m[key].expiresAt < now then 1
    else 1 + if m[key].count.Some? then m[key].count.value else 0
  }

  function Bumped(m: Memory, who: Subject, now: int): Memory {
    var key, count := FailKey(who), Counted(m, who, now);
    var counted :=
      if key !in m || m[key].expiresAt < now
      then m[key := Entry(Some(1), None, now + WINDOW_MS)]
      else m[key := m[key].(count := Some(count))];
    var seconds := LockDurationSeconds(count);
    if seconds > 0 then counted[LockKey(who) := Entry(None, Some(now + seconds * 1000), now + seconds * 1000)]
    else counted
  }

  function Recorded(m: Memory, ctx: Context, now: int): Memory {
    var m1 := Bumped(m, UserOf(ctx), now);
    if IpOf(ctx).Some? then Bumped(m1, IpOf(ctx).value, now) else m1
  }

  function Cleared(m: Memory, ctx: Context): (r: Memory)
    ensures forall key :: key in r <==> key in m && key.who !in Subjects(ctx)
    ensures forall key | key in r :: r[key] == m[key]
  {
    m - (set who | who in Subjects(ctx) :: FailKey(who)) - (set who | who in Subjects(ctx) :: LockKey(who))
  }

  predicate Refused(m: Memory, ctx: Context, now: int) {
    exists who | who in Subjects(ctx) :: Locked(m, who, now)
  }

  function Checked(m: Memory, ctx: Context, now: int): Memory {
    var m1 := Forget(m, UserOf(ctx), now);
    if !Locked(m, UserOf(ctx), now) && IpOf(ctx).Some? then Forget(m1, IpOf(ctx).value, now) else m1
  }

  /// What the rest of login finds: bad credentials, an SSO-only tenant, or a valid password.
  datatype Credentials = Bad | SsoOnly | Good

  datatype Attempt = Attempt(now: int, ctx: Context, credentials: Credentials)

  function Login(m: Memory, a: Attempt): Memory {
    var checked := Checked(m, a.ctx, a.now);
    if Refused(m, a.ctx, a.now) then checked
    else match a.credentials
      case Bad => Recorded(checked, a.ctx, a.now)
      case SsoOnly => checked
      case Good => Cleared(checked, a.ctx)
  }

  // ----- The service ------------------------------------------------------------------------------

  datatype Verdict = TooManyRequests(retryAfterSeconds: int) | Unauthorized | LoggedIn

  class LoginLockoutService {
    var memory: Memory

    constructor ()
      ensures memory == map[]
    {
      memory := map[];
    }

    method GetLockTtlSeconds(who: Subject, now: int) returns (ttl: int)
      modifies this
      ensures memory == Forget(old(memory), who, now)
      ensures ttl > 0 <==> Locked(old(memory), who, now)
      ensures ttl > 0 ==> (ttl - 1) * 1000 < old(memory)[LockKey(who)].lockedUntil.value - now <= ttl * 1000
    {
      var key := LockKey(who);
      if key !in memory || memory[key].lockedUntil.None? {
        return 0;
      }
      var remaining := (memory[key].lockedUntil.value - now + 999) / 1000;
      if remaining <= 0 {
        memory := memory - {key};
        return 0;
      }
      return remaining;
    }

    method AssertNotLocked(ctx: Context, now: int) returns (retryAfter: Option<int>)
      modifies this
      ensures memory == Checked(old(memory), ctx, now)
      ensures retryAfter.Some? <==> Refused(old(memory), ctx, now)
      ensures retryAfter.Some? ==>
        var who := if Locked(old(memory), UserOf(ctx), now) then UserOf(ctx) else IpOf(ctx).value;
        && Locked(old(memory), who, now)
        && (retryAfter.value - 1) * 1000 < old(memory)[LockKey(who)].lockedUntil.value - now <= retryAfter.value * 1000
    {
      var userTtl := GetLockTtlSeconds(UserOf(ctx), now);
      if userTtl > 0 {
        return Some(userTtl);
      }
      var ip := IpOf(ctx);
      if ip.Some? {
        var ipTtl := GetLockTtlSeconds(ip.value, now);
        if ipTtl > 0 {
          return Some(ipTtl);
        }
      }
      return None;
    }

    method IncrWithWindow(who: Subject, windowSeconds: nat, now: int) returns (count: nat)
      modifies this
      ensures count == Counted(old(memory), who, now)
      ensures memory == old(memory)[FailKey(who) :=
        if FailKey(who) !in old(memory) || old(memory)[FailKey(who)].expiresAt < now
        then Entry(Some(1), None, now + windowSeconds * 1000)
        else old(memory)[FailKey(who)].(count := Some(count))]
    {
      var key := FailKey(who);
      if key !in memory || memory[key].expiresAt < now {
        memory := memory[key := Entry(Some(1), None, now + windowSeconds * 1000)];
        return 1;
      }
      count := 1 + if memory[key].count.Some? then memory[key].count.value else 0;
      memory := memory[key := memory[key].(count := Some(count))];
    }

    method BumpFailure(who: Subject, now: int)
      modifies this
      ensures memory == Bumped(old(memory), who, now)
    {
      var count := IncrWithWindow(who, FAIL_WINDOW_SECONDS, now);
      var seconds := LockDurationSeconds(count);
      if seconds > 0 {
        memory := memory[LockKey(who) := Entry(None, Some(now + seconds * 1000), now + seconds * 1000)];
      }
    }

    method RecordFailure(ctx: Context, now: int)
      modifies this
      ensures memory == Recorded(old(memory), ctx, now)
    {
      BumpFailure(UserOf(ctx), now);
      var ip := IpOf(ctx);
      if ip.Some? {
        BumpFailure(ip.value, now);
      }
    }

    method ClearFailures(ctx: Context)
      modifies this
      ensures memory == Cleared(old(memory), ctx)
    {
      hide Cleared;
      var user, ip := UserOf(ctx), IpOf(ctx);
      memory := memory - {FailKey(user), LockKey(user)};
      if ip.Some? {
        memory := memory - {FailKey(ip.value), LockKey(ip.value)};
      }
      assert forall key :: key in memory <==> key in old(memory) && key.who !in Subjects(ctx);
    }

    method Authenticate(a: Attempt) returns (verdict: Verdict)
      modifies this
      ensures memory == Login(old(memory), a)
      ensures verdict.TooManyRequests? <==> Refused(old(memory), a.ctx, a.now)
      ensures verdict.LoggedIn? <==> !verdict.TooManyRequests? && a.credentials.Good?
      ensures verdict.TooManyRequests? ==>
        var who := if Locked(old(memory), UserOf(a.ctx), a.now) then UserOf(a.ctx) else IpOf(a.ctx).value;
        && Locked(old(memory), who, a.now)
        && var left := old(memory)[LockKey(who)].lockedUntil.value - a.now;
           (verdict.retryAfterSeconds - 1) * 1000 < left <= verdict.retryAfterSeconds * 1000
    {
      var retryAfter := AssertNotLocked(a.ctx, a.now);
      if retryAfter.Some? {
        return TooManyRequests(retryAfter.value);
      }
      match a.credentials
      case Bad =>
        RecordFailure(a.ctx, a.now);
        return Unauthorized;
      case SsoOnly =>
        return Unauthorized;
      case Good =>
        ClearFailures(a.ctx);
        return LoggedIn;
    }
  }

  // ----- The bound on failures per window ---------------------------------------------------------

  /// Time that must lie between the first failure of a window and its n-th.
  function DelayMs(n: nat): nat {
    if n <= MAX_FAILURES_BEFORE_LOCK then 0 else DelayMs(n - 1) + LockDurationSeconds(n - 1) * 1000
  }

  const MAX_FAILURES := 11
  const LONGEST_LOCK_SECONDS := 1920

  lemma {:induction false} DelayMonotone(m: nat, n: nat)
    requires m <= n
    ensures DelayMs(m) <= DelayMs(n)
    decreases n - m
  {
    if m < n {
      DelayMonotone(m, n - 1);
      assert LockDurationSeconds(n - 1) >= 0;
    }
  }

  /// 30 + 60 + ... + 960 seconds let an eleventh failure happen; the next 1920 make a twelfth impossible.
  lemma DelayTable()
    ensures DelayMs(11) == 1_890_000 && DelayMs(12) == 3_810_000
    ensures LockDurationSeconds(11) == LONGEST_LOCK_SECONDS
    ensures forall n: nat | n <= 11 :: 0 <= LockDurationSeconds(n) <= LONGEST_LOCK_SECONDS
  {
    assert Pow2(0) == 1 && Pow2(1) == 2 && Pow2(2) == 4 && Pow2(3) == 8;
    assert Pow2(4) == 16 && Pow2(5) == 32 && Pow2(6) == 64;
    assert DelayMs(6) == 30_000;
    assert DelayMs(7) == 90_000;
    assert DelayMs(8) == 210_000;
    assert DelayMs(9) == 450_000;
    assert DelayMs(10) == 930_000;
    forall n: nat | n <= 11 ensures 0 <= LockDurationSeconds(n) <= LONGEST_LOCK_SECONDS {
      if n >= 5 {
        assert n == 5 || n == 6 || n == 7 || n == 8 || n == 9 || n == 10 || n == 11;
      }
    }
  }

  /// When the current window of `who` began.
  function WindowStart(m: Memory, who: Subject): int
    requires FailKey(who) in m
  {
    m[FailKey(who)].expiresAt - WINDOW_MS
  }

  /// After `count` failures the lock, or the clock, keeps the next one `DelayMs(count + 1)` away
  /// from the start of the window.
  ghost predicate SubjectInv(m: Memory, who: Subject, clock: int) {
    && (FailKey(who) in m ==>
          && m[FailKey(who)].count.Some?
          && 1 <= m[FailKey(who)].count.value <= MAX_FAILURES
          && WindowStart(m, who) <= clock
          && var earliest := WindowStart(m, who) + DelayMs(m[FailKey(who)].count.value + 1);
             earliest <= clock || (Locked(m, who, clock) && m[LockKey(who)].lockedUntil.value >= earliest))
    && (LockKey(who) in m ==>
          && m[LockKey(who)].lockedUntil.Some?
          && m[LockKey(who)].lockedUntil.value <= clock + LONGEST_LOCK_SECONDS * 1000)
  }

  lemma LaterClock(m: Memory, who: Subject, clock: int, now: int)
    requires SubjectInv(m, who, clock) && clock <= now
    ensures SubjectInv(m, who, now)
  {
  }

  lemma ForgetKeeps(m: Memory, who: Subject, other: Subject, now: int)
    requires SubjectInv(m, who, now)
    ensures SubjectInv(Forget(m, other, now), who, now)
    ensures Locked(Forget(m, other, now), who, now) == Locked(m, who, now)
  {
  }

  lemma BumpKeepsOther(m: Memory, who: Subject, other: Subject, now: int)
    requires SubjectInv(m, who, now) && who != other
    ensures SubjectInv(Bumped(m, other, now), who, now)
    ensures Locked(Bumped(m, other, now), who, now) == Locked(m, who, now)
  {
  }

  lemma NextDelay(count: nat)
    requires count <= MAX_FAILURES
    ensures 0 <= LockDurationSeconds(count) <= LONGEST_LOCK_SECONDS
    ensures DelayMs(count + 1) == DelayMs(count) + LockDurationSeconds(count) * 1000
    ensures count < MAX_FAILURES_BEFORE_LOCK ==> DelayMs(count) == LockDurationSeconds(count) == 0
  {
    DelayTable();
  }

  lemma TwelfthIsTooLate(count: nat)
    ensures count > MAX_FAILURES ==> DelayMs(count) > WINDOW_MS
  {
    DelayTable();
    if count > MAX_FAILURES {
      DelayMonotone(12, count);
    }
  }

  /// A failure that is let through counts to at most eleven.
  lemma BumpKeeps(m: Memory, who: Subject, now: int)
    requires SubjectInv(m, who, now) && !Locked(m, who, now)
    ensures SubjectInv(Bumped(m, who, now), who, now)
  {
    hide DelayMs, LockDurationSeconds;
    var key := FailKey(who);
    var count := Counted(m, who, now);
    if key in m && m[key].expiresAt >= now {
      assert WindowStart(m, who) + DelayMs(count) <= now <= WindowStart(m, who) + WINDOW_MS;
      TwelfthIsTooLate(count);
    }
    NextDelay(count);
  }

  lemma LoginKeepsInv(m: Memory, a: Attempt, who: Subject, clock: int)
    requires SubjectInv(m, who, clock) && clock <= a.now
    ensures SubjectInv(Login(m, a), who, a.now)
  {
    LaterClock(m, who, clock, a.now);
    ForgetKeeps(m, who, UserOf(a.ctx), a.now);
    var user, ip := UserOf(a.ctx), IpOf(a.ctx);
    var forgot := Forget(m, user, a.now);
    if ip.Some? {
      ForgetKeeps(forgot, who, ip.value, a.now);
    }
    if !Refused(m, a.ctx, a.now) && a.credentials.Bad? {
      var checked := Checked(m, a.ctx, a.now);
      assert !Locked(m, user, a.now);
      assert ip.Some? ==> ip.value in Subjects(a.ctx) && !Locked(m, ip.value, a.now);
      if who == user { BumpKeeps(checked, who, a.now); } else { BumpKeepsOther(checked, who, user, a.now); }
      if ip.Some? {
        var bumped := Bumped(checked, user, a.now);
        if who == ip.value { BumpKeeps(bumped, who, a.now); } else { BumpKeepsOther(bumped, who, ip.value, a.now); }
      }
    }
  }

  predicate Chronological(attempts: seq<Attempt>) {
    forall i, j | 0 <= i <= j < |attempts| :: attempts[i].now <= attempts[j].now
  }

  function Run(attempts: seq<Attempt>): Memory {
    if attempts == [] then map[] else Login(Run(attempts[..|attempts| - 1]), attempts[|attempts| - 1])
  }

  lemma {:induction false} RunKeepsInv(attempts: seq<Attempt>, who: Subject, clock: int)
    requires Chronological(attempts) && (attempts != [] ==> attempts[|attempts| - 1].now <= clock)
    ensures SubjectInv(Run(attempts), who, clock)
  {
    if attempts != [] {
      var n := |attempts| - 1;
      RunKeepsInv(attempts[..n], who, attempts[n].now);
      LoginKeepsInv(Run(attempts[..n]), attempts[n], who, attempts[n].now);
      LaterClock(Run(attempts), who, attempts[n].now, clock);
    }
  }

  /// In every run of login attempts, whatever their mix of users, addresses and outcomes, no counter
  /// ever passes eleven and no lock lasts longer than 1920 s: the 3600 s cap is never reached.
  lemma NoCounterPassesEleven(attempts: seq<Attempt>, who: Subject)
    requires Chronological(attempts) && attempts != []
    ensures
      var m, now := Run(attempts), attempts[|attempts| - 1].now;
      && (FailKey(who) in m ==> m[FailKey(who)].count.Some? && 1 <= m[FailKey(who)].count.value <= 11)
      && (LockKey(who) in m ==> m[LockKey(who)].lockedUntil.Some? && m[LockKey(who)].lockedUntil.value - now <= 1920 * 1000)
    ensures 1920 < MAX_LOCK_SECONDS
  {
    RunKeepsInv(attempts, who, attempts[|attempts| - 1].now);
  }

  // ----- The bound on failures over any span ---------------------------------------------------------

  /// Attempt number i was let through, failed, and counted against `who`.
  predicate FailsAt(attempts: seq<Attempt>, i: nat, who: Subject)
    requires i < |attempts|
  {
    var a := attempts[i];
    who in Subjects(a.ctx) && a.credentials.Bad? && !Refused(Run(attempts[..i]), a.ctx, a.now)
  }

  /// The instants at which failures were counted against `who`.
  function Failures(attempts: seq<Attempt>, who: Subject): seq<int> {
    if attempts == [] then [] else
    var n := |attempts| - 1;
    Failures(attempts[..n], who) + if FailsAt(attempts, n, who) then [attempts[n].now] else []
  }

  /// No successful login has cleared the counter.
  predicate NeverCleared(attempts: seq<Attempt>, who: Subject) {
    forall i | 0 <= i < |attempts| :: attempts[i].credentials.Good? ==> who !in Subjects(attempts[i].ctx)
  }

  /// `windows` windows have begun, each more than 3600 s after the one before; the current one began
  /// at `start` and holds `count` failures.
  ghost predicate Paced(m: Memory, who: Subject, failures: seq<int>, windows: nat) {
    if windows == 0 then failures == [] && FailKey(who) !in m
    else
      && failures != [] && FailKey(who) in m && m[FailKey(who)].count.Some?
      && |failures| <= MAX_FAILURES * (windows - 1) + m[FailKey(who)].count.value
      && failures[0] + (windows - 1) * WINDOW_MS <= WindowStart(m, who)
  }

  /// The fail entry of `who` after one more failure.
  function Refailed(m: Memory, who: Subject, now: int): Entry {
    if FailKey(who) !in m || m[FailKey(who)].expiresAt < now then Entry(Some(1), None, now + WINDOW_MS)
    else m[FailKey(who)].(count := Some(Counted(m, who, now)))
  }

  lemma BumpedEntry(m: Memory, who: Subject, other: Subject, now: int)
    ensures FailKey(who) in Bumped(m, other, now) <==> who == other || FailKey(who) in m
    ensures who != other && FailKey(who) in m ==> Bumped(m, other, now)[FailKey(who)] == m[FailKey(who)]
    ensures who == other ==> Bumped(m, other, now)[FailKey(who)] == Refailed(m, who, now)
  {
  }

  /// What one attempt does to the fail entry of `who`.
  lemma LoginEntry(m: Memory, a: Attempt, who: Subject)
    requires a.credentials.Good? ==> who !in Subjects(a.ctx)
    ensures
      var key, m' := FailKey(who), Login(m, a);
      if who in Subjects(a.ctx) && a.credentials.Bad? && !Refused(m, a.ctx, a.now) then
        key in m' && m'[key] == Refailed(m, who, a.now)
      else
        (key in m' <==> key in m) && (key in m ==> m'[key] == m[key])
  {
    var checked, user, ip := Checked(m, a.ctx, a.now), UserOf(a.ctx), IpOf(a.ctx);
    assert FailKey(who) in checked <==> FailKey(who) in m;
    assert FailKey(who) in m ==> checked[FailKey(who)] == m[FailKey(who)];
    BumpedEntry(checked, who, user, a.now);
    if ip.Some? {
      BumpedEntry(Bumped(checked, user, a.now), who, ip.value, a.now);
    }
  }

  /// A failure after the end of the window begins a new one.
  lemma FailureIsPaced(m: Memory, who: Subject, failures: seq<int>, before: nat, now: int, m': Memory)
    returns (windows: nat)
    requires Paced(m, who, failures, before)
    requires FailKey(who) in m ==> m[FailKey(who)].count.Some? && m[FailKey(who)].count.value <= MAX_FAILURES
    requires FailKey(who) in m' && m'[FailKey(who)] == Refailed(m, who, now)
    ensures Paced(m', who, failures + [now], windows)
  {
    windows := if FailKey(who) !in m || m[FailKey(who)].expiresAt < now then before + 1 else before;
  }

  lemma {:induction false} WindowsArePaced(attempts: seq<Attempt>, who: Subject) returns (windows: nat)
    requires Chronological(attempts) && NeverCleared(attempts, who)
    ensures Paced(Run(attempts), who, Failures(attempts, who), windows)
  {
    hide Paced, Login, Refailed, SubjectInv, Refused;
    if attempts == [] {
      windows := 0;
      NothingIsPaced(who);
    } else {
      var n := |attempts| - 1;
      var before, a := attempts[..n], attempts[n];
      var m := Run(before);
      windows := WindowsArePaced(before, who);
      CountAtMostEleven(before, who, a.now);
      LoginEntry(m, a, who);
      if FailsAt(attempts, n, who) {
        windows := FailureIsPaced(m, who, Failures(before, who), windows, a.now, Login(m, a));
      } else {
        SameEntrySamePace(m, who, Failures(before, who), windows, Login(m, a));
      }
    }
  }

  lemma NothingIsPaced(who: Subject)
    ensures Paced(map[], who, [], 0)
  {
  }

  lemma SameEntrySamePace(m: Memory, who: Subject, failures: seq<int>, windows: nat, m': Memory)
    requires Paced(m, who, failures, windows)
    requires FailKey(who) in m <==> FailKey(who) in m'
    requires FailKey(who) in m ==> m'[FailKey(who)] == m[FailKey(who)]
    ensures Paced(m', who, failures + [], windows)
  {
    assert failures + [] == failures;
  }

  lemma CountAtMostEleven(attempts: seq<Attempt>, who: Subject, clock: int)
    requires Chronological(attempts) && (attempts != [] ==> attempts[|attempts| - 1].now <= clock)
    ensures
      var m := Run(attempts);
      FailKey(who) in m ==> m[FailKey(who)].count.Some? && m[FailKey(who)].count.value <= MAX_FAILURES
  {
    hide Run;
    RunKeepsInv(attempts, who, clock);
  }

  /// Without a successful login in between, at most 11 failures are counted per started hour since
  /// the first one.
  lemma FailuresPerHour(attempts: seq<Attempt>, who: Subject, now: int)
    requires Chronological(attempts) && NeverCleared(attempts, who)
    requires attempts != [] && attempts[|attempts| - 1].now <= now
    ensures
      var failures := Failures(attempts, who);
      failures != [] ==> |failures| <= 11 * ((now - failures[0]) / 3_600_000 + 1)
  {
    var windows := WindowsArePaced(attempts, who);
    RunKeepsInv(attempts, who, now);
    if windows > 0 {
      var first := Failures(attempts, who)[0];
      assert (windows - 1) * WINDOW_MS <= now - first;
      QuotientAtLeast(windows - 1, now - first, WINDOW_MS);
    }
  }

  lemma Scale(a: int, b: int, d: nat)
    ensures a <= b ==> a * d <= b * d
  {
  }

  lemma QuotientAtLeast(q: nat, n: int, d: int)
    requires d > 0 && q * d <= n
    ensures q <= n / d
  {
    Scale(n / d + 1, q, d);
  }

  // ----- What an attempt does ---------------------------------------------------------------------------------

  lemma LowerIs(s: string)
    ensures |Lower(s)| == |s|
    ensures forall i | 0 <= i < |s| ::
      Lower(s)[i] as int == s[i] as int + if 'A' <= s[i] <= 'Z' then 32 else 0
  {
  }

  /// Attempts share a counter exactly when they share the e-mail, in whatever case, or a given address.
  lemma SharedSubjects(a: Context, b: Context, who: Subject)
    ensures who in Subjects(a) && who in Subjects(b)
            <==> who in Subjects(a)
                 && (|| (who.scope.User? && Lower(a.email) == Lower(b.email))
                     || (who.scope.Ip? && a.ip == b.ip && a.ip.Some? && a.ip.value != ""))
  {
  }

  /// A successful login removes the counters and locks of its user and address and leaves all others.
  lemma GoodLoginClears(m: Memory, a: Attempt, key: Key)
    requires a.credentials.Good? && !Refused(m, a.ctx, a.now)
    ensures key in Login(m, a) <==> key in m && key.who !in Subjects(a.ctx)
    ensures key in Login(m, a) ==> Login(m, a)[key] == m[key]
  {
  }

  /// So the next failure of that user or address is the first one, in a new window, and locks nothing.
  lemma CountsFromOne(m: Memory, a: Attempt, b: Attempt, who: Subject)
    requires a.credentials.Good? && !Refused(m, a.ctx, a.now) && who in Subjects(a.ctx)
    requires b.credentials.Bad? && !Refused(Login(m, a), b.ctx, b.now) && who in Subjects(b.ctx)
    ensures
      var after := Login(Login(m, a), b);
      && FailKey(who) in after && after[FailKey(who)] == Entry(Some(1), None, b.now + 3_600_000)
      && LockKey(who) !in after
  {
    var cleared := Login(m, a);
    GoodLoginClears(m, a, FailKey(who));
    GoodLoginClears(m, a, LockKey(who));
    hide Refused, UserOf, IpOf;
    FailureIs(cleared, b, who);
  }

  /// The lock after so many failures: none before the fifth, then half a minute, doubled each time.
  lemma LockTable()
    ensures forall n: nat | n < 5 :: LockDurationSeconds(n) == 0
    ensures LockDurationSeconds(5) == 30 && LockDurationSeconds(6) == 60 && LockDurationSeconds(7) == 120
    ensures LockDurationSeconds(8) == 240 && LockDurationSeconds(9) == 480 && LockDurationSeconds(10) == 960
    ensures LockDurationSeconds(11) == 1920 && LockDurationSeconds(12) == 3600
  {
    assert Pow2(0) == 1 && Pow2(1) == 2 && Pow2(2) == 4 && Pow2(3) == 8;
    assert Pow2(4) == 16 && Pow2(5) == 32 && Pow2(6) == 64 && Pow2(7) == 128;
  }

  /// A failure that is let through counts against its user and its address, and locks each of them for the
  /// time its own count asks for.
  lemma FailureIs(m: Memory, a: Attempt, who: Subject)
    requires a.credentials.Bad? && !Refused(m, a.ctx, a.now) && who in Subjects(a.ctx)
    ensures
      var (m', key, fails) := (Login(m, a), FailKey(who), Refailed(m, who, a.now));
      && key in m' && m'[key] == fails && fails.count.Some?
      && var seconds := LockDurationSeconds(fails.count.value);
         && (seconds > 0 ==>
               LockKey(who) in m' && m'[LockKey(who)].lockedUntil == Some(a.now + seconds * 1000))
         && (seconds == 0 ==> (LockKey(who) in m' ==> LockKey(who) in m && m[LockKey(who)].lockedUntil.None?))
  {
    hide LockDurationSeconds;
    var checked, user, ip := Checked(m, a.ctx, a.now), UserOf(a.ctx), IpOf(a.ctx);
    assert !Locked(m, who, a.now);
    LoginEntry(m, a, who);
  }

  // ----- Both bounds are reached ---------------------------------------------------------------------------

  /// Failures from nowhere in particular, each at the very end of the lock before it.
  function Ladder(email: string, n: nat): seq<Attempt> {
    if n == 0 then [] else Ladder(email, n - 1) + [Attempt(DelayMs(n), Context(email, None), Bad)]
  }

  lemma OneRung(m: Memory, email: string, n: nat)
    requires 1 <= n < MAX_FAILURES
    requires
      var who := UserOf(Context(email, None));
      && FailKey(who) in m && m[FailKey(who)] == Entry(Some(n), None, WINDOW_MS)
      && (LockKey(who) in m ==> m[LockKey(who)].lockedUntil == Some(DelayMs(n + 1)))
    ensures
      var who, a := UserOf(Context(email, None)), Attempt(DelayMs(n + 1), Context(email, None), Bad);
      && !Refused(m, a.ctx, a.now)
      && FailKey(who) in Login(m, a) && Login(m, a)[FailKey(who)] == Entry(Some(n + 1), None, WINDOW_MS)
      && (LockKey(who) in Login(m, a) ==> Login(m, a)[LockKey(who)].lockedUntil == Some(DelayMs(n + 2)))
      && (n + 1 >= MAX_FAILURES_BEFORE_LOCK ==> LockKey(who) in Login(m, a))
  {
    hide DelayMs, LockDurationSeconds, UserOf, Login, Refused, Bumped;
    var now := DelayMs(n + 1);
    WithinTheWindow(n + 1);
    AloneAt(m, email, now);
    NextDelay(n + 1);
    LocksFromTheFifth(n + 1);
    OneMoreCount(Forget(m, UserOf(Context(email, None)), now), UserOf(Context(email, None)), n, now);
  }

  lemma WithinTheWindow(n: nat)
    requires n <= MAX_FAILURES
    ensures DelayMs(n) < WINDOW_MS
  {
    DelayTable();
    DelayMonotone(n, 11);
  }

  /// A failure from no address concerns the user alone.
  lemma AloneAt(m: Memory, email: string, now: int)
    requires !Locked(m, UserOf(Context(email, None)), now)
    ensures
      var who, a := UserOf(Context(email, None)), Attempt(now, Context(email, None), Bad);
      !Refused(m, a.ctx, a.now) && Login(m, a) == Bumped(Forget(m, who, now), who, now)
  {
    hide UserOf, Bumped;
  }

  lemma OneMoreCount(m: Memory, who: Subject, n: nat, now: int)
    requires FailKey(who) in m && m[FailKey(who)] == Entry(Some(n), None, WINDOW_MS) && now <= WINDOW_MS
    requires LockKey(who) !in m
    ensures
      var (m', seconds) := (Bumped(m, who, now), LockDurationSeconds(n + 1));
      && FailKey(who) in m' && m'[FailKey(who)] == Entry(Some(n + 1), None, WINDOW_MS)
      && (LockKey(who) in m' <==> seconds > 0)
      && (seconds > 0 ==> m'[LockKey(who)].lockedUntil == Some(now + seconds * 1000))
  {
    hide LockDurationSeconds;
  }

  lemma LocksFromTheFifth(n: nat)
    ensures n >= MAX_FAILURES_BEFORE_LOCK ==> LockDurationSeconds(n) > 0
  {
    if n >= MAX_FAILURES_BEFORE_LOCK {
      PositivePow2(n - MAX_FAILURES_BEFORE_LOCK);
    }
  }

  lemma {:induction false} PositivePow2(n: nat)
    ensures Pow2(n) >= 1
  {
    if n > 0 {
      PositivePow2(n - 1);
    }
  }

  lemma {:induction false} LadderCounts(email: string, n: nat)
    requires 1 <= n <= MAX_FAILURES
    ensures
      var m, who := Run(Ladder(email, n)), UserOf(Context(email, None));
      && FailKey(who) in m && m[FailKey(who)] == Entry(Some(n), None, WINDOW_MS)
      && (LockKey(who) in m ==> m[LockKey(who)].lockedUntil == Some(DelayMs(n + 1)))
      && (n >= MAX_FAILURES_BEFORE_LOCK ==> LockKey(who) in m)
      && |Failures(Ladder(email, n), who)| == n && Failures(Ladder(email, n), who)[0] == 0
  {
    hide Login, Refused, DelayMs;
    if n == 1 {
      FirstRung(email);
    } else {
      var before, a := Ladder(email, n - 1), Attempt(DelayMs(n), Context(email, None), Bad);
      LadderCounts(email, n - 1);
      OneRung(Run(before), email, n - 1);
      assert (before + [a])[..|before|] == before;
    }
  }

  lemma FirstRung(email: string)
    ensures
      var m, who := Run(Ladder(email, 1)), UserOf(Context(email, None));
      && m == map[FailKey(who) := Entry(Some(1), None, WINDOW_MS)] && Failures(Ladder(email, 1), who) == [0]
  {
    var a := Attempt(DelayMs(1), Context(email, None), Bad);
    assert Ladder(email, 1) == [a] && [a][..0] == [];
  }

  lemma {:induction false} LadderClimbs(email: string, n: nat)
    ensures |Ladder(email, n)| == n && Chronological(Ladder(email, n))
    ensures forall i | 0 <= i < n :: Ladder(email, n)[i].now <= DelayMs(n)
    ensures n > 0 ==> Ladder(email, n)[n - 1].now == DelayMs(n)
  {
    hide DelayMs;
    if n > 0 {
      LadderClimbs(email, n - 1);
      DelayMonotone(n - 1, n);
    }
  }

  /// For every user there is a run whose eleventh failure brings the 1920 s lock, all within one window.
  lemma ElevenIsReached(email: string)
    ensures
      var attempts, who := Ladder(email, 11), UserOf(Context(email, None));
      var m, failures := Run(attempts), Failures(attempts, who);
      && Chronological(attempts) && |attempts| == 11 && attempts[10].now == 1_890_000
      && FailKey(who) in m && m[FailKey(who)].count == Some(11)
      && LockKey(who) in m && m[LockKey(who)].lockedUntil == Some(1_890_000 + 1920 * 1000)
      && |failures| == 11 && attempts[10].now - failures[0] < WINDOW_MS
  {
    DelayTable();
    hide Ladder, Run, Failures, DelayMs, UserOf, Chronological;
    LadderCounts(email, 11);
    LadderClimbs(email, 11);
  }
}
