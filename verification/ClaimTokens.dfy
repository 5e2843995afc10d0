/// The lock tokens of claims and releases: the user and the millisecond, minted before the SET that
/// carries them takes effect.
module ClaimTokens {
  import opened Common
  import opened Decimal
  import opened Redis

  type Pid = nat

  const LOCK := "lead-lock"
  const CLAIM_LOCK_TTL_MS := 8000

  datatype Ticket = Ticket(user: string, releasing: bool, at: nat)

  function Holder(k: Ticket): string {
    if k.releasing then k.user + "-release" else k.user
  }

  function Token(k: Ticket): string {
    Holder(k) + "-" + Show(k.at)
  }

  lemma DigitsHaveNoHyphen(s: string)
    requires AllDigits(s)
    ensures '-' !in s
  {
  }

  /// Two tokens are equal exactly when they name the same holder and the same millisecond.
  lemma TokensAgreeIff(a: Ticket, b: Ticket)
    ensures Token(a) == Token(b) <==> Holder(a) == Holder(b) && a.at == b.at
  {
    hide Holder;
    if Token(a) == Token(b) {
      DigitsHaveNoHyphen(Show(a.at));
      DigitsHaveNoHyphen(Show(b.at));
      CutUniqueAtEnd(Holder(a), Show(a.at), Holder(b), Show(b.at), '-');
      ShowInjective(a.at, b.at);
    }
  }

  /// Between two users who both claim or both release, and between a user's own claim and release, a
  /// token tells its ticket. (A user named "ann-release" claims under the tokens of ann's releases.)
  lemma UserTokensTell(a: Ticket, b: Ticket)
    requires a.releasing == b.releasing || a.user == b.user
    ensures Token(a) == Token(b) <==> a == b
    ensures Token(Ticket(a.user + "-release", false, a.at)) == Token(Ticket(a.user, true, a.at))
  {
    hide Token;
    TokensAgreeIff(a, b);
    TokensAgreeIff(Ticket(a.user + "-release", false, a.at), Ticket(a.user, true, a.at));
    if Holder(a) == Holder(b) {
      if a.releasing && b.releasing {
        assert Holder(a)[..|a.user|] == a.user && Holder(b)[..|b.user|] == b.user;
      } else if a.user == b.user {
        assert |Holder(a)| == |Holder(b)|;
      }
    }
  }

  // ----- Minting and setting as separate steps ---------------------------------------------------------

  /// `minted` holds tickets whose SET is under way, `held` those whose SET has taken the lock.
  datatype State = State(store: Store, minted: map<Pid, Ticket>, held: map<Pid, Ticket>)

  datatype Step = Mint(pid: Pid, user: string, releasing: bool) | SetLock(pid: Pid) | Release(pid: Pid) | Tick(ms: nat)

  function Apply(s: State, step: Step): State {
    match step
    case Mint(p, user, releasing) =>
      if p in s.minted || p in s.held || s.store.now < 0 then s
      else s.(minted := s.minted[p := Ticket(user, releasing, s.store.now)])
    case SetLock(p) =>
      if p !in s.minted then s else
      var (store, acquired) := SetNxPx(s.store, LOCK, Text(Token(s.minted[p])), CLAIM_LOCK_TTL_MS);
      State(store, s.minted - {p}, if acquired then s.held[p := s.minted[p]] else s.held)
    case Release(p) =>
      if p !in s.held then s
      else State(CompareAndDelete(s.store, LOCK, Text(Token(s.held[p]))), s.minted, s.held - {p})
    case Tick(ms) => s.(store := Advance(s.store, ms))
  }

  function Exec(s: State, steps: seq<Step>): State
    decreases |steps|
  {
    if steps == [] then s else Exec(Apply(s, steps[0]), steps[1..])
  }

  predicate Owns(s: State, p: Pid) {
    p in s.held && Get(s.store, LOCK) == Some(Text(Token(s.held[p])))
  }

  /// A release takes the lock from another holder exactly when both tokens name the same holder and
  /// the same millisecond.
  lemma ReleaseTakesLockIff(s: State, p: Pid, q: Pid)
    requires p != q && p in s.held && Owns(s, q)
    ensures !Owns(Apply(s, Release(p)), q)
            <==> Holder(s.held[p]) == Holder(s.held[q]) && s.held[p].at == s.held[q].at
  {
    hide Token, Holder;
    TokensAgreeIff(s.held[p], s.held[q]);
  }

  // ----- Exactly when locks exclude each other --------------------------------------------------------------

  ghost predicate Distinct(held: map<Pid, Ticket>) {
    forall p, q | p in held && q in held && Token(held[p]) == Token(held[q]) :: p == q
  }

  /// At most one process owns the lock, and no release takes it from its owner.
  ghost predicate Exclusive(s: State) {
    && (forall p, q | Owns(s, p) && Owns(s, q) :: p == q)
    && (forall p, q | p != q && Owns(s, q) :: Owns(Apply(s, Release(p)), q))
  }

  /// A SET that takes the lock while another process still holds a ticket of the same holder and millisecond.
  predicate Clashes(s: State, step: Step) {
    && step.SetLock? && step.pid in s.minted && !Live(s.store, LOCK)
    && var k := s.minted[step.pid];
       exists q | q in s.held && q != step.pid :: Holder(s.held[q]) == Holder(k) && s.held[q].at == k.at
  }

  lemma DistinctIsExclusive(s: State)
    requires Distinct(s.held)
    ensures Exclusive(s)
  {
    hide Token;
  }

  lemma ClashBreaksExclusion(s: State, step: Step)
    requires Clashes(s, step)
    ensures !Exclusive(Apply(s, step))
  {
    hide Token, Holder;
    var p, k := step.pid, s.minted[step.pid];
    var q :| q in s.held && q != p && Holder(s.held[q]) == Holder(k) && s.held[q].at == k.at;
    TokensAgreeIff(s.held[q], k);
    assert Owns(Apply(s, step), p) && Owns(Apply(s, step), q);
  }

  lemma OthersKeepDistinct(s: State, step: Step)
    requires Distinct(s.held) && !Clashes(s, step)
    ensures Distinct(Apply(s, step).held)
  {
    hide Token, Holder;
    if step.SetLock? && step.pid in s.minted && !Live(s.store, LOCK) {
      forall q | q in s.held && q != step.pid
        ensures Token(s.held[q]) != Token(s.minted[step.pid])
      {
        TokensAgreeIff(s.held[q], s.minted[step.pid]);
      }
    }
  }

  ghost predicate AlwaysExclusive(s: State, steps: seq<Step>)
    decreases |steps|
  {
    Exclusive(s) && (steps != [] ==> AlwaysExclusive(Apply(s, steps[0]), steps[1..]))
  }

  predicate NeverClashes(s: State, steps: seq<Step>)
    decreases |steps|
  {
    steps != [] ==> !Clashes(s, steps[0]) && NeverClashes(Apply(s, steps[0]), steps[1..])
  }

  /// Throughout a run at most one process owns the lock and no release takes it from its owner, exactly
  /// when no SET takes the lock with the holder and millisecond of a ticket that is still held.
  lemma {:induction false} ExclusiveIffNeverClashes(s: State, steps: seq<Step>)
    requires Distinct(s.held)
    ensures AlwaysExclusive(s, steps) <==> NeverClashes(s, steps)
    decreases |steps|
  {
    hide Distinct, Exclusive, Clashes, Apply;
    DistinctIsExclusive(s);
    if steps != [] {
      if Clashes(s, steps[0]) {
        ClashBreaksExclusion(s, steps[0]);
      } else {
        OthersKeepDistinct(s, steps[0]);
        ExclusiveIffNeverClashes(Apply(s, steps[0]), steps[1..]);
      }
    }
  }

  // ----- Prompt SETs never clash ------------------------------------------------------------------------------

  /// Every SET takes effect within the lock's lifetime from the minting of its token.
  ghost predicate Prompt(s: State, steps: seq<Step>)
    decreases |steps|
  {
    steps != [] ==>
      && (steps[0].SetLock? && steps[0].pid in s.minted ==>
            s.store.now <= s.minted[steps[0].pid].at + CLAIM_LOCK_TTL_MS)
      && Prompt(Apply(s, steps[0]), steps[1..])
  }

  ghost predicate Inv(s: State) {
    && Distinct(s.held)
    && (forall p | p in s.minted :: s.minted[p].at <= s.store.now)
    && (forall p | p in s.held && s.store.now <= s.held[p].at + CLAIM_LOCK_TTL_MS ::
          Live(s.store, LOCK) && s.store.keys[LOCK].value == Text(Token(s.held[p]))
          && s.store.keys[LOCK].expiresAt.Some?
          && s.held[p].at + CLAIM_LOCK_TTL_MS <= s.store.keys[LOCK].expiresAt.value)
  }

  lemma PromptSetDoesNotClash(s: State, p: Pid)
    requires Inv(s) && p in s.minted && s.store.now <= s.minted[p].at + CLAIM_LOCK_TTL_MS
    ensures !Clashes(s, SetLock(p))
  {
    hide Token, Holder, Distinct;
  }

  lemma StepKeepsInv(s: State, step: Step)
    requires Inv(s)
    requires step.SetLock? && step.pid in s.minted ==> s.store.now <= s.minted[step.pid].at + CLAIM_LOCK_TTL_MS
    ensures Inv(Apply(s, step)) && !Clashes(s, step)
  {
    if step.SetLock? && step.pid in s.minted {
      PromptSetDoesNotClash(s, step.pid);
    }
    OthersKeepDistinct(s, step);
    StepKeepsLease(s, step);
  }

  lemma StepKeepsLease(s: State, step: Step)
    requires Inv(s) && Distinct(Apply(s, step).held)
    ensures Inv(Apply(s, step))
  {
    hide Token, Holder;
  }

  lemma {:induction false} PromptRunsNeverClash(s: State, steps: seq<Step>)
    requires Inv(s) && Prompt(s, steps)
    ensures Inv(Exec(s, steps)) && NeverClashes(s, steps)
    decreases |steps|
  {
    hide Inv, Apply, Clashes;
    if steps != [] {
      StepKeepsInv(s, steps[0]);
      PromptRunsNeverClash(Apply(s, steps[0]), steps[1..]);
    }
  }

  function Start(now: nat): State {
    State(Store(now, map[]), map[], map[])
  }

  /// When every SET is prompt, tokens do identify their holders: at most one owns the lock, and no
  /// release ever takes it from another, even if several tokens were minted in one millisecond.
  lemma PromptLocksAreExclusive(now: nat, steps: seq<Step>, p: Pid, q: Pid)
    requires Prompt(Start(now), steps)
    ensures
      var s := Exec(Start(now), steps);
      && (Owns(s, p) && Owns(s, q) ==> p == q)
      && (p != q && Owns(s, q) ==> Owns(Apply(s, Release(p)), q))
  {
    PromptRunsNeverClash(Start(now), steps);
    DistinctIsExclusive(Exec(Start(now), steps));
  }

  const DELAYED_SET :=
    [Mint(1, "ann", false), Mint(2, "ann", false), SetLock(1), Tick(CLAIM_LOCK_TTL_MS + 1), SetLock(2)]

  lemma DelayedSet()
    ensures
      var s, k := Exec(Start(0), DELAYED_SET), Ticket("ann", false, 0);
      && s.store == Store(8001, map[LOCK := Entry(Text(Token(k)), Some(16001))])
      && s.held == map[1 := k, 2 := k]
  {
    hide Token;
    var k := Ticket("ann", false, 0);
    var s1 := Apply(Apply(Start(0), DELAYED_SET[0]), DELAYED_SET[1]);
    assert s1.minted == map[1 := k, 2 := k];
    var s2 := Apply(s1, SetLock(1));
    assert s2 == State(Store(0, map[LOCK := Entry(Text(Token(k)), Some(8000))]), map[2 := k], map[1 := k]);
    var s3 := Apply(Apply(s2, DELAYED_SET[3]), SetLock(2));
    assert s3.held == map[1 := k, 2 := k];
    assert DELAYED_SET[1..][1..][1..][1..] == [SetLock(2)];
    assert Exec(s1, DELAYED_SET[1..][1..]) == Exec(s2, DELAYED_SET[1..][1..][1..]);
    assert Exec(Apply(s2, DELAYED_SET[3]), [SetLock(2)]) == s3;
  }

  /// A SET delayed past the first lock reuses its token, and the first holder's release frees it.
  lemma DelayedSetLosesLock()
    ensures
      var s := Exec(Start(0), DELAYED_SET);
      Owns(s, 2) && !Owns(Apply(s, Release(1)), 2)
  {
    DelayedSet();
    hide Exec, Token, Apply;
    ReleaseTakesLockIff(Exec(Start(0), DELAYED_SET), 1, 2);
  }
}
