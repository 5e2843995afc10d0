/// Refresh-token rotation with reuse detection. Sessions are keyed by their refresh token; tokens
/// stand for their SHA-256 digests. Each service call is one atomic step.
module SessionFamilies {
  import opened Common

  type User = string
  type Family = string
  type Token = string

  const SESSION_MS := 30 * 86_400_000

  datatype Session = Session(user: User, family: Family, access: Token, expiresAt: int, revoked: bool)

  type Sessions = map<Token, Session>

  /// What the environment contributes to an issue: the tokens signed, and whether signing works.
  datatype Signing = Signing(access: Token, refresh: Token, configured: bool)

  datatype Op =
    | SignIn(user: User, family: Family, signing: Signing, now: int)
    | Refresh(token: Token, userActive: bool, signing: Signing, now: int)
    | Logout(user: User, access: Token)
    | LogoutAll(user: User)
    | ChangePassword(user: User, accepted: bool)

  datatype Outcome = Issued(refresh: Token) | InvalidToken | ReuseDetected | IssueFailed | Closed | Rejected

  // ----- Specification functions -----------------------------------------------------------------

  function RevokeFamily(s: Sessions, family: Family): Sessions {
    map r | r in s :: if s[r].family == family then s[r].(revoked := true) else s[r]
  }

  function RevokeUser(s: Sessions, user: User): Sessions {
    map r | r in s :: if s[r].user == user then s[r].(revoked := true) else s[r]
  }

  function RevokeAccess(s: Sessions, user: User, access: Token): Sessions {
    map r | r in s :: if s[r].user == user && s[r].access == access then s[r].(revoked := true) else s[r]
  }

  /// Both token columns are unique.
  predicate Unused(s: Sessions, signing: Signing) {
    signing.refresh !in s && forall r | r in s :: s[r].access != signing.access
  }

  function GenerateTokens(s: Sessions, user: User, family: Family, signing: Signing, now: int): (Sessions, Outcome) {
    if !signing.configured || !Unused(s, signing) then (s, IssueFailed)
    else (s[signing.refresh := Session(user, family, signing.access, now + SESSION_MS, false)], Issued(signing.refresh))
  }

  function RefreshStep(s: Sessions, token: Token, userActive: bool, signing: Signing, now: int): (Sessions, Outcome) {
    if token !in s then (s, InvalidToken) else
    var session := s[token];
    if session.revoked then (RevokeFamily(s, session.family), ReuseDetected)
    else if session.expiresAt < now then (s, InvalidToken)
    else if !userActive then (RevokeFamily(s, session.family), InvalidToken)
    else GenerateTokens(s[token := session.(revoked := true)], session.user, session.family, signing, now)
  }

  function Apply(s: Sessions, op: Op): (Sessions, Outcome) {
    match op
    case SignIn(user, family, signing, now) => GenerateTokens(s, user, family, signing, now)
    case Refresh(token, userActive, signing, now) => RefreshStep(s, token, userActive, signing, now)
    case Logout(user, access) => (RevokeAccess(s, user, access), Closed)
    case LogoutAll(user) => (RevokeUser(s, user), Closed)
    case ChangePassword(user, accepted) => if accepted then (RevokeUser(s, user), Closed) else (s, Rejected)
  }

  function Exec(s: Sessions, ops: seq<Op>): Sessions
    decreases |ops|
  {
    if ops == [] then s else Exec(Apply(s, ops[0]).0, ops[1..])
  }

  // ----- The service ------------------------------------------------------------------------------

  class AuthService {
    var sessions: Sessions

    constructor ()
      ensures sessions == map[]
    {
      sessions := map[];
    }

    method IssueTokens(user: User, family: Family, signing: Signing, now: int) returns (outcome: Outcome)
      modifies this
      ensures (sessions, outcome) == GenerateTokens(old(sessions), user, family, signing, now)
    {
      if !signing.configured {
        return IssueFailed;
      }
      if signing.refresh in sessions || exists r | r in sessions :: sessions[r].access == signing.access {
        return IssueFailed;
      }
      sessions := sessions[signing.refresh := Session(user, family, signing.access, now + SESSION_MS, false)];
      return Issued(signing.refresh);
    }

    method RevokeSessionFamily(family: Family)
      modifies this
      ensures sessions == RevokeFamily(old(sessions), family)
    {
      var live := map r | r in sessions && sessions[r].family == family && !sessions[r].revoked
        :: sessions[r].(revoked := true);
      sessions := sessions + live;
    }

    method RefreshToken(token: Token, userActive: bool, signing: Signing, now: int) returns (outcome: Outcome)
      modifies this
      ensures (sessions, outcome) == RefreshStep(old(sessions), token, userActive, signing, now)
    {
      if token !in sessions {
        return InvalidToken;
      }
      var session := sessions[token];
      if session.revoked {
        RevokeSessionFamily(session.family);
        return ReuseDetected;
      }
      if session.expiresAt < now {
        return InvalidToken;
      }
      if !userActive {
        RevokeSessionFamily(session.family);
        return InvalidToken;
      }
      sessions := sessions[token := session.(revoked := true)];
      outcome := IssueTokens(session.user, session.family, signing, now);
    }

    method LogoutSession(user: User, access: Token)
      modifies this
      ensures sessions == RevokeAccess(old(sessions), user, access)
    {
      var live := map r | r in sessions && sessions[r].user == user && sessions[r].access == access && !sessions[r].revoked
        :: sessions[r].(revoked := true);
      sessions := sessions + live;
    }

    method LogoutEverywhere(user: User)
      modifies this
      ensures sessions == RevokeUser(old(sessions), user)
    {
      var live := map r | r in sessions && sessions[r].user == user && !sessions[r].revoked
        :: sessions[r].(revoked := true);
      sessions := sessions + live;
    }

    method ChangeUserPassword(user: User, currentValid: bool, sameAsCurrent: bool) returns (accepted: bool)
      modifies this
      ensures accepted <==> currentValid && !sameAsCurrent
      ensures sessions == Apply(old(sessions), ChangePassword(user, accepted)).0
    {
      if !currentValid || sameAsCurrent {
        return false;
      }
      LogoutEverywhere(user);
      return true;
    }
  }

  // ----- Invariants over all runs -------------------------------------------------------------------

  predicate Known(s: Sessions, family: Family) {
    exists r | r in s :: s[r].family == family
  }

  predicate Alive(s: Sessions, family: Family) {
    exists r | r in s :: s[r].family == family && !s[r].revoked
  }

  /// Every sign-in draws a family id that no session carries yet.
  predicate FreshFamilies(s: Sessions, ops: seq<Op>)
    decreases |ops|
  {
    ops != [] ==>
      && (ops[0].SignIn? ==> !Known(s, ops[0].family))
      && FreshFamilies(Apply(s, ops[0]).0, ops[1..])
  }

  /// A family belongs to one user and has at most one unrevoked session.
  ghost predicate Inv(s: Sessions) {
    forall q, r | q in s && r in s && s[q].family == s[r].family ::
      s[q].user == s[r].user && (q != r ==> s[q].revoked || s[r].revoked)
  }

  /// A new session is safe in a family whose other sessions are all revoked and of the same user.
  lemma IssueKeepsInv(s: Sessions, user: User, family: Family, signing: Signing, now: int)
    requires Inv(s) && forall r | r in s && s[r].family == family :: s[r].revoked && s[r].user == user
    ensures Inv(GenerateTokens(s, user, family, signing, now).0)
  {
  }

  lemma RotationKeepsInv(s: Sessions, token: Token, signing: Signing, now: int)
    requires Inv(s) && token in s && !s[token].revoked
    ensures Inv(GenerateTokens(s[token := s[token].(revoked := true)], s[token].user, s[token].family, signing, now).0)
  {
    var marked := s[token := s[token].(revoked := true)];
    assert Inv(marked);
    IssueKeepsInv(marked, s[token].user, s[token].family, signing, now);
  }

  lemma StepKeepsInv(s: Sessions, op: Op)
    requires Inv(s) && (op.SignIn? ==> !Known(s, op.family))
    ensures Inv(Apply(s, op).0)
  {
    match op
    case SignIn(user, family, signing, now) => IssueKeepsInv(s, user, family, signing, now);
    case Refresh(token, _, signing, now) =>
      if token in s && !s[token].revoked {
        RotationKeepsInv(s, token, signing, now);
      }
    case _ =>
  }

  lemma {:induction false} RunKeepsInv(s: Sessions, ops: seq<Op>)
    requires Inv(s) && FreshFamilies(s, ops)
    ensures Inv(Exec(s, ops))
    decreases |ops|
  {
    if ops != [] {
      StepKeepsInv(s, ops[0]);
      RunKeepsInv(Apply(s, ops[0]).0, ops[1..]);
    }
  }

  /// In every reachable state each family has at most one unrevoked session, and one user.
  lemma AtMostOneLiveSession(ops: seq<Op>, q: Token, r: Token)
    requires FreshFamilies(map[], ops)
    ensures
      var s := Exec(map[], ops);
      q in s && r in s && s[q].family == s[r].family ==>
        s[q].user == s[r].user && (!s[q].revoked && !s[r].revoked ==> q == r)
  {
    RunKeepsInv(map[], ops);
  }

  /// Sessions are never dropped or changed, except that they may become revoked for good.
  lemma {:induction false} SessionsOnlyGetRevoked(s: Sessions, ops: seq<Op>, r: Token)
    requires r in s
    ensures
      var s' := Exec(s, ops);
      r in s' && s'[r].(revoked := s[r].revoked) == s[r] && (s[r].revoked ==> s'[r].revoked)
    decreases |ops|
  {
    if ops != [] {
      SessionsOnlyGetRevoked(Apply(s, ops[0]).0, ops[1..], r);
    }
  }

  /// A known family without an unrevoked session never gets one again.
  lemma {:induction false} DeadFamilyStaysDead(s: Sessions, ops: seq<Op>, family: Family)
    requires Known(s, family) && !Alive(s, family) && FreshFamilies(s, ops)
    ensures Known(Exec(s, ops), family) && !Alive(Exec(s, ops), family)
    decreases |ops|
  {
    if ops != [] {
      var next := Apply(s, ops[0]).0;
      var r :| r in s && s[r].family == family;
      assert r in next && next[r].family == family;
      assert !Alive(next, family);
      DeadFamilyStaysDead(next, ops[1..], family);
    }
  }

  // ----- What the fresh family ids are needed for ---------------------------------------------------------

  /// A sign-in that issues a session in this family.
  predicate Draws(s: Sessions, op: Op, family: Family) {
    op.SignIn? && op.family == family && op.signing.configured && Unused(s, op.signing)
  }

  /// It draws a family that has an unrevoked session, or sessions of another user.
  predicate Collides(s: Sessions, op: Op) {
    && op.SignIn? && Draws(s, op, op.family)
    && exists r | r in s :: s[r].family == op.family && (!s[r].revoked || s[r].user != op.user)
  }

  lemma StepKeepsInvIff(s: Sessions, op: Op)
    requires Inv(s)
    ensures Inv(Apply(s, op).0) <==> !Collides(s, op)
  {
    if Collides(s, op) {
      var r :| r in s && s[r].family == op.family && (!s[r].revoked || s[r].user != op.user);
      var s' := Apply(s, op).0;
      assert r in s' && s'[r] == s[r] && op.signing.refresh in s' && r != op.signing.refresh;
    } else if op.SignIn? {
      if Draws(s, op, op.family) {
        IssueKeepsInv(s, op.user, op.family, op.signing, op.now);
      }
    } else {
      StepKeepsInv(s, op);
    }
  }

  ghost predicate AlwaysInv(s: Sessions, ops: seq<Op>)
    decreases |ops|
  {
    Inv(s) && (ops != [] ==> AlwaysInv(Apply(s, ops[0]).0, ops[1..]))
  }

  predicate NeverCollides(s: Sessions, ops: seq<Op>)
    decreases |ops|
  {
    ops != [] ==> !Collides(s, ops[0]) && NeverCollides(Apply(s, ops[0]).0, ops[1..])
  }

  /// Throughout a run every family has one user and at most one unrevoked session, exactly when no sign-in
  /// draws the family of an unrevoked session or of another user.
  lemma {:induction false} OneLiveSessionIff(s: Sessions, ops: seq<Op>)
    requires Inv(s)
    ensures AlwaysInv(s, ops) <==> NeverCollides(s, ops)
    decreases |ops|
  {
    hide Inv, Apply, Collides;
    if ops != [] {
      StepKeepsInvIff(s, ops[0]);
      if !Collides(s, ops[0]) {
        OneLiveSessionIff(Apply(s, ops[0]).0, ops[1..]);
      }
    }
  }

  lemma StepKeepsDeadIff(s: Sessions, op: Op, family: Family)
    requires !Alive(s, family)
    ensures !Alive(Apply(s, op).0, family) <==> !Draws(s, op, family)
  {
    var s' := Apply(s, op).0;
    if Draws(s, op, family) {
      assert op.signing.refresh in s' && s'[op.signing.refresh].family == family;
    }
  }

  predicate StaysDead(s: Sessions, ops: seq<Op>, family: Family)
    decreases |ops|
  {
    !Alive(s, family) && (ops != [] ==> StaysDead(Apply(s, ops[0]).0, ops[1..], family))
  }

  predicate NeverDrawn(s: Sessions, ops: seq<Op>, family: Family)
    decreases |ops|
  {
    ops != [] ==> !Draws(s, ops[0], family) && NeverDrawn(Apply(s, ops[0]).0, ops[1..], family)
  }

  /// A family without an unrevoked session stays so throughout a run, exactly when no sign-in draws it.
  lemma {:induction false} StaysDeadIff(s: Sessions, ops: seq<Op>, family: Family)
    requires !Alive(s, family)
    ensures StaysDead(s, ops, family) <==> NeverDrawn(s, ops, family)
    decreases |ops|
  {
    hide Alive, Apply, Draws;
    if ops != [] {
      StepKeepsDeadIff(s, ops[0], family);
      if !Draws(s, ops[0], family) {
        StaysDeadIff(Apply(s, ops[0]).0, ops[1..], family);
      }
    }
  }

  // ----- What calls end, and what they leave ---------------------------------------------------------------

  /// The sessions a call is meant to end: the presented one, its family when the token is superseded or
  /// the user inactive, the one signed out, all of the user's.
  predicate IsToEnd(s: Sessions, op: Op, r: Token)
    requires r in s
  {
    match op
    case SignIn(_, _, _, _) => false
    case Refresh(token, userActive, _, now) =>
      && token in s
      && (if s[token].revoked then s[r].family == s[token].family
          else now <= s[token].expiresAt && if userActive then r == token else s[r].family == s[token].family)
    case Logout(user, access) => s[r].user == user && s[r].access == access
    case LogoutAll(user) => s[r].user == user
    case ChangePassword(user, accepted) => accepted && s[r].user == user
  }

  /// Exactly these end. Every other session, of whatever user and family, is as it was.
  lemma EndsExactly(s: Sessions, op: Op, r: Token)
    requires r in s
    ensures
      var s' := Apply(s, op).0;
      r in s' && s'[r] == s[r].(revoked := s[r].revoked || IsToEnd(s, op, r))
  {
  }

  /// And nothing is added but the session of a sign-in or refresh that succeeds, under the tokens it signed.
  lemma AddsExactly(s: Sessions, op: Op, r: Token)
    requires r !in s
    ensures
      var (s', outcome) := Apply(s, op);
      && (r in s' <==> outcome == Issued(r))
      && (r in s' && op.SignIn? ==>
            s'[r] == Session(op.user, op.family, op.signing.access, op.now + 30 * 24 * 3600 * 1000, false))
      && (r in s' ==> (op.SignIn? || op.Refresh?) && r == op.signing.refresh && Unused(s, op.signing))
  {
    if op.Refresh? && op.token in s {
      var marked := s[op.token := s[op.token].(revoked := true)];
      assert forall q | q in s :: marked[q].access == s[q].access;
    }
  }

  predicate AccessUnique(s: Sessions) {
    forall q, r | q in s && r in s && s[q].access == s[r].access :: q == r
  }

  lemma StepKeepsAccess(s: Sessions, op: Op)
    requires AccessUnique(s)
    ensures AccessUnique(Apply(s, op).0)
  {
    var s' := Apply(s, op).0;
    forall q, r | q in s' && r in s' && s'[q].access == s'[r].access
      ensures q == r
    {
      OldOrNew(s, op, q);
      OldOrNew(s, op, r);
    }
  }

  lemma OldOrNew(s: Sessions, op: Op, r: Token)
    ensures
      var s' := Apply(s, op).0;
      && (r in s ==> r in s' && s'[r].access == s[r].access)
      && (r !in s && r in s' ==>
            (op.SignIn? || op.Refresh?) && r == op.signing.refresh && s'[r].access == op.signing.access
            && forall q | q in s :: s[q].access != op.signing.access)
  {
    if r in s {
      EndsExactly(s, op, r);
    } else {
      AddsExactly(s, op, r);
    }
  }

  /// In every run no access token belongs to two sessions.
  lemma {:induction false} AccessTokensAreUnique(s: Sessions, ops: seq<Op>)
    requires AccessUnique(s)
    ensures AccessUnique(Exec(s, ops))
    decreases |ops|
  {
    hide AccessUnique, Apply;
    if ops != [] {
      StepKeepsAccess(s, ops[0]);
      AccessTokensAreUnique(Apply(s, ops[0]).0, ops[1..]);
    }
  }

  /// Logging a user out everywhere, or changing the password, leaves the sessions of every other user as
  /// they were.
  lemma LogoutAllLeavesOthers(s: Sessions, op: Op, r: Token)
    requires op.LogoutAll? || op.ChangePassword?
    requires r in s && s[r].user != op.user
    ensures r in Apply(s, op).0 && Apply(s, op).0[r] == s[r]
  {
    EndsExactly(s, op, r);
  }

  /// Reuse, or a refresh by an inactive user, ends the family and leaves every other family as it was.
  lemma ReuseLeavesOtherFamilies(s: Sessions, token: Token, active: bool, signing: Signing, now: int, r: Token)
    requires token in s && r in s && (s[token].revoked || (now <= s[token].expiresAt && !active))
    ensures
      var (s', outcome) := RefreshStep(s, token, active, signing, now);
      && outcome == (if s[token].revoked then ReuseDetected else InvalidToken)
      && s'.Keys == s.Keys
      && s'[r] == if s[r].family == s[token].family then s[r].(revoked := true) else s[r]
  {
  }

  predicate Succeeds(s: Sessions, token: Token, userActive: bool, signing: Signing, now: int) {
    RefreshStep(s, token, userActive, signing, now).1.Issued?
  }

  /// Once a superseded token is presented, no refresh token of its family, issued before or after,
  /// ever succeeds again.
  lemma ReuseKillsFamily(s: Sessions, stolen: Token, active: bool, signing: Signing, now: int, later: seq<Op>,
                         token: Token, active': bool, signing': Signing, now': int)
    requires stolen in s && s[stolen].revoked
    requires FreshFamilies(RefreshStep(s, stolen, active, signing, now).0, later)
    ensures RefreshStep(s, stolen, active, signing, now).1 == ReuseDetected
    ensures
      var end := Exec(RefreshStep(s, stolen, active, signing, now).0, later);
      token in end && end[token].family == s[stolen].family ==> !Succeeds(end, token, active', signing', now')
  {
    var family, next := s[stolen].family, RefreshStep(s, stolen, active, signing, now).0;
    assert stolen in next && next[stolen].family == family;
    DeadFamilyStaysDead(next, later, family);
  }

  /// After logging out everywhere, or a password change, no refresh token the user had ever succeeds.
  lemma LogoutAllEndsEverySession(s: Sessions, op: Op, later: seq<Op>,
                                  token: Token, active: bool, signing: Signing, now: int)
    requires op.LogoutAll? || (op.ChangePassword? && op.accepted)
    requires token in s && s[token].user == op.user
    ensures !Succeeds(Exec(Apply(s, op).0, later), token, active, signing, now)
  {
    SessionsOnlyGetRevoked(Apply(s, op).0, later, token);
  }

  /// Logging out ends the session of that access token, and no other.
  lemma LogoutEndsOneSession(s: Sessions, user: User, access: Token, later: seq<Op>,
                             token: Token, active: bool, signing: Signing, now: int)
    requires token in s
    ensures
      var next := Apply(s, Logout(user, access)).0;
      && (s[token].user == user && s[token].access == access ==>
            !Succeeds(Exec(next, later), token, active, signing, now))
      && (s[token].user != user || s[token].access != access ==> next[token] == s[token])
  {
    SessionsOnlyGetRevoked(Apply(s, Logout(user, access)).0, later, token);
  }

  /// A refresh token succeeds at most once: presenting it again is detected as reuse. Its successor
  /// belongs to the same user and family and is good for thirty days.
  lemma RotationIsOneTime(s: Sessions, token: Token, active: bool, signing: Signing, now: int, later: seq<Op>,
                          active': bool, signing': Signing, now': int)
    requires Succeeds(s, token, active, signing, now)
    ensures
      var (next, outcome) := RefreshStep(s, token, active, signing, now);
      && outcome.refresh in next && outcome.refresh !in s
      && next[outcome.refresh]
         == Session(s[token].user, s[token].family, signing.access, now + 30 * 24 * 3600 * 1000, false)
      && RefreshStep(Exec(next, later), token, active', signing', now').1 == ReuseDetected
  {
    SessionsOnlyGetRevoked(RefreshStep(s, token, active, signing, now).0, later, token);
  }

  /// When a refresh succeeds: a known, unrevoked, unexpired session of an active user, and the
  /// service can sign two unused tokens.
  lemma RefreshSucceedsIff(s: Sessions, token: Token, active: bool, signing: Signing, now: int)
    ensures Succeeds(s, token, active, signing, now) <==>
      && token in s && !s[token].revoked && now <= s[token].expiresAt && active
      && signing.configured && Unused(s, signing)
  {
    if token in s {
      var marked := s[token := s[token].(revoked := true)];
      assert forall r | r in s :: marked[r].access == s[r].access;
    }
  }
}
