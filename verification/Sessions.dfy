/** Server-side sessions (apps/api/ratereplay_api/auth.py): idle and absolute expiry, sliding
  extension, revocation by logout, by a later login and by expiry, and the account-activity gate.

  Instants are integers in microseconds and every clock reading is a parameter. A name is a canonical
  username, a secret is what the password verifier accepts, and a token is a session token, its digest
  and the session row it selects. */
module Sessions {
  import opened Arithmetic
  import opened Results

  type Name = nat
  type Secret = nat
  type Token = nat

  const MINUTE := 60_000_000
  const IDLE_LIFETIME := 30 * MINUTE
  const ABSOLUTE_LIFETIME := 24 * 60 * MINUTE
  const MINIMUM_KEY_LENGTH := 32

  datatype AccountRow = AccountRow(secret: Secret, active: bool)

  datatype SessionRow = SessionRow(
    owner: Name, createdAt: int, lastSeenAt: int, idleExpiresAt: int, absoluteExpiresAt: int, revokedAt: Option<int>)

  datatype State = State(accounts: map<Name, AccountRow>, sessions: map<Token, SessionRow>)

  datatype Event =
    | Register(name: Name, secret: Secret, token: Token, now: int)
    | Login(name: Name, secret: Secret, prior: Option<Token>, token: Token, revokeTime: int, now: int)
    | Authenticate(session: Option<Token>, now: int)
    | Logout(token: Token, now: int)
    | ChangeLifecycle(name: Name, active: bool, now: int)

  datatype Outcome =
    | Granted(idleExpiresAt: int, absoluteExpiresAt: int)
    | Accepted(owner: Name, idleExpiresAt: int, absoluteExpiresAt: int)
    | UsernameUnavailable
    | InvalidCredentials
    | AuthenticationRequired
    | TokenCollision
    | Done

  // ----- the steps -----

  function NewSession(owner: Name, now: int): SessionRow {
    SessionRow(owner, now, now, now + IDLE_LIFETIME, now + ABSOLUTE_LIFETIME, None)
  }

  /** `revoked_at` is only ever filled in once. */
  function Revoked(sessions: map<Token, SessionRow>, token: Token, now: int): map<Token, SessionRow> {
    if token in sessions && sessions[token].revokedAt.None? then
      sessions[token := sessions[token].(revokedAt := Some(now))]
    else
      sessions
  }

  predicate Live(row: SessionRow, now: int) {
    row.revokedAt.None? && now < row.idleExpiresAt && now < row.absoluteExpiresAt
  }

  function Extended(row: SessionRow, now: int): SessionRow {
    row.(lastSeenAt := now, idleExpiresAt := Min(now + IDLE_LIFETIME, row.absoluteExpiresAt))
  }

  predicate OwnerActive(s: State, token: Token) {
    token in s.sessions && s.sessions[token].owner in s.accounts && s.accounts[s.sessions[token].owner].active
  }

  /** `authenticate` on the row of a token. */
  function AuthenticateToken(s: State, token: Token, now: int): (State, Outcome) {
    if !OwnerActive(s, token) then (s, AuthenticationRequired) else
    var row := s.sessions[token];
    if !Live(row, now) then
      (s.(sessions := Revoked(s.sessions, token, now)), AuthenticationRequired)
    else
      var seen := Extended(row, now);
      (s.(sessions := s.sessions[token := seen]), Accepted(row.owner, seen.idleExpiresAt, seen.absoluteExpiresAt))
  }

  function Step(s: State, e: Event): (State, Outcome) {
    match e
    case Register(name, secret, token, now) =>
      if name in s.accounts then (s, UsernameUnavailable)
      else if token in s.sessions then (s, TokenCollision)
      else
        (State(s.accounts[name := AccountRow(secret, true)], s.sessions[token := NewSession(name, now)]),
         Granted(now + IDLE_LIFETIME, now + ABSOLUTE_LIFETIME))
    case Login(name, secret, prior, token, revokeTime, now) =>
      if name !in s.accounts || s.accounts[name].secret != secret then (s, InvalidCredentials)
      else if token in s.sessions then (s, TokenCollision)
      else
        var kept := if prior.Some? then Revoked(s.sessions, prior.value, revokeTime) else s.sessions;
        (s.(sessions := kept[token := NewSession(name, now)]), Granted(now + IDLE_LIFETIME, now + ABSOLUTE_LIFETIME))
    case Authenticate(session, now) =>
      if session.None? then (s, AuthenticationRequired) else AuthenticateToken(s, session.value, now)
    case Logout(token, now) => (s.(sessions := Revoked(s.sessions, token, now)), Done)
    case ChangeLifecycle(name, active, _) =>
      if name in s.accounts then (s.(accounts := s.accounts[name := s.accounts[name].(active := active)]), Done)
        else (s, Done)
  }

  function Run(h: seq<Event>): State {
    if h == [] then State(map[], map[]) else Step(Run(h[..|h| - 1]), h[|h| - 1]).0
  }

  /** What `authenticate` answers after a history. */
  predicate Admits(h: seq<Event>, token: Token, now: int) {
    Step(Run(h), Authenticate(Some(token), now)).1.Accepted?
  }

  // ----- the same, read from the history alone -----

  datatype Grant = Grant(owner: Name, at: int)

  /** The secret a name was registered with. */
  ghost function Known(h: seq<Event>, name: Name): Option<Secret>
    decreases |h|, 0
  {
    if h == [] then None else
    var e, before := h[|h| - 1], h[..|h| - 1];
    if e.Register? && e.name == name && Succeeds(before, e) then Some(e.secret) else Known(before, name)
  }

  /** A registration of a new name, or a login with the right secret, under a token never issued. */
  ghost predicate Succeeds(h: seq<Event>, e: Event)
    decreases |h|, 1
  {
    (e.Register? || e.Login?)
    && Known(h, e.name) == (if e.Login? then Some(e.secret) else None)
    && Issued(h, e.token).None?
  }

  /** Who a token was issued to, and when. */
  ghost function Issued(h: seq<Event>, token: Token): Option<Grant>
    decreases |h|, 0
  {
    if h == [] then None else
    var e, before := h[|h| - 1], h[..|h| - 1];
    if (e.Register? || e.Login?) && e.token == token && Succeeds(before, e) then Some(Grant(e.name, e.now))
      else Issued(before, token)
  }

  /** The last account-state change of a registered name. */
  ghost predicate Active(h: seq<Event>, name: Name) {
    if h == [] then false else
    var e, before := h[|h| - 1], h[..|h| - 1];
    if e.Register? && e.name == name && Succeeds(before, e) then true
    else if e.ChangeLifecycle? && e.name == name && Known(before, name).Some? then e.active
    else Active(before, name)
  }

  /** Logged out, or replaced at a successful login. */
  ghost predicate Ended(h: seq<Event>, token: Token) {
    h != [] &&
    var e, before := h[|h| - 1], h[..|h| - 1];
    Ended(before, token)
    || (Issued(before, token).Some?
        && ((e.Logout? && e.token == token) || (e.Login? && e.prior == Some(token) && Succeeds(before, e))))
  }

  /** The last accepted time, or the creation time. */
  ghost function LastSeen(h: seq<Event>, token: Token): int
    requires Issued(h, token).Some?
    decreases |h|, 0
  {
    var e, before := h[|h| - 1], h[..|h| - 1];
    if Issued(before, token).None? then Issued(h, token).value.at
    else if e == Authenticate(Some(token), e.now) && Accepts(before, token, e.now) && !Lapsed(before, token) then e.now
    else LastSeen(before, token)
  }

  ghost predicate Expired(h: seq<Event>, token: Token, now: int)
    requires Issued(h, token).Some?
    decreases |h|, 1
  {
    now >= Issued(h, token).value.at + ABSOLUTE_LIFETIME || now >= LastSeen(h, token) + IDLE_LIFETIME
  }

  /** The promise: an active account, a session neither logged out nor replaced, and neither lifetime over. */
  ghost predicate Accepts(h: seq<Event>, token: Token, now: int)
    decreases |h|, 2
  {
    Issued(h, token).Some? && Active(h, Issued(h, token).value.owner) && !Ended(h, token) && !Expired(h, token, now)
  }

  /** The session was presented by an active account at a time past its expiry. */
  ghost predicate Lapsed(h: seq<Event>, token: Token)
    decreases |h|, 0
  {
    h != [] &&
    var e, before := h[|h| - 1], h[..|h| - 1];
    Lapsed(before, token)
    || (e == Authenticate(Some(token), e.now) && Issued(before, token).Some?
        && Active(before, Issued(before, token).value.owner) && Expired(before, token, e.now))
  }

  /** When a session stopped being usable for good: at its logout, its replacement or its first use after
      expiry, whichever came first. */
  ghost function EndedAt(h: seq<Event>, token: Token): Option<int> {
    if h == [] then None else
    var e, before := h[|h| - 1], h[..|h| - 1];
    if EndedAt(before, token).Some? then EndedAt(before, token)
    else if Ended(h, token) && e.Login? then Some(e.revokeTime)
    else if Ended(h, token) || Lapsed(h, token) then Some(e.now)
    else None
  }

  /** The answer that a history calls for. */
  ghost function Promised(h: seq<Event>, e: Event): Outcome {
    match e
    case Register(name, _, token, now) =>
      if Known(h, name).Some? then UsernameUnavailable
      else if Issued(h, token).Some? then TokenCollision
      else Granted(now + IDLE_LIFETIME, now + ABSOLUTE_LIFETIME)
    case Login(name, secret, _, token, _, now) =>
      if Known(h, name) != Some(secret) then InvalidCredentials
      else if Issued(h, token).Some? then TokenCollision
      else Granted(now + IDLE_LIFETIME, now + ABSOLUTE_LIFETIME)
    case Authenticate(session, now) =>
      if session.None? || !Accepts(h, session.value, now) || Lapsed(h, session.value) then AuthenticationRequired
      else
        var grant := Issued(h, session.value).value;
        var last := grant.at + ABSOLUTE_LIFETIME;
        Accepted(grant.owner, if now + IDLE_LIFETIME < last then now + IDLE_LIFETIME else last, last)
    case _ => Done
  }

  // ----- agreement -----

  ghost predicate AccountAgrees(s: State, h: seq<Event>, name: Name) {
    && (name in s.accounts <==> Known(h, name).Some?)
    && (name in s.accounts ==> s.accounts[name] == AccountRow(Known(h, name).value, Active(h, name)))
    && (name !in s.accounts ==> !Active(h, name))
  }

  ghost predicate SessionAgrees(s: State, h: seq<Event>, token: Token) {
    && (token in s.sessions <==> Issued(h, token).Some?)
    && (token in s.sessions ==>
          var row, grant := s.sessions[token], Issued(h, token).value;
          && row.owner == grant.owner && row.createdAt == grant.at
          && row.absoluteExpiresAt == grant.at + ABSOLUTE_LIFETIME
          && row.revokedAt == EndedAt(h, token)
          && (row.revokedAt.Some? <==> Ended(h, token) || Lapsed(h, token))
          && row.lastSeenAt == LastSeen(h, token)
          && row.idleExpiresAt == Min(LastSeen(h, token) + IDLE_LIFETIME, row.absoluteExpiresAt))
    && (token !in s.sessions ==> !Ended(h, token) && !Lapsed(h, token) && EndedAt(h, token).None?)
  }

  lemma {:induction false} AccountsAgree(h: seq<Event>, name: Name)
    ensures AccountAgrees(Run(h), h, name)
    decreases |h|, 1
  {
    if h != [] {
      var e, before := h[|h| - 1], h[..|h| - 1];
      AccountsAgree(before, name);
      if e.Register? || e.Login? {
        AccountsAgree(before, e.name);
        SessionsAgree(before, e.token);
      }
    }
  }

  /** The table agrees with the history, whatever the clock does. */
  lemma {:induction false} SessionsAgree(h: seq<Event>, token: Token)
    ensures SessionAgrees(Run(h), h, token)
    decreases |h|, 0
  {
    hide Step, SessionAgrees, AccountAgrees;
    if h == [] {
      NothingAgrees(token);
    } else {
      var e, before := h[|h| - 1], h[..|h| - 1];
      SessionsAgree(before, token);
      assert h == before + [e];
      if e.Register? || e.Login? {
        AccountsAgree(before, e.name);
        SessionsAgree(before, e.token);
        GrantAgrees(Run(before), before, e, token);
      } else if e == Authenticate(Some(token), e.now) && Issued(before, token).Some? {
        AccountsAgree(before, Issued(before, token).value.owner);
        AuthenticateAgrees(Run(before), before, e, token);
      } else {
        OtherAgrees(Run(before), before, e, token);
      }
    }
  }

  lemma {:induction false} NothingAgrees(token: Token)
    ensures SessionAgrees(Run([]), [], token)
  {
  }

  lemma {:induction false} LastEvent(h: seq<Event>, e: Event)
    ensures (h + [e])[..|h + [e]| - 1] == h && (h + [e])[|h + [e]| - 1] == e
  {
  }

  lemma {:induction false} GrantAgrees(s: State, h: seq<Event>, e: Event, token: Token)
    requires (e.Register? || e.Login?) && SessionAgrees(s, h, token) && AccountAgrees(s, h, e.name)
      && SessionAgrees(s, h, e.token)
    ensures SessionAgrees(Step(s, e).0, h + [e], token)
  {
    hide Accepts, Expired, Active;
    LastEvent(h, e);
    assert Succeeds(h, e) <==> Step(s, e).1.Granted?;
  }

  lemma {:induction false} AuthenticateAgrees(s: State, h: seq<Event>, e: Event, token: Token)
    requires e == Authenticate(Some(token), e.now) && SessionAgrees(s, h, token) && Issued(h, token).Some?
    requires AccountAgrees(s, h, Issued(h, token).value.owner)
    ensures SessionAgrees(Step(s, e).0, h + [e], token)
  {
    hide Active, Known;
    LastEvent(h, e);
    assert Issued(h + [e], token) == Issued(h, token) && Ended(h + [e], token) == Ended(h, token);
    assert LastSeen(h + [e], token) ==
      if Accepts(h, token, e.now) && !Lapsed(h, token) then e.now else LastSeen(h, token);
    var owner := Issued(h, token).value.owner;
    assert Lapsed(h + [e], token) <==> Lapsed(h, token) || (Active(h, owner) && Expired(h, token, e.now));
    assert OwnerActive(s, token) <==> Active(h, owner);
  }

  lemma {:induction false} OtherAgrees(s: State, h: seq<Event>, e: Event, token: Token)
    requires SessionAgrees(s, h, token) && !e.Register? && !e.Login?
    requires e == Authenticate(Some(token), e.now) ==> Issued(h, token).None?
    ensures SessionAgrees(Step(s, e).0, h + [e], token)
  {
    hide Accepts, Active, Known, Expired;
    LastEvent(h, e);
    assert Issued(h + [e], token) == Issued(h, token) && Lapsed(h + [e], token) == Lapsed(h, token);
  }

  /** Under any clock, `authenticate` accepts exactly when the history promises it and no earlier
      attempt found the session expired. */
  lemma {:induction false} AuthenticateIsExact(h: seq<Event>, token: Token, now: int)
    ensures Admits(h, token, now) <==> Accepts(h, token, now) && !Lapsed(h, token)
  {
    hide Run;
    SessionsAgree(h, token);
    if Issued(h, token).Some? {
      AccountsAgree(h, Issued(h, token).value.owner);
    }
  }

  /** Every answer, of every operation and under any clock, is the one the history calls for. */
  lemma {:induction false} AnswersArePromised(h: seq<Event>, e: Event)
    ensures Step(Run(h), e).1 == Promised(h, e)
  {
    hide Run, Accepts, Lapsed, LastSeen, Ended;
    match e {
      case Register(name, _, token, _) =>
        AccountsAgree(h, name);
        SessionsAgree(h, token);
      case Login(name, _, _, token, _, _) =>
        AccountsAgree(h, name);
        SessionsAgree(h, token);
      case Authenticate(session, now) =>
        if session.Some? {
          AuthenticateIsExact(h, session.value, now);
          SessionsAgree(h, session.value);
        }
      case _ =>
    }
  }

  // ----- a clock that never runs backwards -----

  /** The clock readings of a history never decrease, and none exceeds `now`. */
  ghost predicate Forward(h: seq<Event>, now: int) {
    h == [] ||
    var e, before := h[|h| - 1], h[..|h| - 1];
    e.now <= now && if e.Login? then e.revokeTime <= e.now && Forward(before, e.revokeTime) else Forward(before, e.now)
  }

  lemma {:induction false} ForwardLater(h: seq<Event>, now: int, later: int)
    requires Forward(h, now) && now <= later
    ensures Forward(h, later)
  {
  }

  /** With a forward clock a session past its expiry stays past it. */
  lemma {:induction false} LapsedIsExpired(h: seq<Event>, token: Token, now: int)
    requires Forward(h, now) && Lapsed(h, token)
    ensures Issued(h, token).Some? && Expired(h, token, now)
  {
    var e, before := h[|h| - 1], h[..|h| - 1];
    if Lapsed(before, token) {
      LapsedIsExpired(before, token, if e.Login? then e.revokeTime else e.now);
      ForwardLater(before, if e.Login? then e.revokeTime else e.now, now);
      LapsedIsExpired(before, token, now);
      assert Issued(before, token).Some?;
    }
  }

  /** The session promise: for every interleaving under a forward clock, `authenticate` accepts exactly
      when the account is active, the session was neither logged out nor replaced, and now is before
      creation plus 24 hours and before the last accepted time plus 30 minutes. */
  lemma {:induction false} AuthenticateRefinesHistory(h: seq<Event>, token: Token, now: int)
    requires Forward(h, now)
    ensures Admits(h, token, now) <==> Accepts(h, token, now)
  {
    hide Admits, Forward;
    AuthenticateIsExact(h, token, now);
    if Lapsed(h, token) {
      LapsedIsExpired(h, token, now);
    }
  }

  /** Without a forward clock the promise fails: an early reading after a late one. */
  lemma {:induction false} BackwardClockBreaksThePromise()
    ensures var h := [Register(0, 0, 0, 0), Authenticate(Some(0), 31 * MINUTE)];
            Accepts(h, 0, MINUTE) && !Admits(h, 0, MINUTE)
  {
    var r := Register(0, 0, 0, 0);
    var h := [r, Authenticate(Some(0), 31 * MINUTE)];
    assert h[..1] == [r] && [r][..0] == [];
    assert Known([], 0).None? && Issued([], 0).None? && Succeeds([], r);
    assert Issued([r], 0) == Some(Grant(0, 0)) && Active([r], 0) && !Ended([r], 0) && LastSeen([r], 0) == 0;
    assert Expired([r], 0, 31 * MINUTE) && !Accepts([r], 0, 31 * MINUTE);
    assert Lapsed(h, 0);
    assert Issued(h, 0) == Some(Grant(0, 0)) && Active(h, 0) && !Ended(h, 0) && LastSeen(h, 0) == 0;
    AuthenticateIsExact(h, 0, MINUTE);
  }

  // ----- what no step undoes -----

  ghost predicate Extends(s: State, t: State) {
    forall token :: token in s.sessions ==>
      && token in t.sessions
      && t.sessions[token].owner == s.sessions[token].owner
      && t.sessions[token].createdAt == s.sessions[token].createdAt
      && t.sessions[token].absoluteExpiresAt == s.sessions[token].absoluteExpiresAt
      && (s.sessions[token].revokedAt.Some? ==> t.sessions[token] == s.sessions[token])
  }

  lemma {:induction false} StepExtends(s: State, e: Event)
    ensures Extends(s, Step(s, e).0)
  {
  }

  /** Under any clock: no row disappears, owner and absolute expiry never change, and a revoked row is
      never touched again, so `revoked_at` is written once. */
  lemma {:induction false} RevocationIsWrittenOnce(h: seq<Event>, later: seq<Event>)
    ensures Extends(Run(h), Run(h + later))
  {
    if later == [] {
      assert h + later == h;
    } else {
      var n := |later| - 1;
      assert (h + later)[..|h + later| - 1] == h + later[..n];
      RevocationIsWrittenOnce(h, later[..n]);
      StepExtends(Run(h + later[..n]), later[n]);
    }
  }

  /** A session that an active account could not use is refused forever, whatever the clock says later. */
  lemma {:induction false} RejectionIsPermanent(h: seq<Event>, token: Token, now: int, later: seq<Event>, again: int)
    requires OwnerActive(Run(h), token) && !Admits(h, token, now)
    ensures !Admits(h + [Authenticate(Some(token), now)] + later, token, again)
  {
    var tried := h + [Authenticate(Some(token), now)];
    assert tried[..|h|] == h;
    assert Run(tried).sessions[token].revokedAt.Some? by {
      assert Run(tried) == Step(Run(h), Authenticate(Some(token), now)).0;
    }
    RevocationIsWrittenOnce(tried, later);
  }

  /** An event leaves every session alone that it does not name. */
  lemma {:induction false} OtherSessionsUntouched(s: State, e: Event, token: Token)
    requires token in s.sessions
    requires e.Authenticate? ==> e.session != Some(token)
    requires e.Logout? ==> e.token != token
    requires e.Login? ==> e.prior != Some(token)
    ensures token in Step(s, e).0.sessions && Step(s, e).0.sessions[token] == s.sessions[token]
  {
  }

  // ----- the service -----

  class AuthService {
    var accounts: map<Name, AccountRow>
    var sessions: map<Token, SessionRow>

    constructor ()
      ensures Current() == Run([])
    {
      accounts, sessions := map[], map[];
    }

    /** A service is refused a session key of fewer than 32 bytes, and otherwise starts empty. */
    static method Create(sessionKey: seq<int>) returns (service: Option<AuthService>)
      ensures service.Some? <==> |sessionKey| >= MINIMUM_KEY_LENGTH
      ensures service.Some? ==> fresh(service.value) && service.value.Current() == Run([])
    {
      if |sessionKey| < MINIMUM_KEY_LENGTH {
        return None;
      }
      var created := new AuthService();
      return Some(created);
    }

    ghost function Current(): State
      reads this
    {
      State(accounts, sessions)
    }

    method CreateSession(owner: Name, token: Token, now: int) returns (outcome: Outcome)
      requires token !in sessions
      modifies this`sessions
      ensures sessions == old(sessions)[token := NewSession(owner, now)]
      ensures outcome == Granted(now + IDLE_LIFETIME, now + ABSOLUTE_LIFETIME)
    {
      var idle := now + IDLE_LIFETIME;
      var absolute := now + ABSOLUTE_LIFETIME;
      sessions := sessions[token := SessionRow(owner, now, now, idle, absolute, None)];
      return Granted(idle, absolute);
    }

    method RegisterAccount(name: Name, secret: Secret, token: Token, now: int) returns (outcome: Outcome)
      modifies this
      ensures (Current(), outcome) == Step(old(Current()), Register(name, secret, token, now))
    {
      if name in accounts {
        return UsernameUnavailable;
      }
      if token in sessions {
        return TokenCollision;
      }
      accounts := accounts[name := AccountRow(secret, true)];
      outcome := CreateSession(name, token, now);
    }

    method LogIn(name: Name, secret: Secret, prior: Option<Token>, token: Token, revokeTime: int, now: int)
        returns (outcome: Outcome)
      modifies this
      ensures (Current(), outcome) == Step(old(Current()), Login(name, secret, prior, token, revokeTime, now))
    {
      if name !in accounts || accounts[name].secret != secret {
        return InvalidCredentials;
      }
      if token in sessions {
        return TokenCollision;
      }
      if prior.Some? && prior.value in sessions && sessions[prior.value].revokedAt.None? {
        sessions := sessions[prior.value := sessions[prior.value].(revokedAt := Some(revokeTime))];
      }
      outcome := CreateSession(name, token, now);
    }

    method AuthenticateSession(session: Option<Token>, now: int) returns (outcome: Outcome)
      modifies this
      ensures (Current(), outcome) == Step(old(Current()), Authenticate(session, now))
    {
      if session.None? || session.value !in sessions {
        return AuthenticationRequired;
      }
      var token := session.value;
      var record := sessions[token];
      if record.owner !in accounts || !accounts[record.owner].active {
        return AuthenticationRequired;
      }
      if record.revokedAt.Some? || now >= record.idleExpiresAt || now >= record.absoluteExpiresAt {
        if record.revokedAt.None? {
          sessions := sessions[token := record.(revokedAt := Some(now))];
        }
        return AuthenticationRequired;
      }
      record := record.(lastSeenAt := now);
      record := record.(idleExpiresAt := Min(now + IDLE_LIFETIME, record.absoluteExpiresAt));
      sessions := sessions[token := record];
      return Accepted(record.owner, record.idleExpiresAt, record.absoluteExpiresAt);
    }

    method LogOut(token: Token, now: int) returns (outcome: Outcome)
      modifies this
      ensures (Current(), outcome) == Step(old(Current()), Logout(token, now))
    {
      if token in sessions && sessions[token].revokedAt.None? {
        sessions := sessions[token := sessions[token].(revokedAt := Some(now))];
      }
      return Done;
    }
  }
}
