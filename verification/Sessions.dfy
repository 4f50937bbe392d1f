/**
 Sessions and their families of refresh tokens: login, rotation with reuse detection, logout and
 the check made on every access. Statements are applied in the order of the service; a violated
 constraint rolls the transaction back.
 */
module Sessions {
  import opened Wrappers
  import opened AccessToken

  type SessionId = nat
  type TokenId = nat
  type Hash = nat

  /** Microseconds. Two clocks are read: the service's (`now`) and the database's (`created`). */
  type Time = int

  const REFRESH_TTL := 30 * 24 * 60 * 60 * 1_000_000
  const ACCESS_TTL := 10 * 60

  function Seconds(t: Time): int {
    t / 1_000_000
  }

  /** The user whose password was verified. */
  datatype Account = Account(user: nat, organization: nat)

  datatype Session = Session(
    user: nat,
    organization: nat,
    refreshHash: Hash,
    expiresAt: Time,
    revokedAt: Option<Time>,
    accessRevokedBefore: Option<Time>)

  datatype Token = Token(
    session: SessionId,
    family: nat,
    generation: nat,
    hash: Hash,
    expiresAt: Time,
    consumedAt: Option<Time>,
    revokedAt: Option<Time>,
    replacedBy: Option<TokenId>)

  /** `byHash` is the unique index on the token hash. */
  datatype Tables = Tables(sessions: map<SessionId, Session>, tokens: map<TokenId, Token>, byHash: map<Hash, TokenId>)

  datatype Error = InvalidCredentials | InvalidSession | ReuseDetected | Unavailable

  /** A transaction leaves tables behind whether or not the call succeeds. */
  datatype Outcome = Outcome(t: Tables, r: Result<SessionId, Error>)

  // ------------------------------------------------------------- constraints

  predicate HasGeneration(t: Tables, family: nat, generation: nat) {
    exists id :: id in t.tokens && t.tokens[id].family == family && t.tokens[id].generation == generation
  }

  /**
   Primary key, unique constraints, foreign key and expiry check of a new token row. The check
   compares with the row's creation time, which is the database's clock, not the service's.
   */
  predicate CanInsertToken(t: Tables, id: TokenId, token: Token, created: Time) {
    && id !in t.tokens
    && token.hash !in t.byHash
    && !HasGeneration(t, token.family, token.generation)
    && token.session in t.sessions
    && token.expiresAt > created
  }

  function InsertToken(t: Tables, id: TokenId, token: Token): Tables {
    t.(tokens := t.tokens[id := token], byHash := t.byHash[token.hash := id])
  }

  /** The deferred trigger on a row's replacement. */
  predicate ReplacementValid(t: Tables, token: Token) {
    token.replacedBy.Some? ==>
      && token.replacedBy.value in t.tokens
      && t.tokens[token.replacedBy.value].family == token.family
      && t.tokens[token.replacedBy.value].generation == token.generation + 1
  }

  // -------------------------------------------------------------- operations

  function Coalesce(a: Option<Time>, now: Time): Option<Time> {
    if a.Some? then a else Some(now)
  }

  /**
   Revokes the session and the tokens of the family, except rows `unseen` that a concurrent
   rotation committed after the statement took its snapshot.
   */
  function RevokeFamily(t: Tables, family: nat, session: SessionId, now: Time, unseen: set<TokenId>): Tables {
    t.(tokens := map id | id in t.tokens ::
         if t.tokens[id].family == family && id !in unseen
         then t.tokens[id].(revokedAt := Coalesce(t.tokens[id].revokedAt, now)) else t.tokens[id],
       sessions := if session in t.sessions
                   then
                     var s := t.sessions[session];
                     t.sessions[session := s.(revokedAt := Coalesce(s.revokedAt, now))]
                   else t.sessions)
  }

  function LoggedIn(t: Tables, now: Time, created: Time, account: Option<Account>, session: SessionId, family: nat,
                    token: TokenId, hash: Hash)
    : Outcome
  {
    if account.None? then Outcome(t, Err(InvalidCredentials))
    else
      var expiresAt := now + REFRESH_TTL;
      var s := Session(account.value.user, account.value.organization, hash, expiresAt, None, None);
      var first := Token(session, family, 0, hash, expiresAt, None, None, None);
      var t1 := t.(sessions := t.sessions[session := s]);
      if session in t.sessions || !CanInsertToken(t1, token, first, created) then Outcome(t, Err(Unavailable))
      else Outcome(InsertToken(t1, token, first), Ok(session))
  }

  function Rotate(t: Tables, now: Time, created: Time, id: TokenId, nextId: TokenId, nextHash: Hash): Outcome
    requires id in t.tokens && t.tokens[id].session in t.sessions
  {
    var token := t.tokens[id];
    var s := t.sessions[token.session];
    var next := Token(token.session, token.family, token.generation + 1, nextHash, s.expiresAt, None, None, None);
    if !CanInsertToken(t, nextId, next, created) then Outcome(t, Err(Unavailable))
    else
      var consumed := token.(consumedAt := Some(now), replacedBy := Some(nextId));
      var t1 := InsertToken(t, nextId, next);
      var t2 := t1.(tokens := t1.tokens[id := consumed],
                    sessions := t1.sessions[token.session := s.(refreshHash := nextHash)]);
      if !ReplacementValid(t2, next) || !ReplacementValid(t2, consumed) then Outcome(t, Err(Unavailable))
      else Outcome(t2, Ok(token.session))
  }

  function Refreshed(t: Tables, now: Time, created: Time, presented: Hash, nextId: TokenId, nextHash: Hash,
                     unseen: set<TokenId>)
    : Outcome
  {
    if || presented !in t.byHash || t.byHash[presented] !in t.tokens
       || t.tokens[t.byHash[presented]].session !in t.sessions
    then Outcome(t, Err(InvalidSession))
    else
      var id := t.byHash[presented];
      var token := t.tokens[id];
      var s := t.sessions[token.session];
      if token.consumedAt.Some? || token.revokedAt.Some? || s.revokedAt.Some?
      then Outcome(RevokeFamily(t, token.family, token.session, now, unseen), Err(ReuseDetected))
      else if token.expiresAt <= now || s.expiresAt <= now
      then Outcome(RevokeFamily(t, token.family, token.session, now, unseen), Err(InvalidSession))
      else Rotate(t, now, created, id, nextId, nextHash)
  }

  function LoggedOut(t: Tables, now: Time, presented: Hash, unseen: set<TokenId>): Tables {
    if presented !in t.byHash || t.byHash[presented] !in t.tokens then t
    else
      var token := t.tokens[t.byHash[presented]];
      RevokeFamily(t, token.family, token.session, now, unseen)
  }

  /** The claims of the access token issued with a session at a time. */
  predicate IssuedAt(c: Claims, s: Session, session: SessionId, now: Time) {
    && c.user == s.user && c.organization == s.organization && c.session == session
    && c.iat == c.nbf == Seconds(now)
    && c.exp == Seconds(now + ACCESS_TTL * 1_000_000)
  }

  predicate Authenticates(t: Tables, now: Time, c: Claims) {
    && I64_MIN <= Seconds(now) <= I64_MAX
    && Accepted(c, Seconds(now))
    && c.session in t.sessions
    && var s := t.sessions[c.session];
       && s.user == c.user && s.organization == c.organization
       && s.revokedAt.None?
       && s.expiresAt > now
       && (s.accessRevokedBefore.Some? ==> c.iat > Seconds(s.accessRevokedBefore.value))
  }

  class AuthService {
    var sessions: map<SessionId, Session>
    var tokens: map<TokenId, Token>
    var byHash: map<Hash, TokenId>

    ghost function View(): Tables
      reads this
    {
      Tables(sessions, tokens, byHash)
    }

    method Commit(tx: Tables)
      modifies this
      ensures View() == tx
    {
      sessions, tokens, byHash := tx.sessions, tx.tokens, tx.byHash;
    }

    method Login(now: Time, created: Time, account: Option<Account>, session: SessionId, family: nat, token: TokenId,
                 hash: Hash)
      returns (r: Result<SessionId, Error>)
      modifies this
      ensures Outcome(View(), r) == LoggedIn(old(View()), now, created, account, session, family, token, hash)
    {
      if account.None? {
        return Err(InvalidCredentials);
      }
      var tx := Tables(sessions, tokens, byHash);
      var expiresAt := now + REFRESH_TTL;
      if session in tx.sessions {
        return Err(Unavailable);
      }
      var s := Session(account.value.user, account.value.organization, hash, expiresAt, None, None);
      tx := tx.(sessions := tx.sessions[session := s]);
      var first := Token(session, family, 0, hash, expiresAt, None, None, None);
      if !CanInsertToken(tx, token, first, created) {
        return Err(Unavailable);
      }
      Commit(InsertToken(tx, token, first));
      r := Ok(session);
    }

    method Refresh(now: Time, created: Time, presented: Hash, nextId: TokenId, nextHash: Hash, unseen: set<TokenId>)
      returns (r: Result<SessionId, Error>)
      modifies this
      ensures Outcome(View(), r) == Refreshed(old(View()), now, created, presented, nextId, nextHash, unseen)
    {
      if presented !in byHash || byHash[presented] !in tokens || tokens[byHash[presented]].session !in sessions {
        return Err(InvalidSession);
      }
      var tx := Tables(sessions, tokens, byHash);
      var id := byHash[presented];
      var token := tokens[id];
      var s := sessions[token.session];
      if token.consumedAt.Some? || token.revokedAt.Some? || s.revokedAt.Some? {
        Commit(RevokeFamily(tx, token.family, token.session, now, unseen));
        return Err(ReuseDetected);
      }
      if token.expiresAt <= now || s.expiresAt <= now {
        Commit(RevokeFamily(tx, token.family, token.session, now, unseen));
        return Err(InvalidSession);
      }
      var next := Token(token.session, token.family, token.generation + 1, nextHash, s.expiresAt, None, None, None);
      if !CanInsertToken(tx, nextId, next, created) {
        return Err(Unavailable);
      }
      tx := InsertToken(tx, nextId, next);
      var consumed := token.(consumedAt := Some(now), replacedBy := Some(nextId));
      tx := tx.(tokens := tx.tokens[id := consumed]);
      tx := tx.(sessions := tx.sessions[token.session := s.(refreshHash := nextHash)]);
      if !ReplacementValid(tx, next) || !ReplacementValid(tx, consumed) {
        return Err(Unavailable);
      }
      Commit(tx);
      r := Ok(token.session);
    }

    method Logout(now: Time, presented: Hash, unseen: set<TokenId>)
      modifies this
      ensures View() == LoggedOut(old(View()), now, presented, unseen)
    {
      if presented in byHash && byHash[presented] in tokens {
        var token := tokens[byHash[presented]];
        Commit(RevokeFamily(Tables(sessions, tokens, byHash), token.family, token.session, now, unseen));
      }
    }

    method AuthenticateAccess(now: Time, c: Claims) returns (r: Result<SessionId, Error>)
      ensures r == if Authenticates(View(), now, c) then Ok(c.session) else Err(InvalidSession)
    {
      if Seconds(now) < I64_MIN || Seconds(now) > I64_MAX || !Accepted(c, Seconds(now)) {
        return Err(InvalidSession);
      }
      if c.session !in sessions {
        return Err(InvalidSession);
      }
      var s := sessions[c.session];
      if s.user != c.user || s.organization != c.organization || s.revokedAt.Some? || s.expiresAt <= now
         || (s.accessRevokedBefore.Some? && c.iat <= Seconds(s.accessRevokedBefore.value))
      {
        return Err(InvalidSession);
      }
      r := Ok(c.session);
    }
  }
}
