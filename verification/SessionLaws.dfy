/** What each call on sessions answers and leaves behind, row by row. */
module SessionLaws {
  import opened Wrappers
  import opened AccessToken
  import opened Sessions
  import opened SessionRuns

  /** The time a revocation mark shows after revoking at `now`: the first one stays. */
  function Mark(before: Option<Time>, now: Time): Option<Time> {
    if before.Some? then before else Some(now)
  }

  /** The session is revoked, and of its family every token the statement saw; nothing else changed. */
  ghost predicate FamilyRevoked(t: Tables, t': Tables, family: nat, session: SessionId, now: Time,
                                unseen: set<TokenId>)
  {
    && session in t.sessions && t'.byHash == t.byHash
    && t'.sessions == t.sessions[session := t.sessions[session].(revokedAt := Mark(t.sessions[session].revokedAt, now))]
    && t'.tokens.Keys == t.tokens.Keys
    && forall id :: id in t.tokens ==>
         t'.tokens[id] == if t.tokens[id].family == family && id !in unseen
                          then t.tokens[id].(revokedAt := Mark(t.tokens[id].revokedAt, now)) else t.tokens[id]
  }

  lemma RevokeFamilyRevokes(t: Tables, family: nat, session: SessionId, now: Time, unseen: set<TokenId>)
    requires session in t.sessions
    ensures FamilyRevoked(t, RevokeFamily(t, family, session, now, unseen), family, session, now, unseen)
  {}

  // ------------------------------------------------------------------- refresh

  /** Somebody used the token before, or it or its session was revoked. */
  predicate Dead(t: Tables, token: Token)
    requires token.session in t.sessions
  {
    token.consumedAt.Some? || token.revokedAt.Some? || t.sessions[token.session].revokedAt.Some?
  }

  predicate Expired(t: Tables, token: Token, now: Time)
    requires token.session in t.sessions
  {
    token.expiresAt <= now || t.sessions[token.session].expiresAt <= now
  }

  /** The token was exchanged: it is consumed now and replaced by a new one, and the session names that one. */
  ghost predicate Exchanged(t: Tables, t': Tables, id: TokenId, now: Time, nextId: TokenId, nextHash: Hash) {
    && id in t.tokens && t.tokens[id].session in t.sessions && nextId !in t.tokens
    && var token := t.tokens[id]; var s := t.sessions[token.session];
       && t'.tokens.Keys == t.tokens.Keys + {nextId}
       && t'.tokens[id] == token.(consumedAt := Some(now), replacedBy := Some(nextId))
       && t'.tokens[nextId] ==
            Token(token.session, token.family, token.generation + 1, nextHash, s.expiresAt, None, None, None)
       && (forall x :: x in t.tokens && x != id ==> t'.tokens[x] == t.tokens[x])
       && t'.sessions == t.sessions[token.session := s.(refreshHash := nextHash)]
       && t'.byHash == t.byHash[nextHash := nextId]
  }

  /** What a refresh answers and what it leaves behind, for every token, known or not. */
  ghost predicate RefreshOutcome(t: Tables, a: Action)
    requires a.Refresh?
  {
    var o := Refreshed(t, a.now, a.created, a.presented, a.nextId, a.nextHash, a.unseen);
    if a.presented !in t.byHash then o == Outcome(t, Err(InvalidSession))
    else
      var id := t.byHash[a.presented];
      && id in t.tokens && t.tokens[id].session in t.sessions
      && var token := t.tokens[id];
         if Dead(t, token) then
           && o.r == Err(ReuseDetected)
           && FamilyRevoked(t, o.t, token.family, token.session, a.now, a.unseen)
         else if Expired(t, token, a.now) then
           && o.r == Err(InvalidSession)
           && FamilyRevoked(t, o.t, token.family, token.session, a.now, a.unseen)
         else if a.created >= t.sessions[token.session].expiresAt then
           o == Outcome(t, Err(Unavailable))
         else
           o.r == Ok(token.session) && Exchanged(t, o.t, id, a.now, a.nextId, a.nextHash)
  }

  /**
   In every reachable state: reuse is reported exactly for a dead token and expiry exactly for a live
   one that has run out; both revoke the family and the session, keeping earlier marks. Otherwise the
   token is exchanged, and no mark of revocation moves.
   */
  lemma RefreshIsExact(actions: seq<Action>, a: Action)
    requires FreshRun(EMPTY_TABLES, actions) && a.Refresh? && FreshAction(Run(EMPTY_TABLES, actions), a)
    ensures RefreshOutcome(Run(EMPTY_TABLES, actions), a)
  {
    var chains := RunKeeps(EMPTY_TABLES, map[], actions);
    RefreshOutcomeFrom(Run(EMPTY_TABLES, actions), chains, a);
  }

  lemma RefreshOutcomeFrom(t: Tables, chains: Chains, a: Action)
    requires Inv(t, chains) && a.Refresh? && FreshAction(t, a)
    ensures RefreshOutcome(t, a)
  {
    if a.presented in t.byHash {
      var id := t.byHash[a.presented];
      UnconsumedIsTip(t, chains, id);
      var token := t.tokens[id];
      if Dead(t, token) || Expired(t, token, a.now) {
        RevokeFamilyRevokes(t, token.family, token.session, a.now, a.unseen);
      } else {
        RotateSucceedsIff(t, chains, a.now, a.created, id, a.nextId, a.nextHash);
        RotateExchanges(t, a.now, a.created, id, a.nextId, a.nextHash);
      }
    }
  }

  lemma RotateExchanges(t: Tables, now: Time, created: Time, id: TokenId, nextId: TokenId, nextHash: Hash)
    requires id in t.tokens && t.tokens[id].session in t.sessions
    ensures var o := Rotate(t, now, created, id, nextId, nextHash);
            if o.r.Ok? then Exchanged(t, o.t, id, now, nextId, nextHash) else o.t == t
  {}

  /** What the trigger demands of a replaced token: a stored one, of its family, one generation on. */
  lemma TriggerDemands(t: Tables, token: Token, next: TokenId)
    requires token.replacedBy == Some(next)
    ensures next !in t.tokens ==> !ReplacementValid(t, token)
    ensures next in t.tokens ==>
      (ReplacementValid(t, token) <==>
         t.tokens[next].family == token.family && t.tokens[next].generation - token.generation == 1)
  {}

  // ----------------------------------------------------- login, logout, access

  /** A login starts a session of the verified user for thirty days, with the first token of a new family. */
  lemma LoginStarts(t: Tables, a: Action)
    requires a.Login? && LoggedIn(t, a.now, a.created, a.account, a.session, a.family, a.token, a.hash).r.Ok?
    ensures var t' := Step(t, a); var expiresAt := a.now + 30 * 86_400_000_000;
            && a.account.Some? && a.session !in t.sessions && a.token !in t.tokens && a.hash !in t.byHash
            && t'.sessions == t.sessions[a.session :=
                 Session(a.account.value.user, a.account.value.organization, a.hash, expiresAt, None, None)]
            && t'.tokens == t.tokens[a.token := Token(a.session, a.family, 0, a.hash, expiresAt, None, None, None)]
            && t'.byHash == t.byHash[a.hash := a.token]
  {}

  /** A login that is refused leaves everything alone. */
  lemma RefusedLoginChangesNothing(t: Tables, a: Action)
    requires a.Login? && LoggedIn(t, a.now, a.created, a.account, a.session, a.family, a.token, a.hash).r.Err?
    ensures Step(t, a) == t
  {}

  /** A logout with a known token revokes its family and session, and with an unknown one does nothing. */
  lemma LogoutRevokes(t: Tables, chains: Chains, now: Time, presented: Hash, unseen: set<TokenId>)
    requires Inv(t, chains)
    ensures presented !in t.byHash ==> LoggedOut(t, now, presented, unseen) == t
    ensures presented in t.byHash ==>
      var token := t.tokens[t.byHash[presented]];
      FamilyRevoked(t, LoggedOut(t, now, presented, unseen), token.family, token.session, now, unseen)
  {
    if presented in t.byHash {
      UnconsumedIsTip(t, chains, t.byHash[presented]);
      var token := t.tokens[t.byHash[presented]];
      RevokeFamilyRevokes(t, token.family, token.session, now, unseen);
    }
  }

  /**
   Access is granted exactly inside the claims' window, to the user and organization the session
   belongs to, while it is neither revoked nor expired and the claims are younger than any cutoff.
   */
  lemma AccessIff(t: Tables, now: Time, c: Claims)
    requires I64_MIN <= Seconds(now) <= I64_MAX
    ensures Authenticates(t, now, c) <==>
      && 0 <= c.iat && c.iat - 60 <= c.nbf < c.exp && c.iat < c.exp <= c.iat + 900
      && c.iat - 60 <= Seconds(now) < c.exp && c.nbf - 60 <= Seconds(now)
      && c.session in t.sessions
      && t.sessions[c.session].user == c.user && t.sessions[c.session].organization == c.organization
      && t.sessions[c.session].revokedAt.None? && now < t.sessions[c.session].expiresAt
      && (t.sessions[c.session].accessRevokedBefore.Some? ==>
            c.iat > Seconds(t.sessions[c.session].accessRevokedBefore.value))
  {
    AcceptedIff(c, Seconds(now));
  }

  /** Seconds are counted from the epoch, rounding down. */
  lemma SecondsRoundDown(t: Time)
    ensures 1_000_000 * Seconds(t) <= t < 1_000_000 * Seconds(t) + 1_000_000
  {}
}
