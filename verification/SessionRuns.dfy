/** Runs of logins, refreshes and logouts over any number of sessions. */
module SessionRuns {
  import opened Wrappers
  import opened AccessToken
  import opened Sessions

  datatype Action =
    | Login(now: Time, created: Time, account: Option<Account>, session: SessionId, family: nat, token: TokenId,
            hash: Hash)
    | Refresh(now: Time, created: Time, presented: Hash, nextId: TokenId, nextHash: Hash, unseen: set<TokenId>)
    | Logout(now: Time, presented: Hash, unseen: set<TokenId>)

  const EMPTY_TABLES := Tables(map[], map[], map[])

  function Step(t: Tables, a: Action): Tables {
    match a
    case Login(now, created, account, session, family, token, hash) =>
      LoggedIn(t, now, created, account, session, family, token, hash).t
    case Refresh(now, created, presented, nextId, nextHash, unseen) =>
      Refreshed(t, now, created, presented, nextId, nextHash, unseen).t
    case Logout(now, presented, unseen) => LoggedOut(t, now, presented, unseen)
  }

  function Run(t: Tables, actions: seq<Action>): Tables
    decreases |actions|
  {
    if actions == [] then t else Run(Step(t, actions[0]), actions[1..])
  }

  /** The random values of an action are new: identifiers, family and token hash. */
  predicate FreshAction(t: Tables, a: Action) {
    match a
    case Login(now, created, account, session, family, token, hash) =>
      && session !in t.sessions && token !in t.tokens && hash !in t.byHash
      && forall id :: id in t.tokens ==> t.tokens[id].family != family
    case Refresh(now, created, presented, nextId, nextHash, unseen) => nextId !in t.tokens && nextHash !in t.byHash
    case Logout(now, presented, unseen) => true
  }

  ghost predicate FreshRun(t: Tables, actions: seq<Action>)
    decreases |actions|
  {
    actions == [] || (FreshAction(t, actions[0]) && FreshRun(Step(t, actions[0]), actions[1..]))
  }

  // --------------------------------------------------------------- invariant

  /** A session's family and its tokens in order of generation. */
  datatype Chain = Chain(family: nat, ids: seq<TokenId>)

  type Chains = map<SessionId, Chain>

  /** The `i`-th token of a session's chain. */
  ghost predicate TokenAt(t: Tables, s: SessionId, c: Chain, i: nat)
    requires i < |c.ids| && s in t.sessions
  {
    && c.ids[i] in t.tokens
    && var token := t.tokens[c.ids[i]];
       && token.session == s && token.generation == i && token.family == c.family
       && token.expiresAt == t.sessions[s].expiresAt
       && (token.consumedAt.Some? <==> i + 1 < |c.ids|)
       && token.replacedBy == (if i + 1 < |c.ids| then Some(c.ids[i + 1]) else None)
       && (token.revokedAt.Some? ==> t.sessions[s].revokedAt.Some?)
       && (i + 1 == |c.ids| ==> t.sessions[s].refreshHash == token.hash)
  }

  /** Generations 0 to n of one family, each token replaced by the next, the last one current. */
  ghost predicate ChainOf(t: Tables, s: SessionId, c: Chain)
    requires s in t.sessions
  {
    c.ids != [] && forall i: nat :: i < |c.ids| ==> TokenAt(t, s, c, i)
  }

  ghost predicate InChains(t: Tables, chains: Chains, id: TokenId)
    requires id in t.tokens
  {
    var token := t.tokens[id];
    && token.session in chains && token.generation < |chains[token.session].ids|
    && chains[token.session].ids[token.generation] == id
  }

  ghost predicate FamiliesApart(t: Tables) {
    forall a, b :: a in t.tokens && b in t.tokens && t.tokens[a].family == t.tokens[b].family ==>
      t.tokens[a].session == t.tokens[b].session
  }

  ghost predicate HashIndex(t: Tables) {
    && (forall id :: id in t.tokens ==> t.tokens[id].hash in t.byHash && t.byHash[t.tokens[id].hash] == id)
    && (forall h :: h in t.byHash ==> t.byHash[h] in t.tokens && t.tokens[t.byHash[h]].hash == h)
  }

  ghost predicate Inv(t: Tables, chains: Chains) {
    && chains.Keys == t.sessions.Keys
    && (forall s :: s in chains ==> ChainOf(t, s, chains[s]))
    && (forall id :: id in t.tokens ==> InChains(t, chains, id))
    && FamiliesApart(t)
    && HashIndex(t)
  }

  /** What the constraint trigger demands, for every row at once. */
  ghost predicate TriggerHolds(t: Tables) {
    forall id :: id in t.tokens ==> ReplacementValid(t, t.tokens[id])
  }

  lemma InvImpliesTrigger(t: Tables, chains: Chains)
    requires Inv(t, chains)
    ensures TriggerHolds(t)
  {
    forall id | id in t.tokens ensures ReplacementValid(t, t.tokens[id]) {
      var token := t.tokens[id];
      assert InChains(t, chains, id);
      var chain := chains[token.session];
      assert ChainOf(t, token.session, chain);
      assert TokenAt(t, token.session, chain, token.generation);
      if token.generation + 1 < |chain.ids| { assert TokenAt(t, token.session, chain, token.generation + 1); }
    }
  }

  /** The login has an account, and the database's clock is not past the new session's expiry. */
  predicate LoginFits(a: Action)
    requires a.Login?
  {
    a.account.Some? && a.created < a.now + REFRESH_TTL
  }

  lemma LoginKeeps(t: Tables, chains: Chains, a: Action)
    requires Inv(t, chains) && a.Login? && FreshAction(t, a) && LoginFits(a)
    ensures LoggedIn(t, a.now, a.created, a.account, a.session, a.family, a.token, a.hash).r == Ok(a.session)
    ensures Inv(Step(t, a), chains[a.session := Chain(a.family, [a.token])])
  {
    LoginStartsChain(t, a);
    var t' := Step(t, a);
    var chains' := chains[a.session := Chain(a.family, [a.token])];
    LoginKeepsChains(t, chains, a);
    LoginInChains(t, chains, a);
    LoginKeepsKeys(t, a);
  }

  lemma LoginKeepsChains(t: Tables, chains: Chains, a: Action)
    requires a.Login? && FreshAction(t, a) && chains.Keys == t.sessions.Keys
    requires forall s :: s in chains ==> ChainOf(t, s, chains[s])
    ensures forall s :: s in chains ==> s in Step(t, a).sessions && ChainOf(Step(t, a), s, chains[s])
  {
    forall s | s in chains ensures s in Step(t, a).sessions && ChainOf(Step(t, a), s, chains[s]) {
      ChainUnaffected(t, Step(t, a), s, chains[s]);
    }
  }

  lemma LoginInChains(t: Tables, chains: Chains, a: Action)
    requires a.Login? && FreshAction(t, a) && LoginFits(a) && chains.Keys == t.sessions.Keys
    requires forall id :: id in t.tokens ==> InChains(t, chains, id)
    ensures var t' := Step(t, a);
            forall id :: id in t'.tokens ==> InChains(t', chains[a.session := Chain(a.family, [a.token])], id)
  {
    forall id | id in Step(t, a).tokens
      ensures InChains(Step(t, a), chains[a.session := Chain(a.family, [a.token])], id)
    {
      if id != a.token { assert InChains(t, chains, id); }
    }
  }

  lemma LoginStartsChain(t: Tables, a: Action)
    requires a.Login? && FreshAction(t, a) && LoginFits(a)
    ensures LoggedIn(t, a.now, a.created, a.account, a.session, a.family, a.token, a.hash).r == Ok(a.session)
    ensures ChainOf(Step(t, a), a.session, Chain(a.family, [a.token]))
  {
    assert TokenAt(Step(t, a), a.session, Chain(a.family, [a.token]), 0);
  }

  lemma LoginKeepsKeys(t: Tables, a: Action)
    requires FamiliesApart(t) && HashIndex(t) && a.Login? && FreshAction(t, a)
    ensures FamiliesApart(Step(t, a)) && HashIndex(Step(t, a))
  {}

  /** A session whose row and tokens are unchanged keeps its chain. */
  lemma ChainUnaffected(t: Tables, t': Tables, s: SessionId, c: Chain)
    requires s in t.sessions && ChainOf(t, s, c)
    requires s in t'.sessions && t'.sessions[s] == t.sessions[s]
    requires forall id :: id in t.tokens && t.tokens[id].session == s ==>
      id in t'.tokens && t'.tokens[id] == t.tokens[id]
    ensures ChainOf(t', s, c)
  {
    forall i: nat | i < |c.ids| ensures TokenAt(t', s, c, i) {
      assert TokenAt(t, s, c, i);
    }
  }

  /** Only the tip of a chain is still unconsumed. */
  lemma UnconsumedIsTip(t: Tables, chains: Chains, id: TokenId)
    requires Inv(t, chains) && id in t.tokens
    ensures var token := t.tokens[id];
            && InChains(t, chains, id) && token.session in t.sessions
            && (token.consumedAt.None? <==> token.generation == |chains[token.session].ids| - 1)
            && token.family == chains[token.session].family
            && token.expiresAt == t.sessions[token.session].expiresAt
  {
    assert InChains(t, chains, id);
    assert ChainOf(t, t.tokens[id].session, chains[t.tokens[id].session]);
    assert TokenAt(t, t.tokens[id].session, chains[t.tokens[id].session], t.tokens[id].generation);
  }

  /** A rotation is refused exactly when the database's clock has reached the session's expiry. */
  lemma RotateSucceedsIff(t: Tables, chains: Chains, now: Time, created: Time, id: TokenId, nextId: TokenId,
                          nextHash: Hash)
    requires Inv(t, chains) && id in t.tokens && t.tokens[id].consumedAt.None? && nextId !in t.tokens
    requires nextHash !in t.byHash && t.tokens[id].session in t.sessions
    ensures var s := t.tokens[id].session;
            Rotate(t, now, created, id, nextId, nextHash).r ==
              if created < t.sessions[s].expiresAt then Ok(s) else Err(Unavailable)
  {
    UnconsumedIsTip(t, chains, id);
    var token := t.tokens[id];
    forall other | other in t.tokens && t.tokens[other].family == token.family
      ensures t.tokens[other].generation != token.generation + 1
    {
      assert InChains(t, chains, other);
    }
  }

  function Extended(c: Chain, id: TokenId): Chain {
    c.(ids := c.ids + [id])
  }

  lemma RotateKeeps(t: Tables, chains: Chains, now: Time, created: Time, id: TokenId, nextId: TokenId, nextHash: Hash)
    requires Inv(t, chains) && id in t.tokens && t.tokens[id].consumedAt.None? && nextId !in t.tokens
    requires nextHash !in t.byHash
    requires t.tokens[id].session in t.sessions && t.sessions[t.tokens[id].session].expiresAt > created
    ensures var s := t.tokens[id].session;
            && s in chains
            && Inv(Rotate(t, now, created, id, nextId, nextHash).t, chains[s := Extended(chains[s], nextId)])
  {
    RotateSucceedsIff(t, chains, now, created, id, nextId, nextHash);
    UnconsumedIsTip(t, chains, id);
    var s := t.tokens[id].session;
    var t' := Rotate(t, now, created, id, nextId, nextHash).t;
    var chains' := chains[s := Extended(chains[s], nextId)];
    RotatedChain(t, chains, now, created, id, nextId, nextHash);
    forall other | other in chains' ensures ChainOf(t', other, chains'[other]) {
      if other != s { ChainUnaffected(t, t', other, chains[other]); }
    }
    RotatedIndex(t, chains, now, created, id, nextId, nextHash);
    RotatedKeys(t, now, created, id, nextId, nextHash);
  }

  lemma RotatedKeys(t: Tables, now: Time, created: Time, id: TokenId, nextId: TokenId, nextHash: Hash)
    requires FamiliesApart(t) && HashIndex(t) && id in t.tokens && nextId !in t.tokens && nextHash !in t.byHash
    requires t.tokens[id].session in t.sessions && Rotate(t, now, created, id, nextId, nextHash).r.Ok?
    ensures var t' := Rotate(t, now, created, id, nextId, nextHash).t; FamiliesApart(t') && HashIndex(t')
  {}

  lemma RotatedIndex(t: Tables, chains: Chains, now: Time, created: Time, id: TokenId, nextId: TokenId, nextHash: Hash)
    requires Inv(t, chains) && id in t.tokens && t.tokens[id].consumedAt.None? && nextId !in t.tokens
    requires nextHash !in t.byHash
    requires t.tokens[id].session in t.sessions && Rotate(t, now, created, id, nextId, nextHash).r.Ok?
    ensures var s := t.tokens[id].session;
            var t' := Rotate(t, now, created, id, nextId, nextHash).t;
            && s in chains && t'.sessions.Keys == t.sessions.Keys
            && (forall x :: x in t'.tokens ==> InChains(t', chains[s := Extended(chains[s], nextId)], x))
  {
    UnconsumedIsTip(t, chains, id);
    var s := t.tokens[id].session;
    var t' := Rotate(t, now, created, id, nextId, nextHash).t;
    forall x | x in t'.tokens ensures InChains(t', chains[s := Extended(chains[s], nextId)], x) {
      if x != nextId { assert InChains(t, chains, x); }
    }
  }

  lemma RotatedChain(t: Tables, chains: Chains, now: Time, created: Time, id: TokenId, nextId: TokenId, nextHash: Hash)
    requires Inv(t, chains) && id in t.tokens && nextId !in t.tokens && t.tokens[id].consumedAt.None?
    requires t.tokens[id].session in t.sessions && Rotate(t, now, created, id, nextId, nextHash).r.Ok?
    ensures var s := t.tokens[id].session;
            s in chains && ChainOf(Rotate(t, now, created, id, nextId, nextHash).t, s, Extended(chains[s], nextId))
  {
    UnconsumedIsTip(t, chains, id);
    var s := t.tokens[id].session;
    var t' := Rotate(t, now, created, id, nextId, nextHash).t;
    var c := chains[s];
    assert ChainOf(t, s, c);
    forall i: nat | i < |c.ids| + 1 ensures TokenAt(t', s, Extended(c, nextId), i) {
      if i < |c.ids| { assert TokenAt(t, s, c, i); }
    }
  }

  lemma RevokeKeeps(t: Tables, chains: Chains, id: TokenId, now: Time, unseen: set<TokenId>)
    requires Inv(t, chains) && id in t.tokens
    ensures Inv(RevokeFamily(t, t.tokens[id].family, t.tokens[id].session, now, unseen), chains)
  {
    var family, s := t.tokens[id].family, t.tokens[id].session;
    UnconsumedIsTip(t, chains, id);
    var t' := RevokeFamily(t, family, s, now, unseen);
    forall other | other in chains ensures ChainOf(t', other, chains[other]) {
      if other == s {
        RevokedChain(t, family, s, now, unseen, chains[s]);
      } else {
        ChainUnaffected(t, t', other, chains[other]);
      }
    }
    forall x | x in t'.tokens ensures InChains(t', chains, x) {
      assert InChains(t, chains, x);
    }
  }

  lemma RevokedChain(t: Tables, family: nat, s: SessionId, now: Time, unseen: set<TokenId>, c: Chain)
    requires s in t.sessions && ChainOf(t, s, c)
    ensures ChainOf(RevokeFamily(t, family, s, now, unseen), s, c)
  {
    var t' := RevokeFamily(t, family, s, now, unseen);
    forall i: nat | i < |c.ids| ensures TokenAt(t', s, c, i) {
      assert TokenAt(t, s, c, i);
    }
  }

  lemma StepKeeps(t: Tables, chains: Chains, a: Action) returns (chains': Chains)
    requires Inv(t, chains) && FreshAction(t, a)
    ensures Inv(Step(t, a), chains')
  {
    chains' := chains;
    match a
    case Login(now, created, account, session, family, token, hash) =>
      if LoginFits(a) {
        LoginKeeps(t, chains, a);
        chains' := chains[session := Chain(family, [token])];
      }
    case Refresh(now, created, presented, nextId, nextHash, unseen) =>
      if presented in t.byHash {
        var id := t.byHash[presented];
        UnconsumedIsTip(t, chains, id);
        var token := t.tokens[id];
        var s := t.sessions[token.session];
        if || token.consumedAt.Some? || token.revokedAt.Some? || s.revokedAt.Some?
           || token.expiresAt <= now || s.expiresAt <= now
        {
          RevokeKeeps(t, chains, id, now, unseen);
        } else if created < s.expiresAt {
          RotateKeeps(t, chains, now, created, id, nextId, nextHash);
          chains' := chains[token.session := Extended(chains[token.session], nextId)];
        }
      }
    case Logout(now, presented, unseen) =>
      if presented in t.byHash {
        RevokeKeeps(t, chains, t.byHash[presented], now, unseen);
      }
  }

  lemma {:induction false} RunKeeps(t: Tables, chains: Chains, actions: seq<Action>) returns (chains': Chains)
    requires Inv(t, chains) && FreshRun(t, actions)
    ensures Inv(Run(t, actions), chains')
    decreases |actions|
  {
    if actions == [] {
      chains' := chains;
    } else {
      var next := StepKeeps(t, chains, actions[0]);
      chains' := RunKeeps(Step(t, actions[0]), next, actions[1..]);
    }
  }

  // ------------------------------------------------------------ main results

  /**
   After any run with fresh random values every session has one linked chain of tokens, and no
   constraint has anything to reject.
   */
  lemma Reachable(actions: seq<Action>)
    requires FreshRun(EMPTY_TABLES, actions)
    ensures exists chains :: Inv(Run(EMPTY_TABLES, actions), chains)
    ensures TriggerHolds(Run(EMPTY_TABLES, actions))
  {
    var chains := RunKeeps(EMPTY_TABLES, map[], actions);
    InvImpliesTrigger(Run(EMPTY_TABLES, actions), chains);
  }

  /** The token is known, unconsumed and unrevoked, its session unrevoked, and neither has expired. */
  predicate PassesGuards(t: Tables, now: Time, presented: Hash) {
    && presented in t.byHash && t.byHash[presented] in t.tokens
    && var token := t.tokens[t.byHash[presented]];
       && token.session in t.sessions && token.consumedAt.None? && token.revokedAt.None? && token.expiresAt > now
       && t.sessions[token.session].revokedAt.None? && t.sessions[token.session].expiresAt > now
  }

  /**
   With fresh random values no unique constraint and no trigger ever refuses a statement. Only the
   check on the expiry does, and exactly when the database's clock has reached an expiry that the
   service's clock has not.
   */
  lemma ConstraintsRejectIff(actions: seq<Action>, a: Action)
    requires FreshRun(EMPTY_TABLES, actions) && FreshAction(Run(EMPTY_TABLES, actions), a)
    ensures a.Login? ==> LoginAnswer(Run(EMPTY_TABLES, actions), a)
    ensures a.Refresh? ==> RefreshAnswer(Run(EMPTY_TABLES, actions), a)
  {
    var chains := RunKeeps(EMPTY_TABLES, map[], actions);
    var t := Run(EMPTY_TABLES, actions);
    if a.Refresh? { RefreshAnswers(t, chains, a); }
    if a.Login? && LoginFits(a) { LoginStartsChain(t, a); }
  }

  predicate LoginAnswer(t: Tables, a: Action)
    requires a.Login?
  {
    LoggedIn(t, a.now, a.created, a.account, a.session, a.family, a.token, a.hash).r ==
      if a.account.None? then Err(InvalidCredentials)
      else if a.created < a.now + REFRESH_TTL then Ok(a.session) else Err(Unavailable)
  }

  predicate RefreshAnswer(t: Tables, a: Action)
    requires a.Refresh?
  {
    var r := Refreshed(t, a.now, a.created, a.presented, a.nextId, a.nextHash, a.unseen).r;
    if PassesGuards(t, a.now, a.presented) then
      var s := t.tokens[t.byHash[a.presented]].session;
      r == if a.created < t.sessions[s].expiresAt then Ok(s) else Err(Unavailable)
    else r == Err(InvalidSession) || r == Err(ReuseDetected)
  }

  lemma RefreshAnswers(t: Tables, chains: Chains, a: Action)
    requires Inv(t, chains) && a.Refresh? && FreshAction(t, a)
    ensures RefreshAnswer(t, a)
  {
    if PassesGuards(t, a.now, a.presented) {
      RotateSucceedsIff(t, chains, a.now, a.created, t.byHash[a.presented], a.nextId, a.nextHash);
    }
  }

  /** Such a refusal: the service's clock is one microsecond before the expiry, the database's is at it. */
  lemma RefusedAtExpiry()
    ensures var login := Login(0, 0, Some(Account(1, 1)), 1, 1, 1, 10);
            var refresh := Refresh(REFRESH_TTL - 1, REFRESH_TTL, 10, 2, 11, {});
            var t := Run(EMPTY_TABLES, [login]);
            && FreshRun(EMPTY_TABLES, [login]) && FreshAction(t, refresh) && PassesGuards(t, refresh.now, 10)
            && Refreshed(t, refresh.now, refresh.created, 10, 2, 11, {}) == Outcome(t, Err(Unavailable))
  {
    var login := Login(0, 0, Some(Account(1, 1)), 1, 1, 1, 10);
    assert [login][1..] == [];
    assert Run(EMPTY_TABLES, [login]) == Step(EMPTY_TABLES, login);
  }

  /** What no action ever undoes: revocation of a session, consumption of a token, an index entry. */
  ghost predicate Settled(t: Tables, t': Tables) {
    && (forall s :: s in t.sessions ==>
          s in t'.sessions && (t.sessions[s].revokedAt.Some? ==> t'.sessions[s].revokedAt == t.sessions[s].revokedAt))
    && (forall id :: id in t.tokens ==>
          && id in t'.tokens && t'.tokens[id].hash == t.tokens[id].hash && t'.tokens[id].session == t.tokens[id].session
          && (t.tokens[id].consumedAt.Some? ==> t'.tokens[id].consumedAt.Some?))
    && (forall h :: h in t.byHash ==> h in t'.byHash && t'.byHash[h] == t.byHash[h])
  }

  lemma StepSettled(t: Tables, a: Action)
    ensures Settled(t, Step(t, a))
  {
    match a
    case Login(_, _, _, _, _, _, _) => LoginSettled(t, a);
    case Refresh(_, _, _, _, _, _) => RefreshSettled(t, a);
    case Logout(_, _, _) => LogoutSettled(t, a);
  }

  lemma LoginSettled(t: Tables, a: Action)
    requires a.Login?
    ensures Settled(t, Step(t, a))
  {}

  lemma RefreshSettled(t: Tables, a: Action)
    requires a.Refresh?
    ensures Settled(t, Step(t, a))
  {
    if a.presented in t.byHash && t.byHash[a.presented] in t.tokens {
      var token := t.tokens[t.byHash[a.presented]];
      RevocationSettled(t, token.family, token.session, a.now, a.unseen);
      if token.session in t.sessions {
        RotationSettled(t, a.now, a.created, t.byHash[a.presented], a.nextId, a.nextHash);
      }
    }
  }

  lemma LogoutSettled(t: Tables, a: Action)
    requires a.Logout?
    ensures Settled(t, Step(t, a))
  {
    if a.presented in t.byHash && t.byHash[a.presented] in t.tokens {
      var token := t.tokens[t.byHash[a.presented]];
      RevocationSettled(t, token.family, token.session, a.now, a.unseen);
    }
  }

  lemma RevocationSettled(t: Tables, family: nat, session: SessionId, now: Time, unseen: set<TokenId>)
    ensures Settled(t, RevokeFamily(t, family, session, now, unseen))
  {}

  lemma RotationSettled(t: Tables, now: Time, created: Time, id: TokenId, nextId: TokenId, nextHash: Hash)
    requires id in t.tokens && t.tokens[id].session in t.sessions
    ensures Settled(t, Rotate(t, now, created, id, nextId, nextHash).t)
  {}

  lemma {:induction false} RunSettled(t: Tables, actions: seq<Action>)
    ensures Settled(t, Run(t, actions))
    decreases |actions|
  {
    if actions != [] {
      StepSettled(t, actions[0]);
      RunSettled(Step(t, actions[0]), actions[1..]);
    }
  }

  /** A token value is refreshed successfully at most once. */
  lemma RefreshedOnce(t: Tables, first: Action, between: seq<Action>, second: Action)
    requires first.Refresh? && second.Refresh? && second.presented == first.presented
    requires Refreshed(t, first.now, first.created, first.presented, first.nextId, first.nextHash, first.unseen).r.Ok?
    ensures var t' := Run(Step(t, first), between);
            var a := second;
            Refreshed(t', a.now, a.created, a.presented, a.nextId, a.nextHash, a.unseen).r == Err(ReuseDetected)
  {
    var id := t.byHash[first.presented];
    var t1 := Step(t, first);
    assert id in t1.tokens && t1.tokens[id].consumedAt.Some?;
    StepSettled(t, first);
    RunSettled(t1, between);
  }

  /** A session that is revoked stays so: no refresh and no access for it succeeds again. */
  lemma RevocationIsPermanent(t: Tables, actions: seq<Action>, s: SessionId, a: Action, now: Time, c: Claims)
    requires s in t.sessions && t.sessions[s].revokedAt.Some? && a.Refresh?
    ensures var t' := Run(t, actions);
            && Refreshed(t', a.now, a.created, a.presented, a.nextId, a.nextHash, a.unseen).r != Ok(s)
            && (Authenticates(t', now, c) ==> c.session != s)
  {
    RunSettled(t, actions);
  }

  /** Presenting a consumed or revoked token revokes its session, and so does logging out with any known token. */
  lemma ReuseRevokes(t: Tables, chains: Chains, a: Action)
    requires Inv(t, chains)
    requires a.Refresh? || a.Logout?
    requires a.presented in t.byHash
    requires a.Refresh? ==>
      t.tokens[t.byHash[a.presented]].consumedAt.Some? || t.tokens[t.byHash[a.presented]].revokedAt.Some?
    ensures var s := t.tokens[t.byHash[a.presented]].session;
            && s in Step(t, a).sessions && Step(t, a).sessions[s].revokedAt.Some?
            && (a.Refresh? ==>
                  Refreshed(t, a.now, a.created, a.presented, a.nextId, a.nextHash, a.unseen).r == Err(ReuseDetected))
  {
    UnconsumedIsTip(t, chains, t.byHash[a.presented]);
  }

  /** Refreshing or logging out touches no session but the one the token belongs to. */
  lemma SessionsAreIsolated(t: Tables, chains: Chains, a: Action, other: SessionId)
    requires Inv(t, chains) && FreshAction(t, a) && other in t.sessions
    requires !a.Login? && (a.presented in t.byHash ==> t.tokens[t.byHash[a.presented]].session != other)
    ensures other in Step(t, a).sessions && Step(t, a).sessions[other] == t.sessions[other]
    ensures forall id :: id in t.tokens && t.tokens[id].session == other ==>
      id in Step(t, a).tokens && Step(t, a).tokens[id] == t.tokens[id]
  {}

  /** The access token issued at `issued` is good from a minute before it for ten minutes, unless revoked. */
  lemma IssuedTokenWindow(t: Tables, issued: Time, now: Time, c: Claims)
    requires c.session in t.sessions && IssuedAt(c, t.sessions[c.session], c.session, issued)
    requires issued >= 0 && I64_MIN <= Seconds(now) <= I64_MAX && t.sessions[c.session].accessRevokedBefore.None?
    ensures Authenticates(t, now, c) <==>
      && Seconds(issued) - 60 <= Seconds(now) < Seconds(issued) + 600
      && t.sessions[c.session].revokedAt.None? && now < t.sessions[c.session].expiresAt
  {
    AcceptedIff(c, Seconds(now));
    assert Seconds(issued + ACCESS_TTL * 1_000_000) == Seconds(issued) + ACCESS_TTL;
  }
}
