/** Runs of credential-profile operations by processes with different key rings over one database. */
module VaultRuns {
  import opened Wrappers
  import opened Text
  import opened Vault
  import opened VaultStores

  /** Each action carries the ring of the process that makes it. */
  datatype Action =
    | Create(ring: Ring, id: ProfileId, input: NewProfile, d: Draws)
    | Replace(ring: Ring, organization: Uuid, id: ProfileId, secret: Bytes, d: Draws)
    | Deactivate(organization: Uuid, id: ProfileId)
    | RotateKey(ring: Ring, organization: Uuid, id: ProfileId, d: Draws)

  /** History: the last secret written to a profile and the kind it was bound to. */
  datatype Written = Written(secret: Bytes, kind: string)

  datatype World = World(t: Tables, written: map<ProfileId, Written>)

  const EMPTY_WORLD := World(Tables(map[], map[]), map[])

  function Step(p: Primitives, w: World, a: Action): World {
    match a
    case Create(ring, id, input, d) =>
      var o := Created(p, w.t, ring, id, input, d);
      World(o.t, if o.r.Ok? then w.written[id := Written(input.secret, input.kind)] else w.written)
    case Replace(ring, organization, id, secret, d) =>
      var o := Replaced(p, w.t, ring, organization, id, secret, d);
      World(o.t, if o.r.Ok? && id in w.t.profiles
                 then w.written[id := Written(secret, w.t.profiles[id].kind)] else w.written)
    case Deactivate(organization, id) =>
      w.(t := Deactivated(w.t, organization, id).t)
    case RotateKey(ring, organization, id, d) =>
      w.(t := Rotated(p, w.t, ring, organization, id, d).t)
  }

  function Run(p: Primitives, w: World, actions: seq<Action>): World
    decreases |actions|
  {
    if actions == [] then w else Run(p, Step(p, w, actions[0]), actions[1..])
  }

  /** What a run relies on: one key for every version, and the associated data it uses. */
  datatype Environment = Environment(key: Version -> Key, texts: set<string>)

  /** Every ring gives a version the same key material. */
  ghost predicate Agrees(ring: Ring, env: Environment) {
    RingValid(ring) && forall v :: v in ring.keys ==> ring.keys[v].key == env.key(v)
  }

  /** Both texts a new profile may be bound to, by its raw and by its stored kind. */
  predicate Listed(p: Primitives, env: Environment, organization: Uuid, id: ProfileId, kind: string) {
    && ProfileAad(p, organization, id, kind) in env.texts
    && ProfileAad(p, organization, id, Trim(kind)) in env.texts
  }

  /** The action uses the environment's keys, and a new profile the environment's texts. */
  ghost predicate Fits(p: Primitives, env: Environment, a: Action) {
    && (!a.Deactivate? ==> Agrees(a.ring, env))
    && (a.Create? ==> Listed(p, env, a.input.organization, a.id, a.input.kind))
  }

  ghost predicate AllFit(p: Primitives, env: Environment, actions: seq<Action>) {
    forall i :: 0 <= i < |actions| ==> Fits(p, env, actions[i])
  }

  // --------------------------------------------------------------- invariant

  /** The profile's row holds the last secret written to it, and all constraints of the row. */
  ghost predicate RowInv(p: Primitives, profile: Profile, id: ProfileId, e: EncryptedSecret, last: Written,
                         env: Environment)
  {
    && SecretSizeOk(last.secret)
    && Trim(last.kind) == profile.kind
    && Holds(p, e, last.secret, ProfileAad(p, profile.organization, id, last.kind), env.key(e.keyVersion))
    && RowAllowed(e) && e.keyVersion <= I32_MAX
    && Listed(p, env, profile.organization, id, last.kind)
  }

  /** Profiles, ciphertexts and history are about the same identifiers. */
  ghost predicate SameIds(w: World) {
    && (forall id :: id in w.t.ciphertexts ==> id in w.t.profiles)
    && (forall id :: id in w.t.profiles ==> id in w.t.ciphertexts && id in w.written)
  }

  ghost predicate RowAt(p: Primitives, w: World, env: Environment, id: ProfileId)
    requires SameIds(w)
  {
    id in w.t.profiles ==> RowInv(p, w.t.profiles[id], id, w.t.ciphertexts[id], w.written[id], env)
  }

  ghost predicate Inv(p: Primitives, w: World, env: Environment) {
    SameIds(w) && forall id {:trigger RowAt(p, w, env, id)} :: RowAt(p, w, env, id)
  }

  /** The secret can be opened: it was bound to the kind the row stores. */
  predicate Bound(w: World, id: ProfileId) {
    id in w.t.profiles && id in w.written && w.written[id].kind == w.t.profiles[id].kind
  }

  ghost predicate Assumptions(p: Primitives, env: Environment) {
    && CipherSound(p)
    && HashSeparates(p, env.texts)
    && UuidsPrint(p)
  }

  /** Identifiers print in 36 characters, and differently. */
  ghost predicate UuidsPrint(p: Primitives) {
    && (forall n: Uuid :: |p.uuid(n)| == 36)
    && (forall m: Uuid, n: Uuid :: p.uuid(m) == p.uuid(n) ==> m == n)
  }

  // ------------------------------------------------------- associated data

  /** Identifiers print with a fixed width, so the associated data determines all three of its parts. */
  lemma AadInjective(p: Primitives, o1: Uuid, i1: ProfileId, k1: string, o2: Uuid, i2: ProfileId, k2: string)
    requires UuidsPrint(p) && ProfileAad(p, o1, i1, k1) == ProfileAad(p, o2, i2, k2)
    ensures o1 == o2 && i1 == i2 && k1 == k2
  {
    var prefix := "snm:credential:v1:";
    AadParts(prefix, p.uuid(o1), p.uuid(i1), k1);
    AadParts(prefix, p.uuid(o2), p.uuid(i2), k2);
  }

  lemma AadParts(prefix: string, organization: string, id: string, kind: string)
    requires |organization| == 36 && |id| == 36
    ensures var aad := prefix + organization + ":" + id + ":" + kind; var n := |prefix|;
            && |aad| >= n + 74
            && aad[n..n + 36] == organization && aad[n + 37..n + 73] == id && aad[n + 74..] == kind
  {}

  // -------------------------------------------------------------------- runs

  /** Writing one row keeps the invariant when the new row satisfies it. */
  lemma WriteKeeps(p: Primitives, w: World, env: Environment, id: ProfileId, profile: Profile, e: EncryptedSecret,
                   last: Written)
    requires Inv(p, w, env) && RowInv(p, profile, id, e, last, env)
    ensures Inv(p, World(Tables(w.t.profiles[id := profile], w.t.ciphertexts[id := e]), w.written[id := last]), env)
  {
    var w' := World(Tables(w.t.profiles[id := profile], w.t.ciphertexts[id := e]), w.written[id := last]);
    forall i ensures RowAt(p, w', env, i) {
      assert RowAt(p, w, env, i);
    }
  }

  lemma CreateRow(p: Primitives, t: Tables, env: Environment, ring: Ring, id: ProfileId, input: NewProfile, d: Draws)
    requires Assumptions(p, env) && Agrees(ring, env) && Listed(p, env, input.organization, id, input.kind)
    ensures var o := Created(p, t, ring, id, input, d);
            if o.r.Err? then o.t == t
            else
              && id in o.t.profiles && id in o.t.ciphertexts
              && o.t == Tables(t.profiles[id := o.t.profiles[id]], t.ciphertexts[id := o.t.ciphertexts[id]])
              && o.t.profiles[id].organization == input.organization
              && o.t.profiles[id].kind == Trim(input.kind) && o.t.profiles[id].active
              && Current(ring).Ok? && o.t.ciphertexts[id].keyVersion == Current(ring).value.version
              && RowInv(p, o.t.profiles[id], id, o.t.ciphertexts[id], Written(input.secret, input.kind), env)
  {
    var o := Created(p, t, ring, id, input, d);
    if o.r.Ok? {
      EncryptHolds(p, input.secret, ProfileAad(p, input.organization, id, input.kind), Current(ring).value, d);
    }
  }

  lemma CreateKeeps(p: Primitives, w: World, env: Environment, a: Action)
    requires Assumptions(p, env) && Inv(p, w, env) && a.Create? && Fits(p, env, a)
    ensures Inv(p, Step(p, w, a), env)
  {
    CreateRow(p, w.t, env, a.ring, a.id, a.input, a.d);
    var o := Created(p, w.t, a.ring, a.id, a.input, a.d);
    if o.r.Ok? {
      WriteKeeps(p, w, env, a.id, o.t.profiles[a.id], o.t.ciphertexts[a.id], Written(a.input.secret, a.input.kind));
    }
  }

  lemma ReplaceRow(p: Primitives, t: Tables, env: Environment, ring: Ring, organization: Uuid, id: ProfileId,
                   secret: Bytes, d: Draws)
    requires Assumptions(p, env) && Agrees(ring, env)
    requires id in t.profiles ==>
      && Trim(t.profiles[id].kind) == t.profiles[id].kind
      && Listed(p, env, t.profiles[id].organization, id, t.profiles[id].kind)
    ensures var o := Replaced(p, t, ring, organization, id, secret, d);
            if o.r.Err? then o.t == t
            else
              && id in t.profiles && t.profiles[id].organization == organization && t.profiles[id].active
              && id in o.t.ciphertexts
              && o.t == t.(ciphertexts := t.ciphertexts[id := o.t.ciphertexts[id]])
              && Current(ring).Ok? && o.t.ciphertexts[id].keyVersion == Current(ring).value.version
              && RowInv(p, t.profiles[id], id, o.t.ciphertexts[id], Written(secret, t.profiles[id].kind), env)
  {
    var o := Replaced(p, t, ring, organization, id, secret, d);
    if o.r.Ok? {
      EncryptHolds(p, secret, ProfileAad(p, organization, id, t.profiles[id].kind), Current(ring).value, d);
    }
  }

  lemma StoredKindIsTrimmed(p: Primitives, w: World, env: Environment, id: ProfileId)
    requires Inv(p, w, env) && id in w.t.profiles
    ensures Trim(w.t.profiles[id].kind) == w.t.profiles[id].kind
    ensures Listed(p, env, w.t.profiles[id].organization, id, w.t.profiles[id].kind)
  {
    assert RowAt(p, w, env, id);
    TrimIdempotent(w.written[id].kind);
  }

  lemma ReplaceKeeps(p: Primitives, w: World, env: Environment, a: Action)
    requires Assumptions(p, env) && Inv(p, w, env) && a.Replace? && Fits(p, env, a)
    ensures Inv(p, Step(p, w, a), env)
  {
    if a.id in w.t.profiles { StoredKindIsTrimmed(p, w, env, a.id); }
    ReplaceRow(p, w.t, env, a.ring, a.organization, a.id, a.secret, a.d);
    var o := Replaced(p, w.t, a.ring, a.organization, a.id, a.secret, a.d);
    if o.r.Ok? {
      var profile := w.t.profiles[a.id];
      WriteKeeps(p, w, env, a.id, profile, o.t.ciphertexts[a.id], Written(a.secret, profile.kind));
      assert w.t.profiles[a.id := profile] == w.t.profiles;
    }
  }

  /**
   What rotating one profile does. It fails, changing nothing, exactly when the ring has no current
   key, the profile is not the organization's, the current version does not fit the column, or the
   row is under another version and is unbound or its key is gone.
   */
  lemma RotateOutcome(p: Primitives, w: World, env: Environment, ring: Ring, organization: Uuid, id: ProfileId,
                      d: Draws)
    requires Assumptions(p, env) && Inv(p, w, env) && Agrees(ring, env)
    ensures var o := Rotated(p, w.t, ring, organization, id, d);
            && (o.r.Err? ==> o.t == w.t)
            && (o.r == Ok(false) ==> o.t == w.t)
            && (o.r.Ok? <==>
                 && Current(ring).Ok? && id in w.t.profiles && w.t.profiles[id].organization == organization
                 && Current(ring).value.version <= 2_147_483_647
                 && (w.t.ciphertexts[id].keyVersion == Current(ring).value.version
                     || (Bound(w, id) && w.t.ciphertexts[id].keyVersion in ring.keys)))
            && (o.r.Ok? ==>
                 && o.t == w.t.(ciphertexts := w.t.ciphertexts[id := o.t.ciphertexts[id]])
                 && o.t.ciphertexts[id].keyVersion == Current(ring).value.version
                 && RowInv(p, w.t.profiles[id], id, o.t.ciphertexts[id], w.written[id], env)
                 && (o.r.value <==> w.t.ciphertexts[id].keyVersion != Current(ring).value.version))
  {
    if Current(ring).Ok? && Stored(w.t, organization, id) {
      var profile, e, last := w.t.profiles[id], w.t.ciphertexts[id], w.written[id];
      assert RowAt(p, w, env, id);
      var bound, aad := ProfileAad(p, organization, id, last.kind), ProfileAad(p, organization, id, profile.kind);
      DecryptHolds(p, e, last.secret, bound, aad, env.key(e.keyVersion), ring);
      if Bound(w, id) {
        if e.keyVersion in ring.keys {
          RotateHolds(p, e, last.secret, aad, env.key(e.keyVersion), ring, d);
        }
      } else if aad == bound {
        AadInjective(p, organization, id, last.kind, organization, id, profile.kind);
      }
    }
  }

  lemma StepKeeps(p: Primitives, w: World, env: Environment, a: Action)
    requires Assumptions(p, env) && Inv(p, w, env) && Fits(p, env, a)
    ensures Inv(p, Step(p, w, a), env)
  {
    match a
    case Create(_, _, _, _) => CreateKeeps(p, w, env, a);
    case Replace(_, _, _, _, _) => ReplaceKeeps(p, w, env, a);
    case Deactivate(_, _) =>
      forall i ensures RowAt(p, Step(p, w, a), env, i) {
        assert RowAt(p, w, env, i);
      }
    case RotateKey(ring, organization, id, d) =>
      RotateOutcome(p, w, env, ring, organization, id, d);
      forall i ensures RowAt(p, Step(p, w, a), env, i) {
        assert RowAt(p, w, env, i);
      }
  }

  /** Every run with stable key material keeps every row openable to the last secret written. */
  lemma {:induction false} RunKeeps(p: Primitives, w: World, env: Environment, actions: seq<Action>)
    requires Assumptions(p, env) && Inv(p, w, env) && AllFit(p, env, actions)
    ensures Inv(p, Run(p, w, actions), env)
    decreases |actions|
  {
    if actions != [] {
      StepKeeps(p, w, env, actions[0]);
      RunKeeps(p, Step(p, w, actions[0]), env, actions[1..]);
    }
  }

  /** What resolving gives in any state with the invariant, for any ring that agrees on the key material. */
  lemma ResolveOutcome(p: Primitives, w: World, env: Environment, ring: Ring, organization: Uuid, id: ProfileId)
    requires Assumptions(p, env) && Inv(p, w, env) && Agrees(ring, env)
    ensures Resolve(p, w.t, ring, organization, id) ==
      if id !in w.t.profiles || w.t.profiles[id].organization != organization then Err(NotFound)
      else if !w.t.profiles[id].active then Err(Inactive)
      else if !Bound(w, id) then Err(VaultError(AssociatedDataMismatch))
      else if w.t.ciphertexts[id].keyVersion !in ring.keys
        then Err(VaultError(MissingMasterKey(w.t.ciphertexts[id].keyVersion)))
      else Ok(w.written[id].secret)
  {
    if Stored(w.t, organization, id) {
      var profile, e, last := w.t.profiles[id], w.t.ciphertexts[id], w.written[id];
      assert RowAt(p, w, env, id);
      var bound, aad := ProfileAad(p, organization, id, last.kind), ProfileAad(p, organization, id, profile.kind);
      DecryptHolds(p, e, last.secret, bound, aad, env.key(e.keyVersion), ring);
      if aad == bound {
        AadInjective(p, organization, id, last.kind, organization, id, profile.kind);
      }
    }
  }

  /**
   A successful creation resolves to its secret exactly when the kind was given without outer white
   space: the raw kind is bound, the trimmed one is stored.
   */
  lemma CreateResolvesIff(p: Primitives, w: World, env: Environment, ring: Ring, id: ProfileId, input: NewProfile,
                          d: Draws)
    requires Assumptions(p, env) && Inv(p, w, env) && Agrees(ring, env)
    requires Listed(p, env, input.organization, id, input.kind) && Created(p, w.t, ring, id, input, d).r.Ok?
    ensures var t := Created(p, w.t, ring, id, input, d).t;
            Resolve(p, t, ring, input.organization, id) ==
              if Trimmed(input.kind) then Ok(input.secret) else Err(VaultError(AssociatedDataMismatch))
  {
    var a := Create(ring, id, input, d);
    CreateKeeps(p, w, env, a);
    ResolveOutcome(p, Step(p, w, a), env, ring, input.organization, id);
    TrimFixesTrimmed(input.kind);
    EncryptHolds(p, input.secret, ProfileAad(p, input.organization, id, input.kind), Current(ring).value, d);
  }

  /** Creation succeeds exactly on these conditions: the row's check constraints never refuse it. */
  lemma CreateSucceedsIff(p: Primitives, w: World, env: Environment, ring: Ring, id: ProfileId, input: NewProfile,
                          d: Draws)
    requires Assumptions(p, env) && Inv(p, w, env) && Agrees(ring, env)
    ensures Created(p, w.t, ring, id, input, d).r.Ok? <==>
      && ValidateProfileInput(input).None? && Current(ring).Ok? && Current(ring).value.version <= 2_147_483_647
      && id !in w.t.profiles
      && !(exists other :: && other in w.t.profiles && w.t.profiles[other].organization == input.organization
                           && w.t.profiles[other].name == Trim(input.name))
  {
    if ValidateProfileInput(input).None? && Current(ring).Ok? {
      EncryptHolds(p, input.secret, ProfileAad(p, input.organization, id, input.kind), Current(ring).value, d);
    }
  }

  /** A valid profile whose kind has one trailing space. */
  function SpacedKind(secret: Bytes): NewProfile {
    NewProfile(1, "core", "snmp ", None, secret)
  }

  lemma SpacedKindIsValid(secret: Bytes)
    requires SecretSizeOk(secret)
    ensures ValidateProfileInput(SpacedKind(secret)).None? && !Trimmed(SpacedKind(secret).kind)
  {
    assert !Blank("core") && ByteLen("core") == 4;
    assert !Blank("snmp ") && ByteLen("snmp ") == 5;
  }

  /** The environment of that example: one key and two texts. */
  ghost function SpacedEnvironment(p: Primitives, key: MasterKey): Environment {
    Environment(v => key.key, {ProfileAad(p, 1, 1, "snmp "), ProfileAad(p, 1, 1, Trim("snmp "))})
  }

  /** Such a profile is created in an empty database, and its secret cannot be resolved. */
  lemma TrailingSpaceLocksOut(p: Primitives, key: MasterKey, d: Draws, secret: Bytes)
    requires Assumptions(p, SpacedEnvironment(p, key)) && 0 < key.version <= I32_MAX && SecretSizeOk(secret)
    ensures var ring := Inserted(EMPTY_RING, key, true);
            var o := Created(p, EMPTY_WORLD.t, ring, 1, SpacedKind(secret), d);
            o.r.Ok? && Resolve(p, o.t, ring, 1, 1) == Err(VaultError(AssociatedDataMismatch))
  {
    SpacedKindIsValid(secret);
    SpacedResolves(p, EMPTY_WORLD, SpacedEnvironment(p, key), Inserted(EMPTY_RING, key, true), SpacedKind(secret), d);
  }

  lemma SpacedResolves(p: Primitives, w: World, env: Environment, ring: Ring, input: NewProfile, d: Draws)
    requires Assumptions(p, env) && Inv(p, w, env) && w.t.profiles == map[] && Agrees(ring, env)
    requires Current(ring).Ok? && Current(ring).value.version <= I32_MAX
    requires ValidateProfileInput(input).None? && !Trimmed(input.kind)
    requires Listed(p, env, input.organization, 1, input.kind)
    ensures var o := Created(p, w.t, ring, 1, input, d);
            o.r.Ok? && Resolve(p, o.t, ring, input.organization, 1) == Err(VaultError(AssociatedDataMismatch))
  {
    CreateSucceedsIff(p, w, env, ring, 1, input, d);
    CreateResolvesIff(p, w, env, ring, 1, input, d);
  }

  /** Replacing the secret always works afterwards, and so repairs a profile created with white space. */
  lemma ReplaceResolves(p: Primitives, w: World, env: Environment, ring: Ring, organization: Uuid, id: ProfileId,
                        secret: Bytes, d: Draws)
    requires Assumptions(p, env) && Inv(p, w, env) && Agrees(ring, env)
    requires Replaced(p, w.t, ring, organization, id, secret, d).r.Ok?
    ensures Resolve(p, Replaced(p, w.t, ring, organization, id, secret, d).t, ring, organization, id) == Ok(secret)
  {
    var a := Replace(ring, organization, id, secret, d);
    ReplaceKeeps(p, w, env, a);
    ResolveOutcome(p, Step(p, w, a), env, ring, organization, id);
    EncryptHolds(p, secret, ProfileAad(p, organization, id, w.t.profiles[id].kind), Current(ring).value, d);
  }

  predicate Replaces(a: Action, id: ProfileId) {
    a.Replace? && a.id == id
  }

  /** Nothing but a replacement repairs it. */
  lemma StepKeepsUnbound(p: Primitives, w: World, a: Action, id: ProfileId)
    requires id in w.t.profiles && id in w.written && !Bound(w, id) && !Replaces(a, id)
    ensures var w' := Step(p, w, a); id in w'.t.profiles && id in w'.written && !Bound(w', id)
  {}

  lemma {:induction false} RunKeepsUnbound(p: Primitives, w: World, actions: seq<Action>, id: ProfileId)
    requires id in w.t.profiles && id in w.written && !Bound(w, id) && forall a :: a in actions ==> !Replaces(a, id)
    ensures var w' := Run(p, w, actions); id in w'.t.profiles && id in w'.written && !Bound(w', id)
    decreases |actions|
  {
    if actions != [] {
      assert actions[0] in actions;
      StepKeepsUnbound(p, w, actions[0], id);
      RunKeepsUnbound(p, Step(p, w, actions[0]), actions[1..], id);
    }
  }

  /**
   A profile bound to another kind than it stores stays locked: after any run that does not replace
   its secret, no ring resolves it, for any organization.
   */
  lemma LockedOutUntilReplaced(p: Primitives, w: World, env: Environment, actions: seq<Action>, id: ProfileId,
                               ring: Ring, organization: Uuid)
    requires Assumptions(p, env) && Inv(p, w, env) && AllFit(p, env, actions) && Agrees(ring, env)
    requires id in w.t.profiles && !Bound(w, id) && forall a :: a in actions ==> !Replaces(a, id)
    ensures Resolve(p, Run(p, w, actions).t, ring, organization, id).Err?
  {
    RunKeeps(p, w, env, actions);
    RunKeepsUnbound(p, w, actions, id);
    ResolveOutcome(p, Run(p, w, actions), env, ring, organization, id);
  }

  // ------------------------------------------------------- trimmed kinds

  ghost predicate AllBound(w: World) {
    forall id :: id in w.t.profiles ==> Bound(w, id)
  }

  /** The caller's duty, checkable before the call. */
  ghost predicate TrimmedKinds(actions: seq<Action>) {
    forall i :: 0 <= i < |actions| ==> (actions[i].Create? ==> Trimmed(actions[i].input.kind))
  }

  lemma StepKeepsBound(p: Primitives, w: World, a: Action)
    requires SameIds(w) && AllBound(w) && (a.Create? ==> Trimmed(a.input.kind))
    ensures AllBound(Step(p, w, a))
  {
    if a.RotateKey? {
      RotationKeepsProfiles(p, w.t, a.ring, a.organization, a.id, a.d);
    } else if a.Replace? {
      ReplacementKeepsProfiles(p, w.t, a.ring, a.organization, a.id, a.secret, a.d);
    } else if a.Create? {
      TrimFixesTrimmed(a.input.kind);
    }
  }

  lemma RotationKeepsProfiles(p: Primitives, t: Tables, ring: Ring, organization: Uuid, id: ProfileId, d: Draws)
    ensures Rotated(p, t, ring, organization, id, d).t.profiles == t.profiles
  {}

  lemma ReplacementKeepsProfiles(p: Primitives, t: Tables, ring: Ring, organization: Uuid, id: ProfileId, secret: Bytes,
                                 d: Draws)
    ensures Replaced(p, t, ring, organization, id, secret, d).t.profiles == t.profiles
  {}

  lemma {:induction false} RunKeepsBound(p: Primitives, w: World, env: Environment, actions: seq<Action>)
    requires Assumptions(p, env) && Inv(p, w, env) && AllBound(w)
    requires AllFit(p, env, actions) && TrimmedKinds(actions)
    ensures AllBound(Run(p, w, actions))
    decreases |actions|
  {
    if actions != [] {
      StepKeeps(p, w, env, actions[0]);
      StepKeepsBound(p, w, actions[0]);
      RunKeepsBound(p, Step(p, w, actions[0]), env, actions[1..]);
    }
  }

  /**
   After any run of creations with trimmed kinds, replacements, deactivations and rotations, every
   active profile resolves to the last secret written, with any ring that has its key.
   */
  lemma LastSecretResolves(p: Primitives, actions: seq<Action>, env: Environment, ring: Ring, id: ProfileId)
    requires Assumptions(p, env) && AllFit(p, env, actions) && TrimmedKinds(actions) && Agrees(ring, env)
    ensures var w := Run(p, EMPTY_WORLD, actions);
            id in w.t.profiles && w.t.profiles[id].active ==>
              id in w.written && id in w.t.ciphertexts &&
              (w.t.ciphertexts[id].keyVersion in ring.keys ==>
                Resolve(p, w.t, ring, w.t.profiles[id].organization, id) == Ok(w.written[id].secret))
  {
    var w := Run(p, EMPTY_WORLD, actions);
    RunKeeps(p, EMPTY_WORLD, env, actions);
    RunKeepsBound(p, EMPTY_WORLD, env, actions);
    if id in w.t.profiles {
      ResolveOutcome(p, w, env, ring, w.t.profiles[id].organization, id);
    }
  }

  // ---------------------------------------------------------- full rotation

  /** Rotates the listed profiles one after the other, each for its own organization. */
  function RotateEach(p: Primitives, t: Tables, ring: Ring, ids: seq<ProfileId>, draws: ProfileId -> Draws): Tables
    decreases |ids|
  {
    if ids == [] then t
    else
      var organization := if ids[0] in t.profiles then t.profiles[ids[0]].organization else 0;
      RotateEach(p, Rotated(p, t, ring, organization, ids[0], draws(ids[0])).t, ring, ids[1..], draws)
  }

  /** The ring can open every row and its current version fits the column. */
  ghost predicate CanRotate(w: World, ring: Ring) {
    && Current(ring).Ok? && Current(ring).value.version <= I32_MAX
    && forall id :: id in w.t.ciphertexts ==> w.t.ciphertexts[id].keyVersion in ring.keys
  }

  lemma RotateOneMoves(p: Primitives, w: World, env: Environment, ring: Ring, organization: Uuid, id: ProfileId,
                       d: Draws)
    requires Assumptions(p, env) && Inv(p, w, env) && AllBound(w) && Agrees(ring, env) && CanRotate(w, ring)
    requires id in w.t.profiles ==> organization == w.t.profiles[id].organization
    ensures var t := Rotated(p, w.t, ring, organization, id, d).t; var w1 := w.(t := t);
            && Inv(p, w1, env) && AllBound(w1) && CanRotate(w1, ring)
            && t.profiles == w.t.profiles
            && (if id in w.t.ciphertexts
                then id in t.ciphertexts && t.ciphertexts == w.t.ciphertexts[id := t.ciphertexts[id]]
                     && t.ciphertexts[id].keyVersion == Current(ring).value.version
                else t == w.t)
  {
    StepKeeps(p, w, env, RotateKey(ring, organization, id, d));
    RotateOutcome(p, w, env, ring, organization, id, d);
  }

  /** Rotating a list moves exactly its profiles to the current key and keeps what every row holds. */
  lemma {:induction false} RotateEachMoves(p: Primitives, w: World, env: Environment, ring: Ring, ids: seq<ProfileId>,
                                           draws: ProfileId -> Draws)
    requires Assumptions(p, env) && Inv(p, w, env) && AllBound(w) && Agrees(ring, env) && CanRotate(w, ring)
    ensures var t := RotateEach(p, w.t, ring, ids, draws);
            && Inv(p, w.(t := t), env)
            && t.profiles == w.t.profiles
            && t.ciphertexts.Keys == w.t.ciphertexts.Keys
            && forall id :: id in w.t.ciphertexts ==>
                 if id in ids then t.ciphertexts[id].keyVersion == Current(ring).value.version
                 else t.ciphertexts[id] == w.t.ciphertexts[id]
    decreases |ids|
  {
    if ids != [] {
      var organization := if ids[0] in w.t.profiles then w.t.profiles[ids[0]].organization else 0;
      var o := Rotated(p, w.t, ring, organization, ids[0], draws(ids[0]));
      RotateOneMoves(p, w, env, ring, organization, ids[0], draws(ids[0]));
      RotateEachMoves(p, w.(t := o.t), env, ring, ids[1..], draws);
      RotateEachKeepsCurrent(p, o.t, ring, ids[1..], draws, ids[0]);
    }
  }

  /** A row already under the current key is left alone. */
  lemma {:induction false} RotateEachKeepsCurrent(p: Primitives, t: Tables, ring: Ring, ids: seq<ProfileId>,
                                                  draws: ProfileId -> Draws, id: ProfileId)
    requires Current(ring).Ok?
    requires id in t.ciphertexts ==> t.ciphertexts[id].keyVersion == Current(ring).value.version
    ensures var t' := RotateEach(p, t, ring, ids, draws);
            (id in t'.ciphertexts <==> id in t.ciphertexts) &&
            (id in t.ciphertexts ==> t'.ciphertexts[id] == t.ciphertexts[id])
    decreases |ids|
  {
    if ids != [] {
      var organization := if ids[0] in t.profiles then t.profiles[ids[0]].organization else 0;
      RotateEachKeepsCurrent(p, Rotated(p, t, ring, organization, ids[0], draws(ids[0])).t, ring, ids[1..], draws, id);
    }
  }

  function OnlyCurrent(ring: Ring): Ring
    requires Current(ring).Ok?
  {
    Ring(map[Current(ring).value.version := Current(ring).value], Some(Current(ring).value.version))
  }

  /**
   After rotating every profile the old keys can be dropped: with only the current key in the ring
   every active profile resolves to the same secret as before.
   */
  lemma OldKeysCanBeDropped(p: Primitives, w: World, env: Environment, ring: Ring, ids: seq<ProfileId>,
                            draws: ProfileId -> Draws, id: ProfileId)
    requires Assumptions(p, env) && Inv(p, w, env) && AllBound(w) && Agrees(ring, env) && CanRotate(w, ring)
    requires forall i :: i in w.t.profiles ==> i in ids
    requires id in w.t.profiles && w.t.profiles[id].active
    ensures var organization := w.t.profiles[id].organization;
            && Resolve(p, w.t, ring, organization, id) == Ok(w.written[id].secret)
            && Resolve(p, RotateEach(p, w.t, ring, ids, draws), OnlyCurrent(ring), organization, id) ==
                 Ok(w.written[id].secret)
  {
    var organization := w.t.profiles[id].organization;
    ResolveOutcome(p, w, env, ring, organization, id);
    RotateEachMoves(p, w, env, ring, ids, draws);
    ResolveOutcome(p, w.(t := RotateEach(p, w.t, ring, ids, draws)), env, OnlyCurrent(ring), organization, id);
  }

  /** A second rotation of everything changes nothing, whatever random values it draws. */
  lemma {:induction false} SecondRotationIsNoOp(p: Primitives, t: Tables, ring: Ring, ids: seq<ProfileId>,
                                                draws: ProfileId -> Draws)
    requires Current(ring).Ok?
    requires forall id :: id in t.ciphertexts ==> t.ciphertexts[id].keyVersion == Current(ring).value.version
    ensures RotateEach(p, t, ring, ids, draws) == t
    decreases |ids|
  {
    if ids != [] { SecondRotationIsNoOp(p, t, ring, ids[1..], draws); }
  }

  lemma RotatingTwice(p: Primitives, w: World, env: Environment, ring: Ring, ids: seq<ProfileId>,
                      first: ProfileId -> Draws, second: ProfileId -> Draws)
    requires Assumptions(p, env) && Inv(p, w, env) && AllBound(w) && Agrees(ring, env) && CanRotate(w, ring)
    requires forall i :: i in w.t.profiles ==> i in ids
    ensures var t := RotateEach(p, w.t, ring, ids, first);
            RotateEach(p, t, ring, ids, second) == t
  {
    RotateEachMoves(p, w, env, ring, ids, first);
    SecondRotationIsNoOp(p, RotateEach(p, w.t, ring, ids, first), ring, ids, second);
  }

  // -------------------------------------------------------------- isolation

  /** A ciphertext moved to another profile's row is refused: it never opens there. */
  lemma MovedCiphertextIsRefused(p: Primitives, w: World, env: Environment, ring: Ring, source: ProfileId,
                                 target: ProfileId)
    requires Assumptions(p, env) && Inv(p, w, env) && source != target
    requires source in w.t.profiles && target in w.t.profiles && w.t.profiles[target].active
    ensures var t := w.t.(ciphertexts := w.t.ciphertexts[target := w.t.ciphertexts[source]]);
            Resolve(p, t, ring, w.t.profiles[target].organization, target) == Err(VaultError(AssociatedDataMismatch))
  {
    var from, into := w.t.profiles[source], w.t.profiles[target];
    assert RowAt(p, w, env, source) && RowAt(p, w, env, target);
    var bound := ProfileAad(p, from.organization, source, w.written[source].kind);
    var aad := ProfileAad(p, into.organization, target, into.kind);
    if aad == bound {
      AadInjective(p, from.organization, source, w.written[source].kind, into.organization, target, into.kind);
    }
  }
}
