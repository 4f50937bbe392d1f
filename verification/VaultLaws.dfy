/** What the vault stores, refuses and keeps, column by column, and how its two layers are kept apart. */
module VaultLaws {
  import opened Wrappers
  import opened Text
  import opened Vault
  import opened VaultStores
  import opened VaultRuns

  // ------------------------------------------------------------------ key rings

  /** A master key needs a version of at least one. */
  lemma MasterKeyVersions(version: Version, key: Key)
    ensures NewMasterKey(version, key) == if version >= 1 then Ok(MasterKey(version, key)) else Err(InvalidKeyVersion)
  {}

  /** The key inserted last under a version is the one a ring gives for it. */
  lemma {:induction false} LastInsertWins(ring: Ring, inserts: seq<(MasterKey, bool)>, i: nat)
    requires i < |inserts| && forall j :: i < j < |inserts| ==> inserts[j].0.version != inserts[i].0.version
    ensures Get(InsertAll(ring, inserts), inserts[i].0.version) == Ok(inserts[i].0)
    decreases |inserts|
  {
    if i > 0 {
      forall j | i - 1 < j < |inserts[1..]| ensures inserts[1..][j].0.version != inserts[1..][i - 1].0.version {
        assert inserts[1..][j] == inserts[j + 1];
      }
      LastInsertWins(Inserted(ring, inserts[0].0, inserts[0].1), inserts[1..], i - 1);
    } else {
      LaterInsertsKeep(Inserted(ring, inserts[0].0, inserts[0].1), inserts[1..], inserts[0].0.version);
    }
  }

  lemma {:induction false} LaterInsertsKeep(ring: Ring, inserts: seq<(MasterKey, bool)>, v: Version)
    requires forall j :: 0 <= j < |inserts| ==> inserts[j].0.version != v
    ensures Get(InsertAll(ring, inserts), v) == Get(ring, v)
    decreases |inserts|
  {
    if inserts != [] { LaterInsertsKeep(Inserted(ring, inserts[0].0, inserts[0].1), inserts[1..], v); }
  }

  /** The current version is that of the last key inserted to be current, or what it was. */
  lemma {:induction false} LastCurrentWins(ring: Ring, inserts: seq<(MasterKey, bool)>, i: nat)
    requires i <= |inserts| && forall j :: i < j < |inserts| ==> !inserts[j].1
    requires if i < |inserts| then inserts[i].1 else forall j :: 0 <= j < |inserts| ==> !inserts[j].1
    ensures InsertAll(ring, inserts).current == if i < |inserts| then Some(inserts[i].0.version) else ring.current
    decreases |inserts|
  {
    if inserts != [] {
      var rest := inserts[1..];
      forall j | 0 <= j < |rest| ensures rest[j] == inserts[j + 1] {}
      LastCurrentWins(Inserted(ring, inserts[0].0, inserts[0].1), rest, if i == 0 then |rest| else i - 1);
    }
  }

  /** Asking for a key names what is missing. */
  lemma RingAnswers(ring: Ring, v: Version)
    ensures v !in ring.keys ==> Get(ring, v) == Err(MissingMasterKey(v))
    ensures v in ring.keys ==> Get(ring, v) == Ok(ring.keys[v])
    ensures ring.current.None? ==> Current(ring) == Err(NoCurrentMasterKey)
    ensures ring.current.Some? ==> Current(ring) == Get(ring, ring.current.value)
  {}

  // ------------------------------------------------------------------ envelopes

  /** Each layer has its own random nonce, and the data layer its own random key. */
  lemma EncryptUsesDraws(p: Primitives, plaintext: Bytes, aad: string, key: MasterKey, d: Draws)
    requires Encrypt(p, plaintext, aad, key, d).Ok?
    ensures var e := Encrypt(p, plaintext, aad, key, d).value;
            && e.dataNonce == d.dataNonce && e.wrappedDekNonce == d.wrapNonce && e.keyVersion == key.version
            && p.seal(d.dek, d.dataNonce, plaintext, aad) == Some(e.ciphertext)
            && p.seal(key.key, d.wrapNonce, d.dek, "snm:vault:dek:" + aad) == Some(e.wrappedDek)
            && e.aadHash == p.hash(aad)
  {}

  /** What the key layer is bound to is never what a data layer is bound to. */
  lemma LayersAreApart(p: Primitives, aad: string, organization: Uuid, id: ProfileId, kind: string)
    ensures WrappingAad(aad) != ProfileAad(p, organization, id, kind)
    ensures forall other :: WrappingAad(aad) == WrappingAad(other) ==> aad == other
  {
    assert WrappingAad(aad)[4] == 'v' && ProfileAad(p, organization, id, kind)[4] == 'c';
    forall other | WrappingAad(aad) == WrappingAad(other) ensures aad == other {
      assert aad == WrappingAad(aad)[14..] && other == WrappingAad(other)[14..];
    }
  }

  // ------------------------------------------------------------------ profiles

  /** A created profile is active, holds the trimmed values, and has a ciphertext under the current key. */
  lemma CreateStores(p: Primitives, t: Tables, ring: Ring, id: ProfileId, input: NewProfile, d: Draws)
    requires Created(p, t, ring, id, input, d).r.Ok?
    ensures var o := Created(p, t, ring, id, input, d);
            && o.r.value == id && id !in t.profiles && id !in t.ciphertexts && Current(ring).Ok?
            && id in o.t.profiles && id in o.t.ciphertexts
            && o.t.profiles == t.profiles[id := o.t.profiles[id]]
            && o.t.ciphertexts == t.ciphertexts[id := o.t.ciphertexts[id]]
            && var row := o.t.profiles[id];
               && row.organization == input.organization && row.active
               && row.name == Trim(input.name) && row.kind == Trim(input.kind)
               && (input.username.None? ==> row.username == None)
               && (input.username.Some? ==> row.username == Some(Trim(input.username.value)))
               && o.t.ciphertexts[id].keyVersion == Current(ring).value.version
               && !(exists other :: && other in t.profiles && t.profiles[other].organization == input.organization
                                    && t.profiles[other].name == row.name)
  {}

  /** A creation that fails changes nothing. */
  lemma FailedCreateChangesNothing(p: Primitives, t: Tables, ring: Ring, id: ProfileId, input: NewProfile, d: Draws)
    ensures Created(p, t, ring, id, input, d).r.Err? ==> Created(p, t, ring, id, input, d).t == t
  {}

  /** Limits of a new profile: name 200 bytes, kind 100, user name 320, secret 64 KiB, none of them empty. */
  lemma ProfileLimits(organization: Uuid, i: nat, j: nat, user: Option<nat>, secret: Bytes)
    ensures var username := if user.Some? then Some(Letters(user.value)) else None;
            var answer := ValidateProfileInput(NewProfile(organization, Letters(i), Letters(j), username, secret));
            && (answer.None? <==>
                 && 1 <= i <= 200 && 1 <= j <= 100 && 1 <= |secret| <= 65_536
                 && (user.Some? ==> 1 <= user.value <= 320))
            && (1 <= i <= 200 && 1 <= j <= 100 && !(1 <= |secret| <= 65_536) ==> answer == Some(InvalidSecret))
            && (answer.Some? && answer != Some(InvalidSecret) ==> answer == Some(InvalidMetadata))
  {
    LettersAreText(i);
    LettersAreText(j);
    if user.Some? { LettersAreText(user.value); }
  }

  /** Deactivating clears the flag of an active profile of the organization, and changes nothing else. */
  lemma DeactivateClears(t: Tables, organization: Uuid, id: ProfileId)
    ensures var o := Deactivated(t, organization, id);
            && (o.r == Ok(true) <==>
                  id in t.profiles && t.profiles[id].organization == organization && t.profiles[id].active)
            && (o.r != Ok(true) ==> o == Outcome(t, Ok(false)))
            && (o.r == Ok(true) ==>
                 && o.t.ciphertexts == t.ciphertexts && id in o.t.profiles && !o.t.profiles[id].active
                 && o.t.profiles == t.profiles[id := o.t.profiles[id]]
                 && var row, row' := t.profiles[id], o.t.profiles[id];
                    && row'.organization == row.organization && row'.name == row.name && row'.kind == row.kind
                    && row'.username == row.username)
  {}

  /** A replacement succeeds for active profiles of the organization only, and touches one ciphertext. */
  lemma ReplaceStores(p: Primitives, w: World, env: Environment, ring: Ring, organization: Uuid, id: ProfileId,
                      secret: Bytes, d: Draws)
    requires Assumptions(p, env) && Inv(p, w, env) && Agrees(ring, env)
    ensures var o := Replaced(p, w.t, ring, organization, id, secret, d);
            && (o.r.Ok? <==>
                 && 1 <= |secret| <= 65_536 && id in w.t.profiles && w.t.profiles[id].organization == organization
                 && w.t.profiles[id].active && Current(ring).Ok? && Current(ring).value.version <= 2_147_483_647)
            && (o.r.Err? ==> o.t == w.t)
            && o.t.profiles == w.t.profiles
            && (forall other :: other in w.t.ciphertexts && other != id ==>
                  other in o.t.ciphertexts && o.t.ciphertexts[other] == w.t.ciphertexts[other])
            && (o.r.Ok? ==> id in o.t.ciphertexts && o.t.ciphertexts[id].keyVersion == Current(ring).value.version)
  {
    if id in w.t.profiles { StoredKindIsTrimmed(p, w, env, id); }
    ReplacementKeepsProfiles(p, w.t, ring, organization, id, secret, d);
    if id in w.t.profiles && Current(ring).Ok? && |secret| <= 65_536 {
      EncryptHolds(p, secret, ProfileAad(p, organization, id, w.t.profiles[id].kind), Current(ring).value, d);
    }
  }

  /** What the checks of a ciphertext row demand: a positive version, the cipher's tags, and a digest of 32 bytes. */
  lemma RowChecks(e: EncryptedSecret)
    ensures RowAllowed(e) <==>
      !(e.keyVersion == 0 || |e.ciphertext| <= 16 || |e.wrappedDek| <= 32 || |e.aadHash| != 32)
  {}

  /** A profile of another organization is not found, whatever is asked of it. */
  lemma OtherOrganizationFindsNothing(p: Primitives, t: Tables, ring: Ring, organization: Uuid, id: ProfileId,
                                      secret: Bytes, d: Draws)
    requires id in t.profiles && t.profiles[id].organization != organization
    ensures Resolve(p, t, ring, organization, id) == Err(NotFound)
    ensures SecretSizeOk(secret) ==> Replaced(p, t, ring, organization, id, secret, d) == Outcome(t, Err(NotFound))
    ensures Current(ring).Ok? ==> Rotated(p, t, ring, organization, id, d) == Outcome(t, Err(NotFound))
    ensures Deactivated(t, organization, id) == Outcome(t, Ok(false))
  {}
}
