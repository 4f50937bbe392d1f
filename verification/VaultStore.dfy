/** Credential profiles and their encrypted secrets. */
module VaultStores {
  import opened Wrappers
  import opened Text
  import opened Vault

  type ProfileId = Uuid

  const I32_MAX := 0x7fff_ffff

  datatype Profile = Profile(organization: Uuid, name: string, kind: string, username: Option<string>, active: bool)

  datatype Tables = Tables(profiles: map<ProfileId, Profile>, ciphertexts: map<ProfileId, EncryptedSecret>)

  datatype StoreError =
    | InvalidMetadata
    | InvalidSecret
    | NotFound
    | Inactive
    | InvalidStoredCiphertext
    | VaultError(error: Vault.Error)
    | Database

  datatype NewProfile = NewProfile(organization: Uuid, name: string, kind: string, username: Option<string>,
                                   secret: Bytes)

  datatype Outcome<T> = Outcome(t: Tables, r: Result<T, StoreError>)

  predicate SecretSizeOk(secret: Bytes) {
    0 < |secret| <= MAX_SECRET
  }

  function ValidateProfileInput(input: NewProfile): Option<StoreError> {
    if Blank(input.name) || ByteLen(input.name) > 200 || Blank(input.kind) || ByteLen(input.kind) > 100
      then Some(InvalidMetadata)
    else if !SecretSizeOk(input.secret) then Some(InvalidSecret)
    else if input.username.Some? && (Blank(input.username.value) || ByteLen(input.username.value) > 320)
      then Some(InvalidMetadata)
    else None
  }

  function ProfileAad(p: Primitives, organization: Uuid, id: ProfileId, kind: string): string {
    "snm:credential:v1:" + p.uuid(organization) + ":" + p.uuid(id) + ":" + kind
  }

  // ------------------------------------------------------------- constraints

  predicate NameTaken(t: Tables, organization: Uuid, name: string) {
    exists id :: id in t.profiles && t.profiles[id].organization == organization && t.profiles[id].name == name
  }

  /** The check constraints of a ciphertext row. */
  predicate RowAllowed(e: EncryptedSecret) {
    e.keyVersion > 0 && |e.ciphertext| > 16 && |e.wrappedDek| > 32 && |e.aadHash| == 32
  }

  // -------------------------------------------------------------- operations

  function Created(p: Primitives, t: Tables, ring: Ring, id: ProfileId, input: NewProfile, d: Draws)
    : Outcome<ProfileId>
  {
    var invalid := ValidateProfileInput(input);
    if invalid.Some? then Outcome(t, Err(invalid.value))
    else if Current(ring).Err? then Outcome(t, Err(VaultError(Current(ring).error)))
    else
      var aad := ProfileAad(p, input.organization, id, input.kind);
      var encrypted := Encrypt(p, input.secret, aad, Current(ring).value, d);
      if encrypted.Err? then Outcome(t, Err(VaultError(encrypted.error)))
      else if id in t.profiles || NameTaken(t, input.organization, Trim(input.name)) then Outcome(t, Err(Database))
      else if encrypted.value.keyVersion > I32_MAX then Outcome(t, Err(InvalidStoredCiphertext))
      else if id in t.ciphertexts || !RowAllowed(encrypted.value) then Outcome(t, Err(Database))
      else
        var username := if input.username.Some? then Some(Trim(input.username.value)) else None;
        var profile := Profile(input.organization, Trim(input.name), Trim(input.kind), username, true);
        Outcome(Tables(t.profiles[id := profile], t.ciphertexts[id := encrypted.value]), Ok(id))
  }

  /** The join of a profile of the organization with its ciphertext. */
  predicate Stored(t: Tables, organization: Uuid, id: ProfileId) {
    id in t.profiles && id in t.ciphertexts && t.profiles[id].organization == organization
  }

  function Resolve(p: Primitives, t: Tables, ring: Ring, organization: Uuid, id: ProfileId): Result<Bytes, StoreError> {
    if !Stored(t, organization, id) then Err(NotFound)
    else if !t.profiles[id].active then Err(Inactive)
    else
      match Decrypt(p, t.ciphertexts[id], ProfileAad(p, organization, id, t.profiles[id].kind), ring)
      case Ok(secret) => Ok(secret)
      case Err(error) => Err(VaultError(error))
  }

  function UpdateCiphertext(t: Tables, id: ProfileId, e: EncryptedSecret): Outcome<bool> {
    if e.keyVersion > I32_MAX then Outcome(t, Err(InvalidStoredCiphertext))
    else if id !in t.ciphertexts then Outcome(t, Err(NotFound))
    else if !RowAllowed(e) then Outcome(t, Err(Database))
    else Outcome(t.(ciphertexts := t.ciphertexts[id := e]), Ok(true))
  }

  function Replaced(p: Primitives, t: Tables, ring: Ring, organization: Uuid, id: ProfileId, secret: Bytes, d: Draws)
    : Outcome<bool>
  {
    if !SecretSizeOk(secret) then Outcome(t, Err(InvalidSecret))
    else if id !in t.profiles || t.profiles[id].organization != organization || !t.profiles[id].active
      then Outcome(t, Err(NotFound))
    else if Current(ring).Err? then Outcome(t, Err(VaultError(Current(ring).error)))
    else
      var encrypted := Encrypt(p, secret, ProfileAad(p, organization, id, t.profiles[id].kind), Current(ring).value, d);
      if encrypted.Err? then Outcome(t, Err(VaultError(encrypted.error)))
      else UpdateCiphertext(t, id, encrypted.value)
  }

  function Deactivated(t: Tables, organization: Uuid, id: ProfileId): Outcome<bool> {
    if id !in t.profiles || t.profiles[id].organization != organization || !t.profiles[id].active
      then Outcome(t, Ok(false))
    else Outcome(t.(profiles := t.profiles[id := t.profiles[id].(active := false)]), Ok(true))
  }

  /** Inactive profiles are rotated too. */
  function Rotated(p: Primitives, t: Tables, ring: Ring, organization: Uuid, id: ProfileId, d: Draws): Outcome<bool> {
    if Current(ring).Err? then Outcome(t, Err(VaultError(Current(ring).error)))
    else if !Stored(t, organization, id) then Outcome(t, Err(NotFound))
    else if Current(ring).value.version > I32_MAX then Outcome(t, Err(InvalidStoredCiphertext))
    else if t.ciphertexts[id].keyVersion == Current(ring).value.version then Outcome(t, Ok(false))
    else
      var rotated := Rotate(p, t.ciphertexts[id], ProfileAad(p, organization, id, t.profiles[id].kind), ring, d);
      if rotated.Err? then Outcome(t, Err(VaultError(rotated.error)))
      else UpdateCiphertext(t, id, rotated.value)
  }

  class CredentialVaultStore {
    const p: Primitives
    const keys: Ring
    var profiles: map<ProfileId, Profile>
    var ciphertexts: map<ProfileId, EncryptedSecret>

    ghost function View(): Tables
      reads this
    {
      Tables(profiles, ciphertexts)
    }

    constructor (p: Primitives, keys: Ring, t: Tables)
      ensures View() == t && this.p == p && this.keys == keys
    {
      this.p, this.keys := p, keys;
      profiles, ciphertexts := t.profiles, t.ciphertexts;
    }

    /** A store is only handed out over a ring with a current key. */
    static method New(p: Primitives, keys: Ring, t: Tables) returns (r: Result<CredentialVaultStore, StoreError>)
      ensures Current(keys).Err? ==> r == Err(VaultError(Current(keys).error))
      ensures Current(keys).Ok? ==>
        r.Ok? && fresh(r.value) && r.value.View() == t && r.value.keys == keys && r.value.p == p
    {
      var key := Current(keys);
      if key.Err? {
        return Err(VaultError(key.error));
      }
      var store := new CredentialVaultStore(p, keys, t);
      r := Ok(store);
    }

    method Create(id: ProfileId, input: NewProfile, d: Draws) returns (r: Result<ProfileId, StoreError>)
      modifies this
      ensures Outcome(View(), r) == Created(p, old(View()), keys, id, input, d)
    {
      var invalid := ValidateProfileInput(input);
      if invalid.Some? {
        return Err(invalid.value);
      }
      var key := Current(keys);
      if key.Err? {
        return Err(VaultError(key.error));
      }
      var encrypted := Encrypt(p, input.secret, ProfileAad(p, input.organization, id, input.kind), key.value, d);
      if encrypted.Err? {
        return Err(VaultError(encrypted.error));
      }
      if id in profiles || NameTaken(Tables(profiles, ciphertexts), input.organization, Trim(input.name)) {
        return Err(Database);
      }
      var username := if input.username.Some? then Some(Trim(input.username.value)) else None;
      var inserted := profiles[id := Profile(input.organization, Trim(input.name), Trim(input.kind), username, true)];
      if encrypted.value.keyVersion > I32_MAX {
        return Err(InvalidStoredCiphertext);
      }
      if id in ciphertexts || !RowAllowed(encrypted.value) {
        return Err(Database);
      }
      ciphertexts := ciphertexts[id := encrypted.value];
      profiles := inserted;
      r := Ok(id);
    }

    method ResolveSecret(organization: Uuid, id: ProfileId) returns (r: Result<Bytes, StoreError>)
      ensures r == Resolve(p, View(), keys, organization, id)
    {
      if id !in profiles || id !in ciphertexts || profiles[id].organization != organization {
        return Err(NotFound);
      }
      var row := profiles[id];
      if !row.active {
        return Err(Inactive);
      }
      var secret := Decrypt(p, ciphertexts[id], ProfileAad(p, organization, id, row.kind), keys);
      r := if secret.Ok? then Ok(secret.value) else Err(VaultError(secret.error));
    }

    method UpdateRow(id: ProfileId, e: EncryptedSecret) returns (r: Result<bool, StoreError>)
      modifies this`ciphertexts
      ensures Outcome(View(), r) == UpdateCiphertext(old(View()), id, e)
    {
      if e.keyVersion > I32_MAX {
        return Err(InvalidStoredCiphertext);
      }
      if id !in ciphertexts {
        return Err(NotFound);
      }
      if !RowAllowed(e) {
        return Err(Database);
      }
      ciphertexts := ciphertexts[id := e];
      r := Ok(true);
    }

    method ReplaceSecret(organization: Uuid, id: ProfileId, secret: Bytes, d: Draws)
      returns (r: Result<bool, StoreError>)
      modifies this`ciphertexts
      ensures Outcome(View(), r) == Replaced(p, old(View()), keys, organization, id, secret, d)
    {
      if secret == [] || |secret| > 64 * 1024 {
        return Err(InvalidSecret);
      }
      if id !in profiles || profiles[id].organization != organization || !profiles[id].active {
        return Err(NotFound);
      }
      var key := Current(keys);
      if key.Err? {
        return Err(VaultError(key.error));
      }
      var encrypted := Encrypt(p, secret, ProfileAad(p, organization, id, profiles[id].kind), key.value, d);
      if encrypted.Err? {
        return Err(VaultError(encrypted.error));
      }
      r := UpdateRow(id, encrypted.value);
    }

    method Deactivate(organization: Uuid, id: ProfileId) returns (updated: bool)
      modifies this`profiles
      ensures Outcome(View(), Ok(updated)) == Deactivated(old(View()), organization, id)
    {
      updated := id in profiles && profiles[id].organization == organization && profiles[id].active;
      if updated {
        profiles := profiles[id := profiles[id].(active := false)];
      }
    }

    method RotateProfileKey(organization: Uuid, id: ProfileId, d: Draws) returns (r: Result<bool, StoreError>)
      modifies this`ciphertexts
      ensures Outcome(View(), r) == Rotated(p, old(View()), keys, organization, id, d)
    {
      var key := Current(keys);
      if key.Err? {
        return Err(VaultError(key.error));
      }
      if id !in profiles || id !in ciphertexts || profiles[id].organization != organization {
        return Err(NotFound);
      }
      if key.value.version > I32_MAX {
        return Err(InvalidStoredCiphertext);
      }
      if ciphertexts[id].keyVersion == key.value.version {
        return Ok(false);
      }
      var rotated := Rotate(p, ciphertexts[id], ProfileAad(p, organization, id, profiles[id].kind), keys, d);
      if rotated.Err? {
        return Err(VaultError(rotated.error));
      }
      r := UpdateRow(id, rotated.value);
    }
  }
}
