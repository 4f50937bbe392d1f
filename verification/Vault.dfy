/**
 Two-layer envelope encryption: a random data key encrypts the secret, a versioned master key
 encrypts the data key, and both layers are bound to the same associated data.
 */
module Vault {
  import opened Wrappers

  type Bytes = seq<bv8>
  type Uuid = n: nat | n < 0x1_0000_0000_0000_0000_0000_0000_0000_0000
  type Version = v: nat | v < 0x1_0000_0000

  type Key = k: Bytes | |k| == 32 witness seq(32, i => 0)
  type Nonce = n: Bytes | |n| == 12 witness seq(12, i => 0)

  type Digest = d: Bytes | |d| == 32 witness seq(32, i => 0)

  datatype Error =
    | InvalidKeyVersion
    | InvalidDataKey
    | NoCurrentMasterKey
    | MissingMasterKey(version: Version)
    | AssociatedDataMismatch
    | EncryptionFailed
    | DecryptionFailed

  /** The cipher, the digest and the printing of identifiers. */
  datatype Primitives = Primitives(
    seal: (Bytes, Bytes, Bytes, string) -> Option<Bytes>,
    unseal: (Bytes, Bytes, Bytes, string) -> Option<Bytes>,
    hash: string -> Digest,
    uuid: Uuid -> string)

  const TAG_LENGTH := 16
  const MAX_SECRET := 64 * 1024

  /** What is assumed of the cipher: unsealing inverts sealing, and short messages can be sealed. */
  ghost predicate CipherSound(p: Primitives) {
    forall k: Bytes, n: Bytes, m: Bytes, a: string :: |k| == 32 && |n| == 12 ==>
      && (|m| <= MAX_SECRET ==> p.seal(k, n, m, a).Some?)
      && (p.seal(k, n, m, a).Some? ==>
          && |p.seal(k, n, m, a).value| == |m| + TAG_LENGTH
          && p.unseal(k, n, p.seal(k, n, m, a).value, a) == Some(m))
  }

  /** The digest tells these texts apart. */
  ghost predicate HashSeparates(p: Primitives, texts: set<string>) {
    forall a, b {:trigger p.hash(a), p.hash(b)} :: a in texts && b in texts && p.hash(a) == p.hash(b) ==> a == b
  }

  // ---------------------------------------------------------------- key ring

  datatype MasterKey = MasterKey(version: Version, key: Key)

  function NewMasterKey(version: Version, key: Key): Result<MasterKey, Error> {
    if version == 0 then Err(InvalidKeyVersion) else Ok(MasterKey(version, key))
  }

  predicate MadeByNew(key: MasterKey) {
    NewMasterKey(key.version, key.key) == Ok(key)
  }

  datatype Ring = Ring(keys: map<Version, MasterKey>, current: Option<Version>)

  const EMPTY_RING := Ring(map[], None)

  function Inserted(ring: Ring, key: MasterKey, makeCurrent: bool): Ring {
    Ring(ring.keys[key.version := key], if makeCurrent then Some(key.version) else ring.current)
  }

  function Get(ring: Ring, version: Version): Result<MasterKey, Error> {
    if version in ring.keys then Ok(ring.keys[version]) else Err(MissingMasterKey(version))
  }

  function Current(ring: Ring): Result<MasterKey, Error> {
    if ring.current.None? then Err(NoCurrentMasterKey) else Get(ring, ring.current.value)
  }

  /** Keys are filed under their own positive version, and the current one is there. */
  predicate RingValid(ring: Ring) {
    && (forall v :: v in ring.keys ==> ring.keys[v].version == v && v > 0)
    && (ring.current.Some? ==> ring.current.value in ring.keys)
  }

  class KeyRing {
    var keys: map<Version, MasterKey>
    var currentVersion: Option<Version>

    ghost function View(): Ring
      reads this
    {
      Ring(keys, currentVersion)
    }

    constructor ()
      ensures View() == EMPTY_RING
    {
      keys, currentVersion := map[], None;
    }

    method Insert(key: MasterKey, makeCurrent: bool)
      modifies this
      ensures View() == Inserted(old(View()), key, makeCurrent)
      ensures old(RingValid(View())) && MadeByNew(key) ==> RingValid(View())
    {
      if makeCurrent {
        currentVersion := Some(key.version);
      }
      keys := keys[key.version := key];
    }
  }

  function InsertAll(ring: Ring, inserts: seq<(MasterKey, bool)>): Ring
    decreases |inserts|
  {
    if inserts == [] then ring else InsertAll(Inserted(ring, inserts[0].0, inserts[0].1), inserts[1..])
  }

  /**
   A ring built by insertions is valid, so asking for its current key fails only when no insertion
   made one current.
   */
  lemma {:induction false} RingsAreValid(ring: Ring, inserts: seq<(MasterKey, bool)>)
    requires RingValid(ring) && forall i :: 0 <= i < |inserts| ==> MadeByNew(inserts[i].0)
    ensures RingValid(InsertAll(ring, inserts))
    ensures Current(InsertAll(ring, inserts)).Ok? <==>
      ring.current.Some? || exists i :: 0 <= i < |inserts| && inserts[i].1
    decreases |inserts|
  {
    if inserts != [] {
      var rest := inserts[1..];
      RingsAreValid(Inserted(ring, inserts[0].0, inserts[0].1), rest);
      forall i | 0 <= i < |inserts| && inserts[i].1 ensures i == 0 || rest[i - 1].1 {}
      forall i | 0 <= i < |rest| && rest[i].1 ensures inserts[i + 1].1 {}
    }
  }

  // --------------------------------------------------------------- envelopes

  datatype EncryptedSecret = EncryptedSecret(
    keyVersion: Version,
    wrappedDekNonce: Nonce,
    wrappedDek: Bytes,
    dataNonce: Nonce,
    ciphertext: Bytes,
    aadHash: Bytes)

  /** The random values of one encryption. */
  datatype Draws = Draws(dek: Key, dataNonce: Nonce, wrapNonce: Nonce)

  function WrappingAad(aad: string): string {
    "snm:vault:dek:" + aad
  }

  function Encrypt(p: Primitives, plaintext: Bytes, aad: string, key: MasterKey, d: Draws)
    : Result<EncryptedSecret, Error>
  {
    var ciphertext := p.seal(d.dek, d.dataNonce, plaintext, aad);
    if ciphertext.None? then Err(EncryptionFailed)
    else
      var wrappedDek := p.seal(key.key, d.wrapNonce, d.dek, WrappingAad(aad));
      if wrappedDek.None? then Err(EncryptionFailed)
      else Ok(EncryptedSecret(key.version, d.wrapNonce, wrappedDek.value, d.dataNonce, ciphertext.value, p.hash(aad)))
  }

  function Decrypt(p: Primitives, e: EncryptedSecret, aad: string, ring: Ring): Result<Bytes, Error> {
    if e.aadHash != p.hash(aad) then Err(AssociatedDataMismatch)
    else
      match Get(ring, e.keyVersion)
      case Err(error) => Err(error)
      case Ok(master) =>
        var dek := p.unseal(master.key, e.wrappedDekNonce, e.wrappedDek, WrappingAad(aad));
        if dek.None? then Err(DecryptionFailed)
        else if |dek.value| != 32 then Err(InvalidDataKey)
        else
          var plaintext := p.unseal(dek.value, e.dataNonce, e.ciphertext, aad);
          if plaintext.None? then Err(DecryptionFailed) else Ok(plaintext.value)
  }

  function Rotate(p: Primitives, e: EncryptedSecret, aad: string, ring: Ring, d: Draws)
    : Result<EncryptedSecret, Error>
  {
    match Decrypt(p, e, aad, ring)
    case Err(error) => Err(error)
    case Ok(plaintext) =>
      match Current(ring)
      case Err(error) => Err(error)
      case Ok(key) => Encrypt(p, plaintext, aad, key, d)
  }

  /** The envelope holds this secret, under this associated data and this master key. */
  ghost predicate Holds(p: Primitives, e: EncryptedSecret, secret: Bytes, aad: string, key: Key) {
    && e.aadHash == p.hash(aad)
    && var dek := p.unseal(key, e.wrappedDekNonce, e.wrappedDek, WrappingAad(aad));
       && dek.Some? && |dek.value| == 32
       && p.unseal(dek.value, e.dataNonce, e.ciphertext, aad) == Some(secret)
  }

  /** Encryption of any allowed secret succeeds and the envelope holds it. */
  lemma EncryptHolds(p: Primitives, plaintext: Bytes, aad: string, key: MasterKey, d: Draws)
    requires CipherSound(p) && |plaintext| <= MAX_SECRET
    ensures var r := Encrypt(p, plaintext, aad, key, d);
            && r.Ok? && r.value.keyVersion == key.version && Holds(p, r.value, plaintext, aad, key.key)
            && |r.value.ciphertext| == |plaintext| + TAG_LENGTH && |r.value.wrappedDek| == 32 + TAG_LENGTH
  {
    assert p.seal(d.dek, d.dataNonce, plaintext, aad).Some?;
    assert p.seal(key.key, d.wrapNonce, d.dek, WrappingAad(aad)).Some?;
  }

  /**
   Opening an envelope, case by case: wrong associated data is refused before any key is looked up,
   a missing master key is named, and otherwise the secret comes back.
   */
  lemma DecryptHolds(p: Primitives, e: EncryptedSecret, secret: Bytes, bound: string, aad: string, key: Key, ring: Ring)
    requires Holds(p, e, secret, bound, key) && (p.hash(aad) == p.hash(bound) ==> aad == bound)
    requires e.keyVersion in ring.keys ==> ring.keys[e.keyVersion].key == key
    ensures Decrypt(p, e, aad, ring) ==
      if aad != bound then Err(AssociatedDataMismatch)
      else if e.keyVersion !in ring.keys then Err(MissingMasterKey(e.keyVersion))
      else Ok(secret)
  {}

  /** Rotation keeps the secret and moves the envelope under the current key. */
  lemma RotateHolds(p: Primitives, e: EncryptedSecret, secret: Bytes, aad: string, key: Key, ring: Ring, d: Draws)
    requires CipherSound(p) && Holds(p, e, secret, aad, key) && |secret| <= MAX_SECRET
    requires e.keyVersion in ring.keys && ring.keys[e.keyVersion].key == key
    requires Current(ring).Ok?
    ensures var r := Rotate(p, e, aad, ring, d);
            && r.Ok? && r.value.keyVersion == Current(ring).value.version
            && Holds(p, r.value, secret, aad, Current(ring).value.key)
            && |r.value.ciphertext| == |secret| + TAG_LENGTH && |r.value.wrappedDek| == 32 + TAG_LENGTH
  {
    DecryptHolds(p, e, secret, aad, aad, key, ring);
    EncryptHolds(p, secret, aad, Current(ring).value, d);
  }
}
