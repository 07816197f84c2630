/**
 The server side of X3DH key agreement: registered devices, their identity keys and signed
 prekeys, and the pool of one-time prekeys.

 Base64 text is represented by what it decodes to, `None` standing for malformed text. One-time
 prekeys are kept in the order of their creation times, which are distinct.
 */
module PreKeys {
  import opened Common

  type Bytes = seq<bv8>

  const KEY_LENGTH := 32

  type KeyID = k: nat | k < 0x1_0000_0000

  datatype Address = Address(user: string, device: string)

  datatype Device = Device(name: string, platform: string)

  datatype IdentityKey = IdentityKey(registrationID: nat, publicKey: Bytes)

  datatype SignedPreKey = SignedPreKey(keyID: KeyID, publicKey: Bytes, signature: Bytes)

  datatype PreKey = PreKey(owner: Address, keyID: KeyID, publicKey: Bytes, createdAt: nat)

  /** A group member's key for one device, as stored: the chain starts over with every save. */
  datatype SenderKey = SenderKey(keyID: KeyID, chainKey: Bytes, signingKey: Bytes)

  datatype Db = Db(
    devices: map<Address, Device>,
    identityKeys: map<Address, IdentityKey>,
    signedPreKeys: map<Address, SignedPreKey>,
    senderKeys: map<(string, Address), SenderKey>,
    preKeys: seq<PreKey>,
    clock: nat)

  datatype PreKeyInput = PreKeyInput(keyID: KeyID, publicKey: Option<Bytes>)

  datatype SignedPreKeyInput = SignedPreKeyInput(keyID: KeyID, publicKey: Option<Bytes>, signature: Option<Bytes>)

  datatype Registration = Registration(
    device: string, info: Device, registrationID: nat,
    identityKey: Option<Bytes>, signedPreKey: SignedPreKeyInput, preKeys: seq<PreKeyInput>)

  datatype Error =
    | BadIdentityKey | BadSignedPreKey | BadSignature | DeviceTaken | DeviceNotRegistered
    | BadPreKey | DuplicateKeyID | NoIdentityKey | NoSignedPreKey | BadChainKey | BadSigningKey

  datatype Result<+T> = Ok(value: T) | Err(error: Error)

  datatype Bundle = Bundle(identityKey: IdentityKey, signedPreKey: SignedPreKey, preKey: Option<PreKey>)

  // ---------- The pool ----------

  predicate IsKey(text: Option<Bytes>) {
    text.Some? && |text.value| == KEY_LENGTH
  }

  function KeyIDs(rows: seq<PreKey>): set<KeyID> {
    set i | 0 <= i < |rows| :: rows[i].keyID
  }

  /** Entry `i` stops a batch: malformed, not 32 bytes long, or with a key id already in use. */
  predicate Refused(used: set<KeyID>, batch: seq<PreKeyInput>, i: nat)
    requires i < |batch|
  {
    || !IsKey(batch[i].publicKey)
    || batch[i].keyID in used
    || exists j :: 0 <= j < i && batch[j].keyID == batch[i].keyID
  }

  /** The first `n` entries have well-formed keys, and key ids that are new and distinct. */
  predicate AcceptablePrefix(used: set<KeyID>, batch: seq<PreKeyInput>, n: nat)
    requires n <= |batch|
  {
    && (forall i :: 0 <= i < n ==> IsKey(batch[i].publicKey) && batch[i].keyID !in used)
    && (forall i, j :: 0 <= i < j < n ==> batch[i].keyID != batch[j].keyID)
  }

  predicate Acceptable(used: set<KeyID>, batch: seq<PreKeyInput>) {
    AcceptablePrefix(used, batch, |batch|)
  }

  /** How many entries the creation loop stores: those before the first refused one. */
  function AcceptedCount(used: set<KeyID>, batch: seq<PreKeyInput>): (n: nat)
    ensures n <= |batch| && AcceptablePrefix(used, batch, n)
    ensures n < |batch| ==> Refused(used, batch, n)
    decreases |batch|
  {
    if batch == [] || !IsKey(batch[0].publicKey) || batch[0].keyID in used then 0
    else
      var n := 1 + AcceptedCount(used + {batch[0].keyID}, batch[1..]);
      AcceptableRest(used, batch, n);
      n
  }

  lemma AcceptableRest(used: set<KeyID>, batch: seq<PreKeyInput>, n: nat)
    requires 0 < n <= |batch| && IsKey(batch[0].publicKey) && batch[0].keyID !in used
    requires AcceptablePrefix(used + {batch[0].keyID}, batch[1..], n - 1)
    ensures AcceptablePrefix(used, batch, n)
    ensures n < |batch| && Refused(used + {batch[0].keyID}, batch[1..], n - 1) ==> Refused(used, batch, n)
  {
    var rest := batch[1..];
    assert forall i :: 0 < i < |batch| ==> batch[i] == rest[i - 1];
    if n < |batch| && batch[n].keyID == batch[0].keyID {
      assert Refused(used, batch, n);
    }
  }

  /** The whole batch is stored exactly when no entry is bad and no key id is old or repeated. */
  lemma WholeBatchIff(used: set<KeyID>, batch: seq<PreKeyInput>)
    ensures AcceptedCount(used, batch) == |batch| <==> Acceptable(used, batch)
  {
    var n := AcceptedCount(used, batch);
    if n < |batch| {
      assert Refused(used, batch, n);
    }
  }

  /** The rows of a batch, created one after the other. */
  function RowsOf(owner: Address, batch: seq<PreKeyInput>, clock: nat): (rows: seq<PreKey>)
    requires forall i :: 0 <= i < |batch| ==> batch[i].publicKey.Some?
    ensures |rows| == |batch|
  {
    seq(|batch|, i requires 0 <= i < |batch| => PreKey(owner, batch[i].keyID, batch[i].publicKey.value, clock + i))
  }

  /** The creation loop stops at entry `n`, if that entry is the first refused one. */
  lemma FirstRefused(used: set<KeyID>, batch: seq<PreKeyInput>, n: nat)
    requires n <= |batch| && AcceptablePrefix(used, batch, n)
    requires n < |batch| ==> Refused(used, batch, n)
    ensures AcceptedCount(used, batch) == n
    ensures Acceptable(used, batch) <==> n == |batch|
  {
    WholeBatchIff(used, batch);
  }

  /** After `n` entries the pool's key ids are those of before and those of the entries. */
  lemma KeyIDsSoFar(rows: seq<PreKey>, owner: Address, batch: seq<PreKeyInput>, clock: nat, n: nat)
    requires n < |batch| && AcceptablePrefix(KeyIDs(rows), batch, n) && IsKey(batch[n].publicKey)
    ensures batch[n].keyID in KeyIDs(rows + RowsOf(owner, batch[..n], clock)) <==> Refused(KeyIDs(rows), batch, n)
  {
    var added, k := RowsOf(owner, batch[..n], clock), batch[n].keyID;
    var all := rows + added;
    assert forall j :: 0 <= j < |rows| ==> all[j] == rows[j];
    assert forall j :: 0 <= j < n ==> all[|rows| + j].keyID == batch[j].keyID;
    if i :| 0 <= i < |all| && all[i].keyID == k {
      assert i >= |rows| ==> batch[i - |rows|].keyID == k;
    }
    if i :| 0 <= i < |rows| && rows[i].keyID == k {
      assert all[i].keyID == k;
    }
  }

  lemma NextRow(owner: Address, batch: seq<PreKeyInput>, clock: nat, i: nat)
    requires i < |batch| && forall j :: 0 <= j <= i ==> batch[j].publicKey.Some?
    ensures RowsOf(owner, batch[..i + 1], clock) ==
            RowsOf(owner, batch[..i], clock) + [PreKey(owner, batch[i].keyID, batch[i].publicKey.value, clock + i)]
  {
  }

  /** The rows that a batch adds when nothing rolls it back. */
  function AddedRows(db: Db, owner: Address, batch: seq<PreKeyInput>): seq<PreKey> {
    RowsOf(owner, batch[..AcceptedCount(KeyIDs(db.preKeys), batch)], db.clock)
  }

  function AddRows(db: Db, rows: seq<PreKey>): Db {
    db.(preKeys := db.preKeys + rows, clock := db.clock + |rows|)
  }

  predicate WholeBatchAccepted(db: Db, batch: seq<PreKeyInput>) {
    Acceptable(KeyIDs(db.preKeys), batch)
  }

  /** Entry `i` can be stored: it decodes to 32 bytes, and its key id is neither stored nor an earlier entry's. */
  predicate Fits(rows: seq<PreKey>, batch: seq<PreKeyInput>, i: nat)
    requires i < |batch|
  {
    && batch[i].publicKey.Some? && |batch[i].publicKey.value| == 32
    && (forall pk :: pk in rows ==> pk.keyID != batch[i].keyID)
    && (forall j :: 0 <= j < i ==> batch[j].keyID != batch[i].keyID)
  }

  lemma {:induction false} FitsIffNotRefused(rows: seq<PreKey>, batch: seq<PreKeyInput>)
    ensures forall i :: 0 <= i < |batch| ==> (Fits(rows, batch, i) <==> !Refused(KeyIDs(rows), batch, i))
  {
    forall i | 0 <= i < |batch|
      ensures batch[i].keyID in KeyIDs(rows) <==> exists pk :: pk in rows && pk.keyID == batch[i].keyID
    {
      if batch[i].keyID in KeyIDs(rows) {
        var j :| 0 <= j < |rows| && rows[j].keyID == batch[i].keyID;
        assert rows[j] in rows;
      }
    }
  }

  /** A prefix is acceptable exactly when each of its entries fits. */
  lemma {:induction false} PrefixFitsIff(rows: seq<PreKey>, batch: seq<PreKeyInput>, n: nat)
    requires n <= |batch|
    ensures AcceptablePrefix(KeyIDs(rows), batch, n) <==> forall i :: 0 <= i < n ==> Fits(rows, batch, i)
  {
    FitsIffNotRefused(rows, batch);
    assert forall i :: 0 <= i < n && Fits(rows, batch, i) ==>
        && IsKey(batch[i].publicKey) && batch[i].keyID !in KeyIDs(rows)
        && forall j :: 0 <= j < i ==> batch[j].keyID != batch[i].keyID;
  }

  /** The index of a device's oldest prekey, or the length of the pool. */
  function OldestIndex(rows: seq<PreKey>, owner: Address): (i: nat)
    ensures i <= |rows| && (i < |rows| ==> rows[i].owner == owner)
    ensures forall j :: 0 <= j < i ==> rows[j].owner != owner
  {
    if rows == [] || rows[0].owner == owner then 0 else 1 + OldestIndex(rows[1..], owner)
  }

  /** The pool without one row; nothing happens when the row is gone already. */
  function RemoveRow(rows: seq<PreKey>, row: PreKey): seq<PreKey> {
    if rows == [] then []
    else if rows[0] == row then rows[1..]
    else [rows[0]] + RemoveRow(rows[1..], row)
  }

  function DeleteStep(db: Db, row: PreKey): Db {
    db.(preKeys := RemoveRow(db.preKeys, row))
  }

  lemma OneFurther(rows: seq<PreKey>, i: nat)
    requires 0 < i < |rows|
    ensures [rows[0]] + (rows[1..][..i - 1] + rows[1..][i..]) == rows[..i] + rows[i + 1..]
  {
  }

  lemma {:induction false} RemoveOldest(rows: seq<PreKey>, owner: Address)
    requires OldestIndex(rows, owner) < |rows|
    ensures var i := OldestIndex(rows, owner);
            RemoveRow(rows, rows[i]) == rows[..i] + rows[i + 1..]
    decreases |rows|
  {
    var i := OldestIndex(rows, owner);
    if i > 0 {
      var rest := rows[1..];
      RemoveOldest(rest, owner);
      assert rest[i - 1] == rows[i];
      OneFurther(rows, i);
    }
  }

  function Without(rows: seq<PreKey>, owner: Address): seq<PreKey> {
    if rows == [] then []
    else (if rows[0].owner == owner then [] else [rows[0]]) + Without(rows[1..], owner)
  }

  // ---------- The service's steps ----------

  /** Another user's device has the same device id, which the unique index forbids. */
  predicate TakenByOther(db: Db, a: Address) {
    a !in db.devices && exists b :: b in db.devices && b.device == a.device
  }

  predicate RegistrationAccepted(db: Db, user: string, r: Registration) {
    && IsKey(r.identityKey) && IsKey(r.signedPreKey.publicKey) && r.signedPreKey.signature.Some?
    && !TakenByOther(db, Address(user, r.device))
    && WholeBatchAccepted(db, r.preKeys)
  }

  /** Everything or nothing. */
  function RegisterStep(db: Db, user: string, r: Registration): Db {
    if !RegistrationAccepted(db, user, r) then db
    else
      var a := Address(user, r.device);
      AddRows(
        db.(devices := db.devices[a := r.info],
            identityKeys := db.identityKeys[a := IdentityKey(r.registrationID, r.identityKey.value)],
            signedPreKeys := db.signedPreKeys[a := SignedPreKey(r.signedPreKey.keyID, r.signedPreKey.publicKey.value,
                                                                r.signedPreKey.signature.value)]),
        AddedRows(db, a, r.preKeys))
  }

  /** Without a transaction, a failing batch leaves what came before the failure. */
  function UploadStep(db: Db, a: Address, batch: seq<PreKeyInput>): Db {
    if a in db.devices then AddRows(db, AddedRows(db, a, batch)) else db
  }

  predicate BundleAvailable(db: Db, a: Address) {
    a in db.identityKeys && a in db.signedPreKeys
  }

  function ConsumeStep(db: Db, a: Address): (Db, Option<PreKey>) {
    var i := OldestIndex(db.preKeys, a);
    if i < |db.preKeys|
    then (db.(preKeys := db.preKeys[..i] + db.preKeys[i + 1..]), Some(db.preKeys[i]))
    else (db, None)
  }

  function BundleStep(db: Db, a: Address): Db {
    if BundleAvailable(db, a) then ConsumeStep(db, a).0 else db
  }

  function RemoveStep(db: Db, a: Address): Db {
    db.(devices := db.devices - {a}, identityKeys := db.identityKeys - {a},
        signedPreKeys := db.signedPreKeys - {a}, preKeys := Without(db.preKeys, a),
        senderKeys := WithoutSenderKeys(db.senderKeys, a))
  }

  function WithoutSenderKeys(keys: map<(string, Address), SenderKey>, a: Address): map<(string, Address), SenderKey> {
    map k | k in keys && k.1 != a :: keys[k]
  }

  /** Saving does not ask whether the device is registered. */
  function SenderKeyStep(db: Db, group: string, a: Address, key: SenderKey): Db {
    db.(senderKeys := db.senderKeys[(group, a) := key])
  }

  // ---------- The service in place ----------

  class KeyService {
    var devices: map<Address, Device>
    var identityKeys: map<Address, IdentityKey>
    var signedPreKeys: map<Address, SignedPreKey>
    var senderKeys: map<(string, Address), SenderKey>
    var preKeys: seq<PreKey>
    var clock: nat

    ghost function Contents(): Db
      reads this
    {
      Db(devices, identityKeys, signedPreKeys, senderKeys, preKeys, clock)
    }

    constructor ()
      ensures Contents() == Db(map[], map[], map[], map[], [], 0)
    {
      devices, identityKeys, signedPreKeys, senderKeys, preKeys, clock := map[], map[], map[], map[], [], 0;
    }

    /** Creates one prekey row; the unique index refuses a key id that is already stored. */
    method CreatePreKey(owner: Address, keyID: KeyID, publicKey: Bytes) returns (ok: bool)
      modifies `preKeys, `clock
      ensures ok <==> keyID !in KeyIDs(old(preKeys))
      ensures preKeys == old(preKeys) + if ok then [PreKey(owner, keyID, publicKey, old(clock))] else []
      ensures clock == old(clock) + if ok then 1 else 0
    {
      ok := keyID !in KeyIDs(preKeys);
      if ok {
        preKeys := preKeys + [PreKey(owner, keyID, publicKey, clock)];
        clock := clock + 1;
      }
    }

    /** The loop shared by registration and upload: stops at the first bad or duplicate entry. */
    method CreateBatch(owner: Address, batch: seq<PreKeyInput>) returns (r: Result<()>)
      modifies `preKeys, `clock
      ensures Contents() == AddRows(old(Contents()), AddedRows(old(Contents()), owner, batch))
      ensures r.Ok? <==> WholeBatchAccepted(old(Contents()), batch)
      ensures r.Err? ==>
                var n := AcceptedCount(KeyIDs(old(preKeys)), batch);
                && n < |batch| && Refused(KeyIDs(old(preKeys)), batch, n)
                && r.error == if IsKey(batch[n].publicKey) then DuplicateKeyID else BadPreKey
    {
      ghost var used := KeyIDs(preKeys);
      for i := 0 to |batch|
        invariant AcceptablePrefix(used, batch, i)
        invariant preKeys == old(preKeys) + RowsOf(owner, batch[..i], old(clock))
        invariant clock == old(clock) + i
      {
        var pk := batch[i];
        if !IsKey(pk.publicKey) {
          FirstRefused(used, batch, i);
          return Err(BadPreKey);
        }
        KeyIDsSoFar(old(preKeys), owner, batch, old(clock), i);
        var ok := CreatePreKey(owner, pk.keyID, pk.publicKey.value);
        if !ok {
          FirstRefused(used, batch, i);
          return Err(DuplicateKeyID);
        }
        NextRow(owner, batch, old(clock), i);
      }
      FirstRefused(used, batch, |batch|);
      assert batch[..|batch|] == batch;
      return Ok(());
    }

    method RegisterDevice(a: Address, info: Device) returns (ok: bool)
      modifies `devices
      ensures ok <==> !TakenByOther(old(Contents()), a)
      ensures devices == if ok then old(devices)[a := info] else old(devices)
    {
      if a !in devices && exists b :: b in devices && b.device == a.device {
        return false;
      }
      devices := devices[a := info];
      return true;
    }

    method RegisterKeys(userID: string, input: Registration) returns (r: Result<()>)
      modifies this
      ensures Contents() == RegisterStep(old(Contents()), userID, input)
      ensures r.Ok? <==>
                && input.identityKey.Some? && |input.identityKey.value| == 32
                && input.signedPreKey.publicKey.Some? && |input.signedPreKey.publicKey.value| == 32
                && input.signedPreKey.signature.Some?
                && (Address(userID, input.device) in old(devices)
                    || forall b :: b in old(devices) ==> b.device != input.device)
                && forall i :: 0 <= i < |input.preKeys| ==> Fits(old(preKeys), input.preKeys, i)
      ensures r.Err? ==> Contents() == old(Contents())
      ensures r == Err(BadIdentityKey) <==> input.identityKey.None? || |input.identityKey.value| != 32
      ensures r == Err(BadSignature) ==> input.signedPreKey.signature.None?
      ensures r == Err(DeviceTaken) ==> exists b :: b in old(devices) && b.device == input.device && b.user != userID
    {
      PrefixFitsIff(preKeys, input.preKeys, |input.preKeys|);
      if !IsKey(input.identityKey) {
        return Err(BadIdentityKey);
      }
      if !IsKey(input.signedPreKey.publicKey) {
        return Err(BadSignedPreKey);
      }
      if input.signedPreKey.signature.None? {
        return Err(BadSignature);
      }

      var a := Address(userID, input.device);
      var saved := (devices, identityKeys, signedPreKeys, preKeys, clock);
      var ok := RegisterDevice(a, input.info);
      if !ok {
        return Err(DeviceTaken);
      }
      identityKeys := identityKeys[a := IdentityKey(input.registrationID, input.identityKey.value)];
      signedPreKeys := signedPreKeys[a := SignedPreKey(input.signedPreKey.keyID, input.signedPreKey.publicKey.value,
                                                       input.signedPreKey.signature.value)];
      r := CreateBatch(a, input.preKeys);
      if r.Err? {
        // The transaction is rolled back.
        devices, identityKeys, signedPreKeys, preKeys, clock := saved.0, saved.1, saved.2, saved.3, saved.4;
      }
    }

    method UploadPreKeys(a: Address, batch: seq<PreKeyInput>) returns (r: Result<()>)
      modifies this
      ensures Contents() == UploadStep(old(Contents()), a, batch)
      ensures r.Ok? <==> a in devices && forall i :: 0 <= i < |batch| ==> Fits(old(preKeys), batch, i)
      ensures a !in devices <==> r == Err(DeviceNotRegistered)
      ensures r.Err? && a in devices ==>
                var n := AcceptedCount(KeyIDs(old(preKeys)), batch);
                && preKeys == old(preKeys) + RowsOf(a, batch[..n], old(clock))
                && n < |batch| && !Fits(old(preKeys), batch, n)
                && (forall i :: 0 <= i < n ==> Fits(old(preKeys), batch, i))
                && r.error == if IsKey(batch[n].publicKey) then DuplicateKeyID else BadPreKey
    {
      PrefixFitsIff(preKeys, batch, |batch|);
      PrefixFitsIff(preKeys, batch, AcceptedCount(KeyIDs(preKeys), batch));
      FitsIffNotRefused(preKeys, batch);
      if a !in devices {
        return Err(DeviceNotRegistered);
      }
      r := CreateBatch(a, batch);
    }

    /** The first statement of a consumption: the device's oldest row, which stays in the pool. */
    method FindPreKey(a: Address) returns (pk: Option<PreKey>)
      ensures pk == if OldestIndex(preKeys, a) < |preKeys| then Some(preKeys[OldestIndex(preKeys, a)]) else None
    {
      var i := OldestIndex(preKeys, a);
      pk := if i == |preKeys| then None else Some(preKeys[i]);
    }

    /** The second statement: it does not tell whether the row was still there. */
    method DeletePreKey(pk: PreKey)
      modifies `preKeys
      ensures Contents() == DeleteStep(old(Contents()), pk)
    {
      preKeys := RemoveRow(preKeys, pk);
    }

    /** Both statements, with no other request in between. */
    method GetAndConsumePreKey(a: Address) returns (pk: Option<PreKey>)
      modifies `preKeys
      ensures (Contents(), pk) == ConsumeStep(old(Contents()), a)
    {
      pk := FindPreKey(a);
      if pk.Some? {
        RemoveOldest(preKeys, a);
        DeletePreKey(pk.value);
      }
    }

    method GetPreKeyBundle(a: Address) returns (r: Result<Bundle>)
      modifies `preKeys
      ensures Contents() == BundleStep(old(Contents()), a)
      ensures r.Ok? <==> a in identityKeys && a in signedPreKeys
      ensures r.Err? ==> r.error == if a !in identityKeys then NoIdentityKey else NoSignedPreKey
      ensures r.Ok? ==> r.value == Bundle(identityKeys[a], signedPreKeys[a], ConsumeStep(old(Contents()), a).1)
    {
      if a !in identityKeys {
        return Err(NoIdentityKey);
      }
      if a !in signedPreKeys {
        return Err(NoSignedPreKey);
      }
      var pk := GetAndConsumePreKey(a);
      return Ok(Bundle(identityKeys[a], signedPreKeys[a], pk));
    }

    method SaveSenderKey(group: string, a: Address, keyID: KeyID, chainKey: Option<Bytes>, signingKey: Option<Bytes>)
      returns (r: Result<()>)
      modifies this
      ensures r.Ok? <==> chainKey.Some? && signingKey.Some?
      ensures Contents() == if r.Ok?
                            then SenderKeyStep(old(Contents()), group, a,
                                               SenderKey(keyID, chainKey.value, signingKey.value))
                            else old(Contents())
    {
      if chainKey.None? {
        return Err(BadChainKey);
      }
      if signingKey.None? {
        return Err(BadSigningKey);
      }
      senderKeys := senderKeys[(group, a) := SenderKey(keyID, chainKey.value, signingKey.value)];
      return Ok(());
    }

    method RemoveDevice(a: Address)
      modifies this
      ensures Contents() == RemoveStep(old(Contents()), a)
    {
      preKeys := Without(preKeys, a);
      signedPreKeys := signedPreKeys - {a};
      identityKeys := identityKeys - {a};
      senderKeys := map k | k in senderKeys && k.1 != a :: senderKeys[k];
      devices := devices - {a};
    }
  }
}
