/**
 Which keys are stored for a device, told from the requests alone: those of its last accepted
 registration since it was last removed, and the one-time prekeys of every batch since then up to
 the first entry that does not fit.
 */
module PreKeyHistory {
  import opened Common
  import opened PreKeys
  import opened PreKeyRuns

  /** What a registration must be to be accepted: keys of 32 bytes, a free device id, and a batch that fits. */
  ghost predicate Accepts(db: Db, user: string, r: Registration) {
    && r.identityKey.Some? && |r.identityKey.value| == 32
    && r.signedPreKey.publicKey.Some? && |r.signedPreKey.publicKey.value| == 32
    && r.signedPreKey.signature.Some?
    && (forall b :: b in db.devices && b.device == r.device ==> b.user == user)
    && (forall i :: 0 <= i < |r.preKeys| ==> Fits(db.preKeys, r.preKeys, i))
  }

  lemma {:induction false} AcceptsIff(db: Db, user: string, r: Registration)
    requires DevicesConsistent(db)
    ensures Accepts(db, user, r) <==> RegistrationAccepted(db, user, r)
  {
    PrefixFitsIff(db.preKeys, r.preKeys, |r.preKeys|);
    var a := Address(user, r.device);
    assert TakenByOther(db, a) <==> exists b :: b in db.devices && b.device == r.device && b.user != user;
  }

  /** The last accepted registration of a device since it was last removed. */
  ghost function Registered(es: seq<Event>, a: Address): (got: Option<Registration>)
    requires Possible(es)
    decreases |es|
  {
    if es == [] then None
    else
      match Last(es)
      case Register(user, r) =>
        if user == a.user && r.device == a.device && Accepts(After(Before(es)).db, user, r) then Some(r)
        else Registered(Before(es), a)
      case Remove(b) => if b == a then None else Registered(Before(es), a)
      case _ => Registered(Before(es), a)
  }

  /** The device's row and its keys are those of a registration, or there are none. */
  ghost predicate KeysOf(db: Db, a: Address, got: Option<Registration>) {
    && (a in db.devices <==> got.Some?)
    && (a in db.identityKeys <==> got.Some?)
    && (a in db.signedPreKeys <==> got.Some?)
    && (got.Some? ==>
         var r := got.value;
         && r.identityKey.Some? && r.signedPreKey.publicKey.Some? && r.signedPreKey.signature.Some?
         && db.devices[a].name == r.info.name
         && db.devices[a].platform == r.info.platform
         && db.identityKeys[a].registrationID == r.registrationID
         && db.identityKeys[a].publicKey == r.identityKey.value
         && db.signedPreKeys[a].keyID == r.signedPreKey.keyID
         && db.signedPreKeys[a].publicKey == r.signedPreKey.publicKey.value
         && db.signedPreKeys[a].signature == r.signedPreKey.signature.value)
  }

  lemma RegisterSetsKeys(db: Db, user: string, r: Registration, a: Address, got: Option<Registration>)
    requires KeysOf(db, a, got)
    ensures KeysOf(RegisterStep(db, user, r), a,
                   if user == a.user && r.device == a.device && RegistrationAccepted(db, user, r) then Some(r) else got)
  {
  }

  /** After any run a device has exactly the identity key and signed prekey that it last registered. */
  lemma {:induction false} RegisteredKeysStand(es: seq<Event>, a: Address)
    requires Possible(es)
    ensures KeysOf(After(es).db, a, Registered(es, a))
    decreases |es|
  {
    if es != [] {
      RegisteredKeysStand(Before(es), a);
      match Last(es)
      case Register(user, r) =>
        RunConsistent(Before(es));
        AcceptsIff(After(Before(es)).db, user, r);
        RegisterSetsKeys(After(Before(es)).db, user, r, a, Registered(Before(es), a));
      case _ =>
    }
  }

  // ---------- One-time prekeys ----------

  /** How many entries of a batch, from entry `i` on, fit before one does not. */
  function FittingFrom(rows: seq<PreKey>, batch: seq<PreKeyInput>, i: nat): (n: nat)
    requires i <= |batch|
    ensures i + n <= |batch|
    decreases |batch| - i
  {
    if i < |batch| && Fits(rows, batch, i) then 1 + FittingFrom(rows, batch, i + 1) else 0
  }

  lemma {:induction false} FittingFromIs(rows: seq<PreKey>, batch: seq<PreKeyInput>, i: nat)
    requires i <= |batch|
    ensures var n := i + FittingFrom(rows, batch, i);
            && (forall k :: i <= k < n ==> Fits(rows, batch, k))
            && (n < |batch| ==> !Fits(rows, batch, n))
    decreases |batch| - i
  {
    if i < |batch| && Fits(rows, batch, i) {
      FittingFromIs(rows, batch, i + 1);
    }
  }

  lemma {:induction false} FittingCount(rows: seq<PreKey>, batch: seq<PreKeyInput>)
    ensures AcceptedCount(KeyIDs(rows), batch) == FittingFrom(rows, batch, 0)
  {
    var n := FittingFrom(rows, batch, 0);
    FittingFromIs(rows, batch, 0);
    PrefixFitsIff(rows, batch, n);
    FitsIffNotRefused(rows, batch);
    FirstRefused(KeyIDs(rows), batch, n);
  }

  /** The entries that an event adds for a device. */
  ghost function EntriesOf(db: Db, e: Event, a: Address, registered: bool): seq<PreKeyInput> {
    match e
    case Register(user, r) =>
      if user == a.user && r.device == a.device && Accepts(db, user, r) then r.preKeys else []
    case Upload(b, batch) =>
      if b == a && registered then batch[..FittingFrom(db.preKeys, batch, 0)] else []
    case _ => []
  }

  /** The entries stored for a device, in order. */
  ghost function Entries(es: seq<Event>, a: Address): seq<PreKeyInput>
    requires Possible(es)
    decreases |es|
  {
    if es == [] then []
    else Entries(Before(es), a)
         + EntriesOf(After(Before(es)).db, Last(es), a, Registered(Before(es), a).Some?)
  }

  /** The rows hold the entries' key ids and keys, one by one. */
  ghost predicate RowsHold(rows: seq<PreKey>, a: Address, entries: seq<PreKeyInput>) {
    && |rows| == |entries|
    && forall i :: 0 <= i < |rows| ==>
         && rows[i].owner == a && rows[i].keyID == entries[i].keyID
         && entries[i].publicKey == Some(rows[i].publicKey)
  }

  lemma AddedHold(db: Db, a: Address, batch: seq<PreKeyInput>)
    ensures var n := FittingFrom(db.preKeys, batch, 0);
            RowsHold(AddedRows(db, a, batch), a, batch[..n])
  {
    FittingCount(db.preKeys, batch);
    var n := AcceptedCount(KeyIDs(db.preKeys), batch);
    assert AcceptablePrefix(KeyIDs(db.preKeys), batch, n);
  }

  lemma StoredHold(db: Db, e: Event, a: Address, registered: bool)
    requires DevicesConsistent(db) && (registered <==> a in db.devices)
    ensures RowsHold(StoredBy(db, e, a), a, EntriesOf(db, e, a, registered))
  {
    match e
    case Register(user, r) =>
      AcceptsIff(db, user, r);
      AddedHold(db, a, r.preKeys);
      FittingCount(db.preKeys, r.preKeys);
      WholeBatchIff(KeyIDs(db.preKeys), r.preKeys);
      assert r.preKeys[..|r.preKeys|] == r.preKeys;
    case Upload(b, batch) => AddedHold(db, a, batch);
    case _ =>
  }

  lemma HoldOneAfterOther(x: seq<PreKey>, y: seq<PreKey>, a: Address, m: seq<PreKeyInput>, n: seq<PreKeyInput>)
    requires RowsHold(x, a, m) && RowsHold(y, a, n)
    ensures RowsHold(x + y, a, m + n)
  {
  }

  lemma {:induction false} StoredEntries(es: seq<Event>, a: Address)
    requires Possible(es)
    ensures RowsHold(Stored(es, a), a, Entries(es, a))
    decreases |es|
  {
    if es != [] {
      StoredEntries(Before(es), a);
      RunConsistent(Before(es));
      RegisteredKeysStand(Before(es), a);
      var db := After(Before(es)).db;
      StoredHold(db, Last(es), a, a in db.devices);
      HoldOneAfterOther(Stored(Before(es), a), StoredBy(db, Last(es), a), a,
                        Entries(Before(es), a), EntriesOf(db, Last(es), a, a in db.devices));
    }
  }

  /**
   After any run the prekeys of a device are the last of the entries ever stored for it: the ones
   that left the pool are the first, and they left in that order.
   */
  lemma {:induction false} PoolHoldsEntries(es: seq<Event>, a: Address)
    requires Possible(es)
    ensures var gone, all := Rows(Departed(es, a)), Entries(es, a);
            && |gone| <= |all|
            && RowsHold(gone, a, all[..|gone|])
            && RowsHold(Of(After(es).db.preKeys, a), a, all[|gone|..])
  {
    StoredEntries(es, a);
    PoolIsFifo(es, a);
    SplitHold(Rows(Departed(es, a)), Of(After(es).db.preKeys, a), a, Entries(es, a));
  }

  lemma SplitHold(gone: seq<PreKey>, own: seq<PreKey>, a: Address, all: seq<PreKeyInput>)
    requires RowsHold(gone + own, a, all)
    ensures |gone| <= |all| && RowsHold(gone, a, all[..|gone|]) && RowsHold(own, a, all[|gone|..])
  {
    var rows := gone + own;
    assert forall i :: 0 <= i < |gone| ==> rows[i] == gone[i];
    assert forall i :: 0 <= i < |own| ==> rows[|gone| + i] == own[i];
  }
}
