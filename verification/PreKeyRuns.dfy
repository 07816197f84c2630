/**
 What any history of registrations, uploads, bundle fetches and device removals leaves behind. A
 bundle fetch is three steps, and fetches may overlap with everything.
 */
module PreKeyRuns {
  import opened Common
  import opened PreKeys

  /**
   A fetch looks up the identity key and the signed prekey, finds the oldest prekey, and deletes it:
   three steps, with anything in between. The other requests are one step each.
   */
  datatype Event =
    | Register(user: string, registration: Registration)
    | Upload(a: Address, batch: seq<PreKeyInput>)
    | SaveSender(group: string, a: Address, key: SenderKey)
    | Remove(a: Address)
    | Open(fetch: nat, a: Address)
    | Find(fetch: nat)
    | Delete(fetch: nat)

  /** Where a fetch is that has not been answered yet. */
  datatype Fetch = Opened(a: Address) | Found(row: PreKey)

  datatype State = State(db: Db, fetches: map<nat, Fetch>, begun: set<nat>)

  const EMPTY := Db(map[], map[], map[], map[], [], 0)

  predicate Enabled(s: State, e: Event) {
    match e
    case Open(k, _) => k !in s.begun
    case Find(k) => k in s.fetches && s.fetches[k].Opened?
    case Delete(k) => k in s.fetches && s.fetches[k].Found?
    case _ => true
  }

  /** The device's oldest prekey. */
  function Front(db: Db, a: Address): Option<PreKey> {
    var i := OldestIndex(db.preKeys, a);
    if i < |db.preKeys| then Some(db.preKeys[i]) else None
  }

  /**
   A lookup that fails ends the fetch, and so does finding no prekey: the bundle then goes out
   without one. The delete ends it with the row that was found, whether or not it is still stored.
   */
  function Apply(s: State, e: Event): State
    requires Enabled(s, e)
  {
    match e
    case Register(user, r) => s.(db := RegisterStep(s.db, user, r))
    case Upload(a, batch) => s.(db := UploadStep(s.db, a, batch))
    case SaveSender(g, a, key) => s.(db := SenderKeyStep(s.db, g, a, key))
    case Remove(a) => s.(db := RemoveStep(s.db, a))
    case Open(k, a) =>
      s.(begun := s.begun + {k}, fetches := if BundleAvailable(s.db, a) then s.fetches[k := Opened(a)] else s.fetches)
    case Find(k) =>
      var found := Front(s.db, s.fetches[k].a);
      s.(fetches := if found.Some? then s.fetches[k := Found(found.value)] else s.fetches - {k})
    case Delete(k) => s.(db := DeleteStep(s.db, s.fetches[k].row), fetches := s.fetches - {k})
  }

  // ---------- Runs, newest event last ----------

  ghost predicate Possible(es: seq<Event>)
    decreases |es|, 0
  {
    es == [] || (Possible(Before(es)) && Enabled(After(Before(es)), Last(es)))
  }

  ghost function After(es: seq<Event>): State
    requires Possible(es)
    decreases |es|, 1
  {
    if es == [] then State(EMPTY, map[], {}) else Apply(After(Before(es)), Last(es))
  }

  // ---------- Invariants of every reachable state ----------

  /** Oldest first, and no key id twice. */
  ghost predicate InOrder(rows: seq<PreKey>) {
    forall i, j :: 0 <= i < j < |rows| ==> rows[i].createdAt < rows[j].createdAt && rows[i].keyID != rows[j].keyID
  }

  ghost predicate PoolConsistent(db: Db) {
    && (forall i :: 0 <= i < |db.preKeys| ==>
         && db.preKeys[i].owner in db.devices
         && |db.preKeys[i].publicKey| == KEY_LENGTH
         && db.preKeys[i].createdAt < db.clock)
    && InOrder(db.preKeys)
  }

  ghost predicate DevicesConsistent(db: Db) {
    && db.identityKeys.Keys == db.devices.Keys && db.signedPreKeys.Keys == db.devices.Keys
    && (forall a :: a in db.devices ==>
         |db.identityKeys[a].publicKey| == KEY_LENGTH && |db.signedPreKeys[a].publicKey| == KEY_LENGTH)
    && (forall a, b :: a in db.devices && b in db.devices && a.device == b.device ==> a == b)
  }

  lemma AddRowsConsistent(db: Db, a: Address, batch: seq<PreKeyInput>)
    requires PoolConsistent(db) && a in db.devices
    ensures PoolConsistent(AddRows(db, AddedRows(db, a, batch)))
  {
    var used := KeyIDs(db.preKeys);
    assert AcceptablePrefix(used, batch, AcceptedCount(used, batch));
    assert forall i :: 0 <= i < |db.preKeys| ==> db.preKeys[i].keyID in used;
  }

  lemma {:induction false} WithoutMembers(rows: seq<PreKey>, a: Address)
    ensures forall pk :: pk in Without(rows, a) <==> pk in rows && pk.owner != a
    decreases |rows|
  {
    if rows != [] {
      WithoutMembers(rows[1..], a);
    }
  }

  /** Leaving rows out keeps the order. */
  lemma StillInOrder(first: PreKey, rest: seq<PreKey>, left: seq<PreKey>)
    requires InOrder([first] + rest) && InOrder(left) && forall pk :: pk in left ==> pk in rest
    ensures InOrder([first] + left)
  {
    forall j | 0 <= j < |left|
      ensures first.createdAt < left[j].createdAt && first.keyID != left[j].keyID
    {
      assert left[j] in rest;
      var k :| 0 <= k < |rest| && rest[k] == left[j];
      assert ([first] + rest)[0] == first && ([first] + rest)[k + 1] == left[j];
    }
  }

  lemma {:induction false} WithoutInOrder(rows: seq<PreKey>, a: Address)
    requires InOrder(rows)
    ensures InOrder(Without(rows, a))
    decreases |rows|
  {
    if rows != [] {
      assert rows == [rows[0]] + rows[1..];
      WithoutInOrder(rows[1..], a);
      WithoutMembers(rows[1..], a);
      StillInOrder(rows[0], rows[1..], Without(rows[1..], a));
    }
  }

  lemma RegisterConsistent(db: Db, user: string, r: Registration)
    requires PoolConsistent(db) && DevicesConsistent(db)
    ensures PoolConsistent(RegisterStep(db, user, r)) && DevicesConsistent(RegisterStep(db, user, r))
  {
    if RegistrationAccepted(db, user, r) {
      var a := Address(user, r.device);
      var db' := db.(devices := db.devices[a := r.info]);
      assert PoolConsistent(db');
      AddRowsConsistent(db', a, r.preKeys);
    }
  }

  lemma {:induction false} RemoveRowMembers(rows: seq<PreKey>, row: PreKey)
    requires InOrder(rows)
    ensures forall pk :: pk in RemoveRow(rows, row) <==> pk in rows && pk != row
    decreases |rows|
  {
    if rows != [] {
      var rest := rows[1..];
      assert forall i :: 0 < i < |rows| ==> rows[i] == rest[i - 1];
      assert rows == [rows[0]] + rest;
      RemoveRowMembers(rest, row);
    }
  }

  lemma {:induction false} RemoveRowInOrder(rows: seq<PreKey>, row: PreKey)
    requires InOrder(rows)
    ensures InOrder(RemoveRow(rows, row)) && row !in RemoveRow(rows, row)
    ensures forall pk :: pk in RemoveRow(rows, row) <==> pk in rows && pk != row
    decreases |rows|
  {
    RemoveRowMembers(rows, row);
    if rows != [] {
      assert rows == [rows[0]] + rows[1..];
      RemoveRowInOrder(rows[1..], row);
      StillInOrder(rows[0], rows[1..], RemoveRow(rows[1..], row));
    }
  }

  lemma DeleteConsistent(db: Db, row: PreKey)
    requires PoolConsistent(db)
    ensures PoolConsistent(DeleteStep(db, row))
  {
    RemoveRowInOrder(db.preKeys, row);
    var left := RemoveRow(db.preKeys, row);
    assert forall i :: 0 <= i < |left| ==> left[i] in db.preKeys;
  }

  lemma RemoveConsistent(db: Db, a: Address)
    requires PoolConsistent(db)
    ensures PoolConsistent(RemoveStep(db, a))
  {
    WithoutMembers(db.preKeys, a);
    WithoutInOrder(db.preKeys, a);
    assert forall i :: 0 <= i < |Without(db.preKeys, a)| ==> Without(db.preKeys, a)[i] in db.preKeys;
  }

  lemma StepConsistent(s: State, e: Event)
    requires PoolConsistent(s.db) && DevicesConsistent(s.db) && Enabled(s, e)
    ensures PoolConsistent(Apply(s, e).db) && DevicesConsistent(Apply(s, e).db)
  {
    match e
    case Register(user, r) => RegisterConsistent(s.db, user, r);
    case Upload(a, batch) =>
      if a in s.db.devices {
        AddRowsConsistent(s.db, a, batch);
      }
    case Remove(a) => RemoveConsistent(s.db, a);
    case Delete(k) => DeleteConsistent(s.db, s.fetches[k].row);
    case _ =>
  }

  /**
   In every reachable state stored public keys are 32 bytes long, prekeys belong to registered
   devices, and every registered device has an identity key and a signed prekey.
   */
  lemma {:induction false} RunConsistent(es: seq<Event>)
    requires Possible(es)
    ensures PoolConsistent(After(es).db) && DevicesConsistent(After(es).db)
    decreases |es|
  {
    if es != [] {
      RunConsistent(Before(es));
      StepConsistent(After(Before(es)), Last(es));
    }
  }

  /** A fetch goes on exactly when it asks for a registered device; otherwise nothing changes. */
  lemma {:induction false} BundleIffRegistered(es: seq<Event>, a: Address)
    requires Possible(es)
    ensures BundleAvailable(After(es).db, a) <==> a in After(es).db.devices
    ensures a !in After(es).db.devices ==> BundleStep(After(es).db, a) == After(es).db
  {
    RunConsistent(es);
  }

  // ---------- What a fetch has in flight ----------

  /** Whatever is stored for the row's device is that row, or newer. */
  ghost predicate NoneOlder(rows: seq<PreKey>, row: PreKey) {
    forall i :: 0 <= i < |rows| && rows[i].owner == row.owner ==> rows[i] == row || row.createdAt < rows[i].createdAt
  }

  ghost predicate FetchesConsistent(s: State) {
    && s.fetches.Keys <= s.begun
    && forall k :: k in s.fetches && s.fetches[k].Found? ==>
         s.fetches[k].row.createdAt < s.db.clock && NoneOlder(s.db.preKeys, s.fetches[k].row)
  }

  lemma FrontNoneOlder(db: Db, a: Address)
    requires PoolConsistent(db) && Front(db, a).Some?
    ensures NoneOlder(db.preKeys, Front(db, a).value) && Front(db, a).value.createdAt < db.clock
  {
  }

  lemma AddedNoneOlder(db: Db, a: Address, batch: seq<PreKeyInput>, row: PreKey)
    requires NoneOlder(db.preKeys, row) && row.createdAt < db.clock
    ensures NoneOlder(db.preKeys + AddedRows(db, a, batch), row)
  {
  }

  /** A step keeps the rows in flight ahead of the pool: what it adds is newer than anything before. */
  lemma StepNoneOlder(s: State, e: Event, row: PreKey)
    requires PoolConsistent(s.db) && Enabled(s, e)
    requires NoneOlder(s.db.preKeys, row) && row.createdAt < s.db.clock
    ensures NoneOlder(Apply(s, e).db.preKeys, row) && row.createdAt < Apply(s, e).db.clock
  {
    match e
    case Register(user, r) => AddedNoneOlder(s.db, Address(user, r.device), r.preKeys, row);
    case Upload(a, batch) => AddedNoneOlder(s.db, a, batch, row);
    case Remove(a) =>
      WithoutMembers(s.db.preKeys, a);
      var left := Without(s.db.preKeys, a);
      assert forall i :: 0 <= i < |left| ==> left[i] in s.db.preKeys;
    case Delete(k) =>
      RemoveRowInOrder(s.db.preKeys, s.fetches[k].row);
      var left := RemoveRow(s.db.preKeys, s.fetches[k].row);
      assert forall i :: 0 <= i < |left| ==> left[i] in s.db.preKeys;
    case _ =>
  }

  lemma {:induction false} RunFetchesConsistent(es: seq<Event>)
    requires Possible(es)
    ensures FetchesConsistent(After(es))
    decreases |es|
  {
    if es != [] {
      RunFetchesConsistent(Before(es));
      RunConsistent(Before(es));
      var s, e := After(Before(es)), Last(es);
      forall k | k in After(es).fetches && After(es).fetches[k].Found?
        ensures var row := After(es).fetches[k].row;
                row.createdAt < After(es).db.clock && NoneOlder(After(es).db.preKeys, row)
      {
        if e == Find(k) {
          FrontNoneOlder(s.db, s.fetches[k].a);
        } else {
          StepNoneOlder(s, e, s.fetches[k].row);
        }
      }
    }
  }

  /** A found row that is still stored is still its device's oldest. */
  lemma StillOldest(db: Db, row: PreKey)
    requires PoolConsistent(db) && NoneOlder(db.preKeys, row) && row in db.preKeys
    ensures Front(db, row.owner) == Some(row)
  {
    var j :| 0 <= j < |db.preKeys| && db.preKeys[j] == row;
    var i := OldestIndex(db.preKeys, row.owner);
    assert i <= j;
  }

  // ---------- Conservation and order ----------

  /** A row that left the pool, handed out in a bundle or removed with its device. */
  datatype Departure = Departure(row: PreKey, handedOut: bool)

  function Of(rows: seq<PreKey>, a: Address): seq<PreKey> {
    if rows == [] then []
    else (if rows[0].owner == a then [rows[0]] else []) + Of(rows[1..], a)
  }

  /** The rows ever stored for a device, in order. */
  ghost function Stored(es: seq<Event>, a: Address): seq<PreKey>
    requires Possible(es)
    decreases |es|
  {
    if es == [] then [] else Stored(Before(es), a) + StoredBy(After(Before(es)).db, Last(es), a)
  }

  /** The rows of a device that left the pool, in the order they left. */
  ghost function Departed(es: seq<Event>, a: Address): seq<Departure>
    requires Possible(es)
    decreases |es|
  {
    if es == [] then [] else Departed(Before(es), a) + DepartedBy(After(Before(es)), Last(es), a)
  }

  function Rows(ds: seq<Departure>): seq<PreKey> {
    seq(|ds|, i requires 0 <= i < |ds| => ds[i].row)
  }

  lemma {:induction false} OfConcat(x: seq<PreKey>, y: seq<PreKey>, a: Address)
    ensures Of(x + y, a) == Of(x, a) + Of(y, a)
    decreases |x|
  {
    if x == [] {
      assert x + y == y;
    } else {
      assert (x + y)[1..] == x[1..] + y;
      OfConcat(x[1..], y, a);
    }
  }

  lemma {:induction false} OfOneOwner(rows: seq<PreKey>, owner: Address, a: Address)
    requires forall i :: 0 <= i < |rows| ==> rows[i].owner == owner
    ensures Of(rows, a) == if owner == a then rows else []
    decreases |rows|
  {
    if rows != [] {
      OfOneOwner(rows[1..], owner, a);
    }
  }

  lemma {:induction false} OfWithout(rows: seq<PreKey>, b: Address, a: Address)
    ensures Of(Without(rows, b), a) == if a == b then [] else Of(rows, a)
    decreases |rows|
  {
    if rows != [] {
      OfWithout(rows[1..], b, a);
      OfConcat(if rows[0].owner == b then [] else [rows[0]], Without(rows[1..], b), a);
    }
  }

  lemma OfSplit(rows: seq<PreKey>, i: nat, a: Address)
    requires i < |rows|
    ensures Of(rows, a) == Of(rows[..i], a) + (if rows[i].owner == a then [rows[i]] else []) + Of(rows[i + 1..], a)
    ensures Of(rows[..i] + rows[i + 1..], a) == Of(rows[..i], a) + Of(rows[i + 1..], a)
  {
    assert rows == rows[..i] + ([rows[i]] + rows[i + 1..]);
    OfConcat(rows[..i], [rows[i]] + rows[i + 1..], a);
    OfConcat([rows[i]], rows[i + 1..], a);
    OfConcat(rows[..i], rows[i + 1..], a);
  }

  /** Taking a device's oldest prekey takes the first of its own, and nobody else's. */
  lemma OfConsumed(rows: seq<PreKey>, b: Address, a: Address)
    requires OldestIndex(rows, b) < |rows|
    ensures var i := OldestIndex(rows, b);
            Of(rows, a) == (if a == b then [rows[i]] else []) + Of(rows[..i] + rows[i + 1..], a)
  {
    var i := OldestIndex(rows, b);
    var front, back := rows[..i], rows[i + 1..];
    OfSplit(rows, i, a);
    if a == b {
      OfNone(front, b);
    }
    TakeMiddle(Of(front, a), if a == b then [rows[i]] else [], Of(back, a));
  }

  lemma TakeMiddle(front: seq<PreKey>, taken: seq<PreKey>, back: seq<PreKey>)
    requires front == [] || taken == []
    ensures front + taken + back == taken + (front + back)
  {
  }

  lemma NoneLeft(rows: seq<PreKey>, a: Address)
    requires OldestIndex(rows, a) == |rows|
    ensures Of(rows, a) == []
  {
    OfNone(rows, a);
  }

  lemma {:induction false} OfNone(rows: seq<PreKey>, a: Address)
    requires forall i :: 0 <= i < |rows| ==> rows[i].owner != a
    ensures Of(rows, a) == []
    decreases |rows|
  {
    if rows != [] {
      OfNone(rows[1..], a);
    }
  }

  /** The rows that an event stores for a device. */
  function StoredBy(db: Db, e: Event, a: Address): seq<PreKey> {
    match e
    case Register(user, r) =>
      if Address(user, r.device) == a && RegistrationAccepted(db, user, r) then AddedRows(db, a, r.preKeys) else []
    case Upload(b, batch) => if b == a && a in db.devices then AddedRows(db, a, batch) else []
    case _ => []
  }

  /** The rows of a device that an event takes out of the pool. */
  function DepartedBy(s: State, e: Event, a: Address): seq<Departure>
    requires Enabled(s, e)
  {
    match e
    case Delete(k) =>
      var row := s.fetches[k].row;
      if row.owner == a && row in s.db.preKeys then [Departure(row, true)] else []
    case Remove(b) =>
      var own := Of(s.db.preKeys, a);
      if b == a then seq(|own|, i requires 0 <= i < |own| => Departure(own[i], false)) else []
    case _ => []
  }

  lemma OfAdded(db: Db, b: Address, batch: seq<PreKeyInput>, a: Address)
    ensures Of(db.preKeys + AddedRows(db, b, batch), a) ==
            Of(db.preKeys, a) + if a == b then AddedRows(db, b, batch) else []
  {
    OfConcat(db.preKeys, AddedRows(db, b, batch), a);
    OfOneOwner(AddedRows(db, b, batch), b, a);
  }

  lemma RegisterIsFifo(db: Db, user: string, r: Registration, a: Address)
    ensures Of(RegisterStep(db, user, r).preKeys, a) == Of(db.preKeys, a) + StoredBy(db, Register(user, r), a)
  {
    OfAdded(db, Address(user, r.device), r.preKeys, a);
  }

  lemma UploadIsFifo(db: Db, b: Address, batch: seq<PreKeyInput>, a: Address)
    ensures Of(UploadStep(db, b, batch).preKeys, a) == Of(db.preKeys, a) + StoredBy(db, Upload(b, batch), a)
  {
    OfAdded(db, b, batch, a);
  }

  lemma {:induction false} RemoveMissing(rows: seq<PreKey>, row: PreKey)
    requires row !in rows
    ensures RemoveRow(rows, row) == rows
    decreases |rows|
  {
    if rows != [] {
      RemoveMissing(rows[1..], row);
    }
  }

  lemma DeleteIsFifo(s: State, k: nat, a: Address)
    requires PoolConsistent(s.db) && FetchesConsistent(s) && Enabled(s, Delete(k))
    ensures Rows(DepartedBy(s, Delete(k), a)) + Of(Apply(s, Delete(k)).db.preKeys, a) == Of(s.db.preKeys, a)
  {
    OfDeleted(s.db, s.fetches[k].row, a);
  }

  lemma OfDeleted(db: Db, row: PreKey, a: Address)
    requires PoolConsistent(db) && NoneOlder(db.preKeys, row)
    ensures Of(db.preKeys, a) ==
            (if row.owner == a && row in db.preKeys then [row] else []) + Of(RemoveRow(db.preKeys, row), a)
  {
    if row in db.preKeys {
      StillOldest(db, row);
      RemoveOldest(db.preKeys, row.owner);
      OfConsumed(db.preKeys, row.owner, a);
    } else {
      RemoveMissing(db.preKeys, row);
    }
  }

  lemma RemoveIsFifo(s: State, b: Address, a: Address)
    ensures Rows(DepartedBy(s, Remove(b), a)) + Of(RemoveStep(s.db, b).preKeys, a) == Of(s.db.preKeys, a)
  {
    OfWithout(s.db.preKeys, b, a);
  }

  /** One event stores at the end of a device's rows and takes from their front. */
  lemma StepIsFifo(s: State, e: Event, a: Address)
    requires PoolConsistent(s.db) && FetchesConsistent(s) && Enabled(s, e)
    ensures Rows(DepartedBy(s, e, a)) + Of(Apply(s, e).db.preKeys, a) == Of(s.db.preKeys, a) + StoredBy(s.db, e, a)
  {
    match e
    case Register(user, r) => RegisterIsFifo(s.db, user, r, a);
    case Upload(b, batch) => UploadIsFifo(s.db, b, batch, a);
    case Remove(b) => RemoveIsFifo(s, b, a);
    case Delete(k) => DeleteIsFifo(s, k, a);
    case _ =>
  }

  /**
   Conservation and order: the rows that left, in the order they left, followed by the rows still
   there, are the rows ever stored, in the order they were stored.
   */
  lemma {:induction false} PoolIsFifo(es: seq<Event>, a: Address)
    requires Possible(es)
    ensures Rows(Departed(es, a)) + Of(After(es).db.preKeys, a) == Stored(es, a)
    decreases |es|
  {
    if es != [] {
      PoolIsFifo(Before(es), a);
      RunConsistent(Before(es));
      RunFetchesConsistent(Before(es));
      var s := After(Before(es));
      StepIsFifo(s, Last(es), a);
      var gone, left := Departed(Before(es), a), DepartedBy(s, Last(es), a);
      RowsConcat(gone, left);
      FrontAndBack(Rows(gone), Rows(left), Of(s.db.preKeys, a), Of(After(es).db.preKeys, a),
                   StoredBy(s.db, Last(es), a));
    }
  }

  lemma RowsConcat(x: seq<Departure>, y: seq<Departure>)
    ensures Rows(x + y) == Rows(x) + Rows(y)
  {
  }

  lemma FrontAndBack(gone: seq<PreKey>, left: seq<PreKey>, own: seq<PreKey>, own': seq<PreKey>, stored: seq<PreKey>)
    requires left + own' == own + stored
    ensures gone + left + own' == gone + own + stored
  {
    assert gone + left + own' == gone + (left + own');
    assert gone + (own + stored) == gone + own + stored;
  }

  /** Rows of one device, stored one after the other between two clock readings. */
  ghost predicate StoredBetween(rows: seq<PreKey>, a: Address, from: nat, to: nat) {
    && (forall i, j :: 0 <= i < j < |rows| ==> rows[i].createdAt < rows[j].createdAt)
    && (forall i :: 0 <= i < |rows| ==> rows[i].owner == a && from <= rows[i].createdAt < to)
  }

  lemma StepStored(s: State, e: Event, a: Address)
    requires Enabled(s, e)
    ensures s.db.clock <= Apply(s, e).db.clock
    ensures StoredBetween(StoredBy(s.db, e, a), a, s.db.clock, Apply(s, e).db.clock)
  {
  }

  lemma StoredOneAfterOther(x: seq<PreKey>, y: seq<PreKey>, a: Address, from: nat, mid: nat, to: nat)
    requires StoredBetween(x, a, from, mid) && StoredBetween(y, a, mid, to) && from <= mid <= to
    ensures StoredBetween(x + y, a, from, to)
  {
  }

  lemma {:induction false} StoredIncreasing(es: seq<Event>, a: Address)
    requires Possible(es)
    ensures StoredBetween(Stored(es, a), a, 0, After(es).db.clock)
    decreases |es|
  {
    if es != [] {
      StoredIncreasing(Before(es), a);
      var s := After(Before(es));
      StepStored(s, Last(es), a);
      StoredOneAfterOther(Stored(Before(es), a), StoredBy(s.db, Last(es), a), a, 0, s.db.clock, After(es).db.clock);
    }
  }

  lemma FrontIsOlder(gone: seq<PreKey>, own: seq<PreKey>, all: seq<PreKey>)
    requires gone + own == all
    requires forall i, j :: 0 <= i < j < |all| ==> all[i].createdAt < all[j].createdAt
    ensures forall i, j :: 0 <= i < j < |gone| ==> gone[i].createdAt < gone[j].createdAt
    ensures forall i, pk :: 0 <= i < |gone| && pk in own ==> gone[i].createdAt < pk.createdAt
  {
    assert forall i :: 0 <= i < |gone| ==> gone[i] == all[i];
    assert forall k :: 0 <= k < |own| ==> own[k] == all[|gone| + k];
  }

  /**
   No row leaves the pool twice; rows leave oldest first, and every row still there is newer than
   every row that left.
   */
  lemma {:induction false} OldestFirst(es: seq<Event>, a: Address)
    requires Possible(es)
    ensures var gone := Rows(Departed(es, a));
            && (forall i, j :: 0 <= i < j < |gone| ==> gone[i].createdAt < gone[j].createdAt)
            && (forall i, pk :: 0 <= i < |gone| && pk in Of(After(es).db.preKeys, a) ==>
                 gone[i].createdAt < pk.createdAt)
  {
    PoolIsFifo(es, a);
    StoredIncreasing(es, a);
    FrontIsOlder(Rows(Departed(es, a)), Of(After(es).db.preKeys, a), Stored(es, a));
  }

  /** A find gets the device's oldest prekey; an exhausted pool yields a bundle without one. */
  lemma BundlePreKey(db: Db, a: Address)
    ensures Front(db, a) == ConsumeStep(db, a).1 == if Of(db.preKeys, a) == [] then None else Some(Of(db.preKeys, a)[0])
  {
    if OldestIndex(db.preKeys, a) < |db.preKeys| {
      OfConsumed(db.preKeys, a, a);
    } else {
      NoneLeft(db.preKeys, a);
    }
  }

  // ---------- Which row a fetch hands out ----------

  lemma {:induction false} PrefixPossible(es: seq<Event>, p: nat)
    requires Possible(es) && p <= |es|
    ensures Possible(es[..p])
    decreases |es|
  {
    if p == |es| {
      assert es[..p] == es;
    } else {
      PrefixPossible(Before(es), p);
      assert Before(es)[..p] == es[..p];
    }
  }

  ghost function At(es: seq<Event>, p: nat): State
    requires Possible(es) && p <= |es|
  {
    PrefixPossible(es, p);
    After(es[..p])
  }

  /** What the find at position `i` of the run gets, if anything. */
  ghost function FoundAt(es: seq<Event>, i: nat): Option<PreKey>
    requires Possible(es) && i < |es| && es[i].Find?
  {
    FindEnabled(es, i);
    Front(At(es, i).db, At(es, i).fetches[es[i].fetch].a)
  }

  /** The device that the find at position `i` asks about. */
  ghost function AskedAt(es: seq<Event>, i: nat): Address
    requires Possible(es) && i < |es| && es[i].Find?
  {
    FindEnabled(es, i);
    At(es, i).fetches[es[i].fetch].a
  }

  lemma NextState(es: seq<Event>, i: nat)
    requires Possible(es) && i < |es|
    ensures Enabled(At(es, i), es[i]) && At(es, i + 1) == Apply(At(es, i), es[i])
  {
    PrefixPossible(es, i + 1);
    assert Before(es[..i + 1]) == es[..i] && Last(es[..i + 1]) == es[i];
  }

  lemma FindEnabled(es: seq<Event>, i: nat)
    requires Possible(es) && i < |es|
    ensures Enabled(At(es, i), es[i])
  {
    NextState(es, i);
  }

  /** A row of the device leaves the pool between two moments: taken by a delete, or with its device. */
  ghost predicate LeftBetween(es: seq<Event>, i: nat, j: nat, a: Address)
    requires Possible(es) && j <= |es|
  {
    exists m: nat :: i <= m < j && LeavesAt(es, m, a)
  }

  ghost predicate LeavesAt(es: seq<Event>, m: nat, a: Address)
    requires Possible(es)
  {
    m < |es| && (FindEnabled(es, m); DepartedBy(At(es, m), es[m], a) != [])
  }

  ghost function DepartedAt(es: seq<Event>, p: nat, a: Address): seq<Departure>
    requires Possible(es) && p <= |es|
  {
    PrefixPossible(es, p);
    Departed(es[..p], a)
  }

  ghost function StoredAt(es: seq<Event>, p: nat, a: Address): seq<PreKey>
    requires Possible(es) && p <= |es|
  {
    PrefixPossible(es, p);
    Stored(es[..p], a)
  }

  lemma NextHistory(es: seq<Event>, i: nat, a: Address)
    requires Possible(es) && i < |es|
    ensures Enabled(At(es, i), es[i])
    ensures DepartedAt(es, i + 1, a) == DepartedAt(es, i, a) + DepartedBy(At(es, i), es[i], a)
    ensures StoredAt(es, i + 1, a) == StoredAt(es, i, a) + StoredBy(At(es, i).db, es[i], a)
  {
    PrefixPossible(es, i + 1);
    PrefixPossible(es, i);
    assert Before(es[..i + 1]) == es[..i] && Last(es[..i + 1]) == es[i];
    HistoryStep(es[..i + 1], a);
  }

  lemma HistoryStep(es: seq<Event>, a: Address)
    requires Possible(es) && es != []
    ensures Departed(es, a) == Departed(Before(es), a) + DepartedBy(After(Before(es)), Last(es), a)
    ensures Stored(es, a) == Stored(Before(es), a) + StoredBy(After(Before(es)).db, Last(es), a)
  {
  }

  /** Both histories only grow. */
  lemma {:induction false} HistoriesGrow(es: seq<Event>, i: nat, j: nat, a: Address)
    requires Possible(es) && i <= j <= |es|
    ensures StoredAt(es, i, a) <= StoredAt(es, j, a)
    ensures |DepartedAt(es, i, a)| <= |DepartedAt(es, j, a)|
    decreases j
  {
    if i < j {
      var k := j - 1;
      HistoriesGrow(es, i, k, a);
      NextHistory(es, k, a);
      assert StoredAt(es, j, a) == StoredAt(es, k, a) + StoredBy(At(es, k).db, es[k], a);
    }
  }

  /** The departures grow exactly when a row leaves. */
  lemma {:induction false} LeftIffMoreDeparted(es: seq<Event>, i: nat, j: nat, a: Address)
    requires Possible(es) && i <= j <= |es|
    ensures LeftBetween(es, i, j, a) <==> |DepartedAt(es, i, a)| < |DepartedAt(es, j, a)|
    decreases j
  {
    if i < j {
      var k := j - 1;
      LeftIffMoreDeparted(es, i, k, a);
      HistoriesGrow(es, i, k, a);
      LeftBetweenNext(es, i, k, a);
      OneMoreDeparted(es, k, a);
    }
  }

  lemma OneMoreDeparted(es: seq<Event>, k: nat, a: Address)
    requires Possible(es) && k < |es|
    ensures Enabled(At(es, k), es[k])
    ensures |DepartedAt(es, k + 1, a)| == |DepartedAt(es, k, a)| + |DepartedBy(At(es, k), es[k], a)|
  {
    NextHistory(es, k, a);
  }

  lemma LeftBetweenNext(es: seq<Event>, i: nat, j: nat, a: Address)
    requires Possible(es) && i <= j < |es|
    ensures Enabled(At(es, j), es[j])
    ensures LeftBetween(es, i, j + 1, a) <==> LeftBetween(es, i, j, a) || DepartedBy(At(es, j), es[j], a) != []
  {
    FindEnabled(es, j);
    assert LeavesAt(es, j, a) <==> DepartedBy(At(es, j), es[j], a) != [];
  }

  /** The oldest row at any moment is the first of the stored ones that has not left. */
  lemma FrontByHistory(es: seq<Event>, p: nat, a: Address)
    requires Possible(es) && p <= |es|
    ensures var n, all := |DepartedAt(es, p, a)|, StoredAt(es, p, a);
            n <= |all| && Front(At(es, p).db, a) == if n < |all| then Some(all[n]) else None
  {
    PrefixPossible(es, p);
    PoolIsFifo(es[..p], a);
    BundlePreKey(At(es, p).db, a);
    assert |Rows(DepartedAt(es, p, a))| == |DepartedAt(es, p, a)|;
  }

  /** The oldest row at two moments, by how many rows have left at each. */
  lemma FrontsCompared(es: seq<Event>, i: nat, j: nat, a: Address)
    requires Possible(es) && i <= j <= |es| && Front(At(es, i).db, a).Some?
    ensures |DepartedAt(es, i, a)| == |DepartedAt(es, j, a)| ==> Front(At(es, j).db, a) == Front(At(es, i).db, a)
    ensures |DepartedAt(es, i, a)| < |DepartedAt(es, j, a)| && Front(At(es, j).db, a).Some? ==>
              Front(At(es, i).db, a).value.createdAt < Front(At(es, j).db, a).value.createdAt
  {
    HistoriesGrow(es, i, j, a);
    FrontByHistory(es, i, a);
    FrontByHistory(es, j, a);
    PrefixPossible(es, j);
    StoredIncreasing(es[..j], a);
    var n := |DepartedAt(es, i, a)|;
    assert StoredAt(es, i, a)[n] == StoredAt(es, j, a)[n];
  }

  /**
   Two fetches of a device are handed the same row exactly when no row of the device left the pool
   between their finds: no other delete took one, and the device was not removed. Otherwise the
   later one gets a newer row, or none.
   */
  lemma {:induction false} SameRowIff(es: seq<Event>, i: nat, j: nat)
    requires Possible(es) && i < j < |es| && es[i].Find? && es[j].Find?
    requires FoundAt(es, i).Some? && AskedAt(es, i) == AskedAt(es, j)
    ensures FoundAt(es, j) == FoundAt(es, i) <==> !LeftBetween(es, i, j, AskedAt(es, i))
    ensures LeftBetween(es, i, j, AskedAt(es, i)) && FoundAt(es, j).Some? ==>
              FoundAt(es, i).value.createdAt < FoundAt(es, j).value.createdAt
  {
    var a := AskedAt(es, i);
    HistoriesGrow(es, i, j, a);
    LeftIffMoreDeparted(es, i, j, a);
    FrontsCompared(es, i, j, a);
  }

  /** Until its delete, a fetch holds what its find got. */
  lemma {:induction false} FoundIsHeld(es: seq<Event>, i: nat, m: nat)
    requires Possible(es) && i < m <= |es| && es[i].Find? && FoundAt(es, i).Some?
    requires forall x :: i < x < m ==> es[x] != Delete(es[i].fetch)
    ensures var k := es[i].fetch;
            k in At(es, m).fetches && At(es, m).fetches[k] == Found(FoundAt(es, i).value)
    decreases m
  {
    var n := m - 1;
    NextState(es, n);
    if i < n {
      FoundIsHeld(es, i, n);
      PrefixPossible(es, n);
      RunFetchesConsistent(es[..n]);
      StillHeld(At(es, n), es[n], es[i].fetch);
    }
  }

  lemma StillHeld(s: State, e: Event, k: nat)
    requires Enabled(s, e) && FetchesConsistent(s) && k in s.fetches && s.fetches[k].Found? && e != Delete(k)
    ensures k in Apply(s, e).fetches && Apply(s, e).fetches[k] == s.fetches[k]
  {
  }

  /** The delete at position `m` answers the fetch whose find is at `i`, with the row found there. */
  ghost predicate Answers(es: seq<Event>, i: nat, m: nat) {
    && i < m < |es| && es[i].Find? && es[m] == Delete(es[i].fetch)
    && forall x :: i < x < m ==> es[x] != es[m]
  }

  /** Once a fetch has been answered, its row is gone. */
  lemma AnsweredRowIsGone(es: seq<Event>, i: nat, m: nat)
    requires Possible(es) && Answers(es, i, m) && FoundAt(es, i).Some?
    ensures var k := es[i].fetch;
            k in At(es, m).fetches && At(es, m).fetches[k] == Found(FoundAt(es, i).value)
    ensures FoundAt(es, i).value !in At(es, m + 1).db.preKeys
  {
    FoundIsHeld(es, i, m);
    NextState(es, m);
    PrefixPossible(es, m);
    RunConsistent(es[..m]);
    RemoveRowInOrder(At(es, m).db.preKeys, FoundAt(es, i).value);
  }

  lemma {:induction false} OfMembers(rows: seq<PreKey>, a: Address)
    ensures forall pk :: pk in Of(rows, a) <==> pk in rows && pk.owner == a
    decreases |rows|
  {
    if rows != [] {
      OfMembers(rows[1..], a);
    }
  }

  /**
   Fetches that do not overlap: what a fetch is handed, if anything, is newer than what any fetch
   was handed that had been answered before. So no row is handed out twice, and they go out oldest
   first.
   */
  lemma {:induction false} LaterFetchGetsNewer(es: seq<Event>, i: nat, m: nat, j: nat)
    requires Possible(es) && Answers(es, i, m) && m < j < |es| && es[j].Find?
    requires FoundAt(es, i).Some? && FoundAt(es, j).Some? && AskedAt(es, i) == AskedAt(es, j)
    ensures FoundAt(es, i).value.createdAt < FoundAt(es, j).value.createdAt
  {
    RowLeavesWithAnswer(es, i, m, AskedAt(es, i));
    LeftBetweenWider(es, i, m + 1, j, AskedAt(es, i));
    SameRowIff(es, i, j);
  }

  lemma LeftBetweenWider(es: seq<Event>, i: nat, p: nat, j: nat, a: Address)
    requires Possible(es) && p <= j <= |es| && LeftBetween(es, i, p, a)
    ensures LeftBetween(es, i, j, a)
  {
    var m: nat :| i <= m < p && LeavesAt(es, m, a);
  }

  /** By the time a fetch is answered, a row has left: its own, or that row had left before. */
  lemma RowLeavesWithAnswer(es: seq<Event>, i: nat, m: nat, a: Address)
    requires Possible(es) && Answers(es, i, m) && FoundAt(es, i).Some? && AskedAt(es, i) == a
    ensures LeftBetween(es, i, m + 1, a)
  {
    AnsweredRowIsGone(es, i, m);
    FrontNotStored(At(es, m + 1).db, a, FoundAt(es, i).value);
    MovedOn(es, i, m + 1, a);
  }

  lemma FrontNotStored(db: Db, a: Address, row: PreKey)
    requires row !in db.preKeys
    ensures Front(db, a) != Some(row)
  {
  }

  lemma MovedOn(es: seq<Event>, i: nat, p: nat, a: Address)
    requires Possible(es) && i <= p <= |es|
    requires Front(At(es, i).db, a).Some? && Front(At(es, p).db, a) != Front(At(es, i).db, a)
    ensures LeftBetween(es, i, p, a)
  {
    LeftIffMoreDeparted(es, i, p, a);
    HistoriesGrow(es, i, p, a);
    FrontsCompared(es, i, p, a);
  }

  /** Two fetches that both find the device's oldest prekey before either deletes it. */
  function Overlap(user: string, r: Registration): seq<Event> {
    var a := Address(user, r.device);
    [Register(user, r), Open(0, a), Open(1, a), Find(0), Find(1), Delete(0), Delete(1)]
  }

  lemma BothOpened(user: string, r: Registration)
    requires RegistrationAccepted(EMPTY, user, r) && |r.preKeys| == 1
    ensures var es, a := Overlap(user, r), Address(user, r.device);
            Possible(es[..3]) &&
            After(es[..3]) == State(RegisterStep(EMPTY, user, r), map[0 := Opened(a), 1 := Opened(a)], {0, 1})
  {
    var es := Overlap(user, r);
    OnePreKeyStored(user, r);
    RunStep(es, 0);
    RunStep(es, 1);
    RunStep(es, 2);
  }

  lemma BothFound(user: string, r: Registration)
    requires RegistrationAccepted(EMPTY, user, r) && |r.preKeys| == 1
    ensures var es, a, db := Overlap(user, r), Address(user, r.device), RegisterStep(EMPTY, user, r);
            && Front(db, a).Some? && Possible(es[..4]) && Possible(es[..5])
            && After(es[..4]) == State(db, map[0 := Found(Front(db, a).value), 1 := Opened(a)], {0, 1})
            && After(es[..5]) == State(db, map[0 := Found(Front(db, a).value), 1 := Found(Front(db, a).value)], {0, 1})
  {
    var es := Overlap(user, r);
    OnePreKeyStored(user, r);
    BothOpened(user, r);
    RunStep(es, 3);
    RunStep(es, 4);
  }

  /** Overlapping fetches: both are handed the device's only prekey. */
  lemma HandedOutTwice(user: string, r: Registration)
    requires RegistrationAccepted(EMPTY, user, r) && |r.preKeys| == 1
    ensures var es := Overlap(user, r);
            && Possible(es) && Answers(es, 3, 5) && Answers(es, 4, 6)
            && FoundAt(es, 3) == FoundAt(es, 4) && FoundAt(es, 3).Some?
  {
    var es := Overlap(user, r);
    BothOpened(user, r);
    BothFound(user, r);
    RunStep(es, 5);
    RunStep(es, 6);
    assert es[..7] == es;
  }

  lemma OnePreKeyStored(user: string, r: Registration)
    requires RegistrationAccepted(EMPTY, user, r) && |r.preKeys| == 1
    ensures var db, a := RegisterStep(EMPTY, user, r), Address(user, r.device);
            Front(db, a).Some? && BundleAvailable(db, a)
  {
    WholeBatchIff(KeyIDs(EMPTY.preKeys), r.preKeys);
    assert |AddedRows(EMPTY, Address(user, r.device), r.preKeys)| == 1;
  }

  /** One more event of a run written down in full. */
  lemma RunStep(es: seq<Event>, i: nat)
    requires i < |es| && Possible(es[..i]) && Enabled(After(es[..i]), es[i])
    ensures Possible(es[..i + 1]) && After(es[..i + 1]) == Apply(After(es[..i]), es[i])
  {
    assert Before(es[..i + 1]) == es[..i] && Last(es[..i + 1]) == es[i];
  }

  // ---------- Sender keys ----------

  /** The last key saved for a group and a device since the device was last removed. */
  function LastSaved(es: seq<Event>, group: string, a: Address): Option<SenderKey>
    decreases |es|
  {
    if es == [] then None
    else
      match Last(es)
      case SaveSender(g, b, key) => if g == group && b == a then Some(key) else LastSaved(Before(es), group, a)
      case Remove(b) => if b == a then None else LastSaved(Before(es), group, a)
      case _ => LastSaved(Before(es), group, a)
  }

  lemma {:induction false} SenderKeyStands(es: seq<Event>, group: string, a: Address)
    requires Possible(es)
    ensures var keys := After(es).db.senderKeys;
            (if (group, a) in keys then Some(keys[(group, a)]) else None) == LastSaved(es, group, a)
    decreases |es|
  {
    if es != [] {
      SenderKeyStands(Before(es), group, a);
    }
  }

  // ---------- The unique index on key ids ----------

  /** Key ids are unique across all devices, so one user's key id can refuse another user's registration. */
  lemma KeyIDsCollideAcrossUsers(key: Bytes)
    requires |key| == KEY_LENGTH
    ensures var spk := SignedPreKeyInput(7, Some(key), Some([]));
            var phone := Registration("phone", Device("", ""), 0, Some(key), spk, [PreKeyInput(1, Some(key))]);
            var tablet := phone.(device := "tablet");
            && RegistrationAccepted(EMPTY, "bob", tablet)
            && !RegistrationAccepted(RegisterStep(EMPTY, "alice", phone), "bob", tablet)
  {
    var spk := SignedPreKeyInput(7, Some(key), Some([]));
    var phone := Registration("phone", Device("", ""), 0, Some(key), spk, [PreKeyInput(1, Some(key))]);
    var db := RegisterStep(EMPTY, "alice", phone);
    assert db.preKeys == [PreKey(Address("alice", "phone"), 1, key, 0)];
    assert db.preKeys[0].keyID in KeyIDs(db.preKeys);
  }
}
