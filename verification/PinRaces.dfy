/**
 Pins that overlap: deleting the conversation's old pin and inserting the new one are two steps.
 */
module PinRaces {
  import opened Common
  import opened Pins
  import Races

  /** The row that a request is about to insert, under the target it was made for. */
  datatype Pending = Pending(row: Row, target: Target)

  datatype State = State(rows: set<Row>, pending: map<nat, Pending>, begun: set<nat>)

  const INIT := State({}, map[], {})

  /** `row` is the generated id of the new row; it is never reused. */
  datatype Event =
    | Delete(request: nat, row: string, messageID: string, pinnedBy: string, target: Target)
    | Insert(request: nat)
    | Unpin(target: Target)

  predicate Enabled(s: State, e: Event) {
    match e
    case Delete(k, id, _, _, _) =>
      && k !in s.begun && (forall r :: r in s.rows ==> r.id != id)
      && forall k' :: k' in s.pending ==> s.pending[k'].row.id != id
    case Insert(k) => k in s.pending
    case Unpin(_) => true
  }

  function Apply(s: State, e: Event): State
    requires Enabled(s, e)
  {
    match e
    case Delete(k, id, messageID, pinner, t) =>
      State(UnpinStep(s.rows, t), s.pending[k := Pending(NewRow(id, messageID, pinner, t), t)], s.begun + {k})
    case Insert(k) => s.(rows := s.rows + {s.pending[k].row}, pending := s.pending - {k})
    case Unpin(t) => s.(rows := UnpinStep(s.rows, t))
  }

  // ---------- Runs, newest event last ----------

  ghost predicate Possible(es: seq<Event>)
    decreases |es|, 0
  {
    es == [] || (Possible(Before(es)) && Enabled(After(Before(es)), Last(es)))
  }

  ghost function After(es: seq<Event>): State
    requires Possible(es)
    decreases |es|, 1
  {
    if es == [] then INIT else Apply(After(Before(es)), Last(es))
  }

  lemma {:induction false} PrefixPossible(es: seq<Event>, p: nat)
    requires Possible(es) && p <= |es|
    ensures Possible(es[..p])
    decreases |es|
  {
    if p == |es| {
      assert es[..p] == es;
    } else {
      PrefixPossible(Before(es), p);
      assert Before(es)[..p] == es[..p];
    }
  }

  ghost function At(es: seq<Event>, p: nat): State
    requires Possible(es) && p <= |es|
  {
    PrefixPossible(es, p);
    After(es[..p])
  }

  lemma NextState(es: seq<Event>, i: nat)
    requires Possible(es) && i < |es|
    ensures Enabled(At(es, i), es[i]) && At(es, i + 1) == Apply(At(es, i), es[i])
  {
    PrefixPossible(es, i + 1);
    assert Before(es[..i + 1]) == es[..i] && Last(es[..i + 1]) == es[i];
  }

  /** One more event. */
  lemma Extend(es: seq<Event>, e: Event)
    requires Possible(es) && Enabled(After(es), e)
    ensures Possible(es + [e]) && After(es + [e]) == Apply(After(es), e)
  {
    assert Before(es + [e]) == es;
  }

  /** A pin with nothing in between is one `PinStep`. */
  lemma WholePin(es: seq<Event>, k: nat, id: string, messageID: string, pinner: string, t: Target)
    requires Possible(es) && Enabled(After(es), Delete(k, id, messageID, pinner, t)) && k !in After(es).pending
    ensures var es' := es + [Delete(k, id, messageID, pinner, t)] + [Insert(k)];
            && Possible(es') && After(es').pending == After(es).pending
            && After(es').rows == PinStep(After(es).rows, id, messageID, pinner, t)
  {
    Extend(es, Delete(k, id, messageID, pinner, t));
    Extend(es + [Delete(k, id, messageID, pinner, t)], Insert(k));
  }

  // ---------- Two rows under one conversation ----------

  predicate OneKey(r: Row) {
    r.groupID.None? || r.conversationKey.None?
  }

  ghost predicate OneKeys(s: State) {
    forall r :: r in s.rows ==> OneKey(r)
  }

  /** Every row, stored or about to be, has one key, and was made for its target. */
  ghost predicate Consistent(s: State) {
    && s.pending.Keys <= s.begun
    && OneKeys(s)
    && (forall k :: k in s.pending ==>
         var p := s.pending[k];
         OneKey(p.row) && p.row == NewRow(p.row.id, p.row.messageID, p.row.pinnedBy, p.target))
  }

  lemma {:induction false} RunConsistent(es: seq<Event>)
    requires Possible(es)
    ensures Consistent(After(es))
    decreases |es|
  {
    if es != [] {
      RunConsistent(Before(es));
    }
  }

  ghost predicate NoneUnder(s: State, t: Target) {
    forall r :: r in s.rows ==> !Matches(r, t)
  }

  /** Where a request deleted the old pin. */
  function DeletePos(es: seq<Event>, k: nat): nat
    decreases |es|
  {
    if es == [] then 0
    else if Last(es).Delete? && Last(es).request == k then |es| - 1
    else DeletePos(Before(es), k)
  }

  /** Under way since its delete at `c`, which left no row under the target. */
  ghost predicate PendingSince(es: seq<Event>, k: nat, c: nat)
    requires Possible(es)
  {
    && c < |es| && es[c].Delete? && es[c].request == k
    && (forall m: nat :: c < m <= |es| ==> k in At(es, m).pending)
    && k in After(es).pending
    && NoneUnder(At(es, c + 1), After(es).pending[k].target)
  }

  lemma PendingSinceNext(es: seq<Event>, k: nat, c: nat)
    requires Possible(es) && es != [] && PendingSince(Before(es), k, c) && k in After(es).pending
    requires After(es).pending[k] == After(Before(es)).pending[k]
    ensures PendingSince(es, k, c)
  {
    assert es[..|es|] == es;
    forall m: nat | m < |es|
      ensures Before(es)[..m] == es[..m]
    {
    }
    forall m: nat | c < m <= |es|
      ensures k in At(es, m).pending
    {
      if m < |es| {
        assert k in At(Before(es), m).pending;
      }
    }
  }

  lemma {:induction false} PendingHasDeleted(es: seq<Event>, k: nat)
    requires Possible(es) && k in After(es).pending
    ensures PendingSince(es, k, DeletePos(es, k))
    decreases |es|
  {
    RunConsistent(Before(es));
    assert es[..|es|] == es;
    if !(Last(es).Delete? && Last(es).request == k) {
      PendingHasDeleted(Before(es), k);
      PendingSinceNext(es, k, DeletePos(Before(es), k));
    }
  }

  /** Only inserts add rows. */
  lemma EntersByInsert(es: seq<Event>, j: nat, r: Row)
    requires Possible(es) && j < |es| && r !in At(es, j).rows && r in At(es, j + 1).rows
    ensures es[j].Insert? && es[j].request in At(es, j).pending && At(es, j).pending[es[j].request].row == r
  {
    NextState(es, j);
  }

  ghost function Tables(es: seq<Event>): seq<set<Row>>
    requires Possible(es)
  {
    seq(|es| + 1, m requires 0 <= m <= |es| => At(es, m).rows)
  }

  function Clears(es: seq<Event>): seq<nat> {
    seq(|es|, j requires 0 <= j < |es| => if es[j].Insert? then DeletePos(es[..j], es[j].request) else 0)
  }

  /** An insert comes after its request's delete, which left no row under the request's target. */
  lemma InsertHasDeleted(es: seq<Event>, j: nat) returns (c: nat, cleared: State, u: Target)
    requires Possible(es) && j < |es| && es[j].Insert? && es[j].request in At(es, j).pending
    ensures var k := es[j].request;
            && c == DeletePos(es[..j], k)
            && c < j && es[c].Delete? && es[c].request == k
            && cleared == At(es, c + 1) && u == At(es, j).pending[k].target && NoneUnder(cleared, u)
            && forall m: nat :: c < m <= j ==> k in At(es, m).pending
  {
    PrefixPossible(es, j);
    PendingHasDeleted(es[..j], es[j].request);
    forall m: nat | m <= j
      ensures es[..j][..m] == es[..m]
    {
    }
    var k := es[j].request;
    c := DeletePos(es[..j], k);
    cleared, u := At(es, c + 1), At(es, j).pending[k].target;
    assert es[..j][c] == es[c];
    forall m: nat | c < m <= j
      ensures k in At(es, m).pending
    {
      assert k in At(es[..j], m).pending;
    }
  }

  lemma NoneUnderSameConversation(s: State, t: Target, u: Target, r: Row)
    requires OneKeys(s) && PlainIds(t) && Matches(r, t)
    requires r == NewRow(r.id, r.messageID, r.pinnedBy, u)
    requires NoneUnder(s, u)
    ensures NoneUnder(s, t)
  {
    NewRowMatches(r.id, r.messageID, r.pinnedBy, u, t);
    forall x | x in s.rows
      ensures !Matches(x, t)
    {
      SameConversationSameRows(x, t, u);
    }
  }

  lemma ConsistentAt(es: seq<Event>, p: nat)
    requires Possible(es) && p <= |es|
    ensures Consistent(At(es, p))
  {
    PrefixPossible(es, p);
    RunConsistent(es[..p]);
  }

  lemma PendingWasMade(es: seq<Event>, j: nat, k: nat)
    requires Possible(es) && j <= |es| && k in At(es, j).pending
    ensures var p := At(es, j).pending[k];
            p.row == NewRow(p.row.id, p.row.messageID, p.row.pinnedBy, p.target)
  {
    ConsistentAt(es, j);
  }

  /** A row entering under a conversation was made by a request that had emptied it. */
  lemma EntersAfterDelete(es: seq<Event>, j: nat, r: Row, t: Target) returns (c: nat, cleared: State)
    requires Possible(es) && j < |es| && PlainIds(t) && Matches(r, t)
    requires r !in At(es, j).rows && r in At(es, j + 1).rows
    ensures es[j].Insert?
    ensures var k := es[j].request;
            && c == DeletePos(es[..j], k) && c < j && es[c].Delete? && es[c].request == k
            && cleared == At(es, c + 1) && NoneUnder(cleared, t)
            && forall m: nat :: c < m <= j ==> k in At(es, m).pending
  {
    EntersByInsert(es, j, r);
    var u: Target;
    c, cleared, u := InsertHasDeleted(es, j);
    OneKeysAt(es, c + 1, cleared);
    PendingWasMade(es, j, es[j].request);
    NoneUnderSameConversation(cleared, t, u, r);
  }

  lemma OneKeysAt(es: seq<Event>, p: nat, s: State)
    requires Possible(es) && p <= |es| && s == At(es, p)
    ensures OneKeys(s)
  {
    ConsistentAt(es, p);
  }

  lemma ConversationIsClearThenInsert(es: seq<Event>, t: Target)
    requires Possible(es) && PlainIds(t)
    ensures Races.ClearThenInsert(Tables(es), Clears(es), (r: Row) => Matches(r, t))
  {
    var tables, clears := Tables(es), Clears(es);
    forall j, x: Row, y: Row
      | 0 <= j < |es| && Matches(x, t) && Matches(y, t) && Races.Enters(tables, j, x) && Races.Enters(tables, j, y)
      ensures x == y
    {
      EntersByInsert(es, j, x);
      EntersByInsert(es, j, y);
    }
    forall j, x: Row | 0 <= j < |es| && Matches(x, t) && Races.Enters(tables, j, x)
      ensures clears[j] < j && forall y: Row :: Matches(y, t) ==> y !in tables[clears[j] + 1]
    {
      var c, cleared := EntersAfterDelete(es, j, x, t);
    }
  }

  ghost predicate Stays(es: seq<Event>, p: nat, r: Row)
    requires Possible(es)
  {
    p <= |es| && forall m: nat :: p <= m <= |es| ==> r in At(es, m).rows
  }

  /**
   Request `k` deleted the old pin at step `c` and inserted `y` at step `j`; in between, at step `i`,
   another request inserted `x`; and both rows have stayed.
   */
  ghost predicate Overtaken(es: seq<Event>, x: Row, y: Row, c: nat, i: nat, j: nat, k: nat, k': nat)
    requires Possible(es)
  {
    && c < i < j < |es| && k != k'
    && es[c].Delete? && es[c].request == k && es[i] == Insert(k') && es[j] == Insert(k)
    && Stays(es, i + 1, x) && Stays(es, j + 1, y)
  }

  ghost predicate BothInserted(es: seq<Event>, x: Row, y: Row)
    requires Possible(es)
  {
    exists c: nat, i: nat, j: nat, k: nat, k': nat :: Overtaken(es, x, y, c, i, j, k, k')
  }

  lemma StaysForGood(es: seq<Event>, i: nat, r: Row)
    requires Possible(es) && Races.EntersForGood(Tables(es), i, r)
    ensures i < |es| && r !in At(es, i).rows && r in At(es, i + 1).rows && Stays(es, i + 1, r)
  {
    forall m: nat | i + 1 <= m <= |es|
      ensures r in At(es, m).rows
    {
      assert r in Tables(es)[m];
    }
  }

  lemma OthersInsert(es: seq<Event>, c: nat, i: nat, j: nat, x: Row, y: Row)
    requires Possible(es) && c < i < j < |es| && es[i].Insert? && es[j].Insert?
    requires es[c].Delete? && es[c].request == es[j].request
    requires forall m: nat :: c < m <= j ==> es[j].request in At(es, m).pending
    requires Stays(es, i + 1, x) && Stays(es, j + 1, y)
    ensures BothInserted(es, x, y)
  {
    NextState(es, i);
    assert es[j].request in At(es, i + 1).pending;
    assert Overtaken(es, x, y, c, i, j, es[j].request, es[i].request);
  }

  lemma OvertakesIsOvertaken(es: seq<Event>, x: Row, y: Row, t: Target)
    requires Possible(es) && PlainIds(t) && Matches(x, t) && Matches(y, t) && x != y
    requires Races.Overtakes(Tables(es), Clears(es), x, y)
    ensures BothInserted(es, x, y)
  {
    var tables, clears := Tables(es), Clears(es);
    var i: nat, j: nat :| j < |clears| && clears[j] < i < j &&
                          Races.EntersForGood(tables, i, x) && Races.EntersForGood(tables, j, y);
    StaysForGood(es, i, x);
    StaysForGood(es, j, y);
    EntersByInsert(es, i, x);
    var c, cleared := EntersAfterDelete(es, j, y, t);
    OthersInsert(es, clears[j], i, j, x, y);
  }

  lemma BothThere(es: seq<Event>, x: Row, y: Row)
    requires Possible(es) && BothInserted(es, x, y)
    ensures x in After(es).rows && y in After(es).rows
  {
    var c: nat, i: nat, j: nat, k: nat, k': nat :| Overtaken(es, x, y, c, i, j, k, k');
    assert es[..|es|] == es;
    assert x in At(es, |es|).rows && y in At(es, |es|).rows;
  }

  /**
   A conversation has two pins exactly when two requests overlapped: one deleted the old pin, the
   other inserted its row, the first inserted its own, and both rows stayed.
   */
  lemma TwoPinsIff(es: seq<Event>, t: Target, x: Row, y: Row)
    requires Possible(es) && PlainIds(t) && Matches(x, t) && Matches(y, t) && x != y
    ensures x in After(es).rows && y in After(es).rows <==> BothInserted(es, x, y) || BothInserted(es, y, x)
  {
    assert es[..|es|] == es;
    if x in After(es).rows && y in After(es).rows {
      ConversationIsClearThenInsert(es, t);
      Races.TwoRowsIff(Tables(es), Clears(es), (r: Row) => Matches(r, t), x, y);
      if Races.Overtakes(Tables(es), Clears(es), x, y) {
        OvertakesIsOvertaken(es, x, y, t);
      } else {
        OvertakesIsOvertaken(es, y, x, t);
      }
    }
    if BothInserted(es, x, y) {
      BothThere(es, x, y);
    }
    if BothInserted(es, y, x) {
      BothThere(es, y, x);
    }
  }

  /** Two overlapping pins of one conversation leave two rows. */
  lemma TwoPinsOfOneGroup(t: Target)
    requires t.groupID.Some?
    ensures var es := [Delete(0, "r", "m", "alice", t)] + [Delete(1, "s", "n", "bob", t)] + [Insert(0)] + [Insert(1)];
            var x, y := NewRow("r", "m", "alice", t), NewRow("s", "n", "bob", t);
            && Possible(es) && x != y && Matches(x, t) && Matches(y, t)
            && x in After(es).rows && y in After(es).rows
  {
    var d0, d1 := Delete(0, "r", "m", "alice", t), Delete(1, "s", "n", "bob", t);
    assert [d0] == [] + [d0];
    Extend([], d0);
    Extend([d0], d1);
    Extend([d0] + [d1], Insert(0));
    Extend([d0] + [d1] + [Insert(0)], Insert(1));
  }
}
