/**
 Pinned messages: one per conversation, stored in rows under a group id or a conversation key.
 */
module Pins {
  import opened Common

  // ---------- The conversation key ----------

  /** The order of strings, character by character. */
  predicate Less(a: string, b: string) {
    b != "" && (a == "" || a[0] < b[0] || (a[0] == b[0] && Less(a[1..], b[1..])))
  }

  /** Up to character `k` the strings are alike; there the first ends, or has the smaller character. */
  predicate DiffersAt(a: string, b: string, k: nat) {
    k <= |a| && k < |b| && a[..k] == b[..k] && (k == |a| || a[k] < b[k])
  }

  lemma {:induction false} LessIff(a: string, b: string)
    ensures Less(a, b) <==> exists k: nat :: DiffersAt(a, b, k)
    decreases |a|
  {
    if a != "" && b != "" && a[0] == b[0] {
      LessIff(a[1..], b[1..]);
      forall k: nat
        ensures DiffersAt(a, b, k) <==> k > 0 && DiffersAt(a[1..], b[1..], k - 1)
      {
        OneCharacterOn(a, b, k);
      }
      if k: nat :| DiffersAt(a[1..], b[1..], k) {
        assert DiffersAt(a, b, k + 1);
      }
    } else if b != "" && (a == "" || a[0] < b[0]) {
      assert DiffersAt(a, b, 0);
    } else {
      forall k: nat
        ensures !DiffersAt(a, b, k)
      {
        if k > 0 && k <= |a| && k < |b| {
          assert a[..k][0] == a[0] && b[..k][0] == b[0];
        }
      }
    }
  }

  lemma OneCharacterOn(a: string, b: string, k: nat)
    requires a != "" && b != "" && a[0] == b[0]
    ensures DiffersAt(a, b, k) <==> k > 0 && DiffersAt(a[1..], b[1..], k - 1)
  {
    if 0 < k <= |a| && k <= |b| {
      assert a[..k] == [a[0]] + a[1..][..k - 1] && b[..k] == [b[0]] + b[1..][..k - 1];
      assert a[..k][1..] == a[1..][..k - 1] && b[..k][1..] == b[1..][..k - 1];
    }
  }

  function MakeConversationKey(userID1: string, userID2: string): string {
    if Less(userID1, userID2) then userID1 + ":" + userID2 else userID2 + ":" + userID1
  }

  predicate ColonFree(id: string) {
    ':' !in id
  }

  lemma {:induction false} LessTotal(a: string, b: string)
    ensures Less(a, b) || a == b || Less(b, a)
    ensures !(Less(a, b) && Less(b, a))
    decreases |a|
  {
    if a != "" && b != "" && a[0] == b[0] {
      LessTotal(a[1..], b[1..]);
      assert a == [a[0]] + a[1..] && b == [b[0]] + b[1..];
    }
  }

  /** Both users of a conversation arrive at the same key. */
  lemma KeySymmetric(a: string, b: string)
    ensures MakeConversationKey(a, b) == MakeConversationKey(b, a)
  {
    LessTotal(a, b);
  }

  /** The two ids in the order in which the key joins them. */
  function SortedPair(a: string, b: string): (string, string) {
    if Less(a, b) then (a, b) else (b, a)
  }

  lemma SortedPairsAgree(a: string, b: string, c: string, d: string)
    ensures SortedPair(a, b) == SortedPair(c, d) <==> {a, b} == {c, d}
  {
    LessTotal(a, b);
    LessTotal(c, d);
    if {a, b} == {c, d} {
      assert a in {c, d} && b in {c, d} && c in {a, b} && d in {a, b};
    }
  }

  /** Cutting the one joined text at an earlier colon gives `p`, at a later one `q`. */
  ghost predicate CutEarlier(p: (string, string), q: (string, string)) {
    exists m: string :: q.0 == p.0 + ":" + m && p.1 == m + ":" + q.1
  }

  lemma CutAtTwoColons(p: (string, string), q: (string, string))
    requires p.0 + ":" + p.1 == q.0 + ":" + q.1 && |p.0| < |q.0|
    ensures CutEarlier(p, q)
  {
    var s, i, j := p.0 + ":" + p.1, |p.0|, |q.0|;
    var m := s[i + 1..j];
    assert q.0 == s[..j] == s[..i] + s[i..i + 1] + m;
    assert p.0 == s[..i] && s[i..i + 1] == ":";
    assert p.1 == s[i + 1..] == m + s[j..j + 1] + s[j + 1..];
    assert s[j..j + 1] == ":" && q.1 == s[j + 1..];
  }

  lemma CutSameLength(p: (string, string), q: (string, string))
    requires p.0 + ":" + p.1 == q.0 + ":" + q.1 && |p.0| == |q.0|
    ensures p == q
  {
    var s := p.0 + ":" + p.1;
    assert p.0 == s[..|p.0|] && q.0 == s[..|q.0|] && p.1 == s[|p.0| + 1..] && q.1 == s[|q.0| + 1..];
  }

  lemma EarlierCutJoinsAlike(p: (string, string), q: (string, string))
    requires CutEarlier(p, q)
    ensures p.0 + ":" + p.1 == q.0 + ":" + q.1
  {
    var m :| q.0 == p.0 + ":" + m && p.1 == m + ":" + q.1;
    assert p.0 + ":" + (m + ":" + q.1) == p.0 + ":" + m + ":" + q.1;
  }

  /** Exactly when two pairs of ids share a key, whatever the ids. */
  lemma KeysAgreeIff(a: string, b: string, c: string, d: string)
    ensures var p, q := SortedPair(a, b), SortedPair(c, d);
            MakeConversationKey(a, b) == MakeConversationKey(c, d) <==>
            {a, b} == {c, d} || CutEarlier(p, q) || CutEarlier(q, p)
  {
    var p, q := SortedPair(a, b), SortedPair(c, d);
    SortedPairsAgree(a, b, c, d);
    if MakeConversationKey(a, b) == MakeConversationKey(c, d) {
      if |p.0| < |q.0| {
        CutAtTwoColons(p, q);
      } else if |p.0| > |q.0| {
        CutAtTwoColons(q, p);
      } else {
        CutSameLength(p, q);
      }
    }
    if CutEarlier(p, q) {
      EarlierCutJoinsAlike(p, q);
    }
    if CutEarlier(q, p) {
      EarlierCutJoinsAlike(q, p);
    }
  }

  /** A pair of colon-free ids shares its key with no other pair, not even with ids that have colons. */
  lemma KeyInjective(a: string, b: string, c: string, d: string)
    requires ColonFree(a) && ColonFree(b)
    ensures MakeConversationKey(a, b) == MakeConversationKey(c, d) <==> {a, b} == {c, d}
  {
    KeysAgreeIff(a, b, c, d);
    var p, q := SortedPair(a, b), SortedPair(c, d);
    if m: string :| q.0 == p.0 + ":" + m && p.1 == m + ":" + q.1 {
      assert p.1[|m|] == ':';
    }
    if m: string :| p.0 == q.0 + ":" + m && q.1 == m + ":" + p.1 {
      assert p.0[|q.0|] == ':';
    }
  }

  /** With colons in ids two conversations can share a key. */
  lemma KeysCollideWithColons()
    ensures MakeConversationKey("a", "b:c") == MakeConversationKey("a:b", "c")
  {
    assert "a" + ":" + "b:c" == "a:b" + ":" + "c" == "a:b:c";
    assert Less("a", "b:c") && Less("a:b", "c");
  }

  // ---------- The rows ----------

  /** A conversation as the callers name it; a group takes precedence over a pair of users. */
  datatype Target = Target(groupID: Option<string>, userID1: Option<string>, userID2: Option<string>)

  datatype Row = Row(
    id: string, messageID: string, groupID: Option<string>, conversationKey: Option<string>, pinnedBy: string)

  predicate Named(t: Target) {
    t.groupID.Some? || (t.userID1.Some? && t.userID2.Some?)
  }

  predicate Matches(r: Row, t: Target) {
    if t.groupID.Some? then r.groupID == t.groupID
    else
      && t.userID1.Some? && t.userID2.Some?
      && r.conversationKey == Some(MakeConversationKey(t.userID1.value, t.userID2.value))
  }

  function NewRow(id: string, messageID: string, pinnedBy: string, t: Target): Row {
    if t.groupID.Some? then Row(id, messageID, t.groupID, None, pinnedBy)
    else if t.userID1.Some? && t.userID2.Some?
    then Row(id, messageID, None, Some(MakeConversationKey(t.userID1.value, t.userID2.value)), pinnedBy)
    else Row(id, messageID, None, None, pinnedBy)
  }

  function UnpinStep(rows: set<Row>, t: Target): set<Row> {
    set r | r in rows && !Matches(r, t)
  }

  function PinStep(rows: set<Row>, id: string, messageID: string, pinnedBy: string, t: Target): set<Row> {
    UnpinStep(rows, t) + {NewRow(id, messageID, pinnedBy, t)}
  }

  class PinTable {
    var rows: set<Row>

    constructor ()
      ensures rows == {}
    {
      rows := {};
    }

    /** `messages` are the ids in the message table, `id` the new row's generated id. */
    method PinMessage(messages: set<string>, id: string, messageID: string, pinnedBy: string, t: Target)
      returns (pinned: Option<Row>)
      modifies this
      ensures rows == if messageID in messages then PinStep(old(rows), id, messageID, pinnedBy, t) else old(rows)
      ensures pinned == if messageID in messages then Some(NewRow(id, messageID, pinnedBy, t)) else None
      ensures pinned.Some? ==>
                var r := pinned.value;
                && r.id == id && r.messageID == messageID && r.pinnedBy == pinnedBy && r.groupID == t.groupID
                && (r.conversationKey.Some? <==> t.groupID.None? && t.userID1.Some? && t.userID2.Some?)
    {
      if messageID !in messages {
        return None;
      }
      var row := Row(id, messageID, None, None, pinnedBy);
      if t.groupID.Some? {
        row := row.(groupID := t.groupID);
        rows := set r | r in rows && r.groupID != t.groupID;
      } else if t.userID1.Some? && t.userID2.Some? {
        var key := MakeConversationKey(t.userID1.value, t.userID2.value);
        row := row.(conversationKey := Some(key));
        rows := set r | r in rows && r.conversationKey != Some(key);
      }
      rows := rows + {row};
      return Some(row);
    }

    method UnpinMessage(t: Target)
      modifies this
      ensures rows == UnpinStep(old(rows), t)
    {
      if t.groupID.Some? {
        rows := set r | r in rows && r.groupID != t.groupID;
      } else if t.userID1.Some? && t.userID2.Some? {
        var key := MakeConversationKey(t.userID1.value, t.userID2.value);
        rows := set r | r in rows && r.conversationKey != Some(key);
      }
    }

    method GetPinnedMessage(t: Target) returns (pinned: Option<Row>)
      ensures pinned.Some? ==> pinned.value in rows && Matches(pinned.value, t)
      ensures pinned.None? ==> forall r :: r in rows ==> !Matches(r, t)
    {
      if !Named(t) {
        return None;
      }
      var found := set r | r in rows && Matches(r, t);
      if found == {} {
        assert forall r :: r in rows && Matches(r, t) ==> r in found;
        return None;
      }
      var r :| r in found;
      return Some(r);
    }
  }

  // ---------- The abstract map ----------

  /** What a target names: a group, or an unordered pair of users. */
  datatype Conversation = Group(id: string) | Pair(users: set<string>)

  function ConversationOf(t: Target): Conversation
    requires Named(t)
  {
    if t.groupID.Some? then Group(t.groupID.value) else Pair({t.userID1.value, t.userID2.value})
  }

  /** The target names a group, or two users with colon-free ids. */
  predicate PlainIds(t: Target) {
    || t.groupID.Some?
    || (t.userID1.Some? && t.userID2.Some? && ColonFree(t.userID1.value) && ColonFree(t.userID2.value))
  }

  datatype Event =
    | Pin(id: string, messageID: string, pinnedBy: string, messageExists: bool, target: Target)
    | Unpin(target: Target)

  function Apply(rows: set<Row>, e: Event): set<Row> {
    match e
    case Pin(id, messageID, pinner, ok, t) => if ok then PinStep(rows, id, messageID, pinner, t) else rows
    case Unpin(t) => UnpinStep(rows, t)
  }

  function After(es: seq<Event>): set<Row>
    decreases |es|
  {
    if es == [] then {} else Apply(After(Before(es)), Last(es))
  }

  /**
   The specification: a map from conversations to the message pinned there and who pinned it. A
   target that names no conversation changes nothing.
   */
  function PinBoard(es: seq<Event>): map<Conversation, (string, string)>
    decreases |es|
  {
    if es == [] then map[]
    else
      var board, last := PinBoard(Before(es)), Last(es);
      if !Named(last.target) then board
      else
        var c := ConversationOf(last.target);
        match last
        case Pin(_, messageID, pinner, ok, _) => if ok then board[c := (messageID, pinner)] else board
        case Unpin(_) => board - {c}
  }

  /** A new row is found under exactly the targets that name the same conversation. */
  lemma NewRowMatches(id: string, messageID: string, pinner: string, t: Target, u: Target)
    requires PlainIds(u)
    ensures Matches(NewRow(id, messageID, pinner, t), u) <==> Named(t) && ConversationOf(t) == ConversationOf(u)
  {
    if Named(t) && t.groupID.None? && u.groupID.None? {
      KeyInjective(u.userID1.value, u.userID2.value, t.userID1.value, t.userID2.value);
    }
  }

  /** Targets that name the same conversation find the same rows; others find disjoint ones. */
  lemma SameConversationSameRows(r: Row, t: Target, u: Target)
    requires PlainIds(t)
    requires r.groupID.None? || r.conversationKey.None?
    ensures if Named(u) && ConversationOf(t) == ConversationOf(u) then Matches(r, t) <==> Matches(r, u)
            else !(Matches(r, t) && Matches(r, u))
  {
    if Named(u) && t.groupID.None? && u.groupID.None? {
      KeyInjective(t.userID1.value, t.userID2.value, u.userID1.value, u.userID2.value);
    }
  }

  lemma {:induction false} RowsHaveOneKey(es: seq<Event>, r: Row)
    requires r in After(es)
    ensures r.groupID.None? || r.conversationKey.None?
    decreases |es|
  {
    if r in After(Before(es)) {
      RowsHaveOneKey(Before(es), r);
    }
  }

  /**
   Over any run of whole requests, whatever ids the others carry, the table behaves as a map: under a
   target there is a row exactly when its conversation has a pin that was not undone since, and then
   there is one row, with that message.
   */
  lemma {:induction false} PinsRefineBoard(es: seq<Event>, t: Target)
    requires PlainIds(t)
    ensures var board := PinBoard(es);
            && (forall r :: r in After(es) && Matches(r, t) ==>
                 ConversationOf(t) in board && (r.messageID, r.pinnedBy) == board[ConversationOf(t)])
            && (ConversationOf(t) in board ==> exists r :: r in After(es) && Matches(r, t))
            && (forall r, r' :: r in After(es) && r' in After(es) && Matches(r, t) && Matches(r', t) ==> r == r')
    decreases |es|
  {
    if es != [] {
      var front, last := Before(es), Last(es);
      PinsRefineBoard(front, t);
      assert forall r :: r in After(front) ==> r.groupID.None? || r.conversationKey.None? by {
        forall r | r in After(front)
          ensures r.groupID.None? || r.conversationKey.None?
        {
          RowsHaveOneKey(front, r);
        }
      }
      forall r | r in After(front)
        ensures if Named(last.target) && ConversationOf(t) == ConversationOf(last.target)
                then Matches(r, t) <==> Matches(r, last.target)
                else !(Matches(r, t) && Matches(r, last.target))
      {
        SameConversationSameRows(r, t, last.target);
      }
      if last.Pin? && last.messageExists {
        NewRowMatches(last.id, last.messageID, last.pinnedBy, last.target, t);
        assert NewRow(last.id, last.messageID, last.pinnedBy, last.target) in After(es);
      }
    }
  }
}
