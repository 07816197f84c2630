/**
 Read receipts and the unread count of a conversation.
 */
module ReadReceipts {
  import opened Common

  datatype Receipt = Receipt(messageID: string, userID: string, readAt: int)

  datatype Message = Message(sender: string, recipient: Option<string>, group: Option<string>, deleted: bool)

  /** One receipt per message and user, as the unique index demands. */
  ghost predicate OnePerReader(rows: set<Receipt>) {
    forall r, r' :: r in rows && r' in rows && r.messageID == r'.messageID && r.userID == r'.userID ==> r == r'
  }

  predicate HasRead(rows: set<Receipt>, userID: string, messageID: string) {
    exists r :: r in rows && r.userID == userID && r.messageID == messageID
  }

  /** Creates the receipt unless there is one already, whatever its time. */
  function FirstOrCreate(rows: set<Receipt>, userID: string, messageID: string, now: int): set<Receipt> {
    if HasRead(rows, userID, messageID) then rows else rows + {Receipt(messageID, userID, now)}
  }

  function Mark(rows: set<Receipt>, userID: string, ids: seq<string>, now: int): set<Receipt>
    decreases |ids|
  {
    if ids == [] then rows else Mark(FirstOrCreate(rows, userID, ids[0], now), userID, ids[1..], now)
  }

  class ReceiptTable {
    var rows: set<Receipt>

    constructor ()
      ensures rows == {}
    {
      rows := {};
    }

    method MarkMessagesAsRead(userID: string, messageIDs: seq<string>, now: int)
      modifies this
      ensures rows == Mark(old(rows), userID, messageIDs, now)
    {
      for i := 0 to |messageIDs|
        invariant Mark(rows, userID, messageIDs[i..], now) == Mark(old(rows), userID, messageIDs, now)
      {
        assert messageIDs[i..][0] == messageIDs[i] && messageIDs[i..][1..] == messageIDs[i + 1..];
        if !HasRead(rows, userID, messageIDs[i]) {
          rows := rows + {Receipt(messageIDs[i], userID, now)};
        }
      }
    }

    method GetUnreadCount(messages: map<string, Message>, userID: string,
                          groupID: Option<string>, otherUserID: Option<string>)
      returns (count: nat)
      ensures count == |Unread(messages, rows, userID, groupID, otherUserID)|
    {
      var read := set r | r in rows && r.userID == userID :: r.messageID;
      var unread := set id | id in messages && id !in read && Counts(messages[id], userID, groupID, otherUserID);
      assert unread == Unread(messages, rows, userID, groupID, otherUserID);
      return |unread|;
    }
  }

  /** The messages of a conversation that a user did not send; deleted ones do not count. */
  predicate Counts(m: Message, userID: string, groupID: Option<string>, otherUserID: Option<string>) {
    && m.sender != userID && !m.deleted
    && if groupID.Some? then m.group == groupID
       else if otherUserID.Some? then
         || (m.sender == otherUserID.value && m.recipient == Some(userID))
         || (m.sender == userID && m.recipient == otherUserID)
       else true
  }

  function Unread(messages: map<string, Message>, rows: set<Receipt>, userID: string,
                  groupID: Option<string>, otherUserID: Option<string>): set<string> {
    set id | id in messages && !HasRead(rows, userID, id) && Counts(messages[id], userID, groupID, otherUserID)
  }

  /**
   What counts as unread, in full: not deleted, from someone else, without a receipt of the user, and
   in the group, or from the other user to this one, or anywhere if neither is given.
   */
  lemma {:induction false} UnreadIff(messages: map<string, Message>, rows: set<Receipt>, userID: string,
                                     groupID: Option<string>, otherUserID: Option<string>, id: string)
    ensures id in Unread(messages, rows, userID, groupID, otherUserID) <==>
            && id in messages && !messages[id].deleted && messages[id].sender != userID
            && (forall r :: r in rows && r.messageID == id ==> r.userID != userID)
            && (groupID.Some? ==> messages[id].group == groupID)
            && (groupID.None? && otherUserID.Some? ==>
                 messages[id].sender == otherUserID.value && messages[id].recipient == Some(userID))
  {
    assert HasRead(rows, userID, id) <==> exists r :: r in rows && r.messageID == id && r.userID == userID;
  }

  // ---------- What marking does ----------

  lemma {:induction false} MarkReads(rows: set<Receipt>, userID: string, ids: seq<string>, now: int,
                                     reader: string, id: string)
    ensures HasRead(Mark(rows, userID, ids, now), reader, id) <==>
            HasRead(rows, reader, id) || (reader == userID && id in ids)
    decreases |ids|
  {
    if ids != [] {
      var first := FirstOrCreate(rows, userID, ids[0], now);
      assert HasRead(first, reader, id) <==> HasRead(rows, reader, id) || (reader == userID && id == ids[0]) by {
        if HasRead(rows, reader, id) {
          var r :| r in rows && r.userID == reader && r.messageID == id;
          assert r in first;
        }
        assert !HasRead(rows, userID, ids[0]) ==> Receipt(ids[0], userID, now) in first;
      }
      MarkReads(first, userID, ids[1..], now, reader, id);
    }
  }

  /** Receipts are never lost or altered, so the first read time stays; and there is one per reader. */
  lemma {:induction false} MarkKeepsReceipts(rows: set<Receipt>, userID: string, ids: seq<string>, now: int)
    requires OnePerReader(rows)
    ensures rows <= Mark(rows, userID, ids, now) && OnePerReader(Mark(rows, userID, ids, now))
    ensures forall r :: r in Mark(rows, userID, ids, now) && r !in rows ==>
              r.userID == userID && r.messageID in ids && r.readAt == now && !HasRead(rows, userID, r.messageID)
    decreases |ids|
  {
    if ids != [] {
      var first := FirstOrCreate(rows, userID, ids[0], now);
      MarkKeepsReceipts(first, userID, ids[1..], now);
      forall r | r in Mark(rows, userID, ids, now) && r !in rows &&
                 r in Mark(first, userID, ids[1..], now) && r !in first
        ensures !HasRead(rows, userID, r.messageID)
      {
        assert !HasRead(first, userID, r.messageID);
      }
    }
  }

  lemma {:induction false} MarkNothingNew(rows: set<Receipt>, userID: string, ids: seq<string>, now: int)
    requires forall id :: id in ids ==> HasRead(rows, userID, id)
    ensures Mark(rows, userID, ids, now) == rows
    decreases |ids|
  {
    if ids != [] {
      assert ids[0] in ids;
      MarkNothingNew(rows, userID, ids[1..], now);
    }
  }

  /** Marking the same list again, at any later time, changes nothing. */
  lemma MarkIdempotent(rows: set<Receipt>, userID: string, ids: seq<string>, now: int, later: int)
    ensures Mark(Mark(rows, userID, ids, now), userID, ids, later) == Mark(rows, userID, ids, now)
  {
    forall id | id in ids
      ensures HasRead(Mark(rows, userID, ids, now), userID, id)
    {
      MarkReads(rows, userID, ids, now, userID, id);
    }
    MarkNothingNew(Mark(rows, userID, ids, now), userID, ids, later);
  }

  /**
   Exact accounting: marking any list, with repeats and unknown ids, lowers the unread count of any
   conversation by the number of distinct listed ids that were unread there, and leaves the counts
   of other users alone.
   */
  lemma MarkUnreadExact(messages: map<string, Message>, rows: set<Receipt>, userID: string, ids: seq<string>, now: int,
                        reader: string, groupID: Option<string>, otherUserID: Option<string>)
    ensures var before := Unread(messages, rows, reader, groupID, otherUserID);
            var after := Unread(messages, Mark(rows, userID, ids, now), reader, groupID, otherUserID);
            var marked := if reader == userID then set id | id in ids && id in before else {};
            after == before - marked && |after| == |before| - |marked|
  {
    var before := Unread(messages, rows, reader, groupID, otherUserID);
    var after := Unread(messages, Mark(rows, userID, ids, now), reader, groupID, otherUserID);
    var marked := if reader == userID then set id | id in ids && id in before else {};
    forall id: string
      ensures id in after <==> id in before && id !in marked
    {
      MarkReads(rows, userID, ids, now, reader, id);
    }
    SubsetRemoved(before, marked, after);
  }

  lemma SubsetRemoved(before: set<string>, marked: set<string>, after: set<string>)
    requires marked <= before && forall id :: id in after <==> id in before && id !in marked
    ensures after == before - marked && |after| == |before| - |marked|
  {
    assert after == before - marked;
  }
}
