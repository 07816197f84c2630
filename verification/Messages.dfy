/**
 The table of messages and everything that changes it: sending, scheduling, cancelling, editing,
 deleting, reading, the expiry sweep and the scheduler.
 */
module Messages {
  import opened Common

  datatype Status = Sent | Delivered | Read

  function Rank(s: Status): nat {
    match s
    case Sent => 0
    case Delivered => 1
    case Read => 2
  }

  datatype Row = Row(
    sender: string,
    recipient: Option<string>,
    group: Option<string>,
    content: string,
    status: Status,
    scheduledAt: Option<int>,
    editedAt: Option<int>,
    deletedAt: Option<int>,
    expiresAt: Option<int>)

  type Table = map<string, Row>

  // ---------- The scheduler's two guards ----------

  /** What a tick at `now` picks up. */
  predicate Due(r: Row, now: int) {
    r.scheduledAt.Some? && r.scheduledAt.value <= now && r.status == Sent && r.deletedAt.None?
  }

  /** What a user may still cancel at `now`. */
  predicate Cancellable(r: Row, user: string, now: int) {
    r.sender == user && r.scheduledAt.Some? && r.scheduledAt.value > now
  }

  function ClearStep(t: Table, id: string): Table {
    if id in t then t[id := t[id].(scheduledAt := None)] else t
  }

  /** The delivery callback writes the new status only when some recipient took the message. */
  function HandStep(t: Table, id: string, accepted: bool): Table {
    if id in t && accepted then t[id := t[id].(status := Delivered)] else t
  }

  function CancelStep(t: Table, id: string, user: string, now: int): Table {
    if id in t && Cancellable(t[id], user, now) then t - {id} else t
  }

  // ---------- The handlers' changes ----------

  predicate MayEdit(t: Table, id: string, user: string, content: string) {
    id != "" && content != "" && id in t && t[id].sender == user && t[id].deletedAt.None?
  }

  predicate MayDelete(t: Table, id: string, user: string) {
    id != "" && id in t && t[id].sender == user
  }

  function DeleteStep(t: Table, id: string, user: string, now: int): Table {
    if MayDelete(t, id, user) then t[id := t[id].(deletedAt := Some(now))] else t
  }

  function AckReadStep(t: Table, id: string, user: string): Table {
    if id in t && t[id].recipient == Some(user) then t[id := t[id].(status := Read)] else t
  }

  /** Reading the history of a conversation marks what the other user sent as read. */
  function HistoryStep(t: Table, user: string, other: string): Table {
    map id | id in t ::
      if t[id].sender == other && t[id].recipient == Some(user) then t[id].(status := Read) else t[id]
  }

  /** What the history of a conversation lists: neither the schedule nor any deletion matters. */
  predicate Between(r: Row, user: string, other: string) {
    && r.group.None?
    && ((r.sender == user && r.recipient == Some(other)) || (r.sender == other && r.recipient == Some(user)))
  }

  function History(t: Table, user: string, other: string): map<string, Row> {
    map id | id in t && Between(t[id], user, other) :: t[id]
  }

  predicate Expired(r: Row, now: int) {
    r.expiresAt.Some? && r.expiresAt.value < now
  }

  function CleanupStep(t: Table, now: int): Table {
    map id | id in t ::
      if Expired(t[id], now) && t[id].deletedAt.None? then t[id].(deletedAt := Some(now)) else t[id]
  }

  // ---------- The table in place ----------

  datatype EditReply = Edited | EditMissingFields | EditNotFound | EditNotYours | EditDeleted

  datatype DeleteReply = DeletedForAll | DeletedForMe | DeleteMissingId | DeleteNotFound | DeleteNotYours

  class MessageTable {
    var rows: Table
    /** The records of "delete for me": message and user, and when. */
    var deletions: map<(string, string), int>

    constructor ()
      ensures rows == map[] && deletions == map[]
    {
      rows, deletions := map[], map[];
    }

    /** All pages of a conversation, as they were before the reader's visit marked them as read. */
    method GetHistory(userID: string, otherUserID: string) returns (messages: map<string, Row>)
      modifies `rows
      ensures messages == History(old(rows), userID, otherUserID)
      ensures rows == HistoryStep(old(rows), userID, otherUserID)
      ensures forall id :: id in old(rows) ==>
                rows[id] == if old(rows)[id].sender == otherUserID && old(rows)[id].recipient == Some(userID)
                            then old(rows)[id].(status := Read) else old(rows)[id]
    {
      messages := map id | id in rows && Between(rows[id], userID, otherUserID) :: rows[id];
      var unread := set id | id in rows && rows[id].sender == otherUserID && rows[id].recipient == Some(userID)
                             && rows[id].status != Read;
      rows := map id | id in rows :: if id in unread then rows[id].(status := Read) else rows[id];
    }

    /** The query of a tick: the due rows, each once, in whatever order the database gives them. */
    method FindDue(now: int) returns (ids: seq<string>)
      ensures forall id :: id in ids <==>
                && id in rows && rows[id].status == Sent && rows[id].deletedAt.None?
                && rows[id].scheduledAt.Some? && rows[id].scheduledAt.value <= now
      ensures Distinct(ids)
    {
      ids := [];
      var left := rows.Keys;
      while left != {}
        invariant left <= rows.Keys
        invariant forall id :: id in ids <==> id in rows && id !in left && Due(rows[id], now)
        invariant Distinct(ids)
        decreases left
      {
        var id :| id in left;
        left := left - {id};
        if Due(rows[id], now) {
          ids := ids + [id];
        }
      }
    }

    /**
     One tick with nothing in between: exactly the due messages are delivered, each once, and only
     their rows change. `accepts` says which messages some recipient takes.
     */
    method ProcessScheduledMessages(now: int, accepts: set<string>) returns (delivered: seq<string>)
      modifies `rows
      ensures forall id :: id in delivered <==>
                && id in old(rows) && old(rows)[id].status == Sent && old(rows)[id].deletedAt.None?
                && old(rows)[id].scheduledAt.Some? && old(rows)[id].scheduledAt.value <= now
      ensures Distinct(delivered)
      ensures rows == map id | id in old(rows) ::
                        if id !in delivered then old(rows)[id]
                        else old(rows)[id].(scheduledAt := None, status := if id in accepts then Delivered else Sent)
    {
      var messages := FindDue(now);
      delivered := [];
      for i := 0 to |messages|
        invariant delivered == messages[..i]
        invariant rows.Keys == old(rows).Keys
        invariant forall id :: id in rows ==>
                    rows[id] == if id !in delivered then old(rows)[id]
                                else old(rows)[id].(scheduledAt := None,
                                                    status := if id in accepts then Delivered else Sent)
      {
        var id := messages[i];
        assert id !in delivered;
        rows := ClearStep(rows, id);
        delivered := delivered + [id];
        rows := HandStep(rows, id, id in accepts);
      }
      assert delivered == messages;
    }

    method CancelScheduledMessage(messageID: string, userID: string, now: int)
      modifies `rows
      ensures rows == CancelStep(old(rows), messageID, userID, now)
      ensures messageID in rows <==>
                && messageID in old(rows)
                && (old(rows)[messageID].sender == userID && old(rows)[messageID].scheduledAt.Some? ==>
                     old(rows)[messageID].scheduledAt.value <= now)
    {
      if messageID in rows && Cancellable(rows[messageID], userID, now) {
        rows := rows - {messageID};
      }
    }

    method HandleMessageEdit(userID: string, messageID: string, content: string, now: int) returns (reply: EditReply)
      modifies `rows
      ensures reply == Edited <==>
                && messageID != "" && content != ""
                && messageID in old(rows) && old(rows)[messageID].sender == userID
                && old(rows)[messageID].deletedAt.None?
      ensures rows == if reply != Edited then old(rows)
                      else old(rows)[messageID := old(rows)[messageID].(content := content, editedAt := Some(now))]
      ensures reply == EditDeleted ==>
                messageID in rows && rows[messageID].sender == userID && rows[messageID].deletedAt.Some?
      ensures reply == EditNotYours ==> messageID in rows && rows[messageID].sender != userID
      ensures reply == EditNotFound ==> messageID !in rows
    {
      if messageID == "" || content == "" {
        return EditMissingFields;
      }
      if messageID !in rows {
        return EditNotFound;
      }
      var message := rows[messageID];
      if message.sender != userID {
        return EditNotYours;
      }
      if message.deletedAt.Some? {
        return EditDeleted;
      }
      rows := rows[messageID := message.(content := content, editedAt := Some(now))];
      return Edited;
    }

    method HandleMessageDelete(userID: string, messageID: string, forMe: bool, now: int) returns (reply: DeleteReply)
      modifies this
      ensures deletions == if forMe && messageID != "" && messageID in rows && (messageID, userID) !in old(deletions)
                           then old(deletions)[(messageID, userID) := now] else old(deletions)
      ensures reply == DeletedForAll <==>
                !forMe && messageID != "" && messageID in old(rows) && old(rows)[messageID].sender == userID
      ensures rows == if reply != DeletedForAll then old(rows)
                      else old(rows)[messageID := old(rows)[messageID].(deletedAt := Some(now))]
      ensures reply == DeletedForMe <==> forMe && messageID != "" && messageID in rows
      ensures reply == DeleteNotYours ==> messageID in rows && rows[messageID].sender != userID
      ensures reply == DeleteNotFound ==> messageID !in rows
    {
      if messageID == "" {
        return DeleteMissingId;
      }
      if messageID !in rows {
        return DeleteNotFound;
      }
      if forMe {
        // The unique index refuses a second record.
        if (messageID, userID) !in deletions {
          deletions := deletions[(messageID, userID) := now];
        }
        return DeletedForMe;
      }
      var message := rows[messageID];
      if message.sender != userID {
        return DeleteNotYours;
      }
      rows := rows[messageID := message.(deletedAt := Some(now))];
      return DeletedForAll;
    }

    /** Afterwards no live message has expired. */
    method CleanupExpiredMessages(now: int)
      modifies `rows
      ensures rows == CleanupStep(old(rows), now)
      ensures forall id :: id in rows && rows[id].deletedAt.None? ==>
                rows[id].expiresAt.Some? ==> rows[id].expiresAt.value >= now
      ensures forall id :: id in old(rows) && rows[id] != old(rows)[id] ==>
                && old(rows)[id].deletedAt.None? && old(rows)[id].expiresAt.Some? && old(rows)[id].expiresAt.value < now
                && rows[id] == old(rows)[id].(deletedAt := Some(now))
    {
      rows := map id | id in rows ::
        if Expired(rows[id], now) && rows[id].deletedAt.None? then rows[id].(deletedAt := Some(now)) else rows[id];
    }
  }
}
