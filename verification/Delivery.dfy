/**
 Handling one incoming chat message: the row that is stored, the frames that are queued, the
 acknowledgement the sender gets, and the users that are sent a push notification.
 */
module Delivery {
  import opened Common
  import opened WebSocketHub
  import opened HubFanOut
  import opened Messages

  const BOT_USER_ID := "bot-assistant"

  /**
   What a handler is given: the generated row id, the encoded frame, whether the row can be created,
   the conversation's disappearing timer and the clock.
   */
  datatype Request = Request(
    sender: string, content: string, frame: Frame, id: string, saves: bool, disappearingSeconds: int, now: int)

  /**
   `Acked` is what the handler writes to the sender's own channel: for the bot an echo of the
   message, then the acknowledgement. `pushed` are the users who get a push notification.
   */
  datatype Outcome = Refused | SaveFailed | Acked(echo: Option<Frame>, status: Status, pushed: seq<string>)

  /** What the goroutine that asks the bot is given: whether the bot answers and the answer's row is created. */
  datatype BotReply = BotReply(user: string, content: string, frame: Frame, id: string, answers: bool, saves: bool)

  function ExpiryOf(q: Request): Option<int> {
    if q.disappearingSeconds > 0 then Some(q.now + q.disappearingSeconds) else None
  }

  function DirectRow(q: Request, to: string, expiresAt: Option<int>, status: Status): Row {
    Row(q.sender, Some(to), None, q.content, status, None, None, None, expiresAt)
  }

  function GroupRow(q: Request, group: string, status: Status): Row {
    Row(q.sender, None, Some(group), q.content, status, None, None, None, ExpiryOf(q))
  }

  function StatusOf(delivered: bool): Status {
    if delivered then Delivered else Sent
  }

  /** A message to the bot: the row stays as created. */
  function BotStep(rows: Table, q: Request): (Table, Outcome) {
    if q.saves then (rows[q.id := DirectRow(q, BOT_USER_ID, None, Sent)], Acked(Some(q.frame), Delivered, []))
    else (rows, SaveFailed)
  }

  function BotReplyRow(r: BotReply): Row {
    Row(BOT_USER_ID, Some(r.user), None, r.content, Delivered, None, None, None, None)
  }

  /** The bot's answer, later: stored as delivered before the frame is sent. */
  function BotReplyStep(h: HubData, rows: Table, r: BotReply): (HubData, Table)
    requires Wired(h)
  {
    if r.answers && r.saves then (Deliver(h, r.user, r.frame), rows[r.id := BotReplyRow(r)]) else (h, rows)
  }

  /** A direct message; `blocked` says whether either user blocks the other. */
  function DirectStep(h: HubData, rows: Table, q: Request, to: string, blocked: bool): (HubData, Table, Outcome)
    requires Wired(h)
  {
    if to == BOT_USER_ID then
      var (rows', reply) := BotStep(rows, q);
      (h, rows', reply)
    else if blocked then (h, rows, Refused)
    else if !q.saves then (h, rows, SaveFailed)
    else
      var status := StatusOf(Accepts(h, to));
      (Deliver(h, to, q.frame), rows[q.id := DirectRow(q, to, ExpiryOf(q), status)],
       Acked(None, status, if status == Delivered then [] else [to]))
  }

  /** A group message; `members` are the membership rows of the group. */
  function GroupStep(h: HubData, rows: Table, q: Request, group: string, members: seq<string>)
    : (HubData, Table, Outcome)
    requires Wired(h)
  {
    if q.sender !in members then (h, rows, Refused)
    else if !q.saves then (h, rows, SaveFailed)
    else
      var (h', sent) := FanOut(h, members, q.sender, q.frame);
      var status := StatusOf(sent > 0);
      (h', rows[q.id := GroupRow(q, group, status)], Acked(None, status, OfflineMembers(h', members, q.sender)))
  }

  lemma UpdateTwice(rows: Table, id: string, r: Row, r': Row)
    ensures rows[id := r][id := r'] == rows[id := r']
  {
  }

  class ChatServer {
    const hub: Hub
    var rows: Table

    constructor (hub: Hub)
      ensures this.hub == hub && rows == map[]
    {
      this.hub := hub;
      rows := map[];
    }

    method HandleDirectMessage(q: Request, to: string, blocked: bool) returns (reply: Outcome)
      requires hub.Valid()
      modifies `rows, hub`Data, hub.Objects.Values
      ensures hub.Valid()
      ensures (hub.Data, rows, reply) == DirectStep(old(hub.Data), old(rows), q, to, blocked)
    {
      if to == BOT_USER_ID {
        reply := HandleBotMessage(q);
        return;
      }
      if blocked {
        return Refused;
      }
      if !q.saves {
        return SaveFailed;
      }
      var sent := SendDirect(q, to);
      return Acked(None, StatusOf(sent), if sent then [] else [to]);
    }

    /** Creates the row, sends the frame, and marks the row when the frame was taken. */
    method SendDirect(q: Request, to: string) returns (sent: bool)
      requires hub.Valid()
      modifies `rows, hub`Data, hub.Objects.Values
      ensures hub.Valid() && hub.Data == Deliver(old(hub.Data), to, q.frame) && sent == Accepts(old(hub.Data), to)
      ensures rows == old(rows)[q.id := DirectRow(q, to, ExpiryOf(q), StatusOf(sent))]
    {
      var message := DirectRow(q, to, ExpiryOf(q), Sent);
      ghost var before := rows;
      Save(q.id, message);
      sent := hub.SendToUser(to, q.frame);
      if sent {
        UpdateTwice(before, q.id, message, message.(status := Delivered));
        Save(q.id, message.(status := Delivered));
      }
    }

    /** Writes one row; the hub is not concerned. */
    method Save(id: string, row: Row)
      requires hub.Valid()
      modifies `rows
      ensures hub.Valid() && rows == old(rows)[id := row]
    {
      rows := rows[id := row];
    }

    method HandleBotMessage(q: Request) returns (reply: Outcome)
      modifies `rows
      ensures (rows, reply) == BotStep(old(rows), q)
    {
      if !q.saves {
        return SaveFailed;
      }
      rows := rows[q.id := DirectRow(q, BOT_USER_ID, None, Sent)];
      return Acked(Some(q.frame), Delivered, []);
    }

    /** The goroutine that `handleBotMessage` leaves behind. */
    method AnswerAsBot(r: BotReply)
      requires hub.Valid()
      modifies `rows, hub`Data, hub.Objects.Values
      ensures hub.Valid()
      ensures (hub.Data, rows) == BotReplyStep(old(hub.Data), old(rows), r)
    {
      if !r.answers || !r.saves {
        return;
      }
      rows := rows[r.id := BotReplyRow(r)];
      var _ := hub.SendToUser(r.user, r.frame);
    }

    method HandleGroupMessage(q: Request, group: string, members: seq<string>) returns (reply: Outcome)
      requires hub.Valid()
      modifies `rows, hub`Data, hub.Objects.Values
      ensures hub.Valid()
      ensures (hub.Data, rows, reply) == GroupStep(old(hub.Data), old(rows), q, group, members)
    {
      if q.sender !in members {
        return Refused;
      }
      var message := GroupRow(q, group, Sent);
      if !q.saves {
        return SaveFailed;
      }
      rows := rows[q.id := message];
      var sentCount := hub.SendToGroup(members, q.sender, q.frame);
      var status := Sent;
      if sentCount > 0 {
        status := Delivered;
        Save(q.id, message.(status := Delivered));
      }
      assert rows == old(rows)[q.id := GroupRow(q, group, status)];
      var offline := hub.GetOfflineGroupMemberIDs(members, q.sender);
      return Acked(None, status, offline);
    }
  }

  lemma OneCopyToOne(h: HubData, to: string, other: string, f: Frame)
    requires Wired(h) && to != other
    ensures OneCopyEach(h, Deliver(h, to, f), [to], other, f)
  {
    FanOutCounts(h, [to], other, f);
    var d := Deliver(h, to, f);
    assert FanOut(h, [to], other, f).0 == FanOut(d, [to][1..], other, f).0 == d;
  }

  /** The row is what the sender asked for, from now on and with the conversation's disappearing timer. */
  predicate IsRowFor(r: Row, q: Request, recipient: Option<string>, group: Option<string>, timed: bool) {
    && r.sender == q.sender && r.content == q.content && r.recipient == recipient && r.group == group
    && r.scheduledAt.None? && r.editedAt.None? && r.deletedAt.None?
    && (r.expiresAt.Some? <==> timed && q.disappearingSeconds > 0)
    && (r.expiresAt.Some? ==> r.expiresAt.value == q.now + q.disappearingSeconds)
  }

  /**
   A direct message is refused exactly when one of the two users blocks the other, and fails exactly
   when its row cannot be created; otherwise exactly one row is added, as asked for. It is
   acknowledged as it is stored, and as delivered exactly when the recipient's queue took it, as its
   only copy; otherwise the recipient gets a push, online or not. A message to the bot is never
   refused; it is acknowledged as delivered and stored as sent.
   */
  lemma DirectOutcome(h: HubData, rows: Table, q: Request, to: string, blocked: bool)
    requires Wired(h)
    ensures var (h', rows', reply) := DirectStep(h, rows, q, to, blocked);
            && (reply == Refused <==> to != BOT_USER_ID && blocked)
            && (reply == SaveFailed <==> (to == BOT_USER_ID || !blocked) && !q.saves)
            && if reply.Acked? then
                 && q.id in rows' && rows' == rows[q.id := rows'[q.id]]
                 && IsRowFor(rows'[q.id], q, Some(to), None, to != BOT_USER_ID)
                 && rows'[q.id].status == (if to == BOT_USER_ID then Sent else reply.status)
                 && reply.status in {Sent, Delivered}
                 && (reply.status == Delivered <==> to == BOT_USER_ID || Accepts(h, to))
                 && OneCopyEach(h, h', [to], BOT_USER_ID, q.frame)
                 && reply.pushed == (if reply.status == Delivered then [] else [to])
                 && reply.echo == (if to == BOT_USER_ID then Some(q.frame) else None)
               else h' == h && rows' == rows
  {
    if to != BOT_USER_ID {
      OneCopyToOne(h, to, BOT_USER_ID, q.frame);
    }
  }

  /**
   The bot's answer is stored exactly when the bot answers and the row can be created: from the bot
   to the user, as delivered. It goes out as one copy at most, without a push.
   */
  lemma BotOutcome(h: HubData, rows: Table, r: BotReply)
    requires Wired(h)
    ensures var (h', rows') := BotReplyStep(h, rows, r);
            if r.answers && r.saves then
              && r.id in rows' && rows' == rows[r.id := rows'[r.id]]
              && rows'[r.id] == Row(BOT_USER_ID, Some(r.user), None, r.content, Delivered, None, None, None, None)
              && forall other :: other != r.user ==> OneCopyEach(h, h', [r.user], other, r.frame)
            else h' == h && rows' == rows
  {
    forall other | other != r.user
      ensures OneCopyEach(h, Deliver(h, r.user, r.frame), [r.user], other, r.frame)
    {
      OneCopyToOne(h, r.user, other, r.frame);
    }
  }

  /**
   A group message is refused exactly when the sender is not a member, and fails exactly when its row
   cannot be created; otherwise exactly one row is added, as asked for. It is acknowledged as
   delivered, and stored so, exactly when some other member's queue took it; each of those gets one
   copy, and exactly the offline members get a push.
   */
  lemma GroupOutcome(h: HubData, rows: Table, q: Request, group: string, members: seq<string>)
    requires Wired(h) && Distinct(members)
    ensures var (h', rows', reply) := GroupStep(h, rows, q, group, members);
            && (reply == Refused <==> q.sender !in members)
            && (reply == SaveFailed <==> q.sender in members && !q.saves)
            && if reply.Acked? then
                 && q.id in rows' && rows' == rows[q.id := rows'[q.id]]
                 && IsRowFor(rows'[q.id], q, None, Some(group), true)
                 && rows'[q.id].status == reply.status
                 && (reply.status == Delivered <==> Accepting(h, members, q.sender) != {})
                 && reply.status in {Sent, Delivered} && reply.echo == None
                 && OneCopyEach(h, h', members, q.sender, q.frame)
                 && Distinct(reply.pushed) && (set m | m in reply.pushed) == Offline(h, members, q.sender)
               else h' == h && rows' == rows
  {
    if q.sender in members && q.saves {
      FanOutConservation(h, members, q.sender, q.frame);
    }
  }
}
