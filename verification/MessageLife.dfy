/**
 The life of a message over every run of `MessageRuns`: its status, its content, its deletion, and who
 sees it in the history of a conversation.
 */
module MessageLife {
  import opened Common
  import opened Messages
  import opened MessageRuns

  // ---------- One step ----------

  /** The event writes "delivered" for a message that some recipient's queue took. */
  predicate MarksDelivered(s: State, e: Event, id: string) {
    || e.action == MarkDelivered(id)
    || (e.action == Mark(id) && s.tick.InTick? && s.tick.stage == Handed(id, true))
  }

  predicate WritesContent(s: State, e: Event, id: string) {
    e.action.WriteEdit? && e.action.edit in s.edits && s.edits[e.action.edit].id == id
  }

  /** The recipient acknowledges the message as read, or opens the history with its sender. */
  predicate ReadsIt(e: Event, id: string, sender: string, recipient: Option<string>) {
    || (e.action.AckRead? && e.action.id == id && recipient == Some(e.action.user))
    || (e.action.ReadHistory? && recipient == Some(e.action.user) && sender == e.action.other)
  }

  /** The sender deletes the message for everyone, or a sweep finds it live and expired. */
  predicate DeletesIt(e: Event, id: string, r: Row) {
    || (e.action.DeleteForEveryone? && e.action.id == id && id != "" && e.action.user == r.sender)
    || (e.action.Cleanup? && r.deletedAt.None? && r.expiresAt.Some? && r.expiresAt.value < e.read)
  }

  /** The sender cancels the message, by the clock reading before its time. */
  predicate CancelsIt(e: Event, id: string, r: Row) {
    && e.action.Cancel? && e.action.id == id && e.action.user == r.sender
    && r.scheduledAt.Some? && r.scheduledAt.value > e.read
  }

  lemma StepRemoves(s: State, e: Event, id: string)
    requires Enabled(s, e) && id in s.rows && id in s.used
    ensures id !in Apply(s, e).rows <==> CancelsIt(e, id, s.rows[id])
  {
  }

  lemma StepStatus(s: State, e: Event, id: string)
    requires Enabled(s, e) && id in s.rows && id in s.used && id in Apply(s, e).rows
    ensures var r, r' := s.rows[id], Apply(s, e).rows[id];
            && r'.status == (if MarksDelivered(s, e, id) then Delivered
                             else if ReadsIt(e, id, r.sender, r.recipient) then Read else r.status)
            && r'.scheduledAt == (if e.action == Clear(id) then None else r.scheduledAt)
            && r'.deletedAt == (if DeletesIt(e, id, r) then Some(e.read) else r.deletedAt)
  {
  }

  lemma StepContent(s: State, e: Event, id: string)
    requires Enabled(s, e) && id in s.rows && id in s.used && id in Apply(s, e).rows
    ensures var r, r' := s.rows[id], Apply(s, e).rows[id];
            && r'.content == (if WritesContent(s, e, id) then s.edits[e.action.edit].content else r.content)
            && r'.editedAt == (if WritesContent(s, e, id) then Some(e.read) else r.editedAt)
            && r'.sender == r.sender && r'.recipient == r.recipient && r'.group == r.group
            && r'.expiresAt == r.expiresAt
  {
  }

  /**
   One step, field by field. A message goes only when its sender cancels it before its time. It
   becomes read when its recipient acknowledges it or opens the history with its sender, and
   "delivered" when that is marked, even if it has been read; its content and edit time change only
   by the write of an edit; it is deleted by its sender or by a sweep after its expiry; only the
   scheduler takes its schedule away. Who it is from and for, and its expiry, never change.
   */
  lemma {:induction false} StepLifecycle(s: State, e: Event, id: string)
    requires Enabled(s, e) && id in s.rows && id in s.used
    ensures var r := s.rows[id];
            && (id !in Apply(s, e).rows <==> CancelsIt(e, id, r))
            && (id in Apply(s, e).rows ==>
                 var r', edited := Apply(s, e).rows[id], WritesContent(s, e, id);
                 && r'.status == (if MarksDelivered(s, e, id) then Delivered
                                  else if ReadsIt(e, id, r.sender, r.recipient) then Read else r.status)
                 && r'.content == (if edited then s.edits[e.action.edit].content else r.content)
                 && r'.editedAt == (if edited then Some(e.read) else r.editedAt)
                 && r'.deletedAt == (if DeletesIt(e, id, r) then Some(e.read) else r.deletedAt)
                 && r'.scheduledAt == (if e.action == Clear(id) then None else r.scheduledAt)
                 && r'.sender == r.sender && r'.recipient == r.recipient && r'.group == r.group
                 && r'.expiresAt == r.expiresAt)
  {
    StepRemoves(s, e, id);
    if id in Apply(s, e).rows {
      StepStatus(s, e, id);
      StepContent(s, e, id);
    }
  }

  // ---------- Any stretch of any run ----------

  /** Event `j` of the run marks a message as delivered that its recipient had already read. */
  ghost predicate LateMark(start: int, es: seq<Event>, j: nat, id: string) {
    && j < |es| && MarksDelivered(After(start, es[..j]), es[j], id)
    && id in After(start, es[..j]).rows && After(start, es[..j]).rows[id].status == Read
  }

  ghost predicate WritesAt(start: int, es: seq<Event>, j: nat, edit: nat, id: string) {
    j < |es| && es[j].action == WriteEdit(edit) && WritesContent(After(start, es[..j]), es[j], id)
  }

  /** The event loads a live message of the user who asks, to give it new content. */
  predicate Loads(s: State, e: Event, edit: nat, id: string) {
    && e.action.LoadEdit? && e.action.edit == edit && e.action.id == id && id != "" && e.action.content != ""
    && id in s.rows && s.rows[id].sender == e.action.user && s.rows[id].deletedAt.None?
  }

  /** Event `i` of the run loads the message for an edit. */
  ghost predicate LoadsAt(start: int, es: seq<Event>, i: nat, edit: nat, id: string) {
    i < |es| && Loads(After(start, es[..i]), es[i], edit, id)
  }

  /** An edit is in flight from its load to its write, and keeps what it was loaded with. */
  lemma {:induction false} StepEdits(s: State, e: Event, edit: nat)
    requires s.edits.Keys <= s.begun && Enabled(s, e)
    ensures Apply(s, e).edits.Keys <= Apply(s, e).begun
    ensures edit in Apply(s, e).edits <==>
              (edit in s.edits && e.action != WriteEdit(edit))
              || (e.action.LoadEdit? && Loads(s, e, edit, e.action.id))
    ensures edit in Apply(s, e).edits ==>
              Apply(s, e).edits[edit] == if edit in s.edits then s.edits[edit]
                                         else Edit(e.action.id, e.action.user, e.action.content)
  {
  }

  /** An edit in flight has loaded its message while it was live, for its sender. */
  lemma {:induction false} EditHasLoaded(start: int, es: seq<Event>, edit: nat, id: string)
    requires Possible(start, es)
    ensures After(start, es).edits.Keys <= After(start, es).begun
    ensures edit in After(start, es).edits && After(start, es).edits[edit].id == id ==>
              exists i: nat :: LoadsAt(start, es, i, edit, id)
    decreases |es|
  {
    if es != [] {
      EditHasLoaded(start, Before(es), edit, id);
      StepEdits(After(start, Before(es)), Last(es), edit);
      if edit in After(start, es).edits && After(start, es).edits[edit].id == id {
        if edit in After(start, Before(es)).edits {
          var i: nat :| LoadsAt(start, Before(es), i, edit, id);
          assert Before(es)[..i] == es[..i];
          assert LoadsAt(start, es, i, edit, id);
        } else {
          assert es[..|es| - 1] == Before(es);
          assert LoadsAt(start, es, |es| - 1, edit, id);
        }
      }
    }
  }

  lemma {:induction false} PrefixPossible(start: int, es: seq<Event>, p: nat)
    requires Possible(start, es) && p <= |es|
    ensures Possible(start, es[..p])
    decreases |es|
  {
    if p == |es| {
      assert es[..p] == es;
    } else {
      PrefixPossible(start, Before(es), p);
      assert Before(es)[..p] == es[..p];
    }
  }

  /** Over any stretch of any run, from its first `k` events to its end. */
  lemma {:induction false} RunLifecycle(start: int, es: seq<Event>, k: nat, id: string)
    requires Possible(start, es) && k <= |es|
    requires id in After(start, es[..k]).rows && id in After(start, es).rows
    ensures var r, r' := After(start, es[..k]).rows[id], After(start, es).rows[id];
            && r'.sender == r.sender && r'.recipient == r.recipient && r'.group == r.group
            && (r.deletedAt.Some? ==> r'.deletedAt.Some?)
            && (Rank(r'.status) < Rank(r.status) ==> exists j: nat :: k <= j && LateMark(start, es, j, id))
            && (r'.content != r.content ==> exists j: nat, edit: nat :: k <= j && WritesAt(start, es, j, edit, id))
    decreases |es|
  {
    if k == |es| {
      assert es[..k] == es;
    } else {
      assert Before(es)[..k] == es[..k] && es[..|es| - 1] == Before(es);
      RowStays(start, es, k, id);
      RunLifecycle(start, Before(es), k, id);
      RunQueueConsistent(start, Before(es));
      StepLifecycle(After(start, Before(es)), Last(es), id);
      LateMarkStays(start, es, k, id);
      WriteStays(start, es, k, id);
    }
  }

  lemma LateMarkStays(start: int, es: seq<Event>, k: nat, id: string)
    requires es != [] && k < |es|
    ensures (exists j: nat :: k <= j && LateMark(start, es, j, id)) <==>
            (exists j: nat :: k <= j && LateMark(start, Before(es), j, id)) || LateMark(start, es, |es| - 1, id)
  {
    assert forall j :: 0 <= j <= |Before(es)| ==> Before(es)[..j] == es[..j];
    assert forall j: nat :: j < |Before(es)| ==> (LateMark(start, Before(es), j, id) <==> LateMark(start, es, j, id));
  }

  lemma WriteStays(start: int, es: seq<Event>, k: nat, id: string)
    requires es != [] && k < |es|
    ensures (exists j: nat, edit: nat :: k <= j && WritesAt(start, Before(es), j, edit, id)) ==>
            (exists j: nat, edit: nat :: k <= j && WritesAt(start, es, j, edit, id))
    ensures WritesContent(After(start, es[..|es| - 1]), Last(es), id) ==>
            WritesAt(start, es, |es| - 1, Last(es).action.edit, id)
  {
    assert forall j :: 0 <= j <= |Before(es)| ==> Before(es)[..j] == es[..j];
    assert forall j: nat, edit: nat :: WritesAt(start, Before(es), j, edit, id) ==> WritesAt(start, es, j, edit, id);
  }

  /** A row that is there at two moments was there in between: ids are not reused. */
  lemma RowStays(start: int, es: seq<Event>, k: nat, id: string)
    requires Possible(start, es) && k < |es|
    requires id in After(start, es[..k]).rows && id in After(start, es).rows
    ensures id in After(start, Before(es)).rows
  {
    assert Before(es)[..k] == es[..k];
    UsedForGood(start, Before(es), k, id);
    NotCreatedAgain(After(start, Before(es)), Last(es), id);
  }

  lemma NotCreatedAgain(s: State, e: Event, id: string)
    requires Enabled(s, e) && id in s.used && id in Apply(s, e).rows
    ensures id in s.rows
  {
  }

  lemma {:induction false} UsedForGood(start: int, es: seq<Event>, k: nat, id: string)
    requires Possible(start, es) && k <= |es| && id in After(start, es[..k]).rows
    ensures id in After(start, es).used
    decreases |es|
  {
    RunQueueConsistent(start, es);
    if k < |es| {
      assert Before(es)[..k] == es[..k];
      UsedForGood(start, Before(es), k, id);
    } else {
      assert es[..k] == es;
    }
  }

  lemma {:induction false} RowStaysUntil(start: int, es: seq<Event>, k: nat, i: nat, id: string)
    requires Possible(start, es) && k <= i <= |es|
    requires id in After(start, es[..k]).rows && id in After(start, es).rows
    ensures id in After(start, es[..i]).rows
    decreases |es|
  {
    if i == |es| {
      assert es[..i] == es;
    } else {
      RowStays(start, es, k, id);
      assert Before(es)[..k] == es[..k] && Before(es)[..i] == es[..i];
      RowStaysUntil(start, Before(es), k, i, id);
    }
  }

  /**
   The content of a deleted message changes only by an edit that loaded the message before it was
   deleted and is written after.
   */
  lemma DeletedContentChange(start: int, es: seq<Event>, k: nat, id: string)
    requires Possible(start, es) && k <= |es|
    requires id in After(start, es[..k]).rows && id in After(start, es).rows
    requires After(start, es[..k]).rows[id].deletedAt.Some?
    requires After(start, es).rows[id].content != After(start, es[..k]).rows[id].content
    ensures exists i: nat, j: nat, edit: nat ::
              i < k <= j && LoadsAt(start, es, i, edit, id) && WritesAt(start, es, j, edit, id)
  {
    RunLifecycle(start, es, k, id);
    var j: nat, edit: nat :| k <= j && WritesAt(start, es, j, edit, id);
    var i := LoadOf(start, es, j, edit, id);
    if i >= k {
      NotLoadedSince(start, es, k, i, edit, id);
    }
  }

  lemma LoadOf(start: int, es: seq<Event>, j: nat, edit: nat, id: string) returns (i: nat)
    requires Possible(start, es) && WritesAt(start, es, j, edit, id)
    ensures LoadsAt(start, es, i, edit, id)
  {
    PrefixPossible(start, es, j);
    EditHasLoaded(start, es[..j], edit, id);
    i :| LoadsAt(start, es[..j], i, edit, id);
    assert es[..j][..i] == es[..i];
  }

  /** Once deleted, a message is not loaded for an edit any more. */
  lemma NotLoadedSince(start: int, es: seq<Event>, k: nat, i: nat, edit: nat, id: string)
    requires Possible(start, es) && k <= i <= |es|
    requires id in After(start, es[..k]).rows && id in After(start, es).rows
    requires After(start, es[..k]).rows[id].deletedAt.Some?
    ensures !LoadsAt(start, es, i, edit, id)
  {
    RowStaysUntil(start, es, k, i, id);
    PrefixPossible(start, es, i);
    assert es[..i][..k] == es[..k];
    RunLifecycle(start, es[..i], k, id);
  }

  const LOADED := SCHEDULED + [Event(1, 1, LoadEdit(0, "m", "alice", "bye"))]

  /** An edit loaded before the deletion still changes the content of the deleted message. */
  lemma EditedAfterDeletion()
    ensures var es := LOADED + [Event(2, 2, DeleteForEveryone("m", "alice"))];
            var es' := es + [Event(3, 3, WriteEdit(0))];
            && Possible(0, es') && "m" in After(0, es).rows && "m" in After(0, es').rows
            && After(0, es).rows["m"].deletedAt == Some(2) && After(0, es).rows["m"].content == "hello"
            && After(0, es').rows["m"].content == "bye"
  {
    OneScheduled();
    Extend(0, SCHEDULED, Event(1, 1, LoadEdit(0, "m", "alice", "bye")));
    assert After(0, LOADED).edits == map[0 := Edit("m", "alice", "bye")];
    Extend(0, LOADED, Event(2, 2, DeleteForEveryone("m", "alice")));
    Extend(0, LOADED + [Event(2, 2, DeleteForEveryone("m", "alice"))], Event(3, 3, WriteEdit(0)));
  }

  // ---------- Deliveries that nothing interrupts ----------

  /** Between handing a message over and writing its status, nothing else happens. */
  ghost predicate Uninterrupted(start: int, es: seq<Event>)
    decreases |es|
  {
    es == [] ||
    (Uninterrupted(start, Before(es)) &&
     var s, a := After(start, Before(es)), Last(es).action;
     && (s.tick.InTick? ==> a.Clear? || a.Hand? || a.Mark?)
     && (s.unmarked != {} ==> a.MarkDelivered?))
  }

  /** Whatever is about to be marked as delivered is still "sent". */
  ghost predicate UnmarkedIsSent(s: State) {
    && (forall id :: Queued(s, id) ==> id in s.rows && s.rows[id].status == Sent)
    && (s.tick.InTick? && s.tick.stage.Handed? && s.tick.stage.id in s.rows ==>
         s.rows[s.tick.stage.id].status == Sent && !Queued(s, s.tick.stage.id))
    && (forall id :: id in s.unmarked ==> id in s.rows && s.rows[id].status == Sent && s.tick.NoTick?)
    && (forall id, id' :: id in s.unmarked && id' in s.unmarked ==> id == id')
  }

  lemma StepUnmarkedIsSent(s: State, e: Event)
    requires UnmarkedIsSent(s) && QueueConsistent(s) && Enabled(s, e)
    requires s.tick.InTick? ==> e.action.Clear? || e.action.Hand? || e.action.Mark?
    requires s.unmarked != {} ==> e.action.MarkDelivered?
    ensures UnmarkedIsSent(Apply(s, e))
  {
  }

  lemma {:induction false} RunUnmarkedIsSent(start: int, es: seq<Event>)
    requires Possible(start, es) && Uninterrupted(start, es)
    ensures UnmarkedIsSent(After(start, es))
    decreases |es|
  {
    if es != [] {
      RunUnmarkedIsSent(start, Before(es));
      RunQueueConsistent(start, Before(es));
      StepUnmarkedIsSent(After(start, Before(es)), Last(es));
    }
  }

  /** With uninterrupted deliveries a status only ever rises. */
  lemma {:induction false} StatusOnlyRises(start: int, es: seq<Event>, k: nat, id: string)
    requires Possible(start, es) && Uninterrupted(start, es) && k <= |es|
    requires id in After(start, es[..k]).rows && id in After(start, es).rows
    ensures Rank(After(start, es[..k]).rows[id].status) <= Rank(After(start, es).rows[id].status)
    decreases |es|
  {
    if k == |es| {
      assert es[..k] == es;
    } else {
      assert Before(es)[..k] == es[..k];
      RowStays(start, es, k, id);
      StatusOnlyRises(start, Before(es), k, id);
      RunQueueConsistent(start, Before(es));
      RunUnmarkedIsSent(start, Before(es));
      StepLifecycle(After(start, Before(es)), Last(es), id);
    }
  }

  const TAKEN := [Event(0, 0, Post("d", PENDING.(scheduledAt := None), true))]

  /** A direct message that its recipient reads at once falls back to "delivered". */
  lemma ReadThenDelivered()
    ensures var es := TAKEN + [Event(1, 1, AckRead("d", "bob"))];
            var es' := es + [Event(2, 2, MarkDelivered("d"))];
            && Possible(0, es') && "d" in After(0, es).rows && "d" in After(0, es').rows
            && After(0, es).rows["d"].status == Read && After(0, es').rows["d"].status == Delivered
  {
    assert TAKEN == [] + [TAKEN[0]];
    Extend(0, [], TAKEN[0]);
    Extend(0, TAKEN, Event(1, 1, AckRead("d", "bob")));
    Extend(0, TAKEN + [Event(1, 1, AckRead("d", "bob"))], Event(2, 2, MarkDelivered("d")));
  }

  // ---------- Who sees a message ----------

  /** The row a message was created with. */
  function Created(es: seq<Event>, id: string): Option<Row>
    decreases |es|
  {
    if es == [] then None
    else
      match Last(es).action
      case Schedule(id', row) => if id' == id then Some(row) else Created(Before(es), id)
      case Post(id', row, _) => if id' == id then Some(row) else Created(Before(es), id)
      case _ => Created(Before(es), id)
  }

  /** A tick has cleared the message's schedule. */
  predicate ClearedIn(es: seq<Event>, id: string)
    decreases |es|
  {
    es != [] && (Last(es).action == Clear(id) || ClearedIn(Before(es), id))
  }

  /** Its sender cancelled the message, by the clock before its time, and before a tick cleared it. */
  predicate CancelledInTime(es: seq<Event>, id: string)
    decreases |es|
  {
    es != [] &&
    (CancelledInTime(Before(es), id) || CancelsInTime(Created(Before(es), id), ClearedIn(Before(es), id), Last(es), id))
  }

  predicate CancelsInTime(created: Option<Row>, cleared: bool, e: Event, id: string) {
    && e.action.Cancel? && e.action.id == id && !cleared
    && created.Some? && CancelsIt(e, id, created.value)
  }

  /** The state against what the history says about one message. */
  ghost predicate Reflects(s: State, id: string, created: Option<Row>, cancelled: bool, cleared: bool) {
    && (created.Some? <==> id in s.used)
    && (cancelled ==> created.Some?)
    && (id in s.rows <==> created.Some? && !cancelled)
    && (id in s.rows ==>
         var r, c := s.rows[id], created.value;
         && r.sender == c.sender && r.recipient == c.recipient && r.group == c.group
         && r.scheduledAt == if cleared then None else c.scheduledAt)
    && (created.None? ==> !cleared)
  }

  /** The row an event creates the message with, if it creates it. */
  function CreatedBy(e: Event, id: string, earlier: Option<Row>): Option<Row> {
    if (e.action.Schedule? || e.action.Post?) && e.action.id == id then Some(e.action.row) else earlier
  }

  lemma StepReflects(s: State, e: Event, id: string, created: Option<Row>, cancelled: bool, cleared: bool)
    requires Reflects(s, id, created, cancelled, cleared) && QueueConsistent(s) && Enabled(s, e)
    ensures Reflects(Apply(s, e), id, CreatedBy(e, id, created),
                     cancelled || CancelsInTime(created, cleared, e, id), cleared || e.action == Clear(id))
  {
    if e.action.Clear? {
      assert QueuedRow(s, 0);
    }
  }

  lemma {:induction false} RunReflects(start: int, es: seq<Event>, id: string)
    requires Possible(start, es)
    ensures Reflects(After(start, es), id, Created(es, id), CancelledInTime(es, id), ClearedIn(es, id))
    decreases |es|
  {
    if es != [] {
      RunReflects(start, Before(es), id);
      RunQueueConsistent(start, Before(es));
      StepReflects(After(start, Before(es)), Last(es), id, Created(Before(es), id), CancelledInTime(Before(es), id),
                   ClearedIn(Before(es), id));
    }
  }

  /**
   Who sees a message when: at any moment, a conversation's history lists exactly the messages
   created in it that were not cancelled before their time, scheduled, deleted and expired ones
   included.
   */
  lemma ListedIff(start: int, es: seq<Event>, id: string, user: string, other: string)
    requires Possible(start, es)
    ensures id in History(After(start, es).rows, user, other) <==>
            && Created(es, id).Some? && !CancelledInTime(es, id)
            && var r := Created(es, id).value;
               && r.group.None? && r.recipient.Some?
               && (r.sender, r.recipient.value) in {(user, other), (other, user)}
  {
    RunReflects(start, es, id);
  }

  lemma {:induction false} HandedAfterDue(start: int, es: seq<Event>, id: string)
    requires Possible(start, es)
    ensures HandedCount(es, id) > 0 ==>
              ScheduledFor(es, id).Some? && ScheduledFor(es, id).value <= After(start, es).now
    decreases |es|
  {
    if es != [] {
      HandedAfterDue(start, Before(es), id);
      HandedAtMostOnce(start, Before(es), id);
      if Last(es).action.Hand? && Last(es).action.id == id {
        NeverHandedEarly(start, es);
      }
    }
  }

  lemma {:induction false} ScheduledForIsCreated(start: int, es: seq<Event>, id: string)
    requires Possible(start, es) && ScheduledFor(es, id).Some?
    ensures Created(es, id).Some? && Created(es, id).value.scheduledAt == ScheduledFor(es, id)
    decreases |es|
  {
    RunReflects(start, Before(es), id);
    if !(Last(es).action.Schedule? && Last(es).action.id == id) {
      ScheduledForIsCreated(start, Before(es), id);
    }
  }

  /** Before its time a scheduled direct message is not delivered, but its recipient's history lists it. */
  lemma ListedBeforeDue(start: int, es: seq<Event>, id: string)
    requires Possible(start, es) && Created(es, id).Some? && !CancelledInTime(es, id)
    requires var r := Created(es, id).value;
             r.group.None? && r.recipient.Some? && r.scheduledAt.Some? && After(start, es).now < r.scheduledAt.value
    ensures var r := Created(es, id).value;
            id in History(After(start, es).rows, r.recipient.value, r.sender) && HandedCount(es, id) == 0
  {
    ListedIff(start, es, id, Created(es, id).value.recipient.value, Created(es, id).value.sender);
    HandedAfterDue(start, es, id);
    if HandedCount(es, id) > 0 {
      ScheduledForIsCreated(start, es, id);
      assert false;
    }
  }
}
