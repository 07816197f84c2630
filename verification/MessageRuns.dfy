/**
 Every interleaving of the scheduler with users and sweeps.

 Each event is one database statement (or one send), and carries the time at which it runs and the
 clock reading that its handler goes by, which may be older. A tick of the scheduler is a snapshot of
 the due messages followed, message by message, by a step that clears its schedule, a step that sends
 it, and a step that writes its new status. An edit loads the message and writes it later.
 */
module MessageRuns {
  import opened Common
  import opened Messages

  datatype Action =
    | Schedule(id: string, row: Row)
    | Post(id: string, row: Row, accepted: bool)
    | MarkDelivered(id: string)
    | Cancel(id: string, user: string)
    | LoadEdit(edit: nat, id: string, user: string, content: string)
    | WriteEdit(edit: nat)
    | DeleteForEveryone(id: string, user: string)
    | AckRead(id: string, user: string)
    | ReadHistory(user: string, other: string)
    | Cleanup
    | Snapshot(order: seq<string>)
    | Clear(id: string)
    | Hand(id: string, accepted: bool)
    | Mark(id: string)

  datatype Event = Event(read: int, at: int, action: Action)

  /** What the scheduler has done with the message it is at. */
  datatype Stage = Fresh | Cleared | Handed(id: string, accepted: bool)

  /**
   The scheduler between ticks, or inside the tick whose clock reading is `since`, with the messages
   it has yet to hand over.
   */
  datatype Tick = NoTick | InTick(since: int, queue: seq<string>, stage: Stage)

  datatype Edit = Edit(id: string, user: string, content: string)

  /**
   `used` are the ids ever given to a message, `unmarked` those whose frame some recipient took and
   whose status the sending handler has yet to write, `edits` the edits loaded and not yet written.
   */
  datatype State = State(
    rows: Table, used: set<string>, tick: Tick, unmarked: set<string>, edits: map<nat, Edit>, begun: set<nat>, now: int)

  /** A row as the schedule handler creates it: for a time that had not passed when it looked. */
  predicate NewlyScheduled(r: Row, now: int) {
    r.status == Sent && r.scheduledAt.Some? && r.scheduledAt.value >= now && r.deletedAt.None?
  }

  /** The message at the head of the scheduler's queue, at the given stage. */
  predicate Heads(s: State, id: string, g: Stage) {
    s.tick.InTick? && s.tick.stage == g && s.tick.queue != [] && s.tick.queue[0] == id
  }

  ghost predicate Enabled(s: State, e: Event) {
    && s.now <= e.at && e.read <= e.at
    && match e.action
       case Schedule(id, row) => id !in s.used && NewlyScheduled(row, e.read)
       case Post(id, row, _) => id !in s.used && row.status == Sent && row.scheduledAt.None? && row.deletedAt.None?
       case MarkDelivered(id) => id in s.unmarked
       case LoadEdit(k, _, _, _) => k !in s.begun
       case WriteEdit(k) => k in s.edits
       case Snapshot(order) =>
         && s.tick.NoTick? && Distinct(order)
         && forall id :: id in order <==> id in s.rows && Due(s.rows[id], e.read)
       case Clear(id) => Heads(s, id, Fresh)
       case Hand(id, _) => Heads(s, id, Cleared)
       case Mark(id) => s.tick.InTick? && s.tick.stage.Handed? && s.tick.stage.id == id
       case _ => true
  }

  function NextTick(queue: seq<string>, since: int): Tick {
    if queue == [] then NoTick else InTick(since, queue, Fresh)
  }

  /** The tick after one of its own steps. */
  function TickStep(t: Tick, a: Action): Tick {
    if t.NoTick? then t
    else
      match a
      case Clear(_) => t.(stage := Cleared)
      case Hand(id, accepted) => if t.queue == [] then t else InTick(t.since, t.queue[1..], Handed(id, accepted))
      case Mark(_) => NextTick(t.queue, t.since)
      case _ => t
  }

  /** Writing an edit does not look at the message again. */
  function WriteEditStep(t: Table, edit: Edit, now: int): Table {
    if edit.id in t then t[edit.id := t[edit.id].(content := edit.content, editedAt := Some(now))] else t
  }

  /** A step of the tick that marks a message whose frame was taken. */
  predicate MarksHanded(s: State, a: Action) {
    a.Mark? && s.tick.InTick? && s.tick.stage == Handed(a.id, true)
  }

  /** The table after one action, with the clock reading of its handler. */
  function RowsStep(s: State, a: Action, read: int): Table {
    match a
    case Schedule(id, row) => s.rows[id := row]
    case Post(id, row, _) => s.rows[id := row]
    case MarkDelivered(id) => HandStep(s.rows, id, true)
    case Cancel(id, user) => CancelStep(s.rows, id, user, read)
    case WriteEdit(k) => if k in s.edits then WriteEditStep(s.rows, s.edits[k], read) else s.rows
    case DeleteForEveryone(id, user) => DeleteStep(s.rows, id, user, read)
    case AckRead(id, user) => AckReadStep(s.rows, id, user)
    case ReadHistory(user, other) => HistoryStep(s.rows, user, other)
    case Cleanup => CleanupStep(s.rows, read)
    case Clear(id) => ClearStep(s.rows, id)
    case Mark(id) => HandStep(s.rows, id, MarksHanded(s, a))
    case _ => s.rows
  }

  function Apply(s: State, e: Event): State {
    var s' := s.(rows := RowsStep(s, e.action, e.read), tick := TickStep(s.tick, e.action), now := e.at);
    match e.action
    case Schedule(id, _) => s'.(used := s.used + {id})
    case Post(id, _, accepted) =>
      s'.(used := s.used + {id}, unmarked := if accepted then s.unmarked + {id} else s.unmarked)
    case MarkDelivered(id) => s'.(unmarked := s.unmarked - {id})
    case LoadEdit(k, id, user, content) =>
      s'.(begun := s.begun + {k},
          edits := if MayEdit(s.rows, id, user, content) then s.edits[k := Edit(id, user, content)] else s.edits)
    case WriteEdit(k) => s'.(edits := s.edits - {k})
    case Snapshot(order) => s'.(tick := NextTick(order, e.read))
    case _ => s'
  }

  // ---------- Runs, newest event last ----------

  function Init(start: int): State {
    State(map[], {}, NoTick, {}, map[], {}, start)
  }

  function After(start: int, es: seq<Event>): State
    decreases |es|
  {
    if es == [] then Init(start) else Apply(After(start, Before(es)), Last(es))
  }

  ghost predicate Possible(start: int, es: seq<Event>)
    decreases |es|
  {
    es == [] || (Possible(start, Before(es)) && Enabled(After(start, Before(es)), Last(es)))
  }

  // ---------- What the run alone says ----------

  /** How often a message was handed to its recipients. */
  function HandedCount(es: seq<Event>, id: string): nat
    decreases |es|
  {
    if es == [] then 0
    else HandedCount(Before(es), id) + if Last(es).action.Hand? && Last(es).action.id == id then 1 else 0
  }

  /** The time a message was scheduled for. */
  function ScheduledFor(es: seq<Event>, id: string): Option<int>
    decreases |es|
  {
    if es == [] then None
    else if Last(es).action.Schedule? && Last(es).action.id == id then Last(es).action.row.scheduledAt
    else ScheduledFor(Before(es), id)
  }

  /** The table as the latest snapshot saw it, and the clock reading it went by. */
  function LatestSnapshot(start: int, es: seq<Event>): (Table, int)
    decreases |es|
  {
    if es == [] then (map[], start)
    else if Last(es).action.Snapshot? then (After(start, Before(es)).rows, Last(es).read)
    else LatestSnapshot(start, Before(es))
  }

  // ---------- What every run keeps ----------

  /** The messages still to be handed over in this tick. */
  function QueueOf(s: State): seq<string> {
    if s.tick.InTick? then s.tick.queue else []
  }

  predicate Queued(s: State, id: string) {
    id in QueueOf(s)
  }

  /** A queued message, as far as it is still there, is scheduled for a past time unless just cleared. */
  ghost predicate QueuedRow(s: State, i: nat)
    requires s.tick.InTick? && i < |s.tick.queue|
  {
    var id := s.tick.queue[i];
    && id in s.used
    && (id in s.rows ==>
         if i == 0 && s.tick.stage == Cleared then s.rows[id].scheduledAt.None?
         else s.rows[id].scheduledAt.Some? && s.rows[id].scheduledAt.value <= s.tick.since)
  }

  ghost predicate QueueConsistent(s: State) {
    s.tick.InTick? ==>
      && Distinct(s.tick.queue) && s.tick.since <= s.now
      && (s.tick.queue == [] ==> s.tick.stage.Handed?)
      && forall i :: 0 <= i < |s.tick.queue| ==> QueuedRow(s, i)
  }

  lemma StepUsed(s: State, e: Event)
    requires s.rows.Keys <= s.used
    ensures Apply(s, e).rows.Keys <= Apply(s, e).used
  {
  }

  lemma ClearQueueConsistent(s: State, e: Event)
    requires QueueConsistent(s) && Enabled(s, e) && e.action.Clear?
    ensures QueueConsistent(Apply(s, e))
  {
    var s' := Apply(s, e);
    forall i | 0 <= i < |s'.tick.queue|
      ensures QueuedRow(s', i)
    {
      assert QueuedRow(s, i);
    }
  }

  lemma PopQueueConsistent(s: State, e: Event)
    requires QueueConsistent(s) && Enabled(s, e) && (e.action.Hand? || e.action.Mark?)
    ensures QueueConsistent(Apply(s, e))
  {
    var s' := Apply(s, e);
    if s'.tick.InTick? {
      var d := if e.action.Hand? then 1 else 0;
      forall i | 0 <= i < |s'.tick.queue|
        ensures QueuedRow(s', i) && s'.tick.queue[i] == s.tick.queue[i + d]
      {
        assert QueuedRow(s, i + d);
      }
    }
  }

  lemma SnapshotQueueConsistent(s: State, e: Event)
    requires QueueConsistent(s) && s.rows.Keys <= s.used && Enabled(s, e) && e.action.Snapshot?
    ensures QueueConsistent(Apply(s, e))
  {
  }

  /** The steps of the scheduler. */
  predicate Ticks(a: Action) {
    a.Snapshot? || a.Clear? || a.Hand? || a.Mark?
  }

  /** Everything but the scheduler leaves the schedule of existing rows alone, or cancels them. */
  lemma ScheduleKept(s: State, e: Event, id: string)
    requires Enabled(s, e) && !Ticks(e.action) && id in s.used
    ensures id in Apply(s, e).rows ==> id in s.rows && Apply(s, e).rows[id].scheduledAt == s.rows[id].scheduledAt
  {
  }

  lemma StepQueueConsistent(s: State, e: Event)
    requires QueueConsistent(s) && s.rows.Keys <= s.used && Enabled(s, e)
    ensures QueueConsistent(Apply(s, e))
  {
    if e.action.Snapshot? {
      SnapshotQueueConsistent(s, e);
    } else if e.action.Clear? {
      ClearQueueConsistent(s, e);
    } else if e.action.Hand? || e.action.Mark? {
      PopQueueConsistent(s, e);
    } else if s.tick.InTick? {
      forall i | 0 <= i < |s.tick.queue|
        ensures QueuedRow(Apply(s, e), i)
      {
        assert QueuedRow(s, i);
        ScheduleKept(s, e, s.tick.queue[i]);
      }
    }
  }

  lemma {:induction false} RunQueueConsistent(start: int, es: seq<Event>)
    requires Possible(start, es)
    ensures QueueConsistent(After(start, es)) && After(start, es).rows.Keys <= After(start, es).used
    decreases |es|
  {
    if es != [] {
      RunQueueConsistent(start, Before(es));
      StepQueueConsistent(After(start, Before(es)), Last(es));
      StepUsed(After(start, Before(es)), Last(es));
    }
  }

  // ---------- Scheduler safety ----------

  /** Handed over for good: no longer scheduled, as far as it is still there, and not queued. */
  ghost predicate Done(s: State, id: string) {
    id in s.used && !Queued(s, id) && (id in s.rows ==> s.rows[id].scheduledAt.None?)
  }

  lemma StepDone(s: State, e: Event, id: string)
    requires Done(s, id) && Enabled(s, e)
    ensures Done(Apply(s, e), id) && !(e.action.Hand? && e.action.id == id)
  {
  }

  lemma HandDone(s: State, e: Event)
    requires QueueConsistent(s) && Enabled(s, e) && e.action.Hand?
    ensures Done(Apply(s, e), e.action.id)
  {
    assert QueuedRow(s, 0);
  }

  /** A message is handed to its recipients at most once. */
  lemma {:induction false} HandedAtMostOnce(start: int, es: seq<Event>, id: string)
    requires Possible(start, es)
    ensures HandedCount(es, id) <= 1
    ensures HandedCount(es, id) == 1 ==> Done(After(start, es), id)
    decreases |es|
  {
    if es != [] {
      HandedAtMostOnce(start, Before(es), id);
      RunQueueConsistent(start, Before(es));
      var s := After(start, Before(es));
      if Done(s, id) {
        StepDone(s, Last(es), id);
      } else if Last(es).action.Hand? {
        HandDone(s, Last(es));
      }
    }
  }

  /** A queued or still scheduled message carries the time it was scheduled for. */
  ghost predicate Remembers(s: State, id: string, due: Option<int>) {
    && (due.Some? ==> id in s.used)
    && (id in s.rows && s.rows[id].scheduledAt.Some? ==> due == s.rows[id].scheduledAt)
    && (Queued(s, id) ==> due.Some? && due.value <= s.tick.since)
  }

  lemma StepRemembers(s: State, e: Event, id: string, due: Option<int>)
    requires Remembers(s, id, due) && QueueConsistent(s) && s.rows.Keys <= s.used && Enabled(s, e)
    ensures Remembers(Apply(s, e), id,
                      if e.action.Schedule? && e.action.id == id then e.action.row.scheduledAt else due)
  {
    if s.tick.InTick? {
      forall i | 0 <= i < |s.tick.queue|
        ensures s.tick.queue[i] in s.used
      {
        assert QueuedRow(s, i);
      }
    }
  }

  lemma {:induction false} ScheduleRemembered(start: int, es: seq<Event>, id: string)
    requires Possible(start, es)
    ensures Remembers(After(start, es), id, ScheduledFor(es, id))
    decreases |es|
  {
    if es != [] {
      ScheduleRemembered(start, Before(es), id);
      RunQueueConsistent(start, Before(es));
      StepRemembers(After(start, Before(es)), Last(es), id, ScheduledFor(Before(es), id));
    }
  }

  /** No message is handed before the time it was scheduled for. */
  lemma NeverHandedEarly(start: int, es: seq<Event>)
    requires Possible(start, es) && es != [] && Last(es).action.Hand?
    ensures var due := ScheduledFor(es, Last(es).action.id);
            due.Some? && due.value <= Last(es).at
  {
    ScheduleRemembered(start, Before(es), Last(es).action.id);
    RunQueueConsistent(start, Before(es));
  }

  /** The messages handed since the latest snapshot, and the queue as that snapshot laid it out. */
  function HandedSinceSnapshot(es: seq<Event>): seq<string>
    decreases |es|
  {
    if es == [] || Last(es).action.Snapshot? then []
    else HandedSinceSnapshot(Before(es)) + if Last(es).action.Hand? then [Last(es).action.id] else []
  }

  function SnapshotOrder(es: seq<Event>): seq<string>
    decreases |es|
  {
    if es == [] then []
    else if Last(es).action.Snapshot? then Last(es).action.order
    else SnapshotOrder(Before(es))
  }

  lemma {:induction false} SnapshotFoundDue(start: int, es: seq<Event>)
    requires Possible(start, es)
    ensures Distinct(SnapshotOrder(es))
    ensures var (table, now) := LatestSnapshot(start, es);
            forall id :: id in SnapshotOrder(es) <==> id in table && Due(table[id], now)
    decreases |es|
  {
    if es != [] {
      SnapshotFoundDue(start, Before(es));
    }
  }

  lemma QueueNext(s: State, e: Event)
    requires Enabled(s, e)
    ensures QueueOf(Apply(s, e)) ==
            match e.action
            case Snapshot(order) => order
            case Hand(_, _) => QueueOf(s)[1..]
            case _ => QueueOf(s)
  {
  }

  lemma MoveOne(done: seq<string>, queue: seq<string>)
    requires queue != []
    ensures done + [queue[0]] + queue[1..] == done + queue
  {
    assert queue == [queue[0]] + queue[1..];
  }

  lemma {:induction false} QueueIsTheRest(start: int, es: seq<Event>)
    requires Possible(start, es)
    ensures HandedSinceSnapshot(es) + QueueOf(After(start, es)) == SnapshotOrder(es)
    decreases |es|
  {
    if es != [] {
      QueueIsTheRest(start, Before(es));
      var s := After(start, Before(es));
      QueueNext(s, Last(es));
      match Last(es).action
      case Snapshot(_) =>
      case Hand(id, _) =>
        assert QueueOf(s)[0] == id;
        MoveOne(HandedSinceSnapshot(Before(es)), QueueOf(s));
      case _ =>
        assert HandedSinceSnapshot(es) == HandedSinceSnapshot(Before(es));
    }
  }

  /**
   Whatever happens during a tick, cancels and deletions included, it hands over exactly what its
   snapshot found due, each message once: the ones handed so far, then the ones still queued.
   */
  lemma {:induction false} TickConservation(start: int, es: seq<Event>)
    requires Possible(start, es)
    ensures HandedSinceSnapshot(es) + QueueOf(After(start, es)) == SnapshotOrder(es)
    ensures Distinct(SnapshotOrder(es))
    ensures var (table, now) := LatestSnapshot(start, es);
            forall id :: id in SnapshotOrder(es) <==>
              && id in table && table[id].status == Sent && table[id].deletedAt.None?
              && table[id].scheduledAt.Some? && table[id].scheduledAt.value <= now
  {
    QueueIsTheRest(start, es);
    SnapshotFoundDue(start, es);
  }

  // ---------- Cancels that race with a tick ----------

  /** The event is a cancel that removes the message. */
  predicate Cancels(s: State, e: Event, id: string) {
    && e.action.Cancel? && e.action.id == id && id in s.rows && s.rows[id].sender == e.action.user
    && s.rows[id].scheduledAt.Some? && s.rows[id].scheduledAt.value > e.read
  }

  predicate Removed(start: int, es: seq<Event>, id: string)
    decreases |es|
  {
    es != [] && (Removed(start, Before(es), id) || Cancels(After(start, Before(es)), Last(es), id))
  }

  /** A cancel removed the message while a tick had it queued, not yet cleared. */
  predicate RemovedWhileQueued(start: int, es: seq<Event>, id: string)
    decreases |es|
  {
    es != [] &&
    (RemovedWhileQueued(start, Before(es), id) ||
     (Cancels(After(start, Before(es)), Last(es), id) && Queued(After(start, Before(es)), id)))
  }

  ghost predicate Race(s: State, id: string, handed: nat, removed: bool, raced: bool) {
    && handed <= 1 && (handed == 1 ==> Done(s, id))
    && (removed ==> id in s.used && id !in s.rows)
    && (raced ==> removed && (Queued(s, id) <==> handed == 0))
    && (removed && !raced ==> handed == 0 && !Queued(s, id))
  }

  lemma StepRace(s: State, e: Event, id: string, handed: nat, removed: bool, raced: bool)
    requires Race(s, id, handed, removed, raced) && QueueConsistent(s) && s.rows.Keys <= s.used && Enabled(s, e)
    ensures Race(Apply(s, e), id, handed + if e.action.Hand? && e.action.id == id then 1 else 0,
                 removed || Cancels(s, e, id), raced || (Cancels(s, e, id) && Queued(s, id)))
  {
    if e.action.Hand? {
      HandDone(s, e);
    }
    if Done(s, id) {
      StepDone(s, e, id);
    }
  }

  /**
   A message is both handed to its recipients and removed by a cancel exactly when a cancel removed
   it while a tick had it queued, and the tick has come to it since.
   */
  lemma {:induction false} HandedAndRemovedIff(start: int, es: seq<Event>, id: string)
    requires Possible(start, es)
    ensures Race(After(start, es), id, HandedCount(es, id), Removed(start, es, id), RemovedWhileQueued(start, es, id))
    ensures HandedCount(es, id) == 1 && Removed(start, es, id) <==>
            RemovedWhileQueued(start, es, id) && !Queued(After(start, es), id)
    decreases |es|
  {
    if es != [] {
      HandedAndRemovedIff(start, Before(es), id);
      RunQueueConsistent(start, Before(es));
      StepRace(After(start, Before(es)), Last(es), id, HandedCount(Before(es), id), Removed(start, Before(es), id),
               RemovedWhileQueued(start, Before(es), id));
    }
  }

  /** Such a cancel went by a clock reading older than the tick's, and so older than its own execution. */
  lemma RacingCancelIsLate(start: int, es: seq<Event>, e: Event, id: string)
    requires Possible(start, es) && Enabled(After(start, es), e)
    requires Cancels(After(start, es), e, id) && Queued(After(start, es), id)
    ensures e.read < After(start, es).tick.since <= e.at
  {
    RunQueueConsistent(start, es);
    var s := After(start, es);
    var i :| 0 <= i < |s.tick.queue| && s.tick.queue[i] == id;
    assert QueuedRow(s, i);
  }

  /** Every cancel reads the clock at the moment it runs. */
  predicate PromptCancels(es: seq<Event>) {
    forall i :: 0 <= i < |es| && es[i].action.Cancel? ==> es[i].read == es[i].at
  }

  /** With prompt cancels a message that was handed over is never removed by a cancel, before or after. */
  lemma {:induction false} PromptCancelsNeverRace(start: int, es: seq<Event>, id: string)
    requires Possible(start, es) && PromptCancels(es)
    ensures !RemovedWhileQueued(start, es, id)
    ensures !(HandedCount(es, id) == 1 && Removed(start, es, id))
    decreases |es|
  {
    HandedAndRemovedIff(start, es, id);
    if es != [] {
      assert forall i :: 0 <= i < |Before(es)| ==> Before(es)[i] == es[i];
      PromptCancelsNeverRace(start, Before(es), id);
      if Cancels(After(start, Before(es)), Last(es), id) && Queued(After(start, Before(es)), id) {
        RacingCancelIsLate(start, Before(es), Last(es), id);
      }
    }
  }

  // ---------- Which messages can still be delivered ----------

  /** The status, deletion and schedule that keep a message out of every later tick. */
  ghost predicate Unreachable(s: State, id: string) {
    && id in s.used && !Queued(s, id)
    && (id in s.rows ==> s.rows[id].status != Sent || s.rows[id].deletedAt.Some? || s.rows[id].scheduledAt.None?)
  }

  lemma StepUnreachable(s: State, e: Event, id: string)
    requires Unreachable(s, id) && Enabled(s, e)
    ensures Unreachable(Apply(s, e), id) && !(e.action.Hand? && e.action.id == id)
  {
  }

  /** A message that was read (or deleted) before a tick picked it up is never handed over. */
  lemma {:induction false} UnreachableNeverHanded(start: int, es: seq<Event>, k: nat, id: string)
    requires Possible(start, es) && k <= |es| && Unreachable(After(start, es[..k]), id)
    ensures Unreachable(After(start, es), id) && HandedCount(es, id) == HandedCount(es[..k], id)
    decreases |es|
  {
    if k == |es| {
      assert es[..k] == es;
    } else {
      assert Before(es)[..k] == es[..k];
      UnreachableNeverHanded(start, Before(es), k, id);
      StepUnreachable(After(start, Before(es)), Last(es), id);
    }
  }

  ghost predicate CanStillBeHanded(start: int, es: seq<Event>, id: string) {
    exists fs: seq<Event> :: Possible(start, es + fs) && HandedCount(es + fs, id) > HandedCount(es, id)
  }

  /** One more event. */
  lemma Extend(start: int, es: seq<Event>, e: Event)
    requires Possible(start, es) && Enabled(After(start, es), e)
    ensures Possible(start, es + [e]) && After(start, es + [e]) == Apply(After(start, es), e)
    ensures forall id :: HandedCount(es + [e], id) ==
                         HandedCount(es, id) + if e.action.Hand? && e.action.id == id then 1 else 0
  {
    assert Before(es + [e]) == es;
  }

  lemma HandedLater(start: int, es: seq<Event>, mid: seq<Event>, id: string)
    requires CanStillBeHanded(start, es + mid, id) && HandedCount(es + mid, id) >= HandedCount(es, id)
    ensures CanStillBeHanded(start, es, id)
  {
    var fs :| Possible(start, es + mid + fs) && HandedCount(es + mid + fs, id) > HandedCount(es + mid, id);
    assert es + mid + fs == es + (mid + fs);
  }

  /** How many steps the scheduler is from the next message of its queue. */
  function StepsLeft(s: State): nat {
    if s.tick.NoTick? then 0 else match s.tick.stage case Cleared => 1 case Fresh => 2 case Handed(_, _) => 3
  }

  /** The scheduler's next step inside a tick. */
  function Next(s: State): Event
    requires s.tick.InTick? && (s.tick.queue == [] ==> s.tick.stage.Handed?)
  {
    Event(s.now, s.now,
          match s.tick.stage
          case Fresh => Clear(s.tick.queue[0])
          case Cleared => Hand(s.tick.queue[0], false)
          case Handed(id, _) => Mark(id))
  }

  lemma NextEnabled(s: State)
    requires QueueConsistent(s) && s.tick.InTick?
    ensures Enabled(s, Next(s))
    ensures Apply(s, Next(s)).tick.InTick? ==>
              |Apply(s, Next(s)).tick.queue| < |s.tick.queue| ||
              (Apply(s, Next(s)).tick.queue == s.tick.queue && StepsLeft(Apply(s, Next(s))) < StepsLeft(s))
  {
  }

  /** The scheduler can always go on to the message it has queued. */
  lemma {:induction false} QueuedCanBeHanded(start: int, es: seq<Event>, id: string)
    requires Possible(start, es) && Queued(After(start, es), id)
    ensures CanStillBeHanded(start, es, id)
    decreases |QueueOf(After(start, es))|, StepsLeft(After(start, es))
  {
    RunQueueConsistent(start, es);
    var s := After(start, es);
    var e := Next(s);
    NextEnabled(s);
    Extend(start, es, e);
    if !(e.action.Hand? && e.action.id == id) {
      QueuedCanBeHanded(start, es + [e], id);
      HandedLater(start, es, [e], id);
    }
  }

  /** Live, sent and still scheduled: a tick at or after its time picks it up. */
  predicate Waiting(t: Table, id: string) {
    id in t && t[id].status == Sent && t[id].deletedAt.None? && t[id].scheduledAt.Some?
  }

  lemma DueOrder(t: Table, now: int, ids: set<string>) returns (order: seq<string>)
    requires ids <= t.Keys
    ensures Distinct(order) && forall id :: id in order <==> id in ids && Due(t[id], now)
  {
    order := [];
    if ids != {} {
      var id :| id in ids;
      order := DueOrder(t, now, ids - {id});
      if Due(t[id], now) {
        order := order + [id];
      }
    }
  }

  /** The message that the tick has just handed is not one that still waits. */
  ghost predicate HandedIsCleared(s: State) {
    s.tick.InTick? && s.tick.stage.Handed? ==>
      var id := s.tick.stage.id;
      id in s.used && (id in s.rows ==> s.rows[id].scheduledAt.None?)
  }

  lemma StepHandedIsCleared(s: State, e: Event)
    requires HandedIsCleared(s) && Enabled(s, e) && !e.action.Hand?
    ensures HandedIsCleared(Apply(s, e))
  {
  }

  lemma {:induction false} RunHandedIsCleared(start: int, es: seq<Event>)
    requires Possible(start, es)
    ensures HandedIsCleared(After(start, es))
    decreases |es|
  {
    if es != [] {
      RunHandedIsCleared(start, Before(es));
      RunQueueConsistent(start, Before(es));
      if Last(es).action.Hand? {
        HandDone(After(start, Before(es)), Last(es));
      } else {
        StepHandedIsCleared(After(start, Before(es)), Last(es));
      }
    }
  }

  lemma StillWaiting(s: State, id: string)
    requires QueueConsistent(s) && HandedIsCleared(s) && s.tick.InTick? && Waiting(s.rows, id) && !Queued(s, id)
    ensures Waiting(Apply(s, Next(s)).rows, id)
  {
  }

  lemma {:induction false} WaitingCanBeHanded(start: int, es: seq<Event>, id: string)
    requires Possible(start, es) && Waiting(After(start, es).rows, id)
    ensures CanStillBeHanded(start, es, id)
    decreases After(start, es).tick.InTick?, |QueueOf(After(start, es))|, StepsLeft(After(start, es))
  {
    var s := After(start, es);
    if Queued(s, id) {
      QueuedCanBeHanded(start, es, id);
    } else if s.tick.InTick? {
      RunQueueConsistent(start, es);
      RunHandedIsCleared(start, es);
      NextEnabled(s);
      StillWaiting(s, id);
      Extend(start, es, Next(s));
      WaitingCanBeHanded(start, es + [Next(s)], id);
      HandedLater(start, es, [Next(s)], id);
    } else {
      var due := s.rows[id].scheduledAt.value;
      var at := if s.now < due then due else s.now;
      var order := DueOrder(s.rows, at, s.rows.Keys);
      var e := Event(at, at, Snapshot(order));
      Extend(start, es, e);
      QueuedCanBeHanded(start, es + [e], id);
      HandedLater(start, es, [e], id);
    }
  }

  /**
   A message can still be delivered exactly when it is queued, or is live, still "sent" and still
   scheduled. In particular a message read before its time is lost: no later tick delivers it.
   */
  lemma CanStillBeHandedIff(start: int, es: seq<Event>, id: string)
    requires Possible(start, es)
    requires id in After(start, es).used
    ensures CanStillBeHanded(start, es, id) <==> Queued(After(start, es), id) || Waiting(After(start, es).rows, id)
  {
    if Queued(After(start, es), id) {
      QueuedCanBeHanded(start, es, id);
    } else if Waiting(After(start, es).rows, id) {
      WaitingCanBeHanded(start, es, id);
    } else {
      forall fs: seq<Event> | Possible(start, es + fs)
        ensures HandedCount(es + fs, id) == HandedCount(es, id)
      {
        assert (es + fs)[..|es|] == es;
        UnreachableNeverHanded(start, es + fs, |es|, id);
      }
    }
  }

  // ---------- The runs ----------

  const PENDING := Row("alice", Some("bob"), None, "hello", Sent, Some(100), None, None, None)

  const SCHEDULED := [Event(0, 0, Schedule("m", PENDING))]

  lemma OneScheduled()
    ensures Possible(0, SCHEDULED) && HandedCount(SCHEDULED, "m") == 0
    ensures After(0, SCHEDULED) == State(map["m" := PENDING], {"m"}, NoTick, {}, map[], {}, 0)
  {
    assert SCHEDULED == [] + [SCHEDULED[0]];
    Extend(0, [], SCHEDULED[0]);
  }

  /** The promise "scheduled, never cancelled, never deleted, hence delivered" fails on this run. */
  lemma EarlyReadLosesMessage()
    ensures var es := SCHEDULED + [Event(50, 50, ReadHistory("bob", "alice"))];
            && Possible(0, es)
            && After(0, es).rows == map["m" := PENDING.(status := Read)]
            && !CanStillBeHanded(0, es, "m")
  {
    OneScheduled();
    var e := Event(50, 50, ReadHistory("bob", "alice"));
    Extend(0, SCHEDULED, e);
    assert After(0, SCHEDULED + [e]).rows == map["m" := PENDING.(status := Read)];
    CanStillBeHandedIff(0, SCHEDULED + [e], "m");
  }

  const PICKED_UP := SCHEDULED + [Event(100, 100, Snapshot(["m"]))]

  lemma OnePickedUp()
    ensures Possible(0, PICKED_UP) && HandedCount(PICKED_UP, "m") == 0
    ensures After(0, PICKED_UP) == State(map["m" := PENDING], {"m"}, InTick(100, ["m"], Fresh), {}, map[], {}, 100)
  {
    OneScheduled();
    Extend(0, SCHEDULED, Event(100, 100, Snapshot(["m"])));
  }

  /** What a tick does with the only message it has picked up, whatever happened to the row. */
  lemma OnlyMessageIsHanded(es: seq<Event>)
    requires Possible(0, es) && HandedCount(es, "m") == 0
    requires After(0, es).now == 101 && After(0, es).tick == InTick(100, ["m"], Fresh)
    ensures var es' := es + [Event(101, 101, Clear("m"))] + [Event(101, 101, Hand("m", true))];
            Possible(0, es') && HandedCount(es', "m") == 1
  {
    Extend(0, es, Event(101, 101, Clear("m")));
    Extend(0, es + [Event(101, 101, Clear("m"))], Event(101, 101, Hand("m", true)));
  }

  /** A message that its sender deletes during the tick is delivered all the same. */
  lemma DeletedDuringTickIsHanded()
    ensures var es := PICKED_UP + [Event(101, 101, DeleteForEveryone("m", "alice"))];
            var es' := es + [Event(101, 101, Clear("m"))] + [Event(101, 101, Hand("m", true))];
            && "m" in After(0, es).rows && After(0, es).rows["m"].deletedAt == Some(101)
            && Possible(0, es') && HandedCount(es', "m") == 1
  {
    OnePickedUp();
    var e := Event(101, 101, DeleteForEveryone("m", "alice"));
    Extend(0, PICKED_UP, e);
    OnlyMessageIsHanded(PICKED_UP + [e]);
  }

  /** A cancel that read the clock before the due time and runs after the snapshot: removed, and delivered. */
  lemma CancelledAndHanded()
    ensures var es := PICKED_UP + [Event(99, 101, Cancel("m", "alice"))];
            var es' := es + [Event(101, 101, Clear("m"))] + [Event(101, 101, Hand("m", true))];
            && After(0, es).rows == map[] && Removed(0, es, "m")
            && Possible(0, es') && HandedCount(es', "m") == 1
  {
    OnePickedUp();
    var e := Event(99, 101, Cancel("m", "alice"));
    Extend(0, PICKED_UP, e);
    assert After(0, PICKED_UP + [e]).rows == map[];
    assert Before(PICKED_UP + [e]) == PICKED_UP;
    OnlyMessageIsHanded(PICKED_UP + [e]);
  }
}
