/**
 What the events alone say about a message: a reference account of every row, against which the
 state machine is proved, and from it when a message counts as read.
 */
module MessageHistory {
  import opened Common
  import opened Messages
  import opened MessageRuns
  import opened MessageLife

  // ---------- The account ----------

  /** The last message handed to its recipients, and whether one of them took it. */
  function LastHanded(es: seq<Event>): Option<(string, bool)>
    decreases |es|
  {
    if es == [] then None
    else if Last(es).action.Hand? then Some((Last(es).action.id, Last(es).action.accepted))
    else LastHanded(Before(es))
  }

  /** The event marks as delivered a message that a recipient took when it was last handed over. */
  predicate Marks(e: Event, handed: Option<(string, bool)>, id: string) {
    || (e.action.MarkDelivered? && e.action.id == id)
    || (e.action.Mark? && e.action.id == id && handed == Some((id, true)))
  }

  /** A row after an event that does not take it away; `edit` is what an event that writes an edit writes. */
  function Next(r: Row, e: Event, id: string, handed: Option<(string, bool)>, edit: Option<Edit>): Row {
    var edited := edit.Some? && edit.value.id == id;
    Row(r.sender, r.recipient, r.group,
        if edited then edit.value.content else r.content,
        if Marks(e, handed, id) then Delivered
        else if ReadsIt(e, id, r.sender, r.recipient) then Read else r.status,
        if e.action.Clear? && e.action.id == id then None else r.scheduledAt,
        if edited then Some(e.read) else r.editedAt,
        if DeletesIt(e, id, r) then Some(e.read) else r.deletedAt,
        r.expiresAt)
  }

  /** The row of a message, if there is one. */
  function Told(es: seq<Event>, id: string): Option<Row>
    decreases |es|
  {
    if es == [] then None
    else
      var e, was := Last(es), Told(Before(es), id);
      if (e.action.Schedule? || e.action.Post?) && e.action.id == id then Some(e.action.row)
      else if was.None? || CancelsIt(e, id, was.value) then None
      else Some(Next(was.value, e, id, LastHanded(Before(es)),
                     if e.action.WriteEdit? then InFlight(Before(es), e.action.edit) else None))
  }

  /** The edit of that number, if it has loaded a message that it may change and is still to be written. */
  function InFlight(es: seq<Event>, edit: nat): Option<Edit>
    decreases |es|
  {
    if es == [] then None
    else
      match Last(es).action
      case LoadEdit(k, id, user, content) =>
        if k != edit then InFlight(Before(es), edit)
        else
          var row := Told(Before(es), id);
          if id != "" && content != "" && row.Some? && row.value.sender == user && row.value.deletedAt.None?
          then Some(Edit(id, user, content)) else None
      case WriteEdit(k) => if k == edit then None else InFlight(Before(es), edit)
      case _ => InFlight(Before(es), edit)
  }

  // ---------- The state agrees with it ----------

  function RowIn(s: State, id: string): Option<Row> {
    if id in s.rows then Some(s.rows[id]) else None
  }

  function EditIn(s: State, edit: nat): Option<Edit> {
    if edit in s.edits then Some(s.edits[edit]) else None
  }

  /** What the scheduler remembers of the message it has just handed over is how that went. */
  ghost predicate Remembers(s: State, handed: Option<(string, bool)>) {
    s.tick.InTick? && s.tick.stage.Handed? ==> handed == Some((s.tick.stage.id, s.tick.stage.accepted))
  }

  lemma {:induction false} RunRemembers(start: int, es: seq<Event>)
    requires Possible(start, es)
    ensures Remembers(After(start, es), LastHanded(es))
    decreases |es|
  {
    if es != [] {
      RunRemembers(start, Before(es));
    }
  }

  lemma StepMarks(s: State, e: Event, id: string, handed: Option<(string, bool)>)
    requires Enabled(s, e) && Remembers(s, handed)
    ensures MarksDelivered(s, e, id) <==> Marks(e, handed, id)
  {
  }

  lemma Gone(s: State, e: Event, id: string)
    requires Enabled(s, e) && id !in s.rows
    ensures RowIn(Apply(s, e), id) ==
            if (e.action.Schedule? || e.action.Post?) && e.action.id == id then Some(e.action.row) else None
  {
  }

  lemma StepRow(s: State, e: Event, id: string, handed: Option<(string, bool)>)
    requires Enabled(s, e) && Remembers(s, handed) && id in s.rows && id in s.used
    ensures RowIn(Apply(s, e), id) ==
            if CancelsIt(e, id, s.rows[id]) then None
            else Some(Next(s.rows[id], e, id, handed, if e.action.WriteEdit? then EditIn(s, e.action.edit) else None))
  {
    StepLifecycle(s, e, id);
    StepMarks(s, e, id, handed);
  }

  /** Every row is, field by field, what the events say. */
  lemma {:induction false} RowByHistory(start: int, es: seq<Event>, id: string)
    requires Possible(start, es)
    ensures RowIn(After(start, es), id) == Told(es, id)
    decreases |es|
  {
    if es != [] {
      var s, e := After(start, Before(es)), Last(es);
      RowByHistory(start, Before(es), id);
      RunQueueConsistent(start, Before(es));
      RunRemembers(start, Before(es));
      if e.action.WriteEdit? {
        EditByHistory(start, Before(es), e.action.edit);
      }
      if id in s.rows {
        StepRow(s, e, id, LastHanded(Before(es)));
      } else {
        Gone(s, e, id);
      }
    }
  }

  lemma StepEdit(s: State, e: Event, edit: nat, row: Option<Row>)
    requires Enabled(s, e) && s.edits.Keys <= s.begun
    requires e.action.LoadEdit? ==> row == RowIn(s, e.action.id)
    ensures EditIn(Apply(s, e), edit) ==
            match e.action
            case LoadEdit(k, id, user, content) =>
              if k != edit then EditIn(s, edit)
              else if id != "" && content != "" && row.Some? && row.value.sender == user && row.value.deletedAt.None?
              then Some(Edit(id, user, content)) else None
            case WriteEdit(k) => if k == edit then None else EditIn(s, edit)
            case _ => EditIn(s, edit)
  {
    StepEdits(s, e, edit);
  }

  /** So is every edit between its load and its write. */
  lemma {:induction false} EditByHistory(start: int, es: seq<Event>, edit: nat)
    requires Possible(start, es)
    ensures EditIn(After(start, es), edit) == InFlight(es, edit)
    decreases |es|
  {
    if es != [] {
      var s, e := After(start, Before(es)), Last(es);
      EditByHistory(start, Before(es), edit);
      EditHasLoaded(start, Before(es), edit, "");
      if e.action.LoadEdit? {
        RowByHistory(start, Before(es), e.action.id);
        StepEdit(s, e, edit, Told(Before(es), e.action.id));
      } else {
        StepEdit(s, e, edit, None);
      }
    }
  }

  // ---------- When a message counts as read ----------

  /** Event `j` is the recipient's acknowledgement of the message, or a visit to the history with its sender. */
  predicate ReadAt(es: seq<Event>, j: nat, id: string) {
    && j < |es| && Told(es[..j], id).Some?
    && ReadsIt(es[j], id, Told(es[..j], id).value.sender, Told(es[..j], id).value.recipient)
  }

  predicate MarkedAt(es: seq<Event>, j: nat, id: string) {
    j < |es| && Marks(es[j], LastHanded(es[..j]), id)
  }

  ghost predicate NotMarkedSince(es: seq<Event>, j: nat, id: string) {
    forall i: nat :: j < i ==> !MarkedAt(es, i, id)
  }

  /** It was read, and not marked as delivered afterwards. */
  ghost predicate ReadLast(es: seq<Event>, id: string) {
    exists j: nat :: ReadAt(es, j, id) && NotMarkedSince(es, j, id)
  }

  lemma SameBefore(es: seq<Event>, j: nat, id: string)
    requires es != [] && j < |es| - 1
    ensures ReadAt(es, j, id) <==> ReadAt(Before(es), j, id)
    ensures MarkedAt(es, j, id) <==> MarkedAt(Before(es), j, id)
  {
    assert Before(es)[..j] == es[..j];
  }

  lemma {:induction false} ReadLastNext(es: seq<Event>, id: string)
    requires es != []
    ensures var n: nat := |es| - 1;
            ReadLast(es, id) <==> ReadAt(es, n, id) || (ReadLast(Before(es), id) && !MarkedAt(es, n, id))
  {
    var n := |es| - 1;
    forall j: nat | j < n
      ensures ReadAt(es, j, id) <==> ReadAt(Before(es), j, id)
      ensures MarkedAt(es, j, id) <==> MarkedAt(Before(es), j, id)
    {
      SameBefore(es, j, id);
    }
    if ReadAt(es, n, id) {
      assert NotMarkedSince(es, n, id);
    } else if ReadLast(es, id) {
      var j: nat :| ReadAt(es, j, id) && NotMarkedSince(es, j, id);
      assert NotMarkedSince(Before(es), j, id);
    } else if ReadLast(Before(es), id) && !MarkedAt(es, n, id) {
      var j: nat :| ReadAt(Before(es), j, id) && NotMarkedSince(Before(es), j, id);
      assert NotMarkedSince(es, j, id);
    }
  }

  /** A message that has never been created has not been read. */
  lemma NotReadYet(start: int, es: seq<Event>, id: string)
    requires Possible(start, es) && id !in After(start, es).used
    ensures !ReadLast(es, id)
  {
    forall j: nat | j < |es|
      ensures Told(es[..j], id).None?
    {
      PrefixPossible(start, es, j);
      RowByHistory(start, es[..j], id);
      if id in After(start, es[..j]).rows {
        UsedForGood(start, es, j, id);
      }
    }
  }

  /**
   A message counts as read exactly when its recipient acknowledged it or opened the history with its
   sender, and it was not marked as delivered after that.
   */
  lemma {:induction false} ReadIff(start: int, es: seq<Event>, id: string)
    requires Possible(start, es) && id in After(start, es).rows
    ensures After(start, es).rows[id].status == Read <==> ReadLast(es, id)
    decreases |es|
  {
    var s, e := After(start, Before(es)), Last(es);
    RunQueueConsistent(start, Before(es));
    RowByHistory(start, Before(es), id);
    RunRemembers(start, Before(es));
    ReadLastNext(es, id);
    assert es[..|es| - 1] == Before(es);
    if id in s.rows {
      ReadIff(start, Before(es), id);
      StepLifecycle(s, e, id);
      StepMarks(s, e, id, LastHanded(Before(es)));
    } else {
      NotReadYet(start, Before(es), id);
      Gone(s, e, id);
    }
  }

  // ---------- An edit with nothing in between ----------

  /** The steps of an edit request: it goes on only if it loads a live message of the user. */
  function EditSteps(s: State, k: nat, id: string, user: string, content: string, at: int): seq<Event> {
    var loads := Event(at, at, LoadEdit(k, id, user, content));
    if Loads(s, loads, k, id) then [loads, Event(at, at, WriteEdit(k))] else [loads]
  }

  /** An edit that nothing interrupts changes the content and the edit time of that one row, or nothing. */
  lemma {:induction false} WholeEdit(
      start: int, es: seq<Event>, k: nat, id: string, user: string, content: string, at: int)
    requires Possible(start, es) && k !in After(start, es).begun && After(start, es).now <= at
    ensures var t, es' := After(start, es).rows, es + EditSteps(After(start, es), k, id, user, content, at);
            && Possible(start, es')
            && After(start, es').rows ==
               if id != "" && content != "" && id in t && t[id].sender == user && t[id].deletedAt.None?
               then t[id := t[id].(content := content, editedAt := Some(at))] else t
  {
    var s, loads := After(start, es), Event(at, at, LoadEdit(k, id, user, content));
    Extend(start, es, loads);
    if Loads(s, loads, k, id) {
      var s' := Apply(s, loads);
      assert s'.rows == s.rows && s'.edits == s.edits[k := Edit(id, user, content)];
      Extend(start, es + [loads], Event(at, at, WriteEdit(k)));
      assert es + [loads] + [Event(at, at, WriteEdit(k))] == es + [loads, Event(at, at, WriteEdit(k))];
    }
  }
}
