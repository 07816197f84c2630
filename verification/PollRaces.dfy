/**
 Votes that overlap with one another and with the closing of their poll: every statement of a vote is
 a step of its own.
 */
module PollRaces {
  import opened Common
  import opened Polls
  import Races

  /**
   Where a vote is: it has loaded the poll, or has found its row (by the row's id) and is about to
   delete it, or is about to clear the user's ballot, or to insert its row.
   */
  datatype Stage = Loaded | Dropping(row: nat) | Clearing | Inserting

  datatype Ballot = Ballot(vote: VoteRow, stage: Stage)

  /** The table of votes gives every vote the id of its row; a row's id is the number of its request. */
  datatype State = State(
    polls: map<string, PollRow>, rows: map<VoteRow, nat>, ballots: map<nat, Ballot>, begun: set<nat>)

  const INIT := State(map[], map[], map[], {})

  datatype Event =
    | Create(poll: string, row: PollRow)
    | Close(poll: string, user: string)
    | Load(request: nat, vote: VoteRow)
    | Look(request: nat)
    | Drop(request: nat)
    | Clear(request: nat)
    | Insert(request: nat)

  predicate InStage(s: State, k: nat, g: Stage) {
    k in s.ballots && s.ballots[k].stage == g
  }

  predicate Enabled(s: State, e: Event) {
    match e
    case Create(p, row) => p !in s.polls && !row.closed
    case Close(_, _) => true
    case Load(k, _) => k !in s.begun
    case Look(k) => InStage(s, k, Loaded)
    case Drop(k) => k in s.ballots && s.ballots[k].stage.Dropping?
    case Clear(k) => InStage(s, k, Clearing)
    case Insert(k) => InStage(s, k, Inserting)
  }

  predicate SameBallot(v: VoteRow, w: VoteRow) {
    v.poll == w.poll && v.user == w.user
  }

  /** What the lookup of an existing vote leads to. */
  function StageAfterLook(s: State, v: VoteRow): Stage
    requires v.poll in s.polls
  {
    if v in s.rows then Dropping(s.rows[v]) else if s.polls[v.poll].multiSelect then Inserting else Clearing
  }

  /** Deletes the row found earlier, unless it has been replaced since. */
  function DropRow(rows: map<VoteRow, nat>, v: VoteRow, id: nat): map<VoteRow, nat> {
    if v in rows && rows[v] == id then rows - {v} else rows
  }

  function ClearBallot(rows: map<VoteRow, nat>, v: VoteRow): map<VoteRow, nat> {
    map w | w in rows && !SameBallot(v, w) :: rows[w]
  }

  /** The unique index refuses a second row for the same option. */
  function InsertRow(rows: map<VoteRow, nat>, v: VoteRow, id: nat): map<VoteRow, nat> {
    if v in rows then rows else rows[v := id]
  }

  function Apply(s: State, e: Event): State
    requires Enabled(s, e)
  {
    match e
    case Create(p, row) => s.(polls := s.polls[p := row])
    case Close(p, user) => s.(polls := CloseStep(Db(s.polls, {}), p, user).polls)
    case Load(k, v) =>
      s.(begun := s.begun + {k},
         ballots := if MayVote(Db(s.polls, {}), v.poll, v.option) then s.ballots[k := Ballot(v, Loaded)] else s.ballots)
    case Look(k) =>
      var b := s.ballots[k];
      s.(ballots := if b.vote.poll in s.polls
                    then s.ballots[k := b.(stage := StageAfterLook(s, b.vote))] else s.ballots - {k})
    case Drop(k) =>
      s.(rows := DropRow(s.rows, s.ballots[k].vote, s.ballots[k].stage.row), ballots := s.ballots - {k})
    case Clear(k) =>
      s.(rows := ClearBallot(s.rows, s.ballots[k].vote), ballots := s.ballots[k := s.ballots[k].(stage := Inserting)])
    case Insert(k) => s.(rows := InsertRow(s.rows, s.ballots[k].vote, k), ballots := s.ballots - {k})
  }

  // ---------- Runs, newest event last ----------

  ghost predicate Possible(es: seq<Event>)
    decreases |es|, 0
  {
    es == [] || (Possible(Before(es)) && Enabled(After(Before(es)), Last(es)))
  }

  ghost function After(es: seq<Event>): State
    requires Possible(es)
    decreases |es|, 1
  {
    if es == [] then INIT else Apply(After(Before(es)), Last(es))
  }

  lemma {:induction false} PrefixPossible(es: seq<Event>, p: nat)
    requires Possible(es) && p <= |es|
    ensures Possible(es[..p])
    decreases |es|
  {
    if p == |es| {
      assert es[..p] == es;
    } else {
      PrefixPossible(Before(es), p);
      assert Before(es)[..p] == es[..p];
    }
  }

  ghost function At(es: seq<Event>, p: nat): State
    requires Possible(es) && p <= |es|
  {
    PrefixPossible(es, p);
    After(es[..p])
  }

  lemma NextState(es: seq<Event>, i: nat)
    requires Possible(es) && i < |es|
    ensures Enabled(At(es, i), es[i]) && At(es, i + 1) == Apply(At(es, i), es[i])
  {
    PrefixPossible(es, i + 1);
    assert Before(es[..i + 1]) == es[..i] && Last(es[..i + 1]) == es[i];
  }

  /** One more event. */
  lemma Extend(es: seq<Event>, e: Event)
    requires Possible(es) && Enabled(After(es), e)
    ensures Possible(es + [e]) && After(es + [e]) == Apply(After(es), e)
  {
    assert Before(es + [e]) == es;
  }

  // ---------- A vote with nothing in between ----------

  /** The statements that a whole vote comes to. */
  function Statements(s: State, k: nat, v: VoteRow): seq<Event> {
    if !MayVote(Db(s.polls, {}), v.poll, v.option) then [Load(k, v)]
    else if v in s.rows then [Load(k, v), Look(k), Drop(k)]
    else if s.polls[v.poll].multiSelect then [Load(k, v), Look(k), Insert(k)]
    else [Load(k, v), Look(k), Clear(k), Insert(k)]
  }

  lemma ExtendTwo(es: seq<Event>, a: Event, b: Event)
    requires Possible(es) && Enabled(After(es), a) && Enabled(Apply(After(es), a), b)
    ensures Possible(es + [a, b]) && After(es + [a, b]) == Apply(Apply(After(es), a), b)
  {
    Extend(es, a);
    Extend(es + [a], b);
    assert es + [a] + [b] == es + [a, b];
  }

  lemma LoadAndLook(es: seq<Event>, k: nat, v: VoteRow)
    requires Possible(es) && k !in After(es).begun
    requires MayVote(Db(After(es).polls, {}), v.poll, v.option)
    ensures var s, es' := After(es), es + [Load(k, v), Look(k)];
            && Possible(es')
            && After(es') == State(s.polls, s.rows, s.ballots[k := Ballot(v, StageAfterLook(s, v))], s.begun + {k})
  {
    ExtendTwo(es, Load(k, v), Look(k));
  }

  /** The run ends with one vote more under way, about to make the statements that its lookup led to. */
  ghost predicate Looked(es: seq<Event>, s: State, k: nat, v: VoteRow)
    requires Possible(es)
  {
    && MayVote(Db(s.polls, {}), v.poll, v.option) && k !in s.ballots
    && After(es) == State(s.polls, s.rows, s.ballots[k := Ballot(v, StageAfterLook(s, v))], s.begun + {k})
  }

  /** The run ends with one vote more counted, and nothing more under way. */
  ghost predicate Voted(es: seq<Event>, s: State, v: VoteRow) {
    && Possible(es) && After(es).ballots == s.ballots && After(es).polls == s.polls
    && After(es).rows.Keys == VoteStep(Db(s.polls, s.rows.Keys), v).votes
  }

  lemma OneStatementLeft(es: seq<Event>, s: State, k: nat, v: VoteRow)
    requires Possible(es) && Looked(es, s, k, v)
    ensures v in s.rows ==> Voted(es + [Drop(k)], s, v)
    ensures v !in s.rows && s.polls[v.poll].multiSelect ==> Voted(es + [Insert(k)], s, v)
  {
    if v in s.rows {
      Extend(es, Drop(k));
    } else if s.polls[v.poll].multiSelect {
      Extend(es, Insert(k));
    }
  }

  lemma TwoStatementsLeft(es: seq<Event>, s: State, k: nat, v: VoteRow)
    requires Possible(es) && Looked(es, s, k, v) && v !in s.rows && !s.polls[v.poll].multiSelect
    ensures Voted(es + [Clear(k), Insert(k)], s, v)
  {
    ExtendTwo(es, Clear(k), Insert(k));
  }

  /** A vote whose statements run one after the other is one `VoteStep`, and leaves nothing under way. */
  lemma WholeVote(es: seq<Event>, k: nat, v: VoteRow)
    requires Possible(es) && k !in After(es).begun && k !in After(es).ballots
    ensures var s, es' := After(es), es + Statements(After(es), k, v);
            Voted(es', s, v)
  {
    var s := After(es);
    if !MayVote(Db(s.polls, {}), v.poll, v.option) {
      Extend(es, Load(k, v));
    } else {
      LoadAndLook(es, k, v);
      var es' := es + [Load(k, v), Look(k)];
      if v in s.rows || s.polls[v.poll].multiSelect {
        OneStatementLeft(es', s, k, v);
        var last := if v in s.rows then Drop(k) else Insert(k);
        assert es' + [last] == es + Statements(s, k, v);
      } else {
        TwoStatementsLeft(es', s, k, v);
        assert es' + [Clear(k), Insert(k)] == es + Statements(s, k, v);
      }
    }
  }

  /** Every vote under way is for an existing poll, and was numbered. */
  ghost predicate BallotsConsistent(s: State) {
    s.ballots.Keys <= s.begun && forall k :: k in s.ballots ==> s.ballots[k].vote.poll in s.polls
  }

  lemma {:induction false} RunBallotsConsistent(es: seq<Event>)
    requires Possible(es)
    ensures BallotsConsistent(After(es))
    decreases |es|
  {
    if es != [] {
      RunBallotsConsistent(Before(es));
    }
  }

  // ---------- A closed poll ----------

  function VotesOnPoll(s: State, poll: string): set<VoteRow> {
    set v | v in s.rows && v.poll == poll
  }

  predicate Closed(s: State, poll: string) {
    poll in s.polls && s.polls[poll].closed
  }

  /** The statements that the vote has still to make change something on the poll. */
  predicate Effective(s: State, k: nat, poll: string) {
    && k in s.ballots && s.ballots[k].vote.poll == poll
    && var v := s.ballots[k].vote;
       match s.ballots[k].stage
       case Loaded => true
       case Dropping(id) => v in s.rows && s.rows[v] == id
       case Clearing => true
       case Inserting => v !in s.rows
  }

  ghost predicate CanStillChange(es: seq<Event>, poll: string)
    requires Possible(es)
  {
    exists fs: seq<Event> :: Possible(es + fs) && VotesOnPoll(After(es + fs), poll) != VotesOnPoll(After(es), poll)
  }

  /** Some vote under way still changes something. */
  ghost predicate ChangePending(s: State, poll: string) {
    exists k: nat :: Effective(s, k, poll)
  }

  ghost predicate Settled(s: State, poll: string) {
    Closed(s, poll) && !ChangePending(s, poll)
  }

  lemma StepSettled(s: State, e: Event, poll: string)
    requires Settled(s, poll) && BallotsConsistent(s) && Enabled(s, e)
    ensures Settled(Apply(s, e), poll) && VotesOnPoll(Apply(s, e), poll) == VotesOnPoll(s, poll)
  {
    var s' := Apply(s, e);
    SettledRows(s, e, poll);
    forall k: nat
      ensures !Effective(s', k, poll)
    {
      assert !Effective(s, k, poll);
    }
  }

  lemma SettledRows(s: State, e: Event, poll: string)
    requires Settled(s, poll) && Enabled(s, e)
    ensures forall v: VoteRow :: v.poll == poll ==> (v in Apply(s, e).rows <==> v in s.rows)
    ensures forall v: VoteRow :: v.poll == poll && v in s.rows ==> Apply(s, e).rows[v] == s.rows[v]
  {
    if e.Drop? || e.Clear? || e.Insert? {
      assert !Effective(s, e.request, poll);
    }
  }

  lemma {:induction false} SettledForGood(es: seq<Event>, fs: seq<Event>, poll: string)
    requires Possible(es) && Settled(After(es), poll) && Possible(es + fs)
    ensures Settled(After(es + fs), poll) && VotesOnPoll(After(es + fs), poll) == VotesOnPoll(After(es), poll)
    decreases |fs|
  {
    if fs == [] {
      assert es + fs == es;
    } else {
      assert Before(es + fs) == es + Before(fs) && Last(es + fs) == Last(fs);
      SettledForGood(es, Before(fs), poll);
      RunBallotsConsistent(es + Before(fs));
      StepSettled(After(es + Before(fs)), Last(fs), poll);
    }
  }

  lemma ChangesLater(es: seq<Event>, e: Event, poll: string)
    requires Possible(es) && Enabled(After(es), e) && Possible(es + [e]) && CanStillChange(es + [e], poll)
    requires VotesOnPoll(After(es + [e]), poll) == VotesOnPoll(After(es), poll)
    ensures CanStillChange(es, poll)
  {
    var fs :| Possible(es + [e] + fs) && VotesOnPoll(After(es + [e] + fs), poll) != VotesOnPoll(After(es + [e]), poll);
    assert es + [e] + fs == es + ([e] + fs);
  }

  lemma ChangesNow(es: seq<Event>, e: Event, poll: string)
    requires Possible(es) && Enabled(After(es), e) && Possible(es + [e])
    requires VotesOnPoll(After(es + [e]), poll) != VotesOnPoll(After(es), poll)
    ensures CanStillChange(es, poll)
  {
  }

  lemma DropChanges(es: seq<Event>, k: nat, poll: string)
    requires Possible(es) && Effective(After(es), k, poll) && After(es).ballots[k].stage.Dropping?
    ensures CanStillChange(es, poll)
  {
    var s, v := After(es), After(es).ballots[k].vote;
    Extend(es, Drop(k));
    assert v in VotesOnPoll(s, poll) && v !in VotesOnPoll(Apply(s, Drop(k)), poll);
    ChangesNow(es, Drop(k), poll);
  }

  lemma InsertChanges(es: seq<Event>, k: nat, poll: string)
    requires Possible(es) && Effective(After(es), k, poll) && InStage(After(es), k, Inserting)
    ensures CanStillChange(es, poll)
  {
    var s, v := After(es), After(es).ballots[k].vote;
    Extend(es, Insert(k));
    assert v !in VotesOnPoll(s, poll) && v in VotesOnPoll(Apply(s, Insert(k)), poll);
    ChangesNow(es, Insert(k), poll);
  }

  lemma ClearChanges(es: seq<Event>, k: nat, poll: string)
    requires Possible(es) && Effective(After(es), k, poll) && InStage(After(es), k, Clearing)
    ensures CanStillChange(es, poll)
  {
    var s := After(es);
    Extend(es, Clear(k));
    if VotesOnPoll(Apply(s, Clear(k)), poll) == VotesOnPoll(s, poll) {
      InsertChanges(es + [Clear(k)], k, poll);
      ChangesLater(es, Clear(k), poll);
    } else {
      ChangesNow(es, Clear(k), poll);
    }
  }

  lemma EffectiveChanges(es: seq<Event>, k: nat, poll: string)
    requires Possible(es) && Effective(After(es), k, poll)
    ensures CanStillChange(es, poll)
  {
    RunBallotsConsistent(es);
    match After(es).ballots[k].stage
    case Dropping(_) => DropChanges(es, k, poll);
    case Clearing => ClearChanges(es, k, poll);
    case Inserting => InsertChanges(es, k, poll);
    case Loaded =>
      Extend(es, Look(k));
      var es' := es + [Look(k)];
      match After(es').ballots[k].stage {
        case Dropping(_) => DropChanges(es', k, poll);
        case Clearing => ClearChanges(es', k, poll);
        case Inserting => InsertChanges(es', k, poll);
        case Loaded =>
      }
      ChangesLater(es, Look(k), poll);
  }

  /**
   The votes of a closed poll can still change exactly when a vote is under way, loaded before the
   poll was closed, whose remaining statements have an effect. Without one they never change again.
   */
  lemma ClosedPollCanChangeIff(es: seq<Event>, poll: string)
    requires Possible(es) && Closed(After(es), poll)
    ensures CanStillChange(es, poll) <==> ChangePending(After(es), poll)
  {
    if ChangePending(After(es), poll) {
      var k: nat :| Effective(After(es), k, poll);
      EffectiveChanges(es, k, poll);
    }
    if CanStillChange(es, poll) && Settled(After(es), poll) {
      var fs :| Possible(es + fs) && VotesOnPoll(After(es + fs), poll) != VotesOnPoll(After(es), poll);
      SettledForGood(es, fs, poll);
      assert false;
    }
  }

  /** A vote under way loaded its poll while it was open. */
  lemma {:induction false} LoadedWhileOpen(es: seq<Event>, k: nat)
    requires Possible(es) && k in After(es).ballots
    ensures exists i: nat :: i < |es| && es[i] == Load(k, After(es).ballots[k].vote) &&
                             !Closed(At(es, i), After(es).ballots[k].vote.poll)
    decreases |es|
  {
    var v := After(es).ballots[k].vote;
    RunBallotsConsistent(Before(es));
    if k in After(Before(es)).ballots {
      LoadedWhileOpen(Before(es), k);
      var i: nat :| i < |Before(es)| && Before(es)[i] == Load(k, v) && !Closed(At(Before(es), i), v.poll);
      assert Before(es)[..i] == es[..i];
      assert es[i] == Load(k, v) && !Closed(At(es, i), v.poll);
    } else {
      assert es[..|es| - 1] == Before(es);
      assert es[|es| - 1] == Load(k, v) && !Closed(At(es, |es| - 1), v.poll);
    }
  }

  // ---------- Two votes on one ballot ----------

  /** Row `v` is there from moment `p` on. */
  ghost predicate Stays(es: seq<Event>, p: nat, v: VoteRow)
    requires Possible(es)
  {
    p <= |es| && forall m: nat :: p <= m <= |es| ==> v in At(es, m).rows
  }

  /**
   Request `k` cleared the ballot at step `c` and inserted `w` at step `j`; in between, at step `i`,
   another request inserted `v`; and both rows have stayed.
   */
  ghost predicate Overtaken(es: seq<Event>, v: VoteRow, w: VoteRow, c: nat, i: nat, j: nat, k: nat, k': nat)
    requires Possible(es)
  {
    && c < i < j < |es| && k != k'
    && es[c] == Clear(k) && es[i] == Insert(k') && es[j] == Insert(k)
    && Stays(es, i + 1, v) && Stays(es, j + 1, w)
  }

  ghost predicate BothInserted(es: seq<Event>, v: VoteRow, w: VoteRow)
    requires Possible(es)
  {
    exists c: nat, i: nat, j: nat, k: nat, k': nat :: Overtaken(es, v, w, c, i, j, k, k')
  }

  /** Polls that exist stay as they are, but for their closing. */
  lemma {:induction false} PollsKept(es: seq<Event>, p: nat, poll: string)
    requires Possible(es) && p <= |es| && poll in At(es, p).polls
    ensures poll in After(es).polls && After(es).polls[poll].multiSelect == At(es, p).polls[poll].multiSelect
    decreases |es|
  {
    if p == |es| {
      assert es[..p] == es;
    } else {
      assert Before(es)[..p] == es[..p];
      PollsKept(Before(es), p, poll);
    }
  }

  ghost predicate Single(s: State, poll: string) {
    poll in s.polls ==> !s.polls[poll].multiSelect
  }

  lemma SingleThroughout(es: seq<Event>, p: nat, poll: string)
    requires Possible(es) && p <= |es| && Single(After(es), poll)
    ensures Single(At(es, p), poll)
  {
    if poll in At(es, p).polls {
      PollsKept(es, p, poll);
    }
  }

  /** Where a request cleared its user's ballot, last. */
  function ClearPos(es: seq<Event>, k: nat): nat
    decreases |es|
  {
    if es == [] then 0 else if Last(es) == Clear(k) then |es| - 1 else ClearPos(Before(es), k)
  }

  ghost predicate Emptied(s: State, v: VoteRow) {
    forall w :: w in s.rows ==> !SameBallot(v, w)
  }

  /** About to insert since its clear at `c`, which left the ballot empty. */
  ghost predicate InsertsSince(es: seq<Event>, k: nat, c: nat)
    requires Possible(es)
  {
    && c < |es| && es[c] == Clear(k)
    && (forall m: nat :: c < m <= |es| ==> InStage(At(es, m), k, Inserting))
    && k in After(es).ballots && Emptied(At(es, c + 1), After(es).ballots[k].vote)
  }

  /** On a single-select poll, a request about to insert has cleared the ballot. */
  lemma {:induction false} InsertingHasCleared(es: seq<Event>, k: nat)
    requires Possible(es) && InStage(After(es), k, Inserting)
    requires Single(After(es), After(es).ballots[k].vote.poll)
    ensures InsertsSince(es, k, ClearPos(es, k))
    decreases |es|
  {
    RunBallotsConsistent(Before(es));
    assert es[..|es|] == es && es[..|es| - 1] == Before(es);
    if Last(es) != Clear(k) {
      SingleThroughout(es, |es| - 1, After(es).ballots[k].vote.poll);
      StillInserting(After(Before(es)), Last(es), k);
      InsertingHasCleared(Before(es), k);
      InsertsSinceNext(es, k, ClearPos(Before(es), k));
    }
  }

  lemma InsertsSinceNext(es: seq<Event>, k: nat, c: nat)
    requires Possible(es) && es != [] && InsertsSince(Before(es), k, c) && InStage(After(es), k, Inserting)
    requires After(es).ballots[k].vote == After(Before(es)).ballots[k].vote
    ensures InsertsSince(es, k, c)
  {
    assert es[..|es|] == es;
    forall m: nat | m < |es|
      ensures Before(es)[..m] == es[..m]
    {
    }
    forall m: nat | c < m <= |es|
      ensures InStage(At(es, m), k, Inserting)
    {
      if m < |es| {
        assert InStage(At(Before(es), m), k, Inserting);
      }
    }
  }

  lemma StillInserting(s: State, e: Event, k: nat)
    requires BallotsConsistent(s) && Enabled(s, e) && e != Clear(k) && InStage(Apply(s, e), k, Inserting)
    requires Single(s, Apply(s, e).ballots[k].vote.poll)
    ensures InStage(s, k, Inserting) && s.ballots[k].vote == Apply(s, e).ballots[k].vote
  {
  }

  /** Only inserts add rows. */
  lemma EntersByInsert(es: seq<Event>, j: nat, x: VoteRow)
    requires Possible(es) && j < |es| && x !in At(es, j).rows && x in At(es, j + 1).rows
    ensures es[j].Insert? && InStage(At(es, j), es[j].request, Inserting)
    ensures At(es, j).ballots[es[j].request].vote == x
  {
    NextState(es, j);
  }

  /** The table of votes at every moment, and for every insert where its request cleared the ballot. */
  ghost function Tables(es: seq<Event>): seq<set<VoteRow>>
    requires Possible(es)
  {
    seq(|es| + 1, m requires 0 <= m <= |es| => At(es, m).rows.Keys)
  }

  function Clears(es: seq<Event>): seq<nat> {
    seq(|es|, j requires 0 <= j < |es| => if es[j].Insert? then ClearPos(es[..j], es[j].request) else 0)
  }

  lemma EntersAfterClear(es: seq<Event>, j: nat, x: VoteRow)
    requires Possible(es) && j < |es| && Single(After(es), x.poll)
    requires x !in At(es, j).rows && x in At(es, j + 1).rows
    ensures es[j].Insert?
    ensures var c, k := ClearPos(es[..j], es[j].request), es[j].request;
            && c < j && es[c] == Clear(k) && Emptied(At(es, c + 1), x)
            && forall m: nat :: c < m <= j ==> InStage(At(es, m), k, Inserting)
  {
    EntersByInsert(es, j, x);
    SingleThroughout(es, j, x.poll);
    PrefixPossible(es, j);
    InsertingHasCleared(es[..j], es[j].request);
    forall m: nat | m <= j
      ensures es[..j][..m] == es[..m]
    {
    }
    var c, k := ClearPos(es[..j], es[j].request), es[j].request;
    assert es[..j][c] == es[c];
    forall m: nat | c < m <= j
      ensures InStage(At(es, m), k, Inserting)
    {
      assert InStage(At(es[..j], m), k, Inserting);
    }
  }

  predicate OnBallot(v: VoteRow, poll: string, user: string) {
    v.poll == poll && v.user == user
  }

  lemma OneEntersAtATime(es: seq<Event>, j: nat, x: VoteRow, y: VoteRow)
    requires Possible(es) && j < |es| && Races.Enters(Tables(es), j, x) && Races.Enters(Tables(es), j, y)
    ensures x == y
  {
    EntersByInsert(es, j, x);
    EntersByInsert(es, j, y);
  }

  lemma EmptiedBefore(es: seq<Event>, j: nat, x: VoteRow)
    requires Possible(es) && j < |es| && Single(After(es), x.poll) && Races.Enters(Tables(es), j, x)
    ensures var c := Clears(es)[j];
            c < j && forall y: VoteRow :: OnBallot(y, x.poll, x.user) ==> y !in Tables(es)[c + 1]
  {
    EntersAfterClear(es, j, x);
  }

  lemma BallotIsClearThenInsert(es: seq<Event>, poll: string, user: string)
    requires Possible(es) && Single(After(es), poll)
    ensures Races.ClearThenInsert(Tables(es), Clears(es), (v: VoteRow) => OnBallot(v, poll, user))
  {
    var tables, clears := Tables(es), Clears(es);
    forall j, x: VoteRow, y: VoteRow
      | 0 <= j < |es| && OnBallot(x, poll, user) && OnBallot(y, poll, user) &&
        Races.Enters(tables, j, x) && Races.Enters(tables, j, y)
      ensures x == y
    {
      OneEntersAtATime(es, j, x, y);
    }
    forall j, x: VoteRow | 0 <= j < |es| && OnBallot(x, poll, user) && Races.Enters(tables, j, x)
      ensures clears[j] < j && forall y: VoteRow :: OnBallot(y, poll, user) ==> y !in tables[clears[j] + 1]
    {
      EmptiedBefore(es, j, x);
    }
  }

  lemma StaysForGood(es: seq<Event>, i: nat, v: VoteRow)
    requires Possible(es) && Races.EntersForGood(Tables(es), i, v)
    ensures i < |es| && v !in At(es, i).rows && v in At(es, i + 1).rows && Stays(es, i + 1, v)
  {
    forall m: nat | i + 1 <= m <= |es|
      ensures v in At(es, m).rows
    {
      assert v in Tables(es)[m];
    }
  }

  lemma OvertakesIsOvertaken(es: seq<Event>, v: VoteRow, w: VoteRow)
    requires Possible(es) && Single(After(es), v.poll) && SameBallot(v, w) && v != w
    requires Races.Overtakes(Tables(es), Clears(es), v, w)
    ensures BothInserted(es, v, w)
  {
    var tables, clears := Tables(es), Clears(es);
    var i: nat, j: nat :| j < |clears| && clears[j] < i < j &&
                          Races.EntersForGood(tables, i, v) && Races.EntersForGood(tables, j, w);
    StaysForGood(es, i, v);
    StaysForGood(es, j, w);
    EntersByInsert(es, i, v);
    EntersAfterClear(es, j, w);
    OthersInsert(es, clears[j], i, j, v, w);
  }

  lemma OthersInsert(es: seq<Event>, c: nat, i: nat, j: nat, v: VoteRow, w: VoteRow)
    requires Possible(es) && c < i < j < |es| && es[i].Insert? && es[j].Insert? && es[c] == Clear(es[j].request)
    requires forall m: nat :: c < m <= j ==> InStage(At(es, m), es[j].request, Inserting)
    requires Stays(es, i + 1, v) && Stays(es, j + 1, w)
    ensures BothInserted(es, v, w)
  {
    NextState(es, i);
    assert InStage(At(es, i + 1), es[j].request, Inserting);
    assert Overtaken(es, v, w, c, i, j, es[j].request, es[i].request);
  }

  /**
   A user holds two votes on a single-select poll exactly when two of their requests overlapped: one
   cleared the ballot, the other inserted its vote, the first inserted its own, and both rows stayed.
   */
  lemma TwoVotesIff(es: seq<Event>, v: VoteRow, w: VoteRow)
    requires Possible(es) && v != w && SameBallot(v, w) && Single(After(es), v.poll)
    ensures v in After(es).rows && w in After(es).rows <==> BothInserted(es, v, w) || BothInserted(es, w, v)
  {
    assert es[..|es|] == es;
    if v in After(es).rows && w in After(es).rows {
      BallotIsClearThenInsert(es, v.poll, v.user);
      Races.TwoRowsIff(Tables(es), Clears(es), (x: VoteRow) => OnBallot(x, v.poll, v.user), v, w);
      if Races.Overtakes(Tables(es), Clears(es), v, w) {
        OvertakesIsOvertaken(es, v, w);
      } else {
        OvertakesIsOvertaken(es, w, v);
      }
    }
    if BothInserted(es, v, w) {
      BothThere(es, v, w);
    }
    if BothInserted(es, w, v) {
      BothThere(es, w, v);
    }
  }

  lemma BothThere(es: seq<Event>, v: VoteRow, w: VoteRow)
    requires Possible(es) && BothInserted(es, v, w)
    ensures v in After(es).rows && w in After(es).rows
  {
    var c: nat, i: nat, j: nat, k: nat, k': nat :| Overtaken(es, v, w, c, i, j, k, k');
    assert es[..|es|] == es;
    assert v in At(es, |es|).rows && w in At(es, |es|).rows;
  }

  // ---------- The runs ----------

  const POLL := PollRow("alice", false, false, false, ["yes", "no"])
  const YES := VoteRow("p", "yes", "bob")
  const NO := VoteRow("p", "no", "bob")

  const BOTH_LOADED := [Create("p", POLL), Load(0, YES), Load(1, NO)]
  const BOTH_CLEARED := BOTH_LOADED + [Look(0)] + [Look(1)] + [Clear(0)] + [Clear(1)]

  lemma TwoLoaded()
    ensures Possible(BOTH_LOADED)
    ensures After(BOTH_LOADED) ==
            State(map["p" := POLL], map[], map[0 := Ballot(YES, Loaded), 1 := Ballot(NO, Loaded)], {0, 1})
  {
    var es := BOTH_LOADED;
    assert [es[0]] == [] + [es[0]];
    Extend([], es[0]);
    assert [es[0], es[1]] == [es[0]] + [es[1]];
    Extend([es[0]], es[1]);
    assert es == [es[0], es[1]] + [es[2]];
    Extend([es[0], es[1]], es[2]);
  }

  lemma TwoCleared()
    ensures Possible(BOTH_CLEARED)
    ensures After(BOTH_CLEARED) ==
            State(map["p" := POLL], map[], map[0 := Ballot(YES, Inserting), 1 := Ballot(NO, Inserting)], {0, 1})
  {
    TwoLoaded();
    Extend(BOTH_LOADED, Look(0));
    Extend(BOTH_LOADED + [Look(0)], Look(1));
    var es := BOTH_LOADED + [Look(0)] + [Look(1)];
    assert After(es).ballots == map[0 := Ballot(YES, Clearing), 1 := Ballot(NO, Clearing)];
    Extend(es, Clear(0));
    Extend(es + [Clear(0)], Clear(1));
  }

  /** Two overlapping votes of one user leave two rows on a single-select poll. */
  lemma TwoVotesOnOneBallot()
    ensures var es := BOTH_CLEARED + [Insert(0)] + [Insert(1)];
            Possible(es) && YES in After(es).rows && NO in After(es).rows && Single(After(es), "p")
  {
    TwoCleared();
    Extend(BOTH_CLEARED, Insert(0));
    Extend(BOTH_CLEARED + [Insert(0)], Insert(1));
  }

  /** A vote that loaded the poll before it was closed lands after. */
  lemma VoteAfterClose()
    ensures var es := BOTH_CLEARED + [Close("p", "alice")];
            var es' := es + [Insert(0)];
            && Possible(es) && Closed(After(es), "p") && YES !in After(es).rows
            && Possible(es') && YES in After(es').rows
  {
    TwoCleared();
    Extend(BOTH_CLEARED, Close("p", "alice"));
    Extend(BOTH_CLEARED + [Close("p", "alice")], Insert(0));
  }
}
