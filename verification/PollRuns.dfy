/**
 What any history of polls, votes and closings leaves in the table of votes, each request running
 whole; `PollRaces` takes votes apart.
 */
module PollRuns {
  import opened Common
  import opened Polls

  datatype Event =
    | Create(poll: string, row: PollRow)
    | Cast(vote: VoteRow)
    | Close(poll: string, user: string)

  const EMPTY := Db(map[], {})

  /** Poll and option ids are never reused. */
  ghost predicate Enabled(db: Db, e: Event) {
    e.Create? ==>
      && e.poll !in db.polls && !e.row.closed && Distinct(e.row.options)
      && forall p, o :: p in db.polls && o in e.row.options ==> o !in db.polls[p].options
  }

  function Apply(db: Db, e: Event): Db {
    match e
    case Create(p, row) => db.(polls := db.polls[p := row])
    case Cast(v) => VoteStep(db, v)
    case Close(p, user) => CloseStep(db, p, user)
  }

  // ---------- Runs, newest event last ----------

  function After(es: seq<Event>): Db
    decreases |es|
  {
    if es == [] then EMPTY else Apply(After(Before(es)), Last(es))
  }

  ghost predicate Possible(es: seq<Event>)
    decreases |es|
  {
    es == [] || (Possible(Before(es)) && Enabled(After(Before(es)), Last(es)))
  }

  // ---------- What the events say about a poll ----------

  /** How a poll was created. */
  function Created(es: seq<Event>, poll: string): Option<PollRow>
    decreases |es|
  {
    if es == [] then None
    else if Last(es).Create? && Last(es).poll == poll then Some(Last(es).row)
    else Created(Before(es), poll)
  }

  /** Its creator has closed the poll. */
  predicate ClosedByCreator(es: seq<Event>, poll: string)
    decreases |es|
  {
    es != [] &&
    (ClosedByCreator(Before(es), poll)
     || (Last(es).Close? && Last(es).poll == poll
         && Created(Before(es), poll).Some? && Last(es).user == Created(Before(es), poll).value.creator))
  }

  /** The poll is open and has the option. */
  predicate TakesVote(es: seq<Event>, poll: string, option: string) {
    Created(es, poll).Some? && !ClosedByCreator(es, poll) && option in Created(es, poll).value.options
  }

  /** A poll is as it was created, and closed exactly if its creator has closed it. */
  lemma {:induction false} PollByHistory(es: seq<Event>, poll: string)
    requires Possible(es)
    ensures poll in After(es).polls <==> Created(es, poll).Some?
    ensures poll in After(es).polls ==>
              After(es).polls[poll] == Created(es, poll).value.(closed := ClosedByCreator(es, poll))
    ensures Created(es, poll).None? ==> !ClosedByCreator(es, poll)
    decreases |es|
  {
    if es != [] {
      PollByHistory(Before(es), poll);
    }
  }

  lemma {:induction false} TakesVoteIff(es: seq<Event>, poll: string, option: string)
    requires Possible(es)
    ensures TakesVote(es, poll, option) <==> MayVote(After(es), poll, option)
  {
    PollByHistory(es, poll);
  }

  /** The options one user voted for on one poll, as far as the poll took the vote. */
  function Choices(es: seq<Event>, poll: string, user: string): seq<string>
    decreases |es|
  {
    if es == [] then []
    else
      var earlier := Choices(Before(es), poll, user);
      match Last(es)
      case Cast(v) =>
        if v.poll == poll && v.user == user && TakesVote(Before(es), poll, v.option)
        then earlier + [v.option]
        else earlier
      case _ => earlier
  }

  // ---------- The closed form ----------

  /** How many of the latest choices, without a break, are `o`. */
  function TrailingRun(choices: seq<string>, o: string): nat
    decreases |choices|
  {
    if choices == [] || Last(choices) != o then 0
    else 1 + TrailingRun(Before(choices), o)
  }

  /**
   With a single selection: the latest choice, if it was made an odd number of times in a row.
   With many: whatever was chosen an odd number of times.
   */
  predicate Holds(choices: seq<string>, multiSelect: bool, o: string) {
    if multiSelect then multiset(choices)[o] % 2 == 1 else TrailingRun(choices, o) % 2 == 1
  }

  lemma HoldsNext(choices: seq<string>, multiSelect: bool, o: string, next: string)
    ensures Holds(choices + [next], multiSelect, o) ==
            if o == next then !Holds(choices, multiSelect, o) else multiSelect && Holds(choices, multiSelect, o)
  {
    assert (choices + [next])[..|choices + [next]| - 1] == choices;
  }

  /** Votes are only ever cast on the options of an existing poll. */
  ghost predicate VotesBelong(db: Db) {
    && (forall v :: v in db.votes ==> v.poll in db.polls && v.option in db.polls[v.poll].options)
    && (forall p :: p in db.polls ==> Distinct(db.polls[p].options))
    && (forall p, q, o :: p in db.polls && q in db.polls && o in db.polls[p].options && o in db.polls[q].options ==>
         p == q)
  }

  lemma {:induction false} RunVotesBelong(es: seq<Event>)
    requires Possible(es)
    ensures VotesBelong(After(es))
    decreases |es|
  {
    if es != [] {
      RunVotesBelong(Before(es));
    }
  }

  /** No choice is recorded on a poll before it exists. */
  lemma {:induction false} NoPollNoChoice(es: seq<Event>, poll: string, user: string)
    requires Possible(es) && poll !in After(es).polls
    ensures Choices(es, poll, user) == []
    decreases |es|
  {
    if es != [] {
      NoPollNoChoice(Before(es), poll, user);
      PollByHistory(Before(es), poll);
    }
  }

  /**
   The closed form: whatever else happens, a user's vote for an option is in the table exactly when
   the user's own choices on that poll say so.
   */
  lemma {:induction false} VoteClosedForm(es: seq<Event>, v: VoteRow)
    requires Possible(es)
    ensures v in After(es).votes <==>
            && Created(es, v.poll).Some?
            && Holds(Choices(es, v.poll, v.user), Created(es, v.poll).value.multiSelect, v.option)
    decreases |es|
  {
    if es != [] {
      var db := After(Before(es));
      VoteClosedForm(Before(es), v);
      PollByHistory(Before(es), v.poll);
      match Last(es)
      case Create(p, _) =>
        if p == v.poll {
          NoPollNoChoice(Before(es), p, v.user);
        }
      case Cast(w) =>
        TakesVoteIff(Before(es), w.poll, w.option);
        if w.poll == v.poll && w.user == v.user && MayVote(db, w.poll, w.option) {
          if w != v {
            VoteClosedForm(Before(es), w);
          }
          CastClosedForm(db, Choices(Before(es), v.poll, v.user), v, w);
        }
      case Close(_, _) =>
    }
  }

  /** One vote moves the ballot as it moves the closed form. */
  lemma CastClosedForm(db: Db, choices: seq<string>, v: VoteRow, w: VoteRow)
    requires w.poll == v.poll && w.user == v.user && MayVote(db, w.poll, w.option)
    requires v in db.votes <==> Holds(choices, db.polls[v.poll].multiSelect, v.option)
    requires w in db.votes <==> Holds(choices, db.polls[v.poll].multiSelect, w.option)
    ensures v in VoteStep(db, w).votes <==> Holds(choices + [w.option], db.polls[v.poll].multiSelect, v.option)
  {
    var multiSelect := db.polls[v.poll].multiSelect;
    HoldsNext(choices, multiSelect, v.option, w.option);
    ToggleMembership(db.votes, multiSelect, w, v);
    if w != v {
      OneHeld(choices, w.option, v.option);
    }
  }

  lemma ToggleMembership(votes: set<VoteRow>, multiSelect: bool, w: VoteRow, v: VoteRow)
    ensures v in Toggle(votes, multiSelect, w) <==>
            if v == w then w !in votes
            else if multiSelect || v.poll != w.poll || v.user != w.user then v in votes
            else v in votes && w in votes
  {
  }

  /** With a single selection at most one option is held. */
  lemma OneHeld(choices: seq<string>, o: string, p: string)
    requires o != p
    ensures !(Holds(choices, false, o) && Holds(choices, false, p))
  {
  }

  /** On a single-select poll every user has at most one vote. */
  lemma SingleSelectOneVote(es: seq<Event>, v: VoteRow, w: VoteRow)
    requires Possible(es) && v in After(es).votes && w in After(es).votes
    requires v.poll == w.poll && v.user == w.user
    requires v.poll in After(es).polls && !After(es).polls[v.poll].multiSelect
    ensures v == w
  {
    VoteClosedForm(es, v);
    VoteClosedForm(es, w);
    PollByHistory(es, v.poll);
    if v.option != w.option {
      OneHeld(Choices(es, v.poll, v.user), v.option, w.option);
    }
  }

  // ---------- Votes of different users commute ----------

  function Casts(votes: seq<VoteRow>): seq<Event> {
    seq(|votes|, i requires 0 <= i < |votes| => Cast(votes[i]))
  }

  /** One user's votes, in order. */
  function Own(votes: seq<VoteRow>, user: string): seq<VoteRow>
    decreases |votes|
  {
    if votes == [] then []
    else
      var last := Last(votes);
      Own(Before(votes), user) + if last.user == user then [last] else []
  }

  /** The options of the votes that the polls of `db` take on one poll. */
  function TakenOn(db: Db, votes: seq<VoteRow>, poll: string): seq<string>
    decreases |votes|
  {
    if votes == [] then []
    else
      TakenOn(db, Before(votes), poll) + ChoiceOf(db, Last(votes), poll)
  }

  lemma {:induction false} RunOfCasts(es: seq<Event>, votes: seq<VoteRow>)
    requires Possible(es)
    ensures Possible(es + Casts(votes)) && After(es + Casts(votes)).polls == After(es).polls
    decreases |votes|
  {
    if votes == [] {
      assert es + Casts(votes) == es;
    } else {
      RunOfCasts(es, Before(votes));
      assert Before(es + Casts(votes)) == es + Casts(Before(votes));
    }
  }

  /** The choice that one vote adds on a poll of `db`. */
  function ChoiceOf(db: Db, v: VoteRow, poll: string): seq<string> {
    if v.poll == poll && MayVote(db, poll, v.option) then [v.option] else []
  }

  lemma CastsNext(es: seq<Event>, votes: seq<VoteRow>, poll: string, user: string)
    requires Possible(es) && votes != []
    ensures Choices(es + Casts(votes), poll, user) ==
            Choices(es + Casts(Before(votes)), poll, user)
            + if Last(votes).user == user then ChoiceOf(After(es), Last(votes), poll) else []
  {
    RunOfCasts(es, Before(votes));
    assert Before(es + Casts(votes)) == es + Casts(Before(votes));
    assert Last(es + Casts(votes)) == Cast(Last(votes));
    TakesVoteIff(es + Casts(Before(votes)), poll, Last(votes).option);
  }

  lemma TakenNext(db: Db, votes: seq<VoteRow>, poll: string, user: string)
    requires votes != []
    ensures TakenOn(db, Own(votes, user), poll) ==
            TakenOn(db, Own(Before(votes), user), poll)
            + if Last(votes).user == user then ChoiceOf(db, Last(votes), poll) else []
  {
    var own := Own(votes, user);
    if Last(votes).user == user {
      assert Before(own) == Own(Before(votes), user) && Last(own) == Last(votes);
    } else {
      assert own == Own(Before(votes), user);
    }
  }

  lemma {:induction false} ChoicesAfterCasts(es: seq<Event>, votes: seq<VoteRow>, poll: string, user: string)
    requires Possible(es)
    ensures Choices(es + Casts(votes), poll, user) ==
            Choices(es, poll, user) + TakenOn(After(es), Own(votes, user), poll)
    decreases |votes|
  {
    if votes == [] {
      assert es + Casts(votes) == es;
    } else {
      ChoicesAfterCasts(es, Before(votes), poll, user);
      CastsNext(es, votes, poll, user);
      TakenNext(After(es), votes, poll, user);
    }
  }

  /** Two sequences of votes in which every user votes alike leave the same votes, in any interleaving. */
  lemma VoteConfluence(es: seq<Event>, a: seq<VoteRow>, b: seq<VoteRow>)
    requires Possible(es) && forall user :: Own(a, user) == Own(b, user)
    ensures After(es + Casts(a)) == After(es + Casts(b))
  {
    RunOfCasts(es, a);
    RunOfCasts(es, b);
    forall v: VoteRow
      ensures v in After(es + Casts(a)).votes <==> v in After(es + Casts(b)).votes
    {
      VoteClosedForm(es + Casts(a), v);
      VoteClosedForm(es + Casts(b), v);
      PollByHistory(es + Casts(a), v.poll);
      PollByHistory(es + Casts(b), v.poll);
      ChoicesAfterCasts(es, a, v.poll, v.user);
      ChoicesAfterCasts(es, b, v.poll, v.user);
    }
  }

  // ---------- Tallies ----------

  function TotalCount(options: seq<OptionResponse>): nat {
    if options == [] then 0 else options[0].voteCount + TotalCount(options[1..])
  }

  function TotalPercentage(options: seq<OptionResponse>): real {
    if options == [] then 0.0 else options[0].percentage + TotalPercentage(options[1..])
  }

  ghost predicate Tallies(options: seq<OptionResponse>, votes: set<VoteRow>, total: nat) {
    && (forall i :: 0 <= i < |options| ==>
         options[i].voteCount == |VotesOn(votes, options[i].id)|
         && options[i].percentage == Percentage(options[i].voteCount, total))
    && (forall i, j :: 0 <= i < j < |options| ==> options[i].id != options[j].id)
  }

  ghost function VotesOnAny(votes: set<VoteRow>, options: seq<OptionResponse>): set<VoteRow> {
    set v | v in votes && exists i :: 0 <= i < |options| && options[i].id == v.option
  }

  lemma {:induction false} CountsAddUp(options: seq<OptionResponse>, votes: set<VoteRow>, total: nat)
    requires Tallies(options, votes, total)
    ensures TotalCount(options) == |VotesOnAny(votes, options)|
  {
    if options != [] {
      var rest := options[1..];
      CountsAddUp(rest, votes, total);
      FirstAndRest(options, votes);
    }
  }

  lemma FirstAndRest(options: seq<OptionResponse>, votes: set<VoteRow>)
    requires options != [] && forall j :: 1 <= j < |options| ==> options[0].id != options[j].id
    ensures |VotesOnAny(votes, options)| == |VotesOn(votes, options[0].id)| + |VotesOnAny(votes, options[1..])|
  {
    var first, rest := VotesOn(votes, options[0].id), VotesOnAny(votes, options[1..]);
    forall v
      ensures v in VotesOnAny(votes, options) <==> v in first + rest
    {
      if v in rest {
        var i :| 0 <= i < |options[1..]| && options[1..][i].id == v.option;
        assert options[i + 1].id == v.option;
      }
      if v in VotesOnAny(votes, options) && v !in first {
        var i :| 0 <= i < |options| && options[i].id == v.option;
        assert options[1..][i - 1].id == v.option;
      }
    }
    assert VotesOnAny(votes, options) == first + rest;
    forall v | v in first
      ensures v !in rest
    {
    }
    assert |first + rest| == |first| + |rest|;
  }

  lemma PercentageAdds(a: nat, b: nat, total: nat)
    ensures Percentage(a + b, total) == Percentage(a, total) + Percentage(b, total)
  {
    if total > 0 {
      var t := total as real;
      assert (a + b) as real / t == a as real / t + b as real / t;
    }
  }

  /** An option's percentage is its share of the total, out of a hundred. */
  predicate IsShare(o: OptionResponse, total: nat) {
    o.percentage * total as real == 100.0 * o.voteCount as real
  }

  lemma {:induction false} PercentageIsShare(count: nat, total: nat)
    ensures Percentage(count, total) * total as real == if total > 0 then 100.0 * count as real else 0.0
    ensures total == 0 ==> Percentage(count, total) == 0.0
  {
    if total > 0 {
      var t := total as real;
      assert count as real / t * t == count as real;
    }
  }

  lemma WholePercentage(total: nat)
    ensures total > 0 ==> Percentage(total, total) == 100.0
  {
  }

  lemma {:induction false} PercentagesAddUp(options: seq<OptionResponse>, votes: set<VoteRow>, total: nat)
    requires Tallies(options, votes, total)
    ensures TotalPercentage(options) == Percentage(TotalCount(options), total)
  {
    if options != [] {
      PercentagesAddUp(options[1..], votes, total);
      PercentageAdds(options[0].voteCount, TotalCount(options[1..]), total);
    }
  }

  /** In every reachable state a response's counts sum to its total and its percentages to 100. */
  lemma ResponseAddsUp(es: seq<Event>, poll: string, r: Response)
    requires Possible(es) && poll in After(es).polls
    requires r.totalVotes == |VotesIn(After(es).votes, poll)|
    requires |r.options| == |After(es).polls[poll].options|
    requires forall i :: 0 <= i < |r.options| ==>
               r.options[i].id == After(es).polls[poll].options[i]
               && Describes(r.options[i], After(es).votes, After(es).polls[poll].anonymous, r.totalVotes)
    ensures TotalCount(r.options) == r.totalVotes
    ensures r.totalVotes > 0 ==> TotalPercentage(r.options) == 100.0
    ensures forall o :: o in r.options ==> IsShare(o, r.totalVotes)
  {
    var votes := After(es).votes;
    AllVotesCounted(es, poll, r.options);
    assert Tallies(r.options, votes, r.totalVotes);
    CountsAddUp(r.options, votes, r.totalVotes);
    PercentagesAddUp(r.options, votes, r.totalVotes);
    WholePercentage(r.totalVotes);
    Shares(r.options, votes, r.totalVotes);
  }

  lemma {:induction false} Shares(options: seq<OptionResponse>, votes: set<VoteRow>, total: nat)
    requires Tallies(options, votes, total) && TotalCount(options) == total
    ensures forall o :: o in options ==> IsShare(o, total)
  {
    forall o | o in options
      ensures IsShare(o, total)
    {
      CountInTotal(options, o);
      ShareOf(o, total);
    }
  }

  lemma ShareOf(o: OptionResponse, total: nat)
    requires o.percentage == Percentage(o.voteCount, total) && o.voteCount <= total
    ensures IsShare(o, total)
  {
    PercentageIsShare(o.voteCount, total);
  }

  lemma {:induction false} CountInTotal(options: seq<OptionResponse>, o: OptionResponse)
    requires o in options
    ensures o.voteCount <= TotalCount(options)
  {
    if options[0] != o {
      CountInTotal(options[1..], o);
    }
  }

  /** The votes on a poll's options are the votes on the poll. */
  lemma AllVotesCounted(es: seq<Event>, poll: string, options: seq<OptionResponse>)
    requires Possible(es) && poll in After(es).polls
    requires |options| == |After(es).polls[poll].options|
    requires forall i :: 0 <= i < |options| ==> options[i].id == After(es).polls[poll].options[i]
    ensures VotesOnAny(After(es).votes, options) == VotesIn(After(es).votes, poll)
    ensures forall i, j :: 0 <= i < j < |options| ==> options[i].id != options[j].id
  {
    RunVotesBelong(es);
    var db := After(es);
    forall v
      ensures v in VotesOnAny(db.votes, options) <==> v in VotesIn(db.votes, poll)
    {
      if v in VotesIn(db.votes, poll) {
        var i :| 0 <= i < |db.polls[poll].options| && db.polls[poll].options[i] == v.option;
        assert options[i].id == v.option;
      }
    }
  }

  /** A closed poll stays closed and keeps its votes. */
  lemma {:induction false} ClosedPollFrozen(es: seq<Event>, k: nat, poll: string)
    requires Possible(es) && k <= |es|
    requires poll in After(es[..k]).polls && After(es[..k]).polls[poll].closed
    ensures poll in After(es).polls && After(es).polls[poll].closed
    ensures VotesIn(After(es).votes, poll) == VotesIn(After(es[..k]).votes, poll)
    decreases |es|
  {
    if k == |es| {
      assert es[..k] == es;
    } else {
      assert Before(es)[..k] == es[..k];
      ClosedPollFrozen(Before(es), k, poll);
    }
  }
}