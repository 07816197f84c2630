/**
 Polls: toggling votes, closing, and the tallies of a response.
 */
module Polls {
  import opened Common

  datatype VoteRow = VoteRow(poll: string, option: string, user: string)

  datatype PollRow = PollRow(creator: string, multiSelect: bool, anonymous: bool, closed: bool, options: seq<string>)

  datatype Db = Db(polls: map<string, PollRow>, votes: set<VoteRow>)

  /** A second vote on the same option takes the first one back. */
  function Toggle(votes: set<VoteRow>, multiSelect: bool, v: VoteRow): set<VoteRow> {
    if v in votes then votes - {v}
    else (if multiSelect then votes else votes - BallotOf(votes, v.poll, v.user)) + {v}
  }

  function BallotOf(votes: set<VoteRow>, poll: string, user: string): set<VoteRow> {
    set v | v in votes && v.poll == poll && v.user == user
  }

  predicate MayVote(db: Db, poll: string, option: string) {
    poll in db.polls && !db.polls[poll].closed && option in db.polls[poll].options
  }

  function VoteStep(db: Db, v: VoteRow): Db {
    if MayVote(db, v.poll, v.option)
    then db.(votes := Toggle(db.votes, db.polls[v.poll].multiSelect, v))
    else db
  }

  predicate MayClose(db: Db, poll: string, user: string) {
    poll in db.polls && db.polls[poll].creator == user
  }

  function CloseStep(db: Db, poll: string, user: string): Db {
    if MayClose(db, poll, user)
    then db.(polls := db.polls[poll := db.polls[poll].(closed := true)])
    else db
  }

  // ---------- Tallies ----------

  function VotesOn(votes: set<VoteRow>, option: string): set<VoteRow> {
    set v | v in votes && v.option == option
  }

  function VotesIn(votes: set<VoteRow>, poll: string): set<VoteRow> {
    set v | v in votes && v.poll == poll
  }

  function Percentage(count: nat, total: nat): real {
    if total > 0 then count as real / total as real * 100.0 else 0.0
  }

  datatype OptionResponse = OptionResponse(id: string, voteCount: nat, percentage: real, voters: seq<string>)

  datatype Response = Response(totalVotes: nat, myVotes: seq<string>, options: seq<OptionResponse>)

  /** An option's part of the response, against the table of votes. */
  ghost predicate Describes(o: OptionResponse, votes: set<VoteRow>, anonymous: bool, total: nat) {
    && o.voteCount == |VotesOn(votes, o.id)|
    && o.percentage == Percentage(o.voteCount, total)
    && if anonymous then o.voters == []
       else |o.voters| == o.voteCount
            && forall u :: u in o.voters <==> exists v :: v in VotesOn(votes, o.id) && v.user == u
  }

  /** A query's rows are the rows asked for, each once. */
  lemma RowsOnce(rows: seq<VoteRow>, where: set<VoteRow>)
    requires multiset(rows) == multiset(where)
    ensures Distinct(rows)
    ensures forall v :: v in rows <==> v in where
  {
    forall i, j | 0 <= i < j < |rows|
      ensures rows[i] != rows[j]
    {
      assert rows == rows[..i] + [rows[i]] + rows[i + 1..j] + [rows[j]] + rows[j + 1..];
      assert multiset(rows)[rows[i]] >= if rows[i] == rows[j] then 2 else 1;
    }
    forall v
      ensures v in rows <==> v in where
    {
      assert v in rows <==> v in multiset(rows);
    }
  }

  lemma OwnVotes(rows: seq<VoteRow>, options: seq<string>, votes: set<VoteRow>, poll: string, user: string)
    requires Distinct(rows) && forall v :: v in rows <==> v in BallotOf(votes, poll, user)
    requires |options| == |rows| && forall j :: 0 <= j < |rows| ==> options[j] == rows[j].option
    ensures Distinct(options)
    ensures forall o :: o in options <==> VoteRow(poll, o, user) in votes
  {
    forall j | 0 <= j < |rows|
      ensures rows[j] == VoteRow(poll, options[j], user)
    {
      assert rows[j] in rows;
    }
    forall o
      ensures o in options <==> VoteRow(poll, o, user) in votes
    {
      if o in options {
        var j :| 0 <= j < |options| && options[j] == o;
        assert rows[j] in rows;
      }
      if VoteRow(poll, o, user) in votes {
        assert VoteRow(poll, o, user) in rows;
        var j :| 0 <= j < |rows| && rows[j] == VoteRow(poll, o, user);
        assert options[j] == o;
      }
    }
  }

  datatype Reply = Ok | PollNotFound | PollClosed | OptionNotFound | NotCreator

  class PollStore {
    var polls: map<string, PollRow>
    var votes: set<VoteRow>

    ghost function Contents(): Db
      reads this
    {
      Db(polls, votes)
    }

    constructor ()
      ensures Contents() == Db(map[], {})
    {
      polls := map[];
      votes := {};
    }

    method Vote(userID: string, pollID: string, optionID: string) returns (reply: Reply)
      modifies this
      ensures Contents() == VoteStep(old(Contents()), VoteRow(pollID, optionID, userID))
      ensures reply == Ok <==> pollID in polls && !polls[pollID].closed && optionID in polls[pollID].options
      ensures reply == PollNotFound <==> pollID !in polls
      ensures reply == PollClosed <==> pollID in polls && polls[pollID].closed
    {
      if pollID !in polls {
        return PollNotFound;
      }
      var poll := polls[pollID];
      if poll.closed {
        return PollClosed;
      }
      if optionID !in poll.options {
        return OptionNotFound;
      }
      var vote := VoteRow(pollID, optionID, userID);
      if vote in votes {
        votes := votes - {vote};
        return Ok;
      }
      if !poll.multiSelect {
        votes := votes - BallotOf(votes, pollID, userID);
      }
      votes := votes + {vote};
      return Ok;
    }

    method Close(userID: string, pollID: string) returns (reply: Reply)
      modifies this
      ensures Contents() == CloseStep(old(Contents()), pollID, userID)
      ensures reply == Ok <==> pollID in old(polls) && old(polls)[pollID].creator == userID
      ensures votes == old(votes) && (reply == Ok ==> polls[pollID].closed)
    {
      if pollID !in polls {
        return PollNotFound;
      }
      if polls[pollID].creator != userID {
        return NotCreator;
      }
      polls := polls[pollID := polls[pollID].(closed := true)];
      return Ok;
    }

    /** A query's rows, each once. */
    method Find(where: set<VoteRow>) returns (rows: seq<VoteRow>)
      ensures multiset(rows) == multiset(where)
    {
      rows := [];
      var left := where;
      while left != {}
        invariant multiset(rows) + multiset(left) == multiset(where)
        decreases left
      {
        var v :| v in left;
        rows := rows + [v];
        left := left - {v};
      }
    }

    method ToPollResponse(pollID: string, currentUserID: string) returns (r: Response)
      requires pollID in polls
      ensures r.totalVotes == |VotesIn(votes, pollID)|
      ensures forall o :: o in r.myVotes <==> VoteRow(pollID, o, currentUserID) in votes
      ensures Distinct(r.myVotes)
      ensures |r.options| == |polls[pollID].options|
      ensures forall i :: 0 <= i < |r.options| ==>
                r.options[i].id == polls[pollID].options[i]
                && Describes(r.options[i], votes, polls[pollID].anonymous, r.totalVotes)
    {
      var poll := polls[pollID];
      var totalVotes := |VotesIn(votes, pollID)|;

      var userVotes := Find(BallotOf(votes, pollID, currentUserID));
      RowsOnce(userVotes, BallotOf(votes, pollID, currentUserID));
      var myVotes := [];
      for i := 0 to |userVotes|
        invariant |myVotes| == i && forall j :: 0 <= j < i ==> myVotes[j] == userVotes[j].option
      {
        myVotes := myVotes + [userVotes[i].option];
      }
      OwnVotes(userVotes, myVotes, votes, pollID, currentUserID);

      var options: seq<OptionResponse> := [];
      for i := 0 to |poll.options|
        invariant |options| == i
        invariant forall j :: 0 <= j < i ==>
                    options[j].id == poll.options[j] && Describes(options[j], votes, poll.anonymous, totalVotes)
      {
        var id := poll.options[i];
        var voteCount := |VotesOn(votes, id)|;
        var voters := [];
        if !poll.anonymous {
          voters := Voters(id);
        }
        options := options + [OptionResponse(id, voteCount, Percentage(voteCount, totalVotes), voters)];
      }
      r := Response(totalVotes, myVotes, options);
    }

    method Voters(optionID: string) returns (voters: seq<string>)
      ensures |voters| == |VotesOn(votes, optionID)|
      ensures forall u :: u in voters <==> exists v :: v in VotesOn(votes, optionID) && v.user == u
    {
      var rows := Find(VotesOn(votes, optionID));
      assert |rows| == |multiset(rows)|;
      voters := [];
      for i := 0 to |rows|
        invariant |voters| == i && forall j :: 0 <= j < i ==> voters[j] == rows[j].user
      {
        voters := voters + [rows[i].user];
      }
      forall u
        ensures u in voters <==> exists v :: v in VotesOn(votes, optionID) && v.user == u
      {
        if u in voters {
          var j :| 0 <= j < |rows| && voters[j] == u;
          assert rows[j] in multiset(rows);
        }
        if v :| v in VotesOn(votes, optionID) && v.user == u {
          assert v in multiset(rows);
          var j :| 0 <= j < |rows| && rows[j] == v;
          assert voters[j] == u;
        }
      }
    }
  }
}
