/**
 Emoji reactions, and the two ways of counting them.
 */
module Reactions {
  import opened Common

  datatype Reaction = Reaction(messageID: string, userID: string, emoji: string)

  datatype Info = Info(emoji: string, count: nat, users: seq<string>)

  /** A user reacts to a message at most once. */
  ghost predicate OnePerUser(rows: set<Reaction>) {
    forall r, r' :: r in rows && r' in rows && r.messageID == r'.messageID && r.userID == r'.userID ==> r == r'
  }

  function RemoveStep(rows: set<Reaction>, messageID: string, userID: string): set<Reaction> {
    set r | r in rows && !(r.messageID == messageID && r.userID == userID)
  }

  function AddStep(rows: set<Reaction>, messageID: string, userID: string, emoji: string): set<Reaction> {
    RemoveStep(rows, messageID, userID) + {Reaction(messageID, userID, emoji)}
  }

  function On(rows: set<Reaction>, messageID: string): set<Reaction> {
    set r | r in rows && r.messageID == messageID
  }

  function With(rows: set<Reaction>, messageID: string, emoji: string): set<Reaction> {
    set r | r in rows && r.messageID == messageID && r.emoji == emoji
  }

  /** The grouped count of the database. */
  function Summary(rows: set<Reaction>, messageID: string): map<string, nat> {
    map e | e in (set r | r in On(rows, messageID) :: r.emoji) :: |With(rows, messageID, e)|
  }

  /** The users of the rows with one emoji, in row order. */
  function UsersOf(list: seq<Reaction>, emoji: string): seq<string>
    decreases |list|
  {
    if list == [] then []
    else
      var last := Last(list);
      UsersOf(Before(list), emoji) + if last.emoji == emoji then [last.userID] else []
  }

  class ReactionTable {
    var rows: set<Reaction>

    constructor ()
      ensures rows == {}
    {
      rows := {};
    }

    method AddReaction(messageID: string, userID: string, emoji: string)
      requires OnePerUser(rows)
      modifies this
      ensures rows == AddStep(old(rows), messageID, userID, emoji) && OnePerUser(rows)
    {
      if existing :| existing in rows && existing.messageID == messageID && existing.userID == userID {
        rows := rows - {existing} + {existing.(emoji := emoji)};
      } else {
        rows := rows + {Reaction(messageID, userID, emoji)};
      }
    }

    method RemoveReaction(messageID: string, userID: string)
      requires OnePerUser(rows)
      modifies this
      ensures rows == RemoveStep(old(rows), messageID, userID) && OnePerUser(rows)
    {
      rows := set r | r in rows && !(r.messageID == messageID && r.userID == userID);
    }

    /** The rows of a message, each once, in whatever order the database gives them. */
    method Find(messageID: string) returns (list: seq<Reaction>)
      ensures multiset(list) == multiset(On(rows, messageID))
    {
      list := [];
      var left := On(rows, messageID);
      while left != {}
        invariant multiset(list) + multiset(left) == multiset(On(rows, messageID))
        decreases left
      {
        var r :| r in left;
        list := list + [r];
        left := left - {r};
      }
    }

    /** One entry per emoji in use, counted as the database counts it. */
    method GetMessageReactionInfo(messageID: string) returns (info: seq<Info>)
      ensures IsInfo(info, rows, messageID)
    {
      var list := Find(messageID);
      var emojiUsers := GroupByEmoji(list);
      info := ToInfo(emojiUsers);
      GroupsAreInfo(list, emojiUsers, info, rows, messageID);
    }

    /** The loop that fills the map from emoji to users. */
    static method GroupByEmoji(list: seq<Reaction>) returns (emojiUsers: map<string, seq<string>>)
      ensures forall e :: e in emojiUsers <==> UsersOf(list, e) != []
      ensures forall e :: e in emojiUsers ==> emojiUsers[e] == UsersOf(list, e)
    {
      emojiUsers := map[];
      for i := 0 to |list|
        invariant forall e :: e in emojiUsers <==> UsersOf(list[..i], e) != []
        invariant forall e :: e in emojiUsers ==> emojiUsers[e] == UsersOf(list[..i], e)
      {
        var r := list[i];
        assert list[..i + 1][..i] == list[..i] && list[..i + 1][i] == r;
        var users := if r.emoji in emojiUsers then emojiUsers[r.emoji] else [];
        emojiUsers := emojiUsers[r.emoji := users + [r.userID]];
      }
      assert list[..|list|] == list;
    }

    /** The loop that turns the map into a list, in whatever order the map is walked. */
    static method ToInfo(emojiUsers: map<string, seq<string>>) returns (info: seq<Info>)
      ensures Lists(info, emojiUsers)
    {
      info := [];
      var left := emojiUsers.Keys;
      while left != {}
        invariant left <= emojiUsers.Keys
        invariant ListsExcept(info, emojiUsers, left)
        decreases left
      {
        var emoji :| emoji in left;
        NextEntry(info, emojiUsers, left, emoji);
        info := info + [Info(emoji, |emojiUsers[emoji]|, emojiUsers[emoji])];
        left := left - {emoji};
      }
    }
  }

  /** One entry for each key of the map that is not left. */
  ghost predicate ListsExcept(info: seq<Info>, emojiUsers: map<string, seq<string>>, left: set<string>) {
    && (forall i, j :: 0 <= i < j < |info| ==> info[i].emoji != info[j].emoji)
    && (forall i :: 0 <= i < |info| ==>
         && info[i].emoji in emojiUsers && info[i].emoji !in left && info[i].users == emojiUsers[info[i].emoji]
         && info[i].count == |info[i].users|)
    && (forall e :: e in emojiUsers && e !in left ==> exists i :: 0 <= i < |info| && info[i].emoji == e)
  }

  ghost predicate Lists(info: seq<Info>, emojiUsers: map<string, seq<string>>) {
    ListsExcept(info, emojiUsers, {})
  }

  lemma NextEntry(info: seq<Info>, emojiUsers: map<string, seq<string>>, left: set<string>, emoji: string)
    requires ListsExcept(info, emojiUsers, left) && emoji in left && emoji in emojiUsers
    ensures ListsExcept(info + [Info(emoji, |emojiUsers[emoji]|, emojiUsers[emoji])], emojiUsers, left - {emoji})
  {
    var info' := info + [Info(emoji, |emojiUsers[emoji]|, emojiUsers[emoji])];
    forall e | e in emojiUsers && e !in left - {emoji}
      ensures exists i :: 0 <= i < |info'| && info'[i].emoji == e
    {
      if e == emoji {
        assert info'[|info|].emoji == e;
      } else {
        var i :| 0 <= i < |info| && info[i].emoji == e;
        assert info'[i].emoji == e;
      }
    }
  }

  lemma GroupsAreInfo(list: seq<Reaction>, emojiUsers: map<string, seq<string>>, info: seq<Info>,
                      rows: set<Reaction>, messageID: string)
    requires multiset(list) == multiset(On(rows, messageID)) && Lists(info, emojiUsers)
    requires forall e :: e in emojiUsers <==> UsersOf(list, e) != []
    requires forall e :: e in emojiUsers ==> emojiUsers[e] == UsersOf(list, e)
    ensures IsInfo(info, rows, messageID)
  {
    forall e: string
      ensures e in Summary(rows, messageID) <==> exists i :: 0 <= i < |info| && info[i].emoji == e
    {
      UsersOfRows(list, rows, messageID, e);
    }
    forall i | 0 <= i < |info|
      ensures Groups(info[i], rows, messageID) && info[i].count == Summary(rows, messageID)[info[i].emoji]
    {
      UsersOfRows(list, rows, messageID, info[i].emoji);
    }
  }

  /** An entry lists exactly the users who reacted with its emoji. */
  ghost predicate Groups(g: Info, rows: set<Reaction>, messageID: string) {
    && g.count == |g.users|
    && forall u :: u in g.users <==> Reaction(messageID, u, g.emoji) in rows
  }

  ghost function RowsWith(list: seq<Reaction>, emoji: string): set<Reaction> {
    set r | r in list && r.emoji == emoji
  }

  lemma RowsWithLast(list: seq<Reaction>, emoji: string)
    requires list != []
    ensures var front, last := Before(list), Last(list);
            RowsWith(list, emoji) == RowsWith(front, emoji) + if last.emoji == emoji then {last} else {}
  {
    assert list == Before(list) + [Last(list)];
  }

  lemma {:induction false} UsersOfCount(list: seq<Reaction>, emoji: string)
    requires Distinct(list)
    ensures |UsersOf(list, emoji)| == |RowsWith(list, emoji)|
    decreases |list|
  {
    if list != [] {
      UsersOfCount(Before(list), emoji);
      RowsWithLast(list, emoji);
      assert Last(list) !in Before(list);
    }
  }

  lemma {:induction false} UsersOfMember(list: seq<Reaction>, emoji: string, u: string)
    ensures u in UsersOf(list, emoji) <==> exists r :: r in list && r.userID == u && r.emoji == emoji
    decreases |list|
  {
    if list != [] {
      UsersOfMember(Before(list), emoji, u);
      assert list == Before(list) + [Last(list)];
    }
  }

  lemma UsersOfRows(list: seq<Reaction>, rows: set<Reaction>, messageID: string, emoji: string)
    requires multiset(list) == multiset(On(rows, messageID))
    ensures |UsersOf(list, emoji)| == |With(rows, messageID, emoji)|
    ensures forall u :: u in UsersOf(list, emoji) <==> Reaction(messageID, u, emoji) in rows
    ensures UsersOf(list, emoji) != [] <==> emoji in Summary(rows, messageID)
  {
    EachOnce(list, On(rows, messageID));
    UsersOfCount(list, emoji);
    assert RowsWith(list, emoji) == With(rows, messageID, emoji);
    forall u
      ensures u in UsersOf(list, emoji) <==> Reaction(messageID, u, emoji) in rows
    {
      UsersOfMember(list, emoji, u);
      assert Reaction(messageID, u, emoji) in rows ==> Reaction(messageID, u, emoji) in On(rows, messageID);
    }
    InSummary(rows, messageID, emoji);
  }

  lemma InSummary(rows: set<Reaction>, messageID: string, emoji: string)
    ensures emoji in Summary(rows, messageID) <==> |With(rows, messageID, emoji)| != 0
  {
    if emoji in Summary(rows, messageID) {
      var r :| r in On(rows, messageID) && r.emoji == emoji;
      assert r in With(rows, messageID, emoji);
    }
    if r :| r in With(rows, messageID, emoji) {
      assert r in On(rows, messageID);
    }
  }

  lemma EachOnce(list: seq<Reaction>, s: set<Reaction>)
    requires multiset(list) == multiset(s)
    ensures forall r :: r in list <==> r in s
    ensures Distinct(list)
  {
    forall r
      ensures r in list <==> r in s
    {
      assert r in list <==> r in multiset(list);
    }
    forall i, j | 0 <= i < j < |list|
      ensures list[i] != list[j]
    {
      assert list == list[..i] + [list[i]] + list[i + 1..j] + [list[j]] + list[j + 1..];
      assert multiset(list)[list[i]] >= if list[i] == list[j] then 2 else 1;
    }
  }

  // ---------- The two counts agree ----------

  function TotalCount(info: seq<Info>): nat {
    if info == [] then 0 else info[0].count + TotalCount(info[1..])
  }

  ghost function Covered(rows: set<Reaction>, messageID: string, info: seq<Info>): set<Reaction> {
    set r | r in On(rows, messageID) && exists i :: 0 <= i < |info| && info[i].emoji == r.emoji
  }

  lemma {:induction false} CountsCovered(rows: set<Reaction>, messageID: string, info: seq<Info>)
    requires forall i, j :: 0 <= i < j < |info| ==> info[i].emoji != info[j].emoji
    requires forall i :: 0 <= i < |info| ==> info[i].count == |With(rows, messageID, info[i].emoji)|
    ensures TotalCount(info) == |Covered(rows, messageID, info)|
    decreases |info|
  {
    if info != [] {
      CountsCovered(rows, messageID, info[1..]);
      var first, rest := With(rows, messageID, info[0].emoji), Covered(rows, messageID, info[1..]);
      forall r
        ensures r in Covered(rows, messageID, info) <==> r in first + rest
      {
        if r in rest {
          var i :| 0 <= i < |info[1..]| && info[1..][i].emoji == r.emoji;
          assert info[i + 1].emoji == r.emoji;
        }
        if r in Covered(rows, messageID, info) && r !in first {
          var i :| 0 <= i < |info| && info[i].emoji == r.emoji;
          assert info[1..][i - 1].emoji == r.emoji;
        }
      }
      assert Covered(rows, messageID, info) == first + rest;
      assert forall r :: r in first ==> r !in rest;
      assert |first + rest| == |first| + |rest|;
    }
  }

  /** A list of groups as `GetMessageReactionInfo` returns it. */
  ghost predicate IsInfo(info: seq<Info>, rows: set<Reaction>, messageID: string) {
    && (forall i, j :: 0 <= i < j < |info| ==> info[i].emoji != info[j].emoji)
    && (forall e :: e in Summary(rows, messageID) <==> exists i :: 0 <= i < |info| && info[i].emoji == e)
    && (forall i :: 0 <= i < |info| ==>
         Groups(info[i], rows, messageID) && info[i].count == Summary(rows, messageID)[info[i].emoji])
  }

  /** The groups' counts add up to the number of reactions to the message. */
  lemma CountsAddUp(info: seq<Info>, rows: set<Reaction>, messageID: string)
    requires IsInfo(info, rows, messageID)
    ensures TotalCount(info) == |On(rows, messageID)|
  {
    CountsCovered(rows, messageID, info);
    forall r | r in On(rows, messageID)
      ensures r in Covered(rows, messageID, info)
    {
      assert r.emoji in Summary(rows, messageID);
    }
    assert Covered(rows, messageID, info) == On(rows, messageID);
  }

  // ---------- Runs ----------

  datatype Event = Add(messageID: string, userID: string, emoji: string) | Remove(messageID: string, userID: string)

  function Apply(rows: set<Reaction>, e: Event): set<Reaction> {
    match e
    case Add(m, u, emoji) => AddStep(rows, m, u, emoji)
    case Remove(m, u) => RemoveStep(rows, m, u)
  }

  function After(es: seq<Event>): set<Reaction>
    decreases |es|
  {
    if es == [] then {} else Apply(After(Before(es)), Last(es))
  }

  /** What a user last did to a message. */
  function LastAction(es: seq<Event>, messageID: string, userID: string): Option<string>
    decreases |es|
  {
    if es == [] then None
    else
      var last := Last(es);
      if last.messageID == messageID && last.userID == userID
      then (if last.Add? then Some(last.emoji) else None)
      else LastAction(Before(es), messageID, userID)
  }

  /** After any run a user's only reaction to a message is their last action. */
  lemma {:induction false} LastActionStands(es: seq<Event>, r: Reaction)
    ensures r in After(es) <==> LastAction(es, r.messageID, r.userID) == Some(r.emoji)
    decreases |es|
  {
    if es != [] {
      LastActionStands(Before(es), r);
    }
  }

  /** After any run every reacting user is in exactly one group of the message: that of their last action. */
  lemma UserInOneGroup(es: seq<Event>, info: seq<Info>, messageID: string, userID: string)
    requires IsInfo(info, After(es), messageID)
    ensures forall i :: 0 <= i < |info| ==>
              (userID in info[i].users <==> LastAction(es, messageID, userID) == Some(info[i].emoji))
    ensures LastAction(es, messageID, userID).Some? ==>
              exists i :: 0 <= i < |info| && userID in info[i].users
    ensures forall i, j :: 0 <= i < j < |info| ==> !(userID in info[i].users && userID in info[j].users)
  {
    forall i | 0 <= i < |info|
      ensures userID in info[i].users <==> LastAction(es, messageID, userID) == Some(info[i].emoji)
    {
      LastActionStands(es, Reaction(messageID, userID, info[i].emoji));
    }
    var last := LastAction(es, messageID, userID);
    if last.Some? {
      var r := Reaction(messageID, userID, last.value);
      LastActionStands(es, r);
      assert r in On(After(es), messageID);
      assert r.emoji in Summary(After(es), messageID);
      var i :| 0 <= i < |info| && info[i].emoji == r.emoji;
      assert userID in info[i].users;
    }
  }
}
