/**
 Sending to a group: where every member's copy goes.
 */
module HubFanOut {
  import opened Common
  import opened WebSocketHub

  ghost function Others(members: seq<string>, exclude: string): set<string> {
    set m | m in members && m != exclude
  }

  ghost function Accepting(h: HubData, members: seq<string>, exclude: string): set<string>
    requires Wired(h)
  {
    set m | m in members && m != exclude && Accepts(h, m)
  }

  ghost function Offline(h: HubData, members: seq<string>, exclude: string): set<string> {
    set m | m in members && m != exclude && !Online(h, m)
  }

  ghost function Full(h: HubData, members: seq<string>, exclude: string): set<string>
    requires Wired(h)
  {
    set m | m in members && m != exclude && Online(h, m) && !Accepts(h, m)
  }

  /** The channels after the fan-out: one more copy for each accepting member, nothing else. */
  ghost predicate OneCopyEach(h: HubData, h': HubData, members: seq<string>, exclude: string, f: Frame)
    requires Wired(h)
  {
    && h'.clients == h.clients && h'.channels.Keys == h.channels.Keys
    && forall c :: c in h.channels ==>
         h'.channels[c] ==
         if IsCurrent(h, c) && c.user in members && c.user != exclude && Accepts(h, c.user)
         then h.channels[c].(buffer := h.channels[c].buffer + [f])
         else h.channels[c]
  }

  lemma AcceptingSplit(h: HubData, members: seq<string>, exclude: string)
    requires Wired(h) && members != [] && members[0] !in members[1..]
    ensures |Accepting(h, members, exclude)| ==
            |Accepting(h, members[1..], exclude)| + if members[0] != exclude && Accepts(h, members[0]) then 1 else 0
  {
    var m, rest := members[0], members[1..];
    assert members == [m] + rest;
    assert Accepting(h, members, exclude) ==
           (if m != exclude && Accepts(h, m) then {m} else {}) + Accepting(h, rest, exclude);
  }

  /** Delivering to one user does not change what any other user accepts. */
  lemma DeliverElsewhere(h: HubData, m: string, f: Frame, rest: seq<string>, exclude: string)
    requires Wired(h) && m !in rest
    ensures Wired(Deliver(h, m, f))
    ensures Accepting(Deliver(h, m, f), rest, exclude) == Accepting(h, rest, exclude)
  {
  }

  /** One delivery, then one copy for each of the rest. */
  lemma CopyThenRest(h: HubData, h': HubData, members: seq<string>, exclude: string, f: Frame)
    requires Wired(h) && members != [] && members[0] !in members[1..] && members[0] != exclude
    requires Wired(Deliver(h, members[0], f)) && OneCopyEach(Deliver(h, members[0], f), h', members[1..], exclude, f)
    ensures OneCopyEach(h, h', members, exclude, f)
  {
    var d := Deliver(h, members[0], f);
    assert members == [members[0]] + members[1..];
    forall c | c in h.channels
      ensures h'.channels[c] ==
              if IsCurrent(h, c) && c.user in members && c.user != exclude && Accepts(h, c.user)
              then h.channels[c].(buffer := h.channels[c].buffer + [f])
              else h.channels[c]
    {
      assert IsCurrent(d, c) == IsCurrent(h, c);
    }
  }

  lemma {:induction false} FanOutCounts(h: HubData, members: seq<string>, exclude: string, f: Frame)
    requires Wired(h) && Distinct(members)
    ensures var (h', n) := FanOut(h, members, exclude, f);
            n == |Accepting(h, members, exclude)| && OneCopyEach(h, h', members, exclude, f)
    decreases |members|
  {
    if members != [] {
      var m, rest := members[0], members[1..];
      AcceptingSplit(h, members, exclude);
      if m == exclude {
        FanOutCounts(h, rest, exclude, f);
      } else {
        DeliverElsewhere(h, m, f, rest, exclude);
        FanOutCounts(Deliver(h, m, f), rest, exclude, f);
        CopyThenRest(h, FanOut(Deliver(h, m, f), rest, exclude, f).0, members, exclude, f);
      }
    }
  }

  lemma {:induction false} OfflineMember(h: HubData, members: seq<string>, exclude: string, m: string)
    ensures m in OfflineMembers(h, members, exclude) <==> m in members && m != exclude && !Online(h, m)
    decreases |members|
  {
    if members != [] {
      OfflineMember(h, members[1..], exclude, m);
    }
  }

  lemma {:induction false} OfflineMembersDistinct(h: HubData, members: seq<string>, exclude: string)
    requires Distinct(members)
    ensures Distinct(OfflineMembers(h, members, exclude))
    decreases |members|
  {
    if members != [] {
      OfflineMembersDistinct(h, members[1..], exclude);
      OfflineMember(h, members[1..], exclude, members[0]);
    }
  }

  lemma {:induction false} DistinctCount(s: seq<string>)
    requires Distinct(s)
    ensures |set x | x in s| == |s|
    decreases |s|
  {
    if s != [] {
      DistinctCount(s[1..]);
      assert (set x | x in s) == {s[0]} + set x | x in s[1..];
    }
  }

  lemma OfflineMembersExact(h: HubData, members: seq<string>, exclude: string)
    requires Distinct(members)
    ensures var ids := OfflineMembers(h, members, exclude);
            && (set m | m in ids) == Offline(h, members, exclude)
            && Distinct(ids) && |ids| == |Offline(h, members, exclude)|
  {
    var ids := OfflineMembers(h, members, exclude);
    forall m {
      OfflineMember(h, members, exclude, m);
    }
    assert (set m | m in ids) == Offline(h, members, exclude);
    OfflineMembersDistinct(h, members, exclude);
    DistinctCount(ids);
  }

  lemma OthersCount(members: seq<string>, exclude: string)
    requires Distinct(members)
    ensures |Others(members, exclude)| == |members| - if exclude in members then 1 else 0
  {
    DistinctCount(members);
    assert Others(members, exclude) == (set m | m in members) - {exclude};
  }

  /** Accepting, offline and full members are disjoint and are all the others. */
  lemma MembersPartition(h: HubData, members: seq<string>, exclude: string)
    requires Wired(h)
    ensures var a, o, b := Accepting(h, members, exclude), Offline(h, members, exclude), Full(h, members, exclude);
            && a !! o !! b && a + o + b == Others(members, exclude)
            && |a| + |o| + |b| == |Others(members, exclude)|
  {
    var a, o, b := Accepting(h, members, exclude), Offline(h, members, exclude), Full(h, members, exclude);
    assert a + o + b == Others(members, exclude);
    assert |a + o + b| == |a + o| + |b|;
  }

  /**
   Against a fixed hub state, the members other than the sender are accepted (as counted, one copy
   each), offline (the push list) or online with a full queue, and these are all of them.
   */
  lemma FanOutConservation(h: HubData, members: seq<string>, exclude: string, f: Frame)
    requires Wired(h) && Distinct(members)
    ensures var (h', n) := FanOut(h, members, exclude, f);
            var pushed := OfflineMembers(h', members, exclude);
            && n == |Accepting(h, members, exclude)| && OneCopyEach(h, h', members, exclude, f)
            && (set m | m in pushed) == Offline(h, members, exclude) && Distinct(pushed)
            && Accepting(h, members, exclude) !! Offline(h, members, exclude) !! Full(h, members, exclude)
            && Accepting(h, members, exclude) + Offline(h, members, exclude) + Full(h, members, exclude) ==
               Others(members, exclude)
            && n + |pushed| + |Full(h, members, exclude)| == |members| - if exclude in members then 1 else 0
  {
    FanOutCounts(h, members, exclude, f);
    OfflineSameClients(h, FanOut(h, members, exclude, f).0, members, exclude);
    OfflineMembersExact(h, members, exclude);
    OthersCount(members, exclude);
    MembersPartition(h, members, exclude);
  }

  lemma {:induction false} OfflineSameClients(h: HubData, h': HubData, members: seq<string>, exclude: string)
    requires h.clients == h'.clients
    ensures OfflineMembers(h', members, exclude) == OfflineMembers(h, members, exclude)
    decreases |members|
  {
    if members != [] {
      OfflineSameClients(h, h', members[1..], exclude);
    }
  }
}
