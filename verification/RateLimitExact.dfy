/**
 Exactly which calls the rate limiter lets through, by the times of the calls alone.

 A bucket is full when it is created. From then on the k-th call of a key is let through exactly when,
 since the first call and since every later one, fewer calls were let through than a full bucket and
 the refills from there on provide.
 */
module RateLimitExact {
  import opened Common
  import opened RateLimit
  import opened RateLimitProofs

  // ---------- One key's part of a run ----------

  function CallTimes(es: seq<Event>, key: string): seq<int> {
    if es == [] then []
    else (if es[0].Call? && es[0].key == key then [es[0].at] else []) + CallTimes(es[1..], key)
  }

  /** Whether each of the key's calls was let through. */
  function OwnReplies(es: seq<Event>, rs: seq<Reply>, key: string): (own: seq<bool>)
    requires |es| == |rs|
    ensures |own| == |CallTimes(es, key)|
  {
    if es == [] then []
    else (if es[0].Call? && es[0].key == key then [rs[0] == Allowed] else []) + OwnReplies(es[1..], rs[1..], key)
  }

  // ---------- What the call times say ----------

  /** When the bucket was last refilled, or created: whole intervals since then bring `rate` tokens each. */
  function LastRefill(cfg: Config, ts: seq<int>): int
    requires ts != []
    decreases |ts|
  {
    if |ts| == 1 || Gain(cfg, ts) > 0 then Last(ts) else LastRefill(cfg, Before(ts))
  }

  /** What the last call of `ts` brings, before the bucket overflows. */
  function Gain(cfg: Config, ts: seq<int>): int
    requires ts != []
    decreases |ts|, 0
  {
    if |ts| == 1 then 0
    else
      var tokens := cfg.rate * ((Last(ts) - LastRefill(cfg, Before(ts))) / cfg.interval);
      if tokens > 0 then tokens else 0
  }

  /** What the calls after the `j`-th bring. */
  function Gains(cfg: Config, ts: seq<int>, j: nat): int
    requires j < |ts|
    decreases |ts|
  {
    if j == |ts| - 1 then 0 else Gains(cfg, Before(ts), j) + Gain(cfg, ts)
  }

  /** How many calls from the `j`-th on were let through. */
  function AllowedSince(rs: seq<bool>, j: nat): nat
    requires j <= |rs|
    decreases |rs|
  {
    if j == |rs| then 0 else AllowedSince(Before(rs), j) + if Last(rs) then 1 else 0
  }

  // ---------- The tokens behind them ----------

  /** The tokens that the last call of `ts` finds, when the earlier ones were answered as `rs` says. */
  function Available(cfg: Config, ts: seq<int>, rs: seq<bool>): int
    requires |ts| == |rs| + 1
    decreases |ts|
  {
    if |ts| == 1 then cfg.burst
    else
      var left := Available(cfg, Before(ts), Before(rs)) - if Last(rs) then 1 else 0;
      if Gain(cfg, ts) > 0 then Min(cfg.burst, left + Gain(cfg, ts)) else left
  }

  lemma {:induction false} AvailableAtMost(cfg: Config, ts: seq<int>, rs: seq<bool>, j: nat)
    requires |ts| == |rs| + 1 && j < |ts|
    ensures Available(cfg, ts, rs) <= cfg.burst
    ensures Available(cfg, ts, rs) <= cfg.burst + Gains(cfg, ts, j) - AllowedSince(rs, j)
    decreases |ts|
  {
    if |ts| > 1 {
      AvailableAtMost(cfg, Before(ts), Before(rs), if j < |ts| - 1 then j else 0);
    }
  }

  lemma {:induction false} AvailableAttained(cfg: Config, ts: seq<int>, rs: seq<bool>) returns (j: nat)
    requires |ts| == |rs| + 1
    ensures j < |ts| && Available(cfg, ts, rs) == cfg.burst + Gains(cfg, ts, j) - AllowedSince(rs, j)
    decreases |ts|
  {
    if |ts| == 1 {
      j := 0;
    } else {
      j := AvailableAttained(cfg, Before(ts), Before(rs));
      var left := Available(cfg, Before(ts), Before(rs)) - if Last(rs) then 1 else 0;
      if left + Gain(cfg, ts) > cfg.burst {
        AvailableAtMost(cfg, Before(ts), Before(rs), 0);
        j := |ts| - 1;
      }
    }
  }

  /** Fewer calls were let through, since any call of the history, than the bucket could hold and gain. */
  ghost predicate SomeLeft(cfg: Config, ts: seq<int>, rs: seq<bool>)
    requires |ts| == |rs| + 1
  {
    forall j: nat :: j <= |rs| ==> AllowedSince(rs, j) < cfg.burst + Gains(cfg, ts, j)
  }

  lemma SomeLeftIff(cfg: Config, ts: seq<int>, rs: seq<bool>)
    requires |ts| == |rs| + 1
    ensures SomeLeft(cfg, ts, rs) <==> Available(cfg, ts, rs) > 0
  {
    var j := AvailableAttained(cfg, ts, rs);
    forall i: nat | i <= |rs|
      ensures Available(cfg, ts, rs) <= cfg.burst + Gains(cfg, ts, i) - AllowedSince(rs, i)
    {
      AvailableAtMost(cfg, ts, rs, i);
    }
  }

  // ---------- The limiter follows them ----------

  /** The key's bucket is what its history says. */
  ghost predicate Matches(cfg: Config, t: Table, key: string, ts: seq<int>, rs: seq<bool>, now: int) {
    && |ts| == |rs|
    && if ts == [] then key !in t
       else
         && key in t && t[key].lastRefill == LastRefill(cfg, ts) <= now
         && t[key].tokens == Available(cfg, ts, Before(rs)) - if Last(rs) then 1 else 0
  }

  lemma HistoryNext(cfg: Config, ts: seq<int>, at: int, rs: seq<bool>)
    requires ts != [] && |rs| == |ts|
    ensures var g := cfg.rate * ((at - LastRefill(cfg, ts)) / cfg.interval);
            var left := Available(cfg, ts, Before(rs)) - if Last(rs) then 1 else 0;
            && LastRefill(cfg, ts + [at]) == (if g > 0 then at else LastRefill(cfg, ts))
            && Available(cfg, ts + [at], rs) == if g > 0 then Min(cfg.burst, left + g) else left
  {
    assert Before(ts + [at]) == ts && Last(ts + [at]) == at;
  }

  lemma RefillIsHistory(cfg: Config, b: BucketState, at: int)
    requires b.lastRefill <= at
    ensures var g := cfg.rate * ((at - b.lastRefill) / cfg.interval);
            Refilled(cfg, b, at) == if g > 0 then BucketState(Min(cfg.burst, b.tokens + g), at) else b
  {
    var q := (at - b.lastRefill) / cfg.interval;
    assert cfg.rate * q == q * cfg.rate;
  }

  /** The bucket that a call finds is what the history with this call says. */
  lemma FoundMatches(cfg: Config, t: Table, key: string, ts: seq<int>, rs: seq<bool>, now: int, at: int)
    requires Matches(cfg, t, key, ts, rs, now) && now <= at
    ensures var b := Refilled(cfg, BucketOf(cfg, t, key, at), at);
            b.tokens == Available(cfg, ts + [at], rs) && b.lastRefill == LastRefill(cfg, ts + [at]) <= at
  {
    if ts == [] {
      RefillTwice(cfg, Fresh(cfg, at), at);
    } else {
      HistoryNext(cfg, ts, at, rs);
      RefillIsHistory(cfg, t[key], at);
    }
  }

  lemma CallMatches(cfg: Config, t: Table, key: string, ts: seq<int>, rs: seq<bool>, now: int, at: int)
    requires Matches(cfg, t, key, ts, rs, now) && now <= at
    ensures var (t', ok) := AllowStep(cfg, t, key, at);
            && (ok <==> Available(cfg, ts + [at], rs) > 0)
            && Matches(cfg, t', key, ts + [at], rs + [ok], at)
  {
    var (t', ok) := AllowStep(cfg, t, key, at);
    FoundMatches(cfg, t, key, ts, rs, now, at);
    assert Before(rs + [ok]) == rs && Last(rs + [ok]) == ok;
  }

  function EndTime(es: seq<Event>, now: int): int {
    if es == [] then now else Last(es).at
  }

  lemma {:induction false} RunMatches(cfg: Config, t: Table, es: seq<Event>, key: string,
                                      ts: seq<int>, rs: seq<bool>, now: int)
    requires Matches(cfg, t, key, ts, rs, now) && Ordered(now, es)
    ensures Matches(cfg, Final(cfg, false, t, es), key, ts + CallTimes(es, key),
                    rs + OwnReplies(es, Replies(cfg, false, t, es), key), EndTime(es, now))
    decreases |es|
  {
    if es == [] {
      assert ts + [] == ts && rs + [] == rs;
    } else if es[0].Call? && es[0].key == key {
      OwnCallMatches(cfg, t, es, key, ts, rs, now);
    } else {
      var t' := Step(cfg, false, t, es[0]).0;
      assert Matches(cfg, t', key, ts, rs, es[0].at);
      assert EndTime(es[1..], es[0].at) == EndTime(es, now);
      RunMatches(cfg, t', es[1..], key, ts, rs, es[0].at);
      assert [] + CallTimes(es[1..], key) == CallTimes(es[1..], key);
      var own := OwnReplies(es[1..], Replies(cfg, false, t', es[1..]), key);
      assert [] + own == own;
    }
  }

  lemma {:induction false} OwnCallMatches(cfg: Config, t: Table, es: seq<Event>, key: string,
                                          ts: seq<int>, rs: seq<bool>, now: int)
    requires Matches(cfg, t, key, ts, rs, now) && Ordered(now, es)
    requires es != [] && es[0].Call? && es[0].key == key
    ensures Matches(cfg, Final(cfg, false, t, es), key, ts + CallTimes(es, key),
                    rs + OwnReplies(es, Replies(cfg, false, t, es), key), EndTime(es, now))
    decreases |es|, 0
  {
    var at := es[0].at;
    var (t', ok) := AllowStep(cfg, t, key, at);
    CallMatches(cfg, t, key, ts, rs, now, at);
    RunMatches(cfg, t', es[1..], key, ts + [at], rs + [ok], at);
    OwnCallFirst(cfg, t, es, key, now);
    FirstInFront(ts, at, CallTimes(es[1..], key));
    FirstInFront(rs, ok, OwnReplies(es[1..], Replies(cfg, false, t', es[1..]), key));
  }

  lemma FirstInFront<T>(earlier: seq<T>, first: T, rest: seq<T>)
    ensures earlier + [first] + rest == earlier + ([first] + rest)
  {
  }

  lemma OwnCallFirst(cfg: Config, t: Table, es: seq<Event>, key: string, now: int)
    requires es != [] && es[0].Call? && es[0].key == key
    ensures var (t', ok) := AllowStep(cfg, t, key, es[0].at);
            && CallTimes(es, key) == [es[0].at] + CallTimes(es[1..], key)
            && OwnReplies(es, Replies(cfg, false, t, es), key) ==
               [ok] + OwnReplies(es[1..], Replies(cfg, false, t', es[1..]), key)
            && Final(cfg, false, t, es) == Final(cfg, false, t', es[1..])
            && EndTime(es, now) == EndTime(es[1..], es[0].at)
  {
  }

  lemma {:induction false} OrderedSplit(now: int, a: seq<Event>, e: Event)
    requires Ordered(now, a + [e])
    ensures Ordered(now, a) && EndTime(a, now) <= e.at
    decreases |a|
  {
    if a != [] {
      assert (a + [e])[1..] == a[1..] + [e] && (a + [e])[0] == a[0];
      OrderedSplit(a[0].at, a[1..], e);
    }
  }

  lemma KeepingAllowedIff(cfg: Config, es: seq<Event>, key: string, at: int, start: int)
    requires Ordered(start, es + [Call(key, at)])
    ensures var rs := Replies(cfg, false, map[], es + [Call(key, at)]);
            rs[|es|] == Allowed <==>
            SomeLeft(cfg, CallTimes(es, key) + [at], OwnReplies(es, Replies(cfg, false, map[], es), key))
  {
    OrderedSplit(start, es, Call(key, at));
    RunConcat(cfg, false, map[], es, [Call(key, at)]);
    RunMatches(cfg, map[], es, key, [], [], start);
    var ts, rs := CallTimes(es, key), OwnReplies(es, Replies(cfg, false, map[], es), key);
    assert [] + ts == ts && [] + rs == rs;
    CallMatches(cfg, Final(cfg, false, map[], es), key, ts, rs, EndTime(es, start), at);
    SomeLeftIff(cfg, ts + [at], rs);
  }

  /**
   The reply to every call, whatever the parameters, whatever other keys do and (when they cannot be
   observed) however sweeps interleave: it is let through exactly when, counted from each call of the
   key so far, and from this one, fewer calls were let through than a full bucket and the refills
   since then provide.
   */
  lemma {:induction false} AllowedIff(cfg: Config, evict: bool, es: seq<Event>, key: string, at: int, start: int)
    requires Ordered(start, es + [Call(key, at)])
    requires cfg.burst <= 0 || IdleTimeRefills(cfg) || !evict
    ensures var rs := Replies(cfg, evict, map[], es + [Call(key, at)]);
            rs[|es|] == Allowed <==>
            SomeLeft(cfg, CallTimes(es, key) + [at], OwnReplies(es, Replies(cfg, evict, map[], es), key))
  {
    KeepingAllowedIff(cfg, es, key, at, start);
    if evict {
      EvictionUnobservableIff(cfg);
      OrderedSplit(start, es, Call(key, at));
    }
  }
}
