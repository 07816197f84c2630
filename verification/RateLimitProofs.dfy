/**
 What the rate limiter promises over whole runs: evicting idle buckets cannot be observed, and
 the number of calls let through in a window of time is bounded, exactly.
 */
module RateLimitProofs {
  import opened RateLimit

  // ---------- Arithmetic of whole intervals ----------

  lemma DivMonotone(a: int, b: int, d: int)
    requires d > 0 && 0 <= a <= b
    ensures 0 <= a / d <= b / d
  {
    if a / d > b / d {
      MulMonotone(b / d + 1, a / d, d);
    }
  }

  lemma MulMonotone(x: int, y: int, z: int)
    requires x <= y && 0 <= z
    ensures x * z <= y * z
  {
    assert y * z == x * z + (y - x) * z;
    if (y - x) * z < 0 {
      assert false;
    }
  }

  /** Whole intervals do not add up to more than the whole intervals of the sum. */
  lemma DivSuperadditive(a: int, b: int, d: int)
    requires d > 0 && 0 <= a && 0 <= b
    ensures a / d + b / d <= (a + b) / d
  {
    var q := a / d + b / d;
    assert q * d == a / d * d + b / d * d;
    assert q * d <= a + b;
    var m := (a + b) / d;
    assert a + b < (m + 1) * d;
    if q >= m + 1 {
      MulMonotone(m + 1, q, d);
    }
  }

  lemma RefillMonotone(cfg: Config, x: int, y: int)
    requires cfg.rate >= 0 && 0 <= x <= y
    ensures 0 <= RefillAmount(cfg, x) <= RefillAmount(cfg, y)
  {
    DivMonotone(x, y, cfg.interval);
    MulMonotone(0, x / cfg.interval, cfg.rate);
    MulMonotone(x / cfg.interval, y / cfg.interval, cfg.rate);
  }

  lemma RefillSuperadditive(cfg: Config, x: int, y: int)
    requires cfg.rate >= 0 && 0 <= x && 0 <= y
    ensures RefillAmount(cfg, x) + RefillAmount(cfg, y) <= RefillAmount(cfg, x + y)
  {
    DivSuperadditive(x, y, cfg.interval);
    var q, r := x / cfg.interval, y / cfg.interval;
    MulMonotone(q + r, (x + y) / cfg.interval, cfg.rate);
    assert (q + r) * cfg.rate == q * cfg.rate + r * cfg.rate;
  }

  lemma NegativeRateNeverRefills(cfg: Config, elapsed: nat)
    ensures cfg.rate < 0 ==> RefillAmount(cfg, elapsed) <= 0
  {
    if cfg.rate < 0 {
      DivMonotone(0, elapsed, cfg.interval);
      MulMonotone(0, elapsed / cfg.interval, -cfg.rate);
      assert elapsed / cfg.interval * -cfg.rate == -(elapsed / cfg.interval * cfg.rate);
    }
  }

  // ---------- Every stored bucket is in range ----------

  /** A stored bucket has been charged, so it is never full; without a burst it is never charged. */
  ghost predicate InRange(cfg: Config, t: Table, now: int) {
    forall k :: k in t ==>
      (if cfg.burst > 0 then 0 <= t[k].tokens < cfg.burst else t[k].tokens <= 0) && t[k].lastRefill <= now
  }

  lemma StepInRange(cfg: Config, evict: bool, t: Table, e: Event, now: int)
    requires now <= e.at && InRange(cfg, t, now)
    ensures InRange(cfg, Step(cfg, evict, t, e).0, e.at)
  {
  }

  /** Tokens stay in range over every run. */
  lemma {:induction false} RunInRange(cfg: Config, evict: bool, t: Table, es: seq<Event>, now: int, n: nat)
    requires InRange(cfg, t, now) && Ordered(now, es) && n <= |es|
    ensures InRange(cfg, Final(cfg, evict, t, es[..n]), if n == 0 then now else es[n - 1].at)
    decreases n
  {
    if n != 0 {
      StepInRange(cfg, evict, t, es[0], now);
      RunInRange(cfg, evict, Step(cfg, evict, t, es[0]).0, es[1..], es[0].at, n - 1);
      assert es[..n][0] == es[0] && es[..n][1..] == es[1..][..n - 1];
    }
  }

  // ---------- Runs in two parts ----------

  lemma {:induction false} RunConcat(cfg: Config, evict: bool, t: Table, a: seq<Event>, b: seq<Event>)
    ensures Final(cfg, evict, t, a + b) == Final(cfg, evict, Final(cfg, evict, t, a), b)
    ensures Replies(cfg, evict, t, a + b) ==
            Replies(cfg, evict, t, a) + Replies(cfg, evict, Final(cfg, evict, t, a), b)
    decreases |a|
  {
    if a == [] {
      assert a + b == b;
    } else {
      assert (a + b)[1..] == a[1..] + b && (a + b)[0] == a[0];
      RunConcat(cfg, evict, Step(cfg, evict, t, a[0]).0, a[1..], b);
    }
  }

  lemma {:induction false} CountConcat(key: string, s: int, e: int,
                                       a: seq<Event>, ra: seq<Reply>, b: seq<Event>, rb: seq<Reply>)
    requires |a| == |ra| && |b| == |rb|
    ensures AllowedIn(key, s, e, a + b, ra + rb) == AllowedIn(key, s, e, a, ra) + AllowedIn(key, s, e, b, rb)
  {
    if a == [] {
      assert a + b == b && ra + rb == rb;
    } else {
      assert (a + b)[1..] == a[1..] + b && (ra + rb)[1..] == ra[1..] + rb;
      CountConcat(key, s, e, a[1..], ra[1..], b, rb);
    }
  }

  lemma {:induction false} OrderedConcat(now: int, a: seq<Event>, mid: int, b: seq<Event>)
    requires Ordered(now, a) && Ordered(mid, b) && now <= mid
    requires forall i :: 0 <= i < |a| ==> a[i].at <= mid
    ensures Ordered(now, a + b)
    decreases |a|
  {
    if a == [] {
      assert a + b == b;
    } else {
      assert (a + b)[1..] == a[1..] + b && (a + b)[0] == a[0];
      OrderedConcat(a[0].at, a[1..], mid, b);
    }
  }

  /** `n` calls for one key at one instant. */
  function CallsAt(key: string, at: int, n: nat): seq<Event> {
    seq(n, _ => Call(key, at))
  }

  lemma {:induction false} CallsAtOrdered(key: string, at: int, n: nat)
    ensures Ordered(at, CallsAt(key, at, n))
  {
    if n != 0 {
      assert CallsAt(key, at, n)[1..] == CallsAt(key, at, n - 1);
      CallsAtOrdered(key, at, n - 1);
    }
  }

  /** The first `k` replies let the call through, the others do not. */
  ghost predicate FirstAllowed(rs: seq<Reply>, k: int) {
    forall i :: 0 <= i < |rs| ==> rs[i] == (if i < k then Allowed else Denied)
  }

  /** Calls at an instant that brings no refill use up the tokens one by one, then are denied. */
  lemma {:induction false} Drain(cfg: Config, evict: bool, t: Table, key: string, at: int, n: nat)
    requires key in t && t[key].tokens >= 0
    requires RefillAmount(cfg, at - t[key].lastRefill) <= 0
    ensures var rs := Replies(cfg, evict, t, CallsAt(key, at, n));
            && FirstAllowed(rs, t[key].tokens)
            && Final(cfg, evict, t, CallsAt(key, at, n)) ==
               t[key := t[key].(tokens := Max(t[key].tokens - n, 0))]
  {
    if n != 0 {
      var es := CallsAt(key, at, n);
      assert es[0] == Call(key, at) && es[1..] == CallsAt(key, at, n - 1);
      assert Refilled(cfg, t[key], at) == t[key];
      var t' := Step(cfg, evict, t, es[0]).0;
      Drain(cfg, evict, t', key, at, n - 1);
      var rs, rs' := Replies(cfg, evict, t, es), Replies(cfg, evict, t', CallsAt(key, at, n - 1));
      assert rs == [rs[0]] + rs';
    } else {
      assert t[key := t[key]] == t;
    }
  }

  lemma RefillTwice(cfg: Config, b: BucketState, at: int)
    ensures Refilled(cfg, Refilled(cfg, b, at), at) == Refilled(cfg, b, at)
    ensures Refilled(cfg, Fresh(cfg, at), at) == Fresh(cfg, at)
  {
    assert RefillAmount(cfg, 0) == 0 by {
      assert Quotient(0, cfg.interval) == 0;
    }
  }

  /** A call sees the refilled bucket: storing it first makes no difference. */
  lemma StepFromRefilled(cfg: Config, evict: bool, t: Table, key: string, at: int)
    ensures var b := Refilled(cfg, BucketOf(cfg, t, key, at), at);
            Step(cfg, evict, t, Call(key, at)) == Step(cfg, evict, t[key := b], Call(key, at))
  {
    var b := Refilled(cfg, BucketOf(cfg, t, key, at), at);
    var t' := t[key := b];
    RefillTwice(cfg, BucketOf(cfg, t, key, at), at);
    assert t[key := b] == t'[key := b];
    assert t[key := b.(tokens := b.tokens - 1)] == t'[key := b.(tokens := b.tokens - 1)];
  }

  lemma DrainRefilled(cfg: Config, evict: bool, t: Table, key: string, at: int, n: nat)
    requires n > 0
    requires Refilled(cfg, BucketOf(cfg, t, key, at), at).tokens >= 0
    ensures var b := Refilled(cfg, BucketOf(cfg, t, key, at), at);
            var rs := Replies(cfg, evict, t, CallsAt(key, at, n));
            && FirstAllowed(rs, b.tokens)
            && Final(cfg, evict, t, CallsAt(key, at, n)) ==
               t[key := b.(tokens := Max(b.tokens - n, 0))]
  {
    var b := Refilled(cfg, BucketOf(cfg, t, key, at), at);
    StepFromRefilled(cfg, evict, t, key, at);
    var t' := t[key := b];
    Drain(cfg, evict, t', key, at, n);
    var es := CallsAt(key, at, n);
    assert es[0] == Call(key, at);
    assert Replies(cfg, evict, t, es) == Replies(cfg, evict, t', es);
    assert Final(cfg, evict, t, es) == Final(cfg, evict, t', es);
    assert t'[key := b.(tokens := Max(b.tokens - n, 0))] == t[key := b.(tokens := Max(b.tokens - n, 0))];
  }

  // ---------- Eviction ----------

  /** No run can tell the limiter that evicts idle buckets from one that keeps them all. */
  ghost predicate EvictionUnobservable(cfg: Config) {
    forall start: int, es: seq<Event> :: Ordered(start, es) ==>
      Replies(cfg, true, map[], es) == Replies(cfg, false, map[], es)
  }

  /** What the shortest idle time refills, filling even an empty bucket. */
  predicate IdleTimeRefills(cfg: Config) {
    RefillAmount(cfg, IDLE_LIMIT + 1) >= cfg.burst
  }

  /** The evicting table is part of the keeping one, and what it lacks is idle. */
  ghost predicate Simulates(evicting: Table, keeping: Table, now: int) {
    && (forall k :: k in evicting ==> k in keeping && keeping[k] == evicting[k])
    && (forall k :: k in keeping && k !in evicting ==> Idle(keeping[k], now))
  }

  lemma IdleBucketIsFull(cfg: Config, b: BucketState, now: int)
    requires cfg.burst > 0 && IdleTimeRefills(cfg) && Idle(b, now) && b.tokens >= 0
    ensures Refilled(cfg, b, now) == Fresh(cfg, now)
  {
    NegativeRateNeverRefills(cfg, IDLE_LIMIT + 1);
    RefillMonotone(cfg, IDLE_LIMIT + 1, now - b.lastRefill);
  }

  lemma StepSimulates(cfg: Config, evicting: Table, keeping: Table, e: Event, now: int)
    requires cfg.burst > 0 && IdleTimeRefills(cfg)
    requires Simulates(evicting, keeping, now) && InRange(cfg, keeping, now) && now <= e.at
    ensures var (evicting', r) := Step(cfg, true, evicting, e);
            var (keeping', r') := Step(cfg, false, keeping, e);
            r == r' && Simulates(evicting', keeping', e.at)
  {
    match e
    case Sweep(_) =>
    case Call(key, at) =>
      if key in keeping && key !in evicting {
        IdleBucketIsFull(cfg, keeping[key], at);
        RefillTwice(cfg, keeping[key], at);
      }
      assert Refilled(cfg, BucketOf(cfg, evicting, key, at), at) == Refilled(cfg, BucketOf(cfg, keeping, key, at), at);
  }

  lemma {:induction false} RunSimulates(cfg: Config, evicting: Table, keeping: Table, es: seq<Event>, now: int)
    requires cfg.burst > 0 && IdleTimeRefills(cfg)
    requires Simulates(evicting, keeping, now) && InRange(cfg, keeping, now) && Ordered(now, es)
    ensures Replies(cfg, true, evicting, es) == Replies(cfg, false, keeping, es)
    decreases |es|
  {
    if es != [] {
      StepSimulates(cfg, evicting, keeping, es[0], now);
      StepInRange(cfg, false, keeping, es[0], now);
      RunSimulates(cfg, Step(cfg, true, evicting, es[0]).0, Step(cfg, false, keeping, es[0]).0, es[1..], es[0].at);
    }
  }

  /** Without a burst allowance nothing is ever let through. */
  lemma {:induction false} NoBurstDenies(cfg: Config, evict: bool, t: Table, es: seq<Event>)
    requires cfg.burst <= 0 && forall k :: k in t ==> t[k].tokens <= 0
    ensures forall i :: 0 <= i < |es| ==>
              Replies(cfg, evict, t, es)[i] == if es[i].Call? then Denied else Swept
    decreases |es|
  {
    if es != [] {
      NoBurstDenies(cfg, evict, Step(cfg, evict, t, es[0]).0, es[1..]);
    }
  }

  /** Drain a bucket, let it go idle, sweep, and ask again. */
  function Probe(cfg: Config, key: string): seq<Event>
    requires cfg.burst > 0
  {
    CallsAt(key, 0, cfg.burst) + ([Sweep(IDLE_LIMIT + 1)] + CallsAt(key, IDLE_LIMIT + 1, cfg.burst))
  }

  lemma ProbeOrdered(cfg: Config, key: string)
    requires cfg.burst > 0
    ensures Ordered(0, Probe(cfg, key))
  {
    var late := CallsAt(key, IDLE_LIMIT + 1, cfg.burst);
    CallsAtOrdered(key, 0, cfg.burst);
    CallsAtOrdered(key, IDLE_LIMIT + 1, cfg.burst);
    assert ([Sweep(IDLE_LIMIT + 1)] + late)[1..] == late;
    OrderedConcat(0, CallsAt(key, 0, cfg.burst), IDLE_LIMIT + 1, [Sweep(IDLE_LIMIT + 1)] + late);
  }

  /** The last reply to the probe tells whether the bucket was evicted or only refilled. */
  lemma ProbeReplies(cfg: Config, evict: bool, key: string)
    requires cfg.burst > 0
    ensures |Probe(cfg, key)| == 2 * cfg.burst + 1
    ensures Replies(cfg, evict, map[], Probe(cfg, key))[2 * cfg.burst] ==
            if evict || IdleTimeRefills(cfg) then Allowed else Denied
  {
    var n := cfg.burst;
    var early, late := CallsAt(key, 0, n), CallsAt(key, IDLE_LIMIT + 1, n);
    var rest := [Sweep(IDLE_LIMIT + 1)] + late;
    RefillTwice(cfg, Fresh(cfg, 0), 0);
    DrainRefilled(cfg, evict, map[], key, 0, n);
    RunConcat(cfg, evict, map[], early, rest);
    var t := Final(cfg, evict, map[], early);
    assert t == map[key := BucketState(0, 0)];
    var t' := Step(cfg, evict, t, rest[0]).0;
    assert rest[1..] == late;
    assert t' == if evict then map[] else t;
    RefillTwice(cfg, Fresh(cfg, IDLE_LIMIT + 1), IDLE_LIMIT + 1);
    DrainRefilled(cfg, evict, t', key, IDLE_LIMIT + 1, n);
    var rs := Replies(cfg, evict, t', late);
    var b := Refilled(cfg, BucketOf(cfg, t', key, IDLE_LIMIT + 1), IDLE_LIMIT + 1);
    assert rs[n - 1] == if n - 1 < b.tokens then Allowed else Denied;
    assert Replies(cfg, evict, t, rest)[n] == rs[n - 1];
  }

  /**
   Eviction is unobservable exactly when the idle time refills a whole bucket (or nothing is ever
   let through).
   */
  lemma EvictionUnobservableIff(cfg: Config)
    ensures EvictionUnobservable(cfg) <==> cfg.burst <= 0 || IdleTimeRefills(cfg)
  {
    if cfg.burst <= 0 {
      forall start: int, es: seq<Event> | Ordered(start, es)
        ensures Replies(cfg, true, map[], es) == Replies(cfg, false, map[], es)
      {
        NoBurstDenies(cfg, true, map[], es);
        NoBurstDenies(cfg, false, map[], es);
      }
    } else if IdleTimeRefills(cfg) {
      forall start: int, es: seq<Event> | Ordered(start, es)
        ensures Replies(cfg, true, map[], es) == Replies(cfg, false, map[], es)
      {
        RunSimulates(cfg, map[], map[], es, start);
      }
    } else {
      ProbeOrdered(cfg, "");
      ProbeReplies(cfg, true, "");
      ProbeReplies(cfg, false, "");
    }
  }

  // ---------- The window bound ----------

  /** The whole intervals that touch a window of length `d`. */
  function CeilIntervals(cfg: Config, d: nat): int {
    (d + cfg.interval - 1) / cfg.interval
  }

  /**
   The parameters as far as they matter: a refill never adds more than a whole bucket, and negative
   numbers are as good as zero.
   */
  function Effective(cfg: Config): Config {
    var burst := Max(0, cfg.burst);
    cfg.(rate := Max(0, Min(cfg.rate, burst)), burst := burst)
  }

  /** The rate is between zero and the burst. */
  predicate Plain(cfg: Config) {
    0 <= cfg.rate <= cfg.burst && cfg.burst > 0
  }

  function PlainBound(cfg: Config, d: nat): int {
    Max(cfg.burst + RefillAmount(cfg, d), cfg.burst - 1 + CeilIntervals(cfg, d) * cfg.rate)
  }

  /** The most calls for one key that any run lets through in a window of length `d`. */
  function WindowBound(cfg: Config, d: nat): int {
    PlainBound(Effective(cfg), d)
  }

  lemma EffectiveRefill(cfg: Config, b: BucketState, now: int)
    requires cfg.burst > 0 && 0 <= b.tokens <= cfg.burst && b.lastRefill <= now
    ensures Refilled(cfg, b, now) == Refilled(Effective(cfg), b, now)
  {
    var elapsed := now - b.lastRefill;
    var q := elapsed / cfg.interval;
    NegativeRateNeverRefills(cfg, elapsed);
    DivMonotone(0, elapsed, cfg.interval);
    if cfg.rate > cfg.burst && q > 0 {
      MulMonotone(1, q, cfg.rate);
      MulMonotone(1, q, cfg.burst);
    }
  }

  lemma EffectiveStep(cfg: Config, evict: bool, t: Table, e: Event, now: int)
    requires cfg.burst > 0 && InRange(cfg, t, now) && now <= e.at
    ensures Step(cfg, evict, t, e) == Step(Effective(cfg), evict, t, e)
  {
    if e.Call? {
      EffectiveRefill(cfg, BucketOf(cfg, t, e.key, e.at), e.at);
    }
  }

  /** A limiter answers every run as the one with its effective parameters. */
  lemma {:induction false} EffectiveRun(cfg: Config, evict: bool, t: Table, es: seq<Event>, now: int)
    requires cfg.burst > 0 && InRange(cfg, t, now) && Ordered(now, es)
    ensures Replies(cfg, evict, t, es) == Replies(Effective(cfg), evict, t, es)
    decreases |es|
  {
    if es != [] {
      EffectiveStep(cfg, evict, t, es[0], now);
      StepInRange(cfg, evict, t, es[0], now);
      EffectiveRun(cfg, evict, Step(cfg, evict, t, es[0]).0, es[1..], es[0].at);
    }
  }

  /** From any reachable state, the keeping limiter with effective parameters gives the replies. */
  lemma RepliesOfEffective(cfg: Config, evict: bool, t: Table, es: seq<Event>, now: int)
    requires cfg.burst > 0 && InRange(cfg, t, now) && Ordered(now, es)
    requires IdleTimeRefills(cfg) || !evict
    ensures Replies(cfg, evict, t, es) == Replies(Effective(cfg), false, t, es)
  {
    if evict {
      RunSimulates(cfg, t, t, es, now);
    }
    EffectiveRun(cfg, false, t, es, now);
  }

  lemma {:induction false} NothingAllowed(key: string, s: int, e: int, es: seq<Event>, rs: seq<Reply>)
    requires |es| == |rs| && forall i :: 0 <= i < |rs| ==> rs[i] != Allowed
    ensures AllowedIn(key, s, e, es, rs) == 0
    decreases |es|
  {
    if es != [] {
      NothingAllowed(key, s, e, es[1..], rs[1..]);
    }
  }

  lemma NoBurstNothingAllowed(cfg: Config, evict: bool, t: Table, es: seq<Event>, key: string, s: int, e: int, now: int)
    requires cfg.burst <= 0 && InRange(cfg, t, now)
    ensures AllowedIn(key, s, e, es, Replies(cfg, evict, t, es)) == 0
  {
    NoBurstDenies(cfg, evict, t, es);
    NothingAllowed(key, s, e, es, Replies(cfg, evict, t, es));
  }

  lemma {:induction false} NothingBefore(key: string, s: int, e: int, es: seq<Event>, rs: seq<Reply>, now: int)
    requires |es| == |rs| && Ordered(now, es) && e < now
    ensures AllowedIn(key, s, e, es, rs) == 0
    decreases |es|
  {
    if es != [] {
      NothingBefore(key, s, e, es[1..], rs[1..], es[0].at);
    }
  }

  /** From a stored bucket on: its tokens, plus what is refilled until the end of the window. */
  lemma {:induction false} CountFromBucket(cfg: Config, t: Table, es: seq<Event>, key: string, s: int, e: int, now: int)
    requires cfg.rate >= 0 && cfg.burst > 0 && Ordered(now, es) && key in t
    requires 0 <= t[key].tokens && t[key].lastRefill <= now && t[key].lastRefill <= e
    ensures AllowedIn(key, s, e, es, Replies(cfg, false, t, es)) <=
            t[key].tokens + RefillAmount(cfg, e - t[key].lastRefill)
    decreases |es|
  {
    var b := t[key];
    RefillMonotone(cfg, 0, e - b.lastRefill);
    if es == [] {
    } else if es[0].at > e {
      NothingBefore(key, s, e, es, Replies(cfg, false, t, es), es[0].at);
    } else {
      var t' := Step(cfg, false, t, es[0]).0;
      CountFromBucket(cfg, t', es[1..], key, s, e, es[0].at);
      if es[0].Call? && es[0].key == key && RefillAmount(cfg, es[0].at - b.lastRefill) > 0 {
        RefillSuperadditive(cfg, es[0].at - b.lastRefill, e - es[0].at);
      }
    }
  }

  /** A call that brings no refill comes less than an interval after the last one. */
  lemma NoRefillIsRecent(cfg: Config, elapsed: int)
    requires cfg.rate > 0 && 0 <= elapsed && RefillAmount(cfg, elapsed) <= 0
    ensures elapsed < cfg.interval
  {
    if elapsed >= cfg.interval {
      DivMonotone(cfg.interval, elapsed, cfg.interval);
      MulMonotone(1, elapsed / cfg.interval, cfg.rate);
    }
  }

  /** Whole intervals since a bucket's last refill touch the window, if that refill is recent. */
  lemma RecentRefillBound(cfg: Config, elapsed: nat, d: nat)
    requires cfg.rate >= 0 && (cfg.rate == 0 || elapsed <= d + cfg.interval - 1)
    ensures RefillAmount(cfg, elapsed) <= CeilIntervals(cfg, d) * cfg.rate
  {
    if cfg.rate > 0 {
      DivMonotone(elapsed, d + cfg.interval - 1, cfg.interval);
      MulMonotone(elapsed / cfg.interval, CeilIntervals(cfg, d), cfg.rate);
    }
  }

  /** What the first call in the window finds, plus the later refills, is within the bound. */
  lemma FirstCallBound(cfg: Config, t: Table, key: string, s: int, e: int, at: int)
    requires Plain(cfg) && InRange(cfg, t, at) && s <= at <= e
    ensures var b := Refilled(cfg, BucketOf(cfg, t, key, at), at);
            && 0 <= b.tokens && b.lastRefill <= at
            && b.tokens + RefillAmount(cfg, e - b.lastRefill) <= PlainBound(cfg, e - s)
  {
    var b := Refilled(cfg, BucketOf(cfg, t, key, at), at);
    RefillMonotone(cfg, e - at, e - s);
    if b.lastRefill != at {
      if cfg.rate > 0 {
        NoRefillIsRecent(cfg, at - b.lastRefill);
      }
      RecentRefillBound(cfg, e - b.lastRefill, e - s);
    }
  }

  /** The count from a call on depends on the refilled bucket alone. */
  lemma CountFromFirstCall(cfg: Config, t: Table, es: seq<Event>, key: string, s: int, e: int, now: int)
    requires Plain(cfg) && InRange(cfg, t, now)
    requires es != [] && Ordered(now, es) && es[0].Call? && es[0].key == key && s <= es[0].at <= e
    ensures AllowedIn(key, s, e, es, Replies(cfg, false, t, es)) <= PlainBound(cfg, e - s)
  {
    var at := es[0].at;
    var b := Refilled(cfg, BucketOf(cfg, t, key, at), at);
    StepFromRefilled(cfg, false, t, key, at);
    assert Replies(cfg, false, t, es) == Replies(cfg, false, t[key := b], es);
    FirstCallBound(cfg, t, key, s, e, at);
    CountFromBucket(cfg, t[key := b], es, key, s, e, at);
  }

  lemma PlainBoundPositive(cfg: Config, d: nat)
    requires Plain(cfg)
    ensures PlainBound(cfg, d) > 0
  {
    RefillMonotone(cfg, 0, d);
  }

  lemma {:induction false} CountFromAnyState(cfg: Config, t: Table, es: seq<Event>, key: string,
                                             s: int, e: int, now: int)
    requires Plain(cfg) && InRange(cfg, t, now) && Ordered(now, es) && s <= e
    ensures AllowedIn(key, s, e, es, Replies(cfg, false, t, es)) <= PlainBound(cfg, e - s)
    decreases |es|
  {
    PlainBoundPositive(cfg, e - s);
    if es != [] {
      if es[0].Call? && es[0].key == key && s <= es[0].at <= e {
        CountFromFirstCall(cfg, t, es, key, s, e, now);
      } else {
        StepInRange(cfg, false, t, es[0], now);
        CountFromAnyState(cfg, Step(cfg, false, t, es[0]).0, es[1..], key, s, e, es[0].at);
      }
    }
  }

  /**
   The window bound: whatever the parameters, whatever other keys do and however sweeps interleave,
   the calls let through for one key in [s, s + d] number at most `WindowBound`, from any state a
   run can reach.
   */
  lemma {:induction false} AllowedInWindow(cfg: Config, evict: bool, t: Table, es: seq<Event>, key: string,
                                           s: int, d: nat, now: int)
    requires cfg.burst <= 0 || IdleTimeRefills(cfg) || !evict
    requires InRange(cfg, t, now) && Ordered(now, es)
    ensures AllowedIn(key, s, s + d, es, Replies(cfg, evict, t, es)) <= WindowBound(cfg, d)
  {
    if cfg.burst <= 0 {
      NoBurstNothingAllowed(cfg, evict, t, es, key, s, s + d, now);
      assert WindowBound(cfg, d) == 0;
    } else {
      RepliesOfEffective(cfg, evict, t, es, now);
      CountFromAnyState(Effective(cfg), t, es, key, s, s + d, now);
    }
  }

  lemma CountFromCreation(cfg: Config, t: Table, es: seq<Event>, key: string, s: int, e: int)
    requires Plain(cfg) && key !in t && s <= e
    requires es != [] && Ordered(s, es) && es[0] == Call(key, s)
    ensures AllowedIn(key, s, e, es, Replies(cfg, false, t, es)) <= cfg.burst + RefillAmount(cfg, e - s)
  {
    RefillTwice(cfg, Fresh(cfg, s), s);
    StepFromRefilled(cfg, false, t, key, s);
    var t' := t[key := Fresh(cfg, s)];
    assert Replies(cfg, false, t, es) == Replies(cfg, false, t', es);
    CountFromBucket(cfg, t', es, key, s, e, s);
  }

  /** When the window opens with the creation of the bucket, only whole intervals refill it. */
  lemma {:induction false} AllowedFromCreation(cfg: Config, evict: bool, t: Table, es: seq<Event>, key: string,
                                               s: int, e: int)
    requires cfg.burst <= 0 || IdleTimeRefills(cfg) || !evict
    requires InRange(cfg, t, s) && key !in t && s <= e
    requires es != [] && Ordered(s, es) && es[0] == Call(key, s)
    ensures var c := Effective(cfg);
            c.burst + RefillAmount(c, e - s) >= AllowedIn(key, s, e, es, Replies(cfg, evict, t, es))
  {
    if cfg.burst <= 0 {
      NoBurstNothingAllowed(cfg, evict, t, es, key, s, e, s);
    } else {
      RepliesOfEffective(cfg, evict, t, es, s);
      CountFromCreation(Effective(cfg), t, es, key, s, e);
    }
  }

  // ---------- When eviction can be observed ----------

  /** Evictions of one key are more than the idle time apart; each may bring a whole new bucket. */
  function NewBuckets(cfg: Config, elapsed: nat): int {
    elapsed / (IDLE_LIMIT + 1) * cfg.burst
  }

  lemma NewBucketsMonotone(cfg: Config, x: int, y: int)
    requires cfg.burst >= 0 && 0 <= x <= y
    ensures 0 <= NewBuckets(cfg, x) <= NewBuckets(cfg, y)
    ensures NewBuckets(cfg, x + (IDLE_LIMIT + 1)) == NewBuckets(cfg, x) + cfg.burst
  {
    MulMonotone(0, x / (IDLE_LIMIT + 1), cfg.burst);
    MulMonotone(x / (IDLE_LIMIT + 1), y / (IDLE_LIMIT + 1), cfg.burst);
    assert (x + (IDLE_LIMIT + 1)) / (IDLE_LIMIT + 1) == x / (IDLE_LIMIT + 1) + 1;
  }

  /** From when on the bucket's evictions count: it cannot have become idle before this. */
  function IdleFrom(lastRefill: int, now: int): int {
    Max(lastRefill, now - (IDLE_LIMIT + 1))
  }

  /** What a key can still get until `e`: its tokens, refills, and buckets that replace evicted ones. */
  function Potential(cfg: Config, t: Table, key: string, now: int, e: int): int
    requires now <= e
  {
    if key in t
    then t[key].tokens + RefillAmount(cfg, e - t[key].lastRefill)
         + (if t[key].lastRefill <= now then NewBuckets(cfg, e - IdleFrom(t[key].lastRefill, now)) else 0)
    else cfg.burst + RefillAmount(cfg, e - now) + NewBuckets(cfg, e - now)
  }

  lemma PotentialShrinks(cfg: Config, t: Table, key: string, now: int, later: int, e: int)
    requires Plain(cfg) && InRange(cfg, t, now) && now <= later <= e
    ensures 0 <= Potential(cfg, t, key, later, e) <= Potential(cfg, t, key, now, e)
  {
    if key in t {
      var last := t[key].lastRefill;
      RefillMonotone(cfg, 0, e - last);
      NewBucketsMonotone(cfg, e - IdleFrom(last, later), e - IdleFrom(last, now));
    } else {
      RefillMonotone(cfg, e - later, e - now);
      NewBucketsMonotone(cfg, e - later, e - now);
    }
  }

  /** A sweep that evicts the bucket makes room for a new one, which the potential has counted. */
  lemma SweepPotential(cfg: Config, t: Table, key: string, at: int, e: int)
    requires Plain(cfg) && InRange(cfg, t, at) && at <= e
    ensures Potential(cfg, SweepStep(t, at), key, at, e) <= Potential(cfg, t, key, at, e)
  {
    if key in t && Idle(t[key], at) {
      RefillMonotone(cfg, e - at, e - t[key].lastRefill);
      NewBucketsMonotone(cfg, e - at, e - at);
    }
  }

  /** A call for the key pays for itself. */
  lemma CallPotential(cfg: Config, t: Table, key: string, at: int, e: int)
    requires Plain(cfg) && InRange(cfg, t, at) && at <= e
    ensures var (t', ok) := AllowStep(cfg, t, key, at);
            Potential(cfg, t', key, at, e) + (if ok then 1 else 0) <= Potential(cfg, t, key, at, e)
  {
    var b := BucketOf(cfg, t, key, at);
    RefillTwice(cfg, b, at);
    if key in t && RefillAmount(cfg, at - b.lastRefill) > 0 {
      RefillSuperadditive(cfg, at - b.lastRefill, e - at);
      NewBucketsMonotone(cfg, e - at, e - IdleFrom(b.lastRefill, at));
    }
  }

  lemma OtherPotential(cfg: Config, t: Table, key: string, other: string, at: int, e: int)
    requires at <= e && other != key
    ensures Potential(cfg, AllowStep(cfg, t, other, at).0, key, at, e) == Potential(cfg, t, key, at, e)
  {
  }

  lemma {:induction false} CountEvicting(cfg: Config, t: Table, es: seq<Event>, key: string, s: int, e: int, now: int)
    requires Plain(cfg) && InRange(cfg, t, now) && Ordered(now, es) && now <= e
    ensures AllowedIn(key, s, e, es, Replies(cfg, true, t, es)) <= Potential(cfg, t, key, now, e)
    decreases |es|
  {
    PotentialShrinks(cfg, t, key, now, now, e);
    if es == [] {
    } else if es[0].at > e {
      NothingBefore(key, s, e, es, Replies(cfg, true, t, es), es[0].at);
    } else {
      var at := es[0].at;
      PotentialShrinks(cfg, t, key, now, at, e);
      match es[0] {
        case Sweep(_) => SweepPotential(cfg, t, key, at, e);
        case Call(k, _) =>
          if k == key {
            CallPotential(cfg, t, key, at, e);
          } else {
            OtherPotential(cfg, t, key, k, at, e);
          }
      }
      StepInRange(cfg, true, t, es[0], now);
      CountEvicting(cfg, Step(cfg, true, t, es[0]).0, es[1..], key, s, e, at);
    }
  }

  /** From the first call in the window on: the window bound, and a bucket for every idle time in it. */
  lemma CountEvictingFromFirstCall(cfg: Config, t: Table, es: seq<Event>, key: string, s: int, d: nat, now: int)
    requires Plain(cfg) && InRange(cfg, t, now)
    requires es != [] && Ordered(now, es) && es[0].Call? && es[0].key == key && s <= es[0].at <= s + d
    ensures AllowedIn(key, s, s + d, es, Replies(cfg, true, t, es)) <=
            PlainBound(cfg, d) + cfg.burst + NewBuckets(cfg, d)
  {
    var at, e := es[0].at, s + d;
    FirstCallBound(cfg, t, key, s, e, at);
    CallPotential(cfg, t, key, at, e);
    var t' := AllowStep(cfg, t, key, at).0;
    StepInRange(cfg, true, t, es[0], now);
    CountEvicting(cfg, t', es[1..], key, s, e, at);
    AfterFirstCall(cfg, t, key, s, d, at);
  }

  /** What is left after the first call in the window, with the call itself. */
  lemma AfterFirstCall(cfg: Config, t: Table, key: string, s: int, d: nat, at: int)
    requires Plain(cfg) && InRange(cfg, t, at) && s <= at <= s + d
    ensures var (t', ok) := AllowStep(cfg, t, key, at);
            Potential(cfg, t', key, at, s + d) + (if ok then 1 else 0) <=
            PlainBound(cfg, d) + cfg.burst + NewBuckets(cfg, d)
  {
    var e := s + d;
    var b := Refilled(cfg, BucketOf(cfg, t, key, at), at);
    FirstCallBound(cfg, t, key, s, e, at);
    NewBucketsMonotone(cfg, e - at, d);
    NewBucketsMonotone(cfg, e - IdleFrom(b.lastRefill, at), e - at + (IDLE_LIMIT + 1));
  }

  lemma {:induction false} CountEvictingFromAnyState(cfg: Config, t: Table, es: seq<Event>, key: string,
                                                     s: int, d: nat, now: int)
    requires Plain(cfg) && InRange(cfg, t, now) && Ordered(now, es)
    ensures AllowedIn(key, s, s + d, es, Replies(cfg, true, t, es)) <=
            PlainBound(cfg, d) + cfg.burst + NewBuckets(cfg, d)
    decreases |es|
  {
    PlainBoundPositive(cfg, d);
    NewBucketsMonotone(cfg, d, d);
    if es != [] {
      if es[0].Call? && es[0].key == key && s <= es[0].at <= s + d {
        CountEvictingFromFirstCall(cfg, t, es, key, s, d, now);
      } else {
        StepInRange(cfg, true, t, es[0], now);
        CountEvictingFromAnyState(cfg, Step(cfg, true, t, es[0]).0, es[1..], key, s, d, es[0].at);
      }
    }
  }

  /**
   Whatever sweeps do, also when they can be observed: at most one burst more than the window bound,
   and one for every idle time that fits into the window.
   */
  lemma {:induction false} AllowedWithEviction(cfg: Config, t: Table, es: seq<Event>, key: string,
                                               s: int, d: nat, now: int)
    requires InRange(cfg, t, now) && Ordered(now, es)
    ensures AllowedIn(key, s, s + d, es, Replies(cfg, true, t, es)) <=
            WindowBound(cfg, d) + Effective(cfg).burst + NewBuckets(Effective(cfg), d)
  {
    if cfg.burst <= 0 {
      NoBurstNothingAllowed(cfg, true, t, es, key, s, s + d, now);
      assert WindowBound(cfg, d) == 0;
    } else {
      EffectiveRun(cfg, true, t, es, now);
      CountEvictingFromAnyState(Effective(cfg), t, es, key, s, d, now);
    }
  }

  // ---------- The bound is attained ----------

  /** `m` rounds, one interval apart and starting one interval after `last`, of `rate` calls each. */
  function Rounds(cfg: Config, key: string, last: int, m: nat): seq<Event>
    requires cfg.rate >= 0
    decreases m
  {
    if m == 0 then []
    else CallsAt(key, last + cfg.interval, cfg.rate) + Rounds(cfg, key, last + cfg.interval, m - 1)
  }

  lemma {:induction false} CountCallsAt(key: string, s: int, e: int, at: int, n: nat, rs: seq<Reply>)
    requires |rs| == n && FirstAllowed(rs, n)
    ensures AllowedIn(key, s, e, CallsAt(key, at, n), rs) == if s <= at <= e then n else 0
  {
    if n != 0 {
      assert CallsAt(key, at, n)[1..] == CallsAt(key, at, n - 1);
      CountCallsAt(key, s, e, at, n - 1, rs[1..]);
    }
  }

  lemma MulNext(m: int, x: int)
    ensures m * x == x + (m - 1) * x
  {
  }

  lemma OneIntervalRefill(cfg: Config)
    ensures RefillAmount(cfg, cfg.interval) == cfg.rate
  {
    assert Quotient(cfg.interval, cfg.interval) == 1;
  }

  lemma {:induction false} RoundsOrdered(cfg: Config, key: string, last: int, m: nat)
    requires cfg.rate >= 0
    ensures Ordered(last, Rounds(cfg, key, last, m))
    decreases m
  {
    if m != 0 {
      var at := last + cfg.interval;
      CallsAtOrdered(key, at, cfg.rate);
      RoundsOrdered(cfg, key, at, m - 1);
      OrderedConcat(at, CallsAt(key, at, cfg.rate), at, Rounds(cfg, key, at, m - 1));
    }
  }

  /** One round, an interval after the bucket was left empty, gets all its calls through and empties it again. */
  lemma OneRound(cfg: Config, t: Table, key: string, last: int, s: int, e: int)
    requires 1 <= cfg.rate <= cfg.burst && key in t && t[key] == BucketState(0, last)
    requires s <= last + cfg.interval <= e
    ensures var at := last + cfg.interval;
            var es := CallsAt(key, at, cfg.rate);
            && Final(cfg, false, t, es) == t[key := BucketState(0, at)]
            && AllowedIn(key, s, e, es, Replies(cfg, false, t, es)) == cfg.rate
  {
    var at := last + cfg.interval;
    var es := CallsAt(key, at, cfg.rate);
    OneIntervalRefill(cfg);
    DrainRefilled(cfg, false, t, key, at, cfg.rate);
    CountCallsAt(key, s, e, at, cfg.rate, Replies(cfg, false, t, es));
  }

  lemma {:induction false} RoundsCount(cfg: Config, t: Table, key: string, last: int, m: nat, s: int, e: int)
    requires 1 <= cfg.rate <= cfg.burst && key in t && t[key] == BucketState(0, last)
    requires s <= last + cfg.interval && last + m * cfg.interval <= e
    ensures var es := Rounds(cfg, key, last, m);
            AllowedIn(key, s, e, es, Replies(cfg, false, t, es)) == m * cfg.rate
    decreases m
  {
    if m != 0 {
      var at := last + cfg.interval;
      MulNext(m, cfg.interval);
      MulNext(m, cfg.rate);
      MulMonotone(0, m - 1, cfg.interval);
      OneRound(cfg, t, key, last, s, e);
      var t' := t[key := BucketState(0, at)];
      RoundsCount(cfg, t', key, at, m - 1, s, e);
      var first, rest := CallsAt(key, at, cfg.rate), Rounds(cfg, key, at, m - 1);
      CountInTwoParts(cfg, t, key, first, rest, s, e);
      assert Rounds(cfg, key, last, m) == first + rest;
      assert AllowedIn(key, s, e, rest, Replies(cfg, false, t', rest)) == (m - 1) * cfg.rate;
    }
  }

  lemma CountInTwoParts(cfg: Config, t: Table, key: string, a: seq<Event>, b: seq<Event>, s: int, e: int)
    ensures var t' := Final(cfg, false, t, a);
            AllowedIn(key, s, e, a + b, Replies(cfg, false, t, a + b)) ==
            AllowedIn(key, s, e, a, Replies(cfg, false, t, a)) + AllowedIn(key, s, e, b, Replies(cfg, false, t', b))
  {
    RunConcat(cfg, false, t, a, b);
    CountConcat(key, s, e, a, Replies(cfg, false, t, a), b, Replies(cfg, false, Final(cfg, false, t, a), b));
  }

  /** `k` calls at `s` that use up the bucket, then the rounds. */
  lemma DrainThenRounds(cfg: Config, t: Table, key: string, k: nat, m: nat, s: int, e: int)
    requires 1 <= cfg.rate <= cfg.burst && key in t && t[key].tokens == k
    requires RefillAmount(cfg, s - t[key].lastRefill) <= 0
    requires s - cfg.interval <= t[key].lastRefill <= s <= e && t[key].lastRefill + m * cfg.interval <= e
    ensures var es := CallsAt(key, s, k) + Rounds(cfg, key, t[key].lastRefill, m);
            && Ordered(s, es)
            && AllowedIn(key, s, e, es, Replies(cfg, false, t, es)) == k + m * cfg.rate
  {
    var last := t[key].lastRefill;
    var es, rest := CallsAt(key, s, k), Rounds(cfg, key, last, m);
    Drain(cfg, false, t, key, s, k);
    var t' := Final(cfg, false, t, es);
    RoundsCount(cfg, t', key, last, m, s, e);
    CountCallsAt(key, s, e, s, k, Replies(cfg, false, t, es));
    CountInTwoParts(cfg, t, key, es, rest, s, e);
    CallsAtOrdered(key, s, k);
    RoundsOrdered(cfg, key, last, m);
    assert m > 0 ==> rest[0].at == last + cfg.interval;
    OrderedConcat(s, es, s, rest);
  }

  /** The busiest run, when the window is a whole number of intervals long: open with a new bucket. */
  lemma BusiestFromCreation(cfg: Config, key: string, s: int, d: nat)
    requires 1 <= cfg.rate <= cfg.burst
    ensures var es := CallsAt(key, s, cfg.burst) + Rounds(cfg, key, s, d / cfg.interval);
            && Ordered(s, es)
            && AllowedIn(key, s, s + d, es, Replies(cfg, false, map[], es)) == cfg.burst + RefillAmount(cfg, d)
  {
    var t := map[key := Fresh(cfg, s)];
    var es := CallsAt(key, s, cfg.burst) + Rounds(cfg, key, s, d / cfg.interval);
    RefillTwice(cfg, Fresh(cfg, s), s);
    DivMonotone(0, d, cfg.interval);
    DrainThenRounds(cfg, t, key, cfg.burst, d / cfg.interval, s, s + d);
    assert es[0] == Call(key, s);
    StepFromRefilled(cfg, false, map[], key, s);
    assert map[][key := Fresh(cfg, s)] == t;
    assert Replies(cfg, false, map[], es) == Replies(cfg, false, t, es);
  }

  lemma CountFirst(cfg: Config, t: Table, key: string, first: Event, rest: seq<Event>, s: int, e: int)
    ensures var (t', r) := Step(cfg, false, t, first);
            AllowedIn(key, s, e, [first] + rest, Replies(cfg, false, t, [first] + rest)) ==
            (if first.Call? && first.key == key && s <= first.at <= e && r == Allowed then 1 else 0)
            + AllowedIn(key, s, e, rest, Replies(cfg, false, t', rest))
    ensures forall now :: now <= first.at && Ordered(first.at, rest) ==> Ordered(now, [first] + rest)
  {
    assert ([first] + rest)[1..] == rest;
  }

  /** Otherwise: open the bucket just before the window, so that one more refill falls inside. */
  lemma BusiestWithEarlierBucket(cfg: Config, key: string, s: int, d: nat)
    requires 1 <= cfg.rate <= cfg.burst && d % cfg.interval != 0
    ensures var m := CeilIntervals(cfg, d);
            var last := s + d - m * cfg.interval;
            && m >= 0
            && var es := [Call(key, last)] + (CallsAt(key, s, cfg.burst - 1) + Rounds(cfg, key, last, m));
               && Ordered(last, es)
               && AllowedIn(key, s, s + d, es, Replies(cfg, false, map[], es)) == cfg.burst - 1 + m * cfg.rate
  {
    var m := CeilIntervals(cfg, d);
    CeilWithRemainder(cfg, d);
    var last := s + d - m * cfg.interval;
    var rest := CallsAt(key, s, cfg.burst - 1) + Rounds(cfg, key, last, m);
    var es := [Call(key, last)] + rest;
    var t := map[key := BucketState(cfg.burst - 1, last)];
    RefillTwice(cfg, Fresh(cfg, last), last);
    assert Step(cfg, false, map[], es[0]) == (t, Allowed);
    assert RefillAmount(cfg, s - last) == 0 by {
      assert (s - last) / cfg.interval == 0;
    }
    DrainThenRounds(cfg, t, key, cfg.burst - 1, m, s, s + d);
    CountFirst(cfg, map[], key, es[0], rest, s, s + d);
  }

  lemma CeilWithRemainder(cfg: Config, d: nat)
    requires d % cfg.interval != 0
    ensures CeilIntervals(cfg, d) == d / cfg.interval + 1
    ensures d < CeilIntervals(cfg, d) * cfg.interval < d + cfg.interval
  {
    var q, r := d / cfg.interval, d % cfg.interval;
    assert d + cfg.interval - 1 == (q + 1) * cfg.interval + (r - 1);
    DivideBack(q + 1, r - 1, cfg.interval);
  }

  lemma DivideBack(q: int, r: int, d: int)
    requires 0 <= r < d
    ensures (q * d + r) / d == q
  {
    var p := (q * d + r) / d;
    if p < q {
      MulMonotone(p + 1, q, d);
    } else if p > q {
      MulMonotone(q + 1, p, d);
    }
  }

  /** Which of the two parts of the bound is the larger. */
  lemma PlainBoundParts(cfg: Config, d: nat)
    requires cfg.rate >= 1
    ensures d % cfg.interval == 0 ==> PlainBound(cfg, d) == cfg.burst + RefillAmount(cfg, d)
    ensures d % cfg.interval != 0 ==> PlainBound(cfg, d) == cfg.burst - 1 + CeilIntervals(cfg, d) * cfg.rate
  {
    if d % cfg.interval == 0 {
      DivideBack(d / cfg.interval, cfg.interval - 1, cfg.interval);
      assert CeilIntervals(cfg, d) == d / cfg.interval;
    } else {
      CeilWithRemainder(cfg, d);
      MulNext(CeilIntervals(cfg, d), cfg.rate);
    }
  }

  /** Without refills the busiest run uses up a new bucket. */
  lemma BusiestWithoutRefill(cfg: Config, key: string, s: int, d: nat)
    requires Plain(cfg) && cfg.rate == 0
    ensures var es := CallsAt(key, s, cfg.burst);
            && Ordered(s, es)
            && AllowedIn(key, s, s + d, es, Replies(cfg, false, map[], es)) == cfg.burst == PlainBound(cfg, d)
  {
    CallsAtOrdered(key, s, cfg.burst);
    RefillTwice(cfg, Fresh(cfg, s), s);
    DrainRefilled(cfg, false, map[], key, s, cfg.burst);
    CountCallsAt(key, s, s + d, s, cfg.burst, Replies(cfg, false, map[], CallsAt(key, s, cfg.burst)));
  }

  ghost predicate Reaches(cfg: Config, key: string, s: int, d: nat, n: int) {
    exists start: int, es: seq<Event> :: Ordered(start, es) &&
      AllowedIn(key, s, s + d, es, Replies(cfg, false, map[], es)) == n
  }

  lemma PlainBoundAttained(cfg: Config, key: string, s: int, d: nat)
    requires Plain(cfg)
    ensures Reaches(cfg, key, s, d, PlainBound(cfg, d))
  {
    if cfg.rate == 0 {
      BusiestWithoutRefill(cfg, key, s, d);
    } else {
      PlainBoundParts(cfg, d);
      if d % cfg.interval == 0 {
        BusiestFromCreation(cfg, key, s, d);
      } else {
        BusiestWithEarlierBucket(cfg, key, s, d);
      }
    }
  }

  /** The bound is exact: whatever the parameters, for every window length some run reaches it. */
  lemma WindowBoundAttained(cfg: Config, key: string, s: int, d: nat)
    ensures exists start: int, es: seq<Event> :: Ordered(start, es) &&
              AllowedIn(key, s, s + d, es, Replies(cfg, false, map[], es)) == WindowBound(cfg, d)
  {
    if cfg.burst <= 0 {
      assert WindowBound(cfg, d) == 0;
      assert Ordered(s, []) && AllowedIn(key, s, s + d, [], Replies(cfg, false, map[], [])) == 0;
    } else {
      var c := Effective(cfg);
      PlainBoundAttained(c, key, s, d);
      var start: int, es: seq<Event> :| Ordered(start, es) &&
        AllowedIn(key, s, s + d, es, Replies(c, false, map[], es)) == WindowBound(cfg, d);
      EffectiveRun(cfg, false, map[], es, start);
    }
  }

  // ---------- The presets ----------

  const AUTH_LIMITER: Config := RawConfig(5, MINUTE, 10)
  const API_LIMITER: Config := RawConfig(100, MINUTE, 150)
  const MEDIA_LIMITER: Config := RawConfig(10, MINUTE, 15)
  const MESSAGE_LIMITER: Config := RawConfig(60, MINUTE, 100)

  /** Every preset evicts unobservably; the most it lets through in any one minute. */
  lemma Presets()
    ensures EvictionUnobservable(AUTH_LIMITER) && WindowBound(AUTH_LIMITER, MINUTE) == 15
    ensures EvictionUnobservable(API_LIMITER) && WindowBound(API_LIMITER, MINUTE) == 250
    ensures EvictionUnobservable(MEDIA_LIMITER) && WindowBound(MEDIA_LIMITER, MINUTE) == 25
    ensures EvictionUnobservable(MESSAGE_LIMITER) && WindowBound(MESSAGE_LIMITER, MINUTE) == 160
  {
    EvictionUnobservableIff(AUTH_LIMITER);
    EvictionUnobservableIff(API_LIMITER);
    EvictionUnobservableIff(MEDIA_LIMITER);
    EvictionUnobservableIff(MESSAGE_LIMITER);
  }
}
