/**
 The token-bucket rate limiter of the HTTP middleware.

 Times and durations are integers in nanoseconds. One locked call of `Allow` happens at one
 instant; sweeps of the background goroutine are separate events. The theory below works on the
 table of buckets as a value; the classes at the end of the module are the in-place form of the
 same steps.
 */
module RateLimit {

  const MINUTE := 60_000_000_000

  /** A bucket whose last refill is older than this is deleted by a sweep. */
  const IDLE_LIMIT := 10 * MINUTE

  datatype RawConfig = RawConfig(rate: int, interval: int, burst: int)

  /** The interval is a divisor in the refill formula. */
  type Config = c: RawConfig | c.interval > 0 witness RawConfig(5, MINUTE, 10)

  datatype BucketState = BucketState(tokens: int, lastRefill: int)

  type Table = map<string, BucketState>

  // ---------- One bucket ----------

  /** Integer division that truncates toward zero. */
  function Quotient(a: int, b: int): int
    requires b > 0
  {
    if a >= 0 then a / b else -((-a) / b)
  }

  function RefillAmount(cfg: Config, elapsed: int): int {
    Quotient(elapsed, cfg.interval) * cfg.rate
  }

  function Min(a: int, b: int): int {
    if a < b then a else b
  }

  function Max(a: int, b: int): int {
    if a < b then b else a
  }

  function Refilled(cfg: Config, b: BucketState, now: int): BucketState {
    var add := RefillAmount(cfg, now - b.lastRefill);
    if add > 0 then BucketState(Min(cfg.burst, b.tokens + add), now) else b
  }

  function Fresh(cfg: Config, now: int): BucketState {
    BucketState(cfg.burst, now)
  }

  function BucketOf(cfg: Config, t: Table, key: string, now: int): BucketState {
    if key in t then t[key] else Fresh(cfg, now)
  }

  // ---------- The steps ----------

  function AllowStep(cfg: Config, t: Table, key: string, now: int): (Table, bool) {
    var b := Refilled(cfg, BucketOf(cfg, t, key, now), now);
    if b.tokens > 0
    then (t[key := b.(tokens := b.tokens - 1)], true)
    else (t[key := b], false)
  }

  predicate Idle(b: BucketState, now: int) {
    b.lastRefill < now - IDLE_LIMIT
  }

  function SweepStep(t: Table, now: int): Table {
    map k | k in t && !Idle(t[k], now) :: t[k]
  }

  datatype Event = Call(key: string, at: int) | Sweep(at: int)

  datatype Reply = Allowed | Denied | Swept

  /** One event; a limiter that never evicts ignores sweeps. */
  function Step(cfg: Config, evict: bool, t: Table, e: Event): (Table, Reply) {
    match e
    case Call(key, at) =>
      var (t', ok) := AllowStep(cfg, t, key, at);
      (t', if ok then Allowed else Denied)
    case Sweep(at) => (if evict then SweepStep(t, at) else t, Swept)
  }

  function Replies(cfg: Config, evict: bool, t: Table, es: seq<Event>): (rs: seq<Reply>)
    ensures |rs| == |es|
    decreases |es|
  {
    if es == [] then []
    else
      var (t', r) := Step(cfg, evict, t, es[0]);
      [r] + Replies(cfg, evict, t', es[1..])
  }

  function Final(cfg: Config, evict: bool, t: Table, es: seq<Event>): Table
    decreases |es|
  {
    if es == [] then t else Final(cfg, evict, Step(cfg, evict, t, es[0]).0, es[1..])
  }

  /** The clock never runs backwards. */
  ghost predicate Ordered(now: int, es: seq<Event>)
    decreases |es|
  {
    es == [] || (now <= es[0].at && Ordered(es[0].at, es[1..]))
  }

  /** How many calls for `key` at a time in [s, e] were let through. */
  function AllowedIn(key: string, s: int, e: int, es: seq<Event>, rs: seq<Reply>): nat
    requires |es| == |rs|
  {
    if es == [] then 0
    else
      (if es[0].Call? && es[0].key == key && s <= es[0].at <= e && rs[0] == Allowed then 1 else 0)
      + AllowedIn(key, s, e, es[1..], rs[1..])
  }

  // ---------- The limiter in place ----------

  class Bucket {
    var tokens: int
    var lastRefill: int
    /** The key the bucket is stored under; distinct keys therefore have distinct buckets. */
    ghost const key: string

    constructor (tokens: int, lastRefill: int, ghost key: string)
      ensures this.tokens == tokens && this.lastRefill == lastRefill && this.key == key
    {
      this.key := key;
      this.tokens := tokens;
      this.lastRefill := lastRefill;
    }

    ghost function State(): BucketState
      reads this
    {
      BucketState(tokens, lastRefill)
    }

    /** The part of a call that concerns its bucket: refill, then take a token if there is one. */
    method Take(cfg: Config, now: int) returns (ok: bool)
      modifies this
      ensures var b := Refilled(cfg, old(State()), now);
              ok == (b.tokens > 0) && State() == if ok then b.(tokens := b.tokens - 1) else b
    {
      var elapsed := now - lastRefill;
      var tokensToAdd := RefillAmount(cfg, elapsed);
      if tokensToAdd > 0 {
        tokens := Min(cfg.burst, tokens + tokensToAdd);
        lastRefill := now;
      }
      ok := tokens > 0;
      if ok {
        tokens := tokens - 1;
      }
    }
  }

  class RateLimiter {
    const cfg: Config
    var buckets: map<string, Bucket>
    /** The table of buckets as a value. */
    ghost var Contents: Table

    ghost predicate Valid()
      reads this, buckets.Values
    {
      && Contents.Keys == buckets.Keys
      && forall k :: k in buckets ==>
           buckets[k].key == k && Contents[k] == BucketState(buckets[k].tokens, buckets[k].lastRefill)
    }

    constructor (rate: int, interval: int, burst: int)
      requires interval > 0
      ensures Valid() && Contents == map[] && cfg == RawConfig(rate, interval, burst)
    {
      cfg := RawConfig(rate, interval, burst);
      buckets := map[];
      Contents := map[];
    }

    method Allow(key: string, now: int) returns (ok: bool)
      requires Valid()
      modifies this, buckets.Values
      ensures Valid() && fresh(buckets.Values - old(buckets.Values))
      ensures (Contents, ok) == AllowStep(cfg, old(Contents), key, now)
    {
      Contents := AllowStep(cfg, Contents, key, now).0;

      var b: Bucket;
      if key in buckets {
        b := buckets[key];
      } else {
        b := new Bucket(cfg.burst, now, key);
        buckets := buckets[key := b];
      }
      ok := b.Take(cfg, now);
    }

    /** One tick of the background goroutine. */
    method Cleanup(now: int)
      requires Valid()
      modifies this
      ensures Valid() && buckets.Values <= old(buckets.Values)
      ensures Contents == SweepStep(old(Contents), now)
      ensures forall k :: k in Contents <==> k in old(Contents) && now - old(Contents)[k].lastRefill <= 10 * MINUTE
    {
      var threshold := now - IDLE_LIMIT;
      var keys := buckets.Keys;
      while keys != {}
        invariant keys <= old(buckets.Keys)
        invariant buckets == map k | k in old(buckets) &&
                                     (k in keys || !(old(buckets)[k].lastRefill < threshold)) :: old(buckets)[k]
        invariant Contents == old(Contents)
        decreases keys
      {
        var key :| key in keys;
        if buckets[key].lastRefill < threshold {
          buckets := buckets - {key};
        }
        keys := keys - {key};
      }
      Contents := SweepStep(Contents, now);
    }
  }
}
