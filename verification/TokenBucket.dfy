/**
 * The token bucket kept in two Redis keys: `pkg/workqueue/token_script.go`, and the
 * decision built on it in `pkg/workqueue/rate_limiters.go`.
 *
 * Token counts are in thousandths, so that a refill of rate/1000 a millisecond is exact.
 */
module TokenBucket {
  import opened Wrappers
  import opened GoIntegers

  /** A limiter's parameters; the server configuration admits positive ones only. */
  datatype Config = Config(rate: int, capacity: int) {
    predicate Ok() { rate >= 1 && capacity >= 1 }

    function Full(): int { 1000 * capacity }

    /** Twice the time in milliseconds that an empty bucket takes to fill, rounded down. */
    function Ttl(): int
      requires Ok()
    {
      2000 * capacity / rate
    }
  }

  /** What the two keys hold, `None` for a missing key. */
  datatype Bucket = Bucket(tokens: Option<int>, stamp: Option<int>)

  const EMPTY_KEYS := Bucket(None, None)

  datatype Call = Call(now: int, consumed: nat)

  function GetOr(o: Option<int>, default: int): int {
    if o.Some? then o.value else default
  }

  function Filled(cfg: Config, b: Bucket, now: int): int {
    Min(cfg.Full(), GetOr(b.tokens, cfg.Full()) + Max(0, now - GetOr(b.stamp, 0)) * cfg.rate)
  }

  function Allows(cfg: Config, b: Bucket, c: Call): bool {
    Filled(cfg, b, c.now) >= 1000 * c.consumed
  }

  /** What one run of the script leaves in the keys. */
  function Spend(cfg: Config, b: Bucket, c: Call): Bucket {
    var filled := Filled(cfg, b, c.now);
    Bucket(Some(if Allows(cfg, b, c) then filled - 1000 * c.consumed else filled), Some(c.now))
  }

  // -------------------------------------------------- keys that never expire

  /** The decisions on a sequence of calls. */
  function Decisions(cfg: Config, b: Bucket, calls: seq<Call>): (ds: seq<bool>)
    ensures |ds| == |calls|
    decreases |calls|
  {
    if calls == [] then [] else [Allows(cfg, b, calls[0])] + Decisions(cfg, Spend(cfg, b, calls[0]), calls[1..])
  }

  function Final(cfg: Config, b: Bucket, calls: seq<Call>): Bucket
    decreases |calls|
  {
    if calls == [] then b else Final(cfg, Spend(cfg, b, calls[0]), calls[1..])
  }

  /** The tokens granted by a sequence of decisions. */
  function Granted(calls: seq<Call>, ds: seq<bool>): nat
    requires |calls| == |ds|
  {
    if calls == [] then 0 else (if ds[0] then calls[0].consumed else 0) + Granted(calls[1..], ds[1..])
  }

  /** The sum of the forward moves of the callers' clock, from an earlier reading on. */
  function Advance(from: int, calls: seq<Call>): nat
    decreases |calls|
  {
    if calls == [] then 0 else Max(0, calls[0].now - from) + Advance(calls[0].now, calls[1..])
  }

  /** The keys hold a reading and a count between nothing and full. */
  predicate InRange(cfg: Config, b: Bucket) {
    b.tokens.Some? && b.stamp.Some? && 0 <= b.tokens.value <= cfg.Full()
  }

  lemma Refills(cfg: Config, b: Bucket, now: int)
    requires cfg.Ok() && InRange(cfg, b)
    ensures 0 <= b.tokens.value <= Filled(cfg, b, now) <= cfg.Full()
    ensures Filled(cfg, b, now) <= b.tokens.value + Max(0, now - b.stamp.value) * cfg.rate
  {
    var delta := Max(0, now - b.stamp.value);
    assert delta * cfg.rate >= 0;
  }

  /**
   * Over any calls, from any count the keys can hold and whatever the clock readings, what
   * is granted and what is left is paid for by what was there and by the clock's forward moves.
   */
  lemma {:induction false} AdmissionFrom(cfg: Config, b: Bucket, calls: seq<Call>)
    requires cfg.Ok() && InRange(cfg, b)
    ensures InRange(cfg, Final(cfg, b, calls))
    ensures 1000 * Granted(calls, Decisions(cfg, b, calls)) + Final(cfg, b, calls).tokens.value
         <= b.tokens.value + cfg.rate * Advance(b.stamp.value, calls)
    decreases |calls|
  {
    if calls != [] {
      var c, rest := calls[0], calls[1..];
      var b' := Spend(cfg, b, c);
      SpendPays(cfg, b, c);
      AdmissionFrom(cfg, b', rest);
      Distribute(cfg.rate, Max(0, c.now - b.stamp.value), Advance(c.now, rest));
      assert Decisions(cfg, b, calls)[1..] == Decisions(cfg, b', rest);
    }
  }

  lemma SpendPays(cfg: Config, b: Bucket, c: Call)
    requires cfg.Ok() && InRange(cfg, b)
    ensures var b' := Spend(cfg, b, c);
            && InRange(cfg, b')
            && 1000 * (if Allows(cfg, b, c) then c.consumed else 0) + b'.tokens.value
               <= b.tokens.value + cfg.rate * Max(0, c.now - b.stamp.value)
  {
    Refills(cfg, b, c.now);
  }

  lemma Distribute(r: int, x: int, y: int)
    ensures r * (x + y) == r * x + r * y
  {
  }

  /**
   * The admission bound: starting without keys, over any sequence of clock readings, even
   * backward ones, no more is granted than the capacity and the refill of the forward moves.
   */
  lemma AdmissionBound(cfg: Config, calls: seq<Call>)
    requires cfg.Ok() && calls != []
    ensures InRange(cfg, Final(cfg, EMPTY_KEYS, calls))
    ensures 1000 * Granted(calls, Decisions(cfg, EMPTY_KEYS, calls))
         <= 1000 * cfg.capacity + cfg.rate * Advance(calls[0].now, calls)
  {
    var c := calls[0];
    var full := Bucket(Some(cfg.Full()), Some(c.now));
    assert Filled(cfg, full, c.now) == cfg.Full();
    MissingMeansFull(cfg, c.now);
    assert Spend(cfg, EMPTY_KEYS, c) == Spend(cfg, full, c);
    assert Decisions(cfg, EMPTY_KEYS, calls) == Decisions(cfg, full, calls);
    AdmissionFrom(cfg, full, calls);
  }

  lemma MissingMeansFull(cfg: Config, now: int)
    requires cfg.Ok()
    ensures Filled(cfg, EMPTY_KEYS, now) == cfg.Full()
  {
    assert Max(0, now) * cfg.rate >= 0;
  }

  /** A call is admitted exactly when what is stored and what has flowed in since pay for it, and a bucket can hold so much. */
  lemma AllowsExactly(cfg: Config, b: Bucket, c: Call)
    requires cfg.Ok() && InRange(cfg, b)
    ensures Allows(cfg, b, c)
            <==> b.tokens.value + Max(0, c.now - b.stamp.value) * cfg.rate >= 1000 * c.consumed && c.consumed <= cfg.capacity
  {
    Refills(cfg, b, c.now);
  }

  /** The first call finds a full bucket. */
  lemma FirstCallExactly(cfg: Config, c: Call)
    requires cfg.Ok()
    ensures Allows(cfg, EMPTY_KEYS, c) <==> c.consumed <= cfg.capacity
  {
    MissingMeansFull(cfg, c.now);
  }

  /** Time passes in two steps as in one. */
  lemma FillsInSteps(cfg: Config, b: Bucket, now: int, later: int)
    requires cfg.Ok() && InRange(cfg, b) && b.stamp.value <= now <= later
    ensures Filled(cfg, Bucket(Some(Filled(cfg, b, now)), Some(now)), later) == Filled(cfg, b, later)
  {
    var d, e := now - b.stamp.value, later - now;
    Distribute(cfg.rate, d, e);
    assert d * cfg.rate >= 0 && e * cfg.rate >= 0;
  }

  /** A denied call changes no later decision, if the clock does not go back before or after it. */
  lemma DenialIsHarmless(cfg: Config, b: Bucket, c: Call, rest: seq<Call>)
    requires cfg.Ok() && InRange(cfg, b) && !Allows(cfg, b, c)
    requires b.stamp.value <= c.now && (rest != [] ==> c.now <= rest[0].now)
    ensures Decisions(cfg, b, [c] + rest) == [false] + Decisions(cfg, b, rest)
  {
    var b' := Spend(cfg, b, c);
    assert ([c] + rest)[1..] == rest;
    if rest != [] {
      FillsInSteps(cfg, b, c.now, rest[0].now);
      assert Spend(cfg, b', rest[0]) == Spend(cfg, b, rest[0]);
      assert Decisions(cfg, b', rest) == Decisions(cfg, b, rest);
    }
  }

  /** No call finds more than the bucket holds, so that nothing of the inflow is lost. */
  predicate NeverOverflows(cfg: Config, b: Bucket, calls: seq<Call>)
    requires cfg.Ok() && InRange(cfg, b)
    decreases |calls|
  {
    calls != [] ==>
      && b.tokens.value + Max(0, calls[0].now - b.stamp.value) * cfg.rate <= cfg.Full()
      && (SpendPays(cfg, b, calls[0]); NeverOverflows(cfg, Spend(cfg, b, calls[0]), calls[1..]))
  }

  lemma SpendIsExact(cfg: Config, b: Bucket, c: Call)
    requires cfg.Ok() && InRange(cfg, b)
    requires b.tokens.value + Max(0, c.now - b.stamp.value) * cfg.rate <= cfg.Full()
    ensures 1000 * (if Allows(cfg, b, c) then c.consumed else 0) + Spend(cfg, b, c).tokens.value
         == b.tokens.value + cfg.rate * Max(0, c.now - b.stamp.value)
  {
  }

  /** Then the account is exact: what was granted and what is left is what was there and what flowed in. */
  lemma {:induction false} AdmissionIsExact(cfg: Config, b: Bucket, calls: seq<Call>)
    requires cfg.Ok() && InRange(cfg, b) && NeverOverflows(cfg, b, calls)
    ensures Final(cfg, b, calls).tokens.Some?
    ensures 1000 * Granted(calls, Decisions(cfg, b, calls)) + Final(cfg, b, calls).tokens.value
         == b.tokens.value + cfg.rate * Advance(b.stamp.value, calls)
    decreases |calls|
  {
    if calls != [] {
      var c, rest := calls[0], calls[1..];
      SpendPays(cfg, b, c);
      SpendIsExact(cfg, b, c);
      AdmissionIsExact(cfg, Spend(cfg, b, c), rest);
      Distribute(cfg.rate, Max(0, c.now - b.stamp.value), Advance(c.now, rest));
      assert Decisions(cfg, b, calls)[1..] == Decisions(cfg, Spend(cfg, b, c), rest);
    }
  }

  /** A caller that waits long enough for its tokens is admitted, if the bucket can hold them. */
  lemma WaitingSuffices(cfg: Config, b: Bucket, c: Call)
    requires cfg.Ok() && InRange(cfg, b) && c.consumed <= cfg.capacity
    requires (c.now - b.stamp.value) * cfg.rate >= 1000 * c.consumed
    ensures Allows(cfg, b, c)
  {
    NonNegativeFactor(c.now - b.stamp.value, cfg.rate);
  }

  lemma NonNegativeFactor(a: int, r: int)
    requires r >= 1 && a * r >= 0
    ensures a >= 0
  {
  }

  // ------------------------------------------------------ keys that expire

  /** A Redis string with the server time after which it is gone. */
  datatype Entry = Entry(value: int, until: int)

  datatype Keys = Keys(tokens: Option<Entry>, stamp: Option<Entry>)

  const NO_KEYS := Keys(None, None)

  function Read(e: Option<Entry>, clock: int): Option<int> {
    if e.Some? && clock <= e.value.until then Some(e.value.value) else None
  }

  /** The keys as the script finds them at a server time. */
  function Visible(k: Keys, clock: int): Bucket {
    Bucket(Read(k.tokens, clock), Read(k.stamp, clock))
  }

  /** Redis refuses an expiry that is not positive, and then the script has set nothing. */
  predicate ScriptFails(cfg: Config)
    requires cfg.Ok()
  {
    cfg.Ttl() <= 0
  }

  function Store(cfg: Config, b: Bucket, clock: int): Keys
    requires cfg.Ok() && b.tokens.Some? && b.stamp.Some?
  {
    Keys(Some(Entry(b.tokens.value, clock + cfg.Ttl())), Some(Entry(b.stamp.value, clock + cfg.Ttl())))
  }

  /** The decisions when the server's clock reads `clocks` at the calls. */
  function ExpiringDecisions(cfg: Config, k: Keys, calls: seq<Call>, clocks: seq<int>): (ds: seq<bool>)
    requires cfg.Ok() && |calls| == |clocks|
    ensures |ds| == |calls|
    decreases |calls|
  {
    if calls == [] then []
    else
      var b := Visible(k, clocks[0]);
      [Allows(cfg, b, calls[0])] + ExpiringDecisions(cfg, Store(cfg, Spend(cfg, b, calls[0]), clocks[0]), calls[1..], clocks[1..])
  }

  /** The script fails exactly when the bucket fills in less than half a millisecond. */
  lemma ScriptFailsWhen(cfg: Config)
    requires cfg.Ok()
    ensures ScriptFails(cfg) <==> 2000 * cfg.capacity < cfg.rate
  {
    var q, r := cfg.Ttl(), 2000 * cfg.capacity % cfg.rate;
    assert 2000 * cfg.capacity == q * cfg.rate + r;
    NonNegativeFactor(q, cfg.rate);
    if q >= 1 { assert q * cfg.rate >= cfg.rate; }
  }

  /** The lifetime is twice the time to fill, in whole milliseconds. */
  lemma TtlIsFloor(cfg: Config)
    requires cfg.Ok()
    ensures cfg.Ttl() * cfg.rate <= 2 * cfg.Full() < (cfg.Ttl() + 1) * cfg.rate
  {
  }

  lemma ScriptCanFail()
    ensures ScriptFails(Config(10_000, 4))
  {
  }

  /** In the lifetime of the keys, rounded down as it is, an empty bucket fills. */
  lemma TtlFills(cfg: Config, d: int)
    requires cfg.Ok() && !ScriptFails(cfg) && d >= cfg.Ttl()
    ensures d * cfg.rate >= cfg.Full()
  {
    var ttl := cfg.Ttl();
    assert ttl * cfg.rate > 2000 * cfg.capacity - cfg.rate;
    assert d * cfg.rate >= ttl * cfg.rate;
    if ttl >= 2 {
      assert ttl * cfg.rate >= 2 * cfg.rate;
    }
  }

  /** A bucket that has been left alone for the lifetime of its keys is full. */
  lemma IdleBucketIsFull(cfg: Config, b: Bucket, now: int)
    requires cfg.Ok() && !ScriptFails(cfg) && InRange(cfg, b)
    requires now - b.stamp.value >= cfg.Ttl()
    ensures Filled(cfg, b, now) == cfg.Full()
  {
    TtlFills(cfg, now - b.stamp.value);
    RefillsFully(cfg, b, now);
  }

  lemma RefillsFully(cfg: Config, b: Bucket, now: int)
    requires cfg.Ok() && InRange(cfg, b) && (now - b.stamp.value) * cfg.rate >= cfg.Full()
    ensures Filled(cfg, b, now) == cfg.Full()
  {
    NonNegativeFactor(now - b.stamp.value, cfg.rate);
  }

  /**
   * Expiry changes a decision exactly when the keys are gone, the bucket that they held
   * cannot pay, and a full one can.
   */
  lemma ExpiryShowsWhen(cfg: Config, b: Bucket, since: int, clock: int, c: Call)
    requires cfg.Ok() && InRange(cfg, b)
    ensures Allows(cfg, Visible(Store(cfg, b, since), clock), c) == Allows(cfg, b, c)
            <==> clock <= since + cfg.Ttl() || Filled(cfg, b, c.now) >= 1000 * c.consumed || c.consumed > cfg.capacity
  {
    MissingMeansFull(cfg, c.now);
    Refills(cfg, b, c.now);
  }

  /** A call decides as if the keys did not expire, `gap` ms by the server's clock after they were set. */
  predicate Unobserved(cfg: Config, b: Bucket, gap: int, c: Call)
    requires cfg.Ok() && InRange(cfg, b)
  {
    Allows(cfg, Visible(Store(cfg, b, 0), gap), c) == Allows(cfg, b, c)
  }

  /**
   * The two clocks between two calls: no bucket and no demand shows the expiry exactly when
   * the keys are still there, or the callers' clock has moved on by the time an empty bucket fills.
   */
  lemma SkewTolerance(cfg: Config, gap: int, d: int)
    requires cfg.Ok()
    ensures (forall b: Bucket, c: Call | InRange(cfg, b) && c.now - b.stamp.value == d :: Unobserved(cfg, b, gap, c))
            <==> gap <= cfg.Ttl() || d * cfg.rate >= cfg.Full()
  {
    forall b: Bucket, c: Call | InRange(cfg, b) && c.now - b.stamp.value == d && (gap <= cfg.Ttl() || d * cfg.rate >= cfg.Full())
      ensures Unobserved(cfg, b, gap, c)
    {
      ExpiryShowsWhen(cfg, b, 0, gap, c);
      if gap > cfg.Ttl() { RefillsFully(cfg, b, c.now); }
    }
    var empty, all := Bucket(Some(0), Some(0)), Call(d, cfg.capacity);
    ExpiryShowsWhen(cfg, empty, 0, gap, all);
    assert InRange(cfg, empty) && all.now - empty.stamp.value == d;
  }

  /** Between any two successive calls the clocks are such that expiry cannot show. */
  predicate Tolerable(cfg: Config, calls: seq<Call>, clocks: seq<int>)
    requires cfg.Ok() && |calls| == |clocks|
  {
    forall i | 0 < i < |calls| ::
      clocks[i] - clocks[i - 1] <= cfg.Ttl() || (calls[i].now - calls[i - 1].now) * cfg.rate >= cfg.Full()
  }

  lemma {:induction false} MirroredKeys(cfg: Config, b: Bucket, since: int, calls: seq<Call>, clocks: seq<int>)
    requires cfg.Ok() && InRange(cfg, b) && |calls| == |clocks| && Tolerable(cfg, calls, clocks)
    requires calls != [] ==> clocks[0] - since <= cfg.Ttl() || (calls[0].now - b.stamp.value) * cfg.rate >= cfg.Full()
    ensures ExpiringDecisions(cfg, Store(cfg, b, since), calls, clocks) == Decisions(cfg, b, calls)
    decreases |calls|
  {
    if calls != [] {
      var c := calls[0];
      var seen := Visible(Store(cfg, b, since), clocks[0]);
      if clocks[0] > since + cfg.Ttl() {
        RefillsFully(cfg, b, c.now);
        MissingMeansFull(cfg, c.now);
      } else {
        assert seen == b;
      }
      Refills(cfg, b, c.now);
      NextTolerable(cfg, calls, clocks);
      MirroredKeys(cfg, Spend(cfg, b, c), clocks[0], calls[1..], clocks[1..]);
    }
  }

  lemma NextTolerable(cfg: Config, calls: seq<Call>, clocks: seq<int>)
    requires cfg.Ok() && |calls| == |clocks| && calls != [] && Tolerable(cfg, calls, clocks)
    ensures Tolerable(cfg, calls[1..], clocks[1..])
    ensures |calls| > 1 ==>
              clocks[1] - clocks[0] <= cfg.Ttl() || (calls[1].now - calls[0].now) * cfg.rate >= cfg.Full()
  {
    forall i | 0 < i < |calls| - 1
      ensures clocks[1..][i] - clocks[1..][i - 1] <= cfg.Ttl()
              || (calls[1..][i].now - calls[1..][i - 1].now) * cfg.rate >= cfg.Full()
    {
      assert clocks[i + 1] - clocks[(i + 1) - 1] <= cfg.Ttl()
             || (calls[i + 1].now - calls[(i + 1) - 1].now) * cfg.rate >= cfg.Full();
    }
    if |calls| > 1 {
      assert clocks[1] - clocks[1 - 1] <= cfg.Ttl() || (calls[1].now - calls[1 - 1].now) * cfg.rate >= cfg.Full();
    }
  }

  /** With two clocks: over any calls between which expiry cannot show, the decisions are those without expiry. */
  lemma SkewIsHarmless(cfg: Config, calls: seq<Call>, clocks: seq<int>)
    requires cfg.Ok() && |calls| == |clocks| && Tolerable(cfg, calls, clocks)
    ensures ExpiringDecisions(cfg, NO_KEYS, calls, clocks) == Decisions(cfg, EMPTY_KEYS, calls)
  {
    if calls != [] {
      var c := calls[0];
      assert Visible(NO_KEYS, clocks[0]) == EMPTY_KEYS;
      MissingMeansFull(cfg, c.now);
      NextTolerable(cfg, calls, clocks);
      MirroredKeys(cfg, Spend(cfg, EMPTY_KEYS, c), clocks[0], calls[1..], clocks[1..]);
    }
  }

  function Nows(calls: seq<Call>): seq<int> {
    seq(|calls|, i requires 0 <= i < |calls| => calls[i].now)
  }

  /**
   * Expiry is unobservable: when callers and server share one clock, the script decides
   * every call as if its keys never expired.
   */
  lemma ExpiryIsUnobservable(cfg: Config, calls: seq<Call>)
    requires cfg.Ok() && !ScriptFails(cfg)
    ensures ExpiringDecisions(cfg, NO_KEYS, calls, Nows(calls)) == Decisions(cfg, EMPTY_KEYS, calls)
  {
    forall i | 0 < i < |calls| && calls[i].now - calls[i - 1].now > cfg.Ttl()
      ensures (calls[i].now - calls[i - 1].now) * cfg.rate >= cfg.Full()
    {
      TtlFills(cfg, calls[i].now - calls[i - 1].now);
    }
    SkewIsHarmless(cfg, calls, Nows(calls));
  }

  lemma TwoDecisions(cfg: Config, c: Call, c': Call, clock: int, clock': int)
    requires cfg.Ok()
    ensures Decisions(cfg, EMPTY_KEYS, [c, c']) == [Allows(cfg, EMPTY_KEYS, c), Allows(cfg, Spend(cfg, EMPTY_KEYS, c), c')]
    ensures var k := Store(cfg, Spend(cfg, EMPTY_KEYS, c), clock);
            ExpiringDecisions(cfg, NO_KEYS, [c, c'], [clock, clock'])
            == [Allows(cfg, EMPTY_KEYS, c), Allows(cfg, Visible(k, clock'), c')]
  {
    assert [c, c'][1..] == [c'] && [clock, clock'][1..] == [clock'];
    assert [c'][1..] == [] && [clock'][1..] == [];
  }

  /** With two clocks it is observable: a caller whose own clock stands still gets a second token. */
  lemma SkewIsObservable()
    ensures var cfg, c := Config(1, 1), Call(0, 1);
            && Decisions(cfg, EMPTY_KEYS, [c, c]) == [true, false]
            && ExpiringDecisions(cfg, NO_KEYS, [c, c], [0, 2001]) == [true, true]
  {
    TwoDecisions(Config(1, 1), Call(0, 1), Call(0, 1), 0, 2001);
  }

  // ------------------------------------------------------------- the limiter

  predicate Live(e: Option<Entry>, clock: int) {
    e.Some? && clock <= e.value.until
  }

  /** How the call of the script went. */
  datatype Link = Reached | TimedOut(executed: bool) | Broken

  /** One run of the script, over what is in the keys: the decision, and both keys with their new lifetime. */
  lemma ScriptExactly(cfg: Config, k: Keys, clock: int, c: Call)
    requires cfg.Ok()
    ensures var tokens := if Live(k.tokens, clock) then k.tokens.value.value else 1000 * cfg.capacity;
            var stamp := if Live(k.stamp, clock) then k.stamp.value.value else 0;
            var inflow := (if c.now > stamp then c.now - stamp else 0) * cfg.rate;
            var filled := if tokens + inflow < 1000 * cfg.capacity then tokens + inflow else 1000 * cfg.capacity;
            var allowed := filled >= 1000 * c.consumed;
            var until := clock + 2000 * cfg.capacity / cfg.rate;
            && Allows(cfg, Visible(k, clock), c) == allowed
            && Store(cfg, Spend(cfg, Visible(k, clock), c), clock)
               == Keys(Some(Entry(if allowed then filled - 1000 * c.consumed else filled, until)), Some(Entry(c.now, until)))
  {
  }

  class RedisLimiter {
    const cfg: Config
    var keys: Keys
    var redisAlive: bool

    constructor (cfg: Config)
      ensures this.cfg == cfg && keys == NO_KEYS && redisAlive
    {
      this.cfg := cfg;
      keys, redisAlive := NO_KEYS, true;
    }

    /** The script: one atomic step on the two keys. */
    method AllowN(now: int, clock: int, consumed: nat) returns (reply: Option<bool>)
      requires cfg.Ok()
      modifies this`keys
      ensures reply.None? <==> ScriptFails(cfg)
      ensures reply.None? ==> keys == old(keys)
      ensures reply.Some? ==>
                var c := Call(now, consumed);
                && reply.value == Allows(cfg, old(Visible(keys, clock)), c)
                && keys == Store(cfg, Spend(cfg, old(Visible(keys, clock)), c), clock)
    {
      var rate, capacity := cfg.rate, 1000 * cfg.capacity;
      var ttl := 2000 * cfg.capacity / rate;
      var currentTokens := capacity;
      if keys.tokens.Some? && clock <= keys.tokens.value.until {
        currentTokens := keys.tokens.value.value;
      }
      var lastRefreshed := 0;
      if keys.stamp.Some? && clock <= keys.stamp.value.until {
        lastRefreshed := keys.stamp.value.value;
      }
      var delta := if now - lastRefreshed > 0 then now - lastRefreshed else 0;
      var filledTokens := if currentTokens + delta * rate < capacity then currentTokens + delta * rate else capacity;
      var allowed := filledTokens >= 1000 * consumed;
      var newTokens := filledTokens;
      if allowed {
        newTokens := filledTokens - 1000 * consumed;
      }
      if ttl <= 0 {
        return None;
      }
      keys := keys.(tokens := Some(Entry(newTokens, clock + ttl)));
      keys := keys.(stamp := Some(Entry(now, clock + ttl)));
      return Some(allowed);
    }

    /**
     * reserveN for one token.  The verdict of the in-process limiter counts when Redis is
     * down or the script fails; a call that timed out is denied, whether it was executed or not.
     */
    method ReserveN(now: int, clock: int, link: Link, rescue: bool) returns (ok: bool)
      requires cfg.Ok()
      modifies this`keys
      ensures !redisAlive || link.Broken? || (link.Reached? && ScriptFails(cfg)) ==> ok == rescue && keys == old(keys)
      ensures redisAlive && link.TimedOut? ==>
                !ok && keys == if link.executed && !ScriptFails(cfg)
                               then Store(cfg, Spend(cfg, old(Visible(keys, clock)), Call(now, 1)), clock)
                               else old(keys)
      ensures redisAlive && link.Reached? && !ScriptFails(cfg) ==>
                && ok == Allows(cfg, old(Visible(keys, clock)), Call(now, 1))
                && keys == Store(cfg, Spend(cfg, old(Visible(keys, clock)), Call(now, 1)), clock)
    {
      if !redisAlive || link.Broken? {
        return rescue;
      }
      var reply: Option<bool> := None;
      if link.Reached? || link.executed {
        reply := AllowN(now, clock, 1);
      }
      if link.TimedOut? {
        return false;
      }
      return if reply.None? then rescue else reply.value;
    }

    /** Forget drops both keys. */
    method Forget()
      modifies this`keys
      ensures keys == NO_KEYS
    {
      keys := NO_KEYS;
    }
  }
}
