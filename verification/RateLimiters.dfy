/** The per-item limiters of `pkg/workqueue/rate_limiters.go`. */
module RateLimiters {
  import opened GoIntegers

  /** What the machine makes of floats that no 64-bit integer can hold; the language leaves it open. */
  datatype Platform = Platform(tooHigh: int64, tooLow: int64, notANumber: int64)

  /** How a limiter turns the number of earlier failures of an item into a delay. */
  datatype Kind =
    | Exponential(base: int64, max: int64, platform: Platform)
    | FastSlow(fast: int64, slow: int64, maxFast: int)

  /** The power of two that is infinite as a float. */
  const INFINITE_POWER: nat := 1024

  function ToDuration(x: int, p: Platform): int64 {
    if x >= TWO_63 then p.tooHigh else if x < -TWO_63 then p.tooLow else x
  }

  function Doubled(base: int, j: nat): int {
    if j == 0 then base else 2 * Doubled(base, j - 1)
  }

  lemma {:induction false} DoubledIsProduct(base: int, j: nat)
    ensures Doubled(base, j) == base * Power(2, j)
  {
    if j > 0 {
      DoubledIsProduct(base, j - 1);
      assert 2 * (base * Power(2, j - 1)) == base * (2 * Power(2, j - 1));
    }
  }

  /** The delay that When gives an item with j earlier failures. */
  function Delay(k: Kind, j: nat): int64 {
    match k
    case Exponential(base, max, platform) =>
      var backoff := Doubled(base, j);
      if backoff > TWO_63 then max
      else
        var calculated := if base == 0 && j >= INFINITE_POWER then platform.notANumber else ToDuration(backoff, platform);
        if calculated > max then max else calculated
    case FastSlow(fast, slow, maxFast) =>
      if j + 1 <= maxFast then fast else slow
  }

  /**
   * The doubled delay is in range, and not the one value that passes the overflow test and
   * yet does not fit, nor zero times infinity; or the machine makes up for it.
   */
  predicate Fits(k: Kind, j: nat) {
    k.Exponential? ==>
      && Doubled(k.base, j) >= -TWO_63
      && (Doubled(k.base, j) == TWO_63 ==> k.platform.tooHigh >= k.max)
      && (k.base == 0 && j >= INFINITE_POWER ==> k.platform.notANumber == 0 || k.max <= Min(0, k.platform.notANumber))
  }

  lemma {:induction false} DoublingNothing(j: nat)
    ensures Doubled(0, j) == 0
  {
    if j > 0 { DoublingNothing(j - 1); }
  }

  lemma {:induction false} DoubledClosedForm(k: Kind, j: nat)
    requires k.Exponential?
    ensures Delay(k, j) == Min(Doubled(k.base, j), k.max) <==> Fits(k, j)
  {
    if k.base == 0 { DoublingNothing(j); }
  }

  /** The backoff is min(base * 2^j, max) exactly when it fits. */
  lemma {:induction false} BackoffClosedForm(k: Kind, j: nat)
    requires k.Exponential?
    ensures Delay(k, j) == Min(k.base * Power(2, j), k.max) <==> Fits(k, j)
  {
    DoubledIsProduct(k.base, j);
    DoubledClosedForm(k, j);
  }

  lemma {:induction false} Powers2Positive(j: nat)
    ensures Power(2, j) >= 1
  {
    if j > 0 { Powers2Positive(j - 1); }
  }

  /** Where the closed form fails: one nanosecond doubled 63 times, on a machine that yields the least integer. */
  lemma BackoffCanFail()
    ensures var k := Exponential(1, 60_000_000_000, Platform(-TWO_63, -TWO_63, -TWO_63));
            !Fits(k, 63) && Delay(k, 63) == -TWO_63
  {
    assert Doubled(1, 8) == 256;
    assert Doubled(1, 16) == 65536;
    assert Doubled(1, 24) == 0x100_0000;
    assert Doubled(1, 32) == 0x1_0000_0000;
    assert Doubled(1, 40) == 0x100_0000_0000;
    assert Doubled(1, 48) == 0x1_0000_0000_0000;
    assert Doubled(1, 56) == 0x100_0000_0000_0000;
    assert Doubled(1, 63) == TWO_63;
  }

  // ----------------------------------------------------------------- histories

  datatype Op<T> = When(item: T) | Forget(item: T)

  function Count<T(==)>(m: map<T, nat>, item: T): nat {
    if item in m then m[item] else 0
  }

  /** The failures map after a history of calls. */
  function Failures<T(==)>(h: seq<Op<T>>): map<T, nat> {
    if h == [] then map[]
    else
      var m, op := Failures(h[..|h| - 1]), h[|h| - 1];
      match op
      case When(item) => m[item := Count(m, item) + 1]
      case Forget(item) => m - {item}
  }

  /** How often When was called on an item since Forget last was. */
  function Whens<T(==)>(h: seq<Op<T>>, item: T): nat {
    if h == [] then 0
    else
      var op := h[|h| - 1];
      if op.item != item then Whens(h[..|h| - 1], item)
      else if op.When? then 1 + Whens(h[..|h| - 1], item)
      else 0
  }

  function Only<T(==)>(h: seq<Op<T>>, item: T): seq<Op<T>> {
    if h == [] then []
    else Only(h[..|h| - 1], item) + if h[|h| - 1].item == item then [h[|h| - 1]] else []
  }

  /** The counter of an item is the number of Whens since the last Forget; untracked means none. */
  lemma {:induction false} CounterClosedForm<T>(h: seq<Op<T>>, item: T)
    ensures Count(Failures(h), item) == Whens(h, item)
    ensures item in Failures(h) <==> Whens(h, item) > 0
  {
    if h != [] {
      CounterClosedForm(h[..|h| - 1], item);
    }
  }

  /** Items are independent: only the calls on an item matter to it. */
  lemma {:induction false} ItemsAreIndependent<T>(h: seq<Op<T>>, item: T)
    ensures Whens(h, item) == Whens(Only(h, item), item)
  {
    if h != [] {
      ItemsAreIndependent(h[..|h| - 1], item);
      var o := Only(h[..|h| - 1], item);
      if h[|h| - 1].item == item {
        assert (o + [h[|h| - 1]])[..|o|] == o;
      } else {
        assert Only(h, item) == o;
      }
    }
  }

  lemma {:induction false} WhensGrow<T>(h: seq<Op<T>>, g: seq<Op<T>>, item: T)
    requires Forget(item) !in g
    ensures Whens(h, item) <= Whens(h + g, item)
  {
    if g == [] {
      assert h + g == h;
    } else {
      WhensGrow(h, g[..|g| - 1], item);
      assert (h + g)[..|h + g| - 1] == h + g[..|g| - 1];
      assert g[|g| - 1] in g;
    }
  }

  lemma {:induction false} Powers2Grow(i: nat, j: nat)
    requires i <= j
    ensures 1 <= Power(2, i) <= Power(2, j)
    decreases j
  {
    if i < j { Powers2Grow(i, j - 1); } else { Powers2Positive(i); }
  }

  /** The parameters under which delays are meant to grow. */
  predicate Grows(k: Kind) {
    match k
    case Exponential(base, _, _) => base >= 0
    case FastSlow(fast, slow, maxFast) => fast <= slow || maxFast < 1
  }

  /** Delays of an item never fall between two Forgets of it. */
  lemma DelaysNeverFall<T>(k: Kind, h: seq<Op<T>>, g: seq<Op<T>>, item: T)
    requires Grows(k) && Forget(item) !in g
    requires Fits(k, Whens(h, item)) && Fits(k, Whens(h + g, item))
    ensures Delay(k, Whens(h, item)) <= Delay(k, Whens(h + g, item))
  {
    WhensGrow(h, g, item);
    if k.Exponential? {
      BackoffGrows(k, Whens(h, item), Whens(h + g, item));
    }
  }

  /** Of the attempts since the last Forget exactly the first `maxFast` are fast. */
  lemma FastAttempts<T>(k: Kind, h: seq<Op<T>>, item: T)
    requires k.FastSlow?
    ensures Whens(h, item) < k.maxFast ==> Delay(k, Whens(h, item)) == k.fast
    ensures Whens(h, item) >= k.maxFast ==> Delay(k, Whens(h, item)) == k.slow
  {
  }

  /** Fast and slow delays never fall exactly when slow is not faster, or no attempt is fast. */
  lemma FastSlowNeverFalls(k: Kind)
    requires k.FastSlow?
    ensures (forall i: nat, j: nat | i <= j :: Delay(k, i) <= Delay(k, j)) <==> Grows(k)
  {
    if k.maxFast >= 1 {
      assert Delay(k, 0) == k.fast && Delay(k, k.maxFast) == k.slow;
    }
  }

  lemma BackoffGrows(k: Kind, i: nat, j: nat)
    requires k.Exponential? && k.base >= 0 && Fits(k, i) && Fits(k, j) && i <= j
    ensures Delay(k, i) <= Delay(k, j)
  {
    BackoffClosedForm(k, i);
    BackoffClosedForm(k, j);
    Powers2Grow(i, j);
    MulMonotone(Power(2, i), Power(2, j), k.base);
  }

  lemma MulMonotone(x: int, y: int, c: int)
    requires x <= y && c >= 0
    ensures c * x <= c * y
  {
  }

  // ------------------------------------------------------------------ limiters

  class Limiter<T(==)> {
    const kind: Kind
    var failures: map<T, nat>
    ghost var history: seq<Op<T>>

    ghost predicate Valid()
      reads this
    {
      failures == Failures(history)
    }

    constructor (kind: Kind)
      ensures Valid() && this.kind == kind && history == []
    {
      this.kind := kind;
      failures, history := map[], [];
    }

    method Take(item: T) returns (ok: bool)
      requires Valid()
      ensures ok <==> Whens(history, item) == 0
    {
      CounterClosedForm(history, item);
      ok := item !in failures;
    }

    /** The counters are those of the history. */
    lemma CountIsWhens(item: T)
      requires Valid()
      ensures Count(failures, item) == Whens(history, item)
    {
      CounterClosedForm(history, item);
    }

    method When(item: T) returns (d: int64)
      requires Valid()
      modifies this
      ensures Valid() && history == old(history) + [Op.When(item)]
      ensures failures == old(failures)[item := old(Count(failures, item)) + 1]
      ensures d == Delay(kind, old(Whens(history, item))) == Delay(kind, old(Count(failures, item)))
    {
      CountIsWhens(item);
      match kind {
        case Exponential(base, max, platform) =>
          var exp := Count(failures, item);
          failures := failures[item := Count(failures, item) + 1];
          d := Backoff(base, max, platform, exp);
        case FastSlow(fast, slow, maxFast) =>
          failures := failures[item := Count(failures, item) + 1];
          d := if failures[item] <= maxFast then fast else slow;
      }
      assert (history + [Op.When(item)])[..|history|] == history;
      history := history + [Op.When(item)];
    }

    static method Backoff(base: int64, max: int64, platform: Platform, exp: nat) returns (d: int64)
      ensures d == Delay(Exponential(base, max, platform), exp)
    {
      var backoff := Doubled(base, exp);
      if backoff > TWO_63 { return max; }
      var calculated := if base == 0 && exp >= INFINITE_POWER then platform.notANumber else ToDuration(backoff, platform);
      return if calculated > max then max else calculated;
    }

    method Retries(item: T) returns (n: nat)
      requires Valid()
      ensures n == Whens(history, item)
    {
      CounterClosedForm(history, item);
      n := Count(failures, item);
    }

    method Forget(item: T)
      requires Valid()
      modifies this
      ensures Valid() && history == old(history) + [Op.Forget(item)]
      ensures failures == old(failures) - {item}
      ensures Whens(history, item) == 0
    {
      assert (history + [Op.Forget(item)])[..|history|] == history;
      failures := failures - {item};
      history := history + [Op.Forget(item)];
    }
  }

  /** The largest of some numbers, and at least 0. */
  function Largest(ds: seq<int>): int {
    if ds == [] then 0
    else
      var m, d := Largest(ds[..|ds| - 1]), ds[|ds| - 1];
      if d > m then d else m
  }

  lemma {:induction false} LargestIsMaximum(ds: seq<int>)
    ensures forall d | d in ds :: d <= Largest(ds)
    ensures Largest(ds) == 0 || Largest(ds) in ds
    ensures Largest(ds) >= 0
  {
    if ds != [] {
      LargestIsMaximum(ds[..|ds| - 1]);
      assert ds == ds[..|ds| - 1] + [ds[|ds| - 1]];
    }
  }

  // A limiter may be listed more than once, and is then called more than once.

  /** How often a limiter is among the first n of a list. */
  ghost function Uses<T>(ls: seq<Limiter<T>>, n: nat, l: Limiter<T>): nat
    requires n <= |ls|
  {
    multiset(ls[..n])[l]
  }

  lemma UsesOneMore<T>(ls: seq<Limiter<T>>, n: nat, l: Limiter<T>)
    requires n < |ls|
    ensures Uses(ls, n + 1, l) == Uses(ls, n, l) + if ls[n] == l then 1 else 0
  {
    assert ls[..n + 1] == ls[..n] + [ls[n]];
  }

  /** In a list without repetitions a limiter is used once, by its own place in the list. */
  lemma {:induction false} UsedOnce<T>(ls: seq<Limiter<T>>, i: nat, n: nat)
    requires i < |ls| && n <= |ls| && forall a, b | 0 <= a < b < |ls| :: ls[a] != ls[b]
    ensures Uses(ls, n, ls[i]) == if i < n then 1 else 0
  {
    if n > 0 {
      UsedOnce(ls, i, n - 1);
      UsesOneMore(ls, n - 1, ls[i]);
    }
  }

  /** A failures map after n more Whens on an item. */
  function Bumped<T(==)>(m: map<T, nat>, item: T, n: nat): map<T, nat> {
    if n == 0 then m else m[item := Count(m, item) + n]
  }

  lemma BumpedOnce<T>(m: map<T, nat>, item: T, n: nat)
    ensures Count(Bumped(m, item, n), item) == Count(m, item) + n
    ensures Bumped(m, item, n)[item := Count(m, item) + n + 1] == Bumped(m, item, n + 1)
  {
  }

  class MaxOf<T(==)> {
    const limiters: seq<Limiter<T>>

    ghost predicate Valid()
      reads this, limiters
    {
      forall i | 0 <= i < |limiters| :: limiters[i].Valid()
    }

    constructor (limiters: seq<Limiter<T>>)
      requires forall i | 0 <= i < |limiters| :: limiters[i].Valid()
      ensures Valid() && this.limiters == limiters
    {
      this.limiters := limiters;
    }

    ghost function Counts(): (ms: seq<map<T, nat>>)
      reads this, limiters
      ensures |ms| == |limiters|
    {
      seq(|limiters|, i requires 0 <= i < |limiters| reads this, limiters => limiters[i].failures)
    }

    /** The delays the children give in turn, from some counters on. */
    ghost function Delays(ms: seq<map<T, nat>>, item: T): (ds: seq<int>)
      requires |ms| == |limiters|
      ensures |ds| == |limiters|
    {
      seq(|limiters|, i requires 0 <= i < |limiters| =>
        Delay(limiters[i].kind, Count(ms[i], item) + Uses(limiters, i, limiters[i])))
    }

    ghost function Retried(ms: seq<map<T, nat>>, item: T): seq<int>
      requires |ms| == |limiters|
    {
      seq(|limiters|, i requires 0 <= i < |limiters| => Count(ms[i], item))
    }

    /** From some counters on, the first n children have had a When in turn. */
    ghost predicate Called(ms: seq<map<T, nat>>, item: T, n: nat)
      reads this, limiters
      requires |ms| == |limiters| && n <= |limiters|
    {
      forall i {:trigger ms[i]} | 0 <= i < |limiters| :: limiters[i].failures == Bumped(ms[i], item, Uses(limiters, n, limiters[i]))
    }

    /** An item may run if every limiter would let it. */
    method Take(item: T) returns (ok: bool)
      requires Valid()
      ensures ok <==> forall i | 0 <= i < |limiters| :: Whens(limiters[i].history, item) == 0
    {
      var i := 0;
      while i < |limiters|
        invariant 0 <= i <= |limiters|
        invariant forall j | 0 <= j < i :: Whens(limiters[j].history, item) == 0
      {
        var taken := limiters[i].Take(item);
        if !taken { return false; }
        i := i + 1;
      }
      return true;
    }

    lemma OneMoreCalled(ms: seq<map<T, nat>>, mid: seq<map<T, nat>>, item: T, i: nat)
      requires i < |limiters| == |ms| == |mid|
      requires forall j {:trigger mid[j]} | 0 <= j < |limiters| ::
                 && mid[j] == Bumped(ms[j], item, Uses(limiters, i, limiters[j]))
                 && limiters[j].failures == if limiters[j] == limiters[i] then mid[j][item := Count(mid[j], item) + 1] else mid[j]
      ensures Called(ms, item, i + 1)
    {
      forall j | 0 <= j < |limiters|
        ensures limiters[j].failures == Bumped(ms[j], item, Uses(limiters, i + 1, limiters[j]))
      {
        UsesOneMore(limiters, i, limiters[j]);
        var m := mid[j];
        BumpedOnce(ms[j], item, Uses(limiters, i, limiters[j]));
      }
    }

    lemma DelayInTurn(ms: seq<map<T, nat>>, item: T, i: nat)
      requires i < |limiters| == |ms| && Called(ms, item, i)
      ensures Delay(limiters[i].kind, Count(limiters[i].failures, item)) == Delays(ms, item)[i]
    {
      assert limiters[i].failures == Bumped(ms[i], item, Uses(limiters, i, limiters[i]));
      BumpedOnce(ms[i], item, Uses(limiters, i, limiters[i]));
    }

    /** When on one child, which may be in other places of the list too. */
    method WhenOf(ghost mid: seq<map<T, nat>>, i: nat, item: T) returns (curr: int)
      requires Valid() && i < |limiters| && mid == Counts()
      modifies limiters
      ensures Valid()
      ensures curr == Delay(limiters[i].kind, Count(mid[i], item))
      ensures forall j {:trigger mid[j]} | 0 <= j < |limiters| ::
                limiters[j].failures == if limiters[j] == limiters[i] then mid[j][item := Count(mid[j], item) + 1] else mid[j]
    {
      assert mid[i] == limiters[i].failures;
      curr := limiters[i].When(item);
    }

    /** The largest of the delays, with every limiter's counter advanced by one for each time it is listed. */
    method When(item: T) returns (ret: int)
      requires Valid()
      modifies limiters
      ensures Valid()
      ensures ret == Largest(Delays(old(Counts()), item))
      ensures Called(old(Counts()), item, |limiters|)
    {
      ret := 0;
      ghost var ms := Counts();
      ghost var ds := Delays(ms, item);
      var i := 0;
      while i < |limiters|
        invariant 0 <= i <= |limiters|
        invariant Valid()
        invariant ret == Largest(ds[..i])
        invariant Called(ms, item, i)
      {
        assert ds[..i + 1][..i] == ds[..i];
        ghost var mid := Counts();
        DelayInTurn(ms, item, i);
        var curr := WhenOf(mid, i, item);
        OneMoreCalled(ms, mid, item, i);
        if curr > ret { ret := curr; }
        i := i + 1;
      }
      assert ds[..|limiters|] == ds;
    }

    method Retries(item: T) returns (ret: int)
      requires Valid()
      ensures ret == Largest(Retried(Counts(), item))
    {
      ret := 0;
      ghost var cs := Retried(Counts(), item);
      var i := 0;
      while i < |limiters|
        invariant 0 <= i <= |limiters|
        invariant ret == Largest(cs[..i])
      {
        assert cs[..i + 1][..i] == cs[..i];
        limiters[i].CountIsWhens(item);
        var curr := limiters[i].Retries(item);
        if curr > ret { ret := curr; }
        i := i + 1;
      }
      assert cs[..|limiters|] == cs;
    }

    method Forget(item: T)
      requires Valid()
      modifies limiters
      ensures Valid()
      ensures forall i | 0 <= i < |limiters| :: limiters[i].failures == old(limiters[i].failures) - {item}
    {
      var i := 0;
      while i < |limiters|
        invariant 0 <= i <= |limiters|
        invariant Valid()
        invariant forall j | 0 <= j < i :: limiters[j].failures == old(limiters[j].failures) - {item}
        invariant forall j | 0 <= j < |limiters| ::
                    limiters[j].failures == old(limiters[j].failures) || limiters[j].failures == old(limiters[j].failures) - {item}
      {
        limiters[i].Forget(item);
        i := i + 1;
      }
    }
  }
}
