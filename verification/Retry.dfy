/** Retrying with capped exponential waits. Durations are 64-bit counts of nanoseconds; the
    next wait is computed in float64 and converted back. */
module Retry {
  import opened Bytes
  import SseReader

  type Error = string

  datatype Config = Config(maxAttempts: int, initialWait: int, maxWait: int, multiplier: real)

  const SECOND := 1_000_000_000

  // ---------- floating point ----------

  /** What the hardware does: rounding to the nearest float64, conversion to int64, and the
      two together in scaling a duration by a factor. */
  datatype Machine = Machine(round: real -> real, toInt: real -> int, scale: (int, real) -> int)

  /** 2^53: whole numbers up to here are float64 values. */
  const EXACT := 0x20_0000_0000_0000

  /** Whole float64 values: n * 2^e with n <= 2^53. */
  predicate WholeFloat(v: nat) {
    v <= EXACT || (v % 2 == 0 && WholeFloat(v / 2))
  }

  /** The real number is such a value. */
  predicate IsWholeFloat(x: real) {
    x >= 0.0 && x == x.Floor as real && WholeFloat(x.Floor)
  }

  /** The largest float64 that fits int64. */
  const LARGEST := 0x7FFF_FFFF_FFFF_FC00

  /** The conversion drops the fraction; out of range it may give anything. */
  predicate Fits64(x: real) {
    SseReader.MIN_INT64 as real <= x <= LARGEST as real
  }

  function Truncate(x: real): int {
    if x >= 0.0 then x.Floor else -((-x).Floor)
  }

  /** What is used of IEEE 754 double precision: rounding keeps float64 values, keeps order,
      and yields float64 values, which from 2^53 on are whole. */
  ghost predicate Rounds(round: real -> real) {
    && (forall v: nat :: WholeFloat(v) ==> round(v as real) == v as real)
    && (forall x: real, y: real :: x <= y ==> round(x) <= round(y))
    && (forall x: real :: round(x) >= EXACT as real ==> IsWholeFloat(round(x)))
  }

  ghost predicate Converts(toInt: real -> int) {
    forall x: real :: Fits64(x) ==> toInt(x) == Truncate(x)
  }

  /** Scaling rounds the duration, rounds the product and converts. */
  ghost predicate IsFloat64(m: Machine) {
    && Rounds(m.round) && Converts(m.toInt)
    && forall w: int, x: real :: m.scale(w, x) == m.toInt(Product(m, w, x))
  }

  function Product(m: Machine, wait: int, multiplier: real): real {
    m.round(Mul(m.round(wait as real), multiplier))
  }

  function Mul(x: real, y: real): real { x * y }

  // ---------- the waits ----------

  function NextWait(m: Machine, cfg: Config, wait: int): int {
    var next := m.scale(wait, cfg.multiplier);
    if cfg.maxWait > 0 && next > cfg.maxWait then cfg.maxWait else next
  }

  /** The k-th wait. */
  function WaitAt(m: Machine, cfg: Config, k: nat): int {
    if k == 0 then cfg.initialWait else NextWait(m, cfg, WaitAt(m, cfg, k - 1))
  }

  method Backoff(m: Machine, cfg: Config, wait: int) returns (next: int)
    ensures next == NextWait(m, cfg, wait)
  {
    next := m.scale(wait, cfg.multiplier);
    if cfg.maxWait > 0 && next > cfg.maxWait {
      next := cfg.maxWait;
    }
  }

  /** The waits that ran to their end: the first of the sequence, none cut short. */
  predicate Slept(m: Machine, cfg: Config, woken: nat -> bool, sleeps: seq<int>) {
    forall k :: 0 <= k < |sleeps| ==> sleeps[k] == WaitAt(m, cfg, k) && !woken(k)
  }

  lemma SleptOneMore(m: Machine, cfg: Config, woken: nat -> bool, sleeps: seq<int>)
    requires Slept(m, cfg, woken, sleeps) && !woken(|sleeps|)
    ensures Slept(m, cfg, woken, sleeps + [WaitAt(m, cfg, |sleeps|)])
  {
  }

  /** `fn(k)` is the error of the k-th call, if it fails; `ctxErr(k)` the context's error
      when the k-th attempt looks at it; `woken(k)` says that the wait after the k-th call
      is ended by the context. `sleeps` are the waits that ran to their end. */
  method Do(m: Machine, cfg: Config, fn: nat -> Option<Error>, ctxErr: nat -> Option<Error>, woken: nat -> bool)
    returns (err: Option<Error>, calls: nat, sleeps: seq<int>)
    ensures cfg.maxAttempts <= 0 ==> calls == 0 && err == None
    ensures cfg.maxAttempts > 0 ==> calls <= cfg.maxAttempts
    ensures forall k :: 0 <= k < calls - 1 ==> fn(k).Some?
    ensures calls > 0 ==> err == fn(calls - 1)
    ensures cfg.maxAttempts > 0 && calls == 0 ==> err.Some? && err == ctxErr(0)
    ensures forall k :: 0 <= k < calls ==> ctxErr(k).None?
    ensures forall k :: 0 <= k < calls - 1 ==> !woken(k)
    ensures cfg.maxAttempts > 0 && ctxErr(0).Some? ==> calls == 0 && err == ctxErr(0)
    ensures calls - 1 <= |sleeps| <= calls
    ensures forall k :: 0 <= k < |sleeps| ==> sleeps[k] == WaitAt(m, cfg, k) && !woken(k)
    ensures 0 < calls < cfg.maxAttempts && err.Some? ==> woken(calls - 1) || ctxErr(calls).Some?
    ensures (forall k :: !woken(k) && ctxErr(k).None?) ==> |sleeps| == if calls == 0 then 0 else calls - 1
  {
    err, calls, sleeps := None, 0, [];
    if cfg.maxAttempts <= 0 {
      return;
    }
    var wait := cfg.initialWait;
    for attempt := 0 to cfg.maxAttempts
      invariant calls == attempt && |sleeps| == if attempt == cfg.maxAttempts then attempt - 1 else attempt
      invariant attempt == 0 ==> err == None
      invariant attempt > 0 ==> err.Some? && err == fn(attempt - 1)
      invariant forall k :: 0 <= k < attempt ==> fn(k).Some? && ctxErr(k).None?
      invariant Slept(m, cfg, woken, sleeps)
      invariant wait == WaitAt(m, cfg, |sleeps|)
    {
      var cancelled := ctxErr(attempt);
      if cancelled.Some? {
        if err.Some? {
          return;
        }
        return cancelled, calls, sleeps;
      }
      err := fn(attempt);
      calls := calls + 1;
      if err.None? {
        return;
      }
      if attempt < cfg.maxAttempts - 1 {
        if woken(attempt) {
          return;
        }
        SleptOneMore(m, cfg, woken, sleeps);
        sleeps := sleeps + [wait];
        wait := Backoff(m, cfg, wait);
      }
    }
  }

  // ---------- one step ----------

  /** w times x. */
  function Times(w: nat, x: real): real {
    if w == 0 then 0.0 else Times(w - 1, x) + x
  }

  lemma {:induction false} TimesIsProduct(w: nat, x: real)
    ensures Times(w, x) == Mul(w as real, x)
  {
    if w > 0 {
      TimesIsProduct(w - 1, x);
      var v := (w - 1) as real;
      assert w as real == v + 1.0;
      assert (v + 1.0) * x == v * x + x;
    } else {
      assert 0.0 * x == 0.0;
    }
  }

  lemma {:induction false} TimesGrows(w: nat, x: real)
    requires x >= 1.0
    ensures Times(w, x) >= w as real
  {
    if w > 0 { TimesGrows(w - 1, x); }
  }

  lemma {:induction false} TimesMono(v: nat, w: nat, x: real)
    requires x >= 1.0 && v <= w
    ensures Times(v, x) <= Times(w, x)
    decreases w
  {
    if v < w { TimesMono(v, w - 1, x); }
  }

  lemma LargestIsFloat()
    ensures WholeFloat(LARGEST)
  {
    assert WholeFloat(LARGEST / 1024);
    assert WholeFloat(LARGEST / 512) && WholeFloat(LARGEST / 256) && WholeFloat(LARGEST / 128);
    assert WholeFloat(LARGEST / 64) && WholeFloat(LARGEST / 32) && WholeFloat(LARGEST / 16);
    assert WholeFloat(LARGEST / 8) && WholeFloat(LARGEST / 4) && WholeFloat(LARGEST / 2);
  }

  /** Rounding stays between float64 bounds. */
  lemma RoundBetween(m: Machine, lo: nat, x: real, hi: nat)
    requires Rounds(m.round) && WholeFloat(lo) && WholeFloat(hi) && lo as real <= x <= hi as real
    ensures lo as real <= m.round(x) <= hi as real
  {
    assert m.round(lo as real) == lo as real && m.round(hi as real) == hi as real;
  }

  /** The conversion of a rounded product is a float64 value itself. */
  lemma ConvertedIsFloat(m: Machine, x: real)
    requires Rounds(m.round) && Converts(m.toInt) && 0.0 <= x <= LARGEST as real
    ensures 0 <= m.toInt(m.round(x)) == m.round(x).Floor && WholeFloat(m.toInt(m.round(x)))
  {
    LargestIsFloat();
    RoundBetween(m, 0, x, LARGEST);
    var r := m.round(x);
    assert Fits64(r);
    if r < EXACT as real {
      assert r.Floor <= EXACT;
    }
  }

  /** What becomes of an exact product. */
  lemma ConvertedExact(m: Machine, x: real, cap: nat)
    requires Rounds(m.round) && Converts(m.toInt) && 0.0 <= x <= LARGEST as real && WholeFloat(cap)
    ensures x > cap as real ==> m.toInt(m.round(x)) >= cap
    ensures IsWholeFloat(x) ==> m.toInt(m.round(x)) as real == x
  {
    ConvertedIsFloat(m, x);
    if x > cap as real {
      assert cap as real == m.round(cap as real) <= m.round(x);
    }
    if IsWholeFloat(x) {
      assert m.round(x.Floor as real) == x.Floor as real;
    }
  }

  predicate Scalable(w: int, multiplier: real) {
    w >= 0 && WholeFloat(w) && Times(w, multiplier) <= LARGEST as real
  }

  /** `next` is what scaling makes of a wait whose exact product is `x`. */
  predicate ScaledOk(x: real, cap: nat, next: int) {
    && 0 <= next && WholeFloat(next)
    && (x > cap as real ==> next >= cap)
    && (IsWholeFloat(x) ==> next as real == x)
  }

  lemma ScaleOfFloat(m: Machine, multiplier: real, w: nat, x: real)
    requires m.round(w as real) == w as real && x == Mul(w as real, multiplier)
    requires m.scale(w, multiplier) == m.toInt(Product(m, w, multiplier))
    ensures m.scale(w, multiplier) == m.toInt(m.round(x))
  {
    assert Mul(m.round(w as real), multiplier) == Mul(w as real, multiplier) == x;
  }

  lemma ScaledProduct(m: Machine, x: real, cap: nat, next: int)
    requires Rounds(m.round) && Converts(m.toInt) && 0.0 <= x <= LARGEST as real && WholeFloat(cap)
    requires next == m.toInt(m.round(x))
    ensures ScaledOk(x, cap, next)
  {
    ConvertedIsFloat(m, x);
    ConvertedExact(m, x, cap);
  }

  lemma ScaleStep(m: Machine, multiplier: real, cap: nat, w: nat)
    requires IsFloat64(m) && multiplier >= 1.0 && WholeFloat(cap) && Scalable(w, multiplier)
    ensures ScaledOk(Times(w, multiplier), cap, m.scale(w, multiplier))
  {
    var x := Times(w, multiplier);
    TimesIsProduct(w, multiplier);
    assert m.round(w as real) == w as real;
    ScaleOfFloat(m, multiplier, w, x);
    TimesGrows(w, multiplier);
    ScaledProduct(m, x, cap, m.scale(w, multiplier));
  }

  /** Scaling by this multiplier is as good as float64 makes it. */
  ghost predicate ScalesOk(m: Machine, multiplier: real, cap: nat) {
    forall w: nat :: Scalable(w, multiplier) ==> ScaledOk(Times(w, multiplier), cap, m.scale(w, multiplier))
  }

  lemma Float64ScalesOk(m: Machine, multiplier: real, cap: nat)
    requires IsFloat64(m) && multiplier >= 1.0 && WholeFloat(cap)
    ensures ScalesOk(m, multiplier, cap)
  {
    forall w: nat | Scalable(w, multiplier)
      ensures ScaledOk(Times(w, multiplier), cap, m.scale(w, multiplier))
    {
      ScaleStep(m, multiplier, cap, w);
    }
  }

  // ---------- closed form of the waits ----------

  /** The k-th power of the multiplier times the first wait. */
  function Power(cfg: Config, k: nat): real {
    if k == 0 then cfg.initialWait as real else Power(cfg, k - 1) * cfg.multiplier
  }

  lemma PowerOfWhole(cfg: Config, k: nat, n: nat)
    requires Power(cfg, k) == n as real
    ensures Power(cfg, k + 1) == Times(n, cfg.multiplier)
  {
    TimesIsProduct(n, cfg.multiplier);
  }

  lemma {:induction false} PowerGrows(cfg: Config, k: nat)
    requires cfg.multiplier >= 1.0 && cfg.initialWait >= 0
    ensures 0.0 <= Power(cfg, k) <= Power(cfg, k + 1)
  {
    if k > 0 { PowerGrows(cfg, k - 1); }
    var p := Power(cfg, k);
    assert p * (cfg.multiplier - 1.0) >= 0.0;
  }

  /** What the closed form makes of one power. */
  function Capped(cfg: Config, power: real): real {
    if power <= cfg.maxWait as real then power else cfg.maxWait as real
  }

  /** The first wait, and then the powers up to the cap. */
  predicate ClosedForm(m: Machine, cfg: Config, k: nat) {
    WaitAt(m, cfg, k) as real == if k == 0 then cfg.initialWait as real else Capped(cfg, Power(cfg, k))
  }

  /** First wait and cap are float64 values whose products with the multiplier fit 64 bits. */
  predicate InRange(cfg: Config) {
    && cfg.multiplier >= 1.0
    && Scalable(cfg.initialWait, cfg.multiplier)
    && cfg.maxWait > 0 && Scalable(cfg.maxWait, cfg.multiplier)
  }

  /** Every power up to the cap is a whole number that float64 holds. */
  ghost predicate PowersFit(cfg: Config) {
    forall k: nat :: k > 0 && Power(cfg, k) <= cfg.maxWait as real ==> IsWholeFloat(Power(cfg, k))
  }

  lemma NextInRange(m: Machine, cfg: Config, w: int)
    requires InRange(cfg) && ScalesOk(m, cfg.multiplier, cfg.maxWait) && Scalable(w, cfg.multiplier)
    ensures var next := NextWait(m, cfg, w); Scalable(next, cfg.multiplier) && next <= cfg.maxWait
  {
    assert ScaledOk(Times(w, cfg.multiplier), cfg.maxWait, m.scale(w, cfg.multiplier));
    TimesMono(NextWait(m, cfg, w), cfg.maxWait, cfg.multiplier);
  }

  /** Every wait is a float64 value whose product fits 64 bits. */
  lemma {:induction false} WaitsInRange(m: Machine, cfg: Config, k: nat)
    requires InRange(cfg) && ScalesOk(m, cfg.multiplier, cfg.maxWait)
    ensures Scalable(WaitAt(m, cfg, k), cfg.multiplier)
  {
    if k > 0 {
      WaitsInRange(m, cfg, k - 1);
      NextInRange(m, cfg, WaitAt(m, cfg, k - 1));
    }
  }

  /** From a wait to the next, uncapped or capped. */
  lemma NextClosed(m: Machine, cfg: Config, w: nat, x: real)
    requires cfg.maxWait > 0 && ScalesOk(m, cfg.multiplier, cfg.maxWait) && Scalable(w, cfg.multiplier)
    requires x == Times(w, cfg.multiplier) && (x <= cfg.maxWait as real ==> IsWholeFloat(x))
    ensures NextWait(m, cfg, w) as real == Capped(cfg, x)
  {
    assert ScaledOk(Times(w, cfg.multiplier), cfg.maxWait, m.scale(w, cfg.multiplier));
  }

  /** A capped wait stays. */
  lemma CapStays(m: Machine, cfg: Config)
    requires InRange(cfg) && ScalesOk(m, cfg.multiplier, cfg.maxWait)
    ensures NextWait(m, cfg, cfg.maxWait) == cfg.maxWait
  {
    var x := Times(cfg.maxWait, cfg.multiplier);
    TimesGrows(cfg.maxWait, cfg.multiplier);
    if x <= cfg.maxWait as real {
      assert x.Floor == cfg.maxWait && IsWholeFloat(x);
    }
    NextClosed(m, cfg, cfg.maxWait, x);
  }

  lemma {:induction false} FitPowersClosed(m: Machine, cfg: Config, k: nat)
    requires InRange(cfg) && ScalesOk(m, cfg.multiplier, cfg.maxWait) && PowersFit(cfg)
    ensures ClosedForm(m, cfg, k)
  {
    if k > 0 {
      FitPowersClosed(m, cfg, k - 1);
      WaitsInRange(m, cfg, k - 1);
      PowerGrows(cfg, k - 1);
      var w := WaitAt(m, cfg, k - 1);
      if w as real == Power(cfg, k - 1) {
        PowerOfWhole(cfg, k - 1, w);
        NextClosed(m, cfg, w, Power(cfg, k));
      } else {
        CapStays(m, cfg);
      }
    }
  }

  /** Within 64 bits the closed form holds for all waits exactly when every power up to the
      cap is a whole number of nanoseconds that float64 holds: what the conversion or the
      rounding drops is lost. */
  lemma ClosedFormExactly(m: Machine, cfg: Config)
    requires IsFloat64(m) && InRange(cfg)
    ensures (forall k: nat :: ClosedForm(m, cfg, k)) <==> PowersFit(cfg)
  {
    Float64ScalesOk(m, cfg.multiplier, cfg.maxWait);
    if PowersFit(cfg) {
      forall k: nat
        ensures ClosedForm(m, cfg, k)
      {
        FitPowersClosed(m, cfg, k);
      }
    }
    if forall k: nat :: ClosedForm(m, cfg, k) {
      ClosedPowersFit(m, cfg);
    }
  }

  lemma ClosedPowersFit(m: Machine, cfg: Config)
    requires InRange(cfg) && ScalesOk(m, cfg.multiplier, cfg.maxWait)
    requires forall k: nat :: ClosedForm(m, cfg, k)
    ensures PowersFit(cfg)
  {
    forall k: nat | k > 0 && Power(cfg, k) <= cfg.maxWait as real
      ensures IsWholeFloat(Power(cfg, k))
    {
      assert ClosedForm(m, cfg, k);
      WaitsInRange(m, cfg, k);
    }
  }

  lemma {:induction false} WholeTimes(n: nat, f: nat)
    ensures Times(n, f as real) == (n * f) as real && n * f >= 0
  {
    if n > 0 {
      WholeTimes(n - 1, f);
      assert n * f == (n - 1) * f + f;
    }
  }

  lemma {:induction false} WholePowers(cfg: Config, f: nat, k: nat) returns (n: nat)
    requires cfg.initialWait >= 0 && cfg.multiplier == f as real
    ensures Power(cfg, k) == n as real
  {
    n := cfg.initialWait;
    if k > 0 {
      n := WholePowers(cfg, f, k - 1);
      PowerOfWhole(cfg, k - 1, n);
      WholeTimes(n, f);
      n := n * f;
    }
  }

  /** A whole multiplier is enough when the cap is at most 2^53 nanoseconds, about 104 days. */
  lemma WholeMultiplierClosed(m: Machine, cfg: Config, f: nat, k: nat)
    requires IsFloat64(m) && InRange(cfg) && cfg.maxWait <= EXACT && cfg.multiplier == f as real
    ensures ClosedForm(m, cfg, k)
  {
    forall j: nat | j > 0 && Power(cfg, j) <= cfg.maxWait as real
      ensures IsWholeFloat(Power(cfg, j))
    {
      var n := WholePowers(cfg, f, j);
    }
    ClosedFormExactly(m, cfg);
  }

  /** Outside that range it fails, first by rounding: with multiplier 1 a wait of 2^53 + 1
      nanoseconds does not come back, although the cap is larger. */
  lemma RoundingBreaksClosedForm(m: Machine)
    requires IsFloat64(m)
    ensures !ClosedForm(m, Config(2, EXACT + 1, 2 * EXACT, 1.0), 1)
  {
    var cfg, i := Config(2, EXACT + 1, 2 * EXACT, 1.0), EXACT + 1;
    assert !WholeFloat(i);
    assert WholeFloat(2 * EXACT / 2) && WholeFloat(2 * EXACT);
    RoundBetween(m, EXACT, i as real, 2 * EXACT);
    var r := m.round(i as real);
    assert IsWholeFloat(r) && r != i as real;
    assert m.round(r.Floor as real) == r;
    assert Product(m, i, 1.0) == r;
    assert m.scale(i, 1.0) == r.Floor;
    assert WaitAt(m, cfg, 1) == NextWait(m, cfg, WaitAt(m, cfg, 0));
    assert Power(cfg, 1) == Power(cfg, 0) * 1.0;
  }

  /** A machine like `m` whose conversion gives 0 for all values that do not fit. */
  function ZeroOnOverflow(m: Machine): Machine {
    var toInt := (x: real) => if Fits64(x) then Truncate(x) else 0;
    Machine(m.round, toInt, (w: int, x: real) => toInt(m.round(Mul(m.round(w as real), x))))
  }

  lemma ZeroOnOverflowIsFloat64(m: Machine)
    requires IsFloat64(m)
    ensures IsFloat64(ZeroOnOverflow(m))
  {
    var other := ZeroOnOverflow(m);
    assert Rounds(other.round);
    assert Converts(other.toInt);
    ZeroScales(m);
  }

  lemma ZeroScales(m: Machine)
    ensures var other := ZeroOnOverflow(m);
            forall w: int, x: real :: other.scale(w, x) == other.toInt(Product(other, w, x))
  {
  }

  lemma ScaledToZero(m: Machine, w: nat)
    requires IsFloat64(m) && WholeFloat(w) && 2 * w > SseReader.MAX_INT64
    ensures ZeroOnOverflow(m).scale(w, 2.0) == 0
  {
    var x := (2 * w) as real;
    assert m.round(w as real) == w as real && w as real * 2.0 == x;
    assert WholeFloat(2 * w) by { assert 2 * w / 2 == w; }
    assert m.round(x) == x && !Fits64(x);
  }

  /** Then by overflow: beside every machine there is one that agrees with it on all values
      that fit 64 bits and does not give the cap. */
  lemma OverflowBreaksClosedForm(m: Machine)
    requires IsFloat64(m)
    ensures var other := ZeroOnOverflow(m);
            && IsFloat64(other) && other.round == m.round
            && (forall x :: Fits64(x) ==> other.toInt(x) == m.toInt(x))
            && !ClosedForm(other, Config(2, 5_000_000_000 * SECOND, 9_000_000_000 * SECOND, 2.0), 1)
  {
    var other, cfg := ZeroOnOverflow(m), Config(2, 5_000_000_000 * SECOND, 9_000_000_000 * SECOND, 2.0);
    ZeroOnOverflowIsFloat64(m);
    FiveIsFloat();
    ScaledToZero(m, cfg.initialWait);
    assert WaitAt(other, cfg, 1) == NextWait(other, cfg, WaitAt(other, cfg, 0)) == 0;
    assert Power(cfg, 1) == Power(cfg, 0) * 2.0;
  }

  lemma FiveIsFloat()
    ensures WholeFloat(5_000_000_000 * SECOND)
  {
    var v := 5_000_000_000 * SECOND;
    assert WholeFloat(v / 1024);
    assert WholeFloat(v / 512) && WholeFloat(v / 256) && WholeFloat(v / 128);
    assert WholeFloat(v / 64) && WholeFloat(v / 32) && WholeFloat(v / 16);
    assert WholeFloat(v / 8) && WholeFloat(v / 4) && WholeFloat(v / 2);
  }

  /** The largest whole float64 value up to n. */
  function FloatBelow(n: nat): nat {
    if n <= EXACT then n else 2 * FloatBelow(n / 2)
  }

  lemma {:induction false} FloatBelowIs(n: nat)
    ensures WholeFloat(FloatBelow(n)) && FloatBelow(n) <= n
    ensures n >= EXACT ==> FloatBelow(n) >= EXACT
    ensures WholeFloat(n) ==> FloatBelow(n) == n
  {
    if n > EXACT {
      FloatBelowIs(n / 2);
      assert 2 * FloatBelow(n / 2) / 2 == FloatBelow(n / 2);
    }
  }

  lemma {:induction false} FloatBelowMono(a: nat, b: nat)
    requires a <= b
    ensures FloatBelow(a) <= FloatBelow(b)
  {
    if a > EXACT {
      FloatBelowMono(a / 2, b / 2);
    } else {
      FloatBelowIs(b);
    }
  }

  function RoundDown(x: real): real {
    if x < EXACT as real then x else FloatBelow(x.Floor) as real
  }

  lemma RoundDownRounds()
    ensures Rounds(RoundDown)
  {
    forall v: nat | WholeFloat(v)
      ensures RoundDown(v as real) == v as real
    {
      FloatBelowIs(v);
    }
    forall x: real, y: real | x <= y
      ensures RoundDown(x) <= RoundDown(y)
    {
      if y >= EXACT as real {
        FloatBelowIs(y.Floor);
        if x >= EXACT as real { FloatBelowMono(x.Floor, y.Floor); }
      }
    }
    forall x: real | RoundDown(x) >= EXACT as real
      ensures IsWholeFloat(RoundDown(x))
    {
      FloatBelowIs(x.Floor);
    }
  }

  /** There are such machines. */
  lemma SomeFloat64() returns (m: Machine)
    ensures IsFloat64(m)
  {
    m := Machine(RoundDown, Truncate, (w: int, x: real) => Truncate(RoundDown(Mul(RoundDown(w as real), x))));
    RoundDownRounds();
  }

  // ---------- DoWithBackoff ----------

  function Pow2(k: nat): (p: nat)
    ensures p >= 1
  {
    if k == 0 then 1 else 2 * Pow2(k - 1)
  }

  /** 2^n seconds: the power converted, then multiplied in 64 bits. */
  function BackoffConfig(m: Machine, n: int): Config {
    Config(n, SECOND, SseReader.WrapInt64(m.toInt(Pow2(if n < 0 then 0 else n) as real) * SECOND), 2.0)
  }

  function Sum(s: seq<int>): int {
    if s == [] then 0 else Sum(s[..|s| - 1]) + s[|s| - 1]
  }

  lemma {:induction false} Pow2Mono(j: nat, k: nat)
    requires j <= k
    ensures Pow2(j) <= Pow2(k)
    decreases k
  {
    if j < k { Pow2Mono(j, k - 1); }
  }

  lemma Pow2At32()
    ensures Pow2(32) == 0x1_0000_0000 && Pow2(33) == 0x2_0000_0000
  {
    assert Pow2(8) == 0x100;
    assert Pow2(16) == 0x1_0000;
    assert Pow2(24) == 0x100_0000;
  }

  /** The cap of DoWithBackoff is 2^n seconds without overflow exactly up to n = 33. */
  lemma CapFitsExactly(n: nat)
    ensures Pow2(n) * 1_000_000_000 <= 9_223_372_036_854_775_807 <==> n <= 33
  {
    Pow2At32();
    if n <= 33 { Pow2Mono(n, 33); } else { Pow2Mono(34, n); }
  }

  lemma BackoffCap(m: Machine, n: nat)
    requires IsFloat64(m) && n <= 33
    ensures BackoffConfig(m, n).maxWait == Pow2(n) * SECOND <= SseReader.MAX_INT64
  {
    CapFitsExactly(n);
    assert Fits64(Pow2(n) as real);
  }

  lemma {:induction false} SecondsAreFloat(k: nat)
    ensures WholeFloat(Pow2(k) * SECOND)
  {
    if k > 0 {
      SecondsAreFloat(k - 1);
      assert Pow2(k) * SECOND == 2 * (Pow2(k - 1) * SECOND);
    }
  }

  lemma {:induction false} TimesTwo(w: nat)
    ensures Times(w, 2.0) == (2 * w) as real
  {
    if w > 0 { TimesTwo(w - 1); }
  }

  lemma DoubleWait(m: Machine, cfg: Config, k: nat)
    requires Pow2(k + 1) * SECOND < cfg.maxWait && cfg.multiplier == 2.0 && ScalesOk(m, 2.0, cfg.maxWait)
    requires Pow2(k + 1) * SECOND <= LARGEST
    ensures NextWait(m, cfg, Pow2(k) * SECOND) == Pow2(k + 1) * SECOND
  {
    var w := Pow2(k) * SECOND;
    SecondsAreFloat(k);
    SecondsAreFloat(k + 1);
    TimesTwo(w);
    assert Times(w, 2.0) == (Pow2(k + 1) * SECOND) as real;
    NextClosed(m, cfg, w, Times(w, 2.0));
  }

  lemma BackoffScales(m: Machine, n: nat)
    requires IsFloat64(m) && 1 <= n <= 33
    ensures var cap := BackoffConfig(m, n).maxWait;
            cap == Pow2(n) * SECOND <= SseReader.MAX_INT64 && ScalesOk(m, 2.0, cap)
  {
    BackoffCap(m, n);
    SecondsAreFloat(n);
    Float64ScalesOk(m, 2.0, Pow2(n) * SECOND);
  }

  lemma BelowCap(n: nat, k: nat)
    requires 1 <= n <= 33 && k < n
    ensures 0 < Pow2(k) * SECOND < Pow2(n) * SECOND && Pow2(k) * SECOND <= LARGEST
  {
    Pow2Mono(k, n - 1);
    Pow2Mono(n - 1, 32);
    Pow2At32();
  }

  /** Every wait DoWithBackoff computes is exactly 2^k seconds: no rounding, the cap never
      binds and no duration leaves 64 bits. */
  lemma {:induction false} BackoffWaits(m: Machine, n: nat, k: nat)
    requires IsFloat64(m) && 1 <= n <= 33 && k < n
    ensures WaitAt(m, BackoffConfig(m, n), k) == Pow2(k) * 1_000_000_000
    ensures 0 < Pow2(k) * 1_000_000_000 < BackoffConfig(m, n).maxWait <= SseReader.MAX_INT64
  {
    BackoffScales(m, n);
    BelowCap(n, k);
    if k > 0 {
      BackoffWaits(m, n, k - 1);
      DoubleWait(m, BackoffConfig(m, n), k - 1);
    }
  }

  lemma {:induction false} BackoffTotal(m: Machine, n: nat, sleeps: seq<int>)
    requires IsFloat64(m) && 1 <= n <= 33 && |sleeps| <= n
    requires forall k :: 0 <= k < |sleeps| ==> sleeps[k] == WaitAt(m, BackoffConfig(m, n), k)
    ensures Sum(sleeps) == (Pow2(|sleeps|) - 1) * SECOND
  {
    if sleeps != [] {
      var j := |sleeps| - 1;
      BackoffTotal(m, n, sleeps[..j]);
      BackoffWaits(m, n, j);
    }
  }

  /** An uncancelled run that uses up its attempts sleeps 2^(n-1) - 1 seconds in all. */
  lemma ExhaustedTotal(m: Machine, n: nat, calls: nat, sleeps: seq<int>)
    requires IsFloat64(m) && 1 <= n <= 33 && calls == n && |sleeps| == n - 1
    requires forall k :: 0 <= k < |sleeps| ==> sleeps[k] == WaitAt(m, BackoffConfig(m, n), k)
    ensures Sum(sleeps) == (Pow2(n - 1) - 1) * SECOND
  {
    BackoffTotal(m, n, sleeps);
  }

  method DoWithBackoff(m: Machine, maxAttempts: int, fn: nat -> Option<Error>, ctxErr: nat -> Option<Error>,
                       woken: nat -> bool)
    returns (err: Option<Error>, calls: nat, sleeps: seq<int>)
    ensures maxAttempts <= 0 ==> calls == 0 && err == None
    ensures maxAttempts > 0 ==> calls <= maxAttempts
    ensures calls > 0 ==> err == fn(calls - 1)
    ensures forall k :: 0 <= k < calls - 1 ==> fn(k).Some? && !woken(k)
    ensures forall k :: 0 <= k < calls ==> ctxErr(k).None?
    ensures maxAttempts > 0 && ctxErr(0).Some? ==> calls == 0 && err == ctxErr(0)
    ensures 0 < calls < maxAttempts && err.Some? ==> woken(calls - 1) || ctxErr(calls).Some?
    ensures IsFloat64(m) && 1 <= maxAttempts <= 33 && (forall k :: !woken(k) && ctxErr(k).None? && fn(k).Some?) ==>
              calls == maxAttempts && Sum(sleeps) == (Pow2(maxAttempts - 1) - 1) * 1_000_000_000
  {
    err, calls, sleeps := Do(m, BackoffConfig(m, maxAttempts), fn, ctxErr, woken);
    ghost var exhausted := calls == maxAttempts && |sleeps| == maxAttempts - 1;
    if IsFloat64(m) && 1 <= maxAttempts <= 33 && exhausted {
      ExhaustedTotal(m, maxAttempts, calls, sleeps);
    }
  }
}
