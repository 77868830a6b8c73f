// The delay before another attempt (src/async_task.rs:222-296), in floating
// point with its overflow, infinities and NaN; rounding is left out.
module Backoff {
  // ---------------------------------------------------------------------
  // Floating point, rounding apart
  // ---------------------------------------------------------------------

  // Finite values are exact; what reaches `limit` becomes an infinity.
  datatype Float = Finite(value: real) | Infinite(negative: bool) | NaN

  predicate Overflows(x: real, limit: real) {
    x >= limit || x <= -limit
  }

  function Rounded(x: real, limit: real): Float {
    if Overflows(x, limit) then Infinite(x < 0.0) else Finite(x)
  }

  function Product(d: nat, p: real): real {
    d as real * p
  }

  // A whole number times a float: zero times an infinity is a NaN.
  function Times(d: nat, y: Float, limit: real): Float {
    match y
    case NaN => NaN
    case Infinite(_) => if d == 0 then NaN else y
    case Finite(p) => Rounded(Product(d, p), limit)
  }

  function Pow(base: real, n: nat): real {
    if n == 0 then 1.0 else base * Pow(base, n - 1)
  }

  // f64::powf with a whole exponent; any base to the zero is one.
  function Powf(base: Float, n: nat, limit: real): Float {
    if n == 0 then Finite(1.0)
    else match base
      case NaN => NaN
      case Infinite(negative) => Infinite(negative && n % 2 == 1)
      case Finite(x) => Rounded(Pow(x, n), limit)
  }

  // f64::min: a NaN gives way to the other operand.
  function Min(x: Float, y: Float): Float {
    if x.NaN? then y
    else if y.NaN? then x
    else if x.Infinite? then if x.negative then x else y
    else if y.Infinite? then if y.negative then y else x
    else if x.value < y.value then x else y
  }

  const WORD: nat := 0x1_0000_0000_0000_0000

  // The limit of 64-bit floats, 2^1024 - 2^970: half a step above the largest
  // finite one.
  function Limit(): real {
    1797693134862315807937289714053034150799341327100378269361737789804449682927647509466490179775872070963.0e206 +
    3028641669288791094655554785194040263065748867150582068190890200070838367627385484581771153176447573027.0e103 +
    69855571366959622842914819860834936475292719074168444365510704342711559699508093042880177904174497792.0
  }

  // ---------------------------------------------------------------------
  // The delay
  // ---------------------------------------------------------------------

  type U64 = x: int | 0 <= x < WORD

  datatype RetryConfig = RetryConfig(
    maxRetries: nat,
    retryDelayMs: U64,
    backoffMultiplier: Float,
    maxRetryDelayMs: U64)

  function RawDelay(cfg: RetryConfig, attempt: nat, limit: real): Float {
    Times(cfg.retryDelayMs, Powf(cfg.backoffMultiplier, attempt, limit), limit)
  }

  function Capped(raw: Float, cap: nat): nat {
    var capped := Min(raw, Finite(cap as real));
    if !capped.Finite? || capped.value <= 0.0 then 0 else capped.value.Floor
  }

  // compute_delay_ms (src/async_task.rs:276-296).
  function ComputeDelayMs(cfg: RetryConfig, attempt: nat): nat {
    Capped(RawDelay(cfg, attempt, Limit()), cfg.maxRetryDelayMs)
  }

  function Clamped(raw: real, cap: nat): nat {
    var capped := if raw < cap as real then raw else cap as real;
    if capped <= 0.0 then 0 else capped.Floor
  }

  // The documented formula (src/async_task.rs:265), in real arithmetic.
  function Formula(delay: nat, multiplier: real, attempt: nat, cap: nat): nat {
    Clamped(Product(delay, Pow(multiplier, attempt)), cap)
  }

  function FormulaOf(cfg: RetryConfig, attempt: nat): nat
    requires cfg.backoffMultiplier.Finite?
  {
    Formula(cfg.retryDelayMs, cfg.backoffMultiplier.value, attempt, cfg.maxRetryDelayMs)
  }

  predicate PowerOverflows(cfg: RetryConfig, attempt: nat)
    requires cfg.backoffMultiplier.Finite?
  {
    Overflows(Pow(cfg.backoffMultiplier.value, attempt), Limit())
  }

  lemma FloorOfNat(n: nat)
    ensures (n as real).Floor == n
  {
  }

  lemma DelayWithinCap(cfg: RetryConfig, attempt: nat)
    ensures ComputeDelayMs(cfg, attempt) <= cfg.maxRetryDelayMs
  {
    FloorOfNat(cfg.maxRetryDelayMs);
  }

  // ---------------------------------------------------------------------
  // The limit
  // ---------------------------------------------------------------------

  function Pow2(n: nat): nat {
    if n == 0 then 1 else 2 * Pow2(n - 1)
  }

  lemma {:induction false} Pow2Grows(m: nat, n: nat)
    requires m <= n
    ensures 1 <= Pow2(m) <= Pow2(n)
  {
    if m < n {
      Pow2Grows(m, n - 1);
    } else if n > 0 {
      Pow2Grows(n - 1, n - 1);
    }
  }

  lemma Pow2Plus4(n: nat)
    ensures Pow2(n + 4) == 16 * Pow2(n)
  {
    assert Pow2(n + 4) == 2 * Pow2(n + 3) == 4 * Pow2(n + 2);
    assert Pow2(n + 2) == 2 * Pow2(n + 1) == 4 * Pow2(n);
  }

  lemma Pow2Plus16(n: nat)
    ensures Pow2(n + 16) == 0x1_0000 * Pow2(n)
  {
    Pow2Plus4(n);
    Pow2Plus4(n + 4);
    Pow2Plus4(n + 8);
    Pow2Plus4(n + 12);
  }

  lemma Pow2Plus64(n: nat)
    ensures Pow2(n + 64) == WORD * Pow2(n)
  {
    Pow2Plus16(n);
    Pow2Plus16(n + 16);
    Pow2Plus16(n + 32);
    Pow2Plus16(n + 48);
  }

  // The n-th power of 2^64.
  function Words(n: nat): nat {
    if n == 0 then 1 else WORD * Words(n - 1)
  }

  lemma {:induction false} WordsArePowers(n: nat)
    ensures Words(n) == Pow2(64 * n) >= 1
  {
    if n > 0 {
      WordsArePowers(n - 1);
      Pow2Plus64(64 * (n - 1));
    }
  }

  predicate IsHigh(limit: real) {
    limit >= WORD as real
  }

  const TOP_EXPONENT: nat := 1024

  lemma LimitIsHigh()
    ensures IsHigh(Limit())
  {
  }

  lemma LimitIsExact()
    ensures Limit() == ((WORD - 1024) * Words(15)) as real
  {
    assert Words(3) == WORD * Words(2) == WORD * (WORD * Words(1)) == WORD * (WORD * WORD);
    assert Words(6) == WORD * Words(5) == WORD * (WORD * Words(4)) == WORD * (WORD * (WORD * Words(3)));
    assert Words(9) == WORD * Words(8) == WORD * (WORD * Words(7)) == WORD * (WORD * (WORD * Words(6)));
    assert Words(12) == WORD * Words(11) == WORD * (WORD * Words(10)) == WORD * (WORD * (WORD * Words(9)));
    assert Words(15) == WORD * Words(14) == WORD * (WORD * Words(13)) == WORD * (WORD * (WORD * Words(12)));
  }

  // The limit lies between the two powers of two around it.
  lemma LimitIsBetween(n: nat)
    requires n == TOP_EXPONENT - 1
    ensures Pow2(n) as real < Limit() <= Pow2(n + 1) as real
  {
    LimitIsExact();
    WordsArePowers(15);
    WordsArePowers(16);
    assert Words(16) == WORD * Words(15);
  }

  lemma LimitAmongPowers(n: nat)
    ensures Pow2(n) as real >= Limit() <==> n >= TOP_EXPONENT
  {
    LimitIsBetween(TOP_EXPONENT - 1);
    if n < TOP_EXPONENT {
      Pow2Grows(n, TOP_EXPONENT - 1);
    } else {
      Pow2Grows(TOP_EXPONENT, n);
    }
  }

  lemma {:induction false} PowOfTwo(n: nat)
    ensures Pow(2.0, n) == Pow2(n) as real
  {
    if n > 0 {
      PowOfTwo(n - 1);
    }
  }

  lemma TwoOverflowsAt(n: nat)
    ensures Overflows(Pow(2.0, n), Limit()) <==> n >= TOP_EXPONENT
  {
    PowOfTwo(n);
    Pow2Grows(n, n);
    LimitAmongPowers(n);
    LimitIsHigh();
  }

  // ---------------------------------------------------------------------
  // Where the delay is not the formula
  // ---------------------------------------------------------------------

  // What overflows is above every cap, or below zero.
  lemma CappedIsClamped(raw: real, cap: U64, limit: real)
    requires IsHigh(limit)
    ensures Capped(Rounded(raw, limit), cap) == Clamped(raw, cap)
  {
    FloorOfNat(cap);
  }

  lemma SignOfProduct(f: real, p: real)
    requires f >= 0.0
    ensures if p > 0.0 then f * p >= 0.0 else f * p <= 0.0
  {
  }

  lemma OneMore(d: nat, p: real)
    requires d > 0
    ensures Product(d, p) == Product(d - 1, p) + p
  {
  }

  lemma Magnified(d: nat, p: real)
    requires d > 0
    ensures if p > 0.0 then Product(d, p) >= p else Product(d, p) <= p
  {
    SignOfProduct((d - 1) as real, p);
    OneMore(d, p);
  }

  lemma OverflowingProduct(d: nat, p: real, product: real, limit: real)
    requires IsHigh(limit) && d > 0 && Overflows(p, limit)
    requires if p > 0.0 then product >= p else product <= p
    ensures Times(d, Rounded(p, limit), limit) == Rounded(product, limit)
  {
  }

  // A power that overflows takes its product with anything but zero with it.
  lemma RoundedProduct(d: nat, p: real, limit: real)
    requires IsHigh(limit) && (d > 0 || !Overflows(p, limit))
    ensures Times(d, Rounded(p, limit), limit) == Rounded(Product(d, p), limit)
  {
    if Overflows(p, limit) {
      Magnified(d, p);
      OverflowingProduct(d, p, Product(d, p), limit);
    }
  }

  lemma PowerIsRounded(x: real, n: nat, limit: real)
    requires IsHigh(limit)
    ensures Powf(Finite(x), n, limit) == Rounded(Pow(x, n), limit)
  {
  }

  lemma TimesZero(p: real)
    ensures Product(0, p) == 0.0
  {
  }

  lemma ZeroTimesInfinity(cfg: RetryConfig, attempt: nat, limit: real)
    requires cfg.retryDelayMs == 0 && Powf(cfg.backoffMultiplier, attempt, limit).Infinite?
    ensures Capped(RawDelay(cfg, attempt, limit), cfg.maxRetryDelayMs) == cfg.maxRetryDelayMs
  {
    FloorOfNat(cfg.maxRetryDelayMs);
  }

  lemma ProductDelay(cfg: RetryConfig, attempt: nat, p: real, limit: real)
    requires IsHigh(limit) && Powf(cfg.backoffMultiplier, attempt, limit) == Rounded(p, limit)
    requires cfg.retryDelayMs > 0 || !Overflows(p, limit)
    ensures Capped(RawDelay(cfg, attempt, limit), cfg.maxRetryDelayMs) ==
            Clamped(Product(cfg.retryDelayMs, p), cfg.maxRetryDelayMs)
  {
    RoundedProduct(cfg.retryDelayMs, p, limit);
    assert RawDelay(cfg, attempt, limit) == Rounded(Product(cfg.retryDelayMs, p), limit);
    CappedIsClamped(Product(cfg.retryDelayMs, p), cfg.maxRetryDelayMs, limit);
  }

  lemma DelayByCases(cfg: RetryConfig, attempt: nat, limit: real)
    requires cfg.backoffMultiplier.Finite? && IsHigh(limit)
    ensures Capped(RawDelay(cfg, attempt, limit), cfg.maxRetryDelayMs) ==
            if cfg.retryDelayMs == 0 && Overflows(Pow(cfg.backoffMultiplier.value, attempt), limit) then
              cfg.maxRetryDelayMs
            else FormulaOf(cfg, attempt)
  {
    var p := Pow(cfg.backoffMultiplier.value, attempt);
    PowerIsRounded(cfg.backoffMultiplier.value, attempt, limit);
    if cfg.retryDelayMs == 0 && Overflows(p, limit) {
      ZeroTimesInfinity(cfg, attempt, limit);
    } else {
      ProductDelay(cfg, attempt, p, limit);
    }
  }

  lemma ZeroFormula(multiplier: real, attempt: nat, cap: nat)
    ensures Formula(0, multiplier, attempt, cap) == 0
  {
    TimesZero(Pow(multiplier, attempt));
  }

  // The delay is the documented formula exactly unless a base delay of zero
  // meets a power that overflows; then it is the cap and not zero.
  lemma DelayIsTheFormula(cfg: RetryConfig, attempt: nat)
    requires cfg.backoffMultiplier.Finite?
    ensures ComputeDelayMs(cfg, attempt) == FormulaOf(cfg, attempt) <==>
            !(cfg.retryDelayMs == 0 && cfg.maxRetryDelayMs > 0 && PowerOverflows(cfg, attempt))
    ensures cfg.retryDelayMs == 0 ==>
      FormulaOf(cfg, attempt) == 0
      && ComputeDelayMs(cfg, attempt) == if PowerOverflows(cfg, attempt) then cfg.maxRetryDelayMs else 0
  {
    LimitIsHigh();
    DelayByCases(cfg, attempt, Limit());
    ZeroFormula(cfg.backoffMultiplier.value, attempt, cfg.maxRetryDelayMs);
  }

  // When the product is a NaN, and that it then gives way to the cap.
  lemma NaNTakesTheCap(cfg: RetryConfig, attempt: nat)
    ensures RawDelay(cfg, attempt, Limit()).NaN? <==>
            || (attempt > 0 && cfg.backoffMultiplier.NaN?)
            || (cfg.retryDelayMs == 0 && Powf(cfg.backoffMultiplier, attempt, Limit()).Infinite?)
    ensures RawDelay(cfg, attempt, Limit()).NaN? ==> ComputeDelayMs(cfg, attempt) == cfg.maxRetryDelayMs
  {
    FloorOfNat(cfg.maxRetryDelayMs);
  }

  // An infinite multiplier means no factor on the first attempt and the cap on
  // the others, but none for a negative one at an odd attempt.
  lemma InfiniteMultiplier(cfg: RetryConfig, attempt: nat)
    requires cfg.backoffMultiplier.Infinite?
    ensures attempt > 0 ==>
      ComputeDelayMs(cfg, attempt) ==
      if cfg.retryDelayMs > 0 && cfg.backoffMultiplier.negative && attempt % 2 == 1 then 0 else cfg.maxRetryDelayMs
    ensures attempt == 0 ==>
      ComputeDelayMs(cfg, attempt) ==
      if cfg.retryDelayMs < cfg.maxRetryDelayMs then cfg.retryDelayMs else cfg.maxRetryDelayMs
  {
    FloorOfNat(cfg.maxRetryDelayMs);
    FloorOfNat(cfg.retryDelayMs);
    if attempt == 0 {
      LimitIsHigh();
      assert Product(cfg.retryDelayMs, 1.0) == cfg.retryDelayMs as real;
    }
  }

  // A base delay of zero under the default multiplier: no delay up to attempt
  // 1023, and the whole cap from attempt 1024 on.
  lemma ZeroDelaySleepsTheCap(cfg: RetryConfig, attempt: nat)
    requires cfg.retryDelayMs == 0 && cfg.backoffMultiplier == Finite(2.0)
    ensures ComputeDelayMs(cfg, attempt) == if attempt >= 1024 then cfg.maxRetryDelayMs else 0
  {
    DelayIsTheFormula(cfg, attempt);
    TwoOverflowsAt(attempt);
  }

  // ---------------------------------------------------------------------
  // How the delay moves with the attempt
  // ---------------------------------------------------------------------

  lemma {:induction false} PowGrows(base: real, m: nat, n: nat)
    requires base >= 1.0 && m <= n
    ensures 1.0 <= Pow(base, m) <= Pow(base, n)
  {
    if m < n {
      PowGrows(base, m, n - 1);
      TimesAtLeast(base, Pow(base, n - 1));
    } else if n > 0 {
      PowGrows(base, n - 1, n - 1);
      TimesAtLeast(base, Pow(base, n - 1));
    }
  }

  lemma TimesAtLeast(base: real, x: real)
    requires base >= 1.0 && x >= 0.0
    ensures base * x >= x
  {
    assert (base - 1.0) * x >= 0.0;
  }

  lemma ClampedGrows(a: real, b: real, cap: nat)
    requires a <= b
    ensures Clamped(a, cap) <= Clamped(b, cap)
  {
  }

  lemma ProductGrows(d: nat, p: real, q: real)
    requires p <= q
    ensures Product(d, p) <= Product(d, q)
  {
    assert d as real * (q - p) >= 0.0;
  }

  lemma FormulaGrows(d: nat, base: real, m: nat, n: nat, cap: nat)
    requires base >= 1.0 && m <= n
    ensures Formula(d, base, m, cap) <= Formula(d, base, n, cap)
  {
    PowGrows(base, m, n);
    ProductGrows(d, Pow(base, m), Pow(base, n));
    ClampedGrows(Product(d, Pow(base, m)), Product(d, Pow(base, n)), cap);
  }

  // With a multiplier of at least one the delay never shrinks, an overflow or
  // an infinite multiplier included.
  lemma DelayGrows(cfg: RetryConfig, m: nat, n: nat)
    requires m <= n
    requires
      || (cfg.backoffMultiplier.Finite? && cfg.backoffMultiplier.value >= 1.0)
      || cfg.backoffMultiplier == Infinite(false)
    ensures ComputeDelayMs(cfg, m) <= ComputeDelayMs(cfg, n)
  {
    if cfg.backoffMultiplier.Finite? {
      LimitIsHigh();
      PowGrows(cfg.backoffMultiplier.value, m, n);
      FormulaGrows(cfg.retryDelayMs, cfg.backoffMultiplier.value, m, n, cfg.maxRetryDelayMs);
      DelayIsTheFormula(cfg, m);
      DelayIsTheFormula(cfg, n);
    } else if n > 0 {
      FloorOfNat(cfg.maxRetryDelayMs);
      DelayWithinCap(cfg, m);
    }
  }

  function Least(a: nat, b: nat): nat {
    if a < b then a else b
  }

  // A product that is a whole number is clamped, not rounded.
  lemma WholeFormula(d: nat, base: real, attempt: nat, cap: nat, raw: nat)
    requires Product(d, Pow(base, attempt)) == raw as real
    ensures Formula(d, base, attempt, cap) == Least(raw, cap)
  {
    FloorOfNat(raw);
    FloorOfNat(cap);
  }

  lemma {:induction false} PowOfOne(n: nat)
    ensures Pow(1.0, n) == 1.0
  {
    if n > 0 {
      PowOfOne(n - 1);
    }
  }

  // A multiplier of one means a constant delay.
  lemma ConstantDelay(cfg: RetryConfig, attempt: nat)
    requires cfg.backoffMultiplier == Finite(1.0)
    ensures ComputeDelayMs(cfg, attempt) == Least(cfg.retryDelayMs, cfg.maxRetryDelayMs)
  {
    PowOfOne(attempt);
    LimitIsHigh();
    DelayIsTheFormula(cfg, attempt);
    WholeFormula(cfg.retryDelayMs, 1.0, attempt, cfg.maxRetryDelayMs, cfg.retryDelayMs);
  }

  lemma RealProduct(d: nat, p: nat)
    ensures Product(d, p as real) == (d * p) as real
  {
  }

  lemma FormulaDoubles(d: nat, attempt: nat, cap: nat)
    ensures Formula(d, 2.0, attempt, cap) == Least(d * Pow2(attempt), cap)
  {
    PowOfTwo(attempt);
    RealProduct(d, Pow2(attempt));
    WholeFormula(d, 2.0, attempt, cap, d * Pow2(attempt));
  }

  // The delays under a multiplier of two, all of them.
  lemma DoublingDelay(cfg: RetryConfig, attempt: nat)
    requires cfg.backoffMultiplier == Finite(2.0)
    ensures ComputeDelayMs(cfg, attempt) ==
            if cfg.retryDelayMs == 0 && attempt >= TOP_EXPONENT then cfg.maxRetryDelayMs
            else Least(cfg.retryDelayMs * Pow2(attempt), cfg.maxRetryDelayMs)
  {
    if cfg.retryDelayMs == 0 {
      ZeroDelaySleepsTheCap(cfg, attempt);
    } else {
      DelayIsTheFormula(cfg, attempt);
      FormulaDoubles(cfg.retryDelayMs, attempt, cfg.maxRetryDelayMs);
    }
  }

  lemma TwiceTheProduct(d: nat, p: nat)
    ensures d * (2 * p) == 2 * (d * p)
  {
  }

  lemma TwiceTheLeast(x: nat, cap: nat)
    ensures Least(2 * x, cap) == Least(2 * Least(x, cap), cap)
  {
  }

  // A multiplier of two doubles the delay from attempt to attempt, up to the
  // cap; it fails at the one attempt at which a base delay of zero jumps.
  lemma DelayDoubles(cfg: RetryConfig, attempt: nat)
    requires cfg.backoffMultiplier == Finite(2.0)
    ensures ComputeDelayMs(cfg, 0) == Least(cfg.retryDelayMs, cfg.maxRetryDelayMs)
    ensures ComputeDelayMs(cfg, attempt + 1) == Least(2 * ComputeDelayMs(cfg, attempt), cfg.maxRetryDelayMs) <==>
            !(cfg.retryDelayMs == 0 && cfg.maxRetryDelayMs > 0 && attempt == 1023)
  {
    DoublingDelay(cfg, 0);
    DoublingDelay(cfg, attempt);
    DoublingDelay(cfg, attempt + 1);
    TwiceTheProduct(cfg.retryDelayMs, Pow2(attempt));
    TwiceTheLeast(cfg.retryDelayMs * Pow2(attempt), cfg.maxRetryDelayMs);
  }
}
