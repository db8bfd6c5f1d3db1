/** The count-to-millivolt arithmetic in 32 bits, the configuration bands that keep it inside
    them, and the boot-time migration. */
module VoltageMath {
  import opened Bytes

  const WORD := 0x1_0000_0000
  const BANDGAP_MIN_MV := 1000
  const BANDGAP_MAX_MV := 1200
  const BANDGAP_NOMINAL_MV := 1100
  const DIVIDER_SUM_MAX: nat := 0xFFFF_FFFF / BANDGAP_MAX_MV

  /** The largest scale factor for an ADC of the given full scale. */
  function ScaleMax(fullScale: nat): nat
    requires fullScale > 0
  {
    0xFFFF_FFFF / fullScale
  }

  // ----- 32-bit arithmetic -----

  function Add32(a: uint32, b: uint32): uint32 {
    (a + b) % WORD
  }

  function Mul32(a: uint32, b: uint32): uint32 {
    (a * b) % WORD
  }

  function Div32(a: uint32, b: uint32): uint32
    requires b > 0
  {
    DivAtMost(a, b);
    a / b
  }

  lemma DivAtMost(a: nat, b: nat)
    requires b > 0
    ensures 0 <= a / b <= a
  {
    MulAtMost(1, a / b, b, a / b);
  }

  function SaturateU16(v: uint32): uint16 {
    if v > 0xFFFF then 0xFFFF else v
  }

  /** The plausibility test as computed, wrap-around included. */
  predicate Plausible(r1: uint32, r2: uint32, bandgapMv: uint32, fullScale: nat)
    requires fullScale > 0
  {
    var sum := Add32(r1, r2);
    && r2 != 0
    && BANDGAP_MIN_MV <= bandgapMv <= BANDGAP_MAX_MV
    && !(sum < r1) && sum <= DIVIDER_SUM_MAX
    && Div32(Mul32(bandgapMv, sum), r2) <= ScaleMax(fullScale)
  }

  /** The conversion as computed, wrap-around included. */
  function ScaleVoltageMv(adc: uint32, bandgapAdc: uint32, r1: uint32, r2: uint32, bandgapMv: uint32, fullScale: nat): uint16
    requires fullScale > 0
  {
    if bandgapAdc == 0 || !Plausible(r1, r2, bandgapMv, fullScale) then 0
    else
      var k := Div32(Mul32(bandgapMv, Add32(r1, r2)), r2);
      SaturateU16(Div32(Add32(Mul32(adc, k), bandgapAdc / 2), bandgapAdc))
  }

  // ----- The exact values -----

  /** The folded scale factor, without a word size. */
  function FoldedScale(r1: nat, r2: nat, bandgapMv: nat): nat
    requires r2 > 0
  {
    bandgapMv * (r1 + r2) / r2
  }

  function Folded(adc: nat, bandgapAdc: nat, r1: nat, r2: nat, bandgapMv: nat): nat
    requires r2 > 0 && bandgapAdc > 0
  {
    (adc * FoldedScale(r1, r2, bandgapMv) + bandgapAdc / 2) / bandgapAdc
  }

  /** adc * bandgapMv * (r1 + r2) / (bandgapAdc * r2), rounded to nearest. */
  function Exact(adc: nat, bandgapAdc: nat, r1: nat, r2: nat, bandgapMv: nat): nat
    requires r2 > 0 && bandgapAdc > 0
  {
    PositiveProduct(bandgapAdc, r2);
    (2 * (adc * (bandgapMv * (r1 + r2))) + bandgapAdc * r2) / (2 * (bandgapAdc * r2))
  }

  lemma PositiveProduct(a: nat, b: nat)
    requires a > 0 && b > 0
    ensures a * b > 0
  {
  }

  function Saturated(v: nat): uint16 {
    if v > 0xFFFF then 0xFFFF else v
  }

  // ----- No overflow -----

  lemma MulAtMost(a: nat, b: nat, c: nat, d: nat)
    requires a <= c && b <= d
    ensures a * b <= c * d
  {
    assert a * b <= c * b;
    assert c * b <= c * d;
  }

  /** For a plausible calibration the wrapped sum and product are the true ones. */
  lemma PlausibleDoesNotWrap(r1: uint32, r2: uint32, bandgapMv: uint32, fullScale: nat)
    requires fullScale > 0 && Plausible(r1, r2, bandgapMv, fullScale)
    ensures Add32(r1, r2) == r1 + r2
    ensures Mul32(bandgapMv, r1 + r2) == bandgapMv * (r1 + r2) < WORD
    ensures FoldedScale(r1, r2, bandgapMv) <= ScaleMax(fullScale)
  {
    SumDoesNotWrap(r1, r2);
    MulAtMost(bandgapMv, r1 + r2, BANDGAP_MAX_MV, DIVIDER_SUM_MAX);
    SmallProduct(bandgapMv, r1 + r2);
  }

  /** A 32-bit sum that is not below its first term has not wrapped. */
  lemma SumDoesNotWrap(r1: uint32, r2: uint32)
    requires Add32(r1, r2) >= r1
    ensures Add32(r1, r2) == r1 + r2
  {
  }

  lemma SmallProduct(a: uint32, b: uint32)
    requires a * b < WORD
    ensures Mul32(a, b) == a * b
  {
  }

  /** No 32-bit intermediate of the conversion overflows, for any plausible calibration and any
      two ADC counts up to full scale. */
  lemma ConversionDoesNotWrap(
    adc: uint32, bandgapAdc: uint32, r1: uint32, r2: uint32, bandgapMv: uint32, fullScale: nat)
    requires fullScale == 1024 || fullScale == 4096
    requires Plausible(r1, r2, bandgapMv, fullScale)
    requires adc <= fullScale && 0 < bandgapAdc <= fullScale
    ensures var k := FoldedScale(r1, r2, bandgapMv);
            k < WORD && adc * k + bandgapAdc / 2 < WORD
    ensures ScaleVoltageMv(adc, bandgapAdc, r1, r2, bandgapMv, fullScale)
         == Saturated(Folded(adc, bandgapAdc, r1, r2, bandgapMv))
  {
    PlausibleDoesNotWrap(r1, r2, bandgapMv, fullScale);
    var k := FoldedScale(r1, r2, bandgapMv);
    MulAtMost(adc, k, fullScale, ScaleMax(fullScale));
    assert 1024 * ScaleMax(1024) + 512 < WORD && 4096 * ScaleMax(4096) + 2048 < WORD;
    assert Mul32(adc, k) == adc * k;
    assert Add32(Mul32(adc, k), bandgapAdc / 2) == adc * k + bandgapAdc / 2;
  }

  // ----- The error of folding -----

  /** Dividing twice rounds down at most as far as dividing once. */
  lemma FloorOfHalf(n: nat, b: nat, q: nat)
    requires b > 0 && q == (n + b / 2) / b
    ensures b * q <= n + b / 2 < b * q + b
  {
  }

  lemma ScaledFloor(p: nat, r: nat, k: nat)
    requires r > 0 && k == p / r
    ensures k * r <= p < k * r + r
  {
  }

  lemma Regroup(adc: nat, k: nat, r: nat, b: nat)
    ensures adc * (k * r) == (adc * k) * r
    ensures adc * (k * r + r) == (adc * k) * r + adc * r
    ensures 2 * (b * r) == (2 * b) * r
  {
    assert adc * (k * r) == (adc * k) * r;
    assert adc * (k * r + r) == adc * (k * r) + adc * r;
  }

  /** The folded form never reads high. */
  lemma FoldedNeverExceeds(adc: nat, bandgapAdc: nat, r1: nat, r2: nat, bandgapMv: nat)
    requires r2 > 0 && bandgapAdc > 0
    ensures Folded(adc, bandgapAdc, r1, r2, bandgapMv) <= Exact(adc, bandgapAdc, r1, r2, bandgapMv)
  {
    var p, b := bandgapMv * (r1 + r2), bandgapAdc;
    var k := FoldedScale(r1, r2, bandgapMv);
    var n := adc * k;
    var q := Folded(adc, b, r1, r2, bandgapMv);
    ScaledFloor(p, r2, k);
    FloorOfHalf(n, b, q);
    Regroup(adc, k, r2, b);
    MulAtMost(adc, k * r2, adc, p);
    assert n * r2 <= adc * p;
    assert 2 * (b * q) <= 2 * n + b;
    MulAtMost(2 * (b * q), r2, 2 * n + b, r2);
    LowerQuotient(2 * (adc * p) + b * r2, 2 * (b * r2), q, n, b, r2, adc * p);
  }

  lemma LowerQuotient(num: nat, den: nat, q: nat, n: nat, b: nat, r: nat, ap: nat)
    requires b > 0 && r > 0 && den == 2 * (b * r) && den > 0 && num == 2 * ap + b * r
    requires n * r <= ap && 2 * (b * q) * r <= (2 * n + b) * r
    ensures q <= num / den
  {
    assert (2 * n + b) * r == 2 * (n * r) + b * r;
    assert 2 * (b * q) * r == den * q;
    assert den * q <= num;
    QuotientAtLeast(num, den, q);
  }

  lemma QuotientAtLeast(num: nat, den: nat, q: nat)
    requires den > 0 && den * q <= num
    ensures q <= num / den
  {
    if num / den < q {
      assert num < den * (num / den) + den;
      assert den * (num / den + 1) == den * (num / den) + den;
      MulAtMost(den, num / den + 1, den, q);
    }
  }

  lemma QuotientBelow(num: nat, den: nat, q: nat)
    requires den > 0 && num < den * q
    ensures num / den < q
  {
    if num / den >= q {
      MulAtMost(den, q, den, num / den);
    }
  }

  function CeilDiv(a: nat, b: nat): nat
    requires b > 0
  {
    (a + b - 1) / b
  }

  lemma CeilDivCovers(a: nat, b: nat)
    requires b > 0
    ensures a <= b * CeilDiv(a, b)
  {
    var m := a + b - 1;
    assert m < b * (m / b) + b;
  }

  /** The folded form reads low by at most ceil(adc / bandgapAdc) millivolts. */
  lemma FoldedFallsShortBy(adc: nat, bandgapAdc: nat, r1: nat, r2: nat, bandgapMv: nat)
    requires r2 > 0 && bandgapAdc > 0
    ensures Exact(adc, bandgapAdc, r1, r2, bandgapMv)
         <= Folded(adc, bandgapAdc, r1, r2, bandgapMv) + CeilDiv(adc, bandgapAdc)
  {
    var p, b := bandgapMv * (r1 + r2), bandgapAdc;
    var k := FoldedScale(r1, r2, bandgapMv);
    var n := adc * k;
    var q := Folded(adc, b, r1, r2, bandgapMv);
    var c := CeilDiv(adc, b);
    ScaledFloor(p, r2, k);
    FloorOfHalf(n, b, q);
    CeilDivCovers(adc, b);
    Regroup(adc, k, r2, b);
    MulAtMost(adc, p, adc, k * r2 + r2);
    assert adc * p <= n * r2 + adc * r2;
    assert n + adc + 1 <= b * q + b - b / 2 + b * c;
    UpperQuotient(adc, p, n, b, r2, q, c);
  }

  lemma UpperQuotient(adc: nat, p: nat, n: nat, b: nat, r: nat, q: nat, c: nat)
    requires b > 0 && r > 0 && 2 * (b * r) > 0
    requires adc * p <= n * r + adc * r
    requires n + adc + 1 <= b * q + b - b / 2 + b * c
    ensures (2 * (adc * p) + b * r) / (2 * (b * r)) <= q + c
  {
    var s := q + c + 1;
    SplitProduct(b, q, c);
    BelowScaled(n + adc, b, r, s);
    SumTimes(n, adc, r);
    QuotientBelow(2 * (adc * p) + b * r, 2 * (b * r), s);
  }

  lemma SplitProduct(b: nat, q: nat, c: nat)
    ensures b * (q + c + 1) == b * q + b * c + b
  {
  }

  lemma SumTimes(n: nat, adc: nat, r: nat)
    ensures (n + adc) * r == n * r + adc * r
  {
  }

  /** A bound on m, scaled by r. */
  lemma BelowScaled(m: nat, b: nat, r: nat, s: nat)
    requires r > 0 && 2 * m + b + 1 <= 2 * (b * s)
    ensures 2 * (m * r) + b * r < 2 * (b * r) * s
  {
    MulAtMost(2 * m + b + 1, r, 2 * (b * s), r);
    TimesSum(m, b, r);
    SwapFactors(b, s, r);
  }

  lemma TimesSum(m: nat, b: nat, r: nat)
    ensures (2 * m + b + 1) * r == 2 * (m * r) + b * r + r
  {
  }

  lemma SwapFactors(b: nat, s: nat, r: nat)
    ensures 2 * (b * s) * r == 2 * (b * r) * s
  {
    assert (b * s) * r == (b * r) * s;
  }

  /** What the firmware reports: never above the exact rounded value, and below it by no more
      than ceil(adc / bandgapAdc). */
  lemma ReadingWithinBound(
    adc: uint32, bandgapAdc: uint32, r1: uint32, r2: uint32, bandgapMv: uint32, fullScale: nat)
    requires fullScale == 1024 || fullScale == 4096
    requires Plausible(r1, r2, bandgapMv, fullScale)
    requires adc <= fullScale && 0 < bandgapAdc <= fullScale
    ensures var reading := ScaleVoltageMv(adc, bandgapAdc, r1, r2, bandgapMv, fullScale);
            var exact := Exact(adc, bandgapAdc, r1, r2, bandgapMv);
            reading <= Saturated(exact) <= reading + CeilDiv(adc, bandgapAdc)
  {
    ConversionDoesNotWrap(adc, bandgapAdc, r1, r2, bandgapMv, fullScale);
    FoldedNeverExceeds(adc, bandgapAdc, r1, r2, bandgapMv);
    FoldedFallsShortBy(adc, bandgapAdc, r1, r2, bandgapMv);
  }
}
