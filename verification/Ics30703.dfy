// The ICS307-03 solver of the FSCC cards: the search half of GetICS30703Data.
//
// For a growing error bound (ppm) the search runs over a reference divider r, an output
// divider od, a VCO divider v, and a loop filter (a resistor and a pump current), and
// stops at the first combination that meets every rule of the part.  The doubles of the
// routine are exact reals here.

module Ics30703 {

  import opened OutputDivider
  import Nonlinear

  datatype Option<+T> = None | Some(value: T)

  /** A combination the search can stop at; rs and icp are positions in the two tables. */
  datatype Candidate = Candidate(r: nat, od: nat, v: nat, rs: nat, icp: nat)

  const INPUT_FREQ: real := 24000000.0
  const MIN_V: nat := 12
  const MAX_V: nat := 2055
  const MAX_R: nat := 1200

  // ---------------------------------------------------------------- the rules

  function Abs(x: real): real {
    if x < 0.0 then -x else x
  }

  /** The cast of a double to an int, which drops the fraction. */
  function Truncate(x: real): int {
    if x >= 0.0 then x.Floor else -((-x).Floor)
  }

  function AllowableError(desired: nat, ppm: nat): real {
    (ppm * desired) as real / 1000000.0
  }

  function VcoFrequency(r: nat, v: nat): real
    requires r > 0
  {
    INPUT_FREQ * (v as real / r as real)
  }

  function Frequency(r: nat, od: nat, v: nat): real
    requires r > 0 && od > 0
  {
    Nonlinear.Positive(r, od);
    INPUT_FREQ * (v as real / (r as real * od as real))
  }

  /** Rule 2: the reference frequency the phase detector sees. */
  predicate ReferenceInRange(r: nat)
    requires r > 0
  {
    20000.0 <= INPUT_FREQ / r as real <= 100000000.0
  }

  function MaxVco(od: nat): real {
    if od == 2 then 540000000.0
    else if od == 3 then 720000000.0
    else if 38 <= od <= 1029 then 570000000.0
    else 730000000.0
  }

  /** Rule 1: the VCO frequency, whose upper limit depends on the output divider. */
  predicate VcoInRange(r: nat, od: nat, v: nat)
    requires r > 0
  {
    90000000.0 <= VcoFrequency(r, v) <= MaxVco(od)
  }

  predicate WithinError(desired: nat, ppm: nat, r: nat, od: nat, v: nat)
    requires r > 0 && od > 0
  {
    Abs(Frequency(r, od, v) - desired as real) <= AllowableError(desired, ppm)
  }

  /** The loop filter resistors, in the order they are tried. */
  function Resistor(i: nat): nat
    requires i < 4
  {
    [64000, 52000, 16000, 4000][i]
  }

  /** The charge pump currents, in units of 10 nA, in the order they are tried. */
  function Current(j: nat): nat
    requires j < 20
  {
    [125, 250, 375, 500, 625, 750, 875, 1000, 1125, 1250,
     1500, 1750, 1875, 2000, 2250, 2500, 2625, 3000, 3500, 4000][j]
  }

  function LoopBandwidth(v: nat, i: nat, j: nat): real
    requires v > 0 && i < 4 && j < 20
  {
    (Resistor(i) as real * (Current(j) as real / 100000000.0) * 310000000.0) / (2.0 * 3.14159 * v as real)
  }

  lemma BandwidthPositive(v: nat, i: nat, j: nat)
    requires v > 0 && i < 4 && j < 20
    ensures LoopBandwidth(v, i, j) > 0.0
  {
  }

  /** The ratio of reference frequency to bandwidth, in tenths, rounded up as the routine does. */
  function RatioTenths(r: nat, v: nat, i: nat, j: nat): int
    requires r > 0 && v > 0 && i < 4 && j < 20
  {
    BandwidthPositive(v, i, j);
    var tenths := (INPUT_FREQ / r as real) / LoopBandwidth(v, i, j) * 10.0;
    if tenths - Truncate(tenths) as real >= 0.0 then Truncate(tenths) + 1 else Truncate(tenths)
  }

  /** The square of the damping factor. */
  function DampingSquared(v: nat, i: nat, j: nat): real
    requires v > 0 && i < 4 && j < 20
  {
    (Resistor(i) as real / 2.0) * (Resistor(i) as real / 2.0)
      * ((Current(j) as real / 100000000.0) * 0.093 / v as real)
  }

  /** The ratio is between 7 and 30, the damping factor between 0.2 and 2. */
  predicate FilterOk(r: nat, v: nat, i: nat, j: nat)
    requires r > 0 && v > 0 && i < 4 && j < 20
  {
    && 7.0 <= RatioTenths(r, v, i, j) as real / 10.0 <= 30.0
    && 0.04 <= DampingSquared(v, i, j) <= 4.0
  }

  predicate InDomain(c: Candidate) {
    1 <= c.r <= MAX_R && OnGrid(c.od) && MIN_V <= c.v <= MAX_V && c.rs < 4 && c.icp < 20
  }

  /** The candidate meets every rule, and the target to within ppm. */
  predicate Feasible(desired: nat, ppm: nat, c: Candidate) {
    && InDomain(c)
    && ReferenceInRange(c.r)
    && VcoInRange(c.r, c.od, c.v)
    && WithinError(desired, ppm, c.r, c.od, c.v)
    && FilterOk(c.r, c.v, c.rs, c.icp)
  }

  // ---------------------------------------------------------------- the pruned start

  /** The exact value the start of the v loop is cut from. */
  function StartValue(desired: nat, ppm: nat, r: nat, od: nat): real {
    (desired as real - AllowableError(desired, ppm)) * r as real * od as real / INPUT_FREQ
  }

  /** The start of the v loop: cast to int, stored as a 32-bit unsigned, clamped. */
  function StartV(desired: nat, ppm: nat, r: nat, od: nat): nat {
    var start := Truncate(StartValue(desired, ppm, r, od));
    var unsigned := if start < 0 then start + 0x1_0000_0000 else start;
    if unsigned < MIN_V then MIN_V else if unsigned > MAX_V then MAX_V else unsigned
  }

  /** The loop over v does not start above the candidate. */
  predicate Scanned(desired: nat, ppm: nat, c: Candidate) {
    StartV(desired, ppm, c.r, c.od) <= c.v
  }

  /** The candidates the search can stop at. */
  predicate Live(desired: nat, ppm: nat, c: Candidate) {
    Feasible(desired, ppm, c) && Scanned(desired, ppm, c)
  }

  /** The order of the loops: r up, od down, v up, then the two tables in order. */
  predicate Before(a: Candidate, b: Candidate) {
    || a.r < b.r
    || (a.r == b.r && a.od > b.od)
    || (a.r == b.r && a.od == b.od && a.v < b.v)
    || (a.r == b.r && a.od == b.od && a.v == b.v && (a.rs < b.rs || (a.rs == b.rs && a.icp < b.icp)))
  }

  datatype Scope = Everywhere | Row(r: nat) | Cell(r: nat, od: nat)

  predicate InScope(scope: Scope, c: Candidate) {
    match scope
    case Everywhere => true
    case Row(r) => c.r == r
    case Cell(r, od) => c.r == r && c.od == od
  }

  /** `found` is the first live candidate of the scope, or there is none. */
  ghost predicate FirstIn(desired: nat, ppm: nat, scope: Scope, found: Option<Candidate>) {
    match found
    case None => forall c: Candidate :: InScope(scope, c) ==> !Live(desired, ppm, c)
    case Some(b) =>
      && InScope(scope, b) && Live(desired, ppm, b)
      && forall c: Candidate :: InScope(scope, c) && Live(desired, ppm, c) && c != b ==> Before(b, c)
  }

  // ---------------------------------------------------------------- frequencies

  lemma FrequencyScaled(r: nat, od: nat, v: nat)
    requires r > 0 && od > 0
    ensures r as real * od as real > 0.0
    ensures Frequency(r, od, v) * (r as real * od as real) == INPUT_FREQ * v as real
  {
    Nonlinear.RealPositive(r as real, od as real);
    Nonlinear.QuotientTimes(v as real, r as real * od as real);
    var q := v as real / (r as real * od as real);
    assert INPUT_FREQ * q * (r as real * od as real) == INPUT_FREQ * (q * (r as real * od as real));
  }

  lemma FrequencyIsVcoOverDivider(r: nat, od: nat, v: nat)
    requires r > 0 && od > 0
    ensures Frequency(r, od, v) * od as real == VcoFrequency(r, v)
  {
    FrequencyScaled(r, od, v);
    Nonlinear.QuotientTimes(v as real, r as real);
    var f, vco, x, y := Frequency(r, od, v), VcoFrequency(r, v), r as real, od as real;
    assert vco * x == INPUT_FREQ * v as real by {
      var q := v as real / x;
      assert INPUT_FREQ * q * x == INPUT_FREQ * (q * x);
    }
    assert (f * y) * x == f * (x * y);
    Nonlinear.RealCancel(f * y, vco, x);
  }

  lemma FasterWithV(r: nat, od: nat, v: nat, w: nat)
    requires r > 0 && od > 0 && v <= w
    ensures Frequency(r, od, v) <= Frequency(r, od, w)
  {
    FrequencyScaled(r, od, v);
    FrequencyScaled(r, od, w);
    Nonlinear.RealCancelAtMost(Frequency(r, od, v), Frequency(r, od, w), r as real * od as real);
  }

  lemma VcoLimit(od: nat)
    requires 2 <= od <= 8232
    ensures 2.0 <= od as real <= 8232.0 && MaxVco(od) <= 270000000.0 * od as real
  {
  }

  lemma VcoAbove(f: real, y: real)
    requires 2.0 <= y <= 8232.0 && 90000000.0 <= f * y
    ensures 90000000.0 <= f * 8232.0
    ensures f > 0.0
  {
    Nonlinear.SignOfProduct(f, y);
    Nonlinear.RealAtMost(y, 8232.0, f);
    assert y * f == f * y;
  }

  lemma VcoBelow(f: real, y: real, vco: real)
    requires y > 0.0 && f * y == vco <= 270000000.0 * y
    ensures f <= 270000000.0
  {
    if f > 270000000.0 {
      Nonlinear.RealMonotone(270000000.0, f, y);
    }
  }

  lemma DividedVco(f: real, y: real, vco: real)
    requires 2.0 <= y <= 8232.0 && f * y == vco && 90000000.0 <= vco <= 270000000.0 * y
    ensures 0.0 < f <= 270000000.0 && 90000000.0 <= f * 8232.0
  {
    VcoAbove(f, y);
    VcoBelow(f, y, vco);
  }

  /**
   * What the part can put out.  The upper end is the documented 270 MHz; the lower end
   * is 90 MHz / 8232, some 10.9 kHz, where the documentation promises 200 Hz.
   */
  lemma FrequencyEnvelope(desired: nat, ppm: nat, c: Candidate)
    requires Feasible(desired, ppm, c)
    ensures 0.0 < Frequency(c.r, c.od, c.v) <= 270000000.0 && 90000000.0 <= Frequency(c.r, c.od, c.v) * 8232.0
  {
    hide WithinError, FilterOk, Frequency, VcoFrequency, ReferenceInRange;
    AtLeastTwo(c.od);
    FrequencyIsVcoOverDivider(c.r, c.od, c.v);
    VcoLimit(c.od);
    DividedVco(Frequency(c.r, c.od, c.v), c.od as real, VcoFrequency(c.r, c.v));
  }

  // ---------------------------------------------------------------- the error bound

  /** The error test in whole numbers: |24e6 v - f r od| 1e6 <= ppm f r od. */
  predicate WithinErrorWhole(desired: nat, ppm: nat, r: nat, od: nat, v: nat) {
    var miss := 24000000 * v - desired * (r * od);
    (if miss < 0 then -miss else miss) * 1000000 <= (ppm * desired) * (r * od)
  }

  lemma WholeTest(miss: int, bound: nat, scaled: real)
    requires scaled * 1000000.0 == bound as real
    ensures Abs(miss as real) <= scaled <==> (if miss < 0 then -miss else miss) * 1000000 <= bound
  {
  }

  lemma ScaledBound(a: real, p: real, n: nat, m: nat)
    requires a * 1000000.0 == n as real && p == m as real
    ensures a * p * 1000000.0 == (n * m) as real
  {
    assert a * p * 1000000.0 == (a * 1000000.0) * p;
  }

  lemma BoundScaled(desired: nat, ppm: nat, r: nat, od: nat)
    ensures AllowableError(desired, ppm) * (r as real * od as real) * 1000000.0 == ((ppm * desired) * (r * od)) as real
  {
    assert r as real * od as real == (r * od) as real;
    ScaledBound(AllowableError(desired, ppm), r as real * od as real, ppm * desired, r * od);
  }

  lemma ScaledAbs(e: real, p: real)
    requires p > 0.0
    ensures Abs(e) * p == Abs(e * p)
  {
    Nonlinear.SignOfProduct(e, p);
    assert (-e) * p == -(e * p);
  }

  lemma ScaledMiss(f: real, desired: nat, r: nat, od: nat, v: nat)
    requires r > 0 && od > 0 && f * (r as real * od as real) == INPUT_FREQ * v as real
    ensures Abs(f - desired as real) * (r as real * od as real) == Abs((24000000 * v - desired * (r * od)) as real)
  {
    var e, p := f - desired as real, r as real * od as real;
    assert p == (r * od) as real;
    Nonlinear.RealPositive(r as real, od as real);
    assert desired as real * p == (desired * (r * od)) as real;
    assert e * p == f * p - desired as real * p;
    ScaledAbs(e, p);
  }

  lemma ErrorTestWhole(desired: nat, ppm: nat, r: nat, od: nat, v: nat)
    requires r > 0 && od > 0
    ensures WithinError(desired, ppm, r, od, v) <==> WithinErrorWhole(desired, ppm, r, od, v)
  {
    hide Frequency, AllowableError, Abs;
    FrequencyScaled(r, od, v);
    var p := r as real * od as real;
    ScaledMiss(Frequency(r, od, v), desired, r, od, v);
    BoundScaled(desired, ppm, r, od);
    Nonlinear.RealCompare(Abs(Frequency(r, od, v) - desired as real), AllowableError(desired, ppm), p);
    WholeTest(24000000 * v - desired * (r * od), (ppm * desired) * (r * od), AllowableError(desired, ppm) * p);
  }

  lemma BoundGrows(desired: nat, p: nat, q: nat)
    requires p <= q
    ensures 0.0 <= AllowableError(desired, p) <= AllowableError(desired, q)
  {
    Nonlinear.Monotone(p, q, desired);
    Nonlinear.NonNegative(p, desired);
  }

  /** What is feasible at one bound is feasible at every larger one. */
  lemma FeasibleGrows(desired: nat, p: nat, q: nat, c: Candidate)
    requires p <= q && Feasible(desired, p, c)
    ensures Feasible(desired, q, c)
  {
    hide FilterOk, Frequency, VcoInRange, ReferenceInRange, AllowableError;
    BoundGrows(desired, p, q);
  }

  // ---------------------------------------------------------------- the rules in whole numbers

  /** The limits of the VCO, 90 MHz and what the output divider allows, for 24 MHz v / r. */
  predicate VcoWhole(r: nat, od: nat, v: nat) {
    && 15 * r <= 4 * v
    && (od == 2 ==> 2 * v <= 45 * r)
    && (od == 3 ==> v <= 30 * r)
    && (38 <= od <= 1029 ==> 4 * v <= 95 * r)
    && (4 <= od <= 37 || 1030 <= od ==> 12 * v <= 365 * r)
  }

  /** The limits of the loop filter, on the unrounded ratio and the square of the damping factor. */
  predicate FilterWhole(r: nat, v: nat, resistor: nat, current: nat) {
    && 2139 * (r * (resistor * current)) <= 15079632000 * v < 9300 * (r * (resistor * current))
    && 16000000000 * v <= 93 * (resistor * resistor * current) <= 1600000000000 * v
  }

  /** Every rule but the error bound, for numbers as a word of the chip holds them. */
  predicate RulesWhole(r: nat, od: nat, v: nat, resistor: nat, current: nat) {
    && 1 <= r <= 1200 && OnGrid(od) && 12 <= v <= 2055
    && VcoWhole(r, od, v)
    && FilterWhole(r, v, resistor, current)
  }

  /** The two sides of a limit on a quotient, multiplied out. */
  lemma QuotientLimits(x: real, y: real, limit: real)
    requires y > 0.0
    ensures limit <= x / y <==> limit * y <= x
    ensures x / y <= limit <==> x <= limit * y
  {
    Nonlinear.QuotientTimes(x, y);
    Nonlinear.RealCompare(limit, x / y, y);
    Nonlinear.RealCompare(x / y, limit, y);
  }

  lemma VcoUpper(r: nat, od: nat, v: nat)
    requires od >= 2
    ensures v as real <= MaxVco(od) / INPUT_FREQ * r as real <==>
      && (od == 2 ==> 2 * v <= 45 * r)
      && (od == 3 ==> v <= 30 * r)
      && (38 <= od <= 1029 ==> 4 * v <= 95 * r)
      && (4 <= od <= 37 || 1030 <= od ==> 12 * v <= 365 * r)
  {
  }

  lemma VcoExactly(r: nat, od: nat, v: nat)
    requires r > 0 && od >= 2
    ensures VcoInRange(r, od, v) <==> VcoWhole(r, od, v)
  {
    var x, y := v as real, r as real;
    QuotientLimits(x, y, 3.75);
    QuotientLimits(x, y, MaxVco(od) / INPUT_FREQ);
    VcoUpper(r, od, v);
  }

  /** All references from 24 MHz down to 20 kHz are allowed. */
  lemma ReferenceExactly(r: nat)
    requires r > 0
    ensures ReferenceInRange(r) <==> r <= 1200
  {
    QuotientLimits(INPUT_FREQ, r as real, 20000.0);
    QuotientLimits(INPUT_FREQ, r as real, 100000000.0);
  }

  /** The ratio in tenths, before it is rounded up. */
  function RatioExact(r: nat, v: nat, i: nat, j: nat): real
    requires r > 0 && v > 0 && i < 4 && j < 20
  {
    BandwidthPositive(v, i, j);
    (INPUT_FREQ / r as real) / LoopBandwidth(v, i, j) * 10.0
  }

  lemma RoundedUp(t: real)
    requires t >= 0.0
    ensures var up := if t - Truncate(t) as real >= 0.0 then Truncate(t) + 1 else Truncate(t);
      7.0 <= up as real / 10.0 <= 30.0 <==> 69.0 <= t < 300.0
  {
  }

  lemma BandwidthScaled(v: nat, i: nat, j: nat)
    requires v > 0 && i < 4 && j < 20
    ensures LoopBandwidth(v, i, j) * (628318.0 * v as real) == 310000.0 * (Resistor(i) * Current(j)) as real
  {
    hide Resistor, Current;
    var n, w := Resistor(i) as real * (Current(j) as real / 100000000.0) * 310000000.0, 2.0 * 3.14159 * v as real;
    Nonlinear.QuotientTimes(n, w);
    assert n == 3.1 * (Resistor(i) as real * Current(j) as real);
    assert w * 100000.0 == 628318.0 * v as real;
    assert LoopBandwidth(v, i, j) * w * 100000.0 == LoopBandwidth(v, i, j) * (w * 100000.0);
  }

  lemma ScaledQuotients(q: real, bandwidth: real, pdf: real, x: real, y: real, n: real)
    requires q * bandwidth == pdf && pdf * x == 24000000.0 && bandwidth * (628318.0 * y) == 310000.0 * n
    ensures (q * 10.0) * (31.0 * (x * n)) == 15079632000.0 * y
  {
    assert q * (310000.0 * n) == (q * bandwidth) * (628318.0 * y);
    assert (q * n) * x * 310000.0 == (pdf * x) * (628318.0 * y);
    assert (q * 10.0) * (31.0 * (x * n)) == 310.0 * ((q * n) * x);
  }

  lemma ScaledRatio(bandwidth: real, r: nat, v: nat, n: nat)
    requires r > 0 && bandwidth > 0.0 && bandwidth * (628318.0 * v as real) == 310000.0 * n as real
    ensures (INPUT_FREQ / r as real) / bandwidth * 10.0 * (31.0 * (r * n) as real) == 15079632000.0 * v as real
  {
    var pdf := INPUT_FREQ / r as real;
    var q := pdf / bandwidth;
    Nonlinear.QuotientTimes(INPUT_FREQ, r as real);
    Nonlinear.QuotientTimes(pdf, bandwidth);
    ScaledQuotients(q, bandwidth, pdf, r as real, v as real, n as real);
    assert (r * n) as real == r as real * n as real;
  }

  lemma TablesPositive(i: nat, j: nat)
    requires i < 4 && j < 20
    ensures Resistor(i) > 0 && Current(j) > 0
  {
  }

  lemma RatioScaled(r: nat, v: nat, i: nat, j: nat)
    requires r > 0 && v > 0 && i < 4 && j < 20
    ensures RatioExact(r, v, i, j) * (31.0 * (r * (Resistor(i) * Current(j))) as real) == 15079632000.0 * v as real
    ensures r * (Resistor(i) * Current(j)) > 0
  {
    hide LoopBandwidth, Resistor, Current;
    BandwidthPositive(v, i, j);
    BandwidthScaled(v, i, j);
    TablesPositive(i, j);
    Nonlinear.Positive(Resistor(i), Current(j));
    Nonlinear.Positive(r, Resistor(i) * Current(j));
    ScaledRatio(LoopBandwidth(v, i, j), r, v, Resistor(i) * Current(j));
  }

  lemma WholeLimits(x: real, y: real, p: nat, v: nat)
    requires x == 31.0 * p as real && y == 15079632000.0 * v as real
    ensures 69.0 * x <= y <==> 2139 * p <= 15079632000 * v
    ensures 300.0 * x <= y <==> 9300 * p <= 15079632000 * v
  {
  }

  lemma SolvedLimits(t: real, x: real, y: real)
    requires x > 0.0 && y >= 0.0 && t * x == y
    ensures t >= 0.0
    ensures 69.0 <= t <==> 69.0 * x <= y
    ensures 300.0 <= t <==> 300.0 * x <= y
  {
    Nonlinear.CompareProducts(69.0, t, x, 69.0 * x, y);
    Nonlinear.CompareProducts(300.0, t, x, 300.0 * x, y);
    Nonlinear.SignOfProduct(t, x);
  }

  lemma RatioLimits(t: real, p: nat, v: nat)
    requires p > 0 && t * (31.0 * p as real) == 15079632000.0 * v as real
    ensures t >= 0.0
    ensures 69.0 <= t < 300.0 <==> 2139 * p <= 15079632000 * v < 9300 * p
  {
    var x, y := 31.0 * p as real, 15079632000.0 * v as real;
    SolvedLimits(t, x, y);
    WholeLimits(x, y, p, v);
  }

  lemma DampingProduct(e: real, y: real, v: nat, n: nat)
    requires y == v as real && e * 400000000000.0 == 93.0 * n as real
    ensures 0.04 * y <= e <= 4.0 * y <==> 16000000000 * v <= 93 * n <= 1600000000000 * v
  {
  }

  lemma DampingWhole(d: real, y: real, v: nat, n: nat)
    requires v > 0 && y == v as real && (d * y) * 400000000000.0 == 93.0 * n as real
    ensures 0.04 <= d <= 4.0 <==> 16000000000 * v <= 93 * n <= 1600000000000 * v
  {
    var e := d * y;
    Nonlinear.CompareProducts(0.04, d, y, 0.04 * y, e);
    Nonlinear.CompareProducts(d, 4.0, y, e, 4.0 * y);
    DampingProduct(e, y, v, n);
  }

  lemma DampingScaled(d: real, x: real, n: real, y: real, q: real)
    requires d == (x / 2.0) * (x / 2.0) * q && q * y == n / 100000000.0 * 0.093
    ensures (d * y) * 400000000000.0 == 93.0 * (x * x * n)
  {
    assert (x / 2.0) * (x / 2.0) == (x * x) / 4.0;
    assert d * y == (x * x) / 4.0 * (q * y);
    assert (x * x) * (q * y) == (x * x) * (n / 100000000.0 * 0.093);
    assert (x * x) * n == x * x * n;
  }

  lemma DampingLimits(v: nat, i: nat, j: nat)
    requires v > 0 && i < 4 && j < 20
    ensures 0.04 <= DampingSquared(v, i, j) <= 4.0 <==>
      16000000000 * v <= 93 * (Resistor(i) * Resistor(i) * Current(j)) <= 1600000000000 * v
  {
    hide Resistor, Current;
    var x, n, y := Resistor(i) as real, Current(j) as real, v as real;
    var top := n / 100000000.0 * 0.093;
    Nonlinear.QuotientTimes(top, y);
    var d := DampingSquared(v, i, j);
    assert d == (x / 2.0) * (x / 2.0) * (top / y);
    DampingScaled(d, x, n, y, top / y);
    assert x * x * n == (Resistor(i) * Resistor(i) * Current(j)) as real;
    DampingWhole(d, y, v, Resistor(i) * Resistor(i) * Current(j));
  }

  /** The loop filter test is an inequality of whole numbers, although the routine takes a root and rounds. */
  lemma FilterExactly(r: nat, v: nat, i: nat, j: nat)
    requires r > 0 && v > 0 && i < 4 && j < 20
    ensures FilterOk(r, v, i, j) <==> FilterWhole(r, v, Resistor(i), Current(j))
  {
    hide DampingSquared, LoopBandwidth, Resistor, Current;
    RatioScaled(r, v, i, j);
    RatioLimits(RatioExact(r, v, i, j), r * (Resistor(i) * Current(j)), v);
    RoundedUp(RatioExact(r, v, i, j));
    DampingLimits(v, i, j);
  }

  /** What the routine accepts, without its reals: every rule and the error bound in whole numbers. */
  lemma FeasibleExactly(desired: nat, ppm: nat, c: Candidate)
    ensures Feasible(desired, ppm, c) <==>
      && c.rs < 4 && c.icp < 20
      && RulesWhole(c.r, c.od, c.v, Resistor(c.rs), Current(c.icp))
      && WithinErrorWhole(desired, ppm, c.r, c.od, c.v)
  {
    hide VcoInRange, VcoWhole, ReferenceInRange, FilterOk, FilterWhole, WithinError, WithinErrorWhole, OnGrid;
    hide Resistor, Current;
    if InDomain(c) {
      AtLeastTwo(c.od);
      VcoExactly(c.r, c.od, c.v);
      ReferenceExactly(c.r);
      FilterExactly(c.r, c.v, c.rs, c.icp);
      ErrorTestWhole(desired, ppm, c.r, c.od, c.v);
    }
  }

  lemma Products(a: real, b: real, aa: real, ab: real, bb: real)
    requires a >= 0.0 && b >= 0.0 && aa == a * a && ab == a * b && bb == b * b
    ensures a < b ==> aa < bb
    ensures a == b ==> aa == bb
  {
    if a < b {
      assert ab == b * a;
      if a > 0.0 { Nonlinear.CompareProducts(b, a, a, ab, aa); }
      Nonlinear.CompareProducts(b, a, b, bb, ab);
    }
  }

  lemma SquareLimit(a: real, b: real)
    requires a >= 0.0 && b >= 0.0
    ensures a < b ==> a * a < b * b
    ensures a <= b ==> a * a <= b * b
  {
    Products(a, b, a * a, a * b, b * b);
  }

  lemma SquareLimits(d: real)
    requires d >= 0.0
    ensures 0.2 <= d <==> 0.04 <= d * d
    ensures d <= 2.0 <==> d * d <= 4.0
  {
    SquareLimit(d, 0.2);
    SquareLimit(2.0, d);
    SquareLimit(d, 2.0);
    SquareLimit(0.2, d);
  }

  /** The damping factor itself, as the routine has it, is between 0.2 and 2. */
  lemma DampingFactor(v: nat, i: nat, j: nat, d: real)
    requires v > 0 && i < 4 && j < 20 && d >= 0.0
    requires d * d == (Resistor(i) as real / 2.0) * (Resistor(i) as real / 2.0)
                      * (Current(j) as real / 100000000.0 * 0.093 / v as real)
    ensures 0.2 <= d <= 2.0 <==>
      16000000000 * v <= 93 * (Resistor(i) * Resistor(i) * Current(j)) <= 1600000000000 * v
  {
    hide Resistor, Current;
    DampingLimits(v, i, j);
    assert d * d == DampingSquared(v, i, j);
    SquareLimits(d);
  }

  /** The tables are tried from the greatest resistor down, and from the least current up. */
  lemma TablesInOrder(i: nat, j: nat)
    ensures i < j < 4 ==> Resistor(j) < Resistor(i)
    ensures i < j < 20 ==> Current(i) < Current(j)
  {
  }

  // ---------------------------------------------------------------- pruning

  /** StartValue is where the frequency crosses the lower end of the error window. */
  lemma StartIsLowerEnd(desired: nat, ppm: nat, r: nat, od: nat, v: nat)
    requires r > 0 && od > 0
    ensures StartValue(desired, ppm, r, od) <= v as real
      <==> desired as real - AllowableError(desired, ppm) <= Frequency(r, od, v)
  {
    hide Frequency, AllowableError;
    FrequencyScaled(r, od, v);
    var low, x, y := desired as real - AllowableError(desired, ppm), r as real, od as real;
    Nonlinear.RealCompare(low, Frequency(r, od, v), x * y);
    assert low * x * y == low * (x * y);
    assert StartValue(desired, ppm, r, od) * INPUT_FREQ == low * (x * y);
  }

  lemma TruncateBelow(x: real, v: nat)
    requires x <= v as real
    ensures Truncate(x) <= v
  {
  }

  lemma TruncateSign(x: real)
    ensures Truncate(x) < 0 <==> x <= -1.0
  {
  }

  /** The cast of the start cannot overflow an int. */
  predicate CastFits(desired: nat, ppm: nat, r: nat, od: nat) {
    -0x8000_0000 <= Truncate(StartValue(desired, ppm, r, od)) < 0x8000_0000
  }

  /** A start of -1 or less turns into a huge unsigned number, and is clamped to the last v. */
  lemma NegativeStart(desired: nat, ppm: nat, r: nat, od: nat)
    requires CastFits(desired, ppm, r, od) && StartValue(desired, ppm, r, od) <= -1.0
    ensures StartV(desired, ppm, r, od) == MAX_V
  {
    hide StartValue;
    TruncateSign(StartValue(desired, ppm, r, od));
  }

  lemma StartNotAbove(desired: nat, ppm: nat, r: nat, od: nat, v: nat)
    requires MIN_V <= v <= MAX_V && -1.0 < StartValue(desired, ppm, r, od) <= v as real
    ensures StartV(desired, ppm, r, od) <= v
  {
    hide StartValue;
    TruncateSign(StartValue(desired, ppm, r, od));
    TruncateBelow(StartValue(desired, ppm, r, od), v);
  }

  lemma WindowEnds(desired: nat, ppm: nat, r: nat, od: nat, v: nat)
    requires r > 0 && od > 0
    ensures WithinError(desired, ppm, r, od, v) <==>
      && desired as real - AllowableError(desired, ppm) <= Frequency(r, od, v)
      && Frequency(r, od, v) <= desired as real + AllowableError(desired, ppm)
  {
    hide Frequency, AllowableError;
  }

  /** Starting late skips a v that meets the error bound. */
  ghost predicate PruningLosesNothing(desired: nat, ppm: nat, r: nat, od: nat)
    requires r > 0 && od > 0
  {
    forall v: nat :: MIN_V <= v <= MAX_V && WithinError(desired, ppm, r, od, v) ==> StartV(desired, ppm, r, od) <= v
  }

  /**
   * The pruned loop over v loses nothing, unless the lower end of the error window is
   * so far below zero that the cast of the start comes out negative while the lowest
   * VCO divider is still below the window's upper end.
   */
  lemma PruningExact(desired: nat, ppm: nat, r: nat, od: nat)
    requires r > 0 && od > 0 && CastFits(desired, ppm, r, od)
    ensures PruningLosesNothing(desired, ppm, r, od) <==>
      || StartValue(desired, ppm, r, od) > -1.0
      || Frequency(r, od, MIN_V) > desired as real + AllowableError(desired, ppm)
  {
    hide Frequency, AllowableError, StartValue, StartV, WithinError, CastFits;
    if StartValue(desired, ppm, r, od) > -1.0 {
      forall v: nat | MIN_V <= v <= MAX_V && WithinError(desired, ppm, r, od, v)
        ensures StartV(desired, ppm, r, od) <= v
      {
        WindowEnds(desired, ppm, r, od, v);
        StartIsLowerEnd(desired, ppm, r, od, v);
        StartNotAbove(desired, ppm, r, od, v);
      }
    } else {
      NegativeStart(desired, ppm, r, od);
      StartIsLowerEnd(desired, ppm, r, od, MIN_V);
      WindowEnds(desired, ppm, r, od, MIN_V);
      forall v: nat | MIN_V <= v && Frequency(r, od, MIN_V) > desired as real + AllowableError(desired, ppm)
        ensures !WithinError(desired, ppm, r, od, v)
      {
        FasterWithV(r, od, MIN_V, v);
        WindowEnds(desired, ppm, r, od, v);
      }
    }
  }

  lemma StartNotNegative(desired: nat, ppm: nat, r: nat, od: nat)
    requires ppm <= 1000000
    ensures StartValue(desired, ppm, r, od) >= 0.0
  {
    BoundGrows(desired, ppm, 1000000);
    var low, x, y := desired as real - AllowableError(desired, ppm), r as real, od as real;
    Nonlinear.RealNonNegative(low, x);
    Nonlinear.RealNonNegative(low * x, y);
  }

  /** Up to a million ppm, where the lower end of the window is not below zero, every feasible candidate is scanned. */
  lemma PruningLossless(desired: nat, ppm: nat, c: Candidate)
    requires ppm <= 1000000 && Feasible(desired, ppm, c)
    ensures Live(desired, ppm, c)
  {
    hide Frequency, AllowableError, StartValue, StartV, WithinError, FilterOk, VcoInRange, ReferenceInRange;
    AtLeastTwo(c.od);
    StartNotNegative(desired, ppm, c.r, c.od);
    WindowEnds(desired, ppm, c.r, c.od, c.v);
    StartIsLowerEnd(desired, ppm, c.r, c.od, c.v);
    StartNotAbove(desired, ppm, c.r, c.od, c.v);
  }

  lemma LossyFilter()
    ensures FilterOk(4, 15, 2, 3) && VcoInRange(4, 8232, 15) && ReferenceInRange(4)
  {
  }

  lemma LossyStart()
    ensures StartV(5000, 1186589, 4, 8232) == MAX_V
  {
    assert AllowableError(5000, 1186589) == 5932.945;
    assert -2.0 < StartValue(5000, 1186589, 4, 8232) < -1.0;
  }

  /**
   * Above a million ppm the start does skip candidates.  Aiming at 5000 Hz, the first
   * bound that anything meets is 1186589 ppm; r = 4, v = 15 is feasible there, and the
   * loop for its dividers starts at v = 2055.
   */
  lemma PruningLossyAboveAMillion()
    ensures Feasible(5000, 1186589, Candidate(4, 8232, 15, 2, 3))
    ensures StartV(5000, 1186589, 4, 8232) == MAX_V
    ensures !PruningLosesNothing(5000, 1186589, 4, 8232)
  {
    LossyFilter();
    ErrorTestWhole(5000, 1186589, 4, 8232, 15);
    LossyStart();
    assert WithinError(5000, 1186589, 4, 8232, 15);
  }

  // ---------------------------------------------------------------- completeness

  /** The slowest candidate of all, at the last v, which no start can skip. */
  const SLOWEST := Candidate(548, LARGEST, MAX_V, 0, 0)

  lemma SlowestMeetsRules()
    ensures InDomain(SLOWEST) && ReferenceInRange(548) && VcoInRange(548, LARGEST, MAX_V) && FilterOk(548, MAX_V, 0, 0)
    ensures 0.0 < Frequency(548, LARGEST, MAX_V) && Frequency(548, LARGEST, MAX_V) * 8232.0 == 90000000.0
  {
    FrequencyIsVcoOverDivider(548, LARGEST, MAX_V);
  }

  lemma DomainOfFeasible(desired: nat, ppm: nat, c: Candidate)
    requires Feasible(desired, ppm, c)
    ensures c.r > 0 && OnGrid(c.od) && LARGEST > 0
    ensures c.od > 0 && WithinError(desired, ppm, c.r, c.od, c.v)
  {
    hide Frequency, AllowableError, WithinError, FilterOk, VcoInRange, ReferenceInRange;
  }

  lemma SlowestIsSlowest(desired: nat, ppm: nat, c: Candidate)
    requires Feasible(desired, ppm, c)
    ensures Frequency(548, LARGEST, MAX_V) <= Frequency(c.r, c.od, c.v)
  {
    hide *;
    AtLeastTwo(c.od);
    DomainOfFeasible(desired, ppm, c);
    FrequencyEnvelope(desired, ppm, c);
    SlowestMeetsRules();
    Nonlinear.RealCancelAtMost(Frequency(548, LARGEST, MAX_V), Frequency(c.r, c.od, c.v), 8232.0);
  }

  lemma BoundExceedsTarget(desired: nat, ppm: nat)
    requires ppm > 1000000
    ensures AllowableError(desired, ppm) >= desired as real
  {
    BoundGrows(desired, 1000000, ppm);
  }

  lemma StartClamped(desired: nat, ppm: nat, r: nat, od: nat)
    ensures 0 < MIN_V <= StartV(desired, ppm, r, od) <= MAX_V
  {
  }

  /** If anything is feasible at a bound, the search at that bound finds something. */
  lemma SearchComplete(desired: nat, ppm: nat, c: Candidate)
    requires Feasible(desired, ppm, c)
    ensures exists b: Candidate :: Live(desired, ppm, b)
  {
    hide Frequency, AllowableError, StartV, WithinError, FilterOk, VcoInRange, ReferenceInRange;
    if ppm <= 1000000 {
      PruningLossless(desired, ppm, c);
    } else {
      BoundExceedsTarget(desired, ppm);
      SlowestIsSlowest(desired, ppm, c);
      SlowestMeetsRules();
      AtLeastTwo(c.od);
      WindowEnds(desired, ppm, c.r, c.od, c.v);
      WindowEnds(desired, ppm, 548, LARGEST, MAX_V);
      StartClamped(desired, ppm, 548, LARGEST);
      assert Live(desired, ppm, SLOWEST);
    }
  }

  /** Nothing meets every rule and this bound. */
  ghost predicate Unreachable(desired: nat, ppm: nat) {
    forall c: Candidate :: !Feasible(desired, ppm, c)
  }

  lemma NothingFound(desired: nat, ppm: nat)
    requires FirstIn(desired, ppm, Everywhere, None)
    ensures Unreachable(desired, ppm)
  {
    hide Feasible, Scanned;
    forall c: Candidate ensures !Feasible(desired, ppm, c) {
      if Feasible(desired, ppm, c) {
        SearchComplete(desired, ppm, c);
      }
    }
  }

  lemma UnreachableBelow(desired: nat, p: nat, q: nat)
    requires p <= q && Unreachable(desired, q)
    ensures Unreachable(desired, p)
  {
    hide Feasible;
    forall c: Candidate ensures !Feasible(desired, p, c) {
      if Feasible(desired, p, c) { FeasibleGrows(desired, p, q, c); }
    }
  }

  lemma SlowestReached(slowest: real, desired: nat, ppm: nat)
    requires slowest * 8232.0 == 90000000.0 && desired <= 10932
    ensures desired as real <= slowest
    ensures slowest <= desired as real + AllowableError(desired, ppm)
      <==> 90000000000000 <= (ppm * desired + 1000000 * desired) * 8232
  {
    var reach := ppm * desired + 1000000 * desired;
    assert (desired as real + AllowableError(desired, ppm)) * 1000000.0 == reach as real;
    assert slowest * 8232000000.0 == 90000000000000.0;
  }

  /**
   * Below what the slowest candidate puts out, a target can be met exactly if the error
   * bound reaches up to that candidate.  So the documented 200 Hz cannot be met to
   * within 1000000 ppm.
   */
  lemma SlowTargets(desired: nat, ppm: nat)
    requires desired <= 10932
    ensures Unreachable(desired, ppm) <==> (ppm * desired + 1000000 * desired) * 8232 < 90000000000000
  {
    hide Frequency, FilterOk, VcoInRange, ReferenceInRange, WithinError;
    SlowestMeetsRules();
    WindowEnds(desired, ppm, 548, LARGEST, MAX_V);
    SlowestReached(Frequency(548, LARGEST, MAX_V), desired, ppm);
    BoundGrows(desired, 0, ppm);
    forall c: Candidate | Feasible(desired, ppm, c) ensures Feasible(desired, ppm, SLOWEST) {
      SlowestIsSlowest(desired, ppm, c);
      AtLeastTwo(c.od);
      WindowEnds(desired, ppm, c.r, c.od, c.v);
    }
    assert Feasible(desired, ppm, SLOWEST) <==> WithinError(desired, ppm, 548, LARGEST, MAX_V);
    assert Unreachable(desired, ppm) <==> !Feasible(desired, ppm, SLOWEST);
  }

  lemma SlowestWithinMillion(desired: nat)
    requires desired > 10932
    requires WithinError(desired, 1000000, 548, LARGEST, MAX_V) <==>
      && desired as real - AllowableError(desired, 1000000) <= Frequency(548, LARGEST, MAX_V)
      && Frequency(548, LARGEST, MAX_V) <= desired as real + AllowableError(desired, 1000000)
    ensures !Unreachable(desired, 1000000)
  {
    hide Frequency, FilterOk, VcoInRange, ReferenceInRange, WithinError;
    SlowestMeetsRules();
    assert AllowableError(desired, 1000000) == desired as real;
    assert Feasible(desired, 1000000, SLOWEST);
  }

  /** A million ppm is enough for every target but the very slow ones. */
  lemma MillionSuffices(desired: nat)
    ensures Unreachable(desired, 1000000) <==> desired <= 5466
  {
    hide Frequency, FilterOk, VcoInRange, ReferenceInRange, WithinError, Unreachable;
    if desired <= 10932 {
      SlowTargets(desired, 1000000);
    } else {
      SlowestMeetsRules();
      WindowEnds(desired, 1000000, 548, LARGEST, MAX_V);
      SlowestWithinMillion(desired);
    }
  }

  // ---------------------------------------------------------------- the cast never overflows

  /** As long as nothing was found at the bound before, the bound is not far above the target. */
  lemma BoundStaysSmall(desired: nat, ppm: nat)
    requires desired < 0x1_0000_0000 && (ppm == 0 || Unreachable(desired, ppm - 1))
    ensures 0.0 <= AllowableError(desired, ppm) <= 5000000000.0
  {
    hide FilterOk, Frequency, VcoFrequency;
    BoundGrows(desired, 0, ppm);
    if ppm > 0 {
      SlowestMeetsRules();
      assert !Feasible(desired, ppm - 1, SLOWEST);
      WindowEnds(desired, ppm - 1, 548, LARGEST, MAX_V);
      assert ppm * desired == (ppm - 1) * desired + desired by { Nonlinear.OneMore(ppm - 1, desired); }
      assert AllowableError(desired, ppm) == AllowableError(desired, ppm - 1) + desired as real / 1000000.0;
    }
  }

  lemma ScaledLow(low: real, p: real)
    requires 0.0 < p <= 9878400.0 && -5000000000.0 <= low <= 5000000000.0
    ensures -2147483648.0 < low * p / INPUT_FREQ < 2147483648.0
  {
    Nonlinear.RealAtMost(low, 5000000000.0, p);
    assert low * p <= 5000000000.0 * p <= 5000000000.0 * 9878400.0;
    Nonlinear.RealAtMost(-5000000000.0, low, p);
    assert low * p >= -5000000000.0 * p >= -5000000000.0 * 9878400.0;
  }

  lemma StartInRange(low: real, x: real, y: real)
    requires 1.0 <= x <= 1200.0 && 2.0 <= y <= 8232.0 && -5000000000.0 <= low <= 5000000000.0
    ensures -2147483648.0 < low * x * y / INPUT_FREQ < 2147483648.0
  {
    Nonlinear.RealPositive(x, y);
    Nonlinear.RealAtMost(x, 1200.0, y);
    assert x * y <= 1200.0 * y <= 1200.0 * 8232.0;
    assert low * x * y == low * (x * y);
    ScaledLow(low, x * y);
  }

  lemma CastsFit(desired: nat, ppm: nat, r: nat, od: nat)
    requires desired < 0x1_0000_0000 && (ppm == 0 || Unreachable(desired, ppm - 1))
    requires 1 <= r <= MAX_R && 2 <= od <= LARGEST
    ensures CastFits(desired, ppm, r, od)
  {
    hide Unreachable, AllowableError;
    BoundStaysSmall(desired, ppm);
    StartInRange(desired as real - AllowableError(desired, ppm), r as real, od as real);
  }

  // ---------------------------------------------------------------- the search

  /** No filter before position (rs, icp) of the two tables suits. */
  ghost predicate NoFilterBefore(r: nat, v: nat, rs: nat, icp: nat)
    requires r > 0 && v > 0
  {
    forall i, j :: 0 <= i < 4 && 0 <= j < 20 && (i < rs || (i == rs && j < icp)) ==> !FilterOk(r, v, i, j)
  }

  /** The two inner loops: the first resistor and current that suit, or the end of the tables. */
  method FindFilter(r: nat, v: nat) returns (rs: nat, icp: nat)
    requires r > 0 && v > 0
    ensures rs < 4 ==> icp < 20 && FilterOk(r, v, rs, icp)
    ensures NoFilterBefore(r, v, rs, icp)
  {
    hide FilterOk;
    rs := 0;
    while rs < 4
      invariant rs <= 4
      invariant NoFilterBefore(r, v, rs, 0)
    {
      icp := 0;
      while icp < 20
        invariant icp <= 20
        invariant NoFilterBefore(r, v, rs, icp)
      {
        if FilterOk(r, v, rs, icp) {
          return;
        }
        icp := icp + 1;
      }
      rs := rs + 1;
    }
    icp := 0;
  }

  /** Every live candidate of the cell has at least this v. */
  ghost predicate NoneBelow(desired: nat, ppm: nat, r: nat, od: nat, v: nat) {
    forall c: Candidate :: InScope(Cell(r, od), c) && Live(desired, ppm, c) ==> v <= c.v
  }

  lemma StartBounds(desired: nat, ppm: nat, r: nat, od: nat)
    ensures 0 < MIN_V <= StartV(desired, ppm, r, od) <= MAX_V
    ensures NoneBelow(desired, ppm, r, od, StartV(desired, ppm, r, od))
  {
    hide StartV, Feasible;
    StartClamped(desired, ppm, r, od);
  }

  lemma NextV(desired: nat, ppm: nat, r: nat, od: nat, v: nat)
    requires r > 0 && od > 0 && v > 0 && NoneBelow(desired, ppm, r, od, v)
    requires VcoInRange(r, od, v) && WithinError(desired, ppm, r, od, v) ==> NoFilterBefore(r, v, 4, 0)
    ensures NoneBelow(desired, ppm, r, od, v + 1)
  {
    hide VcoInRange, WithinError, FilterOk, ReferenceInRange, StartV, OnGrid;
  }

  lemma FirstOfCell(desired: nat, ppm: nat, c: Candidate)
    requires InDomain(c) && ReferenceInRange(c.r) && VcoInRange(c.r, c.od, c.v)
    requires WithinError(desired, ppm, c.r, c.od, c.v) && FilterOk(c.r, c.v, c.rs, c.icp)
    requires StartV(desired, ppm, c.r, c.od) <= c.v && NoneBelow(desired, ppm, c.r, c.od, c.v)
    requires NoFilterBefore(c.r, c.v, c.rs, c.icp)
    ensures FirstIn(desired, ppm, Cell(c.r, c.od), Some(c))
  {
    hide VcoInRange, WithinError, FilterOk, ReferenceInRange, StartV, OnGrid;
  }

  lemma CellExhausted(desired: nat, ppm: nat, r: nat, od: nat)
    requires NoneBelow(desired, ppm, r, od, MAX_V + 1)
    ensures FirstIn(desired, ppm, Cell(r, od), None)
  {
    hide VcoInRange, WithinError, FilterOk, ReferenceInRange, StartV, OnGrid;
  }

  lemma DomainOf(c: Candidate)
    requires 1 <= c.r <= MAX_R && OnGrid(c.od) && MIN_V <= c.v <= MAX_V && c.rs < 4 && c.icp < 20
    ensures InDomain(c)
  {
  }

  lemma TablesExhausted(r: nat, v: nat, rs: nat, icp: nat)
    requires r > 0 && v > 0 && rs >= 4 && NoFilterBefore(r, v, rs, icp)
    ensures NoFilterBefore(r, v, 4, 0)
  {
    hide FilterOk;
  }

  /** The loop over v, for one reference and one output divider. */
  method SearchCell(desired: nat, ppm: nat, r: nat, od: nat) returns (found: Option<Candidate>)
    requires 1 <= r <= MAX_R && OnGrid(od) && od >= 2 && ReferenceInRange(r)
    requires CastFits(desired, ppm, r, od)
    ensures FirstIn(desired, ppm, Cell(r, od), found)
  {
    hide *;
    StartBounds(desired, ppm, r, od);
    var v := StartV(desired, ppm, r, od);
    while v <= MAX_V
      invariant StartV(desired, ppm, r, od) <= v <= MAX_V + 1
      invariant NoneBelow(desired, ppm, r, od, v)
    {
      if VcoInRange(r, od, v) && WithinError(desired, ppm, r, od, v) {
        var rs, icp := FindFilter(r, v);
        if rs < 4 {
          var c := Candidate(r, od, v, rs, icp);
          DomainOf(c);
          FirstOfCell(desired, ppm, c);
          return Some(c);
        }
        TablesExhausted(r, v, rs, icp);
      }
      NextV(desired, ppm, r, od, v);
      v := v + 1;
    }
    CellExhausted(desired, ppm, r, od);
    found := None;
  }

  // ---------------------------------------------------------------- the outer loops

  /** Every live candidate of the row has at most this output divider. */
  ghost predicate NoneAbove(desired: nat, ppm: nat, r: nat, od: nat) {
    forall c: Candidate :: InScope(Row(r), c) && Live(desired, ppm, c) ==> c.od <= od
  }

  /** Every live candidate has at least this reference divider. */
  ghost predicate NoRowBelow(desired: nat, ppm: nat, r: nat) {
    forall c: Candidate :: Live(desired, ppm, c) ==> r <= c.r
  }

  lemma LiveIsInDomain(desired: nat, ppm: nat, c: Candidate)
    requires Live(desired, ppm, c)
    ensures InDomain(c) && ReferenceInRange(c.r) && OnGrid(c.od) && 1 <= c.r <= MAX_R
  {
    hide VcoInRange, WithinError, FilterOk, ReferenceInRange, StartV, OnGrid;
  }

  lemma RowStart(desired: nat, ppm: nat, r: nat)
    ensures NoneAbove(desired, ppm, r, LARGEST)
  {
    hide Live;
    forall c: Candidate | Live(desired, ppm, c) ensures c.od <= LARGEST {
      LiveIsInDomain(desired, ppm, c);
      AtLeastTwo(c.od);
    }
  }

  lemma NextCell(desired: nat, ppm: nat, r: nat, od: nat)
    requires od > 1 && OnGrid(od) && NoneAbove(desired, ppm, r, od) && FirstIn(desired, ppm, Cell(r, od), None)
    ensures NoneAbove(desired, ppm, r, Next(od))
  {
    hide Live, OnGrid;
    forall c: Candidate | InScope(Row(r), c) && Live(desired, ppm, c) ensures c.od <= Next(od) {
      LiveIsInDomain(desired, ppm, c);
      assert !InScope(Cell(r, od), c);
      NextIsNearest(od, c.od);
    }
  }

  lemma FirstOfRow(desired: nat, ppm: nat, r: nat, od: nat, found: Option<Candidate>)
    requires NoneAbove(desired, ppm, r, od) && FirstIn(desired, ppm, Cell(r, od), found) && found.Some?
    ensures FirstIn(desired, ppm, Row(r), found)
  {
    hide Live;
    forall c: Candidate | InScope(Row(r), c) && Live(desired, ppm, c) && c != found.value
      ensures Before(found.value, c)
    {
      assert c.od == od ==> InScope(Cell(r, od), c);
    }
  }

  lemma RowExhausted(desired: nat, ppm: nat, r: nat, od: nat)
    requires od <= 1 && NoneAbove(desired, ppm, r, od)
    ensures FirstIn(desired, ppm, Row(r), None)
  {
    hide Live;
    forall c: Candidate | InScope(Row(r), c) ensures !Live(desired, ppm, c) {
      if Live(desired, ppm, c) {
        LiveIsInDomain(desired, ppm, c);
        AtLeastTwo(c.od);
      }
    }
  }

  /** The loop over od, for one reference divider. */
  method SearchRow(desired: nat, ppm: nat, r: nat) returns (found: Option<Candidate>)
    requires 1 <= r <= MAX_R && ReferenceInRange(r)
    requires desired < 0x1_0000_0000 && (ppm == 0 || Unreachable(desired, ppm - 1))
    ensures FirstIn(desired, ppm, Row(r), found)
  {
    hide *;
    RowStart(desired, ppm, r);
    LargestOnGrid();
    var od := LARGEST;
    while od > 1
      invariant od == 1 || (od > 1 && OnGrid(od))
      invariant NoneAbove(desired, ppm, r, od)
      decreases od
    {
      AtLeastTwo(od);
      CastsFit(desired, ppm, r, od);
      found := SearchCell(desired, ppm, r, od);
      if found.Some? {
        FirstOfRow(desired, ppm, r, od, found);
        return;
      }
      NextCell(desired, ppm, r, od);
      NextOnGrid(od);
      NextDescends(od);
      od := Next(od);
    }
    RowExhausted(desired, ppm, r, od);
    found := None;
  }

  lemma NextRow(desired: nat, ppm: nat, r: nat)
    requires r > 0 && NoRowBelow(desired, ppm, r)
    requires ReferenceInRange(r) ==> FirstIn(desired, ppm, Row(r), None)
    ensures NoRowBelow(desired, ppm, r + 1)
  {
    hide Live, ReferenceInRange;
    forall c: Candidate | Live(desired, ppm, c) ensures r + 1 <= c.r {
      LiveIsInDomain(desired, ppm, c);
      assert c.r == r ==> InScope(Row(r), c);
    }
  }

  lemma FirstOfAll(desired: nat, ppm: nat, r: nat, found: Option<Candidate>)
    requires NoRowBelow(desired, ppm, r) && FirstIn(desired, ppm, Row(r), found) && found.Some?
    ensures FirstIn(desired, ppm, Everywhere, found)
  {
    hide Live;
    forall c: Candidate | Live(desired, ppm, c) && c != found.value ensures Before(found.value, c) {
      assert c.r == r ==> InScope(Row(r), c);
    }
  }

  lemma AllExhausted(desired: nat, ppm: nat)
    requires NoRowBelow(desired, ppm, MAX_R + 1)
    ensures FirstIn(desired, ppm, Everywhere, None)
  {
    hide Live;
    forall c: Candidate ensures !Live(desired, ppm, c) {
      if Live(desired, ppm, c) { LiveIsInDomain(desired, ppm, c); }
    }
  }

  lemma RowsStart(desired: nat, ppm: nat)
    ensures NoRowBelow(desired, ppm, 1)
  {
    hide Live;
    forall c: Candidate | Live(desired, ppm, c) ensures 1 <= c.r { LiveIsInDomain(desired, ppm, c); }
  }

  /** The loop over r: the first live candidate at one error bound. */
  method SearchAtBound(desired: nat, ppm: nat) returns (found: Option<Candidate>)
    requires desired < 0x1_0000_0000 && (ppm == 0 || Unreachable(desired, ppm - 1))
    ensures FirstIn(desired, ppm, Everywhere, found)
  {
    hide *;
    RowsStart(desired, ppm);
    var r := 1;
    while r <= MAX_R
      invariant 1 <= r && r <= MAX_R + 1
      invariant NoRowBelow(desired, ppm, r)
    {
      if ReferenceInRange(r) {
        found := SearchRow(desired, ppm, r);
        if found.Some? {
          FirstOfAll(desired, ppm, r, found);
          return;
        }
      }
      NextRow(desired, ppm, r);
      r := r + 1;
    }
    AllExhausted(desired, ppm);
    found := None;
  }

  // ---------------------------------------------------------------- the whole search

  datatype Solution = Solution(ppm: nat, candidate: Candidate)

  /**
   * The search over growing bounds.  It fails exactly when nothing is feasible at the
   * requested bound.  Otherwise it stops at the least bound anything meets, at the first
   * live candidate; up to a million ppm that is the first feasible one.
   */
  ghost predicate LeastError(desired: nat, requested: nat, result: Option<Solution>) {
    match result
    case None => Unreachable(desired, requested)
    case Some(Solution(ppm, best)) =>
      && ppm <= requested
      && Feasible(desired, ppm, best)
      && (forall p: nat :: p < ppm ==> Unreachable(desired, p))
      && FirstIn(desired, ppm, Everywhere, Some(best))
      && (ppm <= 1000000 ==> forall c: Candidate :: Feasible(desired, ppm, c) && c != best ==> Before(best, c))
  }

  lemma Finish(desired: nat, requested: nat, ppm: nat, best: Candidate)
    requires ppm <= requested && FirstIn(desired, ppm, Everywhere, Some(best))
    requires ppm == 0 || Unreachable(desired, ppm - 1)
    ensures LeastError(desired, requested, Some(Solution(ppm, best)))
  {
    hide Feasible, Scanned;
    forall p: nat | p < ppm ensures Unreachable(desired, p) {
      UnreachableBelow(desired, p, ppm - 1);
    }
    forall c: Candidate | ppm <= 1000000 && Feasible(desired, ppm, c) && c != best ensures Before(best, c) {
      PruningLossless(desired, ppm, c);
    }
  }

  // ---------------------------------------------------------------- when the first feasible setting wins

  /** The setting comes before every other feasible one at its bound: least r, greatest od, least v, first filter. */
  ghost predicate FirstFeasible(desired: nat, s: Solution) {
    forall c: Candidate :: Feasible(desired, s.ppm, c) && c != s.candidate ==> Before(s.candidate, c)
  }

  /** The bound is the least one anything meets. */
  ghost predicate LeastBound(desired: nat, ppm: nat) {
    !Unreachable(desired, ppm) && (ppm == 0 || Unreachable(desired, ppm - 1))
  }

  lemma LeastErrorIsLeast(desired: nat, requested: nat, s: Solution)
    requires LeastError(desired, requested, Some(s))
    ensures LeastBound(desired, s.ppm) && FirstIn(desired, s.ppm, Everywhere, Some(s.candidate))
    ensures s.ppm <= 1000000 ==> FirstFeasible(desired, s)
  {
    hide Feasible, FirstIn, Before;
    assert Feasible(desired, s.ppm, s.candidate);
  }

  lemma WithinAMillion(desired: nat, ppm: nat)
    requires LeastBound(desired, ppm)
    ensures ppm <= 1000000 <==> desired >= 5467
  {
    hide Unreachable;
    MillionSuffices(desired);
    if ppm <= 1000000 && Unreachable(desired, 1000000) {
      UnreachableBelow(desired, ppm, 1000000);
    } else if ppm > 1000000 && Unreachable(desired, ppm - 1) {
      UnreachableBelow(desired, 1000000, ppm - 1);
    }
  }

  lemma NotBothBefore(a: Candidate, b: Candidate)
    ensures !(Before(a, b) && Before(b, a))
  {
  }

  lemma OnlyOneFirst(desired: nat, ppm: nat, a: Candidate, b: Candidate)
    requires FirstIn(desired, ppm, Everywhere, Some(a)) && FirstIn(desired, ppm, Everywhere, Some(b))
    ensures a == b
  {
    hide Live;
    NotBothBefore(a, b);
  }

  /** The first setting of the slowest frequency, but for its filter. */
  const FOUR := Candidate(4, LARGEST, 15, 2, 3)

  lemma SlowestAfterFour()
    ensures SLOWEST != FOUR && !Before(SLOWEST, FOUR)
  {
  }

  lemma VcoRatio(v: real, r: real)
    requires r > 0.0 && 90000000.0 <= INPUT_FREQ * (v / r)
    ensures 15.0 * r <= 4.0 * v
  {
    var q := v / r;
    Nonlinear.QuotientTimes(v, r);
    assert q * r == v && 3.75 <= q;
    Nonlinear.RealAtMost(3.75, q, r);
  }

  lemma VcoInWhole(desired: nat, ppm: nat, c: Candidate)
    requires Feasible(desired, ppm, c)
    ensures 1 <= c.r <= MAX_R && 15 * c.r <= 4 * c.v && c.v >= MIN_V
  {
    hide WithinError, FilterOk, ReferenceInRange, OnGrid;
    VcoRatio(c.v as real, c.r as real);
  }

  lemma NearLargest(od: nat)
    requires OnGrid(od)
    ensures od == LARGEST || od <= 8224
  {
    AtLeastTwo(od);
    LargestOnGrid();
    if od < LARGEST { NextIsNearest(LARGEST, od); }
  }

  lemma SlowArithmetic(reach: nat, desired: nat, r: nat, od: nat, v: nat)
    requires desired <= 5466 && reach * 8232 < 90000000000000 + 8232 * desired
    requires 1 <= r <= MAX_R && (od == LARGEST || od <= 8224) && 15 * r <= 4 * v
    requires 24000000000000 * v <= reach * (r * od)
    ensures od == LARGEST && 4 * v == 15 * r
  {
    assert reach * (r * od) == (reach * od) * r && reach * od == od * reach;
    if reach * od < 90000000000000 {
      Nonlinear.StrictlyMonotone(reach * od, 90000000000000, r);
    }
    if od <= 8224 {
      Nonlinear.Monotone(od, 8224, reach);
    } else {
      Nonlinear.Monotone(reach * od, 90000000000000 + 8232 * 5466, r);
    }
  }

  /** At the least bound of a slow target all that is feasible has the slowest frequency. */
  lemma SlowIsSlowest(desired: nat, ppm: nat, c: Candidate)
    requires desired <= 5466 && LeastBound(desired, ppm) && Feasible(desired, ppm, c)
    ensures c.od == LARGEST && 4 * c.v == 15 * c.r && 4 <= c.r
  {
    hide Feasible, WithinError, OnGrid, Unreachable;
    WithinAMillion(desired, ppm);
    SlowTargets(desired, ppm - 1);
    DomainOfFeasible(desired, ppm, c);
    VcoInWhole(desired, ppm, c);
    NearLargest(c.od);
    ErrorTestWhole(desired, ppm, c.r, c.od, c.v);
    Nonlinear.OneMore(ppm - 1, desired);
    Nonlinear.NonNegative(ppm, desired);
    var p := c.r * c.od;
    assert (ppm * desired + 1000000 * desired) * p == (ppm * desired) * p + 1000000 * (desired * p);
    SlowArithmetic(ppm * desired + 1000000 * desired, desired, c.r, c.od, c.v);
  }

  lemma SlowRatio(v: real, r: real)
    requires r > 0.0 && 4.0 * v == 15.0 * r
    ensures v / r == 3.75
  {
    Nonlinear.QuotientTimes(v, r);
    Nonlinear.RealCancel(v / r, 3.75, r);
  }

  lemma FrequencyOfSlow(r: nat, v: nat)
    requires r > 0 && 4 * v == 15 * r
    ensures LARGEST > 0 && Frequency(r, LARGEST, v) * 8232.0 == 90000000.0
  {
    hide Frequency;
    FrequencyIsVcoOverDivider(r, LARGEST, v);
    SlowRatio(v as real, r as real);
  }

  /** Conversely, whatever meets the other rules at that frequency is feasible. */
  lemma SameFrequency(desired: nat, ppm: nat, c: Candidate, d: Candidate)
    requires Feasible(desired, ppm, c) && c.od == d.od == LARGEST && 4 * c.v == 15 * c.r && 4 * d.v == 15 * d.r
    requires InDomain(d) && ReferenceInRange(d.r) && VcoInRange(d.r, d.od, d.v) && FilterOk(d.r, d.v, d.rs, d.icp)
    ensures Feasible(desired, ppm, d)
  {
    hide FilterOk, ReferenceInRange, VcoInRange, OnGrid, Frequency;
    FrequencyOfSlow(c.r, c.v);
    FrequencyOfSlow(d.r, d.v);
  }

  lemma FourMeetsRules()
    ensures InDomain(FOUR) && ReferenceInRange(4) && VcoInRange(4, LARGEST, 15) && FilterOk(4, 15, 2, 3)
  {
    LargestOnGrid();
    LossyFilter();
  }

  lemma FastestOfSlow(desired: nat, ppm: nat)
    requires desired <= 5466 && LeastBound(desired, ppm)
    ensures Feasible(desired, ppm, FOUR) && Feasible(desired, ppm, SLOWEST)
  {
    hide Feasible, InDomain, FilterOk, ReferenceInRange, VcoInRange;
    var c: Candidate :| Feasible(desired, ppm, c);
    SlowIsSlowest(desired, ppm, c);
    FourMeetsRules();
    SlowestMeetsRules();
    SameFrequency(desired, ppm, c, FOUR);
    SameFrequency(desired, ppm, c, SLOWEST);
  }

  lemma StartAtFourWhole(desired: nat, ppm: nat, allowed: nat)
    requires allowed == ppm * desired
    ensures StartValue(desired, ppm, 4, LARGEST) > -1.0 <==> (allowed - 1000000 * desired) * 32928 < 24000000000000
  {
    var low := desired as real - AllowableError(desired, ppm);
    assert low * 1000000.0 == (1000000 * desired - allowed) as real;
    assert StartValue(desired, ppm, 4, LARGEST) * 24000000.0 == low * 32928.0;
  }

  /** Where the start at r = 4 is cut from, in whole numbers. */
  lemma StartAtFour(desired: nat, ppm: nat)
    requires desired <= 5466 && LeastBound(desired, ppm)
    ensures StartValue(desired, ppm, 4, LARGEST) > -1.0 <==> desired >= 5103
    ensures ppm > 1000000 && StartValue(desired, ppm, 4, LARGEST) <= 15.0
  {
    hide Unreachable;
    WithinAMillion(desired, ppm);
    SlowTargets(desired, ppm - 1);
    SlowTargets(desired, ppm);
    Nonlinear.OneMore(ppm - 1, desired);
    BoundExceedsTarget(desired, ppm);
    StartAtFourWhole(desired, ppm, ppm * desired);
  }

  /** Greater r start no higher above zero. */
  lemma StartFalls(desired: nat, ppm: nat, r: nat)
    requires ppm > 1000000 && r >= 4
    ensures StartValue(desired, ppm, r, LARGEST) <= StartValue(desired, ppm, 4, LARGEST)
  {
    hide AllowableError;
    BoundExceedsTarget(desired, ppm);
    var low := desired as real - AllowableError(desired, ppm);
    assert low <= 0.0;
    Nonlinear.RealAtMost(4.0, r as real, -low);
    assert low * r as real <= low * 4.0;
  }

  /** Below 5103 Hz the search passes over all but the last v. */
  lemma SlowestIsFirst(desired: nat, ppm: nat)
    requires desired < 5103 && LeastBound(desired, ppm)
    ensures FirstIn(desired, ppm, Everywhere, Some(SLOWEST))
  {
    hide Feasible, StartV, StartValue, Unreachable;
    FastestOfSlow(desired, ppm);
    StartAtFour(desired, ppm);
    StartClamped(desired, ppm, 548, LARGEST);
    forall c: Candidate | Live(desired, ppm, c) && c != SLOWEST ensures Before(SLOWEST, c) {
      SlowIsSlowest(desired, ppm, c);
      DomainOfFeasible(desired, ppm, c);
      LiveIsInDomain(desired, ppm, c);
      StartFalls(desired, ppm, c.r);
      CastsFit(desired, ppm, c.r, LARGEST);
      NegativeStart(desired, ppm, c.r, LARGEST);
    }
  }

  /** From 5103 Hz up the start at r = 4 passes nothing over, and nothing comes before r = 4. */
  lemma FirstOfSlow(desired: nat, ppm: nat, best: Candidate, c: Candidate)
    requires 5103 <= desired <= 5466 && LeastBound(desired, ppm)
    requires FirstIn(desired, ppm, Everywhere, Some(best)) && Feasible(desired, ppm, c) && c != best
    ensures Before(best, c)
  {
    hide Feasible, StartV, StartValue, Unreachable;
    FastestOfSlow(desired, ppm);
    StartAtFour(desired, ppm);
    StartNotAbove(desired, ppm, 4, LARGEST, 15);
    assert Live(desired, ppm, FOUR);
    SlowIsSlowest(desired, ppm, c);
    SlowIsSlowest(desired, ppm, best);
  }

  /**
   * The search ends at the first feasible setting exactly for targets of 5103 Hz and more.
   * It is within 1000000 ppm of the target exactly from 5467 Hz up; between the two the
   * cast of the start still comes out right where it matters.
   */
  lemma FirstFeasibleExactly(desired: nat, requested: nat, s: Solution)
    requires LeastError(desired, requested, Some(s))
    ensures FirstFeasible(desired, s) <==> desired >= 5103
    ensures s.ppm <= 1000000 <==> desired >= 5467
  {
    hide Feasible, FirstIn, Before;
    LeastErrorIsLeast(desired, requested, s);
    WithinAMillion(desired, s.ppm);
    if desired < 5103 {
      SlowestIsFirst(desired, s.ppm);
      OnlyOneFirst(desired, s.ppm, s.candidate, SLOWEST);
      FastestOfSlow(desired, s.ppm);
      assert !Before(SLOWEST, FOUR) by { SlowestAfterFour(); }
    } else if desired < 5467 {
      forall c: Candidate | Feasible(desired, s.ppm, c) && c != s.candidate ensures Before(s.candidate, c) {
        FirstOfSlow(desired, s.ppm, s.candidate, c);
      }
    }
  }

  /**
   * From there on the setting found has the least r; of those the greatest od; of those
   * the least v; of those the greatest resistor; of those the least current.
   */
  lemma FirstMeans(desired: nat, requested: nat, s: Solution, c: Candidate)
    requires desired >= 5103 && LeastError(desired, requested, Some(s)) && Feasible(desired, s.ppm, c)
    ensures InDomain(s.candidate) && InDomain(c)
    ensures s.candidate.r <= c.r
    ensures s.candidate.r == c.r ==> c.od <= s.candidate.od
    ensures s.candidate.r == c.r && s.candidate.od == c.od ==> s.candidate.v <= c.v
    ensures s.candidate.r == c.r && s.candidate.od == c.od && s.candidate.v == c.v ==>
      && Resistor(c.rs) <= Resistor(s.candidate.rs)
      && (Resistor(c.rs) == Resistor(s.candidate.rs) ==> Current(s.candidate.icp) <= Current(c.icp))
  {
    hide WithinError, FilterOk, VcoInRange, ReferenceInRange, OnGrid, FirstIn, Unreachable, Resistor, Current;
    FirstFeasibleExactly(desired, requested, s);
    TablesInOrder(s.candidate.rs, c.rs);
    TablesInOrder(c.rs, s.candidate.rs);
    TablesInOrder(s.candidate.icp, c.icp);
  }

  /**
   * Below 5103 Hz every start that matters is past the last v, so that a search that ends
   * at all ends at the last v there is.
   */
  lemma BelowThatTheSlowestWins(desired: nat, requested: nat, s: Solution)
    requires desired < 5103 && LeastError(desired, requested, Some(s))
    ensures s.candidate == SLOWEST
  {
    hide Feasible, FirstIn, Before;
    LeastErrorIsLeast(desired, requested, s);
    SlowestIsFirst(desired, s.ppm);
    OnlyOneFirst(desired, s.ppm, s.candidate, SLOWEST);
  }

  /** At 5000 Hz, whatever more is allowed, the search ends at 1186589 ppm and passes over r = 4, v = 15. */
  lemma PassedOverAt5000(requested: nat)
    requires requested >= 1186589
    ensures LeastError(5000, requested, Some(Solution(1186589, SLOWEST)))
    ensures !FirstFeasible(5000, Solution(1186589, SLOWEST))
  {
    hide Feasible, FirstIn, Before, FirstFeasible;
    SlowTargets(5000, 1186588);
    SlowTargets(5000, 1186589);
    SlowestIsFirst(5000, 1186589);
    Finish(5000, requested, 1186589, SLOWEST);
    FirstFeasibleExactly(5000, requested, Solution(1186589, SLOWEST));
  }

  // ---------------------------------------------------------------- the whole loop

  lemma Failure(desired: nat, requested: nat)
    requires Unreachable(desired, requested)
    ensures LeastError(desired, requested, None)
  {
  }

  method Solve(desired: nat, requestedPpm: nat) returns (result: Option<Solution>)
    requires desired < 0x1_0000_0000
    ensures LeastError(desired, requestedPpm, result)
  {
    hide *;
    var ppm := 0;
    while true
      invariant ppm <= requestedPpm
      invariant ppm == 0 || Unreachable(desired, ppm - 1)
      decreases requestedPpm - ppm
    {
      var found := SearchAtBound(desired, ppm);
      if found.Some? {
        Finish(desired, requestedPpm, ppm, found.value);
        return Some(Solution(ppm, found.value));
      }
      NothingFound(desired, ppm);
      ppm := ppm + 1;
      if ppm > requestedPpm {
        Failure(desired, requestedPpm);
        return None;
      }
    }
  }
}
