// The ICS307-02 solver of the Async-335 cards (GetICS30702Data).
//
// The search runs over an output divider `od`, a reference divider word `rdw` and a
// VCO divider word `vdw`.  It keeps the best frequency at or below the requested rate
// and the best one above it, breaks ties, and packs the nearer of the two in 21 bits.

module Ics30702 {

  import Nonlinear

  const IN_FREQ: nat := 18432000

  /** One setting of the three dividers. */
  datatype Triple = Triple(od: nat, rdw: nat, vdw: nat)

  /** The divider words the loops can visit. */
  predicate InGrid(t: Triple) {
    2 <= t.od <= 10 && t.od != 9 && 1 <= t.rdw <= 127 && 4 <= t.vdw <= 511
  }

  /** The product the reference frequency is divided by. */
  function Divisor(t: Triple): nat
    requires t.od > 0
    ensures Divisor(t) > 0
  {
    Nonlinear.Positive(t.rdw + 2, t.od);
    (t.rdw + 2) * t.od
  }

  /** The frequency the routine computes, with its truncating division. */
  function Check(t: Triple): nat
    requires t.od > 0
  {
    Nonlinear.NonNegative((IN_FREQ * 2) / Divisor(t), t.vdw + 8);
    ((IN_FREQ * 2) / Divisor(t)) * (t.vdw + 8)
  }

  /** The frequency the chip puts out. */
  function ExactFrequency(t: Triple): real
    requires t.od > 0
  {
    (2 * IN_FREQ * (t.vdw + 8)) as real / Divisor(t) as real
  }

  /** The highest rate the part supports with an output divider. */
  function MaxRate(od: nat): nat {
    match od
    case 2 => 180000000
    case 3 => 120000000
    case 4 => 90000000
    case 5 => 72000000
    case 6 => 60000000
    case 7 => 50000000
    case 8 => 45000000
    case _ => 36000000
  }

  /** The operating ranges of the VCO and of the phase detector. */
  predicate InOperatingRange(t: Triple) {
    && 60000000 < (IN_FREQ * 2 * (t.vdw + 8)) / (t.rdw + 2) < 360000000
    && IN_FREQ / (t.rdw + 2) > 200000
  }

  predicate Feasible(rate: nat, t: Triple) {
    InGrid(t) && rate <= MaxRate(t.od) && InOperatingRange(t)
  }

  /** The window of a tenth around the rate, in 32-bit arithmetic as the routine has it. */
  function WindowLow(rate: nat): nat {
    rate - rate / 10
  }

  function WindowHigh(rate: nat): nat {
    (rate + rate / 10) % 0x1_0000_0000
  }

  // ---------------------------------------------------------------- preference

  /** Between triples of one frequency: lowest rdw, then highest vdw, then lowest od. */
  predicate TieBefore(a: Triple, b: Triple) {
    || a.rdw < b.rdw
    || (a.rdw == b.rdw && (a.vdw > b.vdw || (a.vdw == b.vdw && a.od < b.od)))
  }

  /** The test the loop makes on a tie, which does not look at od. */
  predicate BeatsOnTie(t: Triple, best: Triple) {
    best.rdw > t.rdw || (best.rdw == t.rdw && best.vdw < t.vdw)
  }

  /**
   * A triple the low side can take: inside the window, or exactly on its edge with
   * rdw == 1.  The edge counts because the low word starts out with rdw and vdw equal
   * to 1, so that a tie with the edge looks like a tie with an earlier candidate.
   */
  predicate LowCandidate(rate: nat, t: Triple) {
    && Feasible(rate, t)
    && Check(t) <= rate
    && (Check(t) > WindowLow(rate) || (Check(t) == WindowLow(rate) && t.rdw == 1))
  }

  predicate HighCandidate(rate: nat, t: Triple) {
    && Feasible(rate, t)
    && Check(t) > rate
    && (Check(t) < WindowHigh(rate) || (Check(t) == WindowHigh(rate) && t.rdw == 1))
  }

  predicate StrictlyInside(rate: nat, t: Triple) {
    Feasible(rate, t) && WindowLow(rate) < Check(t) < WindowHigh(rate)
  }

  /** The nested loops reach `t` before (od, rdw, vdw). */
  predicate Visited(t: Triple, od: nat, rdw: nat, vdw: nat) {
    t.od < od || (t.od == od && (t.rdw < rdw || (t.rdw == rdw && t.vdw < vdw)))
  }

  /** `best` (at frequency `low`) is the preferred low candidate among those visited. */
  ghost predicate LowBest(rate: nat, od: nat, rdw: nat, vdw: nat, low: nat, best: Triple) {
    if best.od == 1 then
      && low == WindowLow(rate) && best == Triple(1, 1, 1)
      && forall t: Triple :: Visited(t, od, rdw, vdw) ==> !LowCandidate(rate, t)
    else
      && LowCandidate(rate, best) && Check(best) == low && Visited(best, od, rdw, vdw)
      && forall t: Triple :: Visited(t, od, rdw, vdw) && LowCandidate(rate, t) && t != best ==>
           Check(t) < low || (Check(t) == low && TieBefore(best, t))
  }

  ghost predicate HighBest(rate: nat, od: nat, rdw: nat, vdw: nat, hi: nat, best: Triple) {
    if best.od == 1 then
      && hi == WindowHigh(rate) && best == Triple(1, 1, 1)
      && forall t: Triple :: Visited(t, od, rdw, vdw) ==> !HighCandidate(rate, t)
    else
      && HighCandidate(rate, best) && Check(best) == hi && Visited(best, od, rdw, vdw)
      && forall t: Triple :: Visited(t, od, rdw, vdw) && HighCandidate(rate, t) && t != best ==>
           hi < Check(t) || (Check(t) == hi && TieBefore(best, t))
  }

  // ---------------------------------------------------------------- the search

  /** What the low side takes: something no worse than it has, that wins a tie. */
  predicate LowTakes(rate: nat, t: Triple, low: nat, lo: Triple)
    requires t.od > 0
  {
    InOperatingRange(t) && low <= Check(t) <= rate && (Check(t) == low ==> BeatsOnTie(t, lo))
  }

  predicate HighTakes(rate: nat, t: Triple, hi: nat, ho: Triple)
    requires t.od > 0
  {
    InOperatingRange(t) && rate < Check(t) <= hi && (Check(t) == hi ==> BeatsOnTie(t, ho))
  }

  /**
   * The body of the innermost loop.  Whatever path it takes, each side takes the triple
   * exactly when it improves on what that side has, and otherwise stays as it was.
   */
  method Offer(rate: nat, t: Triple, low0: nat, lo0: Triple, hi0: nat, ho0: Triple)
    returns (low: nat, lo: Triple, hi: nat, ho: Triple)
    requires t.od > 0
    requires low0 <= rate <= hi0 && (hi0 == rate ==> low0 == rate)
    ensures if LowTakes(rate, t, low0, lo0) then low == Check(t) && lo == t else low == low0 && lo == lo0
    ensures if HighTakes(rate, t, hi0, ho0) then hi == Check(t) && ho == t else hi == hi0 && ho == ho0
  {
    low, lo, hi, ho := low0, lo0, hi0, ho0;
    var check := Check(t);
    if InOperatingRange(t) {
      if check == low {
        if lo.rdw > t.rdw {
          lo, low := t, check;
        } else if lo.rdw == t.rdw && lo.vdw < t.vdw {
          lo, low := t, check;
        }
      } else if check == hi {
        if ho.rdw > t.rdw {
          ho, hi := t, check;
        } else if ho.rdw == t.rdw && ho.vdw < t.vdw {
          ho, hi := t, check;
        }
      }
      if check > low && check < hi {
        if check > rate {
          hi, ho := check, t;
        } else {
          low, lo := check, t;
        }
      }
    }
  }

  lemma VisitedNext(t: Triple)
    ensures forall u: Triple :: Visited(u, t.od, t.rdw, t.vdw + 1) <==> Visited(u, t.od, t.rdw, t.vdw) || u == t
  {
  }

  lemma LowStep(rate: nat, t: Triple, low: nat, lo: Triple)
    requires InGrid(t) && rate <= MaxRate(t.od) && LowBest(rate, t.od, t.rdw, t.vdw, low, lo)
    ensures if LowTakes(rate, t, low, lo)
            then LowBest(rate, t.od, t.rdw, t.vdw + 1, Check(t), t)
            else LowBest(rate, t.od, t.rdw, t.vdw + 1, low, lo)
  {
    VisitedNext(t);
  }

  lemma HighStep(rate: nat, t: Triple, hi: nat, ho: Triple)
    requires InGrid(t) && rate <= MaxRate(t.od) && HighBest(rate, t.od, t.rdw, t.vdw, hi, ho)
    ensures if HighTakes(rate, t, hi, ho)
            then HighBest(rate, t.od, t.rdw, t.vdw + 1, Check(t), t)
            else HighBest(rate, t.od, t.rdw, t.vdw + 1, hi, ho)
  {
    VisitedNext(t);
  }

  /** Both sides hold their best of what the loops have visited. */
  ghost predicate BothBest(rate: nat, od: nat, rdw: nat, vdw: nat, low: nat, lo: Triple, hi: nat, ho: Triple) {
    LowBest(rate, od, rdw, vdw, low, lo) && HighBest(rate, od, rdw, vdw, hi, ho)
  }

  /** Past the last vdw, the next row is due: what lies between is not on the grid. */
  lemma NextRow(rate: nat, od: nat, rdw: nat, low: nat, lo: Triple, hi: nat, ho: Triple)
    requires BothBest(rate, od, rdw, 512, low, lo, hi, ho)
    ensures BothBest(rate, od, rdw + 1, 4, low, lo, hi, ho)
  {
    assert forall t: Triple :: InGrid(t) ==> (Visited(t, od, rdw, 512) <==> Visited(t, od, rdw + 1, 4));
  }

  /** Past the last row, or with the divider skipped, the next divider is due. */
  lemma NextDivider(rate: nat, od: nat, rdw: nat, low: nat, lo: Triple, hi: nat, ho: Triple)
    requires BothBest(rate, od, rdw, 4, low, lo, hi, ho)
    requires rdw == 128 || (rdw == 1 && rate > MaxRate(od)) || (rdw == 1 && od == 9)
    ensures BothBest(rate, od + 1, 1, 4, low, lo, hi, ho)
  {
    assert forall t: Triple :: Feasible(rate, t) ==> (Visited(t, od, rdw, 4) <==> Visited(t, od + 1, 1, 4));
  }

  lemma WindowAround(rate: nat)
    requires rate <= 180000000
    ensures WindowLow(rate) <= rate <= WindowHigh(rate) == rate + rate / 10
    ensures WindowHigh(rate) == rate ==> WindowLow(rate) == rate
  {
  }

  /** Below the highest rate of the part nothing wraps around, so the window encloses the rate. */
  lemma WindowEncloses(rate: nat, od: nat, rdw: nat, vdw: nat, low: nat, lo: Triple, hi: nat, ho: Triple)
    requires rate <= 180000000 && BothBest(rate, od, rdw, vdw, low, lo, hi, ho)
    ensures WindowLow(rate) <= low <= rate <= hi <= WindowHigh(rate) == rate + rate / 10
    ensures hi == rate ==> low == rate
  {
    hide Feasible, Check, Visited, TieBefore, WindowLow, WindowHigh;
    WindowAround(rate);
  }

  /** One turn of the innermost loop. */
  method Visit(rate: nat, t: Triple, low0: nat, lo0: Triple, hi0: nat, ho0: Triple)
    returns (low: nat, lo: Triple, hi: nat, ho: Triple)
    requires InGrid(t) && rate <= MaxRate(t.od)
    requires BothBest(rate, t.od, t.rdw, t.vdw, low0, lo0, hi0, ho0)
    ensures BothBest(rate, t.od, t.rdw, t.vdw + 1, low, lo, hi, ho)
  {
    WindowEncloses(rate, t.od, t.rdw, t.vdw, low0, lo0, hi0, ho0);
    LowStep(rate, t, low0, lo0);
    HighStep(rate, t, hi0, ho0);
    low, lo, hi, ho := Offer(rate, t, low0, lo0, hi0, ho0);
  }

  /** The inner two loops, for one output divider. */
  method SearchDivider(rate: nat, od: nat, low0: nat, lo0: Triple, hi0: nat, ho0: Triple)
    returns (low: nat, lo: Triple, hi: nat, ho: Triple)
    requires 2 <= od <= 10 && od != 9
    requires BothBest(rate, od, 1, 4, low0, lo0, hi0, ho0)
    ensures BothBest(rate, od + 1, 1, 4, low, lo, hi, ho)
  {
    hide *;
    low, lo, hi, ho := low0, lo0, hi0, ho0;
    var odskip := rate > MaxRate(od);
    var rdw := 1;
    while rdw <= 127 && !odskip
      invariant 1 <= rdw <= 128 && (odskip ==> rdw == 1)
      invariant BothBest(rate, od, rdw, 4, low, lo, hi, ho)
    {
      var vdw := 4;
      while vdw <= 511
        invariant 4 <= vdw <= 512
        invariant BothBest(rate, od, rdw, vdw, low, lo, hi, ho)
      {
        low, lo, hi, ho := Visit(rate, Triple(od, rdw, vdw), low, lo, hi, ho);
        vdw := vdw + 1;
      }
      NextRow(rate, od, rdw, low, lo, hi, ho);
      rdw := rdw + 1;
    }
    NextDivider(rate, od, rdw, low, lo, hi, ho);
  }

  lemma NothingVisited(rate: nat)
    ensures BothBest(rate, 2, 1, 4, WindowLow(rate), Triple(1, 1, 1), WindowHigh(rate), Triple(1, 1, 1))
  {
  }

  /** All three loops: the best candidate of each side among all feasible triples. */
  method SearchAll(rate: nat) returns (low: nat, lo: Triple, hi: nat, ho: Triple)
    ensures BothBest(rate, 11, 1, 4, low, lo, hi, ho)
  {
    hide *;
    low, lo := WindowLow(rate), Triple(1, 1, 1);
    hi, ho := WindowHigh(rate), Triple(1, 1, 1);
    NothingVisited(rate);
    var od := 2;
    while od <= 10
      invariant 2 <= od <= 11 && od != 9
      invariant BothBest(rate, od, 1, 4, low, lo, hi, ho)
    {
      low, lo, hi, ho := SearchDivider(rate, od, low, lo, hi, ho);
      od := od + 1;
      if od == 9 {
        NextDivider(rate, 9, 1, low, lo, hi, ho);
        od := od + 1;
      }
    }
  }

  // ---------------------------------------------------------------- the choice

  function Distance(rate: nat, t: Triple): nat
    requires t.od > 0
  {
    if Check(t) > rate then Check(t) - rate else rate - Check(t)
  }

  /**
   * No feasible triple is nearer the rate than `t`; at the same distance `t` is on the
   * low side; and among triples of its frequency inside the window `t` wins every tie.
   */
  ghost predicate Optimal(rate: nat, t: Triple) {
    && Feasible(rate, t)
    && (forall u: Triple :: Feasible(rate, u) ==>
          Distance(rate, t) < Distance(rate, u) || (Distance(rate, t) == Distance(rate, u) && Check(t) <= Check(u)))
    && (forall u: Triple :: StrictlyInside(rate, u) && Check(u) == Check(t) && u != t ==> TieBefore(t, u))
  }

  /** The routine has something to return: a triple inside the window, or one it takes on the low edge. */
  ghost predicate Solvable(rate: nat) {
    exists t: Triple :: StrictlyInside(rate, t) || (LowCandidate(rate, t) && Check(t) == WindowLow(rate))
  }

  /** 64-bit unsigned subtraction. */
  function Minus64(a: nat, b: nat): nat
    requires a < 0x1_0000_0000_0000_0000 && b < 0x1_0000_0000_0000_0000
  {
    if a >= b then a - b else a - b + 0x1_0000_0000_0000_0000
  }

  /** Nothing is feasible above the highest rate, so neither side found anything. */
  lemma TooFast(rate: nat, low: nat, lo: Triple, hi: nat, ho: Triple)
    requires rate > 180000000 && BothBest(rate, 11, 1, 4, low, lo, hi, ho)
    ensures lo.od == ho.od == 1 && !Solvable(rate)
  {
  }

  /** At the end of the loops the low side has the nearest feasible frequency at or below the rate. */
  lemma NearestBelow(rate: nat, low: nat, lo: Triple, u: Triple)
    requires LowBest(rate, 11, 1, 4, low, lo) && Feasible(rate, u) && Check(u) <= rate
    ensures Check(u) <= low
    ensures Check(u) == low && lo.od != 1 && u != lo && (u.rdw == 1 || low > WindowLow(rate)) ==> TieBefore(lo, u)
    ensures lo.od == 1 ==> Check(u) < low || (Check(u) == low && u.rdw != 1)
  {
    assert Visited(u, 11, 1, 4);
  }

  lemma NearestAbove(rate: nat, hi: nat, ho: Triple, u: Triple)
    requires rate <= 180000000 && HighBest(rate, 11, 1, 4, hi, ho) && Feasible(rate, u) && Check(u) > rate
    ensures hi <= Check(u)
    ensures Check(u) == hi && ho.od != 1 && u != ho && hi < WindowHigh(rate) ==> TieBefore(ho, u)
  {
    assert Visited(u, 11, 1, 4);
  }

  lemma HighChosen(rate: nat, low: nat, lo: Triple, hi: nat, ho: Triple)
    requires rate <= 180000000 && BothBest(rate, 11, 1, 4, low, lo, hi, ho)
    requires hi - rate < rate - low
    ensures StrictlyInside(rate, ho) && Optimal(rate, ho)
  {
    WindowEncloses(rate, 11, 1, 4, low, lo, hi, ho);
    forall u: Triple | Feasible(rate, u)
      ensures Distance(rate, ho) < Distance(rate, u) || (Check(u) == Check(ho) == hi)
      ensures StrictlyInside(rate, u) && Check(u) == Check(ho) && u != ho ==> TieBefore(ho, u)
    {
      if Check(u) <= rate { NearestBelow(rate, low, lo, u); } else { NearestAbove(rate, hi, ho, u); }
    }
  }

  lemma LowChosen(rate: nat, low: nat, lo: Triple, hi: nat, ho: Triple)
    requires rate <= 180000000 && BothBest(rate, 11, 1, 4, low, lo, hi, ho)
    requires hi - rate >= rate - low
    ensures if lo.od == 1 then !Solvable(rate) else LowCandidate(rate, lo) && Optimal(rate, lo)
  {
    WindowEncloses(rate, 11, 1, 4, low, lo, hi, ho);
    forall u: Triple | Feasible(rate, u)
      ensures Check(u) <= low || hi <= Check(u)
      ensures lo.od == 1 ==> !StrictlyInside(rate, u) && !LowCandidate(rate, u)
      ensures lo.od != 1 && StrictlyInside(rate, u) && Check(u) == low && u != lo ==> TieBefore(lo, u)
    {
      if Check(u) <= rate { NearestBelow(rate, low, lo, u); } else { NearestAbove(rate, hi, ho, u); }
    }
  }

  // ---------------------------------------------------------------- the ranges of the part

  /** The highest rate of a divider is 360 MHz divided by it, but for 7, where it is 50 MHz. */
  lemma HighestRates(rate: nat, od: nat)
    requires 2 <= od <= 10 && od != 9
    ensures rate <= MaxRate(od) <==> rate * od <= 360000000 && (od == 7 ==> rate <= 50000000)
  {
  }

  /** The operating ranges, multiplied out. */
  lemma RangeExactly(t: Triple)
    ensures InOperatingRange(t) <==>
      && 60000001 * (t.rdw + 2) <= 36864000 * (t.vdw + 8) < 360000000 * (t.rdw + 2)
      && t.rdw <= 90
  {
    var n, k := IN_FREQ * 2 * (t.vdw + 8), t.rdw + 2;
    Nonlinear.QuotientAtLeast(n, k, 60000001);
    Nonlinear.QuotientAtLeast(n, k, 360000000);
    Nonlinear.QuotientAtLeast(IN_FREQ, k, 200001);
  }

  /** Exactly the settings the routine considers. */
  lemma FeasibleExactly(rate: nat, t: Triple)
    ensures Feasible(rate, t) <==>
      && t.od in {2, 3, 4, 5, 6, 7, 8, 10} && 1 <= t.rdw <= 90 && 4 <= t.vdw <= 511
      && rate * t.od <= 360000000 && (t.od == 7 ==> rate <= 50000000)
      && 60000001 * (t.rdw + 2) <= 36864000 * (t.vdw + 8) < 360000000 * (t.rdw + 2)
  {
    hide InOperatingRange, MaxRate;
    RangeExactly(t);
    if InGrid(t) { HighestRates(rate, t.od); }
  }

  /** What the chip's VCO and phase detector run at. */
  function VcoFrequency(t: Triple): real {
    (2 * IN_FREQ * (t.vdw + 8)) as real / (t.rdw + 2) as real
  }

  function ReferenceFrequency(t: Triple): real {
    IN_FREQ as real / (t.rdw + 2) as real
  }

  /**
   * Every setting the routine considers, and so every one it chooses, runs the VCO
   * between 60 and 360 MHz and the phase detector above 200 kHz, truncation or not.
   */
  lemma ChosenInRange(rate: nat, t: Triple)
    requires Feasible(rate, t)
    ensures 60000000.0 < VcoFrequency(t) < 360000000.0 && ReferenceFrequency(t) > 200000.0
  {
    hide Check;
    FeasibleExactly(rate, t);
    var k := t.rdw + 2;
    Nonlinear.QuotientBetween(2 * IN_FREQ * (t.vdw + 8), k, 60000001, 360000000);
    Nonlinear.QuotientBetween(IN_FREQ, k, 200001, IN_FREQ + 1);
  }

  lemma Scaled(x: real, k: real, limit: real)
    requires k > 0.0
    ensures limit <= x / k <==> limit * k <= x
  {
    Nonlinear.QuotientTimes(x, k);
    Nonlinear.CompareProducts(limit, x / k, k, limit * k, x);
  }

  /** Conversely, a divider word in range that runs them there, with 1 Hz to spare, is considered. */
  lemma InRangeIsConsidered(rate: nat, t: Triple)
    requires InGrid(t) && rate * t.od <= 360000000 && (t.od == 7 ==> rate <= 50000000)
    requires 60000001.0 <= VcoFrequency(t) < 360000000.0 && ReferenceFrequency(t) >= 200001.0
    ensures Feasible(rate, t)
  {
    hide InOperatingRange, MaxRate;
    HighestRates(rate, t.od);
    RangeExactly(t);
    var k := (t.rdw + 2) as real;
    Scaled((2 * IN_FREQ * (t.vdw + 8)) as real, k, 60000001.0);
    Scaled((2 * IN_FREQ * (t.vdw + 8)) as real, k, 360000000.0);
    Scaled(IN_FREQ as real, k, 200001.0);
  }

  /** The frequency computed is the multiple of vdw + 8 by the whole part of the other factor. */
  lemma CheckExactly(t: Triple, m: nat)
    requires t.od > 0
    ensures m * ((t.rdw + 2) * t.od) <= 36864000 < (m + 1) * ((t.rdw + 2) * t.od) ==> Check(t) == m * (t.vdw + 8)
  {
    Nonlinear.QuotientAtLeast(IN_FREQ * 2, Divisor(t), m);
    Nonlinear.QuotientAtLeast(IN_FREQ * 2, Divisor(t), m + 1);
  }

  // ---------------------------------------------------------------- packing

  /** The chip's code for an output divider; 0 stands for the error return. */
  function DividerCode(od: nat): nat {
    match od
    case 2 => 0x11
    case 3 => 0x16
    case 4 => 0x13
    case 5 => 0x14
    case 6 => 0x17
    case 7 => 0x15
    case 8 => 0x12
    case 10 => 0x10
    case _ => 0
  }

  /** How the chip reads the code of an output divider. */
  function DividerOf(code: nat): nat {
    match code
    case 0x11 => 2
    case 0x16 => 3
    case 0x13 => 4
    case 0x14 => 5
    case 0x17 => 6
    case 0x15 => 7
    case 0x12 => 8
    case 0x10 => 10
    case _ => 1
  }

  /** How the chip reads a programming word: the code, 9 bits of vdw, 7 bits of rdw. */
  function Unpack(word: nat): Triple {
    Triple(DividerOf(word / 0x1_0000), word % 0x80, (word / 0x80) % 0x200)
  }

  /** What the routine hands back: a status and, when that is 0, a word. */
  datatype Outcome = Failed | Programmed(word: nat)

  /**
   * The code and the two words, packed by shifts and ors.  The words fit the zeros the
   * shifts bring in, so an or is a sum.
   */
  method Pack(t: Triple) returns (outcome: Outcome)
    requires t.vdw < 0x200 && t.rdw < 0x80
    ensures outcome.Failed? <==> DividerCode(t.od) == 0
    ensures outcome.Programmed? ==> Unpack(outcome.word) == t && outcome.word < 0x20_0000
    ensures outcome.Programmed? ==> outcome.word == DividerCode(t.od) * 0x1_0000 + t.vdw * 0x80 + t.rdw
  {
    var result := DividerCode(t.od);
    if result == 0 {
      return Failed;
    }
    result := result * 0x200;
    result := result + t.vdw;
    result := result * 0x80;
    result := result + t.rdw;
    outcome := Programmed(result);
  }

  /** The words of each divider with the other settings of the default word. */
  lemma WordsOfDividers()
    ensures Unpack(0x110801) == Triple(2, 1, 16) && Unpack(0x160801) == Triple(3, 1, 16)
    ensures Unpack(0x130801) == Triple(4, 1, 16) && Unpack(0x140801) == Triple(5, 1, 16)
    ensures Unpack(0x170801) == Triple(6, 1, 16) && Unpack(0x150801) == Triple(7, 1, 16)
    ensures Unpack(0x120801) == Triple(8, 1, 16)
    ensures forall code :: code !in {0x10, 0x11, 0x12, 0x13, 0x14, 0x15, 0x16, 0x17} ==> DividerOf(code) == 1
  {
  }

  /** No other word of 21 bits is read as the setting. */
  lemma WordIsUnique(word: nat, word': nat)
    requires word < 0x20_0000 && word' < 0x20_0000
    requires Unpack(word) == Unpack(word') && Unpack(word).od != 1
    ensures word == word'
  {
    assert word == word / 0x1_0000 * 0x1_0000 + (word / 0x80) % 0x200 * 0x80 + word % 0x80;
    assert word' == word' / 0x1_0000 * 0x1_0000 + (word' / 0x80) % 0x200 * 0x80 + word' % 0x80;
  }

  /** PCI_29MHZ_BITS, the word the driver starts a card with. */
  lemma DefaultWord()
    ensures Unpack(0x100801) == Triple(10, 1, 16)
  {
  }

  lemma SidesFit(rate: nat, low: nat, lo: Triple, hi: nat, ho: Triple)
    requires rate < 0x1_0000_0000 && BothBest(rate, 11, 1, 4, low, lo, hi, ho)
    ensures low <= rate && hi < 0x1_0000_0000
    ensures lo.vdw < 512 && lo.rdw < 128 && (DividerCode(lo.od) == 0 <==> lo.od == 1)
    ensures ho.vdw < 512 && ho.rdw < 128 && (DividerCode(ho.od) == 0 <==> ho.od == 1)
  {
  }

  lemma WinnerSolves(rate: nat, t: Triple)
    requires rate <= 180000000 && (StrictlyInside(rate, t) || LowCandidate(rate, t))
    ensures Solvable(rate) && t.od != 1
  {
  }

  /** The comparison of the two distances picks the optimal triple, or one that stands for failure. */
  lemma Choice(rate: nat, low: nat, lo: Triple, hi: nat, ho: Triple)
    requires rate < 0x1_0000_0000 && low <= rate && hi < 0x1_0000_0000
    requires BothBest(rate, 11, 1, 4, low, lo, hi, ho)
    ensures var best := if Minus64(hi, rate) < Minus64(rate, low) then ho else lo;
      (best.od == 1 <==> !Solvable(rate)) && (best.od != 1 ==> Optimal(rate, best))
  {
    if rate > 180000000 {
      TooFast(rate, low, lo, hi, ho);
    } else {
      WindowEncloses(rate, 11, 1, 4, low, lo, hi, ho);
      if hi - rate < rate - low {
        HighChosen(rate, low, lo, hi, ho);
        WinnerSolves(rate, ho);
      } else {
        LowChosen(rate, low, lo, hi, ho);
        if lo.od != 1 { WinnerSolves(rate, lo); }
      }
    }
  }

  /**
   * The whole routine.  It fails exactly when there is nothing to find, and otherwise
   * returns a word that the chip reads as an optimal triple.
   */
  method GetICS30702Data(rate: nat) returns (outcome: Outcome)
    requires rate < 0x1_0000_0000
    ensures outcome.Programmed? <==> Solvable(rate)
    ensures outcome.Programmed? ==> outcome.word < 0x20_0000 && Optimal(rate, Unpack(outcome.word))
  {
    hide *;
    var low, lo, hi, ho := SearchAll(rate);
    SidesFit(rate, low, lo, hi, ho);
    var best := if Minus64(hi, rate) < Minus64(rate, low) then ho else lo;
    Choice(rate, low, lo, hi, ho);
    outcome := Pack(best);
  }

  /** With rdw = 1, which nothing undercuts, a higher vdw at the same frequency needs a higher od. */
  lemma FastestTie(u: Triple)
    requires InGrid(u) && u.rdw == 1 && Check(u) == 29491200
    ensures u.vdw <= 16 && (u.vdw == 16 ==> u.od == 10)
  {
    var d := Divisor(u);
    assert d == 3 * u.od;
    Nonlinear.QuotientAntitone(IN_FREQ * 2, d, 30);
    var step := (IN_FREQ * 2) / d;
    if u.vdw > 16 { Nonlinear.ProductsOrdered(1228800, step, 25, u.vdw + 8); }
  }

  lemma TiesAreOneWay(a: Triple, b: Triple)
    ensures !(TieBefore(a, b) && TieBefore(b, a))
  {
  }

  /** The driver's default word is the one the routine computes for 29.4912 MHz. */
  lemma DefaultWordIsComputed(word: nat)
    requires word < 0x20_0000
    ensures Optimal(29491200, Unpack(word)) <==> word == 0x100801
  {
    hide InOperatingRange, MaxRate;
    var best := Triple(10, 1, 16);
    DefaultWord();
    assert Divisor(best) == 30 && Check(best) == 29491200;
    FeasibleExactly(29491200, best);
    forall u: Triple | StrictlyInside(29491200, u) && Check(u) == Check(best) && u != best ensures TieBefore(best, u) {
      if u.rdw == 1 { FastestTie(u); }
    }
    assert Optimal(29491200, best);
    var t := Unpack(word);
    if Optimal(29491200, t) {
      assert Distance(29491200, t) == 0;
      TiesAreOneWay(t, best);
      WordIsUnique(word, 0x100801);
    }
  }

  /** calculate_clock_bits_335: an unsigned long frequency, cut to the 32 bits of the parameter. */
  method CalculateClockBits335(freq: nat) returns (outcome: Outcome)
    requires freq < 0x1_0000_0000_0000_0000
    ensures outcome.Programmed? <==> Solvable(freq % 0x1_0000_0000)
    ensures outcome.Programmed? ==> outcome.word < 0x20_0000 && Optimal(freq % 0x1_0000_0000, Unpack(outcome.word))
  {
    outcome := GetICS30702Data(freq % 0x1_0000_0000);
  }

  // ---------------------------------------------------------------- what the result is worth

  /** A feasible triple near any rate of the documented range. */
  function Witness(rate: nat): Triple
    requires 6000000 <= rate <= 180000000
  {
    if rate <= 36000000
    then Triple(10, 6, (if rate < 6451200 then 14 else rate / 460800) - 8)
    else Triple(2, 6, rate / 2304000 - 8)
  }

  /** How far from the rate the routine can end up, at worst. */
  function WorstDistance(rate: nat): nat {
    if rate <= 36000000 then 460800 else 2304000
  }

  lemma TenthGrid(vdw: nat)
    requires 6 <= vdw <= 70
    ensures Check(Triple(10, 6, vdw)) == 460800 * (vdw + 8) && InOperatingRange(Triple(10, 6, vdw))
  {
    assert Divisor(Triple(10, 6, vdw)) == 80;
  }

  lemma HalfGrid(vdw: nat)
    requires 6 <= vdw <= 70
    ensures Check(Triple(2, 6, vdw)) == 2304000 * (vdw + 8) && InOperatingRange(Triple(2, 6, vdw))
  {
    assert Divisor(Triple(2, 6, vdw)) == 16;
  }

  lemma WitnessIsNear(rate: nat)
    requires 6000000 <= rate <= 180000000
    ensures StrictlyInside(rate, Witness(rate)) && Distance(rate, Witness(rate)) < WorstDistance(rate)
  {
    var t := Witness(rate);
    if rate <= 36000000 {
      TenthGrid(t.vdw);
    } else {
      HalfGrid(t.vdw);
    }
  }

  /** In the whole documented range the routine succeeds, and comes within one step of the coarsest grid. */
  lemma DocumentedRangeSucceeds(rate: nat)
    requires 6000000 <= rate <= 180000000
    ensures Solvable(rate)
    ensures forall t: Triple :: Optimal(rate, t) ==> Distance(rate, t) < WorstDistance(rate) <= rate / 10
  {
    WitnessIsNear(rate);
  }

  // ---------------------------------------------------------------- exactly which rates succeed

  /** With reference divider k = rdw + 2: the least multiplier in range, times the coarsest step. */
  function LeastCheck(k: nat): nat
    requires k > 0
  {
    (3686400 / k) * ((60000001 * k + 36863999) / 36864000)
  }

  predicate RowsReach(k: nat, count: nat)
    requires k > 0
    decreases count
  {
    if count == 0 then true else LeastCheck(k) >= 6001100 && RowsReach(k + 1, count - 1)
  }

  lemma {:induction false} RowReaches(start: nat, count: nat, k: nat)
    requires 0 < start <= k < start + count && RowsReach(start, count)
    ensures LeastCheck(k) >= 6001100
    decreases count
  {
    hide LeastCheck;
    if start < k { RowReaches(start + 1, count - 1, k); }
  }

  /** All ninety reference dividers, by evaluation, ten at a time. */
  lemma RowsTo32(start: nat)
    requires start in {3, 13, 23}
    ensures RowsReach(start, 10)
  {
    match start
    case 3 => assert RowsReach(3, 10);
    case 13 => assert RowsReach(13, 10);
    case 23 => assert RowsReach(23, 10);
    case _ =>
  }

  lemma RowsTo62(start: nat)
    requires start in {33, 43, 53}
    ensures RowsReach(start, 10)
  {
    match start
    case 33 => assert RowsReach(33, 10);
    case 43 => assert RowsReach(43, 10);
    case 53 => assert RowsReach(53, 10);
    case _ =>
  }

  lemma RowsTo92(start: nat)
    requires start in {63, 73, 83}
    ensures RowsReach(start, 10)
  {
    match start
    case 63 => assert RowsReach(63, 10);
    case 73 => assert RowsReach(73, 10);
    case 83 => assert RowsReach(83, 10);
    case _ =>
  }

  lemma EveryRowReaches(k: nat)
    requires 3 <= k <= 92
    ensures LeastCheck(k) >= 6001100
  {
    hide LeastCheck, RowsReach;
    var start := (k - 3) / 10 * 10 + 3;
    assert start in {3, 13, 23, 33, 43, 53, 63, 73, 83};
    if start <= 23 {
      RowsTo32(start);
    } else if start <= 53 {
      RowsTo62(start);
    } else {
      RowsTo92(start);
    }
    RowReaches(start, 10, k);
  }

  lemma RangeBounds(t: Triple)
    requires InOperatingRange(t)
    ensures t.rdw + 2 <= 92 && 60000001 * (t.rdw + 2) <= IN_FREQ * 2 * (t.vdw + 8)
  {
    Nonlinear.QuotientAtLeast(IN_FREQ, t.rdw + 2, 200001);
    Nonlinear.QuotientAtLeast(IN_FREQ * 2 * (t.vdw + 8), t.rdw + 2, 60000001);
  }

  lemma LeastCheckIsLeast(k: nat, n: nat, step: nat)
    requires k > 0 && 60000001 * k <= IN_FREQ * 2 * n && IN_FREQ / 5 / k <= step
    ensures LeastCheck(k) <= step * n
  {
    Nonlinear.Division(IN_FREQ / 5, k);
    var m := (60000001 * k + 36863999) / 36864000;
    assert m <= n;
    Nonlinear.ProductsOrdered(IN_FREQ / 5 / k, step, m, n);
  }

  lemma CoarsestStep(t: Triple)
    requires InGrid(t)
    ensures 0 <= IN_FREQ / 5 / (t.rdw + 2) <= (IN_FREQ * 2) / Divisor(t)
  {
    var k := t.rdw + 2;
    Nonlinear.DivideTwice(IN_FREQ * 2, 10, k);
    Nonlinear.Monotone(t.od, 10, k);
    assert k * t.od == t.od * k;
    Nonlinear.Positive(k, t.od);
    Nonlinear.QuotientAntitone(IN_FREQ * 2, Divisor(t), 10 * k);
    Nonlinear.Division(IN_FREQ / 5, k);
  }

  /** No feasible frequency is below the one of od 10, rdw 41, vdw 62. */
  lemma SlowestCheck(rate: nat, t: Triple)
    requires Feasible(rate, t)
    ensures Check(t) >= 6001100
  {
    hide LeastCheck, RowsReach, InOperatingRange, Divisor;
    var k, n := t.rdw + 2, t.vdw + 8;
    RangeBounds(t);
    EveryRowReaches(k);
    CoarsestStep(t);
    LeastCheckIsLeast(k, n, (IN_FREQ * 2) / Divisor(t));
  }

  lemma SlowestIsFeasible(rate: nat)
    requires rate <= 36000000
    ensures Feasible(rate, Triple(10, 41, 62)) && Check(Triple(10, 41, 62)) == 6001100
  {
    assert Divisor(Triple(10, 41, 62)) == 430;
  }

  /**
   * Of all 32-bit rates the routine has a word for exactly those from 5455547 Hz, whose
   * window just reaches the slowest feasible frequency, to 180 MHz.
   */
  lemma SolvableExactly(rate: nat)
    requires rate < 0x1_0000_0000
    ensures Solvable(rate) <==> 5455547 <= rate <= 180000000
  {
    if 6000000 <= rate <= 180000000 {
      DocumentedRangeSucceeds(rate);
    } else if 5455547 <= rate < 6000000 {
      SlowestIsFeasible(rate);
      assert StrictlyInside(rate, Triple(10, 41, 62));
    } else {
      hide InOperatingRange, Check;
      forall t: Triple | Feasible(rate, t) ensures Check(t) >= 6001100 && rate <= 180000000 {
        SlowestCheck(rate, t);
      }
    }
  }

  // ---------------------------------------------------------------- truncation

  /** The computed frequency truncates the exact one, by less than vdw + 8. */
  lemma TruncationBound(t: Triple)
    requires t.od > 0
    ensures Check(t) as real <= ExactFrequency(t) < (Check(t) + t.vdw + 8) as real
  {
    var n, d, m := 2 * IN_FREQ, Divisor(t), t.vdw + 8;
    var q := n / d;
    assert q * d <= n < (q + 1) * d by { Nonlinear.Division(n, d); }
    Nonlinear.ScaledQuotient(n, d, q, m);
    assert Check(t) == q * m;
    assert (q + 1) * m == Check(t) + t.vdw + 8 by { Nonlinear.OneMore(q, m); }
  }

  function ExactDistance(rate: nat, t: Triple): real
    requires t.od > 0
  {
    if ExactFrequency(t) > rate as real then ExactFrequency(t) - rate as real else rate as real - ExactFrequency(t)
  }

  /**
   * The routine compares truncated frequencies.  The exact frequency it ends up with
   * is still within 1038 Hz of being the nearest exact one.
   */
  lemma ExactNearlyOptimal(rate: nat, t: Triple, u: Triple)
    requires Optimal(rate, t) && Feasible(rate, u)
    ensures ExactDistance(rate, t) < ExactDistance(rate, u) + 1038.0
  {
    TruncationBound(t);
    TruncationBound(u);
  }
}
