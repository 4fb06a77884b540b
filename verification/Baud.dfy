// The baud rate arithmetic of the Async-PCIe cards: a divisor in sixteenths, computed
// and read back with truncating division.

module Baud {

  import Nonlinear

  const INPUT_FREQ: nat := 125000000

  /** The divisor the setter computes, in sixteenths of a tick. */
  function Divisor(value: nat, sampleRate: nat): nat
    requires value > 0 && sampleRate > 0
  {
    Nonlinear.Positive(value, sampleRate);
    (INPUT_FREQ * 16) / (value * sampleRate)
  }

  /** The rate the getter computes from a divisor. */
  function Rate(divisor: nat, sampleRate: nat): nat
    requires divisor > 0 && sampleRate > 0
  {
    Nonlinear.Division(INPUT_FREQ * 16, divisor);
    Nonlinear.Division((INPUT_FREQ * 16) / divisor, sampleRate);
    ((INPUT_FREQ * 16) / divisor) / sampleRate
  }

  /** The setter's range check. */
  predicate Accepted(value: nat, sampleRate: nat)
    requires sampleRate > 0
  {
    value <= INPUT_FREQ / sampleRate
  }

  /** The divisor as the twenty bits of the latches hold it. */
  function Latched(value: nat, sampleRate: nat): nat
    requires value > 0 && sampleRate > 0
  {
    Divisor(value, sampleRate) % 0x10_0000
  }

  /** The rate a divisor reads back is not below what was asked for, and less than value / divisor above it. */
  predicate ReadsBackClose(value: nat, divisor: nat, sampleRate: nat)
    requires divisor > 0 && sampleRate > 0
  {
    value <= Rate(divisor, sampleRate) && (Rate(divisor, sampleRate) - value) * divisor < value
  }

  /** Both directions divide the same number by what they are given. */
  lemma BothDivide(value: nat, sampleRate: nat)
    requires value > 0 && sampleRate > 0
    ensures Divisor(value, sampleRate) == ((INPUT_FREQ * 16) / sampleRate) / value
    ensures Rate(value, sampleRate) == ((INPUT_FREQ * 16) / sampleRate) / value
  {
    Nonlinear.DivideTwice(INPUT_FREQ * 16, sampleRate, value);
    Nonlinear.DivideTwice(INPUT_FREQ * 16, value, sampleRate);
    assert sampleRate * value == value * sampleRate;
  }

  /** x goes to at least y exactly if x * y fits: division is its own adjoint. */
  lemma Adjoint(n: nat, x: nat, y: nat)
    requires x > 0 && y > 0
    ensures y <= n / x <==> x <= n / y
  {
    Nonlinear.QuotientAtLeast(n, x, y);
    Nonlinear.QuotientAtLeast(n, y, x);
    assert x * y == y * x;
  }

  lemma CloseAbove(n: nat, d: nat, value: nat, g: nat)
    requires g * d <= n < (d + 1) * value
    ensures (g - value) * d < value
  {
    assert (g - value) * d == g * d - value * d;
    Nonlinear.OneMore(d, value);
  }

  /**
   * The rate read back is the least one any divisor reads back that is not below what
   * was asked for, and less than value / divisor above it.
   */
  lemma ReadBack(value: nat, sampleRate: nat)
    requires value > 0 && sampleRate > 0 && Divisor(value, sampleRate) > 0
    ensures var d := Divisor(value, sampleRate);
      var g := Rate(d, sampleRate);
      && ReadsBackClose(value, d, sampleRate)
      && forall d': nat :: d' > 0 && value <= Rate(d', sampleRate) ==> g <= Rate(d', sampleRate)
  {
    var n, d := (INPUT_FREQ * 16) / sampleRate, Divisor(value, sampleRate);
    BothDivide(value, sampleRate);
    BothDivide(d, sampleRate);
    var g := n / d;
    Adjoint(n, d, value);
    Nonlinear.Division(n, d);
    Nonlinear.Division(n, value);
    CloseAbove(n, d, value, g);
    forall d': nat | d' > 0 && value <= Rate(d', sampleRate) ensures g <= Rate(d', sampleRate) {
      BothDivide(d', sampleRate);
      Adjoint(n, d', value);
      Nonlinear.QuotientAntitone(n, d', d);
    }
  }

  /** Setting the rate that was read back computes the same divisor again. */
  lemma SetGetSet(value: nat, sampleRate: nat)
    requires value > 0 && sampleRate > 0 && Divisor(value, sampleRate) > 0
    ensures var g := Rate(Divisor(value, sampleRate), sampleRate);
      g > 0 && Divisor(g, sampleRate) == Divisor(value, sampleRate)
  {
    var n, d := (INPUT_FREQ * 16) / sampleRate, Divisor(value, sampleRate);
    var g := Rate(d, sampleRate);
    BothDivide(value, sampleRate);
    BothDivide(d, sampleRate);
    ReadBack(value, sampleRate);
    BothDivide(g, sampleRate);
    Nonlinear.QuotientAntitone(n, value, g);
    Adjoint(n, d, g);
  }

  /** The divisor of an accepted rate is at least one whole tick, and the rate read back is accepted too. */
  lemma ReadBackAccepted(value: nat, sampleRate: nat)
    requires value > 0 && sampleRate > 0 && Accepted(value, sampleRate)
    ensures Divisor(value, sampleRate) >= 16
    ensures Accepted(Rate(Divisor(value, sampleRate), sampleRate), sampleRate)
  {
    var n, d := (INPUT_FREQ * 16) / sampleRate, Divisor(value, sampleRate);
    BothDivide(value, sampleRate);
    Nonlinear.QuotientAtLeast(INPUT_FREQ, sampleRate, value);
    Nonlinear.Positive(value, sampleRate);
    Nonlinear.QuotientAtLeast(INPUT_FREQ * 16, value * sampleRate, 16);
    assert 16 * (value * sampleRate) <= INPUT_FREQ * 16;
    BothDivide(d, sampleRate);
    Nonlinear.QuotientAntitone(n, 16, d);
    Nonlinear.DivideTwice(INPUT_FREQ * 16, 16, sampleRate);
    Nonlinear.DivideTwice(INPUT_FREQ * 16, sampleRate, 16);
    assert sampleRate * 16 == 16 * sampleRate;
  }

  /** What the setter accepts is what leaves a divisor of a whole tick: rate times sample rate up to 125 MHz. */
  lemma AcceptedExactly(value: nat, sampleRate: nat)
    requires value > 0 && sampleRate > 0
    ensures Accepted(value, sampleRate) <==> value * sampleRate <= 125000000
    ensures Accepted(value, sampleRate) <==> Divisor(value, sampleRate) >= 16
  {
    Nonlinear.QuotientAtLeast(INPUT_FREQ, sampleRate, value);
    Nonlinear.Positive(value, sampleRate);
    Nonlinear.QuotientAtLeast(INPUT_FREQ * 16, value * sampleRate, 16);
  }

  /** The divisor, in sixteenths of a tick of 125 MHz, is the greatest that is not too slow for the rate. */
  lemma DivisorExactly(value: nat, sampleRate: nat, d: nat)
    requires value > 0 && sampleRate > 0
    ensures d <= Divisor(value, sampleRate) <==> d * (value * sampleRate) <= 2000000000
  {
    Nonlinear.Positive(value, sampleRate);
    Nonlinear.QuotientAtLeast(INPUT_FREQ * 16, value * sampleRate, d);
  }

  /** The twenty bits of the divisor latches hold the divisor exactly if value * sampleRate is at least 1908. */
  lemma DivisorFits(value: nat, sampleRate: nat)
    requires value > 0 && sampleRate > 0
    ensures Divisor(value, sampleRate) < 0x10_0000 <==> value * sampleRate >= 1908
  {
    var p := value * sampleRate;
    Nonlinear.Positive(value, sampleRate);
    Nonlinear.QuotientAtLeast(INPUT_FREQ * 16, p, 0x10_0000);
  }

  /** Multiples of 2^20 miss 500000000 / j by more than the rounding can make up. */
  lemma Multiple(d: nat, j: nat)
    requires d >= 16 && j > 0 && d * (4 * j) <= 2000000000 < (d + 1) * (4 * j)
    ensures d % 0x10_0000 != 0
  {
    if d % 0x10_0000 == 0 {
      var m := d / 0x10_0000;
      var q := m * j;
      assert d * (4 * j) == 4 * 0x10_0000 * q;
      Nonlinear.Monotone(1, m, j);
      assert false;
    }
  }

  /** No accepted rate leaves the latches empty. */
  lemma NeverZero(value: nat, sampleRate: nat)
    requires value > 0 && sampleRate in {4, 8, 16} && Accepted(value, sampleRate)
    ensures Latched(value, sampleRate) > 0
  {
    ReadBackAccepted(value, sampleRate);
    if Latched(value, sampleRate) == 0 {
      var j := value * (sampleRate / 4);
      assert value * sampleRate == 4 * j;
      Nonlinear.Positive(value, sampleRate / 4);
      var d := (INPUT_FREQ * 16) / (4 * j);
      Nonlinear.Division(INPUT_FREQ * 16, 4 * j);
      Multiple(d, j);
    }
  }

  lemma FarAbove(n: nat, d: nat, value: nat, g: nat)
    requires 0 < d < 0x10_0000 && value > 0 && (d + 0x10_0000) * value <= n < (g + 1) * d
    ensures (g - value) * d >= value
  {
    assert (g - value) * d == g * d - value * d;
    Nonlinear.OneMore(g, d);
    assert (d + 0x10_0000) * value == value * d + 0x10_0000 * value;
  }

  /** A divisor that has lost its upper bits reads back at least value / divisor too fast. */
  lemma WrappedIsFar(value: nat, sampleRate: nat)
    requires value > 0 && sampleRate > 0 && Divisor(value, sampleRate) >= 0x10_0000 && Latched(value, sampleRate) > 0
    ensures !ReadsBackClose(value, Latched(value, sampleRate), sampleRate)
  {
    hide Divisor, Rate;
    var n, whole, d := (INPUT_FREQ * 16) / sampleRate, Divisor(value, sampleRate), Latched(value, sampleRate);
    BothDivide(value, sampleRate);
    BothDivide(d, sampleRate);
    Nonlinear.Division(n, value);
    Nonlinear.Division(n, d);
    Nonlinear.Monotone(d + 0x10_0000, whole, value);
    FarAbove(n, d, value, n / d);
  }

  /**
   * Of the rates the driver accepts, exactly those of 1908 / sampleRate and more are read
   * back close to what was asked for.
   */
  lemma ReadBackExactly(value: nat, sampleRate: nat)
    requires value > 0 && sampleRate in {4, 8, 16} && Accepted(value, sampleRate)
    ensures Latched(value, sampleRate) > 0
    ensures ReadsBackClose(value, Latched(value, sampleRate), sampleRate) <==> value * sampleRate >= 1908
  {
    hide Divisor, Accepted, ReadsBackClose;
    NeverZero(value, sampleRate);
    DivisorFits(value, sampleRate);
    ReadBackAccepted(value, sampleRate);
    if value * sampleRate >= 1908 {
      ReadBack(value, sampleRate);
    } else {
      WrappedIsFar(value, sampleRate);
    }
  }

  /** Just below that: 119 at rate 16 is accepted, the latches hold the low twenty bits, and 67787 reads back. */
  lemma TooSlowWraps()
    ensures Accepted(119, 16) && Divisor(119, 16) == 0x10_0000 + 1844 && Rate(1844, 16) == 67787
  {
  }
}
