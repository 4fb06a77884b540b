// Device registers that the driver reads, masks and writes back.

module Registers {

  import Nonlinear

  /**
   * A register value: the positions of the bits that are one.  An or is a union, an and
   * with a complement a difference.
   */
  type Bits = set<nat>

  function WithBit(value: Bits, bit: nat, enable: bool): Bits {
    if enable then value + {bit} else value - {bit}
  }

  /** A bit outside those that may have changed is as it was. */
  lemma SameBit(a: Bits, b: Bits, changed: Bits, bit: nat)
    requires a - changed == b - changed && bit !in changed
    ensures bit in a <==> bit in b
  {
    assert bit in a <==> bit in a - changed;
    assert bit in b <==> bit in b - changed;
  }

  // ---------------------------------------------------------------- the number a register holds

  function Power(k: nat): (p: nat)
    ensures p > 0
  {
    if k == 0 then 1 else 2 * Power(k - 1)
  }

  /** The value of the n low bits. */
  function NumberOf(bits: Bits, n: nat): nat {
    if n == 0 then 0 else NumberOf(bits, n - 1) + if n - 1 in bits then Power(n - 1) else 0
  }

  /** The test of a mask with one bit. */
  predicate Has(value: nat, mask: nat)
    requires mask > 0
  {
    (value / mask) % 2 == 1
  }

  lemma {:induction false} ValueBelow(bits: Bits, n: nat)
    ensures NumberOf(bits, n) < Power(n)
  {
    if n > 0 { ValueBelow(bits, n - 1); }
  }

  lemma {:induction false} PowerSum(a: nat, b: nat)
    ensures Power(a + b) == Power(a) * Power(b)
  {
    if a > 0 {
      PowerSum(a - 1, b);
      assert Power(a) * Power(b) == 2 * (Power(a - 1) * Power(b));
    }
  }

  lemma AddMultiple(value: nat, mask: nat, k: nat)
    requires mask > 0
    ensures (value + k * mask) / mask == value / mask + k
  {
    Nonlinear.Division(value, mask);
    var q := value / mask;
    assert (q + k) * mask == q * mask + k * mask;
    Nonlinear.OneMore(q + k, mask);
    Nonlinear.QuotientAtLeast(value + k * mask, mask, q + k);
    Nonlinear.OneMore(q, mask);
    Nonlinear.QuotientAtLeast(value + k * mask, mask, q + k + 1);
  }

  lemma HasTop(value: nat, mask: nat)
    requires value < mask
    ensures !Has(value, mask) && Has(value + mask, mask)
  {
    AddMultiple(value, mask, 1);
  }

  lemma HasHigher(value: nat, mask: nat, half: nat)
    requires mask > 0
    ensures Has(value + 2 * half * mask, mask) <==> Has(value, mask)
  {
    AddMultiple(value, mask, 2 * half);
  }

  lemma PowerAbove(k: nat, n: nat)
    requires k < n
    ensures Power(n) == 2 * Power(n - 1 - k) * Power(k)
  {
    PowerSum(n - 1 - k, k);
    assert Power(n) == 2 * Power(n - 1);
    assert 2 * Power(n - 1 - k) * Power(k) == 2 * (Power(n - 1 - k) * Power(k));
  }

  /** A bit that is in the set is the bit of the number. */
  lemma {:induction false} BitOfValue(bits: Bits, k: nat, n: nat)
    requires k < n
    ensures Has(NumberOf(bits, n), Power(k)) <==> k in bits
  {
    hide Has;
    var low := NumberOf(bits, n - 1);
    if k == n - 1 {
      ValueBelow(bits, k);
      HasTop(low, Power(k));
    } else {
      BitOfValue(bits, k, n - 1);
      PowerAbove(k, n - 1);
      HasHigher(low, Power(k), Power(n - 2 - k));
    }
  }

  lemma Powers()
    ensures Power(0) == 0x01 && Power(1) == 0x02 && Power(2) == 0x04 && Power(3) == 0x08
    ensures Power(4) == 0x10 && Power(5) == 0x20 && Power(6) == 0x40 && Power(7) == 0x80
  {
  }

  lemma PowersUp(k: nat)
    ensures Power(k + 8) == 0x100 * Power(k)
  {
    Powers();
    assert Power(8) == 2 * Power(7);
    PowerSum(8, k);
    assert 8 + k == k + 8;
  }
}
