// Programming the ICS307-02 of an Async-335 card (fastcom_set_clock_bits_pci): 24 bits,
// one register write at a time, on three bits of the card's MPIOLVL register.

module PciSerialiser {

  import opened Receiver
  import opened Registers
  import Nonlinear

  const SDTA: nat := 0
  const SCLK: nat := 1
  const SSTB: nat := 2

  /** The three wires in a register value. */
  function PinsOf(lvl: Bits): Pins {
    Pins(SDTA in lvl, SCLK in lvl, SSTB in lvl)
  }

  /** The wires by their masks. */
  lemma WireMasks(lvl: Bits)
    ensures PinsOf(lvl) == Pins(Has(NumberOf(lvl, 8), 0x01), Has(NumberOf(lvl, 8), 0x02), Has(NumberOf(lvl, 8), 0x04))
  {
    hide NumberOf, Has;
    Powers();
    BitOfValue(lvl, 0, 8);
    BitOfValue(lvl, 1, 8);
    BitOfValue(lvl, 2, 8);
  }

  function Wires(words: seq<Bits>): (wave: seq<Pins>)
    ensures |wave| == |words|
  {
    seq(|words|, k requires 0 <= k < |words| => PinsOf(words[k]))
  }

  // ---------------------------------------------------------------- the bits of a word

  /** The word after i shifts to the left. */
  function Doubled(word: nat, i: nat): nat {
    if i == 0 then word else 2 * Doubled(word, i - 1)
  }

  /** Bit 23, which is the one looked at. */
  predicate TopBit(value: nat) {
    (value / 0x80_0000) % 2 == 1
  }

  /** The bits sent, in order. */
  function BitsOf(word: nat): (bits: seq<bool>)
    ensures |bits| == 24
  {
    seq(24, i requires 0 <= i < 24 => TopBit(Doubled(word % 0x100_0000, i)))
  }

  /** The number a row of bits stands for, high bit first. */
  function ValueOf(bits: seq<bool>): nat {
    if bits == [] then 0 else 2 * ValueOf(bits[..|bits| - 1]) + if bits[|bits| - 1] then 1 else 0
  }

  lemma DoubleQuotient(x: nat)
    ensures (2 * x) / 0x100_0000 == 2 * (x / 0x100_0000) + if TopBit(x) then 1 else 0
  {
    var half, rest := x / 0x80_0000, x % 0x80_0000;
    assert x == half * 0x80_0000 + rest;
    assert (2 * x) / 0x100_0000 == half;
    assert x / 0x100_0000 == half / 2;
  }

  lemma {:induction false} PrefixValue(word: nat, n: nat)
    requires word < 0x100_0000 && n <= 24
    ensures ValueOf(BitsOf(word)[..n]) == Doubled(word, n) / 0x100_0000
  {
    hide TopBit;
    if n > 0 {
      PrefixValue(word, n - 1);
      var bits := BitsOf(word);
      assert bits[..n][..n - 1] == bits[..n - 1];
      assert bits[n - 1] == TopBit(Doubled(word, n - 1));
      DoubleQuotient(Doubled(word, n - 1));
    }
  }

  lemma ShiftedBy8(word: nat, i: nat)
    ensures Doubled(word, i + 8) == 256 * Doubled(word, i)
  {
    assert Doubled(word, i + 2) == 4 * Doubled(word, i);
    assert Doubled(word, i + 4) == 4 * Doubled(word, i + 2);
    assert Doubled(word, i + 6) == 4 * Doubled(word, i + 4);
    assert Doubled(word, i + 8) == 4 * Doubled(word, i + 6);
  }

  lemma ShiftedBy24(word: nat)
    ensures Doubled(word, 24) / 0x100_0000 == word
  {
    ShiftedBy8(word, 0);
    ShiftedBy8(word, 8);
    ShiftedBy8(word, 16);
  }

  /** What was sent can be read back: the low 24 bits of the word. */
  lemma WordRebuilt(word: nat)
    ensures ValueOf(BitsOf(word)) == word % 0x100_0000
  {
    hide TopBit, Doubled, ValueOf;
    var w := word % 0x100_0000;
    PrefixValue(w, 24);
    assert BitsOf(word) == BitsOf(w) == BitsOf(w)[..24];
    ShiftedBy24(w);
  }

  lemma {:induction false} DoubledIsProduct(word: nat, i: nat)
    ensures Doubled(word, i) == word * Power(i)
  {
    if i > 0 {
      DoubledIsProduct(word, i - 1);
      assert word * Power(i) == 2 * (word * Power(i - 1));
    }
  }

  lemma TopPower()
    ensures Power(23) == 0x80_0000
  {
    Powers();
    PowersUp(7);
    PowersUp(15);
  }

  lemma WholeQuotient(n: nat, m: nat)
    requires m > 0
    ensures (n * m) / m == n
  {
    Nonlinear.QuotientAtLeast(n * m, m, n);
    Nonlinear.OneMore(n, m);
    Nonlinear.QuotientAtLeast(n * m, m, n + 1);
  }

  lemma CancelFactor(n: nat, m: nat, d: nat)
    requires m > 0 && d > 0
    ensures d * m > 0 && (n * m) / (d * m) == n / d
  {
    Nonlinear.Positive(m, d);
    assert d * m == m * d;
    Nonlinear.DivideTwice(n * m, m, d);
    WholeQuotient(n, m);
  }

  /** The k-th bit sent is bit 23 - k of the word. */
  lemma SentInOrder(word: nat, k: nat)
    requires k < 24
    ensures BitsOf(word)[k] <==> Has(word % 0x100_0000, Power(23 - k))
  {
    hide Doubled, Power;
    var w := word % 0x100_0000;
    DoubledIsProduct(w, k);
    TopPower();
    PowerSum(23 - k, k);
    CancelFactor(w, Power(k), Power(23 - k));
  }

  // ---------------------------------------------------------------- the waveform

  /** The three values for one bit.  The last keeps the data line and drops every other bit. */
  function BitWords(before: Bits, bit: bool): seq<Bits> {
    var d := if bit then before + {SDTA} else before - {SDTA};
    [d, d + {SCLK}, (d + {SCLK}) * {SDTA}]
  }

  function BitsWords(before: Bits, bits: seq<bool>): (words: seq<Bits>)
    ensures |words| == 3 * |bits|
  {
    if bits == [] then []
    else
      var most := BitsWords(before, bits[..|bits| - 1]);
      most + BitWords(if most == [] then before else most[|most| - 1], bits[|bits| - 1])
  }

  /** All values written: the bits, the strobe on and off, and the register as it was. */
  function Waveform(saved: Bits, bits: seq<bool>): (words: seq<Bits>)
    ensures |words| == 3 * |bits| + 3
  {
    BitsWords(saved, bits) + [{SSTB}, {}, saved]
  }

  // ---------------------------------------------------------------- what the chip sees

  lemma WiresConcat(a: seq<Bits>, b: seq<Bits>)
    ensures Wires(a + b) == Wires(a) + Wires(b)
  {
  }

  /** With the clock line low to begin with, a bit is shifted in; with it high, nothing rises. */
  lemma BitShiftsIn(chip: Chip, before: Bits, bit: bool)
    requires |chip.shift| > 0 && SSTB !in before
    ensures var words := BitWords(before, bit);
      && Run(chip, PinsOf(before), Wires(words))
         == (if SCLK in before then chip else chip.(shift := chip.shift[1..] + [bit], clocks := chip.clocks + 1))
      && words[2] <= {SDTA} && Last(PinsOf(before), Wires(words)) == PinsOf(words[2])
  {
    var words := BitWords(before, bit);
    var wave := Wires(words);
    if SCLK in before {
      assert wave == [Pins(bit, true, false), Pins(bit, true, false), Pins(bit, false, false)];
      RunThree(chip, PinsOf(before), Pins(bit, true, false), Pins(bit, true, false), Pins(bit, false, false));
    } else {
      assert wave == Pulse(Pins(bit, false, false), bit);
      PulseShifts(chip, PinsOf(before), Pins(bit, false, false), bit);
    }
  }

  /** What the chip takes in: every bit, or every bit but the first if the clock line was high. */
  function Received(saved: Bits, bits: seq<bool>): seq<bool> {
    if SCLK in saved && bits != [] then bits[1..] else bits
  }

  lemma ReceivedNothing(saved: Bits)
    ensures Received(saved, []) == []
  {
  }

  lemma ReceivedMore(saved: Bits, most: seq<bool>, bit: bool)
    ensures Received(saved, most + [bit])
      == if most == [] && SCLK in saved then Received(saved, most) else Received(saved, most) + [bit]
  {
  }

  function LastWord(before: Bits, words: seq<Bits>): Bits {
    if words == [] then before else words[|words| - 1]
  }

  /** The bits part of the waveform leaves the bits received in the chip, and every line but data low. */
  ghost predicate TakesIn(chip: Chip, saved: Bits, bits: seq<bool>)
    requires |chip.shift| > 0
  {
    var words := BitsWords(saved, bits);
    && Run(chip, PinsOf(saved), Wires(words)) == Shifted(chip, Received(saved, bits))
    && (bits != [] ==> LastWord(saved, words) <= {SDTA})
  }

  lemma LastOfWires(before: Bits, words: seq<Bits>)
    ensures Last(PinsOf(before), Wires(words)) == PinsOf(LastWord(before, words))
  {
  }

  lemma BitsWordsMore(saved: Bits, most: seq<bool>, bit: bool)
    ensures var a := BitsWords(saved, most);
      BitsWords(saved, most + [bit]) == a + BitWords(LastWord(saved, a), bit)
  {
    hide BitWords;
    assert (most + [bit])[..|most|] == most;
  }

  lemma TakesInMore(chip: Chip, saved: Bits, most: seq<bool>, bit: bool)
    requires |chip.shift| > 0 && SSTB !in saved && TakesIn(chip, saved, most)
    ensures TakesIn(chip, saved, most + [bit])
  {
    hide PinsOf, BitWords, Run, ShiftIn, Received, BitsWords;
    var a := BitsWords(saved, most);
    var before := LastWord(saved, a);
    var b := BitWords(before, bit);
    BitsWordsMore(saved, most, bit);
    WiresConcat(a, b);
    LastOfWires(saved, a);
    RunConcat(chip, PinsOf(saved), Wires(a), Wires(b));
    BitShiftsIn(Shifted(chip, Received(saved, most)), before, bit);
    ReceivedMore(saved, most, bit);
    ShiftInMore(chip.shift, Received(saved, most), bit);
    assert LastWord(saved, a + b) == b[2];
  }

  lemma NothingIn(chip: Chip, before: Pins)
    requires |chip.shift| > 0
    ensures Run(chip, before, []) == chip && ShiftIn(chip.shift, []) == chip.shift
  {
  }

  lemma {:induction false} BitsShiftIn(chip: Chip, saved: Bits, bits: seq<bool>)
    requires |chip.shift| > 0 && SSTB !in saved
    ensures TakesIn(chip, saved, bits)
    decreases |bits|
  {
    hide PinsOf, BitWords, Run, ShiftIn, Received;
    if bits == [] {
      assert Wires(BitsWords(saved, bits)) == [];
      NothingIn(chip, PinsOf(saved));
      ReceivedNothing(saved);
    } else {
      var most, bit := bits[..|bits| - 1], bits[|bits| - 1];
      BitsShiftIn(chip, saved, most);
      TakesInMore(chip, saved, most, bit);
      assert bits == most + [bit];
    }
  }

  /** Strobe on, strobe off, and the register restored. */
  lemma StrobeLatches(chip: Chip, before: Pins, saved: Bits)
    requires |chip.shift| > 0 && !before.clk && !before.strobe && SSTB !in saved
    ensures var chip' := Run(chip, before, Wires([{SSTB}, {}, saved]));
      && chip'.latched == chip.shift && chip'.strobes == chip.strobes + 1
      && (SCLK !in saved ==> chip' == chip.(latched := chip.shift, strobes := chip.strobes + 1))
  {
    var wave := Wires([{SSTB}, {}, saved]);
    assert wave == [Pins(false, false, true), LOW, PinsOf(saved)];
    RunThree(chip, before, Pins(false, false, true), LOW, PinsOf(saved));
  }

  lemma LowAfterBits(lvl: Bits)
    requires lvl <= {SDTA}
    ensures !PinsOf(lvl).clk && !PinsOf(lvl).strobe
  {
  }

  /**
   * With the strobe line low on entry there is one strobe.  The chip latches the bits
   * sent exactly if the clock line was low on entry too, or if the bit that is lost
   * otherwise happens to be the one the register still holds in its place.
   */
  lemma WaveformProgramsChip(chip: Chip, saved: Bits, bits: seq<bool>)
    requires |chip.shift| == |bits| > 0 && SSTB !in saved
    ensures var chip' := Run(chip, PinsOf(saved), Wires(Waveform(saved, bits)));
      && chip'.strobes == chip.strobes + 1
      && (chip'.latched == bits <==> SCLK !in saved || chip.shift[|chip.shift| - 1] == bits[0])
      && (SCLK !in saved ==> chip' == Programmed(chip, bits))
  {
    hide PinsOf, BitsWords, Run;
    var words := BitsWords(saved, bits);
    var received := Shifted(chip, Received(saved, bits));
    BitsShiftIn(chip, saved, bits);
    LastOfWires(saved, words);
    WiresConcat(words, [{SSTB}, {}, saved]);
    RunConcat(chip, PinsOf(saved), Wires(words), Wires([{SSTB}, {}, saved]));
    LowAfterBits(words[|words| - 1]);
    StrobeLatches(received, PinsOf(words[|words| - 1]), saved);
    if SCLK in saved {
      assert received.shift == [chip.shift[|chip.shift| - 1]] + bits[1..];
    } else {
      ShiftInAll(chip.shift, bits);
    }
  }
}
