// The waveform that programs the ICS307-03 of an FSCC card
// (fastcom_set_clock_bits_fscc): 483 values for the card's feature control register,
// which carries the three wires of both channels.

module FsccSerialiser {

  import opened Receiver
  import opened Registers
  import Words

  /** The bits 0xfffff0f0 clears. */
  const WIRES: Bits := {0, 1, 2, 3, 8, 9, 10, 11}

  /** STRB_BASE, DTA_BASE and CLK_BASE, shifted by 8 for channel 1. */
  function Strobe(channel: nat): nat {
    if channel == 1 then 11 else 3
  }

  function Data(channel: nat): nat {
    if channel == 1 then 8 else 0
  }

  function Clock(channel: nat): nat {
    if channel == 1 then 9 else 1
  }

  /** The wires of a channel in a register value. */
  function PinsOf(fcr: Bits, channel: nat): Pins {
    Pins(Data(channel) in fcr, Clock(channel) in fcr, Strobe(channel) in fcr)
  }

  /** The wires by their masks, and what 0xfffff0f0 clears. */
  lemma WireMasks(fcr: Bits)
    ensures PinsOf(fcr, 0) == Pins(Has(NumberOf(fcr, 32), 0x0000_0001), Has(NumberOf(fcr, 32), 0x0000_0002),
                                   Has(NumberOf(fcr, 32), 0x0000_0008))
    ensures PinsOf(fcr, 1) == Pins(Has(NumberOf(fcr, 32), 0x0000_0100), Has(NumberOf(fcr, 32), 0x0000_0200),
                                   Has(NumberOf(fcr, 32), 0x0000_0800))
  {
    hide NumberOf, Has;
    Powers();
    PowersUp(0);
    PowersUp(1);
    PowersUp(3);
    forall k | k in {0, 1, 3, 8, 9, 11} ensures Has(NumberOf(fcr, 32), Power(k)) <==> k in fcr {
      BitOfValue(fcr, k, 32);
    }
    assert 0 in {0, 1, 3, 8, 9, 11} && 8 in {0, 1, 3, 8, 9, 11};
  }

  lemma ClearedMask()
    ensures NumberOf(WIRES, 12) == 0x0f0f
  {
    Powers();
    PowersUp(0);
    PowersUp(1);
    PowersUp(2);
    PowersUp(3);
    assert NumberOf(WIRES, 4) == 0x0f;
    assert NumberOf(WIRES, 8) == 0x0f;
  }

  function Wires(words: seq<Bits>, channel: nat): (wave: seq<Pins>)
    ensures |wave| == |words|
  {
    seq(|words|, k requires 0 <= k < |words| => PinsOf(words[k], channel))
  }

  // ---------------------------------------------------------------- bits and bytes

  /** Bit j of a byte. */
  function Bit(b: bv8, j: nat): bool
    requires j < 8
  {
    (b >> j) & 1 == 1
  }

  /** The bits of a word in the order they are sent: byte 19 first, high bit first. */
  function BitsOf(word: seq<bv8>): (bits: seq<bool>)
    requires |word| == 20
    ensures |bits| == 160
  {
    seq(160, k requires 0 <= k < 160 => Bit(word[19 - k / 8], 7 - k % 8))
  }

  lemma OneOrZero(b: bv8)
    ensures b & 1 == 1 <==> (b & 1) as nat == 1
  {
  }

  lemma NoShift(b: bv8)
    ensures b >> 0 == b
  {
  }

  lemma ShiftNumber(b: bv8, j: nat)
    requires j < 8
    ensures (b >> j) as nat == b as nat / Power(j)
  {
    hide Power;
    Powers();
    match j
    case 0 => NoShift(b);
    case 1 => Words.Shifted1(b);
    case 2 => Words.Shifted2(b);
    case 3 => Words.Shifted3(b);
    case 4 => Words.Shifted4(b);
    case 5 => Words.Shifted5(b);
    case 6 => Words.Shifted6(b);
    case 7 => Words.Shifted7(b);
  }

  lemma BitNumber(b: bv8, j: nat)
    requires j < 8
    ensures Bit(b, j) <==> Has(b as nat, Power(j))
  {
    Powers();
    ShiftNumber(b, j);
    Words.Masked1(b >> j);
    OneOrZero(b >> j);
  }

  /** The k-th bit sent is bit 7 - k % 8 of byte 19 - k / 8, as a number. */
  lemma SentInOrder(word: seq<bv8>, k: nat)
    requires |word| == 20 && k < 160
    ensures BitsOf(word)[k] <==> Has(word[19 - k / 8] as nat, Power(7 - k % 8))
  {
    hide Has, Bit;
    BitNumber(word[19 - k / 8], 7 - k % 8);
  }

  /** The byte of eight bits, high bit first. */
  function ByteOf(b7: bool, b6: bool, b5: bool, b4: bool, b3: bool, b2: bool, b1: bool, b0: bool): bv8 {
    (if b7 then 0x80 else 0) | (if b6 then 0x40 else 0) | (if b5 then 0x20 else 0) | (if b4 then 0x10 else 0)
    | (if b3 then 0x08 else 0) | (if b2 then 0x04 else 0) | (if b1 then 0x02 else 0) | (if b0 then 0x01 else 0)
  }

  /** Byte i of the word a chip has latched. */
  function ByteAt(bits: seq<bool>, i: nat): bv8
    requires |bits| == 160 && i < 20
  {
    var k := 8 * (19 - i);
    ByteOf(bits[k], bits[k + 1], bits[k + 2], bits[k + 3], bits[k + 4], bits[k + 5], bits[k + 6], bits[k + 7])
  }

  function BytesOf(bits: seq<bool>): (word: seq<bv8>)
    requires |bits| == 160
    ensures |word| == 20
  {
    seq(20, i requires 0 <= i < 20 => ByteAt(bits, i))
  }

  lemma ByteRebuilt(b: bv8)
    ensures ByteOf(Bit(b, 7), Bit(b, 6), Bit(b, 5), Bit(b, 4), Bit(b, 3), Bit(b, 2), Bit(b, 1), Bit(b, 0)) == b
  {
  }

  lemma Position(n: nat, k: nat)
    requires k < 8
    ensures (8 * n + k) / 8 == n && (8 * n + k) % 8 == k
  {
  }

  lemma BitSent(word: seq<bv8>, i: nat, j: nat)
    requires |word| == 20 && i < 20 && j < 8
    ensures BitsOf(word)[8 * (19 - i) + (7 - j)] == Bit(word[i], j)
  {
    hide Bit;
    Position(19 - i, 7 - j);
  }

  lemma ByteSent(word: seq<bv8>, i: nat)
    requires |word| == 20 && i < 20
    ensures ByteAt(BitsOf(word), i) == word[i]
  {
    hide Bit, BitsOf, ByteOf;
    BitSent(word, i, 7);
    BitSent(word, i, 6);
    BitSent(word, i, 5);
    BitSent(word, i, 4);
    BitSent(word, i, 3);
    BitSent(word, i, 2);
    BitSent(word, i, 1);
    BitSent(word, i, 0);
    ByteRebuilt(word[i]);
  }

  /** What was sent can be read back from the latch. */
  lemma WordRebuilt(word: seq<bv8>)
    requires |word| == 20
    ensures BytesOf(BitsOf(word)) == word
  {
    hide Bit, ByteOf, ByteAt, BitsOf;
    forall i | 0 <= i < 20 ensures ByteAt(BitsOf(word), i) == word[i] {
      ByteSent(word, i);
    }
  }

  // ---------------------------------------------------------------- the waveform

  function DataWord(base: Bits, channel: nat, bit: bool): Bits {
    if bit then base + {Data(channel)} else base - {Data(channel)}
  }

  function StrobeWord(base: Bits, channel: nat): Bits {
    base + {Strobe(channel)} - {Clock(channel)}
  }

  /** The three values for one bit. */
  function BitWords(base: Bits, channel: nat, bit: bool): seq<Bits> {
    var up := DataWord(base, channel, bit) + {Clock(channel)};
    [base, up, up - {Clock(channel)}]
  }

  function BitsWords(base: Bits, channel: nat, bits: seq<bool>): (words: seq<Bits>)
    ensures |words| == 3 * |bits|
  {
    if bits == [] then [] else BitsWords(base, channel, bits[..|bits| - 1]) + BitWords(base, channel, bits[|bits| - 1])
  }

  /** The whole waveform: wires low, the bits, the strobe, and the register as it was. */
  function Waveform(fcr: Bits, channel: nat, bits: seq<bool>): (words: seq<Bits>)
    ensures |words| == 3 * |bits| + 3
  {
    var base := fcr - WIRES;
    [base] + BitsWords(base, channel, bits) + [StrobeWord(base, channel), fcr]
  }

  lemma OneMoreBit(base: Bits, channel: nat, bits: seq<bool>, k: nat)
    requires k < |bits|
    ensures BitsWords(base, channel, bits[..k + 1])
      == BitsWords(base, channel, bits[..k]) + BitWords(base, channel, bits[k])
  {
    assert bits[..k + 1][..k] == bits[..k];
  }

  /** The values of the inner loop's body, for one bit. */
  method PulseWords(base: Bits, channel: nat, bit: bool) returns (w0: Bits, w1: Bits, w2: Bits)
    ensures [w0, w1, w2] == BitWords(base, channel, bit)
  {
    var value := base;
    w0 := value;
    if bit {
      value := value + {Data(channel)};
    } else {
      value := value - {Data(channel)};
    }
    value := value + {Clock(channel)};
    w1 := value;
    value := value - {Clock(channel)};
    w2 := value;
  }

  /** The values for the first k bits are what the buffer holds. */
  ghost predicate Emitted(written: seq<Bits>, base: Bits, channel: nat, bits: seq<bool>, k: nat)
    requires k <= |bits|
  {
    |written| == 1 + 3 * k && written == [base] + BitsWords(base, channel, bits[..k])
  }

  /** data[data_index++] = ..., for some values in a row. */
  method Append(data: array<Bits>, at: nat, words: seq<Bits>) returns (dataIndex: nat)
    requires at + |words| <= data.Length
    modifies data
    ensures dataIndex == at + |words|
    ensures data[..dataIndex] == old(data[..at]) + words
  {
    dataIndex := at;
    for k := 0 to |words|
      invariant dataIndex == at + k
      invariant data[..dataIndex] == old(data[..at]) + words[..k]
    {
      data[dataIndex] := words[k];
      dataIndex := dataIndex + 1;
    }
  }

  /** The inner loop's body: three more values. */
  method EmitBit(data: array<Bits>, at: nat, base: Bits, channel: nat, bit: bool, ghost bits: seq<bool>, ghost k: nat)
    returns (dataIndex: nat)
    requires k < |bits| && bits[k] == bit && at + 3 <= data.Length && Emitted(data[..at], base, channel, bits, k)
    modifies data
    ensures dataIndex == at + 3 && Emitted(data[..dataIndex], base, channel, bits, k + 1)
  {
    hide BitWords;
    OneMoreBit(base, channel, bits, k);
    var w0, w1, w2 := PulseWords(base, channel, bit);
    dataIndex := Append(data, at, [w0, w1, w2]);
  }

  lemma NothingEmitted(written: seq<Bits>, base: Bits, channel: nat, bits: seq<bool>)
    requires written == [base]
    ensures Emitted(written, base, channel, bits, 0)
  {
  }

  /** The loops that fill the buffer of register values: 483 of them, for 160 bits. */
  method BuildWaveform(fcr: Bits, channel: nat, clockData: array<bv8>) returns (data: array<Bits>, dataIndex: nat)
    requires clockData.Length == 20
    ensures fresh(data) && dataIndex == data.Length == 483
    ensures data[..] == Waveform(fcr, channel, BitsOf(clockData[..]))
  {
    hide Bit, BitWords, BitsWords, StrobeWord, BitsOf;
    ghost var word := clockData[..];
    ghost var bits := BitsOf(word);
    var base := fcr - WIRES;
    data := new Bits[483];
    data[0] := base;
    dataIndex := 1;
    NothingEmitted(data[..1], base, channel, bits);
    var i := 19;
    while i >= 0
      invariant -1 <= i <= 19 && clockData[..] == word
      invariant dataIndex == 1 + 3 * (8 * (19 - i))
      invariant Emitted(data[..dataIndex], base, channel, bits, 8 * (19 - i))
    {
      var j := 7;
      while j >= 0
        invariant -1 <= j <= 7 && clockData[..] == word
        invariant dataIndex == 1 + 3 * (8 * (19 - i) + (7 - j))
        invariant Emitted(data[..dataIndex], base, channel, bits, 8 * (19 - i) + (7 - j))
      {
        BitSent(word, i, j);
        dataIndex := EmitBit(data, dataIndex, base, channel, Bit(clockData[i], j), bits, 8 * (19 - i) + (7 - j));
        j := j - 1;
      }
      i := i - 1;
    }
    assert bits[..160] == bits;
    dataIndex := Append(data, dataIndex, [StrobeWord(base, channel), fcr]);
  }

  // ---------------------------------------------------------------- what the chips see

  /** The register value leaves the other channel's wires low and everything but the wires as in fcr. */
  predicate Quiet(fcr: Bits, channel: nat, w: Bits)
    requires channel < 2
  {
    PinsOf(w, 1 - channel) == LOW && w - WIRES == fcr - WIRES
  }

  lemma BasePins(fcr: Bits, channel: nat)
    requires channel < 2
    ensures PinsOf(fcr - WIRES, channel) == LOW && Quiet(fcr, channel, fcr - WIRES)
  {
  }

  lemma StrobePins(fcr: Bits, channel: nat)
    requires channel < 2
    ensures PinsOf(StrobeWord(fcr - WIRES, channel), channel) == Pins(false, false, true)
    ensures Quiet(fcr, channel, StrobeWord(fcr - WIRES, channel))
  {
  }

  ghost predicate AllQuiet(fcr: Bits, channel: nat, words: seq<Bits>)
    requires channel < 2
  {
    forall k :: 0 <= k < |words| ==> Quiet(fcr, channel, words[k])
  }

  lemma QuietConcat(fcr: Bits, channel: nat, a: seq<Bits>, b: seq<Bits>)
    requires channel < 2 && AllQuiet(fcr, channel, a) && AllQuiet(fcr, channel, b)
    ensures AllQuiet(fcr, channel, a + b)
  {
    hide Quiet;
  }

  /** The three values for a bit pulse the wires of their channel and leave the other's low. */
  lemma BitPins(fcr: Bits, channel: nat, bit: bool)
    requires channel < 2
    ensures var w := BitWords(fcr - WIRES, channel, bit);
      AllQuiet(fcr, channel, w) && Wires(w, channel) == Pulse(LOW, bit)
  {
  }

  lemma WiresConcat(a: seq<Bits>, b: seq<Bits>, channel: nat)
    ensures Wires(a + b, channel) == Wires(a, channel) + Wires(b, channel)
  {
  }

  lemma RunNothing(chip: Chip, before: Pins)
    requires |chip.shift| > 0
    ensures Run(chip, before, []) == chip && ShiftIn(chip.shift, []) == chip.shift
  {
  }

  /** The bits part of the waveform shifts the bits in. */
  lemma {:induction false} BitsShiftIn(chip: Chip, before: Pins, fcr: Bits, channel: nat, bits: seq<bool>)
    requires |chip.shift| > 0 && channel < 2 && !before.clk && !before.strobe
    ensures var wave := Wires(BitsWords(fcr - WIRES, channel, bits), channel);
      Run(chip, before, wave) == Shifted(chip, bits) && !Last(before, wave).clk && !Last(before, wave).strobe
    ensures AllQuiet(fcr, channel, BitsWords(fcr - WIRES, channel, bits))
    decreases |bits|
  {
    hide PinsOf, BitWords, Run, Pulse, Quiet;
    var base := fcr - WIRES;
    if bits == [] {
      assert Wires(BitsWords(base, channel, bits), channel) == [];
      RunNothing(chip, before);
    } else {
      var most, bit := bits[..|bits| - 1], bits[|bits| - 1];
      BitsShiftIn(chip, before, fcr, channel, most);
      var a, b := BitsWords(base, channel, most), BitWords(base, channel, bit);
      WiresConcat(a, b, channel);
      BitPins(fcr, channel, bit);
      QuietConcat(fcr, channel, a, b);
      RunConcat(chip, before, Wires(a, channel), Wires(b, channel));
      PulseShifts(Shifted(chip, most), Last(before, Wires(a, channel)), LOW, bit);
      assert bits == most + [bit];
      ShiftInMore(chip.shift, most, bit);
    }
  }

  lemma OneStep(chip: Chip, before: Pins, after: Pins)
    requires |chip.shift| > 0
    ensures Run(chip, before, [after]) == Step(chip, before, after) && Last(before, [after]) == after
  {
    assert [after][1..] == [];
  }

  /** The part of the waveform between the first value and the strobe, and the strobe. */
  lemma MiddlePrograms(chip: Chip, fcr: Bits, channel: nat, bits: seq<bool>)
    requires |chip.shift| == |bits| > 0 && channel < 2
    ensures var base := fcr - WIRES;
      var wave := Wires(BitsWords(base, channel, bits) + [StrobeWord(base, channel)], channel);
      Run(chip, LOW, wave) == Programmed(chip, bits) && Last(LOW, wave) == Pins(false, false, true)
  {
    hide PinsOf, BitsWords, Run, StrobeWord, Quiet;
    var base := fcr - WIRES;
    var middle, strobe := BitsWords(base, channel, bits), StrobeWord(base, channel);
    WiresConcat(middle, [strobe], channel);
    BitsShiftIn(chip, LOW, fcr, channel, bits);
    ShiftInAll(chip.shift, bits);
    RunConcat(chip, LOW, Wires(middle, channel), Wires([strobe], channel));
    StrobePins(fcr, channel);
    assert Wires([strobe], channel) == [Pins(false, false, true)];
    OneStep(Shifted(chip, bits), Last(LOW, Wires(middle, channel)), Pins(false, false, true));
  }

  /**
   * Whatever the register holds to begin with, up to and including the strobe the
   * channel's chip sees one clock per bit and then one strobe, and latches the bits.
   */
  lemma WaveformProgramsChip(chip: Chip, fcr: Bits, channel: nat, bits: seq<bool>)
    requires |chip.shift| == |bits| > 0 && channel < 2
    ensures var w := Waveform(fcr, channel, bits);
      var wave := Wires(w[..|w| - 1], channel);
      Run(chip, PinsOf(fcr, channel), wave) == Programmed(chip, bits)
      && Last(PinsOf(fcr, channel), wave) == Pins(false, false, true)
  {
    hide PinsOf, BitsWords, Run, StrobeWord, Quiet;
    var base, before := fcr - WIRES, PinsOf(fcr, channel);
    var rest := BitsWords(base, channel, bits) + [StrobeWord(base, channel)];
    var w := Waveform(fcr, channel, bits);
    assert w[..|w| - 1] == [base] + rest;
    WiresConcat([base], rest, channel);
    BasePins(fcr, channel);
    assert Wires([base], channel) == [LOW];
    QuietWave(chip, before, [LOW]);
    RunConcat(chip, before, [LOW], Wires(rest, channel));
    MiddlePrograms(chip, fcr, channel, bits);
  }

  /** Restoring the register ends the strobe; only a clock line that was high to begin with still moves. */
  lemma WaveformWhole(chip: Chip, fcr: Bits, channel: nat, bits: seq<bool>)
    requires |chip.shift| == |bits| > 0 && channel < 2
    ensures var chip' := Run(chip, PinsOf(fcr, channel), Wires(Waveform(fcr, channel, bits), channel));
      && chip'.latched == bits && chip'.strobes == chip.strobes + 1
      && (!PinsOf(fcr, channel).clk ==> chip' == Programmed(chip, bits))
  {
    hide PinsOf, BitsWords, Run, StrobeWord;
    var w := Waveform(fcr, channel, bits);
    var most := w[..|w| - 1];
    assert w == most + [fcr];
    WiresConcat(most, [fcr], channel);
    WaveformProgramsChip(chip, fcr, channel, bits);
    RunConcat(chip, PinsOf(fcr, channel), Wires(most, channel), Wires([fcr], channel));
    assert Wires([fcr], channel) == [PinsOf(fcr, channel)];
    OneStep(Programmed(chip, bits), Pins(false, false, true), PinsOf(fcr, channel));
  }

  /** All values but the last leave the other channel's wires low, and all leave the rest of the register alone. */
  lemma WaveformIsQuiet(fcr: Bits, channel: nat, bits: seq<bool>)
    requires channel < 2
    ensures var w := Waveform(fcr, channel, bits); AllQuiet(fcr, channel, w[..|w| - 1])
  {
    hide PinsOf, BitsWords, StrobeWord, Quiet;
    var base := fcr - WIRES;
    var w := Waveform(fcr, channel, bits);
    BasePins(fcr, channel);
    StrobePins(fcr, channel);
    BitsShiftIn(Chip([false], [], 0, 0), LOW, fcr, channel, bits);
    QuietConcat(fcr, channel, [base], BitsWords(base, channel, bits));
    QuietConcat(fcr, channel, [base] + BitsWords(base, channel, bits), [StrobeWord(base, channel)]);
    assert w[..|w| - 1] == [base] + BitsWords(base, channel, bits) + [StrobeWord(base, channel)];
  }

  lemma WaveformEnds(fcr: Bits, channel: nat, bits: seq<bool>)
    ensures var w := Waveform(fcr, channel, bits); |w| > 0 && w[|w| - 1] == fcr
  {
    hide BitsWords, StrobeWord;
  }

  /** Nothing but the eight bits of 0x0f0f, six of them wires, ever changes, and the register ends as it was. */
  lemma WaveformTouchesOnlyWires(fcr: Bits, channel: nat, bits: seq<bool>)
    requires channel < 2
    ensures var w := Waveform(fcr, channel, bits);
      w[|w| - 1] == fcr && forall k :: 0 <= k < |w| ==> w[k] - WIRES == fcr - WIRES
  {
    hide PinsOf, Waveform;
    WaveformEnds(fcr, channel, bits);
    WaveformIsQuiet(fcr, channel, bits);
    var w := Waveform(fcr, channel, bits);
    forall k | 0 <= k < |w| - 1 ensures w[k] - WIRES == fcr - WIRES {
      assert w[k] == w[..|w| - 1][k];
    }
  }

  /** The other channel's chip does not move exactly if its clock and strobe lines were low. */
  lemma WaveformAndOtherChip(chip: Chip, fcr: Bits, channel: nat, bits: seq<bool>)
    requires |chip.shift| > 0 && channel < 2
    ensures var before := PinsOf(fcr, 1 - channel);
      Run(chip, before, Wires(Waveform(fcr, channel, bits), 1 - channel)) == chip
      <==> !before.clk && !before.strobe
  {
    hide PinsOf, Waveform, Run;
    var other := 1 - channel;
    var w := Waveform(fcr, channel, bits);
    var most := w[..|w| - 1];
    WaveformEnds(fcr, channel, bits);
    WaveformIsQuiet(fcr, channel, bits);
    assert w == most + [fcr];
    WiresConcat(most, [fcr], other);
    forall k | 0 <= k < |most| ensures Wires(most, other)[k] == LOW {
      assert Quiet(fcr, channel, most[k]);
    }
    QuietWave(chip, PinsOf(fcr, other), Wires(most, other));
    RunConcat(chip, PinsOf(fcr, other), Wires(most, other), Wires([fcr], other));
    assert Wires([fcr], other) == [PinsOf(fcr, other)];
    assert |most| > 0;
    OneStep(chip, LOW, PinsOf(fcr, other));
  }
}
