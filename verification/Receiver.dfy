// The clock chip's side of the three-wire programming interface: a shift register that
// takes DATA in on a rising CLK, and a latch that copies it on a rising STROBE.

module Receiver {

  /** The levels of the three wires. */
  datatype Pins = Pins(data: bool, clk: bool, strobe: bool)

  const LOW := Pins(false, false, false)

  /** The chip, with counts of the clock pulses and strobes it has seen. */
  datatype Chip = Chip(shift: seq<bool>, latched: seq<bool>, clocks: nat, strobes: nat)

  /** What a change of the wires does. */
  function Step(chip: Chip, before: Pins, after: Pins): (chip': Chip)
    requires |chip.shift| > 0
    ensures |chip'.shift| == |chip.shift|
  {
    var clocked :=
      if !before.clk && after.clk
      then chip.(shift := chip.shift[1..] + [after.data], clocks := chip.clocks + 1)
      else chip;
    if !before.strobe && after.strobe
    then clocked.(latched := clocked.shift, strobes := clocked.strobes + 1)
    else clocked
  }

  /** What a sequence of levels does. */
  function Run(chip: Chip, before: Pins, wave: seq<Pins>): (chip': Chip)
    requires |chip.shift| > 0
    ensures |chip'.shift| == |chip.shift|
    decreases |wave|
  {
    if wave == [] then chip else Run(Step(chip, before, wave[0]), wave[0], wave[1..])
  }

  function Last(before: Pins, wave: seq<Pins>): Pins {
    if wave == [] then before else wave[|wave| - 1]
  }

  lemma {:induction false} RunConcat(chip: Chip, before: Pins, a: seq<Pins>, b: seq<Pins>)
    requires |chip.shift| > 0
    ensures Run(chip, before, a + b) == Run(Run(chip, before, a), Last(before, a), b)
    ensures Last(before, a + b) == Last(Last(before, a), b)
    decreases |a|
  {
    if a == [] {
      assert a + b == b;
    } else {
      assert (a + b)[1..] == a[1..] + b;
      RunConcat(Step(chip, before, a[0]), a[0], a[1..], b);
    }
  }

  lemma RunThree(chip: Chip, before: Pins, a: Pins, b: Pins, c: Pins)
    requires |chip.shift| > 0
    ensures Run(chip, before, [a, b, c]) == Step(Step(Step(chip, before, a), a, b), b, c)
  {
    var chip1 := Step(chip, before, a);
    var chip2 := Step(chip1, a, b);
    assert [a, b, c][1..] == [b, c];
    assert Run(chip, before, [a, b, c]) == Run(chip1, a, [b, c]);
    assert [b, c][1..] == [c];
    assert Run(chip1, a, [b, c]) == Run(chip2, b, [c]);
    assert [c][1..] == [];
    assert Run(chip2, b, [c]) == Run(Step(chip2, b, c), c, []);
  }

  /** The shift register after taking in some bits. */
  function ShiftIn(shift: seq<bool>, bits: seq<bool>): (shift': seq<bool>)
    requires |shift| > 0
    ensures |shift'| == |shift|
  {
    (shift + bits)[|bits|..]
  }

  lemma ShiftInMore(shift: seq<bool>, bits: seq<bool>, bit: bool)
    requires |shift| > 0
    ensures ShiftIn(shift, bits + [bit]) == ShiftIn(shift, bits)[1..] + [bit]
  {
  }

  /** As many bits as the register holds replace its contents. */
  lemma ShiftInAll(shift: seq<bool>, bits: seq<bool>)
    requires |shift| == |bits| > 0
    ensures ShiftIn(shift, bits) == bits
  {
  }

  /** One bit on the wires: data set up, clock up, clock down. */
  function Pulse(idle: Pins, bit: bool): seq<Pins> {
    [idle, Pins(bit, true, false), Pins(bit, false, false)]
  }

  lemma PulseShifts(chip: Chip, before: Pins, idle: Pins, bit: bool)
    requires |chip.shift| > 0 && !before.clk && !idle.clk && !idle.strobe
    ensures Run(chip, before, Pulse(idle, bit)) == chip.(shift := chip.shift[1..] + [bit], clocks := chip.clocks + 1)
    ensures Last(before, Pulse(idle, bit)) == Pins(bit, false, false)
  {
    RunThree(chip, before, idle, Pins(bit, true, false), Pins(bit, false, false));
  }

  /** A chip that took in all the bits, pulse by pulse. */
  function Shifted(chip: Chip, bits: seq<bool>): Chip
    requires |chip.shift| > 0
  {
    chip.(shift := ShiftIn(chip.shift, bits), clocks := chip.clocks + |bits|)
  }

  /** A chip once the strobe has come: every bit taken in, and latched. */
  function Programmed(chip: Chip, bits: seq<bool>): Chip {
    Chip(bits, bits, chip.clocks + |bits|, chip.strobes + 1)
  }

  /** If nothing rises, nothing happens. */
  lemma {:induction false} QuietWave(chip: Chip, before: Pins, wave: seq<Pins>)
    requires |chip.shift| > 0
    requires forall k :: 0 <= k < |wave| ==> !wave[k].clk && !wave[k].strobe
    ensures Run(chip, before, wave) == chip
    decreases |wave|
  {
    if wave != [] {
      QuietWave(chip, wave[0], wave[1..]);
    }
  }
}
