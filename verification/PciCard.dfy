// An Async-335 (PCI) card: the MPIOLVL register its ports share, which drives the RS-485
// transmitters, echo cancel and the wires of the clock chip; the shared 8XMODE
// register; and a port's own registers.

module PciCard {

  import opened Receiver
  import opened Registers
  import opened PciSerialiser

  const ECHO: nat := 7

  /** The bit of MPIOLVL that disables a channel's transmitter, 0x8 << channel cut to a byte. */
  function TransmitterBits(channel: nat): Bits {
    if channel <= 4 then {3 + channel} else {}
  }

  lemma {:induction false} NoBit(n: nat)
    ensures NumberOf({}, n) == 0
  {
    if n > 0 { NoBit(n - 1); }
  }

  lemma {:induction false} OneBit(k: nat, n: nat)
    ensures NumberOf({k}, n) == if k < n then Power(k) else 0
  {
    if n > 0 { OneBit(k, n - 1); }
  }

  lemma Multiple(p: nat)
    ensures (0x08 * (0x20 * p)) % 0x100 == 0
  {
    assert 0x08 * (0x20 * p) == 0x100 * p;
  }

  lemma CutToByte(channel: nat)
    requires channel >= 5
    ensures (0x08 * Power(channel)) % 0x100 == 0
  {
    hide Power;
    Powers();
    PowerSum(5, channel - 5);
    Multiple(Power(channel - 5));
  }

  /** 0x8 shifted by the channel and cut to a byte; echo cancel is 0x80. */
  lemma MpioMasks(channel: nat)
    ensures NumberOf(TransmitterBits(channel), 8) == (0x08 * Power(channel)) % 0x100
    ensures NumberOf({ECHO}, 8) == 0x80
  {
    hide NumberOf, Power;
    Powers();
    OneBit(ECHO, 8);
    if channel <= 4 {
      OneBit(3 + channel, 8);
      PowerSum(3, channel);
    } else {
      NoBit(8);
      CutToByte(channel);
    }
  }

  /** The bits of a port: 0x20 of FCTR for rs485, 1 shifted by the channel of 8XMODE. */
  lemma PortMasks(fctr: Bits, mode8x: Bits, channel: nat)
    requires channel < 4
    ensures 5 in fctr <==> Has(NumberOf(fctr, 8), 0x20)
    ensures channel in mode8x <==> Has(NumberOf(mode8x, 8), Power(channel))
  {
    hide NumberOf, Has, Power;
    Powers();
    BitOfValue(fctr, 5, 8);
    BitOfValue(mode8x, channel, 8);
  }

  /** What the rs485 set writes to MPIOLVL; the transmitters are active low. */
  function WithRs485(lvl: Bits, channel: nat, enable: bool): Bits {
    if enable then lvl - TransmitterBits(channel) else lvl + TransmitterBits(channel)
  }

  /** The rs485 set of a channel leaves echo cancel alone exactly if it is not channel 4. */
  lemma Rs485AndEchoCancel(channel: nat)
    ensures (forall lvl: Bits, enable: bool :: ECHO in WithRs485(lvl, channel, enable) <==> ECHO in lvl)
      <==> channel != 4
  {
    var none: Bits := {};
    if channel == 4 {
      assert ECHO in WithRs485(none, channel, false);
      assert ECHO !in none;
    }
  }

  /** On and off differ exactly for channels 0 to 3, which have a bit, and 4, which takes echo cancel's. */
  lemma Rs485DrivesTransmitter(channel: nat)
    ensures (forall lvl: Bits :: WithRs485(lvl, channel, true) != WithRs485(lvl, channel, false)) <==> channel <= 4
  {
    if channel <= 4 {
      forall lvl: Bits ensures WithRs485(lvl, channel, true) != WithRs485(lvl, channel, false) {
        assert 3 + channel in WithRs485(lvl, channel, false);
      }
    } else {
      assert WithRs485({}, channel, true) == WithRs485({}, channel, false);
    }
  }

  /** The chip and the register after some bits of the waveform. */
  ghost predicate Sent(chip0: Chip, saved: Bits, bits: seq<bool>, chip: Chip, lvl: Bits) {
    && |chip0.shift| > 0 && |chip.shift| == |chip0.shift|
    && chip == Run(chip0, PinsOf(saved), Wires(BitsWords(saved, bits)))
    && lvl == LastWord(saved, BitsWords(saved, bits))
  }

  lemma NothingSent(chip: Chip, saved: Bits)
    requires |chip.shift| > 0
    ensures Sent(chip, saved, [], chip, saved)
  {
    NothingIn(chip, PinsOf(saved));
    assert Wires(BitsWords(saved, [])) == [];
  }

  lemma SentOneMore(chip0: Chip, saved: Bits, bits: seq<bool>, bit: bool, chip: Chip, lvl: Bits)
    requires Sent(chip0, saved, bits, chip, lvl)
    ensures var words := BitWords(lvl, bit);
      Sent(chip0, saved, bits + [bit], Run(chip, PinsOf(lvl), Wires(words)), words[2])
  {
    hide PinsOf, Run;
    var a, b := BitsWords(saved, bits), BitWords(lvl, bit);
    assert (bits + [bit])[..|bits|] == bits;
    assert BitsWords(saved, bits + [bit]) == a + b;
    WiresConcat(a, b);
    LastOfWires(saved, a);
    RunConcat(chip0, PinsOf(saved), Wires(a), Wires(b));
  }

  lemma WaveformAssembled(chip0: Chip, saved: Bits, bits: seq<bool>)
    requires |chip0.shift| > 0
    ensures var words := BitsWords(saved, bits);
      Run(chip0, PinsOf(saved), Wires(Waveform(saved, bits)))
      == Run(Run(chip0, PinsOf(saved), Wires(words)), PinsOf(LastWord(saved, words)), Wires([{SSTB}, {}, saved]))
  {
    hide PinsOf, Run, BitsWords;
    var words := BitsWords(saved, bits);
    WiresConcat(words, [{SSTB}, {}, saved]);
    LastOfWires(saved, words);
    RunConcat(chip0, PinsOf(saved), Wires(words), Wires([{SSTB}, {}, saved]));
  }

  class Card {
    var mpioLvl: Bits
    var mode8x: Bits
    var mpioSel: Bits
    var mpioInv: Bits
    var chip: Chip

    constructor (mpioLvl: Bits, mode8x: Bits, mpioSel: Bits, mpioInv: Bits, chip: Chip)
      ensures this.mpioLvl == mpioLvl && this.mode8x == mode8x && this.chip == chip
    {
      this.mpioLvl, this.mode8x, this.mpioSel, this.mpioInv, this.chip := mpioLvl, mode8x, mpioSel, mpioInv, chip;
    }

    /** Clock and strobe are low between operations. */
    ghost predicate Valid()
      reads this
    {
      |chip.shift| == 24 && SCLK !in mpioLvl && SSTB !in mpioLvl
    }

    /** A write of the register moves the chip's wires. */
    method WriteLvl(value: Bits)
      requires |chip.shift| > 0
      modifies this`mpioLvl, this`chip
      ensures mpioLvl == value && chip == Step(old(chip), PinsOf(old(mpioLvl)), PinsOf(value))
    {
      chip := Step(chip, PinsOf(mpioLvl), PinsOf(value));
      mpioLvl := value;
    }

    /** A value with the wires as they are moves nothing. */
    method WriteLvlQuietly(value: Bits)
      requires Valid() && PinsOf(value) == PinsOf(mpioLvl)
      modifies this`mpioLvl, this`chip
      ensures Valid() && mpioLvl == value && chip == old(chip)
    {
      WriteLvl(value);
    }

    /** The loop body: data on, clock high, clock low. */
    method WriteBit(data0: Bits, bit: bool) returns (data: Bits)
      requires |chip.shift| > 0 && data0 == mpioLvl
      modifies this`mpioLvl, this`chip
      ensures data == mpioLvl == BitWords(data0, bit)[2] && |chip.shift| == |old(chip).shift|
      ensures chip == Run(old(chip), PinsOf(data0), Wires(BitWords(data0, bit)))
    {
      ghost var chip0 := chip;
      data := data0;
      if bit {
        data := data + {SDTA};
      } else {
        data := data - {SDTA};
      }
      WriteLvl(data);
      data := data + {SCLK};
      WriteLvl(data);
      data := data * {SDTA};
      WriteLvl(data);
      ghost var w := BitWords(data0, bit);
      RunThree(chip0, PinsOf(data0), PinsOf(w[0]), PinsOf(w[1]), PinsOf(w[2]));
      assert Wires(w) == [PinsOf(w[0]), PinsOf(w[1]), PinsOf(w[2])];
    }

    /** Strobe on, strobe off, the saved state back. */
    method WriteStrobe(data0: Bits, saved: Bits)
      requires |chip.shift| > 0 && data0 == mpioLvl && data0 <= {SDTA}
      modifies this`mpioLvl, this`chip
      ensures mpioLvl == saved && chip == Run(old(chip), PinsOf(data0), Wires([{SSTB}, {}, saved]))
    {
      ghost var chip0 := chip;
      var data := data0 - {SDTA, SCLK, SSTB};
      data := data + {SSTB};
      assert data == {SSTB};
      WriteLvl(data);
      data := data - {SSTB};
      assert data == {};
      WriteLvl(data);
      WriteLvl(saved);
      RunThree(chip0, PinsOf(data0), PinsOf({SSTB}), PinsOf({}), PinsOf(saved));
      assert Wires([{SSTB}, {}, saved]) == [PinsOf({SSTB}), PinsOf({}), PinsOf(saved)];
    }

    /** The loop over the 24 bits. */
    method SendBits(clockData: nat) returns (data: Bits)
      requires |chip.shift| > 0
      modifies this`mpioLvl, this`chip
      ensures data == mpioLvl && Sent(old(chip), old(mpioLvl), BitsOf(clockData), chip, mpioLvl)
    {
      hide PinsOf, BitWords, Run, TopBit, Sent;
      ghost var chip0, saved, bits := chip, mpioLvl, BitsOf(clockData);
      var tempValue := clockData % 0x100_0000;
      data := mpioLvl;
      NothingSent(chip0, saved);
      assert bits[..0] == [];
      var i := 0;
      while i < 24
        invariant i <= 24 && tempValue == Doubled(clockData % 0x100_0000, i)
        invariant data == mpioLvl && |chip.shift| > 0
        invariant Sent(chip0, saved, bits[..i], chip, mpioLvl)
      {
        assert bits[i] == TopBit(tempValue);
        assert bits[..i + 1] == bits[..i] + [bits[i]];
        SentOneMore(chip0, saved, bits[..i], bits[i], chip, mpioLvl);
        data := WriteBit(data, TopBit(tempValue));
        tempValue := tempValue * 2;
        i := i + 1;
      }
      assert bits[..24] == bits;
    }

    /**
     * fastcom_set_clock_bits_pci: the chip latches the low 24 bits of the word, with one
     * strobe, and the register ends as it was, although every write on the way drops
     * all its other bits.
     */
    method SetClockBits(clockData: nat)
      requires Valid()
      modifies this`mpioLvl, this`chip
      ensures Valid() && mpioLvl == old(mpioLvl)
      ensures chip == Programmed(old(chip), BitsOf(clockData))
      ensures ValueOf(chip.latched) == clockData % 0x100_0000
    {
      hide PinsOf, BitsWords, Run, BitsOf, ValueOf;
      ghost var chip0, bits := chip, BitsOf(clockData);
      var saved := mpioLvl;
      var data := SendBits(clockData);
      BitsShiftIn(chip0, saved, bits);
      WaveformAssembled(chip0, saved, bits);
      WriteStrobe(data, saved);
      WaveformProgramsChip(chip0, saved, bits);
      WordRebuilt(clockData);
    }
  }

  // ---------------------------------------------------------------- ports

  /** What a user has set on one port, and what is board-wide. */
  datatype Settings = Settings(rs485: bool, sampleRate: nat, txTrigger: nat, rxTrigger: nat)
  datatype Shared = Shared(echoCancel: bool, clock: seq<bool>)

  datatype Uart = Uart(fctr: Bits, txTrg: nat, rxTrg: nat, fcr: nat)

  datatype Status = Done | Invalid

  ghost function SharedOf(card: Card): Shared
    reads card
  {
    Shared(ECHO in card.mpioLvl, card.chip.latched)
  }

  // ---------------------------------------------------------------- operations on the records

  datatype Op =
    | SetRs485(enable: bool) | SetEchoCancel(enable: bool) | SetSampleRate(value: nat)
    | SetTxTrigger(value: nat) | SetRxTrigger(value: nat) | SetClockBits(word: nat)

  function Apply(s: Settings, op: Op): Settings {
    match op
    case SetRs485(enable) => s.(rs485 := enable)
    case SetSampleRate(value) => if value in {8, 16} then s.(sampleRate := value) else s
    case SetTxTrigger(value) => if value <= 64 then s.(txTrigger := value) else s
    case SetRxTrigger(value) => if value <= 64 then s.(rxTrigger := value) else s
    case SetEchoCancel(_) => s
    case SetClockBits(_) => s
  }

  function ApplyShared(shared: Shared, op: Op): Shared {
    match op
    case SetEchoCancel(enable) => shared.(echoCancel := enable)
    case SetClockBits(word) => shared.(clock := BitsOf(word))
    case _ => shared
  }

  class Port {
    const card: Card
    const channel: nat
    var uart: Uart
    var sampleRate: nat
    var txTrigger: nat
    var rxTrigger: nat

    /** The transmitter follows the UART's rs485 bit, and the cached values the registers. */
    ghost predicate Valid()
      reads this, card
    {
      && channel < 4 && card.Valid()
      && (5 in uart.fctr <==> 3 + channel !in card.mpioLvl)
      && sampleRate == (if channel in card.mode8x then 8 else 16)
      && txTrigger == uart.txTrg && rxTrigger == uart.rxTrg
    }

    ghost function Current(): Settings
      requires Valid()
      reads this, card
    {
      Settings(5 in uart.fctr, sampleRate, txTrigger, rxTrigger)
    }

    /** No other channel's bits have changed. */
    twostate predicate OthersKept()
      reads card
    {
      && card.mode8x - {channel} == old(card.mode8x) - {channel}
      && card.mpioLvl - {3 + channel, ECHO} == old(card.mpioLvl) - {3 + channel, ECHO}
    }

    /** The port and the board stand for these records, and all other bits are as they were. */
    twostate predicate Became(s: Settings, shared: Shared)
      reads this, card
    {
      && old(Valid()) && Valid() && Current() == s && SharedOf(card) == shared && OthersKept()
      && uart.fcr == old(uart.fcr) && uart.fctr - {5} == old(uart.fctr) - {5}
      && card.mpioSel == old(card.mpioSel) && card.mpioInv == old(card.mpioInv)
    }

    method WriteRs485(enable: bool)
      requires channel < 4 && card.Valid()
      modifies this`uart, card`mpioLvl, card`chip
      ensures card.Valid() && card.chip == old(card.chip)
      ensures card.mpioLvl == WithRs485(old(card.mpioLvl), channel, enable)
      ensures uart == old(uart).(fctr := WithBit(old(uart).fctr, 5, enable))
    {
      var fctr, lvl := WithBit(uart.fctr, 5, enable), WithRs485(card.mpioLvl, channel, enable);
      card.WriteLvlQuietly(lvl);
      uart := uart.(fctr := fctr);
    }

    method SetRs485(enable: bool)
      requires Valid()
      modifies this, card
      ensures Became(old(Current()).(rs485 := enable), old(SharedOf(card)))
    {
      WriteRs485(enable);
    }

    method WriteEcho(enable: bool)
      requires card.Valid()
      modifies card`mpioLvl, card`chip
      ensures card.Valid() && card.chip == old(card.chip)
      ensures card.mpioLvl == WithBit(old(card.mpioLvl), ECHO, enable)
    {
      card.WriteLvlQuietly(WithBit(card.mpioLvl, ECHO, enable));
    }

    /** Board-wide. */
    method SetEchoCancel(enable: bool)
      requires Valid()
      modifies card
      ensures Became(old(Current()), old(SharedOf(card)).(echoCancel := enable))
    {
      WriteEcho(enable);
    }

    method SetSampleRate(value: nat) returns (status: Status)
      requires Valid()
      modifies this, card
      ensures status == (if value in {8, 16} then Done else Invalid)
      ensures Became(if status.Done? then old(Current()).(sampleRate := value) else old(Current()), old(SharedOf(card)))
    {
      if value != 8 && value != 16 {
        return Invalid;
      }
      card.mode8x := if value == 8 then card.mode8x + {channel} else card.mode8x - {channel};
      sampleRate := value;
      status := Done;
    }

    method SetTxTrigger(value: nat) returns (status: Status)
      requires Valid()
      modifies this
      ensures status == (if value <= 64 then Done else Invalid)
      ensures Became(if status.Done? then old(Current()).(txTrigger := value) else old(Current()), old(SharedOf(card)))
    {
      if value > 64 {
        return Invalid;
      }
      uart := uart.(txTrg := value);
      txTrigger := value;
      status := Done;
    }

    method SetRxTrigger(value: nat) returns (status: Status)
      requires Valid()
      modifies this
      ensures status == (if value <= 64 then Done else Invalid)
      ensures Became(if status.Done? then old(Current()).(rxTrigger := value) else old(Current()), old(SharedOf(card)))
    {
      if value > 64 {
        return Invalid;
      }
      uart := uart.(rxTrg := value);
      rxTrigger := value;
      status := Done;
    }

    method SetClockBits(word: nat)
      requires Valid()
      modifies card
      ensures Became(old(Current()), old(SharedOf(card)).(clock := BitsOf(word)))
      ensures card.mpioLvl == old(card.mpioLvl) && card.chip.strobes == old(card.chip).strobes + 1
      ensures ValueOf(card.chip.latched) == word % 0x100_0000
    {
      card.SetClockBits(word);
    }

    /** serialfc_port_new, from the assignments on; the clock lines must be low at reset. */
    constructor (card: Card, channel: nat, uart: Uart, rs232: bool)
      requires channel < 4 && card.Valid()
      modifies card
      ensures this.card == card && this.channel == channel && fresh(this)
      ensures Valid() && Current() == Settings(false, 16, 32, 32)
      ensures {6, 7} <= this.uart.fctr && this.uart.fcr == 0x01
      ensures card.mpioSel == (if rs232 then {6, 7} else {}) && (rs232 ==> card.mpioInv == {6, 7})
      ensures SharedOf(card) == Shared(false, BitsOf(0x100801))
      ensures card.mode8x - {channel} == old(card.mode8x) - {channel}
      ensures card.mpioLvl - {3 + channel, ECHO} == old(card.mpioLvl) - {3 + channel, ECHO}
    {
      this.card, this.channel, this.uart := card, channel, uart;
      sampleRate, txTrigger, rxTrigger := 16, 32, 32;
      new;
      if rs232 {
        card.mpioSel := {6, 7};
        card.mpioInv := {6, 7};
      } else {
        card.mpioSel := {};
      }
      this.uart := this.uart.(fcr := 0x01, fctr := this.uart.fctr + {6, 7});
      card.SetClockBits(0x100801);
      WriteRs485(false);
      card.mode8x := card.mode8x - {channel};
      this.uart := this.uart.(txTrg := 32, rxTrg := 32);
      WriteEcho(false);
    }

    method GetRs485() returns (enabled: bool)
      requires Valid()
      ensures enabled == Current().rs485
    {
      enabled := 5 in uart.fctr;
    }

    method GetEchoCancel() returns (enabled: bool)
      requires Valid()
      ensures enabled == SharedOf(card).echoCancel
    {
      enabled := ECHO in card.mpioLvl;
    }

    /** Whatever the operation, it does to the two records what they say it does. */
    method Execute(op: Op)
      requires Valid()
      modifies this, card
      ensures Became(Apply(old(Current()), op), ApplyShared(old(SharedOf(card)), op))
    {
      var status;
      match op {
        case SetRs485(enable) => SetRs485(enable);
        case SetEchoCancel(enable) => SetEchoCancel(enable);
        case SetSampleRate(value) => status := SetSampleRate(value);
        case SetTxTrigger(value) => status := SetTxTrigger(value);
        case SetRxTrigger(value) => status := SetRxTrigger(value);
        case SetClockBits(word) => SetClockBits(word);
      }
    }
  }

  // ---------------------------------------------------------------- runs over the ports

  datatype Request = Request(channel: nat, op: Op)

  /** A channel's record after a run depends on the requests for that channel alone. */
  function Replay(s: Settings, run: seq<Request>, channel: nat): Settings {
    if run == [] then s
    else
      var request := run[|run| - 1];
      var before := Replay(s, run[..|run| - 1], channel);
      if request.channel == channel then Apply(before, request.op) else before
  }

  /** The board's record after a run depends on the requests of every channel. */
  function ReplayShared(shared: Shared, run: seq<Request>): Shared {
    if run == [] then shared
    else ApplyShared(ReplayShared(shared, run[..|run| - 1]), run[|run| - 1].op)
  }

  ghost predicate Board(card: Card, ports: seq<Port>)
    reads card, ports
  {
    |ports| <= 4 && card.Valid() && forall c :: 0 <= c < |ports| ==>
      ports[c].card == card && ports[c].channel == c && ports[c].Valid()
  }

  method RunOne(card: Card, ports: seq<Port>, request: Request)
    requires Board(card, ports) && request.channel < |ports|
    modifies card, ports
    ensures Board(card, ports) && SharedOf(card) == ApplyShared(old(SharedOf(card)), request.op)
    ensures forall c :: 0 <= c < |ports| ==>
      ports[c].Current() == if c == request.channel
                            then Apply(old(ports[c].Current()), request.op)
                            else old(ports[c].Current())
  {
    hide Apply, ApplyShared;
    var me := ports[request.channel];
    assert forall c :: 0 <= c < |ports| && c != request.channel ==> ports[c] != me;
    me.Execute(request.op);
    forall c | 0 <= c < |ports| && c != request.channel
      ensures (c in card.mode8x <==> c in old(card.mode8x)) && (3 + c in card.mpioLvl <==> 3 + c in old(card.mpioLvl))
    {
      SameBit(card.mode8x, old(card.mode8x), {request.channel}, c);
      SameBit(card.mpioLvl, old(card.mpioLvl), {3 + request.channel, ECHO}, 3 + c);
    }
  }

  /**
   * Any interleaving of whole operations on up to four ports: the records end up as
   * replayed, and the clock lines are low again, so the next word will be latched too.
   */
  method RunRequests(card: Card, ports: seq<Port>, run: seq<Request>)
    requires Board(card, ports) && forall r :: r in run ==> r.channel < |ports|
    modifies card, ports
    ensures Board(card, ports) && SCLK !in card.mpioLvl && SSTB !in card.mpioLvl
    ensures SharedOf(card) == ReplayShared(old(SharedOf(card)), run)
    ensures forall c :: 0 <= c < |ports| ==> ports[c].Current() == Replay(old(ports[c].Current()), run, c)
  {
    hide Apply, ApplyShared;
    ghost var shared := SharedOf(card);
    ghost var start := seq(|ports|,
      c requires 0 <= c < |ports| && ports[c].Valid() reads card, ports => ports[c].Current());
    var k := 0;
    while k < |run|
      invariant k <= |run| && Board(card, ports) && SharedOf(card) == ReplayShared(shared, run[..k])
      invariant forall c :: 0 <= c < |ports| ==> ports[c].Current() == Replay(start[c], run[..k], c)
    {
      var request := run[k];
      assert request in run;
      assert run[..k + 1][..k] == run[..k];
      RunOne(card, ports, request);
      k := k + 1;
    }
    assert run[..|run|] == run;
  }

  method AddPort(card: Card, ports: seq<Port>, uart: Uart, rs232: bool) returns (ports': seq<Port>)
    requires Board(card, ports) && |ports| < 4
    requires forall c :: 0 <= c < |ports| ==> ports[c].Current() == Settings(false, 16, 32, 32)
    modifies card
    ensures |ports'| == |ports| + 1 && ports'[..|ports|] == ports && fresh(ports'[|ports|]) && Board(card, ports')
    ensures forall c :: 0 <= c < |ports'| ==> ports'[c].Current() == Settings(false, 16, 32, 32)
    ensures SharedOf(card) == Shared(false, BitsOf(0x100801))
  {
    hide BitsOf;
    var port := new Port(card, |ports|, uart, rs232);
    forall c | 0 <= c < |ports|
      ensures (c in card.mode8x <==> c in old(card.mode8x)) && (3 + c in card.mpioLvl <==> 3 + c in old(card.mpioLvl))
    {
      SameBit(card.mode8x, old(card.mode8x), {|ports|}, c);
      SameBit(card.mpioLvl, old(card.mpioLvl), {3 + |ports|, ECHO}, 3 + c);
    }
    ports' := ports + [port];
  }

  /** serialfc_port_new for up to four channels. */
  method BringUp(card: Card, uarts: seq<Uart>, rs232: bool) returns (ports: seq<Port>)
    requires |uarts| <= 4 && card.Valid()
    modifies card
    ensures |ports| == |uarts| && Board(card, ports) && fresh(ports)
    ensures forall c :: 0 <= c < |ports| ==> ports[c].Current() == Settings(false, 16, 32, 32)
    ensures |uarts| > 0 ==> SharedOf(card) == Shared(false, BitsOf(0x100801))
  {
    hide BitsOf;
    ports := [];
    while |ports| < |uarts|
      invariant |ports| <= |uarts| && fresh(ports) && Board(card, ports)
      invariant forall c :: 0 <= c < |ports| ==> ports[c].Current() == Settings(false, 16, 32, 32)
      invariant |ports| > 0 ==> SharedOf(card) == Shared(false, BitsOf(0x100801))
    {
      ports := AddPort(card, ports, uarts[|ports|], rs232);
    }
  }
}
