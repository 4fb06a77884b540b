// An Async-PCIe card: four registers with one bit per channel, shared by up to eight
// ports, and each port's own UART registers.

module PcieCard {

  import Baud
  import opened Registers

  /** The registers all channels share. */
  class Card {
    var mode4x: Bits
    var mode8x: Bits
    var mpioLvl: Bits
    var mpioLvlH: Bits
    var mpioSel: Bits
    var mpioSelH: Bits

    constructor (mode4x: Bits, mode8x: Bits, mpioLvl: Bits, mpioLvlH: Bits)
      ensures this.mode4x == mode4x && this.mode8x == mode8x && this.mpioLvl == mpioLvl && this.mpioLvlH == mpioLvlH
    {
      this.mode4x, this.mode8x, this.mpioLvl, this.mpioLvlH := mode4x, mode8x, mpioLvl, mpioLvlH;
      mpioSel, mpioSelH := {}, {};
    }
  }

  /** The shared bits of one channel. */
  datatype Lines = Lines(mode4x: bool, mode8x: bool, termination: bool, echo: bool)

  function LinesOf(mode4x: Bits, mode8x: Bits, lvl: Bits, lvlH: Bits, channel: nat): Lines {
    Lines(channel in mode4x, channel in mode8x, channel in lvl, channel in lvlH)
  }

  /** A channel's UART.  `dll`, `dlm` and `dld` are its divisor latches, which LCR bit 7 puts over other registers. */
  datatype Uart = Uart(lcr: Bits, mcr: Bits, fctr: Bits, txTrg: nat, rxTrg: nat,
                       dll: nat, dlm: nat, dld: nat, thr: nat, ier: nat, fcr: nat)
  {
    predicate Valid() {
      dll < 0x100 && dlm < 0x100 && dld < 0x100
    }

    /** Offsets 0, 1 and 2. */
    function WriteDll(value: nat): Uart {
      if 7 in lcr then this.(dll := value) else this.(thr := value)
    }

    function WriteDlm(value: nat): Uart {
      if 7 in lcr then this.(dlm := value) else this.(ier := value)
    }

    function WriteDld(value: nat): Uart {
      if 7 in lcr then this.(dld := value) else this.(fcr := value)
    }

    function ReadDld(): nat {
      if 7 in lcr then dld else fcr
    }

    /** The 20 bits of the divisor. */
    function Latched(): nat {
      dlm * 0x1000 + dll * 0x10 + dld % 0x10
    }
  }

  datatype Settings = Settings(rs485: bool, termination: bool, echoCancel: bool, sampleRate: nat,
                               txTrigger: nat, rxTrigger: nat, divisor: nat)

  datatype Status = Done | Invalid

  /** How the hardware samples a channel. */
  function RateOf(lines: Lines): nat {
    if lines.mode4x then 4 else if lines.mode8x then 8 else 16
  }

  function Recorded(uart: Uart, lines: Lines): Settings {
    Settings(5 in uart.fctr, !lines.termination, lines.echo, RateOf(lines), uart.txTrg, uart.rxTrg, uart.Latched())
  }

  lemma TwentyBits(d: nat)
    ensures ((d / 0x1000) % 0x100) * 0x1000 + ((d / 0x10) % 0x100) * 0x10 + d % 0x10 == d % 0x10_0000
  {
    assert d / 0x1000 == d / 0x10 / 0x100;
    assert d / 0x10_0000 == d / 0x1000 / 0x100;
  }

  /** The three bytes of a divisor: casts to char cut it to 20 bits, and DLD keeps its high half. */
  method LatchBytes(divisor: nat, dld: nat) returns (dlm: nat, dll: nat, dld': nat)
    requires dld < 0x100
    ensures dlm < 0x100 && dll < 0x100 && dld' < 0x100 && dld' / 0x10 == dld / 0x10
    ensures dlm * 0x1000 + dll * 0x10 + dld' % 0x10 == divisor % 0x10_0000
  {
    dlm := (divisor / 0x1000) % 0x100;
    dll := (divisor / 0x10) % 0x100;
    dld' := dld / 0x10 * 0x10;
    dld' := dld' + divisor % 0x10;
    TwentyBits(divisor);
  }

  lemma DivisorRecorded(uart: Uart, lines: Lines)
    ensures Recorded(uart, lines).divisor == uart.Latched()
  {
  }

  // ---------------------------------------------------------------- operations on the record

  datatype Op =
    | SetRs485(enable: bool) | SetTermination(enable: bool) | SetEchoCancel(enable: bool)
    | SetSampleRate(value: nat) | SetTxTrigger(value: nat) | SetRxTrigger(value: nat) | SetBaudRate(value: nat)

  /** The driver divides by the rate it is asked for. */
  predicate WellFormed(op: Op) {
    op.SetBaudRate? ==> op.value > 0
  }

  function Apply(s: Settings, op: Op): Settings
    requires WellFormed(op)
  {
    match op
    case SetRs485(enable) => s.(rs485 := enable)
    case SetTermination(enable) => s.(termination := enable)
    case SetEchoCancel(enable) => s.(echoCancel := enable)
    case SetSampleRate(value) => if value in {4, 8, 16} then s.(sampleRate := value) else s
    case SetTxTrigger(value) => if value <= 255 then s.(txTrigger := value) else s
    case SetRxTrigger(value) => if value <= 255 then s.(rxTrigger := value) else s
    case SetBaudRate(value) =>
      if s.sampleRate > 0 && Baud.Accepted(value, s.sampleRate)
      then s.(divisor := Baud.Latched(value, s.sampleRate))
      else s
  }

  /** The record by the masks of the registers; in the shared ones the mask is 1 shifted by the channel. */
  lemma RecordedMasks(uart: Uart, mode4x: Bits, mode8x: Bits, lvl: Bits, lvlH: Bits, channel: nat)
    requires channel < 8
    ensures var s := Recorded(uart, LinesOf(mode4x, mode8x, lvl, lvlH, channel));
      && (s.rs485 <==> Has(NumberOf(uart.fctr, 8), 0x20))
      && (s.termination <==> !Has(NumberOf(lvl, 8), Power(channel)))
      && (s.echoCancel <==> Has(NumberOf(lvlH, 8), Power(channel)))
      && s.sampleRate == (if Has(NumberOf(mode4x, 8), Power(channel)) then 4
                          else if Has(NumberOf(mode8x, 8), Power(channel)) then 8 else 16)
  {
    hide NumberOf, Has, Power;
    Powers();
    BitOfValue(uart.fctr, 5, 8);
    BitOfValue(lvl, channel, 8);
    BitOfValue(lvlH, channel, 8);
    BitOfValue(mode4x, channel, 8);
    BitOfValue(mode8x, channel, 8);
  }

  /** The bit of MCR that makes DTR drive the transmitter. */
  lemma DtrMask(mcr: Bits)
    ensures Has(NumberOf(mcr, 8), 0x04) <==> 2 in mcr
  {
    hide NumberOf, Has, Power;
    Powers();
    BitOfValue(mcr, 2, 8);
  }

  class Port {
    const card: Card
    const channel: nat
    var uart: Uart
    var sampleRate: nat
    var txTrigger: nat
    var rxTrigger: nat

    ghost function MyLines(): Lines
      reads this, card
    {
      LinesOf(card.mode4x, card.mode8x, card.mpioLvl, card.mpioLvlH, channel)
    }

    /** The channel is in one sampling mode, the one cached; and the other cached values are the registers'. */
    ghost predicate Valid()
      reads this, card
    {
      && channel < 8 && uart.Valid()
      && !(MyLines().mode4x && MyLines().mode8x)
      && sampleRate == RateOf(MyLines())
      && (2 in uart.mcr <==> 5 in uart.fctr)
      && txTrigger == uart.txTrg && rxTrigger == uart.rxTrg
    }

    ghost function Current(): Settings
      requires Valid()
      reads this, card
    {
      Recorded(uart, MyLines())
    }

    /** No shared bit of another channel has changed. */
    twostate predicate OthersKept()
      reads this, card
    {
      && card.mode4x - {channel} == old(card.mode4x) - {channel}
      && card.mode8x - {channel} == old(card.mode8x) - {channel}
      && card.mpioLvl - {channel} == old(card.mpioLvl) - {channel}
      && card.mpioLvlH - {channel} == old(card.mpioLvlH) - {channel}
    }

    /** The port stands for the record, having left the other channels and all other bits alone. */
    twostate predicate Became(s: Settings)
      reads this, card
    {
      && old(Valid()) && Valid() && Current() == s && OthersKept()
      && uart.lcr == old(uart.lcr) && uart.fcr == old(uart.fcr)
      && uart.ier == old(uart.ier) && uart.thr == old(uart.thr)
      && uart.mcr - {2} == old(uart.mcr) - {2} && uart.fctr - {5} == old(uart.fctr) - {5}
      && uart.dld / 0x10 == old(uart.dld) / 0x10
      && card.mpioSel == old(card.mpioSel) && card.mpioSelH == old(card.mpioSelH)
    }

    method WriteRs485(enable: bool)
      modifies this`uart
      ensures uart == old(uart).(mcr := WithBit(old(uart).mcr, 2, enable), fctr := WithBit(old(uart).fctr, 5, enable))
    {
      var mcr, fctr := WithBit(uart.mcr, 2, enable), WithBit(uart.fctr, 5, enable);
      uart := uart.(mcr := mcr);
      uart := uart.(fctr := fctr);
    }

    method SetRs485(enable: bool)
      requires Valid()
      modifies this
      ensures Became(old(Current()).(rs485 := enable))
      ensures Has(NumberOf(uart.mcr, 8), 0x04) <==> enable
    {
      WriteRs485(enable);
      DtrMask(uart.mcr);
    }

    method WriteSampleRate(value: nat)
      requires value in {4, 8, 16}
      modifies card, this`sampleRate
      ensures sampleRate == value == RateOf(MyLines()) && !(MyLines().mode4x && MyLines().mode8x)
      ensures card.mode4x == WithBit(old(card.mode4x), channel, value == 4)
      ensures card.mode8x == WithBit(old(card.mode8x), channel, value == 8)
      ensures card.mpioLvl == old(card.mpioLvl) && card.mpioLvlH == old(card.mpioLvlH)
      ensures card.mpioSel == old(card.mpioSel) && card.mpioSelH == old(card.mpioSelH)
    {
      var new4x, new8x;
      match value {
        case 4 =>
          new4x := card.mode4x + {channel};
          new8x := card.mode8x - {channel};
        case 8 =>
          new4x := card.mode4x - {channel};
          new8x := card.mode8x + {channel};
        case _ =>
          new4x := card.mode4x - {channel};
          new8x := card.mode8x - {channel};
      }
      card.mode4x := new4x;
      card.mode8x := new8x;
      sampleRate := value;
    }

    method SetSampleRate(value: nat) returns (status: Status)
      requires Valid()
      modifies this, card
      ensures status == (if value in {4, 8, 16} then Done else Invalid)
      ensures Became(if status.Done? then old(Current()).(sampleRate := value) else old(Current()))
    {
      if value != 4 && value != 8 && value != 16 {
        return Invalid;
      }
      WriteSampleRate(value);
      status := Done;
    }

    method SetTxTrigger(value: nat) returns (status: Status)
      requires Valid()
      modifies this
      ensures status == (if value <= 255 then Done else Invalid)
      ensures Became(if status.Done? then old(Current()).(txTrigger := value) else old(Current()))
    {
      if value > 255 {
        return Invalid;
      }
      uart := uart.(txTrg := value);
      txTrigger := value;
      status := Done;
    }

    method SetRxTrigger(value: nat) returns (status: Status)
      requires Valid()
      modifies this
      ensures status == (if value <= 255 then Done else Invalid)
      ensures Became(if status.Done? then old(Current()).(rxTrigger := value) else old(Current()))
    {
      if value > 255 {
        return Invalid;
      }
      uart := uart.(rxTrg := value);
      rxTrigger := value;
      status := Done;
    }

    /** Active low. */
    method SetTermination(enable: bool)
      requires Valid()
      modifies card
      ensures Became(old(Current()).(termination := enable))
    {
      card.mpioLvl := WithBit(card.mpioLvl, channel, !enable);
    }

    method SetEchoCancel(enable: bool)
      requires Valid()
      modifies card
      ensures Became(old(Current()).(echoCancel := enable))
    {
      card.mpioLvlH := WithBit(card.mpioLvlH, channel, enable);
    }

    /** fastcom_init_triggers: FIFOs on, programmable trigger levels on. */
    method InitTriggers()
      requires uart.Valid()
      modifies this`uart
      ensures uart.Valid() && uart.lcr == old(uart.lcr) && uart.fctr == old(uart.fctr) + {6, 7}
      ensures 7 !in old(uart.lcr) ==> uart.fcr == 0x01
    {
      var fctr := uart.fctr;
      uart := uart.WriteDld(0x01);
      uart := uart.(fctr := fctr + {6, 7});
    }

    /** serialfc_port_new, from the assignments on: whatever the reset state, the defaults. */
    constructor (card: Card, channel: nat, uart: Uart)
      requires channel < 8 && uart.Valid()
      modifies card
      ensures this.card == card && this.channel == channel && fresh(this)
      ensures Valid() && this.uart.lcr == uart.lcr
      ensures {6, 7} <= this.uart.fctr && (7 !in uart.lcr ==> this.uart.fcr == 0x01)
      ensures var s := Current();
        !s.rs485 && s.sampleRate == 16 && s.txTrigger == 32 && s.rxTrigger == 32 && s.termination && !s.echoCancel
      ensures card.mode4x - {channel} == old(card.mode4x) - {channel}
      ensures card.mode8x - {channel} == old(card.mode8x) - {channel}
      ensures card.mpioLvl - {channel} == old(card.mpioLvl) - {channel}
      ensures card.mpioLvlH - {channel} == old(card.mpioLvlH) - {channel}
      ensures card.mpioSel == card.mpioSelH == {}
    {
      this.card, this.channel, this.uart := card, channel, uart;
      sampleRate, txTrigger, rxTrigger := 0, 0, 0;
      new;
      card.mpioSel := {};
      card.mpioSelH := {};
      InitTriggers();
      WriteRs485(false);
      WriteSampleRate(16);
      txTrigger, rxTrigger := 32, 32;
      this.uart := this.uart.(txTrg := 32, rxTrg := 32);
      card.mpioLvl := WithBit(card.mpioLvl, channel, false);
      card.mpioLvlH := WithBit(card.mpioLvlH, channel, false);
    }

    /**
     * pcie_set_baud_rate: an accepted rate's divisor, cut to the 20 bits of the latches,
     * is latched; LCR and the high half of DLD are kept.
     */
    method SetBaudRate(value: nat) returns (status: Status)
      requires Valid() && value > 0
      modifies this
      ensures sampleRate == old(sampleRate) && sampleRate in {4, 8, 16}
      ensures status == (if value * sampleRate <= 125000000 then Done else Invalid)
      ensures Became(if status.Done?
                     then old(Current()).(divisor := Baud.Latched(value, sampleRate))
                     else old(Current()))
      ensures status.Done? ==> Current().divisor > 0
      ensures uart.dld / 0x10 == old(uart).dld / 0x10
      ensures uart == old(uart).(dll := uart.dll, dlm := uart.dlm, dld := uart.dld)
    {
      hide Baud.Divisor;
      Baud.AcceptedExactly(value, sampleRate);
      if value > Baud.INPUT_FREQ / sampleRate {
        return Invalid;
      }
      Baud.NeverZero(value, sampleRate);
      var origLcr := uart.lcr;
      uart := uart.(lcr := origLcr + {7});
      var divisor := Baud.Divisor(value, sampleRate);
      var dlm, dll, dld := LatchBytes(divisor, uart.ReadDld());
      uart := uart.WriteDlm(dlm);
      uart := uart.WriteDll(dll);
      uart := uart.WriteDld(dld);
      uart := uart.(lcr := origLcr);
      status := Done;
    }

    /** pcie_get_baud_rate, once a divisor is set. */
    method GetBaudRate() returns (value: nat)
      requires Valid() && Current().divisor > 0
      modifies this`uart
      ensures Became(old(Current())) && uart == old(uart)
      ensures value == Baud.Rate(Current().divisor, sampleRate)
    {
      hide Baud.Rate, Recorded;
      DivisorRecorded(uart, MyLines());
      var origLcr := uart.lcr;
      uart := uart.(lcr := origLcr + {7});
      var dlm, dll, dld := uart.dlm, uart.dll, uart.dld;
      var divisor16ths := dlm * 0x1000 + dll * 0x10 + dld % 0x10;
      value := Baud.Rate(divisor16ths, sampleRate);
      uart := uart.(lcr := origLcr);
    }

    method GetRs485() returns (enabled: bool)
      requires Valid()
      ensures enabled == Current().rs485
    {
      enabled := 5 in uart.fctr;
    }

    method GetTermination() returns (enabled: bool)
      requires Valid()
      ensures enabled == Current().termination
    {
      enabled := if channel in card.mpioLvl then false else true;
    }

    method GetEchoCancel() returns (enabled: bool)
      requires Valid()
      ensures enabled == Current().echoCancel
    {
      enabled := channel in card.mpioLvlH;
    }

    /** The write-only registers are read from the driver's copies. */
    method GetSampleRateAndTriggers() returns (rate: nat, tx: nat, rx: nat)
      requires Valid()
      ensures rate == Current().sampleRate && tx == Current().txTrigger && rx == Current().rxTrigger
    {
      rate, tx, rx := sampleRate, txTrigger, rxTrigger;
    }

    /**
     * Set a rate and read it back.  Exactly from 1908 / sample rate up the rate read back
     * is not below the one set and less than value / divisor above it; it is then as near
     * as the card can come, and accepted itself, with the same divisor.
     */
    method SetAndGetBaudRate(value: nat) returns (g: nat)
      requires Valid() && value > 0 && Baud.Accepted(value, sampleRate)
      modifies this
      ensures sampleRate == old(sampleRate) && sampleRate in {4, 8, 16}
      ensures Became(old(Current()).(divisor := Baud.Latched(value, sampleRate)))
      ensures Current().divisor > 0
      ensures value <= g && (g - value) * Current().divisor < value <==> value * sampleRate >= 1908
      ensures value * sampleRate >= 1908 ==>
        && Current().divisor == Baud.Divisor(value, sampleRate) >= 16
        && (forall d: nat :: d > 0 && value <= Baud.Rate(d, sampleRate) ==> g <= Baud.Rate(d, sampleRate))
        && g > 0 && Baud.Accepted(g, sampleRate) && Baud.Divisor(g, sampleRate) == Current().divisor
    {
      hide Baud.Divisor, Baud.Rate, Baud.Accepted, Recorded;
      Baud.ReadBackExactly(value, sampleRate);
      Baud.DivisorFits(value, sampleRate);
      Baud.ReadBackAccepted(value, sampleRate);
      Baud.ReadBack(value, sampleRate);
      Baud.SetGetSet(value, sampleRate);
      var status := SetBaudRate(value);
      DivisorRecorded(uart, MyLines());
      g := GetBaudRate();
    }

    /** Setting the rate read back changes nothing: set, get, set is a fixpoint. */
    method SetGetSetBaudRate(value: nat) returns (g: nat)
      requires Valid() && value > 0
      requires Baud.Accepted(value, sampleRate) && value * sampleRate >= 1908
      modifies this
      ensures g >= value && sampleRate == old(sampleRate) && sampleRate in {4, 8, 16}
      ensures Became(old(Current()).(divisor := Baud.Divisor(value, sampleRate)))
    {
      hide Baud.Divisor, Baud.Rate, Baud.Accepted, Recorded;
      Baud.DivisorFits(value, sampleRate);
      g := SetAndGetBaudRate(value);
      var status := SetBaudRate(g);
    }

    /** The rate cached is the rate recorded. */
    lemma RateRecorded()
      requires Valid()
      ensures Current().sampleRate == sampleRate
    {
    }

    /** Whatever the operation, it does to the record what the record says it does, and nothing to other channels. */
    method Execute(op: Op)
      requires Valid() && WellFormed(op)
      modifies this, card
      ensures Became(Apply(old(Current()), op))
    {
      hide Recorded;
      var status;
      match op {
        case SetRs485(enable) => SetRs485(enable);
        case SetTermination(enable) => SetTermination(enable);
        case SetEchoCancel(enable) => SetEchoCancel(enable);
        case SetSampleRate(value) => status := SetSampleRate(value);
        case SetTxTrigger(value) => status := SetTxTrigger(value);
        case SetRxTrigger(value) => status := SetRxTrigger(value);
        case SetBaudRate(value) => RateRecorded(); status := SetBaudRate(value);
      }
    }
  }

  // ---------------------------------------------------------------- runs over the ports

  datatype Request = Request(channel: nat, op: Op)

  /** The record of one channel after a run: what the requests for that channel make of it. */
  function Replay(s: Settings, run: seq<Request>, channel: nat): Settings
    requires forall r :: r in run ==> WellFormed(r.op)
  {
    if run == [] then s
    else
      var request := run[|run| - 1];
      var before := Replay(s, run[..|run| - 1], channel);
      if request.channel == channel then Apply(before, request.op) else before
  }

  /** A divisor once latched stays usable: whatever is set later, the getter never divides by 0. */
  lemma {:induction false} DivisorStaysUsable(s: Settings, run: seq<Request>, channel: nat)
    requires s.sampleRate in {4, 8, 16} && s.divisor > 0
    requires forall r :: r in run ==> WellFormed(r.op)
    ensures Replay(s, run, channel).sampleRate in {4, 8, 16} && Replay(s, run, channel).divisor > 0
  {
    hide Baud.Latched, Baud.Accepted;
    if run != [] {
      var most, last := run[..|run| - 1], run[|run| - 1];
      assert last in run;
      DivisorStaysUsable(s, most, channel);
      var before := Replay(s, most, channel);
      if last.op.SetBaudRate? && Baud.Accepted(last.op.value, before.sampleRate) {
        Baud.NeverZero(last.op.value, before.sampleRate);
      }
    }
  }

  /** The ports of a card, one per channel from 0 up. */
  ghost predicate Board(card: Card, ports: seq<Port>)
    reads card, ports
  {
    |ports| <= 8 && forall c :: 0 <= c < |ports| ==>
      ports[c].card == card && ports[c].channel == c && ports[c].Valid()
  }

  /** One operation changes the record of its own channel and no other. */
  method RunOne(card: Card, ports: seq<Port>, request: Request)
    requires Board(card, ports) && request.channel < |ports| && WellFormed(request.op)
    modifies card, ports
    ensures Board(card, ports)
    ensures forall c :: 0 <= c < |ports| ==>
      && ports[c].Current() == (if c == request.channel
                                then Apply(old(ports[c].Current()), request.op)
                                else old(ports[c].Current()))
      && ports[c].uart.lcr == old(ports[c].uart.lcr)
  {
    hide Apply, WellFormed, Recorded;
    var me := ports[request.channel];
    assert forall c :: 0 <= c < |ports| && c != request.channel ==> ports[c] != me;
    me.Execute(request.op);
    forall c | 0 <= c < |ports| && c != request.channel
      ensures ports[c].uart == old(ports[c].uart) && ports[c].MyLines() == old(ports[c].MyLines())
    {
      SameBit(card.mode4x, old(card.mode4x), {request.channel}, c);
      SameBit(card.mode8x, old(card.mode8x), {request.channel}, c);
      SameBit(card.mpioLvl, old(card.mpioLvl), {request.channel}, c);
      SameBit(card.mpioLvlH, old(card.mpioLvlH), {request.channel}, c);
    }
  }

  /**
   * Any interleaving of whole operations on up to eight ports.  Each port's record ends
   * up as if the operations for its channel had run alone; every channel is in the one
   * sampling mode its port caches.
   */
  method RunRequests(card: Card, ports: seq<Port>, run: seq<Request>)
    requires Board(card, ports)
    requires forall r :: r in run ==> r.channel < |ports| && WellFormed(r.op)
    modifies card, ports
    ensures Board(card, ports)
    ensures forall c :: 0 <= c < |ports| ==>
      && ports[c].Current() == Replay(old(ports[c].Current()), run, c)
      && !(c in card.mode4x && c in card.mode8x)
      && ports[c].sampleRate == RateOf(ports[c].MyLines())
  {
    hide Recorded, Apply, WellFormed;
    ghost var start := seq(|ports|,
      c requires 0 <= c < |ports| && ports[c].Valid() reads card, ports => ports[c].Current());
    var k := 0;
    while k < |run|
      invariant k <= |run| && Board(card, ports)
      invariant forall c :: 0 <= c < |ports| ==> ports[c].Current() == Replay(start[c], run[..k], c)
    {
      var request := run[k];
      assert request in run;
      assert run[..k + 1][..k] == run[..k];
      RunOne(card, ports, request);
      k := k + 1;
    }
    assert run[..|run|] == run;
  }

  predicate IsDefault(s: Settings) {
    !s.rs485 && s.sampleRate == 16 && s.txTrigger == 32 && s.rxTrigger == 32 && s.termination && !s.echoCancel
  }

  method AddPort(card: Card, ports: seq<Port>, uart: Uart) returns (ports': seq<Port>)
    requires Board(card, ports) && |ports| < 8 && uart.Valid()
    requires forall c :: 0 <= c < |ports| ==> IsDefault(ports[c].Current())
    modifies card
    ensures |ports'| == |ports| + 1 && ports'[..|ports|] == ports && fresh(ports'[|ports|]) && Board(card, ports')
    ensures forall c :: 0 <= c < |ports'| ==> IsDefault(ports'[c].Current())
  {
    hide Recorded;
    var port := new Port(card, |ports|, uart);
    forall c | 0 <= c < |ports|
      ensures ports[c].uart == old(ports[c].uart) && ports[c].MyLines() == old(ports[c].MyLines())
    {
      SameBit(card.mode4x, old(card.mode4x), {|ports|}, c);
      SameBit(card.mode8x, old(card.mode8x), {|ports|}, c);
      SameBit(card.mpioLvl, old(card.mpioLvl), {|ports|}, c);
      SameBit(card.mpioLvlH, old(card.mpioLvlH), {|ports|}, c);
    }
    ports' := ports + [port];
  }

  /** serialfc_port_new for every channel: each leaves the ones before it at the defaults. */
  method BringUp(card: Card, uarts: seq<Uart>) returns (ports: seq<Port>)
    requires |uarts| <= 8 && forall c :: 0 <= c < |uarts| ==> uarts[c].Valid()
    modifies card
    ensures |ports| == |uarts| && Board(card, ports) && fresh(ports)
    ensures forall c :: 0 <= c < |ports| ==> IsDefault(ports[c].Current())
  {
    hide Recorded, IsDefault;
    ports := [];
    while |ports| < |uarts|
      invariant |ports| <= |uarts| && fresh(ports) && Board(card, ports)
      invariant forall c :: 0 <= c < |ports| ==> IsDefault(ports[c].Current())
    {
      ports := AddPort(card, ports, uarts[|ports|]);
    }
  }
}
