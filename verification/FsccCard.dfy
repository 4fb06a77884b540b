// An FSCC card: the feature control register (FCR, 32 bits at bar 2) that its two
// channels share, and the clock chips its wires lead to; and a port, one per channel.

module FsccCard {

  import opened Receiver
  import opened Registers
  import opened FsccSerialiser
  import opened FsccUart
  import Ics30703Word
  import Words

  /** What fcr bits a channel has besides its wires: echo cancel, rs485, async. */
  function EchoBit(channel: nat): nat {
    if channel == 1 then 20 else 16
  }

  function Rs485Bit(channel: nat): nat {
    if channel == 1 then 22 else 18
  }

  function AsyncBit(channel: nat): nat {
    24 + channel
  }

  function Owned(channel: nat): Bits {
    {EchoBit(channel), Rs485Bit(channel), AsyncBit(channel)}
  }

  /** The clock and strobe lines are low. */
  predicate Idle(fcr: Bits) {
    forall c :: 0 <= c < 2 ==> !PinsOf(fcr, c).clk && !PinsOf(fcr, c).strobe
  }

  /** The version register of a channel: device, printed circuit and firmware revision. */
  datatype Revision = Revision(pdev: nat, prev: nat, frev: nat)

  /** All cards run their clock chip off the crystal, but for old green FSCC cards and 232 cards. */
  predicate NeedsCrystal(r: Revision) {
    !((r.pdev == 0x0f && r.prev <= 6) || r.pdev == 0x16)
  }

  /** Running one more value is one more step. */
  lemma RunOneMore(chip: Chip, fcr: Bits, words: seq<Bits>, w: Bits, channel: nat)
    requires |chip.shift| > 0
    ensures var last := if words == [] then fcr else words[|words| - 1];
      Run(chip, PinsOf(fcr, channel), Wires(words + [w], channel))
      == Step(Run(chip, PinsOf(fcr, channel), Wires(words, channel)), PinsOf(last, channel), PinsOf(w, channel))
  {
    hide PinsOf;
    WiresConcat(words, [w], channel);
    RunConcat(chip, PinsOf(fcr, channel), Wires(words, channel), Wires([w], channel));
    assert Wires([w], channel) == [PinsOf(w, channel)];
    var last := if words == [] then fcr else words[|words| - 1];
    assert Last(PinsOf(fcr, channel), Wires(words, channel)) == PinsOf(last, channel);
    OneStep(Run(chip, PinsOf(fcr, channel), Wires(words, channel)), PinsOf(last, channel), PinsOf(w, channel));
  }

  class Card {
    var fcr: Bits
    var chips: seq<Chip>

    const revision: seq<Revision>

    constructor (fcr: Bits, chips: seq<Chip>, revision: seq<Revision>)
      ensures this.fcr == fcr && this.chips == chips && this.revision == revision
    {
      this.fcr, this.chips, this.revision := fcr, chips, revision;
    }

    ghost predicate Valid()
      reads this
    {
      && |chips| == |revision| == 2
      && (forall c :: 0 <= c < 2 ==> |chips[c].shift| == 160)
      && Idle(fcr)
    }

    /** A write of the register moves the wires of both chips. */
    method WriteFcr(value: Bits)
      requires |chips| == 2 && forall c :: 0 <= c < 2 ==> |chips[c].shift| > 0
      modifies this
      ensures fcr == value && |chips| == 2
      ensures forall c :: 0 <= c < 2 ==> chips[c] == Step(old(chips)[c], PinsOf(old(fcr), c), PinsOf(value, c))
    {
      chips := [Step(chips[0], PinsOf(fcr, 0), PinsOf(value, 0)), Step(chips[1], PinsOf(fcr, 1), PinsOf(value, 1))];
      fcr := value;
    }

    /** Values that move no wire move no chip. */
    method WriteFcrQuietly(value: Bits)
      requires Valid() && forall c :: 0 <= c < 2 ==> PinsOf(value, c) == PinsOf(fcr, c)
      modifies this
      ensures Valid() && fcr == value && chips == old(chips)
    {
      WriteFcr(value);
      assert chips == old(chips);
    }

    /** iowrite32_rep: one value after the other to the same register. */
    method WriteFcrRep(data: array<Bits>, count: nat)
      requires count <= data.Length
      requires |chips| == 2 && forall c :: 0 <= c < 2 ==> |chips[c].shift| > 0
      modifies this
      ensures |chips| == 2
      ensures fcr == if count == 0 then old(fcr) else data[count - 1]
      ensures forall c :: 0 <= c < 2 ==>
        chips[c] == Run(old(chips)[c], PinsOf(old(fcr), c), Wires(data[..count], c))
    {
      ghost var fcr0, chips0 := fcr, chips;
      var k := 0;
      while k < count
        invariant k <= count && |chips| == 2 && fcr == (if k == 0 then fcr0 else data[k - 1])
        invariant forall c :: 0 <= c < 2 ==>
          |chips[c].shift| > 0 && chips[c] == Run(chips0[c], PinsOf(fcr0, c), Wires(data[..k], c))
      {
        ghost var chips1, fcr1 := chips, fcr;
        WriteFcr(data[k]);
        forall c | 0 <= c < 2
          ensures chips[c] == Run(chips0[c], PinsOf(fcr0, c), Wires(data[..k + 1], c))
        {
          RunOneMore(chips0[c], fcr0, data[..k], data[k], c);
          assert data[..k + 1] == data[..k] + [data[k]];
        }
        k := k + 1;
      }
    }
  }

  /**
   * What the driver makes of the 20 bytes it is given: bit 2 of byte 15 is clear for
   * FSCC cards up to board revision 6 and for 232 cards, and set for all others; the
   * rest is as it was.
   */
  predicate Adjusted(given: seq<bv8>, sent: seq<bv8>, r: Revision) {
    && |given| == |sent| == 20
    && (sent[15] & 0x04 == 0 <==> (r.pdev == 0x0f && r.prev <= 6) || r.pdev == 0x16)
    && sent[15] & 0xfb == given[15] & 0xfb
    && forall k :: 0 <= k < 20 && k != 15 ==> sent[k] == given[k]
  }

  lemma CrystalOnly(b: bv8)
    ensures (b | 0x04) & 0x04 != 0
    ensures (b & 0xfb) & 0x04 == 0
    ensures (b | 0x04) & 0xfb == b & 0xfb
    ensures (b & 0xfb) & 0xfb == b & 0xfb
  {
  }

  /** That is what the chip has in its latch once the word is sent. */
  lemma SentIsAdjusted(word: seq<bv8>, r: Revision)
    requires |word| == 20
    ensures Adjusted(word, BytesOf(BitsOf(Ics30703Word.WithCrystal(word, NeedsCrystal(r)))), r)
  {
    hide BytesOf, BitsOf;
    CrystalOnly(word[15]);
    WordRebuilt(Ics30703Word.WithCrystal(word, NeedsCrystal(r)));
  }

  // ---------------------------------------------------------------- settings

  /** What a user of a port has set: the record the register machine stands for. */
  datatype Settings = Settings(
    rs485: bool, echoCancel: bool, async: bool, sampleRate: nat, txTrigger: nat, rxTrigger: nat,
    isochronous: Mode, externalTransmit: nat, frameLength: nat, clock: seq<bool>)

  /** The record a register state stands for. */
  function Recorded(uart: Uart, fcr: Bits, chips: seq<Chip>, channel: nat): Settings
    requires uart.Valid() && channel < |chips|
  {
    Settings(
      Rs485Bit(channel) in fcr,
      EchoBit(channel) in fcr,
      AsyncBit(channel) in fcr,
      uart.file[TCR] as nat,
      Level(uart.file[TTL]),
      Level(uart.file[RTL]),
      ModeOf(uart.file[CKS]),
      Count(uart.file[EXTH], uart.file[EXT]),
      uart.file[FLR] as nat + 1,
      chips[channel].latched)
  }

  /** The record by the numbers of the registers in the file. */
  lemma RecordedRegisters(uart: Uart, fcr: Bits, chips: seq<Chip>, channel: nat)
    requires uart.Valid() && channel < |chips|
    ensures var s, file := Recorded(uart, fcr, chips, channel), uart.file;
      && s.sampleRate == file[0x02] as nat
      && s.isochronous == ModeOf(file[0x03])
      && s.txTrigger == file[0x04] as nat % 128 && s.rxTrigger == file[0x05] as nat % 128
      && s.externalTransmit == file[0x17] as nat % 32 * 256 + file[0x16] as nat
      && s.frameLength == file[0x20] as nat + 1
  {
    hide Level, Count, ModeOf;
    LevelNumber(uart.file[TTL]);
    LevelNumber(uart.file[RTL]);
    CountNumber(uart.file[EXTH], uart.file[EXT]);
  }

  lemma HighPowers()
    ensures Power(16) == 0x0001_0000 && Power(20) == 0x0010_0000 && Power(18) == 0x0004_0000
    ensures Power(22) == 0x0040_0000 && Power(24) == 0x0100_0000 && Power(25) == 0x0200_0000
  {
    hide Power;
    Powers();
    PowersUp(0);
    PowersUp(1);
    PowersUp(2);
    PowersUp(4);
    PowersUp(6);
    PowersUp(8);
    PowersUp(9);
    PowersUp(10);
    PowersUp(12);
    PowersUp(14);
    PowersUp(16);
    PowersUp(17);
  }

  /** And by the masks of the shared register. */
  lemma RecordedMasks(uart: Uart, fcr: Bits, chips: seq<Chip>)
    requires uart.Valid() && |chips| == 2
    ensures var a, b, value := Recorded(uart, fcr, chips, 0), Recorded(uart, fcr, chips, 1), NumberOf(fcr, 32);
      && (a.echoCancel <==> Has(value, 0x0001_0000)) && (b.echoCancel <==> Has(value, 0x0010_0000))
      && (a.rs485 <==> Has(value, 0x0004_0000)) && (b.rs485 <==> Has(value, 0x0040_0000))
      && (a.async <==> Has(value, 0x0100_0000)) && (b.async <==> Has(value, 0x0200_0000))
  {
    hide Level, Count, ModeOf, NumberOf, Has, Power;
    HighPowers();
    BitOfValue(fcr, 16, 32);
    BitOfValue(fcr, 20, 32);
    BitOfValue(fcr, 18, 32);
    BitOfValue(fcr, 22, 32);
    BitOfValue(fcr, 24, 32);
    BitOfValue(fcr, 25, 32);
  }

  /** What one byte written to the file does to the record. */
  lemma RecordedByte(uart: Uart, fcr: Bits, chips: seq<Chip>, channel: nat, index: nat, value: bv8)
    requires uart.Valid() && channel < |chips| && index in {TCR, TTL, RTL, FLR}
    ensures var s := Recorded(uart, fcr, chips, channel);
      Recorded(uart.(spr := index, file := uart.file[index := value]), fcr, chips, channel)
      == if index == TCR then s.(sampleRate := value as nat)
         else if index == TTL then s.(txTrigger := Level(value))
         else if index == RTL then s.(rxTrigger := Level(value))
         else s.(frameLength := value as nat + 1)
  {
    hide Level, Count, ModeOf;
  }

  lemma RecordedMode(uart: Uart, fcr: Bits, chips: seq<Chip>, channel: nat, mdm: bv8, cks: bv8)
    requires uart.Valid() && channel < |chips|
    ensures Recorded(uart.(spr := CKS, file := uart.file[MDM := mdm][CKS := cks]), fcr, chips, channel)
      == Recorded(uart, fcr, chips, channel).(isochronous := ModeOf(cks))
  {
    hide Level, Count, ModeOf;
  }

  lemma RecordedCount(uart: Uart, fcr: Bits, chips: seq<Chip>, channel: nat, exth: bv8, ext: bv8)
    requires uart.Valid() && channel < |chips|
    ensures Recorded(uart.(spr := EXT, file := uart.file[EXTH := exth][EXT := ext]), fcr, chips, channel)
      == Recorded(uart, fcr, chips, channel).(externalTransmit := Count(exth, ext))
  {
    hide Level, Count, ModeOf;
  }

  lemma RecordedEcho(uart: Uart, fcr: Bits, chips: seq<Chip>, channel: nat, enable: bool)
    requires uart.Valid() && channel < |chips| && channel < 2
    ensures Recorded(uart, WithBit(fcr, EchoBit(channel), enable), chips, channel)
      == Recorded(uart, fcr, chips, channel).(echoCancel := enable)
  {
  }

  lemma RecordedAsync(uart: Uart, fcr: Bits, chips: seq<Chip>, channel: nat, enable: bool)
    requires uart.Valid() && channel < |chips| && channel < 2
    ensures Recorded(uart, WithBit(fcr, AsyncBit(channel), enable), chips, channel)
      == Recorded(uart, fcr, chips, channel).(async := enable)
  {
  }

  lemma RecordedLevels(uart: Uart, fcr: Bits, chips: seq<Chip>, channel: nat, acr: bv8, tcr: bv8, ttl: bv8, rtl: bv8)
    requires uart.Valid() && channel < |chips| && channel < 2
    ensures var file := uart.file[ACR := acr][TCR := tcr][TTL := ttl][RTL := rtl];
      Recorded(uart.(spr := RTL, file := file), WithBit(fcr, Rs485Bit(channel), false), chips, channel)
      == Recorded(uart, fcr, chips, channel)
         .(rs485 := false, sampleRate := tcr as nat, txTrigger := Level(ttl), rxTrigger := Level(rtl))
  {
    hide Level, Count, ModeOf;
  }

  /** Nothing in the shared register and the chips has changed but what belongs to the channel. */
  predicate OtherChannelKept(fcr: Bits, chips: seq<Chip>, fcr': Bits, chips': seq<Chip>, channel: nat)
    requires channel < 2 && |chips| == |chips'| == 2
  {
    fcr' - Owned(channel) == fcr - Owned(channel) && chips'[1 - channel] == chips[1 - channel]
  }

  datatype Status = Done | Invalid | NotSupported

  lemma OwnBitsAreNoWires(fcr: Bits, channel: nat, bit: nat, enable: bool)
    requires channel < 2 && bit in Owned(channel)
    ensures forall c :: 0 <= c < 2 ==> PinsOf(WithBit(fcr, bit, enable), c) == PinsOf(fcr, c)
    ensures WithBit(fcr, bit, enable) - Owned(channel) == fcr - Owned(channel)
    ensures forall b :: b != bit ==> (b in WithBit(fcr, bit, enable) <==> b in fcr)
  {
  }

  lemma Rs485BitIsOwn(fcr: Bits, channel: nat, enable: bool)
    requires channel < 2
    ensures WithBit(fcr, Rs485Bit(channel), enable) - Owned(channel) == fcr - Owned(channel)
  {
  }

  // ---------------------------------------------------------------- operations on the record

  datatype Field = Rs485 | EchoCancel | Async | SampleRate | TxTrigger | RxTrigger
                 | Isochronous | ExternalTransmit | FrameLength | Clock

  datatype Value = Flag(flag: bool) | Number(number: int) | ClockMode(mode: Mode) | Word(bits: seq<bool>)

  datatype Op =
    | SetRs485(enable: bool) | SetEchoCancel(enable: bool) | SetAsync(enable: bool)
    | SetSampleRate(value: nat) | SetTxTrigger(value: nat) | SetRxTrigger(value: nat)
    | SetIsochronous(mode: int) | SetExternalTransmit(numChars: nat) | SetFrameLength(numChars: nat)
    | SetClockBits(word: seq<bv8>) | Get(field: Field)

  predicate WellFormed(op: Op) {
    op.SetClockBits? ==> |op.word| == 20
  }

  predicate IsRanged(op: Op) {
    op.SetSampleRate? || op.SetTxTrigger? || op.SetRxTrigger?
    || op.SetIsochronous? || op.SetExternalTransmit? || op.SetFrameLength?
  }

  /** A set within its range changes its one field; a set outside it, and a get, change none. */
  function Apply(s: Settings, op: Op, revision: Revision): Settings
    requires WellFormed(op)
  {
    match op
    case SetRs485(enable) => s.(rs485 := enable)
    case SetEchoCancel(enable) => s.(echoCancel := enable)
    case SetAsync(enable) => s.(async := enable)
    case SetSampleRate(value) => if 4 <= value <= 16 then s.(sampleRate := value) else s
    case SetTxTrigger(value) => if value <= 127 then s.(txTrigger := value) else s
    case SetRxTrigger(value) => if value <= 127 then s.(rxTrigger := value) else s
    case SetIsochronous(mode) => if IsMode(mode) then s.(isochronous := Mode(mode)) else s
    case SetExternalTransmit(n) => if n <= 8191 then s.(externalTransmit := n) else s
    case SetFrameLength(n) => if 1 <= n <= 256 && revision.frev >= 0x20 then s.(frameLength := n) else s
    case SetClockBits(word) => s.(clock := BitsOf(Ics30703Word.WithCrystal(word, NeedsCrystal(revision))))
    case Get(_) => s
  }

  // ---------------------------------------------------------------- runs over both ports

  /** An operation and the channel it is for. */
  datatype Request = Request(channel: nat, op: Op)

  /** The record of one channel after a run: what the requests for that channel make of it. */
  function Replay(s: Settings, run: seq<Request>, channel: nat, revision: Revision): Settings
    requires forall r :: r in run ==> WellFormed(r.op)
  {
    if run == [] then s
    else
      var request := run[|run| - 1];
      var before := Replay(s, run[..|run| - 1], channel, revision);
      if request.channel == channel then Apply(before, request.op, revision) else before
  }

  function ValueOf(s: Settings, field: Field): Value {
    match field
    case Rs485 => Flag(s.rs485)
    case EchoCancel => Flag(s.echoCancel)
    case Async => Flag(s.async)
    case SampleRate => Number(s.sampleRate)
    case TxTrigger => Number(s.txTrigger)
    case RxTrigger => Number(s.rxTrigger)
    case Isochronous => ClockMode(s.isochronous)
    case ExternalTransmit => Number(s.externalTransmit)
    case FrameLength => Number(s.frameLength)
    case Clock => Word(s.clock)
  }

  /** What the driver has a getter for, on the firmware at hand. */
  predicate Readable(field: Field, revision: Revision) {
    field != Async && field != Clock && (field == FrameLength ==> revision.frev >= 0x20)
  }

  datatype Effect = Sets(field: Field, value: Value) | Nothing

  /** What a request sets, if the driver accepts it. */
  function EffectOf(op: Op, revision: Revision): Effect
    requires WellFormed(op)
  {
    match op
    case SetRs485(enable) => Sets(Rs485, Flag(enable))
    case SetEchoCancel(enable) => Sets(EchoCancel, Flag(enable))
    case SetAsync(enable) => Sets(Async, Flag(enable))
    case SetSampleRate(value) => if 4 <= value <= 16 then Sets(SampleRate, Number(value)) else Nothing
    case SetTxTrigger(value) => if value <= 127 then Sets(TxTrigger, Number(value)) else Nothing
    case SetRxTrigger(value) => if value <= 127 then Sets(RxTrigger, Number(value)) else Nothing
    case SetIsochronous(mode) => if IsMode(mode) then Sets(Isochronous, ClockMode(Mode(mode))) else Nothing
    case SetExternalTransmit(n) => if n <= 8191 then Sets(ExternalTransmit, Number(n)) else Nothing
    case SetFrameLength(n) => if 1 <= n <= 256 && revision.frev >= 0x20 then Sets(FrameLength, Number(n)) else Nothing
    case SetClockBits(word) => Sets(Clock, Word(BitsOf(Ics30703Word.WithCrystal(word, NeedsCrystal(revision)))))
    case Get(_) => Nothing
  }

  lemma ApplySetsOneField(s: Settings, op: Op, revision: Revision, field: Field)
    requires WellFormed(op)
    ensures var effect := EffectOf(op, revision);
      ValueOf(Apply(s, op, revision), field)
      == if effect.Sets? && effect.field == field then effect.value else ValueOf(s, field)
  {
    hide BitsOf, Ics30703Word.WithCrystal;
  }

  /** The operation is accepted and sets the field. */
  predicate SetsField(op: Op, field: Field, revision: Revision)
    requires WellFormed(op)
  {
    EffectOf(op, revision).Sets? && EffectOf(op, revision).field == field
  }

  lemma SetsCount(op: Op, revision: Revision)
    requires WellFormed(op)
    ensures SetsField(op, ExternalTransmit, revision) <==> op.SetExternalTransmit? && op.numChars <= 8191
  {
    hide BitsOf, Ics30703Word.WithCrystal;
  }

  /** The request at position k is accepted and sets the field of the channel. */
  predicate SetsAt(run: seq<Request>, k: nat, channel: nat, field: Field, revision: Revision)
    requires k < |run| && WellFormed(run[k].op)
  {
    run[k].channel == channel && SetsField(run[k].op, field, revision)
  }

  /** After any run, a field has the value it was last set to, whatever came in between or after. */
  lemma {:induction false} LastSetWins(s: Settings, run: seq<Request>, k: nat,
                                        channel: nat, field: Field, revision: Revision)
    requires (forall r :: r in run ==> WellFormed(r.op)) && k < |run|
    requires SetsAt(run, k, channel, field, revision)
    requires forall j :: k < j < |run| ==> !SetsAt(run, j, channel, field, revision)
    ensures ValueOf(Replay(s, run, channel, revision), field) == EffectOf(run[k].op, revision).value
    decreases |run|
  {
    hide Apply, EffectOf, ValueOf, WellFormed;
    var most, last := run[..|run| - 1], run[|run| - 1];
    assert last in run;
    ApplySetsOneField(Replay(s, most, channel, revision), last.op, revision, field);
    if k < |run| - 1 {
      assert !SetsAt(run, |run| - 1, channel, field, revision);
      assert forall j :: 0 <= j < |most| ==> most[j] == run[j];
      forall j | k < j < |most| ensures !SetsAt(most, j, channel, field, revision) {
        assert !SetsAt(run, j, channel, field, revision);
      }
      LastSetWins(s, most, k, channel, field, revision);
    }
  }

  /** A field that no request of the run sets has the value it had before. */
  lemma {:induction false} NeverSetKeeps(s: Settings, run: seq<Request>, channel: nat, field: Field, revision: Revision)
    requires forall r :: r in run ==> WellFormed(r.op)
    requires forall j :: 0 <= j < |run| ==> !SetsAt(run, j, channel, field, revision)
    ensures ValueOf(Replay(s, run, channel, revision), field) == ValueOf(s, field)
  {
    hide Apply, EffectOf, ValueOf, WellFormed;
    if run != [] {
      var most, last := run[..|run| - 1], run[|run| - 1];
      assert last in run;
      ApplySetsOneField(Replay(s, most, channel, revision), last.op, revision, field);
      assert !SetsAt(run, |run| - 1, channel, field, revision);
      assert forall j :: 0 <= j < |most| ==> most[j] == run[j];
      forall j | 0 <= j < |most| ensures !SetsAt(most, j, channel, field, revision) {
        assert !SetsAt(run, j, channel, field, revision);
      }
      NeverSetKeeps(s, most, channel, field, revision);
    }
  }

  /** Some request of the run sets the field. */
  predicate EverSet(run: seq<Request>, channel: nat, field: Field, revision: Revision)
    requires forall r :: r in run ==> WellFormed(r.op)
  {
    exists k :: 0 <= k < |run| && SetsAt(run, k, channel, field, revision)
  }

  /** Set by one more request: by that one or by the ones before it. */
  lemma SetByOneMore(run: seq<Request>, k: nat, channel: nat, field: Field, revision: Revision)
    requires (forall r :: r in run ==> WellFormed(r.op)) && k < |run|
    ensures EverSet(run[..k + 1], channel, field, revision)
      <==> EverSet(run[..k], channel, field, revision)
           || (run[k].channel == channel && SetsField(run[k].op, field, revision))
  {
    hide SetsField, WellFormed;
    var less, more := run[..k], run[..k + 1];
    if EverSet(more, channel, field, revision) {
      var j :| 0 <= j < |more| && SetsAt(more, j, channel, field, revision);
      assert j < k ==> SetsAt(less, j, channel, field, revision);
    }
    if EverSet(less, channel, field, revision) {
      var j :| 0 <= j < |less| && SetsAt(less, j, channel, field, revision);
      assert SetsAt(more, j, channel, field, revision);
    }
    assert SetsAt(run, k, channel, field, revision) <==> SetsAt(more, k, channel, field, revision);
  }

  class Port {
    const card: Card
    const channel: nat
    var uart: Uart
    var acr: bv8
    var sampleRate: nat
    var txTrigger: nat
    var rxTrigger: nat

    /** What holds from the start, before the driver has written the ACR. */
    ghost predicate Attached()
      reads this, card
    {
      channel < 2 && card.Valid() && uart.Valid() && AtRest(acr)
    }

    /** The driver's copy of the ACR is right and has the window closed; its cached values are the registers'. */
    ghost predicate Valid()
      reads this, card
    {
      && Attached()
      && uart.file[ACR] == acr
      && acr == AcrFor(Rs485Bit(channel) in card.fcr)
      && sampleRate == uart.file[TCR] as nat
      && txTrigger == Level(uart.file[TTL])
      && rxTrigger == Level(uart.file[RTL])
    }

    /** The interrupt mask written is the one of the clock mode recorded. */
    ghost predicate Masked()
      requires uart.Valid()
      reads this
    {
      MaskAgrees(uart.file[MDM], uart.file[CKS])
    }

    /** The enable bit of external transmit agrees with the count recorded. */
    ghost predicate Enabled()
      requires uart.Valid()
      reads this
    {
      EnableAgrees(uart.file[EXTH], uart.file[EXT])
    }

    ghost function Current(): Settings
      requires Valid()
      reads this, card
    {
      Recorded(uart, card.fcr, card.chips, channel)
    }

    /** The port is valid, stands for the record, and has changed no other channel and no register outside the file. */
    twostate predicate Became(s: Settings)
      reads this, card
    {
      && old(Valid()) && Valid() && Current() == s
      && (old(Masked()) ==> Masked()) && (old(Enabled()) ==> Enabled())
      && uart.(spr := 0, file := []) == old(uart.(spr := 0, file := []))
      && OtherChannelKept(old(card.fcr), old(card.chips), card.fcr, card.chips, channel)
    }

    // -------------------------------------------------------------- the window

    /** The steps every indexed write takes; LCR is put back, whatever it was. */
    method WriteIndexed(index: nat, value: bv8)
      requires uart.Valid() && index < 0x100
      modifies this`uart
      ensures uart.Valid() && uart == old(uart).(spr := index, file := old(uart).file[index := value])
    {
      var origLcr := uart.lcr;
      uart := uart.WriteLcr(0);
      uart := uart.WriteSpr(index);
      uart := uart.WriteIcr(value);
      uart := uart.WriteLcr(origLcr);
    }

    /** Two indexed writes under one LCR bracket. */
    method WriteIndexed2(index: nat, value: bv8, index': nat, value': bv8)
      requires uart.Valid() && index < 0x100 && index' < 0x100
      modifies this`uart
      ensures uart.Valid()
      ensures uart == old(uart).(spr := index', file := old(uart).file[index := value][index' := value'])
    {
      var origLcr := uart.lcr;
      uart := uart.WriteLcr(0);
      uart := uart.WriteSpr(index);
      uart := uart.WriteIcr(value);
      uart := uart.WriteSpr(index');
      uart := uart.WriteIcr(value');
      uart := uart.WriteLcr(origLcr);
    }

    /**
     * The steps every indexed read takes: open the window in the ACR, read, close it
     * with the driver's copy.  It reads the register, and changes nothing but the index.
     */
    method ReadIndexed(index: nat) returns (value: bv8)
      requires uart.Valid() && index < 0x100 && index != ACR
      requires uart.file[ACR] == acr && AtRest(acr)
      modifies this`uart
      ensures value == old(uart).file[index]
      ensures uart == old(uart).(spr := ACR)
    {
      ghost var file := uart.file;
      AcrBits(acr);
      var origLcr := uart.lcr;
      uart := uart.WriteLcr(0);
      uart := uart.WriteSpr(ACR);
      uart := uart.WriteIcr(acr | 0x40);
      uart := uart.WriteSpr(index);
      value := uart.ReadIcr();
      uart := uart.WriteSpr(ACR);
      uart := uart.WriteIcr(acr);
      uart := uart.WriteLcr(origLcr);
      assert uart.file == file;
    }

    /** Two reads while the window is open. */
    method ReadIndexed2(index: nat, index': nat) returns (value: bv8, value': bv8)
      requires uart.Valid() && index < 0x100 && index' < 0x100 && index != ACR && index' != ACR
      requires uart.file[ACR] == acr && AtRest(acr)
      modifies this`uart
      ensures value == old(uart).file[index] && value' == old(uart).file[index']
      ensures uart == old(uart).(spr := ACR)
    {
      ghost var file := uart.file;
      AcrBits(acr);
      var origLcr := uart.lcr;
      uart := uart.WriteLcr(0);
      uart := uart.WriteSpr(ACR);
      uart := uart.WriteIcr(acr | 0x40);
      uart := uart.WriteSpr(index);
      value := uart.ReadIcr();
      uart := uart.WriteSpr(index');
      value' := uart.ReadIcr();
      uart := uart.WriteSpr(ACR);
      uart := uart.WriteIcr(acr);
      uart := uart.WriteLcr(origLcr);
      assert uart.file == file;
    }

    // -------------------------------------------------------------- setters

    /** A control register has the byte, and nothing else of the port or the card has changed. */
    twostate predicate Wrote(index: nat, value: bv8)
      requires old(uart.Valid()) && index < 0x100
      reads this, card
    {
      && uart == old(uart).(spr := index, file := old(uart).file[index := value])
      && card.fcr == old(card.fcr) && card.chips == old(card.chips)
    }

    method SetSampleRate(value: nat) returns (status: Status)
      requires Attached()
      modifies this
      ensures status == (if 4 <= value <= 16 then Done else Invalid)
      ensures acr == old(acr) && txTrigger == old(txTrigger) && rxTrigger == old(rxTrigger)
      ensures status.Done? ==> Wrote(TCR, value as bv8) && sampleRate == value && uart.file[TCR] as nat == value
      ensures !status.Done? ==> uart == old(uart) && sampleRate == old(sampleRate)
      ensures old(Valid()) ==> Became(if status.Done? then old(Current()).(sampleRate := value) else old(Current()))
    {
      hide AcrFor, AtRest, Level, Count, ModeOf, PinsOf, Recorded;
      if value < 4 || value > 16 {
        return Invalid;
      }
      Words.Fits8(value);
      RecordedByte(uart, card.fcr, card.chips, channel, TCR, value as bv8);
      WriteIndexed(TCR, value as bv8);
      sampleRate := value;
      status := Done;
    }

    method SetTxTrigger(value: nat) returns (status: Status)
      requires Attached()
      modifies this
      ensures status == (if value <= 127 then Done else Invalid)
      ensures acr == old(acr) && sampleRate == old(sampleRate) && rxTrigger == old(rxTrigger)
      ensures status.Done? ==> Wrote(TTL, value as bv8) && txTrigger == value == Level(uart.file[TTL])
      ensures !status.Done? ==> uart == old(uart) && txTrigger == old(txTrigger)
      ensures old(Valid()) ==> Became(if status.Done? then old(Current()).(txTrigger := value) else old(Current()))
    {
      hide AcrFor, AtRest, Level, Count, ModeOf, PinsOf, Recorded;
      if value > 127 {
        return Invalid;
      }
      LevelReadBack(value);
      RecordedByte(uart, card.fcr, card.chips, channel, TTL, value as bv8);
      WriteIndexed(TTL, value as bv8);
      txTrigger := value;
      status := Done;
    }

    method SetRxTrigger(value: nat) returns (status: Status)
      requires Attached()
      modifies this
      ensures status == (if value <= 127 then Done else Invalid)
      ensures acr == old(acr) && sampleRate == old(sampleRate) && txTrigger == old(txTrigger)
      ensures status.Done? ==> Wrote(RTL, value as bv8) && rxTrigger == value == Level(uart.file[RTL])
      ensures !status.Done? ==> uart == old(uart) && rxTrigger == old(rxTrigger)
      ensures old(Valid()) ==> Became(if status.Done? then old(Current()).(rxTrigger := value) else old(Current()))
    {
      hide AcrFor, AtRest, Level, Count, ModeOf, PinsOf, Recorded;
      if value > 127 {
        return Invalid;
      }
      LevelReadBack(value);
      RecordedByte(uart, card.fcr, card.chips, channel, RTL, value as bv8);
      WriteIndexed(RTL, value as bv8);
      rxTrigger := value;
      status := Done;
    }

    method SetFrameLength(numChars: nat) returns (status: Status)
      requires Attached()
      modifies this
      ensures status == (if numChars == 0 || numChars > 256 then Invalid
                         else if card.revision[channel].frev < 0x20 then NotSupported else Done)
      ensures acr == old(acr) && sampleRate == old(sampleRate)
      ensures txTrigger == old(txTrigger) && rxTrigger == old(rxTrigger)
      ensures status.Done? ==> Wrote(FLR, FrameByte(numChars)) && uart.file[FLR] as nat + 1 == numChars
      ensures !status.Done? ==> uart == old(uart)
      ensures old(Valid()) ==> Became(if status.Done? then old(Current()).(frameLength := numChars) else old(Current()))
    {
      hide FrameByte, AcrFor, AtRest, Level, Count, ModeOf, PinsOf, Recorded;
      if numChars == 0 || numChars > 256 {
        return Invalid;
      }
      if card.revision[channel].frev < 0x20 {
        return NotSupported;
      }
      FrameReadBack(numChars);
      RecordedByte(uart, card.fcr, card.chips, channel, FLR, FrameByte(numChars));
      WriteIndexed(FLR, FrameByte(numChars));
      status := Done;
    }

    method SetIsochronous(mode: int) returns (status: Status)
      requires Attached()
      modifies this
      ensures status == (if IsMode(mode) then Done else Invalid)
      ensures acr == old(acr) && sampleRate == old(sampleRate)
      ensures txTrigger == old(txTrigger) && rxTrigger == old(rxTrigger)
      ensures status.Done? ==>
        && uart.Valid()
        && uart == old(uart).(spr := CKS, file := old(uart).file[MDM := InterruptMask(mode)][CKS := uart.file[CKS]])
        && ModeOf(uart.file[CKS]) == Mode(mode) && Masked() && uart.file[0x0e] == InterruptMask(mode)
      ensures !status.Done? ==> uart == old(uart)
      ensures old(Valid()) ==>
        Became(if status.Done? then old(Current()).(isochronous := Mode(mode)) else old(Current()))
    {
      hide MaskAgrees, InterruptMask, ReceiveClock, TransmitClock, AcrFor, AtRest, Level, Count;
      hide ModeOf, PinsOf, Recorded;
      if mode > 10 || mode < -1 {
        return Invalid;
      }
      ModeReadBack(mode);
      MaskFollows(mode);
      RecordedMode(uart, card.fcr, card.chips, channel, InterruptMask(mode), ReceiveClock(mode) | TransmitClock(mode));
      WriteIndexed2(MDM, InterruptMask(mode), CKS, ReceiveClock(mode) | TransmitClock(mode));
      status := Done;
    }

    method SetExternalTransmit(numChars: nat) returns (status: Status)
      requires Attached()
      modifies this
      ensures status == (if numChars <= 8191 then Done else Invalid)
      ensures acr == old(acr) && sampleRate == old(sampleRate)
      ensures txTrigger == old(txTrigger) && rxTrigger == old(rxTrigger)
      ensures status.Done? ==>
        && uart.Valid()
        && uart == old(uart).(spr := EXT, file := old(uart).file[EXTH := uart.file[EXTH]][EXT := uart.file[EXT]])
        && Count(uart.file[EXTH], uart.file[EXT]) == numChars
        && (uart.file[EXTH] & 0x80 != 0 <==> numChars != 0)
        && (uart.file[EXTH] == 0 <==> numChars == 0) && Enabled()
      ensures !status.Done? ==> uart == old(uart)
      ensures old(Valid()) ==>
        Became(if status.Done? then old(Current()).(externalTransmit := numChars) else old(Current()))
    {
      hide EnableAgrees, CountHigh, CountLow, AcrFor, AtRest, Level, Count, ModeOf, PinsOf, Recorded;
      if numChars > 8191 {
        return Invalid;
      }
      CountReadBack(numChars);
      CountEnables(numChars);
      RecordedCount(uart, card.fcr, card.chips, channel, CountHigh(numChars), CountLow(numChars));
      WriteIndexed2(EXTH, CountHigh(numChars), EXT, CountLow(numChars));
      status := Done;
    }

    /** The register accesses of the rs485 set, from the start on. */
    method WriteRs485(enable: bool)
      requires Attached()
      modifies this, card
      ensures acr == AcrFor(enable)
      ensures Attached() && card.fcr == WithBit(old(card.fcr), Rs485Bit(channel), enable)
      ensures card.chips == old(card.chips)
      ensures uart == old(uart).(spr := ACR, file := old(uart).file[ACR := acr])
      ensures sampleRate == old(sampleRate) && txTrigger == old(txTrigger) && rxTrigger == old(rxTrigger)
    {
      hide Rs485Acr, AtRest, AcrFor, Level, Count, ModeOf, PinsOf, Recorded;
      AcrSet(acr, enable);
      var origLcr := uart.lcr;
      var newFcr := WithBit(card.fcr, Rs485Bit(channel), enable);
      uart := uart.WriteLcr(0);
      uart := uart.WriteSpr(ACR);
      acr := Rs485Acr(acr, enable);
      uart := uart.WriteIcr(acr);
      OwnBitsAreNoWires(card.fcr, channel, Rs485Bit(channel), enable);
      card.WriteFcrQuietly(newFcr);
      uart := uart.WriteLcr(origLcr);
    }

    method SetRs485(enable: bool)
      requires Valid()
      modifies this, card
      ensures Became(old(Current()).(rs485 := enable))
      ensures acr == (if enable then 0x10 else 0x00)
      ensures uart == old(uart).(spr := 0x00, file := old(uart).file[0x00 := acr])
    {
      hide Level, Count, ModeOf, PinsOf;
      OwnBitsAreNoWires(card.fcr, channel, Rs485Bit(channel), enable);
      WriteRs485(enable);
    }

    method SetFcrBit(bit: nat, enable: bool)
      requires Attached() && bit in Owned(channel)
      modifies card
      ensures Attached() && card.fcr == WithBit(old(card.fcr), bit, enable) && card.chips == old(card.chips)
    {
      hide Level, Count, ModeOf, PinsOf;
      OwnBitsAreNoWires(card.fcr, channel, bit, enable);
      card.WriteFcrQuietly(WithBit(card.fcr, bit, enable));
    }

    method SetEchoCancel(enable: bool)
      requires Attached()
      modifies card
      ensures Attached() && card.fcr == WithBit(old(card.fcr), EchoBit(channel), enable)
      ensures card.chips == old(card.chips)
      ensures old(Valid()) ==> Became(old(Current()).(echoCancel := enable))
    {
      hide AcrFor, AtRest, Level, Count, ModeOf, PinsOf, Recorded;
      RecordedEcho(uart, card.fcr, card.chips, channel, enable);
      SetFcrBit(EchoBit(channel), enable);
    }

    /** fscc_enable_async_mode writes only if the bit is clear; fscc_disable_async_mode always. */
    method SetAsync(enable: bool)
      requires Attached()
      modifies card
      ensures Attached() && card.fcr == WithBit(old(card.fcr), AsyncBit(channel), enable)
      ensures card.chips == old(card.chips)
      ensures old(Valid()) ==> Became(old(Current()).(async := enable))
    {
      hide AcrFor, AtRest, Level, Count, ModeOf, PinsOf, Recorded;
      RecordedAsync(uart, card.fcr, card.chips, channel, enable);
      if !enable || AsyncBit(channel) !in card.fcr {
        SetFcrBit(AsyncBit(channel), enable);
      } else {
        assert WithBit(card.fcr, AsyncBit(channel), enable) == card.fcr;
      }
    }

    /**
     * fastcom_set_clock_bits_fscc: adjust the crystal bit of the word in place, send it.
     * The channel's chip latches the adjusted word; the other chip does not move.
     */
    method SetClockBits(clockData: array<bv8>)
      requires Attached() && clockData.Length == 20
      modifies card, clockData
      ensures clockData[..] == Ics30703Word.WithCrystal(old(clockData[..]), NeedsCrystal(card.revision[channel]))
      ensures Attached() && card.fcr == old(card.fcr)
      ensures card.chips[channel] == Programmed(old(card.chips)[channel], BitsOf(clockData[..]))
      ensures Adjusted(old(clockData[..]), BytesOf(card.chips[channel].latched), card.revision[channel])
      ensures card.chips[1 - channel] == old(card.chips)[1 - channel]
      ensures old(Valid()) ==> Became(old(Current()).(clock := BitsOf(clockData[..])))
    {
      hide PinsOf, BitsOf, BytesOf, Waveform, Run, Adjusted, NeedsCrystal;
      hide Level, Count, ModeOf, MaskAgrees, EnableAgrees, AcrFor, AtRest;
      SentIsAdjusted(clockData[..], card.revision[channel]);
      clockData[15] := if NeedsCrystal(card.revision[channel]) then clockData[15] | 0x04 else clockData[15] & 0xfb;
      var data, count := BuildWaveform(card.fcr, channel, clockData);
      ghost var fcr, chips, bits := card.fcr, card.chips, BitsOf(clockData[..]);
      WaveformWhole(chips[channel], fcr, channel, bits);
      WaveformAndOtherChip(chips[1 - channel], fcr, channel, bits);
      WaveformTouchesOnlyWires(fcr, channel, bits);
      assert data[..count] == data[..];
      card.WriteFcrRep(data, count);
    }

    // -------------------------------------------------------------- getters

    /** Reading a setting returns it and changes none. */
    twostate predicate NothingSet()
      reads this, card
    {
      && old(Valid()) && Valid() && Current() == old(Current())
      && card.fcr == old(card.fcr) && card.chips == old(card.chips)
      && uart.(spr := 0) == old(uart.(spr := 0))
    }

    method GetTxTrigger() returns (value: nat)
      requires Valid()
      modifies this`uart
      ensures NothingSet() && value == Current().txTrigger
    {
      var ttl := ReadIndexed(TTL);
      value := Level(ttl);
    }

    method GetRxTrigger() returns (value: nat)
      requires Valid()
      modifies this`uart
      ensures NothingSet() && value == Current().rxTrigger
    {
      var rtl := ReadIndexed(RTL);
      value := Level(rtl);
    }

    method GetIsochronous() returns (mode: Mode)
      requires Valid()
      modifies this`uart
      ensures NothingSet() && mode == Current().isochronous
    {
      var cks := ReadIndexed(CKS);
      mode := ModeOf(cks);
    }

    method GetExternalTransmit() returns (numChars: nat)
      requires Valid()
      modifies this`uart
      ensures NothingSet() && numChars == Current().externalTransmit
    {
      var ext, exth := ReadIndexed2(EXT, EXTH);
      numChars := Count(exth, ext);
    }

    method GetFrameLength() returns (status: Status, numChars: nat)
      requires Valid()
      modifies this`uart
      ensures NothingSet()
      ensures if card.revision[channel].frev < 0x20 then status == NotSupported
              else status == Done && numChars == Current().frameLength
    {
      hide Level, Count, ModeOf, PinsOf;
      if card.revision[channel].frev < 0x20 {
        return NotSupported, 0;
      }
      var flr := ReadIndexed(FLR);
      status, numChars := Done, flr as nat + 1;
    }

    method GetSampleRate() returns (value: nat)
      requires Valid()
      ensures value == Current().sampleRate
    {
      value := sampleRate;
    }

    method GetRs485() returns (enabled: bool)
      requires Valid()
      ensures enabled == Current().rs485
    {
      enabled := acr & 0x10 != 0 && Rs485Bit(channel) in card.fcr;
    }

    method GetEchoCancel() returns (enabled: bool)
      requires Valid()
      ensures enabled == Current().echoCancel
    {
      enabled := EchoBit(channel) in card.fcr;
    }

    // -------------------------------------------------------------- initialisation

    /** fastcom_init_triggers: FIFO on, enhanced mode on, and LCR left at 0xbf. */
    method InitTriggers()
      requires Attached()
      modifies this`uart, this`acr
      ensures Attached() && acr == 0 && uart.file == old(uart.file)
      ensures uart.lcr == 0xbf && uart.efr == 0x10 && (old(uart.lcr) != 0xbf ==> uart.fcr == 0x01)
    {
      uart := uart.WriteFcr(0x01);
      uart := uart.WriteLcr(0xbf);
      uart := uart.WriteFcr(0x10);
      acr := 0x00;
    }

    /** Sample rate and trigger levels. */
    method WriteLevels()
      requires Attached()
      modifies this
      ensures Attached() && acr == old(acr) && sampleRate == 16 && txTrigger == rxTrigger == 32
      ensures uart == old(uart).(spr := RTL, file :=
        old(uart).file[TCR := uart.file[TCR]][TTL := uart.file[TTL]][RTL := uart.file[RTL]])
      ensures uart.file[TCR] as nat == 16 && Level(uart.file[TTL]) == 32 && Level(uart.file[RTL]) == 32
    {
      hide AcrFor, AtRest, Level, Count, ModeOf, PinsOf, Recorded;
      var status := SetSampleRate(16);
      status := SetTxTrigger(32);
      status := SetRxTrigger(32);
    }

    /** The first defaults, up to where the driver's copies agree with the registers. */
    method InitLevels()
      requires Attached()
      modifies this, card
      ensures Valid() && uart.(spr := 0, file := []) == old(uart.(spr := 0, file := []))
      ensures Current() == Recorded(old(uart), old(card.fcr), old(card.chips), channel)
        .(rs485 := false, sampleRate := 16, txTrigger := 32, rxTrigger := 32)
      ensures EnableAgrees(old(uart).file[EXTH], old(uart).file[EXT]) ==> Enabled()
      ensures OtherChannelKept(old(card.fcr), old(card.chips), card.fcr, card.chips, channel)
    {
      hide Level, Count, ModeOf, PinsOf, Recorded, Owned;
      ghost var uart0, fcr0, chips0 := uart, card.fcr, card.chips;
      Rs485BitIsOwn(fcr0, channel, false);
      WriteRs485(false);
      WriteLevels();
      RecordedLevels(uart0, fcr0, chips0, channel, acr, uart.file[TCR], uart.file[TTL], uart.file[RTL]);
    }

    /** The remaining defaults. */
    method InitOptions(enableAsync: bool)
      requires Valid()
      modifies this, card
      ensures Valid() && uart.(spr := 0, file := []) == old(uart.(spr := 0, file := []))
      ensures Current() == old(Current())
        .(echoCancel := false, async := old(Current()).async || enableAsync, isochronous := Mode(-1),
          frameLength := if card.revision[channel].frev < 0x20 then old(Current()).frameLength else 1)
      ensures Masked() && (old(Enabled()) ==> Enabled())
      ensures OtherChannelKept(old(card.fcr), old(card.chips), card.fcr, card.chips, channel)
    {
      hide Recorded, Owned, Level, Count, ModeOf, PinsOf, AcrFor, AtRest, InterruptMask, FrameByte;
      hide MaskAgrees, EnableAgrees;
      SetEchoCancel(false);
      var status := SetIsochronous(-1);
      status := SetFrameLength(1);
      if enableAsync {
        SetAsync(true);
      }
    }

    /**
     * serialfc_port_new, from the assignments on: initialise the triggers, then set every
     * default.  The rs485 set is what first writes the ACR.  Whatever the reset state,
     * the port ends up valid with the defaults of config.h, and with LCR at 0xbf.
     */
    constructor (card: Card, channel: nat, uart: Uart, enableAsync: bool)
      requires card.Valid() && channel < 2 && uart.Valid()
      modifies card
      ensures this.card == card && this.channel == channel
      ensures Valid() && this.uart.lcr == 0xbf && this.uart.efr == 0x10 && (uart.lcr != 0xbf ==> this.uart.fcr == 0x01)
      ensures var was := Recorded(uart, old(card.fcr), old(card.chips), channel);
        Current() == was.(rs485 := false, echoCancel := false, async := was.async || enableAsync, sampleRate := 16,
                          txTrigger := 32, rxTrigger := 32, isochronous := Mode(-1),
                          frameLength := if card.revision[channel].frev < 0x20 then was.frameLength else 1)
      ensures Masked() && (EnableAgrees(uart.file[EXTH], uart.file[EXT]) ==> Enabled())
      ensures OtherChannelKept(old(card.fcr), old(card.chips), card.fcr, card.chips, channel)
    {
      this.card, this.channel, this.uart, this.acr := card, channel, uart, 0;
      sampleRate, txTrigger, rxTrigger := 0, 0, 0;
      new;
      InitTriggers();
      InitLevels();
      InitOptions(enableAsync);
    }

    // -------------------------------------------------------------- any operation

    /** A clock word in a buffer of its own, as an ioctl brings it. */
    method SendWord(word: seq<bv8>)
      requires Valid() && |word| == 20
      modifies this, card
      ensures Became(old(Current()).(clock :=
        BitsOf(Ics30703Word.WithCrystal(word, NeedsCrystal(card.revision[channel])))))
    {
      hide Recorded;
      var clockData := new bv8[20](i requires 0 <= i < 20 => word[i]);
      assert clockData[..] == word;
      SetClockBits(clockData);
    }

    /** The getter of a setting. */
    method Get(field: Field) returns (status: Status, value: Value)
      requires Valid()
      modifies this`uart
      ensures NothingSet()
      ensures status.Done? <==> Readable(field, card.revision[channel])
      ensures status.Done? ==> value == ValueOf(Current(), field)
    {
      hide Recorded, Level, Count, ModeOf, AcrFor, AtRest, MaskAgrees, EnableAgrees;
      status, value := NotSupported, Flag(false);
      match field {
        case Rs485 =>
          var enabled := GetRs485();
          status, value := Done, Flag(enabled);
        case EchoCancel =>
          var enabled := GetEchoCancel();
          status, value := Done, Flag(enabled);
        case SampleRate =>
          var rate := GetSampleRate();
          status, value := Done, Number(rate);
        case TxTrigger =>
          var level := GetTxTrigger();
          status, value := Done, Number(level);
        case RxTrigger =>
          var level := GetRxTrigger();
          status, value := Done, Number(level);
        case Isochronous =>
          var mode := GetIsochronous();
          status, value := Done, ClockMode(mode);
        case ExternalTransmit =>
          var numChars := GetExternalTransmit();
          status, value := Done, Number(numChars);
        case FrameLength =>
          var numChars;
          status, numChars := GetFrameLength();
          value := Number(numChars);
        case _ =>
      }
    }

    /** The sets that refuse a value out of range. */
    method ExecuteRanged(op: Op)
      requires Valid() && IsRanged(op)
      modifies this
      ensures Became(Apply(old(Current()), op, card.revision[channel]))
      ensures op.SetExternalTransmit? && op.numChars <= 8191 ==> Enabled()
    {
      hide Recorded, MaskAgrees, EnableAgrees, Level, Count, ModeOf, IsMode, InterruptMask, OtherChannelKept;
      var status;
      match op {
        case SetSampleRate(value) => status := SetSampleRate(value);
        case SetTxTrigger(value) => status := SetTxTrigger(value);
        case SetRxTrigger(value) => status := SetRxTrigger(value);
        case SetIsochronous(mode) => status := SetIsochronous(mode);
        case SetExternalTransmit(numChars) => status := SetExternalTransmit(numChars);
        case SetFrameLength(numChars) => status := SetFrameLength(numChars);
      }
    }

    /** Whatever the operation, it does to the record what the record says it does, and nothing to the other channel. */
    method Execute(op: Op)
      requires Valid() && WellFormed(op)
      modifies this, card
      ensures Became(Apply(old(Current()), op, card.revision[channel]))
      ensures SetsField(op, ExternalTransmit, card.revision[channel]) ==> Enabled()
    {
      hide SetsField, EffectOf, MaskAgrees, EnableAgrees, Recorded, Owned, PinsOf, BitsOf, NeedsCrystal;
      hide IsMode, Ics30703Word.WithCrystal, Level;
      SetsCount(op, card.revision[channel]);
      match op {
        case SetRs485(enable) => SetRs485(enable);
        case SetEchoCancel(enable) => SetEchoCancel(enable);
        case SetAsync(enable) => SetAsync(enable);
        case SetClockBits(word) => SendWord(word);
        case Get(field) => var status, value := Get(field);
        case _ => ExecuteRanged(op);
      }
    }
  }

  // ---------------------------------------------------------------- the two ports of a card

  /** Both ports are valid, and each has the interrupt mask of its clock mode. */
  ghost predicate Board(card: Card, ports: seq<Port>)
    reads card, ports
  {
    |ports| == 2 && forall c :: 0 <= c < 2 ==>
      ports[c].card == card && ports[c].channel == c && ports[c].Valid() && ports[c].Masked()
  }

  /** A change that keeps to one channel's bits does not show in the other channel's record. */
  lemma OtherUnmoved(uart: Uart, fcr: Bits, chips: seq<Chip>, fcr': Bits, chips': seq<Chip>, channel: nat)
    requires channel < 2 && |chips| == |chips'| == 2 && uart.Valid()
    requires OtherChannelKept(fcr, chips, fcr', chips', channel)
    ensures Recorded(uart, fcr', chips', 1 - channel) == Recorded(uart, fcr, chips, 1 - channel)
    ensures Rs485Bit(1 - channel) in fcr' <==> Rs485Bit(1 - channel) in fcr
  {
    var other := 1 - channel;
    forall b | b in Owned(other) ensures b in fcr' <==> b in fcr {
      assert b in fcr' <==> b in fcr' - Owned(channel);
      assert b in fcr <==> b in fcr - Owned(channel);
    }
  }

  /** One operation leaves the other port valid, with the record and the registers it had. */
  method RunOne(card: Card, ports: seq<Port>, request: Request)
    requires Board(card, ports) && request.channel < 2 && WellFormed(request.op)
    modifies card, ports
    ensures Board(card, ports)
    ensures forall c :: 0 <= c < 2 ==>
      && ports[c].Current() == (if c == request.channel
                                then Apply(old(ports[c].Current()), request.op, card.revision[c])
                                else old(ports[c].Current()))
      && ports[c].uart.(spr := 0, file := []) == old(ports[c].uart.(spr := 0, file := []))
      && (old(ports[c].Enabled())
          || (c == request.channel && SetsField(request.op, ExternalTransmit, card.revision[c]))
          ==> ports[c].Enabled())
  {
    hide Apply, EffectOf, SetsField, WellFormed, Recorded, Owned, AcrFor, AtRest, Level, MaskAgrees, EnableAgrees;
    assert ports[0] != ports[1];
    var me, other := request.channel, 1 - request.channel;
    ghost var fcr, chips := card.fcr, card.chips;
    ports[me].Execute(request.op);
    OtherUnmoved(ports[other].uart, fcr, chips, card.fcr, card.chips, me);
  }

  lemma NothingReplayed(s: Settings, channel: nat, revision: Revision)
    ensures Replay(s, [], channel, revision) == s
  {
  }

  lemma ReplayOneMore(s: Settings, run: seq<Request>, k: nat, channel: nat, revision: Revision)
    requires (forall r :: r in run ==> WellFormed(r.op)) && k < |run|
    ensures var before := Replay(s, run[..k], channel, revision);
      Replay(s, run[..k + 1], channel, revision)
      == if run[k].channel == channel then Apply(before, run[k].op, revision) else before
  {
    hide Apply, WellFormed;
    assert run[..k + 1][..k] == run[..k];
  }

  lemma NotSetYet(r0: Revision, r1: Revision)
    ensures !EverSet([], 0, ExternalTransmit, r0) && !EverSet([], 1, ExternalTransmit, r1)
  {
  }

  /** A port before a run: the record, the registers outside the file, whether the enable bit agrees. */
  datatype Start = Start(settings: Settings, outside: Uart, enabled: bool)

  /** Where a run has taken one port. */
  ghost predicate Ran(port: Port, run: seq<Request>, start: Start)
    requires port.Valid() && port.channel < |port.card.revision| && forall r :: r in run ==> WellFormed(r.op)
    reads port, port.card
  {
    && port.Current() == Replay(start.settings, run, port.channel, port.card.revision[port.channel])
    && port.uart.(spr := 0, file := []) == start.outside
    && (start.enabled || EverSet(run, port.channel, ExternalTransmit, port.card.revision[port.channel])
        ==> port.Enabled())
  }

  /** One more request of the run. */
  method RunNext(card: Card, ports: seq<Port>, run: seq<Request>, k: nat, ghost start: seq<Start>)
    requires Board(card, ports) && k < |run| && |start| == 2
    requires forall r :: r in run ==> r.channel < 2 && WellFormed(r.op)
    requires forall c :: 0 <= c < 2 ==> Ran(ports[c], run[..k], start[c])
    modifies card, ports
    ensures Board(card, ports) && forall c :: 0 <= c < 2 ==> Ran(ports[c], run[..k + 1], start[c])
  {
    hide Recorded, Apply, SetsField, Owned, WellFormed, AcrFor, AtRest, Level, MaskAgrees, EnableAgrees;
    hide EverSet, Replay;
    assert run[k] in run;
    forall c | 0 <= c < 2
      ensures var before := Replay(start[c].settings, run[..k], c, card.revision[c]);
        Replay(start[c].settings, run[..k + 1], c, card.revision[c])
        == if run[k].channel == c then Apply(before, run[k].op, card.revision[c]) else before
      ensures EverSet(run[..k + 1], c, ExternalTransmit, card.revision[c])
        <==> EverSet(run[..k], c, ExternalTransmit, card.revision[c])
             || (run[k].channel == c && SetsField(run[k].op, ExternalTransmit, card.revision[c]))
    {
      ReplayOneMore(start[c].settings, run, k, c, card.revision[c]);
      SetByOneMore(run, k, c, ExternalTransmit, card.revision[c]);
    }
    RunOne(card, ports, run[k]);
  }

  /** One request after the other. */
  method RunAll(card: Card, ports: seq<Port>, run: seq<Request>, ghost start: seq<Start>)
    requires Board(card, ports) && |start| == 2
    requires forall r :: r in run ==> r.channel < 2 && WellFormed(r.op)
    requires forall c :: 0 <= c < 2 ==> Ran(ports[c], [], start[c])
    modifies card, ports
    ensures Board(card, ports) && forall c :: 0 <= c < 2 ==> Ran(ports[c], run, start[c])
  {
    hide Recorded, Owned, WellFormed, AcrFor, AtRest, Level, MaskAgrees, EnableAgrees, EverSet, Replay, Ran;
    var k := 0;
    assert run[..0] == [];
    while k < |run|
      invariant k <= |run| && Board(card, ports)
      invariant forall c :: 0 <= c < 2 ==> Ran(ports[c], run[..k], start[c])
    {
      RunNext(card, ports, run, k, start);
      k := k + 1;
    }
    assert run[..|run|] == run;
  }

  /**
   * Any interleaving of whole operations on the two ports.  Each port's record ends up as
   * if the operations for its channel had run alone, and all its registers outside the
   * file, LCR among them, are as they were.  The interrupt mask is the one of the clock
   * mode recorded; the enable bit of external transmit agrees with the count recorded, if
   * it did before or any count has been set.
   */
  method RunRequests(card: Card, ports: seq<Port>, run: seq<Request>)
    requires Board(card, ports)
    requires forall r :: r in run ==> r.channel < 2 && WellFormed(r.op)
    modifies card, ports
    ensures Board(card, ports)
    ensures forall c :: 0 <= c < 2 ==>
      && ports[c].Current() == Replay(old(ports[c].Current()), run, c, card.revision[c])
      && ports[c].uart.(spr := 0, file := []) == old(ports[c].uart.(spr := 0, file := []))
      && (old(ports[c].Enabled()) || EverSet(run, c, ExternalTransmit, card.revision[c]) ==> ports[c].Enabled())
  {
    hide Recorded, Owned, WellFormed, AcrFor, AtRest, Level, MaskAgrees, EnableAgrees, EverSet, Replay;
    ghost var start := seq(2, c requires 0 <= c < 2 && ports[c].Valid() reads card, ports =>
      Start(ports[c].Current(), ports[c].uart.(spr := 0, file := []), ports[c].Enabled()));
    NotSetYet(card.revision[0], card.revision[1]);
    NothingReplayed(start[0].settings, 0, card.revision[0]);
    NothingReplayed(start[1].settings, 1, card.revision[1]);
    RunAll(card, ports, run, start);
  }

  /** The defaults of config.h. */
  predicate IsDefault(s: Settings, revision: Revision, enableAsync: bool) {
    && !s.rs485 && !s.echoCancel && (enableAsync ==> s.async)
    && s.sampleRate == 16 && s.txTrigger == 32 && s.rxTrigger == 32
    && s.isochronous == Mode(-1) && (revision.frev >= 0x20 ==> s.frameLength == 1)
  }

  /** What initialisation leaves as it was at reset. */
  predicate KeepsReset(s: Settings, reset: Uart, chip: Chip)
    requires reset.Valid()
  {
    s.clock == chip.latched && s.externalTransmit == Count(reset.file[EXTH], reset.file[EXT])
  }

  lemma RecordedReset(uart: Uart, fcr: Bits, chips: seq<Chip>, channel: nat)
    requires uart.Valid() && channel < |chips|
    ensures KeepsReset(Recorded(uart, fcr, chips, channel), uart, chips[channel])
  {
    hide Level, Count, ModeOf;
  }

  /** serialfc_port_new for one channel. */
  method NewPort(card: Card, channel: nat, uart: Uart, enableAsync: bool) returns (port: Port)
    requires card.Valid() && channel < 2 && uart.Valid()
    modifies card
    ensures fresh(port) && port.card == card && port.channel == channel && port.Valid() && port.Masked()
    ensures IsDefault(port.Current(), card.revision[channel], enableAsync)
    ensures KeepsReset(port.Current(), uart, old(card.chips)[channel]) && port.uart.lcr == 0xbf
    ensures OtherChannelKept(old(card.fcr), old(card.chips), card.fcr, card.chips, channel)
  {
    hide Recorded, Owned, Count, AcrFor, AtRest, Level, MaskAgrees, EnableAgrees, OtherChannelKept;
    RecordedReset(uart, card.fcr, card.chips, channel);
    port := new Port(card, channel, uart, enableAsync);
  }

  /** serialfc_port_new for both channels: the second leaves the first as it is. */
  method BringUp(card: Card, uarts: seq<Uart>, enableAsync: bool) returns (ports: seq<Port>)
    requires card.Valid() && |uarts| == 2 && uarts[0].Valid() && uarts[1].Valid()
    modifies card
    ensures Board(card, ports) && fresh(ports[0]) && fresh(ports[1])
    ensures forall c :: 0 <= c < 2 ==>
      && IsDefault(ports[c].Current(), card.revision[c], enableAsync)
      && KeepsReset(ports[c].Current(), uarts[c], old(card.chips)[c]) && ports[c].uart.lcr == 0xbf
  {
    hide Recorded, Owned, AcrFor, AtRest, Level, MaskAgrees, EnableAgrees, IsDefault, KeepsReset;
    var first := NewPort(card, 0, uarts[0], enableAsync);
    ghost var fcr, chips := card.fcr, card.chips;
    var second := NewPort(card, 1, uarts[1], enableAsync);
    OtherUnmoved(first.uart, fcr, chips, card.fcr, card.chips, 1);
    ports := [first, second];
  }

  /** What a getter returns while nothing has been set. */
  function DefaultOf(field: Field, reset: Uart): Value
    requires reset.Valid() && field != Async && field != Clock
  {
    match field
    case Rs485 => Flag(false)
    case EchoCancel => Flag(false)
    case SampleRate => Number(16)
    case TxTrigger => Number(32)
    case RxTrigger => Number(32)
    case Isochronous => ClockMode(Mode(-1))
    case ExternalTransmit => Number(Count(reset.file[EXTH], reset.file[EXT]))
    case FrameLength => Number(1)
  }

  lemma DefaultsRead(s: Settings, reset: Uart, chip: Chip, field: Field, revision: Revision, enableAsync: bool)
    requires reset.Valid() && Readable(field, revision)
    requires IsDefault(s, revision, enableAsync) && KeepsReset(s, reset, chip)
    ensures ValueOf(s, field) == DefaultOf(field, reset)
  {
    hide Count;
  }

  /** The position of the last request that sets the field of the channel. */
  predicate LastSet(run: seq<Request>, k: nat, channel: nat, field: Field, revision: Revision)
    requires (forall r :: r in run ==> WellFormed(r.op)) && k < |run|
  {
    && SetsAt(run, k, channel, field, revision)
    && forall j :: k < j < |run| ==> !SetsAt(run, j, channel, field, revision)
  }

  /** The value last set, or the default if none was. */
  predicate ReadsAs(value: Value, run: seq<Request>, channel: nat, field: Field, revision: Revision, reset: Uart)
    requires (forall r :: r in run ==> WellFormed(r.op)) && reset.Valid() && Readable(field, revision)
  {
    && (!EverSet(run, channel, field, revision) ==> value == DefaultOf(field, reset))
    && forall k :: 0 <= k < |run| && LastSet(run, k, channel, field, revision) ==>
         value == EffectOf(run[k].op, revision).value
  }

  lemma ReplayReadsAs(s: Settings, run: seq<Request>, channel: nat, field: Field, revision: Revision,
                      reset: Uart, chip: Chip, enableAsync: bool)
    requires (forall r :: r in run ==> WellFormed(r.op)) && reset.Valid() && Readable(field, revision)
    requires IsDefault(s, revision, enableAsync) && KeepsReset(s, reset, chip)
    ensures ReadsAs(ValueOf(Replay(s, run, channel, revision), field), run, channel, field, revision, reset)
  {
    hide WellFormed, EffectOf, ValueOf, Apply, IsDefault, KeepsReset, DefaultOf;
    DefaultsRead(s, reset, chip, field, revision, enableAsync);
    if !EverSet(run, channel, field, revision) {
      NeverSetKeeps(s, run, channel, field, revision);
    }
    forall k | 0 <= k < |run| && LastSet(run, k, channel, field, revision)
      ensures ValueOf(Replay(s, run, channel, revision), field) == EffectOf(run[k].op, revision).value
    {
      LastSetWins(s, run, k, channel, field, revision);
    }
  }

  /**
   * From reset to a getter's result: bring the card up, run any operations on both
   * channels, read a setting of one.  The getter returns what that setting was last set
   * to, or its default if it never was.
   */
  method ReadAfterRun(card: Card, uarts: seq<Uart>, enableAsync: bool, run: seq<Request>, channel: nat, field: Field)
    returns (status: Status, value: Value)
    requires card.Valid() && |uarts| == 2 && uarts[0].Valid() && uarts[1].Valid()
    requires (forall r :: r in run ==> r.channel < 2 && WellFormed(r.op)) && channel < 2
    modifies card
    ensures status.Done? <==> Readable(field, card.revision[channel])
    ensures status.Done? ==> ReadsAs(value, run, channel, field, card.revision[channel], uarts[channel])
  {
    hide Recorded, Replay, Apply, Owned, WellFormed, AcrFor, AtRest, Level, MaskAgrees, EnableAgrees;
    hide IsDefault, KeepsReset, ValueOf, ReadsAs, Readable, EverSet, OtherChannelKept, Idle, Rs485Bit;
    ghost var chip := card.chips[channel];
    var ports := BringUp(card, uarts, enableAsync);
    ghost var s := ports[channel].Current();
    RunRequests(card, ports, run);
    status, value := ports[channel].Get(field);
    if status.Done? {
      ReplayReadsAs(s, run, channel, field, card.revision[channel], uarts[channel], chip, enableAsync);
    }
  }
}
