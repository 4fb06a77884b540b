// The UART of an FSCC channel (16C950 family) as the driver sees it: registers whose
// meaning depends on LCR, and a file of control registers reached through an index
// (SPR) and a window (ICR).  Reads through the window are possible only while bit 6 of
// the ACR, itself in the file, is set; otherwise the window shows the line status.

module FsccUart {

  import Words

  const ACR: nat := 0x00
  const TCR: nat := 0x02
  const CKS: nat := 0x03
  const TTL: nat := 0x04
  const RTL: nat := 0x05
  const MDM: nat := 0x0e
  const EXT: nat := 0x16
  const EXTH: nat := 0x17
  const FLR: nat := 0x20

  /** `xoff2` and `xon2` stand for what SPR and ICR address while LCR is 0xbf. */
  datatype Uart = Uart(lcr: bv8, spr: nat, file: seq<bv8>, lsr: bv8, fcr: bv8, efr: bv8, xon2: bv8, xoff2: nat)
  {
    predicate Valid() {
      |file| == 0x100 && spr < 0x100
    }

    /** Offset 3. */
    function WriteLcr(value: bv8): Uart {
      this.(lcr := value)
    }

    /** Offset 7: the index, unless LCR selects the 650 registers. */
    function WriteSpr(index: nat): Uart {
      if lcr == 0xbf then this.(xoff2 := index) else this.(spr := index)
    }

    /** Offset 5: a write through the window. */
    function WriteIcr(value: bv8): Uart
      requires Valid()
    {
      if lcr == 0xbf then this.(xon2 := value) else this.(file := file[spr := value])
    }

    /** Offset 5: a read through the window, or of the line status. */
    function ReadIcr(): bv8
      requires Valid()
    {
      if lcr == 0xbf then xon2
      else if file[ACR] & 0x40 != 0 then file[spr]
      else lsr
    }

    /** Offset 2. */
    function WriteFcr(value: bv8): Uart {
      if lcr == 0xbf then this.(efr := value) else this.(fcr := value)
    }
  }

  /** While LCR is 0xbf neither index nor window are there, which is why the driver clears LCR first. */
  lemma WindowNeedsLcr(uart: Uart, index: nat, value: bv8)
    requires uart.Valid() && uart.lcr == 0xbf
    ensures uart.WriteSpr(index).spr == uart.spr
    ensures uart.WriteIcr(value).file == uart.file && uart.ReadIcr() == uart.xon2
  {
  }

  /** Otherwise a write goes to the register indexed, and a read comes from there if and only if ACR bit 6 is set. */
  lemma WindowNeedsAcr(uart: Uart, value: bv8)
    requires uart.Valid() && uart.lcr != 0xbf
    ensures uart.WriteIcr(value).file == uart.file[uart.spr := value]
    ensures uart.ReadIcr() == if uart.file[0x00] & 0x40 != 0 then uart.file[uart.spr] else uart.lsr
  {
  }

  // ---------------------------------------------------------------- what the bytes mean

  /** The bits of a trigger level. */
  function Level(b: bv8): nat {
    (b & 0x7f) as nat
  }

  /** The transmit count of EXTH and EXT. */
  function Count(exth: bv8, ext: bv8): nat {
    (exth & 0x1f) as nat * 0x100 + ext as nat
  }

  /** The two bytes of a transmit count; any but 0 comes with the enable bit. */
  function CountHigh(n: nat): bv8
    requires n <= 8191
  {
    if n != 0 then 0x80 | ((n / 0x100) as bv8) else 0x00
  }

  function CountLow(n: nat): bv8
    requires n <= 8191
  {
    (n % 0x100) as bv8
  }

  /** The clock modes 0 to 10, and -1 for none. */
  predicate IsMode(mode: int) {
    -1 <= mode <= 10
  }

  /** The receive half of CKS. */
  function ReceiveClock(mode: int): bv8 {
    if mode in {2, 3, 4, 10} then 0x09
    else if mode in {5, 6, 7} then 0x0A
    else if mode == 8 then 0x0B
    else 0x00
  }

  /** The transmit half of CKS. */
  function TransmitClock(mode: int): bv8 {
    if mode in {0, 3, 6, 8} then 0xD0
    else if mode in {1, 4, 7} then 0x90
    else if mode in {9, 10} then 0x10
    else 0x00
  }

  /** The modem interrupt mask that goes with a mode. */
  function InterruptMask(mode: int): bv8 {
    (if mode in {2, 3, 4, 10} then 0x02 else 0x00) | (if mode in {0, 3, 6, 8} then 0x04 else 0x00)
  }

  datatype Mode = Mode(mode: int) | Unknown

  /** How the driver reads CKS back. */
  function ModeOf(cks: bv8): Mode {
    if cks == 0x00 then Mode(-1)
    else if cks == 0xD0 then Mode(0)
    else if cks == 0x90 then Mode(1)
    else if cks == 0x09 then Mode(2)
    else if cks == 0xD9 then Mode(3)
    else if cks == 0x99 then Mode(4)
    else if cks == 0x0A then Mode(5)
    else if cks == 0xDA then Mode(6)
    else if cks == 0x9A then Mode(7)
    else if cks == 0xDB then Mode(8)
    else if cks == 0x10 then Mode(9)
    else if cks == 0x19 then Mode(10)
    else Unknown
  }

  /** The interrupts masked are those that go with the clock mode. */
  predicate MaskAgrees(mdm: bv8, cks: bv8) {
    ModeOf(cks).Mode? && mdm == InterruptMask(ModeOf(cks).mode)
  }

  /** External transmit is enabled exactly for a count other than 0. */
  predicate EnableAgrees(exth: bv8, ext: bv8) {
    exth & 0x80 != 0 <==> Count(exth, ext) != 0
  }

  // ---------------------------------------------------------------- what the modes are

  /** Where a clock comes from, or that the transmit clock goes out. */
  datatype Source = Unclocked | DsrPin | RiPin | Generator | TransmitClockPin | DtrPin

  /** The modes as the documentation lists them: receive and transmit clock. */
  function Documented(mode: int): (Source, Source)
    requires IsMode(mode)
  {
    match mode
    case 0 => (Unclocked, RiPin)
    case 1 => (Unclocked, Generator)
    case 2 => (DsrPin, Unclocked)
    case 3 => (DsrPin, RiPin)
    case 4 => (DsrPin, Generator)
    case 5 => (Generator, Unclocked)
    case 6 => (Generator, RiPin)
    case 7 => (Generator, Generator)
    case 8 => (TransmitClockPin, RiPin)
    case 9 => (Unclocked, DtrPin)
    case 10 => (DsrPin, DtrPin)
    case _ => (Unclocked, Unclocked)
  }

  /** What the UART makes of CKS: bits 0, 1 and 3 for receive, bits 4, 6 and 7 for transmit. */
  function ReceiveSource(cks: bv8): Source {
    match cks & 0x0b
    case 0x09 => DsrPin
    case 0x0a => Generator
    case 0x0b => TransmitClockPin
    case _ => Unclocked
  }

  function TransmitSource(cks: bv8): Source {
    match cks & 0xd0
    case 0xd0 => RiPin
    case 0x90 => Generator
    case 0x10 => DtrPin
    case _ => Unclocked
  }

  /** CKS selects the documented clocks, and nothing but these six bits. */
  lemma ModesAsDocumented(mode: int)
    requires IsMode(mode)
    ensures var cks := ReceiveClock(mode) | TransmitClock(mode);
      (ReceiveSource(cks), TransmitSource(cks)) == Documented(mode) && cks & 0x24 == 0
  {
  }

  /** There are the modes -1 to 10. */
  lemma ModesAre(mode: int)
    ensures IsMode(mode) <==> mode in {-1, 0, 1, 2, 3, 4, 5, 6, 7, 8, 9, 10}
  {
  }

  // ---------------------------------------------------------------- what the bytes are as numbers

  lemma LevelNumber(b: bv8)
    ensures Level(b) == b as nat % 128
  {
    Words.Masked7(b);
  }

  lemma CountNumber(exth: bv8, ext: bv8)
    ensures Count(exth, ext) == exth as nat % 32 * 256 + ext as nat
  {
    Words.Masked5(exth);
  }

  lemma TopBit(b: bv8)
    ensures b & 0x80 != 0 <==> b as nat >= 128
  {
  }

  lemma EnableNumber(exth: bv8, ext: bv8)
    ensures EnableAgrees(exth, ext) <==> (exth as nat >= 128 <==> Count(exth, ext) != 0)
  {
    hide Count;
    TopBit(exth);
  }

  // ---------------------------------------------------------------- round trips of the bytes

  /** Every clock mode is read back as set. */
  lemma ModeReadBack(mode: int)
    requires IsMode(mode)
    ensures ModeOf(ReceiveClock(mode) | TransmitClock(mode)) == Mode(mode)
  {
  }

  /** The interrupts masked are those of the pins in use: DSR# as receive clock, RI# as transmit clock. */
  lemma MaskMatchesClocks(mode: int)
    requires IsMode(mode)
    ensures InterruptMask(mode) & 0x02 != 0 <==> ReceiveClock(mode) == 0x09
    ensures InterruptMask(mode) & 0x04 != 0 <==> TransmitClock(mode) == 0xD0
    ensures InterruptMask(mode) & 0xf9 == 0
  {
  }

  lemma MaskFollows(mode: int)
    requires IsMode(mode)
    ensures MaskAgrees(InterruptMask(mode), ReceiveClock(mode) | TransmitClock(mode))
  {
    hide ModeOf, InterruptMask, ReceiveClock, TransmitClock;
    ModeReadBack(mode);
  }

  lemma SevenBits(b: bv8)
    requires b as nat <= 127
    ensures Level(b) == b as nat
  {
  }

  lemma LevelReadBack(value: nat)
    requires value <= 127
    ensures Level(value as bv8) == value
  {
    Words.Fits8(value);
    SevenBits(value as bv8);
  }

  /** The register holds one less than the frame length. */
  function FrameByte(n: nat): bv8
    requires 1 <= n <= 256
  {
    (n - 1) as bv8
  }

  lemma FrameReadBack(n: nat)
    requires 1 <= n <= 256
    ensures FrameByte(n) as nat + 1 == n
  {
    Words.Fits8(n - 1);
  }

  lemma FiveBits(b: bv8)
    requires b as nat <= 31
    ensures ((0x80 | b) & 0x1f) as nat == b as nat
  {
  }

  lemma ZeroHigh()
    ensures ((0x00 as bv8) & 0x1f) as nat == 0
  {
  }

  lemma CountBytes(high: bv8, low: bv8, n: nat)
    requires high as nat == n / 0x100 && low as nat == n % 0x100 && n <= 8191
    ensures Count(if n != 0 then 0x80 | high else 0x00, low) == n
  {
    FiveBits(high);
    ZeroHigh();
  }

  lemma CountReadBack(n: nat)
    requires n <= 8191
    ensures Count(CountHigh(n), CountLow(n)) == n
  {
    hide Count;
    Words.Fits8(n / 0x100);
    Words.Fits8(n % 0x100);
    CountBytes((n / 0x100) as bv8, (n % 0x100) as bv8, n);
  }

  lemma EnableBit(b: bv8)
    ensures (0x80 | b) & 0x80 != 0
    ensures 0x80 | b != 0
  {
  }

  /** The enable bit is set exactly for a count other than 0, which leaves the whole byte 0. */
  lemma CountEnables(n: nat)
    requires n <= 8191
    ensures CountHigh(n) & 0x80 != 0 <==> n != 0
    ensures CountHigh(n) == 0 <==> n == 0
    ensures EnableAgrees(CountHigh(n), CountLow(n))
  {
    CountReadBack(n);
    if n != 0 { EnableBit((n / 0x100) as bv8); }
  }

  /** The ACR between operations: bit 4 for rs485, and never bit 6, which opens the window. */
  function AcrFor(rs485: bool): bv8 {
    if rs485 then 0x10 else 0x00
  }

  predicate AtRest(acr: bv8) {
    acr == AcrFor(false) || acr == AcrFor(true)
  }

  /** What the rs485 set makes of it. */
  function Rs485Acr(acr: bv8, enable: bool): bv8 {
    if enable then acr | 0x10 else acr & 0xef
  }

  lemma AcrSet(acr: bv8, enable: bool)
    requires AtRest(acr)
    ensures Rs485Acr(acr, enable) == AcrFor(enable)
    ensures AtRest(AcrFor(enable))
  {
  }

  /** What the driver's other masks make of it. */
  lemma AcrBits(acr: bv8)
    requires AtRest(acr)
    ensures acr & 0x10 != 0 <==> acr == AcrFor(true)
    ensures acr & 0x40 == 0
    ensures (acr | 0x40) & 0x40 != 0
  {
  }
}
