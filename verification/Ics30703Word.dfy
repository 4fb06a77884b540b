// The 20-byte programming word of the ICS307-03: the second half of GetICS30703Data,
// and how the chip reads the word back.

module Ics30703Word {

  import opened OutputDivider
  import Nonlinear
  import Words

  /** What the five tables put into the word. */
  datatype Fields = Fields(r: nat, v: nat, od: nat, resistor: nat, current: nat)

  // ---------------------------------------------------------------- reading the word

  /** Table 1: two bits of kind, then the divider, complemented for 3 to 17. */
  function InputDivider(b0: bv8, b1: bv8): nat {
    match b0 & 3
    case 0 => 1
    case 1 => 2
    case 2 => 2 + (!(b0 >> 2) & 0x0f) as nat
    case _ => 8 + (((b0 >> 2) as bv16) | (((b1 & 0x1f) as bv16) << 6)) as nat
  }

  /** Table 2: eleven bits, the lowest three of which share byte 1 with table 1. */
  function VcoDivider(b1: bv8, b2: bv8): nat {
    8 + (((b1 >> 5) as bv16) | ((b2 as bv16) << 3)) as nat
  }

  /** Table 4: bits 1 and 2 of byte 11. */
  function LoopResistor(b11: bv8): nat {
    match b11 & 0x06
    case 0 => 64000
    case 4 => 52000
    case 2 => 16000
    case _ => 4000
  }

  /** Table 3: bits 5 to 3 of byte 11 step the current, bytes 15 and 16 multiply it by 1 to 4. */
  function PumpCurrent(b11: bv8, b15: bv8, b16: bv8): nat {
    var steps := ((b11 >> 3) & 7) as nat;
    var s := (b15 >> 7) as nat;
    var t := (b16 & 1) as nat;
    125 * (8 - steps) * (1 + s + 2 * t)
  }

  /** The nine bits of the formula's X. */
  function FormX(b12: bv8, b13: bv8): nat {
    (((b12 >> 5) as bv16) | (((b13 & 0x3f) as bv16) << 3)) as nat
  }

  /** Table 5: byte 12 and parts of bytes 11 and 13. */
  function OutputDivider1(b11: bv8, b12: bv8, b13: bv8): nat {
    var high := b11 & 0x80 != 0;
    if b12 & 3 == 2 then
      if high then
        var x := FormX(b12, b13);
        var y := if b12 & 4 == 0 then 1 else 0;
        ((x + 3) * 2 + y) * Scale(((b12 >> 3) & 3) as nat)
      else
        6 + (!(b12 >> 2) & 0x1f) as nat
    else if b12 == 0x00 then if high then 3 else 2
    else if b12 == 0x04 then if high then 6 else 4
    else if b12 == 0x01 then if high then 7 else 5
    else if b12 == 0x05 then 9
    else if b12 == 0x09 then 11
    else 13
  }

  /** The bytes the tables write. */
  datatype TableBytes = TableBytes(b0: bv8, b1: bv8, b2: bv8, b11: bv8, b12: bv8, b13: bv8, b15: bv8, b16: bv8)

  function Read(t: TableBytes): Fields {
    Fields(InputDivider(t.b0, t.b1), VcoDivider(t.b1, t.b2), OutputDivider1(t.b11, t.b12, t.b13),
           LoopResistor(t.b11), PumpCurrent(t.b11, t.b15, t.b16))
  }

  /** The bytes of a word the tables write. */
  function TableBytesOf(word: seq<bv8>): TableBytes
    requires |word| == 20
  {
    TableBytes(word[0], word[1], word[2], word[11], word[12], word[13], word[15], word[16])
  }

  /** The five fields of a word. */
  function Decode(word: seq<bv8>): Fields
    requires |word| == 20
  {
    Read(TableBytesOf(word))
  }

  // ---------------------------------------------------------------- reading the word in arithmetic

  function InputNumber(b0: nat, b1: nat): nat {
    if b0 % 4 < 2 then b0 % 4 + 1
    else if b0 % 4 == 2 then 17 - b0 / 4 % 16
    else 8 + b0 / 4 + 64 * (b1 % 32)
  }

  function VcoNumber(b1: nat, b2: nat): nat {
    8 + b1 / 32 + 8 * b2
  }

  function ResistorNumber(b11: nat): nat {
    [64000, 16000, 52000, 4000][b11 / 2 % 4]
  }

  function CurrentNumber(b11: nat, b15: nat, b16: nat): nat {
    125 * (8 - b11 / 8 % 8) * (1 + b15 / 128 + 2 * (b16 % 2))
  }

  /** The bit for Y stands for 0, and its absence for 1. */
  function FormNumber(x: nat, even: nat, z: nat): nat
    requires even < 2
  {
    (2 * (x + 3) + 1 - even) * (if z == 0 then 1 else if z == 1 then 2 else if z == 2 then 4 else 8)
  }

  function OutputNumber(b11: nat, b12: nat, b13: nat): nat {
    if b12 % 4 != 2 then
      if b12 == 0x00 then 2 + b11 / 128 % 2
      else if b12 == 0x04 then 4 + 2 * (b11 / 128 % 2)
      else if b12 == 0x01 then 5 + 2 * (b11 / 128 % 2)
      else if b12 == 0x05 then 9
      else if b12 == 0x09 then 11
      else 13
    else if b11 / 128 % 2 == 0 then 37 - b12 / 4 % 32
    else FormNumber(b12 / 32 + 8 * (b13 % 64), b12 / 4 % 2, b12 / 8 % 4)
  }

  /** The fields by division and remainder of the bytes. */
  function Numbers(t: TableBytes): Fields {
    Fields(InputNumber(t.b0 as nat, t.b1 as nat), VcoNumber(t.b1 as nat, t.b2 as nat),
           OutputNumber(t.b11 as nat, t.b12 as nat, t.b13 as nat), ResistorNumber(t.b11 as nat),
           CurrentNumber(t.b11 as nat, t.b15 as nat, t.b16 as nat))
  }

  lemma KindNumber(b0: bv8)
    ensures b0 & 3 == 0 <==> (b0 & 3) as nat == 0
    ensures b0 & 3 == 1 <==> (b0 & 3) as nat == 1
    ensures b0 & 3 == 2 <==> (b0 & 3) as nat == 2
  {
  }

  lemma JoinedInput(b: bv8, c: bv8)
    ensures (((b >> 2) as bv16) | (((c & 0x1f) as bv16) << 6)) as nat == (b >> 2) as nat + 64 * (c & 0x1f) as nat
  {
  }

  lemma InputReads(b0: bv8, b1: bv8)
    ensures InputDivider(b0, b1) == InputNumber(b0 as nat, b1 as nat)
  {
    Words.Shifted2(b0);
    Words.Masked2(b0);
    Words.Masked5(b1);
    Words.Masked4(b0 >> 2);
    Words.Complement4(b0 >> 2);
    JoinedInput(b0, b1);
    KindNumber(b0);
  }

  lemma JoinedVco(b: bv8, c: bv8)
    ensures (((b >> 5) as bv16) | ((c as bv16) << 3)) as nat == (b >> 5) as nat + 8 * c as nat
  {
  }

  lemma JoinedX(b: bv8, c: bv8)
    ensures (((b >> 5) as bv16) | (((c & 0x3f) as bv16) << 3)) as nat == (b >> 5) as nat + 8 * (c & 0x3f) as nat
  {
  }

  lemma VcoReads(b1: bv8, b2: bv8)
    ensures VcoDivider(b1, b2) == VcoNumber(b1 as nat, b2 as nat)
  {
    Words.Shifted5(b1);
    JoinedVco(b1, b2);
  }

  lemma ResistorCode(b11: bv8)
    ensures b11 & 0x06 == 0 <==> (b11 >> 1) & 3 == 0
    ensures b11 & 0x06 == 2 <==> (b11 >> 1) & 3 == 1
    ensures b11 & 0x06 == 4 <==> (b11 >> 1) & 3 == 2
  {
  }

  lemma ResistorReads(b11: bv8)
    ensures LoopResistor(b11) == ResistorNumber(b11 as nat)
  {
    ResistorCode(b11);
    Words.Shifted1(b11);
    Words.Masked2(b11 >> 1);
    KindNumber(b11 >> 1);
  }

  lemma CurrentReads(b11: bv8, b15: bv8, b16: bv8)
    ensures PumpCurrent(b11, b15, b16) == CurrentNumber(b11 as nat, b15 as nat, b16 as nat)
  {
    Words.Shifted3(b11);
    Words.Masked3(b11 >> 3);
    Words.Shifted7(b15);
    Words.Masked1(b16);
  }

  lemma Byte12Number(b12: bv8)
    ensures b12 == 0x00 <==> b12 as nat == 0x00
    ensures b12 == 0x04 <==> b12 as nat == 0x04
    ensures b12 == 0x01 <==> b12 as nat == 0x01
    ensures b12 == 0x05 <==> b12 as nat == 0x05
    ensures b12 == 0x09 <==> b12 as nat == 0x09
  {
  }

  lemma HighBit(b11: bv8)
    ensures b11 & 0x80 != 0 <==> (b11 >> 7) as nat == 1
    ensures (b11 >> 7) as nat <= 1
  {
  }

  lemma HighNumber(b11: bv8)
    ensures b11 & 0x80 != 0 <==> b11 as nat / 128 % 2 == 1
  {
    Words.Shifted7(b11);
    HighBit(b11);
  }

  lemma EvenBit(b12: bv8)
    ensures b12 & 4 != 0 <==> ((b12 >> 2) & 1) as nat == 1
  {
  }

  lemma EvenNumber(b12: bv8)
    ensures b12 & 4 != 0 <==> b12 as nat / 4 % 2 == 1
  {
    Words.Shifted2(b12);
    Words.Masked1(b12 >> 2);
    EvenBit(b12);
  }

  lemma XReads(b12: bv8, b13: bv8)
    ensures FormX(b12, b13) == b12 as nat / 32 + 8 * (b13 as nat % 64)
  {
    Words.Shifted5(b12);
    Words.Masked6(b13);
    JoinedX(b12, b13);
  }

  lemma ZReads(b12: bv8)
    ensures ((b12 >> 3) & 3) as nat == b12 as nat / 8 % 4
    ensures ((b12 >> 3) & 3) as nat < 4
  {
    Words.Shifted3(b12);
    Words.Masked2(b12 >> 3);
  }

  lemma SameProduct(x: nat, y: nat, z: nat)
    requires y < 2 && z < 4
    ensures ((x + 3) * 2 + y) * Scale(z) == FormNumber(x, 1 - y, z)
  {
  }

  lemma FormulaReads(b12: bv8, b13: bv8)
    ensures var y := if b12 & 4 == 0 then 1 else 0;
      ((FormX(b12, b13) + 3) * 2 + y) * Scale(((b12 >> 3) & 3) as nat)
      == FormNumber(b12 as nat / 32 + 8 * (b13 as nat % 64), b12 as nat / 4 % 2, b12 as nat / 8 % 4)
  {
    hide *;
    EvenNumber(b12);
    XReads(b12, b13);
    ZReads(b12);
    SameProduct(FormX(b12, b13), if b12 & 4 == 0 then 1 else 0, ((b12 >> 3) & 3) as nat);
  }

  lemma ShortOutputReads(b12: bv8)
    ensures 6 + (!(b12 >> 2) & 0x1f) as nat == 37 - b12 as nat / 4 % 32
  {
    Words.Shifted2(b12);
    Words.Masked5(b12 >> 2);
    Words.Complement5(b12 >> 2);
  }

  lemma OutputReads(b11: bv8, b12: bv8, b13: bv8)
    ensures OutputDivider1(b11, b12, b13) == OutputNumber(b11 as nat, b12 as nat, b13 as nat)
  {
    hide FormX, FormNumber;
    HighNumber(b11);
    Words.Masked2(b12);
    KindNumber(b12);
    Byte12Number(b12);
    ShortOutputReads(b12);
    FormulaReads(b12, b13);
  }

  /** The bit operations of the decoder read these very numbers. */
  lemma ReadExactly(t: TableBytes)
    ensures Read(t) == Numbers(t)
  {
    hide InputDivider, VcoDivider, LoopResistor, PumpCurrent, OutputDivider1;
    hide InputNumber, VcoNumber, ResistorNumber, CurrentNumber, OutputNumber;
    InputReads(t.b0, t.b1);
    VcoReads(t.b1, t.b2);
    ResistorReads(t.b11);
    CurrentReads(t.b11, t.b15, t.b16);
    OutputReads(t.b11, t.b12, t.b13);
  }

  // ---------------------------------------------------------------- one word for each set of fields

  /** The dividers table 5 lists one by one. */
  predicate Listed(od: nat) {
    od in {2, 3, 4, 5, 6, 7, 9, 11, 13}
  }

  /** The current is a number of steps of 1.25 uA, once to four times. */
  predicate StepsDivide(n: nat, current: nat)
  {
    current in {125 * n, 250 * n, 375 * n, 500 * n}
  }

  /**
   * Several codes can stand for one value.  The word has the shortest layout for r, with
   * the bits that layout does not need at zero.
   */
  ghost predicate InputPlain(b0: bv8, b1: bv8) {
    match b0 & 3
    case 2 => b0 & 0xc0 == 0 && b1 & 0x1f == 0 && InputDivider(b0, b1) >= 3
    case 3 => InputDivider(b0, b1) >= 18
    case _ => b0 & 0xfc == 0 && b1 & 0x1f == 0
  }

  /**
   * Most currents have several products of steps and multiplier.  The word has the most
   * steps, but for 250, 375 and 500, one step, and 1500, three.
   */
  ghost predicate CurrentPlain(b11: bv8, b15: bv8, b16: bv8) {
    var current, steps := PumpCurrent(b11, b15, b16), 8 - ((b11 >> 3) & 7) as nat;
    if current in {250, 375, 500} then steps == 1
    else if current == 1500 then steps == 3
    else forall n :: 0 <= steps < n <= 8 ==> !StepsDivide(n, current)
  }

  /** The divider is in a layout of its own up to 37, and in the formula with the least X above. */
  ghost predicate OutputPlain(b11: bv8, b12: bv8, b13: bv8) {
    var od := OutputDivider1(b11, b12, b13);
    if b12 & 3 != 2 then
      && b13 & 0x3f == 0 && b12 in {0x00, 0x04, 0x01, 0x05, 0x09, 0x0d}
      && (b12 in {0x05, 0x09, 0x0d} ==> b11 & 0x80 != 0)
    else if b11 & 0x80 == 0 then
      b12 & 0x80 == 0 && b13 & 0x3f == 0 && !Listed(od)
    else
      od >= 38 && forall i: nat, y: nat, z: nat :: i < FormX(b12, b13) ==> !Form(od, i, y, z)
  }

  // ---------------------------------------------------------------- table 1

  lemma ComplementedBits(n: bv8)
    requires 1 <= n <= 15
    ensures var b0 := ((!n << 2) & 0x3e) | 0x02; b0 & 3 == 2 && !(b0 >> 2) & 0x0f == n
  {
  }

  lemma ElevenBits(w: bv16)
    requires w <= 0x7ff
    ensures var t := w << 2;
      var b0, b1 := (t & 0xff) as bv8 | 0x03, ((t >> 8) & 0xff) as bv8;
      && b0 & 3 == 3 && b1 & 0xe0 == 0
      && ((b0 >> 2) as bv16) | (((b1 & 0x1f) as bv16) << 6) == w
  {
  }

  /** The word is the number, which has at most eleven bits. */
  predicate Represents(w: bv16, n: nat) {
    w as nat == n && w <= 0x7ff
  }

  lemma LongInput(w: bv16, n: nat)
    requires Represents(w, n)
    ensures var t := w << 2;
      var b0, b1 := (t & 0xff) as bv8 | 0x03, ((t >> 8) & 0xff) as bv8;
      InputDivider(b0, b1) == 8 + n && b1 & 0xe0 == 0 && (n >= 10 ==> InputPlain(b0, b1))
  {
    ElevenBits(w);
  }

  /** The two dividers with a code of their own. */
  lemma OwnInput(b0: bv8, b1: bv8)
    requires b0 == 0 && b1 == 0
    ensures InputDivider(b0 & 0xfc, b1 & 0xf0) == 1
    ensures InputPlain(b0 & 0xfc, b1 & 0xf0)
    ensures InputDivider((b0 & 0xfc) | 0x01, b1 & 0xf0) == 2
    ensures InputPlain((b0 & 0xfc) | 0x01, b1 & 0xf0)
    ensures (b1 & 0xf0) & 0xe0 == 0 && b1 & 0xe0 == 0
  {
  }

  lemma ByteBetween(n: bv8, low: nat, high: nat)
    requires low == 1 && high == 15 && low <= n as nat <= high
    ensures 1 <= n <= 15
  {
  }

  lemma ComplementedKind(b: bv8)
    ensures (((!b << 2) & 0x3e) | 0x02) & 3 == 2
    ensures (((!b << 2) & 0x3e) | 0x02) & 0xc0 == 0
    ensures (0 as bv8) & 0x1f == 0
  {
  }

  lemma ShortInput(b: bv8, n: nat)
    requires b as nat == n && 1 <= n <= 15
    ensures InputDivider(((!b << 2) & 0x3e) | 0x02, 0) == 2 + n
    ensures InputPlain(((!b << 2) & 0x3e) | 0x02, 0)
  {
    ByteBetween(b, 1, 15);
    ComplementedBits(b);
    ComplementedKind(b);
  }

  lemma WordAtMost(n: bv16)
    requires n as nat <= 0x7ff
    ensures n <= 0x7ff
  {
  }

  /** A number of eleven bits as a word. */
  function WordOf(n: nat): (w: bv16)
    requires n <= 0x7ff
    ensures Represents(w, n)
  {
    Words.Fits16(n);
    WordAtMost(n as bv16);
    n as bv16
  }

  /** The dividers of four complemented bits: byte 0. */
  method EncodeShortInput(r: nat) returns (b0: bv8)
    requires 3 <= r <= 17
    ensures InputDivider(b0, 0) == r && InputPlain(b0, 0)
  {
    hide InputDivider, InputPlain;
    Words.Fits8(r - 2);
    var temp := (r - 2) as bv8;
    ShortInput(temp, r - 2);
    temp := !temp;
    temp := temp << 2;
    b0 := temp;
    b0 := b0 & 0x3e;
    b0 := b0 | 0x02;
  }

  /** The dividers of eleven bits: bytes 0 and 1. */
  method EncodeLongInput(r: nat) returns (b0: bv8, b1: bv8)
    requires 18 <= r <= 2055
    ensures InputDivider(b0, b1) == r && InputPlain(b0, b1) && b1 & 0xe0 == 0
  {
    hide *;
    var temp := WordOf(r - 8);
    LongInput(temp, r - 8);
    temp := temp << 2;
    b0 := (temp & 0xff) as bv8;
    b1 := ((temp >> 8) & 0xff) as bv8;
    b0 := b0 | 0x03;
  }

  /** Table 1, on bytes 0 and 1, which are zero before it. */
  method EncodeInputDivider(b0: bv8, b1: bv8, r: nat) returns (ok: bool, b0': bv8, b1': bv8)
    requires b0 == 0 && b1 == 0
    ensures ok <==> 1 <= r <= 2055
    ensures ok ==> InputDivider(b0', b1') == r && InputPlain(b0', b1')
    ensures b1' & 0xe0 == 0
  {
    hide InputDivider, InputPlain;
    ok, b0', b1' := true, b0, b1;
    OwnInput(b0, b1);
    if r == 1 || r == 2 {
      if r == 1 {
        b0' := b0' & 0xFC;
        b1' := b1' & 0xF0;
      } else {
        b0' := b0' & 0xFC;
        b0' := b0' | 0x01;
        b1' := b1' & 0xF0;
      }
    } else if 3 <= r <= 17 {
      b0' := EncodeShortInput(r);
    } else if 18 <= r <= 2055 {
      b0', b1' := EncodeLongInput(r);
    } else {
      ok := false;
    }
  }

  // ---------------------------------------------------------------- table 2

  lemma SharedBits(n: bv16, b1: bv8)
    requires n <= 0x7ff && b1 & 0xe0 == 0
    ensures var t := n << 5;
      && (((b1 | (t & 0xff) as bv8) >> 5) as bv16) | ((((t >> 8) & 0xff) as bv8 as bv16) << 3) == n
      && (b1 | (t & 0xff) as bv8) & 0x1f == b1 & 0x1f
  {
  }

  lemma SharedByte(w: bv16, n: nat, b1: bv8, b2: bv8)
    requires Represents(w, n) && b1 & 0xe0 == 0 && b2 == 0
    ensures var t := w << 5;
      var b1', b2' := b1 | (t & 0xff) as bv8, b2 | ((t >> 8) & 0xff) as bv8;
      && VcoDivider(b1', b2') == 8 + n
      && b1' & 0x1f == b1 & 0x1f
  {
    SharedBits(w, b1);
  }

  /** Table 1 reads nothing of byte 1 but the five low bits. */
  lemma SharedByteKeepsInput(b0: bv8, b1: bv8, b1': bv8)
    requires b1 & 0x1f == b1' & 0x1f
    ensures InputDivider(b0, b1) == InputDivider(b0, b1')
    ensures InputPlain(b0, b1) <==> InputPlain(b0, b1')
  {
  }

  /** Table 2, on bytes 1 and 2; what table 1 put into byte 1 stays readable. */
  method EncodeVcoDivider(b1: bv8, b2: bv8, v: nat) returns (ok: bool, b1': bv8, b2': bv8)
    requires b1 & 0xe0 == 0 && b2 == 0
    ensures ok <==> 12 <= v <= 2055
    ensures ok ==> VcoDivider(b1', b2') == v
    ensures forall b0 :: InputDivider(b0, b1') == InputDivider(b0, b1)
    ensures forall b0 :: InputPlain(b0, b1) && ok ==> InputPlain(b0, b1')
  {
    hide *;
    b1', b2' := b1, b2;
    if !(12 <= v <= 2055) {
      return false, b1, b2;
    }
    var temp := WordOf(v - 8);
    SharedByte(temp, v - 8, b1, b2);
    temp := temp << 5;
    b1' := b1' | (temp & 0xff) as bv8;
    b2' := b2' | ((temp >> 8) & 0xff) as bv8;
    forall b0
      ensures InputDivider(b0, b1') == InputDivider(b0, b1)
      ensures InputPlain(b0, b1) ==> InputPlain(b0, b1')
    {
      SharedByteKeepsInput(b0, b1, b1');
    }
    ok := true;
  }

  // ---------------------------------------------------------------- tables 4 and 3

  /** Table 4, on byte 11. */
  method EncodeResistor(b11: bv8, resistor: nat) returns (ok: bool, b11': bv8)
    requires b11 == 0
    ensures ok <==> resistor in {64000, 52000, 16000, 4000}
    ensures ok ==> LoopResistor(b11') == resistor
    ensures b11' & 0xf9 == 0
  {
    ok, b11' := true, b11;
    match resistor {
      case 64000 =>
        b11' := b11' & 0xf9;
      case 52000 =>
        b11' := b11' & 0xf9;
        b11' := b11' | 0x04;
      case 16000 =>
        b11' := b11' & 0xf9;
        b11' := b11' | 0x02;
      case 4000 =>
        b11' := b11' | 0x06;
      case _ =>
        ok := false;
    }
  }

  /** The currents of table 3. */
  const CURRENTS: set<nat> :=
    {125, 250, 375, 500, 625, 750, 875, 1000, 1125, 1250,
     1500, 1750, 1875, 2000, 2250, 2500, 2625, 3000, 3500, 4000}

  /** They are all the currents bytes 11, 15 and 16 can stand for: one to eight steps of 1.25 uA, once to four times. */
  lemma CurrentsAreProducts(current: nat)
    ensures current in CURRENTS <==> exists n: nat :: 1 <= n <= 8 && StepsDivide(n, current)
  {
    assert StepsDivide(1, current) <==> current in {125, 250, 375, 500};
    assert StepsDivide(3, current) <==> current in {375, 750, 1125, 1500};
    assert StepsDivide(5, current) <==> current in {625, 1250, 1875, 2500};
    assert StepsDivide(6, current) <==> current in {750, 1500, 2250, 3000};
    assert StepsDivide(7, current) <==> current in {875, 1750, 2625, 3500};
    assert StepsDivide(8, current) <==> current in {1000, 2000, 3000, 4000};
  }

  /** What each case of the table does: bits to set and to keep of byte 11, and bits for bytes 15 and 16. */
  datatype PumpCase = PumpCase(set11: bv8, keep11: bv8, high15: bool, low16: bool)

  function PumpTable(current: nat): PumpCase
    requires current in CURRENTS
  {
    match current
    case 125 => PumpCase(0x38, 0xff, false, false)
    case 250 => PumpCase(0x38, 0xff, true, false)
    case 375 => PumpCase(0x38, 0xff, false, true)
    case 500 => PumpCase(0x38, 0xff, true, true)
    case 625 => PumpCase(0x18, 0xdf, false, false)
    case 750 => PumpCase(0x10, 0xd7, false, false)
    case 875 => PumpCase(0x08, 0xcf, false, false)
    case 1000 => PumpCase(0x00, 0xc7, false, false)
    case 1125 => PumpCase(0x28, 0xef, false, true)
    case 1250 => PumpCase(0x18, 0xdf, true, false)
    case 1500 => PumpCase(0x28, 0xef, true, true)
    case 1750 => PumpCase(0x08, 0xcf, true, false)
    case 1875 => PumpCase(0x18, 0xdf, false, true)
    case 2000 => PumpCase(0x00, 0xc7, true, false)
    case 2250 => PumpCase(0x10, 0xff, false, true)
    case 2500 => PumpCase(0x18, 0xdf, true, true)
    case 2625 => PumpCase(0x08, 0xcf, false, true)
    case 3000 => PumpCase(0x00, 0xc7, false, true)
    case 3500 => PumpCase(0x08, 0xcf, true, true)
    case _ => PumpCase(0x00, 0xc7, true, true)
  }

  lemma PumpCaseReads(current: nat, b11: bv8, b15: bv8, b16: bv8)
    requires current in CURRENTS && b11 & 0xf9 == 0
    ensures var c := PumpTable(current);
      var b11' := (b11 | c.set11) & c.keep11;
      var b15' := if c.high15 then b15 | 0x80 else b15 & 0x7f;
      var b16' := if c.low16 then b16 | 0x01 else b16 & 0xfe;
      PumpCurrent(b11', b15', b16') == current && b11' & 0xc7 == b11
  {
  }

  /** The steps each case of the table leaves in byte 11. */
  function PumpSteps(current: nat): nat
    requires current in CURRENTS
  {
    match current
    case 125 => 1
    case 250 => 1
    case 375 => 1
    case 500 => 1
    case 625 => 5
    case 750 => 6
    case 875 => 7
    case 1000 => 8
    case 1125 => 3
    case 1250 => 5
    case 1500 => 3
    case 1750 => 7
    case 1875 => 5
    case 2000 => 8
    case 2250 => 6
    case 2500 => 5
    case 2625 => 7
    case 3000 => 8
    case 3500 => 7
    case _ => 8
  }

  lemma PumpCaseSteps(current: nat, b11: bv8)
    requires current in CURRENTS && b11 & 0xf9 == 0
    ensures var c := PumpTable(current); 8 - ((((b11 | c.set11) & c.keep11) >> 3) & 7) as nat == PumpSteps(current)
  {
  }

  lemma StepsArePlain(current: nat)
    requires current in CURRENTS && current !in {250, 375, 500, 1500}
    ensures forall n :: 0 <= PumpSteps(current) < n <= 8 ==> !StepsDivide(n, current)
  {
  }

  lemma KeepsLowBits(b11: bv8, b15: bv8, b16: bv8)
    ensures b11 & 0xf9 == 0 ==> b11 & 0xc7 == b11
    ensures (b15 | 0x80) & 0x7f == b15 & 0x7f == (b15 & 0x7f) & 0x7f
    ensures (b16 | 0x01) & 0xfe == b16 & 0xfe == (b16 & 0xfe) & 0xfe
  {
  }

  lemma ResistorKept(b11: bv8, b11': bv8)
    requires b11' & 0xc7 == b11
    ensures LoopResistor(b11') == LoopResistor(b11)
  {
  }

  lemma CurrentIsPlain(current: nat, b11: bv8, b15: bv8, b16: bv8)
    requires current in CURRENTS && PumpCurrent(b11, b15, b16) == current
    requires 8 - ((b11 >> 3) & 7) as nat == PumpSteps(current)
    ensures CurrentPlain(b11, b15, b16)
  {
    hide PumpCurrent, StepsDivide;
    if current !in {250, 375, 500, 1500} { StepsArePlain(current); }
  }

  lemma NothingElse(b11: bv8, b11': bv8)
    requires b11 & 0xf9 == 0 && b11' & 0xc7 == b11
    ensures b11' & 0xc1 == 0
  {
  }

  /** Table 3, on bytes 11, 15 and 16; what table 4 put into byte 11 stays readable. */
  method EncodeCurrent(b11: bv8, b15: bv8, b16: bv8, current: nat)
    returns (ok: bool, b11': bv8, b15': bv8, b16': bv8)
    requires b11 & 0xf9 == 0
    ensures ok <==> current in CURRENTS
    ensures ok ==> PumpCurrent(b11', b15', b16') == current && CurrentPlain(b11', b15', b16') && b11' & 0xc1 == 0
    ensures LoopResistor(b11') == LoopResistor(b11)
    ensures b15' & 0x7f == b15 & 0x7f && b16' & 0xfe == b16 & 0xfe
  {
    hide PumpCurrent, LoopResistor, PumpTable, CurrentPlain, CURRENTS;
    b11', b15', b16' := b11, b15, b16;
    if current !in CURRENTS {
      return false, b11, b15, b16;
    }
    var c := PumpTable(current);
    PumpCaseReads(current, b11, b15, b16);
    KeepsLowBits(b11, b15, b16);
    b11' := b11' | c.set11;
    b11' := b11' & c.keep11;
    b15' := if c.high15 then b15' | 0x80 else b15' & 0x7f;
    b16' := if c.low16 then b16' | 0x01 else b16' & 0xfe;
    ResistorKept(b11, b11');
    PumpCaseSteps(current, b11);
    CurrentIsPlain(current, b11', b15', b16');
    NothingElse(b11, b11');
    ok := true;
  }

  /** Bit 7 of byte 11, which belongs to table 5, is none of tables 3 and 4. */
  lemma Byte11Separate(b11: bv8, b11': bv8, b15: bv8, b16: bv8)
    requires b11' & 0x7f == b11 & 0x7f
    ensures LoopResistor(b11') == LoopResistor(b11)
    ensures PumpCurrent(b11', b15, b16) == PumpCurrent(b11, b15, b16)
    ensures CurrentPlain(b11', b15, b16) == CurrentPlain(b11, b15, b16)
    ensures b11' & 0x41 == b11 & 0x41
  {
    assert (b11' >> 3) & 7 == (b11 >> 3) & 7;
  }

  // ---------------------------------------------------------------- table 5

  /**
   * The first position of the encoder's loop at which the formula, with y outside and z
   * inside, gives the divider; or none, when the loop runs out.
   */
  method FindForm(od: nat) returns (found: bool, x: nat, y: nat, z: nat)
    ensures found ==> Form(od, x, y, z) && forall i, y', z' :: 0 <= i < x ==> !Form(od, i, y', z')
    ensures !found ==> forall i, y', z' :: !Form(od, i, y', z')
  {
    x := 0;
    while x < 512
      invariant x <= 512
      invariant forall i, y', z' :: 0 <= i < x ==> !Form(od, i, y', z')
    {
      y := 0;
      while y < 2
        invariant y <= 2
        invariant forall y', z' :: 0 <= y' < y ==> !Form(od, x, y', z')
      {
        z := 0;
        while z < 4
          invariant z <= 4
          invariant forall z' :: 0 <= z' < z ==> !Form(od, x, y, z')
        {
          if od == ((x + 3) * 2 + y) * Scale(z) {
            return true, x, y, z;
          }
          z := z + 1;
        }
        y := y + 1;
      }
      x := x + 1;
    }
    found := false;
    y, z := 0, 0;
  }

  /** What each case of the loop keeps and sets in byte 12. */
  function FormKeeps(y: nat, z: nat): bv8
    requires y < 2 && z < 4
  {
    match z
    case 0 => if y == 0 then 0xe7 else 0xe3
    case 1 => if y == 0 then 0xef else 0xeb
    case 2 => 0xf7
    case 3 => if y == 0 then 0xff else 0xfb
  }

  function FormSets(y: nat, z: nat): bv8
    requires y < 2 && z < 4
  {
    match z
    case 0 => if y == 0 then 0x04 else 0x00
    case 1 => if y == 0 then 0x0c else 0x08
    case 2 => if y == 0 then 0x14 else 0x10
    case 3 => if y == 0 then 0x1c else 0x18
  }

  /** Byte 12 as the loop leaves it, with the top of X in its upper three bits. */
  function FormByte12(c: bv8, keeps: bv8, sets: bv8): bv8 {
    (((c & keeps) | sets) & 0xfe) | 0x02
  }

  /** The five low bits of byte 12, which tell the chip the form's Y and Z. */
  function FormMark(y: nat, z: nat): bv8
    requires y < 2 && z < 4
  {
    match z
    case 0 => if y == 0 then 0x06 else 0x02
    case 1 => if y == 0 then 0x0e else 0x0a
    case 2 => if y == 0 then 0x16 else 0x12
    case 3 => if y == 0 then 0x1e else 0x1a
  }

  lemma MarksEven(c: bv8)
    ensures FormByte12(c & 0xe0, 0xe7, 0x04) == (c & 0xe0) | 0x06
    ensures FormByte12(c & 0xe0, 0xef, 0x0c) == (c & 0xe0) | 0x0e
    ensures FormByte12(c & 0xe0, 0xf7, 0x14) == (c & 0xe0) | 0x16
    ensures FormByte12(c & 0xe0, 0xff, 0x1c) == (c & 0xe0) | 0x1e
  {
  }

  lemma MarksOdd(c: bv8)
    ensures FormByte12(c & 0xe0, 0xe3, 0x00) == (c & 0xe0) | 0x02
    ensures FormByte12(c & 0xe0, 0xeb, 0x08) == (c & 0xe0) | 0x0a
    ensures FormByte12(c & 0xe0, 0xf7, 0x10) == (c & 0xe0) | 0x12
    ensures FormByte12(c & 0xe0, 0xfb, 0x18) == (c & 0xe0) | 0x1a
  {
  }

  lemma Marks(c: bv8, y: nat, z: nat)
    requires y < 2 && z < 4
    ensures FormByte12(c & 0xe0, FormKeeps(y, z), FormSets(y, z)) == (c & 0xe0) | FormMark(y, z)
  {
    hide FormByte12;
    MarksEven(c);
    MarksOdd(c);
  }

  lemma MarkBits(c: bv8, m: bv8)
    ensures ((c & 0xe0) | (m & 0x1f)) & 3 == m & 3
    ensures ((c & 0xe0) | (m & 0x1f)) & 4 == m & 4
    ensures (((c & 0xe0) | (m & 0x1f)) >> 3) & 3 == (m >> 3) & 3
    ensures ((c & 0xe0) | (m & 0x1f)) >> 5 == c >> 5
  {
  }

  lemma MarkReads(y: nat, z: nat)
    requires y < 2 && z < 4
    ensures FormMark(y, z) & 0x1f == FormMark(y, z)
    ensures FormMark(y, z) & 3 == 2
    ensures FormMark(y, z) & 4 == 0 <==> y == 1
    ensures ((FormMark(y, z) >> 3) & 3) as nat == z
  {
  }

  lemma NineBits(w: bv16, b13: bv8)
    ensures ((w << 5) & 0xff) as bv8 & 0xe0 == ((w << 5) & 0xff) as bv8
    ensures (((((w << 5) & 0xff) as bv8) >> 5) as bv16) |
        ((((b13 & 0xc0) | ((((w & 0x1ff) << 5) >> 8) & 0xff) as bv8) & 0x3f) as bv16 << 3) == w & 0x1ff
  {
  }

  lemma NineBitsOnly(w: bv16, b13: bv8)
    requires w < 512 && b13 & 0x3f == 0
    ensures w & 0x1ff == w
    ensures b13 & 0xc0 == b13
  {
  }

  lemma FormBits(w: bv16, y: nat, z: nat, b13: bv8)
    requires w < 512 && y < 2 && z < 4 && b13 & 0x3f == 0
    ensures var t := w << 5;
      var b12 := (((((t & 0xff) as bv8) & FormKeeps(y, z)) | FormSets(y, z)) & 0xfe) | 0x02;
      var b13' := b13 | ((t >> 8) & 0xff) as bv8;
      && b12 & 3 == 2
      && (b12 & 4 == 0 <==> y == 1)
      && ((b12 >> 3) & 3) as nat == z
      && ((b12 >> 5) as bv16) | (((b13' & 0x3f) as bv16) << 3) == w
  {
    hide FormKeeps, FormSets, FormMark;
    var c := ((w << 5) & 0xff) as bv8;
    Marks(c, y, z);
    MarkReads(y, z);
    MarkBits(c, FormMark(y, z));
    NineBits(w, b13);
    NineBitsOnly(w, b13);
  }

  predicate RepresentsNine(w: bv16, n: nat) {
    w as nat == n && w < 512
  }

  lemma WordBelow512(w: bv16)
    requires w as nat < 512
    ensures w < 512
  {
  }

  function WordOfNine(n: nat): (w: bv16)
    requires n < 512
    ensures RepresentsNine(w, n)
  {
    Words.Fits16(n);
    WordBelow512(n as bv16);
    n as bv16
  }

  lemma OrLeaves(b: bv8, c: bv8)
    requires b == 0
    ensures b | c == c
  {
  }

  lemma HighBits(b11: bv8, b13: bv8, w: bv16)
    requires w < 512
    ensures (b11 | 0x80) & 0x80 != 0 && (b11 | 0x80) & 0x7f == b11 & 0x7f
    ensures (b13 | (((w << 5) >> 8) & 0xff) as bv8) & 0xc0 == b13 & 0xc0
  {
  }

  /** The chip reads the formula's divider back. */
  lemma FormReads(od: nat, x: nat, y: nat, z: nat, w: bv16, b11: bv8, b12: bv8, b13: bv8)
    requires Form(od, x, y, z) && RepresentsNine(w, x) && b12 == 0 && b13 & 0x3f == 0
    ensures var t := w << 5;
      var b12' := ((((b12 | (t & 0xff) as bv8) & FormKeeps(y, z)) | FormSets(y, z)) & 0xfe) | 0x02;
      var b13' := b13 | ((t >> 8) & 0xff) as bv8;
      && OutputDivider1(b11 | 0x80, b12', b13') == od && b13' & 0xc0 == b13 & 0xc0
      && FormX(b12', b13') == x && b12' & 3 == 2 && (b11 | 0x80) & 0x80 != 0
  {
    hide FormKeeps, FormSets;
    FormBits(w, y, z, b13);
    OrLeaves(b12, (((w << 5) & 0xff) as bv8));
    HighBits(b11, b13, w);
  }

  /** The dividers the table lists one by one: byte 12, and whether bit 7 of byte 11 is set. */
  function ListedBits(od: nat): (bv8, bool) {
    match od
    case 2 => (0x00, false)
    case 3 => (0x00, true)
    case 4 => (0x04, false)
    case 5 => (0x01, false)
    case 6 => (0x04, true)
    case 7 => (0x01, true)
    case 11 => (0x09, true)
    case 9 => (0x05, true)
    case 13 => (0x0d, true)
    case _ => (0xff, false)
  }

  lemma ListedReads(od: nat, b11: bv8, b13: bv8)
    requires Listed(od)
    ensures var (b12, high) := ListedBits(od);
      OutputDivider1(if high then b11 | 0x80 else b11 & 0x7f, b12, b13) == od
  {
  }

  lemma ListedIsPlain(od: nat, b11: bv8, b13: bv8)
    requires Listed(od)
    ensures var (b12, high) := ListedBits(od);
      OutputPlain(if high then b11 | 0x80 else b11 & 0x7f, b12, b13 & 0xc0)
  {
  }

  lemma ByteBelow32(b: bv8)
    requires b as nat < 32
    ensures b < 32
  {
  }

  lemma ComplementedFive(b: bv8, b11: bv8)
    requires b < 32
    ensures var b12 := (((!b << 2) & 0x7f) & 0xfe) | 0x02;
      b12 & 3 == 2 && !(b12 >> 2) & 0x1f == b && (b11 & 0x7f) & 0x80 == 0
  {
  }

  lemma ComplementedLayout(b: bv8, b11: bv8, b13: bv8)
    ensures ((((!b << 2) & 0x7f) & 0xfe) | 0x02) & 0x80 == 0
    ensures ((((!b << 2) & 0x7f) & 0xfe) | 0x02) & 3 == 2
    ensures (b11 & 0x7f) & 0x80 == 0
    ensures (b13 & 0xc0) & 0x3f == 0
  {
  }

  lemma ComplementReads(b: bv8, n: nat, b11: bv8, b13: bv8)
    requires b as nat == n && 2 <= n <= 31
    ensures OutputDivider1(b11 & 0x7f, (((!b << 2) & 0x7f) & 0xfe) | 0x02, b13) == 6 + n
    ensures !Listed(6 + n) ==> OutputPlain(b11 & 0x7f, (((!b << 2) & 0x7f) & 0xfe) | 0x02, b13 & 0xc0)
  {
    ByteBelow32(b);
    ComplementedFive(b, b11);
    ComplementedLayout(b, b11, b13);
  }

  lemma LowSevenBits(b11: bv8, b13: bv8)
    ensures (b11 & 0x7f) & 0x7f == b11 & 0x7f && (b11 | 0x80) & 0x7f == b11 & 0x7f
    ensures (b13 & 0xc0) & 0xc0 == b13 & 0xc0
  {
  }

  lemma ZeroX(b13: bv8)
    requires b13 & 0x3f == 0
    ensures (((0x02 as bv8) >> 5) as bv16) | (((b13 & 0x3f) as bv16) << 3) == 0
  {
  }

  /** A divider the loop does not find leaves the bits of X, Y and Z at zero, which read as 7. */
  lemma NotFoundReads(b11: bv8, b12: bv8, b13: bv8)
    requires b12 == 0 && b13 & 0x3f == 0
    ensures OutputDivider1(b11 | 0x80, (b12 & 0xfe) | 0x02, b13) == 7
    ensures (b11 | 0x80) & 0x7f == b11 & 0x7f
  {
    ZeroX(b13);
  }

  /** The dividers the table lists. */
  method EncodeListed(b11: bv8, b12: bv8, b13: bv8, od: nat) returns (b11': bv8, b12': bv8, b13': bv8)
    requires Listed(od) && b12 == 0
    ensures OutputDivider1(b11', b12', b13') == od && OutputPlain(b11', b12', b13')
    ensures b11' & 0x7f == b11 & 0x7f && b13' & 0xc0 == b13 & 0xc0
  {
    hide OutputDivider1, ListedBits, OutputPlain;
    LowSevenBits(b11, b13);
    ListedIsPlain(od, b11, b13);
    ListedReads(od, b11, b13 & 0xc0);
    var (bits, high) := ListedBits(od);
    OrLeaves(b12, bits);
    b11' := if high then b11 | 0x80 else b11 & 0x7f;
    b12' := b12 | bits;
    b13' := b13 & 0xc0;
  }

  /** The other dividers up to 37, complemented. */
  method EncodeComplement(b11: bv8, b12: bv8, b13: bv8, od: nat) returns (b11': bv8, b12': bv8, b13': bv8)
    requires 8 <= od <= 37 && !Listed(od)
    ensures OutputDivider1(b11', b12', b13') == od && OutputPlain(b11', b12', b13')
    ensures b11' & 0x7f == b11 & 0x7f && b13' & 0xc0 == b13 & 0xc0
  {
    hide OutputDivider1, OutputPlain;
    LowSevenBits(b11, b13);
    Words.Fits8(od - 6);
    var temp := (od - 6) as bv8;
    ComplementReads(temp, od - 6, b11, b13 & 0xc0);
    ComplementReads(temp, od - 6, b11, b13);
    temp := !temp;
    temp := temp << 2;
    b12' := temp & 0x7f;
    b11' := b11 & 0x7f;
    b12' := b12' & 0xfe;
    b12' := b12' | 0x02;
    b13' := b13 & 0xc0;
  }

  lemma FormBounds(od: nat, x: nat, y: nat, z: nat)
    requires Form(od, x, y, z)
    ensures x < 512 && y < 2 && z < 4
  {
  }

  lemma FormIsPlain(od: nat, b11: bv8, b12: bv8, b13: bv8, x: nat)
    requires od >= 38 && OutputDivider1(b11, b12, b13) == od && FormX(b12, b13) == x
    requires b12 & 3 == 2 && b11 & 0x80 != 0
    requires forall i, y, z :: 0 <= i < x ==> !Form(od, i, y, z)
    ensures OutputPlain(b11, b12, b13)
  {
    hide OutputDivider1, FormX, Form;
  }

  /** The loop of the general case: the divider reads back if it is on the grid, and as 7 otherwise. */
  method EncodeByFormula(b11: bv8, b12: bv8, b13: bv8, od: nat) returns (b11': bv8, b12': bv8, b13': bv8)
    requires od >= 38 && b12 == 0 && b13 & 0x3f == 0
    ensures OutputDivider1(b11', b12', b13') == if OnGrid(od) then od else 7
    ensures OnGrid(od) ==> OutputPlain(b11', b12', b13')
    ensures b11' & 0x7f == b11 & 0x7f && b13' & 0xc0 == b13 & 0xc0
  {
    hide OutputDivider1, OutputPlain, FormX, FormKeeps, FormSets, OnGrid, Form;
    b11', b12', b13' := b11, b12, b13;
    LowSevenBits(b11, b13);
    var found, x, y, z := FindForm(od);
    if found {
      FormBounds(od, x, y, z);
      FormIsOnGrid(od, x, y, z);
      var temp := WordOfNine(x);
      FormReads(od, x, y, z, temp, b11, b12, b13);
      temp := temp << 5;
      b12' := b12' | (temp & 0xff) as bv8;
      b13' := b13' | ((temp >> 8) & 0xff) as bv8;
      b12' := b12' & FormKeeps(y, z);
      b12' := b12' | FormSets(y, z);
    } else {
      if OnGrid(od) { GridHasForm(od); }
      NotFoundReads(b11, b12, b13);
    }
    b11' := b11' | 0x80;
    b12' := b12' & 0xfe;
    b12' := b12' | 0x02;
    if found { FormIsPlain(od, b11', b12', b13', x); }
  }

  /**
   * Table 5, on bytes 11 to 13.  They read back the divider exactly when it is one of
   * those the search visits.
   */
  method EncodeOutputDivider(b11: bv8, b12: bv8, b13: bv8, od: nat)
    returns (ok: bool, b11': bv8, b12': bv8, b13': bv8)
    requires b12 == 0 && b13 & 0x3f == 0
    ensures ok <==> 2 <= od <= LARGEST
    ensures ok ==> (OutputDivider1(b11', b12', b13') == od <==> OnGrid(od))
    ensures ok && OnGrid(od) ==> OutputPlain(b11', b12', b13')
    ensures b11' & 0x7f == b11 & 0x7f && b13' & 0xc0 == b13 & 0xc0
  {
    hide OutputDivider1, OutputPlain;
    ok, b11', b12', b13' := true, b11, b12, b13;
    if !(2 <= od <= LARGEST) {
      ok := false;
    } else if Listed(od) {
      b11', b12', b13' := EncodeListed(b11, b12, b13, od);
    } else if od <= 37 {
      b11', b12', b13' := EncodeComplement(b11, b12, b13, od);
    } else {
      b11', b12', b13' := EncodeByFormula(b11, b12, b13, od);
    }
  }

  // ---------------------------------------------------------------- the whole word

  /** The bits no table touches: outputs (CLK1 alone on), power, clock source (the crystal or not). */
  predicate FixedBits(word: seq<bv8>, crystal: bool)
    requires |word| == 20
  {
    && word[19] == 0xff && word[18] == 0xff && word[17] == 0xff
    && word[16] & 0xfe == 0 && word[15] & 0x7f == (if crystal then 0x04 else 0x00)
    && word[14] == 0x01 && word[13] & 0xc0 == 0x40 && word[11] & 0x41 == 0
    && forall k :: 3 <= k <= 10 ==> word[k] == 0
  }

  /** Of the codes for each field the word has the one described above. */
  ghost predicate Plain(t: TableBytes) {
    InputPlain(t.b0, t.b1) && CurrentPlain(t.b11, t.b15, t.b16) && OutputPlain(t.b11, t.b12, t.b13)
  }

  /** Fields each table has bits for. */
  predicate InTables(f: Fields) {
    && 1 <= f.r <= 2055 && 12 <= f.v <= 2055 && 2 <= f.od <= LARGEST
    && f.resistor in {64000, 52000, 16000, 4000} && f.current in CURRENTS
  }

  /** The word before the tables: outputs set up, CLK1 enabled, everything else zero. */
  method ClearWord(progdata: array<bv8>)
    requires progdata.Length == 20
    modifies progdata
    ensures forall k :: 0 <= k <= 12 || k == 16 ==> progdata[k] == 0
    ensures progdata[13] == 0x40 && progdata[14] == 0x01 && progdata[15] == 0x04
    ensures forall k :: 17 <= k <= 19 ==> progdata[k] == 0xff
  {
    for k := 0 to 20
      invariant forall j :: 0 <= j < k ==> progdata[j] == if j >= 17 then 0xff else if j == 15 then 0x04 else 0x00
    {
      progdata[k] := if k >= 17 then 0xff else if k == 15 then 0x04 else 0x00;
    }
    progdata[14] := progdata[14] | 0x01;
    progdata[13] := progdata[13] | 0x40;
  }

  /** What the tables leave alone in the bytes they share with the fixed bits. */
  predicate FixedTableBits(t: TableBytes) {
    t.b16 & 0xfe == 0 && t.b15 & 0x7f == 0x04 && t.b13 & 0xc0 == 0x40 && t.b11 & 0x41 == 0
  }

  lemma StartBits()
    ensures (0x04 as bv8) & 0x7f == 0x04 && (0x40 as bv8) & 0x3f == 0 && (0x40 as bv8) & 0xc0 == 0x40
    ensures (0 as bv8) & 0xfe == 0
  {
  }

  lemma TwoOfThree(b: bv8)
    ensures b & 0xc1 == 0 ==> b & 0x41 == 0
  {
  }

  /**
   * The five tables, one after the other, on the bytes ClearWord leaves.  The result is
   * 0, or the number of the error return of the table that has no bits for its field.
   * The chip reads back the very fields, although the tables share bytes 1 and 11.
   */
  method EncodeTables(f: Fields) returns (status: nat, t: TableBytes)
    ensures status in {0, 3, 4, 5, 6, 7} && (status == 0 <==> InTables(f))
    ensures status == 0 ==> FixedTableBits(t) && (Read(t) == f <==> OnGrid(f.od)) && (OnGrid(f.od) ==> Plain(t))
  {
    hide InputDivider, VcoDivider, LoopResistor, PumpCurrent, OutputDivider1, OnGrid, CURRENTS;
    hide InputPlain, CurrentPlain, OutputPlain;
    t := TableBytes(0, 0, 0, 0, 0, 0x40, 0x04, 0);
    StartBits();
    var ok, b0, b1 := EncodeInputDivider(t.b0, t.b1, f.r);
    if !ok { return 3, t; }
    var b1', b2;
    ok, b1', b2 := EncodeVcoDivider(b1, t.b2, f.v);
    if !ok { return 4, t; }
    var r11;
    ok, r11 := EncodeResistor(t.b11, f.resistor);
    if !ok { return 5, t; }
    var c11, b15, b16;
    ok, c11, b15, b16 := EncodeCurrent(r11, t.b15, t.b16, f.current);
    if !ok { return 6, t; }
    var b11, b12, b13;
    ok, b11, b12, b13 := EncodeOutputDivider(c11, t.b12, t.b13, f.od);
    if !ok { return 7, t; }
    status, t := 0, TableBytes(b0, b1', b2, b11, b12, b13, b15, b16);
    Byte11Separate(c11, b11, b15, b16);
    TwoOfThree(c11);
  }

  lemma WordIsFixed(word: seq<bv8>)
    requires |word| == 20 && FixedTableBits(TableBytesOf(word))
    requires (forall k :: 3 <= k <= 10 ==> word[k] == 0) && word[14] == 0x01
    requires forall k :: 17 <= k <= 19 ==> word[k] == 0xff
    ensures FixedBits(word, true)
  {
  }

  /** The encoding half of the routine: the tables written into a cleared word. */
  method EncodeWord(progdata: array<bv8>, f: Fields) returns (status: nat)
    requires progdata.Length == 20
    modifies progdata
    ensures status in {0, 3, 4, 5, 6, 7} && (status == 0 <==> InTables(f))
    ensures status == 0 ==> FixedBits(progdata[..], true) && (Decode(progdata[..]) == f <==> OnGrid(f.od))
    ensures status == 0 && OnGrid(f.od) ==> Plain(TableBytesOf(progdata[..]))
  {
    hide Read, OnGrid, InTables, FixedTableBits, FixedBits, Plain;
    ClearWord(progdata);
    var t;
    status, t := EncodeTables(f);
    if status == 0 {
      progdata[0], progdata[1], progdata[2] := t.b0, t.b1, t.b2;
      progdata[11], progdata[12], progdata[13] := t.b11, t.b12, t.b13;
      progdata[15], progdata[16] := t.b15, t.b16;
      assert TableBytesOf(progdata[..]) == t;
      WordIsFixed(progdata[..]);
    }
  }

  // ---------------------------------------------------------------- the word is determined by its fields

  lemma KindBits(b0: bv8)
    ensures b0 & 3 == 0 || b0 & 3 == 1 || b0 & 3 == 2 || b0 & 3 == 3
    ensures b0 & 0xfc == 0 && b0 & 3 == 0 ==> b0 == 0
    ensures b0 & 0xfc == 0 && b0 & 3 == 1 ==> b0 == 1
    ensures (!(b0 >> 2) & 0x0f) as nat <= 15
  {
  }

  lemma InputKind(b0: bv8, b1: bv8)
    requires InputPlain(b0, b1)
    ensures b0 & 3 == 0 ==> b0 == 0 && InputDivider(b0, b1) == 1
    ensures b0 & 3 == 1 ==> b0 == 1 && InputDivider(b0, b1) == 2
    ensures b0 & 3 == 2 ==> 3 <= InputDivider(b0, b1) <= 17
    ensures b0 & 3 == 3 ==> 18 <= InputDivider(b0, b1)
    ensures b0 & 3 != 3 ==> b1 & 0x1f == 0
  {
    KindBits(b0);
  }

  lemma ShortInputUnique(b0: bv8, b0': bv8)
    requires b0 & 0xc0 == 0 && b0' & 0xc0 == 0 && b0 & 3 == 2 && b0' & 3 == 2
    requires !(b0 >> 2) & 0x0f == !(b0' >> 2) & 0x0f
    ensures b0 == b0'
  {
  }

  lemma LongInputUnique(b0: bv8, b1: bv8, b0': bv8, b1': bv8)
    requires b0 & 3 == 3 && b0' & 3 == 3
    requires ((b0 >> 2) as bv16) | (((b1 & 0x1f) as bv16) << 6) == ((b0' >> 2) as bv16) | (((b1' & 0x1f) as bv16) << 6)
    ensures b0 == b0' && b1 & 0x1f == b1' & 0x1f
  {
  }

  lemma InputUnique(b0: bv8, b1: bv8, b0': bv8, b1': bv8)
    requires InputPlain(b0, b1) && InputPlain(b0', b1') && InputDivider(b0, b1) == InputDivider(b0', b1')
    ensures b0 == b0' && b1 & 0x1f == b1' & 0x1f
  {
    InputKind(b0, b1);
    InputKind(b0', b1');
    KindBits(b0);
    KindBits(b0');
    if b0 & 3 == 2 {
      Words.Same8(!(b0 >> 2) & 0x0f, !(b0' >> 2) & 0x0f);
      ShortInputUnique(b0, b0');
    } else if b0 & 3 == 3 {
      Words.Same16(((b0 >> 2) as bv16) | (((b1 & 0x1f) as bv16) << 6),
                   ((b0' >> 2) as bv16) | (((b1' & 0x1f) as bv16) << 6));
      LongInputUnique(b0, b1, b0', b1');
    }
  }

  lemma VcoBits(b1: bv8, b2: bv8, b1': bv8, b2': bv8)
    requires ((b1 >> 5) as bv16) | ((b2 as bv16) << 3) == ((b1' >> 5) as bv16) | ((b2' as bv16) << 3)
    requires b1 & 0x1f == b1' & 0x1f
    ensures b1 == b1' && b2 == b2'
  {
  }

  lemma VcoUnique(b1: bv8, b2: bv8, b1': bv8, b2': bv8)
    requires VcoDivider(b1, b2) == VcoDivider(b1', b2') && b1 & 0x1f == b1' & 0x1f
    ensures b1 == b1' && b2 == b2'
  {
    Words.Same16(((b1 >> 5) as bv16) | ((b2 as bv16) << 3), ((b1' >> 5) as bv16) | ((b2' as bv16) << 3));
    VcoBits(b1, b2, b1', b2');
  }

  /** The multiplier of a current, from bytes 15 and 16. */
  function Multiplier(b15: bv8, b16: bv8): nat {
    1 + (b15 >> 7) as nat + 2 * (b16 & 1) as nat
  }

  lemma OneBit(b: bv8)
    ensures (b >> 7) as nat <= 1
    ensures (b & 1) as nat <= 1
  {
  }

  lemma MultiplierUnique(b15: bv8, b16: bv8, b15': bv8, b16': bv8)
    requires Multiplier(b15, b16) == Multiplier(b15', b16')
    ensures b15 >> 7 == b15' >> 7 && b16 & 1 == b16' & 1
  {
    OneBit(b15);
    OneBit(b15');
    OneBit(b16);
    OneBit(b16');
    Words.Same8(b15 >> 7, b15' >> 7);
    Words.Same8(b16 & 1, b16' & 1);
  }

  lemma ThreeBits(b: bv8)
    ensures ((b >> 3) & 7) as nat <= 7
  {
  }

  /** A current is a number of steps times a multiplier of at most four. */
  lemma CurrentIsProduct(b11: bv8, b15: bv8, b16: bv8)
    ensures var n, k := 8 - ((b11 >> 3) & 7) as nat, Multiplier(b15, b16);
      1 <= n <= 8 && 1 <= k <= 4 && PumpCurrent(b11, b15, b16) == 125 * n * k
  {
    ThreeBits(b11);
    OneBit(b15);
    OneBit(b16);
  }

  lemma ProductDivides(n: nat, k: nat)
    requires 1 <= k <= 4
    ensures StepsDivide(n, 125 * n * k)
  {
  }

  lemma ProductCancels(n: nat, k: nat, k': nat)
    requires n > 0 && 125 * n * k == 125 * n * k'
    ensures k == k'
  {
    assert 125 * n * k == k * (125 * n) && 125 * n * k' == k' * (125 * n);
    if k < k' {
      Nonlinear.StrictlyMonotone(k, k', 125 * n);
    } else if k' < k {
      Nonlinear.StrictlyMonotone(k', k, 125 * n);
    }
  }

  lemma CurrentUnique(b11: bv8, b15: bv8, b16: bv8, b11': bv8, b15': bv8, b16': bv8)
    requires CurrentPlain(b11, b15, b16) && CurrentPlain(b11', b15', b16')
    requires PumpCurrent(b11, b15, b16) == PumpCurrent(b11', b15', b16')
    ensures (b11 >> 3) & 7 == (b11' >> 3) & 7
    ensures b15 >> 7 == b15' >> 7 && b16 & 1 == b16' & 1
  {
    hide StepsDivide, PumpCurrent, Multiplier;
    CurrentIsProduct(b11, b15, b16);
    CurrentIsProduct(b11', b15', b16');
    var n, n' := 8 - ((b11 >> 3) & 7) as nat, 8 - ((b11' >> 3) & 7) as nat;
    var k, k' := Multiplier(b15, b16), Multiplier(b15', b16');
    ProductDivides(n, k);
    ProductDivides(n', k');
    assert n == n';
    ProductCancels(n, k, k');
    Words.Same8((b11 >> 3) & 7, (b11' >> 3) & 7);
    MultiplierUnique(b15, b16, b15', b16');
  }

  lemma TwoBits(b: bv8)
    ensures b & 0x06 == 0 || b & 0x06 == 2 || b & 0x06 == 4 || b & 0x06 == 6
  {
  }

  lemma ResistorUnique(b11: bv8, b11': bv8)
    requires LoopResistor(b11) == LoopResistor(b11')
    ensures b11 & 0x06 == b11' & 0x06
  {
    TwoBits(b11);
    TwoBits(b11');
  }

  lemma FiveBits(b12: bv8)
    ensures (!(b12 >> 2) & 0x1f) as nat <= 31
  {
  }

  /** The three layouts of table 5 cover different dividers. */
  lemma OutputKind(b11: bv8, b12: bv8, b13: bv8)
    requires OutputPlain(b11, b12, b13)
    ensures var od := OutputDivider1(b11, b12, b13);
      && (b12 & 3 != 2 ==> Listed(od))
      && (b12 & 3 == 2 && b11 & 0x80 == 0 ==> od <= 37 && !Listed(od))
      && (b12 & 3 == 2 && b11 & 0x80 != 0 ==> od >= 38)
  {
    FiveBits(b12);
  }

  lemma ListedUnique(b11: bv8, b12: bv8, b13: bv8, b11': bv8, b12': bv8, b13': bv8)
    requires OutputPlain(b11, b12, b13) && OutputPlain(b11', b12', b13')
    requires b12 & 3 != 2 && b12' & 3 != 2 && OutputDivider1(b11, b12, b13) == OutputDivider1(b11', b12', b13')
    ensures (b11 & 0x80 != 0 <==> b11' & 0x80 != 0) && b12 == b12' && b13 & 0x3f == 0 && b13' & 0x3f == 0
  {
  }

  lemma ComplementBits(b12: bv8, b12': bv8)
    requires b12 & 3 == 2 && b12' & 3 == 2 && b12 & 0x80 == 0 && b12' & 0x80 == 0
    requires !(b12 >> 2) & 0x1f == !(b12' >> 2) & 0x1f
    ensures b12 == b12'
  {
  }

  lemma ComplementUnique(b11: bv8, b12: bv8, b13: bv8, b11': bv8, b12': bv8, b13': bv8)
    requires OutputPlain(b11, b12, b13) && OutputPlain(b11', b12', b13')
    requires b12 & 3 == 2 && b12' & 3 == 2 && b11 & 0x80 == 0 && b11' & 0x80 == 0
    requires OutputDivider1(b11, b12, b13) == OutputDivider1(b11', b12', b13')
    ensures b12 == b12' && b13 & 0x3f == 0 && b13' & 0x3f == 0
  {
    Words.Same8(!(b12 >> 2) & 0x1f, !(b12' >> 2) & 0x1f);
    ComplementBits(b12, b12');
  }

  /** For one X, a divider has at most one Y and Z. */
  lemma FormUnique(d: nat, x: nat, y: nat, z: nat, y': nat, z': nat)
    requires Form(d, x, y, z) && Form(d, x, y', z')
    ensures y == y' && z == z'
  {
  }

  /** The Y and Z of byte 12. */
  function FormY(b12: bv8): nat {
    if b12 & 4 == 0 then 1 else 0
  }

  function FormZ(b12: bv8): nat {
    ((b12 >> 3) & 3) as nat
  }

  lemma ZBits(b12: bv8)
    ensures ((b12 >> 3) & 3) as nat < 4
  {
  }

  lemma XBelow(b12: bv8, b13: bv8)
    ensures ((b12 >> 5) as bv16) | (((b13 & 0x3f) as bv16) << 3) < 512
  {
  }

  lemma NineBitsBelow(w: bv16)
    requires w < 512
    ensures w as nat < 512
  {
  }

  lemma XBits(w: bv16, b12: bv8, b13: bv8)
    requires w == ((b12 >> 5) as bv16) | (((b13 & 0x3f) as bv16) << 3)
    ensures w as nat < 512
  {
    XBelow(b12, b13);
    NineBitsBelow(w);
  }

  lemma FormFields(b11: bv8, b12: bv8, b13: bv8)
    requires b12 & 3 == 2 && b11 & 0x80 != 0
    ensures Form(OutputDivider1(b11, b12, b13), FormX(b12, b13), FormY(b12), FormZ(b12))
  {
    ZBits(b12);
    XBits(((b12 >> 5) as bv16) | (((b13 & 0x3f) as bv16) << 3), b12, b13);
  }

  lemma FormulaBits(b12: bv8, b13: bv8, b12': bv8, b13': bv8)
    requires ((b12 >> 5) as bv16) | (((b13 & 0x3f) as bv16) << 3)
      == ((b12' >> 5) as bv16) | (((b13' & 0x3f) as bv16) << 3)
    requires b12 & 3 == 2 && b12' & 3 == 2 && b12 & 4 == b12' & 4 && (b12 >> 3) & 3 == (b12' >> 3) & 3
    ensures b12 == b12' && b13 & 0x3f == b13' & 0x3f
  {
  }

  lemma FourthBit(b: bv8)
    ensures b & 4 == 0 || b & 4 == 4
  {
  }

  lemma LeastForm(b11: bv8, b12: bv8, b13: bv8)
    requires OutputPlain(b11, b12, b13) && b12 & 3 == 2 && b11 & 0x80 != 0
    ensures forall i: nat, y: nat, z: nat :: i < FormX(b12, b13) ==> !Form(OutputDivider1(b11, b12, b13), i, y, z)
  {
    hide OutputDivider1, Form, FormX;
  }

  lemma LeastFormUnique(od: nat, x: nat, y: nat, z: nat, x': nat, y': nat, z': nat)
    requires Form(od, x, y, z) && Form(od, x', y', z')
    requires forall i: nat, j: nat, k: nat :: i < x ==> !Form(od, i, j, k)
    requires forall i: nat, j: nat, k: nat :: i < x' ==> !Form(od, i, j, k)
    ensures x == x' && y == y' && z == z'
  {
    assert x == x' by { hide Form; }
    FormUnique(od, x, y, z, y', z');
  }

  lemma FormulaBitsUnique(b12: bv8, b13: bv8, b12': bv8, b13': bv8)
    requires b12 & 3 == 2 && b12' & 3 == 2
    requires FormX(b12, b13) == FormX(b12', b13') && FormY(b12) == FormY(b12') && FormZ(b12) == FormZ(b12')
    ensures b12 == b12' && b13 & 0x3f == b13' & 0x3f
  {
    Words.Same16(((b12 >> 5) as bv16) | (((b13 & 0x3f) as bv16) << 3),
                 ((b12' >> 5) as bv16) | (((b13' & 0x3f) as bv16) << 3));
    Words.Same8((b12 >> 3) & 3, (b12' >> 3) & 3);
    FourthBit(b12);
    FourthBit(b12');
    FormulaBits(b12, b13, b12', b13');
  }

  lemma FormulaUnique(b11: bv8, b12: bv8, b13: bv8, b11': bv8, b12': bv8, b13': bv8)
    requires OutputPlain(b11, b12, b13) && OutputPlain(b11', b12', b13')
    requires b12 & 3 == 2 && b12' & 3 == 2 && b11 & 0x80 != 0 && b11' & 0x80 != 0
    requires OutputDivider1(b11, b12, b13) == OutputDivider1(b11', b12', b13')
    ensures b12 == b12' && b13 & 0x3f == b13' & 0x3f
  {
    hide *;
    LeastForm(b11, b12, b13);
    LeastForm(b11', b12', b13');
    FormFields(b11, b12, b13);
    FormFields(b11', b12', b13');
    LeastFormUnique(OutputDivider1(b11, b12, b13), FormX(b12, b13), FormY(b12), FormZ(b12),
                    FormX(b12', b13'), FormY(b12'), FormZ(b12'));
    FormulaBitsUnique(b12, b13, b12', b13');
  }

  lemma OutputUnique(b11: bv8, b12: bv8, b13: bv8, b11': bv8, b12': bv8, b13': bv8)
    requires OutputPlain(b11, b12, b13) && OutputPlain(b11', b12', b13')
    requires OutputDivider1(b11, b12, b13) == OutputDivider1(b11', b12', b13')
    ensures (b11 & 0x80 != 0 <==> b11' & 0x80 != 0) && b12 == b12' && b13 & 0x3f == b13' & 0x3f
  {
    hide OutputDivider1, OutputPlain;
    OutputKind(b11, b12, b13);
    OutputKind(b11', b12', b13');
    if b12 & 3 != 2 {
      ListedUnique(b11, b12, b13, b11', b12', b13');
    } else if b11 & 0x80 == 0 {
      ComplementUnique(b11, b12, b13, b11', b12', b13');
    } else {
      FormulaUnique(b11, b12, b13, b11', b12', b13');
    }
  }

  /** What the bytes of the tables share with fixed bits, for either clock source. */
  predicate SameFixedBits(t: TableBytes, t': TableBytes) {
    && t.b11 & 0x41 == 0 && t'.b11 & 0x41 == 0 && t.b13 & 0xc0 == 0x40 && t'.b13 & 0xc0 == 0x40
    && t.b15 & 0x7f == t'.b15 & 0x7f && t.b16 & 0xfe == 0 && t'.b16 & 0xfe == 0
  }

  lemma DividersUnique(b0: bv8, b1: bv8, b2: bv8, b0': bv8, b1': bv8, b2': bv8)
    requires InputPlain(b0, b1) && InputPlain(b0', b1') && InputDivider(b0, b1) == InputDivider(b0', b1')
    requires VcoDivider(b1, b2) == VcoDivider(b1', b2')
    ensures b0 == b0' && b1 == b1' && b2 == b2'
  {
    hide InputDivider, VcoDivider, InputPlain;
    InputUnique(b0, b1, b0', b1');
    VcoUnique(b1, b2, b1', b2');
  }

  lemma Byte11Bits(b11: bv8, b11': bv8)
    requires b11 & 0x41 == 0 && b11' & 0x41 == 0 && b11 & 0x06 == b11' & 0x06
    requires (b11 >> 3) & 7 == (b11' >> 3) & 7 && (b11 & 0x80 != 0 <==> b11' & 0x80 != 0)
    ensures b11 == b11'
  {
  }

  lemma Byte11Unique(t: TableBytes, t': TableBytes)
    requires SameFixedBits(t, t') && (t.b11 & 0x80 != 0 <==> t'.b11 & 0x80 != 0)
    requires LoopResistor(t.b11) == LoopResistor(t'.b11) && (t.b11 >> 3) & 7 == (t'.b11 >> 3) & 7
    ensures t.b11 == t'.b11
  {
    hide LoopResistor;
    ResistorUnique(t.b11, t'.b11);
    Byte11Bits(t.b11, t'.b11);
  }

  lemma Byte13Bits(b13: bv8, b13': bv8)
    requires b13 & 0xc0 == 0x40 && b13' & 0xc0 == 0x40 && b13 & 0x3f == b13' & 0x3f
    ensures b13 == b13'
  {
  }

  lemma Byte13Unique(t: TableBytes, t': TableBytes)
    requires SameFixedBits(t, t') && t.b13 & 0x3f == t'.b13 & 0x3f
    ensures t.b13 == t'.b13
  {
    Byte13Bits(t.b13, t'.b13);
  }

  lemma Byte15Bits(b15: bv8, b15': bv8)
    requires b15 & 0x7f == b15' & 0x7f && b15 >> 7 == b15' >> 7
    ensures b15 == b15'
  {
  }

  lemma Byte16Bits(b16: bv8, b16': bv8)
    requires b16 & 0xfe == 0 && b16' & 0xfe == 0 && b16 & 1 == b16' & 1
    ensures b16 == b16'
  {
  }

  lemma HighBytesUnique(t: TableBytes, t': TableBytes)
    requires SameFixedBits(t, t') && t.b15 >> 7 == t'.b15 >> 7 && t.b16 & 1 == t'.b16 & 1
    ensures t.b15 == t'.b15 && t.b16 == t'.b16
  {
    Byte15Bits(t.b15, t'.b15);
    Byte16Bits(t.b16, t'.b16);
  }

  lemma FilterUnique(t: TableBytes, t': TableBytes)
    requires SameFixedBits(t, t') && CurrentPlain(t.b11, t.b15, t.b16) && CurrentPlain(t'.b11, t'.b15, t'.b16)
    requires OutputPlain(t.b11, t.b12, t.b13) && OutputPlain(t'.b11, t'.b12, t'.b13)
    requires OutputDivider1(t.b11, t.b12, t.b13) == OutputDivider1(t'.b11, t'.b12, t'.b13)
    requires LoopResistor(t.b11) == LoopResistor(t'.b11)
    requires PumpCurrent(t.b11, t.b15, t.b16) == PumpCurrent(t'.b11, t'.b15, t'.b16)
    ensures t.b11 == t'.b11 && t.b12 == t'.b12 && t.b13 == t'.b13 && t.b15 == t'.b15 && t.b16 == t'.b16
  {
    hide *;
    CurrentUnique(t.b11, t.b15, t.b16, t'.b11, t'.b15, t'.b16);
    OutputUnique(t.b11, t.b12, t.b13, t'.b11, t'.b12, t'.b13);
    Byte11Unique(t, t');
    Byte13Unique(t, t');
    HighBytesUnique(t, t');
  }

  lemma TablesUnique(t: TableBytes, t': TableBytes)
    requires Plain(t) && Plain(t') && SameFixedBits(t, t') && Read(t) == Read(t')
    ensures t == t'
  {
    hide InputDivider, VcoDivider, OutputDivider1, LoopResistor, PumpCurrent, InputPlain, CurrentPlain, OutputPlain;
    DividersUnique(t.b0, t.b1, t.b2, t'.b0, t'.b1, t'.b2);
    FilterUnique(t, t');
  }

  lemma SameTableBytes(word: seq<bv8>, word': seq<bv8>, k: nat)
    requires |word| == |word'| == 20 && TableBytesOf(word) == TableBytesOf(word')
    requires k in {0, 1, 2, 11, 12, 13, 15, 16}
      || (k in {14, 17, 18, 19} && word[k] == word'[k])
    ensures word[k] == word'[k]
  {
  }

  /**
   * There is one word for each set of fields and clock source: every bit of what the
   * encoder writes is determined.
   */
  lemma WordIsUnique(word: seq<bv8>, word': seq<bv8>, crystal: bool)
    requires |word| == |word'| == 20 && FixedBits(word, crystal) && FixedBits(word', crystal)
    requires Plain(TableBytesOf(word)) && Plain(TableBytesOf(word')) && Decode(word) == Decode(word')
    ensures word == word'
  {
    hide Read, Plain;
    TablesUnique(TableBytesOf(word), TableBytesOf(word'));
    forall k | 0 <= k < 20 ensures word[k] == word'[k] {
      if k <= 2 { SameTableBytes(word, word', k); }
      else if k >= 11 { SameTableBytes(word, word', k); }
    }
  }

  // ---------------------------------------------------------------- the word and the driver

  /** The driver sets or clears bit 2 of byte 15, the crystal, before it sends the word. */
  function WithCrystal(word: seq<bv8>, enable: bool): (word': seq<bv8>)
    requires |word| == 20
    ensures |word'| == 20
  {
    word[15 := if enable then word[15] | 0x04 else word[15] & 0xfb]
  }

  lemma CrystalBit(b15: bv8)
    ensures (b15 | 0x04) >> 7 == b15 >> 7 && (b15 & 0xfb) >> 7 == b15 >> 7
  {
  }

  /** A word as the encoder writes it, but for the clock source. */
  ghost predicate Complete(word: seq<bv8>, crystal: bool) {
    |word| == 20 && FixedBits(word, crystal) && Plain(TableBytesOf(word))
  }

  lemma CrystalBits(b15: bv8)
    ensures b15 & 0x7f == 0x04 ==> (b15 | 0x04) & 0x7f == 0x04
    ensures b15 & 0x7f == 0x04 ==> (b15 & 0xfb) & 0x7f == 0x00
  {
  }

  lemma SameCurrent(b11: bv8, b15: bv8, b15': bv8, b16: bv8)
    requires b15 >> 7 == b15' >> 7
    ensures CurrentPlain(b11, b15, b16) <==> CurrentPlain(b11, b15', b16)
  {
    hide StepsDivide;
  }

  /** The driver changes the clock source and nothing else. */
  lemma CrystalKeepsWord(word: seq<bv8>, enable: bool)
    requires Complete(word, true)
    ensures Complete(WithCrystal(word, enable), enable)
  {
    hide InputPlain, CurrentPlain, OutputPlain;
    CrystalBit(word[15]);
    CrystalBits(word[15]);
    SameCurrent(word[11], word[15], WithCrystal(word, enable)[15], word[16]);
  }

  /** No field has a bit there. */
  lemma CrystalIsNoField(word: seq<bv8>, enable: bool)
    requires |word| == 20
    ensures Decode(WithCrystal(word, enable)) == Decode(word)
  {
    CrystalBit(word[15]);
  }

  /** FSCC_18MHZ_BITS of the driver. */
  const DEFAULT: seq<bv8> := [0x0f, 0x61, 0xe5, 0x00, 0x00, 0x00, 0x00, 0x00, 0x00, 0x00, 0x00, 0x18,
                              0x16, 0x40, 0x01, 0x04, 0x00, 0xff, 0xff, 0xff]

  lemma DefaultIsPlain()
    ensures Plain(TableBytesOf(DEFAULT))
  {
    assert TableBytesOf(DEFAULT) == TableBytes(0x0f, 0x61, 0xe5, 0x18, 0x16, 0x40, 0x04, 0x00);
    assert InputDivider(0x0f, 0x61) == 75;
    assert PumpCurrent(0x18, 0x04, 0x00) == 625;
    assert OutputDivider1(0x18, 0x16, 0x40) == 32;
  }

  lemma DefaultIsFixed()
    ensures FixedBits(DEFAULT, true)
  {
  }

  /** The driver's default, read by the decoder: 24 MHz * 1843 / (75 * 32). */
  lemma DefaultWord()
    ensures Decode(DEFAULT) == Fields(75, 1843, 32, 64000, 625)
  {
    var word := DEFAULT;
    assert InputDivider(word[0], word[1]) == 75;
    assert VcoDivider(word[1], word[2]) == 1843;
    assert LoopResistor(word[11]) == 64000;
    assert PumpCurrent(word[11], word[15], word[16]) == 625;
    assert OutputDivider1(word[11], word[12], word[13]) == 32;
  }

  /** For its fields the encoder writes the driver's default word, byte for byte. */
  method EncodeDefault(progdata: array<bv8>) returns (status: nat)
    requires progdata.Length == 20
    modifies progdata
    ensures status == 0 && progdata[..] == DEFAULT
  {
    hide Read, Plain, FixedBits, TableBytesOf;
    DefaultWord();
    DefaultIsPlain();
    DefaultIsFixed();
    status := EncodeWord(progdata, Fields(75, 1843, 32, 64000, 625));
    assert OnGrid(32);
    WordIsUnique(progdata[..], DEFAULT, true);
  }
}
