// Machine words: numbers that fit survive the conversion to a word and back.

module Words {

  lemma Unique8(x: nat, b: bv8)
    requires b as nat == x
    ensures x as bv8 == b
  {
  }

  lemma Nibble(x: nat)
    requires x < 16
    ensures (x as bv8) as nat == x
  {
  }

  lemma NibblesValue(high: bv8, low: bv8)
    requires high < 16 && low < 16
    ensures ((high << 4) | low) as nat == high as nat * 16 + low as nat
  {
  }

  lemma NibbleOrder(b: bv8)
    requires b as nat < 16
    ensures b < 16
  {
  }

  ghost function Byte(x: nat): (b: bv8)
    requires x < 256
    ensures b as nat == x
  {
    Nibble(x / 16);
    Nibble(x % 16);
    var high, low := (x / 16) as bv8, (x % 16) as bv8;
    NibbleOrder(high);
    NibbleOrder(low);
    NibblesValue(high, low);
    (high << 4) | low
  }

  /** A number of 8 bits survives the trip through a byte. */
  lemma Fits8(x: nat)
    requires x < 256
    ensures (x as bv8) as nat == x
  {
    Unique8(x, Byte(x));
  }

  lemma JoinValue(high: bv8, low: bv8)
    ensures (((high as bv16) << 8) | (low as bv16)) as nat == high as nat * 256 + low as nat
  {
  }

  lemma Join(high: bv8, low: bv8) returns (w: bv16)
    ensures w as nat == high as nat * 256 + low as nat
  {
    w := ((high as bv16) << 8) | (low as bv16);
    JoinValue(high, low);
  }

  lemma Unique16(x: nat, w: bv16)
    requires w as nat == x
    ensures x as bv16 == w
  {
  }

  /** A number of 16 bits survives the trip through a word. */
  lemma Fits16(x: nat)
    requires x < 0x1_0000
    ensures (x as bv16) as nat == x
  {
    var high := Byte(x / 256);
    var low := Byte(x % 256);
    var w := Join(high, low);
    Unique16(x, w);
  }

  /** Words of one value are one word. */
  lemma Same8(a: bv8, b: bv8)
    requires a as nat == b as nat
    ensures a == b
  {
    Unique8(a as nat, a);
    Unique8(a as nat, b);
  }

  lemma Same16(a: bv16, b: bv16)
    requires a as nat == b as nat
    ensures a == b
  {
    Unique16(a as nat, a);
    Unique16(a as nat, b);
  }

  // ---------------------------------------------------------------- shifts and masks as division and remainder

  lemma Shifted1(b: bv8)
    ensures (b >> 1) as nat == b as nat / 2
  {
  }

  lemma Shifted2(b: bv8)
    ensures (b >> 2) as nat == b as nat / 4
  {
  }

  lemma Shifted3(b: bv8)
    ensures (b >> 3) as nat == b as nat / 8
  {
  }

  lemma Shifted4(b: bv8)
    ensures (b >> 4) as nat == b as nat / 16
  {
  }

  lemma Shifted5(b: bv8)
    ensures (b >> 5) as nat == b as nat / 32
  {
  }

  lemma Shifted6(b: bv8)
    ensures (b >> 6) as nat == b as nat / 64
  {
  }

  lemma Shifted7(b: bv8)
    ensures (b >> 7) as nat == b as nat / 128
  {
  }

  lemma Masked1(b: bv8)
    ensures (b & 0x01) as nat == b as nat % 2
  {
  }

  lemma Masked2(b: bv8)
    ensures (b & 0x03) as nat == b as nat % 4
  {
  }

  lemma Masked3(b: bv8)
    ensures (b & 0x07) as nat == b as nat % 8
  {
  }

  lemma Masked4(b: bv8)
    ensures (b & 0x0f) as nat == b as nat % 16
  {
  }

  lemma Masked5(b: bv8)
    ensures (b & 0x1f) as nat == b as nat % 32
  {
  }

  lemma Masked6(b: bv8)
    ensures (b & 0x3f) as nat == b as nat % 64
  {
  }

  lemma Masked7(b: bv8)
    ensures (b & 0x7f) as nat == b as nat % 128
  {
  }

  lemma Complement4(b: bv8)
    ensures (!b & 0x0f) as nat == 15 - (b & 0x0f) as nat
  {
  }

  lemma Complement5(b: bv8)
    ensures (!b & 0x1f) as nat == 31 - (b & 0x1f) as nat
  {
  }
}
