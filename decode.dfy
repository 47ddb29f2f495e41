/** The byte decoders and the encoder of the charger driver: what
    get_voltage, get_ups_current, get_hss_current and get_gpio make of the
    bytes a transfer returns, and the byte set_gpio writes. Each decoder is
    paired with an encoder (the bytes a device would send for a value) and
    the two are proved inverse to each other as far as the decoder allows. */
module Decode {
  import opened Device

  /** `(data[1] << 8) | data[0]`: the unsigned little-endian 16-bit value of
      two bytes, as get_voltage computes it (and get_ups_current before its
      sign fix-up). */
  function LittleEndian16(lo: Byte, hi: Byte): (w: int)
    ensures 0 <= w <= 0xFFFF
    ensures w == hi as int * 256 + lo as int
  {
    (((hi as bv16) << 8) | lo as bv16) as int
  }

  /** The two bytes, low byte first, that carry a 16-bit value. */
  function LittleEndianBytes(w: int): (b: (Byte, Byte))
    requires 0 <= w <= 0xFFFF
  {
    (ByteOf(w % 256), ByteOf(w / 256))
  }

  /** The byte whose value is k, built by counting up from zero. */
  function ByteOf(k: int): (b: Byte)
    requires 0 <= k < 256
    ensures b as int == k
  {
    if k == 0 then 0 else ByteOf(k - 1) + 1
  }

  /** Converting a byte to an int and back gives the same byte. */
  lemma ByteFromValue(b: Byte)
    ensures (b as int) as Byte == b
  {
  }

  /** Bytes with equal values are equal. */
  lemma ByteValueInjective(x: Byte, y: Byte)
    requires x as int == y as int
    ensures x == y
  {
    ByteFromValue(x);
    ByteFromValue(y);
  }

  lemma LittleEndianRoundTrip(w: int)
    requires 0 <= w <= 0xFFFF
    ensures LittleEndian16(LittleEndianBytes(w).0, LittleEndianBytes(w).1) == w
  {
  }

  lemma LittleEndianBytesRoundTrip(lo: Byte, hi: Byte)
    ensures LittleEndianBytes(LittleEndian16(lo, hi)) == (lo, hi)
  {
    var w := LittleEndian16(lo, hi);
    assert w % 256 == lo as int && w / 256 == hi as int;
    ByteValueInjective(ByteOf(w % 256), lo);
    ByteValueInjective(ByteOf(w / 256), hi);
  }

  /** Reference decoder: the 16-bit two's-complement value of the two bytes,
      decided by the sign bit. */
  function Int16(lo: Byte, hi: Byte): (v: int)
    ensures -0x8000 <= v <= 0x7FFF
  {
    var w := ((hi as bv16) << 8) | lo as bv16;
    if w & 0x8000 == 0 then w as int else w as int - 0x1_0000
  }

  /** get_ups_current's decoding: a raw value above 32767 has 65535 (not
      65536) subtracted. It therefore agrees with two's complement on
      non-negative values and is one above it on negative ones. */
  function UpsCurrent(lo: Byte, hi: Byte): (c: int)
    ensures -32767 <= c <= 32767
    ensures c == if Int16(lo, hi) < 0 then Int16(lo, hi) + 1 else Int16(lo, hi)
  {
    var raw := LittleEndian16(lo, hi);
    if raw > 32767 then raw - 65535 else raw
  }

  /** Zero current has two encodings: 0x0000 and 0xFFFF both decode to 0. */
  lemma UpsCurrentZero(lo: Byte, hi: Byte)
    ensures UpsCurrent(lo, hi) == 0 <==> (lo == 0 && hi == 0) || (lo == 0xFF && hi == 0xFF)
  {
    var raw := LittleEndian16(lo, hi);
    if UpsCurrent(lo, hi) == 0 {
      assert raw == 0 || raw == 65535;
      LittleEndianBytesRoundTrip(lo, hi);
    }
  }

  /** Bytes a balancer could send for a current in the decodable range. */
  function UpsCurrentBytes(c: int): (b: (Byte, Byte))
    requires -32767 <= c <= 32767
  {
    LittleEndianBytes(if c < 0 then c + 65535 else c)
  }

  lemma UpsCurrentRoundTrip(c: int)
    requires -32767 <= c <= 32767
    ensures UpsCurrent(UpsCurrentBytes(c).0, UpsCurrentBytes(c).1) == c
  {
    LittleEndianRoundTrip(if c < 0 then c + 65535 else c);
  }

  /** Decoding loses information at exactly one byte pair: every pair but
      0xFF,0xFF is recovered from its decoded current. */
  lemma UpsCurrentBytesRoundTrip(lo: Byte, hi: Byte)
    ensures UpsCurrentBytes(UpsCurrent(lo, hi)) == (lo, hi) <==> !(lo == 0xFF && hi == 0xFF)
  {
    LittleEndianBytesRoundTrip(lo, hi);
    if lo == 0xFF && hi == 0xFF {
      assert UpsCurrentBytes(0) == (0, 0);
    }
  }

  /** Current bytes 0x01,0x80 (raw 32769) decode to 32769 - 65535. */
  lemma ScenarioNegativeCurrent()
    ensures UpsCurrent(0x01, 0x80) == -32766
  {
  }

  /** get_hss_current's decoding: the low two bits of the first byte are
      bits 9..8 and the second byte is bits 7..0 of a 10-bit reading. */
  function HssCurrent(d0: Byte, d1: Byte): (h: int)
    ensures 0 <= h <= 1023
    ensures h == (d0 as int % 4) * 256 + d1 as int
  {
    ((((d0 & 0x03) as bv16) << 8) | d1 as bv16) as int
  }

  /** The upper six bits of the first byte never influence the reading. */
  lemma HssCurrentIgnoresUpperBits(d0: Byte, e0: Byte, d1: Byte)
    requires d0 & 0x03 == e0 & 0x03
    ensures HssCurrent(d0, d1) == HssCurrent(e0, d1)
  {
  }

  /** Bytes an ADC could send for a 10-bit reading (upper bits clear). */
  function HssCurrentBytes(h: int): (b: (Byte, Byte))
    requires 0 <= h <= 1023
  {
    (ByteOf(h / 256), ByteOf(h % 256))
  }

  lemma HssCurrentRoundTrip(h: int)
    requires 0 <= h <= 1023
    ensures HssCurrent(HssCurrentBytes(h).0, HssCurrentBytes(h).1) == h
  {
  }

  lemma HssCurrentBytesRoundTrip(d0: Byte, d1: Byte)
    ensures HssCurrentBytes(HssCurrent(d0, d1)) == (d0 & 0x03, d1)
  {
    var h := HssCurrent(d0, d1);
    assert h / 256 == d0 as int % 4 && h % 256 == d1 as int;
    assert (d0 & 0x03) as int == d0 as int % 4;
    ByteValueInjective(ByteOf(h / 256), d0 & 0x03);
    ByteValueInjective(ByteOf(h % 256), d1);
  }

  /** get_gpio's decoding: the toggle is on exactly when the byte is HSS_ACTIVE. */
  function GpioStatus(b: Byte): bool {
    b == HssActive
  }

  /** The byte set_gpio writes for a toggle value. */
  function GpioByte(toggle: bool): (b: Byte)
    ensures b == HssActive || b == HssInactive
  {
    if toggle then HssActive else HssInactive
  }

  /** Reading back what set_gpio wrote gives the toggle that was set, as long
      as the two codes differ. */
  lemma GpioRoundTrip(toggle: bool)
    requires HssActive != HssInactive
    ensures GpioStatus(GpioByte(toggle)) == toggle
  {
  }

  /** Re-encoding a decoded byte reproduces it exactly for the two codes. */
  lemma GpioByteRoundTrip(b: Byte)
    requires HssActive != HssInactive
    ensures GpioByte(GpioStatus(b)) == b <==> b == HssActive || b == HssInactive
  {
  }

  /** With equal codes the toggle "off" cannot be written: it reads back as on. */
  lemma GpioCodesMustDiffer()
    requires HssActive == HssInactive
    ensures GpioStatus(GpioByte(false))
  {
  }
}
