/** The program masks and shifts; the model divides. On every byte the two give
    the same fields. */
module Bits {
  import opened Base
  import opened Packets
  import Wire

  lemma TypeAndFlags(b: bv8)
    ensures ((b >> 4) & 0x0F) as int == b as int / 16
    ensures (b & 0x0F) as int == b as int % 16
  {
    var high := b >> 4;
    assert high as int == b as int / 16;
    assert high & 0x0F == high;
  }

  lemma TwoBits(b: bv8)
    ensures (b & 0x03) as int == b as int % 4
  {
  }

  /** The QoS of a PUBLISH and of a will. */
  lemma QosBits(b: bv8)
    ensures ((b >> 1) & 0x03) as int == b as int / 2 % 4
    ensures ((b >> 3) & 0x03) as int == Wire.WillQosBits(b as int)
  {
    TwoBits(b >> 1);
    assert (b >> 1) as int == b as int / 2;
    TwoBits(b >> 3);
    assert (b >> 3) as int == b as int / 8;
  }

  lemma LowestBit(b: bv8)
    ensures b & 0x01 != 0 <==> b as int % 2 == 1
  {
    assert b & 0x01 == b % 2;
  }

  /** A single bit is the lowest one after a shift. */
  lemma ShiftedBits(b: bv8)
    ensures b & 0x02 != 0 <==> (b >> 1) & 0x01 != 0
    ensures b & 0x04 != 0 <==> (b >> 2) & 0x01 != 0
    ensures b & 0x08 != 0 <==> (b >> 3) & 0x01 != 0
    ensures b & 0x20 != 0 <==> (b >> 5) & 0x01 != 0
    ensures b & 0x40 != 0 <==> (b >> 6) & 0x01 != 0
    ensures b & 0x80 != 0 <==> (b >> 7) & 0x01 != 0
  {
  }

  /** The retain and dup flags of a PUBLISH. */
  lemma PublishBits(b: bv8)
    ensures b & 0x01 != 0 <==> b as int % 2 == 1
    ensures b & 0x08 != 0 <==> b as int / 8 % 2 == 1
  {
    ShiftedBits(b);
    LowestBit(b);
    LowestBit(b >> 3);
    assert (b >> 3) as int == b as int / 8;
  }

  /** The flags of a CONNECT for the session and the will. */
  lemma SessionBits(b: bv8)
    ensures b & 0x02 != 0 <==> Wire.CleanSessionBit(b as int)
    ensures b & 0x04 != 0 <==> Wire.WillBit(b as int)
    ensures b & 0x20 != 0 <==> Wire.WillRetainBit(b as int)
  {
    ShiftedBits(b);
    LowestBit(b >> 1);
    LowestBit(b >> 2);
    LowestBit(b >> 5);
    assert (b >> 1) as int == b as int / 2;
    assert (b >> 2) as int == b as int / 4;
    assert (b >> 5) as int == b as int / 32;
  }

  /** And those for user name and password. */
  lemma CredentialBits(b: bv8)
    ensures b & 0x40 != 0 <==> Wire.PasswordBit(b as int)
    ensures b & 0x80 != 0 <==> Wire.UsernameBit(b as int)
  {
    ShiftedBits(b);
    LowestBit(b >> 6);
    LowestBit(b >> 7);
    assert (b >> 6) as int == b as int / 64;
    assert (b >> 7) as int == b as int / 128;
  }

  /** One byte of a remaining length: its digit, and whether more follow. */
  lemma LengthBits(b: bv8)
    ensures (b & 0x7F) as int == b as int % 128
    ensures b & 0x80 == 0 <==> (b as int) < 128
    ensures b < 128 ==> (b | 0x80) as int == b as int + 128
  {
  }

  lemma HeaderBits(dup: bool, qos: bv8, retain: bool)
    requires qos <= 2
    ensures (0x30 | (if dup then 0x08 else 0) | (qos << 1) | (if retain then 0x01 else 0)) as int
         == 48 + (if dup then 8 else 0) + qos as int * 2 + (if retain then 1 else 0)
  {
  }

  /** The first byte of an encoded PUBLISH. */
  lemma PublishHeader(p: PublishPacket, qos: bv8)
    requires qos as int == QosValue(p.qos)
    ensures (0x30 | (if p.dup then 0x08 else 0) | (qos << 1) | (if p.retain then 0x01 else 0)) as int
         == Wire.PublishBytes(p)[0]
  {
    HeaderBits(p.dup, qos, p.retain);
  }
}
