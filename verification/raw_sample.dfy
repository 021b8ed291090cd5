/** Unpacking of the raw ADC burst read from 0xF7 (bme280_sample_fetch in
    bme280.c): pressure and temperature are 20-bit values held in the top
    20 bits of three big-endian bytes, humidity a 16-bit big-endian value.
    The shifted parts are OR-ed in C; they occupy disjoint bits, so the OR
    is their sum. */
module RawSample {
  import opened FixedWidth

  /** A 20-bit reading: `msb` as bits 19:12, `lsb` as bits 11:4 and the
      high nibble of `xlsb` as bits 3:0. */
  function Unpack20(msb: uint8, lsb: uint8, xlsb: uint8): (v: int)
    ensures 0 <= v < 0x10_0000
  {
    msb * 0x1000 + lsb * 0x10 + xlsb / 0x10
  }

  /** A 16-bit reading: `msb` as bits 15:8, `lsb` as bits 7:0. */
  function Unpack16(msb: uint8, lsb: uint8): (v: int)
    ensures 0 <= v < 0x1_0000
  {
    msb * 0x100 + lsb
  }

  /** The three register bytes a 20-bit reading occupies, the low nibble of
      the last one zero. */
  function Pack20(v: int): (b: seq<uint8>)
    requires 0 <= v < 0x10_0000
    ensures |b| == 3 && b[2] % 0x10 == 0
  {
    [v / 0x1000, v / 0x10 % 0x100, v % 0x10 * 0x10]
  }

  /** The two register bytes of a 16-bit reading. */
  function Pack16(v: int): (b: seq<uint8>)
    requires 0 <= v < 0x1_0000
    ensures |b| == 2
  {
    [v / 0x100, v % 0x100]
  }

  /** Every 20-bit reading survives packing into registers and unpacking. */
  lemma Unpack20Pack20(v: int)
    requires 0 <= v < 0x10_0000
    ensures var b := Pack20(v); Unpack20(b[0], b[1], b[2]) == v
  {
    var b := Pack20(v);
    assert v == b[0] * 0x1000 + (v % 0x1000);
    assert v % 0x1000 == b[1] * 0x10 + v % 0x10;
  }

  /** Unpacking reads everything but the low nibble of the last byte:
      packing the result back gives the bytes with that nibble cleared. */
  lemma Pack20Unpack20(msb: uint8, lsb: uint8, xlsb: uint8)
    ensures Pack20(Unpack20(msb, lsb, xlsb)) == [msb, lsb, xlsb - xlsb % 0x10]
  {
    var v := Unpack20(msb, lsb, xlsb);
    var hi := msb * 0x100 + lsb;
    assert v == hi * 0x10 + xlsb / 0x10;
    assert hi / 0x100 == msb && hi % 0x100 == lsb;
    assert xlsb / 0x10 * 0x10 == xlsb - xlsb % 0x10;
    assert v / 0x1000 == msb;
    assert v / 0x10 == hi;
    assert v % 0x10 == xlsb / 0x10;
  }

  /** The low nibble of the last byte never matters. */
  lemma Unpack20IgnoresLowNibble(msb: uint8, lsb: uint8, xlsb: uint8, xlsb': uint8)
    requires xlsb / 0x10 == xlsb' / 0x10
    ensures Unpack20(msb, lsb, xlsb) == Unpack20(msb, lsb, xlsb')
  {
  }

  /** Unpacking and packing a 16-bit reading are mutually inverse. */
  lemma Unpack16RoundTrip(msb: uint8, lsb: uint8, v: int)
    requires 0 <= v < 0x1_0000
    ensures Pack16(Unpack16(msb, lsb)) == [msb, lsb]
    ensures var b := Pack16(v); Unpack16(b[0], b[1]) == v
  {
  }
}
