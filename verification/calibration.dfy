/** Decoding of the factory calibration registers into the record
    (bme280_read_compensation in bme280.c), and the inverse encodings that
    show the decoding loses nothing.

    The temperature and pressure block at 0x88 is read into a `uint16_t[12]`
    on a little-endian CPU, so word `i` is `Word(b[2i], b[2i+1])`. The
    humidity block at 0xE1 is seven bytes; two 12-bit constants share the
    nibbles of its fifth byte and are stored without sign extension. */
module CalibrationCodec {
  import opened FixedWidth
  import opened DeviceRecord

  /** The 16-bit value of a low and a high byte. */
  function Word(lo: uint8, hi: uint8): uint16 {
    lo as int + 0x100 * hi as int
  }

  /** The little-endian 16-bit words of a byte sequence. */
  function LittleEndianWords(b: seq<uint8>): (ws: seq<uint16>)
    requires |b| % 2 == 0
    ensures |ws| == |b| / 2
    ensures forall i :: 0 <= i < |ws| ==> ws[i] == Word(b[2 * i], b[2 * i + 1])
    decreases |b|
  {
    if |b| == 0 then []
    else [Word(b[0], b[1])] + LittleEndianWords(b[2..])
  }

  /** The bytes of a sequence of words, each low byte first. */
  function LittleEndianBytes(ws: seq<uint16>): (b: seq<uint8>)
    ensures |b| == 2 * |ws|
    decreases |ws|
  {
    if |ws| == 0 then []
    else [ws[0] % 0x100, ws[0] / 0x100] + LittleEndianBytes(ws[1..])
  }

  /** Splitting words into bytes and reassembling them gives the words. */
  lemma {:induction false} WordsOfBytes(ws: seq<uint16>)
    ensures LittleEndianWords(LittleEndianBytes(ws)) == ws
    decreases |ws|
  {
    if |ws| > 0 {
      var b := LittleEndianBytes(ws);
      assert b[2..] == LittleEndianBytes(ws[1..]);
      WordsOfBytes(ws[1..]);
    }
  }

  /** Assembling words from an even number of bytes loses no byte. */
  lemma {:induction false} BytesOfWords(b: seq<uint8>)
    requires |b| % 2 == 0
    ensures LittleEndianBytes(LittleEndianWords(b)) == b
    decreases |b|
  {
    if |b| > 0 {
      var ws := LittleEndianWords(b);
      assert ws[1..] == LittleEndianWords(b[2..]);
      BytesOfWords(b[2..]);
      assert b == [b[0], b[1]] + b[2..];
    }
  }

  /** The twelve words of the 0x88 block, assigned in order to T1..T3 and
      P1..P9; the `int16_t` fields reinterpret their word. The humidity
      fields keep whatever they held. */
  function DecodeTempPress(cal: Calibration, ws: seq<uint16>): (r: Calibration)
    requires |ws| == 12
    ensures r.h1 == cal.h1 && r.h2 == cal.h2 && r.h3 == cal.h3
    ensures r.h4 == cal.h4 && r.h5 == cal.h5 && r.h6 == cal.h6
  {
    cal.(t1 := ws[0], t2 := AsInt16(ws[1]), t3 := AsInt16(ws[2]),
         p1 := ws[3], p2 := AsInt16(ws[4]), p3 := AsInt16(ws[5]),
         p4 := AsInt16(ws[6]), p5 := AsInt16(ws[7]), p6 := AsInt16(ws[8]),
         p7 := AsInt16(ws[9]), p8 := AsInt16(ws[10]), p9 := AsInt16(ws[11]))
  }

  /** The words the factory would have stored for the record's
      temperature and pressure constants. */
  function TempPressWords(c: Calibration): (ws: seq<uint16>)
    ensures |ws| == 12
  {
    [c.t1, Bits16(c.t2), Bits16(c.t3),
     c.p1, Bits16(c.p2), Bits16(c.p3), Bits16(c.p4), Bits16(c.p5),
     Bits16(c.p6), Bits16(c.p7), Bits16(c.p8), Bits16(c.p9)]
  }

  /** Decoding the 0x88 block is lossless in both directions. */
  lemma TempPressRoundTrip(cal: Calibration, ws: seq<uint16>, c: Calibration)
    requires |ws| == 12
    ensures TempPressWords(DecodeTempPress(cal, ws)) == ws
    ensures DecodeTempPress(c, TempPressWords(c)) == c
  {
    forall w: uint16 ensures Bits16(AsInt16(w)) == w {
      AsInt16RoundTrip(w, 0);
    }
    forall x: int16 ensures AsInt16(Bits16(x)) == x {
      AsInt16RoundTrip(0, x);
    }
  }

  /** The 0x88 block as read: its twelve little-endian words decoded into
      T1..T3 and P1..P9. Re-encoding the result gives the block back, so no
      bit of it is lost; the humidity fields keep whatever they held. */
  function DecodeTempPressBlock(cal: Calibration, b: seq<uint8>): (r: Calibration)
    requires |b| == 24
    ensures LittleEndianBytes(TempPressWords(r)) == b
    ensures r.h1 == cal.h1 && r.h2 == cal.h2 && r.h3 == cal.h3
    ensures r.h4 == cal.h4 && r.h5 == cal.h5 && r.h6 == cal.h6
  {
    var words := LittleEndianWords(b);
    TempPressRoundTrip(cal, words, cal);
    BytesOfWords(b);
    DecodeTempPress(cal, words)
  }

  /** H4: the fourth byte of the block as bits 11:4 and the low nibble of
      the fifth byte as bits 3:0. */
  function H4(b3: uint8, b4: uint8): (v: int)
    ensures 0 <= v < 0x1000
  {
    b3 * 0x10 + b4 % 0x10
  }

  /** H5: the high nibble of the fifth byte as bits 3:0 and the sixth byte
      as bits 11:4. */
  function H5(b4: uint8, b5: uint8): (v: int)
    ensures 0 <= v < 0x1000
  {
    b4 / 0x10 + b5 * 0x10
  }

  /** The calibration constants the record can hold after decoding. */
  predicate HumidityEncodable(c: Calibration) {
    0 <= c.h4 < 0x1000 && 0 <= c.h5 < 0x1000
  }

  /** The seven bytes at 0xE1 that encode the record's H2..H6. */
  function HumidityBytes(c: Calibration): (b: seq<uint8>)
    requires HumidityEncodable(c)
    ensures |b| == 7
  {
    var w2 := Bits16(c.h2);
    [w2 % 0x100, w2 / 0x100, c.h3,
     c.h4 / 0x10, c.h4 % 0x10 + c.h5 % 0x10 * 0x10, c.h5 / 0x10,
     Bits8(c.h6)]
  }

  /** The humidity constants: H1 from the single byte at 0xA1, H2..H6 from
      the seven bytes at 0xE1. H4 and H5 land in [0, 4095] (no sign
      extension), and re-encoding the result gives the seven bytes back:
      the nibble packing of H4 and H5 loses no bit. The temperature and
      pressure fields are untouched. */
  function DecodeHumidity(cal: Calibration, h1: uint8, hbuf: seq<uint8>): (r: Calibration)
    requires |hbuf| == 7
    ensures HumidityEncodable(r) && HumidityBytes(r) == hbuf
    ensures r.h1 == h1
    ensures r.t1 == cal.t1 && r.t2 == cal.t2 && r.t3 == cal.t3
    ensures r.p1 == cal.p1 && r.p2 == cal.p2 && r.p3 == cal.p3
    ensures r.p4 == cal.p4 && r.p5 == cal.p5 && r.p6 == cal.p6
    ensures r.p7 == cal.p7 && r.p8 == cal.p8 && r.p9 == cal.p9
  {
    var r := cal.(h1 := h1,
                  h2 := AsInt16(Word(hbuf[0], hbuf[1])),
                  h3 := hbuf[2],
                  h4 := H4(hbuf[3], hbuf[4]),
                  h5 := H5(hbuf[4], hbuf[5]),
                  h6 := AsInt8(hbuf[6]));
    AsInt16RoundTrip(Word(hbuf[0], hbuf[1]), 0);
    AsInt8RoundTrip(hbuf[6], 0);
    assert r.h4 / 0x10 == hbuf[3] && r.h4 % 0x10 == hbuf[4] % 0x10;
    assert r.h5 / 0x10 == hbuf[5] && r.h5 % 0x10 == hbuf[4] / 0x10;
    assert hbuf[4] == hbuf[4] % 0x10 + hbuf[4] / 0x10 * 0x10;
    r
  }

  /** Conversely, every record whose H4 and H5 are 12-bit values decodes
      back from its own encoding. */
  lemma DecodeOfHumidityBytes(c: Calibration)
    requires HumidityEncodable(c)
    ensures DecodeHumidity(c, c.h1, HumidityBytes(c)) == c
  {
    var b := HumidityBytes(c);
    AsInt16RoundTrip(0, c.h2);
    AsInt8RoundTrip(0, c.h6);
    assert b[4] % 0x10 == c.h4 % 0x10 && b[4] / 0x10 == c.h5 % 0x10;
    assert Word(b[0], b[1]) == Bits16(c.h2);
  }
}
