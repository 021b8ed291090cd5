/** The fixed-point compensation of the Bosch BME280 datasheet, section
    4.2.3 "Compensation formula" (bme280_compensate_temp, _press and
    _humidity in bme280.c).

    Each formula is written once, as a function returning every
    intermediate value the C code computes (`...Terms`). The C code holds
    those values in `int32_t` (temperature, humidity) or `int64_t`
    (pressure) variables; a signed overflow there is undefined behaviour,
    so the `...InRange` predicates demand that every intermediate fits its
    type, and the compensations require them. Intermediates that only
    shrink their operands (right shifts) or whose magnitude is bounded by
    another listed intermediate are not listed. */
module Compensation {
  import opened FixedWidth
  import opened DeviceRecord

  // ---------------------------------------------------------------- temperature

  /** Intermediates of the temperature formula: the linear term before and
      after its shift by 11, the squared deviation, and the quadratic term
      before and after its shift by 14. */
  datatype TempTerms = TempTerms(lin: int, var1: int, sq: int, quad: int, var2: int)

  function TempSteps(c: Calibration, adc: int): TempTerms {
    var t1: int, t2: int, t3: int := c.t1, c.t2, c.t3;
    var lin := (adc / 8 - t1 * 2) * t2;
    var dev := adc / 16 - t1;
    var sq := dev * dev;
    var quad := sq / 4096 * t3;
    TempTerms(lin, lin / 2048, sq, quad, quad / 16384)
  }

  predicate TempInRange(c: Calibration, adc: int) {
    var s := TempSteps(c, adc);
    IsInt32(s.lin) && IsInt32(s.sq) && IsInt32(s.quad)
  }

  /** Temperature: `t_fine` is the sum of the linear and the quadratic
      correction, and the reported temperature is `5 * t_fine / 256`
      rounded to the nearest integer (halves upward), in 0.01 degC. Only
      these two fields change. */
  function CompensateTemp(d: Device, adc: int32): (r: Device)
    requires TempInRange(d.cal, adc)
    ensures r == d.(tFine := r.tFine, compTemp := r.compTemp)
    ensures r.tFine == TempSteps(d.cal, adc).var1 + TempSteps(d.cal, adc).var2
    ensures r.compTemp * 256 <= 5 * r.tFine + 128 < r.compTemp * 256 + 256
  {
    var s := TempSteps(d.cal, adc);
    var tFine := s.var1 + s.var2;
    d.(tFine := tFine, compTemp := (tFine * 5 + 128) / 256)
  }

  // ------------------------------------------------------------------- pressure

  /** Intermediates of the pressure formula up to the divisor: `x` is
      `t_fine - 128000`; `var2` the quadratic correction built from P6, P5
      (shifted left by 17) and P4 (shifted left by 35); `v1` the correction
      from P3 (shifted right by 8) and P2 (shifted left by 12); `g` the
      product of `2^47 + v1` with P1, and `divisor` that product shifted
      right by 33. */
  datatype PressFront = PressFront(
    x: int, x2: int, a6: int, b5: int, v2b: int, var2: int,
    a3: int, b2: int, v1: int, f: int, g: int, divisor: int)

  function PressDivisorSteps(c: Calibration, tFine: int): PressFront {
    var p1: int, p2: int, p3: int, p4: int, p5: int, p6: int :=
      c.p1, c.p2, c.p3, c.p4, c.p5, c.p6;
    var x := tFine - 128000;
    var x2 := x * x;
    var a6 := x2 * p6;
    var b5 := x * p5 * 0x2_0000;
    var v2b := a6 + b5;
    var var2 := v2b + p4 * 0x8_0000_0000;
    var a3 := x2 * p3;
    var b2 := x * p2 * 0x1000;
    var v1 := a3 / 0x100 + b2;
    var f := 0x8000_0000_0000 + v1;
    var g := f * p1;
    PressFront(x, x2, a6, b5, v2b, var2, a3, b2, v1, f, g, g / 0x2_0000_0000)
  }

  /** Intermediates after the divisor: `p0` is `2^20 - adc`; `num` the
      dividend `(p0 * 2^31 - var2) * 3125` and `q` its quotient truncated
      toward zero; `c9` and `c8` the P9 and P8 corrections before their
      shifts by 25 and 19; `out` the result before the conversion to
      `uint32_t`. */
  datatype PressBack = PressBack(
    p0: int, num0: int, num1: int, num: int, q: int,
    c9a: int, c9: int, c8: int, sum1: int, sum: int, out: int)

  function PressQuotientSteps(c: Calibration, front: PressFront, adc: int): PressBack
    requires front.divisor != 0
  {
    var p7: int, p8: int, p9: int := c.p7, c.p8, c.p9;
    var p0 := 0x10_0000 - adc;
    var num0 := p0 * 0x8000_0000;
    var num1 := num0 - front.var2;
    var num := num1 * 3125;
    var q := CDiv(num, front.divisor);
    var s := q / 0x2000;
    var c9a := p9 * s;
    var c9 := c9a * s;
    var c8 := p8 * q;
    var sum1 := q + c9 / 0x200_0000;
    var sum := sum1 + c8 / 0x8_0000;
    PressBack(p0, num0, num1, num, q, c9a, c9, c8, sum1, sum, sum / 0x100 + p7 * 16)
  }

  predicate PressInRange(c: Calibration, tFine: int, adc: int) {
    var s := PressDivisorSteps(c, tFine);
    && IsInt64(s.x2) && IsInt64(s.a6) && IsInt64(s.b5) && IsInt64(s.v2b)
    && IsInt64(s.var2) && IsInt64(s.a3) && IsInt64(s.b2) && IsInt64(s.v1)
    && IsInt64(s.f) && IsInt64(s.g)
    && (s.divisor != 0 ==>
          var t := PressQuotientSteps(c, s, adc);
          && IsInt32(t.p0) && IsInt64(t.num0) && IsInt64(t.num1)
          && IsInt64(t.num) && IsInt64(t.q) && IsInt64(t.c9a) && IsInt64(t.c9)
          && IsInt64(t.c8) && IsInt64(t.sum1) && IsInt64(t.sum) && IsInt64(t.out))
  }

  /** Pressure, in 1/256 Pa, using the record's `t_fine`. When the divisor
      is 0 (the scaled P1 product lies in [0, 2^33)) the reading is 0 and no
      division happens; otherwise it is the final value reduced modulo
      2^32. Only the pressure field changes. */
  function CompensatePress(d: Device, adc: int32): (r: Device)
    requires PressInRange(d.cal, d.tFine, adc)
    ensures r == d.(compPress := r.compPress)
    ensures var s := PressDivisorSteps(d.cal, d.tFine);
      && (0 <= s.g < 0x2_0000_0000 ==> r.compPress == 0)
      && (s.divisor != 0 ==> r.compPress == ToUint32(PressQuotientSteps(d.cal, s, adc).out))
  {
    var s := PressDivisorSteps(d.cal, d.tFine);
    if s.divisor == 0 then d.(compPress := 0)
    else d.(compPress := ToUint32(PressQuotientSteps(d.cal, s, adc).out))
  }

  /** A zero P1 (a blank calibration) always takes the zero-divisor path. */
  lemma ZeroP1GivesZeroPressure(d: Device, adc: int32)
    requires PressInRange(d.cal, d.tFine, adc)
    requires d.cal.p1 == 0
    ensures PressDivisorSteps(d.cal, d.tFine).divisor == 0
    ensures CompensatePress(d, adc) == d.(compPress := 0)
  {
  }

  // ------------------------------------------------------------------- humidity

  /** Intermediates of the humidity formula: `x` is `t_fine - 76800`; `n3`
      the raw-minus-offset term before its shift by 15 (`left` after it);
      `d6`, `d3`, `e`, `f`, `g`, `g2`, `g3` build the H6/H3/H2 scale before
      its shift by 14 (`right` after it); `hv` their product; `s2` and `s4`
      the H1 correction before its shifts; `h` the value before the clamp. */
  datatype HumTerms = HumTerms(
    x: int, a: int, b: int, c: int, n1: int, n2: int, n3: int, left: int,
    d6: int, d3: int, e: int, f: int, g: int, g2: int, g3: int, right: int,
    hv: int, s2: int, s4: int, h: int)

  function HumSteps(cal: Calibration, tFine: int, adc: int): HumTerms {
    var h1: int, h2: int, h3: int, h4: int, h5: int, h6: int :=
      cal.h1, cal.h2, cal.h3, cal.h4, cal.h5, cal.h6;
    var x := tFine - 76800;
    var a := adc * 0x4000;
    var b := h4 * 0x10_0000;
    var c := h5 * x;
    var n1 := a - b;
    var n2 := n1 - c;
    var n3 := n2 + 16384;
    var left := n3 / 0x8000;
    var d6 := x * h6;
    var d3 := x * h3;
    var e := d3 / 0x800 + 32768;
    var f := d6 / 0x400 * e;
    var g := f / 0x400 + 2097152;
    var g2 := g * h2;
    var g3 := g2 + 8192;
    var right := g3 / 0x4000;
    var hv := left * right;
    var s := hv / 0x8000;
    var s2 := s * s;
    var s4 := s2 / 0x80 * h1;
    var h := hv - s4 / 0x10;
    HumTerms(x, a, b, c, n1, n2, n3, left, d6, d3, e, f, g, g2, g3, right, hv, s2, s4, h)
  }

  predicate HumInRange(cal: Calibration, tFine: int, adc: int) {
    var s := HumSteps(cal, tFine, adc);
    && IsInt32(s.x) && IsInt32(s.a) && IsInt32(s.b) && IsInt32(s.c)
    && IsInt32(s.n1) && IsInt32(s.n2) && IsInt32(s.n3) && IsInt32(s.d6)
    && IsInt32(s.d3) && IsInt32(s.e) && IsInt32(s.f) && IsInt32(s.g)
    && IsInt32(s.g2) && IsInt32(s.g3) && IsInt32(s.hv) && IsInt32(s.s2)
    && IsInt32(s.s4) && IsInt32(s.h)
  }

  /** The ceiling of the intermediate: 100 %RH in 1/1024 %RH, shifted by 12. */
  const HumidityCeiling := 419430400

  /** Humidity, in 1/1024 %RH, using the record's `t_fine`. The
      intermediate is clamped from above only: a non-negative intermediate
      reports at most 102400 (100 %RH), one at or above the ceiling reports
      exactly 102400, and a negative one is not clamped but wraps modulo
      2^32 to a reading of at least 2^32 - 2^19. Only the humidity field changes. */
  function CompensateHumidity(d: Device, adc: int32): (r: Device)
    requires HumInRange(d.cal, d.tFine, adc)
    ensures r == d.(compHumidity := r.compHumidity)
    ensures var h := HumSteps(d.cal, d.tFine, adc).h;
      && (0 <= h ==> r.compHumidity <= 102400)
      && (h >= HumidityCeiling ==> r.compHumidity == 102400)
      && (0 <= h < HumidityCeiling ==> r.compHumidity * 4096 <= h < r.compHumidity * 4096 + 4096)
      && (h < 0 ==> r.compHumidity == 0x1_0000_0000 + h / 0x1000)
      && (h < 0 ==> r.compHumidity >= 0x1_0000_0000 - 0x8_0000)
  {
    var h := HumSteps(d.cal, d.tFine, adc).h;
    var clamped := if h > HumidityCeiling then HumidityCeiling else h;
    d.(compHumidity := ToUint32(clamped / 0x1000))
  }

  /** Humidity as the datasheet computes it, with the intermediate also
      clamped from below at 0: every reading lies in [0, 102400], a
      non-negative intermediate gives what `CompensateHumidity` gives, and a
      negative one reads 0 %RH. Only the humidity field changes. */
  function CompensateHumidityClamped(d: Device, adc: int32): (r: Device)
    requires HumInRange(d.cal, d.tFine, adc)
    ensures r == d.(compHumidity := r.compHumidity)
    ensures 0 <= r.compHumidity <= 102400
    ensures var h := HumSteps(d.cal, d.tFine, adc).h;
      && (0 <= h ==> r == CompensateHumidity(d, adc))
      && (h < 0 ==> r.compHumidity == 0)
  {
    var h := HumSteps(d.cal, d.tFine, adc).h;
    var clamped := if h < 0 then 0 else if h > HumidityCeiling then HumidityCeiling else h;
    d.(compHumidity := clamped / 0x1000)
  }

  // ------------------------------------------------------------ worked examples

  /** The temperature example of the datasheet: T1 = 27504, T2 = 26435,
      T3 = -1000 and a raw reading of 519888 give t_fine = 128422 and
      25.08 degC. */
  lemma DatasheetTemperature(d: Device)
    requires d.cal.t1 == 27504 && d.cal.t2 == 26435 && d.cal.t3 == -1000
    ensures TempInRange(d.cal, 519888)
    ensures CompensateTemp(d, 519888).tFine == 128422
    ensures CompensateTemp(d, 519888).compTemp == 2508
  {
  }

  /** The pressure example of the datasheet: with that t_fine, P1..P9 =
      36477, -10685, 3024, 2855, 140, -7, 15500, -14600, 6000 and a raw
      reading of 415148 give 25767233 / 256 Pa, about 100653 Pa. */
  lemma DatasheetPressure(d: Device)
    requires d.tFine == 128422
    requires d.cal.p1 == 36477 && d.cal.p2 == -10685 && d.cal.p3 == 3024
    requires d.cal.p4 == 2855 && d.cal.p5 == 140 && d.cal.p6 == -7
    requires d.cal.p7 == 15500 && d.cal.p8 == -14600 && d.cal.p9 == 6000
    ensures PressInRange(d.cal, d.tFine, 415148)
    ensures CompensatePress(d, 415148).compPress == 25767233
  {
    var s := PressDivisorSteps(d.cal, d.tFine);
    assert s.x == 422 && s.x2 == 178084;
    assert s.a6 == -1246588 && s.b5 == 7743733760 && s.var2 == 98104795527812;
    assert s.a3 == 538526016 && s.b2 == -18469150720 && s.v1 == -18467047103;
    assert s.g == 5133007740260123325 && s.divisor == 597560748;
    var t := PressQuotientSteps(d.cal, s, 415148);
    assert t.num == 3944285864554787500;
    assert t.q == 6600644165;
    assert t.c9a == 4834452000 && t.c9 == 3895321023384000;
    assert t.c8 == -96369404809000;
    assert t.sum == 6532923724 && t.out == 25767233;
  }

  /** The intermediates of the humidity formula for typical constants
      H1..H6 = 75, 362, 0, 324, 0, 30, t_fine = 128422 and a raw reading of
      30000. */
  lemma TypicalIntermediate(cal: Calibration)
    requires cal.h1 == 75 && cal.h2 == 362 && cal.h3 == 0
    requires cal.h4 == 324 && cal.h5 == 0 && cal.h6 == 30
    ensures HumInRange(cal, 128422, 30000)
    ensures HumSteps(cal, 128422, 30000).h == 217935553
  {
    // The formula reads only the humidity constants.
    var typical := cal.(t1 := 0, t2 := 0, t3 := 0, p1 := 0, p2 := 0, p3 := 0,
                        p4 := 0, p5 := 0, p6 := 0, p7 := 0, p8 := 0, p9 := 0);
    assert HumSteps(cal, 128422, 30000) == HumSteps(typical, 128422, 30000);
    var s := HumSteps(typical, 128422, 30000);
    assert s.x == 51622 && s.c == 0 && s.n3 == 151797760 && s.left == 4632;
    assert s.d6 == 1548660 && s.d3 == 0 && s.e == 32768;
    assert s.f == 49545216 && s.g == 2145536 && s.g2 == 776684032;
    assert s.right == 47405 && s.hv == 219579960;
    assert s.s2 == 44903401 && s.s4 == 26310525;
  }

  /** A humidity example with typical constants H1..H6 = 75, 362, 0, 324, 0,
      30: at t_fine = 128422 a raw reading of 30000 gives 53206 / 1024 %RH,
      about 52 %RH. */
  lemma TypicalHumidity(d: Device)
    requires d.tFine == 128422
    requires d.cal.h1 == 75 && d.cal.h2 == 362 && d.cal.h3 == 0
    requires d.cal.h4 == 324 && d.cal.h5 == 0 && d.cal.h6 == 30
    ensures HumInRange(d.cal, d.tFine, 30000)
    ensures CompensateHumidity(d, 30000).compHumidity == 53206
  {
    TypicalIntermediate(d.cal);
    assert 217935553 / 0x1000 == 53206;
  }

  /** The intermediates of the humidity formula for the typical constants,
      t_fine = 128422 and a raw reading of 0. */
  lemma NegativeIntermediate(cal: Calibration)
    requires cal.h1 == 75 && cal.h2 == 362 && cal.h3 == 0
    requires cal.h4 == 324 && cal.h5 == 0 && cal.h6 == 30
    ensures HumInRange(cal, 128422, 0)
    ensures HumSteps(cal, 128422, 0).h == -499734783
  {
    var s := HumSteps(cal, 128422, 0);
    assert s.x == 51622 && s.b == 339738624 && s.c == 0;
    assert s.n3 == -339722240 && s.left == -10368;
    assert s.d6 == 1548660 && s.d3 == 0 && s.e == 32768;
    assert s.f == 49545216 && s.g == 2145536 && s.g2 == 776684032;
    assert s.right == 47405 && s.hv == -491495040;
    assert s.s2 == 225000000 && s.s4 == 131835900;
  }

  /** With the same constants a raw reading of 0 drives the intermediate
      below zero, and with no lower clamp the reported humidity wraps to
      4294845290 / 1024 %RH; the datasheet's clamp reports 0. */
  lemma NegativeHumidityWraps(d: Device)
    requires d.tFine == 128422
    requires d.cal.h1 == 75 && d.cal.h2 == 362 && d.cal.h3 == 0
    requires d.cal.h4 == 324 && d.cal.h5 == 0 && d.cal.h6 == 30
    ensures HumInRange(d.cal, d.tFine, 0)
    ensures HumSteps(d.cal, d.tFine, 0).h < 0
    ensures CompensateHumidity(d, 0).compHumidity == 4294845290
    ensures CompensateHumidityClamped(d, 0).compHumidity == 0
  {
    NegativeIntermediate(d.cal);
    assert -499734783 / 0x1000 == -122006;
  }
}
