/** Register map, chip identifiers and the fixed configuration of the
    BME280/BMP280 (bme280.h). */
module Registers {
  import opened FixedWidth

  // Register addresses.
  const RegPressMsb: uint8 := 0xF7
  const RegCompStart: uint8 := 0x88
  const RegHumCompPart1: uint8 := 0xA1
  const RegHumCompPart2: uint8 := 0xE1
  const RegId: uint8 := 0xD0
  const RegConfig: uint8 := 0xF5
  const RegCtrlMeas: uint8 := 0xF4
  const RegCtrlHum: uint8 := 0xF2

  const RegisterMap: seq<uint8> :=
    [RegPressMsb, RegCompStart, RegHumCompPart1, RegHumCompPart2,
     RegId, RegConfig, RegCtrlMeas, RegCtrlHum]

  // Chip identification values read from `RegId`.
  const Bmp280ChipIdSample1: uint8 := 0x56
  const Bmp280ChipIdSample2: uint8 := 0x57
  const Bmp280ChipIdMp: uint8 := 0x58
  const Bme280ChipId: uint8 := 0x60

  const ChipIds: seq<uint8> :=
    [Bmp280ChipIdSample1, Bmp280ChipIdSample2, Bmp280ChipIdMp, Bme280ChipId]

  /** Bitwise OR of two byte values, as the header's macros combine fields. */
  function BitOr(a: uint8, b: uint8): uint8 {
    ((a as bv8) | (b as bv8)) as int
  }

  // Field encodings. Each list is indexed by setting: oversampling
  // 1x, 2x, 4x, 8x, 16x; standby 0.5, 62.5, 125, 250, 500, 1000, 2000,
  // 4000 ms; filter off, 2, 4, 8, 16.
  const TempOverSettings: seq<int> := [1 * 32, 2 * 32, 3 * 32, 4 * 32, 5 * 32]
  const PressOverSettings: seq<int> := [1 * 4, 2 * 4, 3 * 4, 4 * 4, 5 * 4]
  const HumidityOverSettings: seq<int> := [1, 2, 3, 4, 5]
  const StandbySettings: seq<int> :=
    [0, 1 * 32, 2 * 32, 3 * 32, 4 * 32, 5 * 32, 6 * 32, 7 * 32]
  const FilterSettings: seq<int> := [0, 1 * 4, 2 * 4, 3 * 4, 4 * 4]

  const ModeNormal: uint8 := 0x03
  const Spi3wDisable: uint8 := 0x00

  // The default configuration.
  const RetryCount: nat := 5
  const TempOver: uint8 := 3 * 32       // 4x
  const PressOver: uint8 := 3 * 4       // 4x
  const HumidityOver: uint8 := 3        // 4x
  const Standby: uint8 := 3 * 32        // 250 ms
  const Filter: uint8 := 0              // off

  const CtrlMeasVal: uint8 := BitOr(BitOr(PressOver, TempOver), ModeNormal)
  const ConfigVal: uint8 := BitOr(BitOr(Standby, Filter), Spi3wDisable)

  /** `v` lies in the bit field [lo, lo + width) of a byte, given as
      `unit = 2^lo` and `limit = 2^(lo + width)`. */
  predicate InField(v: int, unit: nat, limit: nat)
    requires unit > 0
  {
    0 <= v < limit && v % unit == 0
  }

  /** The fields of a `ctrl_meas` byte: temperature oversampling in bits
      7:5, pressure oversampling in bits 4:2, mode in bits 1:0. */
  function CtrlMeasFields(v: uint8): (int, int, int) {
    (v / 32, v / 4 % 8, v % 4)
  }

  /** The fields of a `config` byte: standby in bits 7:5, filter in bits
      4:2, 3-wire SPI enable in bit 0. */
  function ConfigFields(v: uint8): (int, int, int) {
    (v / 32, v / 4 % 8, v % 2)
  }

  /** The three `ctrl_meas` fields occupy disjoint bits: OR-ing them is
      the same as adding them, and each field reads back unchanged. */
  lemma CtrlMeasFieldsDisjoint(osrsT: bv8, osrsP: bv8, mode: bv8)
    requires osrsT < 8 && osrsP < 8 && mode < 4
    ensures var v := (osrsP << 2) | (osrsT << 5) | mode;
      && v == (osrsT << 5) + (osrsP << 2) + mode
      && v >> 5 == osrsT && (v >> 2) & 7 == osrsP && v & 3 == mode
  {
  }

  /** The three `config` fields occupy disjoint bits as well (bit 1 is
      unused). */
  lemma ConfigFieldsDisjoint(standby: bv8, filter: bv8, spi3w: bv8)
    requires standby < 8 && filter < 8 && spi3w < 2
    ensures var v := (standby << 5) | (filter << 2) | spi3w;
      && v == (standby << 5) + (filter << 2) + spi3w
      && v >> 5 == standby && (v >> 2) & 7 == filter && v & 1 == spi3w
  {
  }

  /** The register addresses are pairwise distinct, and so are the chip ids. */
  lemma AddressesDistinct()
    ensures forall i, j :: 0 <= i < j < |RegisterMap| ==> RegisterMap[i] != RegisterMap[j]
    ensures forall i, j :: 0 <= i < j < |ChipIds| ==> ChipIds[i] != ChipIds[j]
  {
  }

  /** Every oversampling, standby and filter encoding lies inside its own
      bit field of one byte. */
  lemma EncodingsFitTheirFields()
    ensures forall i :: 0 <= i < |TempOverSettings| ==> InField(TempOverSettings[i], 32, 256)
    ensures forall i :: 0 <= i < |PressOverSettings| ==> InField(PressOverSettings[i], 4, 32)
    ensures forall i :: 0 <= i < |HumidityOverSettings| ==> InField(HumidityOverSettings[i], 1, 8)
    ensures forall i :: 0 <= i < |StandbySettings| ==> InField(StandbySettings[i], 32, 256)
    ensures forall i :: 0 <= i < |FilterSettings| ==> InField(FilterSettings[i], 4, 32)
    ensures TempOver == TempOverSettings[2] && PressOver == PressOverSettings[2]
    ensures HumidityOver == HumidityOverSettings[2]
    ensures Standby == StandbySettings[3] && Filter == FilterSettings[0]
  {
  }

  /** The values written at initialisation: `ctrl_meas` selects 4x
      temperature and 4x pressure oversampling in normal mode, `config`
      selects 250 ms standby, filter off and 3-wire SPI disabled. */
  lemma ConfigurationBytes()
    ensures CtrlMeasVal == 0x6F
    ensures CtrlMeasFields(CtrlMeasVal) == (3, 3, ModeNormal)
    ensures ConfigVal == 0x60
    ensures ConfigFields(ConfigVal) == (3, 0, Spi3wDisable)
  {
  }
}
