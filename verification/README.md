# BME280 / BMP280 driver model

A Dafny model of the Bosch BME280 (temperature, pressure, humidity) and
BMP280 (temperature, pressure) driver of `bme280.c` and `bme280.h`. It
covers three parts:

- the retrying register transport over the I2C master primitive
  (`bme280_read_buf`, `bme280_read_byte`, `bme280_write_byte`);
- chip identification, calibration loading and configuration
  (`bme280_init`, `bme280_read_compensation`);
- the sample cycle with the datasheet's fixed-point compensation
  (`bme280_sample_fetch`, `bme280_compensate_temp`, `_press`, `_humidity`)
  and the three getters.

Modules, one file each:

- `FixedWidth` (`fixed_width.dfy`): the C integer types. It also gives the
  C operators a meaning on unbounded integers:
  - arithmetic right shift is floor division;
  - `/` truncates toward zero (`CDiv`);
  - a conversion to an unsigned type reduces modulo 2^width;
  - a conversion of a bit pattern to a signed type reads it as two's
    complement.
- `Registers` (`registers.dfy`): the register map, the chip ids, the field
  encodings and the default configuration of `bme280.h`.
- `DeviceRecord` (`device_record.dfy`): `struct bme280_data`.
- `Transport` (`transport.dfy`): the retry loops.
- `RawSample` (`raw_sample.dfy`): the raw ADC burst layout.
- `CalibrationCodec` (`calibration.dfy`): decoding of the calibration
  registers.
- `Compensation` (`compensation.dfy`): the three compensation formulas.
- `Driver` (`driver.dfy`): the public entry points as transitions on the
  device record.

The HAL is an oracle. Each transaction gets a reply:

- the outcomes of the successive primitive calls of each phase;
- for reads, the contents of the destination buffer when the call
  returns.

A buffer's contents are taken as given whatever the status. That covers
`bme280_init`, which ignores every read error and decodes whatever the
buffers hold.

The C code holds intermediates in `int32_t` and `int64_t`, where a signed
overflow is undefined behaviour. Each formula is therefore written once as
a function that returns every intermediate. The compensations require that
each intermediate fits its C type (`TempInRange`, `PressInRange`,
`HumInRange`).

Behaviour of the code worth noting:

- A phase makes up to six primitive calls. The counter starts at
  5 and the sixth call is made when the counter reaches 0. A success on
  that sixth call still returns -EIO.
- `bme280_init` returns 0 for a supported id whatever the transaction
  statuses are. It does not pass bus errors on, and neither does
  `bme280_read_compensation`.
- H4 and H5 are stored without sign extension, so they lie in [0, 4095].
- For a BMP280, the humidity getter returns whatever the field holds. The
  code has no "not supported" result.
- The record's fields are never zero-initialised by the driver.
- The humidity clamp works from above only: a non-negative intermediate
  reads at most 419430400 >> 12 = 102400 (100 %RH in 1/1024 %RH), while a
  negative one is not clamped and wraps modulo 2^32 (see Findings).
- The id byte is stored in the record even when init refuses it. The
  BMP280 sample id 0x57 is refused.
- A left shift of a negative `int32_t`/`int64_t` is undefined in C. A
  right shift of a negative value is implementation-defined. The model
  takes these as multiplication and floor division, as the datasheet
  formulas intend.

## Model

| member | source | states |
|---|---|---|
| FixedWidth.AsInt16 | bme280.c:215-226 | storing a 16-bit word in an `int16_t` field keeps its bit pattern, and the value is negative exactly when bit 15 is set |
| FixedWidth.AsInt8 | bme280.c:236 | storing a byte in the `int8_t` H6 keeps its bit pattern, and the value is negative exactly when bit 7 is set |
| FixedWidth.AsInt16RoundTrip | bme280.c:215-226 | reinterpreting a word as `int16_t` and taking its bits back are mutually inverse |
| FixedWidth.AsInt8RoundTrip | bme280.c:236 | the same for bytes and `int8_t` |
| FixedWidth.ToUint32 | bme280.c:141 | conversion to `uint32_t` reduces every value modulo 2^32: the result is congruent to the input, equal to it when already in range, and the input plus 2^32 on [-2^32, 0) |
| FixedWidth.CDivTruncates | bme280.c:136 | the C quotient truncates toward zero: the remainder is smaller than the divisor, has the dividend's sign, and the quotient's magnitude never exceeds the exact one |
| Registers.CtrlMeasFieldsDisjoint | bme280.h:86-88 | the temperature-oversampling, pressure-oversampling and mode fields of `ctrl_meas` occupy disjoint bits: OR-ing them equals adding them, and each field reads back |
| Registers.ConfigFieldsDisjoint | bme280.h:89-91 | the standby, filter and 3-wire fields of `config` occupy disjoint bits in the same sense |
| Registers.AddressesDistinct | bme280.h:23-35 | the register addresses are pairwise distinct, and so are the chip ids |
| Registers.EncodingsFitTheirFields | bme280.h:39-83 | every oversampling, standby and filter encoding lies in its own bit field, and the defaults are 4x, 4x, 4x, 250 ms, filter off |
| Registers.ConfigurationBytes | bme280.h:75-91 | init writes `ctrl_meas` 0x6F (4x/4x, normal mode) and `config` 0x60 (250 ms, filter off, 3-wire SPI off) |
| Transport.Spin | bme280.c:33-36 | the retry loop stops at the first successful call or once the counter is spent; calls made plus counter left equals the budget plus one, and a nonzero counter means the last call succeeded |
| Transport.RunPhase | bme280.c:29-38 | a phase succeeds exactly when one of its first five calls succeeds, stopping at that call; otherwise it makes six calls and fails |
| Transport.ReadBuf | bme280.c:27-77 | a read (`bme280_read_buf`, and `bme280_read_byte` with length 1) succeeds exactly when both phases succeed; otherwise -EIO, and a failed address phase runs no data phase |
| Transport.WriteByte | bme280.c:79-97 | a write succeeds exactly when one of the first five calls of its single phase succeeds; otherwise -EIO after six calls |
| Transport.PersistentFailure | bme280.c:27-38 | a primitive that always fails gives -EIO after exactly six address calls and no data call |
| Transport.LateSuccessIgnored | bme280.c:33-38 | a success on the sixth call of a phase is still a failure |
| RawSample.Unpack20 | bme280.c:176-177 | a raw pressure or temperature reading is a 20-bit value |
| RawSample.Unpack16 | bme280.c:183 | a raw humidity reading is a 16-bit value |
| RawSample.Unpack20Pack20 | bme280.c:176-177 | every 20-bit reading packed into its three registers unpacks to itself |
| RawSample.Pack20Unpack20 | bme280.c:176-177 | unpacking keeps every bit of the three registers except the low nibble of the last one |
| RawSample.Unpack20IgnoresLowNibble | bme280.c:176-177 | the low nibble of the xlsb register never affects the reading |
| RawSample.Unpack16RoundTrip | bme280.c:183 | unpacking and packing the two humidity registers are mutually inverse |
| CalibrationCodec.LittleEndianWords | bme280.c:210-213 | reading bytes into a `uint16_t` array on a little-endian CPU makes word i the low byte 2i plus 256 times the high byte 2i+1 |
| CalibrationCodec.WordsOfBytes | bme280.c:210-213 | splitting words into bytes and reassembling them gives the words back |
| CalibrationCodec.BytesOfWords | bme280.c:210-213 | assembling words from an even number of bytes loses no byte |
| CalibrationCodec.DecodeTempPress | bme280.c:215-226 | assigning the twelve words to T1..P9 leaves the humidity constants unchanged |
| CalibrationCodec.TempPressRoundTrip | bme280.c:215-226 | the assignment of the twelve words to T1..P9 is lossless in both directions |
| CalibrationCodec.DecodeTempPressBlock | bme280.c:213-226 | the constants decoded from the 24-byte block re-encode to exactly that block; the humidity constants are untouched |
| CalibrationCodec.H4 | bme280.c:234 | H4 is a 12-bit value |
| CalibrationCodec.H5 | bme280.c:235 | H5 is a 12-bit value |
| CalibrationCodec.DecodeHumidity | bme280.c:229-236 | H1 is the 0xA1 byte; H2..H6 decoded from the seven 0xE1 bytes re-encode to exactly those bytes, so the nibble sharing of H4/H5 loses nothing; temperature and pressure constants are untouched |
| CalibrationCodec.DecodeOfHumidityBytes | bme280.c:229-236 | every record with 12-bit H4 and H5 decodes back from its own encoding |
| Compensation.CompensateTemp | bme280.c:103-115 | `t_fine` is the sum of the linear and quadratic corrections; the temperature is 5·t_fine/256 rounded to nearest; nothing else changes |
| Compensation.CompensatePress | bme280.c:117-142 | with a zero divisor the pressure is 0 and no division happens; otherwise it is the final value modulo 2^32; nothing else changes |
| Compensation.ZeroP1GivesZeroPressure | bme280.c:127-133 | a zero P1 always takes the zero-divisor path and reports 0 |
| Compensation.CompensateHumidity | bme280.c:144-160 | a non-negative intermediate reads at most 102400; at or above the ceiling exactly 102400; below it the intermediate divided by 4096; a negative one wraps modulo 2^32 to exactly 2^32 plus the intermediate shifted right by 12, which is at least 2^32 - 2^19; nothing else changes |
| Compensation.CompensateHumidityClamped | bme280.c:155-159 | with the datasheet's lower clamp every reading lies in [0, 102400] and agrees with the code for non-negative intermediates |
| Compensation.NegativeHumidityWraps | bme280.c:155-159 | typical constants and a raw reading of 0 give a negative intermediate, a reading of 4294845290, and 0 with the lower clamp |
| Compensation.DatasheetTemperature | bme280.c:103-115 | the datasheet's temperature example gives t_fine 128422 and 25.08 degC |
| Compensation.DatasheetPressure | bme280.c:117-142 | the datasheet's pressure example gives 25767233 / 256 Pa |
| Compensation.TypicalHumidity | bme280.c:144-160 | typical humidity constants and a raw reading of 30000 give 53206 / 1024 %RH |
| Driver.Classify | bme280.c:244-252 | 0x60 is a BME280, 0x58 and 0x56 are BMP280s, every other id is refused |
| Driver.Sample2Refused | bme280.c:246-251 | the BMP280 sample id 0x57 is refused |
| Driver.BurstLength | bme280.c:166-170 | the burst read is 8 bytes for a BME280 and 6 for anything else |
| Driver.SampleFetch | bme280.c:162-188 | a cycle issues one burst read of `BurstLength` bytes (8 for a BME280, 6 otherwise) from 0xF7 and succeeds exactly when that read does; on failure -EIO and the record is untouched; on success temperature comes first and pressure (and, for a BME280 only, humidity) use this cycle's `t_fine`; a BMP280 keeps its old humidity |
| Driver.GettersReportLastCycle | bme280.c:190-206 | the getters report what the last successful cycle computed (temperature, pressure, and for a BME280 humidity), keep the old values after a failed cycle, and on a BMP280 keep returning the old humidity |
| Driver.ReadCompensation | bme280.c:208-238 | only the calibration changes; it re-encodes to exactly the 0x88 block and, for a BME280, to the 0xA1 byte and the 0xE1 block; other chips keep their humidity constants; the reads are issued in order |
| Driver.Configure | bme280.c:256-261 | `ctrl_hum` is written first and only for a BME280, then `ctrl_meas`, then `config`; the record is untouched |
| Driver.Configured | bme280.c:254-261 | after a supported id the calibration reads come before the configuration writes, and the record is the one calibration loading gives |
| Driver.Init | bme280.c:240-264 | the id byte is stored whatever happens; an unsupported id gives -EINVAL after the id read alone; a supported one gives 0 with the calibration loaded; readings and `t_fine` never change |
| Driver.InitTransactionOrder | bme280.c:240-264 | the full transaction sequence of init for a BME280 (seven transactions) and for a BMP280 (four) |
| Driver.InitIgnoresBusOutcomes | bme280.c:240-264 | the status, record and transactions of init depend only on the bytes delivered, never on whether a transaction failed |

## Left out

- The I2C master primitive, the bus and slave address selection
  (`BME280_I2C_BUS`, `BME280_I2C_ADDR`, 0x76/0x77) and the `qm_i2c_status_t`
  out-parameter. They belong to the HAL, which is modelled as an oracle of
  call outcomes and buffer contents.
- `QM_PRINTF` console messages in `bme280_init`. They are output only.
- `main.c`, the demo polling loop and the platform setup. These are callers,
  not part of the driver.
- The numeric values of `EIO` and `EINVAL`. They come from platform headers
  that are not part of this model, so the statuses are a datatype.
- Driver.Temperature, Driver.Pressure, Driver.Humidity: the getters carry no
  contract of their own, because each only returns a field.
  `GettersReportLastCycle` states what they return after a cycle.
- Compensation.CompensateTemp, Compensation.CompensatePress,
  Compensation.CompensateHumidity, Driver.SampleFetch: these do not model
  signed overflow of the C intermediates. Overflow is undefined behaviour,
  so they require every intermediate to fit its type.
- Compensation.CompensateTemp, Compensation.CompensateHumidity: the final
  `t_fine * 5 + 128` and the unsigned conversion are not range-checked,
  because they are bounded by intermediates that are checked.
- Driver.SampleFetch: the model keeps the code's humidity without the lower
  clamp, so that it describes the driver as shipped. The clamped formula is
  `CompensateHumidityClamped`.
- Transport.ReadBuf: the model does not say which bytes a failed or
  partial read leaves in the buffer. The reply's bytes are taken as given.
- Passing the same `struct bme280_data` to several callers, and concurrent
  use. The driver does no locking, and the model treats the record as a
  value.

## Findings

| source | as written | input that shows it | evidently intended | confidence | as-written member | corrected member |
|---|---|---|---|---|---|---|
| bme280.c:155-159 | the humidity intermediate is clamped only from above, then shifted and converted to `uint32_t` | t_fine 128422, H1..H6 = 75, 362, 0, 324, 0, 30, raw humidity 0: the intermediate is -499734783 and the reading 4294845290 / 1024 %RH | the datasheet formula the code cites also clamps the intermediate at 0, giving 0 %RH | medium, not executed | Compensation.NegativeHumidityWraps | Compensation.CompensateHumidityClamped |
