/** The driver's entry points (bme280.c): chip identification and
    configuration (`bme280_init`, `bme280_read_compensation`), the sample
    cycle (`bme280_sample_fetch`) and the getters. Each is a transition on
    the device record; the bus answers as an oracle, one reply per
    transaction the entry point issues. */
module Driver {
  import opened FixedWidth
  import opened Registers
  import opened DeviceRecord
  import opened Transport
  import opened CalibrationCodec
  import opened RawSample
  import opened Compensation

  // ------------------------------------------------------------ identification

  /** The chip families the driver tells apart by the id register. */
  datatype ChipKind = Bme280 | Bmp280 | Unsupported

  /** 0x60 is a BME280; 0x58 and 0x56 are BMP280s; every other id,
      including the BMP280 sample id 0x57, is refused. */
  function Classify(id: uint8): (k: ChipKind)
    ensures k == Bme280 <==> id == Bme280ChipId
    ensures k == Bmp280 <==> id == Bmp280ChipIdMp || id == Bmp280ChipIdSample1
    ensures k == Unsupported <==> id !in {Bme280ChipId, Bmp280ChipIdMp, Bmp280ChipIdSample1}
  {
    if id == Bme280ChipId then Bme280
    else if id == Bmp280ChipIdMp || id == Bmp280ChipIdSample1 then Bmp280
    else Unsupported
  }

  lemma Sample2Refused()
    ensures Classify(Bmp280ChipIdSample2) == Unsupported
  {
  }

  // ------------------------------------------------------------------ sampling

  /** The number of raw bytes a sample burst reads: the humidity bytes are
      read only from a BME280. */
  function BurstLength(chipId: uint8): (n: nat)
    ensures n == 8 <==> chipId == Bme280ChipId
    ensures n == 6 <==> chipId != Bme280ChipId
  {
    if chipId == Bme280ChipId then 8 else 6
  }

  function AdcPress(buf: seq<uint8>): int
    requires |buf| >= 6
  {
    Unpack20(buf[0], buf[1], buf[2])
  }

  function AdcTemp(buf: seq<uint8>): int
    requires |buf| >= 6
  {
    Unpack20(buf[3], buf[4], buf[5])
  }

  function AdcHumidity(buf: seq<uint8>): int
    requires |buf| >= 8
  {
    Unpack16(buf[6], buf[7])
  }

  /** The compensations of one sample cycle stay inside their C types. */
  predicate FetchInRange(d: Device, buf: seq<uint8>)
    requires |buf| == BurstLength(d.chipId)
  {
    && TempInRange(d.cal, AdcTemp(buf))
    && var t := CompensateTemp(d, AdcTemp(buf));
    && PressInRange(t.cal, t.tFine, AdcPress(buf))
    && (d.chipId == Bme280ChipId ==> HumInRange(t.cal, t.tFine, AdcHumidity(buf)))
  }

  /** The outcome of one sample cycle: the status, the record afterwards
      and the transaction issued. */
  datatype FetchResult = FetchResult(status: Status, dev: Device, ops: seq<BusOp>)

  /** One sample cycle: a single burst read from the pressure MSB register,
      8 bytes long for a BME280 and 6 otherwise. It succeeds exactly when
      that read does; a
      failed read returns -EIO and leaves the record as it was. Otherwise
      the temperature is compensated first, pressure and (for a BME280
      only) humidity then use the `t_fine` of this same cycle, and a
      BMP280 keeps its previous humidity field. Calibration and chip id
      never change. */
  function SampleFetch(d: Device, reply: ReadReply): (r: FetchResult)
    requires ReadShaped(reply, BurstLength(d.chipId))
    requires ReadBuf(reply).status == Ok ==> FetchInRange(d, reply.bytes)
    ensures r.ops == [ReadOp(RegPressMsb, BurstLength(d.chipId))]
    ensures r.status == Ok <==> Succeeds(reply.addr) && Succeeds(reply.data)
    ensures r.status != Ok ==> r.status == Eio && r.dev == d
    ensures r.status == Ok ==>
      var buf := reply.bytes;
      var t := CompensateTemp(d, AdcTemp(buf));
      var carried := d.(tFine := r.dev.tFine);
      && r.dev.cal == d.cal && r.dev.chipId == d.chipId
      && r.dev.tFine == t.tFine && r.dev.compTemp == t.compTemp
      && r.dev.compPress == CompensatePress(carried, AdcPress(buf)).compPress
      && (d.chipId == Bme280ChipId ==>
            r.dev.compHumidity == CompensateHumidity(carried, AdcHumidity(buf)).compHumidity)
      && (d.chipId != Bme280ChipId ==> r.dev.compHumidity == d.compHumidity)
  {
    var burst := [ReadOp(RegPressMsb, BurstLength(d.chipId))];
    var transfer := ReadBuf(reply);
    if transfer.status != Ok then FetchResult(Eio, d, burst)
    else
      var buf := reply.bytes;
      var t := CompensateTemp(d, AdcTemp(buf));
      var p := CompensatePress(t, AdcPress(buf));
      if d.chipId == Bme280ChipId then
        FetchResult(Ok, CompensateHumidity(p, AdcHumidity(buf)), burst)
      else FetchResult(Ok, p, burst)
  }

  /** Temperature in 0.01 degC, as cached by the last cycle. */
  function Temperature(d: Device): int32 {
    d.compTemp
  }

  /** Pressure in 1/256 Pa, as cached by the last cycle. */
  function Pressure(d: Device): uint32 {
    d.compPress
  }

  /** Humidity in 1/1024 %RH, as cached by the last cycle. */
  function Humidity(d: Device): uint32 {
    d.compHumidity
  }

  /** The getters report what the last successful cycle computed, and
      what was there before when a cycle fails; on a BMP280 the humidity
      getter keeps returning whatever the field held. */
  lemma GettersReportLastCycle(d: Device, reply: ReadReply)
    requires ReadShaped(reply, BurstLength(d.chipId))
    requires ReadBuf(reply).status == Ok ==> FetchInRange(d, reply.bytes)
    ensures var r := SampleFetch(d, reply);
      && (r.status != Ok ==>
            Temperature(r.dev) == Temperature(d) && Pressure(r.dev) == Pressure(d)
            && Humidity(r.dev) == Humidity(d))
      && (r.status == Ok ==>
            var t := CompensateTemp(d, AdcTemp(reply.bytes));
            && Temperature(r.dev) == t.compTemp
            && Pressure(r.dev) == CompensatePress(t, AdcPress(reply.bytes)).compPress
            && (d.chipId == Bme280ChipId ==>
                  Humidity(r.dev)
                  == CompensateHumidity(CompensatePress(t, AdcPress(reply.bytes)),
                                        AdcHumidity(reply.bytes)).compHumidity))
      && (d.chipId != Bme280ChipId ==> Humidity(r.dev) == Humidity(d))
  {
  }

  // ------------------------------------------------------------ initialisation

  /** The bus's replies to the transactions `bme280_init` can issue, in
      program order: the id read, the 0x88 block, the H1 byte, the 0xE1
      block, and the writes of `ctrl_hum`, `ctrl_meas` and `config`. */
  datatype InitBus = InitBus(
    id: ReadReply, comp: ReadReply, hum1: ReadReply, hum2: ReadReply,
    ctrlHum: WriteReply, ctrlMeas: WriteReply, config: WriteReply)

  predicate InitBusShaped(bus: InitBus) {
    && ReadShaped(bus.id, 1) && ReadShaped(bus.comp, 24)
    && ReadShaped(bus.hum1, 1) && ReadShaped(bus.hum2, 7)
    && WriteShaped(bus.ctrlHum) && WriteShaped(bus.ctrlMeas) && WriteShaped(bus.config)
  }

  /** A transaction as issued, without its outcome. */
  datatype BusOp = ReadOp(reg: uint8, len: nat) | WriteOp(reg: uint8, value: uint8)

  /** A record after some transactions: the transactions issued, in order,
      and the outcome the driver got back for each. */
  datatype Loaded = Loaded(dev: Device, ops: seq<BusOp>, outcomes: seq<Transaction>)

  /** Loading the calibration. The record afterwards holds exactly the
      constants the 0x88 block encodes (re-encoding them gives the block
      back), and for a BME280 exactly the H1 byte and the 0xE1 block; for
      other chips the humidity constants are left as they were. The bus
      statuses are not consulted. Nothing but the calibration changes. */
  function ReadCompensation(d: Device, bus: InitBus): (r: Loaded)
    requires InitBusShaped(bus)
    ensures r.dev == d.(cal := r.dev.cal)
    ensures LittleEndianBytes(TempPressWords(r.dev.cal)) == bus.comp.bytes
    ensures d.chipId == Bme280ChipId ==>
      && r.dev.cal.h1 == bus.hum1.bytes[0]
      && HumidityEncodable(r.dev.cal) && HumidityBytes(r.dev.cal) == bus.hum2.bytes
    ensures d.chipId != Bme280ChipId ==>
      && r.dev.cal.h1 == d.cal.h1 && r.dev.cal.h2 == d.cal.h2 && r.dev.cal.h3 == d.cal.h3
      && r.dev.cal.h4 == d.cal.h4 && r.dev.cal.h5 == d.cal.h5 && r.dev.cal.h6 == d.cal.h6
    ensures r.ops ==
      if d.chipId == Bme280ChipId
      then [ReadOp(RegCompStart, 24), ReadOp(RegHumCompPart1, 1), ReadOp(RegHumCompPart2, 7)]
      else [ReadOp(RegCompStart, 24)]
    ensures |r.outcomes| == |r.ops|
  {
    var cal := DecodeTempPressBlock(d.cal, bus.comp.bytes);
    if d.chipId == Bme280ChipId then
      Loaded(d.(cal := DecodeHumidity(cal, bus.hum1.bytes[0], bus.hum2.bytes)),
             [ReadOp(RegCompStart, 24), ReadOp(RegHumCompPart1, 1), ReadOp(RegHumCompPart2, 7)],
             [ReadBuf(bus.comp), ReadBuf(bus.hum1), ReadBuf(bus.hum2)])
    else
      Loaded(d.(cal := cal), [ReadOp(RegCompStart, 24)], [ReadBuf(bus.comp)])
  }

  datatype InitResult = InitResult(status: Status, loaded: Loaded)

  /** The configuration writes, in order: `ctrl_hum` first and only for a
      BME280 (the chip latches it on the following `ctrl_meas` write), then
      `ctrl_meas`, then `config`. Their statuses are recorded, not used. */
  function Configure(d: Device, bus: InitBus): (r: Loaded)
    requires InitBusShaped(bus)
    ensures r.dev == d && |r.outcomes| == |r.ops|
    ensures r.ops ==
      (if d.chipId == Bme280ChipId then [WriteOp(RegCtrlHum, HumidityOver)] else [])
      + [WriteOp(RegCtrlMeas, CtrlMeasVal), WriteOp(RegConfig, ConfigVal)]
  {
    var tail := [WriteOp(RegCtrlMeas, CtrlMeasVal), WriteOp(RegConfig, ConfigVal)];
    var tailOutcomes := [WriteByte(bus.ctrlMeas), WriteByte(bus.config)];
    if d.chipId == Bme280ChipId
    then Loaded(d, [WriteOp(RegCtrlHum, HumidityOver)] + tail, [WriteByte(bus.ctrlHum)] + tailOutcomes)
    else Loaded(d, tail, tailOutcomes)
  }

  /** The part of initialisation after a supported id: the calibration
      reads, then the configuration writes. */
  function Configured(identified: Device, bus: InitBus): (r: Loaded)
    requires InitBusShaped(bus)
    ensures |r.outcomes| == |r.ops|
    ensures r.dev == ReadCompensation(identified, bus).dev
    ensures identified.chipId == Bme280ChipId ==>
      r.ops ==
        [ReadOp(RegCompStart, 24), ReadOp(RegHumCompPart1, 1), ReadOp(RegHumCompPart2, 7),
         WriteOp(RegCtrlHum, HumidityOver), WriteOp(RegCtrlMeas, CtrlMeasVal),
         WriteOp(RegConfig, ConfigVal)]
    ensures identified.chipId != Bme280ChipId ==>
      r.ops ==
        [ReadOp(RegCompStart, 24), WriteOp(RegCtrlMeas, CtrlMeasVal), WriteOp(RegConfig, ConfigVal)]
  {
    var calibrated := ReadCompensation(identified, bus);
    var configured := Configure(calibrated.dev, bus);
    Loaded(configured.dev, calibrated.ops + configured.ops,
           calibrated.outcomes + configured.outcomes)
  }

  /** Initialisation. The id byte lands in the record whatever happens. An
      unsupported id returns -EINVAL after the id read and nothing else.
      A supported one loads the calibration, writes `ctrl_hum` (BME280
      only, before `ctrl_meas`), then `ctrl_meas` and then `config`, and
      returns 0 whatever the bus answered (`InitTransactionOrder` gives
      the transactions in order). The cached readings and `t_fine` are
      never touched. */
  function Init(d: Device, bus: InitBus): (r: InitResult)
    requires InitBusShaped(bus)
    ensures |r.loaded.outcomes| == |r.loaded.ops|
    ensures r.loaded.dev.chipId == bus.id.bytes[0]
    ensures r.loaded.dev.compTemp == d.compTemp && r.loaded.dev.compPress == d.compPress
    ensures r.loaded.dev.compHumidity == d.compHumidity && r.loaded.dev.tFine == d.tFine
    ensures Classify(bus.id.bytes[0]) == Unsupported ==>
      && r.status == Einval && r.loaded.dev == d.(chipId := bus.id.bytes[0])
      && r.loaded.ops == [ReadOp(RegId, 1)]
    ensures Classify(bus.id.bytes[0]) != Unsupported ==>
      && r.status == Ok
      && r.loaded.dev == ReadCompensation(d.(chipId := bus.id.bytes[0]), bus).dev
  {
    var identified := d.(chipId := bus.id.bytes[0]);
    var idRead := ReadBuf(bus.id);
    if Classify(identified.chipId) == Unsupported then
      InitResult(Einval, Loaded(identified, [ReadOp(RegId, 1)], [idRead]))
    else
      var rest := Configured(identified, bus);
      InitResult(Ok, Loaded(rest.dev, [ReadOp(RegId, 1)] + rest.ops, [idRead] + rest.outcomes))
  }

  /** The transactions `bme280_init` issues for a supported chip: the id
      read, the calibration reads (the humidity ones only for a BME280),
      then `ctrl_hum` (BME280 only), `ctrl_meas` and `config`, one outcome
      recorded for each. */
  lemma InitTransactionOrder(d: Device, bus: InitBus)
    requires InitBusShaped(bus)
    ensures var r := Init(d, bus);
      |r.loaded.outcomes| == |r.loaded.ops|
    ensures Classify(bus.id.bytes[0]) == Bme280 ==>
      Init(d, bus).loaded.ops ==
        [ReadOp(RegId, 1), ReadOp(RegCompStart, 24), ReadOp(RegHumCompPart1, 1),
         ReadOp(RegHumCompPart2, 7), WriteOp(RegCtrlHum, HumidityOver),
         WriteOp(RegCtrlMeas, CtrlMeasVal), WriteOp(RegConfig, ConfigVal)]
    ensures Classify(bus.id.bytes[0]) == Bmp280 ==>
      Init(d, bus).loaded.ops ==
        [ReadOp(RegId, 1), ReadOp(RegCompStart, 24),
         WriteOp(RegCtrlMeas, CtrlMeasVal), WriteOp(RegConfig, ConfigVal)]
  {
    var identified := d.(chipId := bus.id.bytes[0]);
    if Classify(identified.chipId) != Unsupported {
      var rest := Configured(identified, bus);
      assert Init(d, bus).loaded.ops == [ReadOp(RegId, 1)] + rest.ops;
    }
  }

  /** The outcome of `bme280_init` depends on the bytes the bus delivers
      and not on whether any transaction succeeded: two buses that deliver
      the same bytes give the same status, record and transactions. */
  lemma InitIgnoresBusOutcomes(d: Device, bus: InitBus, bus': InitBus)
    requires InitBusShaped(bus) && InitBusShaped(bus')
    requires bus.id.bytes == bus'.id.bytes && bus.comp.bytes == bus'.comp.bytes
    requires bus.hum1.bytes == bus'.hum1.bytes && bus.hum2.bytes == bus'.hum2.bytes
    ensures Init(d, bus).status == Init(d, bus').status
    ensures Init(d, bus).loaded.dev == Init(d, bus').loaded.dev
    ensures Init(d, bus).loaded.ops == Init(d, bus').loaded.ops
  {
  }
}
