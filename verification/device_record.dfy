/** The per-device record `struct bme280_data` (bme280.h): the factory
    calibration constants, the cached compensated readings, the carry
    between temperature and the other two channels, and the chip id. The
    field widths of the C struct are the subset types of the fields. */
module DeviceRecord {
  import opened FixedWidth

  datatype Calibration = Calibration(
    t1: uint16, t2: int16, t3: int16,
    p1: uint16, p2: int16, p3: int16, p4: int16, p5: int16,
    p6: int16, p7: int16, p8: int16, p9: int16,
    h1: uint8, h2: int16, h3: uint8, h4: int16, h5: int16, h6: int8)

  datatype Device = Device(
    cal: Calibration,
    compTemp: int32,       // 0.01 degC
    compPress: uint32,     // 1/256 Pa
    compHumidity: uint32,  // 1/1024 %RH
    tFine: int32,
    chipId: uint8)
}
