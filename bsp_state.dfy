/** The process-wide device record `g_Bsp` and the log of calls the core
    makes into hardware drivers (LED GPIOs, the PWM LED, the I2C bus, the
    buzzer PWM and the motion-sensor driver). */
module Bsp {
  import opened Wire

  /** `g_Bsp.led_status`: the raw on/off byte last commanded per colour and
      the PWM LED pulse width in nanoseconds. */
  datatype LedStatus = LedStatus(red: u8, green: u8, blue: u8, pwmWidth: u32)

  /** Zephyr's fixed-point `struct sensor_value`: integer and millionths. */
  datatype SensorValue = SensorValue(val1: i32, val2: i32)

  datatype Axes = Axes(x: SensorValue, y: SensorValue, z: SensorValue)

  /** `g_Bsp.imu`: the scaled sample last streamed, the raw sample last read
      on demand, and whether initialisation completed. */
  datatype ImuState = ImuState(
    accX: i16, accY: i16, accZ: i16,
    gyroX: i16, gyroY: i16, gyroZ: i16,
    accel: Axes, gyro: Axes,
    isInit: bool)

  /** The persisted configuration record. */
  datatype ConfigRecord = ConfigRecord(uniqueId: u16, bootCount: u32, prdTick: u32)

  /** A snapshot of every field of `g_Bsp` the core writes. */
  datatype BspState = BspState(prdTick: u32, led: LedStatus, imu: ImuState, nvs: ConfigRecord)

  const ZeroValue := SensorValue(0, 0)
  const ZeroAxes := Axes(ZeroValue, ZeroValue, ZeroValue)
  const ZeroImu := ImuState(0, 0, 0, 0, 0, 0, ZeroAxes, ZeroAxes, false)
  const ZeroState := BspState(0, LedStatus(0, 0, 0, 0), ZeroImu, ConfigRecord(0, 0, 0))

  datatype SensorChannel = AccelXyz | GyroXyz
  datatype SensorAttribute = SamplingFrequency | SlopeThreshold | SlopeDuration

  /** One call from the core into a driver. */
  datatype Call =
    | LedCtrl(led: u8, onOff: u8)                 // bsp_led_ctrl
    | PwmLedCtrl(widthNs: u32)                     // bsp_pwm_led_ctrl
    | I2cWrite(bytes: seq<u8>)                     // i2c_write_dt to the RTC
    | PwmSet(periodNs: u32, pulseNs: u32)          // pwm_set_dt on the buzzer
    | SensorPower(on: bool)                        // gpio_pin_set on P1.08
    | SensorTriggerSet                             // sensor_trigger_set
    | SensorAttrSet(channel: SensorChannel, attribute: SensorAttribute, value: SensorValue)

  /** `g_Bsp`, updated in place by the tasks. */
  class Board {
    var prdTick: u32
    var led: LedStatus
    var imu: ImuState
    var nvs: ConfigRecord

    function State(): BspState
      reads this
    {
      BspState(prdTick, led, imu, nvs)
    }

    /** `BSP_ST g_Bsp = {0}`. */
    constructor ()
      ensures State() == ZeroState
    {
      prdTick := 0;
      led := ZeroState.led;
      imu := ZeroImu;
      nvs := ZeroState.nvs;
    }
  }

  /** The drivers, seen only through the calls made to them. */
  class Hw {
    var log: seq<Call>

    constructor ()
      ensures log == []
    {
      log := [];
    }

    method Record(c: Call)
      modifies this
      ensures log == old(log) + [c]
    {
      log := log + [c];
    }
  }
}
