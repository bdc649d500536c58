/** The LSM6DS3TR-C motion sensor: the data-ready semaphore given by the
    trigger callback, one iteration of the streaming task, power-up and
    configuration, and the on-demand read. The driver is seen only through
    its answers (fetch results and status codes) and the calls made to it. */
module Imu {
  import opened Wire
  import opened Bsp
  import Nus

  /** `sizeof(sensor_packet_t)`: the packed header and six samples. */
  const ImuPacketLen: u16 := 16

  /** The semaphore's limit: at most one pending data-ready signal. */
  const SemLimit := 1

  /** `sensor_packet_t`: what one streaming iteration sends. */
  datatype ImuPacket = ImuPacket(
    id: u16, len: u16,
    accX: i16, accY: i16, accZ: i16,
    gyroX: i16, gyroY: i16, gyroZ: i16)

  /** What `sensor_sample_fetch` and the two `sensor_channel_get` calls
      yield. */
  datatype Fetch = FetchFailed | Sample(accel: Axes, gyro: Axes)

  /** The packed struct in memory, as handed to the transport. */
  function PacketBytes(p: ImuPacket): (b: seq<u8>)
    ensures |b| == ImuPacketLen as int
  {
    Le16(p.id) + Le16(p.len) +
    LeI16(p.accX) + LeI16(p.accY) + LeI16(p.accZ) +
    LeI16(p.gyroX) + LeI16(p.gyroY) + LeI16(p.gyroZ)
  }

  /** How a central reads a notification of `ImuPacketLen` bytes. */
  function ParsePacket(b: seq<u8>): ImuPacket
    requires |b| == ImuPacketLen as int
  {
    ImuPacket(
      FromLe16(b[0], b[1]), FromLe16(b[2], b[3]),
      I16OfBits(FromLe16(b[4], b[5])), I16OfBits(FromLe16(b[6], b[7])),
      I16OfBits(FromLe16(b[8], b[9])), I16OfBits(FromLe16(b[10], b[11])),
      I16OfBits(FromLe16(b[12], b[13])), I16OfBits(FromLe16(b[14], b[15])))
  }

  /** The wire image of a packet decodes to that packet. */
  lemma ParsePacketBytes(p: ImuPacket)
    ensures ParsePacket(PacketBytes(p)) == p
  {
    var b := PacketBytes(p);
    assert b[0..2] == Le16(p.id) && b[2..4] == Le16(p.len);
    assert b[4..6] == LeI16(p.accX) && b[6..8] == LeI16(p.accY) && b[8..10] == LeI16(p.accZ);
    assert b[10..12] == LeI16(p.gyroX) && b[12..14] == LeI16(p.gyroY) && b[14..16] == LeI16(p.gyroZ);
    Le16RoundTrip(p.id);
    Le16RoundTrip(p.len);
    LeI16RoundTrip(p.accX);
    LeI16RoundTrip(p.accY);
    LeI16RoundTrip(p.accZ);
    LeI16RoundTrip(p.gyroX);
    LeI16RoundTrip(p.gyroY);
    LeI16RoundTrip(p.gyroZ);
  }

  /** The packet built from one sample; `toRaw` is `convert_to_int16`
      with its scale of 100. Its header names NOTIFY_IMU and announces the
      packet's own size in bytes. */
  function ScaledPacket(accel: Axes, gyro: Axes, toRaw: SensorValue -> i16): (p: ImuPacket)
    ensures p.id == MsgNotifyImu && p.len as int == |PacketBytes(p)|
  {
    ImuPacket(MsgNotifyImu, ImuPacketLen,
      toRaw(accel.x), toRaw(accel.y), toRaw(accel.z),
      toRaw(gyro.x), toRaw(gyro.y), toRaw(gyro.z))
  }

  /** The streamed sample copied into `g_Bsp.imu`: the six scaled fields
      take the packet's samples and nothing else changes. */
  function RecordPacket(imu: ImuState, p: ImuPacket): (r: ImuState)
    ensures r.accX == p.accX && r.accY == p.accY && r.accZ == p.accZ
    ensures r.gyroX == p.gyroX && r.gyroY == p.gyroY && r.gyroZ == p.gyroZ
    ensures r.accel == imu.accel && r.gyro == imu.gyro && r.isInit == imu.isInit
  {
    imu.(accX := p.accX, accY := p.accY, accZ := p.accZ,
         gyroX := p.gyroX, gyroY := p.gyroY, gyroZ := p.gyroZ)
  }

  /** What a central receives from one streaming iteration is exactly what
      the task recorded in the device state: identifier NOTIFY_IMU, a length
      equal to the frame's size, and the six scaled samples in order. */
  lemma StreamMatchesRecord(imu: ImuState, accel: Axes, gyro: Axes, toRaw: SensorValue -> i16)
    ensures var p := ScaledPacket(accel, gyro, toRaw);
      var b := PacketBytes(p);
      var q := ParsePacket(b);
      var r := RecordPacket(imu, p);
      q.id == MsgNotifyImu && q.len as int == |b| &&
      q.accX == r.accX == toRaw(accel.x) && q.accY == r.accY == toRaw(accel.y) &&
      q.accZ == r.accZ == toRaw(accel.z) && q.gyroX == r.gyroX == toRaw(gyro.x) &&
      q.gyroY == r.gyroY == toRaw(gyro.y) && q.gyroZ == r.gyroZ == toRaw(gyro.z) &&
      r.(accX := imu.accX, accY := imu.accY, accZ := imu.accZ,
         gyroX := imu.gyroX, gyroY := imu.gyroY, gyroZ := imu.gyroZ) == imu
  {
    ParsePacketBytes(ScaledPacket(accel, gyro, toRaw));
  }

  /** `k_sem_give` on a semaphore with limit 1. */
  function SemGive(count: nat): (c: nat)
    ensures c == SemLimit
  {
    if count < SemLimit then count + 1 else SemLimit
  }

  /** `n` data-ready interrupts in a row. They coalesce: however many
      arrive while the task is busy, they leave a single pending signal,
      which releases the task once. */
  function GiveN(count: nat, n: nat): (c: nat)
    ensures n == 0 ==> c == count
    ensures n > 0 ==> c == SemLimit
    decreases n
  {
    if n == 0 then count else GiveN(SemGive(count), n - 1)
  }

  /** `imu_sem`, defined with initial count 0 and limit 1. */
  class ImuSem {
    var count: nat

    ghost predicate Valid()
      reads this
    {
      count <= SemLimit
    }

    constructor ()
      ensures Valid() && count == 0
    {
      count := 0;
    }

    /** `trigger_handler`: signal the task. */
    method Give()
      requires Valid()
      modifies this
      ensures Valid() && count == SemGive(old(count))
    {
      if count < SemLimit {
        count := count + 1;
      }
    }

    /** A `k_sem_take(K_FOREVER)` that is allowed to proceed now, if the
        semaphore has been given; otherwise the taker keeps waiting. */
    method Take() returns (ok: bool)
      requires Valid()
      modifies this
      ensures Valid()
      ensures ok == (old(count) > 0)
      ensures count == if ok then old(count) - 1 else old(count)
    {
      ok := count > 0;
      if ok {
        count := count - 1;
      }
    }
  }

  /** One iteration of `imu_task`. With no signal the task keeps waiting; a
      failed fetch consumes the signal and nothing else; otherwise the
      scaled sample is recorded and sent (the send is dropped while no
      central is connected). */
  method TaskStep(sem: ImuSem, board: Board, link: Nus.Link, fetch: Fetch,
                  toRaw: SensorValue -> i16)
    returns (sent: Option<ImuPacket>)
    requires sem.Valid()
    modifies sem, board, link
    ensures sem.Valid() && sem.count == 0
    ensures link.connected == old(link.connected)
    ensures old(sem.count) == 0 || fetch.FetchFailed? ==>
      sent == None && board.State() == old(board.State()) && link.sent == old(link.sent)
    ensures old(sem.count) > 0 && fetch.Sample? ==>
      var p := ScaledPacket(fetch.accel, fetch.gyro, toRaw);
      sent == Some(p) &&
      board.State() == old(board.State()).(imu := RecordPacket(old(board.imu), p)) &&
      link.sent == old(link.sent) + (if link.connected then [PacketBytes(p)] else [])
  {
    var ready := sem.Take();
    if !ready {
      return None;
    }
    if fetch.FetchFailed? {
      return None;
    }
    var packet := ScaledPacket(fetch.accel, fetch.gyro, toRaw);
    board.imu := board.imu.(accX := packet.accX, accY := packet.accY, accZ := packet.accZ);
    board.imu := board.imu.(gyroX := packet.gyroX, gyroY := packet.gyroY, gyroZ := packet.gyroZ);
    link.SendData(PacketBytes(packet));
    sent := Some(packet);
  }

  /** The answers the GPIO controller and sensor driver give during
      `bsp_lsm6ds3tr_init`, one per call. */
  datatype InitEnv = InitEnv(
    gpioReady: bool, pinConfigRet: int, deviceReady: bool, triggerRet: int,
    accelOdrRet: int, gyroOdrRet: int, slopeThRet: int, slopeDurRet: int)

  /** The status of `enable_sensor_power`: -1 if the GPIO port is not ready,
      the configuration error as it is, else 0. */
  function PowerRet(gpioReady: bool, pinConfigRet: int): (r: int)
    ensures r <= 0 && (r == 0 <==> gpioReady && pinConfigRet >= 0)
  {
    if !gpioReady then -1
    else if pinConfigRet < 0 then pinConfigRet
    else 0
  }

  /** Output data rate, in Hz, set on both channels. */
  const Odr := SensorValue(26, 0)
  /** The slope threshold 0.5 as a fixed-point value. */
  const SlopeTh := SensorValue(0, 500000)
  /** One sample over threshold triggers. */
  const SlopeDur := SensorValue(1, 0)

  /** The full configuration sequence, in call order. */
  const ConfigCalls: seq<Call> := [
    SensorPower(true), SensorTriggerSet,
    SensorAttrSet(AccelXyz, SamplingFrequency, Odr),
    SensorAttrSet(GyroXyz, SamplingFrequency, Odr),
    SensorAttrSet(AccelXyz, SlopeThreshold, SlopeTh),
    SensorAttrSet(AccelXyz, SlopeDuration, SlopeDur)]

  /** Status and driver calls of `bsp_lsm6ds3tr_init`. */
  datatype InitOut = InitOut(ret: int, calls: seq<Call>)

  /** Init succeeds exactly when power-up, the device, the trigger and the
      slope threshold all succeed, and then has powered the sensor, set the
      trigger and configured 26 Hz on both channels before the slope
      filter. Any failure returns -1 after a prefix of those calls. */
  function InitSpec(env: InitEnv): (o: InitOut)
    ensures o.ret == 0 <==> InitSucceeds(env)
    ensures o.ret == 0 || o.ret == -1
    ensures o.ret == 0 ==> o.calls == ConfigCalls
    ensures |o.calls| <= |ConfigCalls| && o.calls == ConfigCalls[..|o.calls|]
  {
    if PowerRet(env.gpioReady, env.pinConfigRet) < 0 then InitOut(-1, [])
    else if !env.deviceReady then InitOut(-1, ConfigCalls[..1])
    else if env.triggerRet < 0 then InitOut(-1, ConfigCalls[..2])
    else if env.slopeThRet < 0 then InitOut(-1, ConfigCalls[..5])
    else InitOut(0, ConfigCalls)
  }

  predicate InitSucceeds(env: InitEnv)
  {
    env.gpioReady && env.pinConfigRet >= 0 && env.deviceReady &&
    env.triggerRet >= 0 && env.slopeThRet >= 0
  }

  /** The status of the two sampling-rate settings and of the slope
      duration is never looked at. */
  lemma OptionalSettingsIgnored(env: InitEnv, accelOdrRet: int, gyroOdrRet: int, slopeDurRet: int)
    ensures InitSpec(env) ==
      InitSpec(env.(accelOdrRet := accelOdrRet, gyroOdrRet := gyroOdrRet, slopeDurRet := slopeDurRet))
  {
  }

  /** `enable_sensor_power(conoff)`. */
  method EnableSensorPower(hw: Hw, on: bool, gpioReady: bool, pinConfigRet: int) returns (ret: int)
    modifies hw
    ensures ret == PowerRet(gpioReady, pinConfigRet)
    ensures hw.log == old(hw.log) + (if ret == 0 then [SensorPower(on)] else [])
  {
    if !gpioReady {
      return -1;
    }
    if pinConfigRet < 0 {
      return pinConfigRet;
    }
    hw.Record(SensorPower(on));
    ret := 0;
  }

  /** `bsp_lsm6ds3tr_init`: `isInit` is raised only on success. */
  method Init(hw: Hw, board: Board, env: InitEnv) returns (ret: int)
    modifies hw, board
    ensures |old(hw.log)| <= |hw.log| && hw.log[..|old(hw.log)|] == old(hw.log)
    ensures InitOut(ret, hw.log[|old(hw.log)|..]) == InitSpec(env)
    ensures board.State() ==
      if ret == 0 then old(board.State()).(imu := old(board.imu).(isInit := true))
      else old(board.State())
  {
    ghost var log0 := hw.log;
    var p := EnableSensorPower(hw, true, env.gpioReady, env.pinConfigRet);
    if p < 0 {
      return -1;
    }
    if !env.deviceReady {
      return -1;
    }
    hw.Record(SensorTriggerSet);
    if env.triggerRet < 0 {
      return -1;
    }
    hw.Record(SensorAttrSet(AccelXyz, SamplingFrequency, Odr));
    hw.Record(SensorAttrSet(GyroXyz, SamplingFrequency, Odr));
    hw.Record(SensorAttrSet(AccelXyz, SlopeThreshold, SlopeTh));
    if env.slopeThRet < 0 {
      assert hw.log[|log0|..] == ConfigCalls[..5];
      return -1;
    }
    hw.Record(SensorAttrSet(AccelXyz, SlopeDuration, SlopeDur));
    assert hw.log[|log0|..] == ConfigCalls;
    board.imu := board.imu.(isInit := true);
    ret := 0;
  }

  /** Status and `g_Bsp.imu` after `bsp_lsm6ds3tr_read`. */
  datatype ReadOut = ReadOut(ret: int, imu: ImuState)

  /** A successful read stores exactly the fetched fixed-point sample and
      leaves the streamed fields and the init flag alone; a failed one
      changes nothing. */
  function ReadSpec(imu: ImuState, fetch: Fetch): (o: ReadOut)
    ensures o.ret == 0 <==> fetch.Sample?
    ensures o.ret == 0 || o.ret == -1
    ensures fetch.Sample? ==> o.imu.accel == fetch.accel && o.imu.gyro == fetch.gyro
    ensures o.imu.(accel := imu.accel, gyro := imu.gyro) == imu
  {
    match fetch
    case FetchFailed => ReadOut(-1, imu)
    case Sample(accel, gyro) => ReadOut(0, imu.(accel := accel, gyro := gyro))
  }

  /** `bsp_lsm6ds3tr_read`. */
  method Read(board: Board, fetch: Fetch) returns (ret: int)
    modifies board
    ensures ReadOut(ret, board.imu) == ReadSpec(old(board.imu), fetch)
    ensures board.State() == old(board.State()).(imu := board.imu)
  {
    if fetch.FetchFailed? {
      return -1;
    }
    board.imu := board.imu.(accel := fetch.accel, gyro := fetch.gyro);
    ret := 0;
  }
}
