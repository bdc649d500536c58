/** The PCF8563 real-time clock: packed-BCD conversion, the 8-byte register
    write that sets the time, and the masked decode of the seven time
    registers read back. */
module Rtc {
  import opened Wire
  import opened Bsp

  /** The time as the firmware holds it: plain decimal fields, the year as
      an offset from 2000. */
  datatype RtcTime = RtcTime(year: u8, mon: u8, day: u8, weekday: u8, hour: u8, min: u8, sec: u8)

  const ZeroTime := RtcTime(0, 0, 0, 0, 0, 0, 0)

  /** Address of the seconds register, the first of seven time registers. */
  const RegSec: u8 := 0x02

  /** The seven registers seconds..year, as read in one burst. */
  type Regs = s: seq<u8> | |s| == 7 witness [0, 0, 0, 0, 0, 0, 0]

  type ErrCode = c: int | c != 0 witness -1

  /** Outcome of the I2C write-then-read of the time registers. */
  datatype I2cRead = ReadOk(regs: Regs) | ReadFailed(code: ErrCode)

  /** The low-bit masks the driver applies: one less than a power of two. */
  predicate IsLowMask(m: u8)
  {
    m == 0x7F || m == 0x3F || m == 0x1F || m == 0x0F || m == 0x07
  }

  /** `b & m` for a low-bit mask `m`: the low bits of `b`, i.e. its
      remainder modulo `m + 1`. */
  function AndMask(b: u8, m: u8): (r: u8)
    requires IsLowMask(m)
    ensures r <= m && r <= b
  {
    b % (m + 1)
  }

  /** `b | 0x80`: sets the top bit of a byte. */
  function SetTopBit(b: u8): (r: u8)
    ensures r >= 0x80 && r % 0x80 == b % 0x80
  {
    if b < 0x80 then b + 0x80 else b
  }

  /** `dec_to_bcd`: `(val / 10) << 4 | val % 10`, truncated to a byte. The
      two operands share no bit, so the `|` is an addition. For every byte
      the low nibble is the units digit; the high nibble is the tens count
      truncated to four bits. */
  function DecToBcd(v: u8): (b: u8)
    ensures b % 16 == v % 10 && b / 16 == (v / 10) % 16
  {
    ((v / 10) * 16 + v % 10) % 0x100
  }

  /** `bcd_to_dec`: `(val >> 4) * 10 + (val & 0x0F)`. Never above 165, and
      at most 99 for a byte whose nibbles are both decimal digits. */
  function BcdToDec(b: u8): (v: u8)
    ensures v <= 165
    ensures b / 16 <= 9 && b % 16 <= 9 ==> v <= 99
  {
    (b / 16) * 10 + b % 16
  }

  /** Both nibbles are decimal digits. */
  predicate IsBcd(b: u8)
  {
    b / 16 <= 9 && b % 16 <= 9
  }

  /** Ranges the PCF8563 accepts for each field. */
  predicate ValidTime(t: RtcTime)
  {
    t.sec < 60 && t.min < 60 && t.hour < 24 && t.day <= 31 &&
    t.weekday <= 6 && t.mon <= 12 && t.year <= 99
  }

  /** For a two-digit decimal, the BCD byte carries the tens in its high
      nibble and the units in its low nibble. */
  lemma DecToBcdDigits(v: u8)
    requires v <= 99
    ensures DecToBcd(v) / 16 == v / 10 && DecToBcd(v) % 16 == v % 10
    ensures IsBcd(DecToBcd(v))
  {
  }

  lemma BcdRoundTrip(v: u8)
    requires v <= 99
    ensures BcdToDec(DecToBcd(v)) == v
  {
    DecToBcdDigits(v);
  }

  lemma BcdInverse(b: u8)
    requires IsBcd(b)
    ensures BcdToDec(b) <= 99
    ensures DecToBcd(BcdToDec(b)) == b
  {
    var v := BcdToDec(b);
    assert v / 10 == b / 16 && v % 10 == b % 16;
  }

  /** The BCD byte of a two-digit decimal is bounded by its tens digit. */
  lemma DecToBcdAtMost(v: u8, tens: nat)
    requires v <= 99 && v / 10 <= tens
    ensures DecToBcd(v) <= tens * 16 + 9
  {
  }

  /** `bsp_rtc_set_time`'s buffer: the start register, then the BCD
      seconds (voltage-low bit cleared), minutes, hours, days, weekdays,
      months and years. */
  function SetFrame(t: RtcTime): (f: seq<u8>)
    ensures |f| == 8 && f[0] == RegSec
    ensures f[1] < 0x80
  {
    [RegSec, AndMask(DecToBcd(t.sec), 0x7F), DecToBcd(t.min), DecToBcd(t.hour),
     DecToBcd(t.day), DecToBcd(t.weekday), DecToBcd(t.mon), DecToBcd(t.year)]
  }

  /** The time decoded from the seven registers: status and unused bits
      masked off (voltage-low in seconds, century in months), the year
      taken whole. Each mask bounds its field whatever the registers hold:
      seconds and minutes at most 85, hours and days at most 45, the weekday
      at most 7 and the month at most 25. */
  function DecodeRegs(regs: Regs): (t: RtcTime)
    ensures t.sec <= 85 && t.min <= 85 && t.hour <= 45 && t.day <= 45
    ensures t.weekday <= 7 && t.mon <= 25
  {
    MaskedDecAtMost(regs[0], 0x7F);
    MaskedDecAtMost(regs[1], 0x7F);
    MaskedDecAtMost(regs[2], 0x3F);
    MaskedDecAtMost(regs[3], 0x3F);
    MaskedDecAtMost(regs[4], 0x07);
    MaskedDecAtMost(regs[5], 0x1F);
    RtcTime(
      year := BcdToDec(regs[6]),
      mon := BcdToDec(AndMask(regs[5], 0x1F)),
      day := BcdToDec(AndMask(regs[3], 0x3F)),
      weekday := BcdToDec(AndMask(regs[4], 0x07)),
      hour := BcdToDec(AndMask(regs[2], 0x3F)),
      min := BcdToDec(AndMask(regs[1], 0x7F)),
      sec := BcdToDec(AndMask(regs[0], 0x7F)))
  }

  /** A byte read through a low-bit mask decodes to at most the mask's
      tens count times ten plus its largest units digit. */
  lemma MaskedDecAtMost(b: u8, m: u8)
    requires IsLowMask(m)
    ensures BcdToDec(AndMask(b, m)) <= (m / 16) * 10 + (if m < 16 then m else 15)
  {
    var r := AndMask(b, m);
    assert r / 16 <= m / 16;
  }

  /** Neither the voltage-low flag (bit 7 of seconds) nor the century flag
      (bit 7 of months) affects the decoded time. */
  lemma DecodeIgnoresStatusBits(regs: Regs)
    ensures DecodeRegs(regs[0 := SetTopBit(regs[0])][5 := SetTopBit(regs[5])]) == DecodeRegs(regs)
  {
    var flagged: Regs := regs[0 := SetTopBit(regs[0])][5 := SetTopBit(regs[5])];
    TopBitMasked(regs[0], 0x7F);
    TopBitMasked(regs[5], 0x1F);
    assert flagged[1..5] == regs[1..5] && flagged[6] == regs[6];
  }

  /** A mask of at most seven bits does not see bit 7. */
  lemma TopBitMasked(b: u8, m: u8)
    requires m == 0x7F || m == 0x1F
    ensures AndMask(SetTopBit(b), m) == AndMask(b, m)
  {
    if b < 0x80 {
      assert SetTopBit(b) == b + 0x80;
      if m == 0x1F {
        assert (b + 0x80) % 0x20 == b % 0x20;
      }
    }
  }

  /** One register written as BCD and read back through a mask that
      covers its digits yields the decimal written. */
  lemma MaskedRoundTrip(v: u8, m: u8)
    requires v <= 99 && IsLowMask(m) && DecToBcd(v) <= m
    ensures BcdToDec(AndMask(DecToBcd(v), m)) == v
  {
    var b := DecToBcd(v);
    assert AndMask(b, m) == b by {
      if m == 0x7F {
      } else if m == 0x3F {
      } else if m == 0x1F {
      } else if m == 0x0F {
      } else {
      }
    }
    BcdRoundTrip(v);
  }

  // One lemma per register keeps each proof's arithmetic small.

  lemma SecReadBack(t: RtcTime)
    requires ValidTime(t)
    ensures DecodeRegs(SetFrame(t)[1..]).sec == t.sec
  {
    DecToBcdAtMost(t.sec, 5);
    assert SetFrame(t)[1..][0] == DecToBcd(t.sec);
    MaskedRoundTrip(t.sec, 0x7F);
  }

  lemma MinReadBack(t: RtcTime)
    requires ValidTime(t)
    ensures DecodeRegs(SetFrame(t)[1..]).min == t.min
  {
    DecToBcdAtMost(t.min, 5);
    assert SetFrame(t)[1..][1] == DecToBcd(t.min);
    MaskedRoundTrip(t.min, 0x7F);
  }

  lemma HourReadBack(t: RtcTime)
    requires ValidTime(t)
    ensures DecodeRegs(SetFrame(t)[1..]).hour == t.hour
  {
    DecToBcdAtMost(t.hour, 2);
    assert SetFrame(t)[1..][2] == DecToBcd(t.hour);
    MaskedRoundTrip(t.hour, 0x3F);
  }

  lemma DayReadBack(t: RtcTime)
    requires ValidTime(t)
    ensures DecodeRegs(SetFrame(t)[1..]).day == t.day
  {
    DecToBcdAtMost(t.day, 3);
    assert SetFrame(t)[1..][3] == DecToBcd(t.day);
    MaskedRoundTrip(t.day, 0x3F);
  }

  lemma WeekdayReadBack(t: RtcTime)
    requires ValidTime(t)
    ensures DecodeRegs(SetFrame(t)[1..]).weekday == t.weekday
  {
    DecToBcdAtMost(t.weekday, 0);
    assert SetFrame(t)[1..][4] == DecToBcd(t.weekday);
    MaskedRoundTrip(t.weekday, 0x07);
  }

  lemma MonReadBack(t: RtcTime)
    requires ValidTime(t)
    ensures DecodeRegs(SetFrame(t)[1..]).mon == t.mon
  {
    DecToBcdAtMost(t.mon, 1);
    assert SetFrame(t)[1..][5] == DecToBcd(t.mon);
    MaskedRoundTrip(t.mon, 0x1F);
  }

  lemma YearReadBack(t: RtcTime)
    requires ValidTime(t)
    ensures DecodeRegs(SetFrame(t)[1..]).year == t.year
  {
    assert SetFrame(t)[1..][6] == DecToBcd(t.year);
    BcdRoundTrip(t.year);
  }

  /** Reading back the registers written by a set gives the time that was
      set, for every time within the clock's ranges. */
  lemma GetAfterSet(t: RtcTime)
    requires ValidTime(t)
    ensures DecodeRegs(SetFrame(t)[1..]) == t
  {
    SecReadBack(t);
    MinReadBack(t);
    HourReadBack(t);
    DayReadBack(t);
    WeekdayReadBack(t);
    MonReadBack(t);
    YearReadBack(t);
  }

  /** `bsp_rtc_set_time`: fills the register buffer slot by slot and writes
      it to the clock; the bus status is returned as it is. */
  method SetTime(hw: Hw, time: RtcTime, busRet: int) returns (ret: int)
    modifies hw
    ensures ret == busRet
    ensures hw.log == old(hw.log) + [I2cWrite(SetFrame(time))]
  {
    var buffer := new u8[8];
    buffer[0] := RegSec;
    buffer[1] := AndMask(DecToBcd(time.sec), 0x7F);
    buffer[2] := DecToBcd(time.min);
    buffer[3] := DecToBcd(time.hour);
    buffer[4] := DecToBcd(time.day);
    buffer[5] := DecToBcd(time.weekday);
    buffer[6] := DecToBcd(time.mon);
    buffer[7] := DecToBcd(time.year);
    assert buffer[..] == SetFrame(time);
    hw.Record(I2cWrite(buffer[..]));
    ret := busRet;
  }

  /** The status and time after `bsp_rtc_get_time(&time)`. */
  datatype TimeRead = TimeRead(ret: int, time: RtcTime)

  /** `bsp_rtc_get_time`: on a bus failure the error is returned and the
      caller's time is left as it was; otherwise every field is decoded. */
  function GetTime(r: I2cRead, time: RtcTime): (res: TimeRead)
    ensures res.ret == 0 <==> r.ReadOk?
    ensures r.ReadFailed? ==> res == TimeRead(r.code, time)
    ensures r.ReadOk? ==> res.time == DecodeRegs(r.regs)
  {
    match r
    case ReadFailed(code) => TimeRead(code, time)
    case ReadOk(regs) => TimeRead(0, DecodeRegs(regs))
  }

  /** Setting a valid time and reading it back over a working bus yields
      that time. */
  lemma SetThenGet(t: RtcTime, before: RtcTime)
    requires ValidTime(t)
    ensures GetTime(ReadOk(SetFrame(t)[1..]), before) == TimeRead(0, t)
  {
    GetAfterSet(t);
  }
}
