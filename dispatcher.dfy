/** The command dispatcher task `msg_rcv_task`: it takes the oldest packet
    from the command queue and acts on its identifier, updating the device
    record, driving actuators, forwarding RTC requests and replying with
    the current time. */
module MsgRcvTask {
  import opened Wire
  import opened Bsp
  import opened MsgQueue
  import Nus
  import Rtc

  /** `sizeof(RTC_TIME_ST)`: seven one-byte fields. */
  const RtcTimeSize: u16 := 7

  /** What handling one packet does: the new device record, the driver
      calls in order, and the frame offered to the transport, if any. */
  datatype Effects = Effects(state: BspState, calls: seq<Call>, reply: Option<seq<u8>>)

  /** The LED colour selected by a channel byte, as `msg_rcv_task` numbers
      them (0 red, 1 green, 2 blue); other channels select none. */
  function Channel(led: LedStatus, num: u8): Option<u8>
  {
    if num == 0 then Some(led.red)
    else if num == 1 then Some(led.green)
    else if num == 2 then Some(led.blue)
    else None
  }

  function SetLed(led: LedStatus, num: u8, onoff: u8): LedStatus
  {
    if num == 0 then led.(red := onoff)
    else if num == 1 then led.(green := onoff)
    else if num == 2 then led.(blue := onoff)
    else led
  }

  /** The time a SET_RTC payload carries: year, month, day, weekday, hour,
      minute, second, one raw byte each. */
  function ForwardedTime(m: Message): Rtc.RtcTime
  {
    Rtc.RtcTime(m[0], m[1], m[2], m[3], m[4], m[5], m[6])
  }

  /** The bytes of the reply struct sent for GET_RTC: the identifier, the
      header length `sizeof(RTC_TIME_ST)` (the payload size, not counting
      the header), then the time fields in struct order. */
  function RtcReply(t: Rtc.RtcTime): seq<u8>
  {
    Le16(MsgNotifyRtc) + Le16(RtcTimeSize) + RtcTimeBytes(t)
  }

  /** The memory image of an `RTC_TIME_ST`: seven bytes in field order. */
  function RtcTimeBytes(t: Rtc.RtcTime): seq<u8>
  {
    [t.year, t.mon, t.day, t.weekday, t.hour, t.min, t.sec]
  }

  /** The effect of dispatching one packet. `rtcRead` is what the clock
      answers if the packet asks for the time. A packet makes at most one
      driver call; only GET_RTC replies, always with an 11-byte frame; only
      the LED commands touch the LED record and only SET_PRD_TICK the tick;
      the IMU sample and the configuration cache belong to other tasks and
      are never written. */
  function Dispatch(p: NusPacket, s: BspState, rtcRead: Rtc.I2cRead): (e: Effects)
    ensures |e.calls| <= 1
    ensures e.reply.Some? <==> p.id == MsgGetRtc
    ensures e.reply.Some? ==> |e.reply.value| == RtcTimeSize as int + 4
    ensures e.state.led != s.led ==> p.id == MsgLedCtrl || p.id == MsgSetPwmLedWidth
    ensures e.state.prdTick != s.prdTick ==> p.id == MsgSetPrdTick
    ensures e.state.imu == s.imu && e.state.nvs == s.nvs
  {
    var m := p.message;
    if p.id == MsgLedCtrl then
      Effects(s.(led := SetLed(s.led, m[0], m[1])), [LedCtrl(m[0], m[1])], None)
    else if p.id == MsgGetBattAdc then
      Effects(s, [], None)
    else if p.id == MsgSetPwmLedWidth then
      var w := Be32(m[0], m[1], m[2], m[3]);
      Effects(s.(led := s.led.(pwmWidth := w)), [PwmLedCtrl(w)], None)
    else if p.id == MsgSetPrdTick then
      Effects(s.(prdTick := Be16(m[0], m[1])), [], None)
    else if p.id == MsgSetRtc then
      Effects(s, [I2cWrite(Rtc.SetFrame(ForwardedTime(m)))], None)
    else if p.id == MsgGetRtc then
      // The status of the read is ignored: a failed read replies with the
      // zero-initialised time.
      Effects(s, [], Some(RtcReply(Rtc.GetTime(rtcRead, Rtc.ZeroTime).time)))
    else
      Effects(s, [], None)
  }

  /** LED_CTRL on channel 0, 1 or 2 stores the raw on/off byte in that
      colour, leaves the other colours, the PWM width and the rest of the
      record alone, and drives that LED. */
  lemma LedCtrlSetsChannel(p: NusPacket, s: BspState, r: Rtc.I2cRead)
    requires p.id == MsgLedCtrl && p.message[0] <= 2
    ensures var e := Dispatch(p, s, r);
      Channel(e.state.led, p.message[0]) == Some(p.message[1]) &&
      (forall c: u8 :: c != p.message[0] ==> Channel(e.state.led, c) == Channel(s.led, c)) &&
      e.state.led.pwmWidth == s.led.pwmWidth &&
      e.state.(led := s.led) == s &&
      e.calls == [LedCtrl(p.message[0], p.message[1])] && e.reply == None
  {
  }

  /** LED_CTRL on any other channel changes no state but still calls the
      LED driver with that channel. */
  lemma LedCtrlOtherChannel(p: NusPacket, s: BspState, r: Rtc.I2cRead)
    requires p.id == MsgLedCtrl && p.message[0] > 2
    ensures var e := Dispatch(p, s, r);
      e.state == s && e.calls == [LedCtrl(p.message[0], p.message[1])] && e.reply == None
  {
  }

  /** SET_PWM_LED_WIDTH stores, and passes to the PWM LED, the big-endian
      32-bit value of the first four payload bytes. */
  lemma SetPwmWidth(p: NusPacket, s: BspState, r: Rtc.I2cRead)
    requires p.id == MsgSetPwmLedWidth
    ensures var m := p.message;
      var w := m[0] as int * 0x100_0000 + m[1] as int * 0x1_0000 + m[2] as int * 0x100 + m[3];
      var e := Dispatch(p, s, r);
      e.state == s.(led := s.led.(pwmWidth := w)) &&
      e.calls == [PwmLedCtrl(w)] && e.reply == None
  {
    var m := p.message;
    Be32Digits(m[0], m[1], m[2], m[3]);
  }

  /** SET_PRD_TICK sets the periodic tick to the big-endian 16-bit value of
      the first two payload bytes and changes nothing else. */
  lemma SetPrdTick(p: NusPacket, s: BspState, r: Rtc.I2cRead)
    requires p.id == MsgSetPrdTick
    ensures var e := Dispatch(p, s, r);
      e.state == s.(prdTick := p.message[0] as int * 256 + p.message[1]) &&
      e.calls == [] && e.reply == None
  {
  }

  /** SET_RTC writes the payload's first seven bytes to the clock as year,
      month, day, weekday, hour, minute, second; for a valid time the clock
      then reads back exactly those values. */
  lemma SetRtcForwards(p: NusPacket, s: BspState, r: Rtc.I2cRead)
    requires p.id == MsgSetRtc
    ensures var m := p.message;
      var e := Dispatch(p, s, r);
      var t := Rtc.RtcTime(m[0], m[1], m[2], m[3], m[4], m[5], m[6]);
      e.state == s && e.reply == None &&
      e.calls == [I2cWrite(Rtc.SetFrame(t))] &&
      (Rtc.ValidTime(t) ==> Rtc.DecodeRegs(Rtc.SetFrame(t)[1..]) == t)
  {
    var m := p.message;
    var t := Rtc.RtcTime(m[0], m[1], m[2], m[3], m[4], m[5], m[6]);
    if Rtc.ValidTime(t) {
      Rtc.GetAfterSet(t);
    }
  }

  /** GET_RTC changes no state and replies with an 11-byte frame: the
      identifier NOTIFY_RTC and the length 7 little-endian, then the time
      read, or seven zero bytes when the read fails. */
  lemma GetRtcReplies(p: NusPacket, s: BspState, r: Rtc.I2cRead)
    requires p.id == MsgGetRtc
    ensures var e := Dispatch(p, s, r);
      e.state == s && e.calls == [] && e.reply.Some? &&
      var f := e.reply.value;
      |f| == RtcTimeSize as int + 4 &&
      FromLe16(f[0], f[1]) == MsgNotifyRtc && FromLe16(f[2], f[3]) == RtcTimeSize &&
      (r.ReadFailed? ==> forall i :: 4 <= i < |f| ==> f[i] == 0) &&
      (r.ReadOk? ==> f[4..] == RtcTimeBytes(Rtc.DecodeRegs(r.regs)))
  {
    var t := Rtc.GetTime(r, Rtc.ZeroTime).time;
    Le16RoundTrip(MsgNotifyRtc);
    Le16RoundTrip(RtcTimeSize);
    assert RtcReply(t)[4..] == RtcTimeBytes(t);
  }

  /** GET_BATT_ADC and identifiers the dispatcher does not know change
      nothing and call nothing. */
  lemma OtherIdsIgnored(p: NusPacket, s: BspState, r: Rtc.I2cRead)
    requires p.id == MsgGetBattAdc ||
             (p.id != MsgLedCtrl && p.id != MsgSetPwmLedWidth && p.id != MsgSetPrdTick &&
              p.id != MsgSetRtc && p.id != MsgGetRtc)
    ensures Dispatch(p, s, r) == Effects(s, [], None)
  {
  }

  /** From the air to the LED: the frame carrying LED_CTRL big-endian,
      then channel 0 (red) and value 1 (on), queued on an empty queue and
      dispatched, turns the red LED on and calls the LED driver for
      channel 0 with value 1. */
  lemma RedOnEndToEnd(stale: Message, s: BspState, r: Rtc.I2cRead)
    ensures var frame := [MsgLedCtrl / 0x100, MsgLedCtrl % 0x100, 0x00, 0x01];
      var put := Enqueue([], Nus.DecodeFrame(frame, stale));
      put.err == 0 && |put.items| == 1 &&
      var e := Dispatch(put.items[0], s, r);
      e.state.led.red == 1 && e.calls == [LedCtrl(0, 1)]
  {
  }

  /** One iteration of `msg_rcv_task`: take the oldest packet (or keep
      waiting on an empty queue) and act on it. `rtcWriteRet` and `rtcRead`
      are the clock's answers on the I2C bus. */
  method Step(q: NusMsgQueue, board: Board, hw: Hw, link: Nus.Link,
              rtcWriteRet: int, rtcRead: Rtc.I2cRead)
    returns (handled: Option<NusPacket>)
    requires q.Valid()
    modifies q, board, hw, link
    ensures q.Valid() && link.connected == old(link.connected)
    ensures old(q.items) == [] ==>
      handled == None && q.items == old(q.items) && board.State() == old(board.State()) &&
      hw.log == old(hw.log) && link.sent == old(link.sent)
    ensures old(q.items) != [] ==>
      handled == Some(old(q.items)[0]) && q.items == old(q.items)[1..] &&
      var e := Dispatch(old(q.items)[0], old(board.State()), rtcRead);
      board.State() == e.state && hw.log == old(hw.log) + e.calls &&
      link.sent == old(link.sent) + (if link.connected && e.reply.Some? then [e.reply.value] else [])
  {
    handled := q.Get();
    if handled == None {
      return;
    }
    var rx := handled.value;
    var m := rx.message;
    if rx.id == MsgLedCtrl {
      var num := m[0];
      var onoff := m[1];
      if num == 0 {
        board.led := board.led.(red := onoff);
      } else if num == 1 {
        board.led := board.led.(green := onoff);
      } else if num == 2 {
        board.led := board.led.(blue := onoff);
      }
      hw.Record(LedCtrl(num, onoff));
    } else if rx.id == MsgGetBattAdc {
    } else if rx.id == MsgSetPwmLedWidth {
      var pulseWidth := Be32(m[0], m[1], m[2], m[3]);
      hw.Record(PwmLedCtrl(pulseWidth));
      board.led := board.led.(pwmWidth := pulseWidth);
    } else if rx.id == MsgSetPrdTick {
      board.prdTick := Be16(m[0], m[1]);
    } else if rx.id == MsgSetRtc {
      var date := ForwardedTime(m);
      var _ := Rtc.SetTime(hw, date, rtcWriteRet);
    } else if rx.id == MsgGetRtc {
      var gdate := Rtc.GetTime(rtcRead, Rtc.ZeroTime).time;
      link.SendData(RtcReply(gdate));
    }
  }
}
