# Sensor-node firmware core, modelled in Dafny

The firmware runs on an nRF52840 board. A phone or other central talks to
it over the Nordic UART Service (NUS). This project models the command and
telemetry logic of that firmware:

- A transport frame `[idHi, idLo, payload...]` becomes a command packet. The
  packet goes into a bounded queue of depth 10, and a dispatcher task handles
  it: it updates the device record `g_Bsp`, drives the LEDs, forwards
  set-time requests to the PCF8563 real-time clock and replies with the
  current time.
- The RTC driver converts between decimal and packed BCD. It writes an
  8-byte register frame and masks status bits off the seven registers it
  reads back.
- The configuration store lives on flash NVS. It holds one record under one
  key and has a ready flag. It writes defaults on first boot. `read` raises
  the boot count in memory only, `write` refreshes the periodic tick from the
  live value, and `reset` erases the flash and runs init again.
- The LSM6DS3TR-C motion sensor driver has a data-ready semaphore with limit
  1 and a streaming step that records and sends a 16-byte packet. Its init
  is a sequence of steps, and only some of their failures abort. It also has
  an on-demand read.
- The microphone pipeline has a pool of 12 PCM blocks and a queue of 10
  handles. The producer drops a block back into the pool when the queue is
  full, and the consumer frees each block after use.
- The PWM buzzer converts a frequency in hertz to a period in nanoseconds at
  a 50% duty cycle, plays the tone and then silences it.

Modules and files:

| file | module | models |
|---|---|---|
| wire.dfy | Wire | fixed-width integers, message ids, big-endian inbound fields, little-endian outbound struct members |
| bsp_state.dfy | Bsp | `g_Bsp` as the class `Board`; the calls into drivers as the log of the class `Hw` |
| msg_queue.dfy | MsgQueue | the packet and `nus_msgq` with its producer `bsp_nus_msg_send_to_rcv_task` |
| nus.dfy | Nus | `current_conn` and `ble_nus_send_data` (class `Link`), and `bt_receive_cb` |
| dispatcher.dfy | MsgRcvTask | one iteration of `msg_rcv_task` |
| rtc.dfy | Rtc | `bsp_rtc_pcf8563t.c` |
| nvs.dfy | Nvs | `bsp_flash_nvs.c` |
| imu.dfy | Imu | `bsp_lsm6ds3tr.c` |
| audio.dfy | Audio | `bsp_mic_msm261d.c` |
| buzzer.dfy | Buzzer | `bsp_pwm_buzzer.c` |

Code that updates state in place is modelled by classes with `modifies`
clauses. This covers `g_Bsp`, the queues, the semaphore, the NVS ready flag
and store, the audio pool and the connection flag. Each method is proved
against a pure function of the old state and the driver's answers. The
properties the source promises are lemmas about those functions. What
drivers, buses and the Bluetooth stack answer comes in as parameters:

- fetch results;
- status codes;
- the bytes the RTC returns;
- whether a device is ready.

Calls to actuators are appended to `Hw.log`. Sends are appended to
`Link.sent`, but only while a central is connected.

Assumptions about definitions that are not part of this model:

- The `NUS_MSG_*` ids are defined outside the modelled files, so the model gives them placeholder values (LED_CTRL 1 … GET_RTC 6, NOTIFY_IMU 16, NOTIFY_RTC 17). The lemmas name the ids rather than their values and rely only on the ids being distinct. `MsgRcvTask.RedOnEndToEnd` builds its frame from `MsgLedCtrl`, so it holds for any LED_CTRL value.
- The NVS defaults are `BSP_DEFAULT_PRD_TICK_COUNT` = 1000 ms, and placeholder values for the unique id (0x0001) and boot count (0). The lemmas name these defaults rather than their values. `Nvs.FirstBootThenRead` states the next boot count as `NextBoot(DefaultBootCount)`, so it also covers a default at the 32-bit wrap.
- `NVS_INFO_ST` is `{u16 unique_id; u32 boot_count; u32 prdTick}` (`Bsp.ConfigRecord`). The boot count's 32-bit width is what makes `NextBoot` wrap to 0 after 0xFFFFFFFF; the unique id's 16 bits follow the `0x%04x` format it is logged with.
- `BSP_ST` as declared in `src/bsp/bsp.h:25-30` holds only `isInit` and `prdTick`, while the modelled code also writes `g_Bsp.led_status`, `g_Bsp.imu` and `g_Bsp.nvs`; their types are not part of this model. The model assumes `led_status` is `{u8 led_red; u8 led_green; u8 led_blue; u32 pwm_led_width}` (`Bsp.LedStatus`), so LED_CTRL stores the raw on/off byte. If the colour fields were `bool`, a stored 2 would read back as 1.
- In SET_PWM_LED_WIDTH, `message[0] << 24` shifts a byte promoted to `int`; for bytes of 0x80 and above that shift is undefined in C. `Wire.Be32` gives the intended unsigned value.
- `RTC_TIME_ST` is seven one-byte fields, in the order year, mon, day, weekday, hour, min, sec. `struct nus_msg_packet` is `{u16 id; u16 len; u8 message[128]}`, following the comment at the top of `bsp_msg_rcv_task.c`.
- The GET_RTC reply carries `len == sizeof(RTC_TIME_ST)` (7) while 11 bytes are sent. The model keeps the 7 as written.

## Model

| member | source | states |
|---|---|---|
| Wire.Be16 | src/main.c:31 | the big-endian field `hi << 8 \| lo` has `hi` as its quotient by 256 and `lo` as its remainder |
| Wire.Be32 | src/bsp/bsp_msg_rcv_task.c:71 | the 32-bit big-endian field's upper half is the 16-bit field of its first two bytes, its lower half that of its last two |
| Wire.Le16 | src/bsp/bsp_msg_rcv_task.c:100-103 | a 16-bit struct member is stored as two bytes, low byte first, that weigh its value |
| Wire.LeI16 | src/bsp/sensors/bsp_lsm6ds3tr.c:50-55 | a signed 16-bit member is stored as the two little-endian bytes of its two's complement: a negative value weighs `x + 2^16` |
| Wire.Le16RoundTrip | src/bsp/bsp_msg_rcv_task.c:100-103 | a little-endian 16-bit struct member reads back as the value stored |
| Wire.LeI16RoundTrip | src/bsp/sensors/bsp_lsm6ds3tr.c:45-56 | a signed 16-bit member's two's-complement bytes read back as the value stored |
| Wire.Be32Digits | src/bsp/bsp_msg_rcv_task.c:71 | the 32-bit big-endian field is `b0·2^24 + b1·2^16 + b2·2^8 + b3`, with `b0` on top and `b3` at the bottom |
| MsgQueue.Enqueue | src/bsp/bsp_msg_rcv_task.c:116-134 | the put returns 0 exactly when fewer than 10 packets are queued and then appends at the tail; otherwise it returns -1 and leaves the queue as it was |
| MsgQueue.EnqueueAll | src/bsp/bsp_msg_rcv_task.c:116-134 | every packet of a burst of puts is either accepted or refused, and the queue grows by the accepted ones only, keeping what it held at its head |
| MsgQueue.BurstAcceptsUpToDepth | src/bsp/bsp_msg_rcv_task.c:122-132 | a burst of puts with no get in between accepts, in order, exactly as many packets as there is room for, and rejects the rest |
| MsgQueue.ElevenIntoEmpty | src/bsp/bsp_msg_rcv_task.c:17 | of 11 packets offered to an empty queue, 10 are accepted and 1 is refused |
| MsgQueue.NusMsgQueue.constructor | src/bsp/bsp_msg_rcv_task.c:17 | the queue starts empty |
| MsgQueue.NusMsgQueue.Put | src/bsp/bsp_msg_rcv_task.c:116-134 | the new queue and the status are those of `Enqueue`, and the depth bound is kept |
| MsgQueue.NusMsgQueue.Get | src/bsp/bsp_msg_rcv_task.c:30 | FIFO: the head is removed and returned; an empty queue is left alone and the consumer keeps waiting |
| Nus.Link.constructor | src/main.c:14 | no central is connected and nothing has been sent |
| Nus.Link.Connected | src/main.c:52-61 | a connection with `err == 0` sets the flag; one with `err != 0` leaves it as it was |
| Nus.Link.Disconnected | src/main.c:63-71 | the flag is cleared |
| Nus.Link.SendData | src/main.c:102-120 | the frame reaches the stack only while connected; otherwise nothing is sent |
| Nus.DecodeFrame | src/main.c:24-34 | id is `data[0]·256 + data[1]`; `len` is the frame length + 2, so `len - 4` counts the payload bytes; payload byte `i` is frame byte `i + 2` |
| Nus.CopyAsWritten | src/main.c:34 | the copy as written stays inside the 128-byte `message` only for frames of at most 128 bytes, and then begins with the payload |
| Nus.CopyOverrunsAt129 | src/main.c:34 | a 129-byte frame overruns `message` as written, while copying only its 127 payload bytes keeps them all |
| Nus.EncodeFrame | src/main.c:31-34 | a central's frame is the big-endian id followed by the payload: two bytes longer than the payload |
| Nus.DecodeEncode | src/main.c:31-34 | decoding a central's frame recovers its id and payload, and `len` is the payload size + 4 |
| Nus.Receive | src/main.c:24-45 | the callback puts the decoded packet on the queue; a refusal only leaves the queue unchanged and is not retried |
| Rtc.AndMask | src/bsp/sensors/bsp_rtc_pcf8563t.c:80-86 | masking keeps a byte within the mask and never raises it |
| Rtc.SetTopBit | src/bsp/sensors/bsp_rtc_pcf8563t.c:50-52 | a status flag in bit 7 leaves the low seven bits alone |
| Rtc.DecToBcd | src/bsp/sensors/bsp_rtc_pcf8563t.c:21-24 | for every byte, the low nibble of `dec_to_bcd` is the units digit and the high nibble the tens count truncated to four bits |
| Rtc.BcdToDec | src/bsp/sensors/bsp_rtc_pcf8563t.c:26-29 | `bcd_to_dec` never exceeds 165, and gives at most 99 for a byte whose nibbles are both decimal digits |
| Rtc.DecToBcdDigits | src/bsp/sensors/bsp_rtc_pcf8563t.c:22-25 | for `v <= 99` the high nibble is `v / 10` and the low nibble `v % 10`, both decimal digits |
| Rtc.BcdRoundTrip | src/bsp/sensors/bsp_rtc_pcf8563t.c:22-30 | `bcd_to_dec(dec_to_bcd(v)) == v` for `v <= 99` |
| Rtc.BcdInverse | src/bsp/sensors/bsp_rtc_pcf8563t.c:22-30 | `dec_to_bcd(bcd_to_dec(b)) == b` for every byte whose nibbles are both at most 9 |
| Rtc.DecToBcdAtMost | src/bsp/sensors/bsp_rtc_pcf8563t.c:22-25 | a two-digit decimal's BCD byte is bounded by its tens digit, so it fits under the read masks |
| Rtc.SetFrame | src/bsp/sensors/bsp_rtc_pcf8563t.c:44-58 | the write frame is 8 bytes: it starts at register 0x02, and its seconds byte has bit 7 clear |
| Rtc.DecodeRegs | src/bsp/sensors/bsp_rtc_pcf8563t.c:79-86 | whatever the registers hold, the masks bound the decoded fields: seconds and minutes at most 85, hours and days at most 45, weekday at most 7, month at most 25 |
| Rtc.DecodeIgnoresStatusBits | src/bsp/sensors/bsp_rtc_pcf8563t.c:79-86 | neither the voltage-low bit of seconds nor the century bit of months changes the decoded time |
| Rtc.MaskedRoundTrip | src/bsp/sensors/bsp_rtc_pcf8563t.c:52-86 | a register written as BCD and read back through a mask that covers its digits gives the decimal written |
| Rtc.SecReadBack | src/bsp/sensors/bsp_rtc_pcf8563t.c:52-80 | seconds below 60 read back as written |
| Rtc.MinReadBack | src/bsp/sensors/bsp_rtc_pcf8563t.c:53-81 | minutes below 60 read back as written |
| Rtc.HourReadBack | src/bsp/sensors/bsp_rtc_pcf8563t.c:54-82 | hours below 24 read back as written |
| Rtc.DayReadBack | src/bsp/sensors/bsp_rtc_pcf8563t.c:55-83 | days up to 31 read back as written |
| Rtc.WeekdayReadBack | src/bsp/sensors/bsp_rtc_pcf8563t.c:56-84 | weekdays up to 6 read back as written |
| Rtc.MonReadBack | src/bsp/sensors/bsp_rtc_pcf8563t.c:57-85 | months up to 12 read back as written |
| Rtc.YearReadBack | src/bsp/sensors/bsp_rtc_pcf8563t.c:58-86 | years up to 99 read back as written |
| Rtc.GetAfterSet | src/bsp/sensors/bsp_rtc_pcf8563t.c:52-86 | decoding the seven registers a set wrote gives back the time set, for every time within the clock's ranges |
| Rtc.SetTime | src/bsp/sensors/bsp_rtc_pcf8563t.c:42-61 | the buffer filled slot by slot is the write frame; it goes to the bus, whose status is returned unchanged |
| Rtc.GetTime | src/bsp/sensors/bsp_rtc_pcf8563t.c:66-89 | returns 0 exactly when the bus read succeeds, and then decodes every field; on failure it returns the bus error and leaves `*time` as it was |
| Rtc.SetThenGet | src/bsp/sensors/bsp_rtc_pcf8563t.c:42-89 | a set followed by a get over a working bus yields the time set, with status 0 |
| MsgRcvTask.Dispatch | src/bsp/bsp_msg_rcv_task.c:41-111 | a packet makes at most one driver call. Only GET_RTC replies, always with an 11-byte frame. Only LED_CTRL and SET_PWM_LED_WIDTH change the LED record, only SET_PRD_TICK changes the tick, and no command touches the IMU sample or the configuration cache |
| MsgRcvTask.LedCtrlSetsChannel | src/bsp/bsp_msg_rcv_task.c:43-64 | LED_CTRL on channel 0, 1 or 2 stores the raw on/off byte in that colour. The other colours, the PWM width and the rest of `g_Bsp` are unchanged, and `bsp_led_ctrl(num, onoff)` is called |
| MsgRcvTask.LedCtrlOtherChannel | src/bsp/bsp_msg_rcv_task.c:58-62 | LED_CTRL on channel > 2 changes no state but still calls `bsp_led_ctrl` with that channel |
| MsgRcvTask.SetPwmWidth | src/bsp/bsp_msg_rcv_task.c:70-75 | SET_PWM_LED_WIDTH stores the big-endian u32 of `message[0..3]` and passes it to the PWM LED |
| MsgRcvTask.SetPrdTick | src/bsp/bsp_msg_rcv_task.c:77-81 | SET_PRD_TICK sets `prdTick` to `message[0]·256 + message[1]`; nothing else changes |
| MsgRcvTask.SetRtcForwards | src/bsp/bsp_msg_rcv_task.c:83-94 | SET_RTC writes `message[0..6]` as year, mon, day, weekday, hour, min, sec. For a valid time, the clock then reads back those values |
| MsgRcvTask.GetRtcReplies | src/bsp/bsp_msg_rcv_task.c:96-106 | GET_RTC changes no state. It replies with an 11-byte frame: id NOTIFY_RTC, header length 7, then the time read, or seven zero bytes if the read failed |
| MsgRcvTask.OtherIdsIgnored | src/bsp/bsp_msg_rcv_task.c:66-110 | GET_BATT_ADC and unknown ids change nothing and call nothing |
| MsgRcvTask.RedOnEndToEnd | src/main.c:24-36 | the frame carrying LED_CTRL big-endian, then `00 01`, queued on an empty queue and dispatched, turns the red LED on and calls the LED driver for channel 0 with value 1 |
| MsgRcvTask.Step | src/bsp/bsp_msg_rcv_task.c:23-113 | with a packet waiting, the oldest one is removed and handled once. The record, the driver calls and the reply are those of `Dispatch`, and a reply is sent only while connected. With the queue empty, nothing changes |
| Nvs.InitSpec | src/bsp/driver/bsp_flash_nvs.c:31-74 | init returns 0 and raises the ready flag exactly when the device, page-info and mount steps all succeed. Otherwise it returns -1 with the flag as it was; the stored record is never touched |
| Nvs.WriteSpec | src/bsp/driver/bsp_flash_nvs.c:131-162 | write returns 0 exactly when the store is ready and the flash write succeeds. Otherwise it returns -1 and the store is unchanged; the ready flag never changes |
| Nvs.NextBoot | src/bsp/driver/bsp_flash_nvs.c:104 | the boot count goes up by one, wrapping from 0xFFFFFFFF to 0 |
| Nvs.ReadSpec | src/bsp/driver/bsp_flash_nvs.c:82-123 | read refuses with -1, changing nothing, exactly when the store is not ready. It never changes the ready flag. On success the returned record's tick becomes live. The only record it ever writes to flash is the defaults |
| Nvs.ResetSpec | src/bsp/driver/bsp_flash_nvs.c:169-195 | reset returns 0 exactly when the store is ready and the erase succeeds, and flash is then empty; otherwise it returns -1 and nothing changes |
| Nvs.NotReadyRefuses | src/bsp/driver/bsp_flash_nvs.c:86-177 | before init succeeds, read, write and reset return -1 and change nothing |
| Nvs.WriteStoresRefreshedRecord | src/bsp/driver/bsp_flash_nvs.c:131-162 | write sets the record's tick to the live tick. On success the store holds exactly that record; on failure it returns -1 and the store is unchanged |
| Nvs.ReadExisting | src/bsp/driver/bsp_flash_nvs.c:93-105 | reading a stored record returns it with the boot count + 1 (mod 2^32), makes its tick live, and leaves flash unchanged |
| Nvs.ReadTwiceSameBootCount | src/bsp/driver/bsp_flash_nvs.c:95-105 | two reads in a row return the same boot count, because the increment is never written back |
| Nvs.FirstBootRead | src/bsp/driver/bsp_flash_nvs.c:106-122 | on an empty store, read returns the defaults and makes the default tick live. It persists the defaults if the write succeeds, and returns 0 either way |
| Nvs.FirstBootThenRead | src/bsp/driver/bsp_flash_nvs.c:95-122 | after a first boot whose write succeeded, the next read returns the default unique id and the default boot count advanced once (`NextBoot`) |
| Nvs.ReadFaultReplacesConfig | src/bsp/driver/bsp_flash_nvs.c:93-120 | a flash read error is treated as a first boot: the stored configuration is replaced by the defaults |
| Nvs.ResetClears | src/bsp/driver/bsp_flash_nvs.c:169-195 | a successful erase empties the store and returns 0 whatever the remount does, and ready reflects the remount. A failed erase returns -1 and leaves the store ready |
| Nvs.NvsStore.constructor | src/bsp/driver/bsp_flash_nvs.c:21-22 | the ready flag starts down; flash keeps what it held |
| Nvs.NvsStore.Init | src/bsp/driver/bsp_flash_nvs.c:31-74 | the new flag, the store and the status are those of `InitSpec` |
| Nvs.NvsStore.Write | src/bsp/driver/bsp_flash_nvs.c:131-162 | `bsp_nvs_write(&g_Bsp.nvs)`: the status, the new `g_Bsp.nvs` (its tick refreshed from `g_Bsp.prdTick`) and the store are those of `WriteSpec` of the old `g_Bsp.nvs`; the other fields of `g_Bsp` are unchanged |
| Nvs.NvsStore.Read | src/bsp/driver/bsp_flash_nvs.c:82-123 | `bsp_nvs_read(&g_Bsp.nvs)`: the status, the new `g_Bsp.nvs`, the store and `g_Bsp.prdTick` are those of `ReadSpec` of the old `g_Bsp.nvs`; the LED and IMU fields are unchanged |
| Nvs.NvsStore.Reset | src/bsp/driver/bsp_flash_nvs.c:169-195 | the status and the store are those of `ResetSpec` |
| Imu.PacketBytes | src/bsp/sensors/bsp_lsm6ds3tr.c:45-56 | the packed packet is 16 bytes long |
| Imu.ParsePacketBytes | src/bsp/sensors/bsp_lsm6ds3tr.c:45-56 | a central decoding the 16 bytes sent recovers the packet |
| Imu.ScaledPacket | src/bsp/sensors/bsp_lsm6ds3tr.c:86-96 | the streamed packet names NOTIFY_IMU and its `len` is its own size in bytes |
| Imu.RecordPacket | src/bsp/sensors/bsp_lsm6ds3tr.c:98-103 | the six streamed fields of `g_Bsp.imu` take the packet's samples, and its other fields are unchanged |
| Imu.StreamMatchesRecord | src/bsp/sensors/bsp_lsm6ds3tr.c:86-105 | the packet a central receives has id NOTIFY_IMU and a `len` equal to its size. Its six samples are the scaled accel and gyro values, in order, and the same values are recorded in `g_Bsp.imu`; no other IMU field changes |
| Imu.SemGive | src/bsp/sensors/bsp_lsm6ds3tr.c:32-43 | a give on the semaphore with limit 1 leaves it at 1 |
| Imu.GiveN | src/bsp/sensors/bsp_lsm6ds3tr.c:38-43 | any positive number of data-ready interrupts in a row leaves the semaphore at 1, so they release the task once; none leaves it as it was |
| Imu.ImuSem.constructor | src/bsp/sensors/bsp_lsm6ds3tr.c:32 | the semaphore starts at 0 |
| Imu.ImuSem.Give | src/bsp/sensors/bsp_lsm6ds3tr.c:38-43 | the trigger handler's give saturates at 1 |
| Imu.ImuSem.Take | src/bsp/sensors/bsp_lsm6ds3tr.c:67 | a take proceeds exactly when the semaphore was given, and consumes it |
| Imu.TaskStep | src/bsp/sensors/bsp_lsm6ds3tr.c:58-125 | with no signal nothing happens. A failed fetch only consumes the signal. A sample is scaled, recorded in `g_Bsp.imu` and sent as the 16-byte packet (dropped while disconnected) |
| Imu.PowerRet | src/bsp/sensors/bsp_lsm6ds3tr.c:133-161 | the status is never positive, and it is 0 exactly when the GPIO port is ready and the pin configuration succeeds |
| Imu.InitSpec | src/bsp/sensors/bsp_lsm6ds3tr.c:169-237 | init returns 0 exactly when power, device-ready, trigger registration and slope threshold succeed, after the full call sequence. Any failure returns -1 after a prefix of that sequence |
| Imu.OptionalSettingsIgnored | src/bsp/sensors/bsp_lsm6ds3tr.c:204-230 | the results of the two sampling-rate settings and of the slope duration do not affect init |
| Imu.EnableSensorPower | src/bsp/sensors/bsp_lsm6ds3tr.c:133-161 | returns -1 if the port is not ready, or the configuration error; otherwise it drives the power pin and returns 0 |
| Imu.Init | src/bsp/sensors/bsp_lsm6ds3tr.c:169-237 | the status and the calls made are those of `InitSpec`, and `isInit` is raised only on success |
| Imu.ReadSpec | src/bsp/sensors/bsp_lsm6ds3tr.c:245-283 | a failed fetch returns -1 and changes nothing. A successful read returns 0 and stores exactly the fetched accel and gyro values, leaving the other IMU fields alone |
| Imu.Read | src/bsp/sensors/bsp_lsm6ds3tr.c:245-283 | the status and `g_Bsp.imu` are those of `ReadSpec`; no other field of `g_Bsp` changes |
| Audio.Conservation | src/bsp/sensors/bsp_mic_msm261d.c:20-120 | free + producer-held + queued + consumer-held blocks always number 12, so the free count stays within 0..12 |
| Audio.FullQueueLeavesTwoFree | src/bsp/sensors/bsp_mic_msm261d.c:17-20 | with the queue full and both tasks idle, exactly two blocks are free |
| Audio.TakeFromPool | src/bsp/sensors/bsp_mic_msm261d.c:44-45 | handing a free block to the producer keeps every block in exactly one place |
| Audio.QueueAtTail | src/bsp/sensors/bsp_mic_msm261d.c:53 | queuing the producer's block at the tail keeps every block in exactly one place and the queue free of duplicates |
| Audio.DropToPool | src/bsp/sensors/bsp_mic_msm261d.c:55-62 | dropping the producer's block back into the pool keeps every block in exactly one place |
| Audio.TakeFromQueue | src/bsp/sensors/bsp_mic_msm261d.c:106 | handing the head of the queue to the consumer keeps every block in exactly one place |
| Audio.ReturnToPool | src/bsp/sensors/bsp_mic_msm261d.c:120 | freeing the consumer's block keeps every block in exactly one place |
| Audio.AudioPipeline.constructor | src/bsp/sensors/bsp_mic_msm261d.c:20-25 | all 12 blocks are free and the queue is empty |
| Audio.AudioPipeline.ProducerRead | src/bsp/sensors/bsp_mic_msm261d.c:36-47 | a successful read moves one free block to the producer. A failed read, or a microphone that is not ready, changes nothing |
| Audio.AudioPipeline.ProducerPut | src/bsp/sensors/bsp_mic_msm261d.c:53-62 | the block goes to the queue tail with status 0 if there is room; otherwise it goes back to the pool at once, with a non-zero status |
| Audio.AudioPipeline.ConsumerGet | src/bsp/sensors/bsp_mic_msm261d.c:78-106 | the consumer takes the oldest handle; an empty queue or a microphone that is not ready changes nothing |
| Audio.AudioPipeline.ConsumerFree | src/bsp/sensors/bsp_mic_msm261d.c:117-120 | the consumer's block goes back to the pool |
| Audio.AudioPipeline.ProducerIteration | src/bsp/sensors/bsp_mic_msm261d.c:36-64 | one loop iteration does one of three things. It idles with no change exactly when the read fails. It queues a block taken from the pool when there is room. With the queue full it returns the block, leaving pool and queue as they were |
| Audio.AudioPipeline.ConsumerIteration | src/bsp/sensors/bsp_mic_msm261d.c:101-122 | one loop iteration takes the oldest block, processes it and frees it; with nothing queued nothing changes |
| Buzzer.PeriodNs | src/bsp/driver/bsp_pwm_buzzer.c:41 | the period is the largest whole number of nanoseconds that, repeated `freq` times, fits in one second |
| Buzzer.PulseNs | src/bsp/driver/bsp_pwm_buzzer.c:45 | the pulse is half the period, rounded down: `2·pulse <= period <= 2·pulse + 1` |
| Buzzer.AtMostQuotient | src/bsp/driver/bsp_pwm_buzzer.c:41 | if `k` periods of a frequency fit in one second, the computed period is at least `k` |
| Buzzer.PeriodRange | src/bsp/driver/bsp_pwm_buzzer.c:41 | every non-zero 16-bit frequency gives a period in [15259, 1000000000] ns |
| Buzzer.PeriodAntitone | src/bsp/driver/bsp_pwm_buzzer.c:41 | a higher frequency never gives a longer period |
| Buzzer.BuzzSpec | src/bsp/driver/bsp_pwm_buzzer.c:22-61 | returns 0 exactly when the device is ready, the frequency is non-zero and the tone is accepted, and -1 otherwise. It makes at most two PWM settings, and a successful buzz ends with the output silenced |
| Buzzer.BuzzOutcomes | src/bsp/driver/bsp_pwm_buzzer.c:22-61 | not ready calls nothing; frequency 0 only silences; otherwise the tone is set with the `PeriodNs` period (at least 15259 ns) and half of it as pulse, then silenced only if it was accepted |
| Buzzer.Buzz | src/bsp/driver/bsp_pwm_buzzer.c:22-61 | the status and the PWM calls are those of `BuzzSpec` |

## Left out

- Kernel threads, scheduling and blocking waits. Each task iteration is one atomic step, and an empty queue or an untaken semaphore means "keep waiting".
- The 100 ms timeout of the command-queue put is taken to expire whenever the queue is full.
- `k_sleep`, `k_msleep` and the note duration of the buzzer are not modelled.
- The Bluetooth stack: enabling it, advertising, reference counting of connections, `send_test_data` and the loop in `main`. Only the `current_conn` flag is kept. A failed `bt_nus_send` is only logged, so `Link.sent` records what is handed to the stack.
- Logging and hex dumps.
- Flash, I2C, GPIO, PWM and the sensor and microphone drivers. Each is modelled by the answers it gives (parameters) and the calls made to it (`Hw.log`). The NVS file system is one optional record under `ConfigId`; its sector geometry is not modelled.
- The interactive shell `src/cli/cli_command.c`, the init glue in `src/bsp/bsp.c`, the unused BLE stub and the periodic task are not part of this model. The NVS methods do take the record the shell passes, `g_Bsp.nvs`.
- `bsp_led_ctrl` and `bsp_pwm_led_ctrl` are logged calls only. The LED driver indexes its pin table without a bounds check, and that is not modelled.
- Nus.Receive: requires `2 <= |data| <= 130`. A frame shorter than 2 bytes makes the callback read past it. Longer frames are discussed under Findings.
- Imu.TaskStep: `convert_to_int16` (a double multiplied by 100, then cast to `int16_t`) is the parameter `toRaw`. The double arithmetic and the undefined out-of-range cast are left out.
- Imu.Init: the calls are logged as attempted; the driver's internal effect of each setting is not modelled.
- Audio.AudioPipeline.ProducerRead: which free block the microphone driver fills is its own choice, and the model picks any free block. A read while the pool is empty is a failed read.
- `k_mem_slab_free(&mem_slab, &buffer)` passes the address of the local pointer. The model returns the handle itself to the pool, which is the evident intent.
- Audio.AudioPipeline.ProducerPut: the put's non-zero status is -1 here. The kernel's actual error code is not modelled because the source only tests it against 0.
- The samples in a PCM block, and the consumer's log of its first sample, are not modelled.
- Nvs.NvsStore.Read: any result of `nvs_read` other than a positive length is taken as "no record". A short read is not distinguished.
- Nvs.NvsStore.Read / Nvs.NvsStore.Write: the record `p` points to is `g_Bsp.nvs`, as in the program's only calls (`src/cli/cli_command.c:357` and `:362`). Calls with another record are described by `ReadSpec` and `WriteSpec`, whose `p` is any record, but no method models them.

## Findings

| source | as written | input that shows it | evidently intended | confidence | as-written member | corrected member |
|---|---|---|---|---|---|---|
| src/main.c:34 | `memcpy(send_data.message, &data[2], len)` copies `len` bytes: the payload plus two bytes past the frame, into a 128-byte buffer | a 129-byte frame (127 payload bytes) overruns `message` | copy the `len - 2` payload bytes, which fit for frames of up to 130 bytes | not executed; high (the arithmetic is direct) | Nus.CopyAsWritten, Nus.CopyOverrunsAt129 | Nus.DecodeFrame, Nus.DecodeEncode |
