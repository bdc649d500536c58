/** The PWM buzzer: a frequency in hertz becomes a PWM period in
    nanoseconds at a 50% duty cycle, played for a while and then silenced.
    The PWM output is seen through the `PwmSet` calls made to it. */
module Buzzer {
  import opened Wire
  import opened Bsp

  const NsPerSecond := 1_000_000_000

  /** `1000000000U / frequency_hz`: the PWM period of a tone. */
  function PeriodNs(freq: u16): (p: u32)
    requires freq >= 1
    ensures p * freq <= NsPerSecond < (p + 1) * freq
  {
    NsPerSecond / freq
  }

  /** `period_ns / 2`: half the period, rounded down. */
  function PulseNs(period: u32): (q: u32)
    ensures 2 * q <= period <= 2 * q + 1
  {
    period / 2
  }

  /** A multiple of `f` that fits in `n` is at most `n / f` of them. */
  lemma AtMostQuotient(n: nat, f: nat, k: nat)
    requires f >= 1 && k * f <= n
    ensures k <= n / f
  {
    var q := n / f;
    assert n < (q + 1) * f;
    assert k * f < (q + 1) * f;
    LessByFactor(k, q + 1, f);
  }

  lemma LessByFactor(a: nat, b: nat, f: nat)
    requires a * f < b * f
    ensures a < b
  {
    if a >= b {
      MulMonotone(b, a, f);
    }
  }

  lemma MulMonotone(a: nat, b: nat, f: nat)
    requires a <= b
    ensures a * f <= b * f
  {
  }

  /** Every non-zero 16-bit frequency gives a period between 15259 ns
      (65535 Hz) and one second (1 Hz). */
  lemma PeriodRange(freq: u16)
    requires freq >= 1
    ensures 15259 <= PeriodNs(freq) <= NsPerSecond
  {
    assert 15259 * freq <= 15259 * 0xFFFF <= NsPerSecond;
    AtMostQuotient(NsPerSecond, freq, 15259);
  }

  /** A higher tone never gets a longer period. */
  lemma PeriodAntitone(f1: u16, f2: u16)
    requires 1 <= f1 <= f2
    ensures PeriodNs(f2) <= PeriodNs(f1)
  {
    var p2 := PeriodNs(f2);
    assert p2 * f1 <= p2 * f2;
    AtMostQuotient(NsPerSecond, f1, p2);
  }

  /** Status and the PWM calls made, in order. */
  datatype BuzzOut = BuzzOut(ret: int, calls: seq<Call>)

  /** `bsp_pwm_buzzer`'s outcome. `setRet` is the status of setting the
      tone; the status of silencing it is not looked at. It reports 0
      exactly when the device is ready, the frequency is non-zero and the
      tone is accepted, makes at most two PWM settings, and a successful
      buzz ends with the output silenced. */
  function BuzzSpec(pwmReady: bool, freq: u16, setRet: int): (o: BuzzOut)
    ensures o.ret == 0 <==> pwmReady && freq != 0 && setRet == 0
    ensures o.ret == 0 || o.ret == -1
    ensures |o.calls| <= 2 && forall i :: 0 <= i < |o.calls| ==> o.calls[i].PwmSet?
    ensures o.ret == 0 ==> |o.calls| == 2 && o.calls[1] == PwmSet(0, 0)
  {
    if !pwmReady then BuzzOut(-1, [])
    else if freq == 0 then BuzzOut(-1, [PwmSet(0, 0)])
    else
      var period := PeriodNs(freq);
      var tone := PwmSet(period, PulseNs(period));
      if setRet != 0 then BuzzOut(-1, [tone])
      else BuzzOut(0, [tone, PwmSet(0, 0)])
  }

  /** The calls of each outcome: a device that is not ready is left alone,
      a zero frequency only silences, and otherwise the tone is played at
      a 50% duty cycle with the period of `PeriodNs`, then silenced only if
      it was accepted; a rejected tone is left as it is. */
  lemma BuzzOutcomes(pwmReady: bool, freq: u16, setRet: int)
    ensures var o := BuzzSpec(pwmReady, freq, setRet);
      (!pwmReady ==> o.calls == []) &&
      (pwmReady && freq == 0 ==> o.calls == [PwmSet(0, 0)]) &&
      (pwmReady && freq != 0 ==>
        1 <= |o.calls| <= 2 && o.calls[0].PwmSet? &&
        o.calls[0].periodNs * freq <= NsPerSecond < (o.calls[0].periodNs + 1) * freq &&
        15259 <= o.calls[0].periodNs &&
        2 * o.calls[0].pulseNs <= o.calls[0].periodNs <= 2 * o.calls[0].pulseNs + 1 &&
        (|o.calls| == 2 <==> setRet == 0) &&
        (setRet == 0 ==> o.calls[1] == PwmSet(0, 0)))
  {
    if freq != 0 {
      PeriodRange(freq);
    }
  }

  /** `bsp_pwm_buzzer`. The waits of `durationMs` and of 50 ms between
      notes are not modelled. */
  method Buzz(hw: Hw, pwmReady: bool, freq: u16, durationMs: u16, setRet: int) returns (ret: int)
    modifies hw
    ensures ret == BuzzSpec(pwmReady, freq, setRet).ret
    ensures hw.log == old(hw.log) + BuzzSpec(pwmReady, freq, setRet).calls
  {
    if !pwmReady {
      return -1;
    }
    if freq == 0 {
      hw.Record(PwmSet(0, 0));
      return -1;
    }
    var periodNs := PeriodNs(freq);
    var pulseNs := PulseNs(periodNs);
    hw.Record(PwmSet(periodNs, pulseNs));
    if setRet != 0 {
      return -1;
    }
    hw.Record(PwmSet(0, 0));
    ret := 0;
  }
}
