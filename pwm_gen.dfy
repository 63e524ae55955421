/** The pure part of the pulse generator (Firmware/MultiPwm/pwm_gen_functions.c):
    the prescaler table, the values reported in REAL_FREQ and REAL_DUTYCYCLE,
    the enable gate, and reference definitions of what the trigger router,
    the compare-match countdown and the edge handlers compute. The device
    methods in module MultiPwm are proved against these definitions. */
module PwmGen {
  import opened Bits
  import opened Registers

  datatype Option<T> = None | Some(value: T)

  // ----- prescaler --------------------------------------------------------

  /** The XMEGA clock-select codes of a 16-bit timer (TC_CLKSEL). */
  const PrescalerDiv1: uint8 := 1
  const PrescalerDiv2: uint8 := 2
  const PrescalerDiv4: uint8 := 3
  const PrescalerDiv8: uint8 := 4
  const PrescalerDiv64: uint8 := 5
  const PrescalerDiv256: uint8 := 6
  const PrescalerDiv1024: uint8 := 7

  /** get_divider: the clock division of a prescaler code, 0 for any other code. */
  function GetDivider(code: uint8): (d: uint16)
    ensures d != 0 <==> PrescalerDiv1 <= code <= PrescalerDiv1024
    ensures d in {0, 1, 2, 4, 8, 64, 256, 1024}
  {
    if code == PrescalerDiv1 then 1
    else if code == PrescalerDiv2 then 2
    else if code == PrescalerDiv4 then 4
    else if code == PrescalerDiv8 then 8
    else if code == PrescalerDiv64 then 64
    else if code == PrescalerDiv256 then 256
    else if code == PrescalerDiv1024 then 1024
    else 0
  }

  /** The code of a division, the inverse of GetDivider on the seven codes. */
  function PrescalerCode(d: uint16): (code: uint8)
  {
    if d == 1 then PrescalerDiv1
    else if d == 2 then PrescalerDiv2
    else if d == 4 then PrescalerDiv4
    else if d == 8 then PrescalerDiv8
    else if d == 64 then PrescalerDiv64
    else if d == 256 then PrescalerDiv256
    else if d == 1024 then PrescalerDiv1024
    else 0
  }

  /** Codes and divisions correspond one to one, and a larger code divides more. */
  lemma DividerTable(code: uint8, other: uint8, d: uint16)
    ensures PrescalerDiv1 <= code <= PrescalerDiv1024 ==> PrescalerCode(GetDivider(code)) == code
    ensures d in {1, 2, 4, 8, 64, 256, 1024} ==> GetDivider(PrescalerCode(d)) == d
    ensures PrescalerDiv1 <= code < other <= PrescalerDiv1024 ==> GetDivider(code) < GetDivider(other)
  {
  }

  // ----- timer parameters and the reported real values --------------------

  /** The peripheral clock fed to every timer. */
  const ClockHz: nat := 32_000_000

  /** What the timer fitter returns: a prescaler code and a 16-bit period. */
  datatype TimerFit = TimerFit(prescaler: uint8, period: uint16)

  /** A fit the timer can run: a known prescaler code and a non-zero period. */
  type GoodFit = f: TimerFit | GetDivider(f.prescaler) != 0 && f.period >= 1
    witness TimerFit(PrescalerDiv1, 1)

  /** The globals prescalerN, target_countN and duty_cycleN of one channel:
      what the timer is programmed with when the channel starts. */
  datatype TimerParams = TimerParams(prescaler: uint8, period: uint16, dutyCompare: int)

  /** duty_cycleN: the compare value for a duty cycle in percent, the duty
      fraction of the period rounded to the nearest integer (`x + 0.5`
      truncated; for the non-negative values the duty guard admits,
      truncation is the floor). */
  function DutyCompare(duty: real, period: uint16): (dc: int)
    ensures dc as real - 0.5 <= duty / 100.0 * period as real < dc as real + 0.5
    ensures 0.0 <= duty <= 100.0 ==> 0 <= dc <= period
  {
    var x := duty / 100.0 * period as real;
    assert 0.0 <= duty <= 100.0 ==> 0.0 <= x <= period as real by {
      if 0.0 <= duty <= 100.0 {
        assert duty / 100.0 <= 1.0;
        MulBounded(duty / 100.0, period as real);
      }
    }
    (x + 0.5).Floor
  }

  lemma MulBounded(a: real, b: real)
    requires 0.0 <= a <= 1.0 && 0.0 <= b
    ensures 0.0 <= a * b <= b
  {
  }

  /** REAL_DUTYCYCLE before the degenerate check: the compare value as a
      percentage of the period. */
  function RealDuty(dc: int, period: uint16): real
    requires period >= 1
  {
    100.0 * dc as real / period as real
  }

  /** The degenerate-duty check of update_reals (`<= 0 || >= 100`) holds
      exactly when the compare value is at or outside the ends of the period. */
  lemma DegenerateDuty(dc: int, period: uint16)
    requires period >= 1
    ensures RealDuty(dc, period) <= 0.0 || RealDuty(dc, period) >= 100.0 <==> dc <= 0 || dc >= period
  {
    var p := period as real;
    assert RealDuty(dc, period) * p == 100.0 * dc as real;
  }

  /** REAL_FREQ of a channel programmed with a fit: clock over division times period. */
  function RealFreq(f: GoodFit): (hz: real)
    ensures hz > 0.0
    ensures hz * (GetDivider(f.prescaler) as real * f.period as real) == ClockHz as real
  {
    ClockHz as real / (GetDivider(f.prescaler) as real * f.period as real)
  }

  /** REAL_FREQ as update_reals_ch1..3 compute it: the 32-bit unsigned
      division `32000000 / (divider * period)` is done before the
      conversion to float. Channel 0 divides as float. */
  function RealFreqAsWritten(ch: Chan, f: GoodFit): (hz: real)
    ensures ch == 0 ==> hz == RealFreq(f)
    ensures 0.0 <= hz <= RealFreq(f)
    ensures ch != 0 ==> hz == hz.Floor as real && RealFreq(f) < hz + 1.0
  {
    if ch == 0 then RealFreq(f)
    else
      var q := ClockHz / (GetDivider(f.prescaler) * f.period);
      DivBelowQuotient(ClockHz, GetDivider(f.prescaler) * f.period);
      q as real
  }

  lemma DivBelowQuotient(a: nat, b: nat)
    requires b >= 1
    ensures 0.0 <= (a / b) as real <= a as real / b as real < (a / b) as real + 1.0
  {
    var q := a / b;
    assert q * b <= a < (q + 1) * b;
    RealQuotientBounds(a as real, b as real, q as real);
  }

  /** Dividing `q * b <= a < (q + 1) * b` by b > 0. */
  lemma RealQuotientBounds(a: real, b: real, q: real)
    requires b > 0.0 && q * b <= a < (q + 1.0) * b
    ensures q <= a / b < q + 1.0
  {
    var x := a / b;
    assert x * b == a;
    assert (x - q) * b == a - q * b;
    assert (x - q - 1.0) * b == a - (q + 1.0) * b;
    if q + 1.0 <= x {
      MulMonotone(q + 1.0, x, b);
      assert false;
    }
  }

  lemma MulMonotone(x: real, y: real, b: real)
    requires b > 0.0 && x <= y
    ensures x * b <= y * b
  {
  }

  /** On channels 1..3 every frequency below 1 Hz is reported as 0, although
      the frequency guard accepts frequencies down to 0.5 Hz. */
  lemma RealFreqBelowOneHertzIsZero(ch: Chan, f: GoodFit)
    requires ch != 0 && RealFreq(f) < 1.0
    ensures RealFreqAsWritten(ch, f) == 0.0
  {
    var n := GetDivider(f.prescaler) * f.period;
    var hz := RealFreq(f);
    assert hz * n as real == ClockHz as real;
    assert hz * n as real < n as real by {
      assert (1.0 - hz) * n as real > 0.0;
    }
    assert ClockHz < n;
  }

  /** The only fit for 0.5 Hz (division 1024, period 62500) is reported as
      0.5 Hz on channel 0 and as 0 on channel 1. */
  lemma HalfHertzReportedAsZero()
    ensures RealFreq(TimerFit(PrescalerDiv1024, 62500)) == 0.5
    ensures RealFreqAsWritten(1, TimerFit(PrescalerDiv1024, 62500)) == 0.0
  {
    assert GetDivider(PrescalerDiv1024) == 1024;
    assert 1024 * 62500 == 64_000_000;
  }

  /** REAL_FREQ, REAL_DUTYCYCLE and the new timer parameters of a channel
      after update_reals, given its duty register, the fitter's answer and
      the previous parameters (kept when the fitter fails). */
  datatype Reals = Reals(realFreq: real, realDuty: real, params: TimerParams)

  function UpdateReals(duty: real, fit: Option<GoodFit>, previous: TimerParams): (r: Reals)
    ensures fit.None? ==> r == Reals(0.0, 0.0, previous)
    ensures fit.Some? ==> r.params.prescaler == fit.value.prescaler && r.params.period == fit.value.period
    ensures fit.Some? ==> r.params.dutyCompare == DutyCompare(duty, fit.value.period)
    ensures fit.Some? ==>
      ((r.realFreq == 0.0 && r.realDuty == 0.0) <==>
       (r.params.dutyCompare <= 0 || r.params.dutyCompare >= fit.value.period))
    ensures r.realFreq != 0.0 || r.realDuty != 0.0 ==>
      0.0 < r.realDuty < 100.0 && r.realFreq * (GetDivider(r.params.prescaler) as real * r.params.period as real) == ClockHz as real
  {
    match fit
    case None => Reals(0.0, 0.0, previous)
    case Some(f) =>
      var dc := DutyCompare(duty, f.period);
      var params := TimerParams(f.prescaler, f.period, dc);
      var rd := RealDuty(dc, f.period);
      DegenerateDuty(dc, f.period);
      if rd <= 0.0 || rd >= 100.0 then Reals(0.0, 0.0, params)
      else Reals(RealFreq(f), rd, params)
  }

  // ----- the enable gate --------------------------------------------------

  /** Channel j may start: its enable confirmation is not required, or its enable bit is set. */
  predicate Gate(confEn: Byte, enable: Byte, j: Chan)
  {
    !Has(confEn, j) || (Has(confEn, j) && Has(enable, j))
  }

  /** The channels that may start, as a byte. */
  function GateMask(confEn: Byte, enable: Byte): (gm: Byte)
    ensures And(gm, Not(LowNibble)) == Zero
  {
    And(Or(Not(confEn), enable), LowNibble)
  }

  /** Bit j of the gate mask is the gate of channel j. */
  lemma GateMaskHas(confEn: Byte, enable: Byte, j: Chan)
    ensures Has(GateMask(confEn, enable), j) <==> Gate(confEn, enable, j)
  {
    HasOps(Not(confEn), enable, j);
    HasOps(confEn, confEn, j);
    HasOps(Or(Not(confEn), enable), LowNibble, j);
  }

  /** With CH_ENABLE |= 0x0F every channel passes the gate. */
  lemma EnableAllGate(confEn: Byte, enable: Byte, j: Chan)
    ensures Gate(confEn, Or(enable, LowNibble), j)
  {
    HasOps(enable, LowNibble, j);
    assert LowNibble[j];
  }

  /** The single-shot rule of the stop primitives: every stopped channel
      whose CH_ENABLE_SINGLE bit is set loses its CH_ENABLE bit, and no
      other bit of CH_ENABLE changes. */
  function SingleShot(enable: Byte, single: Byte, stopped: Byte): (r: Byte)
    ensures And(r, Not(enable)) == Zero
    ensures Xor(r, enable) == And(And(enable, stopped), single)
  {
    And(enable, Not(And(stopped, single)))
  }

  /** The single-shot rule bit by bit. */
  lemma SingleShotHas(enable: Byte, single: Byte, stopped: Byte, k: nat)
    requires k < 8
    ensures Has(SingleShot(enable, single, stopped), k) <==> Has(enable, k) && !(Has(stopped, k) && Has(single, k))
  {
    HasOps(stopped, single, k);
    HasOps(And(stopped, single), And(stopped, single), k);
    HasOps(enable, Not(And(stopped, single)), k);
  }

  // ----- the trigger router -----------------------------------------------

  /** The channels routed by the selected sources among the first n:
      the union of their TRGi_MASK bytes. */
  function Targets(sel: Byte, masks: seq<Byte>, n: nat): (t: Byte)
    requires |masks| == 4 && n <= 4
  {
    if n == 0 then Zero
    else Or(Targets(sel, masks, n - 1), if Has(sel, n - 1) then masks[n - 1] else Zero)
  }

  /** Bit k of the union grows by bit k of one more selected mask. */
  lemma TargetsHasStep(sel: Byte, masks: seq<Byte>, n: nat, k: nat)
    requires |masks| == 4 && 0 < n <= 4 && k < 8
    ensures Has(Targets(sel, masks, n), k) <==>
            Has(Targets(sel, masks, n - 1), k) || (Has(sel, n - 1) && Has(masks[n - 1], k))
  {
    var add: Byte := if Has(sel, n - 1) then masks[n - 1] else Zero;
    HasOps(Targets(sel, masks, n - 1), add, k);
  }

  /** Channel k is routed iff some selected source among the first n routes it. */
  lemma {:induction false} TargetsHas(sel: Byte, masks: seq<Byte>, n: nat, k: nat)
    requires |masks| == 4 && n <= 4 && k < 8
    ensures Has(Targets(sel, masks, n), k) ==> exists i :: 0 <= i < n && Has(sel, i) && Has(masks[i], k)
    ensures (exists i :: 0 <= i < n && Has(sel, i) && Has(masks[i], k)) ==> Has(Targets(sel, masks, n), k)
  {
    if n > 0 {
      TargetsHas(sel, masks, n - 1, k);
      TargetsHasStep(sel, masks, n, k);
      if Has(Targets(sel, masks, n), k) && !Has(Targets(sel, masks, n - 1), k) {
        assert Has(sel, n - 1) && Has(masks[n - 1], k);
      }
      if exists i :: 0 <= i < n && Has(sel, i) && Has(masks[i], k) {
        var i :| 0 <= i < n && Has(sel, i) && Has(masks[i], k);
        if i < n - 1 {
          assert Has(Targets(sel, masks, n - 1), k);
        }
      }
    }
  }

  /** EXEC_STATE and the events raised, after some sources have been routed. */
  datatype Routed = Routed(exec: Byte, events: seq<Event>)

  /** The channels one start source adds: routed, allowed by the gate and not yet running. */
  function StartDelta(mask: Byte, gm: Byte, exec: Byte): Byte
  {
    And(And(And(mask, gm), Not(exec)), LowNibble)
  }

  /** Channel j is added by a start source iff it is routed, allowed and idle. */
  lemma StartDeltaHas(mask: Byte, gm: Byte, exec: Byte, j: nat)
    requires j < 8
    ensures Has(StartDelta(mask, gm, exec), j) <==>
            Has(mask, j) && Has(gm, j) && !Has(exec, j) && j < 4
  {
    HasOps(mask, gm, j);
    HasOps(exec, exec, j);
    HasOps(And(mask, gm), Not(exec), j);
    HasOps(And(And(mask, gm), Not(exec)), LowNibble, j);
  }

  /** One pass of the outer loop of check_and_start_pwms for a source with
      mask `mask`: if the source is selected and starts something, the new
      channels join EXEC_STATE and one event carrying it is raised when
      events are enabled. */
  function StartBySource(e: Byte, mask: Byte, gm: Byte, selected: bool, evEn: bool): (r: Routed)
    ensures And(r.exec, e) == e
    ensures r.exec != e <==> selected && StartDelta(mask, gm, e) != Zero
    ensures r.events == if r.exec != e && evEn then [Event(ExecStateAddr, r.exec)] else []
  {
    var d := StartDelta(mask, gm, e);
    if selected && d != Zero then Routed(Or(e, d), if evEn then [Event(ExecStateAddr, Or(e, d))] else [])
    else Routed(e, [])
  }

  /** check_and_start_pwms after the sources 0..n-1: EXEC_STATE only grows. */
  function StartRoute(sel: Byte, masks: seq<Byte>, gm: Byte, e0: Byte, evEn: bool, n: nat): (r: Routed)
    requires |masks| == 4 && n <= 4
    ensures And(r.exec, e0) == e0
  {
    if n == 0 then Routed(e0, [])
    else
      var prev := StartRoute(sel, masks, gm, e0, evEn, n - 1);
      var step := StartBySource(prev.exec, masks[n - 1], gm, Has(sel, n - 1), evEn);
      SubsetTrans(e0, prev.exec, step.exec);
      Routed(step.exec, prev.events + step.events)
  }

  /** One more start source, in terms of the union of the masks. */
  lemma StartRouteStep(sel: Byte, masks: seq<Byte>, gm: Byte, e0: Byte, evEn: bool, n: nat)
    requires |masks| == 4 && 0 < n <= 4
    ensures var m: Byte := if Has(sel, n - 1) then masks[n - 1] else Zero;
            StartRoute(sel, masks, gm, e0, evEn, n).exec ==
              Or(StartRoute(sel, masks, gm, e0, evEn, n - 1).exec, And(And(m, gm), LowNibble)) &&
            Targets(sel, masks, n) == Or(Targets(sel, masks, n - 1), m)
  {
    var m: Byte := if Has(sel, n - 1) then masks[n - 1] else Zero;
    StartDeltaJoin(StartRoute(sel, masks, gm, e0, evEn, n - 1).exec, m, gm);
  }

  /** Joining the started channels to EXEC_STATE joins every routed channel
      the gate allows: those not started were running already. */
  lemma StartDeltaJoin(e: Byte, m: Byte, gm: Byte)
    ensures Or(e, StartDelta(m, gm, e)) == Or(e, And(And(m, gm), LowNibble))
    ensures StartDelta(m, gm, e) == Zero ==> e == Or(e, And(And(m, gm), LowNibble))
  {
    if StartDelta(m, gm, e) == Zero {
      forall k | 0 <= k < 8 ensures e[k] == Or(e, And(And(m, gm), LowNibble))[k] {
        assert StartDelta(m, gm, e)[k] == Zero[k];
      }
    }
  }

  lemma StartAlgebra(e0: Byte, t: Byte, m: Byte, gm: Byte)
    ensures Or(Or(e0, And(And(t, gm), LowNibble)), And(And(m, gm), LowNibble)) ==
            Or(e0, And(And(Or(t, m), gm), LowNibble))
  {
  }

  /** Starting adds exactly the routed channels the gate allows to EXEC_STATE. */
  lemma {:induction false} StartRouteExec(sel: Byte, masks: seq<Byte>, gm: Byte, e0: Byte, evEn: bool, n: nat)
    requires |masks| == 4 && n <= 4
    ensures StartRoute(sel, masks, gm, e0, evEn, n).exec == Or(e0, And(And(Targets(sel, masks, n), gm), LowNibble))
  {
    if n > 0 {
      StartRouteExec(sel, masks, gm, e0, evEn, n - 1);
      StartRouteStep(sel, masks, gm, e0, evEn, n);
      StartAlgebra(e0, Targets(sel, masks, n - 1), if Has(sel, n - 1) then masks[n - 1] else Zero, gm);
    }
  }

  /** Some event is raised iff events are enabled and EXEC_STATE changed. */
  lemma {:induction false} StartRouteEvents(sel: Byte, masks: seq<Byte>, gm: Byte, e0: Byte, evEn: bool, n: nat)
    requires |masks| == 4 && n <= 4
    ensures var r := StartRoute(sel, masks, gm, e0, evEn, n);
            |r.events| > 0 <==> evEn && r.exec != e0
  {
    if n > 0 {
      StartRouteEvents(sel, masks, gm, e0, evEn, n - 1);
      var prev := StartRoute(sel, masks, gm, e0, evEn, n - 1);
      var step := StartBySource(prev.exec, masks[n - 1], gm, Has(sel, n - 1), evEn);
      assert StartRoute(sel, masks, gm, e0, evEn, n) == Routed(step.exec, prev.events + step.events);
      if prev.exec != e0 { SubsetStrictAbove(e0, prev.exec, step.exec); }
    }
  }

  /** The last event carries the final EXEC_STATE. */
  lemma {:induction false} StartRouteLastEvent(sel: Byte, masks: seq<Byte>, gm: Byte, e0: Byte, evEn: bool, n: nat)
    requires |masks| == 4 && n <= 4
    ensures var r := StartRoute(sel, masks, gm, e0, evEn, n);
            |r.events| > 0 ==> r.events[|r.events| - 1].value == r.exec
  {
    if n > 0 {
      StartRouteLastEvent(sel, masks, gm, e0, evEn, n - 1);
      StartRouteEventShape(sel, masks, gm, e0, evEn, n - 1);
      var prev := StartRoute(sel, masks, gm, e0, evEn, n - 1);
      var step := StartBySource(prev.exec, masks[n - 1], gm, Has(sel, n - 1), evEn);
      var r := StartRoute(sel, masks, gm, e0, evEn, n);
      assert r == Routed(step.exec, prev.events + step.events);
      if |step.events| > 0 {
        assert step.events == [Event(ExecStateAddr, step.exec)];
        assert r.events[|r.events| - 1] == step.events[0];
      } else if |prev.events| > 0 {
        assert evEn && step.exec == prev.exec;
        assert r.events == prev.events;
      }
    }
  }

  /** At most one event per selected source, none when events are disabled,
      and every event reports EXEC_STATE. */
  lemma {:induction false} StartRouteEventShape(sel: Byte, masks: seq<Byte>, gm: Byte, e0: Byte, evEn: bool, n: nat)
    requires |masks| == 4 && n <= 4
    ensures |StartRoute(sel, masks, gm, e0, evEn, n).events| <= SelectedCount(sel, n)
    ensures !evEn ==> StartRoute(sel, masks, gm, e0, evEn, n).events == []
    ensures forall k :: 0 <= k < |StartRoute(sel, masks, gm, e0, evEn, n).events| ==>
              StartRoute(sel, masks, gm, e0, evEn, n).events[k].address == ExecStateAddr
  {
    if n > 0 {
      StartRouteEventShape(sel, masks, gm, e0, evEn, n - 1);
    }
  }

  /** The channels one stop source removes: routed and running. */
  function StopDelta(mask: Byte, exec: Byte): Byte
  {
    And(And(mask, exec), LowNibble)
  }

  /** Channel j is removed by a stop source iff it is routed and running. */
  lemma StopDeltaHas(mask: Byte, exec: Byte, j: nat)
    requires j < 8
    ensures Has(StopDelta(mask, exec), j) <==> Has(mask, j) && Has(exec, j) && j < 4
  {
    HasOps(mask, exec, j);
    HasOps(And(mask, exec), LowNibble, j);
  }

  /** One pass of the outer loop of check_and_stop_pwms. */
  function StopBySource(e: Byte, mask: Byte, selected: bool, evEn: bool): (r: Routed)
    ensures And(e, r.exec) == r.exec
    ensures r.exec != e <==> selected && StopDelta(mask, e) != Zero
    ensures r.events == if r.exec != e && evEn then [Event(ExecStateAddr, r.exec)] else []
  {
    var d := StopDelta(mask, e);
    if selected && d != Zero then Routed(And(e, Not(d)), if evEn then [Event(ExecStateAddr, And(e, Not(d)))] else [])
    else Routed(e, [])
  }

  /** check_and_stop_pwms after the sources 0..n-1: EXEC_STATE only shrinks. */
  function StopRoute(sel: Byte, masks: seq<Byte>, e0: Byte, evEn: bool, n: nat): (r: Routed)
    requires |masks| == 4 && n <= 4
    ensures And(e0, r.exec) == r.exec
  {
    if n == 0 then Routed(e0, [])
    else
      var prev := StopRoute(sel, masks, e0, evEn, n - 1);
      var step := StopBySource(prev.exec, masks[n - 1], Has(sel, n - 1), evEn);
      SubsetTrans(step.exec, prev.exec, e0);
      Routed(step.exec, prev.events + step.events)
  }

  /** One more stop source, in terms of the union of the masks. */
  lemma StopRouteStep(sel: Byte, masks: seq<Byte>, e0: Byte, evEn: bool, n: nat)
    requires |masks| == 4 && 0 < n <= 4
    ensures var m: Byte := if Has(sel, n - 1) then masks[n - 1] else Zero;
            StopRoute(sel, masks, e0, evEn, n).exec ==
              And(StopRoute(sel, masks, e0, evEn, n - 1).exec, Not(And(m, LowNibble))) &&
            Targets(sel, masks, n) == Or(Targets(sel, masks, n - 1), m)
  {
    var m: Byte := if Has(sel, n - 1) then masks[n - 1] else Zero;
    StopDeltaRemove(StopRoute(sel, masks, e0, evEn, n - 1).exec, m);
  }

  /** Removing the stopped channels from EXEC_STATE removes every routed
      channel: those not stopped were idle already. */
  lemma StopDeltaRemove(e: Byte, m: Byte)
    ensures And(e, Not(StopDelta(m, e))) == And(e, Not(And(m, LowNibble)))
    ensures StopDelta(m, e) == Zero ==> e == And(e, Not(And(m, LowNibble)))
  {
    if StopDelta(m, e) == Zero {
      forall k | 0 <= k < 8 ensures e[k] == And(e, Not(And(m, LowNibble)))[k] {
        assert StopDelta(m, e)[k] == Zero[k];
      }
    }
  }

  lemma StopAlgebra(e0: Byte, t: Byte, m: Byte)
    ensures And(And(e0, Not(And(t, LowNibble))), Not(And(m, LowNibble))) == And(e0, Not(And(Or(t, m), LowNibble)))
  {
  }

  /** Stopping removes exactly the routed channels from EXEC_STATE. */
  lemma {:induction false} StopRouteExec(sel: Byte, masks: seq<Byte>, e0: Byte, evEn: bool, n: nat)
    requires |masks| == 4 && n <= 4
    ensures StopRoute(sel, masks, e0, evEn, n).exec == And(e0, Not(And(Targets(sel, masks, n), LowNibble)))
  {
    if n > 0 {
      StopRouteExec(sel, masks, e0, evEn, n - 1);
      StopRouteStep(sel, masks, e0, evEn, n);
      StopAlgebra(e0, Targets(sel, masks, n - 1), if Has(sel, n - 1) then masks[n - 1] else Zero);
    }
  }

  lemma {:induction false} StopRouteEvents(sel: Byte, masks: seq<Byte>, e0: Byte, evEn: bool, n: nat)
    requires |masks| == 4 && n <= 4
    ensures var r := StopRoute(sel, masks, e0, evEn, n);
            |r.events| > 0 <==> evEn && r.exec != e0
  {
    if n > 0 {
      StopRouteEvents(sel, masks, e0, evEn, n - 1);
      var prev := StopRoute(sel, masks, e0, evEn, n - 1);
      var step := StopBySource(prev.exec, masks[n - 1], Has(sel, n - 1), evEn);
      assert StopRoute(sel, masks, e0, evEn, n) == Routed(step.exec, prev.events + step.events);
      if prev.exec != e0 { SubsetStrictBelow(step.exec, prev.exec, e0); }
    }
  }

  lemma {:induction false} StopRouteLastEvent(sel: Byte, masks: seq<Byte>, e0: Byte, evEn: bool, n: nat)
    requires |masks| == 4 && n <= 4
    ensures var r := StopRoute(sel, masks, e0, evEn, n);
            |r.events| > 0 ==> r.events[|r.events| - 1].value == r.exec
  {
    if n > 0 {
      StopRouteLastEvent(sel, masks, e0, evEn, n - 1);
      StopRouteEventShape(sel, masks, e0, evEn, n - 1);
      var prev := StopRoute(sel, masks, e0, evEn, n - 1);
      var step := StopBySource(prev.exec, masks[n - 1], Has(sel, n - 1), evEn);
      var r := StopRoute(sel, masks, e0, evEn, n);
      assert r == Routed(step.exec, prev.events + step.events);
      if |step.events| > 0 {
        assert step.events == [Event(ExecStateAddr, step.exec)];
        assert r.events[|r.events| - 1] == step.events[0];
      } else if |prev.events| > 0 {
        assert evEn && step.exec == prev.exec;
        assert r.events == prev.events;
      }
    }
  }

  lemma {:induction false} StopRouteEventShape(sel: Byte, masks: seq<Byte>, e0: Byte, evEn: bool, n: nat)
    requires |masks| == 4 && n <= 4
    ensures |StopRoute(sel, masks, e0, evEn, n).events| <= SelectedCount(sel, n)
    ensures !evEn ==> StopRoute(sel, masks, e0, evEn, n).events == []
    ensures forall k :: 0 <= k < |StopRoute(sel, masks, e0, evEn, n).events| ==>
              StopRoute(sel, masks, e0, evEn, n).events[k].address == ExecStateAddr
  {
    if n > 0 {
      StopRouteEventShape(sel, masks, e0, evEn, n - 1);
    }
  }

  lemma SelectedCountSingle(i: Chan)
    ensures SelectedCount(Bit(i), 4) == 1
  {
    if i == 0 {
      assert SelectedCount(Bit(0), 1) == 1;
    } else if i == 1 {
      assert SelectedCount(Bit(1), 2) == 1;
    } else if i == 2 {
      assert SelectedCount(Bit(2), 3) == 1;
    } else {
      assert SelectedCount(Bit(3), 3) == 0;
    }
  }

  /** A single selected source (a discrete trigger edge) raises at most one event. */
  lemma SingleSourceOneEvent(i: Chan, masks: seq<Byte>, gm: Byte, e0: Byte, evEn: bool)
    requires |masks| == 4
    ensures |StartRoute(Bit(i), masks, gm, e0, evEn, 4).events| <= 1
    ensures |StopRoute(Bit(i), masks, e0, evEn, 4).events| <= 1
    ensures var r := StartRoute(Bit(i), masks, gm, e0, evEn, 4);
            r.events == if evEn && r.exec != e0 then [Event(ExecStateAddr, r.exec)] else []
    ensures var r := StopRoute(Bit(i), masks, e0, evEn, 4);
            r.events == if evEn && r.exec != e0 then [Event(ExecStateAddr, r.exec)] else []
  {
    SelectedCountSingle(i);
    var a := StartRoute(Bit(i), masks, gm, e0, evEn, 4);
    StartRouteEventShape(Bit(i), masks, gm, e0, evEn, 4);
    StartRouteEvents(Bit(i), masks, gm, e0, evEn, 4);
    StartRouteLastEvent(Bit(i), masks, gm, e0, evEn, 4);
    AtMostOneEvent(a.events, a.exec, e0, evEn);
    var z := StopRoute(Bit(i), masks, e0, evEn, 4);
    StopRouteEventShape(Bit(i), masks, e0, evEn, 4);
    StopRouteEvents(Bit(i), masks, e0, evEn, 4);
    StopRouteLastEvent(Bit(i), masks, e0, evEn, 4);
    AtMostOneEvent(z.events, z.exec, e0, evEn);
  }

  /** An event list of at most one EXEC_STATE event, sent iff events are
      enabled and EXEC_STATE changed, and carrying the final value. */
  lemma AtMostOneEvent(es: seq<Event>, exec: Byte, e0: Byte, evEn: bool)
    requires |es| <= 1 && (|es| > 0 <==> evEn && exec != e0)
    requires |es| > 0 ==> es[|es| - 1].value == exec
    requires forall k :: 0 <= k < |es| ==> es[k].address == ExecStateAddr
    ensures es == if evEn && exec != e0 then [Event(ExecStateAddr, exec)] else []
  {
    if |es| > 0 {
      assert es[0].address == ExecStateAddr;
    }
  }

  /** A single selected source i (a discrete trigger edge) routes exactly
      the channels of its own mask. */
  lemma TargetsSingle(i: Chan, masks: seq<Byte>)
    requires |masks| == 4
    ensures Targets(Bit(i), masks, 4) == masks[i]
  {
    forall k | 0 <= k < 8 ensures Targets(Bit(i), masks, 4)[k] == masks[i][k] {
      TargetsHas(Bit(i), masks, 4, k);
      BitHas(i, i);
      forall m | 0 <= m < 4 ensures Has(Bit(i), m) <==> m == i {
        BitHas(i, m);
      }
    }
  }

  /** A start source with mask `mask` tries some channel: one it routes
      that EXEC_STATE does not show running. Every try sets SYNC_OUTALL
      when some timer runs afterwards. */
  predicate StartTried(mask: Byte, exec: Byte)
  {
    And(And(mask, Not(exec)), LowNibble) != Zero
  }

  /** A stop source tries some channel: one it routes that EXEC_STATE shows
      running. Every try clears SYNC_OUTALL when no timer runs afterwards. */
  predicate StopTried(mask: Byte, exec: Byte)
  {
    And(And(mask, exec), LowNibble) != Zero
  }

  /** Bit j of the tries of a start source. */
  lemma TriedHas(mask: Byte, exec: Byte, j: nat)
    requires j < 8
    ensures Has(And(And(mask, Not(exec)), LowNibble), j) <==> Has(mask, j) && !Has(exec, j) && j < 4
  {
    HasOps(exec, exec, j);
    HasOps(mask, Not(exec), j);
    HasOps(And(mask, Not(exec)), LowNibble, j);
  }

  /** A source that starts something has tried something. */
  lemma StartDeltaTried(mask: Byte, gm: Byte, exec: Byte)
    ensures StartDelta(mask, gm, exec) != Zero ==> StartTried(mask, exec)
    ensures And(StartDelta(mask, gm, exec), Not(LowNibble)) == Zero
  {
  }

  /** Stops are exactly the tries of a stop source. */
  lemma StopDeltaTried(mask: Byte, exec: Byte)
    ensures StopDelta(mask, exec) != Zero <==> StopTried(mask, exec)
    ensures And(exec, StopDelta(mask, exec)) == StopDelta(mask, exec)
  {
  }

  /** A start routing over the first i+1 sources tries something iff some
      routed channel was idle before it: the tries accumulate as the union
      of the masks minus the initial EXEC_STATE. `exec` is EXEC_STATE after
      the first i sources (StartRouteExec). */
  lemma StartTriedStep(sel: Byte, masks: seq<Byte>, gm: Byte, e0: Byte, exec: Byte, i: nat)
    requires |masks| == 4 && i < 4
    requires exec == Or(e0, And(And(Targets(sel, masks, i), gm), LowNibble))
    ensures StartTried(Targets(sel, masks, i + 1), e0) <==>
            StartTried(Targets(sel, masks, i), e0) || (Has(sel, i) && StartTried(masks[i], exec))
  {
    var m: Byte := if Has(sel, i) then masks[i] else Zero;
    TargetsUnion(sel, masks, i);
    StartTriedAlgebra(e0, Targets(sel, masks, i), m, gm);
  }

  /** One more source adds its mask to the union when selected. */
  lemma TargetsUnion(sel: Byte, masks: seq<Byte>, i: nat)
    requires |masks| == 4 && i < 4
    ensures Targets(sel, masks, i + 1) == Or(Targets(sel, masks, i), if Has(sel, i) then masks[i] else Zero)
  {
  }

  lemma StartTriedAlgebra(e0: Byte, t: Byte, m: Byte, gm: Byte)
    ensures StartTried(Or(t, m), e0) <==> StartTried(t, e0) || StartTried(m, Or(e0, And(And(t, gm), LowNibble)))
    ensures !StartTried(Zero, e0)
  {
  }

  lemma StopTriedStep(sel: Byte, masks: seq<Byte>, e0: Byte, exec: Byte, i: nat)
    requires |masks| == 4 && i < 4
    requires exec == And(e0, Not(And(Targets(sel, masks, i), LowNibble)))
    ensures StopTried(Targets(sel, masks, i + 1), e0) <==>
            StopTried(Targets(sel, masks, i), e0) || (Has(sel, i) && StopTried(masks[i], exec))
  {
    var m: Byte := if Has(sel, i) then masks[i] else Zero;
    TargetsUnion(sel, masks, i);
    StopTriedAlgebra(e0, Targets(sel, masks, i), m);
  }

  lemma StopTriedAlgebra(e0: Byte, t: Byte, m: Byte)
    ensures StopTried(Or(t, m), e0) <==> StopTried(t, e0) || StopTried(m, And(e0, Not(And(t, LowNibble))))
    ensures !StopTried(Zero, e0)
  {
  }

  // ----- compare-match countdown ------------------------------------------

  /** `--tcountN` on a 32-bit unsigned counter. */
  function Decrement(t: uint32): (r: uint32)
    ensures t > 0 ==> r == t - 1
    ensures t == 0 ==> r == 0xFFFF_FFFF
  {
    (t - 1) % 0x1_0000_0000
  }

  /** The counter after k compare events. */
  function CountAfter(t: uint32, k: nat): uint32
  {
    if k == 0 then t else Decrement(CountAfter(t, k - 1))
  }

  /** From a reload of n >= 1, the counter reaches zero on exactly the n-th
      compare event and not before. */
  lemma {:induction false} CountdownReachesZeroAtN(n: uint32, k: nat)
    requires n >= 1 && k <= n
    ensures CountAfter(n, k) == n - k
    ensures CountAfter(n, k) == 0 <==> k == n
  {
    if k > 0 {
      CountdownReachesZeroAtN(n, k - 1);
    }
  }

  /** A reload of 0 wraps around: after k >= 1 compare events the counter
      is 2^32 - k, so in COUNT mode the channel runs through 2^32 - 1
      events and stops only on event number 2^32. */
  lemma {:induction false} CountdownFromZeroWraps(mode: Byte, k: nat)
    requires k < 0x1_0000_0000
    ensures k >= 1 ==> CountAfter(0, k) == 0x1_0000_0000 - k
    ensures CompareStops(CountAfter(0, k), mode) <==> k == 0xFFFF_FFFF && !Has(mode, 0)
  {
    if k >= 1 {
      CountdownFromZeroWraps(mode, k - 1);
    }
    CompareStopsIff(CountAfter(0, k), mode);
  }

  /** A compare event stops its channel: the decremented counter is 0 and
      CHn_MODE is COUNT. */
  predicate CompareStops(t: uint32, mode: Byte)
  {
    Decrement(t) == 0 && And(mode, ChModeMask) == ChModeCount
  }

  /** A compare event stops the channel iff one pulse was left and the
      mode bit is clear; in INFINITE mode it never stops. */
  lemma CompareStopsIff(t: uint32, mode: Byte)
    ensures CompareStops(t, mode) <==> t == 1 && !Has(mode, 0)
  {
    MaskBit(mode, 0);
  }

  /** After a reload of n >= 1 in COUNT mode, compare event number k + 1
      stops the channel iff k + 1 == n. */
  lemma StopsOnNthCompare(n: uint32, mode: Byte, k: nat)
    requires n >= 1 && k < n
    ensures CompareStops(CountAfter(n, k), mode) <==> k + 1 == n && !Has(mode, 0)
  {
    CountdownReachesZeroAtN(n, k);
    CompareStopsIff(CountAfter(n, k), mode);
  }

  // ----- edge decoding ----------------------------------------------------

  /** What a discrete trigger edge does. */
  datatype EdgeAction = StartsSource | StopsSource | Ignored

  /** An edge is active when the pin is high and the polarity is normal, or
      the pin is low and the polarity is inverted. */
  predicate ActiveLevel(pinHigh: bool, inverted: bool)
  {
    (pinHigh && !inverted) || (!pinHigh && inverted)
  }

  /** The edge handler of discrete input i with TRGi_MODE trgMode. */
  function DiscreteEdge(pinHigh: bool, trgMode: Byte): (a: EdgeAction)
    ensures a == StartsSource <==> pinHigh != Has(trgMode, 3)
    ensures a == StopsSource <==> pinHigh == Has(trgMode, 3) && And(trgMode, TrgModeMask) == TrgModeStartAndStop
  {
    MaskBit(trgMode, 3);
    TrgModeCases(trgMode);
    if ActiveLevel(pinHigh, And(trgMode, TrgPolarityBit) != Zero) then StartsSource
    else if And(trgMode, TrgModeMask) == TrgModeStartAndStop then StopsSource
    else Ignored
  }

  /** Of the two levels of a discrete input exactly one starts; inverting
      the polarity swaps them. */
  lemma DiscreteEdgePolarity(pinHigh: bool, trgMode: Byte)
    ensures (DiscreteEdge(pinHigh, trgMode) == StartsSource) != (DiscreteEdge(!pinHigh, trgMode) == StartsSource)
    ensures (DiscreteEdge(pinHigh, trgMode) == StartsSource) ==
            (DiscreteEdge(!pinHigh, Xor(trgMode, TrgPolarityBit)) == StartsSource)
  {
  }

  /** What a TRIG_ALL edge does. */
  datatype AllAction = StartAll | EnableAll | StopAll | NoAllAction

  function TrigAllEdge(pinHigh: bool, allMode: Byte): (a: AllAction)
    ensures a == StartAll <==> pinHigh != Has(allMode, 3) && And(allMode, AllModeMask) in {AllModeTrigAll, AllModeTrigAllAndStop}
    ensures a == EnableAll <==> pinHigh != Has(allMode, 3) && And(allMode, AllModeMask) in {AllModeEnable, AllModeEnableAndStop}
    ensures a == StopAll <==> pinHigh == Has(allMode, 3) && And(allMode, AllModeMask) in {AllModeTrigAllAndStop, AllModeEnableAndStop}
  {
    var m := And(allMode, AllModeMask);
    MaskBit(allMode, 3);
    AllModeCases(allMode);
    if ActiveLevel(pinHigh, And(allMode, AllPolarityBit) != Zero) then
      (if m == AllModeTrigAll || m == AllModeTrigAllAndStop then StartAll else EnableAll)
    else if m == AllModeTrigAllAndStop || m == AllModeEnableAndStop then StopAll
    else NoAllAction
  }

  /** The modes without "and stop" ignore the inactive edge. */
  lemma TrigAllInactiveEdge(pinHigh: bool, allMode: Byte)
    requires pinHigh == Has(allMode, 3)
    ensures And(allMode, AllModeMask) in {AllModeTrigAll, AllModeEnable} <==> TrigAllEdge(pinHigh, allMode) == NoAllAction
  {
    AllModeCases(allMode);
  }
}
