/** The per-channel side of the start and stop loops of
    Firmware/MultiPwm/pwm_gen_functions.c, on values: what the four timers,
    pulse counters, timer parameters and SYNC_OUTn pins become when the
    channels of one trigger source are tried in order. */
module Channels {
  import opened Bits
  import opened Registers
  import opened PwmGen

  /** The timer-side state of the four channels: timer running, pulse
      counter, parameters the timer was started with, SYNC_OUTn. */
  datatype Outputs = Outputs(active: seq<bool>, count: seq<uint32>, prog: seq<TimerParams>, sync: seq<bool>)

  predicate OutputsWf(o: Outputs)
  {
    |o.active| == 4 && |o.count| == 4 && |o.prog| == 4 && |o.sync| == 4
  }

  /** From a to b timers have only been started, and every channel that
      started took its pulse counter from `counts`, its parameters from
      `timing` and raised SYNC_OUTn; the other channels kept counter,
      parameters and SYNC_OUTn. */
  predicate Launch(a: Outputs, b: Outputs, counts: seq<uint32>, timing: seq<TimerParams>)
  {
    OutputsWf(a) && OutputsWf(b) && |counts| == 4 && |timing| == 4 &&
    LaunchAt(a, b, counts, timing, 0) && LaunchAt(a, b, counts, timing, 1) &&
    LaunchAt(a, b, counts, timing, 2) && LaunchAt(a, b, counts, timing, 3)
  }

  /** Launch, for channel k. */
  predicate LaunchAt(a: Outputs, b: Outputs, counts: seq<uint32>, timing: seq<TimerParams>, k: Chan)
    requires OutputsWf(a) && OutputsWf(b) && |counts| == 4 && |timing| == 4
  {
    (a.active[k] ==> b.active[k]) &&
    b.count[k] == (if b.active[k] && !a.active[k] then counts[k] else a.count[k]) &&
    b.prog[k] == (if b.active[k] && !a.active[k] then timing[k] else a.prog[k]) &&
    b.sync[k] == ((b.active[k] && !a.active[k]) || a.sync[k])
  }

  /** Launches compose. */
  lemma LaunchTrans(a: Outputs, b: Outputs, c: Outputs, counts: seq<uint32>, timing: seq<TimerParams>)
    requires Launch(a, b, counts, timing) && Launch(b, c, counts, timing)
    ensures Launch(a, c, counts, timing)
  {
  }

  /** Starting one idle channel j, or changing nothing, is a launch. */
  lemma LaunchStep(a: Outputs, b: Outputs, counts: seq<uint32>, timing: seq<TimerParams>, j: Chan)
    requires OutputsWf(a) && |counts| == 4 && |timing| == 4
    requires b == a || (!a.active[j] && b == Outputs(a.active[j := true], a.count[j := counts[j]],
                                                       a.prog[j := timing[j]], a.sync[j := true]))
    ensures Launch(a, b, counts, timing)
  {
  }

  /** hwbp_app_pwm_gen_start_chN on an idle channel j: the timer starts with
      the channel's parameters, the pulse counter reloads, SYNC_OUTn rises. */
  function StartOne(o: Outputs, j: Chan, counts: seq<uint32>, timing: seq<TimerParams>): (r: Outputs)
    requires OutputsWf(o) && |counts| == 4 && |timing| == 4
    ensures OutputsWf(r)
  {
    Outputs(o.active[j := true], o.count[j := counts[j]], o.prog[j := timing[j]], o.sync[j := true])
  }

  /** The result of trying channels 0..n-1 of one source. */
  datatype Scan = Scan(out: Outputs, started: Byte, sync: bool)

  /** One pass of the inner loop of check_and_start_pwms, for channel j of
      a source with mask `mask` and EXEC_STATE `e`: the channel is tried
      when its mask bit is set and EXEC_STATE shows it idle; start_chN
      starts it when the gate allows and its timer is idle; after the try
      SYNC_OUTALL rises if any timer runs. */
  function StartTry(p: Scan, mask: Byte, confEn: Byte, enable: Byte, e: Byte,
                    counts: seq<uint32>, timing: seq<TimerParams>, j: Chan): (r: Scan)
    requires OutputsWf(p.out) && |counts| == 4 && |timing| == 4
    ensures OutputsWf(r.out)
  {
    if !Has(e, j) && Has(mask, j) then
      var out := if StartGo(p.out, confEn, enable, j) then StartOne(p.out, j, counts, timing) else p.out;
      Scan(out, Or(p.started, StartBit(p, mask, confEn, enable, e, j)), p.sync || AnyOf4(out.active))
    else p
  }

  /** start_chN goes ahead: the gate allows channel j and its timer is idle. */
  predicate StartGo(o: Outputs, confEn: Byte, enable: Byte, j: Chan)
    requires OutputsWf(o)
  {
    Gate(confEn, enable, j) && !o.active[j]
  }

  /** The bit that pass j of the loop adds to the source's started channels. */
  function StartBit(p: Scan, mask: Byte, confEn: Byte, enable: Byte, e: Byte, j: Chan): Byte
    requires OutputsWf(p.out)
  {
    if !Has(e, j) && Has(mask, j) && StartGo(p.out, confEn, enable, j) then Bit(j) else Zero
  }

  /** The inner loop over channels 0..n-1, from timer state `o` and
      SYNC_OUTALL `sync0`. */
  function StartScan(o: Outputs, mask: Byte, confEn: Byte, enable: Byte, e: Byte,
                     counts: seq<uint32>, timing: seq<TimerParams>, sync0: bool, n: nat): (r: Scan)
    requires OutputsWf(o) && |counts| == 4 && |timing| == 4 && n <= 4
    ensures OutputsWf(r.out)
  {
    if n == 0 then Scan(o, Zero, sync0)
    else StartTry(StartScan(o, mask, confEn, enable, e, counts, timing, sync0, n - 1),
                  mask, confEn, enable, e, counts, timing, n - 1)
  }

  lemma StartScanStep(o: Outputs, mask: Byte, confEn: Byte, enable: Byte, e: Byte,
                      counts: seq<uint32>, timing: seq<TimerParams>, sync0: bool, j: Chan)
    requires OutputsWf(o) && |counts| == 4 && |timing| == 4
    ensures StartScan(o, mask, confEn, enable, e, counts, timing, sync0, j + 1) ==
            StartTry(StartScan(o, mask, confEn, enable, e, counts, timing, sync0, j),
                     mask, confEn, enable, e, counts, timing, j)
  {
  }

  /** The scan only launches channels. */
  lemma {:induction false} StartScanLaunch(o: Outputs, mask: Byte, confEn: Byte, enable: Byte, e: Byte,
                                            counts: seq<uint32>, timing: seq<TimerParams>, sync0: bool, n: nat)
    requires OutputsWf(o) && |counts| == 4 && |timing| == 4 && n <= 4
    ensures Launch(o, StartScan(o, mask, confEn, enable, e, counts, timing, sync0, n).out, counts, timing)
  {
    if n == 0 {
      LaunchStep(o, o, counts, timing, 0);
    } else {
      StartScanLaunch(o, mask, confEn, enable, e, counts, timing, sync0, n - 1);
      var p := StartScan(o, mask, confEn, enable, e, counts, timing, sync0, n - 1);
      var r := StartScan(o, mask, confEn, enable, e, counts, timing, sync0, n);
      LaunchStep(p.out, r.out, counts, timing, n - 1);
      LaunchTrans(o, p.out, r.out, counts, timing);
    }
  }

  /** When EXEC_STATE mirrors the timers, the scan starts exactly the
      channels StartDelta names, among channels 0..n-1, and EXEC_STATE
      together with them mirrors the timers afterwards. */
  lemma {:induction false} StartScanStarted(o: Outputs, mask: Byte, confEn: Byte, enable: Byte, e: Byte,
                                             counts: seq<uint32>, timing: seq<TimerParams>, sync0: bool, n: nat)
    requires OutputsWf(o) && |counts| == 4 && |timing| == 4 && n <= 4
    requires Pack4(o.active) == e
    ensures var r := StartScan(o, mask, confEn, enable, e, counts, timing, sync0, n);
            r.started == Upto(StartDelta(mask, GateMask(confEn, enable), e), n) &&
            Pack4(r.out.active) == Or(e, r.started)
  {
    if n > 0 {
      StartScanStarted(o, mask, confEn, enable, e, counts, timing, sync0, n - 1);
      var p := StartScan(o, mask, confEn, enable, e, counts, timing, sync0, n - 1);
      var j := n - 1;
      var d := StartDelta(mask, GateMask(confEn, enable), e);
      UptoStep(d, j);
      StartDeltaHas(mask, GateMask(confEn, enable), e, j);
      GateMaskHas(confEn, enable, j);
      HasOps(e, p.started, j);
      Pack4Has(p.out.active, j);
      if !Has(e, j) && Has(mask, j) && Gate(confEn, enable, j) {
        Pack4Update(p.out.active, j, true);
        OrAssoc(e, p.started, Bit(j));
      }
    }
  }

  /** After the scan SYNC_OUTALL is raised iff it was, or some channel was
      tried and some timer runs. */
  lemma {:induction false} StartScanSync(o: Outputs, mask: Byte, confEn: Byte, enable: Byte, e: Byte,
                                          counts: seq<uint32>, timing: seq<TimerParams>, sync0: bool, n: nat)
    requires OutputsWf(o) && |counts| == 4 && |timing| == 4 && n <= 4
    ensures var r := StartScan(o, mask, confEn, enable, e, counts, timing, sync0, n);
            r.sync == (sync0 || (Upto(And(And(mask, Not(e)), LowNibble), n) != Zero && AnyOf4(r.out.active)))
  {
    if n > 0 {
      StartScanSync(o, mask, confEn, enable, e, counts, timing, sync0, n - 1);
      var p := StartScan(o, mask, confEn, enable, e, counts, timing, sync0, n - 1);
      var r := StartScan(o, mask, confEn, enable, e, counts, timing, sync0, n);
      UptoStep(And(And(mask, Not(e)), LowNibble), n - 1);
      TriedHas(mask, e, n - 1);
      StartScanLaunch(o, mask, confEn, enable, e, counts, timing, sync0, n);
      LaunchStep(p.out, r.out, counts, timing, n - 1);
    }
  }

  // ----- the stop side ------------------------------------------------------

  /** From a to b timers have only been stopped, every channel that stopped
      dropped SYNC_OUTn, and pulse counters and parameters are untouched. */
  predicate Halt(a: Outputs, b: Outputs)
  {
    OutputsWf(a) && OutputsWf(b) && a.count == b.count && a.prog == b.prog &&
    HaltAt(a, b, 0) && HaltAt(a, b, 1) && HaltAt(a, b, 2) && HaltAt(a, b, 3)
  }

  /** Halt, for channel k. */
  predicate HaltAt(a: Outputs, b: Outputs, k: Chan)
    requires OutputsWf(a) && OutputsWf(b)
  {
    (b.active[k] ==> a.active[k]) &&
    b.sync[k] == (a.sync[k] && !(a.active[k] && !b.active[k]))
  }

  lemma HaltTrans(a: Outputs, b: Outputs, c: Outputs)
    requires Halt(a, b) && Halt(b, c)
    ensures Halt(a, c)
  {
  }

  /** hwbp_app_pwm_gen_stop_chN on a running channel j: the timer stops and
      SYNC_OUTn falls. */
  function StopOne(o: Outputs, j: Chan): (r: Outputs)
    requires OutputsWf(o)
    ensures OutputsWf(r)
  {
    Outputs(o.active[j := false], o.count, o.prog, o.sync[j := false])
  }

  /** Stopping one running channel j, or changing nothing, is a halt. */
  lemma HaltStep(a: Outputs, b: Outputs, j: Chan)
    requires OutputsWf(a)
    requires b == a || (a.active[j] && b == StopOne(a, j))
    ensures Halt(a, b)
  {
  }

  /** The result of trying channels 0..n-1 of one stop source: timer state,
      the channels stopped, CH_ENABLE, SYNC_OUTALL. */
  datatype Halting = Halting(out: Outputs, stopped: Byte, enable: Byte, sync: bool)

  /** One pass of the inner loop of check_and_stop_pwms, for channel j of
      a source with mask `mask` and EXEC_STATE `e`: the channel is tried
      when its mask bit is set and EXEC_STATE shows it running; stop_chN
      stops it when its timer runs, and then clears its CH_ENABLE bit when
      its CH_ENABLE_SINGLE bit is set; after the try SYNC_OUTALL falls if
      no timer runs. */
  function StopTry(p: Halting, mask: Byte, single: Byte, e: Byte, j: Chan): (r: Halting)
    requires OutputsWf(p.out)
    ensures OutputsWf(r.out)
  {
    if Has(e, j) && Has(mask, j) then
      var go := p.out.active[j];
      var out := if go then StopOne(p.out, j) else p.out;
      Halting(out, Or(p.stopped, if go then Bit(j) else Zero),
              if go && Has(single, j) then Clear(p.enable, j) else p.enable,
              p.sync && AnyOf4(out.active))
    else p
  }

  /** The inner loop over channels 0..n-1, from timer state `o`, CH_ENABLE
      `enable0` and SYNC_OUTALL `sync0`. */
  function StopScan(o: Outputs, mask: Byte, single: Byte, e: Byte, enable0: Byte, sync0: bool, n: nat): (r: Halting)
    requires OutputsWf(o) && n <= 4
    ensures OutputsWf(r.out)
  {
    if n == 0 then Halting(o, Zero, enable0, sync0)
    else StopTry(StopScan(o, mask, single, e, enable0, sync0, n - 1), mask, single, e, n - 1)
  }

  lemma StopScanStep(o: Outputs, mask: Byte, single: Byte, e: Byte, enable0: Byte, sync0: bool, j: Chan)
    requires OutputsWf(o)
    ensures StopScan(o, mask, single, e, enable0, sync0, j + 1) ==
            StopTry(StopScan(o, mask, single, e, enable0, sync0, j), mask, single, e, j)
  {
  }

  /** The scan only stops channels. */
  lemma {:induction false} StopScanHalt(o: Outputs, mask: Byte, single: Byte, e: Byte, enable0: Byte, sync0: bool, n: nat)
    requires OutputsWf(o) && n <= 4
    ensures Halt(o, StopScan(o, mask, single, e, enable0, sync0, n).out)
  {
    if n == 0 {
      HaltStep(o, o, 0);
    } else {
      StopScanHalt(o, mask, single, e, enable0, sync0, n - 1);
      var p := StopScan(o, mask, single, e, enable0, sync0, n - 1);
      var r := StopScan(o, mask, single, e, enable0, sync0, n);
      HaltStep(p.out, r.out, n - 1);
      HaltTrans(o, p.out, r.out);
    }
  }

  /** One more stopped channel, in the algebra of the stop scan. */
  lemma StopAddAlgebra(e: Byte, s: Byte, enable: Byte, single: Byte, j: Chan)
    ensures Clear(And(e, Not(s)), j) == And(e, Not(Or(s, Bit(j))))
    ensures SingleShot(enable, single, Or(s, Bit(j))) ==
            if Has(single, j) then Clear(SingleShot(enable, single, s), j) else SingleShot(enable, single, s)
  {
  }

  /** When EXEC_STATE mirrors the timers, the scan stops exactly the
      channels StopDelta names, among channels 0..n-1; EXEC_STATE without
      them mirrors the timers afterwards, and the stopped channels with
      CH_ENABLE_SINGLE set have left CH_ENABLE. */
  lemma {:induction false} StopScanStopped(o: Outputs, mask: Byte, single: Byte, e: Byte, enable0: Byte, sync0: bool, n: nat)
    requires OutputsWf(o) && n <= 4
    requires Pack4(o.active) == e
    ensures var r := StopScan(o, mask, single, e, enable0, sync0, n);
            r.stopped == Upto(StopDelta(mask, e), n) &&
            Pack4(r.out.active) == And(e, Not(r.stopped)) &&
            r.enable == SingleShot(enable0, single, r.stopped)
  {
    if n == 0 {
      assert SingleShot(enable0, single, Zero) == enable0;
      assert And(e, Not(Zero)) == e;
    } else {
      StopScanStopped(o, mask, single, e, enable0, sync0, n - 1);
      var p := StopScan(o, mask, single, e, enable0, sync0, n - 1);
      var j := n - 1;
      var d := StopDelta(mask, e);
      UptoStep(d, j);
      StopDeltaHas(mask, e, j);
      HasOps(e, Not(p.stopped), j);
      HasOps(p.stopped, p.stopped, j);
      Pack4Has(p.out.active, j);
      if Has(e, j) && Has(mask, j) {
        Pack4Update(p.out.active, j, false);
        StopAddAlgebra(e, p.stopped, enable0, single, j);
      }
    }
  }

  /** After the scan SYNC_OUTALL is raised iff it was, and either no
      channel was tried or some timer still runs. */
  lemma {:induction false} StopScanSync(o: Outputs, mask: Byte, single: Byte, e: Byte, enable0: Byte, sync0: bool, n: nat)
    requires OutputsWf(o) && n <= 4
    ensures var r := StopScan(o, mask, single, e, enable0, sync0, n);
            r.sync == (sync0 && (Upto(StopDelta(mask, e), n) == Zero || AnyOf4(r.out.active)))
  {
    if n > 0 {
      StopScanSync(o, mask, single, e, enable0, sync0, n - 1);
      var p := StopScan(o, mask, single, e, enable0, sync0, n - 1);
      var r := StopScan(o, mask, single, e, enable0, sync0, n);
      UptoStep(StopDelta(mask, e), n - 1);
      StopDeltaHas(mask, e, n - 1);
      HaltStep(p.out, r.out, n - 1);
    }
  }

  // ----- all four channels at once ------------------------------------------

  /** Starting every channel, as the TRIG_ALL input does (a scan with every
      mask bit set): afterwards the channels that ran before and every
      channel the gate allows run, SYNC_OUTALL stays raised when it was,
      and timers are only launched. */
  lemma StartScanAll(o: Outputs, confEn: Byte, enable: Byte, e: Byte,
                     counts: seq<uint32>, timing: seq<TimerParams>, sync0: bool)
    requires OutputsWf(o) && |counts| == 4 && |timing| == 4
    requires Pack4(o.active) == e
    ensures var r := StartScan(o, LowNibble, confEn, enable, e, counts, timing, sync0, 4);
            r.started == StartDelta(LowNibble, GateMask(confEn, enable), e) &&
            Pack4(r.out.active) == Or(e, GateMask(confEn, enable)) &&
            (sync0 ==> r.sync) && Launch(o, r.out, counts, timing)
  {
    var gm := GateMask(confEn, enable);
    StartScanStarted(o, LowNibble, confEn, enable, e, counts, timing, sync0, 4);
    StartScanSync(o, LowNibble, confEn, enable, e, counts, timing, sync0, 4);
    StartScanLaunch(o, LowNibble, confEn, enable, e, counts, timing, sync0, 4);
    StartDeltaTried(LowNibble, gm, e);
    UptoAll(StartDelta(LowNibble, gm, e));
    StartDeltaJoin(e, LowNibble, gm);
    forall k | 0 <= k < 8 ensures And(And(LowNibble, gm), LowNibble)[k] == gm[k] {
      assert And(gm, Not(LowNibble))[k] == Zero[k];
    }
  }

  /** Stopping every channel, as standby and the TRIG_ALL input do (a scan
      with every mask bit set): when EXEC_STATE mirrors the timers, every
      running channel stops, no timer runs afterwards, the single-shot
      rule applies to all of them, and SYNC_OUTALL stays low when it was. */
  lemma StopScanAll(o: Outputs, single: Byte, e: Byte, enable0: Byte, sync0: bool)
    requires OutputsWf(o) && Pack4(o.active) == e
    ensures var r := StopScan(o, LowNibble, single, e, enable0, sync0, 4);
            r.stopped == e && Pack4(r.out.active) == Zero && r.enable == SingleShot(enable0, single, e) &&
            (!sync0 ==> !r.sync) && Halt(o, r.out)
  {
    StopScanStopped(o, LowNibble, single, e, enable0, sync0, 4);
    StopScanSync(o, LowNibble, single, e, enable0, sync0, 4);
    StopScanHalt(o, LowNibble, single, e, enable0, sync0, 4);
    assert StopDelta(LowNibble, e) == e;
    UptoAll(e);
    assert And(e, Not(e)) == Zero;
  }
}
