/** The two trigger routers of Firmware/MultiPwm/pwm_gen_functions.c,
    check_and_start_pwms and check_and_stop_pwms, on the whole state they
    touch: timers, EXEC_STATE, CH_ENABLE, SYNC_OUTALL and the events sent.
    The Device methods are proved against these functions; the lemmas
    here relate them to the bit-level routing of PwmGen. */
module Router {
  import opened Bits
  import opened Registers
  import opened PwmGen
  import opened Channels

  /** What the routers read and write, besides the registers they only read. */
  datatype RouterState = RouterState(out: Outputs, exec: Byte, enable: Byte, syncAll: bool, events: seq<Event>)

  /** EXEC_STATE mirrors the timers. */
  predicate Coherent(d: RouterState)
  {
    OutputsWf(d.out) && Pack4(d.out.active) == d.exec
  }

  // ----- starting -------------------------------------------------------------

  /** One selected start source with mask `mask`: the inner loop tries its
      channels, then the channels it started join EXEC_STATE and one event
      carrying EXEC_STATE is sent when events are enabled. */
  function SourceStart(d: RouterState, mask: Byte, confEn: Byte, counts: seq<uint32>,
                       timing: seq<TimerParams>, evEn: bool): (r: RouterState)
    requires OutputsWf(d.out) && |counts| == 4 && |timing| == 4
    ensures OutputsWf(r.out) && r.enable == d.enable
  {
    var s := StartScan(d.out, mask, confEn, d.enable, d.exec, counts, timing, d.syncAll, 4);
    if s.started != Zero then
      var e := Or(d.exec, s.started);
      RouterState(s.out, e, d.enable, s.sync, d.events + if evEn then [Event(ExecStateAddr, e)] else [])
    else
      RouterState(s.out, d.exec, d.enable, s.sync, d.events)
  }

  /** check_and_start_pwms after the sources 0..n-1 of `sel`. */
  function RouteStart(d: RouterState, sel: Byte, masks: seq<Byte>, confEn: Byte, counts: seq<uint32>,
                      timing: seq<TimerParams>, evEn: bool, n: nat): (r: RouterState)
    requires OutputsWf(d.out) && |masks| == 4 && |counts| == 4 && |timing| == 4 && n <= 4
    ensures OutputsWf(r.out) && r.enable == d.enable
  {
    if n == 0 then d
    else
      var p := RouteStart(d, sel, masks, confEn, counts, timing, evEn, n - 1);
      if Has(sel, n - 1) then SourceStart(p, masks[n - 1], confEn, counts, timing, evEn) else p
  }

  /** One start source does what StartBySource says to EXEC_STATE and the
      events, and keeps EXEC_STATE mirroring the timers. */
  lemma SourceStartAgrees(d: RouterState, mask: Byte, confEn: Byte, counts: seq<uint32>,
                          timing: seq<TimerParams>, evEn: bool)
    requires Coherent(d) && |counts| == 4 && |timing| == 4
    ensures var r := SourceStart(d, mask, confEn, counts, timing, evEn);
            var R := StartBySource(d.exec, mask, GateMask(confEn, d.enable), true, evEn);
            r.exec == R.exec && r.events == d.events + R.events && Coherent(r)
  {
    var gm := GateMask(confEn, d.enable);
    StartScanStarted(d.out, mask, confEn, d.enable, d.exec, counts, timing, d.syncAll, 4);
    StartDeltaTried(mask, gm, d.exec);
    UptoAll(StartDelta(mask, gm, d.exec));
  }

  /** One start source only launches timers, and leaves SYNC_OUTALL raised
      iff it was raised, or the source tried a channel and some timer runs. */
  lemma SourceStartEffects(d: RouterState, mask: Byte, confEn: Byte, counts: seq<uint32>,
                           timing: seq<TimerParams>, evEn: bool)
    requires Coherent(d) && |counts| == 4 && |timing| == 4
    ensures var r := SourceStart(d, mask, confEn, counts, timing, evEn);
            Launch(d.out, r.out, counts, timing) &&
            r.syncAll == (d.syncAll || (StartTried(mask, d.exec) && r.exec != Zero))
  {
    var s := StartScan(d.out, mask, confEn, d.enable, d.exec, counts, timing, d.syncAll, 4);
    SourceStartAgrees(d, mask, confEn, counts, timing, evEn);
    StartScanSync(d.out, mask, confEn, d.enable, d.exec, counts, timing, d.syncAll, 4);
    StartScanLaunch(d.out, mask, confEn, d.enable, d.exec, counts, timing, d.syncAll, 4);
    UptoAll(And(And(mask, Not(d.exec)), LowNibble));
    Pack4NonZero(s.out.active);
  }

  /** check_and_start_pwms does what StartRoute says to EXEC_STATE and the
      events, and keeps EXEC_STATE mirroring the timers. */
  lemma {:induction false} RouteStartAgrees(d: RouterState, sel: Byte, masks: seq<Byte>, confEn: Byte,
                                            counts: seq<uint32>, timing: seq<TimerParams>, evEn: bool, n: nat)
    requires Coherent(d) && |masks| == 4 && |counts| == 4 && |timing| == 4 && n <= 4
    ensures var r := RouteStart(d, sel, masks, confEn, counts, timing, evEn, n);
            var R := StartRoute(sel, masks, GateMask(confEn, d.enable), d.exec, evEn, n);
            r.exec == R.exec && r.events == d.events + R.events && Coherent(r)
  {
    if n > 0 {
      RouteStartAgrees(d, sel, masks, confEn, counts, timing, evEn, n - 1);
      var p := RouteStart(d, sel, masks, confEn, counts, timing, evEn, n - 1);
      if Has(sel, n - 1) {
        SourceStartAgrees(p, masks[n - 1], confEn, counts, timing, evEn);
      }
    }
  }

  /** check_and_start_pwms only launches timers. */
  lemma {:induction false} RouteStartLaunches(d: RouterState, sel: Byte, masks: seq<Byte>, confEn: Byte,
                                              counts: seq<uint32>, timing: seq<TimerParams>, evEn: bool, n: nat)
    requires Coherent(d) && |masks| == 4 && |counts| == 4 && |timing| == 4 && n <= 4
    ensures Launch(d.out, RouteStart(d, sel, masks, confEn, counts, timing, evEn, n).out, counts, timing)
  {
    if n == 0 {
      LaunchStep(d.out, d.out, counts, timing, 0);
    } else {
      RouteStartLaunches(d, sel, masks, confEn, counts, timing, evEn, n - 1);
      RouteStartAgrees(d, sel, masks, confEn, counts, timing, evEn, n - 1);
      var p := RouteStart(d, sel, masks, confEn, counts, timing, evEn, n - 1);
      var r := RouteStart(d, sel, masks, confEn, counts, timing, evEn, n);
      if Has(sel, n - 1) {
        SourceStartEffects(p, masks[n - 1], confEn, counts, timing, evEn);
      } else {
        LaunchStep(p.out, p.out, counts, timing, 0);
      }
      LaunchTrans(d.out, p.out, r.out, counts, timing);
    }
  }

  /** After check_and_start_pwms SYNC_OUTALL is raised iff it was raised
      already, or some routed channel was idle and some timer runs. */
  lemma {:induction false} RouteStartSync(d: RouterState, sel: Byte, masks: seq<Byte>, confEn: Byte,
                                          counts: seq<uint32>, timing: seq<TimerParams>, evEn: bool, n: nat)
    requires Coherent(d) && |masks| == 4 && |counts| == 4 && |timing| == 4 && n <= 4
    ensures var r := RouteStart(d, sel, masks, confEn, counts, timing, evEn, n);
            r.syncAll == (d.syncAll || (StartTried(Targets(sel, masks, n), d.exec) && r.exec != Zero))
  {
    var gm := GateMask(confEn, d.enable);
    if n == 0 {
      StartTriedAlgebra(d.exec, Zero, Zero, gm);
    } else {
      RouteStartSync(d, sel, masks, confEn, counts, timing, evEn, n - 1);
      RouteStartAgrees(d, sel, masks, confEn, counts, timing, evEn, n - 1);
      var p := RouteStart(d, sel, masks, confEn, counts, timing, evEn, n - 1);
      var r := RouteStart(d, sel, masks, confEn, counts, timing, evEn, n);
      StartRouteExec(sel, masks, gm, d.exec, evEn, n - 1);
      StartTriedStep(sel, masks, gm, d.exec, p.exec, n - 1);
      if Has(sel, n - 1) {
        SourceStartAgrees(p, masks[n - 1], confEn, counts, timing, evEn);
        SourceStartEffects(p, masks[n - 1], confEn, counts, timing, evEn);
        StartDeltaTried(masks[n - 1], gm, p.exec);
        if p.exec != Zero { SubsetNonZero(p.exec, r.exec); }
      }
    }
  }

  // ----- stopping -------------------------------------------------------------

  /** One selected stop source with mask `mask`: the inner loop tries its
      channels, then the channels it stopped leave EXEC_STATE and one event
      carrying EXEC_STATE is sent when events are enabled. */
  function SourceStop(d: RouterState, mask: Byte, single: Byte, evEn: bool): (r: RouterState)
    requires OutputsWf(d.out)
    ensures OutputsWf(r.out)
  {
    var s := StopScan(d.out, mask, single, d.exec, d.enable, d.syncAll, 4);
    if s.stopped != Zero then
      var e := And(d.exec, Not(s.stopped));
      RouterState(s.out, e, s.enable, s.sync, d.events + if evEn then [Event(ExecStateAddr, e)] else [])
    else
      RouterState(s.out, d.exec, s.enable, s.sync, d.events)
  }

  /** The loop of check_and_stop_pwms after the sources 0..n-1 of `sel`. */
  function RouteStop(d: RouterState, sel: Byte, masks: seq<Byte>, single: Byte, evEn: bool, n: nat): (r: RouterState)
    requires OutputsWf(d.out) && |masks| == 4 && n <= 4
    ensures OutputsWf(r.out)
  {
    if n == 0 then d
    else
      var p := RouteStop(d, sel, masks, single, evEn, n - 1);
      if Has(sel, n - 1) then SourceStop(p, masks[n - 1], single, evEn) else p
  }

  /** One stop source does what StopBySource says to EXEC_STATE and the
      events, keeps EXEC_STATE mirroring the timers, only stops timers,
      applies the single-shot rule to the channels it stopped, and leaves
      SYNC_OUTALL raised iff it was raised, and either the source tried no
      channel or some timer still runs. */
  lemma SourceStopAgrees(d: RouterState, mask: Byte, single: Byte, evEn: bool)
    requires Coherent(d)
    ensures var r := SourceStop(d, mask, single, evEn);
            var R := StopBySource(d.exec, mask, true, evEn);
            r.exec == R.exec && r.events == d.events + R.events && Coherent(r) &&
            Halt(d.out, r.out) &&
            r.enable == SingleShot(d.enable, single, StopDelta(mask, d.exec)) &&
            r.syncAll == (d.syncAll && (!StopTried(mask, d.exec) || r.exec != Zero))
  {
    var s := StopScan(d.out, mask, single, d.exec, d.enable, d.syncAll, 4);
    StopScanStopped(d.out, mask, single, d.exec, d.enable, d.syncAll, 4);
    StopScanSync(d.out, mask, single, d.exec, d.enable, d.syncAll, 4);
    StopScanHalt(d.out, mask, single, d.exec, d.enable, d.syncAll, 4);
    StopDeltaTried(mask, d.exec);
    UptoAll(StopDelta(mask, d.exec));
    Pack4NonZero(s.out.active);
    if s.stopped == Zero {
      assert And(d.exec, Not(Zero)) == d.exec;
    }
  }

  /** Stopping `d` after the channels e0 minus p stopped, with d within p
      within e0, is stopping e0 minus (p minus d). */
  lemma SingleShotCompose(enable: Byte, single: Byte, e0: Byte, p: Byte, d: Byte)
    requires And(e0, p) == p && And(p, d) == d
    ensures SingleShot(SingleShot(enable, single, And(e0, Not(p))), single, d) ==
            SingleShot(enable, single, And(e0, Not(And(p, Not(d)))))
  {
    forall k | 0 <= k < 8
      ensures SingleShot(SingleShot(enable, single, And(e0, Not(p))), single, d)[k] ==
              SingleShot(enable, single, And(e0, Not(And(p, Not(d)))))[k]
    {
      assert And(e0, p)[k] == p[k];
      assert And(p, d)[k] == d[k];
    }
  }

  /** check_and_stop_pwms, before it refreshes the indicators, does what
      StopRoute says to EXEC_STATE and the events, and keeps EXEC_STATE
      mirroring the timers. */
  lemma {:induction false} RouteStopAgrees(d: RouterState, sel: Byte, masks: seq<Byte>, single: Byte, evEn: bool, n: nat)
    requires Coherent(d) && |masks| == 4 && n <= 4
    ensures var r := RouteStop(d, sel, masks, single, evEn, n);
            var R := StopRoute(sel, masks, d.exec, evEn, n);
            r.exec == R.exec && r.events == d.events + R.events && Coherent(r)
  {
    if n > 0 {
      RouteStopAgrees(d, sel, masks, single, evEn, n - 1);
      var p := RouteStop(d, sel, masks, single, evEn, n - 1);
      if Has(sel, n - 1) {
        SourceStopAgrees(p, masks[n - 1], single, evEn);
      }
    }
  }

  /** Exactly the channels check_and_stop_pwms removes from EXEC_STATE and
      whose CH_ENABLE_SINGLE bit is set lose their CH_ENABLE bit. */
  lemma {:induction false} RouteStopEnable(d: RouterState, sel: Byte, masks: seq<Byte>, single: Byte, evEn: bool, n: nat)
    requires Coherent(d) && |masks| == 4 && n <= 4
    ensures var r := RouteStop(d, sel, masks, single, evEn, n);
            r.enable == SingleShot(d.enable, single, And(d.exec, Not(r.exec)))
  {
    if n == 0 {
      assert And(d.exec, Not(d.exec)) == Zero;
      assert SingleShot(d.enable, single, Zero) == d.enable;
    } else {
      RouteStopEnable(d, sel, masks, single, evEn, n - 1);
      RouteStopAgrees(d, sel, masks, single, evEn, n - 1);
      var p := RouteStop(d, sel, masks, single, evEn, n - 1);
      if Has(sel, n - 1) {
        SourceStopAgrees(p, masks[n - 1], single, evEn);
        StopDeltaTried(masks[n - 1], p.exec);
        SingleShotCompose(d.enable, single, d.exec, p.exec, StopDelta(masks[n - 1], p.exec));
      }
    }
  }

  /** check_and_stop_pwms only stops timers. */
  lemma {:induction false} RouteStopHalts(d: RouterState, sel: Byte, masks: seq<Byte>, single: Byte, evEn: bool, n: nat)
    requires Coherent(d) && |masks| == 4 && n <= 4
    ensures Halt(d.out, RouteStop(d, sel, masks, single, evEn, n).out)
  {
    if n == 0 {
      HaltStep(d.out, d.out, 0);
    } else {
      RouteStopHalts(d, sel, masks, single, evEn, n - 1);
      RouteStopAgrees(d, sel, masks, single, evEn, n - 1);
      var p := RouteStop(d, sel, masks, single, evEn, n - 1);
      var r := RouteStop(d, sel, masks, single, evEn, n);
      if Has(sel, n - 1) {
        SourceStopAgrees(p, masks[n - 1], single, evEn);
      } else {
        HaltStep(p.out, p.out, 0);
      }
      HaltTrans(d.out, p.out, r.out);
    }
  }

  /** After the loop of check_and_stop_pwms SYNC_OUTALL is raised iff it
      was raised already, and either no routed channel was running or
      some timer still runs. */
  lemma {:induction false} RouteStopSync(d: RouterState, sel: Byte, masks: seq<Byte>, single: Byte, evEn: bool, n: nat)
    requires Coherent(d) && |masks| == 4 && n <= 4
    ensures var r := RouteStop(d, sel, masks, single, evEn, n);
            r.syncAll == (d.syncAll && (!StopTried(Targets(sel, masks, n), d.exec) || r.exec != Zero))
  {
    if n == 0 {
      StopTriedAlgebra(d.exec, Zero, Zero);
    } else {
      RouteStopSync(d, sel, masks, single, evEn, n - 1);
      RouteStopAgrees(d, sel, masks, single, evEn, n - 1);
      var p := RouteStop(d, sel, masks, single, evEn, n - 1);
      var r := RouteStop(d, sel, masks, single, evEn, n);
      StopRouteExec(sel, masks, d.exec, evEn, n - 1);
      StopTriedStep(sel, masks, d.exec, p.exec, n - 1);
      if Has(sel, n - 1) {
        SourceStopAgrees(p, masks[n - 1], single, evEn);
        StopDeltaTried(masks[n - 1], p.exec);
        StopDeltaRemove(p.exec, masks[n - 1]);
        if r.exec != Zero { SubsetNonZero(r.exec, p.exec); }
      }
    }
  }

  // ----- the TRIG_ALL input -------------------------------------------------

  /** The start branch of the TRIG_ALL handler, with SYNC_OUTALL already
      raised: every channel the gate allows runs afterwards, and one event
      is sent iff events are enabled and EXEC_STATE changed. */
  lemma StartAllStarts(d: RouterState, confEn: Byte, counts: seq<uint32>, timing: seq<TimerParams>, evEn: bool)
    requires Coherent(d) && d.syncAll && |counts| == 4 && |timing| == 4
    ensures var r := SourceStart(d, LowNibble, confEn, counts, timing, evEn);
            r.exec == Or(d.exec, GateMask(confEn, d.enable)) && Coherent(r) && r.syncAll &&
            Launch(d.out, r.out, counts, timing) &&
            r.events == d.events + if r.exec != d.exec && evEn then [Event(ExecStateAddr, r.exec)] else []
  {
    var gm := GateMask(confEn, d.enable);
    SourceStartAgrees(d, LowNibble, confEn, counts, timing, evEn);
    StartScanAll(d.out, confEn, d.enable, d.exec, counts, timing, d.syncAll);
    StartDeltaJoin(d.exec, LowNibble, gm);
  }

  /** The stop branch of the TRIG_ALL handler, with SYNC_OUTALL already
      dropped: no channel runs afterwards, every channel that ran loses
      its CH_ENABLE bit when its CH_ENABLE_SINGLE bit is set, and one event
      is sent iff events are enabled and some channel ran. */
  lemma StopAllStops(d: RouterState, single: Byte, evEn: bool)
    requires Coherent(d) && !d.syncAll
    ensures var r := SourceStop(d, LowNibble, single, evEn);
            r.exec == Zero && Coherent(r) && !r.syncAll && Halt(d.out, r.out) &&
            r.enable == SingleShot(d.enable, single, d.exec) &&
            r.events == d.events + if d.exec != Zero && evEn then [Event(ExecStateAddr, Zero)] else []
  {
    StopScanAll(d.out, single, d.exec, d.enable, d.syncAll);
    assert And(d.exec, Not(d.exec)) == Zero;
  }
}
