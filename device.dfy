/** The pulse generator as one mutable device (Firmware/MultiPwm/app.c,
    app_funcs.c and pwm_gen_functions.c): the register bank, the globals of
    the generator (pulse counters and the per-channel timer parameters), and
    the peripherals the firmware drives, each replaced by a field:
    the four 16-bit timers by `timerActive` and `programmed`, the SYNC_OUTn
    and SYNC_OUTALL pins by `syncOut` and `syncAll`, the ENABLED_PWMn
    indicators by `enabledLed`. Events sent to the host are appended to a
    ghost log. Every interrupt handler and every host request is one
    atomic method. */
module MultiPwm {
  import opened Bits
  import opened Registers
  import opened HostValues
  import opened PwmGen
  import opened Channels
  import opened Router

  class Device {
    var regs: AppRegs
    /** TCx0_CTRLA != 0: the timer of channel k is counting. */
    var timerActive: seq<bool>
    /** tcount0..3: compare events left before a COUNT-mode channel stops. */
    var tcount: seq<uint32>
    /** prescalerN, target_countN and duty_cycleN, as the last update_reals left them. */
    var timing: seq<TimerParams>
    /** What timer k was last started with. */
    var programmed: seq<TimerParams>
    var syncOut: seq<bool>
    var syncAll: bool
    var enabledLed: seq<bool>
    /** core_bool_is_visual_enabled. */
    var visual: bool
    /** Events sent with core_func_send_event, oldest first. */
    ghost var events: seq<Event>
    /** calculate_timer_16bits for a 32 MHz clock: the fit for a frequency, if any. */
    const fitter: real -> Option<GoodFit>

    predicate Wf()
      reads this
    {
      Shaped(regs) && |timerActive| == 4 && |tcount| == 4 && |timing| == 4 &&
      |programmed| == 4 && |syncOut| == 4 && |enabledLed| == 4
    }

    /** The central invariant: bit k of EXEC_STATE is set iff timer k runs. */
    predicate Valid()
      reads this
    {
      Wf() && Pack4(timerActive) == regs.execState
    }

    predicate EventsEnabled()
      reads this
    {
      Has(regs.evntEnable, 0)
    }

    /** The device before the reset callback: a zeroed register bank and no timer running. */
    constructor (fitter: real -> Option<GoodFit>, visual: bool)
      ensures Valid() && regs == ZeroRegs() && this.fitter == fitter && this.visual == visual
      ensures timerActive == [false, false, false, false] && events == [] && !syncAll
    {
      this.fitter := fitter;
      this.visual := visual;
      regs := ZeroRegs();
      timerActive := [false, false, false, false];
      tcount := [0, 0, 0, 0];
      timing := seq(4, _ => TimerParams(0, 0, 0));
      programmed := seq(4, _ => TimerParams(0, 0, 0));
      syncOut := [false, false, false, false];
      syncAll := false;
      enabledLed := [false, false, false, false];
      events := [];
    }

    // ----- per-channel primitives -----------------------------------------

    /** hwbp_app_pwm_gen_start_chN: a channel the gate allows and whose timer
        is idle reloads its pulse counter from CHn_COUNTS, starts its timer
        with its current parameters and raises SYNC_OUTn; the channel bit is
        returned. Otherwise nothing changes and 0 is returned. */
    method StartCh(j: Chan) returns (bit: Byte)
      requires Wf()
      modifies this`tcount, this`timerActive, this`programmed, this`syncOut
      ensures Wf()
      ensures bit == if StartGo(old(Out()), old(regs.confEn), old(regs.enable), j) then Bit(j) else Zero
      ensures Out() == if StartGo(old(Out()), old(regs.confEn), old(regs.enable), j)
                       then StartOne(old(Out()), j, old(regs.counts), old(timing)) else old(Out())
    {
      bit := Zero;
      if Gate(regs.confEn, regs.enable, j) {
        if !timerActive[j] {
          tcount := tcount[j := regs.counts[j]];
          programmed := programmed[j := timing[j]];
          timerActive := timerActive[j := true];
          syncOut := syncOut[j := true];
          bit := Bit(j);
        }
      }
    }

    /** hwbp_app_pwm_gen_stop_chN: a running channel stops, drops SYNC_OUTn,
        loses its CH_ENABLE bit when its CH_ENABLE_SINGLE bit is set, and
        its bit is returned. An idle channel changes nothing and 0 is returned. */
    method StopCh(j: Chan) returns (bit: Byte)
      requires Wf()
      modifies this`timerActive, this`syncOut, this`regs
      ensures Wf()
      ensures bit == if old(timerActive[j]) then Bit(j) else Zero
      ensures timerActive == old(timerActive)[j := false]
      ensures syncOut == if bit != Zero then old(syncOut)[j := false] else old(syncOut)
      ensures regs == old(regs).(enable := if bit != Zero && Has(old(regs.enableSingle), j)
                                           then Clear(old(regs.enable), j) else old(regs.enable))
    {
      bit := Zero;
      if timerActive[j] {
        timerActive := timerActive[j := false];
        syncOut := syncOut[j := false];
        if Has(regs.enableSingle, j) {
          regs := regs.(enable := Clear(regs.enable, j));
        }
        bit := Bit(j);
        BitHas(j, j);
      }
    }

    /** The timer-side state of the four channels. */
    ghost function Out(): Outputs
      reads this`timerActive, this`tcount, this`programmed, this`syncOut
    {
      Outputs(timerActive, tcount, programmed, syncOut)
    }

    /** Since the old state, timers have only been started (see Launch). */
    twostate predicate Launched()
      reads this
    {
      old(Wf()) && Wf() && Launch(old(Out()), Out(), old(regs.counts), old(timing))
    }

    /** Since the old state, timers have only been stopped (see Halt). */
    twostate predicate Halted()
      reads this
    {
      old(Wf()) && Wf() && Halt(old(Out()), Out())
    }

    /** What the trigger routers read and write, besides registers they only read. */
    ghost function State(): RouterState
      reads this
    {
      RouterState(Out(), regs.execState, regs.enable, syncAll, events)
    }

    // ----- the start router -----------------------------------------------

    /** The inner loop of check_and_start_pwms for one selected source with
        mask `mask`: every routed channel EXEC_STATE shows idle is tried with
        start_chN, and SYNC_OUTALL is raised after any try that leaves some
        timer running. Returns the channels started; EXEC_STATE itself is
        updated by the caller. */
    method StartMasked(mask: Byte) returns (started: Byte)
      requires Wf()
      modifies this`tcount, this`timerActive, this`programmed, this`syncOut, this`syncAll
      ensures Wf()
      ensures Scan(Out(), started, syncAll) ==
              StartScan(old(Out()), mask, old(regs.confEn), old(regs.enable), old(regs.execState),
                        old(regs.counts), old(timing), old(syncAll), 4)
    {
      started := Zero;
      for j := 0 to 4
        invariant Wf()
        invariant Scan(Out(), started, syncAll) ==
                  StartScan(old(Out()), mask, old(regs.confEn), old(regs.enable), old(regs.execState),
                            old(regs.counts), old(timing), old(syncAll), j)
      {
        StartScanStep(old(Out()), mask, old(regs.confEn), old(regs.enable), old(regs.execState),
                      old(regs.counts), old(timing), old(syncAll), j);
        var b := TryStartCh(mask, j, started);
        started := Or(started, b);
      }
    }

    /** The body of that loop for channel j: the try of StartTry, returning
        the bit start_chN returned (0 when the channel was not tried). */
    method TryStartCh(mask: Byte, j: Chan, ghost started: Byte) returns (b: Byte)
      requires Wf()
      modifies this`tcount, this`timerActive, this`programmed, this`syncOut, this`syncAll
      ensures Wf()
      ensures var p := Scan(old(Out()), started, old(syncAll));
              var r := StartTry(p, mask, old(regs.confEn), old(regs.enable), old(regs.execState),
                                old(regs.counts), old(timing), j);
              b == StartBit(p, mask, old(regs.confEn), old(regs.enable), old(regs.execState), j) &&
              Out() == r.out && syncAll == r.sync
    {
      b := Zero;
      if !Has(regs.execState, j) && Has(mask, j) {
        b := StartCh(j);
        if AnyOf4(timerActive) {
          syncAll := true;
        }
      }
    }

    /** One pass of the outer loop of check_and_start_pwms for a selected
        source: the channels started join EXEC_STATE, and one event carrying
        EXEC_STATE is sent when something started and events are enabled. */
    method StartSource(mask: Byte)
      requires Wf()
      modifies this`regs, this`tcount, this`timerActive, this`programmed, this`syncOut, this`syncAll, this`events
      ensures Wf()
      ensures State() == SourceStart(old(State()), mask, old(regs.confEn), old(regs.counts), old(timing),
                                     old(EventsEnabled()))
      ensures regs == old(regs).(execState := regs.execState)
    {
      var started := StartMasked(mask);
      if started != Zero {
        regs := regs.(execState := Or(regs.execState, started));
        if EventsEnabled() {
          events := events + [Event(ExecStateAddr, regs.execState)];
        }
      }
    }

    /** check_and_start_pwms(sel): the sources selected in `sel` are taken in
        order; each adds the channels it starts to EXEC_STATE at once and
        then raises one event, when it started something and events are
        enabled. The result is the one StartRoute defines, EXEC_STATE keeps
        mirroring the timers, and timers are only started. SYNC_OUTALL ends
        raised iff it was raised already, or some routed channel was idle
        and some timer now runs. */
    method CheckAndStartPwms(sel: Byte)
      requires Valid()
      modifies this`regs, this`tcount, this`timerActive, this`programmed, this`syncOut, this`syncAll, this`events
      ensures Valid() && Launched()
      ensures State() == RouteStart(old(State()), sel, old(regs.trgMask), old(regs.confEn), old(regs.counts),
                                    old(timing), old(EventsEnabled()), 4)
      ensures var r := StartRoute(sel, old(regs.trgMask), GateMask(old(regs.confEn), old(regs.enable)),
                                  old(regs.execState), old(EventsEnabled()), 4);
              regs == old(regs).(execState := r.exec) && events == old(events) + r.events
      ensures syncAll == (old(syncAll) || (StartTried(Targets(sel, old(regs.trgMask), 4), old(regs.execState)) &&
                                           regs.execState != Zero))
    {
      for i := 0 to 4
        invariant Wf() && regs == old(regs).(execState := regs.execState)
        invariant State() == RouteStart(old(State()), sel, old(regs.trgMask), old(regs.confEn), old(regs.counts),
                                        old(timing), old(EventsEnabled()), i)
      {
        if Has(sel, i) {
          StartSource(regs.trgMask[i]);
        }
      }
      RouteStartAgrees(old(State()), sel, old(regs.trgMask), old(regs.confEn), old(regs.counts),
                       old(timing), old(EventsEnabled()), 4);
      RouteStartLaunches(old(State()), sel, old(regs.trgMask), old(regs.confEn), old(regs.counts),
                         old(timing), old(EventsEnabled()), 4);
      RouteStartSync(old(State()), sel, old(regs.trgMask), old(regs.confEn), old(regs.counts),
                     old(timing), old(EventsEnabled()), 4);
    }

    // ----- the stop router ------------------------------------------------

    /** The inner loop of check_and_stop_pwms for one selected source with
        mask `mask`: every routed channel EXEC_STATE shows running is tried
        with stop_chN, and SYNC_OUTALL is dropped after any try that leaves
        no timer running. Returns the channels stopped. */
    method StopMasked(mask: Byte) returns (stopped: Byte)
      requires Wf()
      modifies this`timerActive, this`syncOut, this`regs, this`syncAll
      ensures Wf()
      ensures Halting(Out(), stopped, regs.enable, syncAll) ==
              StopScan(old(Out()), mask, old(regs.enableSingle), old(regs.execState), old(regs.enable), old(syncAll), 4)
      ensures regs == old(regs).(enable := regs.enable)
    {
      stopped := Zero;
      for j := 0 to 4
        invariant Wf() && regs == old(regs).(enable := regs.enable)
        invariant Halting(Out(), stopped, regs.enable, syncAll) ==
                  StopScan(old(Out()), mask, old(regs.enableSingle), old(regs.execState), old(regs.enable),
                           old(syncAll), j)
      {
        StopScanStep(old(Out()), mask, old(regs.enableSingle), old(regs.execState), old(regs.enable), old(syncAll), j);
        var b := TryStopCh(mask, j, stopped);
        stopped := Or(stopped, b);
      }
    }

    /** The body of that loop for channel j: the try of StopTry, returning
        the bit stop_chN returned (0 when the channel was not tried). */
    method TryStopCh(mask: Byte, j: Chan, ghost stopped: Byte) returns (b: Byte)
      requires Wf()
      modifies this`timerActive, this`syncOut, this`regs, this`syncAll
      ensures Wf()
      ensures var r := StopTry(Halting(old(Out()), stopped, old(regs.enable), old(syncAll)),
                               mask, old(regs.enableSingle), old(regs.execState), j);
              Or(stopped, b) == r.stopped && Out() == r.out && regs == old(regs).(enable := r.enable) &&
              syncAll == r.sync
    {
      b := Zero;
      if Has(regs.execState, j) && Has(mask, j) {
        b := StopCh(j);
        if old(timerActive[j]) {
          BitHas(j, j);
          assert timerActive == old(timerActive)[j := false] && syncOut == old(syncOut)[j := false];
          assert Out() == StopOne(old(Out()), j);
        } else {
          assert Out() == old(Out());
        }
        if !AnyOf4(timerActive) {
          syncAll := false;
        }
      } else {
        assert Or(stopped, Zero) == stopped;
      }
    }

    /** One pass of the outer loop of check_and_stop_pwms for a selected
        source: the channels stopped leave EXEC_STATE, and one event carrying
        EXEC_STATE is sent when something stopped and events are enabled. */
    method StopSource(mask: Byte)
      requires Wf()
      modifies this`regs, this`timerActive, this`syncOut, this`syncAll, this`events
      ensures Wf()
      ensures State() == SourceStop(old(State()), mask, old(regs.enableSingle), old(EventsEnabled()))
      ensures regs == old(regs).(execState := regs.execState, enable := regs.enable)
    {
      var stopped := StopMasked(mask);
      if stopped != Zero {
        regs := regs.(execState := And(regs.execState, Not(stopped)));
        if EventsEnabled() {
          events := events + [Event(ExecStateAddr, regs.execState)];
        }
      }
    }

    /** check_and_stop_pwms(sel): the sources selected in `sel` are taken in
        order; each removes the channels it stops from EXEC_STATE at once and
        then raises one event, when it stopped something and events are
        enabled; finally the indicators are refreshed. The result is the one
        StopRoute defines, EXEC_STATE keeps mirroring the timers, timers are
        only stopped, and exactly the stopped channels with CH_ENABLE_SINGLE
        set lose their CH_ENABLE bit. SYNC_OUTALL ends raised iff it was
        raised already, and either no routed channel was running or some
        timer still runs. */
    method CheckAndStopPwms(sel: Byte)
      requires Valid()
      modifies this`regs, this`timerActive, this`syncOut, this`syncAll, this`events, this`enabledLed
      ensures Valid() && Halted()
      ensures State() == RouteStop(old(State()), sel, old(regs.trgMask), old(regs.enableSingle), old(EventsEnabled()), 4)
      ensures var r := StopRoute(sel, old(regs.trgMask), old(regs.execState), old(EventsEnabled()), 4);
              regs == old(regs).(execState := r.exec,
                                 enable := SingleShot(old(regs.enable), old(regs.enableSingle),
                                                      And(old(regs.execState), Not(r.exec)))) &&
              events == old(events) + r.events
      ensures syncAll == (old(syncAll) && (!StopTried(Targets(sel, old(regs.trgMask), 4), old(regs.execState)) ||
                                           regs.execState != Zero))
      ensures visual ==> forall k :: 0 <= k < 4 ==> enabledLed[k] == Gate(regs.confEn, regs.enable, k)
      ensures !visual ==> enabledLed == old(enabledLed)
    {
      for i := 0 to 4
        invariant Wf() && regs == old(regs).(execState := regs.execState, enable := regs.enable)
        invariant State() == RouteStop(old(State()), sel, old(regs.trgMask), old(regs.enableSingle),
                                       old(EventsEnabled()), i)
        invariant enabledLed == old(enabledLed)
      {
        if Has(sel, i) {
          StopSource(regs.trgMask[i]);
        }
      }
      RouteStopAgrees(old(State()), sel, old(regs.trgMask), old(regs.enableSingle), old(EventsEnabled()), 4);
      RouteStopEnable(old(State()), sel, old(regs.trgMask), old(regs.enableSingle), old(EventsEnabled()), 4);
      RouteStopHalts(old(State()), sel, old(regs.trgMask), old(regs.enableSingle), old(EventsEnabled()), 4);
      RouteStopSync(old(State()), sel, old(regs.trgMask), old(regs.enableSingle), old(EventsEnabled()), 4);
      UpdateEnabled();
    }

    /** update_enabled_pwmx: with visual indications on, indicator k shows
        the same gate that start_chN applies; otherwise nothing changes. */
    method UpdateEnabled()
      requires Wf()
      modifies this`enabledLed
      ensures Wf()
      ensures visual ==> forall k :: 0 <= k < 4 ==> enabledLed[k] == Gate(regs.confEn, regs.enable, k)
      ensures !visual ==> enabledLed == old(enabledLed)
    {
      if !visual {
        return;
      }
      enabledLed := [Gate(regs.confEn, regs.enable, 0), Gate(regs.confEn, regs.enable, 1),
                     Gate(regs.confEn, regs.enable, 2), Gate(regs.confEn, regs.enable, 3)];
    }
  
    // ----- the interrupt handlers -------------------------------------------

    /** The compare interrupt of channel k, which fires only while its timer
        counts: the pulse counter counts down, wrapping at 0. When it reaches
        0 in COUNT mode the channel stops through stop_chN, SYNC_OUTALL drops
        when the other three timers are idle, the channel leaves EXEC_STATE,
        an event is sent when events are enabled and the indicators are
        refreshed; otherwise only the counter changes. */
    method CompareMatch(k: Chan)
      requires Valid() && timerActive[k]
      modifies this`tcount, this`timerActive, this`syncOut, this`regs, this`syncAll, this`events, this`enabledLed
      ensures Valid()
      ensures tcount == old(tcount)[k := Decrement(old(tcount[k]))]
      ensures CompareStops(old(tcount[k]), old(regs.mode[k])) ==> CountReached(k)
      ensures !CompareStops(old(tcount[k]), old(regs.mode[k])) ==>
                timerActive == old(timerActive) && syncOut == old(syncOut) && regs == old(regs) &&
                syncAll == old(syncAll) && events == old(events) && enabledLed == old(enabledLed)
    {
      tcount := tcount[k := Decrement(tcount[k])];
      if tcount[k] == 0 && And(regs.mode[k], ChModeMask) == ChModeCount {
        StopCounted(k);
      }
    }

    /** What a compare event does to running channel k when its pulses are
        all out: the channel stops, SYNC_OUTALL falls unless another timer
        runs, bit k leaves EXEC_STATE and, when CH_ENABLE_SINGLE says so, CH_ENABLE,
        an event carrying EXEC_STATE is sent when events are enabled, and
        the indicators show the gate. */
    twostate predicate CountReached(k: Chan)
      reads this
    {
      old(Wf()) && Wf() &&
      timerActive == old(timerActive)[k := false] && syncOut == old(syncOut)[k := false] &&
      regs == old(regs).(execState := Clear(old(regs.execState), k),
                         enable := if Has(old(regs.enableSingle), k) then Clear(old(regs.enable), k)
                                   else old(regs.enable)) &&
      syncAll == (old(syncAll) && AnyOf4(timerActive)) &&
      events == old(events) + (if old(EventsEnabled()) then [Event(ExecStateAddr, regs.execState)] else []) &&
      (visual ==> forall m :: 0 <= m < 4 ==> enabledLed[m] == Gate(regs.confEn, regs.enable, m)) &&
      (!visual ==> enabledLed == old(enabledLed))
    }

    /** The stopping branch of the compare interrupt. */
    method StopCounted(k: Chan)
      requires Valid() && timerActive[k]
      modifies this`timerActive, this`syncOut, this`regs, this`syncAll, this`events, this`enabledLed
      ensures Valid() && CountReached(k)
    {
      var _ := StopCh(k);
      BitHas(k, k);
      syncAll := syncAll && AnyOf4(timerActive);
      Pack4Update(old(timerActive), k, false);
      assert Pack4(timerActive) == Clear(old(regs.execState), k);
      regs := regs.(execState := Clear(regs.execState, k));
      if EventsEnabled() {
        events := events + [Event(ExecStateAddr, regs.execState)];
      }
      ghost var r := regs;
      UpdateEnabled();
      assert regs == r;
    }

    /** The edge interrupt of discrete trigger input i, given the new level
        of its pin: an active edge starts the channels routed from source i
        alone; an inactive edge stops them when TRGi_MODE is START_AND_STOP,
        and otherwise nothing happens. Either way one event carrying
        EXEC_STATE is sent iff EXEC_STATE changed and events are enabled. */
    method DiscreteTrigger(i: Chan, pinHigh: bool)
      requires Valid()
      modifies this`regs, this`tcount, this`timerActive, this`programmed, this`syncOut, this`syncAll, this`events,
               this`enabledLed
      ensures Valid()
      ensures DiscreteEdge(pinHigh, old(regs.trgMode[i])) == StartsSource ==> SourceStarted(i)
      ensures DiscreteEdge(pinHigh, old(regs.trgMode[i])) == StopsSource ==> SourceStopped(i)
      ensures DiscreteEdge(pinHigh, old(regs.trgMode[i])) == Ignored ==>
                regs == old(regs) && Out() == old(Out()) && syncAll == old(syncAll) && events == old(events) &&
                enabledLed == old(enabledLed)
    {
      var a := DiscreteEdge(pinHigh, regs.trgMode[i]);
      ghost var gm := GateMask(regs.confEn, regs.enable);
      TargetsSingle(i, regs.trgMask);
      if a == StartsSource {
        CheckAndStartPwms(Bit(i));
        StartRouteExec(Bit(i), old(regs.trgMask), gm, old(regs.execState), old(EventsEnabled()), 4);
        SingleSourceOneEvent(i, old(regs.trgMask), gm, old(regs.execState), old(EventsEnabled()));
      } else if a == StopsSource {
        CheckAndStopPwms(Bit(i));
        StopRouteExec(Bit(i), old(regs.trgMask), old(regs.execState), old(EventsEnabled()), 4);
        SingleSourceOneEvent(i, old(regs.trgMask), gm, old(regs.execState), old(EventsEnabled()));
      }
    }

    /** An active edge of input i: timers are only started, the channels
        TRGi_MASK routes that the gate allows join EXEC_STATE, SYNC_OUTALL is
        raised iff it was, or some routed channel was idle and some timer
        now runs, and the indicators are left alone. */
    twostate predicate SourceStarted(i: Chan)
      reads this
    {
      Launched() && enabledLed == old(enabledLed) &&
      regs == old(regs).(execState := Or(old(regs.execState),
                                         And(And(old(regs.trgMask[i]), GateMask(old(regs.confEn), old(regs.enable))),
                                             LowNibble))) &&
      syncAll == (old(syncAll) || (StartTried(old(regs.trgMask[i]), old(regs.execState)) && regs.execState != Zero)) &&
      events == old(events) + if old(EventsEnabled()) && regs.execState != old(regs.execState)
                              then [Event(ExecStateAddr, regs.execState)] else []
    }

    /** An inactive edge of input i in START_AND_STOP mode: timers are only
        stopped, the channels TRGi_MASK routes leave EXEC_STATE, those that
        ran with CH_ENABLE_SINGLE set lose CH_ENABLE, SYNC_OUTALL stays
        raised iff it was, and either no routed channel ran or some timer
        still runs, and the indicators show the gate. */
    twostate predicate SourceStopped(i: Chan)
      reads this
    {
      Halted() &&
      regs == old(regs).(execState := And(old(regs.execState), Not(And(old(regs.trgMask[i]), LowNibble))),
                         enable := SingleShot(old(regs.enable), old(regs.enableSingle),
                                              And(old(regs.execState), Not(regs.execState)))) &&
      syncAll == (old(syncAll) && (!StopTried(old(regs.trgMask[i]), old(regs.execState)) || regs.execState != Zero)) &&
      events == old(events) + (if old(EventsEnabled()) && regs.execState != old(regs.execState)
                               then [Event(ExecStateAddr, regs.execState)] else []) &&
      (visual ==> forall m :: 0 <= m < 4 ==> enabledLed[m] == Gate(regs.confEn, regs.enable, m)) &&
      (!visual ==> enabledLed == old(enabledLed))
    }

    /** hwbp_app_pwm_gen_start_ch0..3 called in turn, as the TRIG_ALL
        handler does, returning the channels started. A channel EXEC_STATE
        shows running has a running timer, which start_chN leaves alone, so
        this is the scan of a source routing every channel. */
    method StartAllCh() returns (started: Byte)
      requires Valid()
      modifies this`tcount, this`timerActive, this`programmed, this`syncOut
      ensures Wf()
      ensures Scan(Out(), started, true) ==
              StartScan(old(Out()), LowNibble, old(regs.confEn), old(regs.enable), old(regs.execState),
                        old(regs.counts), old(timing), true, 4)
    {
      started := Zero;
      for j := 0 to 4
        invariant Wf()
        invariant Scan(Out(), started, true) ==
                  StartScan(old(Out()), LowNibble, old(regs.confEn), old(regs.enable), old(regs.execState),
                            old(regs.counts), old(timing), true, j)
        invariant forall k :: j <= k < 4 ==> timerActive[k] == old(timerActive[k])
      {
        StartScanStep(old(Out()), LowNibble, old(regs.confEn), old(regs.enable), old(regs.execState),
                      old(regs.counts), old(timing), true, j);
        assert LowNibble[j];
        Pack4Has(old(timerActive), j);
        OrZero(started);
        var b := StartCh(j);
        started := Or(started, b);
      }
    }

    /** hwbp_app_pwm_gen_stop_ch0..3 called in turn, as the TRIG_ALL handler
        and standby do, returning the channels stopped; SYNC_OUTALL is
        handled by the caller, which drops it. */
    method StopAllCh() returns (stopped: Byte)
      requires Valid()
      modifies this`timerActive, this`syncOut, this`regs
      ensures Wf()
      ensures Halting(Out(), stopped, regs.enable, false) ==
              StopScan(old(Out()), LowNibble, old(regs.enableSingle), old(regs.execState), old(regs.enable), false, 4)
      ensures regs == old(regs).(enable := regs.enable)
    {
      stopped := Zero;
      for j := 0 to 4
        invariant Wf() && regs == old(regs).(enable := regs.enable)
        invariant Halting(Out(), stopped, regs.enable, false) ==
                  StopScan(old(Out()), LowNibble, old(regs.enableSingle), old(regs.execState), old(regs.enable),
                           false, j)
        invariant forall k :: j <= k < 4 ==> timerActive[k] == old(timerActive[k])
      {
        StopScanStep(old(Out()), LowNibble, old(regs.enableSingle), old(regs.execState), old(regs.enable), false, j);
        assert LowNibble[j];
        Pack4Has(old(timerActive), j);
        OrZero(stopped);
        var b := StopCh(j);
        stopped := Or(stopped, b);
      }
    }

    /** The edge interrupt of the TRIG_ALL input, given the new level of its
        pin: the branch TrigAllEdge picks for TRGALL_MODE runs; with no
        branch, nothing happens. */
    method TrigAll(pinHigh: bool)
      requires Valid()
      modifies this`regs, this`tcount, this`timerActive, this`programmed, this`syncOut, this`syncAll, this`events,
               this`enabledLed
      ensures Valid()
      ensures TrigAllEdge(pinHigh, old(regs.trgAllMode)) == StartAll ==> AllStarted()
      ensures TrigAllEdge(pinHigh, old(regs.trgAllMode)) == EnableAll ==> AllEnabled()
      ensures TrigAllEdge(pinHigh, old(regs.trgAllMode)) == StopAll ==> AllStopped()
      ensures TrigAllEdge(pinHigh, old(regs.trgAllMode)) == NoAllAction ==>
                regs == old(regs) && Out() == old(Out()) && syncAll == old(syncAll) && events == old(events) &&
                enabledLed == old(enabledLed)
    {
      var a := TrigAllEdge(pinHigh, regs.trgAllMode);
      if a == StartAll {
        TrigAllStart();
      } else if a == EnableAll {
        TrigAllEnable();
      } else if a == StopAll {
        TrigAllStop();
      }
    }

    /** The start branch of the TRIG_ALL handler: timers are only started,
        SYNC_OUTALL is raised, every channel the gate allows runs and has
        joined EXEC_STATE, and one event is sent iff EXEC_STATE changed and
        events are enabled. */
    twostate predicate AllStarted()
      reads this
    {
      Launched() && syncAll && enabledLed == old(enabledLed) &&
      regs == old(regs).(execState := Or(old(regs.execState), GateMask(old(regs.confEn), old(regs.enable)))) &&
      events == old(events) + if regs.execState != old(regs.execState) && old(EventsEnabled())
                              then [Event(ExecStateAddr, regs.execState)] else []
    }

    /** The enable branch: CH_ENABLE gains bits 0..3, every indicator lights
        when visual indications are on, and nothing else changes. */
    twostate predicate AllEnabled()
      reads this
    {
      Out() == old(Out()) && syncAll == old(syncAll) && events == old(events) &&
      regs == old(regs).(enable := Or(old(regs.enable), LowNibble)) &&
      (visual ==> enabledLed == [true, true, true, true]) && (!visual ==> enabledLed == old(enabledLed))
    }

    /** The stop branch: timers are only stopped and none runs afterwards,
        SYNC_OUTALL is low, EXEC_STATE is empty, every channel that ran loses
        its CH_ENABLE bit when its CH_ENABLE_SINGLE bit is set, and one event
        is sent iff some channel ran and events are enabled. */
    twostate predicate AllStopped()
      reads this
    {
      Halted() && !syncAll && timerActive == [false, false, false, false] && enabledLed == old(enabledLed) &&
      regs == old(regs).(execState := Zero,
                         enable := SingleShot(old(regs.enable), old(regs.enableSingle), old(regs.execState))) &&
      events == old(events) + if old(regs.execState) != Zero && old(EventsEnabled())
                              then [Event(ExecStateAddr, Zero)] else []
    }

    method TrigAllStart()
      requires Valid()
      modifies this`regs, this`tcount, this`timerActive, this`programmed, this`syncOut, this`syncAll, this`events
      ensures Valid() && AllStarted()
    {
      var started := StartAllCh();
      syncAll := true;
      if started != Zero {
        regs := regs.(execState := Or(regs.execState, started));
        if EventsEnabled() {
          events := events + [Event(ExecStateAddr, regs.execState)];
        }
      }
      assert State() == SourceStart(old(State()).(syncAll := true), LowNibble, old(regs.confEn), old(regs.counts),
                                    old(timing), old(EventsEnabled()));
      StartAllStarts(old(State()).(syncAll := true), old(regs.confEn), old(regs.counts), old(timing),
                     old(EventsEnabled()));
    }

    method TrigAllEnable()
      requires Valid()
      modifies this`regs, this`enabledLed
      ensures Valid() && AllEnabled()
    {
      regs := regs.(enable := Or(regs.enable, LowNibble));
      UpdateEnabled();
      EnableAllGate(regs.confEn, old(regs.enable), 0);
      EnableAllGate(regs.confEn, old(regs.enable), 1);
      EnableAllGate(regs.confEn, old(regs.enable), 2);
      EnableAllGate(regs.confEn, old(regs.enable), 3);
    }

    method TrigAllStop()
      requires Valid()
      modifies this`regs, this`timerActive, this`syncOut, this`syncAll, this`events
      ensures Valid() && AllStopped()
    {
      var stopped := StopAllCh();
      syncAll := false;
      if stopped != Zero {
        regs := regs.(execState := And(regs.execState, Not(stopped)));
        if EventsEnabled() {
          events := events + [Event(ExecStateAddr, regs.execState)];
        }
      }
      assert State() == SourceStop(old(State()).(syncAll := false), LowNibble, old(regs.enableSingle),
                                   old(EventsEnabled()));
      StopAllStops(old(State()).(syncAll := false), old(regs.enableSingle), old(EventsEnabled()));
      Pack4Injective(timerActive, [false, false, false, false]);
    }

    // ----- retuning a channel ---------------------------------------------

    /** hwbp_app_pwm_gen_update_reals_chN: the fitter is asked for the
        channel's frequency, and REAL_FREQ, REAL_DUTYCYCLE and the timer
        parameters of the channel become what UpdateReals gives; nothing
        else changes. */
    method UpdateRealsCh(k: Chan)
      requires Wf()
      modifies this`regs, this`timing
      ensures Wf()
      ensures var r := UpdateReals(old(regs.dutyCycle[k]), fitter(old(regs.freq[k])), old(timing[k]));
              regs == old(regs).(realFreq := old(regs.realFreq)[k := r.realFreq],
                                 realDutyCycle := old(regs.realDutyCycle)[k := r.realDuty]) &&
              timing == old(timing)[k := r.params]
    {
      var r := UpdateReals(regs.dutyCycle[k], fitter(regs.freq[k]), timing[k]);
      regs := regs.(realFreq := regs.realFreq[k := r.realFreq], realDutyCycle := regs.realDutyCycle[k := r.realDuty]);
      timing := timing[k := r.params];
    }

    /** stop_and_update_chN_temps after the writer stored `stored` into the
        bank: channel k is idle; if it ran, it stopped as stop_chN does, left
        EXEC_STATE and an event was sent when events are enabled; then its
        real values and timer parameters were recomputed from `stored`, and
        no other channel changed. */
    twostate predicate Retuned(k: Chan, stored: AppRegs)
      reads this
    {
      old(Wf()) && Wf() && Shaped(stored) &&
      var ran := old(timerActive[k]);
      var r := UpdateReals(stored.dutyCycle[k], fitter(stored.freq[k]), old(timing[k]));
      var e := if ran then Clear(stored.execState, k) else stored.execState;
      timerActive == old(timerActive)[k := false] &&
      syncOut == (if ran then old(syncOut)[k := false] else old(syncOut)) &&
      tcount == old(tcount) && programmed == old(programmed) && syncAll == old(syncAll) &&
      enabledLed == old(enabledLed) &&
      timing == old(timing)[k := r.params] &&
      regs == stored.(execState := e,
                      enable := if ran && Has(stored.enableSingle, k) then Clear(stored.enable, k) else stored.enable,
                      realFreq := stored.realFreq[k := r.realFreq],
                      realDutyCycle := stored.realDutyCycle[k := r.realDuty]) &&
      events == old(events) + (if ran && Has(stored.evntEnable, 0) then [Event(ExecStateAddr, e)] else [])
    }

    /** stop_and_update_chN_temps: stop the channel, and if it ran take it
        out of EXEC_STATE and send an event; then recompute its reals. */
    method StopAndUpdateTemps(k: Chan)
      requires Valid()
      modifies this`regs, this`timerActive, this`syncOut, this`events, this`timing
      ensures Valid() && Retuned(k, old(regs))
    {
      var b := StopCh(k);
      if b != Zero {
        regs := regs.(execState := Clear(regs.execState, k));
        if EventsEnabled() {
          events := events + [Event(ExecStateAddr, regs.execState)];
        }
      }
      Pack4Update(old(timerActive), k, false);
      UpdateRealsCh(k);
    }

    // ----- the register writers -------------------------------------------

    /** The writers of CHn_FREQ, CHn_DUTYCYCLE and CHn_COUNTS: a payload its
        guard refuses changes nothing; an accepted one is stored and the
        channel is retuned with stop_and_update_chN_temps. */
    method WriteTiming(r: Reg, b: seq<uint8>) returns (ok: bool)
      requires Valid() && (r.Freq? || r.DutyCycle? || r.Counts?) && |b| == TypeSize(FieldType(r))
      modifies this`regs, this`timerActive, this`syncOut, this`events, this`timing
      ensures Valid()
      ensures ok == WriteAccepted(r, b)
      ensures ok ==> Retuned(r.ch, Stored(old(regs), r, b))
      ensures !ok ==> unchanged(this)
    {
      ok := WriteAccepted(r, b);
      if !ok {
        return;
      }
      regs := Stored(regs, r, b);
      StopAndUpdateTemps(r.ch);
    }

    /** The writers of the bit-mask registers: a byte with a bit outside the
        register's allowed bits changes nothing; otherwise the byte is stored
        verbatim, and after CH_CONFEN and CH_ENABLE the indicators are
        refreshed. */
    method WriteBits(r: Reg, b: seq<uint8>) returns (ok: bool)
      requires Valid() && IsBitsReg(r) && |b| == 1
      modifies this`regs, this`enabledLed
      ensures Valid()
      ensures ok == WriteAccepted(r, b) && ByteWritten(r, b, ok)
      ensures !ok ==> unchanged(this)
    {
      ok := WriteAccepted(r, b);
      if !ok {
        return;
      }
      regs := Stored(regs, r, b);
      if r == ConfEn || r == Enable {
        UpdateEnabled();
      }
    }

    /** The writer of START_PWM: a byte selecting anything but the four
        sources changes nothing; otherwise it is stored and the sources it
        selects start their channels with check_and_start_pwms. */
    method WriteStartPwm(b: seq<uint8>) returns (ok: bool)
      requires Valid() && |b| == 1
      modifies this`regs, this`tcount, this`timerActive, this`programmed, this`syncOut, this`syncAll, this`events
      ensures Valid()
      ensures ok == WriteAccepted(StartPwm, b)
      ensures ok ==> PwmStarted(FromOctet(b[0]))
      ensures !ok ==> unchanged(this)
    {
      ok := WriteAccepted(StartPwm, b);
      if !ok {
        return;
      }
      regs := regs.(startPwm := FromOctet(b[0]));
      CheckAndStartPwms(FromOctet(b[0]));
    }

    /** START_PWM holds `sel` and check_and_start_pwms(sel) ran: the state is
        RouteStart's, EXEC_STATE and the events are StartRoute's, SYNC_OUTALL
        is as CheckAndStartPwms gives it, and nothing else changed. */
    twostate predicate PwmStarted(sel: Byte)
      reads this
    {
      Launched() && enabledLed == old(enabledLed) && timing == old(timing) &&
      State() == RouteStart(old(State()), sel, old(regs.trgMask), old(regs.confEn), old(regs.counts), old(timing),
                            old(EventsEnabled()), 4) &&
      (var r := StartRoute(sel, old(regs.trgMask), GateMask(old(regs.confEn), old(regs.enable)), old(regs.execState),
                           old(EventsEnabled()), 4);
       regs == old(regs).(startPwm := sel, execState := r.exec) && events == old(events) + r.events) &&
      syncAll == (old(syncAll) || (StartTried(Targets(sel, old(regs.trgMask), 4), old(regs.execState)) &&
                                   regs.execState != Zero))
    }

    /** The writer of STOP_PWM: the same for stopping, with
        check_and_stop_pwms. */
    method WriteStopPwm(b: seq<uint8>) returns (ok: bool)
      requires Valid() && |b| == 1
      modifies this`regs, this`timerActive, this`syncOut, this`syncAll, this`events, this`enabledLed
      ensures Valid()
      ensures ok == WriteAccepted(StopPwm, b)
      ensures ok ==> PwmStopped(FromOctet(b[0]))
      ensures !ok ==> unchanged(this)
    {
      ok := WriteAccepted(StopPwm, b);
      if !ok {
        return;
      }
      regs := regs.(stopPwm := FromOctet(b[0]));
      CheckAndStopPwms(FromOctet(b[0]));
    }

    /** STOP_PWM holds `sel` and check_and_stop_pwms(sel) ran: the state is
        RouteStop's, EXEC_STATE and the events are StopRoute's, CH_ENABLE
        follows the single-shot rule, SYNC_OUTALL is as CheckAndStopPwms
        gives it, and the indicators show the gate. */
    twostate predicate PwmStopped(sel: Byte)
      reads this
    {
      Halted() && tcount == old(tcount) && programmed == old(programmed) && timing == old(timing) &&
      State() == RouteStop(old(State()), sel, old(regs.trgMask), old(regs.enableSingle), old(EventsEnabled()), 4) &&
      (var r := StopRoute(sel, old(regs.trgMask), old(regs.execState), old(EventsEnabled()), 4);
       regs == old(regs).(stopPwm := sel, execState := r.exec,
                          enable := SingleShot(old(regs.enable), old(regs.enableSingle),
                                               And(old(regs.execState), Not(r.exec)))) &&
       events == old(events) + r.events) &&
      syncAll == (old(syncAll) && (!StopTried(Targets(sel, old(regs.trgMask), 4), old(regs.execState)) ||
                                   regs.execState != Zero)) &&
      (visual ==> forall k :: 0 <= k < 4 ==> enabledLed[k] == Gate(regs.confEn, regs.enable, k)) &&
      (!visual ==> enabledLed == old(enabledLed))
    }

    /** The writer of register r (app_func_wr_pointer): it returns whether
        the payload was accepted, and a refused payload changes nothing.
        REAL_FREQ and REAL_DUTYCYCLE refuse every write. */
    method Write(r: Reg, b: seq<uint8>) returns (ok: bool)
      requires Valid() && |b| == TypeSize(FieldType(r))
      modifies this`regs, this`tcount, this`timerActive, this`programmed, this`syncOut, this`syncAll, this`events,
               this`enabledLed, this`timing
      ensures Valid()
      ensures ok == WriteAccepted(r, b)
      ensures !ok ==> unchanged(this)
      ensures ok && (r.Freq? || r.DutyCycle? || r.Counts?) ==> Retuned(r.ch, Stored(old(regs), r, b))
      ensures FieldType(r) == U8 ==> ByteWritten(r, b, ok)
    {
      match r
      case Freq(_) | DutyCycle(_) | Counts(_) =>
        ok := WriteTiming(r, b);
      case RealFreq(_) | RealDutyCycle(_) =>
        ok := false;
      case _ =>
        ok := WriteByte(r, b);
    }

    /** What a write of one byte to register r did, given the writer's
        verdict: a bit-mask register holds the byte, no timer or event
        changed, and after CH_CONFEN or CH_ENABLE the indicators show the
        gate; START_PWM and STOP_PWM ran their router (PwmStarted,
        PwmStopped); RESERVED1 ignored it. */
    twostate predicate ByteWritten(r: Reg, b: seq<uint8>, ok: bool)
      reads this
    {
      old(Wf()) && Wf() && |b| == 1 && FieldType(r) == U8 && ok == WriteAccepted(r, b) &&
      (ok && IsBitsReg(r) ==>
         regs == Stored(old(regs), r, b) && Out() == old(Out()) && events == old(events) &&
         syncAll == old(syncAll) && timing == old(timing) &&
         ((r == ConfEn || r == Enable) && visual ==>
            forall m :: 0 <= m < 4 ==> enabledLed[m] == Gate(regs.confEn, regs.enable, m)) &&
         (!(r == ConfEn || r == Enable) || !visual ==> enabledLed == old(enabledLed))) &&
      (ok && r == StartPwm ==> PwmStarted(FromOctet(b[0]))) &&
      (ok && r == StopPwm ==> PwmStopped(FromOctet(b[0]))) &&
      (ok && r == Reserved1 ==> unchanged(this))
    }

    /** The writers of the one-byte registers; TRIG_STATE, CH_STATE and
        EXEC_STATE refuse every write, RESERVED1 accepts and ignores every
        byte. */
    method WriteByte(r: Reg, b: seq<uint8>) returns (ok: bool)
      requires Valid() && FieldType(r) == U8 && |b| == 1
      modifies this`regs, this`tcount, this`timerActive, this`programmed, this`syncOut, this`syncAll, this`events,
               this`enabledLed, this`timing
      ensures Valid()
      ensures ok == WriteAccepted(r, b)
      ensures !ok ==> unchanged(this)
      ensures ByteWritten(r, b, ok)
    {
      match r
      case StartPwm =>
        ok := WriteStartPwm(b);
      case StopPwm =>
        ok := WriteStopPwm(b);
      case Reserved1 =>
        ok := true;
      case TrigState | ChState | ExecState =>
        ok := false;
      case Mode(_) | TrgMask(_) | EnableSingle | TrgMode(_) | ConfEn | Enable | TrgAllMode | EvntEnable =>
        ok := WriteBits(r, b);
      case Freq(_) | DutyCycle(_) | Counts(_) | RealFreq(_) | RealDutyCycle(_) =>
        assert false;
    }

    // ----- the register protocol ------------------------------------------

    /** core_write_app_register: an address outside the bank, a type other
        than the register's or an element count other than one is refused
        before any writer runs; otherwise the register's writer decides.
        A refused write changes nothing. */
    method WriteRegister(add: uint8, t: RegType, content: seq<uint8>, n: uint16) returns (ok: bool)
      requires Valid() && |content| == TypeSize(t) * n
      modifies this`regs, this`tcount, this`timerActive, this`programmed, this`syncOut, this`syncAll, this`events,
               this`enabledLed, this`timing
      ensures Valid()
      ensures ok == WriteDispatch(add, t, content, n)
      ensures !ok ==> unchanged(this)
      ensures ok ==> AddrMin <= add <= AddrMax && n == 1 &&
                     var r := RegAt(add - AddrMin);
                     |content| == TypeSize(FieldType(r)) && WriteAccepted(r, content) &&
                     ((r.Freq? || r.DutyCycle? || r.Counts?) ==> Retuned(r.ch, Stored(old(regs), r, content))) &&
                     (FieldType(r) == U8 ==> ByteWritten(r, content, true))
    {
      if add < AddrMin || add > AddrMax {
        return false;
      }
      TablesAgree();
      if TypeTable[add - AddrMin] != t {
        return false;
      }
      if ElementTable[add - AddrMin] != n {
        return false;
      }
      ok := Write(RegAt(add - AddrMin), content);
    }

    /** core_read_app_register with the reader of each register: an address
        outside the bank or a wrong type is refused and changes nothing.
        Reading START_PWM or STOP_PWM clears it; reading TRIG_STATE samples
        the trigger inputs and CH_STATE the channel outputs (given as pin
        levels); every other reader does nothing. */
    method ReadRegister(add: uint8, t: RegType, trigIn: seq<bool>, trigAll: bool, pwmOut: seq<bool>)
      returns (ok: bool)
      requires Valid() && |trigIn| == 4 && |pwmOut| == 4
      modifies this`regs
      ensures Valid()
      ensures ok == ReadDispatch(add, t)
      ensures !ok ==> regs == old(regs)
      ensures ok ==> var r := RegAt(add - AddrMin);
                     regs == old(regs).(startPwm := if r == StartPwm then Zero else old(regs.startPwm),
                                        stopPwm := if r == StopPwm then Zero else old(regs.stopPwm),
                                        trigState := if r == TrigState then TrigLevels(trigIn, trigAll)
                                                     else old(regs.trigState),
                                        chState := if r == ChState then Pack4(pwmOut) else old(regs.chState))
    {
      if add < AddrMin || add > AddrMax {
        return false;
      }
      TablesAgree();
      if TypeTable[add - AddrMin] != t {
        return false;
      }
      var r := RegAt(add - AddrMin);
      if r == StartPwm {
        regs := regs.(startPwm := Zero);
      } else if r == StopPwm {
        regs := regs.(stopPwm := Zero);
      } else if r == TrigState {
        regs := regs.(trigState := TrigLevels(trigIn, trigAll));
      } else if r == ChState {
        regs := regs.(chState := Pack4(pwmOut));
      }
      ok := true;
    }

    // ----- the core's callbacks -------------------------------------------

    /** core_callback_reset_registers: the bank takes its documented
        defaults, every write guard holds of it, and timers are left as
        they are, so EXEC_STATE mirrors them iff none runs. */
    method ResetRegisters()
      requires Wf()
      modifies this`regs
      ensures Wf() && regs == DefaultRegs() && InRange(regs)
      ensures Valid() <==> !AnyOf4(timerActive)
    {
      regs := DefaultRegs();
      DefaultsInRange();
      Pack4NonZero(timerActive);
    }

    /** core_callback_registers_were_reinitialized: the indicators are
        refreshed, the reals of every channel are recomputed, TRIG_STATE
        and CH_STATE sample their pins, START_PWM, STOP_PWM and EXEC_STATE
        are cleared and every timer stops; SYNC outputs and CH_ENABLE are
        left alone. Afterwards EXEC_STATE mirrors the timers again. */
    method RegistersWereReinitialized(trigIn: seq<bool>, trigAll: bool, pwmOut: seq<bool>)
      requires Wf() && |trigIn| == 4 && |pwmOut| == 4
      modifies this`regs, this`timing, this`timerActive, this`enabledLed
      ensures Valid() && timerActive == [false, false, false, false]
      ensures forall k :: 0 <= k < 4 ==>
                var r := UpdateReals(old(regs.dutyCycle[k]), fitter(old(regs.freq[k])), old(timing[k]));
                regs.realFreq[k] == r.realFreq && regs.realDutyCycle[k] == r.realDuty && timing[k] == r.params
      ensures regs == old(regs).(realFreq := regs.realFreq, realDutyCycle := regs.realDutyCycle,
                                 trigState := TrigLevels(trigIn, trigAll), chState := Pack4(pwmOut),
                                 startPwm := Zero, stopPwm := Zero, execState := Zero)
      ensures visual ==> forall m :: 0 <= m < 4 ==> enabledLed[m] == Gate(regs.confEn, regs.enable, m)
      ensures !visual ==> enabledLed == old(enabledLed)
    {
      UpdateEnabled();
      UpdateAllReals();
      regs := regs.(trigState := TrigLevels(trigIn, trigAll), chState := Pack4(pwmOut),
                    startPwm := Zero, stopPwm := Zero, execState := Zero);
      timerActive := [false, false, false, false];
    }

    /** hwbp_app_pwm_gen_update_reals_ch0..3 in turn: every channel's reals
        and timer parameters are recomputed from its own registers. */
    method UpdateAllReals()
      requires Wf()
      modifies this`regs, this`timing
      ensures Wf()
      ensures forall k :: 0 <= k < 4 ==>
                var r := UpdateReals(old(regs.dutyCycle[k]), fitter(old(regs.freq[k])), old(timing[k]));
                regs.realFreq[k] == r.realFreq && regs.realDutyCycle[k] == r.realDuty && timing[k] == r.params
      ensures regs == old(regs).(realFreq := regs.realFreq, realDutyCycle := regs.realDutyCycle)
    {
      UpdateRealsCh(0);
      UpdateRealsCh(1);
      UpdateRealsCh(2);
      UpdateRealsCh(3);
    }

    /** core_callback_device_to_standby: every channel stops as stop_chN
        does, SYNC_OUTALL falls and START_PWM, STOP_PWM and EXEC_STATE are
        cleared; no event is sent. */
    method DeviceToStandby()
      requires Valid()
      modifies this`timerActive, this`syncOut, this`regs, this`syncAll
      ensures Valid() && Halted() && !syncAll && timerActive == [false, false, false, false]
      ensures regs == old(regs).(startPwm := Zero, stopPwm := Zero, execState := Zero,
                                 enable := SingleShot(old(regs.enable), old(regs.enableSingle), old(regs.execState)))
    {
      var _ := StopAllCh();
      syncAll := false;
      regs := regs.(startPwm := Zero, stopPwm := Zero, execState := Zero);
      StopScanAll(old(Out()), old(regs.enableSingle), old(regs.execState), old(regs.enable), false);
      Pack4Injective(timerActive, [false, false, false, false]);
    }

    /** core_callback_visualen_to_on: indications are on and the indicators
        show the gate of every channel. */
    method VisualToOn()
      requires Wf()
      modifies this`visual, this`enabledLed
      ensures Wf() && visual
      ensures forall m :: 0 <= m < 4 ==> enabledLed[m] == Gate(regs.confEn, regs.enable, m)
    {
      visual := true;
      UpdateEnabled();
    }

    /** core_callback_visualen_to_off: indications are off and every
        indicator is dark. */
    method VisualToOff()
      requires Wf()
      modifies this`visual, this`enabledLed
      ensures Wf() && !visual && enabledLed == [false, false, false, false]
    {
      visual := false;
      enabledLed := [false, false, false, false];
    }
  }

}
