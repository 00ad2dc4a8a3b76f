/** What the charge-animation display guarantees, proved about the functions of
    ChargeSpec (and so about the ChargeDevice methods proved equal to them). */
module ChargeProps {

  import opened Wrappers
  import opened ChargeConfig
  import opened ChargeImages
  import opened ChargeSpec

  // ---------------------------------------------------------------------
  // Key classification

  /** An RTC alarm reads as a long press, whatever the key says, and leaves
      the wake-up flag alone. */
  lemma {:induction false} RtcAlarmIsLongPress(ctx: Ctx, d: Dyn, key: int, now: nat)
    requires ctx.rtc
    ensures CheckKeyPress(ctx, d, true, key, now) == Keyed(KEY_PRESS_LONG_DOWN, d)
  {
  }

  /** The wake-up timer's press is reported once: the flag is cleared, and a
      second check without a new interrupt reports the key as read. */
  lemma {:induction false} WakeupPressConsumedOnce(ctx: Ctx, d: Dyn, key: int, now: nat, key2: int, now2: nat)
    requires ctx.pdata.autoWakeupInterval != 0 && ctx.pdata.autoWakeupScreenInvert != 0
    requires d.autoWakeupKeyState == KEY_PRESS_DOWN
    ensures var k := CheckKeyPress(ctx, d, false, key, now);
            k.state == KEY_PRESS_DOWN && k.d.autoWakeupKeyState == KEY_PRESS_NONE &&
            CheckKeyPress(ctx, k.d, false, key2, now2) == Keyed(key2, k.d)
  {
  }

  /** With the wake-up timer configured, the screen-off timeout never makes
      a press; without it, a press is made exactly when the screen has been
      on longer than `auto-off-screen-interval` seconds. */
  lemma {:induction false} AutoScreenOffPress(ctx: Ctx, d: Dyn, key: int, now: nat)
    requires key != KEY_PRESS_DOWN
    requires !ctx.rtc
    ensures var k := CheckKeyPress(ctx, d, false, key, now);
            ctx.pdata.autoWakeupInterval == 0 ==>
              (k.state == KEY_PRESS_DOWN <==>
                 ctx.pdata.autoOffScreenInterval != 0 && d.autoScreenOffTimeout != 0 &&
                 now - d.autoScreenOffTimeout > ctx.pdata.autoOffScreenInterval * 1000)
    ensures ctx.pdata.autoWakeupInterval != 0 && d.autoWakeupKeyState != KEY_PRESS_DOWN ==>
              CheckKeyPress(ctx, d, false, key, now) == Keyed(key, d)
  {
  }

  // ---------------------------------------------------------------------
  // Suspend

  /** Outside the cool-down a suspend happens, its calls are appended, the
      wake-up time is stamped, and nothing else changes; inside it nothing
      happens at all. */
  lemma {:induction false} SuspendGate(ctx: Ctx, d: Dyn, now: nat, later: nat)
    ensures CoolingDown(d, now) ==> SystemSuspendEnter(ctx, d, now, later) == d
    ensures !CoolingDown(d, now) ==>
              var r := SystemSuspendEnter(ctx, d, now, later);
              r.effects == d.effects + SuspendTrace(ctx.pdata.systemSuspend != 0) &&
              r.suspendDelayTimeout == later &&
              r.(effects := d.effects, suspendDelayTimeout := d.suspendDelayTimeout) == d
  {
  }

  /** After a suspend that woke at a non-zero time, any attempt within the
      next 5000 ms does nothing. */
  lemma {:induction false} SuspendCoolDown(ctx: Ctx, d: Dyn, now: nat, later: nat, now2: nat, later2: nat)
    requires !CoolingDown(d, now)
    requires 0 < later <= now2 <= later + SYSTEM_SUSPEND_DELAY_MS
    ensures var r := SystemSuspendEnter(ctx, d, now, later);
            SystemSuspendEnter(ctx, r, now2, later2) == r
  {
  }

  /** The position of the sleep call in a suspend trace. */
  function SleepAt(systemSuspend: bool): nat
  {
    if systemSuspend then 4 else 1
  }

  /** The position `k` places before the sleep call when `i` is `k` places
      after it. */
  function Mirror(sleep: nat, i: int): int
  {
    2 * sleep - i
  }

  /** One sleep call, and after it each step taken down before it is brought
      back up in mirror order: the resume `m` places after the sleep undoes
      the suspend `m` places before it. The regulators' suspend state is the
      only step not undone. */
  lemma {:induction false} SuspendResumeMirror(systemSuspend: bool)
    ensures var tr := SuspendTrace(systemSuspend);
            var k := SleepAt(systemSuspend);
            k < |tr| && (tr[k] == CpuSuspend || tr[k] == Wfi) &&
            (forall i | 0 <= i < |tr| && i != k :: tr[i] != CpuSuspend && tr[i] != Wfi) &&
            (forall i | k < i < |tr| :: 0 <= Mirror(k, i) && tr[i].Resume? && tr[Mirror(k, i)] == Suspend(tr[i].step)) &&
            (forall i | 0 <= i < k :: tr[i].Suspend? && (Mirror(k, i) < |tr| || tr[i].step == RegulatorsMem))
  {
  }

  // ---------------------------------------------------------------------
  // LEDs

  /** The generic build leaves the LEDs alone while the state of charge stays
      the same. */
  lemma {:induction false} LedsSkipSameSoc(ctx: Ctx, d: Dyn, chargingRet: int, fullRet: int)
    requires ctx.platform == Generic
    ensures LedsUpdate(ctx, d, d.ledsOldSoc, chargingRet, fullRet) == LedsResult(0, d)
  {
  }

  /** With both LEDs present and working: the charging LED is lit (blinking on
      the GO Advance) exactly below 100 %, the full LED is on exactly at 100 %,
      and the generic build remembers the state of charge. */
  lemma {:induction false} LedsFollowSoc(ctx: Ctx, d: Dyn, soc: int)
    requires ctx.ledCharging && ctx.ledFull
    requires ctx.platform == Generic ==> d.ledsOldSoc != soc
    ensures var r := LedsUpdate(ctx, d, soc, 0, 0);
            r.ret == 0 &&
            r.d.effects == d.effects + [LedSet(ChargingLed, ChargingLedState(ctx.platform, soc)),
                                        LedSet(FullLed, FullLedState(soc))] &&
            (ChargingLedState(ctx.platform, soc) != LedOff <==> soc < 100) &&
            (ChargingLedState(ctx.platform, soc) == LedToggle <==> soc < 100 && ctx.platform == GoAdvance) &&
            (FullLedState(soc) == LedOn <==> soc == 100) &&
            (ctx.platform == Generic ==> r.d.ledsOldSoc == soc)
  {
  }

  /** A failing charging-LED write is returned at once and the full LED is
      not written; the generic build still records the state of charge, so
      the write is not retried for it. */
  lemma {:induction false} LedsChargingFailure(ctx: Ctx, d: Dyn, soc: int, chargingRet: int, fullRet: int)
    requires ctx.ledCharging && chargingRet != 0
    requires ctx.platform == Generic ==> d.ledsOldSoc != soc
    ensures var r := LedsUpdate(ctx, d, soc, chargingRet, fullRet);
            r.ret == chargingRet &&
            r.d.effects == d.effects + [LedSet(ChargingLed, ChargingLedState(ctx.platform, soc))] &&
            (ctx.platform == Generic ==> LedsUpdate(ctx, r.d, soc, 0, 0) == LedsResult(0, r.d))
  {
  }

  // ---------------------------------------------------------------------
  // The charging loop: polling

  /** Within a second of the last poll nothing is read and the pass goes
      straight to the images. */
  lemma {:induction false} ThrottledPollReadsNothing(ctx: Ctx, lp: Loop, d: Dyn, t: Tick)
    requires !lp.firstPollFg && t.now - lp.delta < FUEL_GAUGE_POLL_MS
    ensures PollGauge(ctx, lp, d, t) == Polled(lp, d, true)
  {
  }

  /** A charger that is offline when polled makes the pass power the panel
      down and shut the PMIC down; if the shutdown returns, the pass ends,
      the poll is not marked done, and the next pass polls again. */
  lemma {:induction false} ChargerOfflineShutsDown(ctx: Ctx, lp: Loop, d: Dyn, t: Tick)
    requires CtxOk(ctx) && LoopOk(ctx, lp)
    requires lp.firstPollFg || t.now - lp.delta >= FUEL_GAUGE_POLL_MS
    requires OnlineOf(ctx, t.fgOnline, t.chargerOnline) <= 0
    ensures var s := Pass(ctx, lp, d, t);
            !s.exit &&
            s.d.effects == WakeupIrq(ctx, d, t.timerIrq).effects + [LcdOnOff(false), PmicShutdown] &&
            s.lp == lp.(delta := t.now)
  {
  }

  /** A failed state-of-charge, voltage or current read ends the pass; the
      value read is kept, and polling stays due while no poll succeeded. */
  lemma {:induction false} FailedReadEndsPass(ctx: Ctx, lp: Loop, d: Dyn, t: Tick)
    requires lp.firstPollFg || t.now - lp.delta >= FUEL_GAUGE_POLL_MS
    requires OnlineOf(ctx, t.fgOnline, t.chargerOnline) > 0
    requires t.soc < 0 || t.soc > 100 || t.voltage < 0 || t.current == -ENOSYS
    ensures var p := PollGauge(ctx, lp, d, t);
            !p.show && p.d == d && p.lp.soc == t.soc && p.lp.firstPollFg == lp.firstPollFg
  {
  }

  /** A successful poll records the readings and ends the first-poll phase. */
  lemma {:induction false} SuccessfulPoll(ctx: Ctx, lp: Loop, d: Dyn, t: Tick)
    requires lp.firstPollFg || t.now - lp.delta >= FUEL_GAUGE_POLL_MS
    requires OnlineOf(ctx, t.fgOnline, t.chargerOnline) > 0
    requires 0 <= t.soc <= 100 && t.voltage >= 0 && t.current != -ENOSYS
    ensures PollGauge(ctx, lp, d, t) ==
            Polled(lp.(delta := t.now, soc := t.soc, voltage := t.voltage, current := t.current, firstPollFg := false), d, true)
  {
  }

  // ---------------------------------------------------------------------
  // The charging loop: the low-power latch

  /** While the latch holds and the voltage is not above the screen-on
      voltage, `screen_on` is false after the image step, whatever a key did
      in the pass before, and no image is drawn. */
  lemma {:induction false} LatchHoldsScreenOff(ctx: Ctx, lp: Loop, d: Dyn, t: Tick)
    requires CtxOk(ctx) && LoopOk(ctx, lp)
    requires lp.everLowpowerScreenOff && lp.voltage <= ctx.pdata.screenOnVoltage
    ensures var lp1 := SelectFrame(ctx, Latch(ctx, lp), t.now);
            lp1.everLowpowerScreenOff && !lp1.screenOn &&
            Draw(ctx, lp1, d, t) == Phase(lp1, SystemSuspendEnter(ctx, d.(autoScreenOffTimeout := 0), t.now, t.later))
    ensures var p := ShowImages(ctx, lp, d, t);
            p.lp.everLowpowerScreenOff && !p.lp.screenOn
  {
  }

  /** On the GO Advance the latch forces only `screen_on`: a latched pass
      suspends without powering the panel down, and a short or long press in
      it powers the panel up, which the next pass's latch clears in
      `screen_on` only, again without powering the panel down. */
  lemma {:induction false} LatchLeavesPanelOn(ctx: Ctx, lp: Loop, d: Dyn, t: Tick)
    requires CtxOk(ctx) && LoopOk(ctx, lp) && ctx.platform == GoAdvance
    requires lp.everLowpowerScreenOff && lp.voltage <= ctx.pdata.screenOnVoltage
    ensures var s := ShowImages(ctx, lp, d, t);
            s.d.effects == d.effects || s.d.effects == d.effects + SuspendTrace(ctx.pdata.systemSuspend != 0)
    ensures var s := ShowImages(ctx, lp, d, t);
            var key := CheckKeyPress(ctx, s.d, t.rtcAlarm, t.key, t.later).state;
            var k := HandleKeys(ctx, s.lp, s.d, t);
            key == KEY_PRESS_DOWN || key == KEY_PRESS_LONG_DOWN ==>
              k.lp.screenOn && k.lp.everLowpowerScreenOff &&
              |k.d.effects| > |s.d.effects| && k.d.effects[..|s.d.effects| + 1] == s.d.effects + [LcdOnOff(true)] &&
              !Latch(ctx, k.lp).screenOn
  {
  }

  /** A voltage above the screen-on voltage releases the latch: the screen is
      on and the frame is chosen afresh from the state of charge. */
  lemma {:induction false} LatchRelease(ctx: Ctx, lp: Loop, now: nat)
    requires lp.everLowpowerScreenOff && lp.voltage > ctx.pdata.screenOnVoltage
    ensures var lp1 := SelectFrame(ctx, Latch(ctx, lp), now);
            !lp1.everLowpowerScreenOff && lp1.screenOn &&
            lp1.showIdx == StartIdx(ctx.image, lp.soc, lp.startIdx) && lp1.showStart == now
  {
  }

  /** Only the voltage clears the latch, and nothing sets it again once it is
      clear: a pass that starts latched ends unlatched only if the last
      voltage read is above the screen-on voltage. */
  lemma {:induction false} LatchOnlyVoltageClears(ctx: Ctx, lp: Loop, d: Dyn, t: Tick)
    requires CtxOk(ctx) && LoopOk(ctx, lp)
    ensures var s := Pass(ctx, lp, d, t);
            (lp.everLowpowerScreenOff && !s.lp.everLowpowerScreenOff ==> s.lp.voltage > ctx.pdata.screenOnVoltage) &&
            (!lp.everLowpowerScreenOff ==> !s.lp.everLowpowerScreenOff)
  {
    var p := PollGauge(ctx, lp, WakeupIrq(ctx, d, t.timerIrq), t);
    if p.show {
      var s := ShowImages(ctx, p.lp, p.d, t);
      var k := HandleKeys(ctx, s.lp, s.d, t);
      assert Pass(ctx, lp, d, t).lp == k.lp;
    }
  }

  // ---------------------------------------------------------------------
  // The charging loop: frames

  /** With the screen on, a frame is drawn exactly when its index differs
      from the one last drawn; the same index again draws nothing. With the
      screen off, the screen-off timer is cleared and a suspend is tried. */
  lemma {:induction false} DrawOnlyOnChange(ctx: Ctx, lp: Loop, d: Dyn, t: Tick)
    ensures lp.screenOn && lp.oldShowIdx == lp.showIdx ==> Draw(ctx, lp, d, t).d.effects == d.effects
    ensures lp.screenOn && lp.oldShowIdx != lp.showIdx ==>
              var p := Draw(ctx, lp, d, t);
              p.lp.oldShowIdx == lp.showIdx &&
              p.d.effects[..|d.effects| + 1] == d.effects + [ShowImage(lp.showIdx)]
    ensures !lp.screenOn ==>
              Draw(ctx, lp, d, t) == Phase(lp, SystemSuspendEnter(ctx, d.(autoScreenOffTimeout := 0), t.now, t.later))
  {
    if lp.screenOn && lp.oldShowIdx != lp.showIdx {
      var d1 := Emit(d, [ShowImage(lp.showIdx)]);
      var p := Draw(ctx, lp, d, t);
      if ctx.platform == GoAdvance {
        LedsUpdateAppends(ctx, d1, lp.soc, t.ledChargingRet, t.ledFullRet);
      }
      assert p.d.effects[..|d1.effects|] == d1.effects;
    }
  }

  /** `leds_update` only appends calls. */
  lemma {:induction false} LedsUpdateAppends(ctx: Ctx, d: Dyn, soc: int, chargingRet: int, fullRet: int)
    ensures var r := LedsUpdate(ctx, d, soc, chargingRet, fullRet);
            |d.effects| <= |r.d.effects| && r.d.effects[..|d.effects|] == d.effects
  {
  }

  /** Two draws in a row of the same frame draw it once. */
  lemma {:induction false} DrawOnce(ctx: Ctx, lp: Loop, d: Dyn, t: Tick, t2: Tick)
    requires lp.screenOn
    ensures var p := Draw(ctx, lp, d, t);
            Draw(ctx, p.lp, p.d, t2).d.effects == p.d.effects
  {
  }

  /** A frame shown longer than its period is followed by the next charge
      level; after the full frame or the failure frame the animation starts
      over from the state of charge. */
  lemma {:induction false} AdvanceFrame(ctx: Ctx, lp: Loop, later: nat)
    requires CtxOk(ctx)
    requires 0 <= lp.showIdx < |ctx.image|
    ensures var r := Advance(ctx, lp, later);
            (later - lp.showStart <= ctx.image[lp.showIdx].period ==> r == lp) &&
            (later - lp.showStart > ctx.image[lp.showIdx].period ==>
               r.showStart == later &&
               (lp.showIdx < Soc100Idx(|ctx.image|) ==> r.showIdx == lp.showIdx + 1) &&
               (lp.showIdx >= Soc100Idx(|ctx.image|) ==> r.showIdx == IMAGE_RESET_IDX))
  {
  }

  /** After the selection step the frame index is a frame of the table. */
  lemma {:induction false} SelectedFrameInTable(ctx: Ctx, lp: Loop, now: nat)
    requires CtxOk(ctx) && LoopOk(ctx, lp)
    ensures var r := SelectFrame(ctx, Latch(ctx, lp), now);
            0 <= r.showIdx <= LowpowerIdx(|ctx.image|) && 0 <= r.startIdx <= Soc100Idx(|ctx.image|)
  {
  }

  // ---------------------------------------------------------------------
  // The charging loop: keys and ctrl-c

  /** A short press toggles the screen and restarts the animation from the
      state of charge; switching the screen off starts the suspend cool-down. */
  lemma {:induction false} ShortPressToggles(ctx: Ctx, lp: Loop, d: Dyn, t: Tick)
    requires CheckKeyPress(ctx, d, t.rtcAlarm, t.key, t.later).state == KEY_PRESS_DOWN
    ensures var k := HandleKeys(ctx, lp, d, t);
            k.flow == Proceed &&
            k.lp.screenOn == !lp.screenOn &&
            k.lp.showIdx == IMAGE_RESET_IDX && k.lp.oldShowIdx == IMAGE_RESET_IDX &&
            (lp.screenOn ==> k.d.suspendDelayTimeout == t.later)
  {
  }

  /** A long press switches the screen on. If the battery is below the exit
      level or voltage, the failure frame is shown and the pass ends without
      looking at ctrl-c; otherwise the logo is shown and the loop ends. */
  lemma {:induction false} LongPress(ctx: Ctx, lp: Loop, d: Dyn, t: Tick)
    requires CheckKeyPress(ctx, d, t.rtcAlarm, t.key, t.later).state == KEY_PRESS_LONG_DOWN
    ensures var k := HandleKeys(ctx, lp, d, t);
            k.lp.screenOn &&
            (lp.soc < ctx.pdata.exitChargeLevel || lp.voltage < ctx.pdata.exitChargeVoltage ==>
               k.flow == Skip && k.lp.showIdx == LowpowerIdx(|ctx.image|) && !CtrlC(ctx, k, t.ctrlc).exit) &&
            (lp.soc >= ctx.pdata.exitChargeLevel && lp.voltage >= ctx.pdata.exitChargeVoltage ==>
               k.flow == Leave && k.d.effects[|k.d.effects| - 1] == ShowLogo && CtrlC(ctx, k, t.ctrlc).exit)
  {
  }

  /** Ctrl-c after an ordinary key step ends the loop, showing the logo only
      when the voltage is at least the screen-on voltage. */
  lemma {:induction false} CtrlCExits(ctx: Ctx, k: Keys)
    requires k.flow == Proceed
    ensures var s := CtrlC(ctx, k, true);
            s.exit && s.lp == k.lp &&
            (s.d.effects == k.d.effects + [ShowLogo] <==> k.lp.voltage >= ctx.pdata.screenOnVoltage) &&
            (k.lp.voltage < ctx.pdata.screenOnVoltage ==> s.d == k.d)
  {
  }

  /** A pass leaves the loop only through a successful long press or
      ctrl-c. */
  lemma {:induction false} PassExitsOnlyByKeyOrCtrlC(ctx: Ctx, lp: Loop, d: Dyn, t: Tick)
    requires CtxOk(ctx) && LoopOk(ctx, lp)
    requires Pass(ctx, lp, d, t).exit
    ensures var p := PollGauge(ctx, lp, WakeupIrq(ctx, d, t.timerIrq), t);
            p.show &&
            var s := ShowImages(ctx, p.lp, p.d, t);
            HandleKeys(ctx, s.lp, s.d, t).flow == Leave || (HandleKeys(ctx, s.lp, s.d, t).flow == Proceed && t.ctrlc)
  {
  }

  // ---------------------------------------------------------------------
  // The extreme-low-power loop

  /** No call switches the screen on. */
  predicate NoScreenOn(es: seq<Effect>)
  {
    forall i | 0 <= i < |es| :: es[i] != LcdOnOff(true)
  }

  lemma {:induction false} NoScreenOnAppend(a: seq<Effect>, b: seq<Effect>)
    ensures NoScreenOn(a + b) <==> NoScreenOn(a) && NoScreenOn(b)
  {
    assert forall i | 0 <= i < |a| :: (a + b)[i] == a[i];
    assert forall i | 0 <= i < |b| :: (a + b)[|a| + i] == b[i];
  }

  /** A suspend never switches the screen on. */
  lemma {:induction false} SuspendKeepsNoScreenOn(ctx: Ctx, d: Dyn, now: nat, later: nat)
    requires NoScreenOn(d.effects)
    ensures NoScreenOn(SystemSuspendEnter(ctx, d, now, later).effects)
  {
    NoScreenOnAppend(d.effects, SuspendTrace(ctx.pdata.systemSuspend != 0));
  }

  /** A pass never switches the screen on, and once it is off it stays off;
      with a valid reading it goes off once the battery-fail image has been
      up for more than 5 s. */
  lemma {:induction false} LowPassKeepsScreenOff(ctx: Ctx, lw: Low, d: Dyn, t: Tick)
    requires NoScreenOn(d.effects)
    ensures var s := LowPass(ctx, lw, d, t);
            NoScreenOn(s.d.effects) && (!lw.screenOn ==> !s.lw.screenOn)
    ensures OnlineOf(ctx, t.fgOnline, t.chargerOnline) > 0 && 0 <= t.soc <= 100 &&
            lw.dispStart != 0 && t.now - lw.dispStart > LOW_POWER_SCREEN_MS ==>
              !LowPass(ctx, lw, d, t).lw.screenOn
  {
    var f := LowFront(ctx, d, t);
    NoScreenOnAppend(d.effects, [PmicShutdown]);
    NoScreenOnAppend(d.effects, [WakeupTimerInit(LOW_POWER_WAKEUP_S)]);
    assert NoScreenOn(f.d.effects);
    if f.online && 0 <= t.soc <= 100 {
      var d2 := LedsUpdate(ctx, f.d, t.soc, t.ledChargingRet, t.ledFullRet).d;
      LedsKeepNoScreenOn(ctx, f.d, t.soc, t.ledChargingRet, t.ledFullRet);
      var first := lw.dispStart == 0;
      var lw1 := if first then lw.(dispStart := t.now) else lw;
      var d3 := if first then Emit(d2, [ShowImage(LOW_POWER_IMAGE)]) else d2;
      NoScreenOnAppend(d2.effects, [ShowImage(LOW_POWER_IMAGE)]);
      var off := GetTimer(t.now, lw1.dispStart) > LOW_POWER_SCREEN_MS && lw1.screenOn;
      var d4 := if off then Emit(d3, [LcdOnOff(false)]) else d3;
      NoScreenOnAppend(d3.effects, [LcdOnOff(false)]);
      SuspendKeepsNoScreenOn(ctx, d4, t.now, t.later);
    }
  }

  lemma {:induction false} LedsKeepNoScreenOn(ctx: Ctx, d: Dyn, soc: int, chargingRet: int, fullRet: int)
    requires NoScreenOn(d.effects)
    ensures NoScreenOn(LedsUpdate(ctx, d, soc, chargingRet, fullRet).d.effects)
  {
    var r := LedsUpdate(ctx, d, soc, chargingRet, fullRet);
    LedsUpdateAppends(ctx, d, soc, chargingRet, fullRet);
    forall i | 0 <= i < |r.d.effects|
      ensures r.d.effects[i] != LcdOnOff(true)
    {
      if i >= |d.effects| {
        assert r.d.effects[i].LedSet?;
      } else {
        assert r.d.effects[i] == d.effects[i];
      }
    }
  }

  /** Inside the loop the screen is never switched on, and off stays off. */
  lemma {:induction false} LowRunKeepsScreenOff(ctx: Ctx, lw: Low, d: Dyn, ticks: seq<Tick>)
    requires NoScreenOn(d.effects)
    ensures var o := LowRun(ctx, lw, d, ticks);
            NoScreenOn(o.d.effects) && (!lw.screenOn ==> !o.lw.screenOn)
    decreases |ticks|
  {
    if ExtremLow(ctx, lw.voltage) && ticks != [] {
      var s := LowPass(ctx, lw, d, ticks[0]);
      LowPassKeepsScreenOff(ctx, lw, d, ticks[0]);
      if !s.exit {
        LowRunKeepsScreenOff(ctx, s.lw, s.d, ticks[1..]);
      }
    }
  }

  /** Without ctrl-c the loop only ends once the voltage has reached the
      low-power voltage plus the margin. */
  lemma {:induction false} LowRunEndsCharged(ctx: Ctx, lw: Low, d: Dyn, ticks: seq<Tick>)
    requires forall i | 0 <= i < |ticks| :: !ticks[i].ctrlc
    ensures var o := LowRun(ctx, lw, d, ticks);
            o.done ==> !ExtremLow(ctx, o.lw.voltage)
    decreases |ticks|
  {
    if ExtremLow(ctx, lw.voltage) && ticks != [] {
      var s := LowPass(ctx, lw, d, ticks[0]);
      assert !s.exit;
      LowRunEndsCharged(ctx, s.lw, s.d, ticks[1..]);
    }
  }

  /** Conversely, the first good reading at or above the low-power voltage
      plus the margin ends the loop: no pass after it is needed. */
  lemma {:induction false} LowRunStopsAboveFloor(ctx: Ctx, lw: Low, d: Dyn, ticks: seq<Tick>, k: nat)
    requires k < |ticks|
    requires OnlineOf(ctx, ticks[k].fgOnline, ticks[k].chargerOnline) > 0
    requires 0 <= ticks[k].soc <= 100 && !ExtremLow(ctx, ticks[k].voltage)
    ensures LowRun(ctx, lw, d, ticks).done
    decreases k
  {
    if ExtremLow(ctx, lw.voltage) {
      var s := LowPass(ctx, lw, d, ticks[0]);
      if !s.exit && k > 0 {
        assert ticks[1..][k - 1] == ticks[k];
        LowRunStopsAboveFloor(ctx, s.lw, s.d, ticks[1..], k - 1);
      }
    }
  }

  /** `charge_extrem_low_power`: a failed first reading is -EINVAL with
      nothing done; a battery above the threshold returns 0 at once; when the
      loop ends the function returns 0, and the screen is switched on again
      exactly when the loop had switched it off, this being the only place it
      is switched on. */
  lemma {:induction false} ExtremLowPowerResult(ctx: Ctx, d: Dyn, voltage: int, ticks: seq<Tick>)
    requires NoScreenOn(d.effects)
    ensures voltage < 0 ==> ExtremLowPower(ctx, d, voltage, ticks) == Finished(Some(-EINVAL), d)
    ensures voltage >= 0 && !ExtremLow(ctx, voltage) ==>
              ExtremLowPower(ctx, d, voltage, ticks) == Finished(Some(0), Emit(d, [WakeupTimerUninit]))
    ensures voltage >= 0 ==>
              var o := LowRun(ctx, Low(voltage, true, 0), d, ticks);
              var r := ExtremLowPower(ctx, d, voltage, ticks);
              NoScreenOn(o.d.effects) &&
              (o.done ==> r.ret == Some(0) &&
                          r.d.effects == o.d.effects + (if o.lw.screenOn then [] else [LcdOnOff(true)]) + [WakeupTimerUninit]) &&
              (!o.done ==> r.ret.None? && NoScreenOn(r.d.effects))
  {
    if voltage >= 0 {
      LowRunKeepsScreenOff(ctx, Low(voltage, true, 0), d, ticks);
    }
  }

  // ---------------------------------------------------------------------
  // Entry checks

  /** Without a battery nothing is done. */
  lemma {:induction false} NoBatteryNoCharge(ctx: Ctx, d: Dyn, env: Env, lowTicks: seq<Tick>, ticks: seq<Tick>)
    requires CtxOk(ctx) && !env.batteryExists
    ensures ChargeAnimationShow(ctx, d, env, lowTicks, ticks) == Finished(Some(0), d)
  {
  }

  /** A failed first voltage reading of the extreme-low-power check is
      returned as -EINVAL. */
  lemma {:induction false} ExtremFailureReturned(ctx: Ctx, d: Dyn, env: Env, lowTicks: seq<Tick>, ticks: seq<Tick>)
    requires CtxOk(ctx) && env.batteryExists && env.lowVoltage < 0
    ensures ChargeAnimationShow(ctx, d, env, lowTicks, ticks).ret == Some(-EINVAL)
  {
  }

  /** A preboot command containing "dvfs" does not stop charging: it behaves
      as no preboot command; any other preboot command returns 0 at once. */
  lemma {:induction false} PrebootCheck(ctx: Ctx, d: Dyn, env: Env, ticks: seq<Tick>)
    requires CtxOk(ctx) && env.preboot.Some?
    ensures HasSubstring(env.preboot.value, "dvfs") ==>
              ChargeGate(ctx, d, env, ticks) == ChargeGate(ctx, d, env.(preboot := None), ticks)
    ensures !HasSubstring(env.preboot.value, "dvfs") ==> ChargeGate(ctx, d, env, ticks) == Finished(Some(0), d)
  {
  }

  /** Only the GO Advance build looks at the boot mode. */
  lemma {:induction false} GenericIgnoresBootMode(ctx: Ctx, d: Dyn, env: Env, mode: BootMode, ticks: seq<Tick>)
    requires CtxOk(ctx) && ctx.platform == Generic
    ensures ChargeGate(ctx, d, env, ticks) == ChargeGate(ctx, d, env.(bootMode := mode), ticks)
  {
  }

  /** The gate after the preboot check: the GO Advance returns 0 on a normal
      boot and an offline charger returns 0, both with nothing done; past them
      the Android charge tag is the first call, U-Boot charging off returns 0,
      a failed voltage reading returns -EINVAL, and otherwise charging starts. */
  lemma {:induction false} BootargsAfterChargerCheck(ctx: Ctx, d: Dyn, env: Env, ticks: seq<Tick>)
    requires CtxOk(ctx) && env.preboot.None?
    ensures ctx.platform == GoAdvance && env.bootMode == BootNormal ==> ChargeGate(ctx, d, env, ticks) == Finished(Some(0), d)
    ensures OnlineOf(ctx, env.fgOnline, env.chargerOnline) <= 0 ==> ChargeGate(ctx, d, env, ticks) == Finished(Some(0), d)
    ensures !(ctx.platform == GoAdvance && env.bootMode == BootNormal) && OnlineOf(ctx, env.fgOnline, env.chargerOnline) > 0 ==>
              var d1 := if ctx.pdata.androidCharge != 0 then Emit(d, [AndroidChargeBootargs]) else d;
              (ctx.pdata.ubootCharge == 0 ==> ChargeGate(ctx, d, env, ticks) == Finished(Some(0), d1)) &&
              (ctx.pdata.ubootCharge != 0 && env.voltage < 0 ==> ChargeGate(ctx, d, env, ticks) == Finished(Some(-EINVAL), d1)) &&
              (ctx.pdata.ubootCharge != 0 && env.voltage >= 0 ==> ChargeGate(ctx, d, env, ticks) == ChargeLoop(ctx, d1, env, ticks))
  {
  }

  /** Charging starts latched, with the screen off, exactly when the voltage is
      at most the screen-on voltage plus the margin. */
  lemma {:induction false} StartLatched(ctx: Ctx, env: Env)
    ensures var lp := InitialLoop(env, LowpowerStart(ctx, env.voltage));
            (lp.everLowpowerScreenOff <==> env.voltage <= ctx.pdata.screenOnVoltage + VOLTAGE_MARGIN) &&
            lp.screenOn == !lp.everLowpowerScreenOff && lp.firstPollFg && lp.showIdx == IMAGE_RESET_IDX
    ensures CtxOk(ctx) ==> LoopOk(ctx, InitialLoop(env, LowpowerStart(ctx, env.voltage)))
  {
  }
}
