/** The charge-animation device (drivers/power/charge_animation.c) as a class
    whose fields are the driver's platform data, private data and function
    statics. Each method updates those fields the way the driver does and is
    proved to agree with the matching function of ChargeSpec. */
module ChargeDriver {

  import opened Wrappers
  import opened ChargeConfig
  import opened ChargeImages
  import opened ChargeSpec

  const ENODEV := 19

  /** What `fuel_gauge_capability` reports for a device of the fuel-gauge class. */
  datatype Capability = FuelGaugeCap | ChargerCap | BothCaps | OtherCap

  /** A device that measures the battery. */
  predicate IsGauge(c: Capability)
  {
    c == FuelGaugeCap || c == BothCaps
  }

  /** The devices chosen, as positions in the class's device list. */
  datatype Chosen = Chosen(fg: Option<nat>, charger: Option<nat>)

  /** The choice after visiting `caps` in order: a combined device takes both
      roles and drops an earlier charger, a gauge replaces the gauge, a charger
      replaces the charger. */
  function ChooseDevices(caps: seq<Capability>): Chosen
  {
    if caps == [] then Chosen(None, None)
    else
      var c := ChooseDevices(caps[..|caps| - 1]);
      var k := |caps| - 1;
      match caps[k]
      case BothCaps => Chosen(Some(k), None)
      case FuelGaugeCap => Chosen(Some(k), c.charger)
      case ChargerCap => Chosen(c.fg, Some(k))
      case OtherCap => c
  }

  /** The fuel gauge is the last device that measures the battery; the
      charger is the last charger-only device, unless a combined device comes
      after it. */
  lemma {:induction false} ChooseDevicesLast(caps: seq<Capability>)
    ensures var c := ChooseDevices(caps);
            (c.fg.None? <==> forall i | 0 <= i < |caps| :: !IsGauge(caps[i])) &&
            (c.fg.Some? ==> c.fg.value < |caps| && IsGauge(caps[c.fg.value]) &&
                            forall i | c.fg.value < i < |caps| :: !IsGauge(caps[i])) &&
            (c.charger.Some? ==> c.charger.value < |caps| && caps[c.charger.value] == ChargerCap &&
                                 forall i | c.charger.value < i < |caps| :: caps[i] != ChargerCap && caps[i] != BothCaps) &&
            (c.charger.None? ==> forall i | 0 <= i < |caps| && caps[i] == ChargerCap ::
                                   exists j | i < j < |caps| :: caps[j] == BothCaps)
  {
    if caps != [] {
      var k := |caps| - 1;
      var init := caps[..k];
      ChooseDevicesLast(init);
      assert forall i | 0 <= i < k :: caps[i] == init[i];
    }
  }

  /** `fg_charger_get_device`: `ucRet` is what `uclass_get` returns and
      `caps` the capabilities of the fuel-gauge class's devices in order. */
  method FgChargerGetDevice(ucRet: int, caps: seq<Capability>) returns (ret: int, fg: Option<nat>, charger: Option<nat>)
    ensures ucRet != 0 ==> ret == ucRet && fg.None? && charger.None?
    ensures ucRet == 0 ==> Chosen(fg, charger) == ChooseDevices(caps)
    ensures ucRet == 0 ==> (ret == 0 <==> fg.Some?) && (ret != 0 ==> ret == -ENODEV)
  {
    fg, charger := None, None;
    if ucRet != 0 {
      return ucRet, fg, charger;
    }
    var i := 0;
    while i < |caps|
      invariant 0 <= i <= |caps|
      invariant Chosen(fg, charger) == ChooseDevices(caps[..i])
    {
      assert caps[..i + 1][..i] == caps[..i];
      if caps[i] == BothCaps {
        fg, charger := Some(i), None;
      } else if caps[i] == FuelGaugeCap {
        fg := Some(i);
      } else if caps[i] == ChargerCap {
        charger := Some(i);
      }
      i := i + 1;
    }
    assert caps[..i] == caps;
    ret := if fg.Some? then 0 else -ENODEV;
  }

  class ChargeDevice {
    const platform: Platform
    var pdata: Pdata
    var image: seq<ChargeImage>
    var fg: Option<nat>
    var charger: Option<nat>
    var rtc: bool
    var ledCharging: bool
    var ledFull: bool
    var autoWakeupKeyState: int
    var autoScreenOffTimeout: nat
    var suspendDelayTimeout: nat
    /** The static `old_soc` of `leds_update`. */
    var ledsOldSoc: int
    /** The static `timer_initialized` of `charge_extrem_low_power`. */
    var timerInitialized: bool
    /** The hardware and environment calls made so far. */
    var effects: seq<Effect>

    /** The fields the display only reads. */
    function Context(): Ctx
      reads this`pdata, this`image, this`charger, this`rtc, this`ledCharging, this`ledFull
    {
      Ctx(platform, pdata, image, charger.Some?, rtc, ledCharging, ledFull)
    }

    /** The fields the display changes. */
    function Dynamic(): Dyn
      reads this`autoWakeupKeyState, this`autoScreenOffTimeout, this`suspendDelayTimeout,
            this`ledsOldSoc, this`timerInitialized, this`effects
    {
      Dyn(autoWakeupKeyState, autoScreenOffTimeout, suspendDelayTimeout, ledsOldSoc, timerInitialized, effects)
    }

    /** Binding the device: zeroed private data, the statics at their
        initial values, and `charge_animation_ofdata_to_platdata`. */
    constructor (platform: Platform, dt: ChargeDt)
      ensures this.platform == platform && pdata == OfdataToPlatdata(platform, dt)
      ensures image == [] && fg.None? && charger.None? && !rtc && !ledCharging && !ledFull
      ensures Dynamic() == Dyn(KEY_PRESS_NONE, 0, 0, -1, false, [])
    {
      this.platform := platform;
      pdata := OfdataToPlatdata(platform, dt);
      image := [];
      fg, charger := None, None;
      rtc, ledCharging, ledFull := false, false, false;
      autoWakeupKeyState := KEY_PRESS_NONE;
      autoScreenOffTimeout, suspendDelayTimeout := 0, 0;
      ledsOldSoc := -1;
      timerInitialized := false;
      effects := [];
    }

    /** `charge_animation_probe`: `pmicRet` is the PMIC lookup, `ucRet` and
        `caps` the fuel-gauge class, `keyState` the power-key reading,
        `battery` and `soc` the fuel gauge's voltage and state of charge. */
    method Probe(pmicRet: int, ucRet: int, caps: seq<Capability>, rtcFound: bool, keyState: int,
                 battery: int, soc: int, ledChargingFound: bool, ledFullFound: bool) returns (ret: int)
      modifies this`fg, this`charger, this`rtc, this`ledCharging, this`ledFull, this`image
      ensures pmicRet != 0 ==> ret == pmicRet && unchanged(this)
      ensures pmicRet == 0 && ucRet != 0 ==> ret == ucRet && fg.None? && charger.None?
      ensures pmicRet == 0 && ucRet == 0 ==> Chosen(fg, charger) == ChooseDevices(caps)
      ensures ret == 0 <==>
                pmicRet == 0 && ucRet == 0 && ChooseDevices(caps).fg.Some? && keyState != KEY_NOT_EXIST &&
                (platform == GoAdvance ==> battery >= 1000) && 0 <= soc <= 100
      ensures pmicRet == 0 && ucRet == 0 && ChooseDevices(caps).fg.None? ==> ret == -ENODEV
      ensures pmicRet == 0 && ucRet == 0 && ChooseDevices(caps).fg.Some? && ret != 0 ==> ret == -EINVAL
      ensures ret == 0 ==> image == Images(platform) && rtc == rtcFound &&
                           ledCharging == ledChargingFound && ledFull == ledFullFound
    {
      if pmicRet != 0 {
        return pmicRet;
      }
      ret, fg, charger := FgChargerGetDevice(ucRet, caps);
      if ret != 0 {
        return ret;
      }
      rtc := rtcFound;
      if keyState == KEY_NOT_EXIST {
        return -EINVAL;
      }
      if platform == GoAdvance && battery < 1000 {
        return -EINVAL;
      }
      if soc < 0 || soc > 100 {
        return -EINVAL;
      }
      ledCharging, ledFull := ledChargingFound, ledFullFound;
      image := Images(platform);
      return 0;
    }

    /** `timer_irq_handler`. */
    method TimerIrqHandler()
      modifies this`autoWakeupKeyState
      ensures Dynamic() == ChargeSpec.TimerIrqHandler(old(Dynamic()))
    {
      autoWakeupKeyState := KEY_PRESS_DOWN;
    }

    /** `check_key_press`: `rtcAlarm` is the RTC's alarm, `key` the power key. */
    method CheckKeyPress(rtcAlarm: bool, key: int, now: nat) returns (state: int)
      modifies this`autoWakeupKeyState
      ensures Keyed(state, Dynamic()) == ChargeSpec.CheckKeyPress(Context(), old(Dynamic()), rtcAlarm, key, now)
    {
      if rtc && rtcAlarm {
        return KEY_PRESS_LONG_DOWN;
      }
      state := key;
      if pdata.autoWakeupInterval != 0 {
        if pdata.autoWakeupScreenInvert != 0 {
          if autoWakeupKeyState == KEY_PRESS_DOWN {
            autoWakeupKeyState := KEY_PRESS_NONE;
            state := KEY_PRESS_DOWN;
          }
        }
      } else if pdata.autoOffScreenInterval != 0 {
        if autoScreenOffTimeout != 0 && GetTimer(now, autoScreenOffTimeout) > pdata.autoOffScreenInterval * 1000 {
          state := KEY_PRESS_DOWN;
        }
      }
    }

    /** `system_suspend_enter`, entered at `now`; the CPU runs again at `later`. */
    method SystemSuspendEnter(now: nat, later: nat)
      modifies this`suspendDelayTimeout, this`effects
      ensures Dynamic() == ChargeSpec.SystemSuspendEnter(Context(), old(Dynamic()), now, later)
    {
      if suspendDelayTimeout != 0 && GetTimer(now, suspendDelayTimeout) <= SYSTEM_SUSPEND_DELAY_MS {
        return;
      }
      if pdata.systemSuspend != 0 {
        effects := effects + [Suspend(RegulatorsMem)];
        effects := effects + [Suspend(LocalIrq)];
        effects := effects + [Suspend(Irqs)];
        effects := effects + [Suspend(Devices)];
        effects := effects + [CpuSuspend];
        effects := effects + [Resume(Devices)];
        effects := effects + [Resume(Irqs)];
        effects := effects + [Resume(LocalIrq)];
      } else {
        effects := effects + [Suspend(Irqs)];
        effects := effects + [Wfi];
        effects := effects + [Resume(Irqs)];
      }
      suspendDelayTimeout := later;
    }

    /** `leds_update`; `chargingRet` and `fullRet` are what the two LED
        writes return. */
    method LedsUpdate(soc: int, chargingRet: int, fullRet: int) returns (ret: int)
      modifies this`ledsOldSoc, this`effects
      ensures LedsResult(ret, Dynamic()) == ChargeSpec.LedsUpdate(Context(), old(Dynamic()), soc, chargingRet, fullRet)
    {
      if platform == Generic {
        if ledsOldSoc == soc {
          return 0;
        }
        ledsOldSoc := soc;
      }
      if ledCharging {
        var ledst := if soc < 100 then (if platform == GoAdvance then LedToggle else LedOn) else LedOff;
        effects := effects + [LedSet(ChargingLed, ledst)];
        if chargingRet != 0 {
          return chargingRet;
        }
      }
      if ledFull {
        var ledst := if soc == 100 then LedOn else LedOff;
        effects := effects + [LedSet(FullLed, ledst)];
        if fullRet != 0 {
          return fullRet;
        }
      }
      return 0;
    }

    /** One pass of the extreme-low-power loop on its locals `lw`. */
    method ExtremLowPass(lw: Low, t: Tick) returns (lw': Low, exit: bool)
      modifies this`autoWakeupKeyState, this`suspendDelayTimeout, this`ledsOldSoc,
               this`timerInitialized, this`effects
      ensures LowStep(lw', Dynamic(), exit) == LowPass(Context(), lw, old(Dynamic()), t)
    {
      lw', exit := lw, false;
      if t.timerIrq && timerInitialized {
        TimerIrqHandler();
      }
      var charging := OnlineOf(Context(), t.fgOnline, t.chargerOnline);
      if charging <= 0 {
        effects := effects + [PmicShutdown];
        return;
      }
      if !timerInitialized {
        timerInitialized := true;
        effects := effects + [WakeupTimerInit(LOW_POWER_WAKEUP_S)];
      }
      if t.soc < 0 || t.soc > 100 {
        return;
      }
      lw', exit := ExtremLowShow(lw, t);
    }

    /** The part of an extreme-low-power pass after a valid state of charge. */
    method ExtremLowShow(lw: Low, t: Tick) returns (lw': Low, exit: bool)
      requires 0 <= t.soc <= 100
      modifies this`suspendDelayTimeout, this`ledsOldSoc, this`effects
      ensures LowStep(lw', Dynamic(), exit) == LowBack(Context(), lw, old(Dynamic()), t)
    {
      var _ := LedsUpdate(t.soc, t.ledChargingRet, t.ledFullRet);
      lw' := lw;
      if lw'.dispStart == 0 {
        lw' := lw'.(dispStart := t.now);
        effects := effects + [ShowImage(LOW_POWER_IMAGE)];
      }
      if GetTimer(t.now, lw'.dispStart) > LOW_POWER_SCREEN_MS && lw'.screenOn {
        effects := effects + [LcdOnOff(false)];
        lw' := lw'.(screenOn := false);
      }
      SystemSuspendEnter(t.now, t.later);
      lw' := lw'.(voltage := t.voltage);
      if t.voltage < 0 {
        return lw', false;
      }
      exit := t.ctrlc;
    }

    /** `charge_extrem_low_power`: `voltage0` is the first voltage reading and
        `ticks` drive the loop; None means the loop was still running when the
        ticks ran out. */
    method ChargeExtremLowPower(voltage0: int, ticks: seq<Tick>) returns (ret: Option<int>)
      modifies this`autoWakeupKeyState, this`suspendDelayTimeout, this`ledsOldSoc,
               this`timerInitialized, this`effects
      ensures Finished(ret, Dynamic()) == ExtremLowPower(Context(), old(Dynamic()), voltage0, ticks)
    {
      if voltage0 < 0 {
        return Some(-EINVAL);
      }
      var lw := Low(voltage0, true, 0);
      var k := 0;
      while ExtremLow(Context(), lw.voltage)
        invariant 0 <= k <= |ticks|
        invariant LowRun(Context(), lw, Dynamic(), ticks[k..]) == LowRun(Context(), Low(voltage0, true, 0), old(Dynamic()), ticks)
        decreases |ticks| - k
      {
        if k == |ticks| {
          return None;
        }
        var exit;
        lw, exit := ExtremLowPass(lw, ticks[k]);
        k := k + 1;
        if exit {
          break;
        }
      }
      if !lw.screenOn {
        effects := effects + [LcdOnOff(true)];
      }
      effects := effects + [WakeupTimerUninit];
      return Some(0);
    }

    /** Steps 1 and 2 of the charging loop: the throttled fuel-gauge poll. */
    method PollGauge(lp: Loop, t: Tick) returns (lp': Loop, show: bool)
      modifies this`effects
      ensures Polled(lp', Dynamic(), show) == ChargeSpec.PollGauge(Context(), lp, old(Dynamic()), t)
    {
      lp' := lp;
      if !lp'.firstPollFg && GetTimer(t.now, lp'.delta) < FUEL_GAUGE_POLL_MS {
        return lp', true;
      }
      lp' := lp'.(delta := t.now);
      var charging := OnlineOf(Context(), t.fgOnline, t.chargerOnline);
      if charging <= 0 {
        effects := effects + [LcdOnOff(false)];
        effects := effects + [PmicShutdown];
        return lp', false;
      }
      lp' := lp'.(soc := t.soc);
      if lp'.soc < 0 || lp'.soc > 100 {
        return lp', false;
      }
      lp' := lp'.(voltage := t.voltage);
      if lp'.voltage < 0 {
        return lp', false;
      }
      lp' := lp'.(current := t.current);
      if lp'.current == -ENOSYS {
        return lp', false;
      }
      lp' := lp'.(firstPollFg := false);
      show := true;
    }

    /** Step 3 of the charging loop: draw a changed frame, or suspend with the
        screen off. */
    method DrawFrame(lp: Loop, t: Tick) returns (lp': Loop)
      modifies this`autoScreenOffTimeout, this`suspendDelayTimeout, this`ledsOldSoc, this`effects
      ensures Phase(lp', Dynamic()) == Draw(Context(), lp, old(Dynamic()), t)
    {
      lp' := lp;
      if lp'.screenOn {
        if lp'.oldShowIdx != lp'.showIdx {
          lp' := lp'.(oldShowIdx := lp'.showIdx);
          effects := effects + [ShowImage(lp'.showIdx)];
          if platform == GoAdvance {
            var _ := LedsUpdate(lp'.soc, t.ledChargingRet, t.ledFullRet);
          }
        }
        if autoScreenOffTimeout == 0 {
          autoScreenOffTimeout := t.now;
        }
      } else {
        autoScreenOffTimeout := 0;
        SystemSuspendEnter(t.now, t.later);
      }
    }

    /** The low-power latch followed by the frame selection. */
    method LatchAndSelect(lp: Loop, now: nat) returns (lp': Loop)
      ensures lp' == SelectFrame(Context(), Latch(Context(), lp), now)
    {
      lp' := lp;
      if lp'.everLowpowerScreenOff {
        lp' := lp'.(screenOn := false);
      }
      if lp'.everLowpowerScreenOff && lp'.voltage > pdata.screenOnVoltage {
        lp' := lp'.(everLowpowerScreenOff := false, screenOn := true, showIdx := IMAGE_RESET_IDX);
      }
      if lp'.showIdx == IMAGE_RESET_IDX {
        var startIdx := ScanStartIdx(image, lp'.soc, lp'.startIdx);
        lp' := lp'.(startIdx := startIdx, showIdx := startIdx, showStart := now);
      }
    }

    /** The period check: move to the next frame once the current one has
        been shown long enough. */
    method AdvanceFrame(lp: Loop, later: nat) returns (lp': Loop)
      requires 0 <= lp.showIdx < |image|
      ensures lp' == Advance(Context(), lp, later)
    {
      lp' := lp;
      if GetTimer(later, lp'.showStart) > image[lp'.showIdx].period {
        lp' := lp'.(showStart := later, showIdx := lp'.showIdx + 1);
        if lp'.showIdx > Soc100Idx(|image|) {
          lp' := lp'.(showIdx := IMAGE_RESET_IDX);
        }
      }
    }

    /** From the `show_images` label to the end of the period check. */
    method ShowImages(lp: Loop, t: Tick) returns (lp': Loop)
      requires CtxOk(Context()) && LoopOk(Context(), lp)
      modifies this`autoScreenOffTimeout, this`suspendDelayTimeout, this`ledsOldSoc, this`effects
      ensures Phase(lp', Dynamic()) == ChargeSpec.ShowImages(Context(), lp, old(Dynamic()), t)
    {
      if platform == Generic {
        var _ := LedsUpdate(lp.soc, t.ledChargingRet, t.ledFullRet);
      }
      lp' := LatchAndSelect(lp, t.now);
      lp' := DrawFrame(lp', t);
      lp' := AdvanceFrame(lp', t.later);
    }

    /** Step 4 of the charging loop: the short and the long key press. */
    method HandleKeys(lp: Loop, t: Tick) returns (lp': Loop, flow: KeyFlow)
      modifies this`autoWakeupKeyState, this`suspendDelayTimeout, this`effects
      ensures Keys(lp', Dynamic(), flow) == ChargeSpec.HandleKeys(Context(), lp, old(Dynamic()), t)
    {
      lp', flow := lp, Proceed;
      var keyState := CheckKeyPress(t.rtcAlarm, t.key, t.later);
      if keyState == KEY_PRESS_DOWN {
        lp' := lp'.(oldShowIdx := IMAGE_RESET_IDX, showIdx := IMAGE_RESET_IDX);
        if lp'.screenOn {
          effects := effects + ScreenOffEffects(Context());
          lp' := lp'.(screenOn := false);
          suspendDelayTimeout := t.later;
        } else {
          lp' := lp'.(screenOn := true);
          effects := effects + ScreenOnEffects(Context());
        }
      } else if keyState == KEY_PRESS_LONG_DOWN {
        if !lp'.screenOn {
          lp' := lp'.(screenOn := true);
          effects := effects + ScreenOnEffects(Context());
        }
        if lp'.soc < pdata.exitChargeLevel {
          return lp'.(showIdx := LowpowerIdx(|image|)), Skip;
        }
        if lp'.voltage < pdata.exitChargeVoltage {
          return lp'.(showIdx := LowpowerIdx(|image|)), Skip;
        }
        effects := effects + [ShowLogo];
        flow := Leave;
      }
    }

    /** One pass of the charging loop. */
    method MainPass(lp: Loop, t: Tick) returns (lp': Loop, exit: bool)
      requires CtxOk(Context()) && LoopOk(Context(), lp)
      modifies this`autoWakeupKeyState, this`autoScreenOffTimeout, this`suspendDelayTimeout,
               this`ledsOldSoc, this`effects
      ensures Step(lp', Dynamic(), exit) == Pass(Context(), lp, old(Dynamic()), t)
    {
      if t.timerIrq && pdata.autoWakeupInterval != 0 {
        TimerIrqHandler();
      }
      var show;
      lp', show := PollGauge(lp, t);
      if !show {
        return lp', false;
      }
      lp', exit := Display(lp', t);
    }

    /** The rest of a pass once the gauge lets it through. */
    method Display(lp: Loop, t: Tick) returns (lp': Loop, exit: bool)
      requires CtxOk(Context()) && LoopOk(Context(), lp)
      modifies this`autoWakeupKeyState, this`autoScreenOffTimeout, this`suspendDelayTimeout,
               this`ledsOldSoc, this`effects
      ensures Step(lp', Dynamic(), exit) == ChargeSpec.Display(Context(), lp, old(Dynamic()), t)
    {
      lp' := ShowImages(lp, t);
      var flow;
      lp', flow := HandleKeys(lp', t);
      if flow == Skip {
        return lp', false;
      }
      if flow == Leave {
        return lp', true;
      }
      exit := false;
      if t.ctrlc {
        if lp'.voltage >= pdata.screenOnVoltage {
          effects := effects + [ShowLogo];
        }
        exit := true;
      }
    }

    /** The charging loop from the locals `lp0`; `exitAt` is the time of the
        pass that left it, None when the ticks ran out first. */
    method ChargingLoop(lp0: Loop, ticks: seq<Tick>) returns (lp: Loop, exitAt: Option<nat>)
      requires CtxOk(Context()) && LoopOk(Context(), lp0)
      modifies this`autoWakeupKeyState, this`autoScreenOffTimeout, this`suspendDelayTimeout,
               this`ledsOldSoc, this`effects
      ensures Outcome(lp, Dynamic(), exitAt) == Run(Context(), lp0, old(Dynamic()), ticks)
    {
      lp, exitAt := lp0, None;
      var k := 0;
      while k < |ticks|
        invariant 0 <= k <= |ticks|
        invariant LoopOk(Context(), lp)
        invariant Run(Context(), lp, Dynamic(), ticks[k..]) == Run(Context(), lp0, old(Dynamic()), ticks)
      {
        var exit;
        lp, exit := MainPass(lp, ticks[k]);
        k := k + 1;
        if exit {
          return lp, Some(ticks[k - 1].later);
        }
      }
    }

    /** `charge_animation_show`: `env` holds the readings of the entry checks,
        `lowTicks` drive the extreme-low-power loop and `ticks` the charging
        loop; None means a loop was still running when its ticks ran out. */
    method ChargeAnimationShow(env: Env, lowTicks: seq<Tick>, ticks: seq<Tick>) returns (ret: Option<int>)
      requires CtxOk(Context())
      modifies this`autoWakeupKeyState, this`autoScreenOffTimeout, this`suspendDelayTimeout,
               this`ledsOldSoc, this`timerInitialized, this`effects
      ensures Finished(ret, Dynamic()) == ChargeSpec.ChargeAnimationShow(Context(), old(Dynamic()), env, lowTicks, ticks)
    {
      if !env.batteryExists {
        return Some(0);
      }
      if platform == GoAdvance {
        effects := effects + [LcdInit];
      }
      ret := ChargeExtremLowPower(env.lowVoltage, lowTicks);
      if ret != Some(0) {
        return ret;
      }
      if env.preboot.Some? && !HasSubstring(env.preboot.value, "dvfs") {
        return Some(0);
      }
      if platform == GoAdvance && env.bootMode == BootNormal {
        return Some(0);
      }
      var charging := OnlineOf(Context(), env.fgOnline, env.chargerOnline);
      if charging <= 0 {
        return Some(0);
      }
      if pdata.androidCharge != 0 {
        effects := effects + [AndroidChargeBootargs];
      }
      if pdata.ubootCharge == 0 {
        return Some(0);
      }
      if env.voltage < 0 {
        return Some(-EINVAL);
      }
      ret := StartCharging(env, ticks);
    }

    /** From the screen-off decision to the end of `charge_animation_show`. */
    method StartCharging(env: Env, ticks: seq<Tick>) returns (ret: Option<int>)
      requires CtxOk(Context())
      modifies this`autoWakeupKeyState, this`autoScreenOffTimeout, this`suspendDelayTimeout,
               this`ledsOldSoc, this`effects
      ensures Finished(ret, Dynamic()) == ChargeLoop(Context(), old(Dynamic()), env, ticks)
    {
      var screenOn, everLowpowerScreenOff := true, false;
      if env.voltage <= pdata.screenOnVoltage + VOLTAGE_MARGIN {
        screenOn, everLowpowerScreenOff := false, true;
        effects := effects + ScreenOffEffects(Context());
      }
      if pdata.autoWakeupInterval != 0 {
        effects := effects + [WakeupTimerInit(pdata.autoWakeupInterval)];
      }
      var lp := Loop(screenOn, everLowpowerScreenOff, IMAGE_RESET_IDX, IMAGE_RESET_IDX, 0, 0, true, env.start,
                     0, env.voltage, 0);
      assert lp == InitialLoop(env, everLowpowerScreenOff);
      var exitAt;
      lp, exitAt := ChargingLoop(lp, ticks);
      if exitAt.None? {
        return None;
      }
      if pdata.autoWakeupInterval != 0 {
        effects := effects + [WakeupTimerUninit];
      }
      return Some(0);
    }
  }
}
