/** The behaviour of the charge-animation display (drivers/power/charge_animation.c)
    as functions over values: the key classification, the suspend gate, the LED
    decisions, one pass of the extreme-low-power loop and of the charging loop,
    and the entry checks of `charge_animation_show`. The class in charge_device.dfy
    implements the same steps on the driver's fields and is proved to agree with
    these functions. */
module ChargeSpec {

  import opened Wrappers
  import opened ChargeConfig
  import opened ChargeImages

  const EINVAL := 22
  const ENOSYS := 38

  /** enum key_state of the key uclass. */
  const KEY_PRESS_NONE := 0
  const KEY_PRESS_DOWN := 1
  const KEY_PRESS_LONG_DOWN := 2
  const KEY_NOT_EXIST := 3

  const SYSTEM_SUSPEND_DELAY_MS := 5000
  const FUEL_GAUGE_POLL_MS := 1000

  /** The extreme-low-power loop: its wake-up timer period (s), how long the
      battery-fail screen stays lit (ms), and the image it shows. */
  const LOW_POWER_WAKEUP_S := 5
  const LOW_POWER_SCREEN_MS := 5000
  const LOW_POWER_IMAGE := 4

  /** The margin (mV) added to the low-power and screen-on thresholds. */
  const VOLTAGE_MARGIN := 50

  datatype Led = ChargingLed | FullLed
  datatype LedState = LedOff | LedOn | LedToggle

  /** What `system_suspend_enter` takes down before sleeping and brings back up. */
  datatype PmStep = RegulatorsMem | LocalIrq | Irqs | Devices

  /** The hardware and environment calls the driver makes, in order. */
  datatype Effect =
    | LcdInit
    | LcdOnOff(on: bool)
    | PmicShutdown
    | LedSet(led: Led, state: LedState)
    | ShowImage(idx: int)
    | ScreenOff
    | ShowLogo
    | Suspend(step: PmStep)
    | CpuSuspend
    | Wfi
    | Resume(step: PmStep)
    | WakeupTimerInit(seconds: nat)
    | WakeupTimerUninit
    | AndroidChargeBootargs

  datatype BootMode = BootNormal | BootCharging | BootUndefined | BootOther

  /** What stays fixed while the display runs: the build, the platform data,
      the image table and which optional devices probe found. */
  datatype Ctx = Ctx(platform: Platform, pdata: Pdata, image: seq<ChargeImage>,
                     charger: bool, rtc: bool, ledCharging: bool, ledFull: bool)

  predicate CtxOk(ctx: Ctx)
  {
    TableOk(ctx.image)
  }

  /** What the display changes outside its own locals: the priv fields
      `auto_wakeup_key_state`, `auto_screen_off_timeout` and
      `suspend_delay_timeout`, the statics `old_soc` of `leds_update` and
      `timer_initialized` of `charge_extrem_low_power`, and the calls made. */
  datatype Dyn = Dyn(autoWakeupKeyState: int, autoScreenOffTimeout: nat, suspendDelayTimeout: nat,
                     ledsOldSoc: int, timerInitialized: bool, effects: seq<Effect>)

  function Emit(d: Dyn, es: seq<Effect>): Dyn
  {
    d.(effects := d.effects + es)
  }

  /** `get_timer(base)` at time `now`: the milliseconds elapsed since `base`. */
  function GetTimer(now: nat, base: nat): int
  {
    now - base
  }

  /** What the environment supplies to one pass of a loop: the time at the
      start of the pass (`now`) and after the screen or suspend step (`later`),
      the fuel-gauge and charger readings, whether the wake-up timer fired,
      the RTC alarm, the power key, ctrl-c, and what the LED writes return. */
  datatype Tick = Tick(now: nat, later: nat,
                       fgOnline: int, chargerOnline: int, soc: int, voltage: int, current: int,
                       timerIrq: bool, rtcAlarm: bool, key: int, ctrlc: bool,
                       ledChargingRet: int, ledFullRet: int)

  /** `fg_charger_get_chrg_online`: the charger answers when there is one,
      otherwise the fuel gauge. */
  function OnlineOf(ctx: Ctx, fgOnline: int, chargerOnline: int): int
  {
    if ctx.charger then chargerOnline else fgOnline
  }

  /** `timer_irq_handler`: the wake-up timer posts a short key press. */
  function TimerIrqHandler(d: Dyn): (r: Dyn)
    ensures r.autoWakeupKeyState == KEY_PRESS_DOWN
    ensures r.(autoWakeupKeyState := d.autoWakeupKeyState) == d
  {
    d.(autoWakeupKeyState := KEY_PRESS_DOWN)
  }

  /** The key state `check_key_press` returns and the priv fields after it. */
  datatype Keyed = Keyed(state: int, d: Dyn)

  /** `check_key_press` with the power key reading `key` at time `now`. */
  function CheckKeyPress(ctx: Ctx, d: Dyn, rtcAlarm: bool, key: int, now: nat): (k: Keyed)
    ensures k.d == d || k.d == d.(autoWakeupKeyState := KEY_PRESS_NONE)
  {
    if ctx.rtc && rtcAlarm then Keyed(KEY_PRESS_LONG_DOWN, d)
    else if ctx.pdata.autoWakeupInterval != 0 then
      if ctx.pdata.autoWakeupScreenInvert != 0 && d.autoWakeupKeyState == KEY_PRESS_DOWN
      then Keyed(KEY_PRESS_DOWN, d.(autoWakeupKeyState := KEY_PRESS_NONE))
      else Keyed(key, d)
    else if ctx.pdata.autoOffScreenInterval != 0 && d.autoScreenOffTimeout != 0 &&
            GetTimer(now, d.autoScreenOffTimeout) > ctx.pdata.autoOffScreenInterval * 1000
    then Keyed(KEY_PRESS_DOWN, d)
    else Keyed(key, d)
  }

  /** The calls of one suspend: the ATF system suspend when `system-suspend`
      is set, otherwise a `wfi` with the interrupt controller suspended. */
  function SuspendTrace(systemSuspend: bool): seq<Effect>
  {
    if systemSuspend then
      [Suspend(RegulatorsMem), Suspend(LocalIrq), Suspend(Irqs), Suspend(Devices),
       CpuSuspend,
       Resume(Devices), Resume(Irqs), Resume(LocalIrq)]
    else
      [Suspend(Irqs), Wfi, Resume(Irqs)]
  }

  /** Within 5 s of the last wake-up no new suspend is tried. */
  predicate CoolingDown(d: Dyn, now: nat)
  {
    d.suspendDelayTimeout != 0 && GetTimer(now, d.suspendDelayTimeout) <= SYSTEM_SUSPEND_DELAY_MS
  }

  /** `system_suspend_enter` entered at `now`; the CPU is back at `later`. */
  function SystemSuspendEnter(ctx: Ctx, d: Dyn, now: nat, later: nat): Dyn
  {
    if CoolingDown(d, now) then d
    else Emit(d, SuspendTrace(ctx.pdata.systemSuspend != 0)).(suspendDelayTimeout := later)
  }

  datatype LedsResult = LedsResult(ret: int, d: Dyn)

  /** The charging LED: lit below 100 % (blinking on the GO Advance), off at
      or above 100 %. */
  function ChargingLedState(platform: Platform, soc: int): LedState
  {
    if soc < 100 then (if platform == GoAdvance then LedToggle else LedOn) else LedOff
  }

  /** The full LED: on exactly at 100 %. */
  function FullLedState(soc: int): LedState
  {
    if soc == 100 then LedOn else LedOff
  }

  /** `leds_update`: the generic build skips a state of charge equal to the
      last one it saw; a failing LED write returns its error at once. */
  function LedsUpdate(ctx: Ctx, d: Dyn, soc: int, chargingRet: int, fullRet: int): LedsResult
  {
    if ctx.platform == Generic && d.ledsOldSoc == soc then LedsResult(0, d)
    else
      var d1 := if ctx.platform == Generic then d.(ledsOldSoc := soc) else d;
      var d2 := if ctx.ledCharging then Emit(d1, [LedSet(ChargingLed, ChargingLedState(ctx.platform, soc))]) else d1;
      if ctx.ledCharging && chargingRet != 0 then LedsResult(chargingRet, d2)
      else if ctx.ledFull then LedsResult(fullRet, Emit(d2, [LedSet(FullLed, FullLedState(soc))]))
      else LedsResult(0, d2)
  }

  /** How the screen is switched off: on the GO Advance the panel is powered
      down and the charging LED lit, elsewhere an empty image is shown. */
  function ScreenOffEffects(ctx: Ctx): seq<Effect>
  {
    if ctx.platform == GoAdvance then
      [LcdOnOff(false)] + (if ctx.ledCharging then [LedSet(ChargingLed, LedOn)] else [])
    else [ScreenOff]
  }

  /** How a key switches the screen on: only the GO Advance powers the panel. */
  function ScreenOnEffects(ctx: Ctx): seq<Effect>
  {
    if ctx.platform == GoAdvance then [LcdOnOff(true)] else []
  }

  // ---------------------------------------------------------------------
  // The extreme-low-power loop

  /** The locals of `charge_extrem_low_power`. */
  datatype Low = Low(voltage: int, screenOn: bool, dispStart: nat)

  datatype LowStep = LowStep(lw: Low, d: Dyn, exit: bool)

  /** The state after the start of a pass and whether the charger is online. */
  datatype Front = Front(d: Dyn, online: bool)

  /** The start of a pass: the charger check (a failed shutdown leaves the
      loop to try again) and the one-time wake-up timer set-up. */
  function LowFront(ctx: Ctx, d: Dyn, t: Tick): Front
  {
    var d0 := if t.timerIrq && d.timerInitialized then TimerIrqHandler(d) else d;
    if OnlineOf(ctx, t.fgOnline, t.chargerOnline) <= 0 then Front(Emit(d0, [PmicShutdown]), false)
    else if d0.timerInitialized then Front(d0, true)
    else Front(Emit(d0.(timerInitialized := true), [WakeupTimerInit(LOW_POWER_WAKEUP_S)]), true)
  }

  /** The rest of a pass once the charger is online: the LEDs, the
      battery-fail image on the first valid reading, the screen switched off
      after 5 s, a suspend, and the new voltage; ctrl-c ends the loop. */
  function LowBack(ctx: Ctx, lw: Low, d: Dyn, t: Tick): LowStep
    requires 0 <= t.soc <= 100
  {
    var d2 := LedsUpdate(ctx, d, t.soc, t.ledChargingRet, t.ledFullRet).d;
    var first := lw.dispStart == 0;
    var lw1 := if first then lw.(dispStart := t.now) else lw;
    var d3 := if first then Emit(d2, [ShowImage(LOW_POWER_IMAGE)]) else d2;
    var off := GetTimer(t.now, lw1.dispStart) > LOW_POWER_SCREEN_MS && lw1.screenOn;
    var lw2 := if off then lw1.(screenOn := false) else lw1;
    var d4 := if off then Emit(d3, [LcdOnOff(false)]) else d3;
    var d5 := SystemSuspendEnter(ctx, d4, t.now, t.later);
    LowStep(lw2.(voltage := t.voltage), d5, t.voltage >= 0 && t.ctrlc)
  }

  /** One pass of the extreme-low-power loop. */
  function LowPass(ctx: Ctx, lw: Low, d: Dyn, t: Tick): LowStep
  {
    var f := LowFront(ctx, d, t);
    if !f.online || t.soc < 0 || t.soc > 100 then LowStep(lw, f.d, false)
    else LowBack(ctx, lw, f.d, t)
  }

  /** The loop condition: the battery is still below the low-power voltage
      plus the margin. */
  predicate ExtremLow(ctx: Ctx, voltage: int)
  {
    voltage < ctx.pdata.lowPowerVoltage + VOLTAGE_MARGIN
  }

  datatype LowOutcome = LowOutcome(lw: Low, d: Dyn, done: bool)

  /** The loop over the passes `ticks`; `done` is false when the ticks run
      out while the loop still runs. */
  function LowRun(ctx: Ctx, lw: Low, d: Dyn, ticks: seq<Tick>): LowOutcome
    decreases |ticks|
  {
    if !ExtremLow(ctx, lw.voltage) then LowOutcome(lw, d, true)
    else if ticks == [] then LowOutcome(lw, d, false)
    else
      var s := LowPass(ctx, lw, d, ticks[0]);
      if s.exit then LowOutcome(s.lw, s.d, true) else LowRun(ctx, s.lw, s.d, ticks[1..])
  }

  /** A C function's return value (None while its loop still runs) and the
      driver state. */
  datatype Finished = Finished(ret: Option<int>, d: Dyn)

  /** The calls made on leaving the extreme-low-power loop. */
  function LowExitEffects(lw: Low): seq<Effect>
  {
    (if lw.screenOn then [] else [LcdOnOff(true)]) + [WakeupTimerUninit]
  }

  /** `charge_extrem_low_power` with the first voltage reading `voltage`. */
  function ExtremLowPower(ctx: Ctx, d: Dyn, voltage: int, ticks: seq<Tick>): Finished
  {
    if voltage < 0 then Finished(Some(-EINVAL), d)
    else
      var o := LowRun(ctx, Low(voltage, true, 0), d, ticks);
      if !o.done then Finished(None, o.d)
      else Finished(Some(0), Emit(o.d, LowExitEffects(o.lw)))
  }

  // ---------------------------------------------------------------------
  // The charging loop

  /** The locals of `charge_animation_show` that the charging loop updates;
      `soc`, `voltage` and `current` are the last values read. */
  datatype Loop = Loop(screenOn: bool, everLowpowerScreenOff: bool,
                       showIdx: int, oldShowIdx: int, startIdx: int, showStart: nat,
                       firstPollFg: bool, delta: nat,
                       soc: int, voltage: int, current: int)

  /** The frame indices stay inside the table: `show_idx` is a frame or
      IMAGE_RESET_IDX, and `start_idx` is a charge-level frame. */
  predicate LoopOk(ctx: Ctx, lp: Loop)
  {
    IMAGE_RESET_IDX <= lp.showIdx <= LowpowerIdx(|ctx.image|) &&
    0 <= lp.startIdx <= Soc100Idx(|ctx.image|)
  }

  datatype Polled = Polled(lp: Loop, d: Dyn, show: bool)

  /** Step 1 and 2: unless the last poll is younger than 1 s, read the
      charger, the state of charge, the voltage and the current; `show` is
      false when the pass ends early (`continue`). */
  function PollGauge(ctx: Ctx, lp: Loop, d: Dyn, t: Tick): (p: Polled)
    ensures p.lp.showIdx == lp.showIdx && p.lp.startIdx == lp.startIdx
    ensures p.lp.everLowpowerScreenOff == lp.everLowpowerScreenOff
  {
    if !lp.firstPollFg && GetTimer(t.now, lp.delta) < FUEL_GAUGE_POLL_MS then Polled(lp, d, true)
    else
      var lp1 := lp.(delta := t.now);
      if OnlineOf(ctx, t.fgOnline, t.chargerOnline) <= 0 then
        Polled(lp1, Emit(d, [LcdOnOff(false), PmicShutdown]), false)
      else if t.soc < 0 || t.soc > 100 then Polled(lp1.(soc := t.soc), d, false)
      else if t.voltage < 0 then Polled(lp1.(soc := t.soc, voltage := t.voltage), d, false)
      else if t.current == -ENOSYS then
        Polled(lp1.(soc := t.soc, voltage := t.voltage, current := t.current), d, false)
      else Polled(lp1.(soc := t.soc, voltage := t.voltage, current := t.current, firstPollFg := false), d, true)
  }

  /** The low-power latch: while it is set the screen is forced off, and only
      a voltage above the screen-on voltage releases it. */
  function Latch(ctx: Ctx, lp: Loop): (r: Loop)
    ensures r.showIdx == lp.showIdx || r.showIdx == IMAGE_RESET_IDX
    ensures r.startIdx == lp.startIdx
  {
    var lp1 := if lp.everLowpowerScreenOff then lp.(screenOn := false) else lp;
    if lp1.everLowpowerScreenOff && lp1.voltage > ctx.pdata.screenOnVoltage then
      lp1.(everLowpowerScreenOff := false, screenOn := true, showIdx := IMAGE_RESET_IDX)
    else lp1
  }

  /** A reset frame index is recomputed from the state of charge, and the
      frame's display time starts at `now`. */
  function SelectFrame(ctx: Ctx, lp: Loop, now: nat): (r: Loop)
    ensures LoopOk(ctx, lp) && |ctx.image| >= 2 ==> LoopOk(ctx, r) && 0 <= r.showIdx
  {
    if lp.showIdx == IMAGE_RESET_IDX then
      var s := StartIdx(ctx.image, lp.soc, lp.startIdx);
      lp.(startIdx := s, showIdx := s, showStart := now)
    else lp
  }

  datatype Phase = Phase(lp: Loop, d: Dyn)

  /** Step 3: with the screen on, draw the frame if it changed and start the
      screen-off timer; with the screen off, clear that timer and suspend. */
  function Draw(ctx: Ctx, lp: Loop, d: Dyn, t: Tick): (p: Phase)
    ensures p.lp.showIdx == lp.showIdx && p.lp.startIdx == lp.startIdx
    ensures p.lp.everLowpowerScreenOff == lp.everLowpowerScreenOff && p.lp.voltage == lp.voltage
  {
    if lp.screenOn then
      var p :=
        if lp.oldShowIdx != lp.showIdx then
          var d1 := Emit(d, [ShowImage(lp.showIdx)]);
          Phase(lp.(oldShowIdx := lp.showIdx),
                if ctx.platform == GoAdvance then LedsUpdate(ctx, d1, lp.soc, t.ledChargingRet, t.ledFullRet).d
                else d1)
        else Phase(lp, d);
      if p.d.autoScreenOffTimeout == 0 then Phase(p.lp, p.d.(autoScreenOffTimeout := t.now)) else p
    else
      Phase(lp, SystemSuspendEnter(ctx, d.(autoScreenOffTimeout := 0), t.now, t.later))
  }

  /** When the frame's period has passed, move to the next frame; past the
      full frame the index is reset. */
  function Advance(ctx: Ctx, lp: Loop, later: nat): (r: Loop)
    requires 0 <= lp.showIdx < |ctx.image|
    ensures r.startIdx == lp.startIdx
    ensures IMAGE_RESET_IDX <= r.showIdx <= Soc100Idx(|ctx.image|) || r.showIdx == lp.showIdx
    ensures r.everLowpowerScreenOff == lp.everLowpowerScreenOff && r.voltage == lp.voltage
  {
    if GetTimer(later, lp.showStart) > ctx.image[lp.showIdx].period then
      var next := lp.showIdx + 1;
      lp.(showStart := later, showIdx := if next > Soc100Idx(|ctx.image|) then IMAGE_RESET_IDX else next)
    else lp
  }

  /** From the `show_images` label to the end of the period check. */
  function ShowImages(ctx: Ctx, lp: Loop, d: Dyn, t: Tick): (p: Phase)
    requires CtxOk(ctx) && LoopOk(ctx, lp)
    ensures LoopOk(ctx, p.lp)
    ensures p.lp.everLowpowerScreenOff == Latch(ctx, lp).everLowpowerScreenOff && p.lp.voltage == lp.voltage
  {
    var d1 := if ctx.platform == Generic then LedsUpdate(ctx, d, lp.soc, t.ledChargingRet, t.ledFullRet).d else d;
    var lp1 := SelectFrame(ctx, Latch(ctx, lp), t.now);
    var p := Draw(ctx, lp1, d1, t);
    Phase(Advance(ctx, p.lp, t.later), p.d)
  }

  /** After the key step the pass goes on to ctrl-c, starts the next pass
      (`continue`), or leaves the loop (`break`). */
  datatype KeyFlow = Proceed | Skip | Leave

  datatype Keys = Keys(lp: Loop, d: Dyn, flow: KeyFlow)

  /** Step 4: a short press toggles the screen and resets the frame; a long
      press switches the screen on and boots if the battery allows it. */
  function HandleKeys(ctx: Ctx, lp: Loop, d: Dyn, t: Tick): (k: Keys)
    ensures k.lp.startIdx == lp.startIdx
    ensures k.lp.showIdx in {lp.showIdx, IMAGE_RESET_IDX, LowpowerIdx(|ctx.image|)}
    ensures k.lp.everLowpowerScreenOff == lp.everLowpowerScreenOff && k.lp.voltage == lp.voltage
  {
    var k := CheckKeyPress(ctx, d, t.rtcAlarm, t.key, t.later);
    if k.state == KEY_PRESS_DOWN then
      var lp1 := lp.(oldShowIdx := IMAGE_RESET_IDX, showIdx := IMAGE_RESET_IDX);
      if lp.screenOn then
        Keys(lp1.(screenOn := false), Emit(k.d, ScreenOffEffects(ctx)).(suspendDelayTimeout := t.later), Proceed)
      else
        Keys(lp1.(screenOn := true), Emit(k.d, ScreenOnEffects(ctx)), Proceed)
    else if k.state == KEY_PRESS_LONG_DOWN then
      var d1 := if lp.screenOn then k.d else Emit(k.d, ScreenOnEffects(ctx));
      var lp1 := lp.(screenOn := true);
      if lp.soc < ctx.pdata.exitChargeLevel || lp.voltage < ctx.pdata.exitChargeVoltage then
        Keys(lp1.(showIdx := LowpowerIdx(|ctx.image|)), d1, Skip)
      else Keys(lp1, Emit(d1, [ShowLogo]), Leave)
    else Keys(lp, k.d, Proceed)
  }

  datatype Step = Step(lp: Loop, d: Dyn, exit: bool)

  /** Step 5: ctrl-c leaves the loop, showing the logo when the voltage is at
      least the screen-on voltage. */
  function CtrlC(ctx: Ctx, k: Keys, ctrlc: bool): (s: Step)
    ensures s.lp == k.lp
  {
    match k.flow
    case Skip => Step(k.lp, k.d, false)
    case Leave => Step(k.lp, k.d, true)
    case Proceed =>
      if ctrlc then
        Step(k.lp, Emit(k.d, if k.lp.voltage >= ctx.pdata.screenOnVoltage then [ShowLogo] else []), true)
      else Step(k.lp, k.d, false)
  }

  /** The wake-up timer's interrupt, installed when `auto-wakeup-interval` is set. */
  function WakeupIrq(ctx: Ctx, d: Dyn, fired: bool): Dyn
  {
    if fired && ctx.pdata.autoWakeupInterval != 0 then TimerIrqHandler(d) else d
  }

  /** One pass of the charging loop. */
  function Pass(ctx: Ctx, lp: Loop, d: Dyn, t: Tick): (s: Step)
    requires CtxOk(ctx) && LoopOk(ctx, lp)
    ensures LoopOk(ctx, s.lp)
  {
    var p := PollGauge(ctx, lp, WakeupIrq(ctx, d, t.timerIrq), t);
    if !p.show then Step(p.lp, p.d, false)
    else Display(ctx, p.lp, p.d, t)
  }

  /** Steps 3 to 7 of a pass that got past the gauge: LEDs, frame, keys, Ctrl-C. */
  function Display(ctx: Ctx, lp: Loop, d: Dyn, t: Tick): (s: Step)
    requires CtxOk(ctx) && LoopOk(ctx, lp)
    ensures LoopOk(ctx, s.lp)
  {
    var s := ShowImages(ctx, lp, d, t);
    CtrlC(ctx, HandleKeys(ctx, s.lp, s.d, t), t.ctrlc)
  }

  /** The charging loop's result: `exitAt` is the time of the pass that left
      the loop, None when the ticks run out first. */
  datatype Outcome = Outcome(lp: Loop, d: Dyn, exitAt: Option<nat>)

  function Run(ctx: Ctx, lp: Loop, d: Dyn, ticks: seq<Tick>): Outcome
    requires CtxOk(ctx) && LoopOk(ctx, lp)
    decreases |ticks|
  {
    if ticks == [] then Outcome(lp, d, None)
    else
      var s := Pass(ctx, lp, d, ticks[0]);
      if s.exit then Outcome(s.lp, s.d, Some(ticks[0].later))
      else Run(ctx, s.lp, s.d, ticks[1..])
  }

  // ---------------------------------------------------------------------
  // charge_animation_show

  /** What the entry checks read: the battery, the first voltage of the
      extreme-low-power check, the `preboot` variable, the boot mode, the
      charger, the voltage, and the time the charging loop starts. */
  datatype Env = Env(batteryExists: bool, lowVoltage: int, preboot: Option<string>, bootMode: BootMode,
                     fgOnline: int, chargerOnline: int, voltage: int, start: nat)

  /** `strstr(s, t) != NULL`. */
  predicate HasSubstring(s: string, t: string)
    decreases |s|
  {
    |t| <= |s| && (s[..|t|] == t || HasSubstring(s[1..], t))
  }

  /** The locals when the charging loop starts; `lowpower` is the
      screen-off-before-charge decision. */
  function InitialLoop(env: Env, lowpower: bool): Loop
  {
    Loop(!lowpower, lowpower, IMAGE_RESET_IDX, IMAGE_RESET_IDX, 0, 0, true, env.start, 0, env.voltage, 0)
  }

  /** Whether the battery is low enough to start charging with the screen off. */
  predicate LowpowerStart(ctx: Ctx, voltage: int)
  {
    voltage <= ctx.pdata.screenOnVoltage + VOLTAGE_MARGIN
  }

  /** From the screen-off decision to the end of `charge_animation_show`. */
  function ChargeLoop(ctx: Ctx, d: Dyn, env: Env, ticks: seq<Tick>): Finished
    requires CtxOk(ctx)
  {
    var lowpower := LowpowerStart(ctx, env.voltage);
    var d1 := if lowpower then Emit(d, ScreenOffEffects(ctx)) else d;
    var wakeup := ctx.pdata.autoWakeupInterval;
    var d2 := if wakeup != 0 then Emit(d1, [WakeupTimerInit(wakeup)]) else d1;
    var o := Run(ctx, InitialLoop(env, lowpower), d2, ticks);
    if o.exitAt.None? then Finished(None, o.d)
    else Finished(Some(0), if wakeup != 0 then Emit(o.d, [WakeupTimerUninit]) else o.d)
  }

  /** The checks after the extreme-low-power loop: preboot command, boot
      mode, charger, Android charge mode, U-Boot charge mode, voltage. */
  function ChargeGate(ctx: Ctx, d: Dyn, env: Env, ticks: seq<Tick>): Finished
    requires CtxOk(ctx)
  {
    if env.preboot.Some? && !HasSubstring(env.preboot.value, "dvfs") then Finished(Some(0), d)
    else if ctx.platform == GoAdvance && env.bootMode == BootNormal then Finished(Some(0), d)
    else if OnlineOf(ctx, env.fgOnline, env.chargerOnline) <= 0 then Finished(Some(0), d)
    else
      var d1 := if ctx.pdata.androidCharge != 0 then Emit(d, [AndroidChargeBootargs]) else d;
      if ctx.pdata.ubootCharge == 0 then Finished(Some(0), d1)
      else if env.voltage < 0 then Finished(Some(-EINVAL), d1)
      else ChargeLoop(ctx, d1, env, ticks)
  }

  /** `charge_animation_show`: `lowTicks` drive the extreme-low-power loop and
      `ticks` the charging loop. */
  function ChargeAnimationShow(ctx: Ctx, d: Dyn, env: Env, lowTicks: seq<Tick>, ticks: seq<Tick>): Finished
    requires CtxOk(ctx)
  {
    if !env.batteryExists then Finished(Some(0), d)
    else
      var d1 := if ctx.platform == GoAdvance then Emit(d, [LcdInit]) else d;
      var low := ExtremLowPower(ctx, d1, env.lowVoltage, lowTicks);
      if low.ret != Some(0) then low
      else ChargeGate(ctx, low.d, env, ticks)
  }
}
