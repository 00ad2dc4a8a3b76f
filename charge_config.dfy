/** The platform data of the charge-animation driver
    (drivers/power/charge_animation.c, `charge_animation_ofdata_to_platdata`). */
module ChargeConfig {

  import opened Wrappers
  import opened DeviceTree

  /** The two builds of the driver: the ODROID-GO Advance board and every
      other board. */
  datatype Platform = Generic | GoAdvance

  /** struct charge_animation_pdata; voltages are in mV, levels in percent,
      intervals in seconds, and a zero flag is off. */
  datatype Pdata = Pdata(
    ubootCharge: nat, androidCharge: nat,
    exitChargeLevel: nat, exitChargeVoltage: nat,
    lowPowerVoltage: nat, screenOnVoltage: nat,
    systemSuspend: nat,
    autoWakeupInterval: nat, autoWakeupScreenInvert: nat,
    autoOffScreenInterval: nat)

  /** The `rockchip,*` properties of the charge node; None is an absent property. */
  datatype ChargeDt = ChargeDt(
    ubootChargeOn: Option<nat>, androidChargeOn: Option<nat>,
    exitChargeLevel: Option<nat>, exitChargeVoltage: Option<nat>,
    lowPowerVoltage: Option<nat>, screenOnVoltage: Option<nat>,
    systemSuspend: Option<nat>,
    autoWakeupInterval: Option<nat>, autoWakeupScreenInvert: Option<nat>,
    autoOffScreenInterval: Option<nat>)

  const AUTO_OFF_SCREEN_DEFAULT := 15

  /** The property the screen-on voltage is read from: the GO Advance build
      reuses `uboot-low-power-voltage`, the others read `screen-on-voltage`. */
  function ScreenOnProperty(platform: Platform, dt: ChargeDt): Option<nat>
  {
    if platform == GoAdvance then dt.lowPowerVoltage else dt.screenOnVoltage
  }

  /** Reads every property with its default (0, or 15 s for the screen-off
      interval), then clamps the screen-on voltage to the exit voltage. */
  function OfdataToPlatdata(platform: Platform, dt: ChargeDt): (p: Pdata)
    ensures p.screenOnVoltage <= p.exitChargeVoltage
    ensures p.exitChargeVoltage == ReadU32Default(dt.exitChargeVoltage, 0)
    ensures var raw := ReadU32Default(ScreenOnProperty(platform, dt), 0);
            (raw <= p.exitChargeVoltage ==> p.screenOnVoltage == raw) &&
            (raw > p.exitChargeVoltage ==> p.screenOnVoltage == p.exitChargeVoltage)
    ensures p.autoOffScreenInterval == ReadU32Default(dt.autoOffScreenInterval, AUTO_OFF_SCREEN_DEFAULT)
    ensures p.ubootCharge == ReadU32Default(dt.ubootChargeOn, 0)
    ensures p.androidCharge == ReadU32Default(dt.androidChargeOn, 0)
    ensures p.exitChargeLevel == ReadU32Default(dt.exitChargeLevel, 0)
    ensures p.lowPowerVoltage == ReadU32Default(dt.lowPowerVoltage, 0)
    ensures p.systemSuspend == ReadU32Default(dt.systemSuspend, 0)
    ensures p.autoWakeupInterval == ReadU32Default(dt.autoWakeupInterval, 0)
    ensures p.autoWakeupScreenInvert == ReadU32Default(dt.autoWakeupScreenInvert, 0)
  {
    var p := Pdata(
      ReadU32Default(dt.ubootChargeOn, 0), ReadU32Default(dt.androidChargeOn, 0),
      ReadU32Default(dt.exitChargeLevel, 0), ReadU32Default(dt.exitChargeVoltage, 0),
      ReadU32Default(dt.lowPowerVoltage, 0), ReadU32Default(ScreenOnProperty(platform, dt), 0),
      ReadU32Default(dt.systemSuspend, 0),
      ReadU32Default(dt.autoWakeupInterval, 0), ReadU32Default(dt.autoWakeupScreenInvert, 0),
      ReadU32Default(dt.autoOffScreenInterval, AUTO_OFF_SCREEN_DEFAULT));
    if p.screenOnVoltage > p.exitChargeVoltage then p.(screenOnVoltage := p.exitChargeVoltage) else p
  }

  /** On the GO Advance the screen-on voltage is the low-power voltage, capped
      at the exit voltage; the low-power voltage itself is not capped. */
  lemma {:induction false} GoAdvanceScreenOnVoltage(dt: ChargeDt)
    ensures var p := OfdataToPlatdata(GoAdvance, dt);
            p.screenOnVoltage == if p.lowPowerVoltage <= p.exitChargeVoltage then p.lowPowerVoltage
                                 else p.exitChargeVoltage
    ensures OfdataToPlatdata(GoAdvance, dt).lowPowerVoltage == ReadU32Default(dt.lowPowerVoltage, 0)
  {
  }

  /** A node with none of the properties switches every feature off, except
      the 15-second automatic screen-off. */
  lemma {:induction false} ConfigDefaults(platform: Platform)
    ensures OfdataToPlatdata(platform, ChargeDt(None, None, None, None, None, None, None, None, None, None))
            == Pdata(0, 0, 0, 0, 0, 0, 0, 0, 0, 15)
  {
  }
}
