/** The simple panel driver's state (drivers/video/drm/rockchip_panel.c): the
    platform data read from the device tree, the command lists it parses, and the
    `prepared` / `enabled` flags that make the panel functions idempotent. */
module Panel {

  import opened Wrappers
  import opened PanelCmds
  import opened PanelSend
  import opened Bits
  import opened DeviceTree

  /** MEDIA_BUS_FMT_RBG888_1X24 of the Linux media bus format codes. */
  const MEDIA_BUS_FMT_RBG888_1X24 := 0x100e
  const DEFAULT_BPC := 8

  /** The `*-delay-ms` properties, each in milliseconds. */
  datatype Delays = Delays(prepare: nat, unprepare: nat, enable: nat, disable: nat, init: nat, reset: nat)

  /** The device-tree properties the driver reads; None is an absent property. */
  datatype PanelDt = PanelDt(
    powerInvert: bool,
    prepareDelay: Option<nat>, unprepareDelay: Option<nat>, enableDelay: Option<nat>,
    disableDelay: Option<nat>, initDelay: Option<nat>, resetDelay: Option<nat>,
    busFormat: Option<nat>, bpc: Option<nat>,
    initSequence: Option<seq<Byte>>, exitSequence: Option<seq<Byte>>,
    cmdType: Option<string>)

  /** The scalar part of struct rockchip_panel_plat. */
  datatype PanelPlat = PanelPlat(powerInvert: bool, busFormat: nat, bpc: nat, delay: Delays)

  /** The scalar platform data: every delay defaults to 0, the bus format to
      RBG888_1X24 and the colour depth to 8 bits per component. */
  function PlatFromDt(dt: PanelDt): PanelPlat
  {
    PanelPlat(
      dt.powerInvert,
      ReadU32Default(dt.busFormat, MEDIA_BUS_FMT_RBG888_1X24),
      ReadU32Default(dt.bpc, DEFAULT_BPC),
      Delays(
        ReadU32Default(dt.prepareDelay, 0), ReadU32Default(dt.unprepareDelay, 0),
        ReadU32Default(dt.enableDelay, 0), ReadU32Default(dt.disableDelay, 0),
        ReadU32Default(dt.initDelay, 0), ReadU32Default(dt.resetDelay, 0)))
  }

  /** A device tree without the optional properties gives the documented defaults. */
  lemma {:induction false} PlatDefaults(dt: PanelDt)
    requires dt.busFormat.None? && dt.bpc.None?
    requires dt.prepareDelay.None? && dt.unprepareDelay.None? && dt.enableDelay.None?
    requires dt.disableDelay.None? && dt.initDelay.None? && dt.resetDelay.None?
    ensures PlatFromDt(dt) == PanelPlat(dt.powerInvert, 0x100e, 8, Delays(0, 0, 0, 0, 0, 0))
  {
  }

  /** The cmd type chosen in `rockchip_panel_probe`: DEFAULT when the
      `rockchip,cmd-type` string is absent, otherwise by its prefix. */
  function ProbeCmdType(prop: Option<string>): (t: CmdType)
    ensures prop.None? ==> t == Default
    ensures prop.Some? ==> Ok(t) == GetPanelCmdType(prop)
  {
    match prop
    case None => Default
    case Some(s) => GetPanelCmdType(Some(s)).value
  }

  /** Outcomes of the allocations `rockchip_panel_ofdata_to_platdata` makes: the
      list header and the descriptor array, for the init and the exit sequence. */
  datatype Allocs = Allocs(onList: bool, onArray: bool, offList: bool, offArray: bool)

  /** Whether the command list for an optional sequence can be built. */
  predicate ListOk(sq: Option<seq<Byte>>, listOk: bool, arrayOk: bool)
  {
    sq.Some? ==> listOk && arrayOk
  }

  /** What a send function puts on the panel interface for one command list. */
  function SendTrace(t: CmdType, data: seq<Byte>, present: bool, results: seq<int>): seq<Event>
    requires present ==> Framed(data)
    requires present && t == Default ==> |results| == |Descriptors(data)|
  {
    if !present then []
    else match t
      case Spi => SpiTrace(data, Descriptors(data))
      case Mcu => McuTrace(data, Descriptors(data))
      case Default => DsiRun(data, Descriptors(data), results).trace
  }

  class RockchipPanel {
    var plat: PanelPlat
    var cmdType: CmdType
    var onData: seq<Byte>
    var onCmds: PanelCmdList?
    var offData: seq<Byte>
    var offCmds: PanelCmdList?
    var prepared: bool
    var enabled: bool
    /** Everything sent to the panel so far. */
    var trace: seq<Event>

    /** A zero-filled platform data and private area, as the driver model hands
        them to the driver. */
    constructor ()
      ensures onCmds == null && offCmds == null && !prepared && !enabled && trace == []
    {
      plat := PanelPlat(false, 0, 0, Delays(0, 0, 0, 0, 0, 0));
      cmdType := Default;
      onData, offData := [], [];
      onCmds, offCmds := null, null;
      prepared, enabled := false, false;
      trace := [];
    }

    /** Each present command list holds the descriptors of its sequence. */
    predicate Valid()
      reads this, onCmds, offCmds
      reads if onCmds != null then {onCmds.cmds} else {}
      reads if offCmds != null then {offCmds.cmds} else {}
    {
      (onCmds != null ==> onCmds.Parsed(onData)) && (offCmds != null ==> offCmds.Parsed(offData))
    }

    /** `rockchip_panel_ofdata_to_platdata`, followed on success by the cmd-type
        choice of `rockchip_panel_probe` (a failed ofdata step never reaches
        probe). On a failed allocation it returns -ENOMEM; the lists already
        built are then released (modelled as null). */
    method OfdataToPlatdata(dt: PanelDt, allocs: Allocs) returns (ret: int)
      requires onCmds == null && offCmds == null
      requires dt.initSequence.Some? ==> Framed(dt.initSequence.value)
      requires dt.exitSequence.Some? ==> Framed(dt.exitSequence.value)
      modifies this
      ensures plat == PlatFromDt(dt)
      ensures ret == 0 ==> cmdType == ProbeCmdType(dt.cmdType)
      ensures ret != 0 ==> cmdType == old(cmdType)
      ensures ret == 0 || ret == -ENOMEM
      ensures ret == 0 <==> (ListOk(dt.initSequence, allocs.onList, allocs.onArray)
                             && ListOk(dt.exitSequence, allocs.offList, allocs.offArray))
      ensures ret != 0 ==> onCmds == null && offCmds == null
      ensures ret == 0 ==> Valid()
      ensures ret == 0 ==> (onCmds != null <==> dt.initSequence.Some?) && (offCmds != null <==> dt.exitSequence.Some?)
      ensures ret == 0 && dt.initSequence.Some? ==> onData == dt.initSequence.value
      ensures ret == 0 && dt.exitSequence.Some? ==> offData == dt.exitSequence.value
      ensures unchanged(`prepared) && unchanged(`enabled) && unchanged(`trace)
    {
      plat := PlatFromDt(dt);
      if dt.initSequence.Some? {
        if !allocs.onList {
          return -ENOMEM;
        }
        var list := new PanelCmdList();
        var r := ParseCmds(dt.initSequence.value, list, allocs.onArray);
        if r != 0 {
          return r;
        }
        onData, onCmds := dt.initSequence.value, list;
      }
      if dt.exitSequence.Some? {
        if !allocs.offList {
          onCmds := null;
          return -ENOMEM;
        }
        var list := new PanelCmdList();
        var r := ParseCmds(dt.exitSequence.value, list, allocs.offArray);
        if r != 0 {
          onCmds := null;
          return r;
        }
        offData, offCmds := dt.exitSequence.value, list;
      }
      cmdType := ProbeCmdType(dt.cmdType);
      return 0;
    }

    /** Sends one command list the way `priv->cmd_type` says; the result is only
        logged by the callers. */
    method SendCmds(data: seq<Byte>, cmds: PanelCmdList?, results: seq<int>) returns (sent: seq<Event>)
      requires cmds != null ==> cmds.Parsed(data)
      requires cmds != null && cmdType == Default ==> |results| == cmds.cmdCnt
      ensures sent == SendTrace(cmdType, data, cmds != null, results)
    {
      if cmds == null {
        return [];
      }
      var ret;
      if cmdType == Spi {
        ret, sent := SendSpiCmds(data, cmds);
      } else if cmdType == Mcu {
        ret, sent := SendMcuCmds(data, cmds);
      } else {
        ret, sent := SendDsiCmds(data, cmds, results);
      }
    }

    /** `panel_simple_prepare`. `lcd2v8Ret` and `backlight2v8Ret` are what enabling
        those supplies returns (0 when the supply is absent); `results` are the
        bus results for DSI on-commands. */
    method Prepare(lcd2v8Ret: int, backlight2v8Ret: int, results: seq<int>)
      requires Valid()
      requires onCmds != null && cmdType == Default ==> |results| == onCmds.cmdCnt
      modifies this
      ensures Valid()
      ensures unchanged(`plat) && unchanged(`cmdType) && unchanged(`enabled)
      ensures unchanged(`onCmds) && unchanged(`offCmds) && unchanged(`onData) && unchanged(`offData)
      ensures old(prepared) ==> prepared && trace == old(trace)
      ensures !old(prepared) && (lcd2v8Ret != 0 || backlight2v8Ret != 0) ==> !prepared && trace == old(trace)
      ensures !old(prepared) && lcd2v8Ret == 0 && backlight2v8Ret == 0 ==>
                prepared && trace == old(trace) + SendTrace(cmdType, onData, onCmds != null, results)
    {
      if prepared {
        return;
      }
      if lcd2v8Ret != 0 {
        return;
      }
      if backlight2v8Ret != 0 {
        return;
      }
      var sent := SendCmds(onData, onCmds, results);
      trace := trace + sent;
      prepared := true;
    }

    /** `panel_simple_unprepare`: sends the off-commands (errors only logged)
        and clears `prepared`. */
    method Unprepare(results: seq<int>)
      requires Valid()
      requires offCmds != null && cmdType == Default ==> |results| == offCmds.cmdCnt
      modifies this
      ensures Valid()
      ensures unchanged(`plat) && unchanged(`cmdType) && unchanged(`enabled)
      ensures unchanged(`onCmds) && unchanged(`offCmds) && unchanged(`onData) && unchanged(`offData)
      ensures !prepared
      ensures !old(prepared) ==> trace == old(trace)
      ensures old(prepared) ==> trace == old(trace) + SendTrace(cmdType, offData, offCmds != null, results)
    {
      if !prepared {
        return;
      }
      var sent := SendCmds(offData, offCmds, results);
      trace := trace + sent;
      prepared := false;
    }

    /** `panel_simple_enable`: waits the enable delay only when the panel
        was not yet enabled. */
    method Enable()
      modifies this`enabled, this`trace
      ensures enabled
      ensures trace == old(trace) + if old(enabled) then [] else DelayOf(plat.delay.enable)
    {
      if enabled {
        return;
      }
      if plat.delay.enable != 0 {
        trace := trace + [Delay(plat.delay.enable)];
      }
      enabled := true;
    }

    /** `panel_simple_disable`: waits the disable delay only when the panel
        was enabled. */
    method Disable()
      modifies this`enabled, this`trace
      ensures !enabled
      ensures trace == old(trace) + if old(enabled) then DelayOf(plat.delay.disable) else []
    {
      if !enabled {
        return;
      }
      if plat.delay.disable != 0 {
        trace := trace + [Delay(plat.delay.disable)];
      }
      enabled := false;
    }
  }
}
