/** Sending a parsed command list to the panel (drivers/video/drm/rockchip_panel.c):
    bit-banged 9-bit SPI words, MCU bus commands, or MIPI DSI writes. What reaches
    the hardware is recorded as a trace of events. */
module PanelSend {

  import opened Wrappers
  import opened PanelCmds
  import opened Bits

  /** The GPIO lines of the bit-banged SPI interface. */
  datatype Pin = SpiCs | SpiSdi | SpiScl

  /** The first argument of `display_send_mcu_cmd`. */
  datatype McuKind = SetBypass | McuData(dataType: Byte)

  /** One observable action on the panel interface. `Delay` is an `mdelay`. */
  datatype Event =
    | Gpio(pin: Pin, high: bool)
    | McuCmd(kind: McuKind, value: int)
    | DsiGeneric(bytes: seq<Byte>)
    | DsiDcs(bytes: seq<Byte>)
    | Delay(ms: nat)

  /** `if (ms) mdelay(ms)`: a delay only when it is non-zero. */
  function DelayOf(ms: nat): seq<Event>
  {
    if ms != 0 then [Delay(ms)] else []
  }

  /** The `mdelay` after a command, present only for a non-zero delay. */
  function DelayAfter(d: CmdDesc): (r: seq<Event>)
    ensures r == [] <==> d.header.delayMs == 0
    ensures r != [] ==> r == [Delay(d.header.delayMs)]
  {
    DelayOf(d.header.delayMs as nat)
  }

  // ---------------------------------------------------------------------------
  // 9-bit SPI words

  /** `1 << 8`, the bit that carries the command type. */
  const TYPE_BIT := 0x100

  /** The word after `value &= ~(1 << 8)` (type 0) or `value |= 1 << 8`. */
  function SpiWord(dataType: Byte, value: nat): nat
  {
    if dataType == 0 then
      if Bit(value, 8) then (BitBound(value, 8); value - TYPE_BIT) else value
    else
      if Bit(value, 8) then value else value + TYPE_BIT
  }

  /** The nine levels put on SDI, MSB first: bit 8 of the word down to bit 0. */
  function WireBits(w: nat): (r: seq<bool>)
    ensures |r| == 9
  {
    seq(9, k requires 0 <= k < 9 => Bit(w, 8 - k))
  }

  /** One SDI level clocked out: data, then SCL low, then SCL high. */
  function ClockOut(bits: seq<bool>): (r: seq<Event>)
    ensures |r| == 3 * |bits|
  {
    if bits == [] then []
    else ClockOut(bits[..|bits| - 1]) + [Gpio(SpiSdi, bits[|bits| - 1]), Gpio(SpiScl, false), Gpio(SpiScl, true)]
  }

  /** The GPIO trace of one `rockchip_panel_write_spi_cmds`: chip select low,
      nine clocked bits, chip select high. */
  function SpiFrame(dataType: Byte, value: nat): seq<Event>
  {
    [Gpio(SpiCs, false)] + ClockOut(WireBits(SpiWord(dataType, value))) + [Gpio(SpiCs, true)]
  }

  /** The i-th pass sends bit 8 of the word shifted left by i. */
  lemma {:induction false} PassBit(w: nat, i: nat)
    requires i < 9
    ensures Bit(w * Pow2(i), 8) == WireBits(w)[i]
    ensures 2 * (w * Pow2(i)) == w * Pow2(i + 1)
  {
    ShiftUp(w, i, 8 - i);
  }

  lemma {:induction false} ClockOutSnoc(bits: seq<bool>, i: nat)
    requires i < |bits|
    ensures ClockOut(bits[..i + 1])
         == ClockOut(bits[..i]) + [Gpio(SpiSdi, bits[i]), Gpio(SpiScl, false), Gpio(SpiScl, true)]
  {
    assert bits[..i + 1][..i] == bits[..i];
  }

  /** `rockchip_panel_write_spi_cmds`: sets or clears bit 8 by the type, then
      nine times drives SDI from bit 8, pulses SCL and shifts `value` left. */
  method WriteSpiCmds(dataType: Byte, value: nat) returns (trace: seq<Event>)
    ensures trace == SpiFrame(dataType, value)
  {
    trace := [Gpio(SpiCs, false)];
    var v: nat := value;
    if dataType == 0 {
      if Bit(v, 8) {
        BitBound(v, 8);
        v := v - TYPE_BIT;
      }
    } else {
      if !Bit(v, 8) {
        v := v + TYPE_BIT;
      }
    }
    ghost var w := v;
    for i := 0 to 9
      invariant v == w * Pow2(i)
      invariant trace == [Gpio(SpiCs, false)] + ClockOut(WireBits(w)[..i])
    {
      var bit := Bit(v, 8);
      PassBit(w, i);
      ClockOutSnoc(WireBits(w), i);
      trace := trace + [Gpio(SpiSdi, bit), Gpio(SpiScl, false), Gpio(SpiScl, true)];
      v := 2 * v;
    }
    assert WireBits(w)[..9] == WireBits(w);
    trace := trace + [Gpio(SpiCs, true)];
  }

  lemma {:induction false} ClockOutAt(bits: seq<bool>, k: nat)
    requires k < |bits|
    ensures ClockOut(bits)[3 * k] == Gpio(SpiSdi, bits[k])
    ensures ClockOut(bits)[3 * k + 1] == Gpio(SpiScl, false)
    ensures ClockOut(bits)[3 * k + 2] == Gpio(SpiScl, true)
  {
    if k < |bits| - 1 {
      ClockOutAt(bits[..|bits| - 1], k);
    }
  }

  /** The first wire bit is the type bit; the other eight are bits 7 to 0 of the value. */
  lemma {:induction false} WordBits(dataType: Byte, value: nat)
    ensures WireBits(SpiWord(dataType, value))[0] == (dataType != 0)
    ensures forall k | 1 <= k < 9 :: WireBits(SpiWord(dataType, value))[k] == Bit(value, 8 - k)
  {
    var w := SpiWord(dataType, value);
    assert Pow2(8) == TYPE_BIT;
    forall k | 1 <= k < 9
      ensures WireBits(w)[k] == Bit(value, 8 - k)
    {
      if w != value {
        if w > value {
          HighAddKeepsLow(value, 1, 8, 8 - k);
        } else {
          HighAddKeepsLow(w, 1, 8, 8 - k);
        }
      }
    }
    if w != value {
      if w > value {
        FlipBit(value, 8);
      } else {
        FlipBit(w, 8);
      }
    }
  }

  /** A frame is 29 GPIO writes: CS low, then for each of the nine bits the SDI
      level followed by an SCL low/high edge, then CS high. The first bit is the
      type bit (set iff the type is non-zero); bits 7 down to 0 of the value follow. */
  lemma {:induction false} SpiFrameShape(dataType: Byte, value: nat)
    ensures var f := SpiFrame(dataType, value);
            |f| == 29 && f[0] == Gpio(SpiCs, false) && f[28] == Gpio(SpiCs, true)
            && f[1] == Gpio(SpiSdi, dataType != 0)
            && (forall k | 1 <= k < 9 :: f[1 + 3 * k] == Gpio(SpiSdi, Bit(value, 8 - k)))
            && (forall k | 0 <= k < 9 :: f[2 + 3 * k] == Gpio(SpiScl, false) && f[3 + 3 * k] == Gpio(SpiScl, true))
  {
    var w := SpiWord(dataType, value);
    var f := SpiFrame(dataType, value);
    WordBits(dataType, value);
    forall k | 0 <= k < 9
      ensures f[1 + 3 * k] == Gpio(SpiSdi, WireBits(w)[k])
      ensures f[2 + 3 * k] == Gpio(SpiScl, false) && f[3 + 3 * k] == Gpio(SpiScl, true)
    {
      ClockOutAt(WireBits(w), k);
    }
  }

  /** Only the type and the low byte of the value reach the wire. */
  lemma {:induction false} SpiLowByteOnly(dataType: Byte, value: nat)
    ensures SpiFrame(dataType, value) == SpiFrame(dataType, value % 256)
  {
    WordBits(dataType, value);
    WordBits(dataType, value % 256);
    var b1 := WireBits(SpiWord(dataType, value));
    var b2 := WireBits(SpiWord(dataType, value % 256));
    assert Pow2(8) == 256;
    forall k | 1 <= k < 9 ensures b1[k] == b2[k] {
      HighAddKeepsLow(value % 256, value / 256, 8, 8 - k);
    }
    assert b1 == b2;
  }

  /** The value written for one descriptor: `p0 << 8 | p1` for a two-byte
      payload, otherwise `p0` (read even when the payload is empty). */
  function SpiValue(data: seq<Byte>, d: CmdDesc): nat
    requires d.payload < |data| && d.payload + d.header.payloadLength <= |data|
  {
    if d.header.payloadLength == 2 then data[d.payload] * 256 + data[d.payload + 1] as nat
    else data[d.payload]
  }

  /** For a two-byte payload the first byte never reaches the wire: the frame is
      the one for the second byte alone. */
  lemma {:induction false} SpiTwoBytePayload(data: seq<Byte>, d: CmdDesc)
    requires d.payload < |data| && d.payload + d.header.payloadLength <= |data|
    requires d.header.payloadLength == 2
    ensures SpiFrame(d.header.dataType, SpiValue(data, d)) == SpiFrame(d.header.dataType, data[d.payload + 1])
  {
    var v := SpiValue(data, d);
    assert v % 256 == data[d.payload + 1];
    SpiLowByteOnly(d.header.dataType, v);
  }
  /** The trace of `rockchip_panel_send_spi_cmds` for the descriptors `ds`. */
  function SpiTrace(data: seq<Byte>, ds: seq<CmdDesc>): seq<Event>
    requires Inside(data, 0, ds)
  {
    if ds == [] then []
    else
      var d := ds[|ds| - 1];
      SpiTrace(data, ds[..|ds| - 1]) + SpiFrame(d.header.dataType, SpiValue(data, d)) + DelayAfter(d)
  }

  /** `rockchip_panel_send_spi_cmds`: a null list is -EINVAL, otherwise one SPI
      word per command, each followed by its delay. */
  method SendSpiCmds(data: seq<Byte>, cmds: PanelCmdList?) returns (ret: int, trace: seq<Event>)
    requires cmds != null ==> cmds.Parsed(data)
    ensures cmds == null ==> ret == -EINVAL && trace == []
    ensures cmds != null ==> ret == 0 && trace == SpiTrace(data, Descriptors(data))
  {
    if cmds == null {
      return -EINVAL, [];
    }
    ghost var ds := Descriptors(data);
    trace := [];
    for i := 0 to cmds.cmdCnt
      invariant trace == SpiTrace(data, ds[..i])
    {
      var desc := cmds.cmds[i];
      assert ds[..i + 1][..i] == ds[..i];
      var frame := WriteSpiCmds(desc.header.dataType, SpiValue(data, desc));
      trace := trace + frame;
      if desc.header.delayMs != 0 {
        trace := trace + [Delay(desc.header.delayMs)];
      }
    }
    assert ds[..cmds.cmdCnt] == ds;
    return 0, trace;
  }

  // ---------------------------------------------------------------------------
  // MCU bus

  function McuCmds(data: seq<Byte>, ds: seq<CmdDesc>): seq<Event>
    requires Inside(data, 0, ds)
  {
    if ds == [] then []
    else
      var d := ds[|ds| - 1];
      McuCmds(data, ds[..|ds| - 1]) + [McuCmd(McuData(d.header.dataType), data[d.payload])] + DelayAfter(d)
  }

  /** The MCU trace: bypass on, one (type, payload[0]) command per descriptor,
      bypass off. */
  function McuTrace(data: seq<Byte>, ds: seq<CmdDesc>): seq<Event>
    requires Inside(data, 0, ds)
  {
    [McuCmd(SetBypass, 1)] + McuCmds(data, ds) + [McuCmd(SetBypass, 0)]
  }

  /** `rockchip_panel_send_mcu_cmds`. */
  method SendMcuCmds(data: seq<Byte>, cmds: PanelCmdList?) returns (ret: int, trace: seq<Event>)
    requires cmds != null ==> cmds.Parsed(data)
    ensures cmds == null ==> ret == -EINVAL && trace == []
    ensures cmds != null ==> ret == 0 && trace == McuTrace(data, Descriptors(data))
  {
    if cmds == null {
      return -EINVAL, [];
    }
    ghost var ds := Descriptors(data);
    trace := [McuCmd(SetBypass, 1)];
    for i := 0 to cmds.cmdCnt
      invariant trace == [McuCmd(SetBypass, 1)] + McuCmds(data, ds[..i])
    {
      var desc := cmds.cmds[i];
      assert ds[..i + 1][..i] == ds[..i];
      var value := data[desc.payload];
      trace := trace + [McuCmd(McuData(desc.header.dataType), value)];
      if desc.header.delayMs != 0 {
        trace := trace + [Delay(desc.header.delayMs)];
      }
    }
    assert ds[..cmds.cmdCnt] == ds;
    trace := trace + [McuCmd(SetBypass, 0)];
    return 0, trace;
  }

  /** A trace with its `mdelay`s dropped. */
  function NonDelay(es: seq<Event>): seq<Event>
  {
    if es == [] then []
    else NonDelay(es[..|es| - 1]) + (if es[|es| - 1].Delay? then [] else [es[|es| - 1]])
  }

  /** Dropping delays from a trace extended by one command and its delay keeps
      just that command. */
  lemma {:induction false} NonDelayStep(x: seq<Event>, c: Event, d: CmdDesc)
    requires !c.Delay?
    ensures NonDelay(x + [c] + DelayAfter(d)) == NonDelay(x) + [c]
  {
    var m := x + [c];
    assert m[..|m| - 1] == x;
    if d.header.delayMs != 0 {
      var md := m + [Delay(d.header.delayMs)];
      assert md[..|md| - 1] == m;
    } else {
      assert m + DelayAfter(d) == m;
    }
  }

  /** Each command yields exactly one MCU data command, in order: with the
      delays dropped, entry i is descriptor i's type and first payload byte. */
  lemma {:induction false} McuOnePerCommand(data: seq<Byte>, ds: seq<CmdDesc>)
    requires Inside(data, 0, ds)
    ensures |NonDelay(McuCmds(data, ds))| == |ds|
    ensures forall i | 0 <= i < |ds| ::
              NonDelay(McuCmds(data, ds))[i] == McuCmd(McuData(ds[i].header.dataType), data[ds[i].payload])
  {
    if ds != [] {
      var pre, d := ds[..|ds| - 1], ds[|ds| - 1];
      McuOnePerCommand(data, pre);
      NonDelayStep(McuCmds(data, pre), McuCmd(McuData(d.header.dataType), data[d.payload]), d);
    }
  }

  /** The commands sit between bypass-on and bypass-off, and between them the
      trace holds only data commands and delays. */
  lemma {:induction false} McuTraceShape(data: seq<Byte>, ds: seq<CmdDesc>)
    requires Inside(data, 0, ds)
    ensures forall e | e in McuCmds(data, ds) :: e.Delay? || (e.McuCmd? && e.kind.McuData?)
    ensures |McuTrace(data, ds)| >= 2 && McuTrace(data, ds)[0] == McuCmd(SetBypass, 1)
            && McuTrace(data, ds)[|McuTrace(data, ds)| - 1] == McuCmd(SetBypass, 0)
  {
    if ds != [] {
      McuTraceShape(data, ds[..|ds| - 1]);
    }
  }

  // ---------------------------------------------------------------------------
  // MIPI DSI

  const MIPI_DSI_GENERIC_SHORT_WRITE_0_PARAM: Byte := 0x03
  const MIPI_DSI_GENERIC_SHORT_WRITE_1_PARAM: Byte := 0x13
  const MIPI_DSI_GENERIC_SHORT_WRITE_2_PARAM: Byte := 0x23
  const MIPI_DSI_GENERIC_LONG_WRITE: Byte := 0x29
  const MIPI_DSI_DCS_SHORT_WRITE: Byte := 0x05
  const MIPI_DSI_DCS_SHORT_WRITE_PARAM: Byte := 0x15
  const MIPI_DSI_DCS_LONG_WRITE: Byte := 0x39

  predicate IsGeneric(t: Byte)
  {
    t == MIPI_DSI_GENERIC_SHORT_WRITE_0_PARAM || t == MIPI_DSI_GENERIC_SHORT_WRITE_1_PARAM
    || t == MIPI_DSI_GENERIC_SHORT_WRITE_2_PARAM || t == MIPI_DSI_GENERIC_LONG_WRITE
  }

  predicate IsDcs(t: Byte)
  {
    t == MIPI_DSI_DCS_SHORT_WRITE || t == MIPI_DSI_DCS_SHORT_WRITE_PARAM || t == MIPI_DSI_DCS_LONG_WRITE
  }

  /** The bus write for one descriptor, or None for an unsupported type. */
  function DsiWrite(data: seq<Byte>, d: CmdDesc): (r: Option<Event>)
    requires d.payload + d.header.payloadLength <= |data|
    ensures r.None? <==> !IsGeneric(d.header.dataType) && !IsDcs(d.header.dataType)
    ensures r.Some? ==> r.value.DsiGeneric? == IsGeneric(d.header.dataType)
  {
    var bytes := data[d.payload..d.payload + d.header.payloadLength];
    if IsGeneric(d.header.dataType) then Some(DsiGeneric(bytes))
    else if IsDcs(d.header.dataType) then Some(DsiDcs(bytes))
    else None
  }

  datatype DsiOutcome = DsiOutcome(ret: int, trace: seq<Event>)

  /** `rockchip_panel_send_dsi_cmds` over `ds`, where `results[i]` is what the bus
      returns for the i-th write: it stops at the first unsupported type
      (-EINVAL, nothing written) or at the first negative bus result (that error,
      after the write). */
  function DsiRun(data: seq<Byte>, ds: seq<CmdDesc>, results: seq<int>): DsiOutcome
    requires Inside(data, 0, ds) && |results| == |ds|
  {
    if ds == [] then DsiOutcome(0, [])
    else
      var n := |ds| - 1;
      DsiStep(data, DsiRun(data, ds[..n], results[..n]), ds[n], results[n])
  }

  /** One command of the loop after the outcome `prev` of the earlier ones, whose write returned `r`. */
  function DsiStep(data: seq<Byte>, prev: DsiOutcome, d: CmdDesc, r: int): DsiOutcome
    requires d.payload + d.header.payloadLength <= |data|
  {
    if prev.ret != 0 then prev
    else match DsiWrite(data, d)
      case None => DsiOutcome(-EINVAL, prev.trace)
      case Some(w) =>
        if r < 0 then DsiOutcome(r, prev.trace + [w])
        else DsiOutcome(0, prev.trace + [w] + DelayAfter(d))
  }

  /** The run over the first i + 1 commands is one step after the run over the first i. */
  lemma {:induction false} DsiRunPrefix(data: seq<Byte>, ds: seq<CmdDesc>, results: seq<int>, i: nat)
    requires Inside(data, 0, ds) && |results| == |ds| && i < |ds|
    ensures Inside(data, 0, ds[..i + 1]) && Inside(data, 0, ds[..i])
    ensures DsiRun(data, ds[..i + 1], results[..i + 1])
            == DsiStep(data, DsiRun(data, ds[..i], results[..i]), ds[i], results[i])
  {
    assert ds[..i + 1][..i] == ds[..i] && results[..i + 1][..i] == results[..i];
  }

  /** Command i goes through: its type is supported and its write succeeded. */
  predicate DsiOk(data: seq<Byte>, ds: seq<CmdDesc>, results: seq<int>, i: nat)
    requires Inside(data, 0, ds) && |results| == |ds| && i < |ds|
  {
    DsiWrite(data, ds[i]).Some? && results[i] >= 0
  }

  /** The run succeeds exactly when every command goes through. */
  lemma {:induction false} DsiSuccess(data: seq<Byte>, ds: seq<CmdDesc>, results: seq<int>)
    requires Inside(data, 0, ds) && |results| == |ds|
    ensures DsiRun(data, ds, results).ret == 0 <==> forall i | 0 <= i < |ds| :: DsiOk(data, ds, results, i)
  {
    if ds != [] {
      var n := |ds| - 1;
      DsiSuccess(data, ds[..n], results[..n]);
      forall i | 0 <= i < n ensures DsiOk(data, ds[..n], results[..n], i) == DsiOk(data, ds, results, i) {
        assert ds[..n][i] == ds[i] && results[..n][i] == results[i];
      }
      var all := forall i | 0 <= i < |ds| :: DsiOk(data, ds, results, i);
      var allPrev := forall i | 0 <= i < n :: DsiOk(data, ds, results, i);
      assert all <==> allPrev && DsiOk(data, ds, results, n);
    }
  }

  /** When command k is the first that does not go through, the run returns
      -EINVAL (unsupported type) or the bus error, having written exactly the
      commands before k, and k itself in the second case. */
  lemma {:induction false} DsiFailure(data: seq<Byte>, ds: seq<CmdDesc>, results: seq<int>, k: nat)
    requires Inside(data, 0, ds) && |results| == |ds| && k < |ds|
    requires forall i | 0 <= i < k :: DsiOk(data, ds, results, i)
    requires !DsiOk(data, ds, results, k)
    ensures var r := DsiRun(data, ds, results);
            var before := DsiRun(data, ds[..k], results[..k]).trace;
            match DsiWrite(data, ds[k])
            case None => r == DsiOutcome(-EINVAL, before)
            case Some(w) => r == DsiOutcome(results[k], before + [w])
  {
    var n := |ds| - 1;
    if k == n {
      DsiSuccess(data, ds[..n], results[..n]);
      forall i | 0 <= i < n ensures DsiOk(data, ds[..n], results[..n], i) {
        assert DsiOk(data, ds, results, i);
      }
    } else {
      assert ds[..n][..k] == ds[..k] && results[..n][..k] == results[..k];
      forall i | 0 <= i <= k ensures DsiOk(data, ds[..n], results[..n], i) == DsiOk(data, ds, results, i) {
        assert ds[..n][i] == ds[i] && results[..n][i] == results[i];
      }
      DsiFailure(data, ds[..n], results[..n], k);
      assert DsiRun(data, ds[..n], results[..n]).ret != 0;
    }
  }

  /** `rockchip_panel_send_dsi_cmds`. */
  method SendDsiCmds(data: seq<Byte>, cmds: PanelCmdList?, results: seq<int>) returns (ret: int, trace: seq<Event>)
    requires cmds != null ==> cmds.Parsed(data) && |results| == cmds.cmdCnt
    ensures cmds == null ==> ret == -EINVAL && trace == []
    ensures cmds != null ==> DsiOutcome(ret, trace) == DsiRun(data, Descriptors(data), results)
  {
    if cmds == null {
      return -EINVAL, [];
    }
    ghost var ds := Descriptors(data);
    var descs, cnt := cmds.cmds, cmds.cmdCnt;
    assert descs[..] == ds;
    trace := [];
    var i := 0;
    while i < cnt
      invariant 0 <= i <= cnt == |ds| == |results|
      invariant DsiRun(data, ds[..i], results[..i]) == DsiOutcome(0, trace)
    {
      var desc := descs[i];
      assert desc == ds[i];
      var dt := desc.header.dataType;
      var bytes := data[desc.payload..desc.payload + desc.header.payloadLength];
      DsiRunPrefix(data, ds, results, i);
      var w;
      if IsGeneric(dt) {
        w := DsiGeneric(bytes);
      } else if IsDcs(dt) {
        w := DsiDcs(bytes);
      } else {
        assert DsiStep(data, DsiOutcome(0, trace), desc, results[i]) == DsiOutcome(-EINVAL, trace);
        DsiStaysFailed(data, ds, results, i + 1);
        return -EINVAL, trace;
      }
      assert DsiWrite(data, desc) == Some(w);
      trace := trace + [w];
      var r := results[i];
      if r < 0 {
        assert DsiRun(data, ds[..i + 1], results[..i + 1]) == DsiOutcome(r, trace);
        DsiStaysFailed(data, ds, results, i + 1);
        return r, trace;
      }
      trace := trace + DelayAfter(desc);
      i := i + 1;
    }
    assert ds[..i] == ds && results[..i] == results;
    return 0, trace;
  }

  /** Once a prefix has failed, the later commands change nothing. */
  lemma {:induction false} DsiStaysFailed(data: seq<Byte>, ds: seq<CmdDesc>, results: seq<int>, j: nat)
    requires Inside(data, 0, ds) && |results| == |ds| && j <= |ds|
    requires DsiRun(data, ds[..j], results[..j]).ret != 0
    ensures DsiRun(data, ds, results) == DsiRun(data, ds[..j], results[..j])
    decreases |ds| - j
  {
    if j < |ds| {
      var n := |ds| - 1;
      assert ds[..n][..j] == ds[..j] && results[..n][..j] == results[..j];
      DsiStaysFailed(data, ds[..n], results[..n], j);
    } else {
      assert ds[..j] == ds && results[..j] == results;
    }
  }
}
