/** Panel command sequences (drivers/video/drm/rockchip_panel.c): the device-tree
    properties `panel-init-sequence` and `panel-exit-sequence` are byte streams of
    commands, each a 3-byte header `[data_type, delay_ms, payload_length]` followed
    by `payload_length` payload bytes. The parser splits such a stream into
    descriptors whose payload points back into the stream. */
module PanelCmds {

  import opened Wrappers
  import opened Bits

  const EINVAL := 22
  const ENOMEM := 12

  /** sizeof(struct rockchip_cmd_header) */
  const HEADER_SIZE := 3

  datatype CmdHeader = CmdHeader(dataType: Byte, delayMs: Byte, payloadLength: Byte)

  /** struct rockchip_cmd_desc; `payload` is the offset of the payload in the
      parsed buffer (`rockchip_panel_parse_cmds` keeps a pointer into that buffer). */
  datatype CmdDesc = CmdDesc(header: CmdHeader, payload: nat)

  /** The way commands reach the panel (`priv->cmd_type`). */
  datatype CmdType = Default | Spi | Mcu

  /** `get_panel_cmd_type`: `strncmp(s, "spi", 3) == 0` holds exactly when the
      string starts with "spi" (a shorter C string differs at its terminator). */
  function GetPanelCmdType(s: Option<string>): (r: Result<CmdType>)
    ensures s.None? <==> r == Err(-EINVAL)
    ensures r == Ok(Spi) <==> s.Some? && |s.value| >= 3 && s.value[..3] == "spi"
    ensures r == Ok(Mcu) <==> s.Some? && |s.value| >= 3 && s.value[..3] == "mcu"
    ensures r == Ok(Default) <==> s.Some? && !("spi" <= s.value) && !("mcu" <= s.value)
  {
    match s
    case None => Err(-EINVAL)
    case Some(str) =>
      if "spi" <= str then Ok(Spi)
      else if "mcu" <= str then Ok(Mcu)
      else Ok(Default)
  }

  // ---------------------------------------------------------------------------
  // The stream format

  /** Every header that the counting loop steps over, starting at `pos`, carries a
      payload that lies inside the buffer. (`rockchip_panel_parse_cmds` compares a signed remainder
      with an unsigned size, so a payload that overruns the buffer would keep the
      loop going past its end; such streams are outside this model.) */
  predicate FramedFrom(data: seq<Byte>, pos: nat)
    decreases |data| - pos
  {
    pos <= |data| &&
    (|data| - pos > HEADER_SIZE ==>
       pos + HEADER_SIZE + data[pos + 2] <= |data| &&
       FramedFrom(data, pos + HEADER_SIZE + data[pos + 2]))
  }

  predicate Framed(data: seq<Byte>)
  {
    FramedFrom(data, 0)
  }

  /** Every payload of `ds` starts at or after `lo` and ends inside `data`; its
      first byte, `payload[0]`, lies in `data` even when the payload is empty. */
  predicate Inside(data: seq<Byte>, lo: nat, ds: seq<CmdDesc>)
  {
    forall i | 0 <= i < |ds| ::
      lo <= ds[i].payload < |data| && ds[i].payload + ds[i].header.payloadLength <= |data|
  }

  /** The descriptors found from `pos` on: one per header stepped over while more
      than HEADER_SIZE bytes remain. */
  function ScanFrom(data: seq<Byte>, pos: nat): (r: seq<CmdDesc>)
    requires FramedFrom(data, pos)
    decreases |data| - pos
  {
    if |data| - pos <= HEADER_SIZE then []
    else
      var len := data[pos + 2];
      [CmdDesc(CmdHeader(data[pos], data[pos + 1], len), pos + HEADER_SIZE)]
        + ScanFrom(data, pos + HEADER_SIZE + len)
  }

  /** What `rockchip_panel_parse_cmds` stores in `pcmds->cmds`. */
  function Descriptors(data: seq<Byte>): (r: seq<CmdDesc>)
    requires Framed(data)
    ensures Inside(data, 0, r)
  {
    ScanInside(data, 0);
    ScanFrom(data, 0)
  }

  /** Every payload the scan finds from `pos` on lies inside the buffer, after
      the header at `pos`. */
  lemma {:induction false} ScanInside(data: seq<Byte>, pos: nat)
    requires FramedFrom(data, pos)
    ensures Inside(data, pos + HEADER_SIZE, ScanFrom(data, pos))
    ensures Inside(data, 0, ScanFrom(data, pos))
    decreases |data| - pos
  {
    if |data| - pos > HEADER_SIZE {
      var next := pos + HEADER_SIZE + data[pos + 2];
      ScanInside(data, next);
      var ds := ScanFrom(data, pos);
      assert ds[1..] == ScanFrom(data, next);
      forall i | 0 <= i < |ds|
        ensures pos + HEADER_SIZE <= ds[i].payload < |data|
        ensures ds[i].payload + ds[i].header.payloadLength <= |data|
      {
        if i > 0 {
          assert ds[i] == ScanFrom(data, next)[i - 1];
        }
      }
    }
  }

  /** Offset of the i-th header: the sum over the earlier commands of HEADER_SIZE
      plus their payload lengths. */
  function HeaderOffset(descs: seq<CmdDesc>, i: nat): nat
    requires i <= |descs|
  {
    if i == 0 then 0
    else HEADER_SIZE + descs[0].header.payloadLength + HeaderOffset(descs[1..], i - 1)
  }

  lemma {:induction false} ScanLayout(data: seq<Byte>, pos: nat, i: nat)
    requires FramedFrom(data, pos)
    requires i < |ScanFrom(data, pos)|
    ensures var ds := ScanFrom(data, pos);
            var h := pos + HeaderOffset(ds, i);
            h + HEADER_SIZE < |data| &&
            ds[i] == CmdDesc(CmdHeader(data[h], data[h + 1], data[h + 2]), h + HEADER_SIZE)
    decreases i
  {
    var ds := ScanFrom(data, pos);
    assert |data| - pos > HEADER_SIZE;
    ScanStep(data, pos);
    if i > 0 {
      var next := pos + HEADER_SIZE + data[pos + 2];
      ScanLayout(data, next, i - 1);
      assert ds[i] == ds[1..][i - 1];
    }
  }

  /** Descriptor i copies the three header bytes found at offset
      Σ_{j<i}(3 + len_j), and its payload starts 3 bytes after them, still inside
      the buffer (a header is only counted while more than 3 bytes remain). */
  lemma {:induction false} DescriptorLayout(data: seq<Byte>, i: nat)
    requires Framed(data)
    requires i < |Descriptors(data)|
    ensures var ds := Descriptors(data);
            var h := HeaderOffset(ds, i);
            h + HEADER_SIZE < |data|
            && ds[i].header == CmdHeader(data[h], data[h + 1], data[h + 2])
            && ds[i].payload == h + HEADER_SIZE
            && ds[i].payload + ds[i].header.payloadLength <= |data|
  {
    ScanLayout(data, 0, i);
    assert Descriptors(data)[i] in Descriptors(data);
  }

  lemma {:induction false} ScanRemainder(data: seq<Byte>, pos: nat)
    requires FramedFrom(data, pos)
    ensures var ds := ScanFrom(data, pos);
            pos + HeaderOffset(ds, |ds|) <= |data| <= pos + HeaderOffset(ds, |ds|) + HEADER_SIZE
    decreases |data| - pos
  {
    if |data| - pos > HEADER_SIZE {
      var len := data[pos + 2];
      var ds := ScanFrom(data, pos);
      assert ds[1..] == ScanFrom(data, pos + HEADER_SIZE + len);
      ScanRemainder(data, pos + HEADER_SIZE + len);
    }
  }

  /** The commands cover the stream except for a trailing remainder of at most
      HEADER_SIZE bytes, which is never counted (a final command with an empty
      payload is exactly such a remainder). */
  lemma {:induction false} TrailingRemainder(data: seq<Byte>)
    requires Framed(data)
    ensures var ds := Descriptors(data);
            HeaderOffset(ds, |ds|) <= |data| <= HeaderOffset(ds, |ds|) + HEADER_SIZE
  {
    ScanRemainder(data, 0);
  }

  // ---------------------------------------------------------------------------
  // Round trip with the encoder of the stream format

  /** One command as a device tree writes it. */
  datatype Cmd = Cmd(dataType: Byte, delayMs: Byte, payload: seq<Byte>)

  predicate Encodable(cmds: seq<Cmd>)
  {
    forall c | c in cmds :: |c.payload| < 256
  }

  /** One command: its 3-byte header, then its payload. */
  function EncodeOne(c: Cmd): (r: seq<Byte>)
    requires |c.payload| < 256
    ensures |r| == HEADER_SIZE + |c.payload|
  {
    [c.dataType, c.delayMs, |c.payload| as Byte] + c.payload
  }

  function Encode(cmds: seq<Cmd>): seq<Byte>
    requires Encodable(cmds)
  {
    if cmds == [] then []
    else EncodeOne(cmds[0]) + Encode(cmds[1..])
  }

  /** The command a descriptor stands for, its payload read from the buffer. */
  function CmdAt(data: seq<Byte>, d: CmdDesc): Cmd
    requires d.payload + d.header.payloadLength <= |data|
  {
    Cmd(d.header.dataType, d.header.delayMs, data[d.payload..d.payload + d.header.payloadLength])
  }

  function CmdsAt(data: seq<Byte>, ds: seq<CmdDesc>): seq<Cmd>
    requires Inside(data, 0, ds)
  {
    if ds == [] then [] else [CmdAt(data, ds[0])] + CmdsAt(data, ds[1..])
  }

  /** The commands the parser finds in a stream. */
  function Decode(data: seq<Byte>): seq<Cmd>
    requires Framed(data)
  {
    CmdsAt(data, Descriptors(data))
  }

  /** The descriptors of a stream that is found `k` bytes further on. */
  function Shift(ds: seq<CmdDesc>, k: nat): (r: seq<CmdDesc>)
    ensures |r| == |ds|
  {
    if ds == [] then [] else [ds[0].(payload := ds[0].payload + k)] + Shift(ds[1..], k)
  }

  lemma {:induction false} ShiftAt(ds: seq<CmdDesc>, k: nat, i: nat)
    requires i < |ds|
    ensures Shift(ds, k)[i] == ds[i].(payload := ds[i].payload + k)
  {
    if i > 0 {
      ShiftAt(ds[1..], k, i - 1);
    }
  }

  lemma {:induction false} ShiftInside(p: seq<Byte>, q: seq<Byte>, lo: nat, ds: seq<CmdDesc>)
    requires Inside(q, lo, ds)
    ensures Inside(p + q, lo + |p|, Shift(ds, |p|))
  {
    forall i | 0 <= i < |ds|
      ensures lo + |p| <= Shift(ds, |p|)[i].payload < |p + q|
      ensures Shift(ds, |p|)[i].payload + Shift(ds, |p|)[i].header.payloadLength <= |p + q|
    {
      ShiftAt(ds, |p|, i);
    }
  }

  lemma {:induction false} ScanShift(p: seq<Byte>, q: seq<Byte>, k: nat)
    requires FramedFrom(q, k)
    ensures FramedFrom(p + q, |p| + k)
    ensures ScanFrom(p + q, |p| + k) == Shift(ScanFrom(q, k), |p|)
    decreases |q| - k
  {
    var pq := p + q;
    if |q| - k > HEADER_SIZE {
      var len := q[k + 2];
      assert pq[|p| + k] == q[k] && pq[|p| + k + 1] == q[k + 1] && pq[|p| + k + 2] == len;
      ScanShift(p, q, k + HEADER_SIZE + len);
      assert FramedFrom(pq, |p| + k);
      ScanStep(q, k);
      ScanStep(pq, |p| + k);
      var r := ScanFrom(q, k);
      var s := ScanFrom(pq, |p| + k);
      ShiftCons(r, |p|);
      assert s == [s[0]] + s[1..];
    }
  }

  lemma {:induction false} ShiftCons(ds: seq<CmdDesc>, k: nat)
    requires ds != []
    ensures Shift(ds, k) == [ds[0].(payload := ds[0].payload + k)] + Shift(ds[1..], k)
  {
  }

  lemma {:induction false} CmdsAtShift(p: seq<Byte>, q: seq<Byte>, ds: seq<CmdDesc>)
    requires Inside(q, 0, ds)
    ensures Inside(p + q, 0, Shift(ds, |p|))
    ensures CmdsAt(p + q, Shift(ds, |p|)) == CmdsAt(q, ds)
  {
    ShiftInside(p, q, 0, ds);
    if ds != [] {
      var d := ds[0];
      var pq := p + q;
      var len := d.header.payloadLength;
      assert pq[|p| + d.payload..|p| + d.payload + len] == q[d.payload..d.payload + len];
      var sh := Shift(ds, |p|);
      assert sh == [d.(payload := d.payload + |p|)] + Shift(ds[1..], |p|);
      assert sh[1..] == Shift(ds[1..], |p|);
      assert Inside(q, 0, ds[1..]) by {
        forall i | 0 <= i < |ds[1..]|
          ensures ds[1..][i].payload + ds[1..][i].header.payloadLength <= |q|
        {
          assert ds[1..][i] == ds[i + 1];
        }
      }
      CmdsAtShift(p, q, ds[1..]);
      assert CmdAt(pq, sh[0]) == CmdAt(q, d);
    }
  }

  lemma {:induction false} EncodableTail(cmds: seq<Cmd>)
    requires Encodable(cmds) && cmds != []
    ensures |cmds[0].payload| < 256 && Encodable(cmds[1..])
  {
    assert cmds[0] in cmds;
    forall x | x in cmds[1..] ensures |x.payload| < 256 {
      assert x in cmds;
    }
  }

  /** The descriptors of a stream that starts with a header whose payload
      fills the rest of `head`, followed by a framed stream `e`. */
  lemma {:induction false} ScanPrefix(head: seq<Byte>, e: seq<Byte>)
    requires |head| >= HEADER_SIZE && head[2] == |head| - HEADER_SIZE
    requires Framed(e) && |head| + |e| > HEADER_SIZE
    ensures FramedFrom(head + e, 0)
    ensures ScanFrom(head + e, 0) == [CmdDesc(CmdHeader(head[0], head[1], head[2]), HEADER_SIZE)]
                                     + Shift(ScanFrom(e, 0), |head|)
  {
    var whole := head + e;
    ScanShift(head, e, 0);
    assert whole[0] == head[0] && whole[1] == head[1] && whole[2] == head[2];
    FramedStep(whole, 0);
    ScanStep(whole, 0);
    var all := ScanFrom(whole, 0);
    assert all == [all[0]] + all[1..];
  }

  /** The parser's descriptors of a stream that starts with one encoded
      command: that command's, then those of the rest moved along. */
  lemma {:induction false} ScanCons(c: Cmd, e: seq<Byte>)
    requires |c.payload| < 256 && Framed(e)
    requires |c.payload| > 0 || |e| > 0
    ensures var whole := EncodeOne(c) + e;
            Framed(whole) &&
            ScanFrom(whole, 0) == [CmdDesc(CmdHeader(c.dataType, c.delayMs, |c.payload| as Byte), HEADER_SIZE)]
                                  + Shift(ScanFrom(e, 0), |EncodeOne(c)|)
  {
    var head := EncodeOne(c);
    assert head[0] == c.dataType && head[1] == c.delayMs && head[2] == |c.payload|;
    ScanPrefix(head, e);
  }

  /** Decoding a stream that starts with one encoded command. */
  lemma {:induction false} DecodeCons(c: Cmd, e: seq<Byte>)
    requires |c.payload| < 256 && Framed(e)
    requires |c.payload| > 0 || |e| > 0
    ensures var whole := EncodeOne(c) + e;
            Framed(whole) && Decode(whole) == [c] + Decode(e)
  {
    var head := EncodeOne(c);
    var whole := head + e;
    ScanCons(c, e);
    ScanInside(e, 0);
    ScanInside(whole, 0);
    var rest := ScanFrom(e, 0);
    var all := ScanFrom(whole, 0);
    var d := all[0];
    assert all[1..] == Shift(rest, |head|);
    CmdsAtShift(head, e, rest);
    assert whole[HEADER_SIZE..HEADER_SIZE + |c.payload|] == c.payload;
    assert CmdAt(whole, d) == c;
  }

  /** Parsing an encoded command list gives the list back, except that a final
      command with an empty payload is a 3-byte remainder and is dropped. */
  lemma {:induction false} DecodeEncode(cmds: seq<Cmd>)
    requires Encodable(cmds)
    ensures Framed(Encode(cmds))
    ensures Decode(Encode(cmds))
         == if cmds != [] && cmds[|cmds| - 1].payload == [] then cmds[..|cmds| - 1] else cmds
  {
    if cmds != [] {
      var c, cs := cmds[0], cmds[1..];
      EncodableTail(cmds);
      var e := Encode(cs);
      DecodeEncode(cs);
      var whole := EncodeOne(c) + e;
      assert Encode(cmds) == whole;
      if cs == [] {
        assert e == [];
        if c.payload == [] {
          assert |whole| == HEADER_SIZE;
        } else {
          DecodeCons(c, e);
          assert Decode(e) == [];
        }
      } else {
        assert |e| > 0;
        DecodeCons(c, e);
        assert cs[|cs| - 1] == cmds[|cmds| - 1];
        assert [c] + cs[..|cs| - 1] == cmds[..|cmds| - 1];
      }
    }
  }

  lemma {:induction false} EncodeScan(data: seq<Byte>, pos: nat)
    requires FramedFrom(data, pos)
    ensures var ds := ScanFrom(data, pos);
            Inside(data, 0, ds) && Encodable(CmdsAt(data, ds)) &&
            pos + HeaderOffset(ds, |ds|) <= |data| &&
            Encode(CmdsAt(data, ds)) == data[pos..pos + HeaderOffset(ds, |ds|)]
    decreases |data| - pos
  {
    var ds := ScanFrom(data, pos);
    ScanInside(data, pos);
    if |data| - pos > HEADER_SIZE {
      var next := pos + HEADER_SIZE + data[pos + 2];
      var rest := ScanFrom(data, next);
      ScanStep(data, pos);
      EncodeScan(data, next);
      var c := CmdAt(data, ds[0]);
      var tail := CmdsAt(data, rest);
      assert CmdsAt(data, ds) == [c] + tail;
      var end := next + HeaderOffset(rest, |rest|);
      assert end == pos + HeaderOffset(ds, |ds|);
      assert c == Cmd(data[pos], data[pos + 1], data[pos + HEADER_SIZE..next]);
      EncodeHead(data, pos, end);
      EncodeCons(c, tail);
      assert Encode(CmdsAt(data, ds)) == EncodeOne(c) + data[next..end];
    }
  }

  /** A header followed by its payload and a framed rest is framed. */
  lemma {:induction false} FramedStep(data: seq<Byte>, pos: nat)
    requires |data| - pos > HEADER_SIZE && pos + HEADER_SIZE + data[pos + 2] <= |data|
    requires FramedFrom(data, pos + HEADER_SIZE + data[pos + 2])
    ensures FramedFrom(data, pos)
  {
  }

  /** One step of the scan: the descriptor of the header at `pos`, then those
      found after its payload. */
  lemma {:induction false} ScanStep(data: seq<Byte>, pos: nat)
    requires FramedFrom(data, pos) && |data| - pos > HEADER_SIZE
    ensures var ds := ScanFrom(data, pos);
            var next := pos + HEADER_SIZE + data[pos + 2];
            FramedFrom(data, next) && |ds| > 0 &&
            ds[0] == CmdDesc(CmdHeader(data[pos], data[pos + 1], data[pos + 2]), pos + HEADER_SIZE) &&
            ds[1..] == ScanFrom(data, next) &&
            HeaderOffset(ds, |ds|) == next - pos + HeaderOffset(ds[1..], |ds| - 1)
  {
    var ds := ScanFrom(data, pos);
    assert ds[1..] == ScanFrom(data, pos + HEADER_SIZE + data[pos + 2]);
  }

  /** The bytes from a header on are that header's command, then what follows it. */
  lemma {:induction false} EncodeHead(data: seq<Byte>, pos: nat, end: nat)
    requires pos + HEADER_SIZE <= |data| && pos + HEADER_SIZE + data[pos + 2] <= end <= |data|
    ensures var next := pos + HEADER_SIZE + data[pos + 2];
            data[pos..end] == EncodeOne(Cmd(data[pos], data[pos + 1], data[pos + HEADER_SIZE..next])) + data[next..end]
  {
    var next := pos + HEADER_SIZE + data[pos + 2];
    assert data[pos..end] == data[pos..pos + HEADER_SIZE] + data[pos + HEADER_SIZE..next] + data[next..end];
  }

  /** Encoding a list that starts with `c`. */
  lemma {:induction false} EncodeCons(c: Cmd, tail: seq<Cmd>)
    requires |c.payload| < 256 && Encodable(tail)
    ensures Encodable([c] + tail) && Encode([c] + tail) == EncodeOne(c) + Encode(tail)
  {
    assert ([c] + tail)[1..] == tail;
    forall x | x in [c] + tail ensures |x.payload| < 256 {
      if x != c { assert x in tail; }
    }
  }

  /** Re-encoding what the parser found reproduces the stream up to its trailing
      remainder. */
  lemma {:induction false} EncodeDecode(data: seq<Byte>)
    requires Framed(data)
    ensures Encodable(Decode(data))
    ensures var ds := Descriptors(data);
            HeaderOffset(ds, |ds|) <= |data| && Encode(Decode(data)) == data[..HeaderOffset(ds, |ds|)]
  {
    EncodeScan(data, 0);
  }

  // ---------------------------------------------------------------------------
  // The parser itself

  /** struct rockchip_panel_cmds: `cmds` is null after a failed allocation. */
  class PanelCmdList {
    var cmds: array?<CmdDesc>
    var cmdCnt: int

    constructor ()
      ensures cmds == null && cmdCnt == 0
    {
      cmds := null;
      cmdCnt := 0;
    }

    /** The list holds exactly the descriptors of `data`. */
    predicate Parsed(data: seq<Byte>)
      reads this, cmds
    {
      Framed(data) && cmds != null && cmds[..] == Descriptors(data) && cmdCnt == cmds.Length
    }
  }

  /** The counting pass of `rockchip_panel_parse_cmds`. */
  method CountCmds(data: seq<Byte>) returns (cnt: nat)
    requires Framed(data)
    ensures cnt == |Descriptors(data)|
  {
    var pos: nat := 0;
    var len := |data|;
    cnt := 0;
    while len > HEADER_SIZE
      invariant pos <= |data| && len == |data| - pos
      invariant FramedFrom(data, pos)
      invariant cnt + |ScanFrom(data, pos)| == |Descriptors(data)|
      decreases len
    {
      var plen := data[pos + 2];
      pos := pos + HEADER_SIZE + plen;
      len := len - (HEADER_SIZE + plen);
      cnt := cnt + 1;
    }
  }

  /** `rockchip_panel_parse_cmds`: count, allocate (`allocOk` is whether `calloc`
      succeeds), then fill one descriptor per command. */
  method ParseCmds(data: seq<Byte>, pcmds: PanelCmdList, allocOk: bool) returns (ret: int)
    requires Framed(data)
    modifies pcmds
    ensures ret == 0 || ret == -ENOMEM
    ensures ret == -ENOMEM <==> !allocOk
    ensures !allocOk ==> pcmds.cmds == null && pcmds.cmdCnt == old(pcmds.cmdCnt)
    ensures allocOk ==> pcmds.cmds != null && fresh(pcmds.cmds)
                        && pcmds.cmds[..] == Descriptors(data)
                        && pcmds.cmdCnt == |Descriptors(data)|
    ensures ret == 0 ==> pcmds.Parsed(data)
  {
    var cnt := CountCmds(data);
    if !allocOk {
      pcmds.cmds := null;
      return -ENOMEM;
    }
    var a := new CmdDesc[cnt];
    pcmds.cmds := a;
    pcmds.cmdCnt := cnt;
    ghost var ds := Descriptors(data);
    var pos: nat := 0;
    for i := 0 to cnt
      invariant pos <= |data| && FramedFrom(data, pos)
      invariant ScanFrom(data, pos) == ds[i..]
      invariant a[..i] == ds[..i]
      invariant pcmds.cmds == a && pcmds.cmdCnt == cnt
    {
      var len := data[pos + 2];
      a[i] := CmdDesc(CmdHeader(data[pos], data[pos + 1], len), pos + HEADER_SIZE);
      assert ds[i..][1..] == ds[i + 1..];
      pos := pos + HEADER_SIZE + len;
    }
    assert a[..] == a[..cnt];
    return 0;
  }
}
