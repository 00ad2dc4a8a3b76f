/** The `hwrev` command (cmd/hwrev.c): one ADC read on channel 0 of the SAR-ADC,
    classified into a board revision, whose name and device-tree blobs are written
    into the environment as `hwrev`, `dtb_uboot` and `dtb_kernel`. */
module HwRev {

  import opened Wrappers

  const CMD_RET_SUCCESS := 0
  const CMD_RET_FAILURE := 1

  /** The three environment variables that a successful run sets. */
  const HWREV_VARS: set<string> := {"hwrev", "dtb_uboot", "dtb_kernel"}

  /** One board revision: the values written to the three variables. */
  datatype Board = Board(hwrev: string, dtbUboot: string, dtbKernel: string)

  const RG351MP := Board("rg351mp", "rg351mp-uboot.dtb", "rk3326-rg351mp-linux.dtb")
  const RG351V := Board("rg351v", "rg351v-uboot.dtb", "rk3326-rg351v-linux.dtb")
  const RG351P := Board("rg351p", "rg351p-uboot.dtb", "rk3326-rg351p-linux.dtb")
  /** The fallback revision keeps the RG351P blobs. */
  const V00 := Board("v00", "rg351p-uboot.dtb", "rk3326-rg351p-linux.dtb")

  /** The `check_range` macro on the unsigned ADC reading `val`. */
  predicate CheckRange(min: int, max: int, val: nat)
  {
    val > 0 && val > min && val < max
  }

  /** Both ends of a band are excluded, and for a non-negative lower end the
      `val > 0` conjunct adds nothing: the band is exactly the open interval. */
  lemma {:induction false} CheckRangeOpenInterval(min: nat, max: nat, val: nat)
    ensures CheckRange(min, max, val) <==> min < val < max
    ensures !CheckRange(min, max, min) && !CheckRange(min, max, max)
  {
  }

  /** The decision chain of `do_hwrev`. `forceRg351mp` is the condition of its first
      branch, which `do_hwrev` fixes to true (`if (1)`); with it false, the remaining
      band checks decide. */
  function Classify(forceRg351mp: bool, adc: nat): (b: Board)
    ensures b in {RG351MP, RG351V, RG351P, V00}
    ensures forceRg351mp ==> b == RG351MP
  {
    if forceRg351mp then RG351MP
    else if CheckRange(494, 534, adc) then RG351V
    else if CheckRange(655, 695, adc) then RG351P
    else V00
  }

  /** The branches behind `if (1)`: the two bands are disjoint, each selects its own
      board, and every reading outside both selects `v00` with the RG351P blobs. */
  lemma {:induction false} FallbackBands(adc: nat)
    ensures Classify(false, adc) == RG351V <==> 494 < adc < 534
    ensures Classify(false, adc) == RG351P <==> 655 < adc < 695
    ensures Classify(false, adc) == V00 <==> !(494 < adc < 534) && !(655 < adc < 695)
    ensures Classify(false, adc).dtbUboot == if 494 < adc < 534 then "rg351v-uboot.dtb" else "rg351p-uboot.dtb"
  {
  }

  /** The environment after setting the three variables to `b`. */
  function SetBoard(env: map<string, string>, b: Board): map<string, string>
  {
    env["hwrev" := b.hwrev]["dtb_uboot" := b.dtbUboot]["dtb_kernel" := b.dtbKernel]
  }

  datatype HwrevResult = HwrevResult(ret: int, env: map<string, string>)

  /** `do_hwrev`: `adc` is None when `adc_channel_single_shot` fails. */
  function DoHwrev(adc: Option<nat>, env: map<string, string>): (r: HwrevResult)
    ensures adc.None? ==> r.ret == CMD_RET_FAILURE && r.env == env
    ensures adc.Some? ==> r.ret == CMD_RET_SUCCESS
    ensures adc.Some? ==> r.env.Keys == env.Keys + HWREV_VARS
    ensures adc.Some? ==> r.env["hwrev"] == "rg351mp" && r.env["dtb_uboot"] == "rg351mp-uboot.dtb"
                          && r.env["dtb_kernel"] == "rk3326-rg351mp-linux.dtb"
    ensures forall k :: k in env && k !in HWREV_VARS ==> k in r.env && r.env[k] == env[k]
  {
    match adc
    case None => HwrevResult(CMD_RET_FAILURE, env)
    case Some(v) => HwrevResult(CMD_RET_SUCCESS, SetBoard(env, Classify(true, v)))
  }

  /** Whatever the ADC reads, a successful run reports the same board. */
  lemma {:induction false} HwrevIgnoresReading(v: nat, w: nat, env: map<string, string>)
    ensures DoHwrev(Some(v), env) == DoHwrev(Some(w), env)
  {
  }
}
