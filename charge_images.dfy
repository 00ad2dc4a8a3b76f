/** The charge images of drivers/power/charge_animation.c: the per-build image
    table, the index macros, and the scan that picks the first frame for a
    state of charge. */
module ChargeImages {

  import opened ChargeConfig

  /** struct charge_image: a bitmap, the lowest state of charge (percent) it
      stands for, and how long it stays on screen (ms). */
  datatype ChargeImage = ChargeImage(name: string, soc: int, period: nat)

  const GOADV_IMAGES: seq<ChargeImage> := [
    ChargeImage("battery_0.bmp", 5, 800),
    ChargeImage("battery_1.bmp", 60, 800),
    ChargeImage("battery_2.bmp", 80, 800),
    ChargeImage("battery_3.bmp", 100, 800),
    ChargeImage("battery_fail.bmp", -1, 1000)]

  const GENERIC_IMAGES: seq<ChargeImage> := [
    ChargeImage("battery_0.bmp", 5, 600),
    ChargeImage("battery_1.bmp", 20, 600),
    ChargeImage("battery_2.bmp", 40, 600),
    ChargeImage("battery_3.bmp", 60, 600),
    ChargeImage("battery_4.bmp", 80, 600),
    ChargeImage("battery_5.bmp", 100, 600),
    ChargeImage("battery_fail.bmp", -1, 1000)]

  /** The `image[]` table of a build. */
  function Images(platform: Platform): seq<ChargeImage>
  {
    if platform == GoAdvance then GOADV_IMAGES else GENERIC_IMAGES
  }

  /** IMAGE_RESET_IDX: no frame chosen yet. */
  const IMAGE_RESET_IDX := -1

  /** IMAGE_SOC_100_IDX(n): the full-battery frame. */
  function Soc100Idx(n: int): int { n - 2 }

  /** IMAGE_LOWPOWER_IDX(n): the failure frame. */
  function LowpowerIdx(n: int): int { n - 1 }

  /** The shape the driver expects of a table: at least one charge level
      below full, thresholds strictly rising up to 100 at the full frame, and
      the failure frame (soc -1) last. */
  predicate TableOk(image: seq<ChargeImage>)
  {
    |image| >= 3 &&
    image[LowpowerIdx(|image|)].soc == -1 &&
    image[Soc100Idx(|image|)].soc == 100 &&
    0 <= image[0].soc &&
    forall i, j | 0 <= i < j <= Soc100Idx(|image|) :: image[i].soc < image[j].soc
  }

  /** Both built-in tables have that shape. */
  lemma {:induction false} BuiltInTablesOk(platform: Platform)
    ensures TableOk(Images(platform))
    ensures |Images(platform)| == if platform == GoAdvance then 5 else 7
  {
  }

  /** The frame scan from position `i` on, with `prev` the start index kept
      when nothing matches. */
  function ScanFrom(image: seq<ChargeImage>, soc: int, i: nat, prev: int): int
    decreases |image| - i
  {
    if i >= Soc100Idx(|image|) then prev
    else if image[i].soc <= soc < image[i + 1].soc then i
    else if soc >= 100 then Soc100Idx(|image|)
    else ScanFrom(image, soc, i + 1, prev)
  }

  /** The start index the scan leaves for state of charge `soc`. */
  function StartIdx(image: seq<ChargeImage>, soc: int, prev: int): (r: int)
    ensures r == prev || 0 <= r <= Soc100Idx(|image|)
  {
    ScanRange(image, soc, 0, prev);
    ScanFrom(image, soc, 0, prev)
  }

  /** A scan either keeps `prev` or picks a frame from `i` up to the full frame. */
  lemma {:induction false} ScanRange(image: seq<ChargeImage>, soc: int, i: nat, prev: int)
    ensures var r := ScanFrom(image, soc, i, prev);
            r == prev || i <= r <= Soc100Idx(|image|)
    decreases |image| - i
  {
    if i >= Soc100Idx(|image|) {
    } else if image[i].soc <= soc < image[i + 1].soc {
    } else if soc >= 100 {
    } else {
      ScanRange(image, soc, i + 1, prev);
    }
  }

  /** The `for` loop with `break` that recomputes `start_idx`. */
  method ScanStartIdx(image: seq<ChargeImage>, soc: int, startIdx: int) returns (idx: int)
    ensures idx == StartIdx(image, soc, startIdx)
  {
    idx := startIdx;
    var i := 0;
    while i < Soc100Idx(|image|)
      invariant 0 <= i
      invariant idx == startIdx
      invariant ScanFrom(image, soc, i, startIdx) == StartIdx(image, soc, startIdx)
      decreases |image| - i
    {
      if image[i].soc <= soc && soc < image[i + 1].soc {
        idx := i;
        break;
      }
      if soc >= 100 {
        idx := Soc100Idx(|image|);
        break;
      }
      i := i + 1;
    }
  }

  /** Scanning from `j` up to a matching interval `i`: every earlier interval
      lies below `soc`, and `soc` is below 100, so the scan reaches `i`. */
  lemma {:induction false} ScanReaches(image: seq<ChargeImage>, soc: int, j: nat, i: nat, prev: int)
    requires TableOk(image)
    requires j <= i < Soc100Idx(|image|)
    requires image[i].soc <= soc < image[i + 1].soc
    ensures ScanFrom(image, soc, j, prev) == i
    decreases i - j
  {
    if j < i {
      assert image[j + 1].soc <= image[i].soc;
      assert image[i + 1].soc <= image[Soc100Idx(|image|)].soc;
      ScanReaches(image, soc, j + 1, i, prev);
    }
  }

  /** A state of charge inside the interval of frame `i` selects frame `i`. */
  lemma {:induction false} ScanInterval(image: seq<ChargeImage>, soc: int, i: nat, prev: int)
    requires TableOk(image)
    requires i < Soc100Idx(|image|)
    requires image[i].soc <= soc < image[i + 1].soc
    ensures StartIdx(image, soc, prev) == i
  {
    ScanReaches(image, soc, 0, i, prev);
  }

  /** A full (or over-full) battery selects the full frame. */
  lemma {:induction false} ScanFull(image: seq<ChargeImage>, soc: int, prev: int)
    requires TableOk(image)
    requires soc >= 100
    ensures StartIdx(image, soc, prev) == Soc100Idx(|image|)
  {
    assert image[1].soc <= image[Soc100Idx(|image|)].soc;
  }

  /** Scanning from `j` with `soc` below every threshold matches nothing. */
  lemma {:induction false} ScanMisses(image: seq<ChargeImage>, soc: int, j: nat, prev: int)
    requires TableOk(image)
    requires soc < image[0].soc
    ensures ScanFrom(image, soc, j, prev) == prev
    decreases |image| - j
  {
    if j < Soc100Idx(|image|) {
      assert image[0].soc <= image[j].soc;
      ScanMisses(image, soc, j + 1, prev);
    }
  }

  /** Below the first threshold the previous start index is kept. */
  lemma {:induction false} ScanBelow(image: seq<ChargeImage>, soc: int, prev: int)
    requires TableOk(image)
    requires soc < image[0].soc
    ensures StartIdx(image, soc, prev) == prev
  {
    ScanMisses(image, soc, 0, prev);
  }

  /** The failure frame is never chosen by the scan: it can only be the
      result when it already was the previous start index. */
  lemma {:induction false} ScanNeverFailureFrame(image: seq<ChargeImage>, soc: int, prev: int)
    requires prev != LowpowerIdx(|image|)
    ensures StartIdx(image, soc, prev) != LowpowerIdx(|image|)
  {
  }

  /** The generic table at its boundaries. */
  lemma {:induction false} GenericTableScan(prev: int)
    ensures StartIdx(GENERIC_IMAGES, 4, prev) == prev
    ensures StartIdx(GENERIC_IMAGES, 19, prev) == 0
    ensures StartIdx(GENERIC_IMAGES, 20, prev) == 1
    ensures StartIdx(GENERIC_IMAGES, 99, prev) == 4
    ensures StartIdx(GENERIC_IMAGES, 100, prev) == 5
  {
    BuiltInTablesOk(Generic);
    ScanBelow(GENERIC_IMAGES, 4, prev);
    ScanInterval(GENERIC_IMAGES, 19, 0, prev);
    ScanInterval(GENERIC_IMAGES, 20, 1, prev);
    ScanInterval(GENERIC_IMAGES, 99, 4, prev);
    ScanFull(GENERIC_IMAGES, 100, prev);
  }

  /** The GO Advance table at its boundaries. */
  lemma {:induction false} GoAdvanceTableScan(prev: int)
    ensures StartIdx(GOADV_IMAGES, 4, prev) == prev
    ensures StartIdx(GOADV_IMAGES, 59, prev) == 0
    ensures StartIdx(GOADV_IMAGES, 60, prev) == 1
    ensures StartIdx(GOADV_IMAGES, 99, prev) == 2
    ensures StartIdx(GOADV_IMAGES, 100, prev) == 3
  {
    BuiltInTablesOk(GoAdvance);
    ScanBelow(GOADV_IMAGES, 4, prev);
    ScanInterval(GOADV_IMAGES, 59, 0, prev);
    ScanInterval(GOADV_IMAGES, 60, 1, prev);
    ScanInterval(GOADV_IMAGES, 99, 2, prev);
    ScanFull(GOADV_IMAGES, 100, prev);
  }
}
