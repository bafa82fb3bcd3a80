/**
 * The coordinate and buffer helpers of components/display_manage/display_app.c:
 * the LVGL rounder callback, the rotation table of the update callback, the delay
 * clamp of the LVGL task, and the in-place 32-bit to 24-bit packing of the flush
 * callback (built when LCD_BIT_PER_PIXEL is 24).
 *
 * Area coordinates are taken as the `uint16_t` values the rounder reads.  LVGL's
 * 32-bit colour is stored blue, green, red, alpha, one byte each.
 */
module DisplayApp {
  import opened EspCommon

  newtype u16 = x: int | 0 <= x < 0x1_0000

  /** Largest value of the C `int` in which the flush callback multiplies. */
  const INT_MAX: int := 0x7fff_ffff

  const LVGL_TASK_MAX_DELAY_MS: nat := 500
  const LVGL_TASK_MIN_DELAY_MS: nat := 1

  /** Offsets of the channels inside one 4-byte LVGL colour. */
  const BLUE: nat := 0
  const GREEN: nat := 1
  const RED: nat := 2

  /** `lv_area_t`, corners included. */
  datatype Area = Area(x1: u16, y1: u16, x2: u16, y2: u16)

  predicate WellFormed(a: Area) {
    a.x1 <= a.x2 && a.y1 <= a.y2
  }

  predicate Contains(outer: Area, inner: Area) {
    outer.x1 <= inner.x1 && inner.x2 <= outer.x2 && outer.y1 <= inner.y1 && inner.y2 <= outer.y2
  }

  // ---------------------------------------------------------------------------
  // The rounder

  /** `(v >> 1) << 1`. */
  function RoundDown(v: u16): (r: u16)
    ensures r % 2 == 0 && r <= v && v - r <= 1
  {
    (v / 2 * 2) as u16
  }

  /** `((v >> 1) << 1) + 1`. */
  function RoundUp(v: u16): (r: u16)
    ensures r % 2 == 1 && v <= r && r - v <= 1
  {
    (v / 2 * 2 + 1) as u16
  }

  /** `example_lvgl_rounder_cb`: start corners down to even, end corners up to
      odd.  The rounded area covers the original, moves each edge by at most one
      pixel, and has an even width and height. */
  function Rounder(a: Area): (r: Area)
    ensures r.x1 % 2 == 0 && r.y1 % 2 == 0 && r.x2 % 2 == 1 && r.y2 % 2 == 1
    ensures a.x1 as int - 1 <= r.x1 as int <= a.x1 as int && a.y1 as int - 1 <= r.y1 as int <= a.y1 as int
    ensures a.x2 as int <= r.x2 as int <= a.x2 as int + 1 && a.y2 as int <= r.y2 as int <= a.y2 as int + 1
    ensures WellFormed(a) ==> WellFormed(r) && Contains(r, a) &&
                              (r.x2 as int - r.x1 as int + 1) % 2 == 0 &&
                              (r.y2 as int - r.y1 as int + 1) % 2 == 0
  {
    Area(RoundDown(a.x1), RoundDown(a.y1), RoundUp(a.x2), RoundUp(a.y2))
  }

  /** Rounding an area twice gives the area rounded once. */
  lemma RounderIdempotent(a: Area)
    ensures Rounder(Rounder(a)) == Rounder(a)
  {
  }

  /** Any aligned area containing the original contains the rounded one: the
      rounder returns the smallest aligned cover. */
  lemma RounderSmallest(a: Area, b: Area)
    requires b.x1 % 2 == 0 && b.y1 % 2 == 0 && b.x2 % 2 == 1 && b.y2 % 2 == 1
    requires Contains(b, a)
    ensures Contains(b, Rounder(a))
  {
  }

  // ---------------------------------------------------------------------------
  // The update callback

  datatype Rotation = RotNone | Rot90 | Rot180 | Rot270

  /** What `example_lvgl_update_cb` hands `esp_lcd_panel_swap_xy` and `esp_lcd_panel_mirror`. */
  datatype Orientation = Orientation(swapXY: bool, mirrorX: bool, mirrorY: bool)

  function PanelOrientation(rot: Rotation): Orientation {
    match rot
    case RotNone => Orientation(false, true, false)
    case Rot90 => Orientation(true, true, true)
    case Rot180 => Orientation(false, false, true)
    case Rot270 => Orientation(true, false, false)
  }

  function Turn180(rot: Rotation): Rotation {
    match rot
    case RotNone => Rot180
    case Rot90 => Rot270
    case Rot180 => RotNone
    case Rot270 => Rot90
  }

  /** The axes are swapped exactly for the quarter turns. */
  lemma SwapOnQuarterTurns(rot: Rotation)
    ensures PanelOrientation(rot).swapXY <==> rot == Rot90 || rot == Rot270
  {
  }

  /** The table is consistent with geometry: turning a further 180 degrees keeps
      the swap and flips both mirrors. */
  lemma HalfTurnFlipsBothMirrors(rot: Rotation)
    ensures var o, t := PanelOrientation(rot), PanelOrientation(Turn180(rot));
            t.swapXY == o.swapXY && t.mirrorX == !o.mirrorX && t.mirrorY == !o.mirrorY
  {
  }

  /** Different rotations give different panel settings. */
  lemma OrientationsDistinct(r1: Rotation, r2: Rotation)
    requires r1 != r2
    ensures PanelOrientation(r1) != PanelOrientation(r2)
  {
  }

  // ---------------------------------------------------------------------------
  // The LVGL task delay

  /** The clamp applied in `example_lvgl_port_task` to what `lv_timer_handler` returns. */
  function ClampDelay(d: nat): (r: nat)
    ensures LVGL_TASK_MIN_DELAY_MS <= r <= LVGL_TASK_MAX_DELAY_MS
    ensures LVGL_TASK_MIN_DELAY_MS <= d <= LVGL_TASK_MAX_DELAY_MS ==> r == d
    ensures d > LVGL_TASK_MAX_DELAY_MS ==> r == LVGL_TASK_MAX_DELAY_MS
    ensures d < LVGL_TASK_MIN_DELAY_MS ==> r == LVGL_TASK_MIN_DELAY_MS
  {
    if d > LVGL_TASK_MAX_DELAY_MS then LVGL_TASK_MAX_DELAY_MS
    else if d < LVGL_TASK_MIN_DELAY_MS then LVGL_TASK_MIN_DELAY_MS
    else d
  }

  lemma ClampDelayIdempotent(d: nat)
    ensures ClampDelay(ClampDelay(d)) == ClampDelay(d)
  {
  }

  // ---------------------------------------------------------------------------
  // The 24-bit packing of the flush callback

  lemma ProductPositive(w: int, h: int)
    ensures w >= 1 && h >= 1 ==> w * h >= 1
  {
    if w >= 1 && h >= 1 {
      assert w * h >= 1 * h;
    }
  }

  /** The number of pixels of an area: a well-formed area has at least one. */
  function AreaPixels(a: Area): (p: int)
    ensures WellFormed(a) ==> p >= 1
  {
    var w, h := a.x2 as int - a.x1 as int + 1, a.y2 as int - a.y1 as int + 1;
    ProductPositive(w, h);
    w * h
  }

  /** `pixel_num`: the pixel count stored in a `uint16_t`. */
  function PixelNum(a: Area): (n: nat)
    requires WellFormed(a)
    ensures n < 0x1_0000 && n <= AreaPixels(a)
  {
    AreaPixels(a) % 0x1_0000
  }

  /** Pixels the packing handles: pixel 0 always, then pixels 1 .. pixel_num - 1. */
  function Processed(a: Area): (p: nat)
    requires WellFormed(a)
    ensures 1 <= p <= AreaPixels(a)
  {
    if PixelNum(a) == 0 then 1 else PixelNum(a)
  }

  /** Byte `k` of the intended packing: pixel k / 3 as red, green, blue. */
  function PackedByte(src: seq<byte>, k: nat): byte
    requires 4 * (k / 3) + 3 <= |src|
  {
    var i, c := k / 3, k % 3;
    if c == 0 then src[4 * i + RED] else if c == 1 then src[4 * i + GREEN] else src[4 * i + BLUE]
  }

  /** The intended result: the first `n` pixels as packed RGB triples, the rest of
      the buffer as it was. */
  function Packed(src: seq<byte>, n: nat): (r: seq<byte>)
    requires 4 * n <= |src|
    ensures |r| == |src|
  {
    seq(|src|, k requires 0 <= k < |src| => if k < 3 * n then PackedByte(src, k) else src[k])
  }

  /** The packing as the loop performs it: from the second pixel on, byte 5
      (pixel 1's blue) is read after pixel 1's green has been stored over its
      source byte 4, so it holds that green. */
  function AsWrittenPacked(src: seq<byte>, n: nat): (r: seq<byte>)
    requires 4 * n <= |src|
    ensures |r| == |src|
  {
    if n < 2 then Packed(src, n) else Packed(src, n)[5 := src[4 + GREEN]]
  }

  /** Every packed pixel is its source pixel's red, green and blue, in that order,
      and the bytes past the packed pixels keep their values. */
  lemma PackedPixels(src: seq<byte>, n: nat, i: nat)
    requires 4 * n <= |src| && i < n
    ensures Packed(src, n)[3 * i..3 * i + 3] == [src[4 * i + RED], src[4 * i + GREEN], src[4 * i + BLUE]]
    ensures Packed(src, n)[3 * n..] == src[3 * n..]
  {
  }

  /** Packing one more pixel stores its three bytes and changes nothing else. */
  lemma PackStep(src: seq<byte>, i: nat)
    requires 4 * (i + 1) <= |src|
    ensures Packed(src, i + 1) ==
            Packed(src, i)[3 * i := src[4 * i + RED]][3 * i + 1 := src[4 * i + GREEN]][3 * i + 2 := src[4 * i + BLUE]]
  {
  }

  /** The loop's step as written: the same as `PackStep` except for pixel 1. */
  lemma AsWrittenStep(src: seq<byte>, i: nat)
    requires 1 <= i && 4 * (i + 1) <= |src|
    ensures AsWrittenPacked(src, i + 1) ==
            AsWrittenPacked(src, i)[3 * i := src[4 * i + RED]][3 * i + 1 := src[4 * i + GREEN]]
                                   [3 * i + 2 := if i == 1 then src[4 + GREEN] else src[4 * i + BLUE]]
  {
  }

  /** As written, pixel 1 comes out as red, green, green: its blue is lost, and
      the result differs from the intended one exactly at that byte. */
  lemma AsWrittenLosesPixel1Blue(src: seq<byte>, n: nat)
    requires 2 <= n && 4 * n <= |src|
    ensures AsWrittenPacked(src, n)[3..6] == [src[4 + RED], src[4 + GREEN], src[4 + GREEN]]
    ensures src[4 + BLUE] != src[4 + GREEN] ==> AsWrittenPacked(src, n) != Packed(src, n)
    ensures forall k :: 0 <= k < |src| && k != 5 ==> AsWrittenPacked(src, n)[k] == Packed(src, n)[k]
  {
    PackedPixels(src, n, 1);
  }

  /** A concrete two-pixel area showing the lost blue. */
  lemma AsWrittenCounterexample()
    ensures var src: seq<byte> := [10, 20, 30, 0, 40, 50, 60, 0];
            AsWrittenPacked(src, 2) == [30, 20, 10, 60, 50, 50, 60, 0] &&
            Packed(src, 2) == [30, 20, 10, 60, 50, 40, 60, 0]
  {
  }

  /** The `esp_lcd_panel_draw_bitmap` request: start corner and exclusive end corner. */
  datatype DrawCall = DrawCall(xStart: int, yStart: int, xEnd: int, yEnd: int)

  /** The first pixel of the flush callback: its blue is saved in `temp` before
      red and green are stored over bytes 0 and 1. */
  method PackFirstPixel(colorMap: array<byte>)
    requires 4 <= colorMap.Length
    modifies colorMap
    ensures colorMap[..] == Packed(old(colorMap[..]), 1)
  {
    ghost var src := colorMap[..];
    var to := 0;
    var temp := colorMap[BLUE];
    colorMap[to] := colorMap[RED];
    to := to + 1;
    colorMap[to] := colorMap[GREEN];
    to := to + 1;
    colorMap[to] := temp;
    PackStep(src, 0);
    assert colorMap[..] == Packed(src, 0)[0 := src[RED]][1 := src[GREEN]][2 := src[BLUE]];
  }

  /** `example_lvgl_flush_cb` as written: pixel 0 through a saved blue, then the
      loop over pixels 1 .. pixel_num - 1, then the draw of the whole area. */
  method FlushAsWritten(colorMap: array<byte>, area: Area) returns (draw: DrawCall)
    requires WellFormed(area) && AreaPixels(area) <= INT_MAX && 4 * AreaPixels(area) <= colorMap.Length
    modifies colorMap
    ensures colorMap[..] == AsWrittenPacked(old(colorMap[..]), Processed(area))
    ensures draw == DrawCall(area.x1 as int, area.y1 as int, area.x2 as int + 1, area.y2 as int + 1)
  {
    ghost var src := colorMap[..];
    var pixelNum := PixelNum(area);
    PackFirstPixel(colorMap);
    var to := 3;
    var i := 1;
    while i < pixelNum
      invariant 1 <= i <= Processed(area) && to == 3 * i
      invariant colorMap[..] == AsWrittenPacked(src, i)
    {
      ghost var before := colorMap[..];
      colorMap[to] := colorMap[4 * i + RED];
      to := to + 1;
      colorMap[to] := colorMap[4 * i + GREEN];
      to := to + 1;
      colorMap[to] := colorMap[4 * i + BLUE];
      to := to + 1;
      AsWrittenStep(src, i);
      assert colorMap[..] == before[3 * i := src[4 * i + RED]][3 * i + 1 := src[4 * i + GREEN]]
                                   [3 * i + 2 := if i == 1 then src[4 + GREEN] else src[4 * i + BLUE]];
      i := i + 1;
    }
    draw := DrawCall(area.x1 as int, area.y1 as int, area.x2 as int + 1, area.y2 as int + 1);
  }

  /** The flush callback with each pixel's blue saved before any of its bytes is
      stored, as the first pixel's `temp` does; every pixel then comes out as
      red, green, blue. */
  method Flush(colorMap: array<byte>, area: Area) returns (draw: DrawCall)
    requires WellFormed(area) && AreaPixels(area) <= INT_MAX && 4 * AreaPixels(area) <= colorMap.Length
    modifies colorMap
    ensures colorMap[..] == Packed(old(colorMap[..]), Processed(area))
    ensures draw == DrawCall(area.x1 as int, area.y1 as int, area.x2 as int + 1, area.y2 as int + 1)
  {
    ghost var src := colorMap[..];
    var pixelNum := PixelNum(area);
    var to := 0;
    var i := 0;
    assert colorMap[..] == Packed(src, 0);
    while i < Processed(area)
      invariant 0 <= i <= Processed(area) && to == 3 * i
      invariant colorMap[..] == Packed(src, i)
    {
      ghost var before := colorMap[..];
      var temp := colorMap[4 * i + BLUE];
      colorMap[to] := colorMap[4 * i + RED];
      to := to + 1;
      colorMap[to] := colorMap[4 * i + GREEN];
      to := to + 1;
      colorMap[to] := temp;
      to := to + 1;
      PackStep(src, i);
      assert colorMap[..] == before[3 * i := src[4 * i + RED]][3 * i + 1 := src[4 * i + GREEN]][3 * i + 2 := src[4 * i + BLUE]];
      i := i + 1;
    }
    draw := DrawCall(area.x1 as int, area.y1 as int, area.x2 as int + 1, area.y2 as int + 1);
  }
}
