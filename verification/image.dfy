/** Canvas helpers (src/lib/image.ts): snapshot sizing, the detection
    overlay, and JPEG compression. A canvas is an abstract pixel grid; the
    2D context is a style, a stack of saved styles and the list of drawing
    operations issued so far. How `drawImage` resamples the video and how
    `toDataURL` encodes are oracle functions. */
module ImageOps {
  import Strings
  import Detection

  type Pixel = int

  /** A canvas: `px[y][x]` is the pixel in column `x` of row `y`. */
  datatype Bitmap = Bitmap(width: nat, height: nat, px: seq<seq<Pixel>>)

  predicate Wf(b: Bitmap) {
    |b.px| == b.height && forall y :: 0 <= y < |b.px| ==> |b.px[y]| == b.width
  }

  const DefaultTargetWidth: nat := 1280

  /** The canvas size `snapshotVideoToCanvas` picks for a `vw` x `vh` video:
      wider videos are scaled down to `targetW`, with the height from the
      aspect ratio truncated by the canvas, and nothing is ever scaled up. */
  function SnapshotSize(vw: nat, vh: nat, targetW: nat): (r: (nat, nat))
    ensures vw > targetW ==> r.0 == targetW && r.1 * vw <= targetW * vh < (r.1 + 1) * vw
    ensures vw <= targetW ==> r == (vw, vh)
    ensures r.0 <= vw && r.1 <= vh
  {
    if vw > targetW then
      var h := targetW * vh / vw;
      ScaledHeightBound(vw, vh, targetW);
      (targetW, h)
    else (vw, vh)
  }

  lemma ScaledHeightBound(vw: nat, vh: nat, targetW: nat)
    requires vw > targetW
    ensures targetW * vh / vw <= vh
  {
    var q := targetW * vh / vw;
    assert q * vw <= targetW * vh;
    assert targetW * vh <= vh * vw;
    MulCancel(q, vh, vw);
  }

  lemma MulCancel(a: int, b: int, c: int)
    requires c > 0 && a * c <= b * c
    ensures a <= b
  {
  }

  /** A snapshot is already within bounds: taking it again keeps its size. */
  lemma SnapshotSizeIdempotent(vw: nat, vh: nat, targetW: nat)
    ensures var (w, h) := SnapshotSize(vw, vh, targetW);
            SnapshotSize(w, h, targetW) == (w, h)
  {
  }

  /** A 1920 x 1080 video at width 1280 gives 1280 x 720. */
  lemma SnapshotSizeExample()
    ensures SnapshotSize(1920, 1080, DefaultTargetWidth) == (1280, 720)
  {
  }

  /** `snapshotVideoToCanvas`: `frame(x, y)` is the video drawn at the
      chosen size. */
  function Snapshot(vw: nat, vh: nat, targetW: nat, frame: (nat, nat) -> Pixel): (r: Bitmap)
    ensures Wf(r) && (r.width, r.height) == SnapshotSize(vw, vh, targetW)
    ensures forall y, x :: 0 <= y < r.height && 0 <= x < r.width ==> r.px[y][x] == frame(x, y)
  {
    var (w, h) := SnapshotSize(vw, vh, targetW);
    Bitmap(w, h, seq(h, y requires 0 <= y => seq(w, x requires 0 <= x => frame(x, y))))
  }

  datatype Style = Style(strokeStyle: string, fillStyle: string, lineWidth: int, font: string)

  datatype DrawOp =
    | StrokeRect(x: real, y: real, w: real, h: real, style: Style)
    | FillText(text: string, tx: real, ty: real, style: Style)

  /** A 2D context: current style, saved styles, operations issued. */
  datatype Ctx = Ctx(style: Style, saved: seq<Style>, ops: seq<DrawOp>)

  function Save(c: Ctx): Ctx {
    c.(saved := c.saved + [c.style])
  }

  /** `restore()` pops the last saved style; with nothing saved it does
      nothing. */
  function Restore(c: Ctx): Ctx {
    if |c.saved| == 0 then c
    else c.(style := c.saved[|c.saved| - 1], saved := c.saved[..|c.saved| - 1])
  }

  lemma RestoreUndoesSave(c: Ctx, s: Style, ops: seq<DrawOp>)
    ensures Restore(Save(c).(style := s, ops := ops)) == c.(ops := ops)
  {
    assert (c.saved + [c.style])[..|c.saved|] == c.saved;
  }

  const OverlayStyle := Style("#00ffff", "#00ffff", 2, "14px sans-serif")

  /** `(score * 100).toFixed(0)` for the label: the nearest integer, halves
      away from zero. */
  function RoundPercent(score: real): (r: int)
    ensures (r as real) - 0.5 <= score * 100.0 <= (r as real) + 0.5
    ensures score * 100.0 >= 0.0 ==> score * 100.0 < (r as real) + 0.5
    ensures score * 100.0 < 0.0 ==> (r as real) - 0.5 < score * 100.0
    ensures 0.0 <= score <= 1.0 ==> 0 <= r <= 100
  {
    var x := score * 100.0;
    if x >= 0.0 then (x + 0.5).Floor else -((-x + 0.5).Floor)
  }

  function LabelText(d: Detection.Det): string {
    d.cls + " " + Strings.DecimalString(RoundPercent(d.score)) + "%"
  }

  /** The box drawn for one detection. */
  function BoxOp(d: Detection.Det, s: Style): DrawOp {
    StrokeRect(d.bbox.x, d.bbox.y, d.bbox.w, d.bbox.h, s)
  }

  /** The label drawn for one detection, 5 pixels above its box. */
  function LabelOp(d: Detection.Det, s: Style): DrawOp {
    FillText(LabelText(d), d.bbox.x, d.bbox.y - 5.0, s)
  }

  /** The operations the loop of `drawDetections` issues in style `s`: for
      each detection in list order, its box and then its label. */
  function DrawnOps(dets: seq<Detection.Det>, s: Style): (r: seq<DrawOp>)
    ensures |r| == 2 * |dets|
    ensures forall i :: 0 <= i < |dets| ==> r[2 * i] == BoxOp(dets[i], s)
    ensures forall i :: 0 <= i < |dets| ==> r[2 * i + 1] == LabelOp(dets[i], s)
    decreases |dets|
  {
    if |dets| == 0 then []
    else
      var n := |dets| - 1;
      var prev := DrawnOps(dets[..n], s);
      DrawnOpsSnoc(dets, s, prev);
      prev + [BoxOp(dets[n], s), LabelOp(dets[n], s)]
  }

  /** The step of `DrawnOps`: the operations for all but the last
      detection, then the last one's box and label. */
  lemma DrawnOpsSnoc(dets: seq<Detection.Det>, s: Style, prev: seq<DrawOp>)
    requires |dets| > 0 && |prev| == 2 * (|dets| - 1)
    requires forall i :: 0 <= i < |dets| - 1 ==> prev[2 * i] == BoxOp(dets[..|dets| - 1][i], s)
    requires forall i :: 0 <= i < |dets| - 1 ==> prev[2 * i + 1] == LabelOp(dets[..|dets| - 1][i], s)
    ensures var r := prev + [BoxOp(dets[|dets| - 1], s), LabelOp(dets[|dets| - 1], s)];
            && (forall i :: 0 <= i < |dets| ==> r[2 * i] == BoxOp(dets[i], s))
            && (forall i :: 0 <= i < |dets| ==> r[2 * i + 1] == LabelOp(dets[i], s))
  {
    var n := |dets| - 1;
    var r := prev + [BoxOp(dets[n], s), LabelOp(dets[n], s)];
    forall i | 0 <= i < n
      ensures r[2 * i] == BoxOp(dets[i], s) && r[2 * i + 1] == LabelOp(dets[i], s)
    {
      assert dets[..n][i] == dets[i];
      assert r[2 * i] == prev[2 * i] && r[2 * i + 1] == prev[2 * i + 1];
    }
    assert r[2 * n] == BoxOp(dets[n], s) && r[2 * n + 1] == LabelOp(dets[n], s);
  }

  /** `drawDetections`: all drawing happens between one `save` and one
      `restore`, in the overlay style, one box and one label per detection
      in list order after what was drawn before; the context's style and
      saved stack come back as they were. */
  function DrawDetections(c: Ctx, dets: seq<Detection.Det>): (r: Ctx)
    ensures r.style == c.style && r.saved == c.saved
    ensures |r.ops| == |c.ops| + 2 * |dets| && r.ops[..|c.ops|] == c.ops
    ensures forall i :: 0 <= i < |dets| ==> r.ops[|c.ops| + 2 * i] == BoxOp(dets[i], OverlayStyle)
    ensures forall i :: 0 <= i < |dets| ==> r.ops[|c.ops| + 2 * i + 1] == LabelOp(dets[i], OverlayStyle)
  {
    var ops := c.ops + DrawnOps(dets, OverlayStyle);
    RestoreUndoesSave(c, OverlayStyle, ops);
    AppendedOps(c.ops, DrawnOps(dets, OverlayStyle));
    Restore(Save(c).(style := OverlayStyle, ops := ops))
  }

  lemma AppendedOps(before: seq<DrawOp>, drawn: seq<DrawOp>)
    ensures (before + drawn)[..|before|] == before
    ensures forall k :: 0 <= k < |drawn| ==> (before + drawn)[|before| + k] == drawn[k]
  {
  }

  const DefaultQuality: real := 0.7

  /** `compressCanvasToDataURL`: JPEG encoding at quality 0.7. */
  function CompressCanvasToDataUrl(b: Bitmap, encode: (Bitmap, real) -> string): string {
    encode(b, DefaultQuality)
  }
}
