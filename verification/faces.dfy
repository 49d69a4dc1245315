/** Face anonymisation (src/lib/faces.ts): the cached BlazeFace handle and
    `blurFacesOnCanvas` over an abstract pixel grid. `estimateFaces` is an
    oracle result, and `blurred(x, y)` is the pixel the `blur(20px)` filter
    produces from the source at `(x, y)`. Canvases are values, so the
    source is never modified. */
module Faces {
  import opened Wrappers
  import Loaders
  import opened ImageOps

  datatype Point = Point(x: real, y: real)

  /** A BlazeFace prediction: the corners of the face box. */
  datatype Face = Face(topLeft: Point, bottomRight: Point)

  /** A canvas path rectangle; width and height may be negative. */
  datatype Rect = Rect(x: real, y: real, w: real, h: real)

  function Min(a: real, b: real): real { if a <= b then a else b }
  function Max(a: real, b: real): real { if a <= b then b else a }

  /** `c` lies in the span between `a` and `b`, whichever is larger. */
  predicate Between(a: real, b: real, c: real) {
    Min(a, b) <= c < Max(a, b)
  }

  /** The clip region of `r` covers pixel `(x, y)`: its centre lies inside. */
  predicate Covers(r: Rect, x: nat, y: nat) {
    Between(r.x, r.x + r.w, x as real + 0.5) && Between(r.y, r.y + r.h, y as real + 0.5)
  }

  /** The clip rectangle drawn for one face: its origin is the top-left
      corner and its far corner is the bottom-right one. */
  function FaceRect(f: Face): (r: Rect)
    ensures r.x == f.topLeft.x && r.y == f.topLeft.y
    ensures r.x + r.w == f.bottomRight.x && r.y + r.h == f.bottomRight.y
  {
    Rect(f.topLeft.x, f.topLeft.y, f.bottomRight.x - f.topLeft.x, f.bottomRight.y - f.topLeft.y)
  }

  /** A face's clip region is exactly the pixels whose centres lie between
      its two corners. */
  lemma FaceRectCovers(f: Face, x: nat, y: nat)
    ensures Covers(FaceRect(f), x, y)
            <==> Between(f.topLeft.x, f.bottomRight.x, x as real + 0.5)
                 && Between(f.topLeft.y, f.bottomRight.y, y as real + 0.5)
  {
  }

  function FaceRects(faces: seq<Face>): (r: seq<Rect>)
    ensures |r| == |faces| && forall i :: 0 <= i < |faces| ==> r[i] == FaceRect(faces[i])
  {
    seq(|faces|, i requires 0 <= i < |faces| => FaceRect(faces[i]))
  }

  predicate InAnyRect(rects: seq<Rect>, x: nat, y: nat) {
    exists i :: 0 <= i < |rects| && Covers(rects[i], x, y)
  }

  /** The intended result: blurred inside some face box, the source
      elsewhere. */
  function Anonymised(src: Bitmap, rects: seq<Rect>, blurred: (nat, nat) -> Pixel): (r: Bitmap)
    requires Wf(src)
    ensures Wf(r) && r.width == src.width && r.height == src.height
    ensures forall y, x :: 0 <= y < src.height && 0 <= x < src.width
              ==> r.px[y][x] == if InAnyRect(rects, x, y) then blurred(x, y) else src.px[y][x]
  {
    Bitmap(src.width, src.height,
           seq(src.height, y requires 0 <= y < src.height =>
             seq(src.width, x requires 0 <= x < src.width =>
               if InAnyRect(rects, x, y) then blurred(x, y) else src.px[y][x])))
  }

  /** One pass of the face loop: the blurred source drawn through the
      clip region of `r`. */
  function Paint(dest: Bitmap, r: Rect, blurred: (nat, nat) -> Pixel): (out: Bitmap)
    requires Wf(dest)
    ensures Wf(out) && out.width == dest.width && out.height == dest.height
    ensures forall y, x :: 0 <= y < dest.height && 0 <= x < dest.width
              ==> out.px[y][x] == if Covers(r, x, y) then blurred(x, y) else dest.px[y][x]
  {
    Bitmap(dest.width, dest.height,
           seq(dest.height, y requires 0 <= y < dest.height =>
             seq(dest.width, x requires 0 <= x < dest.width =>
               if Covers(r, x, y) then blurred(x, y) else dest.px[y][x])))
  }

  /** The face loop of `blurFacesOnCanvas`, one rectangle after another. */
  function PaintAll(dest: Bitmap, rects: seq<Rect>, blurred: (nat, nat) -> Pixel): (out: Bitmap)
    requires Wf(dest)
    ensures Wf(out) && out.width == dest.width && out.height == dest.height
    decreases |rects|
  {
    if |rects| == 0 then dest
    else Paint(PaintAll(dest, rects[..|rects| - 1], blurred), rects[|rects| - 1], blurred)
  }

  /** Because every pass draws from the unchanged source, painting the
      faces one by one gives the blurred source inside any face box and the
      source everywhere else; overlapping boxes are not blurred twice. */
  lemma {:induction false} PaintAllIsAnonymised(src: Bitmap, rects: seq<Rect>, blurred: (nat, nat) -> Pixel)
    requires Wf(src)
    ensures PaintAll(src, rects, blurred) == Anonymised(src, rects, blurred)
    decreases |rects|
  {
    var out := PaintAll(src, rects, blurred);
    var want := Anonymised(src, rects, blurred);
    if |rects| > 0 {
      var init := rects[..|rects| - 1];
      var last := rects[|rects| - 1];
      assert rects == init + [last];
      PaintAllIsAnonymised(src, init, blurred);
      var prev := Anonymised(src, init, blurred);
      forall y, x | 0 <= y < src.height && 0 <= x < src.width
        ensures out.px[y][x] == want.px[y][x]
      {
        assert out.px[y][x] == if Covers(last, x, y) then blurred(x, y) else prev.px[y][x];
        InAnyRectSnoc(init, last, x, y);
      }
    }
    PixelwiseEqual(out, want);
  }

  lemma InAnyRectSnoc(init: seq<Rect>, last: Rect, x: nat, y: nat)
    ensures InAnyRect(init + [last], x, y) <==> InAnyRect(init, x, y) || Covers(last, x, y)
  {
    var rects := init + [last];
    if InAnyRect(rects, x, y) {
      var i :| 0 <= i < |rects| && Covers(rects[i], x, y);
      if i < |init| {
        assert rects[i] == init[i];
      }
    }
    if InAnyRect(init, x, y) {
      var i :| 0 <= i < |init| && Covers(init[i], x, y);
      assert rects[i] == init[i];
    }
    if Covers(last, x, y) {
      assert rects[|init|] == last;
    }
  }

  lemma PixelwiseEqual(a: Bitmap, b: Bitmap)
    requires Wf(a) && Wf(b) && a.width == b.width && a.height == b.height
    requires forall y, x :: 0 <= y < a.height && 0 <= x < a.width ==> a.px[y][x] == b.px[y][x]
    ensures a == b
  {
    forall y | 0 <= y < a.height
      ensures a.px[y] == b.px[y]
    {
    }
  }

  /** The two BlazeFace caches: this module's handle and the loader's. */
  datatype FaceState = FaceState(model: Option<Loaders.Handle>, loaderCache: Option<Loaders.Handle>)

  datatype BlazeLoad = BlazeLoad(state: FaceState, result: Result<Loaders.Handle, Loaders.InitError>)

  /** `loadBlaze()`. */
  function LoadBlaze(st: FaceState, remote: Result<Loaders.Handle, string>, local: Result<Loaders.Handle, string>): (r: BlazeLoad)
    ensures st.model.Some? ==> r == BlazeLoad(st, Ok(st.model.value))
    ensures st.model.None? ==> r.result == Loaders.LoadBlazeFace(st.loaderCache, remote, local).result
    ensures r.result.Ok? <==> r.state.model.Some?
    ensures r.result.Ok? ==> r.state.model == Some(r.result.value)
  {
    match st.model
    case Some(h) => BlazeLoad(st, Ok(h))
    case None =>
      var step := Loaders.LoadBlazeFace(st.loaderCache, remote, local);
      BlazeLoad(FaceState(step.result.ToOption(), step.cache), step.result)
  }

  /** Why `blurFacesOnCanvas` rejected. */
  datatype BlurError = LoadFailed(cause: Loaders.InitError) | EstimateFailed(message: string)

  datatype BlurStep = BlurStep(state: FaceState, result: Result<Bitmap, BlurError>)

  /** `blurFacesOnCanvas(src)`. */
  function BlurFacesOnCanvas(st: FaceState, src: Bitmap,
                             remote: Result<Loaders.Handle, string>, local: Result<Loaders.Handle, string>,
                             estimate: Result<seq<Face>, string>, blurred: (nat, nat) -> Pixel): (r: BlurStep)
    requires Wf(src)
    ensures r.state == (if st.model.Some? then st else LoadBlaze(st, remote, local).state)
    ensures r.result.Err? && r.result.error.LoadFailed? <==> st.model.None? && LoadBlaze(st, remote, local).result.Err?
    ensures r.state.model.Some? && estimate.Err? ==> r.result == Err(EstimateFailed(estimate.error))
    ensures r.state.model.Some? && estimate == Ok([]) ==> r.result == Ok(src)
    ensures r.result.Ok? && estimate.Ok? && |estimate.value| > 0
            ==> var out := r.result.value;
                && Wf(out) && out.width == src.width && out.height == src.height
                && forall y, x :: 0 <= y < src.height && 0 <= x < src.width
                     ==> out.px[y][x] == if InAnyRect(FaceRects(estimate.value), x, y) then blurred(x, y)
                                          else src.px[y][x]
  {
    var ld := if st.model.Some? then BlazeLoad(st, Ok(st.model.value)) else LoadBlaze(st, remote, local);
    match ld.result
    case Err(e) => BlurStep(ld.state, Err(LoadFailed(e)))
    case Ok(_) =>
      match estimate
      case Err(m) => BlurStep(ld.state, Err(EstimateFailed(m)))
      case Ok(faces) =>
        if |faces| == 0 then BlurStep(ld.state, Ok(src))
        else
          var rects := FaceRects(faces);
          PaintAllIsAnonymised(src, rects, blurred);
          BlurStep(ld.state, Ok(PaintAll(src, rects, blurred)))
  }
}
