/** `homography`: the target frame and the corner correspondence handed to the perspective warp. */
module Rectification {
  import opened Results
  import opened Geometry
  import opened PointOrdering
  import opened OpenCv

  /** `dst_pts`: the corners of a width x height raster, [(0,0), (w-1,0), (w-1,h-1), (0,h-1)]. */
  function FrameCorners(width: int, height: int): (r: Quad)
    ensures r.tl == Point(0.0, 0.0) && r.br == Point((width - 1) as real, (height - 1) as real)
    ensures r.tr.y == r.tl.y && r.tr.x == r.br.x && r.bl.x == r.tl.x && r.bl.y == r.br.y
    ensures width >= 1 && height >= 1 ==>
      forall s :: 0.0 <= r.At(s).x <= (width - 1) as real && 0.0 <= r.At(s).y <= (height - 1) as real
  {
    AxisRect(0.0, 0.0, (width - 1) as real, (height - 1) as real)
  }

  /** The destination corners are already in corner order for any frame at least 1 x 1. */
  lemma {:induction false} FrameCornersCanonical(width: int, height: int)
    requires width >= 1 && height >= 1
    ensures PointOrder(FrameCorners(width, height).ToSeq()) == FrameCorners(width, height)
  {
    var f := FrameCorners(width, height);
    AxisRectCanonical(f.ToSeq(), 0.0, 0.0, (width - 1) as real, (height - 1) as real);
  }

  /** A zero width (which `int(rect[1][0])` yields for a degenerate rectangle) breaks that: (0,0) is no longer top-left. */
  lemma ZeroWidthFrameNotCanonical(height: int)
    requires height >= 1
    ensures PointOrder(FrameCorners(0, height).ToSeq()).tl == Point(-1.0, 0.0)
    ensures PointOrder(FrameCorners(0, height).ToSeq()) != FrameCorners(0, height)
  {
    var pts := FrameCorners(0, height).ToSeq();
    assert Extremes.IsFirstMin(Keys(pts, SumKey), 1);
    WinnerUnique(pts, TopLeft, PointOrder(pts).tl, pts[1]);
  }

  /** What `homography` hands to `getPerspectiveTransform` and `warpPerspective`. */
  datatype WarpPlan = WarpPlan(src: Quad, dst: Quad, width: int, height: int)

  /**
   * The minimum-area rectangle of the points, its corners truncated to integers and put in corner
   * order as the source quadrilateral, its truncated width and height as the frame size.
   */
  function PlanWarp(cv: Library, points: Quad): (p: WarpPlan)
    ensures var rect := cv.minAreaRect(points.ToSeq());
      && p.width == Trunc(rect.width) && p.height == Trunc(rect.height)
      && (forall s :: Wins(TruncQuad(cv.boxPoints(rect)).ToSeq(), s, p.src.At(s)))
      && p.dst == FrameCorners(p.width, p.height)
  {
    var rect := cv.minAreaRect(points.ToSeq());
    var box := TruncQuad(cv.boxPoints(rect));
    var width := Trunc(rect.width);
    var height := Trunc(rect.height);
    WarpPlan(PointOrder(box.ToSeq()), FrameCorners(width, height), width, height)
  }

  /** For a non-empty frame, source and destination are both in corner order: slot s maps to slot s. */
  lemma PlanDestinationCanonical(cv: Library, points: Quad)
    ensures var p := PlanWarp(cv, points);
      p.width >= 1 && p.height >= 1 ==> PointOrder(p.dst.ToSeq()) == p.dst
  {
    var p := PlanWarp(cv, points);
    if p.width >= 1 && p.height >= 1 {
      FrameCornersCanonical(p.width, p.height);
    }
  }

  /**
   * When the truncated box is an axis-aligned rectangle (corners in whatever order `boxPoints`
   * returns them), its top-left corner is sent to (0,0), top-right to (w-1,0), and so on.
   */
  lemma {:induction false} AxisAlignedBoxCorrespondence(cv: Library, points: Quad, l: real, t: real, r: real, b: real)
    requires l <= r && t <= b
    requires var box := TruncQuad(cv.boxPoints(cv.minAreaRect(points.ToSeq()))).ToSeq();
      forall c :: c in box <==> c in AxisRect(l, t, r, b).ToSeq()
    ensures PlanWarp(cv, points).src == AxisRect(l, t, r, b)
  {
    var box := TruncQuad(cv.boxPoints(cv.minAreaRect(points.ToSeq()))).ToSeq();
    AxisRectCanonical(box, l, t, r, b);
  }

  /** `homography(image, points)`: `None` points raise; otherwise the warp's outcome for the plan. */
  function Homography(cv: Library, image: Image, points: Option<Quad>): (r: Result<Image>)
    ensures points.None? ==> r == Err(NoCardDetected)
    ensures points.Some? ==>
      var p := PlanWarp(cv, points.value);
      var warped := cv.warpPerspective(image, p.src, p.dst, p.width, p.height);
      && (r.Ok? <==> warped.Some?)
      && (r.Ok? ==> r.value == warped.value)
      && (r.Err? ==> r.error == OpenCvFailure)
  {
    match points
    case None => Err(NoCardDetected)
    case Some(quad) =>
      var p := PlanWarp(cv, quad);
      match cv.warpPerspective(image, p.src, p.dst, p.width, p.height)
      case None => Err(OpenCvFailure)
      case Some(warped) => Ok(warped)
  }
}
