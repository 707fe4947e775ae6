/** The contour pipeline and the four-vertex check shared by every `detectEdges` in the repository. */
module Detection {
  import opened Results
  import opened Geometry
  import opened Extremes
  import opened PointOrdering
  import opened OpenCv

  function Areas(cv: Library, contours: seq<Contour>): (areas: seq<real>)
    ensures |areas| == |contours|
    ensures forall i :: 0 <= i < |contours| ==> areas[i] == cv.contourArea(contours[i])
  {
    seq(|contours|, i requires 0 <= i < |contours| => cv.contourArea(contours[i]))
  }

  /**
   * `max(contours, key=cv2.contourArea)`: the first contour of largest area; Python's `max`
   * raises on an empty list.
   */
  function LargestContour(cv: Library, contours: seq<Contour>): (r: Result<Contour>)
    ensures r.Err? <==> |contours| == 0
    ensures r.Err? ==> r.error == NoContour
    ensures r.Ok? ==> exists k :: 0 <= k < |contours| && contours[k] == r.value && IsFirstMax(Areas(cv, contours), k)
  {
    if |contours| == 0 then Err(NoContour)
    else Ok(contours[ArgMax(Areas(cv, contours))])
  }

  /** Edge detection on the image, then the polygon approximating its largest external contour. */
  function Approximation(cv: Library, image: Image): (r: Result<Contour>)
    ensures r.Err? <==> cv.findContours(image) == []
    ensures r.Err? ==> r.error == NoContour
    ensures r.Ok? ==> exists arc :: arc in cv.findContours(image) && r.value == cv.approxPolyDP(arc)
    ensures r.Ok? ==> var cs := cv.findContours(image);
      exists k :: 0 <= k < |cs| && IsFirstMax(Areas(cv, cs), k) && r.value == cv.approxPolyDP(cs[k])
  {
    var arc :- LargestContour(cv, cv.findContours(image));
    Ok(cv.approxPolyDP(arc))
  }

  /** Exactly four vertices are put in corner order; any other count is an error, never coerced. */
  function ValidateQuad(approx: Contour): (r: Result<Quad>)
    ensures r.Ok? <==> |approx| == 4
    ensures r.Err? ==> r.error == InvalidContour
    ensures r.Ok? ==> forall s :: Wins(approx, s, r.value.At(s))
  {
    if |approx| == 4 then Ok(PointOrder(approx)) else Err(InvalidContour)
  }
}
