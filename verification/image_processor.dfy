/**
 * `detectEdges` and `process_image` of the image-processing module (identical in the server copy
 * under the Flutter app's source tree): a null image is rejected, a caller-supplied quadrilateral
 * bypasses detection, and only four vertices are accepted.
 */
module ImageProcessor {
  import opened Results
  import opened Geometry
  import opened PointOrdering
  import opened OpenCv
  import opened Detection
  import opened Rectification

  function DetectEdges(cv: Library, image: Option<Image>, quadrilateral: Option<Contour>): (r: Result<Quad>)
    ensures image.None? ==> r == Err(ImageIsNull)
    ensures image.Some? && quadrilateral.Some? ==>
      && (r.Ok? <==> |quadrilateral.value| == 4)
      && (r.Ok? ==> forall s :: Wins(quadrilateral.value, s, r.value.At(s)))
      && (r.Err? ==> r.error == InvalidContour)
    ensures image.Some? && quadrilateral.None? ==>
      && (r.Ok? ==> exists arc :: arc in cv.findContours(image.value) && |cv.approxPolyDP(arc)| == 4
                                  && forall s :: Wins(cv.approxPolyDP(arc), s, r.value.At(s)))
      && (r.Err? ==> (r.error == NoContour <==> cv.findContours(image.value) == []))
      && (r.Err? ==> r.error == NoContour || r.error == InvalidContour)
    ensures image.Some? && quadrilateral.None? && Approximation(cv, image.value).Ok? ==>
      var approx := Approximation(cv, image.value).value;
      && (r.Ok? <==> |approx| == 4)
      && (r.Ok? ==> forall s :: Wins(approx, s, r.value.At(s)))
  {
    if image.None? then Err(ImageIsNull)
    else
      var approx :- if quadrilateral.None? then Approximation(cv, image.value) else Ok(quadrilateral.value);
      ValidateQuad(approx)
  }

  /** A supplied quadrilateral is used as is: neither the detector nor the pixels matter. */
  lemma SuppliedQuadBypassesDetection(cv: Library, cv': Library, image: Image, image': Image, quad: Contour)
    ensures DetectEdges(cv, Some(image), Some(quad)) == DetectEdges(cv', Some(image'), Some(quad))
  {
  }

  /** `process_image`: `homography` of what `detectEdges` returns; its errors pass through unchanged. */
  function ProcessImage(cv: Library, image: Option<Image>, edges: Option<Contour>): (r: Result<Image>)
    ensures DetectEdges(cv, image, edges).Err? ==> r == Err(DetectEdges(cv, image, edges).error)
    ensures DetectEdges(cv, image, edges).Ok? ==>
      image.Some? && r == Homography(cv, image.value, Some(DetectEdges(cv, image, edges).value))
    ensures r.Err? ==> r.error != NoCardDetected
  {
    var quadrilateral :- DetectEdges(cv, image, edges);
    Homography(cv, image.value, Some(quadrilateral))
  }
}
