/**
 * The standalone camera service's `detectEdges` and `process_image`: no null check and no supplied
 * quadrilateral; the image comes back unchanged next to the ordered corners.
 */
module CardCamera {
  import opened Results
  import opened Geometry
  import opened PointOrdering
  import opened OpenCv
  import opened Detection
  import opened Rectification
  import ImageProcessor

  function DetectEdges(cv: Library, image: Image): (r: Result<(Image, Quad)>)
    ensures r.Ok? ==> r.value.0 == image
    ensures r.Ok? ==> exists arc :: arc in cv.findContours(image) && |cv.approxPolyDP(arc)| == 4
                                    && forall s :: Wins(cv.approxPolyDP(arc), s, r.value.1.At(s))
    ensures r.Err? ==> (r.error == NoContour <==> cv.findContours(image) == [])
    ensures r.Err? ==> r.error == NoContour || r.error == InvalidContour
    ensures Approximation(cv, image).Ok? ==>
      var approx := Approximation(cv, image).value;
      && (r.Ok? <==> |approx| == 4)
      && (r.Ok? ==> forall s :: Wins(approx, s, r.value.1.At(s)))
  {
    var approx :- Approximation(cv, image);
    var quad :- ValidateQuad(approx);
    Ok((image, quad))
  }

  /** On a decoded image it finds the same corners as the other module's detection path. */
  lemma DetectEdgesAgrees(cv: Library, image: Image)
    ensures var mine := DetectEdges(cv, image);
      var theirs := ImageProcessor.DetectEdges(cv, Some(image), None);
      && (mine.Ok? <==> theirs.Ok?)
      && (mine.Ok? ==> mine.value.1 == theirs.value)
      && (mine.Err? ==> mine.error == theirs.error)
  {
  }

  /** `process_image` between decoding and encoding: detection, then `homography`. */
  function ProcessImage(cv: Library, image: Image): (r: Result<Image>)
    ensures DetectEdges(cv, image).Err? ==> r == Err(DetectEdges(cv, image).error)
    ensures DetectEdges(cv, image).Ok? ==>
      r == Homography(cv, DetectEdges(cv, image).value.0, Some(DetectEdges(cv, image).value.1))
    ensures r == ImageProcessor.ProcessImage(cv, Some(image), None)
  {
    var (img, quadrilateral) :- DetectEdges(cv, image);
    Homography(cv, img, Some(quadrilateral))
  }
}
