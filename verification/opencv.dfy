/**
 * The OpenCV calls the rectification core makes, as a record of total functions supplied by the
 * caller. Their floating-point internals are not modelled; only what the core does with their
 * results is.
 */
module OpenCv {
  import opened Results
  import opened Geometry

  newtype byte = x: int | 0 <= x < 256

  /** One pixel, blue-green-red as `cv2.imdecode(..., IMREAD_COLOR)` delivers it. */
  datatype Bgr = Bgr(b: byte, g: byte, r: byte)

  /** A decoded raster, row-major. */
  datatype Image = Image(rows: seq<seq<Bgr>>)

  /** A polygon as OpenCV returns it: its vertices in order. */
  type Contour = seq<Point>

  /** `cv2.minAreaRect`'s ((cx, cy), (width, height), angle). */
  datatype RotatedRect = RotatedRect(center: Point, width: real, height: real, angle: real)

  datatype Library = Library(
    /** `cvtColor` to grey, `GaussianBlur` (5 x 5, sigma 0), `Canny` (50, 150), then the external
        contours of `findContours(RETR_EXTERNAL, CHAIN_APPROX_SIMPLE)`. */
    findContours: Image -> seq<Contour>,
    /** `cv2.contourArea`. */
    contourArea: Contour -> real,
    /** `cv2.approxPolyDP(arc, 0.02 * arcLength(arc, closed), closed)`. */
    approxPolyDP: Contour -> Contour,
    /** `cv2.minAreaRect` of a point set. */
    minAreaRect: seq<Point> -> RotatedRect,
    /** `cv2.boxPoints`: the rectangle's four corners, in OpenCV's own order, as floats. */
    boxPoints: RotatedRect -> Quad,
    /** `getPerspectiveTransform(src, dst)` followed by `warpPerspective(image, H, (width, height))`;
        `None` when OpenCV raises. */
    warpPerspective: (Image, Quad, Quad, int, int) -> Option<Image>
  )
}
