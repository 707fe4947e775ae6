/** Points, the two ordering keys and four-corner quadrilaterals. */
module Geometry {

  /** A point in image pixel space (x to the right, y downwards). */
  datatype Point = Point(x: real, y: real)

  /** The two keys the corner ordering ranks points by. */
  datatype KeyKind =
    | SumKey   // `pts.sum(axis=1)`: x + y
    | DiffKey  // `np.diff(pts, axis=1)` on a row [x, y]: y - x

  function Key(p: Point, kind: KeyKind): real {
    match kind
    case SumKey => p.x + p.y
    case DiffKey => p.y - p.x
  }

  /** Together the two keys are a 45-degree rotation of the point, so they determine it. */
  lemma KeysDeterminePoint(p: Point, q: Point)
    ensures Key(p, SumKey) == Key(q, SumKey) && Key(p, DiffKey) == Key(q, DiffKey) <==> p == q
  {
  }

  /** The key of every point, in input order. */
  function Keys(pts: seq<Point>, kind: KeyKind): (ks: seq<real>)
    ensures |ks| == |pts|
  {
    seq(|pts|, i requires 0 <= i < |pts| => Key(pts[i], kind))
  }

  /** No two entries of `pts` share a key of the given kind (so no point is repeated either). */
  predicate KeysDistinct(pts: seq<Point>, kind: KeyKind) {
    forall i, j :: 0 <= i < j < |pts| ==> Key(pts[i], kind) != Key(pts[j], kind)
  }

  /** The four named slots of an ordered quadrilateral. */
  datatype Slot = TopLeft | TopRight | BottomRight | BottomLeft

  /** Four points held in the slot order [top-left, top-right, bottom-right, bottom-left]. */
  datatype Quad = Quad(tl: Point, tr: Point, br: Point, bl: Point) {

    function At(s: Slot): Point {
      match s
      case TopLeft => tl
      case TopRight => tr
      case BottomRight => br
      case BottomLeft => bl
    }

    /** The 4 x 2 array with rows in slot order. */
    function ToSeq(): seq<Point> {
      [tl, tr, br, bl]
    }
  }

  /** The corners of the axis-aligned rectangle [l, r] x [t, b], in slot order. */
  function AxisRect(l: real, t: real, r: real, b: real): Quad {
    Quad(Point(l, t), Point(r, t), Point(r, b), Point(l, b))
  }

  /** Conversion of a float to an integer as `int(...)` and `np.int32(...)` do it: toward zero. */
  function Trunc(v: real): (t: int)
    ensures 0.0 <= v ==> 0 <= t && t as real <= v < t as real + 1.0
    ensures v < 0.0 ==> t <= 0 && t as real - 1.0 < v <= t as real
  {
    if 0.0 <= v then v.Floor else -((-v).Floor)
  }

  /** `t` is a whole number no farther from zero than `v` and less than 1 away from it. */
  predicate TruncatedFrom(t: real, v: real) {
    && t == t.Floor as real
    && (0.0 <= v ==> 0.0 <= t <= v < t + 1.0)
    && (v < 0.0 ==> t - 1.0 < v <= t <= 0.0)
  }

  function TruncPoint(p: Point): Point {
    Point(Trunc(p.x) as real, Trunc(p.y) as real)
  }

  /** `np.int32` applied to a 4 x 2 float array: each coordinate moves toward zero by less than 1. */
  function TruncQuad(q: Quad): (r: Quad)
    ensures forall s :: TruncatedFrom(r.At(s).x, q.At(s).x) && TruncatedFrom(r.At(s).y, q.At(s).y)
  {
    Quad(TruncPoint(q.tl), TruncPoint(q.tr), TruncPoint(q.br), TruncPoint(q.bl))
  }
}
