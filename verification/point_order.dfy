/** `pointOrder`: ranks the input points by x + y and by y - x and fills the four corner slots. */
module PointOrdering {
  import opened Geometry
  import opened Extremes

  /** The key each slot ranks by: x + y for the diagonal top-left/bottom-right, y - x otherwise. */
  function SlotKey(s: Slot): KeyKind {
    match s
    case TopLeft => SumKey
    case BottomRight => SumKey
    case TopRight => DiffKey
    case BottomLeft => DiffKey
  }

  /** Bottom slots take the largest key, top slots the smallest. */
  predicate SlotTakesMax(s: Slot) {
    s == BottomRight || s == BottomLeft
  }

  /** `p` sits at the first index of `pts` whose key is extreme in the way slot `s` asks for. */
  ghost predicate Wins(pts: seq<Point>, s: Slot, p: Point) {
    exists k :: 0 <= k < |pts| && pts[k] == p && IsFirstExtreme(Keys(pts, SlotKey(s)), SlotTakesMax(s), k)
  }

  /** The corner ordering: argmin/argmax of x + y fill slots 0 and 2, of y - x slots 1 and 3. */
  function PointOrder(pts: seq<Point>): (r: Quad)
    requires |pts| > 0
    ensures Wins(pts, TopLeft, r.tl)
    ensures Wins(pts, TopRight, r.tr)
    ensures Wins(pts, BottomRight, r.br)
    ensures Wins(pts, BottomLeft, r.bl)
  {
    var s := Keys(pts, SumKey);
    var diff := Keys(pts, DiffKey);
    Quad(pts[ArgMin(s)], pts[ArgMin(diff)], pts[ArgMax(s)], pts[ArgMax(diff)])
  }

  lemma WinsAt(pts: seq<Point>, s: Slot)
    requires |pts| > 0
    ensures Wins(pts, s, PointOrder(pts).At(s))
  {
  }

  /** The winner of a slot is unique. */
  lemma WinnerUnique(pts: seq<Point>, s: Slot, p: Point, p': Point)
    requires Wins(pts, s, p) && Wins(pts, s, p')
    ensures p == p'
  {
    var k :| 0 <= k < |pts| && pts[k] == p && IsFirstExtreme(Keys(pts, SlotKey(s)), SlotTakesMax(s), k);
    var k' :| 0 <= k' < |pts| && pts[k'] == p' && IsFirstExtreme(Keys(pts, SlotKey(s)), SlotTakesMax(s), k');
    FirstExtremeUnique(Keys(pts, SlotKey(s)), SlotTakesMax(s), k, k');
  }

  /** The slot rules pin the output down completely: any quadrilateral obeying them is `PointOrder`. */
  lemma PointOrderUnique(pts: seq<Point>, q: Quad)
    requires |pts| > 0
    requires forall s :: Wins(pts, s, q.At(s))
    ensures q == PointOrder(pts)
  {
    forall s: Slot
      ensures q.At(s) == PointOrder(pts).At(s)
    {
      WinsAt(pts, s);
      WinnerUnique(pts, s, q.At(s), PointOrder(pts).At(s));
    }
    assert q.tl == PointOrder(pts).At(TopLeft);
    assert q.tr == PointOrder(pts).At(TopRight);
    assert q.br == PointOrder(pts).At(BottomRight);
    assert q.bl == PointOrder(pts).At(BottomLeft);
  }

  /** Every slot holds one of the input points (two slots may hold the same one). */
  lemma SlotsAreInputs(pts: seq<Point>)
    requires |pts| > 0
    ensures forall s :: PointOrder(pts).At(s) in pts
  {
    forall s: Slot
      ensures PointOrder(pts).At(s) in pts
    {
      WinsAt(pts, s);
    }
  }

  /** Slot 0 minimises and slot 2 maximises x + y; slot 1 minimises and slot 3 maximises y - x. */
  lemma SlotsAreExtreme(pts: seq<Point>)
    requires |pts| > 0
    ensures forall p :: p in pts ==> Key(PointOrder(pts).tl, SumKey) <= Key(p, SumKey)
    ensures forall p :: p in pts ==> Key(p, SumKey) <= Key(PointOrder(pts).br, SumKey)
    ensures forall p :: p in pts ==> Key(PointOrder(pts).tr, DiffKey) <= Key(p, DiffKey)
    ensures forall p :: p in pts ==> Key(p, DiffKey) <= Key(PointOrder(pts).bl, DiffKey)
  {
    var q := PointOrder(pts);
    forall p | p in pts
      ensures Key(q.tl, SumKey) <= Key(p, SumKey)
      ensures Key(p, SumKey) <= Key(q.br, SumKey)
      ensures Key(q.tr, DiffKey) <= Key(p, DiffKey)
      ensures Key(p, DiffKey) <= Key(q.bl, DiffKey)
    {
      var j :| 0 <= j < |pts| && pts[j] == p;
      assert Keys(pts, SumKey)[j] == Key(p, SumKey);
      assert Keys(pts, DiffKey)[j] == Key(p, DiffKey);
    }
  }

  /** Ties go to the lowest index: no earlier input has a key as extreme as the chosen slot's. */
  lemma TiesGoToFirstIndex(pts: seq<Point>, s: Slot, j: int)
    requires 0 <= j < |pts|
    requires pts[j] != PointOrder(pts).At(s)
    requires Key(pts[j], SlotKey(s)) == Key(PointOrder(pts).At(s), SlotKey(s))
    ensures exists k :: 0 <= k < j && pts[k] == PointOrder(pts).At(s)
  {
    WinsAt(pts, s);
    var keys := Keys(pts, SlotKey(s));
    var k :| 0 <= k < |pts| && pts[k] == PointOrder(pts).At(s) && IsFirstExtreme(keys, SlotTakesMax(s), k);
    assert keys[j] == keys[k];
    assert k != j;
    assert forall i :: 0 <= i < k ==> keys[i] != keys[k];
    assert k < j;
  }

  /**
   * If every point of `b` is drawn from `a`, `a` has distinct keys, and the point `m` that wins
   * slot `s` in `a` also occurs in `b`, then `m` wins slot `s` in `b` too.
   */
  lemma WinnerSurvivesSubset(a: seq<Point>, b: seq<Point>, s: Slot, m: Point)
    requires forall i :: 0 <= i < |b| ==> b[i] in a
    requires m in b
    requires Wins(a, s, m)
    requires KeysDistinct(a, SlotKey(s))
    ensures Wins(b, s, m)
  {
    var kind := SlotKey(s);
    var ka := Keys(a, kind);
    var kb := Keys(b, kind);
    var highest := SlotTakesMax(s);
    var i :| 0 <= i < |a| && a[i] == m && IsFirstExtreme(ka, highest, i);
    var k := if highest then ArgMax(kb) else ArgMin(kb);
    assert IsFirstExtreme(kb, highest, k);
    var jm :| 0 <= jm < |b| && b[jm] == m;
    var ib :| 0 <= ib < |a| && a[ib] == b[k];
    assert kb[jm] == ka[i] && kb[k] == ka[ib];
    assert ka[ib] == ka[i];
    assert b[k] == m;
  }

  /** With pairwise-distinct sums and pairwise-distinct differences, ordering twice changes nothing. */
  lemma {:induction false} Idempotent(pts: seq<Point>)
    requires |pts| > 0
    requires KeysDistinct(pts, SumKey) && KeysDistinct(pts, DiffKey)
    ensures PointOrder(PointOrder(pts).ToSeq()) == PointOrder(pts)
  {
    var q := PointOrder(pts);
    var b := q.ToSeq();
    SlotsAreInputs(pts);
    assert forall i :: 0 <= i < |b| ==> b[i] in pts by {
      assert b[0] == q.At(TopLeft) && b[1] == q.At(TopRight);
      assert b[2] == q.At(BottomRight) && b[3] == q.At(BottomLeft);
    }
    forall s: Slot
      ensures Wins(b, s, q.At(s))
    {
      WinsAt(pts, s);
      assert q.At(s) in b;
      WinnerSurvivesSubset(pts, b, s, q.At(s));
    }
    PointOrderUnique(b, q);
  }

  /** With distinct keys the output depends only on which points are given, not on their order. */
  lemma {:induction false} OrderIrrelevant(a: seq<Point>, b: seq<Point>)
    requires |a| > 0
    requires forall p :: p in a <==> p in b
    requires KeysDistinct(a, SumKey) && KeysDistinct(a, DiffKey)
    ensures |b| > 0
    ensures PointOrder(b) == PointOrder(a)
  {
    assert a[0] in b;
    var q := PointOrder(a);
    SlotsAreInputs(a);
    forall s: Slot
      ensures Wins(b, s, q.At(s))
    {
      WinsAt(a, s);
      WinnerSurvivesSubset(a, b, s, q.At(s));
    }
    PointOrderUnique(b, q);
  }

  /**
   * The four corners of an axis-aligned rectangle, given in any order and possibly repeated, come
   * out as [top-left, top-right, bottom-right, bottom-left]; this is where y - x (not x - y) is
   * needed: the top-right corner has the smallest y - x. Zero width or height is allowed.
   */
  lemma {:induction false} AxisRectCanonical(pts: seq<Point>, l: real, t: real, r: real, b: real)
    requires l <= r && t <= b
    requires forall i :: 0 <= i < |pts| ==> pts[i] in AxisRect(l, t, r, b).ToSeq()
    requires forall c :: c in AxisRect(l, t, r, b).ToSeq() ==> c in pts
    ensures |pts| > 0
    ensures PointOrder(pts) == AxisRect(l, t, r, b)
  {
    var rect := AxisRect(l, t, r, b);
    assert rect.tl in pts by { assert rect.tl == rect.ToSeq()[0]; }
    AxisRectSlot(pts, l, t, r, b, TopLeft);
    AxisRectSlot(pts, l, t, r, b, TopRight);
    AxisRectSlot(pts, l, t, r, b, BottomRight);
    AxisRectSlot(pts, l, t, r, b, BottomLeft);
  }

  lemma AxisRectSlot(pts: seq<Point>, l: real, t: real, r: real, b: real, s: Slot)
    requires l <= r && t <= b
    requires forall i :: 0 <= i < |pts| ==> pts[i] in AxisRect(l, t, r, b).ToSeq()
    requires forall c :: c in AxisRect(l, t, r, b).ToSeq() ==> c in pts
    requires |pts| > 0
    ensures PointOrder(pts).At(s) == AxisRect(l, t, r, b).At(s)
  {
    var rect := AxisRect(l, t, r, b);
    var p := PointOrder(pts).At(s);
    WinsAt(pts, s);
    assert rect.At(s) in rect.ToSeq();
    WinnerIsExtreme(pts, s, p, rect.At(s));
    CornerByKey(l, t, r, b, s, p);
  }

  /** The winner of slot `s` is an input whose key is at least as extreme as that of any input `c`. */
  lemma WinnerIsExtreme(pts: seq<Point>, s: Slot, p: Point, c: Point)
    requires Wins(pts, s, p)
    requires c in pts
    ensures p in pts
    ensures SlotTakesMax(s) ==> Key(c, SlotKey(s)) <= Key(p, SlotKey(s))
    ensures !SlotTakesMax(s) ==> Key(p, SlotKey(s)) <= Key(c, SlotKey(s))
  {
    var keys := Keys(pts, SlotKey(s));
    var k :| 0 <= k < |pts| && pts[k] == p && IsFirstExtreme(keys, SlotTakesMax(s), k);
    var j :| 0 <= j < |pts| && pts[j] == c;
    assert keys[j] == Key(c, SlotKey(s));
  }

  /** Among the corners of an axis-aligned rectangle, the slot's key singles out the slot's corner. */
  lemma CornerByKey(l: real, t: real, r: real, b: real, s: Slot, p: Point)
    requires l <= r && t <= b
    requires p in AxisRect(l, t, r, b).ToSeq()
    requires SlotTakesMax(s) ==> Key(AxisRect(l, t, r, b).At(s), SlotKey(s)) <= Key(p, SlotKey(s))
    requires !SlotTakesMax(s) ==> Key(p, SlotKey(s)) <= Key(AxisRect(l, t, r, b).At(s), SlotKey(s))
    ensures p == AxisRect(l, t, r, b).At(s)
  {
  }

  /** A point that is first-extreme for a slot's key wins that slot. */
  lemma WinsWith(pts: seq<Point>, s: Slot, k: int)
    requires 0 <= k < |pts|
    requires IsFirstExtreme(Keys(pts, SlotKey(s)), SlotTakesMax(s), k)
    ensures PointOrder(pts).At(s) == pts[k]
  {
    WinsAt(pts, s);
    WinnerUnique(pts, s, PointOrder(pts).At(s), pts[k]);
  }

  /** The west, south, east and north corners of a square of half-diagonal `d` centred on `c`. */
  function Diamond(c: Point, d: real): (Point, Point, Point, Point) {
    (Point(c.x - d, c.y), Point(c.x, c.y + d), Point(c.x + d, c.y), Point(c.x, c.y - d))
  }

  /**
   * For a square turned by 45 degrees with four distinct corners, listed west, south, east, north,
   * the west corner fills two slots: the output is not a permutation of the input.
   */
  lemma {:induction false} DiamondSharesSlot(c: Point, d: real)
    requires d > 0.0
    ensures var (w, s, e, n) := Diamond(c, d);
      PointOrder([w, s, e, n]) == Quad(w, e, s, w)
  {
    var (w, s, e, n) := Diamond(c, d);
    var pts := [w, s, e, n];
    assert IsFirstMin(Keys(pts, SumKey), 0);
    assert IsFirstMin(Keys(pts, DiffKey), 2);
    assert IsFirstMax(Keys(pts, SumKey), 1);
    assert IsFirstMax(Keys(pts, DiffKey), 0);
    WinsWith(pts, TopLeft, 0);
    WinsWith(pts, TopRight, 2);
    WinsWith(pts, BottomRight, 1);
    WinsWith(pts, BottomLeft, 0);
  }

  /** Ordering that output again moves slot 2 from the south corner to the east corner. */
  lemma {:induction false} DiamondNotIdempotent(c: Point, d: real)
    requires d > 0.0
    ensures var (w, s, e, n) := Diamond(c, d);
      && PointOrder([w, s, e, n]).br == s
      && PointOrder(PointOrder([w, s, e, n]).ToSeq()).br == e
      && e != s
  {
    DiamondSharesSlot(c, d);
    var (w, s, e, n) := Diamond(c, d);
    var once := [w, e, s, w];
    assert Quad(w, e, s, w).ToSeq() == once;
    assert IsFirstMax(Keys(once, SumKey), 1);
    WinsWith(once, BottomRight, 1);
  }

  /** The same square listed from the east corner: the first-index tie-break changes slots 0 and 2. */
  lemma {:induction false} DiamondOrderMatters(c: Point, d: real)
    requires d > 0.0
    ensures var (w, s, e, n) := Diamond(c, d);
      && PointOrder([e, n, w, s]) == Quad(n, e, e, w)
      && PointOrder([e, n, w, s]) != PointOrder([w, s, e, n])
  {
    var (w, s, e, n) := Diamond(c, d);
    var pts := [e, n, w, s];
    assert IsFirstMin(Keys(pts, SumKey), 1);
    assert IsFirstMin(Keys(pts, DiffKey), 0);
    assert IsFirstMax(Keys(pts, SumKey), 0);
    assert IsFirstMax(Keys(pts, DiffKey), 2);
    WinsWith(pts, TopLeft, 1);
    WinsWith(pts, TopRight, 0);
    WinsWith(pts, BottomRight, 0);
    WinsWith(pts, BottomLeft, 2);
    DiamondSharesSlot(c, d);
  }
}
