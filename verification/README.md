# Corner ordering and quadrilateral validation for card rectification

This project models the part of MyTarot-Cross that stands in front of OpenCV's perspective
warp: the ordering of a card's four corners into [top-left, top-right, bottom-right,
bottom-left], the `detectEdges` validator that accepts either a detected or a caller-supplied
quadrilateral, and the way `homography` builds its source and destination corners. It then
proves properties of that model.

The same logic appears three times in the repository:
- `src/ImageProcessor.py`;
- `my_tarot_cross/src/python.py`, an exact copy apart from the I/O wrappers;
- `src/CardCamera.py`, whose `detectEdges` has no null check and no supplied-quadrilateral bypass.

Each concept is modelled once. The table below cites all three copies.

Modules:
- `Results`: Python's `None` as `Option`, and the raised errors as a `Result` with one `Error` per message.
- `Geometry`: points with exact coordinates; the two ranking keys, x + y and y − x; the `Quad` with its four slots; truncation toward zero.
- `Extremes`: numpy's `argmin`/`argmax` and Python's `max(..., key=...)`, each returning the first index that holds the extreme.
- `PointOrdering`: `pointOrder` and its properties.
- `OpenCv`: the OpenCV calls, as a record of functions supplied by the caller.
- `Detection`: the largest-contour pipeline and the four-vertex check.
- `Rectification`: `homography`, including the destination frame and the slot-to-slot correspondence.
- `ImageProcessor` and `CardCamera`: the two `detectEdges` variants and the two `process_image` variants.

Points about the code that the proofs make precise:
- **Slots 1 and 3 rank by y − x.** The comment at `src/CardCamera.py:20` says x − y, but `np.diff` along axis 1 of a row `[x, y]` computes y − x. With y pointing down, the least y − x is the top-right corner of an axis-aligned rectangle (`AxisRectCanonical`), so the code is right and the comment is wrong about the sign.
- **No check on the frame size.** Nothing checks that the truncated width and height are positive, and `int(rect[1][0])` may be 0. `ZeroWidthFrameNotCanonical` shows that the destination corners then stop being in corner order.
- **Idempotence needs distinct keys.** Ordering twice is not idempotent for every convex quadrilateral with distinct corners: a square turned 45° is a counterexample (`DiamondNotIdempotent`). Idempotence is proved when the x + y keys are pairwise distinct and the y − x keys are pairwise distinct (`Idempotent`).
- **One failure after the null check.** Once `homography` has passed its null check, the only failure is whatever OpenCV raises (`OpenCvFailure`).

## Model

| member | source | states |
|---|---|---|
| Extremes.ArgMin | src/ImageProcessor.py:13-16 | `np.argmin` returns an index that holds a minimal key, and every earlier index holds a strictly larger key, so ties go to the lowest index |
| Extremes.ArgMax | src/CardCamera.py:17-23 | `np.argmax` returns an index that holds a maximal key, and every earlier index holds a strictly smaller key |
| Extremes.FirstExtremeUnique | my_tarot_cross/src/python.py:58-62 | at most one index can be the first minimum (or the first maximum), so each of the four picks is fully determined |
| Geometry.KeysDeterminePoint | src/ImageProcessor.py:12-15 | the two ranking keys, `pts.sum(axis=1)` = x + y and `np.diff(pts, axis=1)` = y − x, agree for two points exactly when the points are equal (`Geometry.Key` defines them) |
| Geometry.TruncQuad | src/ImageProcessor.py:46-47 | `np.int32(box)` turns every corner coordinate into a whole number that is no farther from zero than the float and less than 1 away from it |
| Geometry.Trunc | src/ImageProcessor.py:47-50 | `int(...)` and `np.int32(...)` round toward zero: for a non-negative value the result lies in (v − 1, v], and for a negative value in [v, v + 1) |
| PointOrdering.PointOrder | src/ImageProcessor.py:9-18 | slot 0 holds the input at the first index of least x + y; slot 2 the first of greatest x + y; slot 1 the first of least y − x; slot 3 the first of greatest y − x |
| PointOrdering.PointOrderUnique | src/CardCamera.py:11-25 | any quadrilateral whose four slots obey those selection rules equals `pointOrder`'s output, so the rules are a complete reference definition |
| PointOrdering.SlotsAreInputs | src/ImageProcessor.py:11-17 | every one of the four slots holds one of the input points; no coordinate is invented |
| PointOrdering.SlotsAreExtreme | my_tarot_cross/src/python.py:56-62 | no input has smaller x + y than slot 0 or larger than slot 2; no input has smaller y − x than slot 1 or larger than slot 3 |
| PointOrdering.TiesGoToFirstIndex | src/ImageProcessor.py:13-17 | if another input ties with a slot's point on that slot's key, then the slot's point also occurs at a lower index, i.e. the tie went to the earlier index |
| PointOrdering.Idempotent | my_tarot_cross/src/python.py:54-63 | when the x + y keys are pairwise distinct and the y − x keys are pairwise distinct, ordering the ordered quadrilateral again returns it unchanged |
| PointOrdering.OrderIrrelevant | src/CardCamera.py:16-23 | under the same distinctness, the output depends only on which points are given, not on the order or repetition in which detection lists them |
| PointOrdering.AxisRectCanonical | src/CardCamera.py:20-23 | the corners of an axis-aligned rectangle, given in any order, possibly repeated, come out as [top-left, top-right, bottom-right, bottom-left]; the top-right corner is the one with least y − x. This also holds at zero width or height |
| PointOrdering.DiamondSharesSlot | src/ImageProcessor.py:12-17 | for every square turned 45°, listed west, south, east, north, the output is [west, east, south, west]: the west corner fills both slot 0 and slot 3, so the output is not always a permutation of the input |
| PointOrdering.DiamondNotIdempotent | my_tarot_cross/src/python.py:57-62 | for such a square, whose four corners are distinct, ordering twice moves slot 2 from the south corner to the east corner, because of the tie-break |
| PointOrdering.DiamondOrderMatters | src/CardCamera.py:16-18 | the same square listed from the east corner comes out as [north, east, east, west], not [west, east, south, west]: with ties, input order decides |
| Detection.LargestContour | src/ImageProcessor.py:29-30 | `max(contours, key=contourArea)` fails with NoContour exactly when there are no contours; otherwise it returns the contour at the first index of largest area |
| Detection.Approximation | my_tarot_cross/src/python.py:70-77 | the detection path fails exactly when edge detection finds no external contour; otherwise its polygon is the approximation of the contour at the first index of largest area |
| Detection.ValidateQuad | src/CardCamera.py:45-48 | succeeds exactly when the polygon has 4 vertices, and then returns them in corner order; any other count raises InvalidContour and is never coerced to 4 |
| ImageProcessor.DetectEdges | src/ImageProcessor.py:20-39 | a null image raises ImageIsNull even when a quadrilateral is supplied. A supplied quadrilateral succeeds exactly when it has 4 points, and its result slots follow the ordering rules over those 4 points. Without one, NoContour is raised exactly when there is no contour. Otherwise it succeeds exactly when the largest contour's approximation has 4 vertices, the result slots follow the ordering rules over those vertices, and any failure is InvalidContour |
| ImageProcessor.SuppliedQuadBypassesDetection | my_tarot_cross/src/python.py:68-79 | with a supplied quadrilateral, the result does not depend on the detector or on the image's pixels |
| ImageProcessor.ProcessImage | src/ImageProcessor.py:59-65 | any error from `detectEdges` comes back unchanged, and otherwise the result is `homography` of its corners (same in my_tarot_cross/src/python.py:104-108). It never reports "No card detected", because `homography`'s null check is unreachable from here |
| Rectification.FrameCorners | src/ImageProcessor.py:53 | `dst_pts` puts the origin in slot 0 and (w−1, h−1) in slot 2; the top-right corner shares the top-left corner's row and the bottom-right corner's column, and the bottom-left corner shares the top-left corner's column and the bottom-right corner's row. For a frame at least 1 × 1 every corner is a pixel of the w × h raster |
| Rectification.FrameCornersCanonical | src/ImageProcessor.py:53 | for every frame at least 1 × 1, the destination corners [(0,0),(w−1,0),(w−1,h−1),(0,h−1)] are a fixed point of `pointOrder` |
| Rectification.ZeroWidthFrameNotCanonical | src/ImageProcessor.py:49-53 | at width 0 (a degenerate rectangle), `pointOrder` would put (−1,0) rather than (0,0) in slot 0 of the destination corners |
| Rectification.PlanWarp | my_tarot_cross/src/python.py:90-98 | the frame size is the minimum-area rectangle's width and height truncated toward zero. The source corners follow the ordering rules over the truncated box corners. The destination is the frame's corner list |
| Rectification.PlanDestinationCanonical | src/CardCamera.py:78-85 | whenever the truncated width and height are at least 1, the destination corners are in the same corner order as the source corners, so slot i is sent to slot i |
| Rectification.AxisAlignedBoxCorrespondence | src/ImageProcessor.py:45-54 | if the truncated box is an axis-aligned rectangle, in whatever order `boxPoints` lists it, its top-left corner is sent to (0,0), top-right to (w−1,0), bottom-right to (w−1,h−1), and bottom-left to (0,h−1) |
| Rectification.Homography | src/ImageProcessor.py:41-57 | `None` points raise NoCardDetected. Otherwise the call succeeds exactly when the warp for that plan succeeds, returns the warped image, and fails only with the warp's own error |
| CardCamera.DetectEdges | src/CardCamera.py:28-48 | on success, the image comes back unchanged. NoContour is raised exactly when there is no contour. Otherwise it succeeds exactly when the largest contour's approximation has 4 vertices, and the returned slots follow the ordering rules over those vertices; any other failure is InvalidContour |
| CardCamera.DetectEdgesAgrees | src/CardCamera.py:38-46 | on every image, this variant succeeds exactly when the other module's detection path does, with the same corners or the same error |
| CardCamera.ProcessImage | src/CardCamera.py:91-98 | any detection error comes back unchanged, and otherwise the result is `homography` of the returned image and corners. It equals the other module's `process_image` with no supplied quadrilateral |

## Left out
- OpenCV internals are not modelled. This covers `cvtColor`, `GaussianBlur`, `Canny`, `findContours`, `contourArea`, `arcLength`/`approxPolyDP`, `minAreaRect`, `boxPoints`, `getPerspectiveTransform` and `warpPerspective`. They are floating-point foreign code, so they enter as the caller-supplied functions of `OpenCv.Library`. Their fixed parameters (5 × 5 blur, Canny 50/150, external contours, 2% of the perimeter) are named only in that record's comments.
- Float32 rounding and int32 overflow are not modelled. Coordinates are exact reals; `np.int32` of the box is modelled only as truncation toward zero, without wrap-around. In float32, x + y and y − x can round, which may create or break ties the model does not see.
- A supplied quadrilateral is assumed to have well-formed rows. If its rows are not pairs, `reshape(4, 2)` raises; the model does not cover that. Also, `src/server.py` passes the JSON list without converting it to an array, and that case is not covered either.
- The image passed to `homography` is never `None` in the model. In the composition, `detectEdges` has already rejected a null image. In `src/CardCamera.py`, a `None` image from decoding fails inside `cvtColor`, which is not modelled.
- Base64 decoding and encoding, `imdecode`/`imencode`, the Flask and SocketIO routes, and logging are I/O plumbing and are not modelled. This includes `get_image_edges` and `process_image_route` in my_tarot_cross/src/python.py:10-52, whose error swallowing is a defect of that boundary.
- `drawQuad` is debug plotting and is not modelled. `RandCard.drawCard` is randomness plus file reading and is not modelled.
