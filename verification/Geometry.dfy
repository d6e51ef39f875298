/** Rectangles of a panel whose pixels are stored row by row in one buffer.
    A pixel is named by its buffer index `i`, so every statement about images
    is a statement about indices. */
module Geometry {

  datatype Option<+T> = None | Some(value: T)

  datatype Rect = Rect(x: nat, y: nat, width: nat, height: nat)

  function Col(w: nat, i: nat): nat
    requires w > 0
  {
    i % w
  }

  function Row(w: nat, i: nat): nat
    requires w > 0
  {
    i / w
  }

  /** The buffer index of the pixel in column `x` of row `y`. */
  function At(w: nat, x: nat, y: nat): nat {
    y * w + x
  }

  /** The number of pixels of a panel. */
  function Size(w: nat, h: nat): nat {
    w * h
  }

  function Full(w: nat, h: nat): Rect {
    Rect(0, 0, w, h)
  }

  /** What `validate_rect` accepts: nonempty and inside the panel. */
  predicate ValidRect(w: nat, h: nat, r: Rect) {
    && r.width != 0
    && r.height != 0
    && r.x + r.width <= w
    && r.y + r.height <= h
  }

  ghost predicate AllValid(w: nat, h: nat, rects: seq<Rect>) {
    forall k :: 0 <= k < |rects| ==> ValidRect(w, h, rects[k])
  }

  predicate InRect(w: nat, r: Rect, i: nat)
    requires w > 0
  {
    && r.x <= Col(w, i) < r.x + r.width
    && r.y <= Row(w, i) < r.y + r.height
  }

  ghost predicate Covered(w: nat, rects: seq<Rect>, i: nat)
    requires w > 0
  {
    exists k :: 0 <= k < |rects| && InRect(w, rects[k], i)
  }

  /** The interval test used by the surface and by the frame validator. */
  predicate Overlaps(a: Rect, b: Rect) {
    && a.x < b.x + b.width
    && b.x < a.x + a.width
    && a.y < b.y + b.height
    && b.y < a.y + a.height
  }

  ghost predicate PairwiseDisjoint(rects: seq<Rect>) {
    forall j, k :: 0 <= j < k < |rects| ==> !Overlaps(rects[j], rects[k])
  }

  function Area(r: Rect): nat {
    Size(r.width, r.height)
  }

  function TotalArea(rects: seq<Rect>): nat {
    if rects == [] then 0 else TotalArea(rects[..|rects| - 1]) + Area(rects[|rects| - 1])
  }

  // ---------------------------------------------------------------- indices

  lemma Multiple(a: int, w: int)
    requires w > 0 && -w < a * w < w
    ensures a == 0
  {
  }

  lemma IndexSplit(w: nat, x: nat, y: nat)
    requires x < w
    ensures Col(w, At(w, x, y)) == x && Row(w, At(w, x, y)) == y
  {
    var i := At(w, x, y);
    assert i == i / w * w + i % w;
    assert (i / w - y) * w == x - i % w;
    Multiple(i / w - y, w);
  }

  lemma IndexBound(w: nat, h: nat, x: nat, y: nat)
    requires x < w && y < h
    ensures At(w, x, y) < Size(w, h)
  {
    assert (y + 1) * w <= h * w;
  }

  lemma IndexJoin(w: nat, i: nat)
    requires w > 0
    ensures Col(w, i) < w && At(w, Col(w, i), Row(w, i)) == i
  {
  }

  lemma RowBound(w: nat, h: nat, i: nat)
    requires w > 0 && i < Size(w, h)
    ensures Row(w, i) < h && Col(w, i) < w && At(w, Col(w, i), Row(w, i)) == i
  {
  }

  /** One row of a rectangle is a contiguous run of the buffer. */
  lemma RowRun(w: nat, x: nat, width: nat, y: nat, i: nat)
    requires w > 0 && x + width <= w
    ensures (Row(w, i) == y && x <= Col(w, i) < x + width) <==> At(w, x, y) <= i < At(w, x, y) + width
  {
    IndexJoin(w, i);
    if At(w, x, y) <= i < At(w, x, y) + width {
      IndexSplit(w, i - y * w, y);
    }
  }

  lemma RunInside(w: nat, h: nat, x: nat, width: nat, y: nat)
    requires 0 < width && x + width <= w && y < h
    ensures At(w, x, y) + width <= Size(w, h)
  {
    IndexBound(w, h, x + width - 1, y);
  }

  lemma FullCovers(w: nat, h: nat, i: nat)
    requires w > 0 && i < Size(w, h)
    ensures InRect(w, Full(w, h), i) && Covered(w, [Full(w, h)], i)
  {
    RowBound(w, h, i);
    assert InRect(w, [Full(w, h)][0], i);
  }

  lemma CoveredIntro(w: nat, rects: seq<Rect>, k: nat, i: nat)
    requires w > 0 && k < |rects| && InRect(w, rects[k], i)
    ensures Covered(w, rects, i)
  {
  }

  lemma CoveredOne(w: nat, r: Rect, i: nat)
    requires w > 0
    ensures Covered(w, [r], i) <==> InRect(w, r, i)
  {
    assert InRect(w, r, i) ==> InRect(w, [r][0], i);
  }

  lemma CoveredConcat(w: nat, a: seq<Rect>, b: seq<Rect>, i: nat)
    requires w > 0
    ensures Covered(w, a + b, i) <==> Covered(w, a, i) || Covered(w, b, i)
  {
    hide InRect;
    if Covered(w, a, i) {
      var k :| 0 <= k < |a| && InRect(w, a[k], i);
      assert (a + b)[k] == a[k];
    }
    if Covered(w, b, i) {
      var k :| 0 <= k < |b| && InRect(w, b[k], i);
      assert (a + b)[|a| + k] == b[k];
    }
  }

  lemma CoveredSnoc(w: nat, rects: seq<Rect>, i: nat)
    requires w > 0 && rects != []
    ensures Covered(w, rects, i) <==>
            Covered(w, rects[..|rects| - 1], i) || InRect(w, rects[|rects| - 1], i)
  {
    hide InRect;
    var init := rects[..|rects| - 1];
    assert rects == init + [rects[|rects| - 1]];
    CoveredConcat(w, init, [rects[|rects| - 1]], i);
    CoveredOne(w, rects[|rects| - 1], i);
  }

  lemma RectInside(w: nat, h: nat, r: Rect, i: nat)
    requires w > 0 && ValidRect(w, h, r) && InRect(w, r, i)
    ensures i < Size(w, h)
  {
    hide Col, Row, At, Size;
    IndexBound(w, h, Col(w, i), Row(w, i));
    IndexJoin(w, i);
  }

  lemma CoveredInside(w: nat, h: nat, rects: seq<Rect>, i: nat)
    requires w > 0 && AllValid(w, h, rects) && Covered(w, rects, i)
    ensures i < Size(w, h)
  {
    hide InRect, Size;
    var k :| 0 <= k < |rects| && InRect(w, rects[k], i);
    RectInside(w, h, rects[k], i);
  }

  /** The interval test is exact: it holds just when some pixel is shared. */
  lemma OverlapsExact(w: nat, h: nat, a: Rect, b: Rect)
    requires w > 0 && ValidRect(w, h, a) && ValidRect(w, h, b)
    ensures Overlaps(a, b) <==> exists i: nat :: InRect(w, a, i) && InRect(w, b, i)
  {
    hide Col, Row, At;
    if Overlaps(a, b) {
      var x := if a.x < b.x then b.x else a.x;
      var y := if a.y < b.y then b.y else a.y;
      IndexSplit(w, x, y);
      assert InRect(w, a, At(w, x, y)) && InRect(w, b, At(w, x, y));
    }
  }
}
