/** Edits of a local plane: clearing, patching, and pen strokes with their
    dirty rectangle. */
module Ink {
  import opened Geometry
  import opened Pixels
  import opened Raster
  import opened Tiles

  datatype Point = Point(x: nat, y: nat)

  predicate OnPanel(w: nat, h: nat, p: Point) {
    p.x < w && p.y < h
  }

  /** Division that truncates toward zero, as on machine integers. */
  function TruncDiv(a: int, b: int): int
    requires b > 0
  {
    if a >= 0 then a / b else -(-a / b)
  }

  function Abs(a: int): nat {
    if a < 0 then -a else a
  }

  function Steps(from: Point, to: Point): nat {
    Max(Max(Abs(to.x - from.x), Abs(to.y - from.y)), 1)
  }

  /** One coordinate of the pen after `step` of `steps` steps. */
  function Along(from: int, to: int, step: nat, steps: nat): int
    requires steps > 0
  {
    from + TruncDiv((to - from) * step, steps)
  }

  function Square(a: int): int {
    a * a
  }

  predicate Disc(w: nat, cx: int, cy: int, radius: nat, i: nat)
    requires w > 0
  {
    Square(Col(w, i) - cx) + Square(Row(w, i) - cy) <= Square(radius)
  }

  /** Pixel `i` is under the nib at one of the first `n` steps. */
  ghost predicate Stroke(w: nat, from: Point, to: Point, radius: nat, n: nat, i: nat)
    requires w > 0
  {
    exists step: nat :: step < n && DiscAt(w, from, to, radius, step, i)
  }

  predicate DiscAt(w: nat, from: Point, to: Point, radius: nat, step: nat, i: nat)
    requires w > 0
  {
    var steps := Steps(from, to);
    Disc(w, Along(from.x, to.x, step, steps), Along(from.y, to.y, step, steps), radius, i)
  }

  function Union(a: Rect, b: Rect): Rect {
    var x := Min(a.x, b.x);
    var y := Min(a.y, b.y);
    Rect(x, y, Max(a.x + a.width, b.x + b.width) - x, Max(a.y + a.height, b.y + b.height) - y)
  }

  function SatSub(a: nat, b: nat): nat {
    if a < b then 0 else a - b
  }

  /** The rectangle that a stroke adds to the dirty area. */
  function StrokeRect(w: nat, h: nat, from: Point, to: Point, radius: nat): Rect
    requires OnPanel(w, h, from) && OnPanel(w, h, to)
  {
    var left := SatSub(Min(from.x, to.x), radius);
    var top := SatSub(Min(from.y, to.y), radius);
    var right := Min(Max(from.x, to.x) + radius + 1, w);
    var bottom := Min(Max(from.y, to.y) + radius + 1, h);
    Rect(left, top, right - left, bottom - top)
  }

  ghost function InkLine(w: nat, h: nat, p: Plane, from: Point, to: Point, radius: nat, erase: bool): (r: Plane)
    requires w > 0 && |p.luma| == |p.alpha| == Size(w, h)
    requires OnPanel(w, h, from) && OnPanel(w, h, to)
    ensures |r.luma| == |r.alpha| == Size(w, h)
  {
    var n := Steps(from, to) + 1;
    var rect := StrokeRect(w, h, from, to, radius);
    Plane(
      seq(|p.luma|, i requires 0 <= i < |p.luma| =>
        if Stroke(w, from, to, radius, n, i) then 0 else p.luma[i]),
      seq(|p.alpha|, i requires 0 <= i < |p.alpha| =>
        if Stroke(w, from, to, radius, n, i) then if erase then 0 else 255 else p.alpha[i]),
      false,
      Some(if p.dirty.Some? then Union(rect, p.dirty.value) else rect))
  }

  /** Alpha to zero everywhere; the luma stays, the dirty rectangle is lost. */
  function Cleared(p: Plane): Plane {
    Plane(p.luma, seq(|p.alpha|, _ => 0), true, None)
  }

  function AllZero(alpha: seq<bv8>): bool {
    forall i :: 0 <= i < |alpha| ==> alpha[i] == 0
  }

  predicate PatchOk(w: nat, h: nat, r: Rect, luma: seq<bv8>, alpha: seq<bv8>) {
    w != 0 && ValidRect(w, h, r) && |luma| == |alpha| == Area(r)
  }

  /** The samples of a patch are row-major inside its rectangle. */
  function PatchIndex(w: nat, r: Rect, i: nat): (k: nat)
    requires w > 0 && InRect(w, r, i)
    ensures k < Area(r)
  {
    IndexBound(r.width, r.height, Col(w, i) - r.x, Row(w, i) - r.y);
    At(r.width, Col(w, i) - r.x, Row(w, i) - r.y)
  }

  function Overwritten(w: nat, old_: seq<bv8>, r: Rect, samples: seq<bv8>): (res: seq<bv8>)
    requires w > 0 && |samples| == Area(r)
    ensures |res| == |old_|
  {
    seq(|old_|, i requires 0 <= i < |old_| => if InRect(w, r, i) then samples[PatchIndex(w, r, i)] else old_[i])
  }

  function Patched(w: nat, h: nat, p: Plane, r: Rect, luma: seq<bv8>, alpha: seq<bv8>): (q: Plane)
    requires PatchOk(w, h, r, luma, alpha)
  {
    var a := Overwritten(w, p.alpha, r, alpha);
    Plane(Overwritten(w, p.luma, r, luma), a, AllZero(a), p.dirty)
  }

  // ----------------------------------------------------------------- proofs

  lemma SquareBound(a: int, b: int, r: nat)
    requires Square(a) + Square(b) <= Square(r)
    ensures Abs(a) <= r && Abs(b) <= r
  {
    SquareOrder(a, r);
    SquareOrder(b, r);
  }

  lemma SquareOrder(a: int, r: nat)
    ensures Square(a) >= 0
    ensures Abs(a) > r ==> Square(a) > Square(r)
  {
    if Abs(a) > r {
      assert Abs(a) * Abs(a) >= (r + 1) * (r + 1);
    }
  }

  /** Truncation never carries the pen past either end of the stroke. */
  lemma AlongBetween(from: nat, to: nat, step: nat, steps: nat)
    requires step <= steps && steps > 0 && Abs(to - from) <= steps
    ensures Min(from, to) <= Along(from, to, step, steps) <= Max(from, to)
  {
    var d := to - from;
    if d >= 0 {
      ScaledBetween(d, step, steps);
    } else {
      ScaledBetween(-d, step, steps);
      assert -(d * step) == -d * step;
    }
  }

  lemma MulCancel(a: nat, b: nat, c: nat)
    requires c > 0 && a * c <= b * c
    ensures a <= b
  {
  }

  lemma ScaledBetween(d: nat, step: nat, steps: nat)
    requires step <= steps && steps > 0
    ensures 0 <= d * step / steps <= d
  {
    assert 0 <= d * step <= d * steps;
    var q := d * step / steps;
    assert q * steps <= d * step;
    MulCancel(q, d, steps);
  }

  /** A stroke changes only pixels of its own rectangle. */
  lemma StrokeInside(w: nat, h: nat, from: Point, to: Point, radius: nat, i: nat)
    requires w > 0 && h > 0 && OnPanel(w, h, from) && OnPanel(w, h, to) && i < Size(w, h)
    requires Stroke(w, from, to, radius, Steps(from, to) + 1, i)
    ensures InRect(w, StrokeRect(w, h, from, to, radius), i)
  {
    hide Col, Row, Size, Square, Along;
    var steps := Steps(from, to);
    var step: nat :| step < steps + 1 && DiscAt(w, from, to, radius, step, i);
    AlongBetween(from.x, to.x, step, steps);
    AlongBetween(from.y, to.y, step, steps);
    SquareBound(Col(w, i) - Along(from.x, to.x, step, steps), Row(w, i) - Along(from.y, to.y, step, steps), radius);
    RowBound(w, h, i);
  }

  /** Dirty-rectangle soundness: whatever the radius and however the steps were
      rounded, a stroke changes only pixels of the new dirty rectangle, which
      stays on the panel and still contains the previous one. */
  lemma InkLineDirty(w: nat, h: nat, p: Plane, from: Point, to: Point, radius: nat, erase: bool)
    requires w > 0 && h > 0 && PlaneOk(w, h, p)
    requires OnPanel(w, h, from) && OnPanel(w, h, to)
    ensures var q := InkLine(w, h, p, from, to, radius, erase);
            && PlaneOk(w, h, q)
            && q.dirty.Some?
            && (forall i :: 0 <= i < Size(w, h) && !Covered(w, DirtyRects(q), i) ==>
                  q.luma[i] == p.luma[i] && q.alpha[i] == p.alpha[i])
            && (forall i: nat :: Covered(w, DirtyRects(p), i) ==> Covered(w, DirtyRects(q), i))
  {
    hide Col, Row, Size, Stroke;
    var q := InkLine(w, h, p, from, to, radius, erase);
    var rect := StrokeRect(w, h, from, to, radius);
    forall i | 0 <= i < Size(w, h) && !Covered(w, DirtyRects(q), i)
      ensures q.luma[i] == p.luma[i] && q.alpha[i] == p.alpha[i]
    {
      CoveredOne(w, q.dirty.value, i);
      if Stroke(w, from, to, radius, Steps(from, to) + 1, i) {
        StrokeInside(w, h, from, to, radius, i);
      }
    }
    forall i: nat | Covered(w, DirtyRects(p), i) ensures Covered(w, DirtyRects(q), i) {
      CoveredOne(w, p.dirty.value, i);
      CoveredOne(w, q.dirty.value, i);
    }
  }

  lemma PatchedOk(w: nat, h: nat, p: Plane, r: Rect, luma: seq<bv8>, alpha: seq<bv8>)
    requires w > 0 && PlaneOk(w, h, p) && PatchOk(w, h, r, luma, alpha)
    ensures PlaneOk(w, h, Patched(w, h, p, r, luma, alpha))
  {
    hide Size, InRect;
  }
}
