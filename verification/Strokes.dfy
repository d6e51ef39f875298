/** What a pen stroke leaves on a plane, said without the way it is drawn: a chain
    of nib positions from one end of the segment to the other, without gaps, and
    nothing away from the segment. */
module Strokes {
  import opened Geometry
  import opened Pixels
  import opened Raster
  import opened Tiles
  import opened Ink

  /** Pixel (x, y) lies under a nib that stands on `c`. */
  predicate Under(x: int, y: int, c: Point, radius: nat) {
    (x - c.x) * (x - c.x) + (y - c.y) * (y - c.y) <= radius * radius
  }

  ghost predicate UnderSome(x: int, y: int, centres: seq<Point>, radius: nat) {
    exists k :: 0 <= k < |centres| && Under(x, y, centres[k], radius)
  }

  predicate Neighbours(a: Point, b: Point) {
    -1 <= a.x - b.x <= 1 && -1 <= a.y - b.y <= 1
  }

  /** Nib positions from one point to the other without a gap. */
  predicate Chain(centres: seq<Point>, from: Point, to: Point) {
    && |centres| > 0 && centres[0] == from && centres[|centres| - 1] == to
    && forall k :: 0 <= k < |centres| - 1 ==> Neighbours(centres[k], centres[k + 1])
  }

  /** The point of the segment at `t`, and whether a pixel is within reach of it. */
  predicate Reaches(x: int, y: int, from: Point, to: Point, t: real, reach: real) {
    var dx := x as real - (from.x as real + (to.x - from.x) as real * t);
    var dy := y as real - (from.y as real + (to.y - from.y) as real * t);
    dx * dx + dy * dy <= reach * reach
  }

  ghost predicate NearSegment(x: int, y: int, from: Point, to: Point, reach: real) {
    exists t: real :: 0.0 <= t <= 1.0 && Reaches(x, y, from, to, t, reach)
  }

  // ------------------------------------------------------------- arithmetic

  lemma MulLess(a: nat, b: nat, c: nat)
    requires a * c < b * c
    ensures a < b
  {
    if b <= a { MulMono(b, a, c); }
  }

  lemma MulMono(a: nat, b: nat, c: nat)
    requires a <= b
    ensures a * c <= b * c
  {
  }

  lemma QuotientBounds(a: nat, b: nat)
    requires b > 0
    ensures a / b * b <= a < (a / b + 1) * b
  {
  }

  lemma QuotientOf(a: nat, b: nat, q: nat)
    requires b > 0 && q * b <= a < (q + 1) * b
    ensures a / b == q
  {
    QuotientBounds(a, b);
    MulLess(a / b, q + 1, b);
    MulLess(q, a / b + 1, b);
  }

  /** Truncation is less than one unit away. */
  lemma TruncClose(a: int, b: int)
    requires b > 0
    ensures -b < TruncDiv(a, b) * b - a < b
  {
    QuotientBounds(Abs(a), b);
    var q := Abs(a) / b;
    assert (q + 1) * b == q * b + b;
    if a < 0 {
      assert TruncDiv(a, b) == -q;
      assert -q * b == -(q * b);
    }
  }

  lemma TruncExact(d: int, b: int)
    requires b > 0
    ensures TruncDiv(d * b, b) == d
  {
    if d >= 0 {
      assert d * b >= 0;
      QuotientOf(d * b, b, d);
    } else {
      assert -(d * b) == -d * b && -d * b > 0;
      QuotientOf(-d * b, b, -d);
    }
  }

  /** One more step moves a quotient by at most one. */
  lemma QuotientStep(a: nat, d: nat, b: nat)
    requires b > 0 && d <= b
    ensures a / b <= (a + d) / b <= a / b + 1
  {
    var q, r := a / b, (a + d) / b;
    QuotientBounds(a, b);
    QuotientBounds(a + d, b);
    MulLess(q, r + 1, b);
    OneMore(q + 1, b);
    MulLess(r, q + 2, b);
  }

  lemma OneMore(q: nat, b: nat)
    ensures (q + 1) * b == q * b + b
  {
  }

  lemma TruncStep(d: int, k: nat, b: int)
    requires b > 0 && -b <= d <= b
    ensures -1 <= TruncDiv(d * (k + 1), b) - TruncDiv(d * k, b) <= 1
  {
    if d >= 0 {
      Stepped(d, k);
      QuotientStep(d * k, d, b);
    } else {
      Stepped(-d, k);
      Negated(d, k);
      Negated(d, k + 1);
      QuotientStep(-d * k, -d, b);
    }
  }

  lemma Stepped(d: nat, k: nat)
    ensures d * (k + 1) == d * k + d && d * k >= 0
  {
  }

  lemma Negated(d: int, k: nat)
    ensures -(d * k) == -d * k
  {
  }

  // ------------------------------------------------------------- the chain

  function Centre(from: Point, to: Point, k: nat): Point
    requires k <= Steps(from, to)
  {
    var n := Steps(from, to);
    AlongBetween(from.x, to.x, k, n);
    AlongBetween(from.y, to.y, k, n);
    Point(Along(from.x, to.x, k, n), Along(from.y, to.y, k, n))
  }

  function Centres(from: Point, to: Point): (r: seq<Point>)
    ensures |r| == Steps(from, to) + 1
    ensures forall k :: 0 <= k < |r| ==> r[k] == Centre(from, to, k)
  {
    seq(Steps(from, to) + 1, k requires 0 <= k < Steps(from, to) + 1 => Centre(from, to, k))
  }

  lemma CentresChain(from: Point, to: Point)
    ensures Chain(Centres(from, to), from, to)
  {
    hide TruncDiv, Steps;
    var n := Steps(from, to);
    var centres := Centres(from, to);
    StepsCover(from, to);
    assert Centre(from, to, 0) == from by {
      TruncExact(0, n);
      Nothing(to.x - from.x, n);
      Nothing(to.y - from.y, n);
    }
    assert Centre(from, to, n) == to by {
      TruncExact(to.x - from.x, n);
      TruncExact(to.y - from.y, n);
    }
    forall k | 0 <= k < |centres| - 1 ensures Neighbours(centres[k], centres[k + 1]) {
      TruncStep(to.x - from.x, k, n);
      TruncStep(to.y - from.y, k, n);
    }
  }

  lemma Nothing(d: int, n: nat)
    ensures d * 0 == 0 * n
  {
  }

  lemma StepsCover(from: Point, to: Point)
    ensures var n := Steps(from, to);
            && n > 0 && 0 - n <= to.x - from.x <= n && 0 - n <= to.y - from.y <= n
            && (Abs(to.x - from.x) == n || Abs(to.y - from.y) == n || from == to)
  {
  }

  /** The discs of the stroke are those of the chain. */
  lemma StrokeIsChain(w: nat, h: nat, from: Point, to: Point, radius: nat, x: nat, y: nat)
    requires x < w && y < h
    ensures Stroke(w, from, to, radius, Steps(from, to) + 1, At(w, x, y))
            <==> UnderSome(x, y, Centres(from, to), radius)
  {
    hide Along, Steps, Col, Row, At;
    IndexSplit(w, x, y);
    var n := Steps(from, to) + 1;
    var centres := Centres(from, to);
    forall k: nat | k < n
      ensures DiscAt(w, from, to, radius, k, At(w, x, y)) <==> Under(x, y, centres[k], radius)
    {
    }
    if Stroke(w, from, to, radius, n, At(w, x, y)) {
      var k: nat :| k < n && DiscAt(w, from, to, radius, k, At(w, x, y));
      assert Under(x, y, centres[k], radius);
    }
    if UnderSome(x, y, centres, radius) {
      var k :| 0 <= k < |centres| && Under(x, y, centres[k], radius);
      assert DiscAt(w, from, to, radius, k, At(w, x, y));
    }
  }

  // ------------------------------------------------------------ the segment

  /** How far a coordinate of the pen is from the exact one. */
  function Off(from: nat, to: nat, k: nat, n: nat): real
    requires n > 0
  {
    Along(from, to, k, n) as real - (from as real + (to - from) as real * (k as real / n as real))
  }

  lemma OffScaled(from: nat, to: nat, k: nat, n: nat)
    requires n > 0
    ensures Off(from, to, k, n) * n as real == (TruncDiv((to - from) * k, n) * n - (to - from) * k) as real
  {
    hide TruncDiv;
    var d, q := to - from, TruncDiv((to - from) * k, n);
    var t := k as real / n as real;
    assert t * n as real == k as real;
    assert Off(from, to, k, n) == q as real - d as real * t;
    assert (q as real - d as real * t) * n as real == q as real * n as real - d as real * (t * n as real);
    assert (q * n) as real == q as real * n as real;
    assert (d * k) as real == d as real * k as real;
  }

  lemma OffSmall(from: nat, to: nat, k: nat, n: nat)
    requires n > 0
    ensures -1.0 < Off(from, to, k, n) < 1.0
    ensures Abs(to - from) == n || from == to ==> Off(from, to, k, n) == 0.0
  {
    hide Off, TruncDiv;
    var m := TruncDiv((to - from) * k, n) * n - (to - from) * k;
    assert Off(from, to, k, n) * n as real == m as real by { OffScaled(from, to, k, n); }
    assert -(n as int) < m < n && (Abs(to - from) == n || from == to ==> m == 0) by { TruncOff(to - from, k, n); }
    Unscale(Off(from, to, k, n), m, n);
  }

  /** The same on integers, scaled by the number of steps. */
  lemma TruncOff(d: int, k: nat, n: int)
    requires n > 0
    ensures -n < TruncDiv(d * k, n) * n - d * k < n
    ensures d == n || d == -n || d == 0 ==> TruncDiv(d * k, n) * n - d * k == 0
  {
    hide TruncDiv;
    TruncClose(d * k, n);
    if d == n {
      TruncExact(k, n);
    } else if d == -n {
      TruncExact(-(k as int), n);
      Negated(n, k);
    } else if d == 0 {
      TruncExact(0, n);
    }
  }

  lemma Unscale(e: real, m: int, n: nat)
    requires n > 0 && e * n as real == m as real && -(n as int) < m < n
    ensures -1.0 < e < 1.0
    ensures m == 0 ==> e == 0.0
  {
    Scales(e, n as real);
  }

  lemma Scales(e: real, r: real)
    requires r > 0.0
    ensures e >= 1.0 ==> e * r >= r
    ensures e <= -1.0 ==> e * r <= -r
    ensures e > 0.0 ==> e * r > 0.0
    ensures e < 0.0 ==> e * r < 0.0
  {
    if e >= 1.0 {
      NotPositive(1.0 - e, r);
      assert (1.0 - e) * r == r - e * r;
    } else if e <= -1.0 {
      NotPositive(e + 1.0, r);
      assert (e + 1.0) * r == e * r + r;
    }
    if e > 0.0 { Positive(e, r); }
    if e < 0.0 { Positive(-e, r); }
  }

  /** A disc around a point that is off by less than one in one coordinate only
      stays within a radius that is larger by one. */
  lemma DiscReaches(a: real, b: real, e: real, r: real)
    requires a * a + b * b <= r * r && r >= 0.0 && -1.0 < e < 1.0
    ensures a * a + (b + e) * (b + e) <= (r + 1.0) * (r + 1.0)
  {
    assert -r <= b <= r by {
      if b > r { Positive(b - r, b + r); }
      if b < -r { Positive(-b - r, r - b); }
      assert a * a >= 0.0;
    }
    assert (b + e) * (b + e) == b * b + 2.0 * (b * e) + e * e;
    assert b * e <= r by { Bounded(b, e, r); }
    assert e * e <= 1.0 by { Bounded(e, e, 1.0); }
    assert (r + 1.0) * (r + 1.0) == r * r + 2.0 * r + 1.0;
  }

  lemma Bounded(b: real, e: real, r: real)
    requires -r <= b <= r && -1.0 < e < 1.0 && r >= 0.0
    ensures b * e <= r
  {
    if b >= 0.0 {
      NotPositive(e - 1.0, b);
      assert (e - 1.0) * b == b * e - b;
    } else {
      NotPositive(b, e + 1.0);
      assert b * (e + 1.0) == b * e + b;
    }
  }

  lemma NotPositive(x: real, y: real)
    requires x <= 0.0 && y >= 0.0
    ensures x * y <= 0.0
  {
  }

  lemma Positive(x: real, y: real)
    requires x > 0.0 && y > 0.0
    ensures x * y > 0.0
  {
  }

  /** One coordinate is exact, the other is off by less than one. */
  lemma CentreOff(from: Point, to: Point, k: nat)
    ensures var n := Steps(from, to);
            var ex, ey := Off(from.x, to.x, k, n), Off(from.y, to.y, k, n);
            -1.0 < ex < 1.0 && -1.0 < ey < 1.0 && (ex == 0.0 || ey == 0.0)
  {
    hide Steps, Off;
    StepsCover(from, to);
    OffSmall(from.x, to.x, k, Steps(from, to));
    OffSmall(from.y, to.y, k, Steps(from, to));
  }

  lemma CentreNear(from: Point, to: Point, k: nat, radius: nat, x: nat, y: nat)
    requires k <= Steps(from, to) && Under(x, y, Centre(from, to, k), radius)
    ensures NearSegment(x, y, from, to, radius as real + 1.0)
  {
    hide Along, Steps, Off, Reaches, Under;
    var n := Steps(from, to);
    StepsCover(from, to);
    var t := k as real / n as real;
    assert 0.0 <= t <= 1.0 by { Fraction(k, n); }
    CentreOff(from, to, k);
    OffBy(from.x, to.x, k, n, x);
    OffBy(from.y, to.y, k, n, y);
    NibReaches(x, y, Centre(from, to, k), radius, from, to, t, Off(from.x, to.x, k, n), Off(from.y, to.y, k, n));
  }

  /** A nib that stands beside the point at `t` by less than one in one
      coordinate only. */
  lemma NibReaches(x: int, y: int, c: Point, radius: nat, from: Point, to: Point, t: real, ex: real, ey: real)
    requires Under(x, y, c, radius)
    requires -1.0 < ex < 1.0 && -1.0 < ey < 1.0 && (ex == 0.0 || ey == 0.0)
    requires x as real - (from.x as real + (to.x - from.x) as real * t) == (x - c.x) as real + ex
    requires y as real - (from.y as real + (to.y - from.y) as real * t) == (y - c.y) as real + ey
    ensures Reaches(x, y, from, to, t, radius as real + 1.0)
  {
    NibDistance(x - c.x, y - c.y, ex, ey, radius);
  }

  lemma NibDistance(a: int, b: int, ex: real, ey: real, radius: nat)
    requires a * a + b * b <= radius * radius
    requires -1.0 < ex < 1.0 && -1.0 < ey < 1.0 && (ex == 0.0 || ey == 0.0)
    ensures var dx, dy, reach := a as real + ex, b as real + ey, radius as real + 1.0; dx * dx + dy * dy <= reach * reach
  {
    Widened(a, b, radius);
    if ex == 0.0 {
      DiscReaches(a as real, b as real, ey, radius as real);
    } else {
      DiscReaches(b as real, a as real, ex, radius as real);
    }
  }

  lemma OffBy(from: nat, to: nat, k: nat, n: nat, x: int)
    requires n > 0
    ensures x as real - (from as real + (to - from) as real * (k as real / n as real))
         == (x - Along(from, to, k, n)) as real + Off(from, to, k, n)
  {
    hide Along;
  }

  lemma Fraction(k: nat, n: nat)
    requires n > 0 && k <= n
    ensures 0.0 <= k as real / n as real <= 1.0
  {
  }

  lemma Widened(a: int, b: int, r: nat)
    requires a * a + b * b <= r * r
    ensures a as real * a as real + b as real * b as real <= r as real * r as real
  {
    assert (a * a) as real == a as real * a as real;
    assert (b * b) as real == b as real * b as real;
    assert (r * r) as real == r as real * r as real;
  }

  // ------------------------------------------------------------- the stroke

  /** A stroke marks exactly the pixels under a nib that moves from one end to the
      other without a gap: black and opaque, or clear when erasing. In particular
      both ends are marked, and no pixel changes that is farther from the segment
      than the radius and one pixel. */
  lemma StrokeDrawn(w: nat, h: nat, p: Plane, from: Point, to: Point, radius: nat, erase: bool)
    returns (centres: seq<Point>)
    requires w > 0 && h > 0 && PlaneOk(w, h, p)
    requires OnPanel(w, h, from) && OnPanel(w, h, to)
    ensures Chain(centres, from, to)
    ensures forall x: nat, y: nat | x < w && y < h :: At(w, x, y) < Size(w, h)
    ensures var q := InkLine(w, h, p, from, to, radius, erase);
            forall x: nat, y: nat | x < w && y < h ::
              var i := At(w, x, y);
              && (UnderSome(x, y, centres, radius) ==> q.luma[i] == 0 && q.alpha[i] == if erase then 0 else 255)
              && (!UnderSome(x, y, centres, radius) ==> q.luma[i] == p.luma[i] && q.alpha[i] == p.alpha[i])
              && (Under(x, y, from, radius) || Under(x, y, to, radius) ==> UnderSome(x, y, centres, radius))
              && (UnderSome(x, y, centres, radius) ==> NearSegment(x, y, from, to, radius as real + 1.0))
  {
    hide Along, Steps, At, Size, Under, Stroke, NearSegment;
    centres := Centres(from, to);
    CentresChain(from, to);
    forall x: nat, y: nat | x < w && y < h ensures At(w, x, y) < Size(w, h) {
      IndexBound(w, h, x, y);
    }
    forall x: nat, y: nat | x < w && y < h
      ensures UnderSome(x, y, centres, radius) <==> Stroke(w, from, to, radius, Steps(from, to) + 1, At(w, x, y))
      ensures Under(x, y, from, radius) || Under(x, y, to, radius) ==> UnderSome(x, y, centres, radius)
      ensures UnderSome(x, y, centres, radius) ==> NearSegment(x, y, from, to, radius as real + 1.0)
    {
      StrokeIsChain(w, h, from, to, radius, x, y);
      if UnderSome(x, y, centres, radius) {
        var k :| 0 <= k < |centres| && Under(x, y, centres[k], radius);
        CentreNear(from, to, k, radius, x, y);
      }
    }
  }
}
