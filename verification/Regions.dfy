/** Decoded frame regions and what writing them into an image means. */
module Regions {
  import opened Geometry
  import opened Pixels
  import opened Raster

  datatype SurfaceError = InvalidGeometry | BadRegion | BadLength | Overlap | BadOverlay

  /** A rectangle with its pixels in row-major order. */
  datatype Region = Region(rect: Rect, pixels: seq<Pixel>)

  predicate ShapeOk(w: nat, h: nat, r: Region) {
    ValidRect(w, h, r.rect) && |r.pixels| == Area(r.rect)
  }

  ghost predicate ShapesOk(w: nat, h: nat, regions: seq<Region>) {
    forall k :: 0 <= k < |regions| ==> ShapeOk(w, h, regions[k])
  }

  ghost predicate Disjoint(regions: seq<Region>) {
    forall j, k :: 0 <= j < k < |regions| ==> !Overlaps(regions[j].rect, regions[k].rect)
  }

  function Rects(regions: seq<Region>): (r: seq<Rect>)
    ensures |r| == |regions|
    ensures forall k :: 0 <= k < |r| ==> r[k] == regions[k].rect
  {
    seq(|regions|, k requires 0 <= k < |regions| => regions[k].rect)
  }

  lemma RegionOffset(w: nat, r: Region, i: nat)
    requires w > 0 && InRect(w, r.rect, i) && |r.pixels| == Area(r.rect)
    ensures At(r.rect.width, Col(w, i) - r.rect.x, Row(w, i) - r.rect.y) < |r.pixels|
  {
    hide Col, Row, At, Size;
    IndexBound(r.rect.width, r.rect.height, Col(w, i) - r.rect.x, Row(w, i) - r.rect.y);
  }

  /** The pixel that a region holds for buffer index `i`. */
  function RegionPixel(w: nat, r: Region, i: nat): Pixel
    requires w > 0 && InRect(w, r.rect, i) && |r.pixels| == Area(r.rect)
  {
    RegionOffset(w, r, i);
    r.pixels[At(r.rect.width, Col(w, i) - r.rect.x, Row(w, i) - r.rect.y)]
  }

  function ApplyOne(w: nat, dst: Image, r: Region): (res: Image)
    requires w > 0 && |r.pixels| == Area(r.rect)
    ensures |res| == |dst|
    ensures forall i :: 0 <= i < |dst| ==>
              res[i] == if InRect(w, r.rect, i) then RegionPixel(w, r, i) else dst[i]
  {
    seq(|dst|, i requires 0 <= i < |dst| => if InRect(w, r.rect, i) then RegionPixel(w, r, i) else dst[i])
  }

  /** Regions written one after the other. */
  ghost function ApplyAll(w: nat, h: nat, dst: Image, regions: seq<Region>): (res: Image)
    requires w > 0 && ShapesOk(w, h, regions)
    ensures |res| == |dst|
  {
    if regions == [] then dst
    else
      var n := |regions| - 1;
      ApplyOne(w, ApplyAll(w, h, dst, regions[..n]), regions[n])
  }

  /** The first shape error in list order, as `validate_regions` reports it. */
  function CheckShapes(w: nat, h: nat, regions: seq<Region>): (e: Option<SurfaceError>)
    ensures e.None? <==> ShapesOk(w, h, regions)
    ensures e.Some? ==> e.value == BadRegion || e.value == BadLength
  {
    if regions == [] then None
    else if !ValidRect(w, h, regions[0].rect) then Some(BadRegion)
    else if |regions[0].pixels| != Area(regions[0].rect) then Some(BadLength)
    else
      assert forall k :: 1 <= k < |regions| ==> regions[k] == regions[1..][k - 1];
      CheckShapes(w, h, regions[1..])
  }

  ghost function ValidateRegions(w: nat, h: nat, regions: seq<Region>): Option<SurfaceError> {
    match CheckShapes(w, h, regions)
    case Some(e) => Some(e)
    case None => if Disjoint(regions) then None else Some(Overlap)
  }

  /** On disjoint regions the order of writing is irrelevant: every pixel comes
      from the one region that holds it, or keeps its value. */
  lemma {:induction false} ApplyAllAt(w: nat, h: nat, dst: Image, regions: seq<Region>, i: nat)
    requires w > 0 && ShapesOk(w, h, regions) && Disjoint(regions) && i < |dst|
    ensures forall k :: 0 <= k < |regions| && InRect(w, regions[k].rect, i) ==>
              ApplyAll(w, h, dst, regions)[i] == RegionPixel(w, regions[k], i)
    ensures !Covered(w, Rects(regions), i) ==> ApplyAll(w, h, dst, regions)[i] == dst[i]
  {
    hide Col, Row, At, Size, RegionPixel, Overlaps;
    if regions != [] {
      var n := |regions| - 1;
      ApplyAllAt(w, h, dst, regions[..n], i);
      assert Rects(regions)[..n] == Rects(regions[..n]);
      CoveredSnoc(w, Rects(regions), i);
      forall k | 0 <= k < |regions| && InRect(w, regions[k].rect, i)
        ensures ApplyAll(w, h, dst, regions)[i] == RegionPixel(w, regions[k], i)
      {
        if k < n {
          OverlapsExact(w, h, regions[k].rect, regions[n].rect);
          assert regions[..n][k] == regions[k];
        }
      }
    }
  }

  /** Accepted region lists that are permutations of each other have the same
      effect. */
  lemma ApplyAllOrderFree(w: nat, h: nat, dst: Image, a: seq<Region>, b: seq<Region>)
    requires w > 0 && ValidateRegions(w, h, a).None? && ValidateRegions(w, h, b).None?
    requires multiset(a) == multiset(b)
    ensures ApplyAll(w, h, dst, a) == ApplyAll(w, h, dst, b)
  {
    hide InRect, Overlaps, ShapesOk, RegionPixel;
    forall i | 0 <= i < |dst| ensures ApplyAll(w, h, dst, a)[i] == ApplyAll(w, h, dst, b)[i] {
      ApplyAllAt(w, h, dst, a, i);
      ApplyAllAt(w, h, dst, b, i);
      if k :| 0 <= k < |a| && InRect(w, a[k].rect, i) {
        assert a[k] in multiset(b);
        var j :| 0 <= j < |b| && b[j] == a[k];
      } else {
        forall j | 0 <= j < |b| ensures !InRect(w, b[j].rect, i) {
          assert b[j] in multiset(a);
          var k :| 0 <= k < |a| && a[k] == b[j];
        }
      }
    }
  }

  /** A list that covers an image with the pixels of another image. */
  ghost predicate TakenFrom(w: nat, img: Image, regions: seq<Region>)
    requires w > 0
  {
    forall k, i ::
      (&& 0 <= k < |regions|
       && 0 <= i < |img|
       && InRect(w, regions[k].rect, i)
       && |regions[k].pixels| == Area(regions[k].rect)) ==>
        RegionPixel(w, regions[k], i) == img[i]
  }

  /** Disjoint regions cut from `current`, covering every pixel where it differs
      from `previous`, rebuild `current`. */
  lemma ApplyTaken(w: nat, h: nat, previous: Image, current: Image, regions: seq<Region>)
    requires w > 0 && |previous| == |current| && ShapesOk(w, h, regions) && Disjoint(regions)
    requires TakenFrom(w, current, regions)
    requires forall i :: 0 <= i < |current| && !Covered(w, Rects(regions), i) ==> previous[i] == current[i]
    ensures ApplyAll(w, h, previous, regions) == current
  {
    hide InRect, Overlaps, RegionPixel;
    forall i | 0 <= i < |current| ensures ApplyAll(w, h, previous, regions)[i] == current[i] {
      ApplyAllAt(w, h, previous, regions, i);
      if Covered(w, Rects(regions), i) {
        var k :| 0 <= k < |Rects(regions)| && InRect(w, Rects(regions)[k], i);
        assert ShapeOk(w, h, regions[k]);
      }
    }
  }

  lemma RegionRow(w: nat, region: Region, row: nat, i: nat)
    requires w > 0 && region.rect.x + region.rect.width <= w && row < region.rect.height
    requires |region.pixels| == Area(region.rect)
    ensures InRect(w, region.rect, i) && Row(w, i) == region.rect.y + row ==>
              && 0 <= At(region.rect.width, 0, row) + i - At(w, region.rect.x, region.rect.y + row) < |region.pixels|
              && RegionPixel(w, region, i)
                 == region.pixels[At(region.rect.width, 0, row) + i - At(w, region.rect.x, region.rect.y + row)]
  {
    hide Col, Row, Size;
    IndexJoin(w, i);
    if InRect(w, region.rect, i) && Row(w, i) == region.rect.y + row {
      RegionOffset(w, region, i);
    }
  }
}
