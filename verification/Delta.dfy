/** The producer's delta encoder: which rectangles of an image are sent, and
    the proof that applying them to the previous image gives the current one. */
module Delta {
  import opened Geometry
  import opened Pixels
  import opened Raster
  import opened Regions
  import opened Tiles
  import opened TileSearch
  import opened Surface
  import opened Ink

  const MAX_DELTA_REGIONS: nat := 64

  /** The rectangle of the tiles `tx0..tx1` of tile row `ty`. */
  function RunRect(w: nat, h: nat, t: nat, tx0: nat, tx1: nat, ty: nat): Rect
    requires t > 0 && tx0 < tx1 <= CeilDiv(w, t) && ty < CeilDiv(h, t)
    requires Times(tx0, t) < Min(Times(tx1, t), w) && Times(ty, t) < h
  {
    var x, y := Times(tx0, t), Times(ty, t);
    Rect(x, y, Min(Times(tx1, t), w) - x, Min(t, h - y))
  }

  lemma RunRectOwns(w: nat, h: nat, t: nat, tx0: nat, tx1: nat, ty: nat, i: nat)
    requires w > 0 && h > 0 && t > 0 && i < Size(w, h)
    requires tx0 < tx1 <= CeilDiv(w, t) && ty < CeilDiv(h, t)
    ensures Times(tx0, t) < Min(Times(tx1, t), w) && Times(ty, t) < h
    ensures ValidRect(w, h, RunRect(w, h, t, tx0, tx1, ty))
    ensures InRect(w, RunRect(w, h, t, tx0, tx1, ty), i) <==>
            At(CeilDiv(w, t), tx0, ty) <= TileOf(w, t, i) < At(CeilDiv(w, t), tx1, ty)
  {
    hide Col, Row, Size, Quot, CeilDiv, Times, At;
    var c := CeilDiv(w, t);
    TileStart(w, t, tx0);
    TileStart(h, t, ty);
    TimesMonotone(tx0 + 1, tx1, t);
    TimesMonotone(tx0, tx0, t);
    RowBound(w, h, i);
    TileOfBound(w, h, t, i);
    var q, r := Quot(Col(w, i), t), Quot(Row(w, i), t);
    QuotIs(Row(w, i), t, r);
    QuotIs(Row(w, i), t, ty);
    QuotAtLeast(Col(w, i), t, tx0);
    QuotAtLeast(Col(w, i), t, tx1);
    GridOrder(c, q, r, tx0, ty);
    GridOrder(c, q, r, tx1, ty);
  }

  lemma QuotAtLeast(a: nat, t: nat, q: nat)
    requires t > 0
    ensures q <= Quot(a, t) <==> Times(q, t) <= a
  {
    hide Quot, Times;
    var d := Quot(a, t);
    QuotIs(a, t, d);
    if q <= d {
      TimesMonotone(q, d, t);
    } else {
      TimesMonotone(d + 1, q, t);
      TimesMonotone(d, d, t);
    }
  }

  /** Row-major order of grid cells; the second cell may be one past its row. */
  lemma GridOrder(c: nat, x: nat, y: nat, x': nat, y': nat)
    requires x < c && x' <= c
    ensures At(c, x', y') <= At(c, x, y) <==> y' < y || (y' == y && x' <= x)
  {
    if y' < y {
      RowsApart(c, y', y);
    } else if y < y' {
      RowsApart(c, y, y');
    }
  }

  lemma RowsApart(c: nat, y: nat, y': nat)
    requires y < y'
    ensures y * c + c <= y' * c
  {
    assert y' * c - y * c == (y' - y) * c;
    assert (y' - y - 1) * c >= 0;
    assert (y' - y) * c == (y' - y - 1) * c + c;
  }

  /** The rectangles found so far cover exactly the changed tiles before `k`. */
  ghost predicate CoversChanged(w: nat, h: nat, t: nat, previous: Image, current: Image, rects: seq<Rect>, k: nat)
    requires w > 0 && t > 0 && |previous| == |current| == Size(w, h)
  {
    forall i :: 0 <= i < Size(w, h) ==>
      (Covered(w, rects, i) <==> TileOf(w, t, i) < k && Differs(w, h, t, previous, current, TileOf(w, t, i)))
  }

  ghost predicate Found(w: nat, h: nat, t: nat, previous: Image, current: Image, rects: seq<Rect>, k: nat)
    requires w > 0 && t > 0 && |previous| == |current| == Size(w, h)
  {
    && AllValid(w, h, rects)
    && PairwiseDisjoint(rects)
    && CoversChanged(w, h, t, previous, current, rects, k)
  }

  /** Growing a rectangle downwards by a run that starts below it. */
  lemma GrowCovers(w: nat, rects: seq<Rect>, j: nat, run: Rect, i: nat)
    requires w > 0 && j < |rects|
    requires rects[j].x == run.x && rects[j].width == run.width && rects[j].y + rects[j].height == run.y
    ensures var grown := rects[j].(height := rects[j].height + run.height);
            Covered(w, rects[j := grown], i) <==> Covered(w, rects, i) || InRect(w, run, i)
  {
    hide Col, Row;
    var grown := rects[j].(height := rects[j].height + run.height);
    var next := rects[j := grown];
    if Covered(w, rects, i) {
      var k :| 0 <= k < |rects| && InRect(w, rects[k], i);
      assert InRect(w, next[k], i);
    }
    if InRect(w, run, i) {
      assert InRect(w, next[j], i);
    }
  }

  /** Two valid rectangles without a common pixel do not overlap. */
  lemma NoCommonPixel(w: nat, h: nat, a: Rect, b: Rect)
    requires w > 0 && ValidRect(w, h, a) && ValidRect(w, h, b)
    requires forall i :: 0 <= i < Size(w, h) && InRect(w, a, i) ==> !InRect(w, b, i)
    ensures !Overlaps(a, b) && !Overlaps(b, a)
  {
    hide InRect, Size;
    OverlapsExact(w, h, a, b);
    forall i: nat | InRect(w, a, i) ensures !InRect(w, b, i) {
      RectInside(w, h, a, i);
    }
  }

  /** Adding one run of changed tiles, either by growing or as a new rectangle. */
  lemma AddRun(w: nat, h: nat, t: nat, previous: Image, current: Image, rects: seq<Rect>, next: seq<Rect>,
               tx0: nat, tx1: nat, ty: nat, run: Rect)
    requires w > 0 && h > 0 && t > 0 && |previous| == |current| == Size(w, h)
    requires tx0 < tx1 <= CeilDiv(w, t) && ty < CeilDiv(h, t)
    requires Found(w, h, t, previous, current, rects, At(CeilDiv(w, t), tx0, ty))
    requires forall k :: At(CeilDiv(w, t), tx0, ty) <= k < At(CeilDiv(w, t), tx1, ty) ==>
               Differs(w, h, t, previous, current, k)
    requires ValidRect(w, h, run)
    requires forall i :: 0 <= i < Size(w, h) ==>
               (InRect(w, run, i) <==> At(CeilDiv(w, t), tx0, ty) <= TileOf(w, t, i) < At(CeilDiv(w, t), tx1, ty))
    requires next == rects + [run]
             || exists j :: 0 <= j < |rects| && rects[j].x == run.x && rects[j].width == run.width
                  && rects[j].y + rects[j].height == run.y
                  && next == rects[j := rects[j].(height := rects[j].height + run.height)]
    ensures Found(w, h, t, previous, current, next, At(CeilDiv(w, t), tx1, ty))
  {
    hide Col, Row, Size, At, CeilDiv, TileOf, Differs, Covered, InRect, Overlaps;
    var k0, k1 := At(CeilDiv(w, t), tx0, ty), At(CeilDiv(w, t), tx1, ty);
    assert k0 <= k1 by { AtGrows(CeilDiv(w, t), tx0, tx1, ty); }
    forall i | 0 <= i < Size(w, h)
      ensures Covered(w, next, i) <==> Covered(w, rects, i) || InRect(w, run, i)
      ensures InRect(w, run, i) ==> !Covered(w, rects, i)
    {
      if next == rects + [run] {
        CoveredConcat(w, rects, [run], i);
        CoveredOne(w, run, i);
      } else {
        var j :| 0 <= j < |rects| && rects[j].x == run.x && rects[j].width == run.width
          && rects[j].y + rects[j].height == run.y
          && next == rects[j := rects[j].(height := rects[j].height + run.height)];
        GrowCovers(w, rects, j, run, i);
      }
    }
    RunApart(w, h, rects, run);
    if next != rects + [run] {
      var j :| 0 <= j < |rects| && rects[j].x == run.x && rects[j].width == run.width
        && rects[j].y + rects[j].height == run.y
        && next == rects[j := rects[j].(height := rects[j].height + run.height)];
      GrownApart(w, h, rects, j, run);
    }
  }

  lemma AtGrows(c: nat, x: nat, x': nat, y: nat)
    requires x <= x'
    ensures At(c, x, y) <= At(c, x', y)
  {
  }

  lemma RunApart(w: nat, h: nat, rects: seq<Rect>, run: Rect)
    requires w > 0 && AllValid(w, h, rects) && ValidRect(w, h, run)
    requires forall i :: 0 <= i < Size(w, h) && InRect(w, run, i) ==> !Covered(w, rects, i)
    ensures forall k :: 0 <= k < |rects| ==> !Overlaps(rects[k], run) && !Overlaps(run, rects[k])
  {
    hide InRect, Size, Overlaps, ValidRect;
    forall k | 0 <= k < |rects| ensures !Overlaps(rects[k], run) && !Overlaps(run, rects[k]) {
      NoCommonPixel(w, h, run, rects[k]);
    }
  }

  /** The grown rectangle stays apart from the others. */
  lemma GrownApart(w: nat, h: nat, rects: seq<Rect>, j: nat, run: Rect)
    requires w > 0 && AllValid(w, h, rects) && PairwiseDisjoint(rects) && ValidRect(w, h, run) && j < |rects|
    requires rects[j].x == run.x && rects[j].width == run.width && rects[j].y + rects[j].height == run.y
    requires forall k :: 0 <= k < |rects| ==> !Overlaps(rects[k], run) && !Overlaps(run, rects[k])
    ensures var next := rects[j := rects[j].(height := rects[j].height + run.height)];
            AllValid(w, h, next) && PairwiseDisjoint(next)
  {
  }

  /** Some column of the tile differs: the tile test of the encoder. */
  method TileChanged(w: nat, h: nat, t: nat, previous: Image, current: Image, tx: nat, ty: nat) returns (changed: bool)
    requires w > 0 && h > 0 && t > 0 && |previous| == |current| == Size(w, h)
    requires tx < CeilDiv(w, t) && ty < CeilDiv(h, t)
    ensures changed <==> Differs(w, h, t, previous, current, At(CeilDiv(w, t), tx, ty))
  {
    hide Col, Row, Size, At, CeilDiv, Times, TileCount, Differs, ChangedIn;
    GridIndex(w, h, t, tx, ty);
    ghost var k := At(CeilDiv(w, t), tx, ty);
    IndexSplit(CeilDiv(w, t), tx, ty);
    TileStart(w, t, tx);
    TileStart(h, t, ty);
    var x, y := Times(tx, t), Times(ty, t);
    var rect := Rect(x, y, Min(t, w - x), Min(t, h - y));
    assert rect == TileRect(w, h, t, k);
    TileRectValid(w, h, t, k);
    DiffersIsChanged(w, h, t, previous, current, k);
    changed := RectChanged(w, h, previous, current, rect);
  }

  /** Grows the last rectangle that ends where the run starts and has its
      columns, or appends the run. */
  method Extend(rects: seq<Rect>, run: Rect) returns (next: seq<Rect>)
    ensures next == rects + [run]
            || exists j :: 0 <= j < |rects| && rects[j].x == run.x && rects[j].width == run.width
                 && rects[j].y + rects[j].height == run.y
                 && next == rects[j := rects[j].(height := rects[j].height + run.height)]
  {
    var j := |rects|;
    while j > 0 {
      j := j - 1;
      if rects[j].x == run.x && rects[j].width == run.width && rects[j].y + rects[j].height == run.y {
        return rects[j := rects[j].(height := rects[j].height + run.height)];
      }
    }
    return rects + [run];
  }

  /** One tile row of the scan. */
  method ScanRow(w: nat, h: nat, t: nat, previous: Image, current: Image, ty: nat, before: seq<Rect>)
    returns (rects: seq<Rect>)
    requires w > 0 && h > 0 && t > 0 && |previous| == |current| == Size(w, h) && ty < CeilDiv(h, t)
    requires Found(w, h, t, previous, current, before, At(CeilDiv(w, t), 0, ty))
    ensures Found(w, h, t, previous, current, rects, At(CeilDiv(w, t), CeilDiv(w, t), ty))
  {
    hide Col, Row, Size, At, CeilDiv, Times, Found, TileOf, InRect, Differs;
    rects := before;
    var c := CeilDiv(w, t);
    var tx := 0;
    while tx < c
      invariant 0 <= tx <= c
      invariant Found(w, h, t, previous, current, rects, At(c, tx, ty))
    {
      StepGrid(c, t, tx, ty);
      var changed := TileChanged(w, h, t, previous, current, tx, ty);
      if !changed {
        SkipTile(w, h, t, previous, current, rects, At(c, tx, ty));
        tx := tx + 1;
      } else {
        var start := tx;
        tx := tx + 1;
        var more := true;
        while tx < c && more
          invariant start < tx <= c
          invariant forall k :: At(c, start, ty) <= k < At(c, tx, ty) ==> Differs(w, h, t, previous, current, k)
          decreases c - tx, more
        {
          StepGrid(c, t, tx, ty);
          more := TileChanged(w, h, t, previous, current, tx, ty);
          if more {
            tx := tx + 1;
          }
        }
        forall i | 0 <= i < Size(w, h)
          ensures Times(start, t) < Min(Times(tx, t), w) && Times(ty, t) < h
          ensures ValidRect(w, h, RunRect(w, h, t, start, tx, ty))
          ensures InRect(w, RunRect(w, h, t, start, tx, ty), i) <==>
                  At(c, start, ty) <= TileOf(w, t, i) < At(c, tx, ty)
        {
          RunRectOwns(w, h, t, start, tx, ty, i);
        }
        assert 0 < Size(w, h) by { NonemptyPanel(w, h); }
        RunRectOwns(w, h, t, start, tx, ty, 0);
        var run := RunRect(w, h, t, start, tx, ty);
        var next := Extend(rects, run);
        AddRun(w, h, t, previous, current, rects, next, start, tx, ty, run);
        rects := next;
      }
    }
  }

  lemma NonemptyPanel(w: nat, h: nat)
    requires w > 0 && h > 0
    ensures 0 < Size(w, h)
  {
    IndexBound(w, h, 0, 0);
  }

  lemma SkipTile(w: nat, h: nat, t: nat, previous: Image, current: Image, rects: seq<Rect>, k: nat)
    requires w > 0 && h > 0 && t > 0 && |previous| == |current| == Size(w, h)
    requires Found(w, h, t, previous, current, rects, k) && !Differs(w, h, t, previous, current, k)
    ensures Found(w, h, t, previous, current, rects, k + 1)
  {
    hide Size, TileOf, Differs, Covered;
  }

  /** All changed tiles as disjoint rectangles. */
  method FindRects(w: nat, h: nat, t: nat, previous: Image, current: Image) returns (rects: seq<Rect>)
    requires w > 0 && h > 0 && t > 0 && |previous| == |current| == Size(w, h)
    ensures Found(w, h, t, previous, current, rects, TileCount(w, h, t))
  {
    hide Col, Row, Size, At, CeilDiv, Times, Found;
    rects := [];
    var rows, c := CeilDiv(h, t), CeilDiv(w, t);
    Origin(c, t);
    NothingFound(w, h, t, previous, current);
    for ty := 0 to rows
      invariant Found(w, h, t, previous, current, rects, At(c, 0, ty))
    {
      rects := ScanRow(w, h, t, previous, current, ty, rects);
      RowEnd(c, ty);
    }
    GridEnd(w, h, t);
  }

  lemma NothingFound(w: nat, h: nat, t: nat, previous: Image, current: Image)
    requires w > 0 && h > 0 && t > 0 && |previous| == |current| == Size(w, h)
    ensures Found(w, h, t, previous, current, [], 0)
  {
    hide Size, TileOf, Differs;
  }

  // ------------------------------------------------------- the whole encoder

  /** The smallest rectangle around all of a nonempty list. */
  function Hull(rects: seq<Rect>): Rect
    requires rects != []
  {
    if |rects| == 1 then rects[0] else Union(Hull(rects[..|rects| - 1]), rects[|rects| - 1])
  }

  lemma {:induction false} HullContains(w: nat, h: nat, rects: seq<Rect>)
    requires w > 0 && rects != [] && AllValid(w, h, rects)
    ensures ValidRect(w, h, Hull(rects))
    ensures forall i: nat :: Covered(w, rects, i) ==> InRect(w, Hull(rects), i)
  {
    hide Col, Row;
    var n := |rects| - 1;
    if n == 0 {
      forall i: nat | Covered(w, rects, i) ensures InRect(w, Hull(rects), i) { CoveredOne(w, rects[0], i); }
    } else {
      var init := rects[..n];
      HullContains(w, h, init);
      forall i: nat | Covered(w, rects, i) ensures InRect(w, Hull(rects), i) { CoveredSnoc(w, rects, i); }
    }
  }

  /** Every side of the hull is a side of one of the rectangles. */
  lemma {:induction false} HullEdges(rects: seq<Rect>)
    requires rects != []
    ensures exists k :: 0 <= k < |rects| && rects[k].x == Hull(rects).x
    ensures exists k :: 0 <= k < |rects| && rects[k].y == Hull(rects).y
    ensures exists k :: 0 <= k < |rects| && rects[k].x + rects[k].width == Hull(rects).x + Hull(rects).width
    ensures exists k :: 0 <= k < |rects| && rects[k].y + rects[k].height == Hull(rects).y + Hull(rects).height
  {
    if |rects| > 1 {
      var init, last := rects[..|rects| - 1], rects[|rects| - 1];
      HullEdges(init);
      var a :| 0 <= a < |init| && init[a].x == Hull(init).x;
      var b :| 0 <= b < |init| && init[b].y == Hull(init).y;
      var c :| 0 <= c < |init| && init[c].x + init[c].width == Hull(init).x + Hull(init).width;
      var d :| 0 <= d < |init| && init[d].y + init[d].height == Hull(init).y + Hull(init).height;
      assert rects[a] == init[a] && rects[b] == init[b] && rects[c] == init[c] && rects[d] == init[d];
      assert Hull(rects) == Union(Hull(init), last) && rects[|rects| - 1] == last;
      assert Hull(rects).x == rects[a].x || Hull(rects).x == rects[|rects| - 1].x;
      assert Hull(rects).y == rects[b].y || Hull(rects).y == rects[|rects| - 1].y;
    } else {
      assert Hull(rects) == rects[0];
    }
  }

  method HullOf(rects: seq<Rect>) returns (hull: Rect)
    requires rects != []
    ensures hull == Hull(rects)
  {
    var left, top := rects[0].x, rects[0].y;
    var right, bottom := left + rects[0].width, top + rects[0].height;
    assert rects[..1] == [rects[0]];
    for k := 1 to |rects|
      invariant 0 <= left <= right && 0 <= top <= bottom
      invariant Rect(left, top, right - left, bottom - top) == Hull(rects[..k])
    {
      assert rects[..k + 1][..k] == rects[..k];
      left, top := Min(left, rects[k].x), Min(top, rects[k].y);
      right := Max(right, rects[k].x + rects[k].width);
      bottom := Max(bottom, rects[k].y + rects[k].height);
    }
    assert rects[..|rects|] == rects;
    hull := Rect(left, top, right - left, bottom - top);
  }

  /** The region cut out of an image, row by row. */
  method ExtractRegion(w: nat, h: nat, pixels: Image, rect: Rect) returns (output: seq<Pixel>)
    requires w > 0 && |pixels| == Size(w, h) && ValidRect(w, h, rect)
    ensures |output| == Area(rect)
    ensures forall i :: 0 <= i < |pixels| && InRect(w, rect, i) ==>
              RegionPixel(w, Region(rect, output), i) == pixels[i]
  {
    hide Col, Row, Size, At;
    output := [];
    AtZero(rect.width);
    for row := 0 to rect.height
      invariant |output| == At(rect.width, 0, row)
      invariant forall k, r :: 0 <= k < rect.width && 0 <= r < row ==>
                  0 <= At(rect.width, k, r) < |output|
                  && 0 <= At(w, rect.x + k, rect.y + r) < |pixels|
                  && output[At(rect.width, k, r)] == pixels[At(w, rect.x + k, rect.y + r)]
    {
      var start := At(w, rect.x, rect.y + row);
      RunInside(w, h, rect.x, rect.width, rect.y + row);
      ghost var before := output;
      output := output + pixels[start..start + rect.width];
      RowEnd(rect.width, row);
      AtShift(rect.width, 0, rect.width, row);
      forall k, r | 0 <= k < rect.width && 0 <= r < row + 1
        ensures 0 <= At(rect.width, k, r) < |output|
        ensures 0 <= At(w, rect.x + k, rect.y + r) < |pixels|
        ensures output[At(rect.width, k, r)] == pixels[At(w, rect.x + k, rect.y + r)]
      {
        AtShift(rect.width, 0, k, r);
        AtShift(w, rect.x, k, rect.y + r);
        if r < row {
          assert output[At(rect.width, k, r)] == before[At(rect.width, k, r)];
        }
      }
    }
    SizeIsAt(rect.width, rect.height);
    forall i | 0 <= i < |pixels| && InRect(w, rect, i)
      ensures RegionPixel(w, Region(rect, output), i) == pixels[i]
    {
      var k, r := Col(w, i) - rect.x, Row(w, i) - rect.y;
      IndexJoin(w, i);
      assert output[At(rect.width, k, r)] == pixels[At(w, rect.x + k, rect.y + r)];
    }
  }

  lemma AtZero(c: nat)
    ensures At(c, 0, 0) == 0
  {
  }

  lemma AtShift(c: nat, x: nat, k: nat, y: nat)
    ensures At(c, x + k, y) == At(c, x, y) + k
  {
  }

  lemma SizeIsAt(w: nat, h: nat)
    ensures At(w, 0, h) == Size(w, h)
  {
  }

  /** The tile holds a pixel that differs. */
  ghost predicate InChangedTile(w: nat, h: nat, tile: nat, previous: Image, current: Image, i: nat)
    requires w > 0 && |previous| == |current| == Size(w, h)
  {
    Differs(w, h, Max(tile, 1), previous, current, TileOf(w, Max(tile, 1), i))
  }

  /** What the encoder promises: few disjoint regions cut from the current
      image that cover every pixel that differs. */
  ghost predicate IsDelta(w: nat, h: nat, previous: Image, current: Image, limit: nat, regions: seq<Region>)
    requires w > 0 && |previous| == |current| == Size(w, h)
  {
    && ShapesOk(w, h, regions)
    && Disjoint(regions)
    && TakenFrom(w, current, regions)
    && 1 <= |regions| <= Max(1, limit)
    && (forall i :: 0 <= i < |current| && !Covered(w, Rects(regions), i) ==> previous[i] == current[i])
  }

  /** The rectangles are the changed tiles exactly; or the bounding box of disjoint
      rectangles that are, and are more than the limit; or one placeholder pixel,
      when nothing changed. */
  ghost predicate Tight(w: nat, h: nat, tile: nat, limit: nat, previous: Image, current: Image, rects: seq<Rect>)
    requires w > 0 && |previous| == |current| == Size(w, h)
  {
    || (forall i :: 0 <= i < |current| ==>
          (Covered(w, rects, i) <==> InChangedTile(w, h, tile, previous, current, i)))
    || (rects == [Rect(0, 0, 1, 1)] && previous == current)
    || exists tight: seq<Rect> :: |tight| > Max(limit, 1) && rects == [Hull(tight)]
         && AllValid(w, h, tight) && PairwiseDisjoint(tight)
         && forall i :: 0 <= i < |current| ==>
              (Covered(w, tight, i) <==> InChangedTile(w, h, tile, previous, current, i))
  }

  lemma FoundAll(w: nat, h: nat, tile: nat, previous: Image, current: Image, rects: seq<Rect>)
    requires w > 0 && h > 0 && |previous| == |current| == Size(w, h)
    requires Found(w, h, Max(tile, 1), previous, current, rects, TileCount(w, h, Max(tile, 1)))
    ensures forall i :: 0 <= i < |current| ==>
              (Covered(w, rects, i) <==> InChangedTile(w, h, tile, previous, current, i))
    ensures forall i :: 0 <= i < |current| && previous[i] != current[i] ==> Covered(w, rects, i)
    ensures rects == [] ==> previous == current
  {
    hide Size, TileOf, Covered, TileCount;
    forall i | 0 <= i < |current|
      ensures Covered(w, rects, i) <==> InChangedTile(w, h, tile, previous, current, i)
      ensures previous[i] != current[i] ==> Covered(w, rects, i)
      ensures !Covered(w, [], i)
    {
      TileOfBound(w, h, Max(tile, 1), i);
      EmptyCover(w, i);
    }
  }

  lemma EmptyCover(w: nat, i: nat)
    requires w > 0
    ensures !Covered(w, [], i)
  {
  }

  method ChooseRects(w: nat, h: nat, tile: nat, maxRegions: nat, previous: Image, current: Image)
    returns (rects: seq<Rect>)
    requires w > 0 && h > 0 && |previous| == |current| == Size(w, h)
    ensures AllValid(w, h, rects) && PairwiseDisjoint(rects) && 1 <= |rects| <= Max(1, maxRegions)
    ensures forall i :: 0 <= i < |current| && !Covered(w, rects, i) ==> previous[i] == current[i]
    ensures Tight(w, h, tile, maxRegions, previous, current, rects)
  {
    hide Size, Covered, InChangedTile, InRect, TileCount;
    rects := FindRects(w, h, Max(tile, 1), previous, current);
    FoundAll(w, h, tile, previous, current, rects);
    if |rects| > Max(maxRegions, 1) {
      ghost var tight := rects;
      HullContains(w, h, rects);
      var hull := HullOf(rects);
      rects := [hull];
      forall i | 0 <= i < |current| ensures Covered(w, tight, i) ==> Covered(w, rects, i) {
        CoveredOne(w, hull, i);
      }
    }
    if rects == [] {
      rects := [Rect(0, 0, 1, 1)];
    }
  }

  /** The delta encoder. Its regions rebuild the current image from the
      previous one, whatever the tile size and the region limit. */
  method EncodeDelta(w: nat, h: nat, tile: nat, maxRegions: nat, previous: Image, current: Image)
    returns (regions: seq<Region>)
    requires w > 0 && h > 0 && |previous| == |current| == Size(w, h)
    ensures IsDelta(w, h, previous, current, maxRegions, regions)
    ensures Tight(w, h, tile, maxRegions, previous, current, Rects(regions))
    ensures ApplyAll(w, h, previous, regions) == current
  {
    hide Size, Covered, Tight, InRect, RegionPixel, ValidRect, Area, Overlaps;
    var rects := ChooseRects(w, h, tile, maxRegions, previous, current);
    regions := [];
    for k := 0 to |rects|
      invariant |regions| == k && forall j :: 0 <= j < k ==> regions[j].rect == rects[j]
      invariant ShapesOk(w, h, regions)
      invariant TakenFrom(w, current, regions)
    {
      var pixels := ExtractRegion(w, h, current, rects[k]);
      regions := regions + [Region(rects[k], pixels)];
    }
    assert Rects(regions) == rects;
    ApplyTaken(w, h, previous, current, regions);
  }

  /** Delta round trip, for every encoder output. */
  lemma DeltaRoundTrip(w: nat, h: nat, previous: Image, current: Image, limit: nat, regions: seq<Region>)
    requires w > 0 && |previous| == |current| == Size(w, h)
    requires IsDelta(w, h, previous, current, limit, regions)
    ensures ValidateRegions(w, h, regions).None?
    ensures ApplyAll(w, h, previous, regions) == current
  {
    hide Size, Covered, RegionPixel, Overlaps, ShapeOk;
    ApplyTaken(w, h, previous, current, regions);
  }
}
