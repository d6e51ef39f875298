/** The loops that search tiles and merge damage. */
module TileSearch {
  import opened Geometry
  import opened Pixels
  import opened Raster
  import opened Tiles
  import opened Surface

  /** Tile `k` lies in the block of tiles spanned by rectangle `r`. */
  predicate Spanned(w: nat, t: nat, r: Rect, k: nat)
    requires w > 0 && t > 0 && r.width > 0 && r.height > 0
  {
    CeilDivPositive(w, t);
    && Quot(r.x, t) <= Col(CeilDiv(w, t), k) <= Quot(r.x + r.width - 1, t)
    && Quot(r.y, t) <= Row(CeilDiv(w, t), k) <= Quot(r.y + r.height - 1, t)
  }

  lemma QuotMonotone(a: nat, b: nat, t: nat)
    requires t > 0 && a <= b
    ensures Quot(a, t) <= Quot(b, t)
  {
    hide Quot, Times;
    QuotIs(a, t, Quot(a, t));
    QuotIs(b, t, Quot(b, t));
    if Quot(b, t) < Quot(a, t) {
      TimesMonotone(Quot(b, t) + 1, Quot(a, t), t);
      TimesMonotone(Quot(b, t), Quot(b, t), t);
    }
  }

  /** A tile column between the first and the last one of a span holds a pixel
      of the span. */
  lemma SpanWitness(first: nat, last: nat, t: nat, q: nat) returns (x: nat)
    requires t > 0 && first <= last && Quot(first, t) <= q <= Quot(last, t)
    ensures first <= x <= last && Quot(x, t) == q
  {
    QuotIs(first, t, Quot(first, t));
    QuotIs(last, t, Quot(last, t));
    x := if Times(q, t) < first then first else Times(q, t);
    TimesMonotone(q, Quot(last, t), t);
    TimesMonotone(Quot(first, t), q, t);
    QuotIs(x, t, q);
    if Quot(first, t) < q {
      TimesMonotone(Quot(first, t) + 1, q, t);
    }
  }

  lemma TimesMonotone(a: nat, b: nat, t: nat)
    requires a <= b
    ensures Times(a, t) <= Times(b, t) && Times(a + 1, t) == Times(a, t) + t
  {
  }

  /** A rectangle inside the panel touches exactly the tiles that it spans. */
  lemma TouchedIsSpanned(w: nat, h: nat, t: nat, r: Rect, k: nat)
    requires w > 0 && h > 0 && t > 0 && ValidRect(w, h, r) && k < TileCount(w, h, t)
    ensures Touched(w, h, t, [r], k) <==> Spanned(w, t, r, k)
  {
    hide Col, Row, At, Size, CeilDiv, Times, Quot, Covered;
    CeilDivPositive(w, t);
    var c := CeilDiv(w, t);
    RowBound(c, CeilDiv(h, t), k);
    if Touched(w, h, t, [r], k) {
      var i :| 0 <= i < Size(w, h) && TileOf(w, t, i) == k && Covered(w, [r], i);
      CoveredOne(w, r, i);
      TileOfBound(w, h, t, i);
      IndexSplit(c, Quot(Col(w, i), t), Quot(Row(w, i), t));
      QuotMonotone(r.x, Col(w, i), t);
      QuotMonotone(Col(w, i), r.x + r.width - 1, t);
      QuotMonotone(r.y, Row(w, i), t);
      QuotMonotone(Row(w, i), r.y + r.height - 1, t);
    }
    if Spanned(w, t, r, k) {
      var x := SpanWitness(r.x, r.x + r.width - 1, t, Col(c, k));
      var y := SpanWitness(r.y, r.y + r.height - 1, t, Row(c, k));
      IndexSplit(w, x, y);
      IndexBound(w, h, x, y);
      CoveredOne(w, r, At(w, x, y));
      assert TileOf(w, t, At(w, x, y)) == k;
    }
  }

  lemma SpanOnGrid(w: nat, h: nat, t: nat, r: Rect)
    requires w > 0 && h > 0 && t > 0 && ValidRect(w, h, r)
    ensures Quot(r.x + r.width - 1, t) < CeilDiv(w, t) && Quot(r.y + r.height - 1, t) < CeilDiv(h, t)
  {
    hide Times, CeilDiv, Quot;
    var a, b := Quot(r.x + r.width - 1, t), Quot(r.y + r.height - 1, t);
    QuotIs(r.x + r.width - 1, t, a);
    QuotIs(r.y + r.height - 1, t, b);
    TileStart(w, t, a);
    TileStart(h, t, b);
  }

  method MarkTiles(w: nat, h: nat, t: nat, flags: array<bool>, r: Rect)
    requires w > 0 && h > 0 && t > 0 && flags.Length == TileCount(w, h, t) && ValidRect(w, h, r)
    modifies flags
    ensures forall k :: 0 <= k < flags.Length ==> flags[k] == (old(flags[k]) || Touched(w, h, t, [r], k))
  {
    hide Col, Row, At, Size, CeilDiv, Quot, Touched, TileCount;
    CeilDivPositive(w, t);
    SpanOnGrid(w, h, t, r);
    QuotMonotone(r.x, r.x + r.width - 1, t);
    QuotMonotone(r.y, r.y + r.height - 1, t);
    var c := CeilDiv(w, t);
    for tileY := Quot(r.y, t) to Quot(r.y + r.height - 1, t) + 1
      invariant forall k :: 0 <= k < flags.Length ==>
                  flags[k] == (old(flags[k]) || (Spanned(w, t, r, k) && Row(c, k) < tileY))
    {
      for tileX := Quot(r.x, t) to Quot(r.x + r.width - 1, t) + 1
        invariant forall k :: 0 <= k < flags.Length ==>
                    flags[k] == (old(flags[k])
                                 || (Spanned(w, t, r, k) && (Row(c, k) < tileY || (Row(c, k) == tileY && Col(c, k) < tileX))))
      {
        var k := At(c, tileX, tileY);
        assert k < TileCount(w, h, t) by { GridIndex(w, h, t, tileX, tileY); }
        IndexSplit(c, tileX, tileY);
        flags[k] := true;
        forall j | 0 <= j < flags.Length && Row(c, j) == tileY && Col(c, j) == tileX ensures j == k {
          IndexJoin(c, j);
        }
      }
    }
    forall k | 0 <= k < flags.Length ensures Touched(w, h, t, [r], k) <==> Spanned(w, t, r, k) {
      TouchedIsSpanned(w, h, t, r, k);
    }
  }

  lemma GridIndex(w: nat, h: nat, t: nat, x: nat, y: nat)
    requires t > 0 && x < CeilDiv(w, t) && y < CeilDiv(h, t)
    ensures At(CeilDiv(w, t), x, y) < TileCount(w, h, t)
  {
    hide CeilDiv;
    IndexBound(CeilDiv(w, t), CeilDiv(h, t), x, y);
  }

  lemma TouchedSnoc(w: nat, h: nat, t: nat, rects: seq<Rect>, j: nat, k: nat)
    requires w > 0 && t > 0 && j < |rects|
    ensures Touched(w, h, t, rects[..j + 1], k) <==>
            Touched(w, h, t, rects[..j], k) || Touched(w, h, t, [rects[j]], k)
  {
    hide Touched;
    assert rects[..j + 1] == rects[..j] + [rects[j]];
    TouchedConcat(w, h, t, rects[..j], [rects[j]], k);
  }

  lemma DiffersIsChanged(w: nat, h: nat, t: nat, previous: Image, current: Image, k: nat)
    requires w > 0 && h > 0 && t > 0 && |previous| == |current| == Size(w, h) && k < TileCount(w, h, t)
    ensures Differs(w, h, t, previous, current, k) <==> ChangedIn(w, h, previous, current, TileRect(w, h, t, k))
  {
    hide InRect, TileOf, TileRect, Size, TileCount;
    forall i | 0 <= i < Size(w, h) ensures InRect(w, TileRect(w, h, t, k), i) <==> TileOf(w, t, i) == k {
      TileRectOwns(w, h, t, k, i);
    }
  }

  /** Full search: every tile of the panel in row-major order. */
  method SearchAll(previous: PixelSurface, current: PixelSurface, tile: nat) returns (damage: seq<Rect>)
    requires previous.Valid() && current.Valid()
    ensures !previous.SameShape(current) ==> damage == [Full(current.width, current.height)]
    ensures previous.SameShape(current) ==>
              damage == TileDamage(current.width, current.height, tile, previous.image, current.image)
  {
    if !previous.SameShape(current) || tile == 0 {
      return [Full(current.width, current.height)];
    }
    hide Col, Row, At, Size, CeilDiv, Times, Differs, TileCount, ChangedIn;
    var w, h := current.width, current.height;
    var a, b := previous.pixels[..], current.pixels[..];
    ghost var c, flags := CeilDiv(w, tile), DiffFlags(w, h, tile, a, b);
    damage := [];
    var y := 0;
    ghost var ty := 0;
    assert At(c, 0, 0) == 0 && Times(0, tile) == 0 by { Origin(c, tile); }
    while y < h
      invariant y == Times(ty, tile) && ty <= CeilDiv(h, tile)
      invariant At(c, 0, ty) <= |flags| && damage == Select(w, h, tile, flags[..At(c, 0, ty)])
      decreases h - y
    {
      TileStart(h, tile, ty);
      var height := Min(tile, h - y);
      var x := 0;
      ghost var tx := 0;
      Origin(c, tile);
      while x < w
        invariant x == Times(tx, tile) && tx <= c
        invariant At(c, tx, ty) <= |flags| && damage == Select(w, h, tile, flags[..At(c, tx, ty)])
        decreases w - x
      {
        TileStart(w, tile, tx);
        GridIndex(w, h, tile, tx, ty);
        ghost var k := At(c, tx, ty);
        IndexSplit(c, tx, ty);
        var rect := Rect(x, y, Min(tile, w - x), height);
        assert rect == TileRect(w, h, tile, k);
        TileRectValid(w, h, tile, k);
        var changed := RectChanged(w, h, a, b, rect);
        DiffersIsChanged(w, h, tile, a, b, k);
        assert flags[..k + 1][..k] == flags[..k];
        if changed {
          damage := damage + [rect];
        } else {
          assert damage + [] == damage;
        }
        StepGrid(c, tile, tx, ty);
        TileStart(w, tile, tx + 1);
        x, tx := x + tile, tx + 1;
      }
      TileStart(w, tile, tx);
      StepGrid(c, tile, ty, ty);
      TileStart(h, tile, ty + 1);
      RowEnd(c, ty);
      y, ty := y + tile, ty + 1;
    }
    TileStart(h, tile, ty);
    GridEnd(w, h, tile);
    assert flags[..|flags|] == flags;
  }

  lemma Origin(c: nat, t: nat)
    ensures At(c, 0, 0) == 0 && Times(0, t) == 0
  {
  }

  lemma StepGrid(c: nat, t: nat, x: nat, y: nat)
    ensures At(c, x + 1, y) == At(c, x, y) + 1 && Times(x + 1, t) == Times(x, t) + t
  {
  }

  lemma RowEnd(c: nat, y: nat)
    ensures At(c, c, y) == At(c, 0, y + 1)
  {
  }

  lemma GridEnd(w: nat, h: nat, t: nat)
    requires t > 0
    ensures At(CeilDiv(w, t), 0, CeilDiv(h, t)) == TileCount(w, h, t)
  {
    hide CeilDiv;
  }

  /** Restricted search: only tiles spanned by the listed rectangles. */
  method SearchRegions(previous: PixelSurface, current: PixelSurface, tile: nat, regions: seq<Rect>)
    returns (damage: seq<Rect>)
    requires previous.Valid() && current.Valid()
    requires AllValid(current.width, current.height, regions)
    ensures !previous.SameShape(current) ==> damage == [Full(current.width, current.height)]
    ensures previous.SameShape(current) ==>
              damage == TileDamageRegions(current.width, current.height, tile,
                                          previous.image, current.image, regions)
  {
    if !previous.SameShape(current) || tile == 0 {
      return [Full(current.width, current.height)];
    }
    var w, h := current.width, current.height;
    var candidates := TouchedTiles(w, h, tile, regions);
    damage := ChangedTiles(w, h, tile, previous.pixels[..], current.pixels[..], regions, candidates);
  }

  method TouchedTiles(w: nat, h: nat, t: nat, regions: seq<Rect>) returns (candidates: array<bool>)
    requires w > 0 && h > 0 && t > 0 && AllValid(w, h, regions)
    ensures fresh(candidates) && candidates.Length == TileCount(w, h, t)
    ensures forall k :: 0 <= k < candidates.Length ==> candidates[k] == Touched(w, h, t, regions, k)
  {
    hide Size, TileCount, Touched, ValidRect;
    candidates := new bool[TileCount(w, h, t)](_ => false);
    NothingTouched(w, h, t);
    assert regions[..0] == [];
    for j := 0 to |regions|
      invariant forall k :: 0 <= k < candidates.Length ==> candidates[k] == Touched(w, h, t, regions[..j], k)
    {
      MarkTiles(w, h, t, candidates, regions[j]);
      forall k | 0 <= k < candidates.Length
        ensures Touched(w, h, t, regions[..j + 1], k) <==>
                Touched(w, h, t, regions[..j], k) || Touched(w, h, t, [regions[j]], k)
      {
        TouchedSnoc(w, h, t, regions, j, k);
      }
    }
    assert regions[..|regions|] == regions;
  }

  method ChangedTiles(w: nat, h: nat, t: nat, previous: Image, current: Image, ghost regions: seq<Rect>,
                      candidates: array<bool>)
    returns (damage: seq<Rect>)
    requires w > 0 && h > 0 && t > 0 && |previous| == |current| == Size(w, h)
    requires candidates.Length == TileCount(w, h, t)
    requires forall k :: 0 <= k < candidates.Length ==> candidates[k] == Touched(w, h, t, regions, k)
    ensures damage == TileDamageRegions(w, h, t, previous, current, regions)
  {
    hide Size, TileCount, Touched, Differs, ChangedIn, TileRect;
    ghost var flags := CandidateFlags(w, h, t, previous, current, regions);
    damage := [];
    for k := 0 to candidates.Length
      invariant damage == Select(w, h, t, flags[..k])
    {
      assert flags[..k + 1][..k] == flags[..k];
      if candidates[k] {
        var rect := TileRect(w, h, t, k);
        TileRectValid(w, h, t, k);
        var changed := RectChanged(w, h, previous, current, rect);
        DiffersIsChanged(w, h, t, previous, current, k);
        if changed {
          damage := damage + [rect];
        }
      }
      assert damage + [] == damage;
    }
    assert flags[..|flags|] == flags;
  }

  lemma NothingTouched(w: nat, h: nat, t: nat)
    requires w > 0 && t > 0
    ensures forall k :: 0 <= k < TileCount(w, h, t) ==> !Touched(w, h, t, [], k)
  {
  }

  /** Clips a rectangle to the panel; empty when nothing is left. */
  function Clip(w: nat, h: nat, r: Rect): Rect {
    var right := Min(r.x + r.width, w);
    var bottom := Min(r.y + r.height, h);
    if r.x >= right || r.y >= bottom then Rect(r.x, r.y, 0, 0)
    else Rect(r.x, r.y, right - r.x, bottom - r.y)
  }

  lemma ClipSame(w: nat, h: nat, t: nat, r: Rect, k: nat)
    requires w > 0 && t > 0
    ensures Touched(w, h, t, [Clip(w, h, r)], k) <==> Touched(w, h, t, [r], k)
  {
    hide Col, Row, Size, TileOf;
    forall i | 0 <= i < Size(w, h) ensures Covered(w, [Clip(w, h, r)], i) <==> Covered(w, [r], i) {
      RowBound(w, h, i);
      CoveredOne(w, r, i);
      CoveredOne(w, Clip(w, h, r), i);
    }
  }

  lemma EmptyTouchesNothing(w: nat, h: nat, t: nat, r: Rect, k: nat)
    requires w > 0 && t > 0 && r.width == 0
    ensures !Touched(w, h, t, [r], k)
  {
    forall i: nat ensures !Covered(w, [r], i) { CoveredOne(w, r, i); }
  }

  /** `merge_tiled_damage`: any rectangles, clipped to the panel and widened to
      whole tiles. */
  method MergeDamage(w: nat, h: nat, tile: nat, existing: seq<Rect>, damage: seq<Rect>) returns (merged: seq<Rect>)
    requires w > 0 && h > 0
    ensures merged == MergeTiled(w, h, tile, existing, damage)
  {
    hide Col, Row, At, Size, CeilDiv, Times, TileCount, TileRect, Touched;
    var t := Max(tile, 1);
    var all := existing + damage;
    ghost var flags := TouchFlags(w, h, t, all);
    var dirty := new bool[TileCount(w, h, t)](_ => false);
    NothingTouched(w, h, t);
    assert all[..0] == [];
    for j := 0 to |all|
      invariant fresh(dirty)
      invariant forall k :: 0 <= k < dirty.Length ==> dirty[k] == Touched(w, h, t, all[..j], k)
    {
      var rect := Clip(w, h, all[j]);
      forall k | 0 <= k < dirty.Length
        ensures Touched(w, h, t, all[..j + 1], k) <==>
                Touched(w, h, t, all[..j], k) || Touched(w, h, t, [rect], k)
      {
        TouchedSnoc(w, h, t, all, j, k);
        ClipSame(w, h, t, all[j], k);
      }
      if rect.width == 0 {
        forall k | 0 <= k < dirty.Length ensures !Touched(w, h, t, [rect], k) {
          EmptyTouchesNothing(w, h, t, rect, k);
        }
      } else {
        MarkTiles(w, h, t, dirty, rect);
      }
    }
    assert all[..|all|] == all;
    merged := [];
    for k := 0 to dirty.Length
      invariant merged == Select(w, h, t, flags[..k])
    {
      assert flags[..k + 1][..k] == flags[..k];
      if dirty[k] {
        merged := merged + [TileRect(w, h, t, k)];
      }
      assert merged + [] == merged;
    }
    assert flags[..|flags|] == flags;
  }
}
