/** The tile grid: which tiles differ, which tiles a rectangle touches, and the
    damage lists made of them. A tile is named by its row-major number `k`. */
module Tiles {
  import opened Geometry
  import opened Pixels
  import opened Raster

  function Min(a: nat, b: nat): nat {
    if a < b then a else b
  }

  function Max(a: nat, b: nat): nat {
    if a < b then b else a
  }

  function Quot(a: nat, b: nat): nat
    requires b > 0
  {
    a / b
  }

  function Times(a: nat, b: nat): nat {
    a * b
  }

  function CeilDiv(a: nat, b: nat): nat
    requires b > 0
  {
    (a + b - 1) / b
  }

  function TileCount(w: nat, h: nat, t: nat): nat
    requires t > 0
  {
    Size(CeilDiv(w, t), CeilDiv(h, t))
  }

  /** The number of the tile that owns pixel `i`. */
  function TileOf(w: nat, t: nat, i: nat): nat
    requires w > 0 && t > 0
  {
    At(CeilDiv(w, t), Quot(Col(w, i), t), Quot(Row(w, i), t))
  }

  lemma QuotIs(a: nat, t: nat, q: nat)
    requires t > 0
    ensures Quot(a, t) == q <==> Times(q, t) <= a < Times(q, t) + t
  {
    var d := a / t;
    assert d * t <= a < d * t + t;
    if q * t <= a < q * t + t {
      assert (q - d) * t == q * t - d * t;
      Multiple(q - d, t);
    }
  }

  /** A tile column starts inside the panel just when it is one of the
      `CeilDiv` columns. */
  lemma TileStart(w: nat, t: nat, q: nat)
    requires t > 0
    ensures q < CeilDiv(w, t) <==> Times(q, t) < w
  {
    hide Quot, Times, CeilDiv;
    var c := CeilDiv(w, t);
    assert c == Quot(w + t - 1, t) by { CeilIsQuot(w, t); }
    QuotIs(w + t - 1, t, c);
    if q < c {
      TimesApart(q, c, t);
    } else if c < q {
      TimesApart(c, q, t);
    }
  }

  lemma CeilIsQuot(w: nat, t: nat)
    requires t > 0
    ensures CeilDiv(w, t) == Quot(w + t - 1, t)
  {
  }

  lemma TimesApart(a: nat, b: nat, t: nat)
    requires a < b
    ensures Times(a, t) + t <= Times(b, t)
  {
    assert b * t == (b - a) * t + a * t;
    assert (b - a) * t == (b - a - 1) * t + t;
    assert (b - a - 1) * t >= 0;
  }

  lemma CeilDivPositive(w: nat, t: nat)
    requires w > 0 && t > 0
    ensures CeilDiv(w, t) > 0
  {
    TileStart(w, t, 0);
  }

  lemma TileCoordinates(w: nat, h: nat, t: nat, k: nat)
    requires w > 0 && h > 0 && t > 0 && k < TileCount(w, h, t)
    ensures CeilDiv(w, t) > 0
    ensures Times(Col(CeilDiv(w, t), k), t) < w && Times(Row(CeilDiv(w, t), k), t) < h
  {
    hide Times, CeilDiv, Col, Row, Size;
    CeilDivPositive(w, t);
    RowBound(CeilDiv(w, t), CeilDiv(h, t), k);
    TileStart(w, t, Col(CeilDiv(w, t), k));
    TileStart(h, t, Row(CeilDiv(w, t), k));
  }

  function TileRect(w: nat, h: nat, t: nat, k: nat): (r: Rect)
    requires w > 0 && h > 0 && t > 0 && k < TileCount(w, h, t)
  {
    TileCoordinates(w, h, t, k);
    var x := Times(Col(CeilDiv(w, t), k), t);
    var y := Times(Row(CeilDiv(w, t), k), t);
    Rect(x, y, Min(t, w - x), Min(t, h - y))
  }

  lemma TileRectValid(w: nat, h: nat, t: nat, k: nat)
    requires w > 0 && h > 0 && t > 0 && k < TileCount(w, h, t)
    ensures ValidRect(w, h, TileRect(w, h, t, k))
  {
    hide Times, CeilDiv, Col, Row, Size, TileCount;
    TileCoordinates(w, h, t, k);
  }

  lemma TileOfBound(w: nat, h: nat, t: nat, i: nat)
    requires w > 0 && h > 0 && t > 0 && i < Size(w, h)
    ensures TileOf(w, t, i) < TileCount(w, h, t)
    ensures Quot(Col(w, i), t) < CeilDiv(w, t) && Quot(Row(w, i), t) < CeilDiv(h, t)
  {
    hide Times, CeilDiv, Col, Row, Size, Quot, At;
    RowBound(w, h, i);
    QuotIs(Col(w, i), t, Quot(Col(w, i), t));
    QuotIs(Row(w, i), t, Quot(Row(w, i), t));
    TileStart(w, t, Quot(Col(w, i), t));
    TileStart(h, t, Quot(Row(w, i), t));
    IndexBound(CeilDiv(w, t), CeilDiv(h, t), Quot(Col(w, i), t), Quot(Row(w, i), t));
  }

  /** The rectangle of tile `k` holds exactly the pixels owned by tile `k`. */
  lemma TileRectOwns(w: nat, h: nat, t: nat, k: nat, i: nat)
    requires w > 0 && h > 0 && t > 0 && k < TileCount(w, h, t) && i < Size(w, h)
    ensures InRect(w, TileRect(w, h, t, k), i) <==> TileOf(w, t, i) == k
  {
    hide Times, CeilDiv, Col, Row, Size, Quot, At;
    var c := CeilDiv(w, t);
    TileCoordinates(w, h, t, k);
    RowBound(w, h, i);
    QuotIs(Col(w, i), t, Col(c, k));
    QuotIs(Row(w, i), t, Row(c, k));
    TileOfBound(w, h, t, i);
    IndexSplit(c, Quot(Col(w, i), t), Quot(Row(w, i), t));
    RowBound(c, CeilDiv(h, t), k);
  }

  // -------------------------------------------------------------- selection

  /** The rectangles of the flagged tiles, in row-major order. */
  ghost function Select(w: nat, h: nat, t: nat, flags: seq<bool>): seq<Rect>
    requires w > 0 && h > 0 && t > 0 && |flags| <= TileCount(w, h, t)
  {
    if flags == [] then []
    else
      var n := |flags| - 1;
      Select(w, h, t, flags[..n]) + (if flags[n] then [TileRect(w, h, t, n)] else [])
  }

  lemma {:induction false} SelectMember(w: nat, h: nat, t: nat, flags: seq<bool>, j: nat) returns (k: nat)
    requires w > 0 && h > 0 && t > 0 && |flags| <= TileCount(w, h, t)
    requires j < |Select(w, h, t, flags)|
    ensures k < |flags| && flags[k] && Select(w, h, t, flags)[j] == TileRect(w, h, t, k)
  {
    hide TileRect, TileCount;
    var n := |flags| - 1;
    if j < |Select(w, h, t, flags[..n])| {
      k := SelectMember(w, h, t, flags[..n], j);
    } else {
      k := n;
    }
  }

  lemma SelectValid(w: nat, h: nat, t: nat, flags: seq<bool>)
    requires w > 0 && h > 0 && t > 0 && |flags| <= TileCount(w, h, t)
    ensures AllValid(w, h, Select(w, h, t, flags))
  {
    hide TileRect, TileCount;
    forall j | 0 <= j < |Select(w, h, t, flags)| ensures ValidRect(w, h, Select(w, h, t, flags)[j]) {
      var k := SelectMember(w, h, t, flags, j);
      TileRectValid(w, h, t, k);
    }
  }

  lemma {:induction false} SelectCovers(w: nat, h: nat, t: nat, flags: seq<bool>, i: nat)
    requires w > 0 && h > 0 && t > 0 && |flags| <= TileCount(w, h, t) && i < Size(w, h)
    ensures Covered(w, Select(w, h, t, flags), i) <==> TileOf(w, t, i) < |flags| && flags[TileOf(w, t, i)]
  {
    hide TileRect, TileCount, TileOf, InRect, Size;
    if flags != [] {
      var n := |flags| - 1;
      SelectCovers(w, h, t, flags[..n], i);
      TileRectOwns(w, h, t, n, i);
      CoveredConcat(w, Select(w, h, t, flags[..n]), if flags[n] then [TileRect(w, h, t, n)] else [], i);
      CoveredOne(w, TileRect(w, h, t, n), i);
    }
  }

  lemma TilesDisjoint(w: nat, h: nat, t: nat, j: nat, k: nat)
    requires w > 0 && h > 0 && t > 0 && j < TileCount(w, h, t) && k < TileCount(w, h, t) && j != k
    ensures !Overlaps(TileRect(w, h, t, j), TileRect(w, h, t, k))
  {
    hide TileRect, TileCount, TileOf, InRect, Size;
    var a, b := TileRect(w, h, t, j), TileRect(w, h, t, k);
    TileRectValid(w, h, t, j);
    TileRectValid(w, h, t, k);
    OverlapsExact(w, h, a, b);
    forall i: nat ensures !(InRect(w, a, i) && InRect(w, b, i)) {
      if InRect(w, a, i) && InRect(w, b, i) {
        RectInside(w, h, a, i);
        TileRectOwns(w, h, t, j, i);
        TileRectOwns(w, h, t, k, i);
      }
    }
  }

  lemma {:induction false} SelectDisjoint(w: nat, h: nat, t: nat, flags: seq<bool>)
    requires w > 0 && h > 0 && t > 0 && |flags| <= TileCount(w, h, t)
    ensures PairwiseDisjoint(Select(w, h, t, flags))
  {
    hide TileRect, TileCount, Overlaps;
    if flags != [] {
      var n := |flags| - 1;
      SelectDisjoint(w, h, t, flags[..n]);
      forall j | 0 <= j < |Select(w, h, t, flags[..n])|
        ensures !Overlaps(Select(w, h, t, flags[..n])[j], TileRect(w, h, t, n))
      {
        var k := SelectMember(w, h, t, flags[..n], j);
        TilesDisjoint(w, h, t, k, n);
      }
    }
  }

  // ------------------------------------------------------------------- area

  ghost function RectPixels(w: nat, h: nat, r: Rect): set<nat>
    requires w > 0
  {
    set i: nat | i < Size(w, h) && InRect(w, r, i)
  }

  predicate InRun(start: nat, len: nat, i: nat) {
    start <= i < start + len
  }

  ghost function Run(start: nat, len: nat): set<nat> {
    set i: nat | i < start + len && InRun(start, len, i)
  }

  lemma {:induction false} RunSize(start: nat, len: nat)
    ensures |Run(start, len)| == len
  {
    if len > 0 {
      RunSize(start, len - 1);
      assert Run(start, len) == Run(start, len - 1) + {start + len - 1};
    }
  }

  lemma {:induction false} RectPixelsSize(w: nat, h: nat, r: Rect)
    requires w > 0 && r.width > 0 && r.x + r.width <= w && r.y + r.height <= h
    ensures |RectPixels(w, h, r)| == Area(r)
    decreases r.height
  {
    hide Col, Row, At, Size;
    if r.height == 0 {
      assert RectPixels(w, h, r) == {};
      SizeGrows(r.width, 0);
    } else {
      var upper := r.(height := r.height - 1);
      var y := r.y + r.height - 1;
      var start := At(w, r.x, y);
      var run := Run(start, r.width);
      RectPixelsSize(w, h, upper);
      RunSize(start, r.width);
      RunInside(w, h, r.x, r.width, y);
      forall i: nat
        ensures i in RectPixels(w, h, r) <==> i in RectPixels(w, h, upper) || i in run
        ensures !(i in RectPixels(w, h, upper) && i in run)
      {
        RowRun(w, r.x, r.width, y, i);
      }
      assert RectPixels(w, h, r) == RectPixels(w, h, upper) + run;
      assert RectPixels(w, h, upper) !! run;
      SizeGrows(r.width, r.height - 1);
    }
  }

  lemma SizeGrows(w: nat, h: nat)
    ensures Size(w, 0) == 0 && Size(w, h + 1) == Size(w, h) + w
  {
  }

  /** Rectangles that share no pixel fit the panel together. */
  lemma DisjointArea(w: nat, h: nat, rects: seq<Rect>)
    requires w > 0 && h > 0 && AllValid(w, h, rects) && PairwiseDisjoint(rects)
    ensures TotalArea(rects) == |CoveredPixels(w, h, rects)| <= Size(w, h)
  {
    hide Size, ValidRect, Covered;
    DisjointPixels(w, h, rects);
    SubsetSize(CoveredPixels(w, h, rects), Run(0, Size(w, h)));
    RunSize(0, Size(w, h));
  }

  ghost function CoveredPixels(w: nat, h: nat, rects: seq<Rect>): set<nat>
    requires w > 0
  {
    set i: nat | i < Size(w, h) && Covered(w, rects, i)
  }

  /** One more rectangle adds its own pixels. */
  lemma CoveredGrows(w: nat, h: nat, rects: seq<Rect>)
    requires w > 0 && h > 0 && rects != [] && AllValid(w, h, rects) && PairwiseDisjoint(rects)
    ensures var n := |rects| - 1;
            && |RectPixels(w, h, rects[n])| == Area(rects[n])
            && CoveredPixels(w, h, rects) == CoveredPixels(w, h, rects[..n]) + RectPixels(w, h, rects[n])
            && CoveredPixels(w, h, rects[..n]) !! RectPixels(w, h, rects[n])
  {
    hide Size, InRect, Overlaps, Covered;
    var n := |rects| - 1;
    assert ValidRect(w, h, rects[n]);
    RectPixelsSize(w, h, rects[n]);
    forall i: nat | i < Size(w, h)
      ensures i in CoveredPixels(w, h, rects) <==> i in CoveredPixels(w, h, rects[..n]) || i in RectPixels(w, h, rects[n])
      ensures !(i in CoveredPixels(w, h, rects[..n]) && i in RectPixels(w, h, rects[n]))
    {
      CoveredSnoc(w, rects, i);
      ApartFromEarlier(w, h, rects, i);
    }
  }

  lemma ApartFromEarlier(w: nat, h: nat, rects: seq<Rect>, i: nat)
    requires w > 0 && rects != [] && AllValid(w, h, rects) && PairwiseDisjoint(rects)
    ensures !(Covered(w, rects[..|rects| - 1], i) && InRect(w, rects[|rects| - 1], i))
  {
    hide InRect, Overlaps, ValidRect;
    var n := |rects| - 1;
    if Covered(w, rects[..n], i) && InRect(w, rects[n], i) {
      var k :| 0 <= k < n && InRect(w, rects[..n][k], i);
      OverlapsExact(w, h, rects[k], rects[n]);
    }
  }

  lemma {:induction false} DisjointPixels(w: nat, h: nat, rects: seq<Rect>)
    requires w > 0 && h > 0 && AllValid(w, h, rects) && PairwiseDisjoint(rects)
    ensures TotalArea(rects) == |CoveredPixels(w, h, rects)|
  {
    hide Size, ValidRect, Overlaps, CoveredPixels, RectPixels;
    if rects == [] {
      NoneCovered(w, h);
    } else {
      DisjointPixels(w, h, rects[..|rects| - 1]);
      CoveredGrows(w, h, rects);
    }
  }

  lemma NoneCovered(w: nat, h: nat)
    requires w > 0
    ensures CoveredPixels(w, h, []) == {}
  {
  }

  // ---------------------------------------------------------- damage search

  /** Some pixel of tile `k` differs. */
  ghost predicate Differs(w: nat, h: nat, t: nat, previous: Image, current: Image, k: nat)
    requires w > 0 && t > 0 && |previous| == |current| == Size(w, h)
  {
    exists i :: 0 <= i < Size(w, h) && TileOf(w, t, i) == k && previous[i] != current[i]
  }

  /** Some pixel of tile `k` lies in one of the rectangles. */
  ghost predicate Touched(w: nat, h: nat, t: nat, rects: seq<Rect>, k: nat)
    requires w > 0 && t > 0
  {
    exists i :: 0 <= i < Size(w, h) && TileOf(w, t, i) == k && Covered(w, rects, i)
  }

  ghost function DiffFlags(w: nat, h: nat, t: nat, previous: Image, current: Image): seq<bool>
    requires w > 0 && t > 0 && |previous| == |current| == Size(w, h)
  {
    seq(TileCount(w, h, t), k requires k >= 0 => Differs(w, h, t, previous, current, k))
  }

  ghost function TouchFlags(w: nat, h: nat, t: nat, rects: seq<Rect>): seq<bool>
    requires w > 0 && t > 0
  {
    seq(TileCount(w, h, t), k requires k >= 0 => Touched(w, h, t, rects, k))
  }

  ghost function CandidateFlags(w: nat, h: nat, t: nat, previous: Image, current: Image, rects: seq<Rect>): seq<bool>
    requires w > 0 && t > 0 && |previous| == |current| == Size(w, h)
  {
    seq(TileCount(w, h, t), k requires k >= 0 => Touched(w, h, t, rects, k) && Differs(w, h, t, previous, current, k))
  }

  /** What `tile_damage` returns; a zero tile size falls back to the panel. */
  ghost function TileDamage(w: nat, h: nat, t: nat, previous: Image, current: Image): seq<Rect>
    requires w > 0 && h > 0 && |previous| == |current| == Size(w, h)
  {
    if t == 0 then [Full(w, h)] else Select(w, h, t, DiffFlags(w, h, t, previous, current))
  }

  /** What `tile_damage_regions` returns. */
  ghost function TileDamageRegions(w: nat, h: nat, t: nat, previous: Image, current: Image, rects: seq<Rect>)
    : seq<Rect>
    requires w > 0 && h > 0 && |previous| == |current| == Size(w, h)
  {
    if t == 0 then [Full(w, h)] else Select(w, h, t, CandidateFlags(w, h, t, previous, current, rects))
  }

  /** What `merge_tiled_damage` returns. */
  ghost function MergeTiled(w: nat, h: nat, tile: nat, existing: seq<Rect>, damage: seq<Rect>): seq<Rect>
    requires w > 0 && h > 0
  {
    var t := Max(tile, 1);
    Select(w, h, t, TouchFlags(w, h, t, existing + damage))
  }

  ghost predicate AgreeOutside(w: nat, a: Image, b: Image, rects: seq<Rect>)
    requires w > 0 && |a| == |b|
  {
    forall i :: 0 <= i < |a| && !Covered(w, rects, i) ==> a[i] == b[i]
  }

  /** Searching only the tiles of the listed rectangles loses nothing: it finds
      the same tiles in the same order as the search of the whole panel. */
  lemma RestrictedSearchIsFull(w: nat, h: nat, t: nat, previous: Image, current: Image, rects: seq<Rect>)
    requires w > 0 && h > 0 && |previous| == |current| == Size(w, h)
    requires AgreeOutside(w, previous, current, rects)
    ensures TileDamageRegions(w, h, t, previous, current, rects) == TileDamage(w, h, t, previous, current)
  {
    hide TileCount, TileOf, Covered, Size;
    if t != 0 {
      forall k | 0 <= k < TileCount(w, h, t)
        ensures Differs(w, h, t, previous, current, k) ==> Touched(w, h, t, rects, k)
      {
        if Differs(w, h, t, previous, current, k) {
          var i :| 0 <= i < Size(w, h) && TileOf(w, t, i) == k && previous[i] != current[i];
          assert Covered(w, rects, i);
        }
      }
      assert CandidateFlags(w, h, t, previous, current, rects) == DiffFlags(w, h, t, previous, current);
    }
  }

  ghost predicate ChangedIn(w: nat, h: nat, previous: Image, current: Image, r: Rect)
    requires w > 0 && |previous| == |current| == Size(w, h)
  {
    exists i :: 0 <= i < Size(w, h) && InRect(w, r, i) && previous[i] != current[i]
  }

  /** The search finds every differing pixel, and (for a nonzero tile) every
      listed tile really holds one. */
  lemma TileDamageExact(w: nat, h: nat, t: nat, previous: Image, current: Image)
    requires w > 0 && h > 0 && |previous| == |current| == Size(w, h)
    ensures var d := TileDamage(w, h, t, previous, current);
            && AllValid(w, h, d)
            && PairwiseDisjoint(d)
            && AgreeOutside(w, previous, current, d)
            && (t != 0 ==> forall j :: 0 <= j < |d| ==> ChangedIn(w, h, previous, current, d[j]))
  {
    hide TileRect, TileCount, TileOf, InRect, Size, Overlaps, Select, Covered;
    var d := TileDamage(w, h, t, previous, current);
    if t == 0 {
      forall i | 0 <= i < Size(w, h) ensures Covered(w, d, i) {
        FullCovers(w, h, i);
      }
    } else {
      var flags := DiffFlags(w, h, t, previous, current);
      SelectValid(w, h, t, flags);
      SelectDisjoint(w, h, t, flags);
      forall i | 0 <= i < Size(w, h) && previous[i] != current[i] ensures Covered(w, d, i) {
        TileOfBound(w, h, t, i);
        assert Differs(w, h, t, previous, current, TileOf(w, t, i));
        SelectCovers(w, h, t, flags, i);
      }
      forall j | 0 <= j < |d|
        ensures ChangedIn(w, h, previous, current, d[j])
      {
        var k := SelectMember(w, h, t, flags, j);
        var i :| 0 <= i < Size(w, h) && TileOf(w, t, i) == k && previous[i] != current[i];
        TileRectOwns(w, h, t, k, i);
        assert InRect(w, d[j], i) && previous[i] != current[i];
      }
    }
  }

  // ------------------------------------------------------------ merged debt

  lemma MergeCovers(w: nat, h: nat, tile: nat, existing: seq<Rect>, damage: seq<Rect>, i: nat)
    requires w > 0 && h > 0 && i < Size(w, h)
    ensures var t := Max(tile, 1);
            Covered(w, MergeTiled(w, h, tile, existing, damage), i) <==>
            Touched(w, h, t, existing + damage, TileOf(w, t, i))
    ensures Covered(w, existing, i) || Covered(w, damage, i) ==>
            Covered(w, MergeTiled(w, h, tile, existing, damage), i)
  {
    hide TileRect, TileCount, TileOf, Size, Select, Covered;
    var t := Max(tile, 1);
    TileOfBound(w, h, t, i);
    SelectCovers(w, h, t, TouchFlags(w, h, t, existing + damage), i);
    CoveredConcat(w, existing, damage, i);
  }

  /** The merged damage is made of pairwise disjoint grid tiles, and a tile is
      listed exactly when one of the two inputs touches it. */
  lemma MergeIsTouchedTiles(w: nat, h: nat, tile: nat, existing: seq<Rect>, damage: seq<Rect>)
    requires w > 0 && h > 0
    ensures var t := Max(tile, 1);
            var m := MergeTiled(w, h, tile, existing, damage);
            && AllValid(w, h, m)
            && PairwiseDisjoint(m)
            && (forall k :: 0 <= k < TileCount(w, h, t) ==>
                  (TileRect(w, h, t, k) in m <==>
                   Touched(w, h, t, existing, k) || Touched(w, h, t, damage, k)))
            && (forall r :: r in m ==> exists k :: 0 <= k < TileCount(w, h, t) && r == TileRect(w, h, t, k))
  {
    hide TileRect, TileCount, TileOf, Size, Touched, Select, Overlaps;
    var t := Max(tile, 1);
    var flags := TouchFlags(w, h, t, existing + damage);
    var m := MergeTiled(w, h, tile, existing, damage);
    SelectValid(w, h, t, flags);
    SelectDisjoint(w, h, t, flags);
    forall k | 0 <= k < TileCount(w, h, t)
      ensures TileRect(w, h, t, k) in m <==> Touched(w, h, t, existing, k) || Touched(w, h, t, damage, k)
    {
      TouchedConcat(w, h, t, existing, damage, k);
      SelectHas(w, h, t, flags, k);
    }
    forall r | r in m ensures exists k :: 0 <= k < TileCount(w, h, t) && r == TileRect(w, h, t, k) {
      var j :| 0 <= j < |m| && m[j] == r;
      var k := SelectMember(w, h, t, flags, j);
    }
  }

  lemma TouchedConcat(w: nat, h: nat, t: nat, a: seq<Rect>, b: seq<Rect>, k: nat)
    requires w > 0 && t > 0
    ensures Touched(w, h, t, a + b, k) <==> Touched(w, h, t, a, k) || Touched(w, h, t, b, k)
  {
    hide TileOf, Covered, Size;
    forall i | 0 <= i < Size(w, h) ensures Covered(w, a + b, i) <==> Covered(w, a, i) || Covered(w, b, i) {
      CoveredConcat(w, a, b, i);
    }
  }

  lemma SelectHas(w: nat, h: nat, t: nat, flags: seq<bool>, k: nat)
    requires w > 0 && h > 0 && t > 0 && |flags| == TileCount(w, h, t) && k < TileCount(w, h, t)
    ensures TileRect(w, h, t, k) in Select(w, h, t, flags) <==> flags[k]
  {
    hide TileRect, TileCount, TileOf, InRect, Size, Select;
    var s := Select(w, h, t, flags);
    var i := TileCorner(w, h, t, k);
    SelectCovers(w, h, t, flags, i);
    if flags[k] {
      var j :| 0 <= j < |s| && InRect(w, s[j], i);
      var k' := SelectMember(w, h, t, flags, j);
      TileRectOwns(w, h, t, k', i);
    } else {
      forall j | 0 <= j < |s| ensures s[j] != TileRect(w, h, t, k) {
      }
    }
  }

  lemma TileCorner(w: nat, h: nat, t: nat, k: nat) returns (i: nat)
    requires w > 0 && h > 0 && t > 0 && k < TileCount(w, h, t)
    ensures i < Size(w, h) && TileOf(w, t, i) == k && InRect(w, TileRect(w, h, t, k), i)
  {
    hide TileRect, TileCount, TileOf, Col, Row, At, Size;
    var r := TileRect(w, h, t, k);
    TileRectValid(w, h, t, k);
    i := At(w, r.x, r.y);
    IndexSplit(w, r.x, r.y);
    IndexBound(w, h, r.x, r.y);
    TileRectOwns(w, h, t, k, i);
  }

  lemma MergeCommutes(w: nat, h: nat, tile: nat, a: seq<Rect>, b: seq<Rect>)
    requires w > 0 && h > 0
    ensures MergeTiled(w, h, tile, a, b) == MergeTiled(w, h, tile, b, a)
  {
    hide TileRect, TileCount, TileOf, Size, Touched;
    var t := Max(tile, 1);
    forall k | 0 <= k < TileCount(w, h, t)
      ensures Touched(w, h, t, a + b, k) <==> Touched(w, h, t, b + a, k)
    {
      TouchedConcat(w, h, t, a, b, k);
      TouchedConcat(w, h, t, b, a, k);
    }
    assert TouchFlags(w, h, t, a + b) == TouchFlags(w, h, t, b + a);
  }

  /** Merging damage that is already part of the debt changes nothing. */
  lemma MergeIdempotent(w: nat, h: nat, tile: nat, a: seq<Rect>, b: seq<Rect>)
    requires w > 0 && h > 0
    ensures var m := MergeTiled(w, h, tile, a, b);
            MergeTiled(w, h, tile, m, b) == m && MergeTiled(w, h, tile, m, m) == m
  {
    hide TileRect, TileCount, TileOf, Size, Touched, Select;
    var t := Max(tile, 1);
    var flags := TouchFlags(w, h, t, a + b);
    var m := MergeTiled(w, h, tile, a, b);
    forall k | 0 <= k < TileCount(w, h, t)
      ensures Touched(w, h, t, m, k) <==> flags[k]
    {
      SelectTouches(w, h, t, flags, k);
    }
    forall k | 0 <= k < TileCount(w, h, t)
      ensures (Touched(w, h, t, m + b, k) <==> flags[k]) && (Touched(w, h, t, m + m, k) <==> flags[k])
    {
      TouchedConcat(w, h, t, a, b, k);
      TouchedConcat(w, h, t, m, b, k);
      TouchedConcat(w, h, t, m, m, k);
    }
    assert TouchFlags(w, h, t, m + b) == flags;
    assert TouchFlags(w, h, t, m + m) == flags;
  }

  lemma SelectTouches(w: nat, h: nat, t: nat, flags: seq<bool>, k: nat)
    requires w > 0 && h > 0 && t > 0 && |flags| == TileCount(w, h, t) && k < TileCount(w, h, t)
    ensures Touched(w, h, t, Select(w, h, t, flags), k) <==> flags[k]
  {
    hide TileRect, TileCount, TileOf, Covered, Size, Select;
    var s := Select(w, h, t, flags);
    if Touched(w, h, t, s, k) {
      var i :| 0 <= i < Size(w, h) && TileOf(w, t, i) == k && Covered(w, s, i);
      SelectCovers(w, h, t, flags, i);
    }
    if flags[k] {
      var i := TileCorner(w, h, t, k);
      SelectCovers(w, h, t, flags, i);
    }
  }

  /** The area of merged damage counts every covered pixel once, so it never
      exceeds the panel; this is what the large-damage threshold compares. */
  lemma MergeAreaCountsPixels(w: nat, h: nat, tile: nat, a: seq<Rect>, b: seq<Rect>)
    requires w > 0 && h > 0
    ensures var m := MergeTiled(w, h, tile, a, b);
            TotalArea(m) == |CoveredPixels(w, h, m)| <= Size(w, h)
  {
    hide TileRect, TileCount, Size, Touched, MergeTiled;
    MergeIsTouchedTiles(w, h, tile, a, b);
    DisjointArea(w, h, MergeTiled(w, h, tile, a, b));
  }

  lemma {:induction false} SubsetSize(a: set<nat>, b: set<nat>)
    requires a <= b
    ensures |a| <= |b|
  {
    if a != {} {
      var x :| x in a;
      SubsetSize(a - {x}, b - {x});
    }
  }
}
