/** What the pixel operations of the surface mean, stated on whole images. */
module Raster {
  import opened Geometry
  import opened Pixels

  type Image = seq<Pixel>

  /** A local plane: luma and alpha samples, the cached transparent flag and
      the rectangle touched by ink strokes that were not presented yet. */
  datatype Plane = Plane(luma: seq<bv8>, alpha: seq<bv8>, transparent: bool, dirty: Option<Rect>)

  ghost predicate PlaneOk(w: nat, h: nat, p: Plane) {
    && |p.luma| == |p.alpha| == Size(w, h)
    && (p.transparent ==> forall i :: 0 <= i < |p.alpha| ==> p.alpha[i] == 0)
    && (p.dirty.Some? ==> ValidRect(w, h, p.dirty.value))
  }

  function BlankPlane(n: nat): Plane {
    Plane(seq(n, _ => 0), seq(n, _ => 0), true, None)
  }

  ghost function DirtyRects(p: Plane): seq<Rect> {
    if p.dirty.Some? then [p.dirty.value] else []
  }

  // ------------------------------------------------------------ composition

  /** `dst` with every covered pixel taken from `src`. */
  ghost function Painted(w: nat, dst: Image, src: Image, rects: seq<Rect>): (r: Image)
    requires w > 0 && |dst| == |src|
    ensures |r| == |dst|
    ensures forall i :: 0 <= i < |r| ==> r[i] == if Covered(w, rects, i) then src[i] else dst[i]
  {
    seq(|dst|, i requires 0 <= i < |dst| => if Covered(w, rects, i) then src[i] else dst[i])
  }

  /** A plane laid over a whole image. */
  ghost function Layered(img: Image, p: Plane): (r: Image)
    requires |img| == |p.luma| == |p.alpha|
    ensures |r| == |img|
    ensures forall i :: 0 <= i < |r| ==> r[i] == Over(img[i], p.luma[i], p.alpha[i])
  {
    seq(|img|, i requires 0 <= i < |img| => Over(img[i], p.luma[i], p.alpha[i]))
  }

  /** The picture a panel should show: remote base, producer overlay, local
      ink and receiver menu, in this order. */
  ghost function Composed(base: Image, peer: Plane, ink: Plane, menu: Plane): (r: Image)
    requires |base| == |peer.luma| == |peer.alpha|
    requires |base| == |ink.luma| == |ink.alpha|
    requires |base| == |menu.luma| == |menu.alpha|
    ensures |r| == |base|
  {
    Layered(Layered(Layered(base, peer), ink), menu)
  }

  /** The topmost opaque sample is the one that shows, whatever lies below it, and
      a pixel under three clear samples is that of the base. */
  lemma TopmostShows(base: Image, peer: Plane, ink: Plane, menu: Plane, i: nat)
    requires |base| == |peer.luma| == |peer.alpha|
    requires |base| == |ink.luma| == |ink.alpha|
    requires |base| == |menu.luma| == |menu.alpha|
    requires i < |base|
    ensures var shown := Composed(base, peer, ink, menu)[i];
            && (menu.alpha[i] == 255 ==> shown == Plain(base[i], menu.luma[i]))
            && (menu.alpha[i] == 0 && ink.alpha[i] == 255 ==> shown == Plain(base[i], ink.luma[i]))
            && (menu.alpha[i] == 0 && ink.alpha[i] == 0 && peer.alpha[i] == 255 ==> shown == Plain(base[i], peer.luma[i]))
            && (menu.alpha[i] == 0 && ink.alpha[i] == 0 && peer.alpha[i] == 0 ==> shown == base[i])
  {
    hide Over, Plain;
    var a := Over(base[i], peer.luma[i], peer.alpha[i]);
    var b := Over(a, ink.luma[i], ink.alpha[i]);
    OverOpaque(base[i], peer.luma[i]);
    OverZero(base[i], peer.luma[i]);
    OverOpaque(a, ink.luma[i]);
    OverZero(a, ink.luma[i]);
    OverOpaque(b, menu.luma[i]);
    OverZero(b, menu.luma[i]);
    PlainOver(base[i], peer.luma[i], peer.alpha[i], ink.luma[i]);
    PlainOver(base[i], peer.luma[i], peer.alpha[i], menu.luma[i]);
    PlainOver(a, ink.luma[i], ink.alpha[i], menu.luma[i]);
  }

  /** The contents of all buffers of a display core. */
  datatype Pictures = Pictures(
    base: Image,
    presentedBase: Image,
    presented: Image,
    working: Image,
    menu: Plane,
    peer: Plane,
    ink: Plane)

  ghost function PictureOf(p: Pictures): Image
    requires Sizes(|p.base|, p)
  {
    Composed(p.base, p.peer, p.ink, p.menu)
  }

  ghost predicate Sizes(n: nat, p: Pictures) {
    && |p.base| == |p.presentedBase| == |p.presented| == |p.working| == n
    && |p.menu.luma| == |p.menu.alpha| == |p.peer.luma| == |p.peer.alpha| == |p.ink.luma| == |p.ink.alpha| == n
  }

  lemma LayeredTransparent(img: Image, p: Plane)
    requires |img| == |p.luma| == |p.alpha|
    requires forall i :: 0 <= i < |p.alpha| ==> p.alpha[i] == 0
    ensures Layered(img, p) == img
  {
    forall i | 0 <= i < |img| ensures Layered(img, p)[i] == img[i] {
      OverZero(img[i], p.luma[i]);
    }
  }

  /** Blending in place, one rectangle after the other. */
  ghost function BlendOne(w: nat, img: Image, p: Plane, r: Rect): (res: Image)
    requires w > 0 && |img| == |p.luma| == |p.alpha|
    ensures |res| == |img|
  {
    Painted(w, img, Layered(img, p), [r])
  }

  ghost function BlendAll(w: nat, img: Image, p: Plane, rects: seq<Rect>): (res: Image)
    requires w > 0 && |img| == |p.luma| == |p.alpha|
    ensures |res| == |img|
  {
    if rects == [] then img
    else BlendOne(w, BlendAll(w, img, p, rects[..|rects| - 1]), p, rects[|rects| - 1])
  }

  lemma {:induction false} BlendAllAt(w: nat, h: nat, img: Image, p: Plane, rects: seq<Rect>, i: nat)
    requires w > 0 && |img| == |p.luma| == |p.alpha| == Size(w, h)
    requires AllValid(w, h, rects) && PairwiseDisjoint(rects) && i < |img|
    ensures BlendAll(w, img, p, rects)[i] ==
            if Covered(w, rects, i) then Over(img[i], p.luma[i], p.alpha[i]) else img[i]
  {
    hide Over;
    if rects != [] {
      var n := |rects| - 1;
      var init := rects[..n];
      BlendAllAt(w, h, img, p, init, i);
      CoveredSnoc(w, rects, i);
      CoveredOne(w, rects[n], i);
      if InRect(w, rects[n], i) && Covered(w, init, i) {
        var k :| 0 <= k < |init| && InRect(w, init[k], i);
        OverlapsExact(w, h, rects[k], rects[n]);
        assert false;
      }
    }
  }

  /** Every way to compose a set of non-overlapping rectangles gives the same
      picture: copying the base and blending the three planes in place is the
      same as painting the fully composed image. */
  lemma CompositionPathsAgree(w: nat, h: nat, dst: Image, base: Image, peer: Plane, ink: Plane, menu: Plane,
                              rects: seq<Rect>)
    requires w > 0 && |dst| == |base| == Size(w, h)
    requires |peer.luma| == |peer.alpha| == Size(w, h)
    requires |ink.luma| == |ink.alpha| == Size(w, h)
    requires |menu.luma| == |menu.alpha| == Size(w, h)
    requires AllValid(w, h, rects) && PairwiseDisjoint(rects)
    ensures BlendAll(w, BlendAll(w, BlendAll(w, Painted(w, dst, base, rects), peer, rects), ink, rects), menu, rects)
         == Painted(w, dst, Composed(base, peer, ink, menu), rects)
  {
    hide Over;
    var a := Painted(w, dst, base, rects);
    var b := BlendAll(w, a, peer, rects);
    var c := BlendAll(w, b, ink, rects);
    var d := BlendAll(w, c, menu, rects);
    forall i | 0 <= i < Size(w, h) ensures d[i] == Painted(w, dst, Composed(base, peer, ink, menu), rects)[i] {
      BlendAllAt(w, h, a, peer, rects, i);
      BlendAllAt(w, h, b, ink, rects, i);
      BlendAllAt(w, h, c, menu, rects, i);
    }
  }

  /** Without the disjointness the in-place path is wrong: a pixel lying in two
      rectangles is blended twice. The two paths agree for every image and
      plane exactly when the rectangles do not overlap. */
  lemma BlendPathExact(w: nat, h: nat, rects: seq<Rect>)
    requires w > 0 && h > 0 && AllValid(w, h, rects)
    ensures PairwiseDisjoint(rects) <==>
            forall img: Image, p: Plane | |img| == |p.luma| == |p.alpha| == Size(w, h) ::
              BlendAll(w, img, p, rects) == Painted(w, img, Layered(img, p), rects)
  {
    if PairwiseDisjoint(rects) {
      forall img: Image, p: Plane | |img| == |p.luma| == |p.alpha| == Size(w, h)
        ensures BlendAll(w, img, p, rects) == Painted(w, img, Layered(img, p), rects)
      {
        hide Over;
        forall i | 0 <= i < Size(w, h)
          ensures BlendAll(w, img, p, rects)[i] == Painted(w, img, Layered(img, p), rects)[i]
        {
          BlendAllAt(w, h, img, p, rects, i);
        }
      }
    } else {
      var j, k :| 0 <= j < k < |rects| && Overlaps(rects[j], rects[k]);
      OverlapsExact(w, h, rects[j], rects[k]);
      var i: nat :| InRect(w, rects[j], i) && InRect(w, rects[k], i);
      CoveredInside(w, h, rects, i);
      var img, p := DoubleBlendWitness(Size(w, h));
      BlendedTwice(w, img, p, rects, i, j, k);
      assert Painted(w, img, Layered(img, p), rects)[i] == Gray8(128) by {
        HalfWhite(0);
      }
    }
  }

  lemma DoubleBlendWitness(n: nat) returns (img: Image, p: Plane)
    ensures |img| == |p.luma| == |p.alpha| == n
    ensures forall i :: 0 <= i < n ==> img[i] == Gray8(0) && p.luma[i] == 255 && p.alpha[i] == 128
  {
    img := seq(n, _ => Gray8(0));
    p := Plane(seq(n, _ => 255), seq(n, _ => 128), false, None);
  }

  /** Half-transparent white takes black to 128 and everything at least there;
      a second layer goes past it. */
  lemma HalfWhite(b: bv8)
    ensures Blend(b, 255, 128) >= 128 && (b >= 128 ==> Blend(b, 255, 128) > 128) && Blend(0, 255, 128) == 128
  {
    hide Level, Mix, Blend;
    LevelConstants();
    HalfMix(Level(b));
    BlendLevel(b, 255, 128);
    BlendLevel(0, 255, 128);
    LevelOrder(128, b);
    LevelOrder(128, Blend(b, 255, 128));
    LevelOrder(Blend(b, 255, 128), 128);
    LevelOrder(Blend(0, 255, 128), 128);
    LevelOrder(128, Blend(0, 255, 128));
  }

  lemma HalfMix(n: nat)
    requires n <= 255
    ensures Mix(n, 255, 128) >= 128 && (n >= 128 ==> Mix(n, 255, 128) > 128) && Mix(0, 255, 128) == 128
  {
  }

  /** The luma of a pixel only grows under this half-transparent white plane,
      and passes 128 at the second blend. */
  lemma {:induction false} BlendGrows(w: nat, img: Image, p: Plane, rects: seq<Rect>, i: nat)
    requires w > 0 && |img| == |p.luma| == |p.alpha| && i < |img|
    requires img[i] == Gray8(0) && p.luma[i] == 255 && p.alpha[i] == 128
    ensures var q := BlendAll(w, img, p, rects)[i];
            q.Gray8? && (Covered(w, rects, i) ==> q.luma >= 128)
  {
    hide Blend;
    forall b: bv8 ensures Blend(b, 255, 128) >= 128 {
      HalfWhite(b);
    }
    if rects != [] {
      BlendGrows(w, img, p, rects[..|rects| - 1], i);
      CoveredSnoc(w, rects, i);
      CoveredOne(w, rects[|rects| - 1], i);
    }
  }

  lemma {:induction false} BlendedTwice(w: nat, img: Image, p: Plane, rects: seq<Rect>, i: nat, j: nat, k: nat)
    requires w > 0 && |img| == |p.luma| == |p.alpha| && i < |img|
    requires img[i] == Gray8(0) && p.luma[i] == 255 && p.alpha[i] == 128
    requires j < k < |rects| && InRect(w, rects[j], i) && InRect(w, rects[k], i)
    ensures var q := BlendAll(w, img, p, rects)[i]; q.Gray8? && q.luma > 128
  {
    hide Blend;
    forall b: bv8 | b >= 128 ensures Blend(b, 255, 128) > 128 {
      HalfWhite(b);
    }
    var n := |rects| - 1;
    var init := rects[..n];
    CoveredOne(w, rects[n], i);
    if k == n {
      BlendGrows(w, img, p, init, i);
      CoveredIntro(w, init, j, i);
    } else {
      BlendedTwice(w, img, p, init, i, j, k);
    }
  }
}
