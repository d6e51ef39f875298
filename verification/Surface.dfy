/** The pixel surface and the local plane, as the buffers the receiver writes
    in place. Every method is tied to the image functions of Raster, Regions
    and Tiles. */
module Surface {
  import opened Geometry
  import opened Pixels
  import opened Raster
  import opened Regions
  import opened Tiles
  import opened Ink

  /** Whether some pixel of a rectangle differs, compared row by row. */
  method RectChanged(w: nat, h: nat, previous: Image, current: Image, r: Rect) returns (changed: bool)
    requires w > 0 && |previous| == |current| == Size(w, h) && ValidRect(w, h, r)
    ensures changed <==> ChangedIn(w, h, previous, current, r)
  {
    hide Col, Row, At, Size;
    for row := 0 to r.height
      invariant forall i :: 0 <= i < |current| && InRect(w, r, i) && Row(w, i) < r.y + row ==>
                  previous[i] == current[i]
    {
      var offset := At(w, r.x, r.y + row);
      RunInside(w, h, r.x, r.width, r.y + row);
      if previous[offset..offset + r.width] != current[offset..offset + r.width] {
        var j :| 0 <= j < r.width && previous[offset..offset + r.width][j] != current[offset..offset + r.width][j];
        RowRun(w, r.x, r.width, r.y + row, offset + j);
        assert InRect(w, r, offset + j) && previous[offset + j] != current[offset + j];
        return true;
      }
      forall i | 0 <= i < |current| && InRect(w, r, i) && Row(w, i) < r.y + row + 1
        ensures previous[i] == current[i]
      {
        RowRun(w, r.x, r.width, r.y + row, i);
        if Row(w, i) == r.y + row {
          assert previous[i] == previous[offset..offset + r.width][i - offset];
          assert current[i] == current[offset..offset + r.width][i - offset];
        }
      }
    }
    return false;
  }

  /** One region written row by row into a buffer. */
  method CopyRegion(surface: array<Pixel>, w: nat, ghost h: nat, region: Region)
    requires w > 0 && surface.Length == Size(w, h) && ShapeOk(w, h, region)
    modifies surface
    ensures surface[..] == ApplyOne(w, old(surface[..]), region)
  {
    hide Col, Row, At, Size;
    var rect := region.rect;
    for row := 0 to rect.height
      invariant forall i :: 0 <= i < surface.Length ==>
                  surface[i] == if InRect(w, rect, i) && Row(w, i) < rect.y + row
                                then RegionPixel(w, region, i) else old(surface[i])
    {
      var src := At(rect.width, 0, row);
      var dst := At(w, rect.x, rect.y + row);
      RunInside(w, h, rect.x, rect.width, rect.y + row);
      RunInside(rect.width, rect.height, 0, rect.width, row);
      forall i | 0 <= i < surface.Length
        ensures (InRect(w, rect, i) && Row(w, i) == rect.y + row) <==> dst <= i < dst + rect.width
        ensures dst <= i < dst + rect.width ==> RegionPixel(w, region, i) == region.pixels[src + i - dst]
      {
        RowRun(w, rect.x, rect.width, rect.y + row, i);
        RegionRow(w, region, row, i);
      }
      forall i | dst <= i < dst + rect.width {
        surface[i] := region.pixels[src + i - dst];
      }
    }
  }

  class PixelSurface {
    const width: nat
    const height: nat
    const format: Format
    const pixels: array<Pixel>

    /** The contents of the buffer. */
    ghost var image: Image

    ghost predicate Sized() {
      width > 0 && height > 0 && pixels.Length == Size(width, height)
    }

    ghost predicate Valid()
      reads this, pixels
    {
      Sized() && image == pixels[..]
    }

    constructor (width: nat, height: nat, format: Format)
      requires width > 0 && height > 0
      ensures Valid() && fresh(pixels)
      ensures this.width == width && this.height == height && this.format == format
      ensures image == seq(Size(width, height), _ => White(format))
    {
      this.width, this.height, this.format := width, height, format;
      pixels := new Pixel[Size(width, height)](_ => White(format));
      new;
      image := pixels[..];
    }

    predicate SameShape(other: PixelSurface) {
      width == other.width && height == other.height && format == other.format
    }

    /** In-place `clone_from` between surfaces of one shape. */
    method CloneFrom(source: PixelSurface)
      requires Valid() && source.Valid() && SameShape(source) && source.pixels != pixels
      modifies this, pixels
      ensures Valid() && image == source.image
    {
      hide Size;
      forall i | 0 <= i < pixels.Length { pixels[i] := source.pixels[i]; }
      image := pixels[..];
    }

    /** Rejects the whole list, or writes every region. */
    method ApplyRegionsAtomic(regions: seq<Region>) returns (error: Option<SurfaceError>)
      requires Valid()
      modifies this, pixels
      ensures Valid()
      ensures error == ValidateRegions(width, height, regions)
      ensures error.Some? ==> image == old(image)
      ensures error.None? ==> image == ApplyAll(width, height, old(image), regions)
    {
      error := CheckRegions(width, height, regions);
      if error.Some? {
        return;
      }
      hide ShapeOk, ApplyOne;
      assert regions[..0] == [];
      for k := 0 to |regions|
        invariant pixels[..] == ApplyAll(width, height, old(pixels[..]), regions[..k])
      {
        assert regions[..k + 1][..k] == regions[..k];
        CopyRegion(pixels, width, height, regions[k]);
      }
      assert regions[..|regions|] == regions;
      image := pixels[..];
    }

    method PaintRect(source: PixelSurface, rect: Rect)
      requires Sized() && source.Sized() && SameShape(source) && source.pixels != pixels
      requires ValidRect(width, height, rect)
      modifies pixels
      ensures forall i :: 0 <= i < pixels.Length ==>
                pixels[i] == if InRect(width, rect, i) then source.pixels[i] else old(pixels[i])
    {
      hide Col, Row, At, Size;
      for y := rect.y to rect.y + rect.height
        invariant forall i :: 0 <= i < pixels.Length ==>
                    pixels[i] == if InRect(width, rect, i) && Row(width, i) < y
                                 then source.pixels[i] else old(pixels[i])
      {
        var start := At(width, rect.x, y);
        RunInside(width, height, rect.x, rect.width, y);
        forall i | 0 <= i < pixels.Length
          ensures (InRect(width, rect, i) && Row(width, i) == y) <==> start <= i < start + rect.width
        {
          RowRun(width, rect.x, rect.width, y, i);
        }
        forall i | start <= i < start + rect.width {
          pixels[i] := source.pixels[i];
        }
      }
    }

    /** Stops at the first invalid rectangle, leaving those before it copied. */
    method CopyRegionsFrom(source: PixelSurface, regions: seq<Rect>) returns (error: Option<SurfaceError>)
      requires Valid() && source.Valid() && source.pixels != pixels
      modifies this, pixels
      ensures Valid()
      ensures !SameShape(source) ==> error == Some(BadLength) && image == old(image)
      ensures SameShape(source) ==> (error.None? <==> AllValid(width, height, regions))
      ensures error.None? ==> image == Painted(width, old(image), source.image, regions)
      ensures SameShape(source) && error.Some? ==>
                exists k :: 0 <= k < |regions| && !ValidRect(width, height, regions[k])
                  && image == Painted(width, old(image), source.image, regions[..k])
    {
      if !SameShape(source) {
        return Some(BadLength);
      }
      hide InRect, Size;
      assert source.image == source.pixels[..] && image == pixels[..];
      for k := 0 to |regions|
        invariant AllValid(width, height, regions[..k])
        invariant pixels[..] == Painted(width, old(pixels[..]), source.pixels[..], regions[..k])
      {
        if !ValidRect(width, height, regions[k]) {
          image := pixels[..];
          return Some(BadRegion);
        }
        ghost var before := pixels[..];
        PaintRect(source, regions[k]);
        assert regions[..k + 1][..k] == regions[..k];
        forall i | 0 <= i < pixels.Length
          ensures pixels[i] == Painted(width, old(pixels[..]), source.pixels[..], regions[..k + 1])[i]
        {
          CoveredSnoc(width, regions[..k + 1], i);
          assert before[i] == Painted(width, old(pixels[..]), source.pixels[..], regions[..k])[i];
        }
        assert pixels[..] == Painted(width, old(pixels[..]), source.pixels[..], regions[..k + 1]);
      }
      assert regions[..|regions|] == regions;
      image := pixels[..];
      return None;
    }

    /** A new surface with the plane laid over this one; a plane flagged
        transparent is skipped without looking at it. */
    method Compose(overlay: LocalOverlay) returns (result: Option<PixelSurface>)
      requires Valid() && overlay.Valid()
      ensures result.Some? <==> overlay.luma.Length == pixels.Length
      ensures result.Some? ==>
                && fresh(result.value) && fresh(result.value.pixels)
                && result.value.Valid() && result.value.SameShape(this)
                && result.value.image == Layered(image, overlay.View())
    {
      hide Over, Size, ValidRect;
      if overlay.luma.Length != pixels.Length {
        return None;
      }
      var copy := new PixelSurface(width, height, format);
      copy.CloneFrom(this);
      if overlay.transparent {
        LayeredTransparent(image, overlay.View());
        return Some(copy);
      }
      for i := 0 to copy.pixels.Length
        invariant forall j :: 0 <= j < i ==>
                    copy.pixels[j] == Over(pixels[j], overlay.luma[j], overlay.alpha[j])
        invariant forall j :: i <= j < copy.pixels.Length ==> copy.pixels[j] == pixels[j]
      {
        copy.pixels[i] := Over(copy.pixels[i], overlay.luma[i], overlay.alpha[i]);
      }
      copy.image := copy.pixels[..];
      return Some(copy);
    }

    method BlendRect(overlay: LocalOverlay, rect: Rect)
      requires Sized() && overlay.Valid() && overlay.Apart(pixels) && overlay.luma.Length == pixels.Length
      requires ValidRect(width, height, rect)
      modifies pixels
      ensures pixels[..] == BlendOne(width, old(pixels[..]), overlay.View(), rect)
    {
      hide Col, Row, At, Size, Over;
      ghost var blended := Layered(old(pixels[..]), overlay.View());
      for y := rect.y to rect.y + rect.height
        invariant forall i :: 0 <= i < pixels.Length ==>
                    pixels[i] == if InRect(width, rect, i) && Row(width, i) < y
                                 then blended[i] else old(pixels[i])
      {
        for x := rect.x to rect.x + rect.width
          invariant forall i :: 0 <= i < pixels.Length ==>
                      pixels[i] == if InRect(width, rect, i) && (Row(width, i) < y || (Row(width, i) == y && Col(width, i) < x))
                                   then blended[i] else old(pixels[i])
        {
          var i := At(width, x, y);
          IndexBound(width, height, x, y);
          IndexSplit(width, x, y);
          var a := overlay.alpha[i];
          OverZero(pixels[i], overlay.luma[i]);
          if a != 0 {
            pixels[i] := Over(pixels[i], overlay.luma[i], a);
          }
          forall j | 0 <= j < pixels.Length && Row(width, j) == y && Col(width, j) == x ensures j == i {
            IndexJoin(width, j);
          }
        }
      }
      forall i | 0 <= i < pixels.Length ensures Covered(width, [rect], i) <==> InRect(width, rect, i) {
        CoveredOne(width, rect, i);
      }
      assert pixels[..] == Painted(width, old(pixels[..]), blended, [rect]);
    }

    /** In-place blending, rectangle by rectangle; an overlapped pixel is
        blended once per rectangle. */
    method BlendRegions(overlay: LocalOverlay, regions: seq<Rect>) returns (error: Option<SurfaceError>)
      requires Valid() && overlay.Valid() && overlay.Apart(pixels)
      modifies this, pixels
      ensures Valid()
      ensures overlay.transparent ==> error.None?
      ensures !overlay.transparent ==>
                (error.None? <==> overlay.luma.Length == pixels.Length && AllValid(width, height, regions))
      ensures error.None? && overlay.luma.Length == pixels.Length ==>
                image == BlendAll(width, old(image), overlay.View(), regions)
    {
      hide Size, BlendOne;
      if overlay.transparent {
        if overlay.luma.Length == pixels.Length {
          BlendAllTransparent(width, pixels[..], overlay.View(), regions);
        }
        return None;
      }
      if overlay.luma.Length != pixels.Length {
        return Some(BadOverlay);
      }
      assert regions[..0] == [];
      for k := 0 to |regions|
        invariant AllValid(width, height, regions[..k])
        invariant pixels[..] == BlendAll(width, old(pixels[..]), overlay.View(), regions[..k])
      {
        if !ValidRect(width, height, regions[k]) {
          image := pixels[..];
          return Some(BadRegion);
        }
        assert regions[..k + 1][..k] == regions[..k];
        BlendRect(overlay, regions[k]);
      }
      assert regions[..|regions|] == regions;
      image := pixels[..];
      return None;
    }

    method ComposeRect(overlay: LocalOverlay, output: PixelSurface, rect: Rect)
      requires Sized() && overlay.Valid() && output.Sized() && SameShape(output)
      requires output.pixels != pixels && overlay.Apart(output.pixels)
      requires overlay.luma.Length == pixels.Length && ValidRect(width, height, rect)
      modifies output.pixels
      ensures forall i :: 0 <= i < pixels.Length ==>
                output.pixels[i] == if InRect(width, rect, i)
                                    then Layered(pixels[..], overlay.View())[i] else old(output.pixels[i])
    {
      hide Col, Row, At, Size, Over;
      ghost var layered := Layered(pixels[..], overlay.View());
      for y := rect.y to rect.y + rect.height
        invariant forall i :: 0 <= i < pixels.Length ==>
                    output.pixels[i] == if InRect(width, rect, i) && Row(width, i) < y
                                        then layered[i] else old(output.pixels[i])
      {
        var left := At(width, rect.x, y);
        var right := left + rect.width;
        RunInside(width, height, rect.x, rect.width, y);
        forall i | 0 <= i < pixels.Length
          ensures (InRect(width, rect, i) && Row(width, i) == y) <==> left <= i < right
        {
          RowRun(width, rect.x, rect.width, y, i);
        }
        if forall i :: left <= i < right ==> overlay.alpha[i] == 0 {
          forall i | left <= i < right ensures layered[i] == pixels[i] {
            OverZero(pixels[i], overlay.luma[i]);
          }
          forall i | left <= i < right { output.pixels[i] := pixels[i]; }
        } else {
          forall i | left <= i < right {
            output.pixels[i] := Over(pixels[i], overlay.luma[i], overlay.alpha[i]);
          }
        }
      }
    }

    /** Writes the composed picture of the listed rectangles into `output`. */
    method ComposeRegionsInto(overlay: LocalOverlay, output: PixelSurface, regions: seq<Rect>)
      returns (error: Option<SurfaceError>)
      requires Valid() && overlay.Valid() && output.Valid()
      requires output.pixels != pixels && overlay.Apart(output.pixels)
      modifies output, output.pixels
      ensures output.Valid()
      ensures !SameShape(output) ==> error == Some(BadLength)
      ensures SameShape(output) && overlay.luma.Length != pixels.Length ==> error == Some(BadOverlay)
      ensures SameShape(output) && overlay.luma.Length == pixels.Length ==>
                (error.None? <==> AllValid(width, height, regions))
      ensures error.None? ==>
                output.image == Painted(width, old(output.image), Layered(image, overlay.View()), regions)
    {
      hide InRect, Size;
      if !SameShape(output) {
        return Some(BadLength);
      }
      if overlay.luma.Length != pixels.Length {
        return Some(BadOverlay);
      }
      ghost var layered := Layered(pixels[..], overlay.View());
      if overlay.transparent {
        LayeredTransparent(image, overlay.View());
        error := output.CopyRegionsFrom(this, regions);
        return;
      }
      for k := 0 to |regions|
        invariant AllValid(width, height, regions[..k])
        invariant output.pixels[..] == Painted(width, old(output.pixels[..]), layered, regions[..k])
      {
        if !ValidRect(width, height, regions[k]) {
          output.image := output.pixels[..];
          return Some(BadRegion);
        }
        ghost var before := output.pixels[..];
        ComposeRect(overlay, output, regions[k]);
        assert regions[..k + 1][..k] == regions[..k];
        forall i | 0 <= i < pixels.Length
          ensures output.pixels[i] == Painted(width, old(output.pixels[..]), layered, regions[..k + 1])[i]
        {
          CoveredSnoc(width, regions[..k + 1], i);
          assert before[i] == Painted(width, old(output.pixels[..]), layered, regions[..k])[i];
        }
        assert output.pixels[..] == Painted(width, old(output.pixels[..]), layered, regions[..k + 1]);
      }
      assert regions[..|regions|] == regions;
      output.image := output.pixels[..];
      return None;
    }
  }

  lemma {:induction false} BlendAllTransparent(w: nat, img: Image, p: Plane, rects: seq<Rect>)
    requires w > 0 && |img| == |p.luma| == |p.alpha|
    requires forall i :: 0 <= i < |p.alpha| ==> p.alpha[i] == 0
    ensures BlendAll(w, img, p, rects) == img
  {
    if rects != [] {
      BlendAllTransparent(w, img, p, rects[..|rects| - 1]);
      LayeredTransparent(img, p);
    }
  }

  /** `validate_regions`: shapes first, then every pair for overlap. */
  method CheckRegions(w: nat, h: nat, regions: seq<Region>) returns (error: Option<SurfaceError>)
    ensures error == ValidateRegions(w, h, regions)
  {
    error := CheckShapes(w, h, regions);
    if error.Some? {
      return;
    }
    for j := 0 to |regions|
      invariant forall a, b :: 0 <= a < j && a < b < |regions| ==> !Overlaps(regions[a].rect, regions[b].rect)
    {
      for k := j + 1 to |regions|
        invariant forall b :: j < b < k ==> !Overlaps(regions[j].rect, regions[b].rect)
      {
        if Overlaps(regions[j].rect, regions[k].rect) {
          return Some(Overlap);
        }
      }
    }
  }

  class LocalOverlay {
    const luma: array<bv8>
    const alpha: array<bv8>
    var transparent: bool
    var dirty: Option<Rect>

    /** The contents of the two buffers. */
    ghost var lumas: seq<bv8>
    ghost var alphas: seq<bv8>

    ghost predicate Valid()
      reads this, luma, alpha
    {
      && luma.Length == alpha.Length
      && luma != alpha
      && lumas == luma[..]
      && alphas == alpha[..]
      && (transparent ==> forall i :: 0 <= i < alpha.Length ==> alpha[i] == 0)
    }

    /** The plane's buffers are not the given pixel buffer. */
    ghost predicate Apart(pixels: array<Pixel>) {
      luma as object != pixels && alpha as object != pixels
    }

    ghost function View(): Plane
      reads this
    {
      Plane(lumas, alphas, transparent, dirty)
    }

    constructor (width: nat, height: nat)
      requires width > 0 && height > 0
      ensures Valid() && fresh(luma) && fresh(alpha)
      ensures luma.Length == Size(width, height)
      ensures View() == Plane(seq(Size(width, height), _ => 0), seq(Size(width, height), _ => 0), true, None)
    {
      luma := new bv8[Size(width, height)](_ => 0);
      alpha := new bv8[Size(width, height)](_ => 0);
      transparent, dirty := true, None;
      new;
      lumas, alphas := luma[..], alpha[..];
    }

    method Clear()
      requires Valid()
      modifies this, alpha
      ensures Valid() && View() == Cleared(old(View()))
    {
      forall i | 0 <= i < alpha.Length { alpha[i] := 0; }
      transparent, dirty := true, None;
      alphas := alpha[..];
    }

    method TakeDirty() returns (rect: Option<Rect>)
      requires Valid()
      modifies this`dirty
      ensures Valid() && rect == old(dirty) && dirty.None?
    {
      rect, dirty := dirty, None;
    }

    /** Replaces one rectangle of both planes, or rejects and changes nothing. */
    method Patch(width: nat, rect: Rect, newLuma: seq<bv8>, newAlpha: seq<bv8>) returns (ok: bool)
      requires Valid()
      modifies this`transparent, this`lumas, this`alphas, luma, alpha
      ensures Valid()
      ensures ok <==> width != 0 && PatchOk(width, Row(width, luma.Length), rect, newLuma, newAlpha)
      ensures !ok ==> View() == old(View())
      ensures ok ==> View() == Patched(width, Row(width, luma.Length), old(View()), rect, newLuma, newAlpha)
    {
      hide Col, Row, Size, At;
      if width == 0 || !PatchOk(width, Row(width, luma.Length), rect, newLuma, newAlpha) {
        return false;
      }
      RowsFit(width, luma.Length);
      for row := 0 to rect.height
        invariant forall i :: 0 <= i < luma.Length ==>
                    luma[i] == if InRect(width, rect, i) && Row(width, i) < rect.y + row
                               then newLuma[PatchIndex(width, rect, i)] else old(luma[i])
        invariant forall i :: 0 <= i < luma.Length ==>
                    alpha[i] == if InRect(width, rect, i) && Row(width, i) < rect.y + row
                                then newAlpha[PatchIndex(width, rect, i)] else old(alpha[i])
      {
        var dst := At(width, rect.x, rect.y + row);
        var src := At(rect.width, 0, row);
        RunInside(width, Row(width, luma.Length), rect.x, rect.width, rect.y + row);
        RunInside(rect.width, rect.height, 0, rect.width, row);
        forall i | 0 <= i < luma.Length
          ensures (InRect(width, rect, i) && Row(width, i) == rect.y + row) <==> dst <= i < dst + rect.width
          ensures dst <= i < dst + rect.width ==> PatchIndex(width, rect, i) == src + i - dst
        {
          RowRun(width, rect.x, rect.width, rect.y + row, i);
          PatchRow(width, rect, row, i);
        }
        forall i | dst <= i < dst + rect.width { luma[i] := newLuma[src + i - dst]; }
        forall i | dst <= i < dst + rect.width { alpha[i] := newAlpha[src + i - dst]; }
      }
      assert luma[..] == Overwritten(width, old(luma[..]), rect, newLuma);
      assert alpha[..] == Overwritten(width, old(alpha[..]), rect, newAlpha);
      transparent := AllZero(alpha[..]);
      lumas, alphas := luma[..], alpha[..];
      return true;
    }

    /** Both planes anew; the dirty rectangle stays. Planes of another size are
        rejected and change nothing. */
    method ReplacePlanes(newLuma: seq<bv8>, newAlpha: seq<bv8>) returns (ok: bool)
      requires Valid()
      modifies this`transparent, this`lumas, this`alphas, luma, alpha
      ensures Valid()
      ensures ok <==> |newLuma| == |newAlpha| == luma.Length
      ensures View() == if ok then Plane(newLuma, newAlpha, AllZero(newAlpha), old(dirty)) else old(View())
    {
      if |newLuma| != luma.Length || |newAlpha| != luma.Length {
        return false;
      }
      forall i | 0 <= i < luma.Length { luma[i] := newLuma[i]; }
      forall i | 0 <= i < alpha.Length { alpha[i] := newAlpha[i]; }
      assert luma[..] == newLuma && alpha[..] == newAlpha;
      transparent := AllZero(newAlpha);
      lumas, alphas := newLuma, newAlpha;
      return true;
    }

    /** Marks every pixel of one disc of the nib, clipped to the panel. */
    method StampDisc(width: nat, height: nat, x: int, y: int, radius: nat, erase: bool)
      requires luma.Length == alpha.Length && luma != alpha
      requires width > 0 && height > 0 && luma.Length == Size(width, height)
      modifies luma, alpha
      ensures forall i :: 0 <= i < luma.Length ==>
                luma[i] == if Disc(width, x, y, radius, i) then 0 else old(luma[i])
      ensures forall i :: 0 <= i < alpha.Length ==>
                alpha[i] == if Disc(width, x, y, radius, i) then if erase then 0 else 255 else old(alpha[i])
    {
      hide Col, Row, Size, At, Square;
      var top := if y - radius < 0 then 0 else y - radius;
      var bottom := if y + radius < height - 1 then y + radius + 1 else height;
      var left := if x - radius < 0 then 0 else x - radius;
      var right := if x + radius < width - 1 then x + radius + 1 else width;
      forall i | 0 <= i < luma.Length && Disc(width, x, y, radius, i)
        ensures top <= Row(width, i) < bottom && left <= Col(width, i) < right
      {
        DiscBounds(width, height, x, y, radius, i);
      }
      var py := top;
      while py < bottom
        invariant top <= py
        invariant forall i :: 0 <= i < luma.Length ==>
                    luma[i] == if Disc(width, x, y, radius, i) && Row(width, i) < py then 0 else old(luma[i])
        invariant forall i :: 0 <= i < luma.Length ==>
                    alpha[i] == if Disc(width, x, y, radius, i) && Row(width, i) < py
                                then if erase then 0 else 255 else old(alpha[i])
      {
        var px := left;
        while px < right
          invariant left <= px
          invariant forall i :: 0 <= i < luma.Length ==>
                      luma[i] == if Disc(width, x, y, radius, i) && Before(width, px, py, i)
                                 then 0 else old(luma[i])
          invariant forall i :: 0 <= i < luma.Length ==>
                      alpha[i] == if Disc(width, x, y, radius, i) && Before(width, px, py, i)
                                  then if erase then 0 else 255 else old(alpha[i])
        {
          var i := At(width, px, py);
          IndexBound(width, height, px, py);
          IndexSplit(width, px, py);
          if Square(px - x) + Square(py - y) <= Square(radius) {
            luma[i] := 0;
            alpha[i] := if erase then 0 else 255;
          }
          forall j | 0 <= j < luma.Length && Row(width, j) == py && Col(width, j) == px ensures j == i {
            IndexJoin(width, j);
          }
          px := px + 1;
        }
        py := py + 1;
      }
    }

    /** A raster segment; the height is the plane length divided by the width. */
    method InkSegment(width: nat, ghost height: nat, from: Point, to: Point, radius: nat, erase: bool)
      requires Valid() && width > 0 && height > 0 && luma.Length == Size(width, height)
      requires OnPanel(width, height, from) && OnPanel(width, height, to)
      modifies this, luma, alpha
      ensures Valid()
      ensures View() == InkLine(width, height, old(View()), from, to, radius, erase)
    {
      hide Col, Row, Size, At, DiscAt, Disc;
      RowsExact(width, height);
      var h := Row(width, luma.Length);
      var steps := Steps(from, to);
      for step := 0 to steps + 1
        invariant transparent == old(transparent) && dirty == old(dirty)
        invariant lumas == old(lumas) && alphas == old(alphas)
        invariant forall i :: 0 <= i < luma.Length ==>
                    luma[i] == if Stroke(width, from, to, radius, step, i) then 0 else old(luma[i])
        invariant forall i :: 0 <= i < alpha.Length ==>
                    alpha[i] == if Stroke(width, from, to, radius, step, i)
                                then if erase then 0 else 255 else old(alpha[i])
      {
        StampDisc(width, h, Along(from.x, to.x, step, steps), Along(from.y, to.y, step, steps), radius, erase);
        forall i | 0 <= i < luma.Length
          ensures Stroke(width, from, to, radius, step + 1, i) <==>
                  Stroke(width, from, to, radius, step, i)
                  || Disc(width, Along(from.x, to.x, step, steps), Along(from.y, to.y, step, steps), radius, i)
        {
          StrokeStep(width, from, to, radius, step, i);
        }
      }
      transparent := false;
      var rect := StrokeRect(width, h, from, to, radius);
      dirty := Some(if dirty.Some? then Union(rect, dirty.value) else rect);
      assert luma[..] == InkLine(width, height, old(View()), from, to, radius, erase).luma;
      assert alpha[..] == InkLine(width, height, old(View()), from, to, radius, erase).alpha;
      lumas, alphas := luma[..], alpha[..];
    }
  }

  predicate Before(w: nat, px: int, py: int, i: nat)
    requires w > 0
  {
    Row(w, i) < py || (Row(w, i) == py && Col(w, i) < px)
  }

  lemma DiscBounds(w: nat, h: nat, x: int, y: int, radius: nat, i: nat)
    requires w > 0 && i < Size(w, h) && Disc(w, x, y, radius, i)
    ensures x - radius <= Col(w, i) <= x + radius && Col(w, i) < w
    ensures y - radius <= Row(w, i) <= y + radius && Row(w, i) < h
  {
    hide Col, Row, Size, Square;
    SquareBound(Col(w, i) - x, Row(w, i) - y, radius);
    RowBound(w, h, i);
  }

  lemma StrokeStep(w: nat, from: Point, to: Point, radius: nat, step: nat, i: nat)
    requires w > 0
    ensures Stroke(w, from, to, radius, step + 1, i) <==>
            Stroke(w, from, to, radius, step, i)
            || Disc(w, Along(from.x, to.x, step, Steps(from, to)), Along(from.y, to.y, step, Steps(from, to)), radius, i)
  {
    hide Disc, Along;
    assert DiscAt(w, from, to, radius, step, i)
      == Disc(w, Along(from.x, to.x, step, Steps(from, to)), Along(from.y, to.y, step, Steps(from, to)), radius, i);
  }

  lemma RowsExact(w: nat, h: nat)
    requires w > 0
    ensures Row(w, Size(w, h)) == h
  {
    hide Row;
    IndexSplit(w, 0, h);
  }

  lemma RowsFit(w: nat, len: nat)
    requires w > 0
    ensures Size(w, Row(w, len)) <= len
  {
  }

  lemma PatchRow(w: nat, rect: Rect, row: nat, i: nat)
    requires w > 0 && rect.x + rect.width <= w && row < rect.height
    ensures InRect(w, rect, i) && Row(w, i) == rect.y + row ==>
              PatchIndex(w, rect, i) == At(rect.width, 0, row) + i - At(w, rect.x, rect.y + row)
  {
    hide Col, Row, Size;
    IndexJoin(w, i);
  }
}
