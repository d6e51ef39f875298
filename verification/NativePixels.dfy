/** The framebuffer writer: damaged pixels are converted into the bytes of a
    native framebuffer whose rows may be padded. */
module NativePixels {
  import opened Geometry
  import opened Pixels
  import opened Tiles
  import opened Raster

  datatype Native = NativeGray8 | NativeRgb565 | NativeBgra32 | NativeRgba32

  datatype Source = SourceGray8 | SourceRgb565 | SourceOther

  datatype Problem = SourceFormat | SourceLength | StrideTooSmall | OutsidePanel

  datatype Layout = Layout(stride: nat, w: nat, h: nat, format: Native)

  /** The bytes of `x` pixels in a native row. */
  function NativeOffset(f: Native, x: nat): nat {
    match f
    case NativeGray8 => x
    case NativeRgb565 => 2 * x
    case _ => 4 * x
  }

  function Depth(f: Native): (n: nat)
    ensures n > 0
  {
    match f
    case NativeGray8 => 1
    case NativeRgb565 => 2
    case _ => 4
  }

  // ----------------------------------------------------------------- colours

  datatype Colour = Colour(red: bv8, green: bv8, blue: bv8)

  function Luma(c: Colour): bv8 {
    Byte((77 * Level(c.red) + 150 * Level(c.green) + 29 * Level(c.blue) + 128) / 256)
  }

  /** The luma is the weighted sum of the channels, rounded to the nearest level. */
  lemma LumaNearest(c: Colour)
    ensures var sum := 77 * Level(c.red) + 150 * Level(c.green) + 29 * Level(c.blue);
            -128 <= 256 * Level(Luma(c)) - sum <= 128
  {
    hide Level, Byte;
    ByteLevel((77 * Level(c.red) + 150 * Level(c.green) + 29 * Level(c.blue) + 128) / 256);
  }

  function Unpack(q: bv16): Colour {
    Colour(Expand5(Truncate(q >> 11)), Expand6(Truncate(q >> 5)), Expand5(Truncate(q)))
  }

  function Pack(c: Colour): bv16 {
    PackRgb565(c.red, c.green, c.blue)
  }

  function Low(q: bv16): bv8 {
    (q & 0xff) as bv8
  }

  function High(q: bv16): bv8 {
    (q >> 8) as bv8
  }

  function Joined(low: bv8, high: bv8): bv16 {
    low as bv16 | (high as bv16 << 8)
  }

  function ColourOf(p: Pixel): Colour {
    match p
    case Gray8(l) => Colour(l, l, l)
    case Rgb565(q) => Unpack(q)
  }

  /** A colour in the bytes of the framebuffer. */
  function NativeBytes(f: Native, c: Colour): (r: seq<bv8>)
    ensures |r| == Depth(f)
  {
    match f
    case NativeGray8 => [Luma(c)]
    case NativeRgb565 => [Low(Pack(c)), High(Pack(c))]
    case NativeBgra32 => [c.blue, c.green, c.red, 0xff]
    case NativeRgba32 => [c.red, c.green, c.blue, 0xff]
  }

  /** What the framebuffer bytes mean. */
  function NativeColour(f: Native, b: seq<bv8>): Colour
    requires |b| == Depth(f)
  {
    match f
    case NativeGray8 => Colour(b[0], b[0], b[0])
    case NativeRgb565 => Unpack(Joined(b[0], b[1]))
    case NativeBgra32 => Colour(b[2], b[1], b[0])
    case NativeRgba32 => Colour(b[0], b[1], b[2])
  }

  lemma LumaOfGray(v: bv8)
    ensures Luma(Colour(v, v, v)) == v
  {
    hide Level, Byte;
    LevelByte(v);
    assert (77 * Level(v) + 150 * Level(v) + 29 * Level(v) + 128) / 256 == Level(v);
  }

  lemma JoinedParts(low: bv8, high: bv8)
    ensures Low(Joined(low, high)) == low && High(Joined(low, high)) == high
  {
  }

  lemma PartsJoined(q: bv16)
    ensures Joined(Low(q), High(q)) == q
  {
  }

  /** The 32-bit formats keep every colour, and the others every pixel of their
      own kind. */
  lemma ColourSurvives(f: Native, p: Pixel)
    ensures f.NativeBgra32? || f.NativeRgba32? || (f.NativeGray8? && p.Gray8?) || (f.NativeRgb565? && p.Rgb565?) ==>
              NativeColour(f, NativeBytes(f, ColourOf(p))) == ColourOf(p)
  {
    hide Luma, Unpack, PackRgb565, Low, High, Joined;
    match p
    case Gray8(v) => LumaOfGray(v);
    case Rgb565(q) =>
      PackUnpack(q);
      PartsJoined(q);
  }

  lemma PackUnpack(q: bv16)
    ensures Pack(Unpack(q)) == q
  {
    hide Expand5, Expand6, PackRgb565, Truncate;
    PackExpand(q);
  }

  // ------------------------------------------------------------- conversions

  function SourceDepth(s: Source): nat {
    if s == SourceRgb565 then 2 else 1
  }

  function PixelAt(s: Source, bytes: seq<bv8>, i: nat): Pixel
    requires SourceDepth(s) * i + SourceDepth(s) <= |bytes|
  {
    if s == SourceRgb565 then Rgb565(Joined(bytes[2 * i], bytes[2 * i + 1])) else Gray8(bytes[i])
  }

  /** The picture that the bytes of a frame hold. */
  function Decoded(s: Source, bytes: seq<bv8>, n: nat): (r: Image)
    requires |bytes| == SourceDepth(s) * n
    ensures |r| == n
  {
    seq(n, i requires 0 <= i < n => PixelAt(s, bytes, i))
  }

  /** One pixel along the branch of its pair of formats. */
  function Converted(s: Source, f: Native, bytes: seq<bv8>, i: nat): (r: seq<bv8>)
    requires SourceDepth(s) * i + SourceDepth(s) <= |bytes|
    ensures |r| == Depth(f)
  {
    if s == SourceRgb565 then
      var c := Unpack(Joined(bytes[2 * i], bytes[2 * i + 1]));
      match f
      case NativeRgb565 => bytes[2 * i..2 * i + 2]
      case NativeGray8 => [Luma(c)]
      case NativeBgra32 => [c.blue, c.green, c.red, 0xff]
      case NativeRgba32 => [c.red, c.green, c.blue, 0xff]
    else
      var luma := bytes[i];
      match f
      case NativeGray8 => [luma]
      case NativeRgb565 => var q := PackRgb565(luma, luma, luma); [Low(q), High(q)]
      case _ => [luma, luma, luma, 0xff]
  }

  /** Every branch, the plain copies included, is the one path over the colour. */
  lemma BranchesAgree(s: Source, f: Native, bytes: seq<bv8>, i: nat)
    requires SourceDepth(s) * i + SourceDepth(s) <= |bytes|
    ensures Converted(s, f, bytes, i) == NativeBytes(f, ColourOf(PixelAt(s, bytes, i)))
  {
    hide Luma, Unpack, PackRgb565, Low, High, Joined;
    if s == SourceRgb565 {
      var low, high := bytes[2 * i], bytes[2 * i + 1];
      PackUnpack(Joined(low, high));
      JoinedParts(low, high);
      assert bytes[2 * i..2 * i + 2] == [low, high];
    } else {
      LumaOfGray(bytes[i]);
    }
  }

  // ------------------------------------------------------------- framebuffer

  predicate Fits(l: Layout, size: nat) {
    l.w > 0 && l.h > 0 && NativeOffset(l.format, l.w) <= l.stride && Size(l.stride, l.h) <= size
  }

  /** The column of the pixel that owns byte `b`. */
  function ByteCol(l: Layout, b: nat): nat
    requires l.stride > 0
  {
    Quot(Col(l.stride, b), Depth(l.format))
  }

  /** Byte `b` belongs to a pixel, not to the padding of a row. */
  predicate OfPixel(l: Layout, b: nat)
    requires l.stride > 0
  {
    Row(l.stride, b) < l.h && ByteCol(l, b) < l.w
  }

  function PixelOf(l: Layout, b: nat): (i: nat)
    requires l.stride > 0 && OfPixel(l, b)
  {
    At(l.w, ByteCol(l, b), Row(l.stride, b))
  }

  function Lane(l: Layout, b: nat): (k: nat)
    requires l.stride > 0
    ensures k < Depth(l.format)
  {
    Col(l.stride, b) % Depth(l.format)
  }

  /** The bytes of one pixel are a run of the framebuffer. */
  lemma PixelRun(l: Layout, x: nat, y: nat, b: nat)
    requires l.stride > 0 && NativeOffset(l.format, l.w) <= l.stride && x < l.w
    ensures var o := At(l.stride, NativeOffset(l.format, x), y);
            && (Row(l.stride, b) == y && ByteCol(l, b) == x <==> o <= b < o + Depth(l.format))
            && (o <= b < o + Depth(l.format) ==> Lane(l, b) == b - o)
  {
    hide Row, At;
    var left := NativeOffset(l.format, x);
    RowRun(l.stride, left, Depth(l.format), y, b);
    if At(l.stride, left, y) <= b < At(l.stride, left, y) + Depth(l.format) {
      IndexJoin(l.stride, b);
      assert b - At(l.stride, left, y) == Col(l.stride, b) - left by { RowOffset(l.stride, left, y, b); }
    }
  }

  lemma RowOffset(stride: nat, left: nat, y: nat, b: nat)
    requires stride > 0 && Row(stride, b) == y
    ensures b - At(stride, left, y) == Col(stride, b) - left
  {
    IndexJoin(stride, b);
  }

  /** The pixel a byte belongs to lies on the panel, in its own row and column. */
  lemma PixelPlace(l: Layout, b: nat)
    requires l.stride > 0 && OfPixel(l, b)
    ensures PixelOf(l, b) < Size(l.w, l.h)
    ensures Col(l.w, PixelOf(l, b)) == ByteCol(l, b) && Row(l.w, PixelOf(l, b)) == Row(l.stride, b)
  {
    hide Row, At, Size, Col, Quot;
    IndexBound(l.w, l.h, ByteCol(l, b), Row(l.stride, b));
    IndexSplit(l.w, ByteCol(l, b), Row(l.stride, b));
  }

  /** The byte the framebuffer should hold at `b` to show an image. */
  ghost function ByteOf(l: Layout, img: Image, b: nat): bv8
    requires l.stride > 0 && OfPixel(l, b) && |img| == Size(l.w, l.h)
  {
    PixelPlace(l, b);
    NativeBytes(l.format, ColourOf(img[PixelOf(l, b)]))[Lane(l, b)]
  }

  ghost predicate Touched(l: Layout, rects: seq<Rect>, b: nat)
    requires l.stride > 0 && l.w > 0
  {
    OfPixel(l, b) && Covered(l.w, rects, PixelOf(l, b))
  }

  /** The framebuffer with every pixel of the rectangles taken from the image:
      padding and all other pixels stay. */
  ghost function Written(l: Layout, buffer: seq<bv8>, img: Image, rects: seq<Rect>): (r: seq<bv8>)
    requires Fits(l, |buffer|) && |img| == Size(l.w, l.h)
    ensures |r| == |buffer|
    ensures l.stride > 0 && forall b :: 0 <= b < |r| ==>
              r[b] == if Touched(l, rects, b) then ByteOf(l, img, b) else buffer[b]
  {
    FitsStride(l, |buffer|);
    seq(|buffer|, b requires 0 <= b < |buffer| => if Touched(l, rects, b) then ByteOf(l, img, b) else buffer[b])
  }

  lemma FitsStride(l: Layout, size: nat)
    requires Fits(l, size)
    ensures l.stride > 0
  {
  }

  /** The framebuffer shows the image. */
  ghost predicate Shows(l: Layout, buffer: seq<bv8>, img: Image) {
    && Fits(l, |buffer|) && |img| == Size(l.w, l.h) && l.stride > 0
    && forall b :: 0 <= b < |buffer| && OfPixel(l, b) ==> buffer[b] == ByteOf(l, img, b)
  }

  /** An incremental update is a full one: where the framebuffer showed one image,
      it shows another exactly when, outside the damage, both images have the same
      native bytes. */
  lemma UpdateShows(l: Layout, buffer: seq<bv8>, was: Image, img: Image, rects: seq<Rect>)
    requires Shows(l, buffer, was) && |img| == Size(l.w, l.h)
    ensures Shows(l, Written(l, buffer, img, rects), img) <==>
            forall b :: 0 <= b < |buffer| && OfPixel(l, b) && !Touched(l, rects, b) ==> ByteOf(l, was, b) == ByteOf(l, img, b)
    ensures (forall i :: 0 <= i < Size(l.w, l.h) && !Covered(l.w, rects, i) ==> was[i] == img[i]) ==>
            Shows(l, Written(l, buffer, img, rects), img)
  {
    hide OfPixel, PixelOf, Lane, NativeBytes, ColourOf, Size;
    var after := Written(l, buffer, img, rects);
    if forall i :: 0 <= i < Size(l.w, l.h) && !Covered(l.w, rects, i) ==> was[i] == img[i] {
      forall b | 0 <= b < |buffer| && OfPixel(l, b) ensures after[b] == ByteOf(l, img, b) {
        PixelPlace(l, b);
      }
    }
    if Shows(l, after, img) {
      forall b | 0 <= b < |buffer| && OfPixel(l, b) && !Touched(l, rects, b)
        ensures ByteOf(l, was, b) == ByteOf(l, img, b)
      {
        assert after[b] == buffer[b];
      }
    }
  }

  /** The framebuffer follows the glass of the display core: painting the damage of
      a frame there is writing it here. */
  lemma WriterRefinesGlass(l: Layout, buffer: seq<bv8>, glass: Image, frame: Image, damage: seq<Rect>)
    requires Shows(l, buffer, glass) && |frame| == Size(l.w, l.h)
    ensures Shows(l, Written(l, buffer, frame, damage), Painted(l.w, glass, frame, damage))
  {
    hide OfPixel, PixelOf, Lane, NativeBytes, ColourOf, Size, Covered;
    var after := Written(l, buffer, frame, damage);
    forall b | 0 <= b < |buffer| && OfPixel(l, b)
      ensures after[b] == ByteOf(l, Painted(l.w, glass, frame, damage), b)
    {
      PixelPlace(l, b);
    }
  }

  /** Overlapping and reordered rectangles do not matter. */
  lemma WrittenAgain(l: Layout, buffer: seq<bv8>, img: Image, first: seq<Rect>, second: seq<Rect>)
    requires Fits(l, |buffer|) && |img| == Size(l.w, l.h)
    ensures Written(l, Written(l, buffer, img, first), img, second) == Written(l, buffer, img, first + second)
  {
    hide OfPixel, PixelOf, ByteOf, Covered, Size;
    FitsStride(l, |buffer|);
    forall b | 0 <= b < |buffer|
      ensures Written(l, Written(l, buffer, img, first), img, second)[b] == Written(l, buffer, img, first + second)[b]
    {
      if OfPixel(l, b) { CoveredConcat(l.w, first, second, PixelOf(l, b)); }
    }
  }

  // -------------------------------------------------------------- the writer

  /** What is wrong with the arguments before anything is written. */
  function Shape(l: Layout, s: Source, sourceSize: nat, bufferSize: nat): Option<Problem> {
    if s == SourceOther then Some(SourceFormat)
    else if sourceSize != SourceDepth(s) * Size(l.w, l.h) then Some(SourceLength)
    else if l.stride < NativeOffset(l.format, l.w) || bufferSize < Size(l.stride, l.h) then Some(StrideTooSmall)
    else None
  }

  /** The rectangles in front of the first one outside the panel. */
  function GoodPrefix(w: nat, h: nat, rects: seq<Rect>): (n: nat)
    ensures n <= |rects| && AllValid(w, h, rects[..n])
    ensures n < |rects| ==> !ValidRect(w, h, rects[n])
    decreases |rects|
  {
    if rects == [] || !ValidRect(w, h, rects[0]) then 0
    else
      var n := GoodPrefix(w, h, rects[1..]);
      assert rects[..n + 1] == [rects[0]] + rects[1..][..n];
      1 + n
  }

  /** Byte `b` belongs to one of the pixels of a run in row `y`. */
  predicate InRun(l: Layout, y: nat, left: nat, right: nat, b: nat)
    requires l.stride > 0
  {
    Row(l.stride, b) == y && left <= ByteCol(l, b) < right
  }

  lemma SourceInside(s: Source, w: nat, h: nat, x: nat, y: nat)
    requires x < w && y < h
    ensures SourceDepth(s) * At(w, x, y) + SourceDepth(s) <= SourceDepth(s) * Size(w, h)
  {
    hide At, Size;
    IndexBound(w, h, x, y);
  }

  lemma PixelInside(l: Layout, size: nat, x: nat, y: nat)
    requires Fits(l, size) && x < l.w && y < l.h
    ensures l.stride > 0 && At(l.stride, NativeOffset(l.format, x), y) + Depth(l.format) <= size
  {
    hide At, Size;
    RunInside(l.stride, l.h, NativeOffset(l.format, x), Depth(l.format), y);
  }

  /** One pixel more of a run. */
  lemma RunGrows(l: Layout, y: nat, left: nat, x: nat, b: nat)
    requires l.stride > 0 && NativeOffset(l.format, l.w) <= l.stride && left <= x < l.w && y < l.h
    ensures var o := At(l.stride, NativeOffset(l.format, x), y);
            && (InRun(l, y, left, x + 1, b) <==> InRun(l, y, left, x, b) || o <= b < o + Depth(l.format))
            && (o <= b < o + Depth(l.format) ==>
                  OfPixel(l, b) && PixelOf(l, b) == At(l.w, x, y) && Lane(l, b) == b - o && !InRun(l, y, left, x, b))
  {
    hide At, Row, ByteCol, Lane;
    PixelRun(l, x, y, b);
  }

  /** The pixels of one row, each along the branch of its formats. */
  method WriteRow(buffer: array<bv8>, l: Layout, s: Source, source: seq<bv8>, y: nat, left: nat, right: nat)
    requires Fits(l, buffer.Length) && y < l.h && left <= right <= l.w && l.stride > 0
    requires |source| == SourceDepth(s) * Size(l.w, l.h)
    modifies buffer
    ensures forall b :: 0 <= b < buffer.Length && InRun(l, y, left, right, b) ==>
              OfPixel(l, b) && buffer[b] == ByteOf(l, Decoded(s, source, Size(l.w, l.h)), b)
    ensures forall b :: 0 <= b < buffer.Length && !InRun(l, y, left, right, b) ==> buffer[b] == old(buffer[b])
  {
    hide InRun, OfPixel, ByteOf, Decoded, Converted, Size, At, SourceDepth, NativeOffset;
    ghost var img := Decoded(s, source, Size(l.w, l.h));
    assert forall b: nat :: !InRun(l, y, left, left, b) by { NoRun(l, y, left); }
    for x := left to right
      invariant forall b :: 0 <= b < buffer.Length && InRun(l, y, left, x, b) ==>
                  OfPixel(l, b) && buffer[b] == ByteOf(l, img, b)
      invariant forall b :: 0 <= b < buffer.Length && !InRun(l, y, left, x, b) ==> buffer[b] == old(buffer[b])
    {
      SourceInside(s, l.w, l.h, x, y);
      PixelInside(l, buffer.Length, x, y);
      var out := Converted(s, l.format, source, At(l.w, x, y));
      var o := At(l.stride, NativeOffset(l.format, x), y);
      WriteBytes(buffer, o, out);
      forall b | 0 <= b < buffer.Length
        ensures InRun(l, y, left, x + 1, b) ==> OfPixel(l, b) && buffer[b] == ByteOf(l, img, b)
        ensures !InRun(l, y, left, x + 1, b) ==> buffer[b] == old(buffer[b])
      {
        RunGrows(l, y, left, x, b);
        if o <= b < o + Depth(l.format) {
          ByteConverted(l, s, source, x, y, b);
        }
      }
    }
  }

  lemma NoRun(l: Layout, y: nat, left: nat)
    requires l.stride > 0
    ensures forall b: nat :: !InRun(l, y, left, left, b)
  {
  }

  lemma ByteConverted(l: Layout, s: Source, source: seq<bv8>, x: nat, y: nat, b: nat)
    requires l.stride > 0 && x < l.w && y < l.h && OfPixel(l, b) && PixelOf(l, b) == At(l.w, x, y)
    requires |source| == SourceDepth(s) * Size(l.w, l.h)
    ensures SourceDepth(s) * At(l.w, x, y) + SourceDepth(s) <= |source|
    ensures ByteOf(l, Decoded(s, source, Size(l.w, l.h)), b) == Converted(s, l.format, source, At(l.w, x, y))[Lane(l, b)]
  {
    hide At, Size, Converted, NativeBytes, ColourOf, Lane, PixelAt, SourceDepth;
    SourceInside(s, l.w, l.h, x, y);
    IndexBound(l.w, l.h, x, y);
    BranchesAgree(s, l.format, source, At(l.w, x, y));
  }

  method WriteBytes(buffer: array<bv8>, at: nat, bytes: seq<bv8>)
    requires at + |bytes| <= buffer.Length
    modifies buffer
    ensures forall b :: 0 <= b < buffer.Length ==>
              buffer[b] == if at <= b < at + |bytes| then bytes[b - at] else old(buffer[b])
  {
    for k := 0 to |bytes|
      invariant forall b :: 0 <= b < buffer.Length ==>
                  buffer[b] == if at <= b < at + k then bytes[b - at] else old(buffer[b])
    {
      buffer[at + k] := bytes[k];
    }
  }

  /** The rows of one rectangle from the top down to row `y`. */
  function Above(r: Rect, y: nat): Rect
    requires y >= r.y
  {
    r.(height := y - r.y)
  }

  lemma RowGrows(l: Layout, r: Rect, y: nat, b: nat)
    requires l.stride > 0 && l.w > 0 && ValidRect(l.w, l.h, r) && r.y <= y < r.y + r.height
    ensures Touched(l, [Above(r, y + 1)], b) <==> Touched(l, [Above(r, y)], b) || InRun(l, y, r.x, r.x + r.width, b)
  {
    hide Row, Col, PixelOf, ByteCol;
    if OfPixel(l, b) {
      PixelPlace(l, b);
      CoveredOne(l.w, Above(r, y + 1), PixelOf(l, b));
      CoveredOne(l.w, Above(r, y), PixelOf(l, b));
    }
  }

  method WriteRect(buffer: array<bv8>, l: Layout, s: Source, source: seq<bv8>, r: Rect)
    requires Fits(l, buffer.Length) && ValidRect(l.w, l.h, r)
    requires |source| == SourceDepth(s) * Size(l.w, l.h)
    modifies buffer
    ensures buffer[..] == Written(l, old(buffer[..]), Decoded(s, source, Size(l.w, l.h)), [r])
  {
    hide InRun, OfPixel, ByteOf, Decoded, Size, SourceDepth, NativeOffset, Touched;
    ghost var img := Decoded(s, source, Size(l.w, l.h));
    FitsStride(l, buffer.Length);
    assert forall b: nat :: !Touched(l, [Above(r, r.y)], b) by { NothingAbove(l, r); }
    for y := r.y to r.y + r.height
      invariant forall b :: 0 <= b < buffer.Length && Touched(l, [Above(r, y)], b) ==>
                  OfPixel(l, b) && buffer[b] == ByteOf(l, img, b)
      invariant forall b :: 0 <= b < buffer.Length && !Touched(l, [Above(r, y)], b) ==> buffer[b] == old(buffer[b])
    {
      WriteRow(buffer, l, s, source, y, r.x, r.x + r.width);
      forall b | 0 <= b < buffer.Length
        ensures Touched(l, [Above(r, y + 1)], b) <==> Touched(l, [Above(r, y)], b) || InRun(l, y, r.x, r.x + r.width, b)
      {
        RowGrows(l, r, y, b);
      }
    }
    assert Above(r, r.y + r.height) == r;
  }

  lemma NothingAbove(l: Layout, r: Rect)
    requires l.stride > 0 && l.w > 0
    ensures forall b: nat :: !Touched(l, [Above(r, r.y)], b)
  {
    hide OfPixel, PixelOf, Col, Row;
  }

  /** The damaged pixels are written, rectangle after rectangle. A rectangle outside
      the panel stops the writer, and those before it stay written. */
  method WriteDamage(buffer: array<bv8>, l: Layout, s: Source, source: seq<bv8>, damage: seq<Rect>)
      returns (problem: Option<Problem>)
    modifies buffer
    ensures var shape := Shape(l, s, |source|, buffer.Length);
            var n := GoodPrefix(l.w, l.h, damage);
            && problem == (if shape.Some? then shape else if n < |damage| then Some(OutsidePanel) else None)
            && (if shape.Some? || n == 0 then buffer[..] == old(buffer[..])
                else Fits(l, buffer.Length) &&
                     buffer[..] == Written(l, old(buffer[..]), Decoded(s, source, Size(l.w, l.h)), damage[..n]))
  {
    hide Size, Written, Decoded, SourceDepth, NativeOffset;
    problem := Shape(l, s, |source|, buffer.Length);
    if problem.Some? {
      return;
    }
    ghost var n := GoodPrefix(l.w, l.h, damage);
    for k := 0 to |damage|
      invariant k <= n && problem.None?
      invariant if k == 0 then buffer[..] == old(buffer[..])
                else Fits(l, buffer.Length) &&
                     buffer[..] == Written(l, old(buffer[..]), Decoded(s, source, Size(l.w, l.h)), damage[..k])
    {
      if !ValidRect(l.w, l.h, damage[k]) {
        assert k == n by { GoodUntil(l.w, l.h, damage, k); }
        problem := Some(OutsidePanel);
        return;
      }
      assert k < n by { GoodUntil(l.w, l.h, damage, k); }
      WriteRect(buffer, l, s, source, damage[k]);
      if k > 0 {
        WrittenAgain(l, old(buffer[..]), Decoded(s, source, Size(l.w, l.h)), damage[..k], [damage[k]]);
      }
      assert damage[..k + 1] == damage[..k] + [damage[k]];
    }
  }

  lemma GoodUntil(w: nat, h: nat, rects: seq<Rect>, k: nat)
    requires k <= GoodPrefix(w, h, rects) && k < |rects|
    ensures k < GoodPrefix(w, h, rects) <==> ValidRect(w, h, rects[k])
  {
    var n := GoodPrefix(w, h, rects);
    if k < n { assert rects[..n][k] == rects[k]; }
  }
}
