/** One pixel and the arithmetic that blends a local plane over it. The shifts and
    masks are bit-vector operations, so truncation is that of the machine; the
    products of the blend never leave the sixteen bits they are computed in. */
module Pixels {

  datatype Format = FormatGray8 | FormatRgb565

  datatype Pixel = Gray8(luma: bv8) | Rgb565(packed: bv16)

  function White(format: Format): Pixel {
    match format
    case FormatGray8 => Gray8(0xff)
    case FormatRgb565 => Rgb565(0xffff)
  }

  function Truncate(v: bv16): bv8 {
    (v & 0xff) as bv8
  }

  /** The level a byte stands for, and back. */
  function Level(b: bv8): (n: nat)
    ensures n <= 255
  {
    b as nat
  }

  function Byte(n: nat): bv8
    requires n <= 255
  {
    n as bv8
  }

  lemma ByteLevel(n: nat)
    requires n <= 255
    ensures Level(Byte(n)) == n
  {
    assert n % 256 == n;
  }

  lemma LevelByte(b: bv8)
    ensures Byte(Level(b)) == b
  {
  }

  /** The sum of the two products fits sixteen bits, rounding term included. */
  lemma MixFits(b: nat, f: nat, a: nat)
    requires b <= 255 && f <= 255 && a <= 255
    ensures 0 <= f * a + b * (255 - a) <= 255 * 255
    ensures f * a + b * (255 - a) + 127 < 0x1_0000
  {
    MulUpTo(f, a);
    MulUpTo(b, 255 - a);
  }

  lemma MulUpTo(x: nat, y: nat)
    requires x <= 255
    ensures 0 <= x * y <= 255 * y
  {
  }

  function Mix(b: nat, f: nat, a: nat): (r: nat)
    requires b <= 255 && f <= 255 && a <= 255
    ensures r <= 255
  {
    MixFits(b, f, a);
    (f * a + b * (255 - a) + 127) / 255
  }

  function Blend(background: bv8, foreground: bv8, alpha: bv8): bv8 {
    Byte(Mix(Level(background), Level(foreground), Level(alpha)))
  }

  function Expand5(value: bv8): bv8 {
    var v := value & 0x1f;
    (v << 3) | (v >> 2)
  }

  function Expand6(value: bv8): bv8 {
    var v := value & 0x3f;
    (v << 2) | (v >> 4)
  }

  function PackRgb565(red: bv8, green: bv8, blue: bv8): bv16 {
    ((red as bv16 & 0xf8) << 8) | ((green as bv16 & 0xfc) << 3) | (blue as bv16 >> 3)
  }

  /** A plane sample of the given luma and alpha laid over a pixel. */
  function Over(p: Pixel, luma: bv8, alpha: bv8): Pixel {
    match p
    case Gray8(l) => Gray8(Blend(l, luma, alpha))
    case Rgb565(q) =>
      Rgb565(PackRgb565(
        Blend(Expand5(Truncate(q >> 11)), luma, alpha),
        Blend(Expand6(Truncate(q >> 5)), luma, alpha),
        Blend(Expand5(Truncate(q)), luma, alpha)))
  }

  lemma MixEnds(b: nat, f: nat)
    requires b <= 255 && f <= 255
    ensures Mix(b, f, 0) == b && Mix(b, f, 255) == f
  {
    assert f * 0 + b * (255 - 0) == 255 * b;
    assert f * 255 + b * (255 - 255) == 255 * f;
  }

  lemma BlendZero(background: bv8, foreground: bv8)
    ensures Blend(background, foreground, 0) == background
  {
    hide Mix, Byte, Level;
    LevelConstants();
    MixEnds(Level(background), Level(foreground));
    LevelByte(background);
  }

  lemma LevelConstants()
    ensures Level(0) == 0 && Level(128) == 128 && Level(255) == 255
  {
  }

  lemma LevelOrder(b: bv8, c: bv8)
    ensures Level(b) <= Level(c) <==> b <= c
  {
  }

  lemma BlendOpaque(background: bv8, foreground: bv8)
    ensures Blend(background, foreground, 255) == foreground
  {
    hide Mix, Byte, Level;
    LevelConstants();
    MixEnds(Level(background), Level(foreground));
    LevelByte(foreground);
  }

  lemma BlendLevel(background: bv8, foreground: bv8, alpha: bv8)
    ensures Level(Blend(background, foreground, alpha)) == Mix(Level(background), Level(foreground), Level(alpha))
  {
    hide Mix, Byte, Level;
    ByteLevel(Mix(Level(background), Level(foreground), Level(alpha)));
  }

  /** A level within half a step of the exact mixture of `f` at `a` over `b`. */
  predicate Nearest(r: nat, b: nat, f: nat, a: nat) {
    -127 <= 255 * r - (f * a + b * (255 - a)) <= 127
  }

  lemma MixNearest(b: nat, f: nat, a: nat)
    requires b <= 255 && f <= 255 && a <= 255
    ensures Nearest(Mix(b, f, a), b, f, a)
  {
    MixFits(b, f, a);
  }

  lemma BlendNearest(background: bv8, foreground: bv8, alpha: bv8)
    ensures Nearest(Level(Blend(background, foreground, alpha)), Level(background), Level(foreground), Level(alpha))
  {
    hide Mix, Byte, Level, Nearest;
    BlendLevel(background, foreground, alpha);
    MixNearest(Level(background), Level(foreground), Level(alpha));
  }

  /** Packing undoes expanding on every RGB565 value. */
  lemma PackExpand(q: bv16)
    ensures PackRgb565(Expand5(Truncate(q >> 11)), Expand6(Truncate(q >> 5)), Expand5(Truncate(q))) == q
  {
  }

  /** The channels of a packed pixel, as levels of eight bits. */
  function Red(q: bv16): bv8 {
    Expand5(Truncate(q >> 11))
  }

  function Green(q: bv16): bv8 {
    Expand6(Truncate(q >> 5))
  }

  function Blue(q: bv16): bv8 {
    Expand5(Truncate(q))
  }

  /** Unpacking what was packed loses the low bits of each channel and no more. */
  lemma PackKeepsHighBits(red: bv8, green: bv8, blue: bv8)
    ensures var q := PackRgb565(red, green, blue);
            && Red(q) & 0xf8 == red & 0xf8
            && Green(q) & 0xfc == green & 0xfc
            && Blue(q) & 0xf8 == blue & 0xf8
  {
  }

  /** The primaries in the usual bit order of RGB565. */
  lemma PackPrimaries()
    ensures PackRgb565(0xff, 0, 0) == 0xf800 && PackRgb565(0, 0xff, 0) == 0x07e0 && PackRgb565(0, 0, 0xff) == 0x001f
  {
  }

  /** The ends of the scale are the ends of every channel, and the low bits repeat
      the high ones. */
  lemma ExpandEnds(v: bv8)
    ensures Expand5(0) == 0 && Expand5(0x1f) == 0xff && Expand6(0) == 0 && Expand6(0x3f) == 0xff
    ensures Expand5(v) >> 3 == v & 0x1f && Expand5(v) & 0x07 == (v & 0x1f) >> 2
    ensures Expand6(v) >> 2 == v & 0x3f && Expand6(v) & 0x03 == (v & 0x3f) >> 4
  {
  }

  /** What a sample of luma alone looks like in a format. */
  function Plain(p: Pixel, luma: bv8): Pixel {
    match p
    case Gray8(_) => Gray8(luma)
    case Rgb565(_) => Rgb565(PackRgb565(luma, luma, luma))
  }

  lemma PlainOver(p: Pixel, luma: bv8, alpha: bv8, l: bv8)
    ensures Plain(Over(p, luma, alpha), l) == Plain(p, l)
  {
    hide PackRgb565, Expand5, Expand6, Truncate, Blend;
  }

  /** An opaque sample replaces every pixel of either format. */
  lemma OverOpaque(p: Pixel, luma: bv8)
    ensures Over(p, luma, 255) == Plain(p, luma)
  {
    hide PackRgb565, Expand5, Expand6, Truncate, Blend;
    match p
    case Gray8(l) => BlendOpaque(l, luma);
    case Rgb565(q) =>
      BlendOpaque(Red(q), luma);
      BlendOpaque(Green(q), luma);
      BlendOpaque(Blue(q), luma);
  }

  /** At every alpha each channel is mixed on its own and rounded to the nearest
      level, before a packed pixel drops its low bits. */
  lemma OverMixes(p: Pixel, luma: bv8, alpha: bv8) returns (red: bv8, green: bv8, blue: bv8)
    ensures p.Gray8? ==>
              && Over(p, luma, alpha) == Gray8(green)
              && Nearest(Level(green), Level(p.luma), Level(luma), Level(alpha))
    ensures p.Rgb565? ==>
              && Over(p, luma, alpha) == Rgb565(PackRgb565(red, green, blue))
              && Nearest(Level(red), Level(Red(p.packed)), Level(luma), Level(alpha))
              && Nearest(Level(green), Level(Green(p.packed)), Level(luma), Level(alpha))
              && Nearest(Level(blue), Level(Blue(p.packed)), Level(luma), Level(alpha))
  {
    hide PackRgb565, Expand5, Expand6, Truncate, Blend, Level, Nearest;
    match p
    case Gray8(l) =>
      red, green, blue := 0, Blend(l, luma, alpha), 0;
      BlendNearest(l, luma, alpha);
    case Rgb565(q) =>
      red, green, blue := Blend(Red(q), luma, alpha), Blend(Green(q), luma, alpha), Blend(Blue(q), luma, alpha);
      BlendNearest(Red(q), luma, alpha);
      BlendNearest(Green(q), luma, alpha);
      BlendNearest(Blue(q), luma, alpha);
  }

  /** A transparent sample leaves every pixel of either format alone. */
  lemma OverZero(p: Pixel, luma: bv8)
    ensures Over(p, luma, 0) == p
  {
    hide PackRgb565, Expand5, Expand6, Truncate, Blend;
    match p
    case Gray8(l) => BlendZero(l, luma);
    case Rgb565(q) =>
      BlendZero(Expand5(Truncate(q >> 11)), luma);
      BlendZero(Expand6(Truncate(q >> 5)), luma);
      BlendZero(Expand5(Truncate(q)), luma);
      PackExpand(q);
  }
}
