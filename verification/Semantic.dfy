/** Validation of frames as they arrive from the producer. */
module Semantic {
  import opened Geometry
  import opened Pixels
  import opened Raster
  import opened Regions
  import opened Tiles
  import opened Refresh
  import opened Surface
  import Core

  datatype Encoding = Raw | Zlib | Zstd | NoEncoding | UnknownEncoding

  /** Region data: whole pixels when sent raw, opaque bytes when packed. */
  datatype Payload = Whole(pixels: seq<Pixel>) | Packed(bytes: seq<bv8>)

  datatype WireRegion = WireRegion(
    rect: Option<Rect>,
    encoding: Encoding,
    decodedLen: nat,
    crc: nat,
    data: Payload)

  datatype WireIntent = IntentUnknown | IntentUnspecified | IntentOf(intent: Intent)

  datatype WireFrame = WireFrame(
    surfaceId: nat,
    generation: nat,
    frameId: nat,
    baseId: nat,
    intent: WireIntent,
    content: Content,
    regions: seq<WireRegion>)

  datatype SurfaceState = SurfaceState(
    surfaceId: nat,
    generation: nat,
    w: nat,
    h: nat,
    format: Format,
    logicalId: nat,
    maxRegions: nat,
    maxFrameBytes: nat)

  datatype SemanticError =
    | WrongSurface | BadFrameId | BadBase | Unsupported | BadRegionCount | BadRegion | RegionOverlap
    | BadDecodedLength | FrameTooLarge | Decompression | BadCrc | BadKeyframe | BadIntent

  datatype Result<T> = Ok(value: T) | Err(error: SemanticError)

  /** The checksum and the decompressor, about which nothing is assumed. */
  datatype Codec = Codec(hash: seq<Pixel> -> nat, inflate: (Encoding, seq<bv8>, nat) -> Result<seq<Pixel>>)

  const U16_MAX: nat := 0xFFFF

  function BytesPerPixel(format: Format): nat {
    match format
    case FormatGray8 => 1
    case FormatRgb565 => 2
  }

  function DataLen(p: Payload, format: Format): nat {
    match p
    case Whole(pixels) => |pixels| * BytesPerPixel(format)
    case Packed(bytes) => |bytes|
  }

  /** `decode_region`; a packed answer is checked for its length. */
  function DecodeRegion(codec: Codec, r: WireRegion, count: nat): Result<seq<Pixel>> {
    match r.encoding
    case Raw =>
      if r.data.Whole? && |r.data.pixels| == count then Ok(r.data.pixels) else Err(BadDecodedLength)
    case NoEncoding | UnknownEncoding => Err(Unsupported)
    case Zlib | Zstd =>
      var packed := if r.data.Packed? then r.data.bytes else [];
      match codec.inflate(r.encoding, packed, count)
      case Ok(pixels) => if |pixels| == count then Ok(pixels) else Err(BadDecodedLength)
      case Err(_) => Err(Decompression)
  }

  datatype Scanned = Scanned(regions: seq<Region>, decoded: nat, encoded: nat)

  /** One region of the accumulating loop. */
  function ScanOne(codec: Codec, s: SurfaceState, acc: Scanned, r: WireRegion): Result<Scanned> {
    if r.rect.None? || !ValidRect(s.w, s.h, r.rect.value) then Err(SemanticError.BadRegion)
    else
      var count := Area(r.rect.value);
      var expected := count * BytesPerPixel(s.format);
      var decoded := acc.decoded + expected;
      var encoded := acc.encoded + DataLen(r.data, s.format);
      if r.decodedLen != expected then Err(BadDecodedLength)
      else if decoded > s.maxFrameBytes || encoded > s.maxFrameBytes then Err(FrameTooLarge)
      else
        match DecodeRegion(codec, r, count)
        case Err(e) => Err(e)
        case Ok(pixels) =>
          if codec.hash(pixels) != r.crc then Err(BadCrc)
          else Ok(Scanned(acc.regions + [Region(r.rect.value, pixels)], decoded, encoded))
  }

  function Scan(codec: Codec, s: SurfaceState, regions: seq<WireRegion>): Result<Scanned> {
    if regions == [] then Ok(Scanned([], 0, 0))
    else
      match Scan(codec, s, regions[..|regions| - 1])
      case Err(e) => Err(e)
      case Ok(acc) => ScanOne(codec, s, acc, regions[|regions| - 1])
  }

  function HeaderError(f: WireFrame, s: SurfaceState): Option<SemanticError> {
    if f.surfaceId != s.surfaceId || f.generation != s.generation then Some(WrongSurface)
    else if f.frameId == 0 || f.frameId <= s.logicalId then Some(BadFrameId)
    else if f.intent.IntentUnknown? || f.intent.IntentUnspecified? then Some(BadIntent)
    else if f.regions == [] || |f.regions| > s.maxRegions || |f.regions| > U16_MAX then Some(BadRegionCount)
    else if f.baseId != 0 && f.baseId != s.logicalId then Some(BadBase)
    else None
  }

  predicate IsFull(s: SurfaceState, regions: seq<Region>) {
    |regions| == 1 && regions[0].rect == Full(s.w, s.h)
  }

  /** What the validator answers. */
  ghost function Validated(codec: Codec, f: WireFrame, s: SurfaceState): Result<Core.Frame> {
    match HeaderError(f, s)
    case Some(e) => Err(e)
    case None =>
      match Scan(codec, s, f.regions)
      case Err(e) => Err(e)
      case Ok(acc) =>
        if !Disjoint(acc.regions) then Err(RegionOverlap)
        else if f.baseId == 0 && !IsFull(s, acc.regions) then Err(BadKeyframe)
        else Ok(Core.Frame(f.frameId, f.baseId, f.intent.intent, s.format, acc.decoded, acc.regions))
  }

  method ValidateAndDecode(codec: Codec, f: WireFrame, s: SurfaceState) returns (result: Result<Core.Frame>)
    ensures result == Validated(codec, f, s)
  {
    var header := HeaderError(f, s);
    if header.Some? {
      return Err(header.value);
    }
    var acc := Scanned([], 0, 0);
    assert f.regions[..0] == [];
    for k := 0 to |f.regions|
      invariant Scan(codec, s, f.regions[..k]) == Ok(acc)
    {
      assert f.regions[..k + 1][..k] == f.regions[..k];
      var step := ScanOne(codec, s, acc, f.regions[k]);
      if step.Err? {
        ScanStops(codec, s, f.regions, k + 1);
        return Err(step.error);
      }
      acc := step.value;
    }
    assert f.regions[..|f.regions|] == f.regions;
    for j := 0 to |acc.regions|
      invariant forall a, b :: 0 <= a < j && a < b < |acc.regions| ==>
                  !Overlaps(acc.regions[a].rect, acc.regions[b].rect)
    {
      for k := j + 1 to |acc.regions|
        invariant forall b :: j < b < k ==> !Overlaps(acc.regions[j].rect, acc.regions[b].rect)
      {
        if Overlaps(acc.regions[j].rect, acc.regions[k].rect) {
          return Err(RegionOverlap);
        }
      }
    }
    if f.baseId == 0 && !IsFull(s, acc.regions) {
      return Err(BadKeyframe);
    }
    return Ok(Core.Frame(f.frameId, f.baseId, f.intent.intent, s.format, acc.decoded, acc.regions));
  }

  /** An error at a prefix is the error of the whole list. */
  lemma {:induction false} ScanStops(codec: Codec, s: SurfaceState, regions: seq<WireRegion>, k: nat)
    requires k <= |regions| && Scan(codec, s, regions[..k]).Err?
    ensures Scan(codec, s, regions) == Scan(codec, s, regions[..k])
    decreases |regions| - k
  {
    if k == |regions| {
      assert regions[..k] == regions;
    } else {
      assert regions[..k + 1][..k] == regions[..k];
      ScanStops(codec, s, regions, k + 1);
    }
  }

  /** What one round of the loop adds. */
  lemma ScanOneShape(codec: Codec, s: SurfaceState, acc: Scanned, r: WireRegion)
    requires ScanOne(codec, s, acc, r).Ok?
    ensures var next := ScanOne(codec, s, acc, r).value;
            && |next.regions| == |acc.regions| + 1 && next.regions[..|acc.regions|] == acc.regions
            && var one := next.regions[|acc.regions|];
               && ShapeOk(s.w, s.h, one)
               && next.decoded == acc.decoded + Area(one.rect) * BytesPerPixel(s.format) <= s.maxFrameBytes
  {
    hide ValidRect, Area, BytesPerPixel;
  }

  lemma {:induction false} ScanShapes(codec: Codec, s: SurfaceState, regions: seq<WireRegion>)
    requires Scan(codec, s, regions).Ok?
    ensures var acc := Scan(codec, s, regions).value;
            && |acc.regions| == |regions|
            && ShapesOk(s.w, s.h, acc.regions)
            && acc.decoded == TotalArea(Rects(acc.regions)) * BytesPerPixel(s.format)
            && (regions != [] ==> acc.decoded <= s.maxFrameBytes)
  {
    hide Area, ScanOne, ShapeOk, BytesPerPixel;
    if regions != [] {
      var n := |regions| - 1;
      ScanShapes(codec, s, regions[..n]);
      var acc := Scan(codec, s, regions[..n]).value;
      var next := ScanOne(codec, s, acc, regions[n]).value;
      ScanOneShape(codec, s, acc, regions[n]);
      var rects := Rects(next.regions);
      assert rects[..n] == Rects(acc.regions);
      Distributes(TotalArea(Rects(acc.regions)), Area(rects[n]), BytesPerPixel(s.format));
    }
  }

  lemma Distributes(a: nat, b: nat, c: nat)
    ensures (a + b) * c == a * c + b * c
  {
  }

  /** Whatever the validator accepts, the surface accepts too, and it stays
      within the byte limit. */
  lemma AcceptedFrameApplies(codec: Codec, f: WireFrame, s: SurfaceState)
    requires Validated(codec, f, s).Ok?
    ensures var frame := Validated(codec, f, s).value;
            && ValidateRegions(s.w, s.h, frame.regions).None?
            && frame.frameId == f.frameId > s.logicalId
            && frame.format == s.format
            && (frame.baseId == 0 || frame.baseId == s.logicalId)
            && (frame.baseId == 0 ==> IsFull(s, frame.regions))
            && frame.decodedBytes == TotalArea(Rects(frame.regions)) * BytesPerPixel(s.format) <= s.maxFrameBytes
  {
    hide ShapeOk, Overlaps, Scan;
    ScanShapes(codec, s, f.regions);
  }

  /** After validation a commit can only be refused for the barrier or for a
      base the receiver no longer holds. */
  lemma CommitOnlyRefusesBase(codec: Codec, f: WireFrame, s: SurfaceState, core: Core.State, content: Content, now: nat)
    requires Core.Shaped(core)
    requires (s.w, s.h, s.format, s.logicalId) == (core.w, core.h, core.format, core.logicalId)
    requires Validated(codec, f, s).Ok?
    ensures var r := Core.Commit(core, Validated(codec, f, s).value, content, now).1;
            r.Committed? || r.error == Core.NeedKeyframe || r.error == Core.SettledBarrier
  {
    hide ValidateRegions, Validated, Core.Shaped;
    AcceptedFrameApplies(codec, f, s);
  }

  // --------------------------------------------------------------- raw frames

  /** A raw region as the producer builds it. */
  function RawRegion(codec: Codec, format: Format, r: Region): WireRegion {
    WireRegion(Some(r.rect), Raw, |r.pixels| * BytesPerPixel(format), codec.hash(r.pixels), Whole(r.pixels))
  }

  function RawRegions(codec: Codec, format: Format, regions: seq<Region>): (r: seq<WireRegion>)
    ensures |r| == |regions|
    ensures forall k :: 0 <= k < |r| ==> r[k] == RawRegion(codec, format, regions[k])
  {
    seq(|regions|, k requires 0 <= k < |regions| => RawRegion(codec, format, regions[k]))
  }

  function TotalPixels(regions: seq<Region>): nat {
    if regions == [] then 0 else TotalPixels(regions[..|regions| - 1]) + |regions[|regions| - 1].pixels|
  }

  /** Raw regions of legal shape are read back exactly, if and only if they fit
      the byte limit. */
  lemma {:induction false} ScanRaw(codec: Codec, s: SurfaceState, regions: seq<Region>)
    requires ShapesOk(s.w, s.h, regions)
    ensures var bytes := TotalPixels(regions) * BytesPerPixel(s.format);
            var r := Scan(codec, s, RawRegions(codec, s.format, regions));
            && (regions == [] || bytes <= s.maxFrameBytes ==> r == Ok(Scanned(regions, bytes, bytes)))
            && (regions != [] && bytes > s.maxFrameBytes ==> r == Err(FrameTooLarge))
  {
    hide ValidRect, Area;
    if regions != [] {
      var n := |regions| - 1;
      var wire := RawRegions(codec, s.format, regions);
      ScanRaw(codec, s, regions[..n]);
      assert wire[..n] == RawRegions(codec, s.format, regions[..n]);
      assert regions == regions[..n] + [regions[n]];
      assert (TotalPixels(regions[..n]) + |regions[n].pixels|) * BytesPerPixel(s.format)
          == TotalPixels(regions[..n]) * BytesPerPixel(s.format) + |regions[n].pixels| * BytesPerPixel(s.format);
    }
  }

  lemma {:induction false} PixelsAreArea(w: nat, h: nat, regions: seq<Region>)
    requires ShapesOk(w, h, regions)
    ensures TotalPixels(regions) == TotalArea(Rects(regions))
  {
    hide ValidRect, Area;
    if regions != [] {
      var n := |regions| - 1;
      PixelsAreArea(w, h, regions[..n]);
      assert Rects(regions)[..n] == Rects(regions[..n]);
    }
  }

  /** Disjoint regions never carry more pixels than the panel has. */
  lemma RawFits(w: nat, h: nat, regions: seq<Region>)
    requires w > 0 && h > 0 && ShapesOk(w, h, regions) && Disjoint(regions)
    ensures TotalPixels(regions) <= Size(w, h)
  {
    hide ValidRect, Area, Size, Overlaps;
    PixelsAreArea(w, h, regions);
    DisjointArea(w, h, Rects(regions));
  }

  /** A raw frame of disjoint regions with a fresh id, the right base and a
      known intent passes exactly when it fits the byte limit and, as a
      keyframe, is one full region. */
  lemma RawFrameAccepted(codec: Codec, f: WireFrame, s: SurfaceState, regions: seq<Region>)
    requires f.regions == RawRegions(codec, s.format, regions)
    requires ShapesOk(s.w, s.h, regions) && Disjoint(regions)
    requires HeaderError(f, s).None?
    ensures var bytes := TotalPixels(regions) * BytesPerPixel(s.format);
            Validated(codec, f, s).Ok? <==> bytes <= s.maxFrameBytes && (f.baseId == 0 ==> IsFull(s, regions))
    ensures Validated(codec, f, s).Ok? ==>
              Validated(codec, f, s).value
              == Core.Frame(f.frameId, f.baseId, f.intent.intent, s.format,
                            TotalPixels(regions) * BytesPerPixel(s.format), regions)
  {
    hide ShapeOk, Overlaps, Scan;
    ScanRaw(codec, s, regions);
  }

  // -------------------------------------------------------- what is accepted

  /** The region carries the pixels of the sent one: its rectangle, as many bytes
      as it declares, the pixels themselves or those inflated, and the checksum. */
  predicate Carried(codec: Codec, format: Format, sent: WireRegion, r: Region) {
    && sent.rect == Some(r.rect)
    && |r.pixels| == Area(r.rect)
    && sent.decodedLen == |r.pixels| * BytesPerPixel(format)
    && sent.crc == codec.hash(r.pixels)
    && match sent.encoding
       case Raw => sent.data == Whole(r.pixels)
       case Zlib | Zstd =>
         codec.inflate(sent.encoding, if sent.data.Packed? then sent.data.bytes else [], |r.pixels|) == Ok(r.pixels)
       case NoEncoding | UnknownEncoding => false
  }

  /** All regions are legal and carried, one for one. */
  ghost predicate AllCarried(codec: Codec, s: SurfaceState, sent: seq<WireRegion>, regions: seq<Region>) {
    && |sent| == |regions|
    && forall k :: 0 <= k < |sent| ==> ValidRect(s.w, s.h, regions[k].rect) && Carried(codec, s.format, sent[k], regions[k])
  }

  /** Bytes of all regions as they were sent. */
  function SentBytes(format: Format, sent: seq<WireRegion>): nat {
    if sent == [] then 0 else SentBytes(format, sent[..|sent| - 1]) + DataLen(sent[|sent| - 1].data, format)
  }

  lemma ScanOneExact(codec: Codec, s: SurfaceState, acc: Scanned, sent: WireRegion, regions: seq<Region>)
    requires |regions| > 0
    ensures var r := regions[|regions| - 1];
            var decoded, encoded := acc.decoded + Area(r.rect) * BytesPerPixel(s.format), acc.encoded + DataLen(sent.data, s.format);
            var step := ScanOne(codec, s, acc, sent);
            && ((step.Ok? && step.value.regions == regions) <==>
                  && regions == acc.regions + [r]
                  && ValidRect(s.w, s.h, r.rect) && Carried(codec, s.format, sent, r)
                  && decoded <= s.maxFrameBytes && encoded <= s.maxFrameBytes)
            && (step.Ok? && step.value.regions == regions ==> step.value == Scanned(regions, decoded, encoded))
  {
    hide ValidRect, Area, BytesPerPixel, DataLen;
    if ScanOne(codec, s, acc, sent).Ok? {
      var all := ScanOne(codec, s, acc, sent).value.regions;
      assert all == acc.regions + [all[|acc.regions|]];
    }
  }

  /** The loop accepts exactly the regions that the sent ones carry, while the
      bytes sent and the bytes decoded stay within the limit. */
  lemma {:induction false} ScanExact(codec: Codec, s: SurfaceState, sent: seq<WireRegion>, regions: seq<Region>)
    ensures var scan := Scan(codec, s, sent);
            var decoded := TotalArea(Rects(regions)) * BytesPerPixel(s.format);
            && ((scan.Ok? && scan.value.regions == regions) <==>
                  && AllCarried(codec, s, sent, regions)
                  && (sent != [] ==> decoded <= s.maxFrameBytes && SentBytes(s.format, sent) <= s.maxFrameBytes))
            && (scan.Ok? && scan.value.regions == regions ==>
                  scan.value == Scanned(regions, decoded, SentBytes(s.format, sent)))
  {
    hide ValidRect, Area, BytesPerPixel, DataLen, ScanOne, Carried;
    if sent != [] && regions != [] {
      var n, m := |sent| - 1, |regions| - 1;
      ScanExact(codec, s, sent[..n], regions[..m]);
      assert Rects(regions)[..m] == Rects(regions[..m]);
      Distributes(TotalArea(Rects(regions[..m])), Area(regions[m].rect), BytesPerPixel(s.format));
      var head := Scan(codec, s, sent[..n]);
      ScanSteps(codec, s, sent, regions);
      ghost var bytes := SentBytes(s.format, sent[..n]);
      assert SentBytes(s.format, sent) == bytes + DataLen(sent[n].data, s.format);
      assert TotalArea(Rects(regions)) == TotalArea(Rects(regions[..m])) + Area(regions[m].rect);
      ghost var more: nat := Area(regions[m].rect) * BytesPerPixel(s.format);
      if head.Ok? {
        ScanOneExact(codec, s, head.value, sent[n], regions);
        if regions == head.value.regions + [regions[m]] { assert head.value.regions == regions[..m]; }
      }
    } else if sent != [] {
      ScanGrows(codec, s, sent);
    }
  }

  /** The parts of one step back from the end. */
  lemma ScanSteps(codec: Codec, s: SurfaceState, sent: seq<WireRegion>, regions: seq<Region>)
    requires sent != [] && regions != []
    ensures var n, m := |sent| - 1, |regions| - 1;
            AllCarried(codec, s, sent, regions) <==>
              && AllCarried(codec, s, sent[..n], regions[..m])
              && ValidRect(s.w, s.h, regions[m].rect) && Carried(codec, s.format, sent[n], regions[m])
    ensures var m := |regions| - 1; regions == regions[..m] + [regions[m]]
  {
    hide ValidRect, Carried;
    var n, m := |sent| - 1, |regions| - 1;
    if AllCarried(codec, s, sent[..n], regions[..m]) && ValidRect(s.w, s.h, regions[m].rect)
       && Carried(codec, s.format, sent[n], regions[m]) {
      forall k | 0 <= k < |sent|
        ensures ValidRect(s.w, s.h, regions[k].rect) && Carried(codec, s.format, sent[k], regions[k])
      {
        if k < n { assert sent[..n][k] == sent[k] && regions[..m][k] == regions[k]; }
      }
    }
    if AllCarried(codec, s, sent, regions) {
      forall k | 0 <= k < n
        ensures ValidRect(s.w, s.h, regions[..m][k].rect) && Carried(codec, s.format, sent[..n][k], regions[..m][k])
      {
        assert sent[..n][k] == sent[k] && regions[..m][k] == regions[k];
      }
    }
  }

  lemma ScanGrows(codec: Codec, s: SurfaceState, sent: seq<WireRegion>)
    requires sent != []
    ensures Scan(codec, s, sent).Ok? ==> Scan(codec, s, sent).value.regions != []
  {
    hide ScanOne;
    var head := Scan(codec, s, sent[..|sent| - 1]);
    if head.Ok? && ScanOne(codec, s, head.value, sent[|sent| - 1]).Ok? {
      ScanOneShape(codec, s, head.value, sent[|sent| - 1]);
    }
  }

  /** Nothing is wrong with the frame, apart perhaps from its base and from being
      less than a keyframe: it is new, names the surface and a known intent, and
      its regions are legal, disjoint and unharmed, within both byte limits. */
  ghost predicate Faultless(codec: Codec, f: WireFrame, s: SurfaceState, regions: seq<Region>) {
    && (f.surfaceId, f.generation) == (s.surfaceId, s.generation)
    && f.frameId > s.logicalId
    && f.intent.IntentOf?
    && 1 <= |f.regions| <= s.maxRegions && |f.regions| <= U16_MAX
    && AllCarried(codec, s, f.regions, regions)
    && Disjoint(regions)
    && TotalArea(Rects(regions)) * BytesPerPixel(s.format) <= s.maxFrameBytes
    && SentBytes(s.format, f.regions) <= s.maxFrameBytes
  }

  /** A faultless frame on the base the receiver names, or a full keyframe, and
      what is read from it. */
  ghost predicate Acceptable(codec: Codec, f: WireFrame, s: SurfaceState, frame: Core.Frame) {
    && Faultless(codec, f, s, frame.regions)
    && (f.baseId == 0 || f.baseId == s.logicalId)
    && (f.baseId == 0 ==> IsFull(s, frame.regions))
    && (frame.frameId, frame.baseId, frame.format) == (f.frameId, f.baseId, s.format)
    && f.intent == IntentOf(frame.intent)
    && frame.decodedBytes == TotalArea(Rects(frame.regions)) * BytesPerPixel(s.format)
  }

  /** The validator accepts exactly what is acceptable, with the regions sent. */
  lemma AcceptedExactly(codec: Codec, f: WireFrame, s: SurfaceState, frame: Core.Frame)
    ensures Validated(codec, f, s) == Ok(frame) <==> Acceptable(codec, f, s, frame)
  {
    hide AllCarried, Overlaps, Scan, SentBytes, BytesPerPixel;
    ScanExact(codec, s, f.regions, frame.regions);
    if HeaderError(f, s).None? && Scan(codec, s, f.regions).Ok? {
      ScanExact(codec, s, f.regions, Scan(codec, s, f.regions).value.regions);
    }
  }

  /** Of a faultless delta only the base is left to decide. */
  lemma BaseDecides(codec: Codec, f: WireFrame, s: SurfaceState, regions: seq<Region>)
    requires Faultless(codec, f, s, regions) && f.baseId != 0
    ensures var bytes := TotalArea(Rects(regions)) * BytesPerPixel(s.format);
            Validated(codec, f, s) ==
            if f.baseId == s.logicalId then Ok(Core.Frame(f.frameId, f.baseId, f.intent.intent, s.format, bytes, regions))
            else Err(BadBase)
  {
    hide AllCarried, Overlaps, Scan, SentBytes, BytesPerPixel;
    if f.baseId == s.logicalId {
      var bytes := TotalArea(Rects(regions)) * BytesPerPixel(s.format);
      AcceptedExactly(codec, f, s, Core.Frame(f.frameId, f.baseId, f.intent.intent, s.format, bytes, regions));
    }
  }

  lemma {:induction false} ScanKeepsBase(codec: Codec, s: SurfaceState, sent: seq<WireRegion>)
    ensures Scan(codec, s, sent) != Err(BadBase)
  {
    hide ValidRect, Area, BytesPerPixel, DataLen;
    if sent != [] {
      ScanKeepsBase(codec, s, sent[..|sent| - 1]);
    }
  }

  /** A base fault is never anything else. */
  lemma BaseFault(codec: Codec, f: WireFrame, s: SurfaceState)
    requires Validated(codec, f, s) == Err(BadBase)
    ensures f.baseId != 0 && f.baseId != s.logicalId
  {
    hide Scan, Overlaps;
    ScanKeepsBase(codec, s, f.regions);
  }

  /** Every checksum is that of the pixels. */
  ghost predicate Unharmed(codec: Codec, sent: seq<WireRegion>, regions: seq<Region>)
    requires |sent| == |regions|
  {
    forall k :: 0 <= k < |sent| ==> sent[k].crc == codec.hash(regions[k].pixels)
  }

  /** A raw frame that is right but perhaps for its checksums: they decide, and
      a keyframe has to be one full region. */
  lemma RawChecked(codec: Codec, f: WireFrame, s: SurfaceState, regions: seq<Region>)
    requires HeaderError(f, s).None? && |f.regions| == |regions|
    requires forall k :: 0 <= k < |regions| ==>
               f.regions[k].(crc := codec.hash(regions[k].pixels)) == RawRegion(codec, s.format, regions[k])
    requires ShapesOk(s.w, s.h, regions) && Disjoint(regions)
    requires TotalPixels(regions) * BytesPerPixel(s.format) <= s.maxFrameBytes
    ensures Validated(codec, f, s).Ok? <==>
            Unharmed(codec, f.regions, regions) && (f.baseId == 0 ==> IsFull(s, regions))
    ensures !Unharmed(codec, f.regions, regions) ==> Validated(codec, f, s) == Err(BadCrc)
  {
    hide ShapeOk, Overlaps, Scan, BytesPerPixel, RawRegion;
    if Unharmed(codec, f.regions, regions) {
      assert f.regions == RawRegions(codec, s.format, regions);
      RawFrameAccepted(codec, f, s, regions);
    } else {
      ScanHarmed(codec, s, f.regions, regions);
    }
  }

  lemma {:induction false} ScanHarmed(codec: Codec, s: SurfaceState, sent: seq<WireRegion>, regions: seq<Region>)
    requires |sent| == |regions| && ShapesOk(s.w, s.h, regions)
    requires forall k :: 0 <= k < |regions| ==>
               sent[k].(crc := codec.hash(regions[k].pixels)) == RawRegion(codec, s.format, regions[k])
    requires TotalPixels(regions) * BytesPerPixel(s.format) <= s.maxFrameBytes
    requires !Unharmed(codec, sent, regions)
    ensures Scan(codec, s, sent) == Err(BadCrc)
  {
    hide ShapeOk, BytesPerPixel, ScanOne;
    var n := |regions| - 1;
    ghost var more: nat := |regions[n].pixels| * BytesPerPixel(s.format);
    Distributes(TotalPixels(regions[..n]), |regions[n].pixels|, BytesPerPixel(s.format));
    if !Unharmed(codec, sent[..n], regions[..n]) {
      ScanHarmed(codec, s, sent[..n], regions[..n]);
    } else {
      assert sent[..n] == RawRegions(codec, s.format, regions[..n]);
      ScanRaw(codec, s, regions[..n]);
      HarmedOne(codec, s, Scan(codec, s, sent[..n]).value, sent[n], regions[n]);
    }
  }

  lemma HarmedOne(codec: Codec, s: SurfaceState, acc: Scanned, sent: WireRegion, r: Region)
    requires sent.(crc := codec.hash(r.pixels)) == RawRegion(codec, s.format, r) && sent.crc != codec.hash(r.pixels)
    requires ShapeOk(s.w, s.h, r)
    requires acc.decoded == acc.encoded && acc.decoded + |r.pixels| * BytesPerPixel(s.format) <= s.maxFrameBytes
    ensures ScanOne(codec, s, acc, sent) == Err(BadCrc)
  {
    hide ValidRect, Area, BytesPerPixel;
  }

  // ------------------------------------------------- the producer-side writer

  /** `apply_validated_frame`: regions copied straight into a byte buffer. */
  method ApplyValidated(surface: array<Pixel>, w: nat, ghost h: nat, regions: seq<Region>)
    requires w > 0 && surface.Length == Size(w, h) && ShapesOk(w, h, regions)
    modifies surface
    ensures surface[..] == ApplyAll(w, h, old(surface[..]), regions)
  {
    hide ShapeOk, ApplyOne, Size;
    assert regions[..0] == [];
    for k := 0 to |regions|
      invariant surface[..] == ApplyAll(w, h, old(surface[..]), regions[..k])
    {
      assert regions[..k + 1][..k] == regions[..k];
      CopyRegion(surface, w, h, regions[k]);
    }
    assert regions[..|regions|] == regions;
  }
}
