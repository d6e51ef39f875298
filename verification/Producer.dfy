/** The producer's side of one surface: frame identities, credits, speculative
    frames without a result, and keyframe recovery, one protocol step at a
    time. The calls of the client are sequences of these steps. */
module Producer {
  import opened Geometry
  import opened Pixels
  import opened Raster
  import opened Regions
  import opened Tiles
  import opened Ink
  import opened Refresh
  import opened Delta
  import opened Receiver
  import Semantic

  /** What the surface announced when it became ready; without byte credits the
      byte limit is the largest 64-bit number. */
  datatype Setup = Setup(
    surfaceId: nat,
    generation: nat,
    w: nat,
    h: nat,
    maxFrameBytes: nat,
    maxRegions: nat,
    maxInflight: nat,
    byteLimit: nat,
    byteCreditsOn: bool)

  /** Where a call of the client stands. */
  datatype Phase =
    | Idle
    | Queueing(pixels: Image, regions: seq<Region>)
    | Settling(pixels: Image, prior: Option<Image>, intent: Intent)
    | Waiting(frameId: nat, pixels: Image, forced: bool, intent: Intent)

  datatype State = State(
    setup: Setup,
    nextId: nat,
    receiverLogical: nat,
    logical: nat,
    needsKeyframe: bool,
    credits: nat,
    byteCredits: nat,
    pending: seq<nat>,
    phase: Phase)

  function NewState(setup: Setup): State {
    State.State(setup, 1, 0, 0, true, setup.maxInflight, setup.byteLimit, [], Idle)
  }

  predicate Clean(r: FrameResult) {
    r.code == PresentedCode || r.code == SupersededCode
  }

  function Position(pending: seq<nat>, id: nat): (k: nat)
    requires id in pending
    ensures k < |pending| && pending[k] == id
    ensures forall j :: 0 <= j < k ==> pending[j] != id
  {
    if pending[0] == id then 0 else Position(pending[1..], id) + 1
  }

  /** The frames without a result, without the first that has this identity. */
  function Without(pending: seq<nat>, id: nat): seq<nat>
    requires id in pending
  {
    var k := Position(pending, id);
    pending[..k] + pending[k + 1..]
  }

  /** The bookkeeping of one result; `None` for a result that no honest receiver
      sends. */
  function ApplyResult(p: State, r: FrameResult): Option<State> {
    if r.credits > p.setup.maxInflight || (p.setup.byteCreditsOn && r.byteCredits > p.setup.byteLimit) then None
    else if r.frameId !in p.pending then None
    else
      var left := Without(p.pending, r.frameId);
      var keyframe := p.needsKeyframe || !Clean(r);
      Some(p.(pending := left,
              credits := r.credits,
              byteCredits := if p.setup.byteCreditsOn then r.byteCredits else p.byteCredits,
              receiverLogical := r.logicalId,
              needsKeyframe := keyframe,
              logical := if keyframe || left == [] then r.logicalId else left[|left| - 1]))
  }

  function Limit(s: Setup): nat {
    Min(s.maxRegions, MAX_DELTA_REGIONS)
  }

  predicate PixelsOk(s: Setup, pixels: Image, prior: Option<Image>) {
    && s.w > 0
    && |pixels| == Size(s.w, s.h)
    && |pixels| <= s.maxFrameBytes
    && (prior.Some? ==> |prior.value| == Size(s.w, s.h))
  }

  function Cost(regions: seq<Region>): nat {
    Semantic.TotalPixels(regions) * Semantic.BytesPerPixel(FormatGray8)
  }

  /** The queue has to wait for a result before it may send. */
  predicate Blocked(p: State, regions: seq<Region>) {
    |p.pending| >= 2 || p.credits == 0 || Cost(regions) > p.byteCredits
  }

  function Whole(s: Setup, pixels: Image): seq<Region> {
    [Region(Full(s.w, s.h), pixels)]
  }

  function Frame(s: Setup, codec: Semantic.Codec, id: nat, baseId: nat, intent: Intent, content: Content,
                 regions: seq<Region>): Semantic.WireFrame
  {
    Semantic.WireFrame(s.surfaceId, s.generation, id, baseId, Semantic.IntentOf(intent), content,
                       Semantic.RawRegions(codec, FormatGray8, regions))
  }

  /** What a call does with a result that arrives while it is under way. */
  function Advance(p: State, r: FrameResult): Phase {
    match p.phase
    case Idle => Idle
    case Queueing(pixels, _) => if p.needsKeyframe then Settling(pixels, None, Latest) else p.phase
    case Settling(_, _, _) => p.phase
    case Waiting(id, pixels, forced, intent) =>
      if r.frameId != id then p.phase
      else if r.reason != InkFrozen && r.code == NeedKeyframeCode && !forced then Settling(pixels, None, intent)
      else Idle
  }

  predicate Forced(p: State) {
    p.needsKeyframe || p.receiverLogical == 0
  }

  /** The regions a synchronous send may choose. */
  ghost predicate Chosen(p: State, pixels: Image, prior: Option<Image>, regions: seq<Region>)
    requires PixelsOk(p.setup, pixels, prior)
  {
    if !Forced(p) && prior.Some?
    then IsDelta(p.setup.w, p.setup.h, prior.value, pixels, Limit(p.setup), regions)
    else regions == Whole(p.setup, pixels)
  }

  datatype Act =
    | Receive(result: FrameResult)
    | BeginQueue(previous: Image, pixels: Image, regions: seq<Region>)
    | SendQueued(content: Content)
    | BeginSend(pixels: Image, prior: Option<Image>, intent: Intent)
    | Transmit(regions: seq<Region>, content: Content)
    | GiveUp
    | ForceKeyframe

  datatype Played = Played(p: State, frames: seq<Semantic.WireFrame>)

  /** One protocol step; `None` when the producer does not take it. */
  ghost function Play(p: State, codec: Semantic.Codec, a: Act): Option<Played> {
    match a
    case Receive(r) =>
      if p.phase.Queueing? && !Blocked(p, p.phase.regions) then None
      else
        (match ApplyResult(p, r)
         case None => None
         case Some(q) => Some(Played(q.(phase := Advance(q, r)), [])))
    case BeginQueue(previous, pixels, regions) =>
      if !p.phase.Idle? then None
      else if p.needsKeyframe || p.logical == 0 then Some(Played(p.(phase := Settling(pixels, None, Latest)), []))
      else if !PixelsOk(p.setup, pixels, Some(previous)) then None
      else if IsDelta(p.setup.w, p.setup.h, previous, pixels, Limit(p.setup), regions) then
        Some(Played(p.(phase := Queueing(pixels, regions)), []))
      else None
    case SendQueued(content) =>
      if !p.phase.Queueing? || Blocked(p, p.phase.regions) then None
      else
        var regions := p.phase.regions;
        var f := Frame(p.setup, codec, p.nextId, p.logical, Latest, content, regions);
        Some(Played(Sent(p, Cost(regions)).(phase := Idle), [f]))
    case BeginSend(pixels, prior, intent) =>
      if !p.phase.Idle? then None else Some(Played(p.(phase := Settling(pixels, prior, intent)), []))
    case Transmit(regions, content) =>
      if !p.phase.Settling? || p.pending != [] || p.credits == 0 || Cost(regions) > p.byteCredits then None
      else
        var Settling(pixels, prior, intent) := p.phase;
        if !PixelsOk(p.setup, pixels, prior) || !Chosen(p, pixels, prior, regions) then None
        else
          var f := Frame(p.setup, codec, p.nextId, if Forced(p) then 0 else p.logical, intent, content, regions);
          Some(Played(Sent(p, Cost(regions)).(needsKeyframe := p.needsKeyframe && !Forced(p),
                                              phase := Waiting(p.nextId, pixels, Forced(p), intent)), [f]))
    case GiveUp =>
      if p.phase.Settling? && p.pending == [] then Some(Played(p.(phase := Idle), []))
      else if p.phase.Queueing? && p.pending == [] && Blocked(p, p.phase.regions) then
        Some(Played(p.(phase := Idle), []))
      else None
    case ForceKeyframe =>
      if p.phase.Idle? then Some(Played(p.(needsKeyframe := true), [])) else None
  }

  /** The bookkeeping of a frame that goes out. */
  function Sent(p: State, cost: nat): State {
    p.(nextId := p.nextId + 1,
       credits := SatSub(p.credits, 1),
       byteCredits := SatSub(p.byteCredits, cost),
       logical := p.nextId,
       pending := p.pending + [p.nextId])
  }
}
