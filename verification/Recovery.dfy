/** How a synchronous frame survives the loss of the base it was made against:
    the receiver asks for a keyframe, the producer sends the whole image, and the
    receiver takes it. */
module Recovery {
  import opened Geometry
  import opened Pixels
  import opened Raster
  import opened Regions
  import opened Tiles
  import opened Refresh
  import opened Receiver
  import opened Reliability
  import opened SessionReliability
  import opened Link
  import Core
  import Delta
  import Semantic
  import P = Producer
  import R = Results

  // ------------------------------------------------------- arriving frames

  lemma {:induction false} RawCost(codec: Semantic.Codec, regions: seq<Region>)
    ensures DecodedCost(Semantic.RawRegions(codec, FormatGray8, regions)) == Semantic.TotalPixels(regions)
  {
    if regions != [] {
      var n := |regions| - 1;
      RawCost(codec, regions[..n]);
      var wire := Semantic.RawRegions(codec, FormatGray8, regions);
      assert wire[..n] == Semantic.RawRegions(codec, FormatGray8, regions[..n]);
    }
  }

  /** A whole image fits the bytes that may be on their way. */
  predicate ImageFits(l: System) {
    l.p.setup.byteCreditsOn ==> Size(l.p.setup.w, l.p.setup.h) <= l.p.setup.byteLimit
  }

  /** Every frame that arrives alone, while the background is not frozen, passes
      the early checks and has nothing wrong but perhaps its base. */
  lemma ArrivesFaultless(l: System, codec: Semantic.Codec)
    requires Inv(l, codec) && l.up != [] && !HasPending(l.s) && !Frozen(l.s) && ImageFits(l)
    ensures var f := l.up[0];
            && l.s.surface.Some? && f.frameId in l.sent
            && EarlyRejection(l.s, f).None?
            && Semantic.Faultless(codec, f, SemanticSurface(l.s), l.sent[f.frameId].regions)
  {
    hide Counted, Faithful, AllHonest, Tracked, Prepared, Flow, R.Sane, PanelFits, Size, Semantic.Scan, ApplyAll, Overlaps,
         ShapeOk, Core.Shaped, Credits, ValidateRegions, Semantic.AllCarried, Semantic.SentBytes;
    var f, s := l.up[0], l.s;
    assert Encodes(l, codec, f);
    var r := l.sent[f.frameId];
    RoomOnArrival(l);
    RawEncodings(codec, r.regions, s.encodings);
    Semantic.RawFits(l.p.setup.w, l.p.setup.h, r.regions);
    RawCost(codec, r.regions);
    var ss := SemanticSurface(s);
    Semantic.ScanRaw(codec, ss, r.regions);
    Semantic.ScanExact(codec, ss, f.regions, r.regions);
  }

  /** A keyframe that arrives alone is taken, whatever the base was. */
  lemma KeyframeTaken(l: System, codec: Semantic.Codec, now: nat)
    requires Inv(l, codec) && Shaped(l.s) && l.up != [] && !HasPending(l.s) && !Frozen(l.s) && ImageFits(l)
    requires l.up[0].baseId == 0
    ensures Accepts(l.s, codec, l.up[0])
    ensures var t := AcceptFrame(l.s, codec, l.up[0], now).s;
            && BaseLive(t)
            && t.surface.value.core.logicalId == l.up[0].frameId
            && t.surface.value.core.base == l.sent[l.up[0].frameId].image
  {
    hide Counted, Ordered, AllHonest, Tracked, Prepared, Flow, R.Sane, PanelFits, Size, ApplyAll, Overlaps, AcceptFrame,
         ShapeOk, Core.Shaped, Credits, ValidateRegions, Semantic.Faultless, Semantic.Validated, EarlyRejection;
    InvParts(l, codec);
    ArrivesFaultless(l, codec);
    var f, s := l.up[0], l.s;
    assert Encodes(l, codec, f);
    var regions, ss := l.sent[f.frameId].regions, SemanticSurface(l.s);
    var bytes := TotalArea(Rects(regions)) * Semantic.BytesPerPixel(ss.format);
    var frame := Core.Frame(f.frameId, 0, f.intent.intent, ss.format, bytes, regions);
    assert Semantic.IsFull(ss, regions);
    Semantic.AcceptedExactly(codec, f, ss, frame);
    Semantic.AcceptedFrameApplies(codec, f, ss);
    AcceptedFaithful(l, codec, now);
    AcceptanceShape(s, codec, f, now);
  }

  // ----------------------------------------------------------------- stages

  /** A synchronous delta that leads to `pixels` is the only frame on the link. */
  ghost predicate InFlight(l: System, pixels: Image) {
    && l.p.phase.Waiting? && l.p.phase.pixels == pixels && !l.p.phase.forced
    && |l.up| == 1 && l.up[0].baseId != 0
    && l.up[0].frameId in l.sent && l.sent[l.up[0].frameId].image == pixels
  }

  /** The producer can afford to send the image once more. */
  predicate Afforded(l: System, pixels: Image) {
    && |pixels| == Size(l.p.setup.w, l.p.setup.h) <= l.p.setup.maxFrameBytes
    && (!l.p.setup.byteCreditsOn ==> |pixels| <= l.p.byteCredits)
  }

  /** The four exchanges of a recovery: the delta arrives on a lost base, the
      answer goes back, the image is sent again, the keyframe arrives; and what
      holds after them. */
  ghost predicate Stage(l: System, pixels: Image, k: nat) {
    match k
    case 0 =>
      && InFlight(l, pixels) && Afforded(l, pixels) && !HasPending(l.s)
      && l.s.surface.Some? && R.BaseLost(l.s.surface.value.core, l.up[0])
    case 1 =>
      && l.p.phase.Waiting? && l.p.phase.pixels == pixels && !l.p.phase.forced && Afforded(l, pixels)
      && l.up == [] && |l.down| == 1 && !HasPending(l.s)
      && l.down[0].frameId == l.p.phase.frameId
      && l.down[0].code == NeedKeyframeCode && l.down[0].reason == Receiver.Reason.BadBase
      && l.down[0].credits == l.p.setup.maxInflight
      && (l.p.setup.byteCreditsOn ==> l.down[0].byteCredits == l.p.setup.byteLimit)
    case 2 =>
      && l.p.phase.Settling? && l.p.phase.pixels == pixels && l.p.phase.prior == None
      && Afforded(l, pixels) && |pixels| <= l.p.byteCredits
      && l.p.needsKeyframe && l.p.pending == [] && l.p.credits > 0
    case 3 =>
      && l.p.phase.Waiting? && !HasPending(l.s)
      && |l.up| == 1 && l.up[0].baseId == 0
      && l.up[0].frameId in l.sent && l.sent[l.up[0].frameId].image == pixels
    case 4 => BaseLive(l.s) && l.s.surface.value.core.base == pixels
    case _ => false
  }

  /** The only frame without a result is where it is. */
  lemma Alone(l: System, codec: Semantic.Codec)
    requires Inv(l, codec)
    ensures |l.p.pending| == |l.up| + (if HasPending(l.s) then 1 else 0) + |l.down|
    ensures l.p.phase.Waiting? ==> |l.p.pending| == 1 && l.p.pending == [l.p.phase.frameId]
    ensures l.p.phase.Waiting? && l.up != [] ==> l.up[0].frameId == l.p.phase.frameId
  {
    hide FrameIds, R.ResultIds, Increasing, Recorded, Faithful, Ordered, Tracked, R.Sane, PanelFits, Agree, Size, Flow, AllHonest;
    Located(l, 0);
    if l.p.phase.Waiting? && l.up != [] {
      HeadIsPending(l);
    }
  }

  /** A local event changes nothing on the link while nothing is pending. */
  lemma LocalKeeps(l: System, codec: Semantic.Codec, e: R.Event, pixels: Image, k: nat)
    requires Inv(l, codec) && Stage(l, pixels, k) && Shaped(l.s) && PanelFits(l.s, l.panel)
    requires IsLocal(e) && R.Enabled(l.s, l.panel, e) && R.Handle(l.s, l.panel, codec, e).PanelDone?
    requires Reliable(l.panel) && CalmEvent(e, l.s.freezeOnPenDown)
    ensures Stage(Beside(l, R.Handle(l.s, l.panel, codec, e).value), pixels, k)
  {
    hide Inv, R.Handle, R.Enabled, R.Sane, PanelFits, Shaped, R.FrozenCore, R.ResultIds, R.AllTruthful, Size, Reliable;
    InvParts(l, codec);
    var m := R.Handle(l.s, l.panel, codec, e).value;
    R.HandleKept(l.s, l.panel, codec, e);
    HandleSteady(l.s, l.panel, codec, e);
    if !HasPending(l.s) {
      BesideResults(l, m);
      QuietStays(l.s, m);
    }
  }

  lemma QuietStays(s: State, m: Panelled)
    requires R.KeptHere(s, m) && !HasPending(s)
    ensures !HasPending(m.step.s)
  {
    hide R.ResultIds, R.AllTruthful, PanelFits, R.Sane, R.Kept, R.FrozenCore;
  }

  /** The delta arrives: it is refused for its base, with all credit returned. */
  lemma RefusedForBase(l: System, codec: Semantic.Codec, now: nat, pixels: Image)
    requires Inv(l, codec) && Stage(l, pixels, 0) && Shaped(l.s) && !Frozen(l.s) && ImageFits(l)
    ensures var r := AcceptFrame(l.s, codec, l.up[0], now); Stage(Delivered(l, r.s, r.results), pixels, 1)
  {
    hide Inv, AcceptFrame, Shaped, Semantic.Faultless, EarlyRejection, Size;
    Alone(l, codec);
    InvParts(l, codec);
    ArrivesFaultless(l, codec);
    R.BaseAsksKeyframe(l.s, codec, l.up[0], l.sent[l.up[0].frameId].regions, now);
    FullCredit(l, codec);
  }

  lemma FullCredit(l: System, codec: Semantic.Codec)
    requires Inv(l, codec) && !HasPending(l.s)
    ensures Credits(l.s) == l.p.setup.maxInflight > 0
    ensures l.p.setup.byteCreditsOn ==> ByteCredits(l.s) == l.p.setup.byteLimit
  {
    hide Counted, Recorded, Faithful, Ordered, AllHonest, Tracked, Prepared, Flow, R.Sane, PanelFits;
  }

  /** The answer makes the producer send the same image once more. */
  lemma AnswerTaken(l: System, codec: Semantic.Codec, pixels: Image)
    requires Inv(l, codec) && Stage(l, pixels, 1) && ImageFits(l)
    ensures P.Play(l.p, codec, P.Receive(l.down[0])).Some?
    ensures var t := Produced(l, codec, P.Receive(l.down[0])).value; Stage(t, pixels, 2) && t.p.setup == l.p.setup
  {
    hide Inv, Size;
    Alone(l, codec);
    FullCredit(l, codec);
  }

  /** It goes out as a keyframe, and as nothing else. */
  lemma SentWhole(l: System, codec: Semantic.Codec, regions: seq<Region>, content: Content, pixels: Image)
    requires Inv(l, codec) && Stage(l, pixels, 2)
    ensures l.p.setup.w > 0
    ensures P.Play(l.p, codec, P.Transmit(regions, content)).Some? <==> regions == P.Whole(l.p.setup, pixels)
    ensures regions == P.Whole(l.p.setup, pixels) ==>
              Stage(Produced(l, codec, P.Transmit(regions, content)).value, pixels, 3)
  {
    hide Inv, Size, Semantic.RawRegions;
    Alone(l, codec);
    InvParts(l, codec);
    assert l.p.setup.w > 0 by { PositiveSize(l, codec); }
    assert P.Cost(P.Whole(l.p.setup, pixels)) == |pixels| by { WholeCost(l.p.setup, pixels); }
    assert P.Forced(l.p);
    if regions == P.Whole(l.p.setup, pixels) {
      assert P.PixelsOk(l.p.setup, pixels, None) && P.Chosen(l.p, pixels, None, regions);
    }
  }

  lemma PositiveSize(l: System, codec: Semantic.Codec)
    requires Inv(l, codec)
    ensures l.p.setup.w > 0 && l.p.setup.h > 0
  {
    hide Counted, Recorded, Faithful, Ordered, AllHonest, Tracked, Prepared, Flow, R.Sane, PanelFits;
  }

  lemma WholeCost(q: P.Setup, pixels: Image)
    ensures P.Cost(P.Whole(q, pixels)) == |pixels|
  {
    var regions := P.Whole(q, pixels);
    assert regions[..0] == [];
    assert Semantic.TotalPixels(regions) == |pixels|;
  }

  /** Steps of the producer that a recovery does not take: giving the call up. */
  predicate Persistent(step: Link.Step) {
    step.Produce? ==> !step.act.GiveUp?
  }

  /** No stage is a dead end, and no call of the application comes between. */
  lemma StageNext(l: System, codec: Semantic.Codec, step: Link.Step, pixels: Image, k: nat)
    requires Inv(l, codec) && Shaped(l.s) && PanelFits(l.s, l.panel) && Stage(l, pixels, k) && k < 4
    requires Enabled(l, step) && Next(l, codec, step).Some? && Persistent(step)
    requires Reliable(l.panel) && CalmStep(step, l.s.freezeOnPenDown) && !Frozen(l.s) && ImageFits(l)
    ensures var t := Next(l, codec, step).value;
            && Stage(t, pixels, if step.Local? then k else k + 1)
            && t.p.setup == l.p.setup
  {
    hide Inv, Stage, P.Play, AcceptFrame, R.Handle, R.Enabled, Shaped, PanelFits, Reliable, Size;
    match step
    case Local(e) => LocalKeeps(l, codec, e, pixels, k);
    case Deliver(now) => DeliverNext(l, codec, now, pixels, k);
    case Produce(act) => ProduceNext(l, codec, act, pixels, k);
  }

  lemma DeliverNext(l: System, codec: Semantic.Codec, now: nat, pixels: Image, k: nat)
    requires Inv(l, codec) && Shaped(l.s) && Stage(l, pixels, k) && k < 4 && l.up != [] && !Frozen(l.s) && ImageFits(l)
    ensures var r := AcceptFrame(l.s, codec, l.up[0], now); Stage(Delivered(l, r.s, r.results), pixels, k + 1)
  {
    hide Inv, AcceptFrame, Shaped, Size;
    Alone(l, codec);
    if k == 0 {
      RefusedForBase(l, codec, now, pixels);
    } else if k == 3 {
      KeyframeTaken(l, codec, now);
    }
  }

  lemma ProduceNext(l: System, codec: Semantic.Codec, act: P.Act, pixels: Image, k: nat)
    requires Inv(l, codec) && Stage(l, pixels, k) && k < 4 && ImageFits(l)
    requires Enabled(l, Produce(act)) && Produced(l, codec, act).Some? && !act.GiveUp?
    ensures var t := Produced(l, codec, act).value; Stage(t, pixels, k + 1) && t.p.setup == l.p.setup
  {
    hide Inv, Size, P.ApplyResult, P.Chosen, P.PixelsOk, P.Cost;
    Alone(l, codec);
    if k == 1 {
      AnswerTaken(l, codec, pixels);
    } else if k == 2 && act.Transmit? {
      SentWhole(l, codec, act.regions, act.content, pixels);
    }
  }

  /** What to do next is always possible: deliver the frame, use the answer, or
      send the whole image. */
  ghost predicate Onwards(l: System, codec: Semantic.Codec, pixels: Image, k: nat) {
    match k
    case 0 | 3 => l.up != []
    case 1 => l.down != [] && P.Play(l.p, codec, P.Receive(l.down[0])).Some?
    case _ => l.p.setup.w > 0 && forall content :: P.Play(l.p, codec, P.Transmit(P.Whole(l.p.setup, pixels), content)).Some?
  }

  lemma NeverStuck(l: System, codec: Semantic.Codec, pixels: Image, k: nat)
    requires Inv(l, codec) && Stage(l, pixels, k) && k < 4 && ImageFits(l)
    ensures Onwards(l, codec, pixels, k)
  {
    hide Inv, P.Play, Size;
    if k == 1 {
      AnswerTaken(l, codec, pixels);
    } else if k == 2 {
      forall content ensures P.Play(l.p, codec, P.Transmit(P.Whole(l.p.setup, pixels), content)).Some? {
        SentWhole(l, codec, P.Whole(l.p.setup, pixels), content, pixels);
      }
      PositiveSize(l, codec);
    }
  }

  // ------------------------------------------------------------------- runs

  /** The steps that exchange something between the two sides. */
  function Exchanges(steps: seq<Link.Step>): nat {
    if steps == [] then 0 else (if steps[0].Local? then 0 else 1) + Exchanges(steps[1..])
  }

  lemma {:induction false} StagesPass(l: System, codec: Semantic.Codec, steps: seq<Link.Step>, pixels: Image, k: nat)
    requires Inv(l, codec) && Stage(l, pixels, k) && Execute(l, codec, steps).Some?
    requires Reliable(l.panel) && !Frozen(l.s) && ImageFits(l)
    requires forall j :: 0 <= j < |steps| ==> CalmStep(steps[j], l.s.freezeOnPenDown) && Persistent(steps[j])
    requires k + Exchanges(steps) <= 4
    ensures var t := Execute(l, codec, steps).value;
            Inv(t, codec) && Stage(t, pixels, k + Exchanges(steps)) && ImageFits(t)
    decreases |steps|
  {
    hide Inv, Next, Enabled, Stage, Reliable, Size;
    InvParts(l, codec);
    if steps != [] {
      NextInv(l, codec, steps[0]);
      StepCalm(l, codec, steps[0]);
      var t := Next(l, codec, steps[0]).value;
      if k < 4 {
        StageNext(l, codec, steps[0], pixels, k);
      } else {
        LocalLast(l, codec, steps[0], pixels);
      }
      assert forall j :: 0 <= j < |steps[1..]| ==> steps[1..][j] == steps[j + 1];
      StagesPass(t, codec, steps[1..], pixels, if steps[0].Local? then k else k + 1);
    }
  }

  lemma LocalLast(l: System, codec: Semantic.Codec, step: Link.Step, pixels: Image)
    requires Inv(l, codec) && Shaped(l.s) && PanelFits(l.s, l.panel) && Stage(l, pixels, 4) && step.Local?
    requires Enabled(l, step) && Next(l, codec, step).Some?
    requires Reliable(l.panel) && CalmStep(step, l.s.freezeOnPenDown)
    ensures var t := Next(l, codec, step).value; Stage(t, pixels, 4) && t.p == l.p
  {
    hide Inv, Stage, R.Handle, R.Enabled, Shaped, PanelFits, Reliable;
    LocalKeeps(l, codec, step.event, pixels, 4);
  }

  /** A lost base costs one round trip: on a panel that accepts every call and
      without a freeze, a synchronous delta that arrives on a lost base leads,
      whatever local events come between, to exactly four exchanges: its refusal,
      the answer, the whole image as a keyframe, and the acceptance of that. Then
      the image of the call is the base. None of the four can get stuck. */
  lemma LostBaseRecovers(l: System, codec: Semantic.Codec, steps: seq<Link.Step>, pixels: Image)
    requires Inv(l, codec) && InFlight(l, pixels) && R.BaseLost(l.s.surface.value.core, l.up[0])
    requires ImageFits(l) && Afforded(l, pixels)
    requires Reliable(l.panel) && !Frozen(l.s) && Execute(l, codec, steps).Some?
    requires forall j :: 0 <= j < |steps| ==> CalmStep(steps[j], l.s.freezeOnPenDown) && Persistent(steps[j])
    requires Exchanges(steps) <= 4
    ensures var t := Execute(l, codec, steps).value;
            && (Exchanges(steps) < 4 ==> Onwards(t, codec, pixels, Exchanges(steps)))
            && (Exchanges(steps) == 1 ==> |t.down| == 1 && t.down[0].code == NeedKeyframeCode)
            && (Exchanges(steps) == 3 ==> |t.up| == 1 && t.up[0].baseId == 0)
            && (Exchanges(steps) == 4 ==> BaseLive(t.s) && t.s.surface.value.core.base == pixels)
  {
    hide Inv, Execute, Onwards, Reliable, Size;
    Alone(l, codec);
    InvParts(l, codec);
    StagesPass(l, codec, steps, pixels, 0);
    if Exchanges(steps) < 4 {
      NeverStuck(Execute(l, codec, steps).value, codec, pixels, Exchanges(steps));
    }
  }

  /** Every synchronous delta sets out like that. */
  lemma TransmittedInFlight(l: System, codec: Semantic.Codec, regions: seq<Region>, content: Content)
    requires Inv(l, codec) && P.Play(l.p, codec, P.Transmit(regions, content)).Some? && !P.Forced(l.p)
    ensures InFlight(Produced(l, codec, P.Transmit(regions, content)).value, l.p.phase.pixels)
  {
    hide Counted, Recorded, Faithful, Ordered, AllHonest, Prepared, Flow, R.Sane, PanelFits, Agree, P.Chosen, P.PixelsOk,
         P.Cost, Semantic.RawRegions;
    EmptyWhenSettled(l, codec);
  }

  // --------------------------------------------------------------- refusals

  /** The producer has been told to start over, and prepares no delta. */
  predicate StartingOver(p: P.State) {
    p.needsKeyframe && !p.phase.Queueing?
  }

  /** A run of the producer and all frames it sends. */
  ghost function PlayAll(p: P.State, codec: Semantic.Codec, acts: seq<P.Act>): Option<P.Played>
    decreases |acts|
  {
    if acts == [] then Some(P.Played(p, []))
    else
      match P.Play(p, codec, acts[0])
      case None => None
      case Some(m) =>
        match PlayAll(m.p, codec, acts[1..])
        case None => None
        case Some(n) => Some(P.Played(n.p, m.frames + n.frames))
  }

  /** Any result but a clean one makes the producer start over, whatever it was
      about to do. */
  lemma RefusalStartsOver(p: P.State, codec: Semantic.Codec, r: FrameResult)
    requires P.Play(p, codec, P.Receive(r)).Some?
    requires r.code == RejectedCode || r.code == NeedKeyframeCode
    ensures StartingOver(P.Play(p, codec, P.Receive(r)).value.p)
  {
    hide P.Without, P.Blocked;
  }

  lemma StartsOver(p: P.State, codec: Semantic.Codec, act: P.Act)
    requires StartingOver(p) && P.Play(p, codec, act).Some?
    ensures var m := P.Play(p, codec, act).value;
            if m.frames == [] then StartingOver(m.p) else |m.frames| == 1 && m.frames[0].baseId == 0
  {
    hide P.Without, P.Blocked, P.Chosen, P.PixelsOk, P.Cost, Delta.IsDelta, Semantic.RawRegions;
  }

  /** After a refusal no delta goes out: whatever results and calls follow, the
      first frame that is sent is a keyframe. */
  lemma {:induction false} FirstFrameIsKeyframe(p: P.State, codec: Semantic.Codec, acts: seq<P.Act>)
    requires StartingOver(p) && PlayAll(p, codec, acts).Some?
    ensures var m := PlayAll(p, codec, acts).value;
            if m.frames == [] then StartingOver(m.p) else m.frames[0].baseId == 0
    decreases |acts|
  {
    hide P.Play, StartingOver;
    if acts != [] {
      StartsOver(p, codec, acts[0]);
      var m := P.Play(p, codec, acts[0]).value;
      if m.frames == [] {
        FirstFrameIsKeyframe(m.p, codec, acts[1..]);
      }
    }
  }

  /** How many frames the call under way may still send. */
  function Allowance(p: P.State): nat {
    match p.phase
    case Idle => 0
    case Queueing(_, _) => 1
    case Settling(_, _, _) => if p.needsKeyframe then 1 else 2
    case Waiting(_, _, forced, _) => if forced then 0 else 1
  }

  predicate Begins(act: P.Act) {
    act.BeginQueue? || act.BeginSend?
  }

  /** A call sends at most two frames, whatever it is answered: the second one is a
      keyframe, and no answer to that makes it send a third. */
  lemma {:induction false} CallIsBounded(p: P.State, codec: Semantic.Codec, acts: seq<P.Act>)
    requires PlayAll(p, codec, acts).Some? && forall k :: 0 <= k < |acts| ==> !Begins(acts[k])
    ensures var m := PlayAll(p, codec, acts).value;
            && |m.frames| + Allowance(m.p) <= Allowance(p)
            && (|m.frames| == 2 ==> m.frames[1].baseId == 0)
    decreases |acts|
  {
    hide P.Play, Allowance, Begins;
    if acts != [] {
      StepAllowed(p, codec, acts[0]);
      var m := P.Play(p, codec, acts[0]).value;
      assert forall k :: 0 <= k < |acts[1..]| ==> acts[1..][k] == acts[k + 1];
      CallIsBounded(m.p, codec, acts[1..]);
      assert Allowance(p) <= 2 by { AllowanceBound(p); }
      if |m.frames| == 1 && PlayAll(m.p, codec, acts[1..]).value.frames != [] {
        SecondIsKeyframe(p, codec, acts);
      }
    }
  }

  lemma AllowanceBound(p: P.State)
    ensures Allowance(p) <= 2
  {
  }

  lemma StepAllowed(p: P.State, codec: Semantic.Codec, act: P.Act)
    requires P.Play(p, codec, act).Some? && !Begins(act)
    ensures var m := P.Play(p, codec, act).value;
            && |m.frames| + Allowance(m.p) <= Allowance(p)
            && (m.frames != [] ==> |m.frames| == 1 && (m.p.phase.Idle? || m.p.phase.Waiting?))
  {
    hide P.Without, P.Blocked, P.Chosen, P.PixelsOk, P.Cost, Semantic.RawRegions;
  }

  /** A call whose frame finds the background frozen ends there: nothing is sent
      again, and the next call will have to start with a keyframe. */
  lemma FrozenEndsCall(p: P.State, codec: Semantic.Codec, r: FrameResult)
    requires p.phase.Waiting? && r.frameId == p.phase.frameId && r.reason == InkFrozen && r.code == RejectedCode
    requires P.Play(p, codec, P.Receive(r)).Some?
    ensures var m := P.Play(p, codec, P.Receive(r)).value;
            m.p.phase == P.Idle && m.frames == [] && StartingOver(m.p)
  {
    hide P.Without;
  }

  /** So does every other answer but a request for a keyframe to a delta. */
  lemma CallEnds(p: P.State, codec: Semantic.Codec, r: FrameResult)
    requires p.phase.Waiting? && r.frameId == p.phase.frameId && P.Play(p, codec, P.Receive(r)).Some?
    ensures var phase := P.Play(p, codec, P.Receive(r)).value.p.phase;
            phase == P.Idle <==> p.phase.forced || r.code != NeedKeyframeCode || r.reason == InkFrozen
    ensures var phase := P.Play(p, codec, P.Receive(r)).value.p.phase;
            phase != P.Idle ==> phase == P.Settling(p.phase.pixels, None, p.phase.intent)
  {
    hide P.Without;
  }

  /** After one frame of a call another one goes out only when the first was refused
      for its base. */
  lemma SecondIsKeyframe(p: P.State, codec: Semantic.Codec, acts: seq<P.Act>)
    requires acts != [] && P.Play(p, codec, acts[0]).Some? && |P.Play(p, codec, acts[0]).value.frames| == 1
    requires forall k :: 0 <= k < |acts| ==> !Begins(acts[k])
    requires PlayAll(P.Play(p, codec, acts[0]).value.p, codec, acts[1..]).Some?
    ensures var n := PlayAll(P.Play(p, codec, acts[0]).value.p, codec, acts[1..]).value;
            n.frames != [] ==> n.frames[0].baseId == 0
  {
    hide P.Play, Begins;
    StepAllowed(p, codec, acts[0]);
    assert forall k :: 0 <= k < |acts[1..]| ==> acts[1..][k] == acts[k + 1];
    LaterIsKeyframe(P.Play(p, codec, acts[0]).value.p, codec, acts[1..]);
  }

  lemma {:induction false} LaterIsKeyframe(p: P.State, codec: Semantic.Codec, acts: seq<P.Act>)
    requires p.phase.Idle? || p.phase.Waiting? || StartingOver(p)
    requires PlayAll(p, codec, acts).Some? && forall k :: 0 <= k < |acts| ==> !Begins(acts[k])
    ensures var m := PlayAll(p, codec, acts).value; m.frames != [] ==> m.frames[0].baseId == 0
    decreases |acts|
  {
    hide P.Play, Begins;
    if acts != [] {
      LaterStep(p, codec, acts[0]);
      var m := P.Play(p, codec, acts[0]).value;
      if m.frames == [] {
        assert forall k :: 0 <= k < |acts[1..]| ==> acts[1..][k] == acts[k + 1];
        LaterIsKeyframe(m.p, codec, acts[1..]);
      }
    }
  }

  lemma LaterStep(p: P.State, codec: Semantic.Codec, act: P.Act)
    requires p.phase.Idle? || p.phase.Waiting? || StartingOver(p)
    requires P.Play(p, codec, act).Some? && !Begins(act)
    ensures var m := P.Play(p, codec, act).value;
            && (m.frames != [] ==> m.frames[0].baseId == 0)
            && (m.frames == [] ==> m.p.phase.Idle? || m.p.phase.Waiting? || StartingOver(m.p))
  {
    hide P.Without, P.Blocked, P.Chosen, P.PixelsOk, P.Cost, Semantic.RawRegions;
  }

  // ------------------------------------------------------------ steady state

  /** A synchronous call sends the whole image as a keyframe if and only if the
      receiver holds nothing or asked for it; otherwise what changed since the
      latest frame, on the base that the receiver holds. */
  lemma SyncSendsDelta(l: System, codec: Semantic.Codec, regions: seq<Region>, content: Content)
    requires Inv(l, codec) && P.Play(l.p, codec, P.Transmit(regions, content)).Some?
    ensures |P.Play(l.p, codec, P.Transmit(regions, content)).value.frames| == 1
    ensures var f := P.Play(l.p, codec, P.Transmit(regions, content)).value.frames[0];
            var keyframe := l.p.needsKeyframe || l.p.receiverLogical == 0;
            && (f.baseId == 0 <==> keyframe)
            && (f.baseId != 0 ==> f.baseId == l.p.receiverLogical)
            && f.intent == Semantic.IntentOf(l.p.phase.intent)
            && f.regions == Semantic.RawRegions(codec, FormatGray8, regions)
            && (keyframe || l.p.phase.prior.None? ==> regions == [Region(Full(l.p.setup.w, l.p.setup.h), l.p.phase.pixels)])
            && (!keyframe && l.p.phase.prior.Some? ==>
                  && l.p.setup.w > 0 && |l.p.phase.prior.value| == |l.p.phase.pixels| == Size(l.p.setup.w, l.p.setup.h)
                  && |regions| <= Max(1, Min(l.p.setup.maxRegions, 64))
                  && ApplyAll(l.p.setup.w, l.p.setup.h, l.p.phase.prior.value, regions) == l.p.phase.pixels)
  {
    hide Counted, Recorded, Faithful, Ordered, AllHonest, Prepared, Flow, R.Sane, PanelFits, Agree, Semantic.RawRegions,
         ApplyAll, Delta.IsDelta, Size, P.Cost;
    var Settling(pixels, prior, intent) := l.p.phase;
    if !P.Forced(l.p) && prior.Some? {
      Delta.DeltaRoundTrip(l.p.setup.w, l.p.setup.h, prior.value, pixels, P.Limit(l.p.setup), regions);
      FewRegions(l.p.setup.w, l.p.setup.h, prior.value, pixels, P.Limit(l.p.setup), regions);
    }
  }

  lemma FewRegions(w: nat, h: nat, previous: Image, current: Image, limit: nat, regions: seq<Region>)
    requires w > 0 && |previous| == |current| == Size(w, h) && Delta.IsDelta(w, h, previous, current, limit, regions)
    ensures |regions| <= Max(1, limit)
  {
  }

  /** A prepared delta goes out as soon as fewer than two frames have no result and
      there is frame and byte credit for it, and not before. */
  lemma QueuedGoesOut(p: P.State, codec: Semantic.Codec, content: Content)
    requires p.phase.Queueing?
    ensures var bytes := Semantic.TotalPixels(p.phase.regions);
            P.Play(p, codec, P.SendQueued(content)).Some? <==> |p.pending| <= 1 && p.credits >= 1 && bytes <= p.byteCredits
    ensures P.Play(p, codec, P.SendQueued(content)).Some? ==>
              var m := P.Play(p, codec, P.SendQueued(content)).value;
              && |m.frames| == 1 && m.frames[0].baseId == p.logical && m.frames[0].frameId == p.nextId
              && m.p.pending == p.pending + [p.nextId] && m.p.logical == p.nextId && m.p.phase.Idle?
              && m.p.credits + 1 == p.credits && m.p.byteCredits + Semantic.TotalPixels(p.phase.regions) == p.byteCredits
  {
    hide Semantic.TotalPixels, Semantic.RawRegions;
  }
}
