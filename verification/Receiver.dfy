/** The receiver session as a value: the active surface, the credits, and what
    every message or local event does to them. Every frame gets exactly one
    result; the functions say which and when. */
module Receiver {
  import opened Geometry
  import opened Pixels
  import opened Raster
  import opened Regions
  import opened Tiles
  import opened Ink
  import opened Refresh
  import Core
  import Semantic

  datatype Code = PresentedCode | SupersededCode | RejectedCode | NeedKeyframeCode

  datatype Reason =
    | NoReason | WrongSurface | NoCredit | BadLength | BadCrc | BadBase | BadRegion | Unsupported
    | ProtocolState | BackendFailed | InkFrozen

  datatype FrameResult = FrameResult(
    surfaceId: nat,
    generation: nat,
    frameId: nat,
    code: Code,
    reason: Reason,
    credits: nat,
    logicalId: nat,
    presentedId: nat,
    byteCredits: nat)

  datatype Limits = Limits(
    maxFrameBytes: nat,
    maxRegions: nat,
    maxInflight: nat,
    maxFpsX100: nat,
    settledDeadline: nat,
    maxInflightBytes: nat)

  datatype Surface = Surface(
    surfaceId: nat,
    generation: nat,
    localInk: bool,
    inkFrozen: bool,
    inkPaused: bool,
    inkNeedsDown: bool,
    inkNotBefore: nat,
    penNeedsDown: bool,
    penPoint: Option<Point>,
    core: Core.State)

  datatype State = State(
    limits: Limits,
    policy: Config,
    inkWaveform: Waveform,
    encodings: set<Semantic.Encoding>,
    byteCreditsOn: bool,
    freezeOnPenDown: bool,
    automaticCleanup: bool,
    inputNotBefore: nat,
    nextGeneration: nat,
    overlaySequence: nat,
    cleanupCarried: bool,
    debtCarried: Debt,
    surface: Option<Surface>)

  ghost predicate SurfaceShaped(u: Surface) {
    && Core.Shaped(u.core)
    && (u.penPoint.Some? ==> OnPanel(u.core.w, u.core.h, u.penPoint.value))
  }

  ghost predicate Shaped(s: State) {
    s.surface.Some? ==> SurfaceShaped(s.surface.value)
  }

  /** The panel is as large as the surface it shows. */
  ghost predicate PanelFits(s: State, panel: Core.Panel) {
    s.surface.Some? ==> Core.PanelShaped(Size(s.surface.value.core.w, s.surface.value.core.h), panel)
  }

  function HasPending(s: State): bool {
    s.surface.Some? && s.surface.value.core.pending.Some?
  }

  function Credits(s: State): nat {
    SatSub(s.limits.maxInflight, if HasPending(s) then 1 else 0)
  }

  function ByteCredits(s: State): nat {
    if !s.byteCreditsOn then 0
    else SatSub(s.limits.maxInflightBytes, if HasPending(s) then s.surface.value.core.pending.value.decodedBytes else 0)
  }

  function LogicalId(s: State): nat {
    if s.surface.Some? then s.surface.value.core.logicalId else 0
  }

  function PresentedId(s: State): nat {
    if s.surface.Some? then s.surface.value.core.presentedId else 0
  }

  function Frozen(s: State): bool {
    s.surface.Some? && s.surface.value.inkFrozen
  }

  // ---------------------------------------------------------------- results

  function TerminalCode(t: Core.Terminal): Code {
    match t.outcome
    case Presented => PresentedCode
    case Superseded => SupersededCode
    case Cancelled => RejectedCode
    case BackendFailure => RejectedCode
  }

  function TerminalReason(s: State, t: Core.Terminal): Reason {
    match t.outcome
    case Presented => Reason.NoReason
    case Superseded => Reason.NoReason
    case Cancelled => if Frozen(s) then InkFrozen else ProtocolState
    case BackendFailure => BackendFailed
  }

  function TerminalResult(s: State, t: Core.Terminal): FrameResult {
    FrameResult(
      if s.surface.Some? then s.surface.value.surfaceId else 0,
      if s.surface.Some? then s.surface.value.generation else 0,
      t.frameId, TerminalCode(t), TerminalReason(s, t), Credits(s), LogicalId(s), PresentedId(s), ByteCredits(s))
  }

  function TerminalResults(s: State, terminals: seq<Core.Terminal>): (r: seq<FrameResult>)
    ensures |r| == |terminals|
    ensures forall k :: 0 <= k < |r| ==> r[k] == TerminalResult(s, terminals[k])
  {
    seq(|terminals|, k requires 0 <= k < |terminals| => TerminalResult(s, terminals[k]))
  }

  function ImmediateResult(s: State, f: Semantic.WireFrame, code: Code, reason: Reason): FrameResult {
    FrameResult(f.surfaceId, f.generation, f.frameId, code, reason, Credits(s), LogicalId(s), PresentedId(s),
                ByteCredits(s))
  }

  function SemanticReason(e: Semantic.SemanticError): (Code, Reason) {
    match e
    case BadBase => (NeedKeyframeCode, Reason.BadBase)
    case WrongSurface => (RejectedCode, Reason.WrongSurface)
    case BadDecodedLength => (RejectedCode, Reason.BadLength)
    case BadCrc => (RejectedCode, Reason.BadCrc)
    case Unsupported => (RejectedCode, Reason.Unsupported)
    case FrameTooLarge => (RejectedCode, Reason.BadLength)
    case BadFrameId => (RejectedCode, ProtocolState)
    case BadIntent => (RejectedCode, ProtocolState)
    case BadRegionCount => (RejectedCode, Reason.BadRegion)
    case BadRegion => (RejectedCode, Reason.BadRegion)
    case RegionOverlap => (RejectedCode, Reason.BadRegion)
    case BadKeyframe => (RejectedCode, Reason.BadRegion)
    case Decompression => (RejectedCode, Reason.BadRegion)
  }

  // ----------------------------------------------------------------- frames

  function DecodedCost(regions: seq<Semantic.WireRegion>): nat {
    if regions == [] then 0 else DecodedCost(regions[..|regions| - 1]) + regions[|regions| - 1].decodedLen
  }

  function SemanticSurface(s: State): Semantic.SurfaceState
    requires s.surface.Some?
  {
    var u := s.surface.value;
    Semantic.SurfaceState(u.surfaceId, u.generation, u.core.w, u.core.h, u.core.format, u.core.logicalId,
                          s.limits.maxRegions, s.limits.maxFrameBytes)
  }

  function WithCore(s: State, core: Core.State): State
    requires s.surface.Some?
  {
    s.(surface := Some(s.surface.value.(core := core)))
  }

  /** The checks made before the frame is validated. */
  function EarlyRejection(s: State, f: Semantic.WireFrame): Option<Reason> {
    if Frozen(s) then Some(InkFrozen)
    else if exists k :: 0 <= k < |f.regions| && f.regions[k].encoding !in s.encodings then Some(Reason.Unsupported)
    else if Credits(s) == 0 then Some(NoCredit)
    else if s.byteCreditsOn && DecodedCost(f.regions) > ByteCredits(s) then Some(NoCredit)
    else if s.surface.None? then Some(ProtocolState)
    else None
  }

  function KnownContent(content: Content): Content {
    if content == UnspecifiedContent then Mixed else content
  }

  datatype Step = Step(s: State, results: seq<FrameResult>)

  function CommitReason(e: Core.CoreError): (Code, Reason) {
    match e
    case NeedKeyframe => (NeedKeyframeCode, Reason.BadBase)
    case SettledBarrier => (RejectedCode, ProtocolState)
    case SurfaceFault(_) => (RejectedCode, Reason.BadRegion)
    case BadFrameId => (RejectedCode, Reason.BadRegion)
    case WrongFormat => (RejectedCode, Reason.BadRegion)
  }

  /** A validated frame goes to the core. */
  ghost function CommitFrame(s: State, f: Semantic.WireFrame, frame: Core.Frame, now: nat): Step
    requires s.surface.Some? && Core.Shaped(s.surface.value.core)
  {
    var (core, r) := Core.Commit(s.surface.value.core, frame, KnownContent(f.content), now);
    match r
    case Refused(e) =>
      var (code, reason) := CommitReason(e);
      Step(s, [ImmediateResult(s, f, code, reason)])
    case Committed(superseded) =>
      var t := WithCore(s, core);
      Step(t, if superseded.Some? then [TerminalResult(t, superseded.value)] else [])
  }

  /** One arriving frame: refused at once, or accepted and owed a result, with
      the result of the frame it supersedes. */
  ghost function AcceptFrame(s: State, codec: Semantic.Codec, f: Semantic.WireFrame, now: nat): Step
    requires Shaped(s)
  {
    var early := EarlyRejection(s, f);
    if early.Some? then Step(s, [ImmediateResult(s, f, RejectedCode, early.value)])
    else
      match Semantic.Validated(codec, f, SemanticSurface(s))
      case Err(e) =>
        var (code, reason) := SemanticReason(e);
        Step(s, [ImmediateResult(s, f, code, reason)])
      case Ok(frame) => CommitFrame(s, f, frame, now)
  }

  // ----------------------------------------------------------------- freeze

  function Rearmed(u: Surface, now: nat): Surface {
    u.(penPoint := None, inkNeedsDown := true, inkNotBefore := Max(u.inkNotBefore, now))
  }

  datatype Outcome = Done(step: Step) | Failed

  /** Freezing cancels the pending frame and falls back to the presented base;
      releasing only lifts the barrier. */
  function SetFrozen(s: State, frozen: bool, now: nat): Outcome {
    if s.surface.None? then Failed
    else
      var u := s.surface.value;
      if u.inkFrozen == frozen then Done(Step(s, []))
      else if frozen && u.core.presentedId == 0 then Failed
      else if frozen then
        var (core, terminals) := Core.Freeze(u.core);
        var t := s.(surface := Some(Rearmed(u, now).(inkFrozen := true, core := core)));
        Done(Step(t, TerminalResults(t, terminals)))
      else Done(Step(s.(surface := Some(Rearmed(u, now).(inkFrozen := false))), []))
  }

  /** Local drawing needs a pen; switching it keeps ink, pause and freeze. */
  function SetLocalInk(s: State, enabled: bool, penAvailable: bool, now: nat): Outcome {
    if (enabled && !penAvailable) || s.surface.None? then Failed
    else
      var u := s.surface.value;
      Done(Step(if u.localInk == enabled then s else s.(surface := Some(Rearmed(u, now).(localInk := enabled))), []))
  }

  function SetInkPaused(s: State, paused: bool, now: nat): Outcome {
    if s.surface.None? then Failed
    else
      var u := s.surface.value;
      Done(Step(if u.inkPaused == paused then s else s.(surface := Some(Rearmed(u, now).(inkPaused := paused))), []))
  }

  // ------------------------------------------------------- ticks, maintenance

  datatype Panelled = Panelled(step: Step, panel: Core.Panel)

  datatype PanelOutcome = PanelDone(value: Panelled) | PanelFailed

  function Carry(s: State): State {
    if s.surface.None? then s
    else s.(cleanupCarried := s.surface.value.core.forceCleanup,
            debtCarried := DebtOf(s.surface.value.core.policy))
  }

  ghost function Poll(s: State, panel: Core.Panel, now: nat, idle: bool): Panelled
    requires Shaped(s) && PanelFits(s, panel)
  {
    if s.surface.None? then Panelled(Step(s, []), panel)
    else
      var m := if s.automaticCleanup then Core.TickInteractive(s.surface.value.core, panel, now, idle)
               else Core.Tick(s.surface.value.core, panel, now, false);
      var t := Carry(WithCore(s, m.s));
      Panelled(Step(t, TerminalResults(t, m.terminals)), m.panel)
  }

  ghost function RequestCleanup(s: State, panel: Core.Panel, now: nat): Panelled
    requires Shaped(s) && PanelFits(s, panel)
  {
    if s.surface.None? then Panelled(Step(s.(cleanupCarried := true), []), panel)
    else
      var (m, report) := Core.RequestCleanup(s.surface.value.core, panel, now);
      var t := WithCore(s, m.s).(debtCarried := DebtOf(m.s.policy), cleanupCarried := report.pending);
      Panelled(Step(t, TerminalResults(t, m.terminals)), m.panel)
  }

  /** A profile that passed negotiation; an invalid one is an error. */
  ghost function SetProfile(s: State, panel: Core.Panel, config: Config, now: nat): PanelOutcome
    requires Shaped(s) && PanelFits(s, panel)
  {
    if s.surface.None? then
      PanelDone(Panelled(Step(s.(policy := config, cleanupCarried := s.cleanupCarried || config != s.policy), []), panel))
    else if Validate(config).Some? then PanelFailed
    else
      var (m, report) := Core.ChangeProfile(s.surface.value.core, panel, config, now);
      var t := WithCore(s, m.s).(policy := config, cleanupCarried := report.pending);
      PanelDone(Panelled(Step(t, TerminalResults(t, m.terminals)), m.panel))
  }

  function UpdateRefresh(s: State, config: Config): Outcome {
    if s.surface.None? then Done(Step(s.(policy := config), []))
    else
      var (core, e) := Core.UpdateConfig(s.surface.value.core, config);
      if e.Some? then Failed else Done(Step(WithCore(s, core).(policy := config), []))
  }

  // ------------------------------------------------------------ local planes

  /** Replaces planes and presents the result; a refused submission is an error. */
  ghost function PresentPlanes(s: State, panel: Core.Panel, core: Core.State, now: nat, intent: Intent): PanelOutcome
    requires s.surface.Some? && Core.Shaped(core) && Core.PanelShaped(Size(core.w, core.h), panel)
  {
    match Core.PresentPlane(core, panel, now, intent)
    case PlaneFault => PanelFailed
    case PlaneDone(m) =>
      var t := WithCore(s, m.s);
      PanelDone(Panelled(Step(t, TerminalResults(t, m.terminals)), m.panel))
  }

  /** The receiver menu drawn or removed. */
  ghost function RenderMenu(s: State, panel: Core.Panel, luma: seq<bv8>, alpha: seq<bv8>, now: nat): PanelOutcome
    requires Shaped(s) && PanelFits(s, panel)
    requires s.surface.Some? ==> |luma| == |alpha| == Size(s.surface.value.core.w, s.surface.value.core.h)
  {
    if s.surface.None? then PanelDone(Panelled(Step(s, []), panel))
    else
      var core := s.surface.value.core;
      var menu := Plane(luma, alpha, AllZero(alpha), core.menu.dirty);
      match PresentPlanes(s, panel, core.(menu := menu), now, Settled)
      case PanelFailed => PanelFailed
      case PanelDone(p) => PanelDone(p.(step := p.step.(s := Carry(p.step.s))))
  }

  ghost function ClearInk(s: State, panel: Core.Panel, now: nat): PanelOutcome
    requires Shaped(s) && PanelFits(s, panel)
  {
    if s.surface.None? then PanelFailed
    else
      var u := s.surface.value;
      PresentPlanes(s.(surface := Some(Rearmed(u, now))), panel, u.core.(ink := Cleared(u.core.ink)), now, Latest)
  }

  datatype OverlayUpdate = OverlayUpdate(
    surfaceId: nat,
    generation: nat,
    sequence: nat,
    clear: bool,
    rect: Option<Rect>,
    luma: seq<bv8>,
    alpha: seq<bv8>,
    localInk: Option<bool>)

  /** Whether a negotiated overlay command is acceptable for the surface. */
  predicate OverlayAcceptable(s: State, u: OverlayUpdate) {
    && u.sequence != 0
    && u.sequence > s.overlaySequence
    && s.surface.Some?
    && s.surface.value.surfaceId == u.surfaceId
    && s.surface.value.generation == u.generation
    && |u.luma| + |u.alpha| <= s.limits.maxFrameBytes
    && if u.rect.Some? then PatchOk(s.surface.value.core.w, s.surface.value.core.h, u.rect.value, u.luma, u.alpha)
       else u.luma == [] && u.alpha == [] && (u.clear || u.localInk.Some?)
  }

  function Sequenced(s: State, u: OverlayUpdate): State {
    s.(overlaySequence := Max(s.overlaySequence, u.sequence))
  }

  /** The surface with the edits of an acceptable command, not yet presented. */
  function OverlayEdited(v: Surface, u: OverlayUpdate, now: nat): Surface
    requires u.rect.Some? ==> PatchOk(v.core.w, v.core.h, u.rect.value, u.luma, u.alpha)
  {
    var armed := if u.clear || u.localInk.Some? then Rearmed(v, now) else v;
    var peer := if u.clear then Cleared(v.core.peer) else v.core.peer;
    var patched := if u.rect.Some? then Patched(v.core.w, v.core.h, peer, u.rect.value, u.luma, u.alpha) else peer;
    var off := u.localInk == Some(false);
    armed.(
      localInk := if u.localInk.Some? then u.localInk.value else v.localInk,
      inkFrozen := v.inkFrozen && !off,
      core := v.core.(peer := patched, ink := if u.clear || off then Cleared(v.core.ink) else v.core.ink))
  }

  ghost function UpdateOverlay(s: State, panel: Core.Panel, u: OverlayUpdate, now: nat): PanelOutcome
    requires Shaped(s) && PanelFits(s, panel)
  {
    var t := Sequenced(s, u);
    if !OverlayAcceptable(s, u) then PanelDone(Panelled(Step(t, []), panel))
    else
      var edited := OverlayEdited(s.surface.value, u, now);
      EditedShaped(s.surface.value, u, now);
      PresentPlanes(t.(surface := Some(edited)), panel, edited.core, now, Settled)
  }

  // -------------------------------------------------------------------- pen

  datatype PenPhase = Down | Move | Up | Cancel | Hover

  datatype PenRecord = PenRecord(phase: PenPhase, x: nat, y: nat, erase: bool)

  /** What the pen part of the surface takes from a report: nothing, when the pen is
      gone, unwanted, or hidden by the menu; otherwise its records. */
  datatype PenInput = Ignored | Inking(record: PenRecord)

  datatype Inked = Inked(u: Surface, terminals: seq<Core.Terminal>)

  const PEN_RADIUS: nat := 2
  const ERASER_RADIUS: nat := 12

  function Clamped(core: Core.State, r: PenRecord): Point
    requires core.w > 0 && core.h > 0
  {
    Point(Min(r.x, core.w - 1), Min(r.y, core.h - 1))
  }

  /** Records that do not reach the local plane at all. */
  predicate Gated(u: Surface, r: PenRecord, now: nat, physical: bool) {
    u.inkPaused || (physical && now < u.inkNotBefore) || (u.inkNeedsDown && (r.phase == Move || r.phase == Up))
  }

  /** Whether a contact has to start anew after a record of this phase. */
  function NeedsDown(phase: PenPhase, before: bool): bool {
    match phase
    case Down => false
    case Up | Cancel => true
    case _ => before
  }

  function Contact(u: Surface, r: PenRecord): Surface {
    u.(inkNeedsDown := NeedsDown(r.phase, u.inkNeedsDown))
  }

  predicate Freezes(u: Surface, r: PenRecord, freezeOnDown: bool) {
    u.localInk && freezeOnDown && r.phase == Down && !u.inkFrozen && u.core.presentedId != 0
  }

  /** The contact noted, and the background frozen at its start. */
  function Landed(u: Surface, r: PenRecord, freezeOnDown: bool): Inked {
    var a := Contact(u, r);
    if Freezes(a, r, freezeOnDown) then
      var (core, terminals) := Core.Freeze(a.core);
      Inked(a.(inkFrozen := true, core := core), terminals)
    else Inked(a, [])
  }

  predicate Draws(u: Surface, r: PenRecord) {
    u.localInk && u.core.presentedId != 0 && (r.phase == Down || r.phase == Move)
  }

  /** The stroke of one record, from the last point of the contact. */
  ghost function Drawn(u: Surface, r: PenRecord): Surface
    requires SurfaceShaped(u)
  {
    var point := Clamped(u.core, r);
    var from := if u.penPoint.Some? then u.penPoint.value else point;
    var ink := InkLine(u.core.w, u.core.h, u.core.ink, from, point, if r.erase then ERASER_RADIUS else PEN_RADIUS, r.erase);
    u.(penPoint := Some(point), core := u.core.(ink := ink))
  }

  /** One pen record on the local plane: gated, perhaps freezing, perhaps
      drawing. */
  ghost function InkRecord(u: Surface, r: PenRecord, now: nat, physical: bool, freezeOnDown: bool): Inked
    requires SurfaceShaped(u)
  {
    if Gated(u, r, now, physical) then Inked(u, [])
    else
      var t := Landed(u, r, freezeOnDown);
      FrozenShaped(u, t.u);
      Inked(if Draws(t.u, r) then Drawn(t.u, r) else t.u.(penPoint := None), t.terminals)
  }

  lemma FrozenShaped(u: Surface, b: Surface)
    requires SurfaceShaped(u) && b.penPoint == u.penPoint
    requires b.core == u.core || b.core == Core.Freeze(u.core).0
    ensures SurfaceShaped(b)
  {
    hide Size;
  }

  /** The pen contact as the producer sees it. */
  function Followed(u: Surface, r: PenRecord): Surface {
    u.(penNeedsDown := NeedsDown(r.phase, u.penNeedsDown))
  }

  /** One input: an ignored report rearms, and a record that continues no contact is
      dropped before it can reach the local plane. */
  ghost function PenStep(u: Surface, i: PenInput, now: nat, physical: bool, freezeOnDown: bool): Inked
    requires SurfaceShaped(u)
  {
    match i
    case Ignored => Inked(Rearmed(u, now).(penNeedsDown := true), [])
    case Inking(r) =>
      if u.penNeedsDown && (r.phase == Move || r.phase == Up) then Inked(u, [])
      else InkRecord(Followed(u, r), r, now, physical, freezeOnDown)
  }

  ghost function PenSteps(u: Surface, inputs: seq<PenInput>, now: nat, physical: bool, freezeOnDown: bool): Inked
    requires SurfaceShaped(u)
    decreases |inputs|
  {
    if inputs == [] then Inked(u, [])
    else
      PenStepShaped(u, inputs[0], now, physical, freezeOnDown);
      var first := PenStep(u, inputs[0], now, physical, freezeOnDown);
      var rest := PenSteps(first.u, inputs[1..], now, physical, freezeOnDown);
      Inked(rest.u, first.terminals + rest.terminals)
  }

  function Inkings(records: seq<PenRecord>): (r: seq<PenInput>)
    ensures |r| == |records| && forall k :: 0 <= k < |r| ==> r[k] == Inking(records[k])
  {
    seq(|records|, k requires 0 <= k < |records| => Inking(records[k]))
  }

  /** The inputs of a list of reports, in order. */
  function PenInputs(reports: seq<seq<PenRecord>>, heard: bool): seq<PenInput> {
    if reports == [] then []
    else PenInputs(reports[..|reports| - 1], heard) + if heard then Inkings(reports[|reports| - 1]) else [Ignored]
  }

  /** Reports of the pen: `listening` when there is a pen and no menu covers the
      surface, `forwarding` when the producer subscribed to it. */
  datatype PenReports = PenReports(reports: seq<seq<PenRecord>>, physical: bool, listening: bool, forwarding: bool)

  /** What reaches the surface: nothing physical from before it accepts input. */
  function Reaching(s: State, r: PenReports, now: nat): seq<PenInput>
    requires s.surface.Some?
  {
    if r.physical && now < s.inputNotBefore then []
    else PenInputs(r.reports, r.listening && (r.forwarding || s.surface.value.localInk))
  }

  /** All reports of one call, then one ink presentation. */
  ghost function PenReport(s: State, panel: Core.Panel, r: PenReports, now: nat): PanelOutcome
    requires Shaped(s) && PanelFits(s, panel)
  {
    if s.surface.None? then PanelDone(Panelled(Step(s, []), panel))
    else
      var inputs := Reaching(s, r, now);
      var inked := PenSteps(s.surface.value, inputs, now, r.physical, s.freezeOnPenDown);
      PenStepsShaped(s.surface.value, inputs, now, r.physical, s.freezeOnPenDown);
      var t := s.(surface := Some(inked.u));
      var early := TerminalResults(t, inked.terminals);
      if !inked.u.localInk then PanelDone(Panelled(Step(t, early), panel))
      else
        match PresentPlanes(t, panel, inked.u.core, now, Latest)
        case PanelFailed => PanelFailed
        case PanelDone(p) => PanelDone(p.(step := p.step.(results := early + p.step.results)))
  }

  // ---------------------------------------------------------------- surfaces

  datatype SurfaceOpen = SurfaceOpen(surfaceId: nat, format: Format)

  function NextGeneration(g: nat): nat {
    if g + 1 > U32_MAX then 1 else g + 1
  }

  function CarriedDebt(s: State): Debt {
    if s.surface.Some? then DebtOf(s.surface.value.core.policy) else s.debtCarried
  }

  function CarriedCleanup(s: State): bool {
    s.cleanupCarried || (s.surface.Some? && s.surface.value.core.forceCleanup)
  }

  /** The core of a new surface: blank, but with the carried debt. */
  function FreshCore(s: State, format: Format, w: nat, h: nat): Core.State {
    var debt := CarriedDebt(s);
    var core := Core.NewState(w, h, format, s.limits.maxFpsX100, s.limits.settledDeadline, s.policy);
    core.(inkWaveform := s.inkWaveform,
          forceCleanup := CarriedCleanup(s),
          policy := core.policy.(hasPresented := debt.hasPresented, presented := debt.partials))
  }

  /** The old surface leaves: its debt is remembered, its frame cancelled. */
  function TurnedOver(s: State): Step {
    var generation := Max(s.nextGeneration, 1);
    var carried := s.(nextGeneration := NextGeneration(generation), cleanupCarried := CarriedCleanup(s),
                      debtCarried := CarriedDebt(s));
    if s.surface.None? then Step(carried, [])
    else
      var (core, terminals) := Core.CancelPending(s.surface.value.core);
      var t := WithCore(carried, core);
      Step(t, TerminalResults(t, terminals))
  }

  /** Opens or replaces the surface. The debt and an armed cleanup move over;
      the frame pending on the old surface is cancelled. */
  function OpenSurface(s: State, open: SurfaceOpen, w: nat, h: nat, now: nat): Outcome {
    if open.surfaceId == 0 || w == 0 || h == 0 || Validate(s.policy).Some? || !DebtValid(CarriedDebt(s)) then Failed
    else
      var t := TurnedOver(s);
      var u := Surface(open.surfaceId, Max(s.nextGeneration, 1), false, false, false, true, s.inputNotBefore, true, None,
                       FreshCore(s, open.format, w, h));
      Done(Step(t.s.(inputNotBefore := now, surface := Some(u)), t.results))
  }

  function CloseSurface(s: State, surfaceId: nat, generation: nat): Step {
    if s.surface.None? || s.surface.value.surfaceId != surfaceId || s.surface.value.generation != generation then
      Step(s, [])
    else
      var (core, terminals) := Core.CancelPending(s.surface.value.core);
      var t := Carry(WithCore(s, core));
      Step(t.(surface := None), TerminalResults(t, terminals))
  }

  // -------------------------------------------------------- shapes are stable

  /** Only the core argument decides what a plane presentation does. */
  lemma PlanesCore(s: State, panel: Core.Panel, core: Core.State, now: nat, intent: Intent)
    requires s.surface.Some? && Core.Shaped(core) && Core.PanelShaped(Size(core.w, core.h), panel)
    ensures PresentPlanes(s, panel, core, now, intent) == PresentPlanes(WithCore(s, core), panel, core, now, intent)
  {
    hide Core.PresentPlane, Core.Shaped, Core.PanelShaped, Size;
  }

  lemma EditedShaped(v: Surface, u: OverlayUpdate, now: nat)
    requires SurfaceShaped(v)
    requires u.rect.Some? ==> PatchOk(v.core.w, v.core.h, u.rect.value, u.luma, u.alpha)
    ensures SurfaceShaped(OverlayEdited(v, u, now))
    ensures (OverlayEdited(v, u, now).core.w, OverlayEdited(v, u, now).core.h) == (v.core.w, v.core.h)
  {
    hide Size, Overwritten, InRect;
  }

  lemma FreezeShaped(core: Core.State)
    requires Core.Shaped(core)
    ensures Core.Shaped(Core.Freeze(core).0)
  {
    hide Size;
  }

  lemma StrokeShaped(core: Core.State, from: Point, to: Point, radius: nat, erase: bool)
    requires Core.Shaped(core) && OnPanel(core.w, core.h, from) && OnPanel(core.w, core.h, to)
    ensures Core.Shaped(core.(ink := InkLine(core.w, core.h, core.ink, from, to, radius, erase)))
  {
    hide Size, InkLine, ValidRect;
    InkLineDirty(core.w, core.h, core.ink, from, to, radius, erase);
  }

  lemma InkRecordShaped(u: Surface, r: PenRecord, now: nat, physical: bool, freezeOnDown: bool)
    requires SurfaceShaped(u)
    ensures var i := InkRecord(u, r, now, physical, freezeOnDown);
            SurfaceShaped(i.u) && (i.u.core.w, i.u.core.h) == (u.core.w, u.core.h)
  {
    hide Size, InkLine, Core.Shaped;
    CoreSized(u.core);
    var point := Clamped(u.core, r);
    var from := if u.penPoint.Some? then u.penPoint.value else point;
    var radius := if r.erase then ERASER_RADIUS else PEN_RADIUS;
    FreezeShaped(u.core);
    var frozen := Core.Freeze(u.core).0;
    StrokeShaped(u.core, from, point, radius, r.erase);
    StrokeShaped(frozen, from, point, radius, r.erase);
  }

  lemma CoreSized(core: Core.State)
    requires Core.Shaped(core)
    ensures core.w > 0 && core.h > 0
  {
  }

  lemma PenStepShaped(u: Surface, i: PenInput, now: nat, physical: bool, freezeOnDown: bool)
    requires SurfaceShaped(u)
    ensures var t := PenStep(u, i, now, physical, freezeOnDown).u;
            SurfaceShaped(t) && (t.core.w, t.core.h) == (u.core.w, u.core.h)
  {
    hide InkRecord, Core.Shaped, OnPanel;
    if i.Inking? { InkRecordShaped(Followed(u, i.record), i.record, now, physical, freezeOnDown); }
  }

  lemma {:induction false} PenStepsShaped(u: Surface, inputs: seq<PenInput>, now: nat, physical: bool, freezeOnDown: bool)
    requires SurfaceShaped(u)
    ensures var i := PenSteps(u, inputs, now, physical, freezeOnDown);
            SurfaceShaped(i.u) && (i.u.core.w, i.u.core.h) == (u.core.w, u.core.h)
    decreases |inputs|
  {
    hide SurfaceShaped, PenStep;
    if inputs != [] {
      PenStepShaped(u, inputs[0], now, physical, freezeOnDown);
      PenStepsShaped(PenStep(u, inputs[0], now, physical, freezeOnDown).u, inputs[1..], now, physical, freezeOnDown);
    }
  }
}
