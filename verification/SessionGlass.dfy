/** The glass and the waveform debt over whole sessions, surface replacement
    included: the theorems of the core hold on every surface of a session. */
module SessionGlass {
  import opened Geometry
  import opened Pixels
  import opened Raster
  import opened Regions
  import opened Tiles
  import opened Ink
  import opened Refresh
  import opened Receiver
  import opened Reliability
  import opened SessionReliability
  import Core
  import C = Composition
  import P = PanelSafety
  import D = PlaneDebt
  import F = Findings
  import G = Glass
  import R = Results
  import Semantic

  // ---------------------------------------------------------------- the core

  /** The glass is what the core believes; with `debt`, every ghosting pixel is
      remembered too, under a quality settled and the fastest ink waveform. */
  ghost predicate CoreHeld(core: Core.State, p: Core.Panel, debt: bool) {
    && P.GlassTrue(core, p)
    && (debt ==>
          && core.w > 0
          && P.DebtKnown(core, p)
          && core.policy.config.settled == Quality
          && core.inkWaveform == Fastest)
  }

  lemma TickHeld(core: Core.State, panel: Core.Panel, now: nat, ignoreDeadline: bool, debt: bool)
    requires C.Sound(core) && Core.PanelShaped(Size(core.w, core.h), panel) && CoreHeld(core, panel, debt)
    ensures Core.Shaped(core)
    ensures var m := Core.Tick(core, panel, now, ignoreDeadline); CoreHeld(m.s, m.panel, debt)
  {
    hide C.Sound, Core.Tick, P.GlassTrue, P.DebtKnown, Size, Core.PanelShaped;
    C.SoundShaped(core);
    P.TickGlass(core, panel, now, ignoreDeadline);
    Core.TickShaped(core, panel, now, ignoreDeadline);
    C.TickFrame(core, panel, now, ignoreDeadline);
    if debt { P.TickDebt(core, panel, now, ignoreDeadline); }
  }

  lemma CleanupHeld(core: Core.State, panel: Core.Panel, now: nat, debt: bool)
    requires C.Sound(core) && Core.PanelShaped(Size(core.w, core.h), panel) && CoreHeld(core, panel, debt)
    ensures Core.Shaped(core)
    ensures var m := Core.RequestCleanup(core, panel, now).0; CoreHeld(m.s, m.panel, debt)
  {
    hide C.Sound, Core.RequestCleanup, P.GlassTrue, P.DebtKnown, Size, Core.PanelShaped;
    C.SoundShaped(core);
    G.CleanupGlass(core, panel, now);
    G.CleanupKeepsInk(core, panel, now);
    if debt { G.CleanupDebt(core, panel, now); }
  }

  lemma InteractiveHeld(core: Core.State, panel: Core.Panel, now: nat, idle: bool, debt: bool)
    requires C.Sound(core) && Core.PanelShaped(Size(core.w, core.h), panel) && CoreHeld(core, panel, debt)
    ensures Core.Shaped(core)
    ensures var m := Core.TickInteractive(core, panel, now, idle); CoreHeld(m.s, m.panel, debt)
  {
    hide C.Sound, Core.RequestCleanup, Core.Tick, Size, Core.PanelShaped, Core.AdaptiveDue;
    CleanupHeld(core, panel, now, debt);
    TickHeld(core, panel, now, false, debt);
  }

  lemma ProfileHeld(core: Core.State, panel: Core.Panel, config: Config, now: nat, debt: bool)
    requires C.Sound(core) && Core.PanelShaped(Size(core.w, core.h), panel) && CoreHeld(core, panel, debt)
    requires Validate(config).None? && (debt ==> config.settled == Quality)
    ensures Core.Shaped(core)
    ensures var m := Core.ChangeProfile(core, panel, config, now).0; CoreHeld(m.s, m.panel, debt)
  {
    hide C.Sound, Core.RequestCleanup, Size, Core.PanelShaped;
    var next := Core.UpdateConfig(core, config).0;
    C.SoundShaped(core);
    C.ConfigSound(core, config);
    C.SoundShaped(next);
    CleanupHeld(next, panel, now, debt);
  }

  /** Planes are presented while the panel is trusted: ink with the debt, overlays
      without it. */
  lemma PlaneHeld(core: Core.State, panel: Core.Panel, now: nat, intent: Intent, debt: bool)
    requires C.Sound(core) && Core.PanelShaped(Size(core.w, core.h), panel) && CoreHeld(core, panel, debt)
    requires Certain(core) && Reliable(panel) && (debt ==> intent == Latest)
    ensures Core.Shaped(core)
    ensures var r := Core.PresentPlane(core, panel, now, intent); r.PlaneDone? && CoreHeld(r.moved.s, r.moved.panel, debt)
  {
    hide C.Sound, Core.PresentPlane, P.GlassTrue, P.DebtKnown, Size, Core.PanelShaped, Reliable;
    C.SoundShaped(core);
    PlaneReliable(core, panel, now, intent);
    G.PlaneGlass(core, panel, now, intent);
    G.PlaneKeepsInk(core, panel, now, intent);
    if debt { G.InkDebt(core, panel, now); }
  }

  // ------------------------------------------------------------- the session

  ghost predicate Held(s: State, p: Core.Panel, debt: bool) {
    && (debt ==> s.policy.settled == Quality && s.inkWaveform == Fastest)
    && (s.surface.Some? ==> CoreHeld(s.surface.value.core, p, debt))
  }

  /** Events that present a local plane. */
  predicate PlaneEvent(e: R.Event) {
    e.MenuEvent? || e.OverlayEvent? || e.PenEvent?
  }

  /** Events under which the debt stays known: no overlay, no other waveform. */
  predicate DebtEvent(e: R.Event) {
    && !e.MenuEvent? && !e.OverlayEvent?
    && (e.ProfileEvent? || e.RefreshEvent? ==> e.config.settled == Quality)
  }

  lemma FrameHeld(s: State, panel: Core.Panel, codec: Semantic.Codec, f: Semantic.WireFrame, now: nat, debt: bool)
    requires Shaped(s) && Held(s, panel, debt)
    ensures Held(AcceptFrame(s, codec, f, now).s, panel, debt)
  {
    hide Core.Shaped, Semantic.Validated, ImmediateResult, CommitFrame, SemanticReason, CoreHeld;
    if EarlyRejection(s, f).None? && Semantic.Validated(codec, f, SemanticSurface(s)).Ok? {
      CommitHeld(s, panel, f, Semantic.Validated(codec, f, SemanticSurface(s)).value, now, debt);
    }
  }

  lemma CommitHeld(s: State, panel: Core.Panel, f: Semantic.WireFrame, frame: Core.Frame, now: nat, debt: bool)
    requires s.surface.Some? && Core.Shaped(s.surface.value.core) && Held(s, panel, debt)
    ensures Held(CommitFrame(s, f, frame, now).s, panel, debt)
  {
    hide Core.Shaped, ImmediateResult, TerminalResult, Core.Commit, CommitReason, CoreHeld;
    CoreCommitHeld(s.surface.value.core, panel, frame, KnownContent(f.content), now, debt);
  }

  lemma CoreCommitHeld(core: Core.State, panel: Core.Panel, frame: Core.Frame, content: Content, now: nat, debt: bool)
    requires Core.Shaped(core) && CoreHeld(core, panel, debt)
    ensures CoreHeld(Core.Commit(core, frame, content, now).0, panel, debt)
  {
    hide Core.Shaped, ApplyAll, Core.CommitCheck, Covered;
  }

  lemma PollHeld(s: State, panel: Core.Panel, now: nat, idle: bool, debt: bool)
    requires R.Sane(s) && Shaped(s) && PanelFits(s, panel) && Held(s, panel, debt)
    ensures var p := Poll(s, panel, now, idle); Held(p.step.s, p.panel, debt)
    ensures var p := RequestCleanup(s, panel, now); Held(p.step.s, p.panel, debt)
  {
    hide R.Sane, Core.Shaped, Core.Tick, Core.TickInteractive, Core.RequestCleanup, Core.PanelShaped, Size, TerminalResult,
         C.Sound, CoreHeld, DebtOf;
    R.SaneParts(s);
    if s.surface.Some? {
      var core := s.surface.value.core;
      InteractiveHeld(core, panel, now, idle, debt);
      TickHeld(core, panel, now, false, debt);
      CleanupHeld(core, panel, now, debt);
    }
  }

  lemma PolicyHeld(s: State, panel: Core.Panel, config: Config, now: nat, debt: bool)
    requires R.Sane(s) && Shaped(s) && PanelFits(s, panel) && Held(s, panel, debt)
    requires Validate(config).None? && (debt ==> config.settled == Quality)
    ensures var r := SetProfile(s, panel, config, now); r.PanelDone? ==> Held(r.value.step.s, r.value.panel, debt)
    ensures var r := UpdateRefresh(s, config); r.Done? ==> Held(r.step.s, panel, debt)
  {
    hide R.Sane, Core.Shaped, Core.ChangeProfile, Core.PanelShaped, Size, TerminalResult, C.Sound, Validate, Covered;
    R.SaneParts(s);
    if s.surface.Some? {
      ProfileHeld(s.surface.value.core, panel, config, now, debt);
    }
  }

  /** Edited planes, presented while the panel is trusted. */
  lemma PlanesHeld(s: State, panel: Core.Panel, core: Core.State, now: nat, intent: Intent, debt: bool)
    requires s.surface.Some? && C.Sound(core) && Core.Shaped(core) && Core.PanelShaped(Size(core.w, core.h), panel)
    requires CoreHeld(core, panel, debt) && Certain(core) && Reliable(panel) && (debt ==> intent == Latest)
    requires debt ==> s.policy.settled == Quality && s.inkWaveform == Fastest
    ensures var r := PresentPlanes(s, panel, core, now, intent);
            r.PanelDone? && Held(r.value.step.s, r.value.panel, debt)
  {
    hide C.Sound, Core.Shaped, Core.PresentPlane, Core.PanelShaped, Size, TerminalResult, Reliable, CoreHeld;
    PlaneHeld(core, panel, now, intent, debt);
  }

  lemma MenuHeld(s: State, panel: Core.Panel, luma: seq<bv8>, alpha: seq<bv8>, now: nat)
    requires R.Sane(s) && Shaped(s) && PanelFits(s, panel) && Held(s, panel, false) && Trusty(s) && Reliable(panel)
    requires s.surface.Some? ==> |luma| == |alpha| == Size(s.surface.value.core.w, s.surface.value.core.h)
    ensures var r := RenderMenu(s, panel, luma, alpha, now); r.PanelDone? ==> Held(r.value.step.s, r.value.panel, false)
  {
    hide R.Sane, C.Sound, Core.Shaped, PresentPlanes, Core.PanelShaped, Size, PlaneOk, Reliable, DebtOf;
    R.SaneParts(s);
    if s.surface.Some? {
      var core := s.surface.value.core;
      var menu := Plane(luma, alpha, AllZero(alpha), core.menu.dirty);
      R.CorePlanes(core);
      R.MenuPlaneOk(core.w, core.h, luma, alpha, core.menu);
      R.ReplacedSound(core, menu, core.peer, core.ink);
      var edited := core.(menu := menu);
      assert edited == core.(menu := menu, peer := core.peer, ink := core.ink);
      C.SoundShaped(edited);
      PlanesHeld(s, panel, edited, now, Settled, false);
    }
  }

  lemma OverlayHeld(s: State, panel: Core.Panel, u: OverlayUpdate, now: nat)
    requires R.Sane(s) && Shaped(s) && PanelFits(s, panel) && Held(s, panel, false) && Trusty(s) && Reliable(panel)
    ensures var r := UpdateOverlay(s, panel, u, now); r.PanelDone? ==> Held(r.value.step.s, r.value.panel, false)
  {
    hide R.Sane, C.Sound, Core.Shaped, PresentPlanes, Core.PanelShaped, Size, PatchOk, R.FrozenCore, Patched, Cleared, Reliable;
    if OverlayAcceptable(s, u) {
      R.SaneParts(s);
      var v := s.surface.value;
      R.OverlaySane(v, u, now);
      var edited := OverlayEdited(v, u, now);
      C.SoundShaped(edited.core);
      PlanesHeld(Sequenced(s, u).(surface := Some(edited)), panel, edited.core, now, Settled, false);
    }
  }

  /** Clearing ink presents nothing of its own, so it needs no trust. */
  lemma ClearInkHeld(s: State, panel: Core.Panel, now: nat, debt: bool)
    requires R.Sane(s) && Shaped(s) && PanelFits(s, panel) && Held(s, panel, debt)
    ensures var r := ClearInk(s, panel, now); r.PanelDone? ==> Held(r.value.step.s, r.value.panel, debt)
  {
    hide R.Sane, C.Sound, Core.Shaped, Core.PresentPlane, Core.Tick, Core.PanelShaped, Size, TerminalResult, Cleared, Covered;
    R.SaneParts(s);
    if s.surface.Some? {
      var core := s.surface.value.core;
      F.ClearedSound(core);
      F.ClearedInkIsNotRepainted(core, panel, now);
      TickHeld(F.InkCleared(core), panel, now, true, debt);
    }
  }

  /** Pen records leave alone what the glass depends on. */
  predicate SameGlass(a: Core.State, b: Core.State) {
    && (a.w, a.h) == (b.w, b.h) && a.presented == b.presented && a.presentedId == b.presentedId
    && a.uncertain == b.uncertain && a.settle == b.settle && a.policy == b.policy && a.inkWaveform == b.inkWaveform
  }

  lemma RecordSameGlass(u: Surface, r: PenRecord, now: nat, physical: bool, freezeOnDown: bool)
    requires SurfaceShaped(u)
    ensures SameGlass(u.core, InkRecord(u, r, now, physical, freezeOnDown).u.core)
  {
    hide SurfaceShaped, Gated, Landed, Drawn, Draws, SameGlass;
    SameGlassChain(u.core, u.core, u.core);
    var t := Landed(u, r, freezeOnDown);
    LandedSameGlass(u, r, freezeOnDown);
    LandedCore(u, r, freezeOnDown);
    FrozenShaped(u, t.u);
    DrawnSameGlass(t.u, r);
    SameGlassChain(u.core, t.u.core, Drawn(t.u, r).core);
  }

  lemma SameGlassChain(a: Core.State, b: Core.State, c: Core.State)
    ensures SameGlass(a, a)
    ensures SameGlass(a, b) && SameGlass(b, c) ==> SameGlass(a, c)
  {
  }

  lemma LandedCore(u: Surface, r: PenRecord, freezeOnDown: bool)
    ensures var t := Landed(u, r, freezeOnDown).u;
            t.penPoint == u.penPoint && (t.core == u.core || t.core == Core.Freeze(u.core).0)
  {
    hide Core.Freeze, NeedsDown;
  }

  lemma LandedSameGlass(u: Surface, r: PenRecord, freezeOnDown: bool)
    ensures SameGlass(u.core, Landed(u, r, freezeOnDown).u.core)
  {
    hide NeedsDown;
  }

  lemma DrawnSameGlass(u: Surface, r: PenRecord)
    requires SurfaceShaped(u)
    ensures SameGlass(u.core, Drawn(u, r).core)
  {
    hide Core.Shaped, OnPanel, InkLine, Clamped;
  }

  lemma StepSameGlass(u: Surface, i: PenInput, now: nat, physical: bool, freezeOnDown: bool)
    requires SurfaceShaped(u)
    ensures SameGlass(u.core, PenStep(u, i, now, physical, freezeOnDown).u.core)
  {
    hide Core.Shaped, InkRecord, OnPanel;
    if i.Inking? { RecordSameGlass(Followed(u, i.record), i.record, now, physical, freezeOnDown); }
  }

  lemma {:induction false} StepsSameGlass(u: Surface, inputs: seq<PenInput>, now: nat, physical: bool, freezeOnDown: bool)
    requires SurfaceShaped(u)
    ensures SameGlass(u.core, PenSteps(u, inputs, now, physical, freezeOnDown).u.core)
    decreases |inputs|
  {
    hide SurfaceShaped, PenStep;
    if inputs != [] {
      StepSameGlass(u, inputs[0], now, physical, freezeOnDown);
      PenStepShaped(u, inputs[0], now, physical, freezeOnDown);
      StepsSameGlass(PenStep(u, inputs[0], now, physical, freezeOnDown).u, inputs[1..], now, physical, freezeOnDown);
    }
  }

  lemma SameHeld(a: Core.State, b: Core.State, p: Core.Panel, debt: bool)
    requires SameGlass(a, b) && CoreHeld(a, p, debt)
    ensures CoreHeld(b, p, debt) && (Certain(a) ==> Certain(b))
  {
    hide Covered;
  }

  lemma PenHeld(s: State, panel: Core.Panel, pen: PenReports, now: nat, debt: bool)
    requires R.Sane(s) && Shaped(s) && PanelFits(s, panel) && Held(s, panel, debt) && Trusty(s) && Reliable(panel)
    ensures var r := PenReport(s, panel, pen, now); r.PanelDone? ==> Held(r.value.step.s, r.value.panel, debt)
  {
    hide R.Sane, C.Sound, Core.Shaped, PresentPlanes, Core.PanelShaped, Size, PenSteps, OnPanel, TerminalResult, Reliable,
         CoreHeld, Certain, SameGlass, Reaching;
    R.SaneParts(s);
    if s.surface.Some? {
      var u, inputs := s.surface.value, Reaching(s, pen, now);
      PenStepsShaped(u, inputs, now, pen.physical, s.freezeOnPenDown);
      StepsSameGlass(u, inputs, now, pen.physical, s.freezeOnPenDown);
      var inked := PenSteps(u, inputs, now, pen.physical, s.freezeOnPenDown);
      assert C.Sound(inked.u.core) by { R.PenStepsKept(u, inputs, now, pen.physical, s.freezeOnPenDown); }
      SameHeld(u.core, inked.u.core, panel, debt);
      PlanesHeld(s.(surface := Some(inked.u)), panel, inked.u.core, now, Latest, debt);
    }
  }

  lemma FreezeHeld(s: State, panel: Core.Panel, frozen: bool, now: nat, debt: bool)
    requires Held(s, panel, debt)
    ensures var r := SetFrozen(s, frozen, now); r.Done? ==> Held(r.step.s, panel, debt)
  {
    hide Covered, TerminalResult;
  }

  lemma OpenHeld(s: State, panel: Core.Panel, open: SurfaceOpen, w: nat, h: nat, now: nat, debt: bool)
    requires Held(s, panel, debt)
    ensures var r := OpenSurface(s, open, w, h, now); r.Done? ==> Held(r.step.s, panel, debt)
  {
    hide TerminalResult, Size, DebtValid, Validate, CarriedDebt;
  }

  lemma HandleHeld(s: State, panel: Core.Panel, codec: Semantic.Codec, e: R.Event, debt: bool)
    requires R.Sane(s) && Shaped(s) && PanelFits(s, panel) && R.Enabled(s, panel, e) && R.Handle(s, panel, codec, e).PanelDone?
    requires Held(s, panel, debt) && (debt ==> DebtEvent(e)) && (PlaneEvent(e) ==> Trusty(s) && Reliable(panel))
    ensures var p := R.Handle(s, panel, codec, e).value; Held(p.step.s, p.panel, debt)
  {
    hide AcceptFrame, Poll, RequestCleanup, SetProfile, UpdateRefresh, RenderMenu, ClearInk, UpdateOverlay, SetFrozen,
         PenReport, OpenSurface, R.Sane, PanelFits, Core.PanelShaped, Size, Shaped, TerminalResult, Reliable, CoreHeld, Trusty;
    match e
    case FrameEvent(frame, now) => FrameHeld(s, panel, codec, frame, now, debt);
    case PollEvent(now, idle) => PollHeld(s, panel, now, idle, debt);
    case FreezeEvent(frozen, now) => FreezeHeld(s, panel, frozen, now, debt);
    case CleanupEvent(now) => PollHeld(s, panel, now, false, debt);
    case ProfileEvent(config, now) => PolicyHeld(s, panel, config, now, debt);
    case RefreshEvent(config) => PolicyHeld(s, panel, config, 0, debt);
    case MenuEvent(luma, alpha, now) => if !debt { MenuHeld(s, panel, luma, alpha, now); }
    case OverlayEvent(update, now) => if !debt { OverlayHeld(s, panel, update, now); }
    case PenEvent(pen, now) => PenHeld(s, panel, pen, now, debt);
    case OpenEvent(open, w, h, now) => OpenHeld(s, panel, open, w, h, now, debt);
    case ClearInkEvent(now) => ClearInkHeld(s, panel, now, debt);
    case LocalInkEvent(enabled, penAvailable, now) =>
    case PauseInkEvent(paused, now) =>
    case CloseEvent(surfaceId, generation) =>
  }

  // ------------------------------------------------------------------- turns

  /** One event, with the answers of the panel to its calls. */
  datatype Turn = Turn(event: R.Event, answers: seq<Core.Answer>)

  /** Some result says that its frame was presented. */
  predicate PresentsResult(results: seq<FrameResult>) {
    exists k :: 0 <= k < |results| && results[k].code == PresentedCode
  }

  /** Trust ends with a failure, and returns with a cleanup that succeeds, a frame
      that is reported as presented, or another surface. */
  function TrustAfter(trust: bool, t: Turn, results: seq<FrameResult>): bool {
    G.AllAccept(t.answers) && (trust || t.event.CleanupEvent? || t.event.OpenEvent? || PresentsResult(results))
  }

  function TrustAtEnd(trust: bool, turns: seq<Turn>, results: seq<seq<FrameResult>>): bool
    requires |turns| == |results|
    decreases |turns|
  {
    if turns == [] then trust else TrustAtEnd(TrustAfter(trust, turns[0], results[0]), turns[1..], results[1..])
  }

  /** Local planes are presented only while the panel is trusted and accepts, as far
      as its answers and the results of the frames tell. */
  predicate Scheduled(trust: bool, turns: seq<Turn>, results: seq<seq<FrameResult>>)
    requires |turns| == |results|
    decreases |turns|
  {
    turns == [] ||
    (&& (PlaneEvent(turns[0].event) ==> trust && G.AllAccept(turns[0].answers))
     && Scheduled(TrustAfter(trust, turns[0], results[0]), turns[1..], results[1..]))
  }

  function Asked(panel: Core.Panel, t: Turn): Core.Panel {
    panel.(script := t.answers)
  }

  datatype Attended = Attended(s: State, panel: Core.Panel, results: seq<seq<FrameResult>>)

  /** A whole session run of turns; `None` once an event failed. */
  ghost function Attend(s: State, panel: Core.Panel, codec: Semantic.Codec, turns: seq<Turn>): (r: Option<Attended>)
    requires R.Sane(s) && PanelFits(s, panel)
    ensures r.Some? ==> |r.value.results| == |turns|
    decreases |turns|
  {
    if turns == [] then Some(Attended(s, panel, []))
    else
      var p := Asked(panel, turns[0]);
      if !PanelFits(s, p) || !R.Enabled(s, p, turns[0].event) then None
      else
        match R.Handle(s, p, codec, turns[0].event)
        case PanelFailed => None
        case PanelDone(r) =>
          R.HandleKept(s, p, codec, turns[0].event);
          match Attend(r.step.s, r.panel, codec, turns[1..])
          case None => None
          case Some(rest) => Some(Attended(rest.s, rest.panel, [r.step.results] + rest.results))
  }

  // ---------------------------------------------------- presented is certain

  lemma PresentedTerminals(s: State, terminals: seq<Core.Terminal>)
    ensures PresentsResult(TerminalResults(s, terminals)) ==> Presents(terminals)
  {
  }

  lemma FrameReports(s: State, codec: Semantic.Codec, f: Semantic.WireFrame, now: nat)
    requires Shaped(s)
    ensures !PresentsResult(AcceptFrame(s, codec, f, now).results)
  {
    hide Core.Shaped, Semantic.Validated, Core.CommitCheck, ApplyAll, Credits, ByteCredits, LogicalId, PresentedId, EarlyRejection;
  }

  lemma PollReports(s: State, panel: Core.Panel, now: nat, idle: bool)
    requires R.Sane(s) && Shaped(s) && PanelFits(s, panel) && Reliable(panel)
    ensures var p := Poll(s, panel, now, idle); PresentsResult(p.step.results) ==> Trusty(p.step.s)
  {
    hide R.Sane, Core.Shaped, Core.Tick, Core.TickInteractive, Core.PanelShaped, Size, TerminalResults, C.Sound, Reliable,
         Certain, DebtOf, Presents, PresentsResult;
    R.SaneParts(s);
    if s.surface.Some? {
      var core := s.surface.value.core;
      InteractiveReliable(core, panel, now, idle);
      TickReliable(core, panel, now, false);
      var m := if s.automaticCleanup then Core.TickInteractive(core, panel, now, idle) else Core.Tick(core, panel, now, false);
      PresentedTerminals(Carry(WithCore(s, m.s)), m.terminals);
    } else {
      assert !PresentsResult([]) by { NoneReported(); }
    }
  }

  lemma NoneReported()
    ensures !PresentsResult([])
  {
  }

  lemma ProfileReports(s: State, panel: Core.Panel, config: Config, now: nat)
    requires R.Sane(s) && Shaped(s) && PanelFits(s, panel) && Reliable(panel) && Validate(config).None?
    ensures var r := SetProfile(s, panel, config, now);
            r.PanelDone? && PresentsResult(r.value.step.results) ==> Trusty(r.value.step.s)
  {
    hide R.Sane, Core.Shaped, Core.ChangeProfile, Core.PanelShaped, Size, TerminalResults, C.Sound, Reliable, Validate, Certain,
         Presents, PresentsResult;
    R.SaneParts(s);
    if s.surface.Some? {
      ProfileReliable(s.surface.value.core, panel, config, now);
      var (m, report) := Core.ChangeProfile(s.surface.value.core, panel, config, now);
      PresentedTerminals(WithCore(s, m.s).(policy := config, cleanupCarried := report.pending), m.terminals);
    }
  }

  lemma ClearInkReports(s: State, panel: Core.Panel, now: nat)
    requires R.Sane(s) && Shaped(s) && PanelFits(s, panel) && Reliable(panel)
    ensures var r := ClearInk(s, panel, now);
            r.PanelDone? && PresentsResult(r.value.step.results) ==> Trusty(r.value.step.s)
  {
    hide R.Sane, C.Sound, Core.Shaped, Core.PresentPlane, Core.Tick, Core.PanelShaped, Size, TerminalResults, Cleared, Reliable,
         Certain, Presents, PresentsResult;
    R.SaneParts(s);
    if s.surface.Some? {
      var core := s.surface.value.core;
      F.ClearedSound(core);
      F.ClearedInkIsNotRepainted(core, panel, now);
      var m := Core.Tick(F.InkCleared(core), panel, now, true);
      TickReliable(F.InkCleared(core), panel, now, true);
      var t := s.(surface := Some(Rearmed(s.surface.value, now)));
      PresentedTerminals(WithCore(t, m.s), m.terminals);
    }
  }

  lemma FreezeReports(s: State, panel: Core.Panel, frozen: bool, now: nat)
    ensures !PresentsResult(R.Tried(s, SetFrozen(s, frozen, now), panel).value.step.results)
  {
    hide Credits, ByteCredits, LogicalId, PresentedId;
  }

  lemma QuietReports(s: State, panel: Core.Panel, config: Config, on: bool, penAvailable: bool, now: nat)
    ensures !PresentsResult(R.Tried(s, SetLocalInk(s, on, penAvailable, now), panel).value.step.results)
    ensures !PresentsResult(R.Tried(s, SetInkPaused(s, on, now), panel).value.step.results)
    ensures !PresentsResult(R.Tried(s, Failed, panel).value.step.results)
    ensures var r := R.Lift(UpdateRefresh(s, config), panel); r.PanelDone? ==> !PresentsResult(r.value.step.results)
  {
  }

  lemma CloseReports(s: State, surfaceId: nat, generation: nat)
    ensures !PresentsResult(CloseSurface(s, surfaceId, generation).results)
  {
    hide Credits, ByteCredits, LogicalId, PresentedId;
  }

  /** On a panel that accepts, a frame reported as presented makes the glass certain. */
  lemma PresentedIsCertain(s: State, panel: Core.Panel, codec: Semantic.Codec, e: R.Event)
    requires R.Sane(s) && Shaped(s) && PanelFits(s, panel) && R.Enabled(s, panel, e) && R.Handle(s, panel, codec, e).PanelDone?
    requires Reliable(panel) && !PlaneEvent(e)
    ensures var p := R.Handle(s, panel, codec, e).value; PresentsResult(p.step.results) ==> Trusty(p.step.s)
  {
    hide AcceptFrame, Poll, RequestCleanup, SetProfile, UpdateRefresh, ClearInk, SetFrozen, SetLocalInk, SetInkPaused, OpenSurface,
         CloseSurface, R.Sane, PanelFits, Core.PanelShaped, Size, Shaped, Reliable, Trusty, PresentsResult, Calm;
    match e
    case FrameEvent(frame, now) => FrameReports(s, codec, frame, now);
    case PollEvent(now, idle) => PollReports(s, panel, now, idle);
    case FreezeEvent(frozen, now) => FreezeReports(s, panel, frozen, now);
    case CleanupEvent(now) => PollSteady(s, panel, now, false);
    case ProfileEvent(config, now) => ProfileReports(s, panel, config, now);
    case RefreshEvent(config) => QuietReports(s, panel, config, false, false, 0);
    case ClearInkEvent(now) =>
      QuietReports(s, panel, s.policy, false, false, now);
      ClearInkReports(s, panel, now);
    case LocalInkEvent(enabled, penAvailable, now) => QuietReports(s, panel, s.policy, enabled, penAvailable, now);
    case PauseInkEvent(paused, now) => QuietReports(s, panel, s.policy, paused, false, now);
    case OpenEvent(open, w, h, now) => OpenSteady(s, panel, open, w, h, now);
    case CloseEvent(surfaceId, generation) => CloseReports(s, surfaceId, generation);
    case _ =>
  }

  lemma AskedHeld(s: State, panel: Core.Panel, t: Turn, debt: bool)
    requires Held(s, panel, debt)
    ensures Held(s, Asked(panel, t), debt)
    ensures Reliable(Asked(panel, t)) <==> G.AllAccept(t.answers)
  {
    hide Covered;
  }

  lemma TurnTrust(s: State, panel: Core.Panel, codec: Semantic.Codec, e: R.Event)
    requires R.Sane(s) && Shaped(s) && PanelFits(s, panel) && R.Enabled(s, panel, e) && R.Handle(s, panel, codec, e).PanelDone?
    requires Reliable(panel)
    ensures var t := R.Handle(s, panel, codec, e).value.step.s;
            Trusty(s) || e.CleanupEvent? || e.OpenEvent? ==> Trusty(t)
  {
    hide R.Handle, R.Sane, R.Enabled, Shaped, PanelFits, Reliable, Trusty, Calm;
    HandleSteady(s, panel, codec, e);
    if e.CleanupEvent? {
      PollSteady(s, panel, e.now, false);
      assert R.Handle(s, panel, codec, e) == PanelDone(RequestCleanup(s, panel, e.now)) by { CleanupHandled(s, panel, codec, e); }
    } else if e.OpenEvent? {
      OpenSteady(s, panel, e.open, e.w, e.h, e.now);
      assert R.Handle(s, panel, codec, e) == R.Lift(OpenSurface(s, e.open, e.w, e.h, e.now), panel) by {
        OpenHandled(s, panel, codec, e);
      }
    }
  }

  lemma CleanupHandled(s: State, panel: Core.Panel, codec: Semantic.Codec, e: R.Event)
    requires Shaped(s) && PanelFits(s, panel) && R.Enabled(s, panel, e) && e.CleanupEvent?
    ensures R.Handle(s, panel, codec, e) == PanelDone(RequestCleanup(s, panel, e.now))
  {
    hide RequestCleanup, Shaped, PanelFits;
  }

  lemma OpenHandled(s: State, panel: Core.Panel, codec: Semantic.Codec, e: R.Event)
    requires Shaped(s) && PanelFits(s, panel) && R.Enabled(s, panel, e) && e.OpenEvent?
    ensures R.Handle(s, panel, codec, e) == R.Lift(OpenSurface(s, e.open, e.w, e.h, e.now), panel)
  {
    hide OpenSurface, Shaped, PanelFits;
  }

  /** The glass over whole sessions: whatever the panel answers, on every surface
      the glass shows the software picture unless a failed submission left it
      uncertain, as long as no local plane is presented between a failure and the
      next recovery; and where the run ends in trust, it shows it for certain. Without
      menus and overlays, and with the fastest ink, every ghosting pixel is moreover
      part of the debt. */
  lemma {:induction false} SessionKeepsGlass(s: State, panel: Core.Panel, codec: Semantic.Codec, turns: seq<Turn>, trust: bool,
                                             debt: bool)
    requires R.Sane(s) && PanelFits(s, panel) && Held(s, panel, debt) && (trust ==> Trusty(s))
    requires Attend(s, panel, codec, turns).Some?
    requires Scheduled(trust, turns, Attend(s, panel, codec, turns).value.results)
    requires debt ==> forall k :: 0 <= k < |turns| ==> DebtEvent(turns[k].event)
    ensures var r := Attend(s, panel, codec, turns).value;
            r.s.surface.Some? ==>
              var core := r.s.surface.value.core;
              && P.GlassTrue(core, r.panel)
              && (TrustAtEnd(trust, turns, r.results) && core.presentedId != 0 ==> r.panel.image == core.presented)
              && (debt ==> core.w > 0 && P.DebtKnown(core, r.panel))
    decreases |turns|
  {
    hide R.Handle, R.Sane, R.Enabled, PanelFits, R.Kept, Held, Trusty, Reliable;
    if turns == [] {
      if s.surface.Some? { HeldMeans(s, panel, debt); }
    } else {
      R.SaneParts(s);
      var t := turns[0];
      var p := Asked(panel, t);
      AskedHeld(s, panel, t, debt);
      var r := R.Handle(s, p, codec, t.event).value;
      R.HandleKept(s, p, codec, t.event);
      R.KeptSane(s, R.Received(t.event), r);
      HandleHeld(s, p, codec, t.event, debt);
      if G.AllAccept(t.answers) {
        TurnTrust(s, p, codec, t.event);
        if !PlaneEvent(t.event) { PresentedIsCertain(s, p, codec, t.event); }
      }
      assert Attend(s, panel, codec, turns).value.results[1..] == Attend(r.step.s, r.panel, codec, turns[1..]).value.results;
      assert forall k :: 0 <= k < |turns[1..]| ==> turns[1..][k] == turns[k + 1];
      SessionKeepsGlass(r.step.s, r.panel, codec, turns[1..], TrustAfter(trust, t, r.step.results), debt);
    }
  }

  lemma HeldMeans(s: State, panel: Core.Panel, debt: bool)
    requires Held(s, panel, debt) && s.surface.Some?
    ensures var core := s.surface.value.core;
            && P.GlassTrue(core, panel)
            && (Trusty(s) && core.presentedId != 0 ==> panel.image == core.presented)
            && (debt ==> core.w > 0 && P.DebtKnown(core, panel))
  {
    hide Covered;
  }
}
