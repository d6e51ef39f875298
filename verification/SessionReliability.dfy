/** What a session keeps while the panel accepts every call: certainty about the
    glass, and, without a freeze, the base of the surface. */
module SessionReliability {
  import opened Geometry
  import opened Pixels
  import opened Raster
  import opened Regions
  import opened Tiles
  import opened Ink
  import opened Refresh
  import opened Receiver
  import opened Reliability
  import Core
  import C = Composition
  import R = Results
  import Semantic

  ghost predicate BaseLive(s: State) {
    s.surface.Some? && s.surface.value.core.baseValid
  }

  /** The glass under the surface is known, or nothing was shown on it. */
  predicate Trusty(s: State) {
    s.surface.Some? ==> Certain(s.surface.value.core)
  }

  /** Nothing the receiver holds or knows was lost. */
  ghost predicate Calm(s: State, t: State) {
    && (!Frozen(s) ==> !Frozen(t))
    && (BaseLive(s) ==> BaseLive(t))
  }

  /** Events that neither freeze the background nor end the surface. */
  predicate CalmEvent(e: R.Event, freezeOnPenDown: bool) {
    match e
    case FreezeEvent(frozen, _) => !frozen
    case PenEvent(_, _) => !freezeOnPenDown
    case OpenEvent(_, _, _, _) => false
    case CloseEvent(_, _) => false
    case _ => true
  }

  /** What an event keeps on a reliable panel. */
  ghost predicate Steady(s: State, p: Panelled, calm: bool) {
    && Reliable(p.panel)
    && p.step.s.freezeOnPenDown == s.freezeOnPenDown
    && (Trusty(s) ==> Trusty(p.step.s))
    && (calm ==> Calm(s, p.step.s))
  }

  lemma FrameSteady(s: State, panel: Core.Panel, codec: Semantic.Codec, f: Semantic.WireFrame, now: nat)
    requires Shaped(s) && Reliable(panel)
    ensures Steady(s, Panelled(AcceptFrame(s, codec, f, now), panel), true)
  {
    hide Core.Shaped, Semantic.Validated, ImmediateResult, CommitFrame, Reliable, SemanticReason;
    if EarlyRejection(s, f).None? && Semantic.Validated(codec, f, SemanticSurface(s)).Ok? {
      CommitSteady(s, panel, f, Semantic.Validated(codec, f, SemanticSurface(s)).value, now);
    }
  }

  lemma CommitSteady(s: State, panel: Core.Panel, f: Semantic.WireFrame, frame: Core.Frame, now: nat)
    requires s.surface.Some? && Core.Shaped(s.surface.value.core) && Reliable(panel)
    ensures Steady(s, Panelled(CommitFrame(s, f, frame, now), panel), true)
  {
    hide Core.Shaped, ImmediateResult, TerminalResult, Core.Commit, Reliable, CommitReason, Certain, KnownContent;
    var core := s.surface.value.core;
    CommitUndisturbed(core, frame, KnownContent(f.content), now);
    var (next, r) := Core.Commit(core, frame, KnownContent(f.content), now);
    assert r.Committed? ==> CommitFrame(s, f, frame, now).s == WithCore(s, next);
    assert r.Refused? ==> CommitFrame(s, f, frame, now).s == s;
  }

  lemma PollSteady(s: State, panel: Core.Panel, now: nat, idle: bool)
    requires R.Sane(s) && Shaped(s) && PanelFits(s, panel) && Reliable(panel)
    ensures Steady(s, Poll(s, panel, now, idle), true)
    ensures Steady(s, RequestCleanup(s, panel, now), true)
    ensures Trusty(RequestCleanup(s, panel, now).step.s)
  {
    hide R.Sane, Core.Shaped, Core.Tick, Core.TickInteractive, Core.RequestCleanup, Core.PanelShaped, Size, TerminalResult,
         C.Sound, Reliable, Certain, DebtOf;
    R.SaneParts(s);
    if s.surface.Some? {
      var core := s.surface.value.core;
      InteractiveReliable(core, panel, now, idle);
      TickReliable(core, panel, now, false);
      CleanupReliable(core, panel, now);
    }
  }

  lemma ProfileSteady(s: State, panel: Core.Panel, config: Config, now: nat)
    requires R.Sane(s) && Shaped(s) && PanelFits(s, panel) && Reliable(panel) && Validate(config).None?
    ensures var r := SetProfile(s, panel, config, now); r.PanelDone? ==> Steady(s, r.value, true)
  {
    hide R.Sane, Core.Shaped, Core.ChangeProfile, Core.PanelShaped, Size, TerminalResult, C.Sound, Reliable, Validate, Certain;
    R.SaneParts(s);
    if s.surface.Some? {
      ProfileReliable(s.surface.value.core, panel, config, now);
    }
  }

  lemma RefreshSteady(s: State, panel: Core.Panel, config: Config)
    requires Reliable(panel)
    ensures var r := UpdateRefresh(s, config); r.Done? ==> Steady(s, Panelled(r.step, panel), true)
  {
    hide Reliable, Validate;
  }

  /** Edited planes presented on a surface whose core only changed its planes. */
  lemma PlanesSteady(s: State, t: State, panel: Core.Panel, core: Core.State, now: nat, intent: Intent)
    requires t.surface.Some? && C.Sound(core) && Core.Shaped(core) && Core.PanelShaped(Size(core.w, core.h), panel)
    requires Reliable(panel) && s.surface.Some? && t.freezeOnPenDown == s.freezeOnPenDown
    requires Undisturbed(s.surface.value.core, core) && (!Frozen(s) ==> !Frozen(t))
    ensures var r := PresentPlanes(t, panel, core, now, intent); r.PanelDone? && Steady(s, r.value, true)
  {
    hide C.Sound, Core.Shaped, Core.PresentPlane, Core.PanelShaped, Size, TerminalResult, Reliable;
    PlaneReliable(core, panel, now, intent);
  }

  lemma MenuSteady(s: State, panel: Core.Panel, luma: seq<bv8>, alpha: seq<bv8>, now: nat)
    requires R.Sane(s) && Shaped(s) && PanelFits(s, panel) && Reliable(panel)
    requires s.surface.Some? ==> |luma| == |alpha| == Size(s.surface.value.core.w, s.surface.value.core.h)
    ensures var r := RenderMenu(s, panel, luma, alpha, now); r.PanelDone? && Steady(s, r.value, true)
  {
    hide R.Sane, C.Sound, Core.Shaped, PresentPlanes, Core.PanelShaped, Size, PlaneOk, Reliable, DebtOf;
    R.SaneParts(s);
    if s.surface.Some? {
      var core := s.surface.value.core;
      var menu := Plane(luma, alpha, AllZero(alpha), core.menu.dirty);
      R.CorePlanes(core);
      R.MenuPlaneOk(core.w, core.h, luma, alpha, core.menu);
      R.ReplacedSound(core, menu, core.peer, core.ink);
      var edited := core.(menu := menu);
      assert edited == core.(menu := menu, peer := core.peer, ink := core.ink);
      C.SoundShaped(edited);
      PlanesSteady(s, s, panel, edited, now, Settled);
    }
  }

  lemma OverlaySteady(s: State, panel: Core.Panel, u: OverlayUpdate, now: nat)
    requires R.Sane(s) && Shaped(s) && PanelFits(s, panel) && Reliable(panel)
    ensures var r := UpdateOverlay(s, panel, u, now); r.PanelDone? && Steady(s, r.value, true)
  {
    hide R.Sane, C.Sound, Core.Shaped, PresentPlanes, Core.PanelShaped, Size, PatchOk, R.FrozenCore, Patched, Cleared, Reliable;
    if OverlayAcceptable(s, u) {
      R.SaneParts(s);
      var v := s.surface.value;
      R.OverlaySane(v, u, now);
      var edited := OverlayEdited(v, u, now);
      C.SoundShaped(edited.core);
      PlanesSteady(s, Sequenced(s, u).(surface := Some(edited)), panel, edited.core, now, Settled);
    }
  }

  lemma ClearInkSteady(s: State, panel: Core.Panel, now: nat)
    requires R.Sane(s) && Shaped(s) && PanelFits(s, panel) && Reliable(panel)
    ensures var r := ClearInk(s, panel, now); r.PanelDone? ==> Steady(s, r.value, true)
  {
    hide R.Sane, C.Sound, Core.Shaped, PresentPlanes, Core.PanelShaped, Size, Reliable, PlaneOk, Cleared;
    R.SaneParts(s);
    if s.surface.Some? {
      var u := s.surface.value;
      R.CorePlanes(u.core);
      R.ClearedOk(u.core.w, u.core.h, u.core.ink);
      R.ReplacedSound(u.core, u.core.menu, u.core.peer, Cleared(u.core.ink));
      var edited := u.core.(ink := Cleared(u.core.ink));
      assert edited == u.core.(menu := u.core.menu, peer := u.core.peer, ink := Cleared(u.core.ink));
      C.SoundShaped(edited);
      PlanesSteady(s, s.(surface := Some(Rearmed(u, now))), panel, edited, now, Latest);
    }
  }

  /** What a surface keeps under pen records. */
  predicate PenKeeps(u: Surface, v: Surface, freezeOnDown: bool) {
    && (Certain(u.core) ==> Certain(v.core))
    && (!freezeOnDown ==> Undisturbed(u.core, v.core) && v.inkFrozen == u.inkFrozen)
  }

  lemma RecordKeeps(u: Surface, r: PenRecord, now: nat, physical: bool, freezeOnDown: bool)
    requires SurfaceShaped(u)
    ensures PenKeeps(u, InkRecord(u, r, now, physical, freezeOnDown).u, freezeOnDown)
  {
    hide Core.Shaped, InkLine, OnPanel;
  }

  lemma {:induction false} StepsKeep(u: Surface, inputs: seq<PenInput>, now: nat, physical: bool, freezeOnDown: bool)
    requires SurfaceShaped(u)
    ensures PenKeeps(u, PenSteps(u, inputs, now, physical, freezeOnDown).u, freezeOnDown)
    decreases |inputs|
  {
    hide Core.Shaped, InkRecord, OnPanel;
    if inputs != [] {
      if inputs[0].Inking? { RecordKeeps(Followed(u, inputs[0].record), inputs[0].record, now, physical, freezeOnDown); }
      PenStepShaped(u, inputs[0], now, physical, freezeOnDown);
      StepsKeep(PenStep(u, inputs[0], now, physical, freezeOnDown).u, inputs[1..], now, physical, freezeOnDown);
    }
  }

  lemma PenSteady(s: State, panel: Core.Panel, pen: PenReports, now: nat)
    requires R.Sane(s) && Shaped(s) && PanelFits(s, panel) && Reliable(panel)
    ensures var r := PenReport(s, panel, pen, now); r.PanelDone? && Steady(s, r.value, !s.freezeOnPenDown)
  {
    hide R.Sane, C.Sound, Core.Shaped, Core.PresentPlane, Core.PanelShaped, Size, PenSteps, OnPanel, TerminalResult, Reliable,
         Reaching;
    R.SaneParts(s);
    if s.surface.Some? {
      var u, inputs := s.surface.value, Reaching(s, pen, now);
      StepsKeep(u, inputs, now, pen.physical, s.freezeOnPenDown);
      PenStepsShaped(u, inputs, now, pen.physical, s.freezeOnPenDown);
      var inked := PenSteps(u, inputs, now, pen.physical, s.freezeOnPenDown);
      assert C.Sound(inked.u.core) by { R.PenStepsKept(u, inputs, now, pen.physical, s.freezeOnPenDown); }
      PlaneReliable(inked.u.core, panel, now, Latest);
    }
  }

  lemma OpenSteady(s: State, panel: Core.Panel, open: SurfaceOpen, w: nat, h: nat, now: nat)
    requires Reliable(panel)
    ensures var r := OpenSurface(s, open, w, h, now); r.Done? ==> Steady(s, Panelled(r.step, panel), false) && Trusty(r.step.s)
  {
    hide TerminalResult, Size, DebtValid, Validate, Reliable;
  }

  lemma CloseSteady(s: State, panel: Core.Panel, surfaceId: nat, generation: nat)
    requires Reliable(panel)
    ensures Steady(s, Panelled(CloseSurface(s, surfaceId, generation), panel), false)
  {
    hide TerminalResult, Reliable;
  }

  lemma FreezeSteady(s: State, panel: Core.Panel, frozen: bool, now: nat)
    requires Reliable(panel)
    ensures Steady(s, R.Tried(s, SetFrozen(s, frozen, now), panel).value, !frozen)
  {
    hide TerminalResult, Reliable;
  }

  lemma FlagSteady(s: State, panel: Core.Panel, on: bool, penAvailable: bool, now: nat)
    requires Reliable(panel)
    ensures Steady(s, R.Tried(s, SetLocalInk(s, on, penAvailable, now), panel).value, true)
    ensures Steady(s, R.Tried(s, SetInkPaused(s, on, now), panel).value, true)
    ensures Steady(s, R.Tried(s, Failed, panel).value, true)
  {
    hide Reliable, Certain;
  }

  lemma HandleSteady(s: State, panel: Core.Panel, codec: Semantic.Codec, e: R.Event)
    requires R.Sane(s) && Shaped(s) && PanelFits(s, panel) && R.Enabled(s, panel, e) && R.Handle(s, panel, codec, e).PanelDone?
    requires Reliable(panel)
    ensures Steady(s, R.Handle(s, panel, codec, e).value, CalmEvent(e, s.freezeOnPenDown))
  {
    hide AcceptFrame, Poll, RequestCleanup, SetProfile, UpdateRefresh, RenderMenu, ClearInk, UpdateOverlay, SetFrozen, SetLocalInk,
         SetInkPaused, PenReport, OpenSurface, CloseSurface, R.Sane, PanelFits, Core.PanelShaped, Size, Shaped, TerminalResult,
         Reliable, Steady;
    match e
    case FrameEvent(frame, now) => FrameSteady(s, panel, codec, frame, now);
    case PollEvent(now, idle) => PollSteady(s, panel, now, idle);
    case FreezeEvent(frozen, now) => FreezeSteady(s, panel, frozen, now);
    case CleanupEvent(now) => PollSteady(s, panel, now, false);
    case ProfileEvent(config, now) => ProfileSteady(s, panel, config, now);
    case RefreshEvent(config) => RefreshSteady(s, panel, config);
    case MenuEvent(luma, alpha, now) => MenuSteady(s, panel, luma, alpha, now);
    case OverlayEvent(update, now) => OverlaySteady(s, panel, update, now);
    case PenEvent(pen, now) => PenSteady(s, panel, pen, now);
    case OpenEvent(open, w, h, now) => OpenSteady(s, panel, open, w, h, now);
    case ClearInkEvent(now) =>
      FlagSteady(s, panel, false, false, now);
      ClearInkSteady(s, panel, now);
    case LocalInkEvent(enabled, penAvailable, now) => FlagSteady(s, panel, enabled, penAvailable, now);
    case PauseInkEvent(paused, now) => FlagSteady(s, panel, paused, false, now);
    case CloseEvent(surfaceId, generation) => CloseSteady(s, panel, surfaceId, generation);
  }
}
