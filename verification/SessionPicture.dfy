/** The picture invariant over whole session runs, surface replacement included. */
module SessionPicture {
  import opened Geometry
  import opened Pixels
  import opened Raster
  import opened Regions
  import opened Tiles
  import opened Ink
  import opened Refresh
  import opened Receiver
  import Core
  import C = Composition
  import R = Results
  import Semantic

  /** The active surface is in order and shows what it should. */
  ghost predicate Shown(s: State) {
    s.surface.Some? ==> C.Inv(s.surface.value.core)
  }

  lemma ShownParts(s: State)
    requires Shown(s) && s.surface.Some?
    ensures C.Inv(s.surface.value.core) && C.Sound(s.surface.value.core) && Core.Shaped(s.surface.value.core)
  {
    hide C.Sound, C.PictureCurrent, Core.Shaped;
    C.InvSound(s.surface.value.core);
  }

  lemma FrameShown(s: State, codec: Semantic.Codec, f: Semantic.WireFrame, now: nat)
    requires Shaped(s) && Shown(s)
    ensures Shown(AcceptFrame(s, codec, f, now).s)
  {
    hide C.Inv, Core.Commit, Semantic.Validated, ImmediateResult, TerminalResult, Core.Shaped;
    if EarlyRejection(s, f).None? && Semantic.Validated(codec, f, SemanticSurface(s)).Ok? {
      CommitShown(s, f, Semantic.Validated(codec, f, SemanticSurface(s)).value, now);
    }
  }

  lemma CommitShown(s: State, f: Semantic.WireFrame, frame: Core.Frame, now: nat)
    requires s.surface.Some? && Core.Shaped(s.surface.value.core) && Shown(s)
    ensures Shown(CommitFrame(s, f, frame, now).s)
  {
    hide C.Inv, Core.Shaped, Core.Commit, ImmediateResult, TerminalResult;
    C.CommitInv(s.surface.value.core, frame, KnownContent(f.content), now);
  }

  lemma PollShown(s: State, panel: Core.Panel, now: nat, idle: bool)
    requires Shaped(s) && PanelFits(s, panel) && Shown(s)
    ensures Shown(Poll(s, panel, now, idle).step.s)
    ensures Shown(RequestCleanup(s, panel, now).step.s)
  {
    hide C.Inv, Core.Shaped, Core.Tick, Core.TickInteractive, Core.RequestCleanup, Core.PanelShaped, Size, TerminalResult, DebtOf;
    if s.surface.Some? {
      var core := s.surface.value.core;
      C.InteractiveInv(core, panel, now, idle);
      C.TickInv(core, panel, now, false);
      C.CleanupInv(core, panel, now);
    }
  }

  lemma PolicyShown(s: State, panel: Core.Panel, config: Config, now: nat)
    requires Shaped(s) && PanelFits(s, panel) && Shown(s) && Validate(config).None?
    ensures var r := SetProfile(s, panel, config, now); r.PanelDone? ==> Shown(r.value.step.s)
    ensures var r := UpdateRefresh(s, config); r.Done? ==> Shown(r.step.s)
  {
    hide C.Inv, Core.Shaped, Core.ChangeProfile, Core.UpdateConfig, Core.PanelShaped, Size, TerminalResult, Validate;
    if s.surface.Some? {
      var core := s.surface.value.core;
      C.ProfileInv(core, panel, config, now);
      C.ConfigInv(core, config);
    }
  }

  lemma FreezeShown(s: State, frozen: bool, now: nat)
    requires Shown(s)
    ensures var r := SetFrozen(s, frozen, now); r.Done? ==> Shown(r.step.s)
  {
    hide C.Inv, Core.Freeze, TerminalResult;
    if s.surface.Some? {
      ShownParts(s);
      C.FreezeInv(s.surface.value.core);
    }
  }

  /** Presenting whole planes restores the picture from any sound edit. */
  lemma SettledShown(s: State, panel: Core.Panel, core: Core.State, now: nat)
    requires s.surface.Some? && C.Sound(core) && Core.Shaped(core) && Core.PanelShaped(Size(core.w, core.h), panel)
    ensures var r := PresentPlanes(s, panel, core, now, Settled); r.PanelDone? ==> Shown(r.value.step.s)
  {
    hide C.Inv, C.Sound, Core.Shaped, Core.PresentPlane, Core.PanelShaped, Size, TerminalResult;
    if Core.PresentPlane(core, panel, now, Settled).PlaneDone? {
      C.PresentPlaneInv(core, panel, now, Settled);
    }
  }

  lemma InkShown(s: State, panel: Core.Panel, core: Core.State, now: nat)
    requires s.surface.Some? && C.Inv(core) && C.Sound(core) && Core.Shaped(core)
    requires Core.PanelShaped(Size(core.w, core.h), panel)
    ensures var r := PresentPlanes(s, panel, core, now, Latest); r.PanelDone? ==> Shown(r.value.step.s)
  {
    hide C.Inv, C.Sound, Core.Shaped, Core.PresentPlane, Core.PanelShaped, Size, TerminalResult;
    if Core.PresentPlane(core, panel, now, Latest).PlaneDone? {
      C.PresentPlaneInv(core, panel, now, Latest);
    }
  }

  lemma MenuShown(s: State, panel: Core.Panel, luma: seq<bv8>, alpha: seq<bv8>, now: nat)
    requires R.Sane(s) && Shaped(s) && PanelFits(s, panel)
    requires s.surface.Some? ==> |luma| == |alpha| == Size(s.surface.value.core.w, s.surface.value.core.h)
    ensures var r := RenderMenu(s, panel, luma, alpha, now); r.PanelDone? ==> Shown(r.value.step.s)
  {
    hide C.Inv, C.Sound, Core.Shaped, PresentPlanes, Core.PanelShaped, Size, PlaneOk, DebtOf, R.Sane;
    R.SaneParts(s);
    if s.surface.Some? {
      var core := s.surface.value.core;
      var menu := Plane(luma, alpha, AllZero(alpha), core.menu.dirty);
      R.CorePlanes(core);
      R.MenuPlaneOk(core.w, core.h, luma, alpha, core.menu);
      R.ReplacedSound(core, menu, core.peer, core.ink);
      var edited := core.(menu := menu);
      assert edited == core.(menu := menu, peer := core.peer, ink := core.ink);
      C.SoundShaped(edited);
      SettledShown(s, panel, edited, now);
    }
  }

  lemma OverlayShown(s: State, panel: Core.Panel, u: OverlayUpdate, now: nat)
    requires R.Sane(s) && Shaped(s) && PanelFits(s, panel) && Shown(s)
    ensures var r := UpdateOverlay(s, panel, u, now); r.PanelDone? ==> Shown(r.value.step.s)
  {
    hide C.Inv, C.Sound, Core.Shaped, PresentPlanes, Core.PanelShaped, Size, PatchOk, OverlayEdited, R.FrozenCore;
    if OverlayAcceptable(s, u) {
      R.SaneParts(s);
      var v := s.surface.value;
      R.OverlaySane(v, u, now);
      var edited := OverlayEdited(v, u, now);
      C.SoundShaped(edited.core);
      SettledShown(Sequenced(s, u).(surface := Some(edited)), panel, edited.core, now);
    }
  }

  // -------------------------------------------------------------------- pen

  lemma DrawnShown(u: Surface, r: PenRecord)
    requires SurfaceShaped(u) && C.Inv(u.core)
    ensures C.Inv(Drawn(u, r).core)
  {
    hide C.Inv, InkLine, Size;
    var point := Clamped(u.core, r);
    var from := if u.penPoint.Some? then u.penPoint.value else point;
    C.StrokeInv(u.core, from, point, if r.erase then ERASER_RADIUS else PEN_RADIUS, r.erase);
  }

  lemma RecordShown(u: Surface, r: PenRecord, now: nat, physical: bool, freezeOnDown: bool)
    requires SurfaceShaped(u) && C.Inv(u.core)
    ensures C.Inv(InkRecord(u, r, now, physical, freezeOnDown).u.core)
  {
    hide C.Inv, C.Sound, Drawn, Core.Freeze, Core.Shaped, OnPanel;
    if !Gated(u, r, now, physical) {
      C.InvSound(u.core);
      C.FreezeInv(u.core);
      var t := Landed(u, r, freezeOnDown);
      FrozenShaped(u, t.u);
      DrawnShown(t.u, r);
    }
  }

  lemma StepShown(u: Surface, i: PenInput, now: nat, physical: bool, freezeOnDown: bool)
    requires SurfaceShaped(u) && C.Inv(u.core)
    ensures C.Inv(PenStep(u, i, now, physical, freezeOnDown).u.core)
  {
    hide C.Inv, InkRecord, Core.Shaped, OnPanel;
    if i.Inking? { RecordShown(Followed(u, i.record), i.record, now, physical, freezeOnDown); }
  }

  lemma {:induction false} StepsShown(u: Surface, inputs: seq<PenInput>, now: nat, physical: bool, freezeOnDown: bool)
    requires SurfaceShaped(u) && C.Inv(u.core)
    ensures C.Inv(PenSteps(u, inputs, now, physical, freezeOnDown).u.core)
    decreases |inputs|
  {
    hide C.Inv, SurfaceShaped, PenStep;
    if inputs != [] {
      StepShown(u, inputs[0], now, physical, freezeOnDown);
      PenStepShaped(u, inputs[0], now, physical, freezeOnDown);
      StepsShown(PenStep(u, inputs[0], now, physical, freezeOnDown).u, inputs[1..], now, physical, freezeOnDown);
    }
  }

  lemma PenShown(s: State, panel: Core.Panel, pen: PenReports, now: nat)
    requires Shaped(s) && PanelFits(s, panel) && Shown(s)
    ensures var r := PenReport(s, panel, pen, now); r.PanelDone? ==> Shown(r.value.step.s)
  {
    hide C.Inv, C.Sound, Core.Shaped, PresentPlanes, Core.PanelShaped, Size, PenSteps, OnPanel, TerminalResult, Reaching;
    if s.surface.Some? {
      var u, inputs := s.surface.value, Reaching(s, pen, now);
      StepsShown(u, inputs, now, pen.physical, s.freezeOnPenDown);
      PenStepsShaped(u, inputs, now, pen.physical, s.freezeOnPenDown);
      var inked := PenSteps(u, inputs, now, pen.physical, s.freezeOnPenDown);
      C.InvSound(inked.u.core);
      InkShown(s.(surface := Some(inked.u)), panel, inked.u.core, now);
    }
  }

  // -------------------------------------------------------------------- runs

  lemma OpenShown(s: State, open: SurfaceOpen, w: nat, h: nat, now: nat)
    requires R.Sane(s)
    ensures var r := OpenSurface(s, open, w, h, now); r.Done? ==> Shown(r.step.s)
  {
    hide C.Inv, TurnedOver, FreshCore, CarriedDebt, DebtValid, R.Sane;
    if OpenSurface(s, open, w, h, now).Done? {
      FreshShown(s, open.format, w, h);
    }
  }

  lemma FreshShown(s: State, format: Format, w: nat, h: nat)
    requires w > 0 && h > 0 && Validate(s.policy).None? && DebtValid(CarriedDebt(s))
    ensures C.Inv(FreshCore(s, format, w, h))
  {
    hide C.Inv, Size;
    R.FreshSound(s, format, w, h);
    var core := FreshCore(s, format, w, h);
    NoBaseShown(core);
  }

  lemma NoBaseShown(core: Core.State)
    requires C.Sound(core) && !core.baseValid
    ensures C.Inv(core)
  {
  }

  lemma HandleShown(s: State, panel: Core.Panel, codec: Semantic.Codec, e: R.Event)
    requires R.Sane(s) && Shaped(s) && PanelFits(s, panel) && R.Enabled(s, panel, e) && R.Handle(s, panel, codec, e).PanelDone?
    requires Shown(s) && !e.ClearInkEvent?
    ensures Shown(R.Handle(s, panel, codec, e).value.step.s)
  {
    hide AcceptFrame, Poll, SetFrozen, RequestCleanup, SetProfile, UpdateRefresh, RenderMenu, ClearInk, UpdateOverlay,
         PenReport, OpenSurface, R.Sane, PanelFits, Core.PanelShaped, Size, C.Inv, Shaped;
    match e
    case FrameEvent(frame, now) => FrameShown(s, codec, frame, now);
    case PollEvent(now, idle) => PollShown(s, panel, now, idle);
    case FreezeEvent(frozen, now) => FreezeShown(s, frozen, now);
    case CleanupEvent(now) => PollShown(s, panel, now, false);
    case ProfileEvent(config, now) => PolicyShown(s, panel, config, now);
    case RefreshEvent(config) => PolicyShown(s, panel, config, 0);
    case MenuEvent(luma, alpha, now) => MenuShown(s, panel, luma, alpha, now);
    case OverlayEvent(update, now) => OverlayShown(s, panel, update, now);
    case PenEvent(pen, now) => PenShown(s, panel, pen, now);
    case OpenEvent(open, w, h, now) => OpenShown(s, open, w, h, now);
    case ClearInkEvent(now) =>
    case LocalInkEvent(enabled, penAvailable, now) =>
    case PauseInkEvent(paused, now) =>
    case CloseEvent(surfaceId, generation) =>
  }

  /** Events that put the picture right whatever it was: the menu presents all
      planes, and a new or frozen surface has no base to show. */
  predicate Repairs(e: R.Event) {
    e.MenuEvent? || e.OpenEvent? || (e.FreezeEvent? && e.frozen)
  }

  function ShownAfter(shown: bool, e: R.Event): bool {
    !e.ClearInkEvent? && (shown || Repairs(e))
  }

  /** Whether the last ink clearing was repaired. */
  function ShownAtEnd(shown: bool, events: seq<R.Event>): bool
    decreases |events|
  {
    if events == [] then shown else ShownAtEnd(ShownAfter(shown, events[0]), events[1..])
  }

  lemma RepairShown(s: State, panel: Core.Panel, codec: Semantic.Codec, e: R.Event)
    requires R.Sane(s) && Shaped(s) && PanelFits(s, panel) && R.Enabled(s, panel, e) && R.Handle(s, panel, codec, e).PanelDone?
    requires Repairs(e) && R.Sane(R.Handle(s, panel, codec, e).value.step.s)
    ensures Shown(R.Handle(s, panel, codec, e).value.step.s)
  {
    hide RenderMenu, OpenSurface, R.Sane, PanelFits, Core.PanelShaped, Size, C.Inv, Shaped, Core.Freeze, TerminalResult;
    match e
    case MenuEvent(luma, alpha, now) => MenuShown(s, panel, luma, alpha, now);
    case OpenEvent(open, w, h, now) => OpenShown(s, open, w, h, now);
    case FreezeEvent(frozen, now) =>
      var t := R.Handle(s, panel, codec, e).value.step.s;
      if Frozen(t) {
        FrozenShown(t);
      } else if t.surface.Some? {
        NothingShown(t);
      }
  }

  /** Before the first presentation everything is still owed. */
  lemma NothingShown(s: State)
    requires R.Sane(s) && s.surface.Some? && s.surface.value.core.presentedId == 0
    ensures Shown(s)
  {
    hide Size, PlaneOk, ValidRect, PolicyOk, R.FrozenCore, Covered, C.BaseCurrent;
  }

  /** A frozen surface has no base of which a picture could be wrong. */
  lemma FrozenShown(s: State)
    requires R.Sane(s) && Frozen(s)
    ensures Shown(s)
  {
    R.SaneParts(s);
    NoBaseShown(s.surface.value.core);
  }

  lemma {:induction false} SessionShown(s: State, panel: Core.Panel, codec: Semantic.Codec, events: seq<R.Event>, shown: bool)
    requires R.Sane(s) && PanelFits(s, panel) && R.Serve(s, panel, codec, events).Some? && (shown ==> Shown(s))
    requires ShownAtEnd(shown, events)
    ensures Shown(R.Serve(s, panel, codec, events).value.s)
    decreases |events|
  {
    hide R.Handle, R.Sane, R.Enabled, PanelFits, R.Kept, Shown;
    if events != [] {
      R.SaneParts(s);
      var p := R.Handle(s, panel, codec, events[0]).value;
      R.HandleKept(s, panel, codec, events[0]);
      R.KeptSane(s, R.Received(events[0]), p);
      if Repairs(events[0]) {
        RepairShown(s, panel, codec, events[0]);
      } else if shown && !events[0].ClearInkEvent? {
        HandleShown(s, panel, codec, events[0]);
      }
      SessionShown(p.step.s, p.panel, codec, events[1..], ShownAfter(shown, events[0]));
    }
  }

  /** The picture over whole sessions: after any run of frames, polls, freezes,
      cleanups, policy changes, menus, overlays, pen reports and surface
      replacements, the software buffers of the active surface are equal, and a
      valid base is shown with exactly its recomposition outside the damage that
      is still pending; ink clearings must have been followed by an event that
      repaints. */
  lemma SessionShowsComposition(s: State, panel: Core.Panel, codec: Semantic.Codec, events: seq<R.Event>, shown: bool)
    requires R.Sane(s) && PanelFits(s, panel) && R.Serve(s, panel, codec, events).Some? && (shown ==> Shown(s))
    requires ShownAtEnd(shown, events)
    ensures var t := R.Serve(s, panel, codec, events).value.s;
            t.surface.Some? ==>
              && Core.Shaped(t.surface.value.core)
              && t.surface.value.core.working == t.surface.value.core.presented
              && (t.surface.value.core.baseValid ==> C.PictureCurrent(t.surface.value.core))
  {
    hide R.Serve, R.Sane, PanelFits, Shown, ShownAtEnd;
    SessionShown(s, panel, codec, events, shown);
    var t := R.Serve(s, panel, codec, events).value.s;
    if t.surface.Some? { ShownMeans(t); }
  }

  lemma ShownMeans(s: State)
    requires Shown(s) && s.surface.Some?
    ensures var core := s.surface.value.core;
            && Core.Shaped(core) && core.working == core.presented && (core.baseValid ==> C.PictureCurrent(core))
  {
  }
}
