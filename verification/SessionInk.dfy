/** Between the events of a session every stroke has been presented; so clearing the
    ink is right exactly when none of it can be seen where nothing is repainted. */
module SessionInk {
  import opened Geometry
  import opened Pixels
  import opened Raster
  import opened Regions
  import opened Tiles
  import opened Ink
  import opened Refresh
  import opened Receiver
  import Core
  import C = Composition
  import F = Findings
  import D = SessionCadence
  import V = SessionPicture
  import R = Results
  import Semantic

  // ---------------------------------------------------------------- the core

  predicate Drawn(core: Core.State) {
    core.ink.dirty.None?
  }

  lemma CleanupDrawn(core: Core.State, panel: Core.Panel, now: nat)
    requires C.Sound(core) && Core.PanelShaped(Size(core.w, core.h), panel)
    ensures Core.Shaped(core) && Core.RequestCleanup(core, panel, now).0.s.ink == core.ink
  {
    hide Size, Core.Tick, Core.PanelShaped, C.BaseCurrent, Core.SubmitTo, Submitted, TotalArea, Core.Pumped;
    C.ArmedSound(core);
    C.TickFrame(core.(forceCleanup := true), panel, now, true);
  }

  lemma TickDrawn(core: Core.State, panel: Core.Panel, now: nat, idle: bool)
    requires C.Sound(core) && Core.PanelShaped(Size(core.w, core.h), panel)
    ensures Core.Shaped(core)
    ensures Core.Tick(core, panel, now, false).s.ink == core.ink
    ensures Core.TickInteractive(core, panel, now, idle).s.ink == core.ink
  {
    hide Size, Core.Tick, Core.RequestCleanup, Core.PanelShaped, C.Sound, Core.AdaptiveDue;
    C.SoundShaped(core);
    CleanupDrawn(core, panel, now);
    C.TickFrame(core, panel, now, false);
  }

  lemma ProfileDrawn(core: Core.State, panel: Core.Panel, config: Config, now: nat)
    requires C.Sound(core) && Core.PanelShaped(Size(core.w, core.h), panel) && Validate(config).None?
    ensures Core.Shaped(core) && Core.ChangeProfile(core, panel, config, now).0.s.ink == core.ink
  {
    hide Size, Core.RequestCleanup, Core.PanelShaped, C.Sound;
    C.SoundShaped(core);
    C.ConfigSound(core, config);
    CleanupDrawn(Core.UpdateConfig(core, config).0, panel, now);
  }

  lemma PlaneDrawn(core: Core.State, panel: Core.Panel, now: nat, intent: Intent)
    requires C.Sound(core) && Core.PanelShaped(Size(core.w, core.h), panel) && (intent == Latest || Drawn(core))
    ensures Core.Shaped(core)
    ensures var r := Core.PresentPlane(core, panel, now, intent); r.PlaneDone? ==> Drawn(r.moved.s)
  {
    hide Size, Core.Tick, Core.Repaint, Core.PanelShaped, C.Sound;
    C.SoundShaped(core);
    var f := Core.Tick(core, panel, now, true);
    Core.TickShaped(core, panel, now, true);
    C.TickSound(core, panel, now, true);
    C.TickFrame(core, panel, now, true);
    if Core.PresentPlane(core, panel, now, intent).PlaneDone? {
      C.RepaintFrame(f.s, f.panel, now, intent, f.terminals);
    }
  }

  // ------------------------------------------------------------- the session

  predicate AllDrawn(s: State) {
    s.surface.Some? ==> Drawn(s.surface.value.core)
  }

  lemma FrameDrawn(s: State, codec: Semantic.Codec, f: Semantic.WireFrame, now: nat)
    requires Shaped(s) && AllDrawn(s)
    ensures AllDrawn(AcceptFrame(s, codec, f, now).s)
  {
    hide Core.Shaped, Semantic.Validated, ImmediateResult, CommitFrame, SemanticReason, Drawn;
    if EarlyRejection(s, f).None? && Semantic.Validated(codec, f, SemanticSurface(s)).Ok? {
      CommitDrawn(s, f, Semantic.Validated(codec, f, SemanticSurface(s)).value, now);
    }
  }

  lemma CommitDrawn(s: State, f: Semantic.WireFrame, frame: Core.Frame, now: nat)
    requires s.surface.Some? && Core.Shaped(s.surface.value.core) && AllDrawn(s)
    ensures AllDrawn(CommitFrame(s, f, frame, now).s)
  {
    hide Core.Shaped, ImmediateResult, TerminalResult, Core.CommitCheck, ApplyAll, CommitReason;
    assert Core.Commit(s.surface.value.core, frame, KnownContent(f.content), now).0.ink == s.surface.value.core.ink;
  }

  lemma PollDrawn(s: State, panel: Core.Panel, now: nat, idle: bool)
    requires R.Sane(s) && Shaped(s) && PanelFits(s, panel) && AllDrawn(s)
    ensures AllDrawn(Poll(s, panel, now, idle).step.s)
    ensures AllDrawn(RequestCleanup(s, panel, now).step.s)
  {
    hide R.Sane, Core.Shaped, Core.Tick, Core.TickInteractive, Core.RequestCleanup, Core.PanelShaped, Size, TerminalResult,
         C.Sound, DebtOf;
    R.SaneParts(s);
    if s.surface.Some? {
      TickDrawn(s.surface.value.core, panel, now, idle);
      CleanupDrawn(s.surface.value.core, panel, now);
    }
  }

  lemma PolicyDrawn(s: State, panel: Core.Panel, config: Config, now: nat)
    requires R.Sane(s) && Shaped(s) && PanelFits(s, panel) && AllDrawn(s) && Validate(config).None?
    ensures var r := SetProfile(s, panel, config, now); r.PanelDone? ==> AllDrawn(r.value.step.s)
    ensures var r := UpdateRefresh(s, config); r.Done? ==> AllDrawn(r.step.s)
  {
    hide R.Sane, Core.Shaped, Core.ChangeProfile, Core.PanelShaped, Size, TerminalResult, C.Sound, Validate;
    R.SaneParts(s);
    if s.surface.Some? { ProfileDrawn(s.surface.value.core, panel, config, now); }
  }

  lemma PlanesDrawn(s: State, panel: Core.Panel, core: Core.State, now: nat, intent: Intent)
    requires s.surface.Some? && C.Sound(core) && Core.Shaped(core) && Core.PanelShaped(Size(core.w, core.h), panel)
    requires intent == Latest || Drawn(core)
    ensures var r := PresentPlanes(s, panel, core, now, intent); r.PanelDone? ==> AllDrawn(r.value.step.s)
  {
    hide C.Sound, Core.Shaped, Core.PresentPlane, Core.PanelShaped, Size, TerminalResult;
    PlaneDrawn(core, panel, now, intent);
  }

  lemma MenuDrawn(s: State, panel: Core.Panel, luma: seq<bv8>, alpha: seq<bv8>, now: nat)
    requires R.Sane(s) && Shaped(s) && PanelFits(s, panel) && AllDrawn(s)
    requires s.surface.Some? ==> |luma| == |alpha| == Size(s.surface.value.core.w, s.surface.value.core.h)
    ensures var r := RenderMenu(s, panel, luma, alpha, now); r.PanelDone? ==> AllDrawn(r.value.step.s)
  {
    hide R.Sane, C.Sound, Core.Shaped, PresentPlanes, Core.PanelShaped, Size, PlaneOk, DebtOf;
    R.SaneParts(s);
    if s.surface.Some? {
      var core := s.surface.value.core;
      var menu := Plane(luma, alpha, AllZero(alpha), core.menu.dirty);
      R.CorePlanes(core);
      R.MenuPlaneOk(core.w, core.h, luma, alpha, core.menu);
      R.ReplacedSound(core, menu, core.peer, core.ink);
      var edited := core.(menu := menu);
      assert edited == core.(menu := menu, peer := core.peer, ink := core.ink);
      C.SoundShaped(edited);
      PlanesDrawn(s, panel, edited, now, Settled);
    }
  }

  lemma OverlayDrawn(s: State, panel: Core.Panel, u: OverlayUpdate, now: nat)
    requires R.Sane(s) && Shaped(s) && PanelFits(s, panel) && AllDrawn(s)
    ensures var r := UpdateOverlay(s, panel, u, now); r.PanelDone? ==> AllDrawn(r.value.step.s)
  {
    hide R.Sane, C.Sound, Core.Shaped, PresentPlanes, Core.PanelShaped, Size, PatchOk, R.FrozenCore, Patched;
    if OverlayAcceptable(s, u) {
      R.SaneParts(s);
      var v := s.surface.value;
      R.OverlaySane(v, u, now);
      var edited := OverlayEdited(v, u, now);
      C.SoundShaped(edited.core);
      PlanesDrawn(Sequenced(s, u).(surface := Some(edited)), panel, edited.core, now, Settled);
    }
  }

  lemma ClearInkDrawn(s: State, panel: Core.Panel, now: nat)
    requires R.Sane(s) && Shaped(s) && PanelFits(s, panel)
    ensures var r := ClearInk(s, panel, now); r.PanelDone? ==> AllDrawn(r.value.step.s)
  {
    hide R.Sane, C.Sound, Core.Shaped, PresentPlanes, Core.PanelShaped, Size, Cleared;
    R.SaneParts(s);
    if s.surface.Some? {
      var u := s.surface.value;
      F.ClearedSound(u.core);
      PlanesDrawn(s.(surface := Some(Rearmed(u, now))), panel, F.InkCleared(u.core), now, Latest);
    }
  }

  lemma RecordKeepsMode(u: Surface, r: PenRecord, now: nat, physical: bool, freezeOnDown: bool)
    requires SurfaceShaped(u)
    ensures InkRecord(u, r, now, physical, freezeOnDown).u.localInk == u.localInk
  {
    hide Core.Shaped, InkLine, OnPanel, Core.Freeze, NeedsDown, Gated, Freezes, Draws, Clamped;
  }

  lemma StepKeepsMode(u: Surface, i: PenInput, now: nat, physical: bool, freezeOnDown: bool)
    requires SurfaceShaped(u)
    ensures PenStep(u, i, now, physical, freezeOnDown).u.localInk == u.localInk
  {
    hide Core.Shaped, OnPanel, InkRecord, NeedsDown;
    if i.Inking? { RecordKeepsMode(Followed(u, i.record), i.record, now, physical, freezeOnDown); }
  }

  /** Pen input does not switch local ink. */
  lemma {:induction false} StepsKeepMode(u: Surface, inputs: seq<PenInput>, now: nat, physical: bool, freezeOnDown: bool)
    requires SurfaceShaped(u)
    ensures PenSteps(u, inputs, now, physical, freezeOnDown).u.localInk == u.localInk
    decreases |inputs|
  {
    hide SurfaceShaped, PenStep;
    if inputs != [] {
      StepKeepsMode(u, inputs[0], now, physical, freezeOnDown);
      PenStepShaped(u, inputs[0], now, physical, freezeOnDown);
      StepsKeepMode(PenStep(u, inputs[0], now, physical, freezeOnDown).u, inputs[1..], now, physical, freezeOnDown);
    }
  }

  /** What a pen call draws it presents. */
  lemma PenDrawn(s: State, panel: Core.Panel, pen: PenReports, now: nat)
    requires R.Sane(s) && Shaped(s) && PanelFits(s, panel) && AllDrawn(s)
    ensures var r := PenReport(s, panel, pen, now); r.PanelDone? ==> AllDrawn(r.value.step.s)
  {
    hide R.Sane, C.Sound, Core.Shaped, PresentPlanes, Core.PanelShaped, Size, PenSteps, OnPanel, TerminalResult, Reaching, Drawn;
    R.SaneParts(s);
    if s.surface.Some? {
      var u, inputs := s.surface.value, Reaching(s, pen, now);
      StepsKeepMode(u, inputs, now, pen.physical, s.freezeOnPenDown);
      PenStepsShaped(u, inputs, now, pen.physical, s.freezeOnPenDown);
      var inked := PenSteps(u, inputs, now, pen.physical, s.freezeOnPenDown);
      if u.localInk {
        assert C.Sound(inked.u.core) by { R.PenStepsKept(u, inputs, now, pen.physical, s.freezeOnPenDown); }
        PlanesDrawn(s.(surface := Some(inked.u)), panel, inked.u.core, now, Latest);
      } else {
        D.InkIdle(u, inputs, now, pen.physical, s.freezeOnPenDown);
      }
    }
  }

  lemma OpenDrawn(s: State, open: SurfaceOpen, w: nat, h: nat, now: nat)
    ensures var r := OpenSurface(s, open, w, h, now); r.Done? ==> AllDrawn(r.step.s)
  {
    hide TerminalResult, Size, DebtValid, Validate, CarriedDebt, TurnedOver;
  }

  lemma QuietDrawn(s: State, panel: Core.Panel, frozen: bool, on: bool, penAvailable: bool, now: nat)
    requires AllDrawn(s)
    ensures AllDrawn(R.Tried(s, SetFrozen(s, frozen, now), panel).value.step.s)
    ensures AllDrawn(R.Tried(s, SetLocalInk(s, on, penAvailable, now), panel).value.step.s)
    ensures AllDrawn(R.Tried(s, SetInkPaused(s, on, now), panel).value.step.s)
  {
    hide TerminalResult;
  }

  lemma HandleDrawn(s: State, panel: Core.Panel, codec: Semantic.Codec, e: R.Event)
    requires R.Sane(s) && Shaped(s) && PanelFits(s, panel) && R.Enabled(s, panel, e) && R.Handle(s, panel, codec, e).PanelDone?
    requires AllDrawn(s)
    ensures AllDrawn(R.Handle(s, panel, codec, e).value.step.s)
  {
    hide AcceptFrame, Poll, RequestCleanup, SetProfile, UpdateRefresh, RenderMenu, ClearInk, UpdateOverlay, SetFrozen, SetLocalInk,
         SetInkPaused, PenReport, OpenSurface, R.Sane, PanelFits, Core.PanelShaped, Size, Shaped, TerminalResult, Drawn;
    match e
    case FrameEvent(frame, now) => FrameDrawn(s, codec, frame, now);
    case PollEvent(now, idle) => PollDrawn(s, panel, now, idle);
    case FreezeEvent(frozen, now) => QuietDrawn(s, panel, frozen, false, false, now);
    case CleanupEvent(now) => PollDrawn(s, panel, now, false);
    case ProfileEvent(config, now) => PolicyDrawn(s, panel, config, now);
    case RefreshEvent(config) => PolicyDrawn(s, panel, config, 0);
    case MenuEvent(luma, alpha, now) => MenuDrawn(s, panel, luma, alpha, now);
    case OverlayEvent(update, now) => OverlayDrawn(s, panel, update, now);
    case PenEvent(pen, now) => PenDrawn(s, panel, pen, now);
    case OpenEvent(open, w, h, now) => OpenDrawn(s, open, w, h, now);
    case ClearInkEvent(now) => ClearInkDrawn(s, panel, now);
    case LocalInkEvent(enabled, penAvailable, now) => QuietDrawn(s, panel, false, enabled, penAvailable, now);
    case PauseInkEvent(paused, now) => QuietDrawn(s, panel, false, paused, false, now);
    case CloseEvent(surfaceId, generation) =>
  }

  lemma {:induction false} SessionDrawn(s: State, panel: Core.Panel, codec: Semantic.Codec, events: seq<R.Event>)
    requires R.Sane(s) && PanelFits(s, panel) && R.Serve(s, panel, codec, events).Some? && AllDrawn(s)
    ensures var r := R.Serve(s, panel, codec, events).value; AllDrawn(r.s) && R.Sane(r.s) && PanelFits(r.s, r.panel)
    decreases |events|
  {
    hide R.Handle, R.Sane, R.Enabled, PanelFits, R.Kept, AllDrawn;
    if events != [] {
      R.SaneParts(s);
      var p := R.Handle(s, panel, codec, events[0]).value;
      R.HandleKept(s, panel, codec, events[0]);
      R.KeptSane(s, R.Received(events[0]), p);
      HandleDrawn(s, panel, codec, events[0]);
      SessionDrawn(p.step.s, p.panel, codec, events[1..]);
    }
  }

  /** After any session run that shows its picture, the picture is right after
      `clear_ink` exactly when no ink pixel can be seen outside what the pending
      frame recomposes, or the base is lost. */
  lemma SessionClearsInk(s: State, panel: Core.Panel, codec: Semantic.Codec, events: seq<R.Event>, now: nat)
    requires R.Sane(s) && PanelFits(s, panel) && R.Serve(s, panel, codec, events).Some? && s.surface.None?
    requires V.ShownAtEnd(true, events) && R.Serve(s, panel, codec, events).value.s.surface.Some?
    ensures var r := R.Serve(s, panel, codec, events).value;
            var core, c := r.s.surface.value.core, F.InkCleared(r.s.surface.value.core);
            && Core.Shaped(core) && Core.Shaped(c) && Core.PanelShaped(Size(c.w, c.h), r.panel)
            && var p := Core.PresentPlane(c, r.panel, now, Latest);
               && p.PlaneDone?
               && (C.Inv(p.moved.s) <==>
                     (F.BaseLives(c, r.panel) ==>
                        forall i :: 0 <= i < Size(core.w, core.h) && !F.Recomposes(c, i) ==> !F.InkShows(core, i)))
  {
    hide R.Serve, R.Sane, Core.PanelShaped, Core.Shaped, C.Inv, Core.PresentPlane, F.Recomposes, F.InkShows, F.BaseLives, Size,
         F.InkCleared, V.ShownAtEnd;
    SessionDrawn(s, panel, codec, events);
    V.SessionShown(s, panel, codec, events, true);
    var r := R.Serve(s, panel, codec, events).value;
    var core := r.s.surface.value.core;
    C.InvSound(core);
    assert Core.PanelShaped(Size(core.w, core.h), r.panel);
    F.ClearedInkStaysVisible(core, r.panel, now);
    F.ClearedFields(core);
    forall i: nat | i < Size(core.w, core.h) ensures F.NothingLeft(core, i) <==> !F.InkShows(core, i) {
      NothingDirty(core, i);
    }
  }

  lemma NothingDirty(core: Core.State, i: nat)
    requires Core.Shaped(core) && Core.Shaped(F.InkCleared(core)) && Drawn(core) && i < Size(core.w, core.h)
    ensures F.NothingLeft(core, i) <==> !F.InkShows(core, i)
  {
    hide Size, F.InkShows, Core.Picture;
    C.NotCovered(core.w, i);
  }
}
