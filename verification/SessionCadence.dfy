/** The periodic cleanup over whole sessions: the debt counter moves from surface
    to surface, so the bound holds for the log of the panel across them. */
module SessionCadence {
  import opened Geometry
  import opened Pixels
  import opened Raster
  import opened Regions
  import opened Tiles
  import opened Ink
  import opened Refresh
  import opened Receiver
  import Core
  import C = Composition
  import D = Cadence
  import F = Findings
  import R = Results
  import Semantic

  /** The counter, wherever it is kept, counts the partial submissions since the
      last complete one, and the interval is `n`. Nothing draws ink. */
  ghost predicate Paced(s: State, p: Core.Panel, n: nat, carried: nat) {
    && 0 < n <= U32_MAX
    && s.policy.partialEnabled
    && s.policy.cleanupAfter == n
    && CarriedDebt(s).partials == D.SinceComplete(carried, p.log)
    && D.Bounded(n, carried, p.log)
    && D.UnitPanel(p)
    && (s.surface.Some? ==> D.Paced(s.surface.value.core, p, n, carried) && !s.surface.value.localInk)
  }

  /** Events that switch no local ink on and keep the interval. */
  predicate PacedEvent(e: R.Event, n: nat) {
    match e
    case ProfileEvent(config, _) => config.partialEnabled && config.cleanupAfter == n
    case RefreshEvent(config) => config.partialEnabled && config.cleanupAfter == n
    case LocalInkEvent(enabled, _, _) => !enabled
    case OverlayEvent(update, _) => update.localInk != Some(true)
    case _ => true
  }

  lemma CorePaced(core: Core.State, p: Core.Panel, n: nat, carried: nat)
    requires D.Paced(core, p, n, carried)
    ensures 0 < n <= U32_MAX && D.Bounded(n, carried, p.log) && D.UnitPanel(p)
    ensures core.policy.presented == D.SinceComplete(carried, p.log)
  {
  }

  lemma FramePaced(s: State, panel: Core.Panel, codec: Semantic.Codec, f: Semantic.WireFrame, now: nat, n: nat, carried: nat)
    requires R.Sane(s) && Shaped(s) && Paced(s, panel, n, carried)
    ensures Paced(AcceptFrame(s, codec, f, now).s, panel, n, carried)
  {
    hide R.Sane, Core.Shaped, Semantic.Validated, ImmediateResult, TerminalResult, Core.CommitCheck, ApplyAll,
         D.Bounded, D.UnitPanel, D.SinceComplete;
  }

  lemma PollPaced(s: State, panel: Core.Panel, now: nat, idle: bool, n: nat, carried: nat)
    requires R.Sane(s) && Shaped(s) && PanelFits(s, panel) && Paced(s, panel, n, carried)
    ensures var p := Poll(s, panel, now, idle); Paced(p.step.s, p.panel, n, carried)
    ensures var p := RequestCleanup(s, panel, now); Paced(p.step.s, p.panel, n, carried)
  {
    hide R.Sane, Core.Shaped, Core.Tick, Core.TickInteractive, Core.RequestCleanup, Core.PanelShaped, Size, TerminalResult,
         D.Bounded, D.UnitPanel, D.SinceComplete, C.Sound;
    R.SaneParts(s);
    if s.surface.Some? {
      var core := s.surface.value.core;
      D.InteractivePaced(core, panel, now, idle, n, carried);
      D.TickPaced(core, panel, now, false, n, carried);
      D.CleanupPaced(core, panel, now, n, carried);
    }
  }

  lemma PolicyPaced(s: State, panel: Core.Panel, config: Config, now: nat, n: nat, carried: nat)
    requires R.Sane(s) && Shaped(s) && PanelFits(s, panel) && Paced(s, panel, n, carried) && Validate(config).None?
    requires config.partialEnabled && config.cleanupAfter == n
    ensures var r := SetProfile(s, panel, config, now); r.PanelDone? ==> Paced(r.value.step.s, r.value.panel, n, carried)
    ensures var r := UpdateRefresh(s, config); r.Done? ==> Paced(r.step.s, panel, n, carried)
  {
    hide R.Sane, Core.Shaped, Core.ChangeProfile, Core.PanelShaped, Size, TerminalResult, D.Bounded, D.UnitPanel,
         D.SinceComplete, C.Sound, Validate;
    R.SaneParts(s);
    if s.surface.Some? {
      D.ProfilePaced(s.surface.value.core, panel, config, now, n, carried);
    }
  }

  /** Presented planes of a surface without local ink. */
  lemma PlanesPaced(s: State, panel: Core.Panel, core: Core.State, now: nat, n: nat, carried: nat)
    requires s.surface.Some? && !s.surface.value.localInk && C.Sound(core) && Core.Shaped(core)
    requires Core.PanelShaped(Size(core.w, core.h), panel) && D.Paced(core, panel, n, carried)
    requires s.policy.partialEnabled && s.policy.cleanupAfter == n
    ensures var r := PresentPlanes(s, panel, core, now, Settled);
            r.PanelDone? ==> Paced(r.value.step.s, r.value.panel, n, carried) && r.value.step.s.surface.Some?
  {
    hide C.Sound, Core.Shaped, Core.PresentPlane, Core.PanelShaped, Size, TerminalResult, D.Bounded, D.UnitPanel, D.SinceComplete;
    D.PlanePaced(core, panel, now, n, carried);
  }

  lemma MenuPaced(s: State, panel: Core.Panel, luma: seq<bv8>, alpha: seq<bv8>, now: nat, n: nat, carried: nat)
    requires R.Sane(s) && Shaped(s) && PanelFits(s, panel) && Paced(s, panel, n, carried)
    requires s.surface.Some? ==> |luma| == |alpha| == Size(s.surface.value.core.w, s.surface.value.core.h)
    ensures var r := RenderMenu(s, panel, luma, alpha, now); r.PanelDone? ==> Paced(r.value.step.s, r.value.panel, n, carried)
  {
    hide R.Sane, C.Sound, Core.Shaped, PresentPlanes, Core.PanelShaped, Size, PlaneOk, D.Bounded, D.UnitPanel, D.SinceComplete;
    R.SaneParts(s);
    if s.surface.Some? {
      var core := s.surface.value.core;
      var menu := Plane(luma, alpha, AllZero(alpha), core.menu.dirty);
      R.CorePlanes(core);
      R.MenuPlaneOk(core.w, core.h, luma, alpha, core.menu);
      R.ReplacedSound(core, menu, core.peer, core.ink);
      var edited := core.(menu := menu);
      assert edited == core.(menu := menu, peer := core.peer, ink := core.ink);
      C.SoundShaped(edited);
      PlanesPaced(s, panel, edited, now, n, carried);
    }
  }

  lemma OverlayPaced(s: State, panel: Core.Panel, u: OverlayUpdate, now: nat, n: nat, carried: nat)
    requires R.Sane(s) && Shaped(s) && PanelFits(s, panel) && Paced(s, panel, n, carried) && u.localInk != Some(true)
    ensures var r := UpdateOverlay(s, panel, u, now); r.PanelDone? ==> Paced(r.value.step.s, r.value.panel, n, carried)
  {
    hide R.Sane, C.Sound, Core.Shaped, PresentPlanes, Core.PanelShaped, Size, PatchOk, R.FrozenCore, D.Bounded, D.UnitPanel,
         D.SinceComplete, Patched, Cleared;
    if OverlayAcceptable(s, u) {
      R.SaneParts(s);
      var v := s.surface.value;
      R.OverlaySane(v, u, now);
      var edited := OverlayEdited(v, u, now);
      C.SoundShaped(edited.core);
      PlanesPaced(Sequenced(s, u).(surface := Some(edited)), panel, edited.core, now, n, carried);
    }
  }

  lemma ClearInkPaced(s: State, panel: Core.Panel, now: nat, n: nat, carried: nat)
    requires R.Sane(s) && Shaped(s) && PanelFits(s, panel) && Paced(s, panel, n, carried)
    ensures var r := ClearInk(s, panel, now); r.PanelDone? ==> Paced(r.value.step.s, r.value.panel, n, carried)
  {
    hide R.Sane, C.Sound, Core.Shaped, Core.PresentPlane, Core.Tick, Core.PanelShaped, Size, TerminalResult, D.Bounded, D.UnitPanel,
         D.SinceComplete, Cleared;
    R.SaneParts(s);
    if s.surface.Some? {
      var core := s.surface.value.core;
      F.ClearedSound(core);
      F.ClearedInkIsNotRepainted(core, panel, now);
      D.TickPaced(F.InkCleared(core), panel, now, true, n, carried);
    }
  }

  /** Without local ink, pen reports leave the core alone. */
  lemma {:induction false} InkIdle(u: Surface, inputs: seq<PenInput>, now: nat, physical: bool, freezeOnDown: bool)
    requires SurfaceShaped(u) && !u.localInk
    ensures var i := PenSteps(u, inputs, now, physical, freezeOnDown); i.u.core == u.core && !i.u.localInk
    decreases |inputs|
  {
    hide Core.Shaped, InkLine;
    if inputs != [] {
      PenStepShaped(u, inputs[0], now, physical, freezeOnDown);
      InkIdle(PenStep(u, inputs[0], now, physical, freezeOnDown).u, inputs[1..], now, physical, freezeOnDown);
    }
  }

  lemma PenPaced(s: State, panel: Core.Panel, pen: PenReports, now: nat, n: nat, carried: nat)
    requires Shaped(s) && PanelFits(s, panel) && Paced(s, panel, n, carried)
    ensures var r := PenReport(s, panel, pen, now); r.PanelDone? ==> Paced(r.value.step.s, r.value.panel, n, carried)
  {
    hide Core.Shaped, PresentPlanes, Core.PanelShaped, Size, PenSteps, OnPanel, TerminalResult, D.Bounded, D.UnitPanel,
         D.SinceComplete, Reaching;
    if s.surface.Some? {
      InkIdle(s.surface.value, Reaching(s, pen, now), now, pen.physical, s.freezeOnPenDown);
    }
  }

  lemma OpenPaced(s: State, panel: Core.Panel, open: SurfaceOpen, w: nat, h: nat, now: nat, n: nat, carried: nat)
    requires Paced(s, panel, n, carried)
    ensures var r := OpenSurface(s, open, w, h, now); r.Done? ==> Paced(r.step.s, panel, n, carried)
  {
    hide TerminalResult, D.Bounded, D.UnitPanel, D.SinceComplete, Size, DebtValid, Validate;
  }

  lemma ClosePaced(s: State, panel: Core.Panel, surfaceId: nat, generation: nat, n: nat, carried: nat)
    requires Paced(s, panel, n, carried)
    ensures Paced(CloseSurface(s, surfaceId, generation).s, panel, n, carried)
  {
    hide TerminalResult, D.Bounded, D.UnitPanel, D.SinceComplete;
  }

  lemma HandlePaced(s: State, panel: Core.Panel, codec: Semantic.Codec, e: R.Event, n: nat, carried: nat)
    requires R.Sane(s) && Shaped(s) && PanelFits(s, panel) && R.Enabled(s, panel, e) && R.Handle(s, panel, codec, e).PanelDone?
    requires Paced(s, panel, n, carried) && PacedEvent(e, n)
    ensures var p := R.Handle(s, panel, codec, e).value; Paced(p.step.s, p.panel, n, carried)
  {
    hide AcceptFrame, Poll, RequestCleanup, SetProfile, UpdateRefresh, RenderMenu, ClearInk, UpdateOverlay,
         PenReport, OpenSurface, CloseSurface, R.Sane, PanelFits, Core.PanelShaped, Size, Shaped, D.Bounded, D.UnitPanel,
         D.SinceComplete, TerminalResult;
    match e
    case FrameEvent(frame, now) => FramePaced(s, panel, codec, frame, now, n, carried);
    case PollEvent(now, idle) => PollPaced(s, panel, now, idle, n, carried);
    case FreezeEvent(frozen, now) =>
    case CleanupEvent(now) => PollPaced(s, panel, now, false, n, carried);
    case ProfileEvent(config, now) => PolicyPaced(s, panel, config, now, n, carried);
    case RefreshEvent(config) => PolicyPaced(s, panel, config, 0, n, carried);
    case MenuEvent(luma, alpha, now) => MenuPaced(s, panel, luma, alpha, now, n, carried);
    case OverlayEvent(update, now) => OverlayPaced(s, panel, update, now, n, carried);
    case PenEvent(pen, now) => PenPaced(s, panel, pen, now, n, carried);
    case OpenEvent(open, w, h, now) => OpenPaced(s, panel, open, w, h, now, n, carried);
    case ClearInkEvent(now) => ClearInkPaced(s, panel, now, n, carried);
    case LocalInkEvent(enabled, penAvailable, now) =>
    case PauseInkEvent(paused, now) =>
    case CloseEvent(surfaceId, generation) => ClosePaced(s, panel, surfaceId, generation, n, carried);
  }

  /** Over every session run the counter keeps counting, surface after surface. */
  lemma {:induction false} SessionPaced(s: State, panel: Core.Panel, codec: Semantic.Codec, events: seq<R.Event>, n: nat,
                                        carried: nat)
    requires R.Sane(s) && PanelFits(s, panel) && R.Serve(s, panel, codec, events).Some?
    requires Paced(s, panel, n, carried) && forall k :: 0 <= k < |events| ==> PacedEvent(events[k], n)
    ensures var r := R.Serve(s, panel, codec, events).value; Paced(r.s, r.panel, n, carried)
    decreases |events|
  {
    hide R.Handle, R.Sane, R.Enabled, PanelFits, R.Kept, Paced;
    if events != [] {
      R.SaneParts(s);
      var p := R.Handle(s, panel, codec, events[0]).value;
      R.HandleKept(s, panel, codec, events[0]);
      R.KeptSane(s, R.Received(events[0]), p);
      HandlePaced(s, panel, codec, events[0], n, carried);
      assert forall k :: 0 <= k < |events[1..]| ==> events[1..][k] == events[k + 1];
      SessionPaced(p.step.s, p.panel, codec, events[1..], n, carried);
    }
  }

  /** The periodic cleanup over a whole session with interval `n`, from no surface
      and a carried debt of at most `n`: any `n + 1` consecutive accepted
      submissions contain a complete refresh, also across surfaces. */
  lemma PeriodicCleanupInSession(s: State, panel: Core.Panel, codec: Semantic.Codec, events: seq<R.Event>, n: nat, start: nat)
    returns (j: nat)
    requires R.Sane(s) && PanelFits(s, panel) && R.Serve(s, panel, codec, events).Some?
    requires s.surface.None? && D.UnitPanel(panel) && panel.log == []
    requires 0 < n <= U32_MAX && s.policy.partialEnabled && s.policy.cleanupAfter == n && s.debtCarried.partials <= n
    requires forall k :: 0 <= k < |events| ==> PacedEvent(events[k], n)
    requires start + n + 1 <= |R.Serve(s, panel, codec, events).value.panel.log|
    ensures start <= j < start + n + 1 && R.Serve(s, panel, codec, events).value.panel.log[j].complete
  {
    hide R.Serve, R.Sane, PanelFits, D.UnitPanel;
    var carried := s.debtCarried.partials;
    SessionPaced(s, panel, codec, events, n, carried);
    j := D.WindowCleans(n, carried, R.Serve(s, panel, codec, events).value.panel.log, start);
  }
}
