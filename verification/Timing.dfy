/** When things happen: the deadline of a frame counted from its commit, the
    interval between frames, and cleanups that are asked for or earned. */
module Timing {
  import opened Geometry
  import opened Pixels
  import opened Raster
  import opened Regions
  import opened Tiles
  import opened Ink
  import opened Refresh
  import opened Core
  import opened Composition
  import opened Cadence

  // ---------------------------------------------------------------- deadlines

  /** The first frame is due at once, every other one a frame interval after the
      last presentation, and a settled one no later than its own deadline. */
  predicate Due(s: State, intent: Intent, at: nat, now: nat) {
    || (s.lastPresentAt.None? && now >= at)
    || (s.lastPresentAt.Some? && now >= s.lastPresentAt.value + s.frameInterval)
    || (intent == Settled && now >= at + s.settledDeadline)
  }

  /** A tick resolves the pending frame if and only if it is due, and before that
      it does nothing at all. */
  lemma TickWhenDue(s: State, panel: Panel, now: nat)
    requires Sound(s) && PanelShaped(Size(s.w, s.h), panel) && s.pending.Some?
    ensures Shaped(s)
    ensures var m, p := Tick(s, panel, now, false), s.pending.value;
            && (Due(s, p.intent, p.acceptedAt, now) ==>
                  |m.terminals| == 1 && m.terminals[0].frameId == p.frameId && m.s.pending.None?)
            && (!Due(s, p.intent, p.acceptedAt, now) ==> m == Moved(s, panel, []))
  {
    hide Size, Sound, PanelShaped, Present, Shaped;
    SoundShaped(s);
    TickShaped(s, panel, now, false);
    if !Next(panel).Fail? {
      RestShaped(Size(s.w, s.h), panel);
      PresentResolves(s, Pumped(panel), now);
      PresentNames(s, Pumped(panel), now);
    }
  }

  lemma PresentNames(s: State, panel: Panel, now: nat)
    requires Shaped(s) && s.pending.Some? && PanelShaped(Size(s.w, s.h), panel)
    ensures var m := Present(s, panel, now); |m.terminals| == 1 && m.terminals[0].frameId == s.pending.value.frameId
  {
    hide Size, TickDecision, SubmitDamage, SubmitImage, TickAccepted, Painted, Driven, PanelShaped, Shaped;
    ImageSize(s);
  }

  /** The same from the commit on: the clock of a frame starts when it is taken,
      also when it supersedes an earlier one. */
  lemma CommittedWhenDue(s: State, f: Frame, content: Content, at: nat, panel: Panel, now: nat)
    requires Sound(s) && PanelShaped(Size(s.w, s.h), panel)
    requires Commit(s, f, content, at).1.Committed?
    ensures var t := Commit(s, f, content, at).0;
            && Shaped(t) && (t.w, t.h) == (s.w, s.h)
            && var m := Tick(t, panel, now, false);
               && (Due(s, f.intent, at, now) ==> |m.terminals| == 1 && m.terminals[0].frameId == f.frameId)
               && (!Due(s, f.intent, at, now) ==> m == Moved(t, panel, []))
  {
    hide Size, Sound, Shaped, PanelShaped, Tick, ApplyAll, ValidateRegions;
    SoundShaped(s);
    CommitSound(s, f, content, at);
    var t := Commit(s, f, content, at).0;
    TickWhenDue(t, panel, now);
  }

  /** The frame interval is the shortest, in whole microseconds, that stays within
      the frame rate, which is never taken for less than one frame a second. */
  lemma IntervalKeepsRate(w: nat, h: nat, format: Format, maxFpsX100: nat, deadline: nat, config: Config)
    ensures var s := NewState(w, h, format, maxFpsX100, deadline, config);
            && s.settledDeadline == deadline
            && s.frameInterval >= 1
            && s.frameInterval * Max(maxFpsX100, 100) >= 100_000_000
            && (s.frameInterval - 1) * Max(maxFpsX100, 100) < 100_000_000
  {
    CeilBounds(100_000_000, Max(maxFpsX100, 100));
  }

  lemma CeilBounds(a: nat, b: nat)
    requires a > 0 && b > 0
    ensures var q := CeilDiv(a, b); q >= 1 && q * b >= a && (q - 1) * b < a
  {
  }

  // ----------------------------------------------------------------- cleanups

  /** Screens of partial updates and idle microseconds that earn a cleanup. */
  predicate Earns(profile: Profile, size: nat, pixels: nat, idle: nat) {
    || (profile == Realtime && pixels >= size * 8 && idle >= 10_000_000)
    || (profile == Animate && pixels >= size * 6 && idle >= 8_000_000)
    || (profile == Balanced && pixels >= size * 4 && idle >= 6_000_000)
    || (profile == Reading && pixels >= size * 3 && idle >= 5_000_000)
    || (profile == HighQuality && pixels >= size * 2 && idle >= 4_000_000)
  }

  /** An idle tick with nothing pending touches the panel if and only if the budget
      of the profile is spent, the idle time is over, and a failure, if there was
      one, is five seconds old. */
  lemma IdleCleanupExactly(s: State, panel: Panel, now: nat)
    requires Sound(s) && PanelShaped(Size(s.w, s.h), panel) && s.pending.None?
    ensures Shaped(s)
    ensures TickInteractive(s, panel, now, true) != Moved(s, panel, []) <==>
            && s.presentedId != 0 && s.lastPartialAt.Some?
            && Earns(s.policy.config.profile, Size(s.w, s.h), s.partialPixels, SatSub(now, s.lastPartialAt.value))
            && (s.lastIdleFailure.Some? ==> now >= s.lastIdleFailure.value + 5_000_000)
    ensures var m := TickInteractive(s, panel, now, true);
            m != Moved(s, panel, []) ==>
              m.s.lastIdleFailure == if |m.panel.log| > |panel.log| then None else Some(now)
  {
    hide Size, PanelShaped, Sound, Shaped, RequestCleanup, Tick;
    CleanupTells(s, panel, now);
    SoundShaped(s);
    TickIdle(s, panel, now, false);
    if s.presentedId != 0 { CleanupTouches(s, panel, now); }
    BudgetMeans(s, now);
  }

  lemma BudgetMeans(s: State, now: nat)
    ensures AdaptiveDue(s, now) <==>
            && s.presentedId != 0 && s.lastPartialAt.Some?
            && Earns(s.policy.config.profile, Size(s.w, s.h), s.partialPixels, SatSub(now, s.lastPartialAt.value))
  {
    hide Size, SatSub;
  }

  /** The presented picture is submitted again: the panel is never left out. */
  lemma CleanupTouches(s: State, panel: Panel, now: nat)
    requires Shaped(s) && PanelShaped(Size(s.w, s.h), panel) && s.pending.None? && s.presentedId != 0
    ensures RequestCleanup(s, panel, now).0.panel != panel
  {
    hide Size, PanelShaped, Shaped, Maintenance;
    var armed := s.(forceCleanup := true);
    SameShape(s);
    MaintenanceTells(armed, panel, now);
    MaintenanceAnswers(armed, panel, now);
  }

  lemma SameShape(s: State)
    requires Shaped(s)
    ensures Shaped(s.(forceCleanup := true))
  {
  }

  lemma MaintenanceAnswers(s: State, panel: Panel, now: nat)
    requires Shaped(s) && PanelShaped(Size(s.w, s.h), panel)
    ensures var r := Maintenance(s, panel, now); r.failed ==> |r.panel.script| < |panel.script|
  {
    hide Size, PanelShaped, Shaped, Painted, Driven, MaintenanceDecision;
    RestShaped(Size(s.w, s.h), panel);
    ShapedPresented(s);
  }

  lemma ShapedPresented(s: State)
    requires Shaped(s)
    ensures s.w > 0 && |s.presented| == Size(s.w, s.h)
  {
  }

  /** What a cleanup reports is what happened: performed means that the panel
      accepted a complete refresh and owes nothing; otherwise it accepted none,
      and the cleanup is still owed. */
  lemma CleanupTells(s: State, panel: Panel, now: nat)
    requires Sound(s) && PanelShaped(Size(s.w, s.h), panel)
    ensures Shaped(s)
    ensures var (m, report) := RequestCleanup(s, panel, now);
            && (report.performed ==>
                  && |m.panel.log| == |panel.log| + 1 && m.panel.log[|panel.log|].complete
                  && !m.s.uncertain && m.s.settle == [] && !m.s.forceCleanup)
            && (!report.performed ==> m.panel.log == panel.log && m.s.forceCleanup)
            && (report.pending <==> !report.performed)
            && (report.failed ==> m.s.uncertain && !m.s.baseValid)
            && (report.failed <==> !report.performed && (s.pending.Some? || s.presentedId != 0))
  {
    hide Size, PanelShaped, Sound, Shaped, Tick, Maintenance;
    SoundShaped(s);
    var armed := s.(forceCleanup := true);
    ArmedSound(s);
    SoundShaped(armed);
    if s.pending.Some? {
      ForcedFlush(armed, panel, now);
    } else if s.presentedId != 0 {
      MaintenanceTells(armed, panel, now);
    }
  }

  lemma ForcedFlush(s: State, panel: Panel, now: nat)
    requires Shaped(s) && PanelShaped(Size(s.w, s.h), panel) && s.pending.Some? && s.forceCleanup
    ensures var m := Tick(s, panel, now, true);
            && |m.terminals| == 1
            && (m.terminals[0].outcome == Presented || m.terminals[0].outcome == BackendFailure)
            && (m.terminals[0].outcome == Presented ==>
                  && m.terminals[0].complete
                  && |m.panel.log| == |panel.log| + 1 && m.panel.log[|panel.log|].complete
                  && !m.s.uncertain && m.s.settle == [] && !m.s.forceCleanup)
            && (m.terminals[0].outcome == BackendFailure ==>
                  m.panel.log == panel.log && m.s.forceCleanup && m.s.uncertain && !m.s.baseValid)
  {
    hide Size, PanelShaped, Shaped, TickDecision, SubmitDamage, SubmitImage, Painted, Driven, TotalArea, MergeTiled, Submitted;
    RestShaped(Size(s.w, s.h), panel);
    ForcedCompletes(s);
    ImageSize(s);
    ShapedPresented(s);
  }

  lemma MaintenanceTells(s: State, panel: Panel, now: nat)
    requires Shaped(s) && PanelShaped(Size(s.w, s.h), panel) && s.forceCleanup
    ensures var r := Maintenance(s, panel, now);
            && (!r.failed ==>
                  && |r.panel.log| == |panel.log| + 1 && r.panel.log[|panel.log|].complete
                  && !r.s.uncertain && r.s.settle == [] && !r.s.forceCleanup)
            && (r.failed ==> r.panel.log == panel.log && r.s.forceCleanup && r.s.uncertain && !r.s.baseValid)
  {
    hide Size, PanelShaped, Shaped, Painted, Driven, TotalArea, Submitted;
    RestShaped(Size(s.w, s.h), panel);
    ShapedPresented(s);
  }

  /** A changed profile, or a cleanup that is armed, refreshes a panel that shows
      something, under the new configuration; the same profile again leaves the
      panel alone. */
  lemma ProfileFlushes(s: State, panel: Panel, config: Config, now: nat)
    requires Sound(s) && PanelShaped(Size(s.w, s.h), panel) && Validate(config).None?
    ensures Shaped(s)
    ensures var (m, report) := ChangeProfile(s, panel, config, now);
            var wanted := config != s.policy.config || s.forceCleanup;
            && m.s.policy.config == config && m.s.damageTile == config.damageTile
            && (wanted ==> report.pending == !report.performed && m.s.forceCleanup == !report.performed)
            && (wanted && (s.pending.Some? || s.presentedId != 0) ==> report.performed != report.failed)
            && (report.performed ==> |m.panel.log| == |panel.log| + 1 && m.panel.log[|panel.log|].complete)
            && (!report.performed ==> m.panel.log == panel.log)
            && (!wanted ==> m.panel == panel && m.terminals == [] && m.s == s.(policy := m.s.policy, damageTile := m.s.damageTile))
  {
    hide Size, PanelShaped, Sound, Shaped, RequestCleanup, Validate;
    SoundShaped(s);
    ConfigSound(s, config);
    var next := UpdateConfig(s, config).0;
    SoundShaped(next);
    CleanupTells(next, panel, now);
    CleanupKeepsConfig(next, panel, now);
  }

  lemma CleanupKeepsConfig(s: State, panel: Panel, now: nat)
    requires Sound(s) && Shaped(s) && PanelShaped(Size(s.w, s.h), panel)
    ensures var t := RequestCleanup(s, panel, now).0.s; t.policy.config == s.policy.config && t.damageTile == s.damageTile
  {
    hide Size, PanelShaped, Sound, Shaped, Tick, TotalArea, Painted, Driven;
    var armed := s.(forceCleanup := true);
    ArmedSound(s);
    SoundShaped(armed);
    TickFrame(armed, panel, now, true);
    RestShaped(Size(s.w, s.h), panel);
    ShapedPresented(s);
  }

  // ------------------------------------------------------------------ partials

  /** What is known about partial updates after a submission of `area` pixels. */
  predicate Recorded(s: State, t: State, d: Decision, area: nat, now: nat) {
    && t.partialPixels == (if d.complete then 0 else s.partialPixels + area)
    && t.lastPartialAt == (if d.complete then None else Some(now))
  }

  /** Every partial submission of a frame is counted with its pixels and its time,
      a complete one starts the count again, and nothing else moves it. */
  lemma FramesRecorded(s: State, panel: Panel, now: nat, ignoreDeadline: bool)
    requires Sound(s) && PanelShaped(Size(s.w, s.h), panel)
    ensures Shaped(s)
    ensures var m := Tick(s, panel, now, ignoreDeadline);
            && (m.panel.log == panel.log ==> (m.s.partialPixels, m.s.lastPartialAt) == (s.partialPixels, s.lastPartialAt))
            && (m.panel.log != panel.log ==>
                  && s.pending.Some? && |m.panel.log| == |panel.log| + 1
                  && Recorded(s, m.s, m.panel.log[|panel.log|], TotalArea(SubmitDamage(s)), now))
  {
    hide Size, PanelShaped, Sound, Shaped, TickDecision, SubmitDamage, SubmitImage, MergeTiled, Submitted, Painted, Driven, TotalArea, Deadline;
    SoundShaped(s);
    RestShaped(Size(s.w, s.h), panel);
    if s.pending.Some? { ImageSize(s); }
  }

  /** So is every presentation of a plane. */
  lemma PlanesRecorded(s: State, panel: Panel, now: nat, intent: Intent)
    requires Sound(s) && PanelShaped(Size(s.w, s.h), panel)
    ensures Shaped(s)
    ensures var r := Repaint(s, panel, now, intent, []);
            r.PlaneDone? ==>
              && (r.moved.panel.log == panel.log ==>
                    (r.moved.s.partialPixels, r.moved.s.lastPartialAt) == (s.partialPixels, s.lastPartialAt))
              && (r.moved.panel.log != panel.log ==>
                    && |r.moved.panel.log| == |panel.log| + 1
                    && var area := TotalArea(PlaneDamage(s, intent, Painted(s.w, s.working, Picture(s), PlaneRegions(s, intent))));
                       Recorded(s, r.moved.s, r.moved.panel.log[|panel.log|], area, now))
  {
    hide Size, PanelShaped, Sound, PlaneDecision, PlaneDamage, MergeTiled, Submitted, Painted, Driven, TotalArea, Picture, PlaneOk;
    SoundShaped(s);
    PictureSize(s);
  }
}
