/** How often the panel is cleaned: the debt counter counts the partial
    submissions since the last complete one, a periodic interval bounds it, and an
    idle cleanup is earned by enough of them. */
module Cadence {
  import opened Geometry
  import opened Pixels
  import opened Raster
  import opened Regions
  import opened Tiles
  import opened Ink
  import opened Refresh
  import opened Core
  import opened Composition
  import opened PanelSafety

  /** Partial submissions since the last complete one, after `carried` earlier
      ones on a replaced surface. */
  function SinceComplete(carried: nat, log: seq<Decision>): nat {
    if log == [] then carried
    else if log[|log| - 1].complete then 0
    else SinceComplete(carried, log[..|log| - 1]) + 1
  }

  ghost predicate UnitPanel(p: Panel) {
    forall k :: 0 <= k < |p.script| && p.script[k].Accept? ==> p.script[k].physical == 1
  }

  ghost predicate Bounded(n: nat, carried: nat, log: seq<Decision>) {
    forall k :: 0 <= k <= |log| ==> SinceComplete(carried, log[..k]) <= n
  }

  ghost predicate Paced(s: State, p: Panel, n: nat, carried: nat) {
    && 0 < n <= U32_MAX
    && s.policy.config.partialEnabled
    && s.policy.config.cleanupAfter == n
    && s.policy.presented == SinceComplete(carried, p.log)
    && Bounded(n, carried, p.log)
    && UnitPanel(p)
  }

  lemma UnitRest(p: Panel)
    requires UnitPanel(p)
    ensures UnitPanel(p.(script := Rest(p))) && UnitPanel(Pumped(p))
    ensures Next(p).Accept? ==> Next(p).physical == 1
  {
    assert forall k :: 0 <= k < |Rest(p)| ==> Rest(p)[k] == p.script[k + 1];
  }

  /** One more submission, decided by the policy it is charged to. */
  lemma Charge(policy: Policy, d: Decision, n: nat, carried: nat, log: seq<Decision>)
    requires 0 < n <= U32_MAX && policy.presented == SinceComplete(carried, log) && Bounded(n, carried, log)
    requires policy.presented >= n ==> d.complete
    ensures Submitted(policy, d, 1).presented == SinceComplete(carried, log + [d])
    ensures Bounded(n, carried, log + [d])
  {
    var next := log + [d];
    assert next[..|next| - 1] == log;
    assert log[..|log|] == log;
    forall k | 0 <= k <= |next| ensures SinceComplete(carried, next[..k]) <= n {
      if k <= |log| {
        assert next[..k] == log[..k];
      } else {
        assert next[..k] == next;
      }
    }
  }

  lemma DueCompletes(p: Policy, intent: Intent, content: Content, damagePixels: nat, panelPixels: nat, force: bool)
    requires p.config.cleanupAfter > 0 && p.presented >= p.config.cleanupAfter
    ensures Decide(p, intent, content, damagePixels, panelPixels, force).complete
  {
  }

  lemma TickDueCompletes(s: State)
    requires Shaped(s) && s.pending.Some?
    requires s.policy.config.cleanupAfter > 0 && s.policy.presented >= s.policy.config.cleanupAfter
    ensures TickDecision(s).complete
  {
    hide Size, Shaped, TickDamage, Decide;
    var p := s.pending.value;
    DueCompletes(s.policy, p.intent, p.content, TotalArea(TickDamage(s)), Size(s.w, s.h),
                 p.forceCleanup || s.forceCleanup || StaticDue(s));
  }

  lemma TickPaced(s: State, panel: Panel, now: nat, ignoreDeadline: bool, n: nat, carried: nat)
    requires Sound(s) && PanelShaped(Size(s.w, s.h), panel) && Paced(s, panel, n, carried)
    ensures var m := Tick(s, panel, now, ignoreDeadline); Paced(m.s, m.panel, n, carried)
  {
    hide Size, TickDecision, SubmitDamage, SubmitImage, TickAccepted, Submitted, PlaneOk, ValidRect, PolicyOk,
         BaseCurrent, Flags, PanelShaped, Bounded, UnitPanel, SinceComplete, Painted, Driven;
    UnitRest(panel);
    if s.pending.Some? {
      ImageSize(s);
      var p1 := Pumped(panel);
      if !Next(panel).Fail? {
        PanelParts(Size(s.w, s.h), panel);
        UnitRest(p1);
        var m := Tick(s, panel, now, ignoreDeadline);
        UnitAlike(m.panel, p1.(script := Rest(p1)));
        UnitAlike(m.panel, p1);
        if !Next(p1).Fail? {
          if s.policy.presented >= n { TickDueCompletes(s); }
          Charge(s.policy, TickDecision(s), n, carried, panel.log);
          PolicyCharge(s, now, Next(p1).physical);
        }
      }
    }
  }

  lemma PolicyCharge(s: State, now: nat, physical: nat)
    requires Shaped(s) && s.pending.Some?
    ensures TickAccepted(s, now, physical).policy == Submitted(s.policy, TickDecision(s), physical)
    ensures Submitted(s.policy, TickDecision(s), physical).config == s.policy.config
  {
  }

  lemma UnitAlike(a: Panel, b: Panel)
    ensures a.script == b.script ==> (UnitPanel(a) <==> UnitPanel(b))
  {
  }

  /** A menu or producer-overlay repaint is charged like a frame. */
  lemma RepaintPaced(s: State, panel: Panel, now: nat, terminals: seq<Terminal>, n: nat, carried: nat)
    requires Sound(s) && PanelShaped(Size(s.w, s.h), panel) && Paced(s, panel, n, carried)
    requires Repaint(s, panel, now, Settled, terminals).PlaneDone?
    ensures var m := Repaint(s, panel, now, Settled, terminals).moved; Paced(m.s, m.panel, n, carried)
  {
    hide Size, PlaneDamage, Submitted, PlaneOk, ValidRect, PolicyOk, BaseCurrent, Flags, PanelShaped, Bounded, UnitPanel,
         SinceComplete, Painted, Driven, Decide, RecordDamage, Picture, MergeTiled;
    PictureSize(s);
    UnitRest(panel);
    PanelParts(Size(s.w, s.h), panel);
    var composed := Painted(s.w, s.working, Picture(s), PlaneRegions(s, Settled));
    var found := PlaneDamage(s, Settled, composed);
    var d := PlaneDecision(s, Settled, found);
    var m := Repaint(s, panel, now, Settled, terminals).moved;
    UnitAlike(m.panel, panel);
    UnitAlike(m.panel, panel.(script := Rest(panel)));
    if s.policy.presented >= n {
      DueCompletes(s.policy, Settled, TextUi, TotalArea(found), Size(s.w, s.h), false);
    }
    Charge(s.policy, d, n, carried, panel.log);
    SubmittedConfig(s.policy, d);
  }

  lemma SubmittedConfig(p: Policy, d: Decision)
    ensures Submitted(p, d, 1).config == p.config
  {
  }

  lemma CleanupPaced(s: State, panel: Panel, now: nat, n: nat, carried: nat)
    requires Sound(s) && PanelShaped(Size(s.w, s.h), panel) && Paced(s, panel, n, carried)
    ensures var m := RequestCleanup(s, panel, now).0; Paced(m.s, m.panel, n, carried)
  {
    hide Size, Tick, Submitted, PlaneOk, ValidRect, PolicyOk, PictureCurrent, BaseCurrent, Flags, PanelShaped, Bounded,
         UnitPanel, SinceComplete, Painted, Driven, Decide;
    var armed := s.(forceCleanup := true);
    ArmedSound(s);
    TickPaced(armed, panel, now, true, n, carried);
    UnitRest(panel);
    PanelParts(Size(s.w, s.h), panel);
    if s.pending.None? && s.presentedId != 0 && !Next(panel).Fail? {
      var p1, d := Pumped(panel), MaintenanceDecision(armed);
      UnitRest(p1);
      var m := RequestCleanup(s, panel, now).0;
      UnitAlike(m.panel, p1.(script := Rest(p1)));
      DecideWaveform(s.policy, Settled, Mixed, Size(s.w, s.h), Size(s.w, s.h), true) by { PolicyValid(s); }
      Charge(armed.policy, d, n, carried, panel.log);
      SubmittedConfig(armed.policy, d);
    }
  }

  lemma PolicyValid(s: State)
    requires Sound(s)
    ensures Validate(s.policy.config).None?
  {
  }

  lemma InteractivePaced(s: State, panel: Panel, now: nat, idle: bool, n: nat, carried: nat)
    requires Sound(s) && PanelShaped(Size(s.w, s.h), panel) && Paced(s, panel, n, carried)
    ensures var m := TickInteractive(s, panel, now, idle); Paced(m.s, m.panel, n, carried)
  {
    hide Size, Tick, RequestCleanup, PanelShaped, Sound, AdaptiveDue, Bounded, UnitPanel, SinceComplete;
    assert Shaped(s) by { SoundShaped(s); }
    CleanupPaced(s, panel, now, n, carried);
    TickPaced(s, panel, now, false, n, carried);
  }

  lemma ProfilePaced(s: State, panel: Panel, config: Config, now: nat, n: nat, carried: nat)
    requires Sound(s) && PanelShaped(Size(s.w, s.h), panel) && Paced(s, panel, n, carried) && Validate(config).None?
    requires config.partialEnabled && config.cleanupAfter == n
    ensures Shaped(s)
    ensures var m := ChangeProfile(s, panel, config, now).0; Paced(m.s, m.panel, n, carried)
  {
    hide Size, RequestCleanup, PanelShaped, Sound, Bounded, UnitPanel, SinceComplete;
    var next := UpdateConfig(s, config).0;
    ConfigSound(s, config);
    assert Shaped(s) && Shaped(next) by { SoundShaped(s); SoundShaped(next); }
    CleanupPaced(next, panel, now, n, carried);
  }

  lemma PlanePaced(s: State, panel: Panel, now: nat, n: nat, carried: nat)
    requires Sound(s) && PanelShaped(Size(s.w, s.h), panel) && Paced(s, panel, n, carried)
    ensures Shaped(s)
    ensures var r := PresentPlane(s, panel, now, Settled); r.PlaneDone? ==> Paced(r.moved.s, r.moved.panel, n, carried)
  {
    hide Size, Tick, Repaint, PanelShaped, Sound, Bounded, UnitPanel, SinceComplete;
    SoundShaped(s);
    var f := Tick(s, panel, now, true);
    TickPaced(s, panel, now, true, n, carried);
    TickSound(s, panel, now, true);
    TickShaped(s, panel, now, true);
    if PresentPlane(s, panel, now, Settled).PlaneDone? { RepaintPaced(f.s, f.panel, now, f.terminals, n, carried); }
  }

  /** Steps that draw no ink and keep the periodic interval. */
  predicate PacedStep(step: Step, n: nat) {
    && !step.InkStep?
    && (step.ProfileStep? || step.ConfigStep? ==> step.config.partialEnabled && step.config.cleanupAfter == n)
  }

  lemma StepPaced(s: State, panel: Panel, step: Step, n: nat, carried: nat)
    requires Inv(s) && PanelShaped(Size(s.w, s.h), panel) && Paced(s, panel, n, carried)
    requires PacedStep(step, n) && Enabled(s, step) && Do(s, panel, step).Some?
    ensures var m := Do(s, panel, step).value; Paced(m.s, m.panel, n, carried)
  {
    hide Size, Tick, TickInteractive, ChangeProfile, RequestCleanup, PresentPlane, InkLine, PanelShaped, Shaped, Sound,
         PictureCurrent, ApplyAll, CommitCheck, Bounded, UnitPanel, SinceComplete;
    InvSound(s);
    match step
    case CommitStep(frame, content, now) =>
    case TickStep(now, idle) => InteractivePaced(s, panel, now, idle, n, carried);
    case PlainTickStep(now) => TickPaced(s, panel, now, false, n, carried);
    case CleanupStep(now) => CleanupPaced(s, panel, now, n, carried);
    case ProfileStep(config, now) => ProfilePaced(s, panel, config, now, n, carried);
    case ConfigStep(config) =>
    case FreezeStep =>
    case ArmStep =>
    case OverlayStep(menu, peer, clearInk, now) =>
      EditedSound(s, menu, peer, clearInk);
      PlanePaced(Edited(s, menu, peer, clearInk), panel, now, n, carried);
    case StrokeStep(from, to, radius, erase) =>
    case InkStep(now) =>
  }

  lemma {:induction false} RunPaced(s: State, panel: Panel, steps: seq<Step>, n: nat, carried: nat)
    requires Inv(s) && PanelShaped(Size(s.w, s.h), panel) && Paced(s, panel, n, carried)
    requires (forall k :: 0 <= k < |steps| ==> PacedStep(steps[k], n)) && Execute(s, panel, steps).Some?
    ensures var r := Execute(s, panel, steps).value; Paced(r.s, r.panel, n, carried)
    decreases |steps|
  {
    hide Do, Inv, PanelShaped, Paced;
    if steps != [] {
      StepPaced(s, panel, steps[0], n, carried);
      DoInv(s, panel, steps[0]);
      var m := Do(s, panel, steps[0]).value;
      assert forall k :: 0 <= k < |steps[1..]| ==> steps[1..][k] == steps[k + 1];
      RunPaced(m.s, m.panel, steps[1..], n, carried);
    }
  }

  /** Over a whole run with periodic interval `n`, started with a carried debt
      of at most `n`, any `n + 1` consecutive accepted submissions contain a
      complete refresh. */
  lemma PeriodicCleanupInRun(s: State, panel: Panel, steps: seq<Step>, n: nat, start: nat) returns (j: nat)
    requires Inv(s) && PanelShaped(Size(s.w, s.h), panel) && UnitPanel(panel) && panel.log == []
    requires 0 < n <= U32_MAX && s.policy.config.partialEnabled && s.policy.config.cleanupAfter == n
    requires s.policy.presented <= n
    requires (forall k :: 0 <= k < |steps| ==> PacedStep(steps[k], n)) && Execute(s, panel, steps).Some?
    requires start + n + 1 <= |Execute(s, panel, steps).value.panel.log|
    ensures start <= j < start + n + 1 && Execute(s, panel, steps).value.panel.log[j].complete
  {
    hide Execute, Inv, PanelShaped, UnitPanel;
    var carried := s.policy.presented;
    assert Paced(s, panel, n, carried);
    RunPaced(s, panel, steps, n, carried);
    j := WindowCleans(n, carried, Execute(s, panel, steps).value.panel.log, start);
  }

  lemma WindowCleans(n: nat, carried: nat, log: seq<Decision>, start: nat) returns (j: nat)
    requires Bounded(n, carried, log) && start + n + 1 <= |log|
    ensures start <= j < start + n + 1 && log[j].complete
  {
    if forall k :: start <= k < start + n + 1 ==> !log[k].complete {
      PartialsAddUp(carried, log, start, n + 1);
      assert false;
    } else {
      j :| start <= j < start + n + 1 && log[j].complete;
    }
  }

  lemma {:induction false} PartialsAddUp(carried: nat, log: seq<Decision>, start: nat, len: nat)
    requires start + len <= |log| && forall k :: start <= k < start + len ==> !log[k].complete
    ensures SinceComplete(carried, log[..start + len]) >= len
  {
    if len > 0 {
      PartialsAddUp(carried, log, start, len - 1);
      assert log[..start + len][..start + len - 1] == log[..start + len - 1];
    }
  }

  // --------------------------------------------------------------- deadlines

  /** One frame interval has passed since the last presentation. */
  predicate Rested(s: State, now: nat) {
    s.lastPresentAt.Some? ==> now >= s.lastPresentAt.value + s.frameInterval
  }

  /** When a tick resolves its frame: never a latest frame sooner than one frame
      interval after the last presentation, and always a settled frame once it
      has waited for its own deadline. */
  lemma TickKeepsPace(s: State, panel: Panel, now: nat)
    requires Sound(s) && PanelShaped(Size(s.w, s.h), panel) && s.pending.Some?
    ensures var m := Tick(s, panel, now, false);
            var p := s.pending.value;
            && (m.terminals != [] && p.intent == Latest ==> Rested(s, now))
            && (p.intent == Settled && now >= p.acceptedAt + s.settledDeadline ==> m.terminals != [])
            && (p.intent == Latest && now >= p.acceptedAt && Rested(s, now) ==> m.terminals != [])
  {
    hide Size, Sound, PanelShaped, Present, Shaped;
    SoundShaped(s);
    if !Next(panel).Fail? {
      RestShaped(Size(s.w, s.h), panel);
      PresentResolves(s, Pumped(panel), now);
    }
  }

  lemma PresentResolves(s: State, panel: Panel, now: nat)
    requires Shaped(s) && s.pending.Some? && PanelShaped(Size(s.w, s.h), panel)
    ensures Present(s, panel, now).terminals != []
  {
    hide Size, TickDecision, SubmitDamage, SubmitImage, TickAccepted, Painted, Driven, PanelShaped, Shaped;
    ImageSize(s);
  }

  // ----------------------------------------------------------- idle cleanups

  /** The partial pixels are those of the partial submissions counted in the log,
      each of at most one panel. */
  ghost predicate Budgeted(s: State, p: Panel) {
    s.partialPixels <= Times(SinceComplete(0, p.log), Size(s.w, s.h))
  }

  lemma SearchArea(w: nat, h: nat, t: nat, previous: Image, current: Image, rects: seq<Rect>)
    requires w > 0 && h > 0 && |previous| == |current| == Size(w, h)
    ensures TotalArea(TileDamageRegions(w, h, t, previous, current, rects)) <= Size(w, h)
  {
    hide Select, TotalArea, PairwiseDisjoint, AllValid, Size, CandidateFlags, CoveredPixels;
    if t == 0 {
      FullArea(w, h);
    } else {
      var flags := CandidateFlags(w, h, t, previous, current, rects);
      assert |flags| <= TileCount(w, h, t) by { FlagCount(w, h, t, previous, current, rects); }
      SelectValid(w, h, t, flags);
      SelectDisjoint(w, h, t, flags);
      DisjointArea(w, h, Select(w, h, t, flags));
    }
  }

  lemma FlagCount(w: nat, h: nat, t: nat, previous: Image, current: Image, rects: seq<Rect>)
    requires w > 0 && t > 0 && |previous| == |current| == Size(w, h)
    ensures |CandidateFlags(w, h, t, previous, current, rects)| <= TileCount(w, h, t)
  {
  }

  lemma OneArea(r: Rect)
    ensures TotalArea([r]) == Area(r)
  {
    assert [r][..0] == [];
    assert TotalArea([]) == 0;
  }

  lemma FullArea(w: nat, h: nat)
    ensures TotalArea([Full(w, h)]) == Size(w, h)
  {
    OneArea(Full(w, h));
  }

  lemma TickArea(s: State)
    requires Sound(s) && s.pending.Some?
    ensures TotalArea(TickDamage(s)) <= Size(s.w, s.h)
  {
    hide Size, TotalArea, Covered, Picture, MergeTiled, PlaneOk, BaseCurrent, Flags, TileDamageRegions, CoveredPixels;
    PictureSize(s);
    FullArea(s.w, s.h);
    SearchArea(s.w, s.h, s.damageTile, s.presented, TickComposed(s), TickRegions(s));
    var changed :=
      if s.pending.value.forceFull then [Full(s.w, s.h)]
      else TileDamageRegions(s.w, s.h, s.damageTile, s.presented, TickComposed(s), TickRegions(s));
    MergeAreaCountsPixels(s.w, s.h, s.damageTile, s.settle, changed);
  }

  lemma PlaneArea(s: State, intent: Intent)
    requires Sound(s)
    ensures TotalArea(PlaneDamage(s, intent, Painted(s.w, s.working, Picture(s), PlaneRegions(s, intent)))) <= Size(s.w, s.h)
  {
    hide Size, TotalArea, Covered, Picture, PlaneOk, BaseCurrent, Flags, TileDamageRegions, CoveredPixels, ChangedIn;
    PictureSize(s);
    var composed := Painted(s.w, s.working, Picture(s), PlaneRegions(s, intent));
    SearchArea(s.w, s.h, s.damageTile, s.presented, composed, PlaneRegions(s, intent));
    PlaneRegionsValid(s, intent);
    assert TotalArea([]) == 0 by { NoArea(); }
    if PlaneRegions(s, intent) != [] {
      DisjointArea(s.w, s.h, PlaneRegions(s, intent));
    }
  }

  lemma NoArea()
    ensures TotalArea([]) == 0
  {
  }

  /** One accepted submission stays within the budget. */
  lemma Spend(pixels: nat, area: nat, size: nat, log: seq<Decision>, d: Decision)
    requires pixels <= Times(SinceComplete(0, log), size) && area <= size
    ensures (if d.complete then 0 else pixels + area) <= Times(SinceComplete(0, log + [d]), size)
  {
    assert (log + [d])[..|log|] == log;
    if !d.complete {
      OneMore(SinceComplete(0, log), size);
    }
  }

  lemma OneMore(k: nat, size: nat)
    ensures Times(k + 1, size) == Times(k, size) + size
  {
  }

  lemma TickBudget(s: State, panel: Panel, now: nat, ignoreDeadline: bool)
    requires Sound(s) && PanelShaped(Size(s.w, s.h), panel) && Budgeted(s, panel)
    ensures var m := Tick(s, panel, now, ignoreDeadline); Budgeted(m.s, m.panel)
  {
    hide Size, TickDecision, TickDamage, SubmitImage, PlaneOk, ValidRect, PolicyOk, BaseCurrent, Flags, PanelShaped,
         SinceComplete, Painted, Driven, Times, Submitted, MergeTiled, TotalArea;
    if s.pending.Some? {
      ImageSize(s);
      TickArea(s);
      PanelParts(Size(s.w, s.h), panel);
      Spend(s.partialPixels, TotalArea(TickDamage(s)), Size(s.w, s.h), panel.log, TickDecision(s));
    }
  }

  lemma RepaintBudget(s: State, panel: Panel, now: nat, intent: Intent, terminals: seq<Terminal>)
    requires Sound(s) && PanelShaped(Size(s.w, s.h), panel) && Budgeted(s, panel)
    requires Repaint(s, panel, now, intent, terminals).PlaneDone?
    ensures var m := Repaint(s, panel, now, intent, terminals).moved; Budgeted(m.s, m.panel)
  {
    hide Size, PlaneDamage, PlaneDecision, PlaneOk, ValidRect, PolicyOk, BaseCurrent, Flags, PanelShaped, Picture,
         SinceComplete, Painted, Driven, Times, Submitted, MergeTiled, TotalArea, PlaneRegions, SatAdd;
    PictureSize(s);
    PlaneArea(s, intent);
    var found := PlaneDamage(s, intent, Painted(s.w, s.working, Picture(s), PlaneRegions(s, intent)));
    Spend(s.partialPixels, TotalArea(found), Size(s.w, s.h), panel.log, PlaneDecision(s, intent, found));
  }

  lemma CleanupSpends(s: State, panel: Panel, now: nat)
    requires Sound(s) && PanelShaped(Size(s.w, s.h), panel) && Budgeted(s, panel)
    ensures var m := RequestCleanup(s, panel, now).0; Budgeted(m.s, m.panel)
  {
    hide Size, Tick, PlaneOk, ValidRect, PolicyOk, BaseCurrent, Flags, PanelShaped,
         SinceComplete, Painted, Driven, Times, Submitted, TotalArea;
    var armed := s.(forceCleanup := true);
    ArmedSound(s);
    TickBudget(armed, panel, now, true);
    if s.pending.None? && s.presentedId != 0 {
      RestShaped(Size(s.w, s.h), panel);
      PanelParts(Size(s.w, s.h), panel);
      DecideWaveform(s.policy, Settled, Mixed, Size(s.w, s.h), Size(s.w, s.h), true) by { PolicyValid(s); }
      Spend(s.partialPixels, 0, Size(s.w, s.h), panel.log, MaintenanceDecision(armed));
    }
  }

  lemma StepBudget(s: State, panel: Panel, step: Step)
    requires Inv(s) && PanelShaped(Size(s.w, s.h), panel) && Budgeted(s, panel)
    requires Enabled(s, step) && Do(s, panel, step).Some?
    ensures var m := Do(s, panel, step).value; Budgeted(m.s, m.panel)
  {
    hide Size, Tick, RequestCleanup, Repaint, InkLine, PanelShaped, Shaped, Sound,
         PictureCurrent, ApplyAll, CommitCheck, SinceComplete, Times, AdaptiveDue;
    InvSound(s);
    match step
    case CommitStep(frame, content, now) =>
    case TickStep(now, idle) =>
      CleanupSpends(s, panel, now);
      TickBudget(s, panel, now, false);
    case PlainTickStep(now) => TickBudget(s, panel, now, false);
    case CleanupStep(now) => CleanupSpends(s, panel, now);
    case ProfileStep(config, now) =>
      ConfigSound(s, config);
      SoundShaped(UpdateConfig(s, config).0);
      CleanupSpends(UpdateConfig(s, config).0, panel, now);
    case ConfigStep(config) =>
    case FreezeStep =>
    case ArmStep =>
    case OverlayStep(menu, peer, clearInk, now) =>
      EditedSound(s, menu, peer, clearInk);
      SoundShaped(Edited(s, menu, peer, clearInk));
      PlaneBudget(Edited(s, menu, peer, clearInk), panel, now, Settled);
    case StrokeStep(from, to, radius, erase) =>
    case InkStep(now) => PlaneBudget(s, panel, now, Latest);
  }

  lemma PlaneBudget(s: State, panel: Panel, now: nat, intent: Intent)
    requires Sound(s) && PanelShaped(Size(s.w, s.h), panel) && Budgeted(s, panel) && Shaped(s)
    ensures var r := PresentPlane(s, panel, now, intent); r.PlaneDone? ==> Budgeted(r.moved.s, r.moved.panel)
  {
    hide Size, Tick, Repaint, PanelShaped, Shaped, Sound, Budgeted;
    var f := Tick(s, panel, now, true);
    TickBudget(s, panel, now, true);
    TickSound(s, panel, now, true);
    TickShaped(s, panel, now, true);
    if PresentPlane(s, panel, now, intent).PlaneDone? { RepaintBudget(f.s, f.panel, now, intent, f.terminals); }
  }

  lemma {:induction false} RunBudget(s: State, panel: Panel, steps: seq<Step>)
    requires Inv(s) && PanelShaped(Size(s.w, s.h), panel) && Budgeted(s, panel) && Execute(s, panel, steps).Some?
    ensures var r := Execute(s, panel, steps).value;
            Budgeted(r.s, r.panel) && Inv(r.s) && PanelShaped(Size(r.s.w, r.s.h), r.panel)
    decreases |steps|
  {
    hide Do, Inv, PanelShaped, Budgeted;
    if steps != [] {
      StepBudget(s, panel, steps[0]);
      DoInv(s, panel, steps[0]);
      var m := Do(s, panel, steps[0]).value;
      RunBudget(m.s, m.panel, steps[1..]);
    }
  }

  lemma {:induction false} SinceMeans(log: seq<Decision>, k: nat)
    requires k <= SinceComplete(0, log)
    ensures k <= |log| && forall j :: |log| - k <= j < |log| ==> !log[j].complete
  {
    if k > 0 {
      var n := |log| - 1;
      SinceMeans(log[..n], k - 1);
      forall j | |log| - k <= j < |log| ensures !log[j].complete {
        if j < n { assert log[..n][j] == log[j]; }
      }
    }
  }

  lemma CountEnough(k: nat, screens: nat, size: nat)
    requires size > 0 && Times(size, screens) <= Times(k, size)
    ensures screens <= k
  {
    assert Times(size, screens) == Times(screens, size);
    if k < screens {
      TimesApart(k, screens, size);
    }
  }

  lemma PositiveSize(s: State)
    requires Shaped(s)
    ensures Size(s.w, s.h) > 0
  {
    IndexBound(s.w, s.h, 0, 0);
  }

  /** Idle cleanups are earned: in every run from a new core, an idle panel with
      nothing pending is touched by a tick only if the last submissions, as many as
      the budget of the profile, were all partial. */
  lemma IdleCleanupIsEarned(s: State, panel: Panel, steps: seq<Step>, now: nat)
    requires Inv(s) && PanelShaped(Size(s.w, s.h), panel) && s.partialPixels == 0 && panel.log == []
    requires Execute(s, panel, steps).Some? && Execute(s, panel, steps).value.s.pending.None?
    ensures var r := Execute(s, panel, steps).value;
            && Shaped(r.s) && PanelShaped(Size(r.s.w, r.s.h), r.panel)
            && (TickInteractive(r.s, r.panel, now, true) != Moved(r.s, r.panel, []) ==>
                  var budget := CleanupBudget(r.s.policy.config.profile);
                  && budget.Some?
                  && budget.value.0 <= |r.panel.log|
                  && forall j :: |r.panel.log| - budget.value.0 <= j < |r.panel.log| ==> !r.panel.log[j].complete)
  {
    hide Execute, Inv, PanelShaped, Size, CleanupBudget, RequestCleanup, SinceComplete, Tick, Shaped;
    assert Budgeted(s, panel);
    RunBudget(s, panel, steps);
    var r := Execute(s, panel, steps).value;
    InvSound(r.s);
    PositiveSize(r.s);
    TickIdle(r.s, r.panel, now, false);
    if AdaptiveDue(r.s, now) {
      var screens := CleanupBudget(r.s.policy.config.profile).value.0;
      CountEnough(SinceComplete(0, r.panel.log), screens, Size(r.s.w, r.s.h));
      SinceMeans(r.panel.log, screens);
    }
  }

  /** An idle panel is cleaned once: after a cleanup that succeeded, ticks leave it
      alone whenever they come; after one that failed, for five seconds. */
  lemma IdlePanelIsCleanedOnce(s: State, panel: Panel, now: nat, later: nat, idle: bool)
    requires Sound(s) && PanelShaped(Size(s.w, s.h), panel) && s.pending.None?
    ensures Shaped(s)
    ensures var m := TickInteractive(s, panel, now, true);
            && Shaped(m.s) && PanelShaped(Size(m.s.w, m.s.h), m.panel)
            && (m != Moved(s, panel, []) ==>
                  && m.s.presented == s.presented && m.s.pending.None?
                  && (m.s.lastIdleFailure.None? || later < now + 5_000_000 ==>
                        TickInteractive(m.s, m.panel, later, idle) == Moved(m.s, m.panel, [])))
  {
    hide Size, PanelShaped, BaseCurrent, PlaneOk, ValidRect, Pumped, SubmitTo, Submitted, TotalArea, Decide, Tick;
    SoundShaped(s);
    PositiveSize(s);
    var m := TickInteractive(s, panel, now, true);
    InteractiveSound(s, panel, now, true);
    TickIdle(s, panel, now, false);
    SoundShaped(m.s);
    TickIdle(m.s, m.panel, later, false);
    RestShaped(Size(s.w, s.h), panel);
    DecideWaveform(s.policy, Settled, Mixed, Size(s.w, s.h), Size(s.w, s.h), true) by { PolicyValid(s); }
  }
}
