/** The glass itself over whole runs, local planes included: it shows the software
    picture, as long as no plane is presented between a failure of the panel and
    the next cleanup that succeeds or frame that is reported as presented. */
module Glass {
  import opened Geometry
  import opened Pixels
  import opened Raster
  import opened Regions
  import opened Tiles
  import opened Ink
  import opened Refresh
  import opened Core
  import opened Composition
  import opened PanelSafety
  import opened PlaneDebt
  import opened Reliability

  lemma CleanupGlass(s: State, panel: Panel, now: nat)
    requires Sound(s) && PanelShaped(Size(s.w, s.h), panel) && GlassTrue(s, panel)
    ensures var m := RequestCleanup(s, panel, now).0; GlassTrue(m.s, m.panel)
  {
    hide Size, Tick, Covered, Sound, PanelShaped, Shaped;
    SoundShaped(s);
    var armed := s.(forceCleanup := true);
    ArmedSound(s);
    SoundShaped(armed);
    if s.pending.Some? {
      TickGlass(armed, panel, now, true);
    } else if s.presentedId != 0 {
      MaintenanceGlass(armed, panel, now);
    }
  }

  /** A complete resubmission makes the glass known again. */
  lemma MaintenanceGlass(s: State, panel: Panel, now: nat)
    requires Shaped(s) && PanelShaped(Size(s.w, s.h), panel)
    ensures var r := Maintenance(s, panel, now); GlassTrue(r.s, r.panel)
  {
    hide Size, Covered, PlaneOk, ValidRect, TotalArea;
    RestShaped(Size(s.w, s.h), panel);
    var p1 := Pumped(panel);
    PanelParts(Size(s.w, s.h), p1);
    if !Next(panel).Fail? && !Next(p1).Fail? {
      var r := Maintenance(s, panel, now);
      forall i | 0 <= i < Size(s.w, s.h) ensures r.panel.image[i] == s.presented[i] {
        FullCovers(s.w, s.h, i);
      }
    }
  }

  lemma PlaneGlass(s: State, panel: Panel, now: nat, intent: Intent)
    requires Sound(s) && PanelShaped(Size(s.w, s.h), panel) && GlassTrue(s, panel) && Certain(s) && Reliable(panel)
    requires Shaped(s) && PresentPlane(s, panel, now, intent).PlaneDone?
    ensures var m := PresentPlane(s, panel, now, intent).moved; GlassTrue(m.s, m.panel)
  {
    hide Size, Tick, Repaint, PanelShaped, Sound, Shaped, GlassTrue, Reliable, Found, Chosen, CoversPanel;
    var f := Tick(s, panel, now, true);
    TickShaped(s, panel, now, true);
    TickSound(s, panel, now, true);
    TickGlass(s, panel, now, true);
    TickReliable(s, panel, now, true);
    TrustedRepaint(f.s, f.panel, now, intent, f.terminals);
  }

  // ------------------------------------------------------------------- turns

  /** One operation, with the answers of the panel to its calls. */
  datatype Turn = Turn(step: Step, answers: seq<Answer>)

  predicate AllAccept(answers: seq<Answer>) {
    forall k :: 0 <= k < |answers| ==> answers[k].Accept?
  }

  /** Trust ends with a failure, and returns with a cleanup that succeeds or a frame
      that is reported as presented. */
  function TrustAfter(trust: bool, t: Turn, terminals: seq<Terminal>): bool {
    AllAccept(t.answers) && (trust || t.step.CleanupStep? || Presents(terminals))
  }

  function TrustAtEnd(trust: bool, turns: seq<Turn>, reports: seq<seq<Terminal>>): bool
    requires |turns| == |reports|
    decreases |turns|
  {
    if turns == [] then trust else TrustAtEnd(TrustAfter(trust, turns[0], reports[0]), turns[1..], reports[1..])
  }

  /** Local planes are presented only while the panel is trusted and accepts, as far
      as its answers and the reported frames tell. */
  predicate Scheduled(trust: bool, turns: seq<Turn>, reports: seq<seq<Terminal>>)
    requires |turns| == |reports|
    decreases |turns|
  {
    turns == [] ||
    (&& (OverlayOnly(turns[0].step) ==> trust && AllAccept(turns[0].answers))
     && Scheduled(TrustAfter(trust, turns[0], reports[0]), turns[1..], reports[1..]))
  }

  /** The same with cleanups only, which a caller can plan beforehand. */
  predicate Planned(trust: bool, turns: seq<Turn>)
    decreases |turns|
  {
    turns == [] ||
    (&& (OverlayOnly(turns[0].step) ==> trust && AllAccept(turns[0].answers))
     && Planned(TrustAfter(trust, turns[0], []), turns[1..]))
  }

  /** A plan is a schedule whatever is reported. */
  lemma {:induction false} PlanIsSchedule(planned: bool, trust: bool, turns: seq<Turn>, reports: seq<seq<Terminal>>)
    requires |turns| == |reports| && Planned(planned, turns) && (planned ==> trust)
    ensures Scheduled(trust, turns, reports)
    decreases |turns|
  {
    hide AllAccept, Presents;
    if turns != [] {
      assert !Presents([]) by { NothingPresented(); }
      PlanIsSchedule(TrustAfter(planned, turns[0], []), TrustAfter(trust, turns[0], reports[0]), turns[1..], reports[1..]);
    }
  }

  lemma NothingPresented()
    ensures !Presents([])
  {
  }

  function Asked(panel: Panel, t: Turn): Panel {
    panel.(script := t.answers)
  }

  /** A run with what every turn reported. */
  datatype Performed = Performed(s: State, panel: Panel, reports: seq<seq<Terminal>>)

  /** A whole run of turns; `None` once an operation failed. */
  ghost function Perform(s: State, panel: Panel, turns: seq<Turn>): (r: Option<Performed>)
    requires Inv(s) && PanelShaped(Size(s.w, s.h), panel)
    ensures r.Some? ==> |r.value.reports| == |turns|
    decreases |turns|
  {
    if turns == [] then Some(Performed(s, panel, []))
    else
      var p := Asked(panel, turns[0]);
      if !PanelShaped(Size(s.w, s.h), p) || !Enabled(s, turns[0].step) then None
      else
        match Do(s, p, turns[0].step)
        case None => None
        case Some(m) =>
          DoInv(s, p, turns[0].step);
          match Perform(m.s, m.panel, turns[1..])
          case None => None
          case Some(r) => Some(Performed(r.s, r.panel, [m.terminals] + r.reports))
  }

  /** The glass stays true through one turn, and what a turn without failure does
      to certainty. */
  lemma StepGlass(s: State, panel: Panel, step: Step)
    requires Inv(s) && PanelShaped(Size(s.w, s.h), panel) && GlassTrue(s, panel)
    requires Enabled(s, step) && Do(s, panel, step).Some?
    requires OverlayOnly(step) ==> Certain(s) && Reliable(panel)
    ensures var m := Do(s, panel, step).value; GlassTrue(m.s, m.panel)
  {
    hide Size, Tick, RequestCleanup, InkLine, PanelShaped, Shaped, Sound, PictureCurrent, ApplyAll, CommitCheck, AdaptiveDue,
         PresentPlane, Reliable;
    InvSound(s);
    match step
    case CommitStep(frame, content, now) =>
    case TickStep(now, idle) =>
      CleanupGlass(s, panel, now);
      TickGlass(s, panel, now, false);
    case PlainTickStep(now) => TickGlass(s, panel, now, false);
    case CleanupStep(now) => CleanupGlass(s, panel, now);
    case ProfileStep(config, now) =>
      var next := UpdateConfig(s, config).0;
      ConfigSound(s, config);
      SoundShaped(next);
      CleanupGlass(next, panel, now);
    case ConfigStep(config) =>
    case FreezeStep =>
    case ArmStep =>
    case OverlayStep(menu, peer, clearInk, now) =>
      EditedSound(s, menu, peer, clearInk);
      var e := Edited(s, menu, peer, clearInk);
      SoundShaped(e);
      PlaneGlass(e, panel, now, Settled);
    case StrokeStep(from, to, radius, erase) =>
    case InkStep(now) => PlaneGlass(s, panel, now, Latest);
  }

  lemma StepCertain(s: State, panel: Panel, step: Step)
    requires Inv(s) && PanelShaped(Size(s.w, s.h), panel) && Reliable(panel)
    requires Enabled(s, step) && Do(s, panel, step).Some?
    ensures var m := Do(s, panel, step).value;
            Certain(s) || step.CleanupStep? || (!OverlayOnly(step) && Presents(m.terminals)) ==> Certain(m.s)
  {
    hide Size, Tick, RequestCleanup, InkLine, PanelShaped, Shaped, Sound, PictureCurrent, ApplyAll, CommitCheck,
         PresentPlane, Reliable, TickInteractive, ChangeProfile;
    InvSound(s);
    match step
    case CommitStep(frame, content, now) =>
    case TickStep(now, idle) => InteractiveReliable(s, panel, now, idle);
    case PlainTickStep(now) => TickReliable(s, panel, now, false);
    case CleanupStep(now) => CleanupReliable(s, panel, now);
    case ProfileStep(config, now) => ProfileReliable(s, panel, config, now);
    case ConfigStep(config) =>
    case FreezeStep =>
    case ArmStep =>
    case OverlayStep(menu, peer, clearInk, now) =>
      EditedSound(s, menu, peer, clearInk);
      PlaneReliable(Edited(s, menu, peer, clearInk), panel, now, Settled);
    case StrokeStep(from, to, radius, erase) =>
    case InkStep(now) => PlaneReliable(s, panel, now, Latest);
  }

  lemma TurnGlass(s: State, panel: Panel, t: Turn, trust: bool)
    requires Inv(s) && PanelShaped(Size(s.w, s.h), Asked(panel, t)) && GlassTrue(s, panel) && (trust ==> Certain(s))
    requires Enabled(s, t.step) && Do(s, Asked(panel, t), t.step).Some?
    requires OverlayOnly(t.step) ==> trust && AllAccept(t.answers)
    ensures var m := Do(s, Asked(panel, t), t.step).value;
            GlassTrue(m.s, m.panel) && (TrustAfter(trust, t, m.terminals) ==> Certain(m.s))
  {
    hide Size, Do, Inv, PanelShaped, Enabled;
    var p := Asked(panel, t);
    assert Reliable(p) <==> AllAccept(t.answers);
    StepGlass(s, p, t.step);
    if AllAccept(t.answers) { StepCertain(s, p, t.step); }
  }

  /** Fidelity of the glass over every run, local planes included: whatever the
      panel answers, the glass shows the software picture unless a failed
      submission left it uncertain; and where the schedule ends in trust it shows
      it for certain, with the full recomposition once nothing is pending. */
  lemma {:induction false} RunKeepsGlass(s: State, panel: Panel, turns: seq<Turn>, trust: bool)
    requires Inv(s) && PanelShaped(Size(s.w, s.h), panel) && GlassTrue(s, panel) && (trust ==> Certain(s))
    requires Perform(s, panel, turns).Some? && Scheduled(trust, turns, Perform(s, panel, turns).value.reports)
    ensures var r := Perform(s, panel, turns).value;
            && Inv(r.s) && Shaped(r.s) && GlassTrue(r.s, r.panel)
            && (TrustAtEnd(trust, turns, r.reports) && r.s.presentedId != 0 ==> r.panel.image == r.s.presented)
            && (r.s.presentedId != 0 && !r.s.uncertain && r.s.baseValid && r.s.pending.None? && r.s.ink.dirty.None? ==>
                  r.panel.image == Picture(r.s))
    decreases |turns|
  {
    hide Do, Inv, PanelShaped, Enabled, Picture;
    InvShaped(s);
    if turns == [] {
      if s.baseValid && s.pending.None? && s.ink.dirty.None? { ShownExactly(s); }
    } else {
      var p := Asked(panel, turns[0]);
      TurnGlass(s, panel, turns[0], trust);
      DoInv(s, p, turns[0].step);
      var m := Do(s, p, turns[0].step).value;
      assert Perform(s, panel, turns).value.reports[1..] == Perform(m.s, m.panel, turns[1..]).value.reports;
      RunKeepsGlass(m.s, m.panel, turns[1..], TrustAfter(trust, turns[0], m.terminals));
    }
  }

  lemma ShownExactly(s: State)
    requires Inv(s) && s.baseValid && s.pending.None? && s.ink.dirty.None?
    ensures Shaped(s) && s.presented == Picture(s)
  {
    hide Size, Covered, Picture, BaseCurrent, Flags, PolicyOk, PlaneOk, ValidRect;
    PictureSize(s);
    forall i: nat ensures !Covered(s.w, [], i) { NotCovered(s.w, i); }
  }

  // ------------------------------------------------------------ debt with ink

  lemma CleanupDebt(s: State, panel: Panel, now: nat)
    requires Sound(s) && PanelShaped(Size(s.w, s.h), panel) && DebtKnown(s, panel) && s.policy.config.settled == Quality
    ensures var m := RequestCleanup(s, panel, now).0; m.s.w > 0 && DebtKnown(m.s, m.panel)
    ensures RequestCleanup(s, panel, now).0.s.policy.config == s.policy.config
  {
    hide Size, Tick, Covered, Picture, PlaneOk, ValidRect, BaseCurrent, PanelShaped;
    var armed := s.(forceCleanup := true);
    ArmedSound(s);
    if s.pending.Some? {
      TickDebt(armed, panel, now, true);
      TickFrame(armed, panel, now, true);
      TickShaped(armed, panel, now, true);
    } else if s.presentedId != 0 && !Next(panel).Fail? {
      var p1 := Pumped(panel);
      RestShaped(Size(s.w, s.h), panel);
      PanelParts(Size(s.w, s.h), p1);
      var d := MaintenanceDecision(armed);
      if !Next(p1).Fail? {
        var m := RequestCleanup(s, panel, now).0;
        DecideWaveform(s.policy, Settled, Mixed, Size(s.w, s.h), Size(s.w, s.h), true);
        FullyDriven(s, p1.drive, m.panel.drive, d.waveform);
      }
    }
  }

  /** Ink at the fastest waveform keeps the debt known, on a trusted panel. */
  lemma InkDebt(s: State, panel: Panel, now: nat)
    requires Sound(s) && PanelShaped(Size(s.w, s.h), panel) && DebtKnown(s, panel) && s.policy.config.settled == Quality
    requires s.inkWaveform == Fastest && Certain(s) && Reliable(panel)
    ensures Shaped(s)
    ensures var r := PresentPlane(s, panel, now, Latest);
            && r.PlaneDone? && r.moved.s.w > 0 && DebtKnown(r.moved.s, r.moved.panel)
            && r.moved.s.policy.config == s.policy.config
  {
    hide Size, Tick, Repaint, PanelShaped, Sound, Reliable, Found, Chosen, DebtKnown, MayTrust, DebtSurvives;
    SoundShaped(s);
    var f := Tick(s, panel, now, true);
    TickShaped(s, panel, now, true);
    TickSound(s, panel, now, true);
    TickFrame(s, panel, now, true);
    TickDebt(s, panel, now, true);
    TickReliable(s, panel, now, true);
    if !f.s.uncertain { FastestInkSurvives(f.s); }
    RepaintReliable(f.s, f.panel, now, Latest, f.terminals);
    RepaintKeepsDebt(f.s, f.panel, now, Latest, f.terminals);
    RepaintShapes(f.s, f.panel, now, Latest, f.terminals);
  }

  lemma InkSafe(s: State, panel: Panel, now: nat)
    requires Safe(s, panel) && s.inkWaveform == Fastest && Certain(s) && Reliable(panel)
    ensures Shaped(s)
    ensures var r := PresentPlane(s, panel, now, Latest); r.PlaneDone? && Safe(r.moved.s, r.moved.panel)
  {
    hide Size, PresentPlane, PanelShaped, Sound, GlassTrue, Reliable, DebtKnown, PictureCurrent;
    InvSound(s);
    InkDebt(s, panel, now);
    PlaneGlass(s, panel, now, Latest);
    PresentPlaneInv(s, panel, now, Latest);
    PresentPlaneSound(s, panel, now, Latest);
  }

  /** The ink waveform is set once, with the surface. */
  lemma StepKeepsInk(s: State, panel: Panel, step: Step)
    requires Inv(s) && PanelShaped(Size(s.w, s.h), panel) && Enabled(s, step) && Do(s, panel, step).Some?
    ensures Do(s, panel, step).value.s.inkWaveform == s.inkWaveform
  {
    hide Size, Tick, InkLine, PanelShaped, Shaped, Sound, PictureCurrent, ApplyAll, CommitCheck, AdaptiveDue, PresentPlane,
         SubmitTo, Submitted, TotalArea;
    InvSound(s);
    match step
    case CommitStep(frame, content, now) =>
    case TickStep(now, idle) =>
      CleanupKeepsInk(s, panel, now);
      TickFrame(s, panel, now, false);
    case PlainTickStep(now) => TickFrame(s, panel, now, false);
    case CleanupStep(now) => CleanupKeepsInk(s, panel, now);
    case ProfileStep(config, now) =>
      ConfigSound(s, config);
      CleanupKeepsInk(UpdateConfig(s, config).0, panel, now);
    case ConfigStep(config) =>
    case FreezeStep =>
    case ArmStep =>
    case OverlayStep(menu, peer, clearInk, now) =>
      EditedSound(s, menu, peer, clearInk);
      PlaneKeepsInk(Edited(s, menu, peer, clearInk), panel, now, Settled);
    case StrokeStep(from, to, radius, erase) =>
    case InkStep(now) => PlaneKeepsInk(s, panel, now, Latest);
  }

  lemma CleanupKeepsInk(s: State, panel: Panel, now: nat)
    requires Sound(s) && PanelShaped(Size(s.w, s.h), panel)
    ensures Shaped(s) && RequestCleanup(s, panel, now).0.s.inkWaveform == s.inkWaveform
  {
    hide Size, Tick, PanelShaped, BaseCurrent, SubmitTo, Submitted, TotalArea, Pumped;
    var armed := s.(forceCleanup := true);
    ArmedSound(s);
    TickFrame(armed, panel, now, true);
  }

  lemma PlaneKeepsInk(s: State, panel: Panel, now: nat, intent: Intent)
    requires Sound(s) && PanelShaped(Size(s.w, s.h), panel)
    ensures Shaped(s)
    ensures var r := PresentPlane(s, panel, now, intent); r.PlaneDone? ==> r.moved.s.inkWaveform == s.inkWaveform
  {
    hide Size, Tick, Repaint, PanelShaped, Sound;
    SoundShaped(s);
    var f := Tick(s, panel, now, true);
    TickShaped(s, panel, now, true);
    TickSound(s, panel, now, true);
    TickFrame(s, panel, now, true);
    if PresentPlane(s, panel, now, intent).PlaneDone? { RepaintFrame(f.s, f.panel, now, intent, f.terminals); }
  }

  /** Frames, strokes and their presentation, but no overlays. */
  predicate InkStepOk(step: Step) {
    && !step.OverlayStep?
    && (step.ProfileStep? || step.ConfigStep? ==> step.config.settled == Quality)
  }

  /** Ghost-debt safety with ink: with the fastest ink waveform, presented only
      while the panel is trusted, over every run each ghosting pixel is part of the
      debt and the glass shows the software picture, unless a failed submission
      left it uncertain. */
  lemma {:induction false} InkRunKeepsPanelSafe(s: State, panel: Panel, turns: seq<Turn>, trust: bool)
    requires Safe(s, panel) && s.inkWaveform == Fastest && (trust ==> Certain(s))
    requires (forall k :: 0 <= k < |turns| ==> InkStepOk(turns[k].step))
    requires Perform(s, panel, turns).Some? && Scheduled(trust, turns, Perform(s, panel, turns).value.reports)
    ensures var r := Perform(s, panel, turns).value; Safe(r.s, r.panel)
    decreases |turns|
  {
    hide Do, Inv, GlassTrue, DebtKnown, PanelShaped, Enabled;
    if turns != [] {
      var t := turns[0];
      var p := Asked(panel, t);
      assert Safe(s, p) by { ScriptSafe(s, panel, t); }
      TurnGlass(s, panel, t, trust);
      DoInv(s, p, t.step);
      StepKeepsInk(s, p, t.step);
      InkTurnSafe(s, p, t.step);
      var m := Do(s, p, t.step).value;
      assert forall k :: 0 <= k < |turns[1..]| ==> turns[1..][k] == turns[k + 1];
      assert Perform(s, panel, turns).value.reports[1..] == Perform(m.s, m.panel, turns[1..]).value.reports;
      InkRunKeepsPanelSafe(m.s, m.panel, turns[1..], TrustAfter(trust, t, m.terminals));
    }
  }

  lemma ScriptSafe(s: State, panel: Panel, t: Turn)
    requires Safe(s, panel) && PanelShaped(Size(s.w, s.h), Asked(panel, t))
    ensures Safe(s, Asked(panel, t))
  {
    hide Inv, Covered;
  }

  lemma InkTurnSafe(s: State, panel: Panel, step: Step)
    requires Safe(s, panel) && InkStepOk(step) && Enabled(s, step) && Do(s, panel, step).Some?
    requires s.inkWaveform == Fastest && (step.InkStep? ==> Certain(s) && Reliable(panel))
    ensures var m := Do(s, panel, step).value; Safe(m.s, m.panel)
  {
    hide Safe, Inv, PresentPlane, Reliable, PanelShaped;
    assert Inv(s) && PanelShaped(Size(s.w, s.h), panel) by { SafeParts(s, panel); }
    if step.InkStep? {
      InkSafe(s, panel, step.now);
    } else {
      StepSafe(s, panel, step);
    }
  }

  lemma SafeParts(s: State, panel: Panel)
    requires Safe(s, panel)
    ensures Inv(s) && PanelShaped(Size(s.w, s.h), panel)
  {
  }
}
