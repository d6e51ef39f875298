/** What is really on the glass: its picture, the waveform debt of every pixel,
    and how often it is cleaned. */
module PanelSafety {
  import opened Geometry
  import opened Pixels
  import opened Raster
  import opened Regions
  import opened Tiles
  import opened Ink
  import opened Refresh
  import opened Core
  import opened Composition

  /** Once a frame was shown, and unless a submission failed since, the glass
      holds the software picture. */
  ghost predicate GlassTrue(s: State, p: Panel) {
    s.presentedId != 0 && !s.uncertain ==> p.image == s.presented
  }

  predicate Ghosting(waveform: Waveform) {
    waveform == Fastest || waveform == Fast
  }

  /** Every pixel last driven by a fast waveform is remembered for the next
      settled repaint. */
  ghost predicate DebtKnown(s: State, p: Panel)
    requires s.w > 0
  {
    s.presentedId != 0 && !s.uncertain ==>
      forall i :: 0 <= i < |p.drive| && Ghosting(p.drive[i]) ==> Covered(s.w, s.settle, i)
  }

  ghost predicate Safe(s: State, p: Panel) {
    && Inv(s)
    && PanelShaped(Size(s.w, s.h), p)
    && s.policy.config.settled == Quality
    && GlassTrue(s, p)
    && DebtKnown(s, p)
  }

  ghost predicate NothingGhosts(p: Panel) {
    forall i :: 0 <= i < |p.drive| ==> !Ghosting(p.drive[i])
  }

  lemma DecisionWaveform(s: State)
    requires Shaped(s) && s.pending.Some? && PolicyOk(s.policy) && s.policy.config.settled == Quality
    ensures var d := TickDecision(s);
            && (d.complete ==> d.waveform == Quality || d.waveform == FullQuality)
            && (!d.complete && s.pending.value.intent == Settled ==> d.waveform == Quality)
            && (!d.complete && s.pending.value.intent == Latest ==> d.waveform != FullQuality)
  {
    hide Size, TickDamage, Shaped;
  }

  /** The panel side of a tick. */
  lemma TickPanel(s: State, panel: Panel, now: nat, ignoreDeadline: bool)
    requires Sound(s) && PanelShaped(Size(s.w, s.h), panel)
    requires Kind(s, Tick(s, panel, now, ignoreDeadline)).Shown?
    ensures var m := Tick(s, panel, now, ignoreDeadline);
            && |SubmitImage(s)| == |panel.image|
            && if SubmitDamage(s) == [] then
                 m.panel.image == panel.image && m.panel.drive == panel.drive && m.panel.log == panel.log
                 && m.s.settle == s.settle && m.s.policy == s.policy
               else
                 && m.panel.image == Painted(s.w, panel.image, SubmitImage(s), SubmitDamage(s))
                 && m.panel.drive == Driven(s.w, panel.drive, SubmitDamage(s), TickDecision(s).waveform)
                 && m.panel.log == panel.log + [TickDecision(s)]
                 && Next(Pumped(panel)).Accept?
                 && m.s.policy == Submitted(s.policy, TickDecision(s), Next(Pumped(panel)).physical)
                 && m.s.settle ==
                      (if TickDecision(s).complete || s.pending.value.intent == Settled then []
                       else if FastDebt(s, TickDecision(s), s.pending.value.intent)
                       then MergeTiled(s.w, s.h, s.damageTile, s.settle, SubmitDamage(s))
                       else s.settle)
  {
    hide Size, TickDecision, SubmitDamage, SubmitImage, PlaneOk, ValidRect, Submitted, PolicyOk, MergeTiled,
         Painted, Driven, BaseCurrent;
    ImageSize(s);
  }

  lemma TickGlass(s: State, panel: Panel, now: nat, ignoreDeadline: bool)
    requires Sound(s) && PanelShaped(Size(s.w, s.h), panel) && GlassTrue(s, panel)
    ensures var m := Tick(s, panel, now, ignoreDeadline); GlassTrue(m.s, m.panel)
  {
    hide Size, Tick, Covered, TickDecision, SubmitDamage, SubmitImage, PlaneOk, ValidRect, PolicyOk, BaseCurrent, Flags;
    var m := Tick(s, panel, now, ignoreDeadline);
    TickOutcome(s, panel, now, ignoreDeadline);
    if Kind(s, m).Shown? {
      TickPanel(s, panel, now, ignoreDeadline);
      BuffersConverge(s);
      if s.presentedId == 0 || s.uncertain {
        FullWhenUntrusted(s);
      }
      forall i | 0 <= i < Size(s.w, s.h) ensures m.panel.image[i] == SubmitImage(s)[i] {
        FullCovers(s.w, s.h, i);
        NotCovered(s.w, i);
      }
    }
  }

  /** When the glass is not known, a frame is submitted to every pixel. */
  lemma FullWhenUntrusted(s: State)
    requires Sound(s) && s.pending.Some? && (s.presentedId == 0 || s.uncertain)
    ensures SubmitDamage(s) != []
    ensures forall i: nat :: i < Size(s.w, s.h) ==> Covered(s.w, SubmitDamage(s), i)
  {
    hide Size, Covered, TickDecision, MergeTiled, PlaneOk, ValidRect, PolicyOk, BaseCurrent;
    if s.uncertain {
      ForcedCompletes(s);
    }
    forall i: nat | i < Size(s.w, s.h) ensures Covered(s.w, SubmitDamage(s), i) {
      FullCovers(s.w, s.h, i);
      MergeCovers(s.w, s.h, s.damageTile, s.settle, [Full(s.w, s.h)], i);
    }
    CornerCovered(s);
  }

  lemma CornerCovered(s: State)
    requires s.w > 0 && s.h > 0
    ensures 0 < Size(s.w, s.h)
    ensures !Covered(s.w, [], 0)
  {
    IndexBound(s.w, s.h, 0, 0);
  }

  lemma TickDebt(s: State, panel: Panel, now: nat, ignoreDeadline: bool)
    requires Sound(s) && PanelShaped(Size(s.w, s.h), panel)
    requires DebtKnown(s, panel) && s.policy.config.settled == Quality
    ensures var m := Tick(s, panel, now, ignoreDeadline);
            && DebtKnown(m.s, m.panel)
            && (Kind(s, m).Shown? && s.pending.value.intent == Settled ==> NothingGhosts(m.panel))
  {
    hide Size, Tick, Covered, TickDecision, SubmitDamage, SubmitImage, PlaneOk, ValidRect, PolicyOk, BaseCurrent, Flags,
         MergeTiled, PanelShaped;
    var m := Tick(s, panel, now, ignoreDeadline);
    TickOutcome(s, panel, now, ignoreDeadline);
    TickShaped(s, panel, now, ignoreDeadline);
    if Kind(s, m).Shown? {
      TickPanel(s, panel, now, ignoreDeadline);
      DecisionWaveform(s);
      PanelParts(Size(s.w, s.h), panel);
      forall i | 0 <= i < Size(s.w, s.h)
        ensures Ghosting(m.panel.drive[i]) ==> Covered(s.w, m.s.settle, i)
        ensures Ghosting(m.panel.drive[i]) ==> s.pending.value.intent == Latest
      {
        TickDebtAt(s, panel, m, i);
      }
    }
  }

  /** The debt argument at one pixel. */
  lemma TickDebtAt(s: State, panel: Panel, m: Moved, i: nat)
    requires Sound(s) && |panel.drive| == |panel.image| == |m.panel.drive| == Size(s.w, s.h) && i < Size(s.w, s.h)
    requires DebtKnown(s, panel) && s.pending.Some? && |SubmitImage(s)| == |panel.image|
    requires var d := TickDecision(s);
             && (d.complete ==> d.waveform == Quality || d.waveform == FullQuality)
             && (!d.complete && s.pending.value.intent == Settled ==> d.waveform == Quality)
    requires SubmitDamage(s) == [] ==> m.panel.drive == panel.drive && m.s.settle == s.settle
    requires SubmitDamage(s) != [] ==>
               && m.panel.drive == Driven(s.w, panel.drive, SubmitDamage(s), TickDecision(s).waveform)
               && m.s.settle ==
                    (if TickDecision(s).complete || s.pending.value.intent == Settled then []
                     else if FastDebt(s, TickDecision(s), s.pending.value.intent)
                     then MergeTiled(s.w, s.h, s.damageTile, s.settle, SubmitDamage(s))
                     else s.settle)
    ensures Ghosting(m.panel.drive[i]) ==> Covered(s.w, m.s.settle, i) && s.pending.value.intent == Latest
  {
    hide Size, Covered, TickDecision, SubmitImage, PlaneOk, ValidRect, PolicyOk, BaseCurrent, Flags, MergeTiled, TickDamage;
    var damage := SubmitDamage(s);
    if s.presentedId == 0 || s.uncertain {
      FullWhenUntrusted(s);
    }
    FullCovers(s.w, s.h, i);
    NotCovered(s.w, i);
    MergeCovers(s.w, s.h, s.damageTile, s.settle, damage, i);
    if s.pending.value.intent == Settled {
      SettledRepaintsDebt(s, i);
    }
  }

  /** A settled frame repaints every tile of the fast debt. */
  lemma SettledRepaintsDebt(s: State, i: nat)
    requires Shaped(s) && s.pending.Some? && s.pending.value.intent == Settled && i < Size(s.w, s.h)
    ensures Covered(s.w, s.settle, i) ==> Covered(s.w, SubmitDamage(s), i)
  {
    hide Size, Covered, TickDecision, MergeTiled, PlaneOk, ValidRect;
    var p := s.pending.value;
    var changed :=
      if p.forceFull then [Full(s.w, s.h)]
      else TileDamageRegions(s.w, s.h, s.damageTile, s.presented, TickComposed(s), TickRegions(s));
    FullCovers(s.w, s.h, i);
    MergeCovers(s.w, s.h, s.damageTile, s.settle, changed, i);
  }

  lemma TickSafe(s: State, panel: Panel, now: nat, ignoreDeadline: bool)
    requires Safe(s, panel)
    ensures var m := Tick(s, panel, now, ignoreDeadline);
            && Safe(m.s, m.panel)
            && (Kind(s, m).Shown? && s.pending.value.intent == Settled ==>
                  NothingGhosts(m.panel) && m.panel.image == m.s.presented)
  {
    hide Size, Tick, GlassTrue, DebtKnown, NothingGhosts, PanelShaped, Sound, PictureCurrent;
    InvSound(s);
    TickInv(s, panel, now, ignoreDeadline);
    TickShaped(s, panel, now, ignoreDeadline);
    TickFrame(s, panel, now, ignoreDeadline);
    TickGlass(s, panel, now, ignoreDeadline);
    TickDebt(s, panel, now, ignoreDeadline);
    var m := Tick(s, panel, now, ignoreDeadline);
    TickOutcome(s, panel, now, ignoreDeadline);
    if Kind(s, m).Shown? {
      assert m.s.presentedId != 0 by { PendingIdPositive(s); }
      assert m.panel.image == m.s.presented by { GlassMeans(m.s, m.panel); }
    }
  }

  lemma PendingIdPositive(s: State)
    requires Sound(s) && s.pending.Some?
    ensures s.pending.value.frameId != 0
  {
  }

  lemma GlassMeans(s: State, p: Panel)
    requires GlassTrue(s, p) && s.presentedId != 0 && !s.uncertain
    ensures p.image == s.presented
  {
  }

  lemma CleanupSafe(s: State, panel: Panel, now: nat)
    requires Safe(s, panel)
    ensures var m := RequestCleanup(s, panel, now).0; Safe(m.s, m.panel)
    ensures RequestCleanup(s, panel, now).1.performed ==> NothingGhosts(RequestCleanup(s, panel, now).0.panel)
  {
    hide Size, Tick, Covered, Picture, PlaneOk, ValidRect, PictureCurrent, BaseCurrent, PanelShaped;
    var armed := s.(forceCleanup := true);
    InvSound(s);
    ArmedSound(s);
    CleanupInv(s, panel, now);
    if s.pending.Some? {
      var m := Tick(armed, panel, now, true);
      TickSafe(armed, panel, now, true);
      TickOutcome(armed, panel, now, true);
      if Kind(armed, m).Shown? {
        TickPanel(armed, panel, now, true);
        ForcedCompletes(armed);
        DecisionWaveform(armed);
        PanelParts(Size(s.w, s.h), panel);
        assert NothingGhosts(m.panel) by { FullyDriven(armed, panel.drive, m.panel.drive, TickDecision(armed).waveform); }
      }
    } else if s.presentedId != 0 && !Next(panel).Fail? {
      var p1 := Pumped(panel);
      RestShaped(Size(s.w, s.h), panel);
      PanelParts(Size(s.w, s.h), p1);
      var d := MaintenanceDecision(armed);
      if !Next(p1).Fail? {
        var m := RequestCleanup(s, panel, now).0;
        DecideWaveform(s.policy, Settled, Mixed, Size(s.w, s.h), Size(s.w, s.h), true);
        FullyDriven(s, p1.drive, m.panel.drive, d.waveform);
        forall i | 0 <= i < Size(s.w, s.h) ensures m.panel.image[i] == s.presented[i] {
          FullCovers(s.w, s.h, i);
        }
      }
    }
  }

  lemma FullyDriven(s: State, before: seq<Waveform>, after: seq<Waveform>, waveform: Waveform)
    requires s.w > 0 && |before| == Size(s.w, s.h) && !Ghosting(waveform)
    requires after == Driven(s.w, before, [Full(s.w, s.h)], waveform)
    ensures forall i :: 0 <= i < |after| ==> !Ghosting(after[i])
  {
    hide Size;
    forall i | 0 <= i < |after| ensures !Ghosting(after[i]) {
      FullCovers(s.w, s.h, i);
    }
  }

  /** Steps that neither draw local planes nor choose another settled waveform. */
  predicate FrameStep(step: Step) {
    && !OverlayOnly(step)
    && (step.ProfileStep? || step.ConfigStep? ==> step.config.settled == Quality)
  }

  lemma StepSafe(s: State, panel: Panel, step: Step)
    requires Safe(s, panel) && FrameStep(step) && Enabled(s, step) && Do(s, panel, step).Some?
    ensures var m := Do(s, panel, step).value; Safe(m.s, m.panel)
  {
    hide Size, Tick, RequestCleanup, InkLine, PanelShaped, Shaped, Sound, PictureCurrent, Covered, ApplyAll, CommitCheck,
         AdaptiveDue;
    InvSound(s);
    DoInv(s, panel, step);
    match step
    case CommitStep(frame, content, now) =>
    case TickStep(now, idle) =>
      CleanupSafe(s, panel, now);
      TickSafe(s, panel, now, false);
    case PlainTickStep(now) => TickSafe(s, panel, now, false);
    case CleanupStep(now) => CleanupSafe(s, panel, now);
    case ProfileStep(config, now) =>
      var next := UpdateConfig(s, config).0;
      ConfigInv(s, config);
      InvSound(next);
      CleanupSafe(next, panel, now);
    case ConfigStep(config) =>
    case FreezeStep =>
    case ArmStep =>
    case OverlayStep(menu, peer, clearInk, now) => assert false;
    case StrokeStep(from, to, radius, erase) =>
    case InkStep(now) => assert false;
  }

  /** Ghost-debt safety and fidelity of the glass over whole runs: whatever the
      panel answers, in a run of frames, ticks, cleanups, freezes and policy
      changes every ghosting pixel is part of the debt, and the glass shows the
      software picture, unless a failed submission left it uncertain. */
  lemma {:induction false} RunKeepsPanelSafe(s: State, panel: Panel, steps: seq<Step>)
    requires Safe(s, panel) && (forall k :: 0 <= k < |steps| ==> FrameStep(steps[k]))
    requires Execute(s, panel, steps).Some?
    ensures var r := Execute(s, panel, steps).value; Safe(r.s, r.panel)
    decreases |steps|
  {
    hide Do, Inv, GlassTrue, DebtKnown, PanelShaped;
    if steps != [] {
      StepSafe(s, panel, steps[0]);
      DoInv(s, panel, steps[0]);
      var m := Do(s, panel, steps[0]).value;
      assert forall k :: 0 <= k < |steps[1..]| ==> steps[1..][k] == steps[k + 1];
      RunKeepsPanelSafe(m.s, m.panel, steps[1..]);
    }
  }

  /** After a whole such run from a new core, a settled frame that is reported
      as presented leaves no ghosting pixel and exactly its recomposition. */
  lemma SettledPresentationIsClean(s: State, panel: Panel, steps: seq<Step>, now: nat, ignoreDeadline: bool)
    requires Safe(s, panel) && (forall k :: 0 <= k < |steps| ==> FrameStep(steps[k]))
    requires Execute(s, panel, steps).Some?
    requires var t := Execute(s, panel, steps).value.s; t.pending.Some? && t.pending.value.intent == Settled
    ensures var r := Execute(s, panel, steps).value;
            Shaped(r.s) && PanelShaped(Size(r.s.w, r.s.h), r.panel)
    ensures var r := Execute(s, panel, steps).value;
            var m := Tick(r.s, r.panel, now, ignoreDeadline);
            Kind(r.s, m).Shown? ==>
              && NothingGhosts(m.panel)
              && m.panel.image == m.s.presented
              && Shaped(m.s) && PictureCurrent(m.s)
  {
    hide Execute, Tick, Picture, Covered, Kind, Size, PanelShaped, GlassTrue, DebtKnown, NothingGhosts;
    RunKeepsPanelSafe(s, panel, steps);
    var r := Execute(s, panel, steps).value;
    InvSound(r.s);
    TickSafe(r.s, r.panel, now, ignoreDeadline);
    TickInv(r.s, r.panel, now, ignoreDeadline);
    TickShaped(r.s, r.panel, now, ignoreDeadline);
  }

  lemma NewSafe(w: nat, h: nat, format: Format, maxFpsX100: nat, settledDeadline: nat, config: Config, panel: Panel)
    requires w > 0 && h > 0 && Validate(config).None? && config.settled == Quality
    requires PanelShaped(Size(w, h), panel)
    ensures Safe(NewState(w, h, format, maxFpsX100, settledDeadline, config), panel)
  {
    hide Size, Inv;
    NewInv(w, h, format, maxFpsX100, settledDeadline, config);
  }
}
