/** Which waveform a submission is driven with, read off the log of the panel: it
    follows the content a frame was committed with, and no setting of a waveform
    decides whether a refresh is complete. */
module Waveforms {
  import opened Geometry
  import opened Pixels
  import opened Raster
  import opened Regions
  import opened Tiles
  import opened Ink
  import opened Refresh
  import opened Core

  // ------------------------------------------------------ complete refreshes

  /** A settled frame while fast updates are owed, as many as the limit. */
  predicate FastDebtDue(s: State)
    requires s.pending.Some?
  {
    var c := s.policy.config;
    s.pending.value.intent == Settled && |s.settle| > 0 && c.staticAfter > 0 && s.fastUpdates >= c.staticAfter
  }

  /** Every ground for a complete refresh of the pending frame. */
  ghost predicate CompleteDue(s: State)
    requires Shaped(s) && s.pending.Some?
  {
    var c, p := s.policy.config, s.pending.value;
    || !c.partialEnabled
    || p.forceCleanup || s.forceCleanup
    || FastDebtDue(s)
    || (c.cleanFirst && !s.policy.hasPresented)
    || (c.cleanupAfter > 0 && s.policy.presented >= c.cleanupAfter)
    || (p.intent == Settled && c.largePercent > 0
        && TotalArea(TickDamage(s)) * 100 >= Size(s.w, s.h) * c.largePercent)
  }

  /** A partial update of this intent and content is driven as configured. */
  predicate AsConfigured(c: Config, intent: Intent, content: Content, waveform: Waveform) {
    && (intent == Settled ==> waveform == c.settled)
    && (intent == Latest && content == Photo ==> waveform == c.latestPhoto)
    && (intent == Latest && content == Video ==> waveform == c.latestVideo)
    && (intent == Latest && content != Photo && content != Video ==> waveform == c.latestText)
  }

  /** What the submission of the pending frame has to be. */
  ghost predicate Right(s: State, d: Decision)
    requires Shaped(s) && s.pending.Some?
  {
    var c, p := s.policy.config, s.pending.value;
    && (d.complete <==> CompleteDue(s))
    && (d.complete <==> d.reason != NoReason)
    && (d.reason == StaticFastDebt <==> c.partialEnabled && !p.forceCleanup && !s.forceCleanup && FastDebtDue(s))
    && (d.complete ==> d.waveform == if c.profile == HighQuality then FullQuality else Quality)
    && (!d.complete ==> AsConfigured(c, p.intent, p.content, d.waveform))
  }

  lemma DecisionRight(s: State)
    requires Shaped(s) && s.pending.Some?
    ensures Right(s, TickDecision(s))
  {
    hide Shaped, TickDamage, Size;
  }

  /** One more entry in the log. */
  predicate Logs(before: Panel, after: Panel, d: Decision) {
    after.log == before.log + [d]
  }

  /** A tick logs nothing, or one submission: complete on the grounds listed and
      on no other, and driven by the waveform of its intent and content. */
  lemma TickLogsRight(s: State, panel: Panel, now: nat, ignoreDeadline: bool)
    requires Shaped(s) && PanelShaped(Size(s.w, s.h), panel)
    ensures var m := Tick(s, panel, now, ignoreDeadline);
            && (s.pending.None? ==> m.panel.log == panel.log)
            && (m.panel.log != panel.log ==> s.pending.Some? && exists d :: Logs(panel, m.panel, d) && Right(s, d))
  {
    hide Size, Shaped, PanelShaped, TickDecision, TickAccepted, SubmitDamage, SubmitImage, Deadline, Right;
    RestShaped(Size(s.w, s.h), panel);
    if s.pending.Some? {
      DecisionRight(s);
      if Next(panel).Accept? {
        PresentLogs(s, Pumped(panel), now);
        var m := Present(s, Pumped(panel), now);
        if m.panel.log != panel.log { assert Logs(panel, m.panel, TickDecision(s)); }
      }
    }
  }

  lemma PresentLogs(s: State, panel: Panel, now: nat)
    requires Shaped(s) && s.pending.Some? && PanelShaped(Size(s.w, s.h), panel)
    ensures var m := Present(s, panel, now); m.panel.log == panel.log || Logs(panel, m.panel, TickDecision(s))
  {
    hide Size, Shaped, TickDecision, TickAccepted, SubmitDamage, Covered;
    ImageSize(s);
  }

  /** The waveform follows the content the frame was committed with, whatever the
      frame it superseded was. */
  lemma ContentChoosesWaveform(s: State, f: Frame, content: Content, at: nat, panel: Panel, now: nat, ignoreDeadline: bool)
    requires Shaped(s) && PanelShaped(Size(s.w, s.h), panel) && Commit(s, f, content, at).1.Committed?
    ensures var t := Commit(s, f, content, at).0;
            && Shaped(t) && (t.w, t.h) == (s.w, s.h)
            && var m := Tick(t, panel, now, ignoreDeadline);
               m.panel.log != panel.log ==>
                 exists d :: Logs(panel, m.panel, d) && (!d.complete ==> AsConfigured(s.policy.config, f.intent, content, d.waveform))
  {
    hide Size, Shaped, PanelShaped, Tick, CompleteDue, AsConfigured, ApplyAll, CommitCheck;
    CommitShaped(s, f, content, at);
    var t := Commit(s, f, content, at).0;
    TickLogsRight(t, panel, now, ignoreDeadline);
    var m := Tick(t, panel, now, ignoreDeadline);
    if m.panel.log != panel.log {
      var d :| Logs(panel, m.panel, d) && Right(t, d);
    }
  }

  /** Every ground for a complete refresh of a plane: what is owed otherwise
      counts, but neither an armed cleanup nor the fast debt does. */
  ghost predicate PlaneCompleteDue(s: State)
    requires Shaped(s)
  {
    var c := s.policy.config;
    var composed := Painted(s.w, s.working, Picture(s), PlaneRegions(s, Settled));
    || !c.partialEnabled
    || (c.cleanFirst && !s.policy.hasPresented)
    || (c.cleanupAfter > 0 && s.policy.presented >= c.cleanupAfter)
    || (c.largePercent > 0 && TotalArea(PlaneDamage(s, Settled, composed)) * 100 >= Size(s.w, s.h) * c.largePercent)
  }

  /** Ink is always drawn with its own waveform and never refreshes the panel; an
      overlay or the menu is treated as settled. */
  lemma PlaneLogsRight(s: State, panel: Panel, now: nat, intent: Intent)
    requires Shaped(s) && PanelShaped(Size(s.w, s.h), panel)
    ensures var r := Repaint(s, panel, now, intent, []);
            r.PlaneDone? && r.moved.panel.log != panel.log ==>
              exists d :: && Logs(panel, r.moved.panel, d)
                          && (intent == Latest ==> d.waveform == s.inkWaveform && !d.complete)
                          && (intent == Settled ==>
                                && (d.complete <==> PlaneCompleteDue(s))
                                && (!d.complete ==> d.waveform == s.policy.config.settled))
  {
    hide Size, PanelShaped, PlaneAccepted, PlaneDamage, Picture, Painted, Driven, TotalArea, PlaneOk;
    PictureSize(s);
    var regions := PlaneRegions(s, intent);
    var composed := Painted(s.w, s.working, Picture(s), regions);
    var d := PlaneDecision(s, intent, PlaneDamage(s, intent, composed));
    var r := Repaint(s, panel, now, intent, []);
    if r.PlaneDone? && r.moved.panel.log != panel.log { assert Logs(panel, r.moved.panel, d); }
  }

  // ------------------------------------------------------- other waveforms

  /** The same settings but for the waveforms. */
  predicate SameButWaveforms(c: Config, e: Config) {
    e == c.(latestText := e.latestText, latestPhoto := e.latestPhoto, latestVideo := e.latestVideo, settled := e.settled)
  }

  function Configured(s: State, e: Config): State {
    s.(policy := s.policy.(config := e))
  }

  /** The waveform a frame of this intent and content would be driven with is the
      same under both. */
  predicate OwnKept(c: Config, e: Config, intent: Intent, content: Content) {
    && (intent == Settled ==> e.settled == c.settled)
    && (intent == Latest && content == Photo ==> e.latestPhoto == c.latestPhoto)
    && (intent == Latest && content == Video ==> e.latestVideo == c.latestVideo)
    && (intent == Latest && content != Photo && content != Video ==> e.latestText == c.latestText)
  }

  lemma DecisionUnder(s: State, e: Config)
    requires Shaped(s) && s.pending.Some? && SameButWaveforms(s.policy.config, e)
    ensures var t := Configured(s, e);
            && Shaped(t)
            && TickDamage(t) == TickDamage(s) && TickComposed(t) == TickComposed(s) && Picture(t) == Picture(s)
            && TickDecision(t) == TickDecision(s).(waveform := TickDecision(t).waveform)
            && (TickDecision(s).complete || OwnKept(s.policy.config, e, s.pending.value.intent, s.pending.value.content) ==>
                  TickDecision(t) == TickDecision(s))
  {
    hide Size, Painted, TileDamageRegions, MergeTiled, Composed, PlaneOk, TotalArea;
  }

  /** No waveform setting decides whether, why or where the panel is driven, only
      how; and the setting that says how is the own one of the frame. */
  lemma OnlyOwnWaveform(s: State, panel: Panel, now: nat, ignoreDeadline: bool, e: Config)
    requires Shaped(s) && PanelShaped(Size(s.w, s.h), panel) && SameButWaveforms(s.policy.config, e)
    ensures Shaped(Configured(s, e))
    ensures var m, n := Tick(s, panel, now, ignoreDeadline), Tick(Configured(s, e), panel, now, ignoreDeadline);
            && m.terminals == n.terminals && m.panel.image == n.panel.image && m.panel.script == n.panel.script
            && |m.panel.log| == |n.panel.log|
            && (forall k :: 0 <= k < |m.panel.log| ==>
                  (m.panel.log[k].complete, m.panel.log[k].reason) == (n.panel.log[k].complete, n.panel.log[k].reason))
            && (s.pending.Some? && OwnKept(s.policy.config, e, s.pending.value.intent, s.pending.value.content) ==>
                  m.panel == n.panel)
  {
    hide Size, Shaped, PanelShaped, TickDecision, TickAccepted, TickDamage, TickComposed, Picture, Painted, Driven, Deadline,
         OwnKept, SameButWaveforms, MarkFailure;
    RestShaped(Size(s.w, s.h), panel);
    var t := Configured(s, e);
    ConfiguredShaped(s, e);
    assert s.pending.Some? ==> Deadline(t) == Deadline(s) by { SameDeadline(s, e); }
    if s.pending.Some? {
      DecisionUnder(s, e);
      assert SubmitDamage(t) == SubmitDamage(s) && SubmitImage(t) == SubmitImage(s) by { ImageSize(s); ImageSize(t); }
    }
  }

  lemma ConfiguredShaped(s: State, e: Config)
    requires Shaped(s)
    ensures Shaped(Configured(s, e))
  {
    hide Size, PlaneOk;
  }

  lemma SameDeadline(s: State, e: Config)
    ensures Deadline(Configured(s, e)) == Deadline(s)
  {
  }

  // ---------------------------------------------------------------- presets

  /** How much a waveform shows, from the quickest to the best. */
  function Rank(w: Waveform): nat {
    match w
    case Fastest => 0
    case Fast => 1
    case Quality => 2
    case FullQuality => 3
  }

  predicate NoSlower(a: Config, b: Config) {
    && Rank(a.latestText) <= Rank(b.latestText)
    && Rank(a.latestVideo) <= Rank(b.latestVideo)
    && Rank(a.latestPhoto) <= Rank(b.latestPhoto)
    && Rank(a.settled) <= Rank(b.settled)
  }

  /** Every preset is valid; from the realtime to the quality profile nothing gets
      quicker; photos and settled frames never get less than quality, and moving
      pictures never more than text. */
  lemma PresetsOrdered(profile: Profile)
    ensures Validate(Preset(profile)).None? && Preset(profile).profile == profile
    ensures NoSlower(Preset(Realtime), Preset(Animate)) && NoSlower(Preset(Animate), Preset(Balanced))
    ensures NoSlower(Preset(Balanced), Preset(Reading)) && NoSlower(Preset(Reading), Preset(HighQuality))
    ensures var c := Preset(profile);
            && c.latestPhoto == c.settled == Quality
            && Rank(c.latestVideo) <= Rank(c.latestText)
            && Rank(Preset(Realtime).latestText) < Rank(Preset(HighQuality).latestVideo)
  {
  }
}
