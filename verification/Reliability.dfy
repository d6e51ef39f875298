/** What the operations of the core do while the panel accepts every call: no
    base is lost and no glass becomes uncertain; and a cleanup makes any glass
    certain again. */
module Reliability {
  import opened Geometry
  import opened Pixels
  import opened Raster
  import opened Regions
  import opened Tiles
  import opened Ink
  import opened Refresh
  import opened Core
  import opened Composition

  /** The panel will accept every call. */
  ghost predicate Reliable(p: Panel) {
    forall k :: 0 <= k < |p.script| ==> p.script[k].Accept?
  }

  /** The glass is known, or nothing was ever shown on it. */
  predicate Certain(s: State) {
    !s.uncertain || s.presentedId == 0
  }

  /** Nothing failed on the way from one state to the other. */
  predicate Undisturbed(s: State, t: State) {
    && (s.baseValid ==> t.baseValid)
    && (t.uncertain ==> s.uncertain)
    && (Certain(s) ==> Certain(t))
  }

  /** A frame was reported as presented. */
  predicate Presents(terminals: seq<Terminal>) {
    exists k :: 0 <= k < |terminals| && terminals[k].outcome == Presented
  }

  lemma ReliableRest(p: Panel)
    requires Reliable(p)
    ensures Reliable(p.(script := Rest(p))) && Reliable(Pumped(p)) && Next(p).Accept?
  {
    assert forall k :: 0 <= k < |Rest(p)| ==> Rest(p)[k] == p.script[k + 1];
  }

  lemma SameScript(p: Panel, q: Panel)
    ensures p.script == q.script ==> (Reliable(p) <==> Reliable(q))
  {
  }

  lemma SubmitReliable(w: nat, p: Panel, frame: Image, damage: seq<Rect>, d: Decision)
    requires w > 0 && |frame| == |p.image| && Reliable(p)
    ensures Reliable(SubmitTo(w, p, frame, damage, d))
  {
    hide Painted, Driven, Reliable;
    ReliableRest(p);
    SameScript(p.(script := Rest(p)), SubmitTo(w, p, frame, damage, d));
  }

  lemma TickReliable(s: State, panel: Panel, now: nat, ignoreDeadline: bool)
    requires Sound(s) && PanelShaped(Size(s.w, s.h), panel) && Reliable(panel)
    ensures var m := Tick(s, panel, now, ignoreDeadline);
            && Reliable(m.panel) && !Kind(s, m).Failed? && Undisturbed(s, m.s)
            && (Presents(m.terminals) ==> Certain(m.s))
            && (ignoreDeadline && s.pending.Some? ==> Kind(s, m).Shown?)
  {
    hide Size, TickDecision, SubmitDamage, SubmitImage, TickAccepted, PlaneOk, ValidRect, PanelShaped, PolicyOk, BaseCurrent,
         SubmitTo, Reliable, Pumped, Painted;
    TickOutcome(s, panel, now, ignoreDeadline);
    ReliableRest(panel);
    if s.pending.Some? {
      ImageSize(s);
      var p1 := Pumped(panel);
      assert |p1.image| == Size(s.w, s.h) by { RestShaped(Size(s.w, s.h), panel); PanelParts(Size(s.w, s.h), p1); }
      ReliableRest(p1);
      SubmitReliable(s.w, p1, SubmitImage(s), SubmitDamage(s), TickDecision(s));
    }
  }

  lemma CommitUndisturbed(s: State, f: Frame, content: Content, now: nat)
    requires Shaped(s)
    ensures Undisturbed(s, Commit(s, f, content, now).0)
  {
    hide Shaped, ApplyAll, CommitCheck;
  }

  lemma CleanupReliable(s: State, panel: Panel, now: nat)
    requires Sound(s) && PanelShaped(Size(s.w, s.h), panel) && Reliable(panel)
    ensures var m := RequestCleanup(s, panel, now).0;
            Reliable(m.panel) && Undisturbed(s, m.s) && Certain(m.s)
  {
    hide Size, Tick, PlaneOk, ValidRect, PanelShaped, PolicyOk, BaseCurrent, SubmitTo, Reliable, Pumped, Painted, TotalArea;
    var armed := s.(forceCleanup := true);
    ArmedSound(s);
    TickReliable(armed, panel, now, true);
    TickOutcome(armed, panel, now, true);
    ReliableRest(panel);
    if s.pending.None? && s.presentedId != 0 {
      var p1 := Pumped(panel);
      assert |p1.image| == Size(s.w, s.h) by { RestShaped(Size(s.w, s.h), panel); PanelParts(Size(s.w, s.h), p1); }
      ReliableRest(p1);
      SubmitReliable(s.w, p1, s.presented, [Full(s.w, s.h)], MaintenanceDecision(armed));
    }
  }

  lemma InteractiveReliable(s: State, panel: Panel, now: nat, idle: bool)
    requires Sound(s) && PanelShaped(Size(s.w, s.h), panel) && Reliable(panel)
    ensures var m := TickInteractive(s, panel, now, idle);
            Reliable(m.panel) && Undisturbed(s, m.s) && (Presents(m.terminals) ==> Certain(m.s))
  {
    hide Size, Tick, Sound, PanelShaped, Reliable, RequestCleanup, AdaptiveDue;
    assert Shaped(s) by { SoundShaped(s); }
    CleanupReliable(s, panel, now);
    TickReliable(s, panel, now, false);
  }

  lemma ProfileReliable(s: State, panel: Panel, config: Config, now: nat)
    requires Sound(s) && PanelShaped(Size(s.w, s.h), panel) && Validate(config).None? && Reliable(panel)
    ensures var m := ChangeProfile(s, panel, config, now).0;
            Reliable(m.panel) && Undisturbed(s, m.s) && (Presents(m.terminals) ==> Certain(m.s))
  {
    hide Size, Sound, PanelShaped, Reliable, RequestCleanup;
    var next := UpdateConfig(s, config).0;
    ConfigSound(s, config);
    assert Shaped(s) && Shaped(next) by { SoundShaped(s); SoundShaped(next); }
    CleanupReliable(next, panel, now);
  }

  lemma RepaintReliable(s: State, panel: Panel, now: nat, intent: Intent, terminals: seq<Terminal>)
    requires Sound(s) && PanelShaped(Size(s.w, s.h), panel) && Reliable(panel)
    ensures var r := Repaint(s, panel, now, intent, terminals);
            r.PlaneDone? && Reliable(r.moved.panel) && Undisturbed(s, r.moved.s)
  {
    hide Size, Picture, PlaneDamage, PlaneDecision, PlaneOk, ValidRect, PanelShaped, PolicyOk, BaseCurrent, SubmitTo, Reliable,
         Painted, TotalArea, MergeTiled, SatAdd, Submitted, PlaneRegions;
    PictureSize(s);
    ReliableRest(panel);
    PanelParts(Size(s.w, s.h), panel);
    var composed := Painted(s.w, s.working, Picture(s), PlaneRegions(s, intent));
    var found := PlaneDamage(s, intent, composed);
    var d := PlaneDecision(s, intent, found);
    SubmitReliable(s.w, panel, composed, if d.complete then [Full(s.w, s.h)] else found, d);
  }

  lemma PlaneReliable(s: State, panel: Panel, now: nat, intent: Intent)
    requires Sound(s) && PanelShaped(Size(s.w, s.h), panel) && Reliable(panel)
    ensures Shaped(s)
    ensures var r := PresentPlane(s, panel, now, intent);
            r.PlaneDone? && Reliable(r.moved.panel) && Undisturbed(s, r.moved.s)
  {
    hide Size, Tick, Repaint, PanelShaped, Sound, Reliable;
    SoundShaped(s);
    var f := Tick(s, panel, now, true);
    TickShaped(s, panel, now, true);
    TickSound(s, panel, now, true);
    TickReliable(s, panel, now, true);
    RepaintReliable(f.s, f.panel, now, intent, f.terminals);
  }
}
