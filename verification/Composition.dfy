/** The composition invariant: after every step the software picture of the
    panel is the full recomposition of base and planes, except where a pending
    frame or an unpresented stroke still has to be drawn. */
module Composition {
  import opened Geometry
  import opened Pixels
  import opened Raster
  import opened Regions
  import opened Tiles
  import opened Ink
  import opened Refresh
  import opened Core

  /** Pixels the pending frame still has to draw. */
  ghost predicate Owed(s: State, i: nat)
    requires s.w > 0
  {
    s.pending.Some? && (s.pending.value.forceFull || Covered(s.w, s.pending.value.hint, i))
  }

  ghost predicate PictureCurrent(s: State)
    requires Shaped(s)
  {
    forall i :: 0 <= i < Size(s.w, s.h) && !Owed(s, i) && !Covered(s.w, DirtyRects(s.ink), i) ==>
      s.presented[i] == Picture(s)[i]
  }

  ghost predicate BaseCurrent(s: State)
    requires Shaped(s)
  {
    forall i :: 0 <= i < Size(s.w, s.h) && !Owed(s, i) ==> s.base[i] == s.presentedBase[i]
  }

  ghost predicate Flags(s: State) {
    && (s.pending.Some? ==> s.baseValid && s.pending.value.frameId == s.logicalId)
    && (s.baseValid ==> s.logicalId != 0)
    && (s.baseValid && s.presentedId == 0 ==> s.pending.Some? && s.pending.value.forceFull)
    && (s.baseValid && s.uncertain ==> s.pending.Some? && s.pending.value.forceCleanup)
  }

  /** What holds even while edited planes wait to be presented. */
  ghost predicate Sound(s: State) {
    && Shaped(s)
    && PolicyOk(s.policy)
    && s.damageTile == s.policy.config.damageTile
    && s.working == s.presented
    && Flags(s)
    && (s.baseValid ==> BaseCurrent(s))
  }

  ghost predicate Inv(s: State) {
    Sound(s) && (s.baseValid ==> PictureCurrent(s))
  }

  lemma NewInv(w: nat, h: nat, format: Format, maxFpsX100: nat, settledDeadline: nat, config: Config)
    requires w > 0 && h > 0 && Validate(config).None?
    ensures Inv(NewState(w, h, format, maxFpsX100, settledDeadline, config))
  {
    hide Size;
  }

  // ----------------------------------------------------------------- commit

  lemma CommitSound(s: State, f: Frame, content: Content, now: nat)
    requires Sound(s)
    ensures Sound(Commit(s, f, content, now).0)
  {
    if CommitCheck(s, f).None? {
      var t := Commit(s, f, content, now).0;
      CommitShaped(s, f, content, now);
      if !t.pending.value.forceFull {
        hide InRect, ShapesOk, RegionPixel, PlaneOk, AllValid;
        forall i | 0 <= i < Size(s.w, s.h) && !Owed(t, i)
          ensures t.base[i] == s.base[i] && !Owed(s, i)
        {
          CommitKeeps(s, f, i);
        }
        assert Flags(t);
      }
    }
  }

  lemma CommitInv(s: State, f: Frame, content: Content, now: nat)
    requires Inv(s)
    ensures Inv(Commit(s, f, content, now).0)
  {
    CommitSound(s, f, content, now);
    if CommitCheck(s, f).None? {
      var t := Commit(s, f, content, now).0;
      if !t.pending.value.forceFull {
        hide Layered, Over, InRect, ShapesOk, RegionPixel, PlaneOk, AllValid;
        forall i | 0 <= i < Size(s.w, s.h) && !Owed(t, i)
          ensures t.base[i] == s.base[i] && !Owed(s, i)
        {
          CommitKeeps(s, f, i);
        }
        PictureLocal(s, t);
      }
    }
  }

  /** A commit leaves the base alone outside the rectangles it notes down. */
  lemma CommitKeeps(s: State, f: Frame, i: nat)
    requires Shaped(s) && CommitCheck(s, f).None? && i < Size(s.w, s.h)
    requires var hint := if s.pending.Some? then s.pending.value.hint else [];
             !Covered(s.w, Rects(f.regions) + hint, i)
    ensures ApplyAll(s.w, s.h, s.base, f.regions)[i] == s.base[i]
    ensures s.pending.Some? ==> !Covered(s.w, s.pending.value.hint, i)
  {
    hide Size, InRect, Covered;
    var hint := if s.pending.Some? then s.pending.value.hint else [];
    CoveredConcat(s.w, Rects(f.regions), hint, i);
    ApplyAllAt(s.w, s.h, s.base, f.regions, i);
  }

  /** The composed picture is computed pixel by pixel. */
  lemma PictureLocal(a: State, b: State)
    requires Shaped(a) && Shaped(b) && (a.w, a.h) == (b.w, b.h)
    requires a.peer == b.peer && a.ink == b.ink && a.menu == b.menu
    ensures forall i :: 0 <= i < Size(a.w, a.h) && a.base[i] == b.base[i] ==> Picture(a)[i] == Picture(b)[i]
  {
    hide Size, Over;
  }

  // ----------------------------------------------------------- freeze

  lemma FreezeInv(s: State)
    requires Sound(s)
    ensures Inv(Freeze(s).0)
    ensures var t := Freeze(s).0;
            t.pending.None? && t.base == t.presentedBase && !t.baseValid && t.presentedId == s.presentedId
  {
    hide Size;
  }

  // ------------------------------------------------------------------- tick

  /** The damage of a tick misses no pixel that recomposition changed. */
  lemma TickDamageCovers(s: State, i: nat)
    requires Sound(s) && s.pending.Some? && i < Size(s.w, s.h)
    requires TickComposed(s)[i] != s.presented[i]
    ensures Covered(s.w, TickDamage(s), i)
  {
    hide Size, Covered, Picture, MergeTiled, PlaneOk, BaseCurrent, Flags, Select;
    PictureSize(s);
    var p := s.pending.value;
    var changed :=
      if p.forceFull then [Full(s.w, s.h)]
      else TileDamageRegions(s.w, s.h, s.damageTile, s.presented, TickComposed(s), TickRegions(s));
    if p.forceFull {
      FullCovers(s.w, s.h, i);
    } else {
      RestrictedSearchIsFull(s.w, s.h, s.damageTile, s.presented, TickComposed(s), TickRegions(s));
      TileDamageExact(s.w, s.h, s.damageTile, s.presented, TickComposed(s));
    }
    MergeCovers(s.w, s.h, s.damageTile, s.settle, changed, i);
  }

  lemma SubmitCovers(s: State, i: nat)
    requires Sound(s) && s.pending.Some? && i < Size(s.w, s.h)
    requires |SubmitImage(s)| == Size(s.w, s.h) && SubmitImage(s)[i] != s.presented[i]
    ensures Covered(s.w, SubmitDamage(s), i)
  {
    hide Size, Covered, Picture, TickDecision, TickComposed, TickDamage, PlaneOk, BaseCurrent, Flags;
    if TickDecision(s).complete {
      FullCovers(s.w, s.h, i);
    } else {
      TickDamageCovers(s, i);
    }
  }

  /** The submitted picture is the full recomposition on everything the pending
      frame owes, and keeps the presented pixel or recomposes it elsewhere. */
  lemma SubmitImageAt(s: State, i: nat)
    requires Sound(s) && s.pending.Some? && i < Size(s.w, s.h)
    ensures |SubmitImage(s)| == |Picture(s)| == Size(s.w, s.h)
    ensures Owed(s, i) || TickDecision(s).complete ==> SubmitImage(s)[i] == Picture(s)[i]
    ensures SubmitImage(s)[i] == Picture(s)[i] || SubmitImage(s)[i] == s.presented[i]
    ensures s.pending.value.intent == Settled && Covered(s.w, s.settle, i) ==> SubmitImage(s)[i] == Picture(s)[i]
  {
    hide Size, Covered, Picture, TickDecision, PlaneOk, BaseCurrent, Flags;
    PictureSize(s);
    ImageSize(s);
    FullCovers(s.w, s.h, i);
    var p := s.pending.value;
    CoveredConcat(s.w, if p.forceFull then [Full(s.w, s.h)] else p.hint,
                  if p.intent == Settled then s.settle else [], i);
  }

  /** Both software buffers hold the submitted picture after the swap. */
  lemma BuffersConverge(s: State)
    requires Sound(s) && s.pending.Some?
    ensures |SubmitImage(s)| == Size(s.w, s.h)
    ensures Painted(s.w, s.presented, SubmitImage(s), SubmitDamage(s)) == SubmitImage(s)
    ensures SubmitDamage(s) == [] ==> SubmitImage(s) == s.presented
  {
    hide Size, Covered, SubmitImage, SubmitDamage, PlaneOk, BaseCurrent, Flags;
    ImageSize(s);
    forall i | 0 <= i < Size(s.w, s.h)
      ensures SubmitImage(s)[i] != s.presented[i] ==> Covered(s.w, SubmitDamage(s), i)
    {
      if SubmitImage(s)[i] != s.presented[i] { SubmitCovers(s, i); }
    }
    if SubmitDamage(s) == [] {
      forall i: nat ensures !Covered(s.w, [], i) { NotCovered(s.w, i); }
    }
  }

  lemma NotCovered(w: nat, i: nat)
    requires w > 0
    ensures !Covered(w, [], i)
  {
  }

  lemma PolicyStays(p: Policy, d: Decision, physical: nat)
    requires PolicyOk(p)
    ensures PolicyOk(Submitted(p, d, physical)) && Submitted(p, d, physical).config == p.config
  {
  }

  /** What a tick leaves untouched, and how it moves the frame identities. */
  lemma TickFrame(s: State, panel: Panel, now: nat, ignoreDeadline: bool)
    requires Sound(s) && PanelShaped(Size(s.w, s.h), panel)
    ensures var t := Tick(s, panel, now, ignoreDeadline).s;
            && t.base == s.base && t.peer == s.peer && t.ink == s.ink && t.menu == s.menu
            && t.policy.config == s.policy.config && t.damageTile == s.damageTile
            && PolicyOk(t.policy)
            && t.format == s.format && t.inkWaveform == s.inkWaveform
  {
    hide Size, TickDecision, SubmitDamage, SubmitImage, PlaneOk, ValidRect, Deadline, PanelShaped, Submitted, PolicyOk, MergeTiled, BaseCurrent;
    if s.pending.Some? {
      ImageSize(s);
      var p1 := Pumped(panel);
      if !Next(panel).Fail? && !Next(p1).Fail? {
        PolicyStays(s.policy, TickDecision(s), Next(p1).physical);
      }
    }
  }

  datatype TickKind = Idle | Failed | Shown

  /** The one thing that happened to the pending frame. */
  ghost function Kind(s: State, m: Moved): TickKind {
    if m.terminals == [] then Idle
    else if m.terminals[0].outcome == Presented then Shown
    else Failed
  }

  /** Every presented frame leaves exactly the full recomposition in the
      software picture (outside strokes not presented yet) and records its base;
      a failed one changes neither picture nor presented base. */
  lemma TickOutcome(s: State, panel: Panel, now: nat, ignoreDeadline: bool)
    requires Sound(s) && PanelShaped(Size(s.w, s.h), panel)
    ensures var m := Tick(s, panel, now, ignoreDeadline);
            && m.s.working == m.s.presented
            && (Kind(s, m).Idle? ==> m.s == s && m.panel == panel)
            && (Kind(s, m).Failed? ==>
                  && s.pending.Some? && m.s.pending.None? && !m.s.baseValid && m.s.uncertain && m.s.logicalId == 0
                  && m.s.presented == s.presented && m.s.presentedBase == s.presentedBase
                  && m.s.presentedId == s.presentedId
                  && m.terminals == [Terminal(s.pending.value.frameId, BackendFailure, m.terminals[0].complete)])
            && (Kind(s, m).Shown? ==>
                  && s.pending.Some? && m.s.pending.None? && m.s.baseValid && m.s.logicalId == s.logicalId
                  && !m.s.uncertain && m.s.presented == SubmitImage(s) && m.s.presentedBase == s.base
                  && m.s.presentedId == s.pending.value.frameId
                  && m.terminals == [Terminal(s.pending.value.frameId, Presented, TickDecision(s).complete)])
  {
    hide Size, TickDecision, SubmitDamage, SubmitImage, PlaneOk, ValidRect, Deadline, PanelShaped, Submitted, PolicyOk, MergeTiled, SubmitTo, Pumped, Painted, BaseCurrent;
    if s.pending.Some? {
      BuffersConverge(s);
      if s.uncertain {
        ForcedCompletes(s);
      }
    }
  }

  /** A forced cleanup is never decided away. */
  lemma ForcedCompletes(s: State)
    requires Shaped(s) && s.pending.Some? && (s.pending.value.forceCleanup || s.forceCleanup)
    ensures TickDecision(s).complete && SubmitDamage(s) == [Full(s.w, s.h)]
  {
    hide Size, Shaped, TickDamage, TickComposed;
  }

  lemma TickSound(s: State, panel: Panel, now: nat, ignoreDeadline: bool)
    requires Sound(s) && PanelShaped(Size(s.w, s.h), panel)
    ensures Sound(Tick(s, panel, now, ignoreDeadline).s)
  {
    hide Size, Tick, TickDecision, SubmitImage, PlaneOk, ValidRect, PanelShaped, PolicyOk;
    TickShaped(s, panel, now, ignoreDeadline);
    TickFrame(s, panel, now, ignoreDeadline);
    TickOutcome(s, panel, now, ignoreDeadline);
  }

  lemma TickInv(s: State, panel: Panel, now: nat, ignoreDeadline: bool)
    requires Inv(s) && PanelShaped(Size(s.w, s.h), panel)
    ensures var m := Tick(s, panel, now, ignoreDeadline);
            Inv(m.s) && (Kind(s, m).Shown? ==> PictureCurrent(m.s))
  {
    hide Size, Covered, Tick, Picture, SubmitImage, TickDecision, PanelShaped, PlaneOk, BaseCurrent, Kind, Flags, PolicyOk, ValidRect;
    var m := Tick(s, panel, now, ignoreDeadline);
    TickSound(s, panel, now, ignoreDeadline);
    TickShaped(s, panel, now, ignoreDeadline);
    TickFrame(s, panel, now, ignoreDeadline);
    TickOutcome(s, panel, now, ignoreDeadline);
    if Kind(s, m).Shown? {
      assert s.baseValid by { PendingMeansValid(s); }
      SamePicture(s, m.s);
      PictureSize(m.s);
      forall i | 0 <= i < Size(s.w, s.h) && !Covered(s.w, DirtyRects(s.ink), i)
        ensures m.s.presented[i] == Picture(m.s)[i]
      {
        SubmitImageAt(s, i);
      }
    }
  }

  lemma PendingMeansValid(s: State)
    requires Flags(s) && s.pending.Some?
    ensures s.baseValid
  {
  }

  // ----------------------------------------------------------- local planes

  lemma PlaneDamageCovers(s: State, intent: Intent, i: nat)
    requires Sound(s) && i < Size(s.w, s.h)
    requires var composed := Painted(s.w, s.working, Picture(s), PlaneRegions(s, intent));
             composed[i] != s.presented[i]
    ensures var composed := Painted(s.w, s.working, Picture(s), PlaneRegions(s, intent));
            Covered(s.w, PlaneDamage(s, intent, composed), i)
  {
    hide Size, InRect, Picture, PlaneOk, BaseCurrent, Flags, Select;
    PictureSize(s);
    var regions := PlaneRegions(s, intent);
    var composed := Painted(s.w, s.working, Picture(s), regions);
    RestrictedSearchIsFull(s.w, s.h, s.damageTile, s.presented, composed, regions);
    TileDamageExact(s.w, s.h, s.damageTile, s.presented, composed);
  }

  /** The same identities, base and planes, apart from the ink. */
  predicate SameFrame(s: State, t: State) {
    && t.base == s.base && t.peer == s.peer && t.menu == s.menu
    && t.presentedBase == s.presentedBase && t.presentedId == s.presentedId
    && t.logicalId == s.logicalId && t.baseValid == s.baseValid && t.pending == s.pending
    && (t.uncertain ==> s.uncertain)
    && (t.w, t.h, t.format, t.damageTile) == (s.w, s.h, s.format, s.damageTile)
    && t.inkWaveform == s.inkWaveform
  }

  lemma AcceptedFrameSame(s: State, now: nat, composed: Image, damage: seq<Rect>, d: Decision, physical: nat)
    requires Shaped(s) && |composed| == Size(s.w, s.h)
    ensures var t := PlaneAccepted(s, now, composed, damage, d, physical); SameFrame(s, t) && t.ink == s.ink
  {
    hide Size, Shaped, TotalArea, Submitted, MergeTiled, Painted, SatAdd;
  }

  /** What a repaint leaves untouched. */
  lemma RepaintFrame(s: State, panel: Panel, now: nat, intent: Intent, terminals: seq<Terminal>)
    requires Sound(s) && PanelShaped(Size(s.w, s.h), panel) && Repaint(s, panel, now, intent, terminals).PlaneDone?
    ensures var t := Repaint(s, panel, now, intent, terminals).moved.s;
            && t.ink == (if intent == Latest then s.ink.(dirty := None) else s.ink)
            && SameFrame(s, t)
    ensures Repaint(s, panel, now, intent, terminals).moved.terminals == terminals
  {
    hide Size, Picture, PlaneDamage, PlaneDecision, PlaneAccepted, PanelShaped, SubmitTo, Painted, PlaneRegions, Shaped;
    assert Shaped(s) by { SoundShaped(s); }
    PictureSize(s);
    WorkingSized(s);
    DirtyTakenShaped(s, intent);
    var composed := Painted(s.w, s.working, Picture(s), PlaneRegions(s, intent));
    var found := PlaneDamage(s, intent, composed);
    var d := PlaneDecision(s, intent, found);
    var damage := if d.complete then [Full(s.w, s.h)] else found;
    if !Next(panel).Fail? {
      assert Shaped(DirtyTaken(s, intent).(working := composed)) by { WorkingShaped(DirtyTaken(s, intent), composed); }
      AcceptedFrameSame(DirtyTaken(s, intent).(working := composed), now, composed, damage, d, Next(panel).physical);
    }
  }

  lemma WorkingSized(s: State)
    requires Shaped(s)
    ensures s.w > 0 && |s.working| == Size(s.w, s.h)
  {
  }

  lemma WorkingShaped(s: State, composed: Image)
    requires Shaped(s) && |composed| == Size(s.w, s.h)
    ensures Shaped(s.(working := composed))
  {
  }

  /** What a repaint does to policy, debt and panel stays well formed. */
  lemma RepaintShapes(s: State, panel: Panel, now: nat, intent: Intent, terminals: seq<Terminal>)
    requires Sound(s) && PanelShaped(Size(s.w, s.h), panel) && Repaint(s, panel, now, intent, terminals).PlaneDone?
    ensures var m := Repaint(s, panel, now, intent, terminals).moved;
            && PolicyOk(m.s.policy) && m.s.policy.config == s.policy.config
            && AllValid(s.w, s.h, m.s.settle)
            && PanelShaped(Size(s.w, s.h), m.panel)
  {
    hide Size, Covered, Picture, PlaneOk, ValidRect, BaseCurrent, Flags, PlaneDamage, PlaneDecision, MergeTiled, Submitted,
         PolicyOk, PanelShaped, SubmitTo, Painted, TotalArea, SatAdd, PlaneRegions;
    PictureSize(s);
    var composed := Painted(s.w, s.working, Picture(s), PlaneRegions(s, intent));
    var found := PlaneDamage(s, intent, composed);
    var d := PlaneDecision(s, intent, found);
    var damage := if d.complete then [Full(s.w, s.h)] else found;
    SubmitShaped(s.w, Size(s.w, s.h), panel, composed, damage, d);
    MergeValid(s.w, s.h, s.damageTile, s.settle, damage);
    if !Next(panel).Fail? { PolicyStays(s.policy, d, Next(panel).physical); }
  }

  lemma RepaintPictures(s: State, panel: Panel, now: nat, intent: Intent, terminals: seq<Terminal>)
    requires Sound(s) && PanelShaped(Size(s.w, s.h), panel) && Repaint(s, panel, now, intent, terminals).PlaneDone?
    ensures var t := Repaint(s, panel, now, intent, terminals).moved.s;
            t.presented == t.working == Painted(s.w, s.presented, Picture(s), PlaneRegions(s, intent))
  {
    hide Size, Covered, Picture, PlaneOk, ValidRect, BaseCurrent, Flags, PlaneDamage, PlaneDecision, MergeTiled, Submitted,
         PolicyOk, PanelShaped, SubmitTo, Painted, TotalArea, SatAdd, PlaneRegions;
    PictureSize(s);
    PlaneConverges(s, intent);
  }

  /** A repaint that returns leaves both buffers equal to the recomposed
      rectangles over the previous picture. */
  lemma RepaintOutcome(s: State, panel: Panel, now: nat, intent: Intent, terminals: seq<Terminal>)
    requires Sound(s) && PanelShaped(Size(s.w, s.h), panel) && Repaint(s, panel, now, intent, terminals).PlaneDone?
    ensures var t := Repaint(s, panel, now, intent, terminals).moved.s;
            && t.presented == t.working == Painted(s.w, s.presented, Picture(s), PlaneRegions(s, intent))
            && t.ink == (if intent == Latest then s.ink.(dirty := None) else s.ink)
            && t.base == s.base && t.peer == s.peer && t.menu == s.menu
            && t.presentedBase == s.presentedBase && t.presentedId == s.presentedId
            && t.logicalId == s.logicalId && t.baseValid == s.baseValid && t.pending == s.pending
            && (t.uncertain ==> s.uncertain)
            && (t.w, t.h, t.format, t.damageTile) == (s.w, s.h, s.format, s.damageTile)
            && t.inkWaveform == s.inkWaveform
            && PolicyOk(t.policy) && t.policy.config == s.policy.config
            && AllValid(t.w, t.h, t.settle)
    ensures Repaint(s, panel, now, intent, terminals).moved.terminals == terminals
    ensures PanelShaped(Size(s.w, s.h), Repaint(s, panel, now, intent, terminals).moved.panel)
  {
    hide Size, Picture, PolicyOk, PanelShaped, Painted, PlaneRegions, Repaint, Sound, Shaped, ValidRect;
    SoundShaped(s);
    PictureSize(s);
    RepaintFrame(s, panel, now, intent, terminals);
    RepaintShapes(s, panel, now, intent, terminals);
    RepaintPictures(s, panel, now, intent, terminals);
  }

  lemma PlaneConverges(s: State, intent: Intent)
    requires Sound(s)
    ensures var composed := Painted(s.w, s.working, Picture(s), PlaneRegions(s, intent));
            var found := PlaneDamage(s, intent, composed);
            && Painted(s.w, s.presented, composed, found) == composed
            && Painted(s.w, s.presented, composed, [Full(s.w, s.h)]) == composed
            && (found == [] || PlaneRegions(s, intent) == [] ==> composed == s.presented)
  {
    hide Size, Covered, Picture, PlaneOk, ValidRect, BaseCurrent, Flags, PlaneDamage, PolicyOk;
    PictureSize(s);
    var composed := Painted(s.w, s.working, Picture(s), PlaneRegions(s, intent));
    var found := PlaneDamage(s, intent, composed);
    forall i | 0 <= i < Size(s.w, s.h)
      ensures composed[i] != s.presented[i] ==> Covered(s.w, found, i)
      ensures Covered(s.w, [Full(s.w, s.h)], i) && !Covered(s.w, [], i)
    {
      if composed[i] != s.presented[i] { PlaneDamageCovers(s, intent, i); }
      FullCovers(s.w, s.h, i);
      NotCovered(s.w, i);
    }
  }

  lemma RepaintSound(s: State, panel: Panel, now: nat, intent: Intent, terminals: seq<Terminal>)
    requires Sound(s) && PanelShaped(Size(s.w, s.h), panel) && Repaint(s, panel, now, intent, terminals).PlaneDone?
    ensures Sound(Repaint(s, panel, now, intent, terminals).moved.s)
  {
    hide Size, Covered, ValidRect, PolicyOk, PanelShaped, Repaint, Picture;
    PictureSize(s);
    RepaintOutcome(s, panel, now, intent, terminals);
  }

  lemma RepaintInv(s: State, panel: Panel, now: nat, intent: Intent, terminals: seq<Terminal>)
    requires Sound(s) && PanelShaped(Size(s.w, s.h), panel) && Repaint(s, panel, now, intent, terminals).PlaneDone?
    requires s.pending.None?
    requires intent == Latest && s.baseValid ==> PictureCurrent(s)
    ensures var t := Repaint(s, panel, now, intent, terminals).moved.s;
            && Inv(t)
            && (intent == Settled || s.baseValid ==> t.presented == Picture(t))
  {
    hide Size, Covered, ValidRect, PolicyOk, PanelShaped, Repaint, Layered, PlaneOk, BaseCurrent, Flags;
    var t := Repaint(s, panel, now, intent, terminals).moved.s;
    RepaintSound(s, panel, now, intent, terminals);
    RepaintOutcome(s, panel, now, intent, terminals);
    PictureSize(s);
    assert Picture(t) == Picture(s) by { DirtyIsNotDrawn(s, t); }
    if intent == Settled || s.baseValid {
      forall i | 0 <= i < Size(s.w, s.h) ensures t.presented[i] == Picture(t)[i] {
        FullCovers(s.w, s.h, i);
        if intent == Latest && !Covered(s.w, PlaneRegions(s, intent), i) {
          assert DirtyRects(s.ink) == PlaneRegions(s, intent);
          assert !Owed(s, i);
        }
      }
    }
  }

  lemma DirtyIsNotDrawn(s: State, t: State)
    requires Shaped(s) && Shaped(t) && s.base == t.base && s.peer == t.peer && s.menu == t.menu
    requires s.ink.luma == t.ink.luma && s.ink.alpha == t.ink.alpha
    ensures Picture(s) == Picture(t)
  {
    hide Size, Over;
  }

  /** Presenting planes, with its flush of pending work. */
  lemma PresentPlaneInv(s: State, panel: Panel, now: nat, intent: Intent)
    requires Sound(s) && PanelShaped(Size(s.w, s.h), panel) && PresentPlane(s, panel, now, intent).PlaneDone?
    requires intent == Latest ==> Inv(s)
    ensures var m := PresentPlane(s, panel, now, intent).moved;
            && Inv(m.s)
            && PanelShaped(Size(s.w, s.h), m.panel)
            && m.s.pending.None?
            && (intent == Settled || m.s.baseValid ==> m.s.presented == Picture(m.s))
  {
    hide Size, Tick, Repaint, Picture, PanelShaped, Sound, PictureCurrent;
    assert Shaped(s) by { SoundShaped(s); }
    var f := Tick(s, panel, now, true);
    TickShaped(s, panel, now, true);
    TickSound(s, panel, now, true);
    if intent == Latest {
      TickInv(s, panel, now, true);
    }
    FlushEmpties(s, panel, now);
    RepaintInv(f.s, f.panel, now, intent, f.terminals);
    RepaintOutcome(f.s, f.panel, now, intent, f.terminals);
  }

  lemma PresentPlaneSound(s: State, panel: Panel, now: nat, intent: Intent)
    requires Sound(s) && PanelShaped(Size(s.w, s.h), panel) && PresentPlane(s, panel, now, intent).PlaneDone?
    ensures var m := PresentPlane(s, panel, now, intent).moved;
            && Sound(m.s)
            && PanelShaped(Size(s.w, s.h), m.panel)
            && (m.s.w, m.s.h) == (s.w, s.h)
  {
    hide Size, Tick, Repaint, Picture, PanelShaped, Sound;
    assert Shaped(s) by { SoundShaped(s); }
    var f := Tick(s, panel, now, true);
    TickShaped(s, panel, now, true);
    TickSound(s, panel, now, true);
    RepaintSound(f.s, f.panel, now, intent, f.terminals);
    RepaintOutcome(f.s, f.panel, now, intent, f.terminals);
  }

  lemma SoundShaped(s: State)
    requires Sound(s)
    ensures Shaped(s)
  {
  }

  lemma FlushEmpties(s: State, panel: Panel, now: nat)
    requires Shaped(s) && PanelShaped(Size(s.w, s.h), panel)
    ensures Tick(s, panel, now, true).s.pending.None?
  {
    hide Size, TickDecision, SubmitDamage, SubmitImage, PanelShaped, PlaneOk, MergeTiled, Submitted;
    if s.pending.Some? { ImageSize(s); }
  }

  // ------------------------------------------------- cleanups and policies

  lemma ArmedSound(s: State)
    ensures Sound(s) ==> Sound(s.(forceCleanup := true))
    ensures Inv(s) ==> Inv(s.(forceCleanup := true))
  {
    hide Size, Covered, Layered, PlaneOk, ValidRect, PolicyOk;
  }

  lemma CleanupSound(s: State, panel: Panel, now: nat)
    requires Sound(s) && PanelShaped(Size(s.w, s.h), panel)
    ensures var m := RequestCleanup(s, panel, now).0;
            && Sound(m.s) && PanelShaped(Size(s.w, s.h), m.panel)
            && (m.s.w, m.s.h) == (s.w, s.h)
  {
    hide Size, Tick, PanelShaped, Covered, PlaneOk, ValidRect, SubmitTo, Pumped;
    var armed := s.(forceCleanup := true);
    ArmedSound(s);
    TickSound(armed, panel, now, true);
    TickShaped(armed, panel, now, true);
    RestShaped(Size(s.w, s.h), panel);
    if s.pending.None? && s.presentedId != 0 && !Next(panel).Fail? {
      var p1 := Pumped(panel);
      var d := MaintenanceDecision(armed);
      PanelParts(Size(s.w, s.h), p1);
      SubmitShaped(s.w, Size(s.w, s.h), p1, s.presented, [Full(s.w, s.h)], d);
      PolicyStays(armed.policy, d, 1);
    }
  }

  /** Nothing of the picture invariant depends on the policy side. */
  lemma SameCurrent(s: State, t: State)
    requires Inv(s) && Sound(t) && (s.w, s.h) == (t.w, t.h)
    requires s.base == t.base && s.peer == t.peer && s.ink == t.ink && s.menu == t.menu
    requires s.presented == t.presented && s.pending == t.pending && (t.baseValid ==> s.baseValid)
    ensures Inv(t)
  {
    hide Size, Covered, BaseCurrent, Flags, PolicyOk, PlaneOk, ValidRect, Picture;
    SamePicture(s, t);
  }

  lemma CleanupInv(s: State, panel: Panel, now: nat)
    requires Inv(s) && PanelShaped(Size(s.w, s.h), panel)
    ensures var m := RequestCleanup(s, panel, now).0;
            && Inv(m.s) && m.s.pending.None? && PanelShaped(Size(s.w, s.h), m.panel)
            && (m.s.w, m.s.h) == (s.w, s.h)
  {
    hide Size, Tick, PanelShaped, Inv, Sound, Shaped, SubmitTo, Pumped;
    InvSound(s);
    CleanupSound(s, panel, now);
    var armed := s.(forceCleanup := true);
    ArmedSound(s);
    InvSound(armed);
    TickInv(armed, panel, now, true);
    FlushEmpties(armed, panel, now);
    if s.pending.None? {
      SameCurrent(s, RequestCleanup(s, panel, now).0.s);
    }
  }

  lemma InteractiveSound(s: State, panel: Panel, now: nat, idle: bool)
    requires Sound(s) && PanelShaped(Size(s.w, s.h), panel)
    ensures var m := TickInteractive(s, panel, now, idle);
            Sound(m.s) && PanelShaped(Size(s.w, s.h), m.panel) && (m.s.w, m.s.h) == (s.w, s.h)
  {
    hide Size, Tick, PanelShaped, Covered, PlaneOk, ValidRect, RequestCleanup, AdaptiveDue;
    CleanupSound(s, panel, now);
    TickSound(s, panel, now, false);
    TickShaped(s, panel, now, false);
  }

  lemma InteractiveInv(s: State, panel: Panel, now: nat, idle: bool)
    requires Inv(s) && PanelShaped(Size(s.w, s.h), panel)
    ensures var m := TickInteractive(s, panel, now, idle);
            Inv(m.s) && PanelShaped(Size(s.w, s.h), m.panel) && (m.s.w, m.s.h) == (s.w, s.h)
  {
    hide Size, Tick, Picture, PanelShaped, Covered, PlaneOk, ValidRect, RequestCleanup, AdaptiveDue;
    CleanupInv(s, panel, now);
    TickInv(s, panel, now, false);
    TickShaped(s, panel, now, false);
    var m := RequestCleanup(s, panel, now).0;
    var t := TickInteractive(s, panel, now, idle).s;
    assert Shaped(m.s) && Shaped(t);
    if t.(lastIdleFailure := m.s.lastIdleFailure) == m.s {
      SamePicture(m.s, t);
    }
  }

  lemma ConfigInv(s: State, config: Config)
    requires Inv(s)
    ensures Inv(UpdateConfig(s, config).0)
  {
    hide Size, Covered, Layered, PlaneOk, ValidRect;
  }

  lemma ConfigSound(s: State, config: Config)
    requires Sound(s)
    ensures Sound(UpdateConfig(s, config).0)
  {
    hide Size, Covered, PlaneOk, ValidRect;
  }

  lemma ProfileSound(s: State, panel: Panel, config: Config, now: nat)
    requires Sound(s) && PanelShaped(Size(s.w, s.h), panel) && Validate(config).None?
    ensures var m := ChangeProfile(s, panel, config, now).0;
            Sound(m.s) && PanelShaped(Size(s.w, s.h), m.panel) && (m.s.w, m.s.h) == (s.w, s.h)
  {
    hide Size, PanelShaped, RequestCleanup, Sound;
    var next := UpdateConfig(s, config).0;
    assert Shaped(s) && Shaped(next) by { SoundShaped(s); ConfigSound(s, config); SoundShaped(next); }
    ConfigSound(s, config);
    CleanupSound(next, panel, now);
  }

  lemma ProfileInv(s: State, panel: Panel, config: Config, now: nat)
    requires Inv(s) && PanelShaped(Size(s.w, s.h), panel) && Validate(config).None?
    ensures var m := ChangeProfile(s, panel, config, now).0;
            Inv(m.s) && PanelShaped(Size(s.w, s.h), m.panel) && (m.s.w, m.s.h) == (s.w, s.h)
  {
    hide Size, PanelShaped, RequestCleanup, Inv;
    var next := UpdateConfig(s, config).0;
    assert Shaped(s) && Shaped(next) by { InvShaped(s); ConfigInv(s, config); InvShaped(next); }
    ConfigInv(s, config);
    CleanupInv(next, panel, now);
  }

  lemma InvShaped(s: State)
    requires Inv(s)
    ensures Shaped(s)
  {
  }

  // ------------------------------------------------------------ plane edits

  /** A pen stroke only makes the picture stale inside the dirty rectangle. */
  ghost function WithStroke(s: State, from: Point, to: Point, radius: nat, erase: bool): State
    requires Shaped(s) && OnPanel(s.w, s.h, from) && OnPanel(s.w, s.h, to)
  {
    s.(ink := InkLine(s.w, s.h, s.ink, from, to, radius, erase))
  }

  lemma StrokeInv(s: State, from: Point, to: Point, radius: nat, erase: bool)
    requires Inv(s) && OnPanel(s.w, s.h, from) && OnPanel(s.w, s.h, to)
    ensures Inv(WithStroke(s, from, to, radius, erase))
  {
    hide Size, InkLine, InRect, ValidRect, PolicyOk, Over;
    var t := WithStroke(s, from, to, radius, erase);
    InkLineDirty(s.w, s.h, s.ink, from, to, radius, erase);
    if s.baseValid {
      forall i | 0 <= i < Size(s.w, s.h) && !Owed(t, i) && !Covered(s.w, DirtyRects(t.ink), i)
        ensures t.presented[i] == Picture(t)[i]
      {
        assert Picture(t)[i] == Picture(s)[i];
      }
    }
  }

  /** New menu and peer planes, with or without clearing the ink. */
  function Edited(s: State, menu: Plane, peer: Plane, clearInk: bool): State {
    s.(menu := menu, peer := peer, ink := if clearInk then Cleared(s.ink) else s.ink)
  }

  lemma EditedSound(s: State, menu: Plane, peer: Plane, clearInk: bool)
    requires Sound(s) && PlaneOk(s.w, s.h, menu) && PlaneOk(s.w, s.h, peer)
    ensures Sound(Edited(s, menu, peer, clearInk))
  {
    hide Size, InRect, ValidRect, PolicyOk;
  }

  // ------------------------------------------------------------------- runs

  datatype Step =
    | CommitStep(frame: Frame, content: Content, now: nat)
    | TickStep(now: nat, idle: bool)
    | PlainTickStep(now: nat)
    | CleanupStep(now: nat)
    | ProfileStep(config: Config, now: nat)
    | ConfigStep(config: Config)
    | FreezeStep
    | ArmStep
    | OverlayStep(menu: Plane, peer: Plane, clearInk: bool, now: nat)
    | StrokeStep(from: Point, to: Point, radius: nat, erase: bool)
    | InkStep(now: nat)

  predicate OverlayOnly(step: Step) {
    step.OverlayStep? || step.InkStep?
  }

  ghost predicate Enabled(s: State, step: Step) {
    match step
    case OverlayStep(menu, peer, _, _) => PlaneOk(s.w, s.h, menu) && PlaneOk(s.w, s.h, peer)
    case StrokeStep(from, to, _, _) => OnPanel(s.w, s.h, from) && OnPanel(s.w, s.h, to)
    case _ => true
  }

  /** One operation; `None` when it returns an error to the session. */
  ghost function Do(s: State, panel: Panel, step: Step): Option<Moved>
    requires Inv(s) && PanelShaped(Size(s.w, s.h), panel) && Enabled(s, step)
  {
    match step
    case CommitStep(frame, content, now) =>
      var (t, r) := Commit(s, frame, content, now);
      Some(Moved(t, panel, if r.Committed? && r.superseded.Some? then [r.superseded.value] else []))
    case TickStep(now, idle) => Some(TickInteractive(s, panel, now, idle))
    case PlainTickStep(now) => Some(Tick(s, panel, now, false))
    case CleanupStep(now) => Some(RequestCleanup(s, panel, now).0)
    case ProfileStep(config, now) =>
      if Validate(config).None? then Some(ChangeProfile(s, panel, config, now).0) else None
    case ConfigStep(config) =>
      var (t, e) := UpdateConfig(s, config);
      if e.None? then Some(Moved(t, panel, [])) else None
    case FreezeStep =>
      var (t, terminals) := Freeze(s);
      Some(Moved(t, panel, terminals))
    case ArmStep => Some(Moved(s.(forceCleanup := true), panel, []))
    case OverlayStep(menu, peer, clearInk, now) =>
      EditedSound(s, menu, peer, clearInk);
      var r := PresentPlane(Edited(s, menu, peer, clearInk), panel, now, Settled);
      if r.PlaneDone? then Some(r.moved) else None
    case StrokeStep(from, to, radius, erase) =>
      Some(Moved(WithStroke(s, from, to, radius, erase), panel, []))
    case InkStep(now) =>
      var r := PresentPlane(s, panel, now, Latest);
      if r.PlaneDone? then Some(r.moved) else None
  }

  lemma DoInv(s: State, panel: Panel, step: Step)
    requires Inv(s) && PanelShaped(Size(s.w, s.h), panel) && Enabled(s, step) && Do(s, panel, step).Some?
    ensures var m := Do(s, panel, step).value;
            Inv(m.s) && PanelShaped(Size(s.w, s.h), m.panel) && (m.s.w, m.s.h) == (s.w, s.h)
  {
    hide Size, Inv, Sound, PanelShaped, Tick, RequestCleanup, ChangeProfile, TickInteractive, Repaint, PresentPlane, InkLine;
    InvSound(s);
    match step
    case CommitStep(frame, content, now) =>
      CommitInv(s, frame, content, now);
    case TickStep(now, idle) => InteractiveInv(s, panel, now, idle);
    case PlainTickStep(now) =>
      TickInv(s, panel, now, false);
      TickShaped(s, panel, now, false);
    case CleanupStep(now) => CleanupInv(s, panel, now);
    case ProfileStep(config, now) => ProfileInv(s, panel, config, now);
    case ConfigStep(config) => ConfigInv(s, config);
    case FreezeStep => FreezeInv(s);
    case ArmStep => ArmedSound(s);
    case OverlayStep(menu, peer, clearInk, now) =>
      EditedSound(s, menu, peer, clearInk);
      PresentPlaneInv(Edited(s, menu, peer, clearInk), panel, now, Settled);
      PresentPlaneSound(Edited(s, menu, peer, clearInk), panel, now, Settled);
    case StrokeStep(from, to, radius, erase) => StrokeInv(s, from, to, radius, erase);
    case InkStep(now) =>
      PresentPlaneInv(s, panel, now, Latest);
      PresentPlaneSound(s, panel, now, Latest);
  }

  lemma InvSound(s: State)
    requires Inv(s)
    ensures Sound(s) && Shaped(s)
  {
  }

  datatype Run = Run(s: State, panel: Panel, terminals: seq<Terminal>)

  /** A whole run from a sound state; `None` once an operation failed. */
  ghost function Execute(s: State, panel: Panel, steps: seq<Step>): Option<Run>
    requires Inv(s) && PanelShaped(Size(s.w, s.h), panel)
    decreases |steps|
  {
    if steps == [] then Some(Run(s, panel, []))
    else if !Enabled(s, steps[0]) then None
    else
      match Do(s, panel, steps[0])
      case None => None
      case Some(m) =>
        DoInv(s, panel, steps[0]);
        match Execute(m.s, m.panel, steps[1..])
        case None => None
        case Some(r) => Some(Run(r.s, r.panel, m.terminals + r.terminals))
  }

  /** Main theorem of composition: whatever the panel answers, after any run of
      operations from a new core the two software buffers are equal, and on a
      valid base they show the full recomposition everywhere but on the damage
      still pending. */
  lemma {:induction false} RunShowsComposition(s: State, panel: Panel, steps: seq<Step>)
    requires Inv(s) && PanelShaped(Size(s.w, s.h), panel) && Execute(s, panel, steps).Some?
    ensures var t := Execute(s, panel, steps).value.s;
            && Shaped(t)
            && t.working == t.presented
            && (t.baseValid ==> PictureCurrent(t))
            && (t.baseValid && t.pending.None? && t.ink.dirty.None? ==> t.presented == Picture(t))
    decreases |steps|
  {
    hide Do, PlaneOk, Size, Picture, BaseCurrent, Flags, PolicyOk, ValidRect, Covered, PanelShaped;
    if steps == [] {
      PictureSize(s);
      forall i: nat ensures !Covered(s.w, [], i) { NotCovered(s.w, i); }
    } else {
      DoInv(s, panel, steps[0]);
      var m := Do(s, panel, steps[0]).value;
      RunShowsComposition(m.s, m.panel, steps[1..]);
    }
  }
}
