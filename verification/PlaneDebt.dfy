/** What one repaint of a local plane does to the glass and to the waveform debt,
    over every history that the receiver cannot see: exactly when the glass it
    takes for certain is right, and when no fast-driven pixel is forgotten. */
module PlaneDebt {
  import opened Geometry
  import opened Pixels
  import opened Raster
  import opened Regions
  import opened Tiles
  import opened Ink
  import opened Refresh
  import opened Core
  import opened Composition
  import opened PanelSafety

  ghost function PlaneComposed(s: State, intent: Intent): (r: Image)
    requires Shaped(s)
    ensures |r| == Size(s.w, s.h)
  {
    PictureSize(s);
    Painted(s.w, s.working, Picture(s), PlaneRegions(s, intent))
  }

  /** The rectangles a repaint finds changed, before the policy looks at them. */
  ghost function Found(s: State, intent: Intent): seq<Rect>
    requires Shaped(s)
  {
    PlaneDamage(s, intent, PlaneComposed(s, intent))
  }

  ghost function Chosen(s: State, intent: Intent): Decision
    requires Shaped(s)
  {
    PlaneDecision(s, intent, Found(s, intent))
  }

  ghost function Submits(s: State, intent: Intent): seq<Rect>
    requires Shaped(s)
  {
    if Chosen(s, intent).complete then [Full(s.w, s.h)] else Found(s, intent)
  }

  ghost function SettleAfter(s: State, intent: Intent): seq<Rect>
    requires Shaped(s)
  {
    if Chosen(s, intent).complete || Chosen(s, intent).waveform != Fastest then []
    else MergeTiled(s.w, s.h, s.damageTile, s.settle, Submits(s, intent))
  }

  lemma NoRegions(s: State, intent: Intent)
    requires Shaped(s) && PlaneRegions(s, intent) == []
    ensures Found(s, intent) == []
  {
    hide Size, Shaped, Picture;
  }

  lemma SameBuffers(s: State)
    requires Sound(s)
    ensures s.working == s.presented
  {
  }

  lemma AcceptedEffect(s: State, panel: Panel, now: nat, intent: Intent)
    requires Sound(s) && Shaped(s) && PanelShaped(Size(s.w, s.h), panel) && Next(panel).Accept? && Found(s, intent) != []
    requires Shaped(DirtyTaken(s, intent).(working := PlaneComposed(s, intent))) && |panel.image| == Size(s.w, s.h)
    ensures var d := Chosen(s, intent);
            var t := PlaneAccepted(DirtyTaken(s, intent).(working := PlaneComposed(s, intent)), now, PlaneComposed(s, intent),
                                   Submits(s, intent), d, Next(panel).physical);
            var p := SubmitTo(s.w, panel, PlaneComposed(s, intent), Submits(s, intent), d);
            && !t.uncertain && t.presentedId == s.presentedId && t.settle == SettleAfter(s, intent)
            && t.presented == PlaneComposed(s, intent) && (t.w, t.h) == (s.w, s.h)
            && p.image == Painted(s.w, panel.image, PlaneComposed(s, intent), Submits(s, intent))
            && p.drive == Driven(s.w, panel.drive, Submits(s, intent), d.waveform)
  {
    hide Size, Shaped, Sound, PlaneDecision, MergeTiled, Submitted, TotalArea, SatAdd, Driven, Painted, PlaneDamage, Picture,
         PanelShaped, PlaneRegions;
    PlaneConverges(s, intent);
    SameBuffers(s);
  }

  /** The effect of one accepted repaint on glass, drive history and debt. */
  lemma RepaintEffect(s: State, panel: Panel, now: nat, intent: Intent, terminals: seq<Terminal>)
    requires Sound(s) && PanelShaped(Size(s.w, s.h), panel) && Repaint(s, panel, now, intent, terminals).PlaneDone?
    ensures Shaped(s)
    ensures var m := Repaint(s, panel, now, intent, terminals).moved;
            && m.s.presentedId == s.presentedId && m.s.presented == PlaneComposed(s, intent)
            && |panel.image| == |panel.drive| == Size(s.w, s.h)
            && (m.s.w, m.s.h) == (s.w, s.h)
            && (Found(s, intent) == [] ==>
                  m.s.uncertain == s.uncertain && m.s.settle == s.settle && m.panel == panel && m.s.presented == s.presented)
            && (Found(s, intent) != [] ==>
                  && !m.s.uncertain
                  && m.s.settle == SettleAfter(s, intent)
                  && m.panel.image == Painted(s.w, panel.image, PlaneComposed(s, intent), Submits(s, intent))
                  && m.panel.drive == Driven(s.w, panel.drive, Submits(s, intent), Chosen(s, intent).waveform))
  {
    hide Size, Picture, Shaped, Sound, PlaneDamage, PlaneDecision, MergeTiled, Submitted,
         TotalArea, SatAdd, PlaneRegions, Driven, Painted, PlaneAccepted, SubmitTo, PanelShaped;
    SoundShaped(s);
    PictureSize(s);
    PanelParts(Size(s.w, s.h), panel);
    PlaneConverges(s, intent);
    DirtyTakenShaped(s, intent);
    WorkingSized(s);
    var composed := PlaneComposed(s, intent);
    assert s.working == s.presented by { SameBuffers(s); }
    assert Shaped(DirtyTaken(s, intent).(working := composed)) by { WorkingShaped(DirtyTaken(s, intent), composed); }
    if PlaneRegions(s, intent) == [] {
      NoRegions(s, intent);
    } else if Found(s, intent) != [] {
      AcceptedEffect(s, panel, now, intent);
    }
  }

  lemma RectHasPixel(w: nat, h: nat, rects: seq<Rect>) returns (i: nat)
    requires w > 0 && AllValid(w, h, rects) && rects != []
    ensures i < Size(w, h) && Covered(w, rects, i)
  {
    hide Size;
    var r := rects[0];
    assert ValidRect(w, h, r);
    i := At(w, r.x, r.y);
    IndexSplit(w, r.x, r.y);
    IndexBound(w, h, r.x, r.y);
    assert InRect(w, rects[0], i);
  }

  /** Off the rectangles of a repaint both software pictures agree. */
  lemma OutsideIsOld(s: State, intent: Intent, i: nat)
    requires Sound(s) && i < Size(s.w, s.h) && !Covered(s.w, Submits(s, intent), i)
    ensures PlaneComposed(s, intent)[i] == s.presented[i]
  {
    hide Size, Picture, PlaneOk, ValidRect, BaseCurrent, Flags, PlaneDamage, PlaneDecision, PolicyOk, PlaneRegions, Covered;
    PictureSize(s);
    if PlaneComposed(s, intent)[i] != s.presented[i] {
      PlaneDamageCovers(s, intent, i);
      FullCovers(s.w, s.h, i);
      assert false;
    }
  }

  // ------------------------------------------------------------------ glass

  ghost predicate CoversPanel(s: State, rects: seq<Rect>)
    requires s.w > 0
  {
    forall i: nat :: i < Size(s.w, s.h) ==> Covered(s.w, rects, i)
  }

  /** The panel with another picture on its glass. */
  function WithImage(p: Panel, image: Image): Panel {
    p.(image := image)
  }

  lemma ImageShaped(n: nat, p: Panel, image: Image)
    requires PanelShaped(n, p) && |image| == n
    ensures PanelShaped(n, WithImage(p, image))
  {
  }

  /** Whatever a failed submission may have left on the glass, this repaint leaves
      what the receiver then believes. */
  ghost predicate KeepsGlass(s: State, panel: Panel, now: nat, intent: Intent)
    requires Sound(s) && PanelShaped(Size(s.w, s.h), panel)
  {
    forall image: Image :: |image| == Size(s.w, s.h) && GlassTrue(s, WithImage(panel, image)) ==>
      (ImageShaped(Size(s.w, s.h), panel, image);
       var r := Repaint(s, WithImage(panel, image), now, intent, []);
       r.PlaneDone? ==> GlassTrue(r.moved.s, r.moved.panel))
  }

  /** A repaint may be taken for certain: the glass was certain, nothing is
      submitted, or everything is. */
  ghost predicate MayTrust(s: State, intent: Intent)
    requires Shaped(s)
  {
    || !s.uncertain
    || Found(s, intent) == []
    || Chosen(s, intent).complete
    || CoversPanel(s, Found(s, intent))
  }

  lemma TrustedRepaint(s: State, panel: Panel, now: nat, intent: Intent, terminals: seq<Terminal>)
    requires Sound(s) && PanelShaped(Size(s.w, s.h), panel) && GlassTrue(s, panel)
    requires Repaint(s, panel, now, intent, terminals).PlaneDone?
    requires s.presentedId == 0 || MayTrust(s, intent)
    ensures var m := Repaint(s, panel, now, intent, terminals).moved; GlassTrue(m.s, m.panel)
  {
    hide Size, Sound, PanelShaped, Repaint, PlaneComposed, Found, Chosen, SettleAfter, Covered, Driven, Shaped;
    RepaintEffect(s, panel, now, intent, terminals);
    SoundShaped(s);
    if s.presentedId != 0 && Found(s, intent) != [] {
      var m := Repaint(s, panel, now, intent, terminals).moved;
      forall i | 0 <= i < Size(s.w, s.h) ensures m.panel.image[i] == m.s.presented[i] {
        if !Covered(s.w, Submits(s, intent), i) {
          OutsideIsOld(s, intent, i);
          FullCovers(s.w, s.h, i) by { SoundShaped(s); ShapedPositive(s); }
        }
      }
    }
  }

  lemma ShapedPositive(s: State)
    requires Shaped(s)
    ensures s.w > 0 && s.h > 0 && |s.presented| == Size(s.w, s.h)
  {
  }

  function Flipped(p: Pixel): (q: Pixel)
    ensures q != p
  {
    if p == Gray8(0) then Gray8(255) else Gray8(0)
  }

  /** A repaint over an uncertain glass is taken for certainty, although it may
      drive only a part: over all pictures the glass may hold, this is right
      exactly when the glass was certain, or all of it or none is driven. */
  lemma RepaintTrustsTheGlass(s: State, panel: Panel, now: nat, intent: Intent)
    requires Sound(s) && PanelShaped(Size(s.w, s.h), panel) && s.presentedId != 0 && Next(panel).Accept?
    ensures Shaped(s) && (KeepsGlass(s, panel, now, intent) <==> MayTrust(s, intent))
  {
    hide Size, Sound, PanelShaped, Repaint, PlaneComposed, Found, Chosen, SettleAfter, Covered, Shaped;
    SoundShaped(s);
    ShapedPositive(s);
    if MayTrust(s, intent) {
      forall image: Image | |image| == Size(s.w, s.h) && GlassTrue(s, WithImage(panel, image))
        ensures PanelShaped(Size(s.w, s.h), WithImage(panel, image))
        ensures var r := Repaint(s, WithImage(panel, image), now, intent, []);
                r.PlaneDone? ==> GlassTrue(r.moved.s, r.moved.panel)
      {
        ImageShaped(Size(s.w, s.h), panel, image);
        if Repaint(s, WithImage(panel, image), now, intent, []).PlaneDone? {
          TrustedRepaint(s, WithImage(panel, image), now, intent, []);
        }
      }
    } else {
      var i: nat :| i < Size(s.w, s.h) && !Covered(s.w, Found(s, intent), i);
      var image := s.presented[i := Flipped(s.presented[i])];
      var p := WithImage(panel, image);
      ImageShaped(Size(s.w, s.h), panel, image);
      assert GlassTrue(s, p);
      RepaintDone(s, p, now, intent);
      RepaintEffect(s, p, now, intent, []);
      OutsideIsOld(s, intent, i);
      var m := Repaint(s, p, now, intent, []).moved;
      assert m.panel.image[i] == image[i] != m.s.presented[i];
      assert !GlassTrue(m.s, m.panel);
    }
  }

  lemma RepaintDone(s: State, panel: Panel, now: nat, intent: Intent)
    requires Sound(s) && PanelShaped(Size(s.w, s.h), panel) && Next(panel).Accept?
    ensures Shaped(s) && Repaint(s, panel, now, intent, []).PlaneDone?
  {
    hide Size, Picture, PlaneDamage, PlaneDecision, PlaneAccepted, SubmitTo, PlaneOk;
  }

  // ------------------------------------------------------------------- debt

  function WithDrive(p: Panel, drive: seq<Waveform>): Panel {
    p.(drive := drive)
  }

  lemma DriveShaped(n: nat, p: Panel, drive: seq<Waveform>)
    requires PanelShaped(n, p) && |drive| == n
    ensures PanelShaped(n, WithDrive(p, drive))
  {
  }

  /** Whatever drove the pixels before, this repaint forgets no ghosting one. */
  ghost predicate KeepsDebt(s: State, panel: Panel, now: nat, intent: Intent)
    requires Sound(s) && PanelShaped(Size(s.w, s.h), panel)
  {
    forall drive: seq<Waveform> :: |drive| == Size(s.w, s.h) && DebtKnown(s, WithDrive(panel, drive)) ==>
      (DriveShaped(Size(s.w, s.h), panel, drive);
       var r := Repaint(s, WithDrive(panel, drive), now, intent, []);
       r.PlaneDone? ==> r.moved.s.w > 0 && DebtKnown(r.moved.s, r.moved.panel))
  }

  /** Pixels that may ghost, as far as the receiver knows. */
  ghost predicate MayGhost(s: State, i: nat)
    requires s.w > 0
  {
    s.uncertain || Covered(s.w, s.settle, i)
  }

  /** The debt survives a repaint: nothing is submitted, all of the panel is
      cleaned, the debt grows with the fastest waveform, or a slow waveform
      repaints every pixel that may ghost. */
  ghost predicate DebtSurvives(s: State, intent: Intent)
    requires Shaped(s)
  {
    var found, d := Found(s, intent), Chosen(s, intent);
    || found == []
    || d.complete
    || (d.waveform == Fastest && (s.uncertain ==> CoversPanel(s, SettleAfter(s, intent))))
    || (!Ghosting(d.waveform) && forall i: nat :: i < Size(s.w, s.h) && MayGhost(s, i) ==> Covered(s.w, found, i))
  }

  lemma CompleteIsSlow(s: State, intent: Intent)
    requires Sound(s) && Chosen(s, intent).complete
    ensures !Ghosting(Chosen(s, intent).waveform)
  {
    hide Size, Shaped, BaseCurrent, Flags, Found;
    DecideWaveform(s.policy, intent, TextUi, TotalArea(Found(s, intent)), Size(s.w, s.h), false);
  }

  lemma SurvivesAt(s: State, intent: Intent, drive: seq<Waveform>, i: nat)
    requires Sound(s) && s.presentedId != 0 && DebtSurvives(s, intent) && Found(s, intent) != []
    requires |drive| == Size(s.w, s.h) && i < |drive|
    requires !s.uncertain && Ghosting(drive[i]) ==> Covered(s.w, s.settle, i)
    requires Ghosting(Driven(s.w, drive, Submits(s, intent), Chosen(s, intent).waveform)[i])
    ensures Covered(s.w, SettleAfter(s, intent), i)
  {
    hide Size, Covered, Picture, PlaneOk, ValidRect, BaseCurrent, Flags, PolicyOk, Found, Chosen, MergeTiled, Select;
    FullCovers(s.w, s.h, i);
    MergeCovers(s.w, s.h, s.damageTile, s.settle, Submits(s, intent), i);
    if Chosen(s, intent).complete { CompleteIsSlow(s, intent); }
  }

  lemma RepaintKeepsDebt(s: State, panel: Panel, now: nat, intent: Intent, terminals: seq<Terminal>)
    requires Sound(s) && PanelShaped(Size(s.w, s.h), panel) && Repaint(s, panel, now, intent, terminals).PlaneDone?
    requires Shaped(s) && DebtKnown(s, panel) && (s.presentedId == 0 || DebtSurvives(s, intent))
    ensures var m := Repaint(s, panel, now, intent, terminals).moved; m.s.w > 0 && DebtKnown(m.s, m.panel)
  {
    hide Size, Sound, PanelShaped, Repaint, PlaneComposed, Found, Chosen, SettleAfter, Submits, Covered, DebtSurvives, Driven;
    RepaintEffect(s, panel, now, intent, terminals);
    if s.presentedId != 0 && Found(s, intent) != [] {
      var m := Repaint(s, panel, now, intent, terminals).moved;
      forall i | 0 <= i < |m.panel.drive| && Ghosting(m.panel.drive[i]) ensures Covered(m.s.w, m.s.settle, i) {
        SurvivesAt(s, intent, panel.drive, i);
      }
    }
  }

  /** A history in which at most pixel `i` was driven fast. */
  function OnlyFast(n: nat, i: int): (r: seq<Waveform>)
    ensures |r| == n && forall k :: 0 <= k < n ==> r[k] == if k == i then Fast else Quality
  {
    seq(n, k requires 0 <= k < n => if k == i then Fast else Quality)
  }

  /** The history that a repaint forgets, and the pixel it forgets. */
  lemma Forgotten(s: State, intent: Intent) returns (drive: seq<Waveform>, i: nat)
    requires Sound(s) && s.presentedId != 0 && !DebtSurvives(s, intent)
    ensures |drive| == Size(s.w, s.h) && i < |drive|
    ensures !s.uncertain ==> forall k :: 0 <= k < |drive| && Ghosting(drive[k]) ==> Covered(s.w, s.settle, k)
    ensures Ghosting(Driven(s.w, drive, Submits(s, intent), Chosen(s, intent).waveform)[i])
    ensures !Covered(s.w, SettleAfter(s, intent), i)
  {
    hide Size, Covered, Picture, PlaneOk, ValidRect, BaseCurrent, Flags, PolicyOk, Found, Chosen, MergeTiled, Select;
    var d := Chosen(s, intent);
    if d.waveform == Fastest {
      i :| i < Size(s.w, s.h) && !Covered(s.w, SettleAfter(s, intent), i);
      drive := OnlyFast(Size(s.w, s.h), i);
      MergeCovers(s.w, s.h, s.damageTile, s.settle, Submits(s, intent), i);
    } else if d.waveform == Fast {
      assert AllValid(s.w, s.h, Found(s, intent)) by { FoundValid(s, intent); }
      i := RectHasPixel(s.w, s.h, Found(s, intent));
      drive := OnlyFast(Size(s.w, s.h), -1);
      NotCovered(s.w, i);
    } else {
      i :| i < Size(s.w, s.h) && MayGhost(s, i) && !Covered(s.w, Found(s, intent), i);
      drive := OnlyFast(Size(s.w, s.h), i);
      NotCovered(s.w, i);
    }
  }

  lemma FoundValid(s: State, intent: Intent)
    requires Shaped(s)
    ensures AllValid(s.w, s.h, Found(s, intent))
  {
    hide Size, PlaneDamage, Shaped;
    PlaneDamageValid(s, intent);
  }

  /** A plane repaint, of ink as of an overlay, forgets the fast debt it does not
      repaint: over all histories compatible with what the receiver remembers,
      no ghosting pixel is forgotten exactly when the debt survives. */
  lemma RepaintForgetsFastPixels(s: State, panel: Panel, now: nat, intent: Intent)
    requires Sound(s) && PanelShaped(Size(s.w, s.h), panel) && s.presentedId != 0 && Next(panel).Accept?
    ensures Shaped(s) && (KeepsDebt(s, panel, now, intent) <==> DebtSurvives(s, intent))
  {
    hide Size, Sound, PanelShaped, Repaint, PlaneComposed, Found, Chosen, SettleAfter, Submits, Covered, DebtSurvives, Shaped;
    SoundShaped(s);
    ShapedPositive(s);
    if DebtSurvives(s, intent) {
      forall drive: seq<Waveform> | |drive| == Size(s.w, s.h) && DebtKnown(s, WithDrive(panel, drive))
        ensures PanelShaped(Size(s.w, s.h), WithDrive(panel, drive))
        ensures var r := Repaint(s, WithDrive(panel, drive), now, intent, []);
                r.PlaneDone? ==> r.moved.s.w > 0 && DebtKnown(r.moved.s, r.moved.panel)
      {
        DriveShaped(Size(s.w, s.h), panel, drive);
        if Repaint(s, WithDrive(panel, drive), now, intent, []).PlaneDone? {
          RepaintKeepsDebt(s, WithDrive(panel, drive), now, intent, []);
        }
      }
    } else {
      var drive, i := Forgotten(s, intent);
      var p := WithDrive(panel, drive);
      DriveShaped(Size(s.w, s.h), panel, drive);
      assert DebtKnown(s, p);
      RepaintDone(s, p, now, intent);
      RepaintEffect(s, p, now, intent, []);
      assert Found(s, intent) != [] by { SubmitsSomething(s, intent); }
      var m := Repaint(s, p, now, intent, []).moved;
      assert !DebtKnown(m.s, m.panel);
    }
  }

  lemma SubmitsSomething(s: State, intent: Intent)
    requires Shaped(s) && !DebtSurvives(s, intent)
    ensures Found(s, intent) != []
  {
  }

  /** Ink at the fastest waveform over a certain glass never forgets. */
  lemma FastestInkSurvives(s: State)
    requires Shaped(s) && s.inkWaveform == Fastest && !s.uncertain
    ensures DebtSurvives(s, Latest)
  {
    hide Size, Found, Shaped;
  }

  /** Ink at another waveform forgets the debt that it does not draw over; at the
      fast one it forgets even itself. */
  lemma SlowInkForgets(s: State)
    requires Sound(s) && s.inkWaveform != Fastest && !s.uncertain && Found(s, Latest) != []
    ensures DebtSurvives(s, Latest) <==>
            !Ghosting(s.inkWaveform) && forall i: nat :: i < Size(s.w, s.h) && Covered(s.w, s.settle, i) ==> Covered(s.w, Found(s, Latest), i)
  {
    hide Size, Found, Covered, Shaped;
  }
}
