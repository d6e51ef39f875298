/** Where the code does less than its documentation says, and exactly when. */
module Findings {
  import opened Geometry
  import opened Pixels
  import opened Raster
  import opened Tiles
  import opened Ink
  import opened Refresh
  import opened Core
  import opened Composition
  import opened PanelSafety
  import opened PlaneDebt

  // -------------------------------------------------------------- the flush

  /** The panel accepts what presenting the pending frame asks of it. */
  ghost predicate FlushShows(s: State, panel: Panel)
    requires Shaped(s) && PanelShaped(Size(s.w, s.h), panel)
  {
    && s.pending.Some?
    && Next(panel).Accept?
    && (SubmitDamage(s) == [] || Next(Pumped(panel)).Accept?)
  }

  lemma FlushOutcome(s: State, panel: Panel, now: nat)
    requires Sound(s) && PanelShaped(Size(s.w, s.h), panel)
    ensures var m := Tick(s, panel, now, true);
            && (FlushShows(s, panel) <==> Kind(s, m).Shown?)
            && (s.pending.None? <==> Kind(s, m).Idle?)
  {
    hide Size, TickDecision, SubmitDamage, SubmitImage, TickAccepted, SubmitTo, PlaneOk, ValidRect, PanelShaped, PolicyOk,
         BaseCurrent, Pumped, Painted;
    TickOutcome(s, panel, now, true);
    if s.pending.Some? { ImageSize(s); }
  }

  // -------------------------------------------------------------- clear_ink

  /** The state after `clear_ink` has cleared the plane. */
  function InkCleared(s: State): State {
    s.(ink := Cleared(s.ink))
  }

  lemma ClearedSound(s: State)
    requires Sound(s)
    ensures Sound(InkCleared(s)) && Shaped(InkCleared(s))
  {
    hide Size, InRect, ValidRect, PolicyOk, Over;
  }

  /** Clearing drops the dirty rectangle, so presenting the ink afterwards only
      completes pending work: it repaints nothing itself. */
  lemma ClearedInkIsNotRepainted(s: State, panel: Panel, now: nat)
    requires Sound(s) && PanelShaped(Size(s.w, s.h), panel)
    ensures Shaped(InkCleared(s))
    ensures PresentPlane(InkCleared(s), panel, now, Latest) == PlaneDone(Tick(InkCleared(s), panel, now, true))
  {
    hide Size, Shaped, PanelShaped, Picture, Tick, Sound;
    var c := InkCleared(s);
    ClearedSound(s);
    TickFrame(c, panel, now, true);
    TickShaped(c, panel, now, true);
    var f := Tick(c, panel, now, true);
    assert f.s.ink.dirty.None?;
    assert DirtyTaken(f.s, Latest) == f.s;
  }

  /** Some ink pixel can be seen through the menu. */
  ghost predicate InkShows(s: State, i: nat)
    requires Shaped(s) && i < Size(s.w, s.h)
  {
    var below := Over(s.base[i], s.peer.luma[i], s.peer.alpha[i]);
    Over(Over(below, s.ink.luma[i], s.ink.alpha[i]), s.menu.luma[i], s.menu.alpha[i])
      != Over(below, s.menu.luma[i], s.menu.alpha[i])
  }

  /** Pixels that completing the pending frame recomposes. */
  ghost predicate Recomposes(s: State, i: nat)
    requires Shaped(s)
  {
    s.pending.Some? && (TickDecision(s).complete || Covered(s.w, TickRegions(s), i))
  }

  /** The base is valid and stays so. */
  ghost predicate BaseLives(s: State, panel: Panel)
    requires Shaped(s) && PanelShaped(Size(s.w, s.h), panel)
  {
    s.baseValid && (s.pending.None? || FlushShows(s, panel))
  }

  /** No presented ink can be seen at `i`; where a stroke was never presented,
      what is shown there happens to be right. */
  ghost predicate NothingLeft(s: State, i: nat)
    requires Shaped(s) && Shaped(InkCleared(s)) && i < Size(s.w, s.h)
  {
    if Covered(s.w, DirtyRects(s.ink), i) then s.presented[i] == Picture(InkCleared(s))[i] else !InkShows(s, i)
  }

  lemma ClearedPicture(s: State, i: nat)
    requires Shaped(s) && Shaped(InkCleared(s)) && i < Size(s.w, s.h)
    ensures |Picture(s)| == |Picture(InkCleared(s))| == Size(s.w, s.h)
    ensures Picture(s)[i] != Picture(InkCleared(s))[i] <==> InkShows(s, i)
  {
    hide Size, Over;
    var c := InkCleared(s);
    var below := Over(s.base[i], s.peer.luma[i], s.peer.alpha[i]);
    OverZero(below, c.ink.luma[i]);
  }

  /** What the completed frame submits outside what it recomposes. */
  lemma NotRecomposed(s: State, i: nat)
    requires Sound(s) && s.pending.Some? && i < Size(s.w, s.h)
    ensures |SubmitImage(s)| == |Picture(s)| == Size(s.w, s.h)
    ensures SubmitImage(s)[i] == if Recomposes(s, i) then Picture(s)[i] else s.presented[i]
    ensures Owed(s, i) ==> Recomposes(s, i)
  {
    hide Size, Covered, Picture, TickDecision, PlaneOk, BaseCurrent, Flags;
    PictureSize(s);
    ImageSize(s);
    FullCovers(s.w, s.h, i);
    var p := s.pending.value;
    CoveredConcat(s.w, if p.forceFull then [Full(s.w, s.h)] else p.hint,
                  if p.intent == Settled then s.settle else [], i);
  }

  lemma ClearedAt(s: State, i: nat)
    requires Inv(s) && Shaped(InkCleared(s)) && Sound(InkCleared(s)) && s.baseValid && i < Size(s.w, s.h)
    ensures var c := InkCleared(s);
            && |Picture(c)| == Size(s.w, s.h)
            && (s.pending.Some? ==>
                  && |SubmitImage(c)| == Size(s.w, s.h)
                  && (SubmitImage(c)[i] == Picture(c)[i] <==> Recomposes(c, i) || NothingLeft(s, i)))
            && (s.pending.None? ==> (c.presented[i] == Picture(c)[i] <==> NothingLeft(s, i)))
  {
    hide Size, Covered, Picture, SubmitImage, TickDecision, TickRegions, PlaneOk, BaseCurrent, Flags, PolicyOk, ValidRect,
         InkShows, InkCleared;
    var c := InkCleared(s);
    assert c.pending == s.pending && c.presented == s.presented && (c.w, c.h) == (s.w, s.h) by { ClearedFields(s); }
    ClearedPicture(s, i);
    if s.pending.Some? { NotRecomposed(c, i); }
    if !Owed(s, i) && !Covered(s.w, DirtyRects(s.ink), i) {
      assert s.presented[i] == Picture(s)[i];
    }
  }

  lemma ClearedFields(s: State)
    ensures var c := InkCleared(s); c.pending == s.pending && c.presented == s.presented && (c.w, c.h) == (s.w, s.h)
  {
  }

  /** From any state that shows its picture, the picture is right again after
      `clear_ink` exactly when every visible ink pixel lies in what the pending
      frame recomposes (or the base is lost, and nothing is claimed). */
  lemma ClearedInkStaysVisible(s: State, panel: Panel, now: nat)
    requires Inv(s) && PanelShaped(Size(s.w, s.h), panel)
    ensures Shaped(s) && Shaped(InkCleared(s))
    ensures var c := InkCleared(s);
            var r := PresentPlane(c, panel, now, Latest);
            && r.PlaneDone?
            && (Inv(r.moved.s) <==>
                  (BaseLives(c, panel) ==>
                     forall i :: 0 <= i < Size(s.w, s.h) && !Recomposes(c, i) ==> NothingLeft(s, i)))
  {
    hide Size, Covered, Picture, Tick, PresentPlane, SubmitImage, TickDecision, TickRegions, PanelShaped, PlaneOk, BaseCurrent,
         Kind, Flags, PolicyOk, ValidRect, InkShows, FlushShows;
    var c := InkCleared(s);
    ClearedSound(s);
    ClearedInkIsNotRepainted(s, panel, now);
    var m := Tick(c, panel, now, true);
    TickSound(c, panel, now, true);
    TickShaped(c, panel, now, true);
    TickFrame(c, panel, now, true);
    TickOutcome(c, panel, now, true);
    FlushOutcome(c, panel, now);
    if c.pending.Some? { PendingMeansValid(c); }
    if m.s.baseValid {
      SamePicture(c, m.s);
      PictureSize(m.s);
      forall i | 0 <= i < Size(s.w, s.h)
        ensures !Owed(m.s, i) && !Covered(s.w, DirtyRects(m.s.ink), i)
        ensures m.s.presented[i] == Picture(m.s)[i] <==> Recomposes(c, i) || NothingLeft(s, i)
      {
        NotCovered(s.w, i);
        ClearedAt(s, i);
      }
    }
  }

  /** One white pixel under one black, opaque, already presented ink pixel. */
  function InkedPixel(): State {
    var s := NewState(1, 1, FormatGray8, 100, 0, Preset(Realtime));
    s.(ink := Plane([0], [255], false, None), presented := [Gray8(0)], working := [Gray8(0)],
       logicalId := 1, presentedId := 1, baseValid := true)
  }

  /** A concrete case: the stroke is gone from the plane, and still shown. */
  lemma ClearedInkExample()
    ensures var s := InkedPixel();
            && Inv(s) && Shaped(InkCleared(s))
            && s.presented == Picture(s) == [Gray8(0)]
            && Picture(InkCleared(s)) == [Gray8(255)]
            && InkCleared(s).presented == [Gray8(0)]
  {
    hide Over;
    var s := InkedPixel();
    var c := InkCleared(s);
    assert Size(1, 1) == 1;
    assert s.base == [Gray8(255)];
    OverZero(Gray8(255), 0);
    OverZero(Gray8(0), 0);
    OverOpaque(Gray8(255), 0);
    assert Picture(s) == [Gray8(0)];
    assert Picture(c) == [Gray8(255)];
  }

  // --------------------------------------------- planes over a failed flush

  /** Presenting an overlay completes pending work first, but goes on when that
      failed: the shown base is the acknowledged one exactly when the panel
      accepts the pending frame, or the two were equal anyway. */
  lemma ShownBaseIsAcknowledged(s: State, panel: Panel, now: nat)
    requires Sound(s) && PanelShaped(Size(s.w, s.h), panel) && PresentPlane(s, panel, now, Settled).PlaneDone?
    ensures var m := PresentPlane(s, panel, now, Settled).moved;
            && Shaped(m.s)
            && m.s.presented == Picture(m.s)
            && m.s.base == s.base
            && (m.s.base == m.s.presentedBase <==> FlushShows(s, panel) || s.base == s.presentedBase)
  {
    hide Size, Tick, Repaint, Picture, PanelShaped, Sound, SubmitDamage;
    SoundShaped(s);
    var f := Tick(s, panel, now, true);
    TickShaped(s, panel, now, true);
    TickSound(s, panel, now, true);
    TickOutcome(s, panel, now, true);
    FlushOutcome(s, panel, now);
    TickFrame(s, panel, now, true);
    RepaintOutcome(f.s, f.panel, now, Settled, f.terminals);
    PresentPlaneInv(s, panel, now, Settled);
    SoundShaped(f.s);
  }

  /** So a caller is safe on a valid base with nothing pending. */
  lemma QuietBaseIsAcknowledged(s: State, panel: Panel, now: nat)
    requires Sound(s) && PanelShaped(Size(s.w, s.h), panel) && PresentPlane(s, panel, now, Settled).PlaneDone?
    requires s.baseValid && s.pending.None?
    ensures var m := PresentPlane(s, panel, now, Settled).moved;
            m.s.base == m.s.presentedBase && Shaped(m.s) && m.s.presented == Picture(m.s)
  {
    hide Size, PresentPlane, Picture, PanelShaped, PlaneOk, ValidRect, PolicyOk, Covered;
    ShownBaseIsAcknowledged(s, panel, now);
  }

  /** A black keyframe pending on a white panel. */
  function PendingPixel(): State {
    var s := NewState(1, 1, FormatGray8, 100, 0, Preset(Realtime));
    s.(base := [Gray8(0)], logicalId := 1, baseValid := true,
       pending := Some(Pending(1, Latest, TextUi, 0, true, false, 1, [Full(1, 1)])))
  }

  /** A panel that fails once and then works. */
  function FlakyPanel(): Panel {
    Panel([Gray8(255)], [Quality], [], [Fail([Gray8(255)], [Quality])])
  }

  /** A concrete case: the frame failed, was never acknowledged, and is shown. */
  lemma UnacknowledgedBaseExample()
    ensures var s := PendingPixel();
            && Sound(s) && PanelShaped(1, FlakyPanel())
            && var r := PresentPlane(s, FlakyPanel(), 0, Settled);
               && r.PlaneDone?
               && (exists k :: 0 <= k < |r.moved.terminals| && r.moved.terminals[k].outcome == BackendFailure)
               && r.moved.s.presented == [Gray8(0)]
               && r.moved.s.presentedBase == [Gray8(255)]
               && r.moved.s.presentedId == 0
  {
    hide Sound, Tick, Repaint, PanelShaped, Shaped, PendingPixel, FlakyPanel, Size, Picture, MarkFailure, Pumped;
    PendingPixelSound();
    var s, p := PendingPixel(), FlakyPanel();
    var f := Tick(s, p, 0, true);
    TickShaped(s, p, 0, true);
    TickSound(s, p, 0, true);
    PendingPixelFlush();
    PendingPixelRepaint();
    assert f.terminals[0].outcome == BackendFailure;
    RepaintOutcome(f.s, f.panel, 0, Settled, f.terminals);
    ShownBaseIsAcknowledged(s, p, 0);
    SamePicture(f.s, PresentPlane(s, p, 0, Settled).moved.s);
  }

  lemma PendingPixelSound()
    ensures var s := PendingPixel(); Sound(s) && Shaped(s) && s.w == s.h == 1 && Size(s.w, s.h) == 1
    ensures PanelShaped(1, FlakyPanel())
  {
    hide CeilDiv;
    assert Size(1, 1) == 1;
  }

  lemma PendingPixelFlush()
    requires Shaped(PendingPixel()) && PanelShaped(Size(1, 1), FlakyPanel())
    ensures var s, p := PendingPixel(), FlakyPanel();
            Tick(s, p, 0, true) == Moved(MarkFailure(s).(pending := None), Pumped(p), [Terminal(1, BackendFailure, false)])
    ensures Pumped(FlakyPanel()).script == []
  {
    hide Shaped, PanelShaped, Present, CeilDiv;
  }

  /** After the failed flush the repaint goes through, from the failed base. */
  lemma PendingPixelRepaint()
    requires Shaped(PendingPixel()) && PanelShaped(Size(1, 1), FlakyPanel())
    requires PanelShaped(Size(1, 1), Pumped(FlakyPanel()))
    requires Shaped(MarkFailure(PendingPixel()).(pending := None))
    ensures var s := MarkFailure(PendingPixel()).(pending := None);
            var r := Repaint(s, Pumped(FlakyPanel()), 0, Settled, [Terminal(1, BackendFailure, false)]);
            && r.PlaneDone?
            && r.moved.terminals == [Terminal(1, BackendFailure, false)]
            && r.moved.s.presentedBase == [Gray8(255)] && r.moved.s.presentedId == 0
            && Picture(s) == [Gray8(0)]
  {
    hide PlaneDamage, PlaneDecision, MergeTiled, TotalArea, Submitted, CeilDiv, PanelShaped, Shaped, Painted, SubmitTo;
    var s := MarkFailure(PendingPixel()).(pending := None);
    assert Next(Pumped(FlakyPanel())) == Accept(1);
    OverZero(Gray8(0), 0);
    assert s.base == [Gray8(0)];
    assert Size(1, 1) == 1;
    assert Picture(s)[0] == Gray8(0);
  }

  // ------------------------------------- planes over fast pixels, examples

  const WHITE := Gray8(255)
  const BLACK := Gray8(0)

  /** Two white pixels of which the left one was driven fast. */
  function TwoPixels(): State {
    var s := NewState(2, 1, FormatGray8, 100, 0, Preset(Realtime).(damageTile := 1));
    s.(logicalId := 1, presentedId := 1, baseValid := true, settle := [Rect(0, 0, 1, 1)],
       policy := s.policy.(hasPresented := true))
  }

  /** An overlay on the right one. */
  function Overlaid(): State {
    TwoPixels().(menu := Plane([0, 0], [0, 255], false, None))
  }

  /** A stroke on the right one, at some waveform. */
  function Inked(waveform: Waveform): State {
    TwoPixels().(ink := Plane([0, 0], [0, 255], false, Some(Rect(1, 0, 1, 1))), inkWaveform := waveform)
  }

  function FastLeft(): Panel {
    Panel([WHITE, WHITE], [Fastest, Quality], [], [])
  }

  lemma TwoPixelsSound(waveform: Waveform)
    ensures Size(2, 1) == 2
    ensures Inv(TwoPixels()) && Sound(Overlaid()) && Sound(Inked(waveform)) && PanelShaped(2, FastLeft())
    ensures TwoPixels().base == TwoPixels().presented == [WHITE, WHITE]
    ensures DebtKnown(TwoPixels(), FastLeft())
  {
    hide CeilDiv;
    var s := TwoPixels();
    assert Size(2, 1) == 2;
    assert s.base == [WHITE, WHITE];
    forall i: nat | i < 2 ensures Covered(2, s.settle, i) <==> i == 0 {
      CoveredOne(2, s.settle[0], i);
    }
    assert Picture(s) == [WHITE, WHITE] by {
      OverZero(WHITE, 0);
    }
  }

  /** Both pictures that these planes ask for are white on the left and black on
      the right. */
  lemma RightIsBlack(s: State)
    requires Shaped(s) && (s.w, s.h) == (2, 1) && Size(2, 1) == 2 && s.base == [WHITE, WHITE]
    requires s == Overlaid() || s == Inked(s.inkWaveform)
    ensures Picture(s) == [WHITE, BLACK]
  {
    hide CeilDiv, Over;
    OverZero(WHITE, 0);
    OverZero(BLACK, 0);
    OverOpaque(WHITE, 0);
  }

  lemma OverlayFound()
    requires Sound(Overlaid()) && Shaped(Overlaid()) && Size(2, 1) == 2
    requires Picture(Overlaid()) == [WHITE, BLACK] && Overlaid().presented == Overlaid().working == [WHITE, WHITE]
    ensures Found(Overlaid(), Settled) != [] && !Covered(2, Found(Overlaid(), Settled), 0)
  {
    hide CeilDiv, Picture, Select, Size, Sound, Shaped, TileDamageRegions, TileDamage;
    var s := Overlaid();
    var composed := PlaneComposed(s, Settled);
    var regions := [Full(2, 1)];
    FullCovers(2, 1, 0) by { assert 0 < Size(2, 1); }
    FullCovers(2, 1, 1) by { assert 1 < Size(2, 1); }
    assert composed == [WHITE, BLACK];
    RestrictedSearchIsFull(2, 1, 1, s.presented, composed, regions);
    TileDamageExact(2, 1, 1, s.presented, composed);
    NotCovered(2, 1);
    OnlyRight(s.presented, composed);
  }

  lemma UnitTiles()
    ensures CeilDiv(2, 1) == 2 && CeilDiv(1, 1) == 1
    ensures Quot(0, 1) == 0 && Quot(1, 1) == 1
    ensures Col(2, 0) == 0 && Row(2, 0) == 0 && Col(2, 1) == 1 && Row(2, 1) == 0
    ensures At(2, 0, 0) == 0 && At(2, 1, 0) == 1
  {
  }

  lemma TwoTiles()
    requires Size(2, 1) == 2
    ensures TileCount(2, 1, 1) == 2 && TileOf(2, 1, 0) == 0 && TileOf(2, 1, 1) == 1
  {
    hide CeilDiv, Quot, Col, Row, At, Size;
    UnitTiles();
  }

  /** The tile of the left pixel is not listed when only the right one differs. */
  lemma OnlyRight(previous: Image, current: Image)
    requires previous == [WHITE, WHITE] && current == [WHITE, BLACK] && Size(2, 1) == 2
    ensures !Covered(2, TileDamage(2, 1, 1, previous, current), 0)
  {
    hide Size, Select, Covered, TileOf, TileCount;
    var flags := DiffFlags(2, 1, 1, previous, current);
    TwoTiles();
    assert !Differs(2, 1, 1, previous, current, 0);
    SelectCovers(2, 1, 1, flags, 0);
  }

  /** A concrete case: an overlay on the right pixel, at the quality waveform,
      makes the receiver forget that the left one was driven fast. */
  lemma OverlayForgetsExample(now: nat)
    ensures var s, p := Overlaid(), FastLeft();
            && Sound(s) && Shaped(s) && PanelShaped(Size(2, 1), p) && DebtKnown(s, p)
            && !DebtSurvives(s, Settled)
            && var r := PresentPlane(s, p, now, Settled);
               r.PlaneDone? && r.moved.panel.drive[0] == Fastest && r.moved.s.settle == [] && !r.moved.s.uncertain
  {
    hide CeilDiv, Picture, Size, Sound, Shaped, PlaneDamage, Repaint, PanelShaped, Found, DebtKnown, Tick;
    TwoPixelsSound(Fast);
    var s, p := Overlaid(), FastLeft();
    SoundShaped(s);
    assert DebtKnown(s, p) by { SameDebt(TwoPixels(), s, p); }
    RightIsBlack(s);
    OverlayFound();
    TickIdle(s, p, now, true);
    RepaintDone(s, p, now, Settled);
    OverlayDecision(s);
    RepaintEffect(s, p, now, Settled, []);
    assert !DebtSurvives(s, Settled) by {
      assert MayGhost(s, 0) by { CoveredOne(2, s.settle[0], 0); }
      assert 0 < Size(s.w, s.h);
    }
  }

  lemma SameDebt(s: State, t: State, p: Panel)
    requires s.w > 0 && DebtKnown(s, p)
    requires s.w == t.w && s.settle == t.settle && s.presentedId == t.presentedId && s.uncertain == t.uncertain
    ensures DebtKnown(t, p)
  {
  }

  lemma OverlayDecision(s: State)
    requires s == Overlaid() && Shaped(s)
    ensures !Chosen(s, Settled).complete && Chosen(s, Settled).waveform == Quality
  {
    hide CeilDiv, Picture, Size, Shaped, Found, TotalArea;
  }

  /** The same for a stroke at a waveform other than the fastest. */
  lemma InkForgetsExample(waveform: Waveform, now: nat)
    requires waveform != Fastest
    ensures var s, p := Inked(waveform), FastLeft();
            && Sound(s) && Shaped(s) && PanelShaped(Size(2, 1), p) && DebtKnown(s, p)
            && !DebtSurvives(s, Latest)
            && var r := PresentPlane(s, p, now, Latest);
               r.PlaneDone? && r.moved.panel.drive[0] == Fastest && r.moved.s.settle == [] && !r.moved.s.uncertain
  {
    hide CeilDiv, Picture, Size, Sound, Shaped, Repaint, PanelShaped, Found, DebtKnown, Tick, Covered;
    TwoPixelsSound(waveform);
    var s, p := Inked(waveform), FastLeft();
    SoundShaped(s);
    assert DebtKnown(s, p) by { SameDebt(TwoPixels(), s, p); }
    RightIsBlack(s);
    StrokeFound(s);
    TickIdle(s, p, now, true);
    RepaintDone(s, p, now, Latest);
    RepaintEffect(s, p, now, Latest, []);
    assert !DebtSurvives(s, Latest) by {
      assert MayGhost(s, 0) by { CoveredOne(2, s.settle[0], 0); }
      assert 0 < Size(s.w, s.h);
    }
  }

  lemma UnitCell(k: nat, i: nat)
    requires k < 2 && i < 2
    ensures InRect(2, Rect(k, 0, 1, 1), i) <==> i == k
    ensures Covered(2, [Rect(k, 0, 1, 1)], i) <==> i == k
  {
    hide Col, Row, Covered, Quot, At, CeilDiv;
    UnitTiles();
    assert i == 0 || i == 1;
    CoveredOne(2, Rect(k, 0, 1, 1), i);
  }

  /** A dirty pixel whose picture changed is what ink repaints. */
  lemma CellFound(s: State, k: nat)
    requires Shaped(s) && Size(2, 1) == 2 && (s.w, s.h) == (2, 1) && k < 2 && s.ink.dirty == Some(Rect(k, 0, 1, 1))
    requires s.presented == s.working && |Picture(s)| == 2 && Picture(s)[k] != s.presented[k]
    ensures Found(s, Latest) == [Rect(k, 0, 1, 1)]
    ensures PlaneComposed(s, Latest)[k] == Picture(s)[k] && PlaneComposed(s, Latest)[1 - k] == s.presented[1 - k]
  {
    hide Picture, Size, Shaped, InRect, Covered;
    UnitCell(k, 0);
    UnitCell(k, 1);
    var composed := PlaneComposed(s, Latest);
    assert |s.presented| == 2 by { ShapedPositive(s); }
    assert |s.working| == 2;
    assert composed == Painted(2, s.working, Picture(s), [Rect(k, 0, 1, 1)]);
    assert ChangedIn(2, 1, s.presented, composed, Rect(k, 0, 1, 1));
  }

  lemma StrokeFound(s: State)
    requires Sound(s) && Shaped(s) && Size(2, 1) == 2 && s == Inked(s.inkWaveform) && Picture(s) == [WHITE, BLACK]
    ensures Found(s, Latest) == [Rect(1, 0, 1, 1)] && !Covered(2, Found(s, Latest), 0)
  {
    hide CeilDiv, Picture, Size, Shaped, Found, Covered, BaseCurrent, Flags, PolicyOk;
    CellFound(s, 1);
    UnitCell(1, 0);
  }

  // --------------------------------------- planes over an unknown glass, example

  /** A panel that fails once and leaves the right pixel black. */
  function SmearedPanel(): Panel {
    Panel([WHITE, WHITE], [Quality, Quality], [], [Fail([WHITE, BLACK], [Quality, Quality])])
  }

  /** After the failed cleanup, with a stroke on the left pixel. */
  function Smeared(): State {
    MarkFailure(TwoPixels().(forceCleanup := true)).(
      ink := Plane([0, 0], [255, 0], false, Some(Rect(0, 0, 1, 1))))
  }

  lemma SmearedSound()
    ensures Size(2, 1) == 2 && PanelShaped(2, SmearedPanel()) && PanelShaped(2, Pumped(SmearedPanel()))
    ensures Sound(Smeared()) && Smeared().presented == Smeared().working == [WHITE, WHITE]
    ensures Shaped(TwoPixels())
    ensures RequestCleanup(TwoPixels(), SmearedPanel(), 0).0 ==
            Moved(MarkFailure(TwoPixels().(forceCleanup := true)), Pumped(SmearedPanel()), [])
  {
    hide CeilDiv, Picture;
    assert Size(2, 1) == 2;
    assert Smeared().base == [WHITE, WHITE];
  }

  lemma SmearedPicture()
    requires Shaped(Smeared()) && Size(2, 1) == 2
    ensures Picture(Smeared()) == [BLACK, WHITE]
  {
    hide CeilDiv, Over;
    var s := Smeared();
    assert s.base == [WHITE, WHITE];
    OverZero(WHITE, 0);
    OverZero(BLACK, 0);
    OverOpaque(WHITE, 0);
  }

  lemma SmearedStroke()
    requires Sound(Smeared()) && Shaped(Smeared()) && Size(2, 1) == 2
    requires Smeared().presented == Smeared().working == [WHITE, WHITE]
    ensures Found(Smeared(), Latest) == [Rect(0, 0, 1, 1)]
    ensures PlaneComposed(Smeared(), Latest) == [BLACK, WHITE]
  {
    hide CeilDiv, Picture, Size, Sound, Shaped, Found, PlaneComposed;
    SmearedPicture();
    CellFound(Smeared(), 0);
    PlaneSize(Smeared());
  }

  lemma PlaneSize(s: State)
    requires Shaped(s)
    ensures |PlaneComposed(s, Latest)| == Size(s.w, s.h)
  {
  }

  /** A concrete case: a cleanup fails and leaves the right pixel black; a stroke
      on the left one is presented; now the receiver takes the glass for certain,
      and the right pixel is still black on it. */
  lemma UncertainGlassExample(now: nat)
    ensures var s, p := Smeared(), Pumped(SmearedPanel());
            && Sound(s) && Shaped(s) && PanelShaped(Size(2, 1), p) && s.uncertain && GlassTrue(s, p)
            && !MayTrust(s, Latest)
            && var r := PresentPlane(s, p, now, Latest);
               && r.PlaneDone? && !r.moved.s.uncertain && r.moved.s.presentedId != 0
               && r.moved.s.presented == [BLACK, WHITE]
               && r.moved.panel.image == [BLACK, BLACK]
  {
    hide CeilDiv, Picture, Size, Sound, Shaped, Repaint, PanelShaped, Found, Tick, PlaneComposed, Covered;
    SmearedSound();
    var s, p := Smeared(), Pumped(SmearedPanel());
    SoundShaped(s);
    SmearedStroke();
    TickIdle(s, p, now, true);
    RepaintDone(s, p, now, Latest);
    RepaintEffect(s, p, now, Latest, []);
    assert 1 < Size(s.w, s.h);
    UnitCell(0, 0);
    UnitCell(0, 1);
  }
}
