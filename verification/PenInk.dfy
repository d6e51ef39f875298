/** What a pen leaves on the local plane: nothing before a contact begins where
    drawing is allowed, and then one line along the points of the contact. */
module PenInk {
  import opened Geometry
  import opened Pixels
  import opened Raster
  import opened Tiles
  import opened Ink
  import opened Refresh
  import opened Receiver
  import Core
  import C = Composition
  import R = Results

  /** Drawing is off, paused, too early for this report, or there is no picture yet
      to draw on. */
  predicate Shut(u: Surface, now: nat, physical: bool) {
    !u.localInk || u.inkPaused || (physical && now < u.inkNotBefore) || u.core.presentedId == 0
  }

  predicate Begins(i: PenInput) {
    i.Inking? && i.record.phase == Down
  }

  /** A shut surface, and one that waits for a contact to begin, stays as it is:
      nothing is drawn, frozen or cancelled by records of contacts that began
      before, however many. */
  lemma {:induction false} NoContactNoInk(u: Surface, inputs: seq<PenInput>, now: nat, physical: bool, freezeOnDown: bool)
    requires SurfaceShaped(u)
    requires Shut(u, now, physical) || (u.inkNeedsDown && forall k :: 0 <= k < |inputs| ==> !Begins(inputs[k]))
    ensures var i := PenSteps(u, inputs, now, physical, freezeOnDown);
            i.u.core == u.core && i.u.inkFrozen == u.inkFrozen && i.terminals == []
    decreases |inputs|
  {
    hide SurfaceShaped, PenStep, Shut, Begins;
    if inputs != [] {
      PenStepShaped(u, inputs[0], now, physical, freezeOnDown);
      StepDrawsNothing(u, inputs[0], now, physical, freezeOnDown);
      assert forall k :: 0 <= k < |inputs[1..]| ==> inputs[1..][k] == inputs[k + 1];
      NoContactNoInk(PenStep(u, inputs[0], now, physical, freezeOnDown).u, inputs[1..], now, physical, freezeOnDown);
    }
  }

  lemma StepDrawsNothing(u: Surface, i: PenInput, now: nat, physical: bool, freezeOnDown: bool)
    requires SurfaceShaped(u)
    requires Shut(u, now, physical) || (u.inkNeedsDown && !Begins(i))
    ensures var t := PenStep(u, i, now, physical, freezeOnDown);
            && t.u.core == u.core && t.u.inkFrozen == u.inkFrozen && t.terminals == []
            && (Shut(u, now, physical) ==> Shut(t.u, now, physical))
            && (u.inkNeedsDown && !Begins(i) ==> t.u.inkNeedsDown)
  {
    hide Core.Shaped, OnPanel, InkRecord;
    if i.Inking? {
      RecordDrawsNothing(Followed(u, i.record), i.record, now, physical, freezeOnDown);
    }
  }

  lemma RecordDrawsNothing(u: Surface, r: PenRecord, now: nat, physical: bool, freezeOnDown: bool)
    requires SurfaceShaped(u)
    requires Shut(u, now, physical) || (u.inkNeedsDown && r.phase != Down)
    ensures var t := InkRecord(u, r, now, physical, freezeOnDown);
            && t.u.core == u.core && t.u.inkFrozen == u.inkFrozen && t.terminals == []
            && (Shut(u, now, physical) ==> Shut(t.u, now, physical))
            && (u.inkNeedsDown && r.phase != Down ==> t.u.inkNeedsDown)
  {
    hide SurfaceShaped, Drawn, Core.Freeze;
  }

  // ---------------------------------------------------------------- contacts

  /** Line after line through the points, starting where the pen stands. */
  ghost function Polyline(w: nat, h: nat, p: Plane, from: Point, points: seq<Point>, radius: nat, erase: bool): (r: Plane)
    requires w > 0 && |p.luma| == |p.alpha| == Size(w, h)
    requires OnPanel(w, h, from) && forall k :: 0 <= k < |points| ==> OnPanel(w, h, points[k])
    ensures |r.luma| == |r.alpha| == Size(w, h)
    decreases |points|
  {
    if points == [] then p
    else Polyline(w, h, InkLine(w, h, p, from, points[0], radius, erase), points[0], points[1..], radius, erase)
  }

  /** The pixel of the panel that is nearest to the pen. */
  function Spot(core: Core.State, r: PenRecord): Point
    requires core.w > 0 && core.h > 0
  {
    Point(if r.x < core.w then r.x else core.w - 1, if r.y < core.h then r.y else core.h - 1)
  }

  /** The records of one contact on the panel. */
  function Points(core: Core.State, records: seq<PenRecord>): (r: seq<Point>)
    requires core.w > 0 && core.h > 0
    ensures |r| == |records| && forall k :: 0 <= k < |r| ==> r[k] == Spot(core, records[k]) && OnPanel(core.w, core.h, r[k])
  {
    seq(|records|, k requires 0 <= k < |records| => Spot(core, records[k]))
  }

  /** A contact under way on an open surface. */
  predicate Drawing(u: Surface, now: nat, physical: bool) {
    !Shut(u, now, physical) && !u.inkNeedsDown && !u.penNeedsDown && u.penPoint.Some?
  }

  ghost predicate OneContact(records: seq<PenRecord>, erase: bool) {
    forall k :: 0 <= k < |records| ==> records[k].phase == Move && records[k].erase == erase
  }

  lemma InkSized(core: Core.State)
    requires Core.Shaped(core)
    ensures core.w > 0 && core.h > 0 && |core.ink.luma| == |core.ink.alpha| == Size(core.w, core.h)
  {
  }

  /** Moves carry the line on. */
  lemma {:induction false} MovesDraw(u: Surface, records: seq<PenRecord>, erase: bool, now: nat, physical: bool, freezeOnDown: bool)
    requires SurfaceShaped(u) && Drawing(u, now, physical) && OneContact(records, erase)
    ensures u.core.w > 0 && u.core.h > 0 && |u.core.ink.luma| == |u.core.ink.alpha| == Size(u.core.w, u.core.h)
    ensures var i := PenSteps(u, Inkings(records), now, physical, freezeOnDown);
            var radius := if erase then 12 else 2;
            && i.terminals == [] && Drawing(i.u, now, physical)
            && i.u.core == u.core.(ink := Polyline(u.core.w, u.core.h, u.core.ink, u.penPoint.value, Points(u.core, records), radius, erase))
    decreases |records|
  {
    hide Core.Shaped, InkLine, PenStep, Drawing, Size;
    InkSized(u.core);
    var inputs := Inkings(records);
    if records != [] {
      assert inputs[1..] == Inkings(records[1..]);
      assert Points(u.core, records)[1..] == Points(u.core, records[1..]);
      PenStepShaped(u, inputs[0], now, physical, freezeOnDown);
      MoveDraws(u, records[0], now, physical, freezeOnDown);
      var v := PenStep(u, inputs[0], now, physical, freezeOnDown).u;
      assert Points(v.core, records[1..]) == Points(u.core, records[1..]);
      MovesDraw(v, records[1..], erase, now, physical, freezeOnDown);
    }
  }

  lemma MoveDraws(u: Surface, r: PenRecord, now: nat, physical: bool, freezeOnDown: bool)
    requires SurfaceShaped(u) && Drawing(u, now, physical) && r.phase == Move
    ensures u.core.w > 0 && u.core.h > 0 && |u.core.ink.luma| == |u.core.ink.alpha| == Size(u.core.w, u.core.h)
    ensures var t := PenStep(u, Inking(r), now, physical, freezeOnDown);
            var point := Spot(u.core, r);
            && t.terminals == [] && Drawing(t.u, now, physical) && t.u.penPoint == Some(point)
            && t.u.core == u.core.(ink := InkLine(u.core.w, u.core.h, u.core.ink, u.penPoint.value, point,
                                                  if r.erase then 12 else 2, r.erase))
  {
    hide Core.Shaped, InkLine, Size;
    InkSized(u.core);
  }

  /** A contact that begins on an open surface draws the line through all of its
      points and nothing else, and freezes the background at its start if that is
      wanted. */
  lemma ContactDraws(u: Surface, down: PenRecord, moves: seq<PenRecord>, now: nat, physical: bool, freezeOnDown: bool)
    requires SurfaceShaped(u) && !Shut(u, now, physical) && u.penPoint.None?
    requires down.phase == Down && OneContact(moves, down.erase)
    ensures u.core.w > 0 && u.core.h > 0 && |u.core.ink.luma| == |u.core.ink.alpha| == Size(u.core.w, u.core.h)
    ensures var i := PenSteps(u, Inkings([down] + moves), now, physical, freezeOnDown);
            var points := Points(u.core, [down] + moves);
            && Drawing(i.u, now, physical)
            && i.u.core.ink == Polyline(u.core.w, u.core.h, u.core.ink, points[0], points, if down.erase then 12 else 2, down.erase)
            && i.u.inkFrozen == (u.inkFrozen || freezeOnDown)
            && (u.inkFrozen || !freezeOnDown ==> i.u.core == u.core.(ink := i.u.core.ink) && i.terminals == [])
            && (!u.inkFrozen && freezeOnDown ==>
                  && i.u.core == Core.Freeze(u.core).0.(ink := i.u.core.ink)
                  && i.terminals == Core.Freeze(u.core).1)
  {
    hide Core.Shaped, InkLine, PenStep, Drawing, Size;
    InkSized(u.core);
    var records := [down] + moves;
    var inputs := Inkings(records);
    assert inputs[1..] == Inkings(moves);
    PenStepShaped(u, inputs[0], now, physical, freezeOnDown);
    DownDraws(u, down, now, physical, freezeOnDown);
    var v := PenStep(u, inputs[0], now, physical, freezeOnDown).u;
    assert Points(u.core, records)[1..] == Points(v.core, moves);
    MovesDraw(v, moves, down.erase, now, physical, freezeOnDown);
    MovesKeepFlag(v, moves, now, physical, freezeOnDown);
  }

  lemma DownDraws(u: Surface, r: PenRecord, now: nat, physical: bool, freezeOnDown: bool)
    requires SurfaceShaped(u) && !Shut(u, now, physical) && u.penPoint.None? && r.phase == Down
    ensures u.core.w > 0 && u.core.h > 0 && |u.core.ink.luma| == |u.core.ink.alpha| == Size(u.core.w, u.core.h)
    ensures var t := PenStep(u, Inking(r), now, physical, freezeOnDown);
            var point := Spot(u.core, r);
            var freezes := freezeOnDown && !u.inkFrozen;
            && Drawing(t.u, now, physical) && t.u.penPoint == Some(point)
            && t.u.inkFrozen == (u.inkFrozen || freezeOnDown)
            && t.terminals == (if freezes then Core.Freeze(u.core).1 else [])
            && t.u.core == (if freezes then Core.Freeze(u.core).0 else u.core).(
                             ink := InkLine(u.core.w, u.core.h, u.core.ink, point, point, if r.erase then 12 else 2, r.erase))
  {
    hide Core.Shaped, InkLine, Size;
    InkSized(u.core);
  }

  lemma {:induction false} MovesKeepFlag(u: Surface, records: seq<PenRecord>, now: nat, physical: bool, freezeOnDown: bool)
    requires SurfaceShaped(u) && forall k :: 0 <= k < |records| ==> records[k].phase == Move
    ensures PenSteps(u, Inkings(records), now, physical, freezeOnDown).u.inkFrozen == u.inkFrozen
    decreases |records|
  {
    hide SurfaceShaped, InkLine;
    if records != [] {
      var inputs := Inkings(records);
      assert inputs[1..] == Inkings(records[1..]);
      PenStepShaped(u, inputs[0], now, physical, freezeOnDown);
      MovesKeepFlag(PenStep(u, inputs[0], now, physical, freezeOnDown).u, records[1..], now, physical, freezeOnDown);
    }
  }

  /** The end of a contact is the end of its line: whatever comes next has to begin
      anew, from its own first point. So does whatever follows an ignored report. */
  lemma ContactEnds(u: Surface, i: PenInput, now: nat, physical: bool, freezeOnDown: bool)
    requires SurfaceShaped(u) && !Shut(u, now, physical) && !u.inkNeedsDown && !u.penNeedsDown
    requires i.Inking? ==> i.record.phase == Up || i.record.phase == Cancel
    ensures var t := PenStep(u, i, now, physical, freezeOnDown).u;
            t.core == u.core && t.inkNeedsDown && t.penNeedsDown && t.penPoint.None?
  {
    hide SurfaceShaped, InkLine;
  }

  // ----------------------------------------------------------------- reports

  function Flat(reports: seq<seq<PenRecord>>): seq<PenRecord> {
    if reports == [] then [] else Flat(reports[..|reports| - 1]) + reports[|reports| - 1]
  }

  /** Whether a call reaches the surface: it is in time, no menu covers the surface,
      and somebody wants the pen. */
  predicate Heard(s: State, r: PenReports, now: nat)
    requires s.surface.Some?
  {
    (r.physical ==> now >= s.inputNotBefore) && r.listening && (r.forwarding || s.surface.value.localInk)
  }

  /** A call that is heard hands on all of its records in order; otherwise none. */
  lemma {:induction false} HeardInOrder(reports: seq<seq<PenRecord>>)
    ensures PenInputs(reports, true) == Inkings(Flat(reports))
    ensures |PenInputs(reports, false)| == |reports| && forall k :: 0 <= k < |reports| ==> PenInputs(reports, false)[k] == Ignored
  {
    if reports != [] {
      HeardInOrder(reports[..|reports| - 1]);
    }
  }

  lemma {:induction false} IgnoredDrawNothing(u: Surface, inputs: seq<PenInput>, now: nat, physical: bool, freezeOnDown: bool)
    requires SurfaceShaped(u) && forall k :: 0 <= k < |inputs| ==> inputs[k] == Ignored
    ensures var i := PenSteps(u, inputs, now, physical, freezeOnDown);
            && i.u.core == u.core && i.u.inkFrozen == u.inkFrozen && i.u.localInk == u.localInk && i.terminals == []
            && (inputs != [] ==> i.u.inkNeedsDown && i.u.penNeedsDown && i.u.penPoint.None?)
    decreases |inputs|
  {
    hide SurfaceShaped, InkRecord;
    if inputs != [] {
      PenStepShaped(u, inputs[0], now, physical, freezeOnDown);
      IgnoredDrawNothing(PenStep(u, inputs[0], now, physical, freezeOnDown).u, inputs[1..], now, physical, freezeOnDown);
    }
  }

  /** A call of the pen that is not heard, or comes to a shut surface, leaves the ink
      and the barrier as they are; and if it was kept from the surface by a menu or
      by want of interest, what follows has to begin a new contact. */
  lemma UnheardDrawsNothing(s: State, panel: Core.Panel, r: PenReports, now: nat)
    requires R.Sane(s) && Shaped(s) && PanelFits(s, panel) && s.surface.Some?
    requires !Heard(s, r, now) || Shut(s.surface.value, now, r.physical)
    requires PenReport(s, panel, r, now).PanelDone?
    ensures var u, t := s.surface.value, PenReport(s, panel, r, now).value.step.s;
            && t.surface.Some?
            && t.surface.value.core.ink.luma == u.core.ink.luma && t.surface.value.core.ink.alpha == u.core.ink.alpha
            && t.surface.value.inkFrozen == u.inkFrozen
            && (!Heard(s, r, now) && (r.physical ==> now >= s.inputNotBefore) && r.reports != [] ==>
                  t.surface.value.inkNeedsDown && t.surface.value.penNeedsDown && t.surface.value.penPoint.None?)
  {
    hide R.Sane, Core.Shaped, Core.PanelShaped, Size, C.Sound, PenSteps, TerminalResult, OnPanel, Shut, R.FrozenCore, PenInputs,
         PenReport;
    R.SaneParts(s);
    var u, inputs := s.surface.value, Reaching(s, r, now);
    HeardInOrder(r.reports);
    PenReportEnds(s, panel, r, now);
    if Heard(s, r, now) {
      NoContactNoInk(u, inputs, now, r.physical, s.freezeOnPenDown);
    } else {
      IgnoredDrawNothing(u, inputs, now, r.physical, s.freezeOnPenDown);
    }
  }

  /** The presentation after the records changes neither samples nor flags. */
  lemma PenReportEnds(s: State, panel: Core.Panel, r: PenReports, now: nat)
    requires R.Sane(s) && Shaped(s) && PanelFits(s, panel) && s.surface.Some?
    requires PenReport(s, panel, r, now).PanelDone?
    ensures var v := PenSteps(s.surface.value, Reaching(s, r, now), now, r.physical, s.freezeOnPenDown).u;
            var t := PenReport(s, panel, r, now).value.step.s;
            && t.surface.Some?
            && t.surface.value.core.ink.luma == v.core.ink.luma && t.surface.value.core.ink.alpha == v.core.ink.alpha
            && t.surface.value == v.(core := t.surface.value.core)
  {
    hide R.Sane, Core.Shaped, Core.PanelShaped, Size, Core.PresentPlane, C.Sound, PenSteps, TerminalResult, OnPanel, R.FrozenCore, Reaching;
    R.SaneParts(s);
    var u, inputs := s.surface.value, Reaching(s, r, now);
    PenStepsShaped(u, inputs, now, r.physical, s.freezeOnPenDown);
    var v := PenSteps(u, inputs, now, r.physical, s.freezeOnPenDown).u;
    assert C.Sound(v.core) by { R.PenStepsKept(u, inputs, now, r.physical, s.freezeOnPenDown); }
    InkStands(v.core, panel, now);
  }

  /** A call that is heard, with the records of one contact however they are split
      into reports, draws the line through its points. */
  lemma ContactReported(s: State, panel: Core.Panel, r: PenReports, down: PenRecord, moves: seq<PenRecord>, now: nat)
    requires R.Sane(s) && Shaped(s) && PanelFits(s, panel) && s.surface.Some?
    requires Heard(s, r, now) && Flat(r.reports) == [down] + moves
    requires !Shut(s.surface.value, now, r.physical) && s.surface.value.penPoint.None?
    requires down.phase == Down && OneContact(moves, down.erase)
    requires PenReport(s, panel, r, now).PanelDone?
    ensures var core, t := s.surface.value.core, PenReport(s, panel, r, now).value.step.s;
            && core.w > 0 && core.h > 0 && |core.ink.luma| == |core.ink.alpha| == Size(core.w, core.h)
            && t.surface.Some?
            && var points := Points(core, [down] + moves);
               var line := Polyline(core.w, core.h, core.ink, points[0], points, if down.erase then 12 else 2, down.erase);
               && t.surface.value.core.ink.luma == line.luma && t.surface.value.core.ink.alpha == line.alpha
               && t.surface.value.inkFrozen == (s.surface.value.inkFrozen || s.freezeOnPenDown)
  {
    hide R.Sane, Core.Shaped, Core.PanelShaped, Size, PenSteps, TerminalResult, OnPanel, Shut, PenInputs, PenReport, Polyline, PanelFits;
    R.SaneParts(s);
    InkSized(s.surface.value.core);
    HeardInOrder(r.reports);
    PenReportEnds(s, panel, r, now);
    ContactDraws(s.surface.value, down, moves, now, r.physical, s.freezeOnPenDown);
  }

  /** Presenting ink changes no sample of it. */
  lemma InkStands(core: Core.State, panel: Core.Panel, now: nat)
    requires C.Sound(core) && Core.Shaped(core) && Core.PanelShaped(Size(core.w, core.h), panel)
    ensures var r := Core.PresentPlane(core, panel, now, Latest);
            r.PlaneDone? ==> r.moved.s.ink.luma == core.ink.luma && r.moved.s.ink.alpha == core.ink.alpha
  {
    hide Core.Shaped, Core.PanelShaped, Size, Core.Tick, C.Sound, Core.PlaneDamage, Core.PlaneDecision, Painted, Core.Picture,
         Core.SubmitTo, MergeTiled;
    C.TickFrame(core, panel, now, true);
    Core.TickShaped(core, panel, now, true);
  }
}
