/** What results tell the producer: how a frame ended and why, which credit is left,
    and that a repeated overlay command does nothing. */
module Answers {
  import opened Geometry
  import opened Pixels
  import opened Raster
  import opened Regions
  import opened Tiles
  import opened Ink
  import opened Refresh
  import opened Receiver
  import Core
  import C = Composition
  import Semantic
  import L = Link
  import R = Results
  import T = Timing
  import W = Waveforms

  // ------------------------------------------------------------------ credits

  /** A frame that was read has the decoded bytes it declared. */
  lemma {:induction false} DeclaredIsDecoded(codec: Semantic.Codec, s: Semantic.SurfaceState, sent: seq<Semantic.WireRegion>,
                                             regions: seq<Region>)
    requires Semantic.AllCarried(codec, s, sent, regions)
    ensures DecodedCost(sent) == TotalArea(Rects(regions)) * Semantic.BytesPerPixel(s.format)
  {
    hide Semantic.Carried, ValidRect, Area, Semantic.BytesPerPixel;
    if sent != [] {
      var n := |sent| - 1;
      Semantic.ScanSteps(codec, s, sent, regions);
      DeclaredIsDecoded(codec, s, sent[..n], regions[..n]);
      assert Rects(regions)[..n] == Rects(regions[..n]);
      assert sent[n].decodedLen == Area(regions[n].rect) * Semantic.BytesPerPixel(s.format) by {
        CarriedLength(codec, s.format, sent[n], regions[n]);
      }
      Semantic.Distributes(TotalArea(Rects(regions[..n])), Area(regions[n].rect), Semantic.BytesPerPixel(s.format));
    }
  }

  lemma CarriedLength(codec: Semantic.Codec, format: Format, sent: Semantic.WireRegion, r: Region)
    requires Semantic.Carried(codec, format, sent, r)
    ensures sent.decodedLen == Area(r.rect) * Semantic.BytesPerPixel(format)
  {
    hide Area, Semantic.BytesPerPixel;
  }

  /** Credit is whole while nothing is pending, and an accepted frame takes one
      credit and the bytes it declared until it has its result. */
  lemma CreditsCount(s: State, codec: Semantic.Codec, f: Semantic.WireFrame, now: nat)
    requires R.Sane(s) && Shaped(s)
    ensures !HasPending(s) ==>
              && Credits(s) == s.limits.maxInflight
              && (s.byteCreditsOn ==> ByteCredits(s) == s.limits.maxInflightBytes)
    ensures L.Accepts(s, codec, f) ==>
              var t := AcceptFrame(s, codec, f, now).s;
              && HasPending(t)
              && Credits(t) + 1 == s.limits.maxInflight
              && (s.byteCreditsOn ==> ByteCredits(t) == SatSub(s.limits.maxInflightBytes, DecodedCost(f.regions)))
  {
    hide R.Sane, Core.Shaped, Semantic.Validated, AcceptFrame, EarlyRejection, Core.CommitCheck;
    if L.Accepts(s, codec, f) {
      R.PassedEarly(s, f);
      L.AcceptanceShape(s, codec, f, now);
      var ss := SemanticSurface(s);
      var frame := Semantic.Validated(codec, f, ss).value;
      Semantic.AcceptedExactly(codec, f, ss, frame);
      DeclaredIsDecoded(codec, ss, f.regions, frame.regions);
      PendingBytes(s, codec, f, now);
    }
  }

  lemma PendingBytes(s: State, codec: Semantic.Codec, f: Semantic.WireFrame, now: nat)
    requires R.Sane(s) && Shaped(s) && L.Accepts(s, codec, f)
    ensures var t := AcceptFrame(s, codec, f, now).s;
            && t.limits == s.limits && t.byteCreditsOn == s.byteCreditsOn
            && t.surface.Some? && t.surface.value.core.pending.Some?
            && t.surface.value.core.pending.value.decodedBytes
               == Semantic.Validated(codec, f, SemanticSurface(s)).value.decodedBytes
  {
    hide R.Sane, Core.Shaped, Semantic.Validated, EarlyRejection, Core.CommitCheck, ApplyAll, TerminalResult;
  }

  /** Want of credit is the answer if and only if the frame is one too many or
      carries more bytes than are left. */
  lemma NoCreditExactly(s: State, f: Semantic.WireFrame)
    requires !Frozen(s) && forall k :: 0 <= k < |f.regions| ==> f.regions[k].encoding in s.encodings
    ensures var inflight := if HasPending(s) then 1 else 0;
            var bytes := if HasPending(s) then s.surface.value.core.pending.value.decodedBytes else 0;
            EarlyRejection(s, f) == Some(NoCredit) <==>
            || inflight >= s.limits.maxInflight
            || (s.byteCreditsOn && DecodedCost(f.regions) > 0 && bytes + DecodedCost(f.regions) > s.limits.maxInflightBytes)
  {
  }

  /** Frames with a fault in their header are refused with its name, the first in
      this order, and change nothing. */
  lemma HeaderFaults(s: State, codec: Semantic.Codec, f: Semantic.WireFrame, now: nat)
    requires R.Sane(s) && Shaped(s) && EarlyRejection(s, f).None?
    ensures s.surface.Some?
    ensures var u := s.surface.value;
            var step := AcceptFrame(s, codec, f, now);
            var reason :=
              if f.surfaceId != u.surfaceId || f.generation != u.generation then Receiver.Reason.WrongSurface
              else if f.frameId <= u.core.logicalId || !f.intent.IntentOf? then ProtocolState
              else if f.regions == [] || |f.regions| > s.limits.maxRegions || |f.regions| > 65535 then Receiver.Reason.BadRegion
              else Receiver.Reason.NoReason;
            reason != Receiver.Reason.NoReason ==>
              step == Receiver.Step(s, [ImmediateResult(s, f, RejectedCode, reason)])
  {
    hide R.Sane, Core.Shaped, EarlyRejection, CommitFrame, Semantic.Scan, Disjoint, ImmediateResult;
    R.PassedEarly(s, f);
  }

  /** A raw frame whose pixels were harmed on the way is refused for its checksum. */
  lemma HarmedIsRefused(s: State, codec: Semantic.Codec, f: Semantic.WireFrame, regions: seq<Region>, now: nat)
    requires R.Sane(s) && Shaped(s) && EarlyRejection(s, f).None? && s.surface.Some?
    requires Semantic.HeaderError(f, SemanticSurface(s)).None? && |f.regions| == |regions|
    requires var format := s.surface.value.core.format;
             && (forall k :: 0 <= k < |regions| ==>
                   f.regions[k].(crc := codec.hash(regions[k].pixels)) == Semantic.RawRegion(codec, format, regions[k]))
             && Semantic.TotalPixels(regions) * Semantic.BytesPerPixel(format) <= s.limits.maxFrameBytes
    requires ShapesOk(s.surface.value.core.w, s.surface.value.core.h, regions) && Disjoint(regions)
    requires !Semantic.Unharmed(codec, f.regions, regions)
    ensures AcceptFrame(s, codec, f, now)
         == Receiver.Step(s, [ImmediateResult(s, f, RejectedCode, Receiver.Reason.BadCrc)])
  {
    hide R.Sane, Core.Shaped, EarlyRejection, CommitFrame, Semantic.Validated, ShapeOk, Overlaps, ImmediateResult, Semantic.RawRegion,
         Semantic.Unharmed, Semantic.TotalPixels;
    Semantic.RawChecked(codec, f, SemanticSurface(s), regions);
  }

  /** An accepted frame is pending with its own content and intent; what says
      nothing about its content counts as mixed. */
  lemma ContentTaken(s: State, codec: Semantic.Codec, f: Semantic.WireFrame, now: nat)
    requires R.Sane(s) && Shaped(s) && L.Accepts(s, codec, f)
    ensures var t := AcceptFrame(s, codec, f, now).s;
            && t.surface.Some? && t.surface.value.core.pending.Some?
            && t.surface.value.core.policy == s.surface.value.core.policy && t.automaticCleanup == s.automaticCleanup
            && var p := t.surface.value.core.pending.value;
               && f.intent == Semantic.IntentOf(p.intent) && p.acceptedAt == now
               && p.content == if f.content == UnspecifiedContent then Mixed else f.content
  {
    hide R.Sane, Core.Shaped, Semantic.Scan, EarlyRejection, Core.CommitCheck, ApplyAll, TerminalResult, Disjoint;
  }

  /** So the update that shows it is driven as configured for the content class the
      producer named. */
  lemma PollDrivesContent(s: State, codec: Semantic.Codec, f: Semantic.WireFrame, at: nat, panel: Core.Panel, now: nat, idle: bool)
    requires R.Sane(s) && Shaped(s) && L.Accepts(s, codec, f)
    requires Shaped(AcceptFrame(s, codec, f, at).s) && PanelFits(AcceptFrame(s, codec, f, at).s, panel)
    ensures f.intent.IntentOf?
    ensures var p := Poll(AcceptFrame(s, codec, f, at).s, panel, now, idle);
            p.panel.log != panel.log ==>
              exists d :: && W.Logs(panel, p.panel, d)
                          && (!d.complete ==> W.AsConfigured(s.surface.value.core.policy.config, f.intent.intent, f.content, d.waveform))
  {
    hide R.Sane, Core.Shaped, AcceptFrame, Core.Tick, Core.PanelShaped, Size, DebtOf, TerminalResult, W.CompleteDue, Core.AdaptiveDue, L.Accepts;
    ContentTaken(s, codec, f, at);
    var core := AcceptFrame(s, codec, f, at).s.surface.value.core;
    W.TickLogsRight(core, panel, now, false);
    var p := Poll(AcceptFrame(s, codec, f, at).s, panel, now, idle);
    if p.panel.log != panel.log {
      var d :| W.Logs(panel, p.panel, d) && W.Right(core, d);
    }
  }

  // ------------------------------------------------------------------ endings

  /** One result that says how the pending frame ended. */
  predicate Ended(s: State, t: State, results: seq<FrameResult>, code: Code, reason: Receiver.Reason)
    requires HasPending(s)
  {
    && |results| == 1
    && (results[0].surfaceId, results[0].generation) == (s.surface.value.surfaceId, s.surface.value.generation)
    && results[0].frameId == s.surface.value.core.pending.value.frameId
    && (results[0].code, results[0].reason) == (code, reason)
    && results[0].credits == s.limits.maxInflight
    && results[0].logicalId == LogicalId(t) && results[0].presentedId == PresentedId(t)
  }

  /** A poll answers nothing, or the pending frame: presented, and then it is the
      one shown, or rejected for the panel, and then the base is gone. */
  lemma PollAnswers(s: State, panel: Core.Panel, now: nat, idle: bool)
    requires R.Sane(s) && Shaped(s) && PanelFits(s, panel)
    ensures var p := Poll(s, panel, now, idle);
            && p.step.s.surface.Some? == s.surface.Some?
            && (p.step.results == [] || HasPending(s))
            && (HasPending(s) ==>
                  var core, t := s.surface.value.core, p.step.s;
                  || (p.step.results == [] && HasPending(t))
                  || (&& Ended(s, t, p.step.results, PresentedCode, Receiver.Reason.NoReason)
                      && PresentedId(t) == core.pending.value.frameId
                      && t.surface.value.core.presentedBase == core.base && t.surface.value.core.baseValid)
                  || (&& Ended(s, t, p.step.results, RejectedCode, BackendFailed)
                      && PresentedId(t) == PresentedId(s)
                      && !t.surface.value.core.baseValid && LogicalId(t) == 0))
  {
    hide R.Sane, Core.Shaped, Core.Tick, Core.TickInteractive, Core.PanelShaped, Size, C.Sound, DebtOf;
    R.SaneParts(s);
    if s.surface.Some? {
      PolledCore(s.surface.value.core, panel, now, false, false);
      PolledCore(s.surface.value.core, panel, now, idle, true);
    }
  }

  /** The same on the core, for either kind of tick. */
  lemma PolledCore(core: Core.State, panel: Core.Panel, now: nat, idle: bool, interactive: bool)
    requires C.Sound(core) && Core.Shaped(core) && Core.PanelShaped(Size(core.w, core.h), panel)
    ensures var m := if interactive then Core.TickInteractive(core, panel, now, idle) else Core.Tick(core, panel, now, false);
            && (m.terminals == [] || core.pending.Some?)
            && (core.pending.Some? ==>
                  var id := core.pending.value.frameId;
                  || (m.terminals == [] && m.s.pending.Some?)
                  || (&& |m.terminals| == 1 && m.terminals[0].frameId == id && m.terminals[0].outcome == Core.Presented
                      && m.s.pending.None? && m.s.baseValid && m.s.presentedBase == core.base && m.s.presentedId == id)
                  || (&& |m.terminals| == 1 && m.terminals[0].frameId == id && m.terminals[0].outcome == Core.BackendFailure
                      && m.s.pending.None? && !m.s.baseValid && m.s.presentedId == core.presentedId && m.s.logicalId == 0))
  {
    hide Core.Shaped, Core.Tick, Core.RequestCleanup, Core.AdaptiveDue, Core.PanelShaped, Size, C.Sound, Core.SubmitImage, Core.TickDecision;
    C.TickOutcome(core, panel, now, false);
    Core.TickIdle(core, panel, now, false);
    Core.TickShaped(core, panel, now, false);
    if core.pending.None? { QuietCleanup(core, panel, now); }
  }

  lemma QuietCleanup(core: Core.State, panel: Core.Panel, now: nat)
    requires Core.Shaped(core) && Core.PanelShaped(Size(core.w, core.h), panel) && core.pending.None?
    ensures Core.RequestCleanup(core, panel, now).0.terminals == []
  {
    hide Core.Shaped, Core.PanelShaped, Size, Core.Maintenance;
  }

  /** Freezing tells the pending frame so. */
  lemma FreezeAnswers(s: State, now: nat)
    requires HasPending(s) && !Frozen(s) && s.surface.value.core.presentedId != 0
    ensures var r := SetFrozen(s, true, now);
            r.Done? && Ended(s, r.step.s, r.step.results, RejectedCode, InkFrozen) && Frozen(r.step.s)
  {
  }

  /** Replacing the surface, or closing it, tells the pending frame that the session
      went on without it. */
  lemma OpenAnswers(s: State, open: SurfaceOpen, w: nat, h: nat, now: nat)
    requires HasPending(s) && !Frozen(s)
    ensures var r := OpenSurface(s, open, w, h, now);
            r.Done? ==> Ended(s, s, r.step.results, RejectedCode, ProtocolState)
  {
    hide FreshCore, Validate, DebtValid, CarriedDebt, CarriedCleanup, NextGeneration;
  }

  lemma CloseAnswers(s: State)
    requires HasPending(s) && !Frozen(s)
    ensures var r := CloseSurface(s, s.surface.value.surfaceId, s.surface.value.generation);
            Ended(s, s, r.results, RejectedCode, ProtocolState) && r.s.surface.None?
  {
    hide DebtOf;
  }

  /** The surface that replaces another never has its generation, nor the zero that
      no surface has. */
  lemma GenerationsDiffer(s: State, open: SurfaceOpen, w: nat, h: nat, now: nat, again: SurfaceOpen, v: nat, u: nat, later: nat)
    requires OpenSurface(s, open, w, h, now).Done?
    ensures var t := OpenSurface(s, open, w, h, now).step.s;
            && t.surface.Some? && t.surface.value.generation > 0 && t.surface.value.surfaceId == open.surfaceId
            && (OpenSurface(t, again, v, u, later).Done? ==>
                  OpenSurface(t, again, v, u, later).step.s.surface.value.generation != t.surface.value.generation)
  {
    hide FreshCore, Validate, DebtValid, CarriedDebt, CarriedCleanup, TerminalResults;
  }

  /** A cleanup asked for while there is no surface, or still owed by the surface
      that leaves, is owed by the next one, and its first submission is complete. */
  lemma CleanupMovesOver(s: State, panel: Core.Panel, open: SurfaceOpen, w: nat, h: nat, now: nat)
    requires Shaped(s) && PanelFits(s, panel)
    ensures var asked := RequestCleanup(s, panel, now).step.s;
            s.surface.None? ==> asked.surface.None? && asked.cleanupCarried
    ensures OpenSurface(s, open, w, h, now).Done? ==>
              var t := OpenSurface(s, open, w, h, now).step.s;
              && t.surface.Some?
              && t.surface.value.core.forceCleanup ==
                 (s.cleanupCarried || (s.surface.Some? && s.surface.value.core.forceCleanup))
              && DebtOf(t.surface.value.core.policy)
                 == (if s.surface.Some? then DebtOf(s.surface.value.core.policy) else s.debtCarried)
  {
    hide Core.RequestCleanup, Core.Shaped, Core.PanelShaped, Size, Validate, DebtValid, TerminalResults, NextGeneration;
  }

  /** A new surface shows nothing, draws nothing before it is told to, and hears no
      input from before it was there. */
  lemma OpenedBlank(s: State, open: SurfaceOpen, w: nat, h: nat, now: nat)
    requires OpenSurface(s, open, w, h, now).Done?
    ensures var t := OpenSurface(s, open, w, h, now).step.s;
            && t.surface.Some? && t.inputNotBefore == now
            && var u := t.surface.value;
               && !u.localInk && !u.inkFrozen && !u.inkPaused && u.inkNeedsDown && u.penNeedsDown && u.penPoint.None?
               && u.core.presentedId == 0 && !u.core.baseValid && u.core.pending.None?
               && u.core.policy.config == s.policy && u.core.inkWaveform == s.inkWaveform
  {
    hide Size, DebtValid, CarriedDebt, CarriedCleanup, TerminalResults, NextGeneration, Validate;
  }

  /** Only the surface that is named, by both of its names, is closed. */
  lemma ClosesNamed(s: State, surfaceId: nat, generation: nat)
    requires s.surface.Some?
    ensures var r := CloseSurface(s, surfaceId, generation);
            && (r.s.surface.None? <==>
                  surfaceId == s.surface.value.surfaceId && generation == s.surface.value.generation)
            && (r.s.surface.Some? ==> r == Receiver.Step(s, []))
            && (r.s.surface.None? ==>
                  r.s.cleanupCarried == s.surface.value.core.forceCleanup
                  && r.s.debtCarried == DebtOf(s.surface.value.core.policy))
  {
    hide TerminalResult;
  }

  /** Freezing needs something to hold on to: it is refused if and only if nothing
      was presented. */
  lemma FreezeNeedsPicture(s: State, now: nat)
    requires s.surface.Some? && !Frozen(s)
    ensures var r := SetFrozen(s, true, now);
            && (r.Done? <==> s.surface.value.core.presentedId != 0)
            && (r.Done? ==> Frozen(r.step.s) && r.step.s.surface.value.inkNeedsDown
                            && r.step.s.surface.value.inkNotBefore >= now)
  {
    hide TerminalResult;
  }

  /** A profile or a refresh setting outlives the surface it was made on: the next
      surface has it. Without a surface a changed profile is owed a cleanup. */
  lemma SettingsMoveOver(s: State, panel: Core.Panel, config: Config, now: nat)
    requires Shaped(s) && PanelFits(s, panel)
    ensures var r := SetProfile(s, panel, config, now);
            && (r.PanelDone? ==> r.value.step.s.policy == config)
            && (s.surface.None? ==> r.PanelDone? && r.value.step.s.cleanupCarried == (s.cleanupCarried || config != s.policy))
    ensures var r := UpdateRefresh(s, config);
            && (r.Done? ==> r.step.s.policy == config && r.step.s.cleanupCarried == s.cleanupCarried)
            && (s.surface.Some? ==> (r.Done? <==> Validate(config).None?))
            && (r.Done? && s.surface.Some? ==>
                  r.step.s.surface.Some? && r.step.s.surface.value.core.policy.config == config
                  && DebtOf(r.step.s.surface.value.core.policy) == DebtOf(s.surface.value.core.policy))
  {
    hide Core.Shaped, Core.PanelShaped, Size, Core.ChangeProfile, TerminalResult, Validate;
  }

  /** A poll with nothing pending touches the panel if and only if cleanups are
      automatic and this one is earned. */
  lemma PollCleans(s: State, panel: Core.Panel, now: nat, idle: bool)
    requires R.Sane(s) && Shaped(s) && PanelFits(s, panel) && s.surface.Some? && !HasPending(s)
    ensures Poll(s, panel, now, idle).panel != panel <==>
            var core := s.surface.value.core;
            && s.automaticCleanup && idle
            && core.presentedId != 0 && core.lastPartialAt.Some?
            && T.Earns(core.policy.config.profile, Size(core.w, core.h), core.partialPixels, SatSub(now, core.lastPartialAt.value))
            && (core.lastIdleFailure.Some? ==> now >= core.lastIdleFailure.value + 5_000_000)
  {
    hide R.Sane, Core.Shaped, Core.Tick, Core.RequestCleanup, Core.PanelShaped, Size, C.Sound, DebtOf, T.Earns, TerminalResult, Core.AdaptiveDue, R.FrozenCore;
    R.SaneParts(s);
    var core := s.surface.value.core;
    Core.TickIdle(core, panel, now, false);
    T.BudgetMeans(core, now);
    if core.presentedId != 0 { T.CleanupTouches(core, panel, now); }
  }

  // ----------------------------------------------------------------- overlays

  /** No event takes a sequence number back, and an overlay command uses up its
      own. */
  lemma SequenceKept(s: State, panel: Core.Panel, codec: Semantic.Codec, e: R.Event)
    requires R.Sane(s) && Shaped(s) && PanelFits(s, panel) && R.Enabled(s, panel, e) && R.Handle(s, panel, codec, e).PanelDone?
    ensures var t := R.Handle(s, panel, codec, e).value.step.s;
            && t.overlaySequence >= s.overlaySequence
            && (e.OverlayEvent? ==> t.overlaySequence >= e.update.sequence)
  {
    hide R.Sane, Core.Shaped, Core.Tick, Core.TickInteractive, Core.RequestCleanup, Core.ChangeProfile, Core.UpdateConfig, Core.PanelShaped,
         Size, TerminalResult, PenReport, UpdateOverlay, PresentPlanes, CommitFrame, Semantic.Validated, EarlyRejection,
         FreshCore, Validate, DebtValid, CarriedDebt, Core.Freeze, SemanticReason;
    R.SaneParts(s);
    match e
    case PenEvent(pen, now) => PenSequence(s, panel, pen, now);
    case OverlayEvent(update, now) => OverlaySequence(s, panel, update, now);
    case MenuEvent(luma, alpha, now) => MenuSequence(s, panel, luma, alpha, now);
    case ClearInkEvent(now) => ClearSequence(s, panel, now);
    case FrameEvent(frame, now) => FrameSequence(s, codec, frame, now);
    case _ =>
  }

  lemma PlanesSequence(s: State, panel: Core.Panel, core: Core.State, now: nat, intent: Intent)
    requires s.surface.Some? && Core.Shaped(core) && Core.PanelShaped(Size(core.w, core.h), panel)
    ensures var r := PresentPlanes(s, panel, core, now, intent); r.PanelDone? ==> r.value.step.s.overlaySequence == s.overlaySequence
  {
    hide Core.Shaped, Core.PanelShaped, Size, Core.PresentPlane;
  }

  lemma MenuSequence(s: State, panel: Core.Panel, luma: seq<bv8>, alpha: seq<bv8>, now: nat)
    requires Shaped(s) && PanelFits(s, panel)
    requires s.surface.Some? ==> |luma| == |alpha| == Size(s.surface.value.core.w, s.surface.value.core.h)
    ensures var r := RenderMenu(s, panel, luma, alpha, now); r.PanelDone? ==> r.value.step.s.overlaySequence == s.overlaySequence
  {
    hide Core.PanelShaped, Size, PresentPlanes, DebtOf;
    if s.surface.Some? {
      var core := s.surface.value.core;
      PlanesSequence(s, panel, core.(menu := Plane(luma, alpha, AllZero(alpha), core.menu.dirty)), now, Settled);
    }
  }

  lemma ClearSequence(s: State, panel: Core.Panel, now: nat)
    requires Shaped(s) && PanelFits(s, panel)
    ensures var r := ClearInk(s, panel, now); r.PanelDone? ==> r.value.step.s.overlaySequence == s.overlaySequence
  {
    hide Core.PanelShaped, Size, PresentPlanes;
    if s.surface.Some? {
      var u := s.surface.value;
      PlanesSequence(s.(surface := Some(Rearmed(u, now))), panel, u.core.(ink := Cleared(u.core.ink)), now, Latest);
    }
  }

  lemma OverlaySequence(s: State, panel: Core.Panel, u: OverlayUpdate, now: nat)
    requires Shaped(s) && PanelFits(s, panel)
    ensures var r := UpdateOverlay(s, panel, u, now);
            r.PanelDone? ==> r.value.step.s.overlaySequence == Max(s.overlaySequence, u.sequence)
  {
    hide Core.Shaped, Core.PanelShaped, Size, PresentPlanes, OverlayEdited, PatchOk;
    if OverlayAcceptable(s, u) {
      EditedShaped(s.surface.value, u, now);
      var edited := OverlayEdited(s.surface.value, u, now);
      PlanesSequence(Sequenced(s, u).(surface := Some(edited)), panel, edited.core, now, Settled);
    }
  }

  lemma PenSequence(s: State, panel: Core.Panel, pen: PenReports, now: nat)
    requires Shaped(s) && PanelFits(s, panel)
    ensures var r := PenReport(s, panel, pen, now); r.PanelDone? ==> r.value.step.s.overlaySequence == s.overlaySequence
  {
    hide Core.Shaped, Core.PanelShaped, Size, PresentPlanes, PenSteps, Reaching, TerminalResult, OnPanel;
    if s.surface.Some? {
      var inputs := Reaching(s, pen, now);
      PenStepsShaped(s.surface.value, inputs, now, pen.physical, s.freezeOnPenDown);
      var u := PenSteps(s.surface.value, inputs, now, pen.physical, s.freezeOnPenDown).u;
      PlanesSequence(s.(surface := Some(u)), panel, u.core, now, Latest);
    }
  }

  lemma FrameSequence(s: State, codec: Semantic.Codec, f: Semantic.WireFrame, now: nat)
    requires Shaped(s)
    ensures AcceptFrame(s, codec, f, now).s.overlaySequence == s.overlaySequence
  {
    hide Core.Shaped, Semantic.Validated, EarlyRejection, Core.Commit, SemanticReason, CommitReason, TerminalResult, ImmediateResult;
  }

  /** A command is refused, and only its number used up, if and only if it is for
      another surface, its number is not new, it is longer than a frame may be, its
      patch does not fit, or it asks for nothing. */
  lemma OverlayRefusedExactly(s: State, panel: Core.Panel, u: OverlayUpdate, now: nat)
    requires Shaped(s) && PanelFits(s, panel) && s.surface.Some?
    ensures var v := s.surface.value;
            var ours := u.surfaceId == v.surfaceId && u.generation == v.generation;
            var patch := u.rect.Some? && ValidRect(v.core.w, v.core.h, u.rect.value) && |u.luma| == |u.alpha| == Area(u.rect.value);
            var bare := u.rect.None? && |u.luma| + |u.alpha| == 0 && (u.clear || u.localInk.Some?);
            OverlayAcceptable(s, u) <==>
            ours && u.sequence > s.overlaySequence && |u.luma| + |u.alpha| <= s.limits.maxFrameBytes && (patch || bare)
    ensures !OverlayAcceptable(s, u) ==>
              UpdateOverlay(s, panel, u, now)
              == PanelDone(Panelled(Receiver.Step(s.(overlaySequence := Max(s.overlaySequence, u.sequence)), []), panel))
  {
    hide Core.PanelShaped, Size, Core.PresentPlane, OverlayEdited, Area, ValidRect;
  }

  /** A command whose number is not new does nothing at all. */
  lemma StaleOverlay(s: State, panel: Core.Panel, u: OverlayUpdate, now: nat)
    requires Shaped(s) && PanelFits(s, panel) && u.sequence <= s.overlaySequence
    ensures UpdateOverlay(s, panel, u, now) == PanelDone(Panelled(Receiver.Step(s, []), panel))
  {
    hide Core.Shaped, Core.PanelShaped, Size, Core.PresentPlane, OverlayEdited;
  }

  /** An overlay command is applied at most once in a session: after it, whatever
      else happened, the same command or an older one changes nothing. */
  lemma {:induction false} OverlayOnce(s: State, panel: Core.Panel, codec: Semantic.Codec, events: seq<R.Event>, k: nat,
                                       again: OverlayUpdate, now: nat)
    requires R.Sane(s) && PanelFits(s, panel) && R.Serve(s, panel, codec, events).Some?
    requires k < |events| && events[k].OverlayEvent? && again.sequence <= events[k].update.sequence
    ensures var r := R.Serve(s, panel, codec, events).value;
            && Shaped(r.s) && PanelFits(r.s, r.panel)
            && UpdateOverlay(r.s, r.panel, again, now) == PanelDone(Panelled(Receiver.Step(r.s, []), r.panel))
  {
    hide R.Serve, R.Sane, UpdateOverlay, PanelFits;
    R.OneResultPerFrame(s, panel, codec, events);
    SequencesUsed(s, panel, codec, events, k);
    var r := R.Serve(s, panel, codec, events).value;
    R.SaneParts(r.s);
    StaleOverlay(r.s, r.panel, again, now);
  }

  lemma {:induction false} SequencesUsed(s: State, panel: Core.Panel, codec: Semantic.Codec, events: seq<R.Event>, k: nat)
    requires R.Sane(s) && PanelFits(s, panel) && R.Serve(s, panel, codec, events).Some?
    ensures var t := R.Serve(s, panel, codec, events).value.s;
            && t.overlaySequence >= s.overlaySequence
            && (k < |events| && events[k].OverlayEvent? ==> t.overlaySequence >= events[k].update.sequence)
    decreases |events|
  {
    hide R.Handle, R.Sane, R.Enabled, PanelFits, R.Kept;
    R.SaneParts(s);
    if events != [] {
      var p := R.Handle(s, panel, codec, events[0]).value;
      R.HandleKept(s, panel, codec, events[0]);
      R.KeptSane(s, R.Received(events[0]), p);
      SequenceKept(s, panel, codec, events[0]);
      SequencesUsed(p.step.s, p.panel, codec, events[1..], if k > 0 then k - 1 else |events|);
    }
  }

  /** Presenting a settled plane touches none of the planes. */
  lemma PlanesStand(core: Core.State, panel: Core.Panel, now: nat)
    requires C.Sound(core) && Core.Shaped(core) && Core.PanelShaped(Size(core.w, core.h), panel)
    ensures var r := Core.PresentPlane(core, panel, now, Settled);
            r.PlaneDone? ==>
              var t := r.moved.s;
              t.peer == core.peer && t.ink == core.ink && t.menu == core.menu && (t.w, t.h) == (core.w, core.h)
  {
    hide Core.Shaped, Core.PanelShaped, Size, Core.Tick, C.Sound, Core.PlaneDamage, Core.PlaneDecision, Painted, Core.Picture,
         Core.SubmitTo, MergeTiled;
    C.TickFrame(core, panel, now, true);
    Core.TickShaped(core, panel, now, true);
  }

  predicate Inside(r: Rect, x: nat, y: nat) {
    r.x <= x < r.x + r.width && r.y <= y < r.y + r.height
  }

  /** A cleared overlay is transparent but for its patch, and the patch lies row by
      row where it belongs. */
  predicate PeerEdited(w: nat, before: Plane, after: Plane, u: OverlayUpdate, x: nat, y: nat) {
    var i := At(w, x, y);
    && i < |before.alpha| && i < |after.alpha| && i < |after.luma|
    && if u.rect.Some? && Inside(u.rect.value, x, y) then
         var k := (y - u.rect.value.y) * u.rect.value.width + (x - u.rect.value.x);
         0 <= k < |u.luma| && k < |u.alpha| && after.luma[i] == u.luma[k] && after.alpha[i] == u.alpha[k]
       else
         after.alpha[i] == if u.clear then 0 else before.alpha[i]
  }

  /** Ink goes when the planes are cleared or the pen is switched off, which alone
      lifts a freeze. */
  predicate InkEdited(w: nat, v: Surface, t: Surface, u: OverlayUpdate, x: nat, y: nat) {
    var i := At(w, x, y);
    && i < |v.core.ink.alpha| && i < |t.core.ink.alpha|
    && t.core.ink.alpha[i] == (if u.clear || u.localInk == Some(false) then 0 else v.core.ink.alpha[i])
    && t.localInk == (if u.localInk.Some? then u.localInk.value else v.localInk)
    && t.inkFrozen == (v.inkFrozen && u.localInk != Some(false))
  }

  lemma OverlayEdits(v: Surface, u: OverlayUpdate, now: nat, x: nat, y: nat)
    requires SurfaceShaped(v) && x < v.core.w && y < v.core.h
    requires u.rect.Some? ==> PatchOk(v.core.w, v.core.h, u.rect.value, u.luma, u.alpha)
    ensures var t := OverlayEdited(v, u, now);
            PeerEdited(v.core.w, v.core.peer, t.core.peer, u, x, y) && InkEdited(v.core.w, v, t, u, x, y)
  {
    hide Size, At, PatchOk, Patched, OnPanel, PlaneOk, PeerEdited;
    IndexBound(v.core.w, v.core.h, x, y);
    PlaneLengths(v.core.w, v.core.h, v.core.ink);
    PeerEdits(v, u, x, y);
  }

  lemma PlaneLengths(w: nat, h: nat, p: Plane)
    requires PlaneOk(w, h, p)
    ensures |p.luma| == |p.alpha| == Size(w, h)
  {
  }

  lemma PeerEdits(v: Surface, u: OverlayUpdate, x: nat, y: nat)
    requires PlaneOk(v.core.w, v.core.h, v.core.peer) && x < v.core.w && y < v.core.h
    requires u.rect.Some? ==> PatchOk(v.core.w, v.core.h, u.rect.value, u.luma, u.alpha)
    ensures var peer := if u.clear then Cleared(v.core.peer) else v.core.peer;
            var after := if u.rect.Some? then Patched(v.core.w, v.core.h, peer, u.rect.value, u.luma, u.alpha) else peer;
            PeerEdited(v.core.w, v.core.peer, after, u, x, y)
  {
    hide Size, At, PatchOk, Patched, PlaneOk;
    IndexBound(v.core.w, v.core.h, x, y);
    PlaneLengths(v.core.w, v.core.h, v.core.peer);
    R.ClearedOk(v.core.w, v.core.h, v.core.peer);
    var peer := if u.clear then Cleared(v.core.peer) else v.core.peer;
    if u.rect.Some? {
      PatchLengths(v.core.w, v.core.h, u.rect.value, u.luma, u.alpha);
      PatchedAt(v.core.w, v.core.h, peer, u.rect.value, u.luma, u.alpha, x, y);
    }
  }

  lemma PatchLengths(w: nat, h: nat, r: Rect, luma: seq<bv8>, alpha: seq<bv8>)
    requires PatchOk(w, h, r, luma, alpha)
    ensures |luma| == |alpha|
  {
  }

  /** What an acceptable command leaves once it has been presented. */
  lemma OverlayApplied(s: State, panel: Core.Panel, u: OverlayUpdate, now: nat, x: nat, y: nat)
    requires R.Sane(s) && Shaped(s) && PanelFits(s, panel) && OverlayAcceptable(s, u)
    requires UpdateOverlay(s, panel, u, now).PanelDone?
    requires x < s.surface.value.core.w && y < s.surface.value.core.h
    ensures var v, t := s.surface.value, UpdateOverlay(s, panel, u, now).value.step.s;
            && t.surface.Some? && t.overlaySequence == u.sequence
            && PeerEdited(v.core.w, v.core.peer, t.surface.value.core.peer, u, x, y)
            && InkEdited(v.core.w, v, t.surface.value, u, x, y)
  {
    hide R.Sane, Core.Shaped, Core.PanelShaped, Size, Core.PresentPlane, C.Sound, PatchOk, R.FrozenCore, TerminalResult,
         OverlayEdited, PeerEdited, OnPanel;
    R.SaneParts(s);
    var v := s.surface.value;
    R.OverlaySane(v, u, now);
    EditedShaped(v, u, now);
    OverlayEdits(v, u, now, x, y);
    PlanesStand(OverlayEdited(v, u, now).core, panel, now);
  }

  /** A patch puts its samples, row by row, into its rectangle and nowhere else. */
  lemma PatchedAt(w: nat, h: nat, p: Plane, r: Rect, luma: seq<bv8>, alpha: seq<bv8>, x: nat, y: nat)
    requires PlaneOk(w, h, p) && PatchOk(w, h, r, luma, alpha) && x < w && y < h
    ensures At(w, x, y) < Size(w, h)
    ensures var q, i := Patched(w, h, p, r, luma, alpha), At(w, x, y);
            && |q.luma| == |q.alpha| == Size(w, h)
            && (if r.x <= x < r.x + r.width && r.y <= y < r.y + r.height then
                  var k := (y - r.y) * r.width + (x - r.x);
                  k < |luma| && q.luma[i] == luma[k] && q.alpha[i] == alpha[k]
                else q.luma[i] == p.luma[i] && q.alpha[i] == p.alpha[i])
            && q.dirty == p.dirty && (q.transparent <==> forall j :: 0 <= j < |q.alpha| ==> q.alpha[j] == 0)
  {
    hide Size, Col, Row, Area;
    IndexBound(w, h, x, y);
    IndexSplit(w, x, y);
    if InRect(w, r, At(w, x, y)) {
      IndexBound(r.width, r.height, x - r.x, y - r.y);
      assert Size(r.width, r.height) == Area(r) by { AreaIsSize(r); }
    }
  }

  lemma AreaIsSize(r: Rect)
    ensures Size(r.width, r.height) == Area(r)
  {
  }
}
