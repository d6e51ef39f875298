/** The display core on its buffers. Each method is proved to do to the buffers
    exactly what the functions of Core say, so the run theorems of Composition,
    PanelSafety and Cadence hold for it. */
module DisplayCore {
  import opened Geometry
  import opened Pixels
  import opened Raster
  import opened Regions
  import opened Tiles
  import opened Ink
  import opened Surface
  import opened TileSearch
  import opened Refresh
  import opened Buffers
  import opened Backend
  import Core

  lemma ValidatedShapes(w: nat, h: nat, regions: seq<Region>)
    requires ValidateRegions(w, h, regions).None?
    ensures ShapesOk(w, h, regions)
  {
  }

  /** The fields of the core that are not buffers. */
  datatype Status = Status(
    inkWaveform: Waveform,
    logicalId: nat,
    presentedId: nat,
    baseValid: bool,
    pending: Option<Core.Pending>,
    lastPresentAt: Option<nat>,
    damageTile: nat,
    uncertain: bool,
    forceCleanup: bool,
    settle: seq<Rect>,
    fastUpdates: nat,
    partialPixels: nat,
    lastPartialAt: Option<nat>,
    lastIdleFailure: Option<nat>)

  class DisplayCore {
    const buffers: BufferSet
    const refreshPolicy: RefreshPolicy
    const width: nat
    const height: nat
    const format: Format
    const frameInterval: nat
    const settledDeadline: nat
    var st: Status

    /** The whole core as a value. */
    ghost function View(): Core.State
      requires buffers.Built() && buffers.Swapped()
      reads this, refreshPolicy, buffers, buffers.footprint
    {
      Assemble(st, buffers.View(), refreshPolicy.View())
    }

    ghost function Assemble(st: Status, b: Pictures, policy: Policy): Core.State {
      Core.State(
        width, height, format, b.base, b.menu, b.peer, b.ink, st.inkWaveform, b.presentedBase, b.presented, b.working,
        st.logicalId, st.presentedId, st.baseValid, st.pending, st.lastPresentAt, frameInterval, settledDeadline,
        policy, st.damageTile, st.uncertain, st.forceCleanup, st.settle, st.fastUpdates,
        st.partialPixels, st.lastPartialAt, st.lastIdleFailure)
    }

    ghost predicate Valid()
      reads this, refreshPolicy, buffers, buffers.footprint
    {
      && buffers.Valid()
      && Owned()
      && Core.Shaped(View())
    }

    ghost predicate Owned() {
      var own :=
        && this !in buffers.footprint && refreshPolicy !in buffers.footprint
        && (width, height, format) == (buffers.base.width, buffers.base.height, buffers.base.format);
      own
    }

    /** Everything this core may change. */
    ghost function Footprint(): set<object> {
      {this, refreshPolicy, buffers} + buffers.footprint
    }

    constructor (width: nat, height: nat, format: Format, maxFpsX100: nat, settledDeadline: nat, config: Config)
      requires width > 0 && height > 0
      ensures Valid() && fresh(Footprint())
      ensures View() == Core.NewState(width, height, format, maxFpsX100, settledDeadline, config)
    {
      hide Size, BufferSet.Built, PlaneOk, ValidRect, BlankPlane;
      buffers := new BufferSet(width, height, format);
      refreshPolicy := new RefreshPolicy(config);
      this.width, this.height, this.format := width, height, format;
      frameInterval := CeilDiv(100_000_000, Max(maxFpsX100, 100));
      this.settledDeadline := settledDeadline;
      st := Status(Fastest, 0, 0, false, None, None, config.damageTile, false, false, [], 0, 0, None, None);
      new;
      Core.NewShaped(width, height, format, maxFpsX100, settledDeadline, config);
    }

    method MarkPanelFailure()
      requires Valid()
      modifies this
      ensures Valid() && View() == Core.MarkFailure(old(View()))
    {
      hide Size, PlaneOk, ValidRect, BufferSet.Built, BufferSet.Valid, BufferSet.View;
      st := st.(baseValid := false, logicalId := 0, uncertain := true, settle := [], fastUpdates := 0);
    }

    method RecordPanelDamage(d: Decision, damage: seq<Rect>, now: nat)
      requires Valid()
      modifies this
      ensures Valid() && View() == Core.RecordDamage(old(View()), d, damage, now)
    {
      hide Size, PlaneOk, ValidRect, TotalArea, BufferSet.Built, BufferSet.Valid, BufferSet.View;
      st := st.(partialPixels := if d.complete then 0 else st.partialPixels + TotalArea(damage),
                lastPartialAt := if d.complete then None else Some(now));
    }

    method CancelPending() returns (terminals: seq<Core.Terminal>)
      requires Valid()
      modifies this
      ensures Valid() && (View(), terminals) == Core.CancelPending(old(View()))
    {
      hide Size, PlaneOk, ValidRect, BufferSet.Built, BufferSet.Valid, BufferSet.View;
      terminals :=
        if st.pending.Some? then [Core.Terminal(st.pending.value.frameId, Core.Cancelled, false)] else [];
      st := st.(pending := None);
    }

    method FreezePresented() returns (terminals: seq<Core.Terminal>)
      requires Valid()
      modifies Footprint()
      ensures Valid() && (View(), terminals) == Core.Freeze(old(View()))
    {
      hide Size, PlaneOk, ValidRect, BufferSet.Built, BufferSet.Valid, BufferSet.View;
      terminals := CancelPending();
      buffers.RestoreBase();
      st := st.(baseValid := false);
    }

    method NotePending(frame: Core.Frame, content: Content, now: nat) returns (superseded: Option<Core.Terminal>)
      requires Valid() && ShapesOk(width, height, frame.regions)
      modifies this
      ensures Valid()
      ensures View() == Core.Noted(old(View()), frame, content, now)
      ensures superseded == Core.Superseding(old(View()))
    {
      hide Size, PlaneOk, ValidRect, ShapesOk, BufferSet.Built, BufferSet.View;
      ghost var was := View();
      var keyframe := frame.baseId == 0;
      var last := st.pending;
      var carryFull := last.Some? && last.value.forceFull;
      var carryCleanup := last.Some? && last.value.forceCleanup;
      var hint := Rects(frame.regions) + (if last.Some? then last.value.hint else []);
      var pending := Core.Pending(
        frame.frameId, frame.intent, content, now,
        carryFull || (keyframe && (st.presentedId == 0 || !st.baseValid)),
        carryCleanup || (keyframe && st.uncertain),
        frame.decodedBytes, hint);
      st := st.(logicalId := frame.frameId, baseValid := true, pending := Some(pending));
      superseded := if last.Some? then Some(Core.Terminal(last.value.frameId, Core.Superseded, false)) else None;
      Core.NotedShaped(was, frame, content, now);
    }

    /** Writes the regions of an admissible frame into the base. */
    method ApplyFrame(frame: Core.Frame, content: Content, now: nat) returns (result: Core.CommitResult)
      requires Valid()
      modifies Footprint()
      ensures Valid()
      ensures var checked := ValidateRegions(width, height, frame.regions);
              if checked.Some? then View() == old(View()) && result == Core.Refused(Core.SurfaceFault(checked.value))
              else
                && ShapesOk(width, height, frame.regions)
                && View() == Core.Noted(old(View()).(base := ApplyAll(width, height, old(View()).base, frame.regions)),
                                        frame, content, now)
                && result == Core.Committed(Core.Superseding(old(View())))
    {
      hide Size, ApplyAll, ValidateRegions, PlaneOk, ValidRect, ShapesOk, Core.Noted,
           BufferSet.Built, BufferSet.Valid, BufferSet.View;
      var error := buffers.ApplyBase(frame.regions);
      if error.Some? {
        return Core.Refused(Core.SurfaceFault(error.value));
      }
      ValidatedShapes(width, height, frame.regions);
      var superseded := NotePending(frame, content, now);
      result := Core.Committed(superseded);
    }

    /** Accepts a frame, or reports why not and changes nothing. */
    method Commit(frame: Core.Frame, content: Content, now: nat) returns (result: Core.CommitResult)
      requires Valid()
      modifies Footprint()
      ensures Valid() && (View(), result) == Core.Commit(old(View()), frame, content, now)
    {
      hide Size, ApplyAll, ValidateRegions, PlaneOk, ValidRect, ShapesOk, Core.Noted,
           BufferSet.Built, BufferSet.Valid, BufferSet.View;
      if st.pending.Some? && st.pending.value.intent == Settled {
        return Core.Refused(Core.SettledBarrier);
      }
      if frame.frameId == 0 || frame.frameId <= st.logicalId {
        return Core.Refused(Core.BadFrameId);
      }
      if frame.format != format {
        return Core.Refused(Core.WrongFormat);
      }
      if frame.baseId != 0 && (!st.baseValid || frame.baseId != st.logicalId) {
        return Core.Refused(Core.NeedKeyframe);
      }
      result := ApplyFrame(frame, content, now);
    }

    method NextDeadline() returns (due: Option<nat>)
      requires Valid()
      ensures due == Core.Deadline(View())
    {
      hide Size, PlaneOk, ValidRect, BufferSet.Built, BufferSet.Valid, BufferSet.View;
      if st.pending.None? {
        return None;
      }
      var p := st.pending.value;
      var fpsDue := if st.lastPresentAt.Some? then st.lastPresentAt.value + frameInterval else p.acceptedAt;
      return Some(if p.intent == Settled then Min(fpsDue, p.acceptedAt + settledDeadline) else fpsDue);
    }

    // ----------------------------------------------------------------- tick

    /** Recomposes what the pending frame asks for. */
    method ComposePending()
      requires Valid() && st.pending.Some?
      modifies Footprint()
      ensures Valid() && st == old(st)
      ensures View() == old(View()).(working := Core.TickComposed(old(View())))
    {
      hide Size, PlaneOk, ValidRect, Painted, Composed, BufferSet.Built, BufferSet.Valid, BufferSet.View;
      var p := st.pending.value;
      var regions := (if p.forceFull then [Full(width, height)] else p.hint)
                     + (if p.intent == Settled then st.settle else []);
      buffers.Ready();
      Core.TickRegionsValid(View());
      buffers.ComposeInto(regions);
    }

    /** The tiles the pending frame has to drive. */
    method FindDamage(ghost was: Core.State) returns (damage: seq<Rect>)
      requires Valid() && st.pending.Some? && Core.Shaped(was) && was.pending.Some?
      requires View() == was.(working := Core.TickComposed(was))
      ensures damage == Core.TickDamage(was)
    {
      hide Size, PlaneOk, ValidRect, Painted, Composed, TileDamageRegions, MergeTiled, BufferSet.Built,
           BufferSet.View;
      var p := st.pending.value;
      if p.forceFull {
        damage := [Full(width, height)];
      } else {
        var regions := p.hint + (if p.intent == Settled then st.settle else []);
        Core.TickRegionsValid(was);
        damage := buffers.FindDamage(st.damageTile, regions);
      }
      if p.intent == Settled {
        damage := MergeDamage(width, height, st.damageTile, st.settle, damage);
      }
    }

    method DecidePending(ghost was: Core.State, damage: seq<Rect>) returns (d: Decision)
      requires Valid() && st.pending.Some? && Core.Shaped(was) && was.pending.Some?
      requires View() == was.(working := Core.TickComposed(was)) && damage == Core.TickDamage(was)
      ensures d == Core.TickDecision(was)
    {
      hide Size, PlaneOk, ValidRect, Core.TickComposed, Core.TickDamage, Decide, TotalArea,
           BufferSet.Built, BufferSet.View;
      var p := st.pending.value;
      var config := refreshPolicy.config;
      var force := p.forceCleanup || st.forceCleanup;
      var staticDue := !force && p.intent == Settled && st.settle != [] && config.staticAfter > 0
                       && st.fastUpdates >= config.staticAfter;
      d := refreshPolicy.DecideRefresh(p.intent, p.content, TotalArea(damage), Size(width, height), force || staticDue);
      if staticDue && d.reason == Forced {
        d := d.(reason := StaticFastDebt);
      }
    }

    /** Bookkeeping and buffers after the panel accepted the pending frame. */
    method Accepted(ghost was: Core.State, d: Decision, damage: seq<Rect>, now: nat, physical: nat)
      requires Valid() && st.pending.Some? && Core.Shaped(was) && was.pending.Some?
      requires View() == was.(working := Core.SubmitImage(was))
      requires d == Core.TickDecision(was) && damage == Core.SubmitDamage(was)
      modifies Footprint()
      ensures Valid() && View() == Core.TickAccepted(was, now, physical)
    {
      hide Size, PlaneOk, ValidRect, Painted, Core.TickDecision, Core.SubmitDamage, Core.SubmitImage, MergeTiled,
           TotalArea, Submitted, BufferSet.Built, BufferSet.Valid, BufferSet.View;
      Core.SubmitDamageValid(was);
      Core.AcceptedShaped(was, now, physical);
      var p := st.pending.value;
      RecordPanelDamage(d, damage, now);
      buffers.PresentFrame(damage);
      refreshPolicy.PresentedSubmissions(d, physical);
      var clean := d.complete || p.intent == Settled;
      var fast := !clean && (d.waveform == Fastest || d.waveform == Fast);
      var merged := MergeDamage(width, height, st.damageTile, st.settle, damage);
      st := st.(pending := None,
                presentedId := p.frameId,
                lastPresentAt := Some(now),
                uncertain := false,
                settle := if clean then [] else if fast then merged else st.settle,
                fastUpdates := if clean then 0 else if fast then SatAdd(st.fastUpdates, physical) else st.fastUpdates,
                forceCleanup := st.forceCleanup && !d.complete);
    }

    /** The picture and damage to submit, after the decision. */
    method ComposeFully(ghost was: Core.State, d: Decision, found: seq<Rect>) returns (damage: seq<Rect>)
      requires Valid() && st.pending.Some? && Core.Shaped(was) && was.pending.Some?
      requires View() == was.(working := Core.TickComposed(was))
      requires d == Core.TickDecision(was) && found == Core.TickDamage(was)
      modifies Footprint()
      ensures Valid() && st == old(st)
      ensures View() == was.(working := Core.SubmitImage(was)) && damage == Core.SubmitDamage(was)
    {
      hide Size, PlaneOk, ValidRect, Painted, Composed, Core.TickDecision, Core.TickDamage,
           BufferSet.Built, BufferSet.Valid, BufferSet.View;
      if !d.complete {
        return found;
      }
      Core.FullValid(width, height);
      damage := [Full(width, height)];
      buffers.Ready();
      Core.SamePicture(was, View());
      buffers.ComposeInto(damage);
    }

    method PreparePending() returns (d: Decision, damage: seq<Rect>)
      requires Valid() && st.pending.Some?
      modifies Footprint()
      ensures Valid() && st == old(st) && Core.Shaped(old(View()))
      ensures d == Core.TickDecision(old(View())) && damage == Core.SubmitDamage(old(View()))
      ensures View() == old(View()).(working := Core.SubmitImage(old(View())))
    {
      hide Size, PlaneOk, ValidRect, Core.TickComposed, Core.TickDecision, Core.TickDamage, Core.SubmitDamage,
           Core.SubmitImage, BufferSet.Built, BufferSet.View, Core.Shaped;
      ghost var was := View();
      ComposePending();
      var found := FindDamage(was);
      d := DecidePending(was, found);
      damage := ComposeFully(was, d, found);
    }

    /** A frame that already matches the panel is presented without it. */
    method PresentUnchanged(now: nat)
      requires Valid() && st.pending.Some?
      modifies Footprint()
      ensures Valid()
      ensures var was := old(View());
              View() == was.(pending := None, presentedId := was.pending.value.frameId, presentedBase := was.base,
                             lastPresentAt := Some(now))
    {
      hide Size, PlaneOk, ValidRect, BufferSet.Built, BufferSet.Valid, BufferSet.View;
      buffers.RecordBase();
      st := st.(pending := None, presentedId := st.pending.value.frameId, lastPresentAt := Some(now));
    }

    /** A refused frame: the working buffer is rolled back. */
    method PresentRefused()
      requires Valid() && st.pending.Some?
      modifies Footprint()
      ensures Valid()
      ensures var was := old(View());
              View() == Core.MarkFailure(was).(pending := None, working := was.presented)
    {
      hide Size, PlaneOk, ValidRect, BufferSet.Built, BufferSet.Valid, BufferSet.View;
      buffers.RevertWorking();
      MarkPanelFailure();
      st := st.(pending := None);
    }

    method PresentPending(now: nat, panel: PanelBackend) returns (terminals: seq<Core.Terminal>)
      requires Valid() && st.pending.Some? && panel !in Footprint()
      requires Core.PanelShaped(Size(width, height), panel.View())
      modifies Footprint(), panel
      ensures Valid()
      ensures Core.Moved(View(), panel.View(), terminals) == Core.Present(old(View()), old(panel.View()), now)
    {
      hide Size, PlaneOk, ValidRect, Core.TickComposed, Core.TickDecision, Core.TickDamage, Core.SubmitDamage,
           Core.SubmitImage, Core.TickAccepted, Core.SubmitTo, BufferSet.Built, BufferSet.View, Core.Shaped;
      ghost var was := View();
      var id := st.pending.value.frameId;
      var d, damage := PreparePending();
      if damage == [] {
        PresentUnchanged(now);
        return [Core.Terminal(id, Core.Presented, d.complete)];
      }
      var physical := buffers.SubmitWorking(panel, damage, d);
      if physical.None? {
        PresentRefused();
        return [Core.Terminal(id, Core.BackendFailure, d.complete)];
      }
      Accepted(was, d, damage, now, physical.value);
      return [Core.Terminal(id, Core.Presented, d.complete)];
    }

    method TickInner(now: nat, panel: PanelBackend, ignoreDeadline: bool) returns (terminals: seq<Core.Terminal>)
      requires Valid() && panel !in Footprint()
      requires Core.PanelShaped(Size(width, height), panel.View())
      modifies Footprint(), panel
      ensures Valid()
      ensures Core.Moved(View(), panel.View(), terminals)
           == Core.Tick(old(View()), old(panel.View()), now, ignoreDeadline)
    {
      hide Size, PlaneOk, ValidRect, Core.Present, Core.PanelShaped, Core.Pumped,
           BufferSet.Built, BufferSet.Valid, BufferSet.View;
      var due := NextDeadline();
      if due.None? || (!ignoreDeadline && now < due.value) {
        return [];
      }
      Core.RestShaped(Size(width, height), panel.View());
      var ok := panel.Pump();
      if !ok {
        var id := st.pending.value.frameId;
        MarkPanelFailure();
        st := st.(pending := None);
        return [Core.Terminal(id, Core.BackendFailure, false)];
      }
      terminals := PresentPending(now, panel);
    }

    // -------------------------------------------------------------- cleanup

    /** The presented picture, submitted once more as a complete refresh. */
    method Maintain(now: nat, panel: PanelBackend) returns (failed: bool)
      requires Valid() && panel !in Footprint() && Core.PanelShaped(Size(width, height), panel.View())
      modifies Footprint(), panel
      ensures Valid()
      ensures Core.PanelShaped(Size(width, height), Core.Pumped(old(panel.View())))
      ensures var r := Core.Maintenance(old(View()), old(panel.View()), now);
              View() == r.s && panel.View() == r.panel && failed == r.failed
    {
      hide Size, PlaneOk, ValidRect, TotalArea, Core.SubmitTo, Core.PanelShaped, Submitted, Decide,
           BufferSet.Built, BufferSet.Valid, BufferSet.View;
      Core.RestShaped(Size(width, height), panel.View());
      Core.PanelParts(Size(width, height), Core.Pumped(panel.View()));
      var ok := panel.Pump();
      if !ok {
        MarkPanelFailure();
        return true;
      }
      var d := refreshPolicy.DecideRefresh(Settled, Mixed, Size(width, height), Size(width, height), true);
      var damage := [Full(width, height)];
      var physical := buffers.SubmitPresented(panel, damage, d);
      if physical.None? {
        MarkPanelFailure();
        return true;
      }
      refreshPolicy.PresentedSubmissions(d, 1);
      RecordPanelDamage(d, damage, now);
      st := st.(lastPresentAt := Some(now), uncertain := false, forceCleanup := false, settle := [], fastUpdates := 0);
      return false;
    }

    method RequestCleanup(now: nat, panel: PanelBackend)
      returns (terminals: seq<Core.Terminal>, report: Core.CleanupReport)
      requires Valid() && panel !in Footprint() && Core.PanelShaped(Size(width, height), panel.View())
      modifies Footprint(), panel
      ensures Valid()
      ensures (Core.Moved(View(), panel.View(), terminals), report)
           == Core.RequestCleanup(old(View()), old(panel.View()), now)
    {
      hide Size, PlaneOk, ValidRect, Core.Tick, Core.Maintenance, Core.PanelShaped,
           BufferSet.Built, BufferSet.Valid, BufferSet.View;
      st := st.(forceCleanup := true);
      if st.pending.Some? {
        terminals := TickInner(now, panel, true);
        report := Core.CleanupReport(
          exists k :: 0 <= k < |terminals| && terminals[k].outcome == Core.Presented && terminals[k].complete,
          st.forceCleanup,
          exists k :: 0 <= k < |terminals| && terminals[k].outcome == Core.BackendFailure);
        return;
      }
      terminals := [];
      if st.presentedId == 0 {
        return [], Core.CleanupReport(false, true, false);
      }
      var failed := Maintain(now, panel);
      report := Core.CleanupReport(!failed, failed, failed);
    }

    method AdaptiveCleanupDue(now: nat) returns (due: bool)
      requires Valid()
      ensures due == Core.AdaptiveDue(View(), now)
    {
      hide Size, PlaneOk, ValidRect, BufferSet.Built, BufferSet.Valid, BufferSet.View;
      var budget := Core.CleanupBudget(refreshPolicy.config.profile);
      if budget.None? {
        return false;
      }
      var (screens, idle) := budget.value;
      due := st.presentedId != 0
             && st.partialPixels >= Size(width, height) * screens
             && st.lastPartialAt.Some?
             && SatSub(now, st.lastPartialAt.value) >= idle;
    }

    method TickInteractive(now: nat, panel: PanelBackend, idle: bool) returns (terminals: seq<Core.Terminal>)
      requires Valid() && panel !in Footprint() && Core.PanelShaped(Size(width, height), panel.View())
      modifies Footprint(), panel
      ensures Valid()
      ensures Core.Moved(View(), panel.View(), terminals)
           == Core.TickInteractive(old(View()), old(panel.View()), now, idle)
    {
      hide Size, PlaneOk, ValidRect, Core.Tick, Core.RequestCleanup, Core.AdaptiveDue, Core.PanelShaped,
           BufferSet.Built, BufferSet.Valid, BufferSet.View;
      var due := AdaptiveCleanupDue(now);
      if idle && st.pending.None? && due
         && (st.lastIdleFailure.None? || SatSub(now, st.lastIdleFailure.value) >= 5_000_000) {
        var report;
        terminals, report := RequestCleanup(now, panel);
        st := st.(lastIdleFailure := if report.failed then Some(now) else None);
        return;
      }
      terminals := TickInner(now, panel, false);
    }

    method UpdateRefreshConfig(config: Config) returns (error: Option<ConfigError>)
      requires Valid()
      modifies this, refreshPolicy
      ensures Valid() && (View(), error) == Core.UpdateConfig(old(View()), config)
    {
      hide Size, PlaneOk, ValidRect, BufferSet.Built, BufferSet.Valid, BufferSet.View;
      error := refreshPolicy.Reconfigure(config);
      if error.None? {
        st := st.(damageTile := config.damageTile);
      }
    }

    method ChangeRefreshProfile(config: Config, now: nat, panel: PanelBackend)
      returns (error: Option<ConfigError>, terminals: seq<Core.Terminal>, report: Core.CleanupReport)
      requires Valid() && panel !in Footprint() && Core.PanelShaped(Size(width, height), panel.View())
      modifies Footprint(), panel
      ensures Valid() && error == Validate(config)
      ensures error.Some? ==> View() == old(View()) && panel.View() == old(panel.View()) && terminals == []
      ensures error.None? ==>
                (Core.Moved(View(), panel.View(), terminals), report)
                == Core.ChangeProfile(old(View()), old(panel.View()), config, now)
    {
      hide Size, PlaneOk, ValidRect, Core.RequestCleanup, Core.PanelShaped,
           BufferSet.Built, BufferSet.Valid, BufferSet.View;
      var changed := config != refreshPolicy.config;
      terminals, report := [], Core.CleanupReport(false, false, false);
      error := UpdateRefreshConfig(config);
      if error.None? && (changed || st.forceCleanup) {
        terminals, report := RequestCleanup(now, panel);
      }
    }

    // --------------------------------------------------------- local planes

    /** The rectangles of a plane repaint; taking the dirty ink resets it. */
    method TakePlaneRegions(intent: Intent) returns (regions: seq<Rect>)
      requires Valid()
      modifies Footprint()
      ensures Valid()
      ensures regions == Core.PlaneRegions(old(View()), intent)
      ensures View() == Core.DirtyTaken(old(View()), intent)
    {
      hide Size, PlaneOk, ValidRect, BufferSet.Built, BufferSet.Valid, BufferSet.View;
      if intent == Settled {
        return [Full(width, height)];
      }
      Core.DirtyTakenShaped(View(), intent) by { buffers.Ready(); }
      var dirty := buffers.TakeDirty();
      regions := if dirty.Some? then [dirty.value] else [];
    }

    method PlaneDamage(ghost was: Core.State, intent: Intent, regions: seq<Rect>) returns (damage: seq<Rect>)
      requires Valid() && Core.Shaped(was) && regions == Core.PlaneRegions(was, intent)
      requires var composed := Painted(was.w, was.working, Core.Picture(was), regions);
               View() == Core.DirtyTaken(was, intent).(working := composed)
      ensures damage == Core.PlaneDamage(was, intent, Painted(was.w, was.working, Core.Picture(was), regions))
    {
      hide Size, PlaneOk, ValidRect, Painted, Core.Picture, TileDamageRegions, ChangedIn, BufferSet.Built, BufferSet.View;
      Core.PlaneRegionsValid(was, intent);
      if intent == Settled {
        damage := buffers.FindDamage(st.damageTile, regions);
        return;
      }
      if regions == [] {
        return [];
      }
      var changed := buffers.Differs(regions[0]);
      damage := if changed then regions else [];
    }

    method PlaneAccepted(d: Decision, damage: seq<Rect>, now: nat, physical: nat)
      requires Valid() && AllValid(width, height, damage)
      modifies Footprint()
      ensures Valid() && Core.Shaped(old(View()))
      ensures View() == Core.PlaneAccepted(old(View()), now, old(View()).working, damage, d, physical)
    {
      hide Size, PlaneOk, ValidRect, Painted, MergeTiled, TotalArea, Submitted,
           BufferSet.Built, BufferSet.Valid, BufferSet.View;
      Core.MergeValid(width, height, st.damageTile, st.settle, damage);
      RecordPanelDamage(d, damage, now);
      buffers.ShowWorking(damage);
      refreshPolicy.PresentedSubmissions(d, physical);
      var slow := d.complete || d.waveform != Fastest;
      var merged := MergeDamage(width, height, st.damageTile, st.settle, damage);
      st := st.(lastPresentAt := Some(now),
                uncertain := false,
                forceCleanup := st.forceCleanup && !d.complete,
                settle := if slow then [] else merged,
                fastUpdates := if slow then 0 else SatAdd(st.fastUpdates, physical));
    }

    /** Repaints a plane; `ok` is false when the panel refused. */
    method Repaint(now: nat, panel: PanelBackend, intent: Intent) returns (ok: bool)
      requires Valid() && panel !in Footprint() && Core.PanelShaped(Size(width, height), panel.View())
      modifies Footprint(), panel
      ensures Valid()
      ensures var r := Core.Repaint(old(View()), old(panel.View()), now, intent, []);
              ok == r.PlaneDone? && (ok ==> Core.Moved(View(), panel.View(), []) == r.moved)
    {
      hide Size, PlaneOk, ValidRect, Painted, Composed, Core.PlaneDamage, Core.PlaneAccepted, Core.SubmitTo,
           Core.PanelShaped, Core.PlaneRegions, BufferSet.Built, BufferSet.Valid, BufferSet.View;
      buffers.Ready();
      ghost var was := View();
      Core.PanelParts(Size(width, height), panel.View());
      Core.PlaneRegionsValid(was, intent);
      var regions := TakePlaneRegions(intent);
      if regions == [] {
        return true;
      }
      buffers.Ready();
      Core.DirtyPicture(was, intent);
      buffers.BlendInto(regions);
      var found := PlaneDamage(was, intent, regions);
      if found == [] {
        return true;
      }
      Core.PlaneDamageValid(was, intent);
      ok := SubmitPlane(now, panel, intent, found);
    }

    method SubmitPlane(now: nat, panel: PanelBackend, intent: Intent, found: seq<Rect>) returns (ok: bool)
      requires Valid() && panel !in Footprint() && Core.PanelShaped(Size(width, height), panel.View())
      requires AllValid(width, height, found)
      modifies Footprint(), panel
      ensures Valid() && Core.Shaped(old(View())) && |old(panel.image)| == Size(width, height)
      ensures var was := old(View());
              var d := Core.PlaneDecision(was, intent, found);
              var damage := if d.complete then [Full(width, height)] else found;
              && ok == Core.Next(old(panel.View())).Accept?
              && (ok ==>
                    && View() == Core.PlaneAccepted(was, now, was.working, damage, d, Core.Next(old(panel.View())).physical)
                    && panel.View() == Core.SubmitTo(width, old(panel.View()), was.working, damage, d))
    {
      hide Size, PlaneOk, ValidRect, Core.PlaneAccepted, Core.SubmitTo, Decide, TotalArea,
           BufferSet.Built, BufferSet.Valid, BufferSet.View;
      var d := Decision(st.inkWaveform, false, NoReason);
      if intent == Settled {
        d := refreshPolicy.DecideRefresh(intent, TextUi, TotalArea(found), Size(width, height), false);
      }
      Core.FullValid(width, height);
      var damage := if d.complete then [Full(width, height)] else found;
      var physical := buffers.SubmitWorking(panel, damage, d);
      if physical.None? {
        return false;
      }
      PlaneAccepted(d, damage, now, physical.value);
      return true;
    }

    /** Completes pending work, then repaints the ink or the whole picture. */
    method PresentPlane(now: nat, panel: PanelBackend, intent: Intent)
      returns (ok: bool, terminals: seq<Core.Terminal>)
      requires Valid() && panel !in Footprint() && Core.PanelShaped(Size(width, height), panel.View())
      modifies Footprint(), panel
      ensures Valid()
      ensures var r := Core.PresentPlane(old(View()), old(panel.View()), now, intent);
              ok == r.PlaneDone? && (ok ==> Core.Moved(View(), panel.View(), terminals) == r.moved)
    {
      hide Size, PlaneOk, ValidRect, Core.Repaint, Core.Tick, Core.PanelShaped,
           BufferSet.Built, BufferSet.Valid, BufferSet.View;
      buffers.Ready();
      Core.TickShaped(View(), panel.View(), now, true);
      Core.TickIdle(View(), panel.View(), now, true);
      terminals := [];
      if st.pending.Some? {
        terminals := TickInner(now, panel, true);
      }
      Core.RepaintTerminals(View(), panel.View(), now, intent, terminals) by { buffers.Ready(); }
      ok := Repaint(now, panel, intent);
    }

    // ---------------------------------------------------------- plane edits

    method SetMenu(luma: seq<bv8>, alpha: seq<bv8>) returns (ok: bool)
      requires Valid()
      modifies Footprint()
      ensures Valid()
      ensures ok <==> |luma| == |alpha| == Size(width, height)
      ensures View() == if ok then old(View()).(menu := Plane(luma, alpha, AllZero(alpha), old(View()).menu.dirty))
                        else old(View())
    {
      hide Size, ValidRect, AllZero, BufferSet.Built, BufferSet.Valid, BufferSet.View;
      buffers.Ready();
      ghost var was := View();
      ok := buffers.ReplaceMenu(luma, alpha);
      if ok { MenuShaped(was, luma, alpha); }
    }

    method PatchPeer(rect: Rect, luma: seq<bv8>, alpha: seq<bv8>) returns (ok: bool)
      requires Valid()
      modifies Footprint()
      ensures Valid()
      ensures ok <==> PatchOk(width, height, rect, luma, alpha)
      ensures View() == if ok then old(View()).(peer := Patched(width, height, old(View()).peer, rect, luma, alpha))
                        else old(View())
    {
      hide Size, ValidRect, PatchOk, Patched, PlaneOk, BufferSet.Built, BufferSet.Valid, BufferSet.View;
      buffers.Ready();
      ghost var was := View();
      ok := buffers.PatchPeer(rect, luma, alpha);
      if ok { PatchedOk(width, height, was.peer, rect, luma, alpha); }
    }

    method ClearPeer()
      requires Valid()
      modifies Footprint()
      ensures Valid() && View() == old(View()).(peer := Cleared(old(View()).peer))
    {
      hide Size, ValidRect, Cleared, PlaneOk, BufferSet.Built, BufferSet.Valid, BufferSet.View;
      buffers.Ready();
      ClearedOk(width, height, View().peer);
      buffers.ClearPeer();
    }

    method ClearInk()
      requires Valid()
      modifies Footprint()
      ensures Valid() && View() == old(View()).(ink := Cleared(old(View()).ink))
    {
      hide Size, ValidRect, Cleared, PlaneOk, BufferSet.Built, BufferSet.Valid, BufferSet.View;
      buffers.Ready();
      ClearedOk(width, height, View().ink);
      buffers.ClearInk();
    }

    method InkStroke(from: Point, to: Point, radius: nat, erase: bool)
      requires Valid() && OnPanel(width, height, from) && OnPanel(width, height, to)
      modifies Footprint()
      ensures Valid() && |old(View()).ink.luma| == |old(View()).ink.alpha| == Size(width, height)
      ensures View() == old(View()).(ink := InkLine(width, height, old(View()).ink, from, to, radius, erase))
    {
      hide Size, ValidRect, InkLine, PlaneOk, BufferSet.Built, BufferSet.Valid, BufferSet.View;
      buffers.Ready();
      InkLineDirty(width, height, View().ink, from, to, radius, erase);
      buffers.InkSegment(from, to, radius, erase);
    }

    // ------------------------------------------------ carrying a core over

    method SetInkWaveform(waveform: Waveform)
      requires Valid()
      modifies this
      ensures Valid() && View() == old(View()).(inkWaveform := waveform)
    {
      hide Size, PlaneOk, ValidRect, BufferSet.Built, BufferSet.Valid, BufferSet.View;
      st := st.(inkWaveform := waveform);
    }

    method RequireCleanup()
      requires Valid()
      modifies this
      ensures Valid() && View() == old(View()).(forceCleanup := true)
    {
      hide Size, PlaneOk, ValidRect, BufferSet.Built, BufferSet.Valid, BufferSet.View;
      st := st.(forceCleanup := true);
    }

    method RestoreRefreshDebt(debt: Debt) returns (error: Option<ConfigError>)
      requires Valid()
      modifies this, refreshPolicy
      ensures Valid() && (error.None? <==> DebtValid(debt))
      ensures View() == if error.Some? then old(View())
                        else old(View()).(policy := old(View()).policy.(hasPresented := debt.hasPresented,
                                                                       presented := debt.partials))
    {
      hide Size, PlaneOk, ValidRect, BufferSet.Built, BufferSet.Valid, BufferSet.View;
      error := refreshPolicy.RestoreDebt(debt);
    }
  }

  lemma ClearedOk(w: nat, h: nat, p: Plane)
    requires PlaneOk(w, h, p)
    ensures PlaneOk(w, h, Cleared(p))
  {
    hide Size;
  }

  lemma MenuShaped(s: Core.State, luma: seq<bv8>, alpha: seq<bv8>)
    requires Core.Shaped(s) && |luma| == |alpha| == Size(s.w, s.h)
    ensures Core.Shaped(s.(menu := Plane(luma, alpha, AllZero(alpha), s.menu.dirty)))
  {
    hide Size;
  }
}
