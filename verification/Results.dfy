/** Whole runs of a receiver session: every frame gets exactly one result, a
    frozen background stays what was presented until it is released, and a lost
    base comes back only with a keyframe. */
module Results {
  import opened Geometry
  import opened Pixels
  import opened Raster
  import opened Regions
  import opened Tiles
  import opened Ink
  import opened Refresh
  import Core
  import Composition
  import Semantic
  import opened Receiver

  datatype Event =
    | FrameEvent(frame: Semantic.WireFrame, now: nat)
    | PollEvent(now: nat, idle: bool)
    | FreezeEvent(frozen: bool, now: nat)
    | CleanupEvent(now: nat)
    | ProfileEvent(config: Config, now: nat)
    | RefreshEvent(config: Config)
    | MenuEvent(luma: seq<bv8>, alpha: seq<bv8>, now: nat)
    | ClearInkEvent(now: nat)
    | LocalInkEvent(enabled: bool, penAvailable: bool, now: nat)
    | PauseInkEvent(paused: bool, now: nat)
    | OverlayEvent(update: OverlayUpdate, now: nat)
    | PenEvent(pen: PenReports, now: nat)
    | OpenEvent(open: SurfaceOpen, w: nat, h: nat, now: nat)
    | CloseEvent(surfaceId: nat, generation: nat)

  ghost predicate Enabled(s: State, panel: Core.Panel, e: Event) {
    match e
    case MenuEvent(luma, alpha, _) =>
      s.surface.Some? ==> |luma| == |alpha| == Size(s.surface.value.core.w, s.surface.value.core.h)
    case ProfileEvent(config, _) => Validate(config).None?
    case RefreshEvent(config) => Validate(config).None?
    case OpenEvent(_, w, h, _) => Core.PanelShaped(Size(w, h), panel)
    case _ => true
  }

  function Lift(o: Outcome, panel: Core.Panel): PanelOutcome {
    match o
    case Done(step) => PanelDone(Panelled(step, panel))
    case Failed => PanelFailed
  }

  /** A call of the application: when it is refused, the session goes on as it was. */
  function Tried(s: State, o: Outcome, panel: Core.Panel): PanelOutcome {
    match o
    case Done(step) => PanelDone(Panelled(step, panel))
    case Failed => PanelDone(Panelled(Receiver.Step(s, []), panel))
  }

  /** One event of a session. */
  ghost function Handle(s: State, panel: Core.Panel, codec: Semantic.Codec, e: Event): PanelOutcome
    requires Shaped(s) && PanelFits(s, panel) && Enabled(s, panel, e)
  {
    match e
    case FrameEvent(frame, now) => PanelDone(Panelled(AcceptFrame(s, codec, frame, now), panel))
    case PollEvent(now, idle) => PanelDone(Poll(s, panel, now, idle))
    case FreezeEvent(frozen, now) => Tried(s, SetFrozen(s, frozen, now), panel)
    case CleanupEvent(now) => PanelDone(RequestCleanup(s, panel, now))
    case ProfileEvent(config, now) => SetProfile(s, panel, config, now)
    case RefreshEvent(config) => Lift(UpdateRefresh(s, config), panel)
    case MenuEvent(luma, alpha, now) => RenderMenu(s, panel, luma, alpha, now)
    case ClearInkEvent(now) => if s.surface.None? then Tried(s, Failed, panel) else ClearInk(s, panel, now)
    case LocalInkEvent(enabled, penAvailable, now) => Tried(s, SetLocalInk(s, enabled, penAvailable, now), panel)
    case PauseInkEvent(paused, now) => Tried(s, SetInkPaused(s, paused, now), panel)
    case OverlayEvent(update, now) => UpdateOverlay(s, panel, update, now)
    case PenEvent(pen, now) => PenReport(s, panel, pen, now)
    case OpenEvent(open, w, h, now) => Lift(OpenSurface(s, open, w, h, now), panel)
    case CloseEvent(surfaceId, generation) => PanelDone(Panelled(CloseSurface(s, surfaceId, generation), panel))
  }

  // -------------------------------------------------------------- invariant

  ghost predicate FrozenCore(core: Core.State) {
    core.pending.None? && !core.baseValid && core.base == core.presentedBase
  }

  /** The invariant of a session. A stale ink plane (after `ClearInk`) leaves the
      buffers sound but may leave old ink in the picture. */
  ghost predicate Sane(s: State) {
    && Shaped(s)
    && Validate(s.policy).None?
    && DebtValid(s.debtCarried)
    && (s.surface.Some? ==>
          && Composition.Sound(s.surface.value.core)
          && (s.surface.value.inkFrozen ==> FrozenCore(s.surface.value.core)))
  }

  /** The frame identities a core still owes a result for. */
  function OwedBy(core: Core.State): multiset<nat> {
    if core.pending.Some? then multiset{core.pending.value.frameId} else multiset{}
  }

  function Owed(s: State): multiset<nat> {
    if s.surface.Some? then OwedBy(s.surface.value.core) else multiset{}
  }

  function TerminalIds(terminals: seq<Core.Terminal>): multiset<nat> {
    multiset(seq(|terminals|, k requires 0 <= k < |terminals| => terminals[k].frameId))
  }

  function ResultIds(results: seq<FrameResult>): multiset<nat> {
    multiset(seq(|results|, k requires 0 <= k < |results| => results[k].frameId))
  }

  function Received(e: Event): multiset<nat> {
    if e.FrameEvent? then multiset{e.frame.frameId} else multiset{}
  }

  lemma TerminalsAreResults(s: State, terminals: seq<Core.Terminal>)
    ensures ResultIds(TerminalResults(s, terminals)) == TerminalIds(terminals)
  {
    var a := seq(|terminals|, k requires 0 <= k < |terminals| => terminals[k].frameId);
    var results := TerminalResults(s, terminals);
    var b := seq(|results|, k requires 0 <= k < |results| => results[k].frameId);
    assert a == b;
  }

  lemma OneId(t: Core.Terminal)
    ensures TerminalIds([t]) == multiset{t.frameId} && TerminalIds([]) == multiset{}
  {
    var a := seq(|[t]|, k requires 0 <= k < |[t]| => [t][k].frameId);
    assert a == [t.frameId];
  }

  lemma OneResult(r: FrameResult)
    ensures ResultIds([r]) == multiset{r.frameId} && ResultIds([]) == multiset{}
  {
    var a := seq(|[r]|, k requires 0 <= k < |[r]| => [r][k].frameId);
    assert a == [r.frameId];
  }

  lemma ResultsConcat(a: seq<FrameResult>, b: seq<FrameResult>)
    ensures ResultIds(a + b) == ResultIds(a) + ResultIds(b)
  {
    var c := a + b;
    var x := seq(|a|, k requires 0 <= k < |a| => a[k].frameId);
    var y := seq(|b|, k requires 0 <= k < |b| => b[k].frameId);
    assert seq(|c|, k requires 0 <= k < |c| => c[k].frameId) == x + y;
  }

  lemma TerminalsConcat(a: seq<Core.Terminal>, b: seq<Core.Terminal>)
    ensures TerminalIds(a + b) == TerminalIds(a) + TerminalIds(b)
  {
    var c := a + b;
    var x := seq(|a|, k requires 0 <= k < |a| => a[k].frameId);
    var y := seq(|b|, k requires 0 <= k < |b| => b[k].frameId);
    assert seq(|c|, k requires 0 <= k < |c| => c[k].frameId) == x + y;
  }

  // ------------------------------------------------- operations of the core

  /** What every operation but a commit does to a core: nothing revives an
      invalid base or moves a valid one, no frame becomes pending, and a frozen
      core stays as it is. */
  ghost predicate Steadfast(before: Core.State, after: Core.State) {
    && (after.w, after.h, after.format) == (before.w, before.h, before.format)
    && (after.logicalId == before.logicalId || after.logicalId == 0)
    && (after.baseValid ==>
          before.baseValid && after.base == before.base && after.logicalId == before.logicalId)
    && (after.pending.None? || after.pending == before.pending)
    && (FrozenCore(before) ==>
          FrozenCore(after) && after.base == before.base && after.presentedId == before.presentedId)
  }

  /** A terminal that says what became of the frame it names. */
  ghost predicate Honest(after: Core.State, t: Core.Terminal) {
    && t.outcome != Core.Superseded
    && (t.outcome == Core.Presented ==> after.logicalId == t.frameId)
  }

  /** What one operation of the core does to identities: everything owed is
      either settled or still owed. */
  ghost predicate Settles(before: Core.State, after: Core.State, terminals: seq<Core.Terminal>) {
    && TerminalIds(terminals) + OwedBy(after) == OwedBy(before)
    && (forall k :: 0 <= k < |terminals| ==> Honest(after, terminals[k]))
    && Steadfast(before, after)
  }

  lemma SteadfastSame(a: Core.State)
    ensures Steadfast(a, a)
  {
  }

  lemma SteadfastChain(a: Core.State, b: Core.State, c: Core.State)
    ensures Steadfast(a, b) && Steadfast(b, c) ==> Steadfast(a, c)
  {
  }

  lemma SteadfastParts(before: Core.State, after: Core.State)
    requires Steadfast(before, after)
    ensures FrozenCore(before) ==> FrozenCore(after)
  {
  }

  lemma TickSettles(core: Core.State, panel: Core.Panel, now: nat, ignoreDeadline: bool)
    requires Composition.Sound(core) && Core.PanelShaped(Size(core.w, core.h), panel)
    ensures var m := Core.Tick(core, panel, now, ignoreDeadline); Settles(core, m.s, m.terminals)
  {
    hide Core.Tick, Size, Core.PanelShaped, Core.SubmitImage, Core.TickDecision, Composition.BaseCurrent;
    assert Core.Shaped(core) by { Composition.SoundShaped(core); }
    var m := Core.Tick(core, panel, now, ignoreDeadline);
    Composition.TickOutcome(core, panel, now, ignoreDeadline);
    Core.TickShaped(core, panel, now, ignoreDeadline);
    Composition.TickFrame(core, panel, now, ignoreDeadline);
    if m.terminals != [] {
      OneId(m.terminals[0]);
    }
  }

  lemma ArmedSettles(core: Core.State, armed: Core.State, panel: Core.Panel, now: nat)
    requires Composition.Sound(armed) && Core.PanelShaped(Size(core.w, core.h), panel)
    requires Core.Shaped(core) && armed == core.(forceCleanup := true)
    ensures var m := Core.RequestCleanup(core, panel, now).0; Settles(core, m.s, m.terminals)
  {
    hide Core.Tick, Size, Core.PanelShaped, Core.SubmitTo, TerminalIds, Core.Shaped, Composition.Sound, Core.Maintenance, FrozenCore, Honest;
    var m := Core.RequestCleanup(core, panel, now).0;
    assert Core.Shaped(armed) by { Composition.SoundShaped(armed); }
    TickSettles(armed, panel, now, true);
    NoResults();
    assert Steadfast(core, armed) && OwedBy(core) == OwedBy(armed) by { PlanesOnly(core, armed); }
    MaintenanceSteadfast(armed, panel, now);
    SteadfastChain(core, armed, m.s);
  }

  lemma CleanupSettles(core: Core.State, panel: Core.Panel, now: nat)
    requires Composition.Sound(core) && Core.PanelShaped(Size(core.w, core.h), panel)
    ensures var m := Core.RequestCleanup(core, panel, now).0; Settles(core, m.s, m.terminals)
  {
    hide Core.PanelShaped, Size, Composition.Sound, Core.RequestCleanup, Settles;
    assert Core.Shaped(core) by { Composition.SoundShaped(core); }
    Composition.ArmedSound(core);
    ArmedSettles(core, core.(forceCleanup := true), panel, now);
  }

  lemma MaintenanceSteadfast(core: Core.State, panel: Core.Panel, now: nat)
    requires Core.Shaped(core) && Core.PanelShaped(Size(core.w, core.h), panel)
    ensures var r := Core.Maintenance(core, panel, now); Steadfast(core, r.s) && OwedBy(r.s) == OwedBy(core)
  {
    hide Core.PanelShaped, Size, Core.SubmitTo, Core.Pumped, Core.Shaped, TotalArea, Decide, Submitted;
  }

  lemma InteractiveSettles(core: Core.State, panel: Core.Panel, now: nat, idle: bool)
    requires Composition.Sound(core) && Core.PanelShaped(Size(core.w, core.h), panel)
    ensures var m := Core.TickInteractive(core, panel, now, idle); Settles(core, m.s, m.terminals)
  {
    hide Core.Tick, Core.RequestCleanup, Size, Core.PanelShaped, Composition.Sound, Core.AdaptiveDue;
    assert Core.Shaped(core) by { Composition.SoundShaped(core); }
    CleanupSettles(core, panel, now);
    TickSettles(core, panel, now, false);
  }

  lemma ProfileSettles(core: Core.State, panel: Core.Panel, config: Config, now: nat)
    requires Composition.Sound(core) && Core.PanelShaped(Size(core.w, core.h), panel) && Validate(config).None?
    ensures var m := Core.ChangeProfile(core, panel, config, now).0; Settles(core, m.s, m.terminals)
  {
    hide Core.RequestCleanup, Size, Core.PanelShaped, Composition.Sound, TerminalIds, FrozenCore, Core.Shaped, Honest, Validate;
    var next := Core.UpdateConfig(core, config).0;
    assert Core.Shaped(core) && Core.Shaped(next) by {
      Composition.SoundShaped(core);
      Composition.ConfigSound(core, config);
      Composition.SoundShaped(next);
    }
    Composition.ConfigSound(core, config);
    CleanupSettles(next, panel, now);
    NoResults();
    assert Steadfast(core, next) && OwedBy(core) == OwedBy(next) by { PlanesOnly(core, next); }
    SteadfastChain(core, next, Core.ChangeProfile(core, panel, config, now).0.s);
  }

  lemma PlaneSettles(core: Core.State, panel: Core.Panel, now: nat, intent: Intent)
    requires Composition.Sound(core) && Core.PanelShaped(Size(core.w, core.h), panel)
    requires Core.PresentPlane(core, panel, now, intent).PlaneDone?
    ensures var m := Core.PresentPlane(core, panel, now, intent).moved; Settles(core, m.s, m.terminals)
  {
    hide Core.Tick, Core.Repaint, Size, Core.PanelShaped, Composition.Sound, Painted, Core.Picture;
    assert Core.Shaped(core) by { Composition.SoundShaped(core); }
    var f := Core.Tick(core, panel, now, true);
    Core.TickShaped(core, panel, now, true);
    Core.TickIdle(core, panel, now, true);
    Composition.TickSound(core, panel, now, true);
    TickSettles(core, panel, now, true);
    Composition.RepaintOutcome(f.s, f.panel, now, intent, f.terminals);
  }

  lemma FreezeSettles(core: Core.State)
    ensures var (after, terminals) := Core.Freeze(core);
            && Settles(core, after, terminals) && AllCancelled(terminals)
            && FrozenCore(after) && after.presentedId == core.presentedId
            && after.presentedBase == core.presentedBase
  {
    CancelSettles(core);
  }

  lemma CancelSettles(core: Core.State)
    ensures var (after, terminals) := Core.CancelPending(core);
            TerminalIds(terminals) == OwedBy(core) && OwedBy(after) == multiset{}
  {
    if core.pending.Some? {
      OneId(Core.Terminal(core.pending.value.frameId, Core.Cancelled, false));
    }
  }

  lemma PlaneParts(w: nat, h: nat, p: Plane)
    requires PlaneOk(w, h, p)
    ensures |p.luma| == |p.alpha| == Size(w, h)
  {
  }

  /** Replaced planes leave the buffers sound and the identities alone. */
  lemma ReplacedSound(core: Core.State, menu: Plane, peer: Plane, ink: Plane)
    requires Composition.Sound(core)
    requires PlaneOk(core.w, core.h, menu) && PlaneOk(core.w, core.h, peer) && PlaneOk(core.w, core.h, ink)
    ensures Composition.Sound(core.(menu := menu, peer := peer, ink := ink))
  {
    hide Size, InRect, ValidRect, PolicyOk;
  }

  // ------------------------------------------------------------- one event

  /** What every event of a session keeps. */
  ghost predicate Kept(s: State, received: multiset<nat>, p: Panelled) {
    && Sane(p.step.s)
    && PanelFits(p.step.s, p.panel)
    && ResultIds(p.step.results) + Owed(p.step.s) == Owed(s) + received
  }

  lemma Refuses(s: State, panel: Core.Panel, f: Semantic.WireFrame, code: Code, reason: Receiver.Reason)
    requires Sane(s) && PanelFits(s, panel)
    ensures Kept(s, multiset{f.frameId}, Panelled(Receiver.Step(s, [ImmediateResult(s, f, code, reason)]), panel))
  {
    hide Sane, PanelFits, ResultIds, Owed;
    OneResult(ImmediateResult(s, f, code, reason));
  }

  /** The surface with another sound core of the same size. */
  lemma CoreSane(s: State, core: Core.State)
    requires Sane(s) && s.surface.Some? && Composition.Sound(core)
    requires (core.w, core.h) == (s.surface.value.core.w, s.surface.value.core.h)
    requires s.surface.value.inkFrozen ==> FrozenCore(core)
    ensures Sane(WithCore(s, core)) && Owed(WithCore(s, core)) == OwedBy(core)
  {
    hide Composition.Sound, Core.Shaped, Size;
    assert Core.Shaped(core) by { Composition.SoundShaped(core); }
  }

  lemma SaneParts(s: State)
    requires Sane(s)
    ensures Shaped(s)
    ensures s.surface.Some? ==> Composition.Sound(s.surface.value.core) && SurfaceShaped(s.surface.value)
    ensures Frozen(s) ==> FrozenCore(s.surface.value.core)
  {
  }

  lemma CommitKept(s: State, panel: Core.Panel, codec: Semantic.Codec, f: Semantic.WireFrame, frame: Core.Frame, now: nat)
    requires Sane(s) && PanelFits(s, panel)
    requires EarlyRejection(s, f).None? && Semantic.Validated(codec, f, SemanticSurface(s)) == Semantic.Ok(frame)
    requires Core.CommitCheck(s.surface.value.core, frame).None?
    ensures Kept(s, multiset{f.frameId}, Panelled(AcceptFrame(s, codec, f, now), panel))
  {
    hide Semantic.Validated, ApplyAll, Composition.Sound, Size, Core.PanelShaped, Core.Shaped,
         DebtValid, ResultIds, FrozenCore, Core.CommitCheck, Sane, SurfaceShaped;
    SaneParts(s);
    var step := AcceptFrame(s, codec, f, now);
    var core, content := s.surface.value.core, KnownContent(f.content);
    var after := Core.Commit(core, frame, content, now).0;
    Semantic.AcceptedFrameApplies(codec, f, SemanticSurface(s));
    Composition.CommitSound(core, frame, content, now);
    CoreSane(s, after);
    OneResult(ImmediateResult(s, f, RejectedCode, Receiver.Reason.NoReason));
    if step.results != [] { OneResult(step.results[0]); }
  }

  lemma FrameKept(s: State, panel: Core.Panel, codec: Semantic.Codec, f: Semantic.WireFrame, now: nat)
    requires Sane(s) && PanelFits(s, panel)
    ensures var step := AcceptFrame(s, codec, f, now);
            Kept(s, multiset{f.frameId}, Panelled(step, panel))
  {
    hide Semantic.Validated, Core.CommitCheck, ApplyAll, Composition.Sound, Size, Core.PanelShaped, Core.Shaped,
         DebtValid, ResultIds, ImmediateResult, Kept, Sane, PanelFits, TerminalResult, SemanticReason;
    SaneParts(s);
    var step := AcceptFrame(s, codec, f, now);
    if EarlyRejection(s, f).Some? {
      Refuses(s, panel, f, RejectedCode, EarlyRejection(s, f).value);
    } else if Semantic.Validated(codec, f, SemanticSurface(s)).Err? {
      var (code, reason) := SemanticReason(Semantic.Validated(codec, f, SemanticSurface(s)).error);
      Refuses(s, panel, f, code, reason);
    } else {
      var core, content := s.surface.value.core, KnownContent(f.content);
      var frame := Semantic.Validated(codec, f, SemanticSurface(s)).value;
      if Core.Commit(core, frame, content, now).1.Refused? {
        var e := Core.Commit(core, frame, content, now).1.error;
        var (code, reason) := CommitReason(e);
        Refuses(s, panel, f, code, reason);
      } else {
        CommitKept(s, panel, codec, f, frame, now);
      }
    }
  }

  // ------------------------------------------------------------- the others

  /** The same surface under the same limits. */
  predicate SameSession(s: State, t: State) {
    && t.limits == s.limits && t.encodings == s.encodings && t.byteCreditsOn == s.byteCreditsOn
    && (s.surface.Some? <==> t.surface.Some?)
    && (s.surface.Some? ==>
          && t.surface.value.surfaceId == s.surface.value.surfaceId
          && t.surface.value.generation == s.surface.value.generation)
  }

  /** The same surface, whose core only did what is not a commit. */
  ghost predicate CoresSteadfast(s: State, t: State) {
    && SameSession(s, t)
    && (s.surface.Some? ==>
          Steadfast(s.surface.value.core, t.surface.value.core))
  }

  /** Results of local work: they grant no more than the limits, name the base
      the receiver still has or none, and a presented frame is that base. */
  ghost predicate Truthful(s: State, r: FrameResult) {
    && r.code != SupersededCode
    && (r.logicalId == 0 || r.logicalId == LogicalId(s))
    && (r.code == PresentedCode ==> r.logicalId == r.frameId)
    && r.credits <= s.limits.maxInflight
    && r.byteCredits <= s.limits.maxInflightBytes
  }

  ghost predicate AllTruthful(s: State, results: seq<FrameResult>) {
    forall k :: 0 <= k < |results| ==> Truthful(s, results[k])
  }

  /** `Kept`, on the same surface. */
  ghost predicate KeptHere(s: State, p: Panelled) {
    Kept(s, multiset{}, p) && CoresSteadfast(s, p.step.s) && AllTruthful(s, p.step.results)
  }

  lemma TerminalsTruthful(s: State, t: State, terminals: seq<Core.Terminal>)
    requires t.limits == s.limits && t.surface.Some? && (LogicalId(t) == LogicalId(s) || LogicalId(t) == 0)
    requires forall k :: 0 <= k < |terminals| ==> Honest(t.surface.value.core, terminals[k])
    ensures AllTruthful(s, TerminalResults(t, terminals))
  {
    var results := TerminalResults(t, terminals);
    forall k | 0 <= k < |results| ensures Truthful(s, results[k]) {
      assert Honest(t.surface.value.core, terminals[k]);
    }
  }

  /** A core operation that settled what it had to leaves the session in order. */
  lemma Concluded(s: State, t: State, m: Core.Moved)
    requires s.surface.Some? && Sane(t) && t.surface.Some? && t.surface.value.core == m.s
    requires SameSession(s, t)
    requires Core.PanelShaped(Size(m.s.w, m.s.h), m.panel)
    requires Settles(s.surface.value.core, m.s, m.terminals)
    ensures KeptHere(s, Panelled(Receiver.Step(t, TerminalResults(t, m.terminals)), m.panel))
  {
    hide Core.PanelShaped, Sane, TerminalIds, ResultIds, OwedBy, Honest, TerminalResult;
    TerminalsAreResults(t, m.terminals);
    assert LogicalId(t) == LogicalId(s) || LogicalId(t) == 0;
    TerminalsTruthful(s, t, m.terminals);
  }

  lemma CarrySane(s: State)
    requires Sane(s)
    ensures Sane(Carry(s)) && Owed(Carry(s)) == Owed(s)
    ensures Carry(s).surface == s.surface && SameSession(s, Carry(s))
  {
    hide Core.Shaped, Composition.BaseCurrent, Composition.Flags, FrozenCore, OwedBy;
  }

  lemma NoResults()
    ensures ResultIds([]) == multiset{} && TerminalIds([]) == multiset{}
  {
  }

  lemma SteadfastSelf(s: State)
    ensures CoresSteadfast(s, s)
  {
  }

  lemma PollKept(s: State, panel: Core.Panel, now: nat, idle: bool)
    requires Sane(s) && PanelFits(s, panel)
    ensures KeptHere(s, Poll(s, panel, now, idle))
  {
    hide Core.Tick, Core.TickInteractive, Composition.Sound, Size, Core.PanelShaped, Core.Shaped, FrozenCore,
         TerminalIds, ResultIds, Sane, Carry, SurfaceShaped, OwedBy;
    SaneParts(s);
    if s.surface.Some? {
      var core := s.surface.value.core;
      var m := if s.automaticCleanup then Core.TickInteractive(core, panel, now, idle)
               else Core.Tick(core, panel, now, false);
      InteractiveSettles(core, panel, now, idle);
      TickSettles(core, panel, now, false);
      Composition.InteractiveSound(core, panel, now, idle);
      Composition.TickSound(core, panel, now, false);
      Core.TickShaped(core, panel, now, false);
      CoreSane(s, m.s);
      CarrySane(WithCore(s, m.s));
      var t := Carry(WithCore(s, m.s));
      Concluded(s, t, m);
    } else {
      NoResults();
    }
  }

  /** Values of the carried debt are always ones a new surface accepts. */
  lemma DebtSane(s: State, carried: bool)
    requires Sane(s) && s.surface.Some?
    ensures DebtValid(DebtOf(s.surface.value.core.policy))
    ensures Sane(s.(debtCarried := DebtOf(s.surface.value.core.policy), cleanupCarried := carried))
  {
    hide Core.Shaped, Composition.BaseCurrent, Composition.Flags, FrozenCore;
  }

  lemma CleanupKept(s: State, panel: Core.Panel, now: nat)
    requires Sane(s) && PanelFits(s, panel)
    ensures KeptHere(s, RequestCleanup(s, panel, now))
  {
    hide Core.RequestCleanup, Composition.Sound, Size, Core.PanelShaped, Core.Shaped, FrozenCore,
         TerminalIds, ResultIds, SurfaceShaped, OwedBy, DebtOf, Steadfast;
    SaneParts(s);
    if s.surface.Some? {
      var core := s.surface.value.core;
      var (m, report) := Core.RequestCleanup(core, panel, now);
      CleanupSettles(core, panel, now);
      Composition.CleanupSound(core, panel, now);
      assert FrozenCore(core) ==> FrozenCore(m.s) by { SteadfastParts(core, m.s); }
      CoreSane(s, m.s);
      DebtSane(WithCore(s, m.s), report.pending);
      var t := WithCore(s, m.s).(debtCarried := DebtOf(m.s.policy), cleanupCarried := report.pending);
      Concluded(s, t, m);
    } else {
      NoResults();
    }
  }

  lemma ProfileKept(s: State, panel: Core.Panel, config: Config, now: nat)
    requires Sane(s) && PanelFits(s, panel) && Validate(config).None?
    ensures var r := SetProfile(s, panel, config, now); r.PanelDone? && KeptHere(s, r.value)
  {
    hide Core.ChangeProfile, Composition.Sound, Size, Core.PanelShaped, Core.Shaped, FrozenCore,
         TerminalIds, ResultIds, SurfaceShaped, OwedBy, Steadfast;
    SaneParts(s);
    if s.surface.Some? {
      var core := s.surface.value.core;
      var (m, report) := Core.ChangeProfile(core, panel, config, now);
      ProfileSettles(core, panel, config, now);
      Composition.ProfileSound(core, panel, config, now);
      SteadfastParts(core, m.s);
      CoreSane(s, m.s);
      var t := WithCore(s, m.s).(policy := config, cleanupCarried := report.pending);
      Concluded(s, t, m);
    } else {
      NoResults();
    }
  }

  lemma RefreshKept(s: State, panel: Core.Panel, config: Config)
    requires Sane(s) && PanelFits(s, panel) && Validate(config).None?
    ensures var r := Lift(UpdateRefresh(s, config), panel); r.PanelDone? && KeptHere(s, r.value)
  {
    hide Composition.Sound, Size, Core.PanelShaped, Core.Shaped, ResultIds, TerminalIds, SurfaceShaped, Validate, OwedBy;
    SaneParts(s);
    NoResults();
    if s.surface.Some? {
      var core := s.surface.value.core;
      var next := Core.UpdateConfig(core, config).0;
      Composition.ConfigSound(core, config);
      assert OwedBy(next) == OwedBy(core) by { SamePending(core, next); }
      CoreSane(s, next);
    } else {
      assert Sane(s.(policy := config));
    }
  }

  lemma SamePending(a: Core.State, b: Core.State)
    requires a.pending == b.pending
    ensures OwedBy(a) == OwedBy(b)
  {
  }

  // ------------------------------------------------------- freezing, planes

  lemma SurfaceSane(s: State, v: Surface)
    requires Sane(s) && SurfaceShaped(v) && Composition.Sound(v.core)
    requires v.inkFrozen ==> FrozenCore(v.core)
    ensures Sane(s.(surface := Some(v)))
  {
    hide Composition.Sound, SurfaceShaped, FrozenCore;
  }

  lemma Untouched(s: State, panel: Core.Panel)
    requires Sane(s) && PanelFits(s, panel)
    ensures KeptHere(s, Panelled(Receiver.Step(s, []), panel))
  {
    hide Sane, PanelFits, Steadfast;
    NoResults();
    if s.surface.Some? { SteadfastSame(s.surface.value.core); }
  }

  lemma FreezeKept(s: State, panel: Core.Panel, frozen: bool, now: nat)
    requires Sane(s) && PanelFits(s, panel)
    ensures var r := Tried(s, SetFrozen(s, frozen, now), panel); r.PanelDone? && KeptHere(s, r.value)
  {
    hide Composition.Sound, Size, Core.PanelShaped, ResultIds, TerminalIds, Core.Shaped, FrozenCore, Core.Freeze, OwedBy;
    SaneParts(s);
    NoResults();
    if s.surface.Some? {
      var u := s.surface.value;
      var (core, terminals) := Core.Freeze(u.core);
      FreezeSettles(u.core);
      Composition.FreezeInv(u.core);
      assert Composition.Sound(core) by { Composition.InvSound(core); }
      assert (core.w, core.h) == (u.core.w, u.core.h) by { FreezeSize(u.core); }
      FreezeShaped(u.core);
      var v := Rearmed(u, now).(inkFrozen := true, core := core);
      SurfaceSane(s, v);
      SurfaceSane(s, Rearmed(u, now).(inkFrozen := false));
      var t := s.(surface := Some(v));
      Concluded(s, t, Core.Moved(core, panel, terminals));
    }
  }

  /** Changed flags of the surface touch no core. */
  lemma FlagsKept(s: State, panel: Core.Panel, v: Surface)
    requires Sane(s) && PanelFits(s, panel) && s.surface.Some?
    requires v.core == s.surface.value.core && v.inkFrozen == s.surface.value.inkFrozen && SurfaceShaped(v)
    requires v.surfaceId == s.surface.value.surfaceId && v.generation == s.surface.value.generation
    ensures KeptHere(s, Panelled(Receiver.Step(s.(surface := Some(v)), []), panel))
  {
    hide Composition.Sound, Size, Core.PanelShaped, ResultIds, Core.Shaped, FrozenCore, OwedBy, Steadfast, SurfaceShaped, Sane;
    SaneParts(s);
    NoResults();
    SteadfastSame(v.core);
    SurfaceSane(s, v);
  }

  /** Switching local ink, or pausing it, touches no core. */
  lemma InkModeKept(s: State, panel: Core.Panel, on: bool, penAvailable: bool, now: nat)
    requires Sane(s) && PanelFits(s, panel)
    ensures var r := Tried(s, SetLocalInk(s, on, penAvailable, now), panel); r.PanelDone? && KeptHere(s, r.value)
    ensures var r := Tried(s, SetInkPaused(s, on, now), panel); r.PanelDone? && KeptHere(s, r.value)
  {
    hide KeptHere, PanelFits, Sane, Core.Shaped, Max;
    SaneParts(s);
    Untouched(s, panel);
    if s.surface.Some? {
      var u := s.surface.value;
      assert s == s.(surface := Some(u));
      FlagsKept(s, panel, u);
      FlagsKept(s, panel, Rearmed(u, now).(localInk := on));
      FlagsKept(s, panel, Rearmed(u, now).(inkPaused := on));
    }
  }

  lemma FreezeSize(core: Core.State)
    ensures var t := Core.Freeze(core).0; (t.w, t.h) == (core.w, core.h)
  {
  }

  /** Edited planes and then a core operation. */
  lemma EditedConcluded(s: State, t: State, m: Core.Moved)
    requires s.surface.Some? && Sane(t) && SameSession(s, t) && Composition.Sound(m.s)
    requires var a, b := s.surface.value.core, t.surface.value.core;
             && (m.s.w, m.s.h) == (b.w, b.h)
             && Steadfast(a, b) && OwedBy(b) == OwedBy(a)
             && Settles(b, m.s, m.terminals)
    requires Core.PanelShaped(Size(m.s.w, m.s.h), m.panel)
    ensures var end := WithCore(t, m.s);
            KeptHere(s, Panelled(Receiver.Step(end, TerminalResults(end, m.terminals)), m.panel))
  {
    hide Composition.Sound, Size, Core.PanelShaped, FrozenCore, TerminalIds, OwedBy, Sane, Steadfast, Honest, KeptHere;
    SaneParts(t);
    SteadfastParts(t.surface.value.core, m.s);
    SteadfastChain(s.surface.value.core, t.surface.value.core, m.s);
    CoreSane(t, m.s);
    Concluded(s, WithCore(t, m.s), m);
  }

  /** Presenting edited planes. */
  lemma PlanesKept(s: State, t: State, panel: Core.Panel, now: nat, intent: Intent)
    requires Sane(s) && s.surface.Some? && PanelFits(s, panel)
    requires Sane(t) && SameSession(s, t)
    requires var a, b := s.surface.value.core, t.surface.value.core;
             && (a.w, a.h) == (b.w, b.h)
             && Steadfast(a, b) && OwedBy(b) == OwedBy(a)
    requires Core.Shaped(t.surface.value.core)
    requires Core.PanelShaped(Size(t.surface.value.core.w, t.surface.value.core.h), panel)
    ensures var r := PresentPlanes(t, panel, t.surface.value.core, now, intent);
            r.PanelDone? ==>
              && KeptHere(s, r.value)
              && r.value.step.s.surface.Some?
              && r.value.step.s == WithCore(t, r.value.step.s.surface.value.core)
  {
    hide Core.PresentPlane, Composition.Sound, Size, Core.PanelShaped, Core.Shaped, FrozenCore,
         OwedBy, Sane, Steadfast, Settles, KeptHere, TerminalResult;
    SaneParts(t);
    var core := t.surface.value.core;
    var r := Core.PresentPlane(core, panel, now, intent);
    if r.PlaneDone? {
      Composition.PresentPlaneSound(core, panel, now, intent);
      PlaneSettles(core, panel, now, intent);
      EditedConcluded(s, t, r.moved);
    }
  }

  /** Cores that differ in their planes only. */
  lemma PlanesOnly(a: Core.State, b: Core.State)
    requires a.base == b.base && a.presentedBase == b.presentedBase && a.presentedId == b.presentedId
    requires a.pending == b.pending && a.baseValid == b.baseValid && a.logicalId == b.logicalId
    requires (a.w, a.h, a.format) == (b.w, b.h, b.format)
    ensures Steadfast(a, b) && Steadfast(b, a) && OwedBy(a) == OwedBy(b)
    ensures FrozenCore(a) <==> FrozenCore(b)
  {
  }

  lemma ClearedOk(w: nat, h: nat, p: Plane)
    requires PlaneOk(w, h, p)
    ensures PlaneOk(w, h, Cleared(p))
  {
    hide Size;
  }

  lemma CorePlanes(core: Core.State)
    requires Core.Shaped(core)
    ensures PlaneOk(core.w, core.h, core.menu) && PlaneOk(core.w, core.h, core.peer) && PlaneOk(core.w, core.h, core.ink)
    ensures core.w > 0 && core.h > 0
  {
  }

  lemma MenuPlaneOk(w: nat, h: nat, luma: seq<bv8>, alpha: seq<bv8>, old_: Plane)
    requires |luma| == |alpha| == Size(w, h) && PlaneOk(w, h, old_)
    ensures PlaneOk(w, h, Plane(luma, alpha, AllZero(alpha), old_.dirty))
  {
    hide Size;
  }

  lemma MenuKept(s: State, panel: Core.Panel, luma: seq<bv8>, alpha: seq<bv8>, now: nat)
    requires Sane(s) && PanelFits(s, panel)
    requires s.surface.Some? ==> |luma| == |alpha| == Size(s.surface.value.core.w, s.surface.value.core.h)
    ensures var r := RenderMenu(s, panel, luma, alpha, now); r.PanelDone? ==> KeptHere(s, r.value)
  {
    hide PresentPlanes, Composition.Sound, Size, Core.PanelShaped, Core.Shaped, FrozenCore,
         ResultIds, OwedBy, Sane, PlaneOk, Steadfast, Carry, TerminalIds;
    SaneParts(s);
    NoResults();
    if s.surface.Some? {
      var core := s.surface.value.core;
      var menu := Plane(luma, alpha, AllZero(alpha), core.menu.dirty);
      CorePlanes(core);
      MenuPlaneOk(core.w, core.h, luma, alpha, core.menu);
      ReplacedSound(core, menu, core.peer, core.ink);
      var edited := core.(menu := menu);
      assert edited == core.(menu := menu, peer := core.peer, ink := core.ink);
      PlanesOnly(core, edited);
      assert Core.Shaped(edited) by { Composition.SoundShaped(edited); }
      CoreSane(s, edited);
      PlanesKept(s, WithCore(s, edited), panel, now, Settled);
      PlanesCore(s, panel, edited, now, Settled);
      var r := PresentPlanes(s, panel, edited, now, Settled);
      if r.PanelDone? {
        CarrySane(r.value.step.s);
        CarryFits(s, r.value);
      }
    } else {
      SteadfastSelf(s);
    }
  }

  lemma CarryFits(s: State, p: Panelled)
    requires KeptHere(s, p)
    ensures KeptHere(s, p.(step := p.step.(s := Carry(p.step.s))))
  {
    hide ResultIds, Sane, Core.PanelShaped, Size, Steadfast, OwedBy;
    CarrySane(p.step.s);
  }

  lemma ClearInkKept(s: State, panel: Core.Panel, now: nat)
    requires Sane(s) && PanelFits(s, panel)
    ensures var r := ClearInk(s, panel, now); r.PanelDone? ==> KeptHere(s, r.value)
  {
    hide PresentPlanes, Composition.Sound, Size, Core.PanelShaped, Core.Shaped, FrozenCore,
         ResultIds, OwedBy, Sane, PlaneOk, Steadfast, Cleared;
    SaneParts(s);
    if s.surface.Some? {
      var u := s.surface.value;
      var core := u.core;
      CorePlanes(core);
      ClearedOk(core.w, core.h, core.ink);
      ReplacedSound(core, core.menu, core.peer, Cleared(core.ink));
      var edited := core.(ink := Cleared(core.ink));
      assert edited == core.(menu := core.menu, peer := core.peer, ink := Cleared(core.ink));
      PlanesOnly(core, edited);
      assert Core.Shaped(edited) by { Composition.SoundShaped(edited); }
      var v := Rearmed(u, now).(core := edited);
      SurfaceSane(s, v);
      var t := s.(surface := Some(v));
      PlanesKept(s, t, panel, now, Latest);
      PlanesCore(s.(surface := Some(Rearmed(u, now))), panel, edited, now, Latest);
    }
  }

  lemma OverlayKept(s: State, panel: Core.Panel, u: OverlayUpdate, now: nat)
    requires Sane(s) && PanelFits(s, panel)
    ensures var r := UpdateOverlay(s, panel, u, now); r.PanelDone? ==> KeptHere(s, r.value)
  {
    hide PresentPlanes, Composition.Sound, Size, Core.PanelShaped, Core.Shaped, FrozenCore,
         ResultIds, OwedBy, PlaneOk, Steadfast, Cleared, Patched, PatchOk, Sane;
    SaneParts(s);
    NoResults();
    var t := Sequenced(s, u);
    assert Sane(t) by { SequencedSane(s, u); }
    SteadfastSelf(s);
    if OverlayAcceptable(s, u) {
      var v := s.surface.value;
      OverlaySane(v, u, now);
      var edited := OverlayEdited(v, u, now);
      SurfaceSane(t, edited);
      PlanesKept(s, t.(surface := Some(edited)), panel, now, Settled);
    }
  }

  lemma SequencedSane(s: State, u: OverlayUpdate)
    requires Sane(s)
    ensures Sane(Sequenced(s, u))
  {
    hide Core.Shaped, Composition.Sound, FrozenCore;
  }

  lemma OverlaySane(v: Surface, u: OverlayUpdate, now: nat)
    requires SurfaceShaped(v) && Composition.Sound(v.core) && (v.inkFrozen ==> FrozenCore(v.core))
    requires u.rect.Some? ==> PatchOk(v.core.w, v.core.h, u.rect.value, u.luma, u.alpha)
    ensures var e := OverlayEdited(v, u, now);
            && SurfaceShaped(e) && Composition.Sound(e.core) && (e.inkFrozen ==> FrozenCore(e.core))
            && (e.core.w, e.core.h) == (v.core.w, v.core.h)
            && Steadfast(v.core, e.core) && OwedBy(e.core) == OwedBy(v.core)
  {
    hide Composition.Sound, Size, Core.Shaped, FrozenCore, OwedBy, PlaneOk, Steadfast, Cleared, Patched, PatchOk;
    EditedShaped(v, u, now);
    var e := OverlayEdited(v, u, now);
    CorePlanes(v.core);
    CorePlanes(e.core);
    ReplacedSound(v.core, v.core.menu, e.core.peer, e.core.ink);
    assert e.core == v.core.(menu := v.core.menu, peer := e.core.peer, ink := e.core.ink);
    PlanesOnly(v.core, e.core);
  }

  // --------------------------------------------------------------- pen, life

  ghost predicate SurfaceOk(v: Surface) {
    SurfaceShaped(v) && Composition.Sound(v.core) && (v.inkFrozen ==> FrozenCore(v.core))
  }

  predicate AllCancelled(terminals: seq<Core.Terminal>) {
    forall k :: 0 <= k < |terminals| ==> terminals[k].outcome == Core.Cancelled
  }

  predicate SameNames(u: Surface, v: Surface) {
    u.surfaceId == v.surfaceId && u.generation == v.generation && (u.core.w, u.core.h) == (v.core.w, v.core.h)
  }

  lemma StrokeOk(core: Core.State, from: Point, to: Point, radius: nat, erase: bool)
    requires Composition.Sound(core) && Core.Shaped(core)
    requires OnPanel(core.w, core.h, from) && OnPanel(core.w, core.h, to)
    ensures var t := core.(ink := InkLine(core.w, core.h, core.ink, from, to, radius, erase));
            Composition.Sound(t) && Steadfast(core, t) && OwedBy(t) == OwedBy(core) && (FrozenCore(core) <==> FrozenCore(t))
  {
    hide Composition.Sound, Size, Core.Shaped, FrozenCore, OwedBy, PlaneOk, Steadfast, InkLine, ValidRect;
    CorePlanes(core);
    InkLineDirty(core.w, core.h, core.ink, from, to, radius, erase);
    var ink := InkLine(core.w, core.h, core.ink, from, to, radius, erase);
    ReplacedSound(core, core.menu, core.peer, ink);
    var t := core.(ink := ink);
    assert t == core.(menu := core.menu, peer := core.peer, ink := ink);
    PlanesOnly(core, t);
  }

  /** One record: what it freezes is settled, and a frozen core only gains ink. */
  lemma InkRecordKept(u: Surface, r: PenRecord, now: nat, physical: bool, freezeOnDown: bool)
    requires SurfaceOk(u)
    ensures var i := InkRecord(u, r, now, physical, freezeOnDown);
            && SurfaceOk(i.u) && SameNames(u, i.u)
            && Settles(u.core, i.u.core, i.terminals) && AllCancelled(i.terminals)
  {
    hide Composition.Sound, Size, Core.Shaped, FrozenCore, OwedBy, Steadfast, InkLine, TerminalIds, Core.Freeze, OnPanel, Clamped;
    InkRecordShaped(u, r, now, physical, freezeOnDown);
    NoResults();
    SteadfastSame(u.core);
    CorePlanes(u.core);
    var (core, terminals) := Core.Freeze(u.core);
    FreezeSettles(u.core);
    FreezeShaped(u.core);
    FreezeSize(u.core);
    Composition.FreezeInv(u.core);
    Composition.InvSound(core);
    var point := Clamped(u.core, r);
    ClampedOn(u.core, r);
    ClampedOn(core, r);
    assert Clamped(core, r) == point by { ClampedSame(u.core, core, r); }
    var from := if u.penPoint.Some? then u.penPoint.value else point;
    var radius := if r.erase then ERASER_RADIUS else PEN_RADIUS;
    StrokeOk(u.core, from, point, radius, r.erase);
    StrokeOk(core, from, point, radius, r.erase);
    CorePlanes(core);
    PlaneParts(core.w, core.h, core.ink);
    SteadfastChain(u.core, core, core.(ink := InkLine(core.w, core.h, core.ink, from, point, radius, r.erase)));
  }

  lemma ClampedOn(core: Core.State, r: PenRecord)
    requires core.w > 0 && core.h > 0
    ensures OnPanel(core.w, core.h, Clamped(core, r))
  {
  }

  lemma ClampedSame(a: Core.State, b: Core.State, r: PenRecord)
    requires a.w > 0 && a.h > 0 && (a.w, a.h) == (b.w, b.h)
    ensures Clamped(a, r) == Clamped(b, r)
  {
  }

  lemma PenStepKept(u: Surface, i: PenInput, now: nat, physical: bool, freezeOnDown: bool)
    requires SurfaceOk(u)
    ensures var t := PenStep(u, i, now, physical, freezeOnDown);
            && SurfaceOk(t.u) && SameNames(u, t.u)
            && Settles(u.core, t.u.core, t.terminals) && AllCancelled(t.terminals)
  {
    hide Composition.Sound, Core.Shaped, FrozenCore, InkRecord, TerminalIds, OwedBy, Steadfast, OnPanel;
    NoResults();
    SteadfastSame(u.core);
    if i.Inking? { InkRecordKept(Followed(u, i.record), i.record, now, physical, freezeOnDown); }
  }

  lemma {:induction false} PenStepsKept(u: Surface, inputs: seq<PenInput>, now: nat, physical: bool, freezeOnDown: bool)
    requires SurfaceOk(u)
    ensures var i := PenSteps(u, inputs, now, physical, freezeOnDown);
            && SurfaceOk(i.u) && SameNames(u, i.u)
            && Settles(u.core, i.u.core, i.terminals) && AllCancelled(i.terminals)
    decreases |inputs|
  {
    hide SurfaceShaped, Composition.Sound, FrozenCore, PenStep, TerminalIds, OwedBy, Steadfast;
    if inputs == [] {
      NoResults();
      SteadfastSame(u.core);
    } else {
      var first := PenStep(u, inputs[0], now, physical, freezeOnDown);
      PenStepKept(u, inputs[0], now, physical, freezeOnDown);
      PenStepsKept(first.u, inputs[1..], now, physical, freezeOnDown);
      var rest := PenSteps(first.u, inputs[1..], now, physical, freezeOnDown);
      TerminalsConcat(first.terminals, rest.terminals);
      SteadfastChain(u.core, first.u.core, rest.u.core);
    }
  }

  lemma PenKept(s: State, panel: Core.Panel, pen: PenReports, now: nat)
    requires Sane(s) && PanelFits(s, panel)
    ensures var r := PenReport(s, panel, pen, now); r.PanelDone? ==> KeptHere(s, r.value)
  {
    hide PresentPlanes, Composition.Sound, Size, Core.PanelShaped, Core.Shaped, FrozenCore, SurfaceShaped, PenSteps,
         ResultIds, OwedBy, Steadfast, TerminalIds, Sane, Reaching;
    SaneParts(s);
    NoResults();
    if s.surface.Some? {
      var u := s.surface.value;
      var inputs := Reaching(s, pen, now);
      var inked := PenSteps(u, inputs, now, pen.physical, s.freezeOnPenDown);
      PenStepsKept(u, inputs, now, pen.physical, s.freezeOnPenDown);
      var t := s.(surface := Some(inked.u));
      SurfaceSane(s, inked.u);
      var early := TerminalResults(t, inked.terminals);
      Concluded(s, t, Core.Moved(inked.u.core, panel, inked.terminals));
      if inked.u.localInk {
        assert WithCore(t, inked.u.core) == t;
        SteadfastSame(inked.u.core);
        assert Core.Shaped(inked.u.core) by { Composition.SoundShaped(inked.u.core); }
        PlanesKept(t, t, panel, now, Latest);
        var r := PresentPlanes(t, panel, inked.u.core, now, Latest);
        if r.PanelDone? {
          KeptChain(s, t, panel, early, r.value);
        }
      }
    }
  }

  lemma TruthfulChain(s: State, t: State, early: seq<FrameResult>, late: seq<FrameResult>)
    requires CoresSteadfast(s, t) && AllTruthful(s, early) && AllTruthful(t, late)
    ensures AllTruthful(s, early + late)
  {
    hide FrozenCore;
    var all := early + late;
    forall k | 0 <= k < |all| ensures Truthful(s, all[k]) {
      if k >= |early| { assert Truthful(t, late[k - |early|]); }
    }
  }

  lemma KeptChain(s: State, t: State, panel: Core.Panel, early: seq<FrameResult>, p: Panelled)
    requires KeptHere(s, Panelled(Receiver.Step(t, early), panel)) && KeptHere(t, p)
    ensures KeptHere(s, p.(step := p.step.(results := early + p.step.results)))
  {
    hide Sane, PanelFits, ResultIds, Steadfast, OwedBy, AllTruthful;
    ResultsConcat(early, p.step.results);
    TruthfulChain(s, t, early, p.step.results);
    assert ResultIds(early + p.step.results) + Owed(p.step.s) == Owed(s) by {
      assert ResultIds(early) + Owed(t) == Owed(s);
      assert ResultIds(p.step.results) + Owed(p.step.s) == Owed(t);
    }
    if s.surface.Some? {
      SteadfastChain(s.surface.value.core, t.surface.value.core, p.step.s.surface.value.core);
    }
  }

  lemma FreshSound(s: State, format: Format, w: nat, h: nat)
    requires w > 0 && h > 0 && Validate(s.policy).None? && DebtValid(CarriedDebt(s))
    ensures var core := FreshCore(s, format, w, h);
            Composition.Sound(core) && (core.w, core.h) == (w, h) && core.pending.None? && !core.baseValid
  {
    hide Size;
    Composition.NewInv(w, h, format, s.limits.maxFpsX100, s.limits.settledDeadline, s.policy);
  }

  lemma TurnedOverKept(s: State)
    requires Sane(s)
    ensures var t := TurnedOver(s);
            && ResultIds(t.results) == Owed(s)
            && Validate(t.s.policy).None? && DebtValid(t.s.debtCarried) && DebtValid(CarriedDebt(s))
  {
    hide Composition.Sound, Core.Shaped, FrozenCore, ResultIds, TerminalIds, OwedBy, TerminalResult, DebtOf, Core.CancelPending;
    NoResults();
    if s.surface.Some? {
      DebtSane(s, false);
      CancelSettles(s.surface.value.core);
      var (core, terminals) := Core.CancelPending(s.surface.value.core);
      var generation := Max(s.nextGeneration, 1);
      var carried := s.(nextGeneration := NextGeneration(generation), cleanupCarried := CarriedCleanup(s),
                        debtCarried := CarriedDebt(s));
      TerminalsAreResults(WithCore(carried, core), terminals);
    }
  }

  /** Opening a surface never fails on the carried debt, cancels what was
      pending, and starts without a base. */
  lemma OpenKept(s: State, panel: Core.Panel, open: SurfaceOpen, w: nat, h: nat, now: nat)
    requires Sane(s) && PanelFits(s, panel) && Core.PanelShaped(Size(w, h), panel)
    ensures OpenSurface(s, open, w, h, now).Done? <==> open.surfaceId != 0 && w != 0 && h != 0
    ensures var r := Lift(OpenSurface(s, open, w, h, now), panel);
            r.PanelDone? ==> Kept(s, multiset{}, r.value) && !r.value.step.s.surface.value.core.baseValid
  {
    hide Composition.Sound, Size, Core.PanelShaped, Core.Shaped, FrozenCore, ResultIds, OwedBy, FreshCore, TurnedOver, CarriedDebt;
    TurnedOverKept(s);
    if open.surfaceId != 0 && w != 0 && h != 0 {
      FreshSound(s, open.format, w, h);
      var core := FreshCore(s, open.format, w, h);
      assert Core.Shaped(core) by { Composition.SoundShaped(core); }
      assert OwedBy(core) == multiset{} by { NothingOwed(core); }
    }
  }

  lemma NothingOwed(core: Core.State)
    requires core.pending.None?
    ensures OwedBy(core) == multiset{}
  {
  }

  lemma CloseKept(s: State, panel: Core.Panel, surfaceId: nat, generation: nat)
    requires Sane(s) && PanelFits(s, panel)
    ensures Kept(s, multiset{}, Panelled(CloseSurface(s, surfaceId, generation), panel))
  {
    hide Composition.Sound, Size, Core.PanelShaped, Core.Shaped, FrozenCore, ResultIds, TerminalIds, OwedBy, TerminalResult, DebtOf;
    NoResults();
    if s.surface.Some? {
      var (core, terminals) := Core.CancelPending(s.surface.value.core);
      CancelSettles(s.surface.value.core);
      DebtSane(s, false);
      assert DebtOf(core.policy) == DebtOf(s.surface.value.core.policy);
      TerminalsAreResults(Carry(WithCore(s, core)), terminals);
    }
  }

  lemma HandleKept(s: State, panel: Core.Panel, codec: Semantic.Codec, e: Event)
    requires Sane(s) && PanelFits(s, panel) && Enabled(s, panel, e) && Handle(s, panel, codec, e).PanelDone?
    ensures var p := Handle(s, panel, codec, e).value;
            && Kept(s, Received(e), p)
            && (!e.FrameEvent? && !e.OpenEvent? && !e.CloseEvent? ==> KeptHere(s, p))
  {
    hide AcceptFrame, Poll, SetFrozen, RequestCleanup, SetProfile, UpdateRefresh, RenderMenu, ClearInk, UpdateOverlay,
         SetLocalInk, SetInkPaused, PenReport, OpenSurface, CloseSurface, Kept, CoresSteadfast, AllTruthful, Sane, PanelFits, Core.PanelShaped, Size;
    match e
    case FrameEvent(frame, now) => FrameKept(s, panel, codec, frame, now);
    case PollEvent(now, idle) => PollKept(s, panel, now, idle);
    case FreezeEvent(frozen, now) => FreezeKept(s, panel, frozen, now);
    case CleanupEvent(now) => CleanupKept(s, panel, now);
    case ProfileEvent(config, now) => ProfileKept(s, panel, config, now);
    case RefreshEvent(config) => RefreshKept(s, panel, config);
    case MenuEvent(luma, alpha, now) => MenuKept(s, panel, luma, alpha, now);
    case ClearInkEvent(now) =>
      Untouched(s, panel);
      ClearInkKept(s, panel, now);
    case LocalInkEvent(enabled, penAvailable, now) => InkModeKept(s, panel, enabled, penAvailable, now);
    case PauseInkEvent(paused, now) => InkModeKept(s, panel, paused, true, now);
    case OverlayEvent(update, now) => OverlayKept(s, panel, update, now);
    case PenEvent(pen, now) => PenKept(s, panel, pen, now);
    case OpenEvent(open, w, h, now) => OpenKept(s, panel, open, w, h, now);
    case CloseEvent(surfaceId, generation) => CloseKept(s, panel, surfaceId, generation);
  }

  // ------------------------------------------------------------------- runs

  datatype Served = Served(s: State, panel: Core.Panel, results: seq<FrameResult>)

  /** A whole session run; `None` once an event failed. */
  ghost function Serve(s: State, panel: Core.Panel, codec: Semantic.Codec, events: seq<Event>): Option<Served>
    requires Sane(s) && PanelFits(s, panel)
    decreases |events|
  {
    if events == [] then Some(Served(s, panel, []))
    else if !Enabled(s, panel, events[0]) then None
    else
      match Handle(s, panel, codec, events[0])
      case PanelFailed => None
      case PanelDone(p) =>
        HandleKept(s, panel, codec, events[0]);
        match Serve(p.step.s, p.panel, codec, events[1..])
        case None => None
        case Some(r) => Some(Served(r.s, r.panel, p.step.results + r.results))
  }

  function AllReceived(events: seq<Event>): multiset<nat> {
    if events == [] then multiset{} else Received(events[0]) + AllReceived(events[1..])
  }

  lemma BalanceChain(first: multiset<nat>, rest: multiset<nat>, a: multiset<nat>, b: multiset<nat>, c: multiset<nat>,
                     got: multiset<nat>, more: multiset<nat>)
    requires first + b == a + got && rest + c == b + more
    ensures (first + rest) + c == a + (got + more)
  {
    assert (first + rest) + c == first + (rest + c);
    assert (a + got) + more == a + (got + more);
    assert first + (b + more) == (first + b) + more;
  }

  /** Exactly one result per frame: over any run that does not fail, whatever
      superseding, freezing, cleanup, plane work, surface replacement and panel
      failure happened, the results sent and the frame still pending are the
      frames received and the one pending at the start. */
  lemma {:induction false} OneResultPerFrame(s: State, panel: Core.Panel, codec: Semantic.Codec, events: seq<Event>)
    requires Sane(s) && PanelFits(s, panel) && Serve(s, panel, codec, events).Some?
    ensures var r := Serve(s, panel, codec, events).value;
            && Sane(r.s) && PanelFits(r.s, r.panel)
            && ResultIds(r.results) + Owed(r.s) == Owed(s) + AllReceived(events)
            && |Owed(r.s)| <= 1
    decreases |events|
  {
    hide Handle, Sane, ResultIds, Enabled, PanelFits, Received;
    if events == [] {
      NoResults();
    } else {
      SaneParts(s);
      var p := Handle(s, panel, codec, events[0]).value;
      HandleKept(s, panel, codec, events[0]);
      OneResultPerFrame(p.step.s, p.panel, codec, events[1..]);
      var r := Serve(p.step.s, p.panel, codec, events[1..]).value;
      ResultsConcat(p.step.results, r.results);
      BalanceChain(ResultIds(p.step.results), ResultIds(r.results), Owed(s), Owed(p.step.s), Owed(r.s),
                   Received(events[0]), AllReceived(events[1..]));
    }
  }

  // ----------------------------------------------------------------- frozen

  /** The events that may lift the barrier or end the surface. */
  predicate Releases(e: Event) {
    match e
    case FreezeEvent(frozen, _) => !frozen
    case OverlayEvent(update, _) => update.localInk == Some(false)
    case OpenEvent(_, _, _, _) => true
    case CloseEvent(_, _) => true
    case _ => false
  }

  lemma {:induction false} InkStaysFrozen(u: Surface, inputs: seq<PenInput>, now: nat, physical: bool, freezeOnDown: bool)
    requires SurfaceShaped(u) && u.inkFrozen
    ensures PenSteps(u, inputs, now, physical, freezeOnDown).u.inkFrozen
    decreases |inputs|
  {
    hide SurfaceShaped, InkLine, Core.Freeze, Clamped;
    if inputs != [] {
      PenStepShaped(u, inputs[0], now, physical, freezeOnDown);
      InkStaysFrozen(PenStep(u, inputs[0], now, physical, freezeOnDown).u, inputs[1..], now, physical, freezeOnDown);
    }
  }

  lemma PlanesKeepFlag(s: State, panel: Core.Panel, core: Core.State, now: nat, intent: Intent)
    requires s.surface.Some? && Core.Shaped(core) && Core.PanelShaped(Size(core.w, core.h), panel)
    ensures var r := PresentPlanes(s, panel, core, now, intent); r.PanelDone? ==> Frozen(r.value.step.s) == Frozen(s)
  {
    hide Core.PresentPlane, Core.Shaped, Core.PanelShaped, Size;
  }

  lemma PenStaysFrozen(s: State, panel: Core.Panel, pen: PenReports, now: nat)
    requires Sane(s) && PanelFits(s, panel) && Frozen(s)
    ensures var r := PenReport(s, panel, pen, now); r.PanelDone? ==> Frozen(r.value.step.s)
  {
    hide PresentPlanes, PenSteps, Core.Shaped, Core.PanelShaped, Size, Composition.Sound, FrozenCore, OnPanel, TerminalResult,
         Reaching;
    var inputs := Reaching(s, pen, now);
    InkStaysFrozen(s.surface.value, inputs, now, pen.physical, s.freezeOnPenDown);
    PenStepsShaped(s.surface.value, inputs, now, pen.physical, s.freezeOnPenDown);
    var inked := PenSteps(s.surface.value, inputs, now, pen.physical, s.freezeOnPenDown);
    PlanesKeepFlag(s.(surface := Some(inked.u)), panel, inked.u.core, now, Latest);
  }

  lemma OverlayStaysFrozen(s: State, panel: Core.Panel, u: OverlayUpdate, now: nat)
    requires Sane(s) && PanelFits(s, panel) && Frozen(s) && u.localInk != Some(false)
    ensures var r := UpdateOverlay(s, panel, u, now); r.PanelDone? ==> Frozen(r.value.step.s)
  {
    hide PresentPlanes, Core.Shaped, Core.PanelShaped, Size, Composition.Sound, FrozenCore, OnPanel, PatchOk, Patched, Cleared;
    if OverlayAcceptable(s, u) {
      EditedShaped(s.surface.value, u, now);
      var edited := OverlayEdited(s.surface.value, u, now);
      PlanesKeepFlag(Sequenced(s, u).(surface := Some(edited)), panel, edited.core, now, Settled);
    }
  }

  lemma MenuStaysFrozen(s: State, panel: Core.Panel, luma: seq<bv8>, alpha: seq<bv8>, now: nat)
    requires Sane(s) && PanelFits(s, panel) && Frozen(s)
    requires |luma| == |alpha| == Size(s.surface.value.core.w, s.surface.value.core.h)
    ensures var r := RenderMenu(s, panel, luma, alpha, now); r.PanelDone? ==> Frozen(r.value.step.s)
  {
    hide PresentPlanes, Core.Shaped, Core.PanelShaped, Size, Composition.Sound, FrozenCore, OnPanel, PlaneOk;
    SaneParts(s);
    var core := s.surface.value.core;
    CorePlanes(core);
    var menu := Plane(luma, alpha, AllZero(alpha), core.menu.dirty);
    MenuPlaneOk(core.w, core.h, luma, alpha, core.menu);
    ReplacedSound(core, menu, core.peer, core.ink);
    var edited := core.(menu := menu);
    assert edited == core.(menu := menu, peer := core.peer, ink := core.ink);
    Composition.SoundShaped(edited);
    PlanesKeepFlag(s, panel, edited, now, Settled);
  }

  lemma ClearInkStaysFrozen(s: State, panel: Core.Panel, now: nat)
    requires Sane(s) && PanelFits(s, panel) && Frozen(s)
    ensures var r := ClearInk(s, panel, now); r.PanelDone? ==> Frozen(r.value.step.s)
  {
    hide PresentPlanes, Core.Shaped, Core.PanelShaped, Size, Composition.Sound, FrozenCore, OnPanel, PlaneOk, Cleared;
    SaneParts(s);
    var u := s.surface.value;
    CorePlanes(u.core);
    ClearedOk(u.core.w, u.core.h, u.core.ink);
    ReplacedSound(u.core, u.core.menu, u.core.peer, Cleared(u.core.ink));
    var edited := u.core.(ink := Cleared(u.core.ink));
    assert edited == u.core.(menu := u.core.menu, peer := u.core.peer, ink := Cleared(u.core.ink));
    Composition.SoundShaped(edited);
    PlanesKeepFlag(s.(surface := Some(Rearmed(u, now))), panel, edited, now, Latest);
  }

  /** Only a release, or the end of the surface, lifts the barrier. */
  lemma StaysFrozen(s: State, panel: Core.Panel, codec: Semantic.Codec, e: Event)
    requires Sane(s) && PanelFits(s, panel) && Enabled(s, panel, e) && Handle(s, panel, codec, e).PanelDone?
    requires Frozen(s) && !Releases(e)
    ensures Frozen(Handle(s, panel, codec, e).value.step.s)
  {
    hide RenderMenu, ClearInk, UpdateOverlay, PenReport, OpenSurface, CloseSurface, Sane, PanelFits, Core.PanelShaped,
         Size, Core.Tick, Core.TickInteractive, Core.RequestCleanup, Core.ChangeProfile, Core.UpdateConfig, TerminalResult;
    SaneParts(s);
    match e
    case MenuEvent(luma, alpha, now) => MenuStaysFrozen(s, panel, luma, alpha, now);
    case ClearInkEvent(now) => ClearInkStaysFrozen(s, panel, now);
    case LocalInkEvent(enabled, penAvailable, now) =>
    case PauseInkEvent(paused, now) =>
    case OverlayEvent(update, now) => OverlayStaysFrozen(s, panel, update, now);
    case PenEvent(pen, now) => PenStaysFrozen(s, panel, pen, now);
    case FrameEvent(frame, now) =>
    case PollEvent(now, idle) =>
    case FreezeEvent(frozen, now) =>
    case CleanupEvent(now) =>
    case ProfileEvent(config, now) =>
    case RefreshEvent(config) =>
    case OpenEvent(open, w, h, now) =>
    case CloseEvent(surfaceId, generation) =>
  }

  /** What a frame is told while frozen: refused with that reason, and nothing
      else happens. */
  lemma FrozenRefuses(s: State, codec: Semantic.Codec, f: Semantic.WireFrame, now: nat)
    requires Sane(s) && Frozen(s)
    ensures var step := AcceptFrame(s, codec, f, now);
            && step.s == s
            && step.results == [ImmediateResult(s, f, RejectedCode, InkFrozen)]
  {
    hide Sane, ImmediateResult;
    SaneParts(s);
  }

  /** Frozen means frozen: over every run without a release, no frame is
      pending, the base is the presented base, and neither the base nor the
      presented identity moves. */
  lemma {:induction false} FrozenMeansFrozen(s: State, panel: Core.Panel, codec: Semantic.Codec, events: seq<Event>)
    requires Sane(s) && PanelFits(s, panel) && Serve(s, panel, codec, events).Some?
    requires Frozen(s) && forall k :: 0 <= k < |events| ==> !Releases(events[k])
    ensures var t := Serve(s, panel, codec, events).value.s;
            && Frozen(t)
            && var a, b := s.surface.value.core, t.surface.value.core;
               && b.pending.None? && !b.baseValid
               && b.base == b.presentedBase == a.base
               && b.presentedId == a.presentedId
    decreases |events|
  {
    hide Handle, Sane, Enabled, PanelFits, Kept, AcceptFrame;
    SaneParts(s);
    if events != [] {
      var p := Handle(s, panel, codec, events[0]).value;
      HandleKept(s, panel, codec, events[0]);
      StaysFrozen(s, panel, codec, events[0]);
      if events[0].FrameEvent? {
        FrozenFrame(s, panel, codec, events[0]);
      }
      KeptSane(s, Received(events[0]), p);
      FrozenMeansFrozen(p.step.s, p.panel, codec, events[1..]);
    }
  }

  lemma KeptSane(s: State, received: multiset<nat>, p: Panelled)
    requires Kept(s, received, p)
    ensures Sane(p.step.s) && PanelFits(p.step.s, p.panel)
  {
  }

  lemma FrozenFrame(s: State, panel: Core.Panel, codec: Semantic.Codec, e: Event)
    requires Sane(s) && PanelFits(s, panel) && Frozen(s) && e.FrameEvent? && Enabled(s, panel, e)
    ensures Handle(s, panel, codec, e).PanelDone? && Handle(s, panel, codec, e).value.step.s == s
  {
    hide Sane, PanelFits;
    FrozenRefuses(s, codec, e.frame, e.now);
  }

  // ------------------------------------------------------------ lost bases

  lemma ValidatedBase(codec: Semantic.Codec, f: Semantic.WireFrame, s: Semantic.SurfaceState)
    requires Semantic.Validated(codec, f, s).Ok?
    ensures Semantic.Validated(codec, f, s).value.baseId == f.baseId
  {
    hide Semantic.Scan, Disjoint;
  }

  /** On a base that was lost, only a keyframe is accepted. */
  lemma LostBaseRefuses(s: State, codec: Semantic.Codec, f: Semantic.WireFrame, now: nat)
    requires Sane(s) && s.surface.Some? && !s.surface.value.core.baseValid && f.baseId != 0
    ensures var step := AcceptFrame(s, codec, f, now);
            && step.s == s
            && |step.results| == 1
            && (step.results[0].code == RejectedCode || step.results[0].code == NeedKeyframeCode)
  {
    hide Sane, Core.Shaped, Composition.Sound, Semantic.Validated, ValidateRegions, FrozenCore, EarlyRejection, Credits,
         ByteCredits, ApplyAll, Core.Noted;
    SaneParts(s);
    if EarlyRejection(s, f).None? && Semantic.Validated(codec, f, SemanticSurface(s)).Ok? {
      ValidatedBase(codec, f, SemanticSurface(s));
    }
  }

  /** Whether the base a delta names is not, or no longer, the receiver's. */
  predicate BaseLost(core: Core.State, f: Semantic.WireFrame) {
    f.baseId != 0 && (!core.baseValid || f.baseId != core.logicalId)
  }

  /** A delta with nothing else wrong is answered by asking for a keyframe if and
      only if the receiver has lost its base or holds another one. Otherwise it
      is taken, unless a settled frame is still pending. */
  lemma BaseAsksKeyframe(s: State, codec: Semantic.Codec, f: Semantic.WireFrame, regions: seq<Region>, now: nat)
    requires Sane(s) && EarlyRejection(s, f).None? && f.baseId != 0
    requires Semantic.Faultless(codec, f, SemanticSurface(s), regions)
    ensures var step := AcceptFrame(s, codec, f, now);
            var core := s.surface.value.core;
            var barrier := core.pending.Some? && core.pending.value.intent == Settled;
            && |step.results| <= 1
            && (BaseLost(core, f) <==> |step.results| == 1 && step.results[0].code == NeedKeyframeCode)
            && (BaseLost(core, f) ==>
                  && step.s == s
                  && step.results == [FrameResult(f.surfaceId, f.generation, f.frameId, NeedKeyframeCode, Receiver.Reason.BadBase,
                                                  Credits(s), core.logicalId, core.presentedId, ByteCredits(s))])
            && (!BaseLost(core, f) && barrier ==>
                  && step.s == s
                  && step.results == [ImmediateResult(s, f, RejectedCode, ProtocolState)])
            && (!BaseLost(core, f) && !barrier ==>
                  && step.s == WithCore(s, step.s.surface.value.core)
                  && step.s.surface.value.core.base == ApplyAll(core.w, core.h, core.base, regions)
                  && Owed(step.s) == multiset{f.frameId})
  {
    hide Sane, Core.Shaped, Semantic.Validated, EarlyRejection, Credits, ByteCredits, Semantic.Faultless, CommitFrame;
    SaneParts(s);
    PassedEarly(s, f);
    var core := s.surface.value.core;
    Semantic.BaseDecides(codec, f, SemanticSurface(s), regions);
    if f.baseId == core.logicalId {
      Semantic.AcceptedFrameApplies(codec, f, SemanticSurface(s));
      DeltaCommitted(s, f, Semantic.Validated(codec, f, SemanticSurface(s)).value, now);
    }
  }

  /** The same on the side of the core, where the base may have been lost. */
  lemma DeltaCommitted(s: State, f: Semantic.WireFrame, frame: Core.Frame, now: nat)
    requires s.surface.Some? && Composition.Sound(s.surface.value.core) && Core.Shaped(s.surface.value.core)
    requires var core := s.surface.value.core;
             && (frame.frameId, frame.baseId, frame.format) == (f.frameId, f.baseId, core.format)
             && frame.baseId == core.logicalId != 0 && frame.frameId > core.logicalId
             && ValidateRegions(core.w, core.h, frame.regions).None?
    ensures var step := CommitFrame(s, f, frame, now);
            var core := s.surface.value.core;
            if !core.baseValid then
              step == Receiver.Step(s, [ImmediateResult(s, f, NeedKeyframeCode, Receiver.Reason.BadBase)])
            else if core.pending.Some? && core.pending.value.intent == Settled then
              step == Receiver.Step(s, [ImmediateResult(s, f, RejectedCode, ProtocolState)])
            else
              && step.s == WithCore(s, step.s.surface.value.core)
              && step.s.surface.value.core.base == ApplyAll(core.w, core.h, core.base, frame.regions)
              && Owed(step.s) == multiset{f.frameId}
              && |step.results| <= 1 && (|step.results| == 1 ==> step.results[0].code == SupersededCode)
  {
    hide Composition.Sound, Core.Shaped, ValidateRegions, ApplyAll, ImmediateResult;
    ValidPending(s.surface.value.core);
  }

  lemma ValidPending(core: Core.State)
    requires Composition.Sound(core)
    ensures core.pending.Some? ==> core.baseValid
  {
    hide Core.Shaped, Composition.BaseCurrent;
  }

  lemma PassedEarly(s: State, f: Semantic.WireFrame)
    requires EarlyRejection(s, f).None?
    ensures s.surface.Some? && !Frozen(s) && Credits(s) > 0
  {
  }

  /** Nothing else is ever answered that way. */
  lemma OnlyBaseAsksKeyframe(s: State, codec: Semantic.Codec, f: Semantic.WireFrame, now: nat, k: nat)
    requires Sane(s) && k < |AcceptFrame(s, codec, f, now).results|
    requires AcceptFrame(s, codec, f, now).results[k].code == NeedKeyframeCode
    ensures s.surface.Some? && BaseLost(s.surface.value.core, f)
  {
    hide Sane, Core.Shaped, Semantic.Validated, Core.CommitCheck, EarlyRejection, Credits, ByteCredits, ApplyAll, Core.Noted;
    SaneParts(s);
    if EarlyRejection(s, f).None? {
      PassedEarly(s, f);
      var answer := Semantic.Validated(codec, f, SemanticSurface(s));
      if answer == Semantic.Err(Semantic.BadBase) { Semantic.BaseFault(codec, f, SemanticSurface(s)); }
      if answer.Ok? {
        ValidatedBase(codec, f, SemanticSurface(s));
        KeyframeNeeded(s.surface.value.core, answer.value);
      }
    }
  }

  lemma KeyframeNeeded(core: Core.State, frame: Core.Frame)
    requires Core.Shaped(core) && Core.CommitCheck(core, frame) == Some(Core.NeedKeyframe)
    ensures frame.baseId != 0 && (!core.baseValid || frame.baseId != core.logicalId)
  {
    hide Core.Shaped, ValidateRegions;
  }

  /** A base that was lost (by freezing, by a failure, or with a new surface)
      comes back only with an accepted keyframe. */
  lemma {:induction false} RevivalNeedsKeyframe(s: State, panel: Core.Panel, codec: Semantic.Codec, events: seq<Event>)
    returns (k: nat)
    requires Sane(s) && PanelFits(s, panel) && Serve(s, panel, codec, events).Some?
    requires s.surface.Some? ==> !s.surface.value.core.baseValid
    requires var t := Serve(s, panel, codec, events).value.s; t.surface.Some? && t.surface.value.core.baseValid
    ensures k < |events| && events[k].FrameEvent? && events[k].frame.baseId == 0
    decreases |events|
  {
    hide Handle, Sane, Enabled, PanelFits, Kept, AcceptFrame;
    SaneParts(s);
    var p := Handle(s, panel, codec, events[0]).value;
    HandleKept(s, panel, codec, events[0]);
    KeptSane(s, Received(events[0]), p);
    if events[0].FrameEvent? && events[0].frame.baseId == 0 {
      k := 0;
    } else {
      LostBaseStays(s, panel, codec, events[0]);
      var j := RevivalNeedsKeyframe(p.step.s, p.panel, codec, events[1..]);
      k := j + 1;
    }
  }

  lemma LostBaseStays(s: State, panel: Core.Panel, codec: Semantic.Codec, e: Event)
    requires Sane(s) && PanelFits(s, panel) && Enabled(s, panel, e) && Handle(s, panel, codec, e).PanelDone?
    requires s.surface.Some? ==> !s.surface.value.core.baseValid
    requires e.FrameEvent? ==> e.frame.baseId != 0
    ensures var t := Handle(s, panel, codec, e).value.step.s; t.surface.Some? ==> !t.surface.value.core.baseValid
  {
    hide Poll, SetFrozen, RequestCleanup, SetProfile, UpdateRefresh, RenderMenu, ClearInk, UpdateOverlay, PenReport,
         OpenSurface, Sane, PanelFits, Core.PanelShaped, Size, AcceptFrame, Kept;
    SaneParts(s);
    HandleKept(s, panel, codec, e);
    if e.FrameEvent? {
      FrameNoSurface(s, codec, e.frame, e.now);
      if s.surface.Some? { LostBaseRefuses(s, codec, e.frame, e.now); }
    } else if e.OpenEvent? {
      OpenKept(s, panel, e.open, e.w, e.h, e.now);
    }
  }

  lemma FrameNoSurface(s: State, codec: Semantic.Codec, f: Semantic.WireFrame, now: nat)
    requires Sane(s)
    ensures s.surface.None? ==> AcceptFrame(s, codec, f, now).s == s
  {
    hide Sane;
    SaneParts(s);
  }
}
