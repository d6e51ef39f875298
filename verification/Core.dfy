/** The display core as a value: one remote base, three local planes, at most
    one pending presentation, and the software picture of the panel. The
    functions say what every operation does to that value; the class in
    DisplayCore carries them out on buffers. */
module Core {
  import opened Geometry
  import opened Pixels
  import opened Raster
  import opened Regions
  import opened Tiles
  import opened Ink
  import opened Refresh

  datatype Outcome = Presented | Superseded | Cancelled | BackendFailure

  datatype Terminal = Terminal(frameId: nat, outcome: Outcome, complete: bool)

  /** A frame that passed the semantic validator. */
  datatype Frame = Frame(
    frameId: nat,
    baseId: nat,
    intent: Intent,
    format: Format,
    decodedBytes: nat,
    regions: seq<Region>)

  datatype Pending = Pending(
    frameId: nat,
    intent: Intent,
    content: Content,
    acceptedAt: nat,
    forceFull: bool,
    forceCleanup: bool,
    decodedBytes: nat,
    hint: seq<Rect>)

  datatype CoreError = SurfaceFault(error: SurfaceError) | SettledBarrier | BadFrameId | NeedKeyframe | WrongFormat

  /** What the panel answers to one call: it accepts (and reports how many
      physical updates it made), or fails and leaves the glass anyhow. */
  datatype Answer = Accept(physical: nat) | Fail(image: Image, drive: seq<Waveform>)

  /** The physical panel: what it shows, the waveform that last drove each
      pixel, the accepted submissions, and its answers to come. */
  datatype Panel = Panel(image: Image, drive: seq<Waveform>, log: seq<Decision>, script: seq<Answer>)

  datatype State = State(
    w: nat,
    h: nat,
    format: Format,
    base: Image,
    menu: Plane,
    peer: Plane,
    ink: Plane,
    inkWaveform: Waveform,
    presentedBase: Image,
    presented: Image,
    working: Image,
    logicalId: nat,
    presentedId: nat,
    baseValid: bool,
    pending: Option<Pending>,
    lastPresentAt: Option<nat>,
    frameInterval: nat,
    settledDeadline: nat,
    policy: Policy,
    damageTile: nat,
    uncertain: bool,
    forceCleanup: bool,
    settle: seq<Rect>,
    fastUpdates: nat,
    partialPixels: nat,
    lastPartialAt: Option<nat>,
    lastIdleFailure: Option<nat>)

  // ------------------------------------------------------------------ shape

  ghost predicate Shaped(s: State) {
    var images := |s.base| == |s.presentedBase| == |s.presented| == |s.working| == Size(s.w, s.h);
    var planes := PlaneOk(s.w, s.h, s.menu) && PlaneOk(s.w, s.h, s.peer) && PlaneOk(s.w, s.h, s.ink);
    var rects := AllValid(s.w, s.h, s.settle) && (s.pending.Some? ==> AllValid(s.w, s.h, s.pending.value.hint));
    s.w > 0 && s.h > 0 && images && planes && rects
  }

  ghost predicate PanelShaped(n: nat, p: Panel) {
    && |p.image| == |p.drive| == n
    && forall k :: 0 <= k < |p.script| ==>
         p.script[k].Fail? ==> |p.script[k].image| == |p.script[k].drive| == n
  }

  function NewState(w: nat, h: nat, format: Format, maxFpsX100: nat, settledDeadline: nat, config: Config): State {
    var n := Size(w, h);
    var white := seq(n, _ => White(format));
    var plane := BlankPlane(n);
    State(w, h, format, white, plane, plane, plane, Fastest, white, white, white, 0, 0, false, None, None,
          CeilDiv(100_000_000, Max(maxFpsX100, 100)), settledDeadline, NewPolicy(config), config.damageTile,
          false, false, [], 0, 0, None, None)
  }

  ghost function Picture(s: State): Image
    requires Shaped(s)
  {
    Composed(s.base, s.peer, s.ink, s.menu)
  }

  // ------------------------------------------------------------------ panel

  function Next(p: Panel): Answer {
    if p.script == [] then Accept(1) else p.script[0]
  }

  /** The number of physical updates, when the next answer is an acceptance. */
  function Answered(p: Panel): Option<nat> {
    match Next(p)
    case Accept(physical) => Some(physical)
    case Fail(_, _) => None
  }

  function Rest(p: Panel): seq<Answer> {
    if p.script == [] then [] else p.script[1..]
  }

  function Broken(p: Panel): Panel
    requires Next(p).Fail?
  {
    Panel(Next(p).image, Next(p).drive, p.log, Rest(p))
  }

  function Pumped(p: Panel): Panel {
    if Next(p).Fail? then Broken(p) else p.(script := Rest(p))
  }

  ghost function Driven(w: nat, drive: seq<Waveform>, damage: seq<Rect>, waveform: Waveform): (r: seq<Waveform>)
    requires w > 0
    ensures |r| == |drive|
    ensures forall i :: 0 <= i < |r| ==> r[i] == if Covered(w, damage, i) then waveform else drive[i]
  {
    seq(|drive|, i requires 0 <= i < |drive| => if Covered(w, damage, i) then waveform else drive[i])
  }

  /** The panel after one submission. */
  ghost function SubmitTo(w: nat, p: Panel, frame: Image, damage: seq<Rect>, d: Decision): Panel
    requires w > 0 && |frame| == |p.image|
  {
    if Next(p).Fail? then Broken(p)
    else Panel(Painted(w, p.image, frame, damage), Driven(w, p.drive, damage, d.waveform), p.log + [d], Rest(p))
  }

  // ----------------------------------------------------------------- commit

  datatype CommitResult = Committed(superseded: Option<Terminal>) | Refused(error: CoreError)

  ghost function CommitCheck(s: State, f: Frame): Option<CoreError>
    requires Shaped(s)
  {
    if s.pending.Some? && s.pending.value.intent == Settled then Some(SettledBarrier)
    else if f.frameId == 0 || f.frameId <= s.logicalId then Some(BadFrameId)
    else if f.format != s.format then Some(WrongFormat)
    else if f.baseId != 0 && (!s.baseValid || f.baseId != s.logicalId) then Some(NeedKeyframe)
    else
      match ValidateRegions(s.w, s.h, f.regions)
      case Some(e) => Some(SurfaceFault(e))
      case None => None
  }

  /** The bookkeeping of an accepted frame whose regions are in the base. */
  function Noted(s: State, f: Frame, content: Content, now: nat): State {
    var keyframe := f.baseId == 0;
    var carried := if s.pending.Some? then s.pending.value.hint else [];
    var pending := Pending(
      f.frameId, f.intent, content, now,
      (s.pending.Some? && s.pending.value.forceFull) || (keyframe && (s.presentedId == 0 || !s.baseValid)),
      (s.pending.Some? && s.pending.value.forceCleanup) || (keyframe && s.uncertain),
      f.decodedBytes,
      Rects(f.regions) + carried);
    s.(logicalId := f.frameId, baseValid := true, pending := Some(pending))
  }

  function Superseding(s: State): Option<Terminal> {
    if s.pending.Some? then Some(Terminal(s.pending.value.frameId, Superseded, false)) else None
  }

  ghost function Commit(s: State, f: Frame, content: Content, now: nat): (State, CommitResult)
    requires Shaped(s)
  {
    match CommitCheck(s, f)
    case Some(e) => (s, Refused(e))
    case None =>
      (Noted(s.(base := ApplyAll(s.w, s.h, s.base, f.regions)), f, content, now), Committed(Superseding(s)))
  }

  function CancelPending(s: State): (State, seq<Terminal>) {
    (s.(pending := None),
     if s.pending.Some? then [Terminal(s.pending.value.frameId, Cancelled, false)] else [])
  }

  function Freeze(s: State): (State, seq<Terminal>) {
    var (cancelled, terminals) := CancelPending(s);
    (cancelled.(base := s.presentedBase, baseValid := false), terminals)
  }

  // ------------------------------------------------------------------- tick

  function Deadline(s: State): Option<nat> {
    if s.pending.None? then None
    else
      var p := s.pending.value;
      var fpsDue := if s.lastPresentAt.Some? then s.lastPresentAt.value + s.frameInterval else p.acceptedAt;
      Some(if p.intent == Settled then Min(fpsDue, p.acceptedAt + s.settledDeadline) else fpsDue)
  }

  function MarkFailure(s: State): State {
    s.(baseValid := false, logicalId := 0, uncertain := true, settle := [], fastUpdates := 0)
  }

  function RecordDamage(s: State, d: Decision, damage: seq<Rect>, now: nat): State {
    s.(partialPixels := if d.complete then 0 else s.partialPixels + TotalArea(damage),
       lastPartialAt := if d.complete then None else Some(now))
  }

  /** The rectangles a tick recomposes. */
  function TickRegions(s: State): seq<Rect>
    requires s.pending.Some?
  {
    var p := s.pending.value;
    (if p.forceFull then [Full(s.w, s.h)] else p.hint) + (if p.intent == Settled then s.settle else [])
  }

  ghost function TickComposed(s: State): Image
    requires Shaped(s) && s.pending.Some?
  {
    Painted(s.w, s.working, Picture(s), TickRegions(s))
  }

  /** Changed tiles, and for a settled frame also the tiles driven fast. */
  ghost function TickDamage(s: State): seq<Rect>
    requires Shaped(s) && s.pending.Some?
  {
    var p := s.pending.value;
    var changed :=
      if p.forceFull then [Full(s.w, s.h)]
      else TileDamageRegions(s.w, s.h, s.damageTile, s.presented, TickComposed(s), TickRegions(s));
    if p.intent == Settled then MergeTiled(s.w, s.h, s.damageTile, s.settle, changed) else changed
  }

  function StaticDue(s: State): bool
    requires s.pending.Some?
  {
    var p := s.pending.value;
    && !(p.forceCleanup || s.forceCleanup)
    && p.intent == Settled
    && s.settle != []
    && s.policy.config.staticAfter > 0
    && s.fastUpdates >= s.policy.config.staticAfter
  }

  ghost function TickDecision(s: State): Decision
    requires Shaped(s) && s.pending.Some?
  {
    var p := s.pending.value;
    var d := Decide(s.policy, p.intent, p.content, TotalArea(TickDamage(s)), Size(s.w, s.h),
                    p.forceCleanup || s.forceCleanup || StaticDue(s));
    if StaticDue(s) && d.reason == Forced then d.(reason := StaticFastDebt) else d
  }

  ghost function SubmitDamage(s: State): seq<Rect>
    requires Shaped(s) && s.pending.Some?
  {
    if TickDecision(s).complete then [Full(s.w, s.h)] else TickDamage(s)
  }

  /** The picture handed to the panel. */
  ghost function SubmitImage(s: State): Image
    requires Shaped(s) && s.pending.Some?
  {
    if TickDecision(s).complete then Painted(s.w, TickComposed(s), Picture(s), [Full(s.w, s.h)])
    else TickComposed(s)
  }

  function FastDebt(s: State, d: Decision, intent: Intent): bool {
    !(d.complete || intent == Settled) && (d.waveform == Fastest || d.waveform == Fast)
  }

  /** The state after the panel accepted the pending frame. */
  ghost function TickAccepted(s: State, now: nat, physical: nat): State
    requires Shaped(s) && s.pending.Some?
  {
    var p, d, damage := s.pending.value, TickDecision(s), SubmitDamage(s);
    var s1 := RecordDamage(s, d, damage, now);
    s1.(pending := None,
        presented := SubmitImage(s),
        working := Painted(s.w, s.presented, SubmitImage(s), damage),
        presentedId := p.frameId,
        presentedBase := s.base,
        lastPresentAt := Some(now),
        uncertain := false,
        policy := Submitted(s.policy, d, physical),
        settle := if d.complete || p.intent == Settled then []
                  else if FastDebt(s, d, p.intent) then MergeTiled(s.w, s.h, s.damageTile, s.settle, damage)
                  else s.settle,
        fastUpdates := if d.complete || p.intent == Settled then 0
                       else if FastDebt(s, d, p.intent) then SatAdd(s.fastUpdates, physical)
                       else s.fastUpdates,
        forceCleanup := s.forceCleanup && !d.complete)
  }

  datatype Moved = Moved(s: State, panel: Panel, terminals: seq<Terminal>)

  /** Presents the pending frame on a panel that answered the pump. */
  ghost function Present(s: State, panel: Panel, now: nat): Moved
    requires Shaped(s) && s.pending.Some? && PanelShaped(Size(s.w, s.h), panel)
  {
    var id, d := s.pending.value.frameId, TickDecision(s);
    if SubmitDamage(s) == [] then
      Moved(s.(pending := None, working := SubmitImage(s), presentedId := id, presentedBase := s.base,
               lastPresentAt := Some(now)),
            panel, [Terminal(id, Presented, d.complete)])
    else
      var after := SubmitTo(s.w, panel, SubmitImage(s), SubmitDamage(s), d);
      if Next(panel).Fail? then
        Moved(MarkFailure(s).(pending := None, working := s.presented), after,
              [Terminal(id, BackendFailure, d.complete)])
      else
        Moved(TickAccepted(s, now, Next(panel).physical), after, [Terminal(id, Presented, d.complete)])
  }

  ghost function Tick(s: State, panel: Panel, now: nat, ignoreDeadline: bool): Moved
    requires Shaped(s) && PanelShaped(Size(s.w, s.h), panel)
  {
    if s.pending.None? || (!ignoreDeadline && now < Deadline(s).value) then Moved(s, panel, [])
    else if Next(panel).Fail? then
      Moved(MarkFailure(s).(pending := None), Pumped(panel), [Terminal(s.pending.value.frameId, BackendFailure, false)])
    else
      RestShaped(Size(s.w, s.h), panel);
      Present(s, Pumped(panel), now)
  }

  // ------------------------------------------------------------ local planes

  datatype PlaneResult = PlaneDone(moved: Moved) | PlaneFault

  /** The rectangles a local plane repaints: the dirty ink, or everything. */
  function PlaneRegions(s: State, intent: Intent): seq<Rect> {
    if intent == Latest then (if s.ink.dirty.Some? then [s.ink.dirty.value] else []) else [Full(s.w, s.h)]
  }

  /** Presenting ink consumes its dirty rectangle. */
  function DirtyTaken(s: State, intent: Intent): State {
    s.(ink := if intent == Latest then s.ink.(dirty := None) else s.ink)
  }

  ghost function PlaneDamage(s: State, intent: Intent, composed: Image): seq<Rect>
    requires Shaped(s) && |composed| == Size(s.w, s.h)
  {
    var regions := PlaneRegions(s, intent);
    if intent == Settled then TileDamageRegions(s.w, s.h, s.damageTile, s.presented, composed, regions)
    else if regions != [] && ChangedIn(s.w, s.h, s.presented, composed, regions[0]) then regions
    else []
  }

  ghost function PlaneDecision(s: State, intent: Intent, damage: seq<Rect>): Decision {
    if intent == Latest then Decision(s.inkWaveform, false, NoReason)
    else Decide(s.policy, intent, TextUi, TotalArea(damage), Size(s.w, s.h), false)
  }

  ghost function PlaneAccepted(s: State, now: nat, composed: Image, damage: seq<Rect>, d: Decision, physical: nat): State
    requires Shaped(s) && |composed| == Size(s.w, s.h)
  {
    var slow := d.complete || d.waveform != Fastest;
    RecordDamage(s, d, damage, now).(
      working := composed,
      presented := Painted(s.w, s.presented, composed, damage),
      lastPresentAt := Some(now),
      uncertain := false,
      policy := Submitted(s.policy, d, physical),
      forceCleanup := s.forceCleanup && !d.complete,
      settle := if slow then [] else MergeTiled(s.w, s.h, s.damageTile, s.settle, damage),
      fastUpdates := if slow then 0 else SatAdd(s.fastUpdates, physical))
  }

  /** One plane repaint on a core without pending work. A refused submission is
      an error that leaves the caller's session. */
  ghost function Repaint(s: State, panel: Panel, now: nat, intent: Intent, terminals: seq<Terminal>): PlaneResult
    requires Shaped(s) && PanelShaped(Size(s.w, s.h), panel)
  {
    var regions := PlaneRegions(s, intent);
    var s1 := DirtyTaken(s, intent);
    if regions == [] then PlaneDone(Moved(s1, panel, terminals))
    else
      var composed := Painted(s.w, s.working, Picture(s), regions);
      var found := PlaneDamage(s, intent, composed);
      if found == [] then PlaneDone(Moved(s1.(working := composed), panel, terminals))
      else
        var d := PlaneDecision(s, intent, found);
        var damage := if d.complete then [Full(s.w, s.h)] else found;
        if Next(panel).Fail? then PlaneFault
        else
          PlaneDone(Moved(PlaneAccepted(s1.(working := composed), now, composed, damage, d, Next(panel).physical),
                          SubmitTo(s.w, panel, composed, damage, d), terminals))
  }

  /** Pending remote work is completed first, whatever its deadline. */
  ghost function PresentPlane(s: State, panel: Panel, now: nat, intent: Intent): PlaneResult
    requires Shaped(s) && PanelShaped(Size(s.w, s.h), panel)
  {
    var flushed := Tick(s, panel, now, true);
    TickShaped(s, panel, now, true);
    Repaint(flushed.s, flushed.panel, now, intent, flushed.terminals)
  }

  // ---------------------------------------------------------------- cleanup

  datatype CleanupReport = CleanupReport(performed: bool, pending: bool, failed: bool)

  function MaintenanceDecision(s: State): Decision {
    Decide(s.policy, Settled, Mixed, Size(s.w, s.h), Size(s.w, s.h), true)
  }

  datatype Maintained = Maintained(s: State, panel: Panel, failed: bool)

  /** The presented picture submitted once more as a complete refresh. */
  ghost function Maintenance(s: State, panel: Panel, now: nat): Maintained
    requires Shaped(s) && PanelShaped(Size(s.w, s.h), panel)
  {
    if Next(panel).Fail? then Maintained(MarkFailure(s), Pumped(panel), true)
    else
      RestShaped(Size(s.w, s.h), panel);
      var d, full, p1 := MaintenanceDecision(s), [Full(s.w, s.h)], Pumped(panel);
      var p2 := SubmitTo(s.w, p1, s.presented, full, d);
      if Next(p1).Fail? then Maintained(MarkFailure(s), p2, true)
      else
        Maintained(RecordDamage(s.(lastPresentAt := Some(now),
                                   uncertain := false,
                                   policy := Submitted(s.policy, d, 1),
                                   forceCleanup := false,
                                   settle := [],
                                   fastUpdates := 0), d, full, now), p2, false)
  }

  ghost function RequestCleanup(s: State, panel: Panel, now: nat): (Moved, CleanupReport)
    requires Shaped(s) && PanelShaped(Size(s.w, s.h), panel)
  {
    var armed := s.(forceCleanup := true);
    if s.pending.Some? then
      var m := Tick(armed, panel, now, true);
      (m, CleanupReport(
        exists k :: 0 <= k < |m.terminals| && m.terminals[k].outcome == Presented && m.terminals[k].complete,
        m.s.forceCleanup,
        exists k :: 0 <= k < |m.terminals| && m.terminals[k].outcome == BackendFailure))
    else if s.presentedId == 0 then
      (Moved(armed, panel, []), CleanupReport(false, true, false))
    else
      var r := Maintenance(armed, panel, now);
      (Moved(r.s, r.panel, []), CleanupReport(!r.failed, r.failed, r.failed))
  }

  function CleanupBudget(profile: Profile): Option<(nat, nat)> {
    match profile
    case Realtime => Some((8, 10_000_000))
    case Animate => Some((6, 8_000_000))
    case Balanced => Some((4, 6_000_000))
    case Reading => Some((3, 5_000_000))
    case HighQuality => Some((2, 4_000_000))
    case Custom => None
  }

  function AdaptiveDue(s: State, now: nat): bool {
    match CleanupBudget(s.policy.config.profile)
    case None => false
    case Some((screens, idle)) =>
      && s.presentedId != 0
      && s.partialPixels >= Size(s.w, s.h) * screens
      && s.lastPartialAt.Some?
      && SatSub(now, s.lastPartialAt.value) >= idle
  }

  /** A tick of an interactive receiver: an idle panel with enough partial
      updates behind it is cleaned once, then ordinary frame deadlines apply. */
  ghost function TickInteractive(s: State, panel: Panel, now: nat, idle: bool): Moved
    requires Shaped(s) && PanelShaped(Size(s.w, s.h), panel)
  {
    if idle && s.pending.None? && AdaptiveDue(s, now)
       && (s.lastIdleFailure.None? || SatSub(now, s.lastIdleFailure.value) >= 5_000_000) then
      var (m, report) := RequestCleanup(s, panel, now);
      m.(s := m.s.(lastIdleFailure := if report.failed then Some(now) else None))
    else Tick(s, panel, now, false)
  }

  function UpdateConfig(s: State, config: Config): (State, Option<ConfigError>) {
    match Validate(config)
    case Some(e) => (s, Some(e))
    case None => (s.(policy := s.policy.(config := config), damageTile := config.damageTile), None)
  }

  /** A changed profile, or a cleanup still armed, flushes through a complete
      refresh. */
  ghost function ChangeProfile(s: State, panel: Panel, config: Config, now: nat): (Moved, CleanupReport)
    requires Shaped(s) && PanelShaped(Size(s.w, s.h), panel) && Validate(config).None?
  {
    var next := UpdateConfig(s, config).0;
    if config != s.policy.config || s.forceCleanup then RequestCleanup(next, panel, now)
    else (Moved(next, panel, []), CleanupReport(false, false, false))
  }

  // ------------------------------------------------------- shapes are stable

  lemma FullValid(w: nat, h: nat)
    requires w > 0 && h > 0
    ensures AllValid(w, h, [Full(w, h)])
  {
  }

  lemma MergeValid(w: nat, h: nat, tile: nat, a: seq<Rect>, b: seq<Rect>)
    requires w > 0 && h > 0
    ensures AllValid(w, h, MergeTiled(w, h, tile, a, b))
  {
    SelectValid(w, h, Max(tile, 1), TouchFlags(w, h, Max(tile, 1), a + b));
  }

  lemma TickRegionsValid(s: State)
    requires Shaped(s) && s.pending.Some?
    ensures AllValid(s.w, s.h, TickRegions(s))
  {
    hide Size, PlaneOk;
  }

  lemma SubmitDamageValid(s: State)
    requires Shaped(s) && s.pending.Some?
    ensures AllValid(s.w, s.h, SubmitDamage(s)) && AllValid(s.w, s.h, TickDamage(s))
  {
    hide Size, PlaneOk, TickDecision, Picture, Covered;
    PictureSize(s);
    FullValid(s.w, s.h);
    var p := s.pending.value;
    var flags := if s.damageTile == 0 then [] else
      CandidateFlags(s.w, s.h, s.damageTile, s.presented, TickComposed(s), TickRegions(s));
    if s.damageTile != 0 {
      SelectValid(s.w, s.h, s.damageTile, flags);
    }
    var changed :=
      if p.forceFull then [Full(s.w, s.h)]
      else TileDamageRegions(s.w, s.h, s.damageTile, s.presented, TickComposed(s), TickRegions(s));
    MergeValid(s.w, s.h, s.damageTile, s.settle, changed);
  }

  lemma SamePicture(a: State, b: State)
    requires Shaped(a) && Shaped(b)
    requires a.base == b.base && a.peer == b.peer && a.ink == b.ink && a.menu == b.menu
    ensures Picture(a) == Picture(b)
  {
  }

  lemma DirtyTakenShaped(s: State, intent: Intent)
    requires Shaped(s)
    ensures Shaped(DirtyTaken(s, intent))
  {
    hide Size;
  }

  lemma DirtyPicture(s: State, intent: Intent)
    requires Shaped(s)
    ensures Shaped(DirtyTaken(s, intent)) && Picture(DirtyTaken(s, intent)) == Picture(s)
  {
    hide Size, Over;
    DirtyTakenShaped(s, intent);
  }

  lemma PlaneRegionsValid(s: State, intent: Intent)
    requires Shaped(s)
    ensures AllValid(s.w, s.h, PlaneRegions(s, intent)) && |PlaneRegions(s, intent)| <= 1
    ensures PairwiseDisjoint(PlaneRegions(s, intent))
  {
    hide Size;
  }

  lemma PlaneDamageValid(s: State, intent: Intent)
    requires Shaped(s)
    ensures AllValid(s.w, s.h, PlaneDamage(s, intent, Painted(s.w, s.working, Picture(s), PlaneRegions(s, intent))))
  {
    hide Size, PlaneOk, Picture, Covered;
    PictureSize(s);
    PlaneRegionsValid(s, intent);
    FullValid(s.w, s.h);
    var composed := Painted(s.w, s.working, Picture(s), PlaneRegions(s, intent));
    if s.damageTile != 0 {
      SelectValid(s.w, s.h, s.damageTile,
                  CandidateFlags(s.w, s.h, s.damageTile, s.presented, composed, PlaneRegions(s, intent)));
    }
  }

  /** The flushed terminals only ride along. */
  lemma RepaintTerminals(s: State, panel: Panel, now: nat, intent: Intent, terminals: seq<Terminal>)
    requires Shaped(s) && PanelShaped(Size(s.w, s.h), panel)
    ensures var a, b := Repaint(s, panel, now, intent, []), Repaint(s, panel, now, intent, terminals);
            && a.PlaneDone? == b.PlaneDone?
            && (a.PlaneDone? ==> b.moved == a.moved.(terminals := terminals))
  {
    hide Size, Picture, PlaneDamage, PlaneDecision, PlaneAccepted, SubmitTo, PlaneOk;
  }

  lemma TickIdle(s: State, panel: Panel, now: nat, ignoreDeadline: bool)
    requires Shaped(s) && PanelShaped(Size(s.w, s.h), panel)
    ensures s.pending.None? ==> Tick(s, panel, now, ignoreDeadline) == Moved(s, panel, [])
  {
    hide Size, Shaped, PanelShaped;
  }

  lemma NotedShaped(s: State, f: Frame, content: Content, now: nat)
    requires Shaped(s) && ShapesOk(s.w, s.h, f.regions)
    ensures Shaped(Noted(s, f, content, now))
  {
    hide Size, PlaneOk;
    var carried := if s.pending.Some? then s.pending.value.hint else [];
    assert AllValid(s.w, s.h, Rects(f.regions) + carried);
  }

  lemma CommitShaped(s: State, f: Frame, content: Content, now: nat)
    requires Shaped(s)
    ensures Shaped(Commit(s, f, content, now).0)
  {
    hide Size, PlaneOk, Noted, ApplyAll, ValidRect;
    if CommitCheck(s, f).None? {
      NotedShaped(s.(base := ApplyAll(s.w, s.h, s.base, f.regions)), f, content, now);
    }
  }

  lemma NewShaped(w: nat, h: nat, format: Format, maxFpsX100: nat, settledDeadline: nat, config: Config)
    requires w > 0 && h > 0
    ensures Shaped(NewState(w, h, format, maxFpsX100, settledDeadline, config))
  {
    hide Size;
  }

  lemma RestShaped(n: nat, p: Panel)
    requires PanelShaped(n, p)
    ensures PanelShaped(n, p.(script := Rest(p)))
    ensures PanelShaped(n, Pumped(p))
  {
    if p.script != [] {
      assert forall k :: 0 <= k < |Rest(p)| ==> Rest(p)[k] == p.script[k + 1];
    }
  }

  lemma SubmitShaped(w: nat, n: nat, p: Panel, frame: Image, damage: seq<Rect>, d: Decision)
    requires w > 0 && PanelShaped(n, p) && |frame| == n
    ensures PanelShaped(n, SubmitTo(w, p, frame, damage, d))
  {
    hide Covered, PanelShaped;
    RestShaped(n, p);
    assert PanelShaped(n, p.(script := Rest(p))) && !Next(p).Fail? ==> PanelShaped(n, SubmitTo(w, p, frame, damage, d)) by {
      PanelParts(n, p);
      PanelParts(n, p.(script := Rest(p)));
      PanelParts(n, SubmitTo(w, p, frame, damage, d));
    }
  }

  lemma PanelParts(n: nat, p: Panel)
    ensures PanelShaped(n, p) <==>
            && |p.image| == |p.drive| == n
            && forall k :: 0 <= k < |p.script| ==>
                 p.script[k].Fail? ==> |p.script[k].image| == |p.script[k].drive| == n
  {
  }

  lemma AcceptedShaped(s: State, now: nat, physical: nat)
    requires Shaped(s) && s.pending.Some?
    ensures Shaped(TickAccepted(s, now, physical))
  {
    hide Size, TickDecision, MergeTiled, SubmitDamage, SubmitImage, PlaneOk, ValidRect;
    MergeValid(s.w, s.h, s.damageTile, s.settle, SubmitDamage(s));
    ImageSize(s);
  }

  lemma ImageSize(s: State)
    requires Shaped(s) && s.pending.Some?
    ensures |SubmitImage(s)| == Size(s.w, s.h)
  {
    hide Size, TickDecision, Picture, Covered;
    assert |Picture(s)| == Size(s.w, s.h) by { PictureSize(s); }
  }

  lemma PictureSize(s: State)
    requires Shaped(s)
    ensures |Picture(s)| == Size(s.w, s.h)
  {
  }

  lemma TickShaped(s: State, panel: Panel, now: nat, ignoreDeadline: bool)
    requires Shaped(s) && PanelShaped(Size(s.w, s.h), panel)
    ensures var m := Tick(s, panel, now, ignoreDeadline);
            && Shaped(m.s)
            && PanelShaped(Size(s.w, s.h), m.panel)
            && (m.s.w, m.s.h) == (s.w, s.h)
            && (m.terminals == [] ==> m.s == s)
            && (m.terminals != [] ==> m.s.pending.None?)
  {
    hide Size, TickDecision, TickAccepted, SubmitDamage, SubmitImage, PlaneOk, ValidRect, Deadline, PanelShaped, SubmitTo, Pumped;
    RestShaped(Size(s.w, s.h), panel);
    if s.pending.Some? {
      ImageSize(s);
      var p1 := Pumped(panel);
      if !Next(panel).Fail? {
        PanelParts(Size(s.w, s.h), p1);
        SubmitShaped(s.w, Size(s.w, s.h), p1, SubmitImage(s), SubmitDamage(s), TickDecision(s));
        if !Next(p1).Fail? {
          AcceptedShaped(s, now, Next(p1).physical);
          AcceptedFields(s, now, Next(p1).physical);
        }
      }
    }
  }

  lemma AcceptedFields(s: State, now: nat, physical: nat)
    requires Shaped(s) && s.pending.Some?
    ensures var a := TickAccepted(s, now, physical);
            (a.w, a.h) == (s.w, s.h) && a.pending.None?
  {
  }
}
