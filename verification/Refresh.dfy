/** Waveform choice, complete-refresh triggers and the cleanup debt counter. */
module Refresh {
  import opened Geometry
  import opened Tiles

  datatype Waveform = Fastest | Fast | Quality | FullQuality

  datatype Profile = Realtime | Animate | Balanced | Reading | HighQuality | Custom

  datatype Reason =
    | NoReason | PartialDisabled | Forced | FirstFrame | Periodic | LargeDamage | StaticFastDebt

  datatype Decision = Decision(waveform: Waveform, complete: bool, reason: Reason)

  datatype Intent = Latest | Settled

  datatype Content = UnspecifiedContent | TextUi | Photo | Video | Mixed

  datatype Config = Config(
    profile: Profile,
    latestText: Waveform,
    latestPhoto: Waveform,
    latestVideo: Waveform,
    settled: Waveform,
    partialEnabled: bool,
    cleanupAfter: nat,
    cleanFirst: bool,
    largePercent: nat,
    staticAfter: nat,
    damageTile: nat)

  datatype ConfigError = ZeroDamageTile | InvalidAreaThreshold | ConfiguredFullQuality | DebtWithoutPresentation

  function Preset(profile: Profile): Config {
    match profile
    case Realtime =>
      Config(profile, Fastest, Quality, Fastest, Quality, true, 0, false, 0, 0, 64)
    case Animate =>
      Config(profile, Fastest, Quality, Fastest, Quality, true, 0, true, 0, 0, 64)
    case Balanced =>
      Config(profile, Fast, Quality, Fastest, Quality, true, 0, true, 0, 0, 64)
    case Reading =>
      Config(profile, Quality, Quality, Fast, Quality, true, 0, true, 0, 0, 64)
    case HighQuality =>
      Config(profile, Quality, Quality, Quality, Quality, true, 0, true, 0, 0, 64)
    case Custom =>
      Config(profile, Fast, Quality, Fastest, Quality, true, 90, true, 0, 6, 64)
  }

  function Validate(c: Config): Option<ConfigError> {
    if c.damageTile == 0 then Some(ZeroDamageTile)
    else if c.largePercent > 100 then Some(InvalidAreaThreshold)
    else if c.latestText == FullQuality || c.latestPhoto == FullQuality
         || c.latestVideo == FullQuality || c.settled == FullQuality then Some(ConfiguredFullQuality)
    else None
  }

  /** Another preset, keeping the values the operator moved away from the old
      preset and the surface-local settings. */
  function SwitchedTo(c: Config, profile: Profile): Config {
    var was, next := Preset(c.profile), Preset(profile);
    next.(
      cleanupAfter := if c.cleanupAfter != was.cleanupAfter then c.cleanupAfter else next.cleanupAfter,
      largePercent := if c.largePercent != was.largePercent then c.largePercent else next.largePercent,
      staticAfter := if c.staticAfter != was.staticAfter then c.staticAfter else next.staticAfter,
      partialEnabled := c.partialEnabled,
      cleanFirst := c.cleanFirst,
      damageTile := c.damageTile)
  }

  const U32_MAX: nat := 0xFFFF_FFFF

  function SatAdd(a: nat, b: nat): nat {
    Min(a + b, U32_MAX)
  }

  datatype Debt = Debt(hasPresented: bool, partials: nat)

  datatype Policy = Policy(config: Config, presented: nat, hasPresented: bool)

  function NewPolicy(config: Config): Policy {
    Policy(config, 0, false)
  }

  predicate AreaDue(c: Config, intent: Intent, damagePixels: nat, panelPixels: nat) {
    intent == Settled && c.largePercent > 0 && damagePixels * 100 >= panelPixels * c.largePercent
  }

  function FullReason(p: Policy, intent: Intent, damagePixels: nat, panelPixels: nat, force: bool): Reason {
    if !p.config.partialEnabled then PartialDisabled
    else if force then Forced
    else if !p.hasPresented && p.config.cleanFirst then FirstFrame
    else if p.config.cleanupAfter > 0 && p.presented >= p.config.cleanupAfter then Periodic
    else if AreaDue(p.config, intent, damagePixels, panelPixels) then LargeDamage
    else NoReason
  }

  function LatestWaveform(c: Config, content: Content): Waveform {
    match content
    case Photo => c.latestPhoto
    case Video => c.latestVideo
    case TextUi | Mixed | UnspecifiedContent => c.latestText
  }

  function Decide(p: Policy, intent: Intent, content: Content, damagePixels: nat, panelPixels: nat, force: bool)
    : Decision
  {
    var reason := FullReason(p, intent, damagePixels, panelPixels, force);
    if reason != NoReason then
      Decision(if p.config.profile == HighQuality then FullQuality else Quality, true, reason)
    else
      Decision(if intent == Settled then p.config.settled else LatestWaveform(p.config, content), false, NoReason)
  }

  /** Accounts for a successful submission of `physical` panel updates. */
  function Submitted(p: Policy, d: Decision, physical: nat): Policy {
    p.(hasPresented := true, presented := if d.complete then 0 else SatAdd(p.presented, physical))
  }

  function DebtOf(p: Policy): Debt {
    Debt(p.hasPresented, p.presented)
  }

  predicate DebtValid(d: Debt) {
    d.hasPresented || d.partials == 0
  }

  predicate PolicyOk(p: Policy) {
    Validate(p.config).None? && DebtValid(DebtOf(p))
  }

  // ------------------------------------------------------------- properties

  /** A complete refresh always uses a full-grayscale waveform, and a partial
      update never uses the reserved one. */
  lemma DecideWaveform(p: Policy, intent: Intent, content: Content, damagePixels: nat, panelPixels: nat, force: bool)
    requires Validate(p.config).None?
    ensures var d := Decide(p, intent, content, damagePixels, panelPixels, force);
            && (d.complete <==> d.reason != NoReason)
            && (d.complete ==> d.waveform == Quality || d.waveform == FullQuality)
            && (!d.complete ==> d.waveform != FullQuality)
            && (force ==> d.complete)
  {
  }

  /** Switching to another preset and back restores the configuration exactly
      when no operator override coincides with the other preset's value. */
  lemma SwitchBackExact(c: Config, other: Profile)
    requires SwitchedTo(c, c.profile) == c
    ensures var was, via := Preset(c.profile), Preset(other);
            SwitchedTo(SwitchedTo(c, other), c.profile) == c <==>
            && (c.cleanupAfter == was.cleanupAfter || c.cleanupAfter != via.cleanupAfter)
            && (c.largePercent == was.largePercent || c.largePercent != via.largePercent)
            && (c.staticAfter == was.staticAfter || c.staticAfter != via.staticAfter)
  {
  }

  /** A switch takes the waveforms of the new preset and keeps what the operator or
      the surface had set; a valid configuration stays valid. */
  lemma SwitchKeeps(c: Config, profile: Profile)
    ensures var r, was, next := SwitchedTo(c, profile), Preset(c.profile), Preset(profile);
            && r.profile == profile
            && (r.latestText, r.latestPhoto, r.latestVideo, r.settled)
               == (next.latestText, next.latestPhoto, next.latestVideo, next.settled)
            && (r.partialEnabled, r.cleanFirst, r.damageTile) == (c.partialEnabled, c.cleanFirst, c.damageTile)
            && (c.cleanupAfter != was.cleanupAfter ==> r.cleanupAfter == c.cleanupAfter)
            && (c.cleanupAfter == was.cleanupAfter ==> r.cleanupAfter == next.cleanupAfter)
            && (c.largePercent != was.largePercent ==> r.largePercent == c.largePercent)
            && (c.largePercent == was.largePercent ==> r.largePercent == next.largePercent)
            && (c.staticAfter != was.staticAfter ==> r.staticAfter == c.staticAfter)
            && (c.staticAfter == was.staticAfter ==> r.staticAfter == next.staticAfter)
            && (Validate(c).None? ==> Validate(r).None?)
  {
  }

  datatype SubmitInput = SubmitInput(intent: Intent, content: Content, damagePixels: nat, panelPixels: nat, force: bool)

  function DecideOn(p: Policy, i: SubmitInput): Decision {
    Decide(p, i.intent, i.content, i.damagePixels, i.panelPixels, i.force)
  }

  /** The policy after a run of accepted submissions, one panel update each. */
  function AfterRun(p: Policy, run: seq<SubmitInput>): Policy
    decreases |run|
  {
    if run == [] then p
    else AfterRun(Submitted(p, DecideOn(p, run[0]), 1), run[1..])
  }

  /** With a periodic interval `n` the debt never passes `n`. */
  lemma {:induction false} PeriodicDebtBound(p: Policy, run: seq<SubmitInput>)
    requires p.config.partialEnabled && p.config.cleanupAfter > 0 && p.presented <= p.config.cleanupAfter
    ensures AfterRun(p, run).config == p.config
    ensures AfterRun(p, run).presented <= p.config.cleanupAfter
    decreases |run|
  {
    if run != [] {
      PeriodicDebtBound(Submitted(p, DecideOn(p, run[0]), 1), run[1..]);
    }
  }

  /** No `n + 1` accepted submissions in a row are all partial. */
  lemma {:induction false} PeriodicRunCleans(p: Policy, run: seq<SubmitInput>) returns (k: nat)
    requires p.config.partialEnabled && 0 < p.config.cleanupAfter <= U32_MAX
    requires p.presented <= p.config.cleanupAfter
    requires |run| == p.config.cleanupAfter - p.presented + 1
    ensures k < |run| && DecideOn(AfterRun(p, run[..k]), run[k]).complete
    decreases |run|
  {
    if DecideOn(p, run[0]).complete {
      k := 0;
    } else {
      var next := Submitted(p, DecideOn(p, run[0]), 1);
      var j := PeriodicRunCleans(next, run[1..]);
      k := j + 1;
      assert run[..k][1..] == run[1..][..j];
    }
  }

  // ------------------------------------------------------------------ class

  class RefreshPolicy {
    var config: Config
    var presentedSinceCleanup: nat
    var hasPresented: bool

    ghost function View(): Policy
      reads this
    {
      Policy(config, presentedSinceCleanup, hasPresented)
    }

    constructor (config: Config)
      ensures View() == NewPolicy(config)
    {
      this.config, presentedSinceCleanup, hasPresented := config, 0, false;
    }

    method DecideRefresh(intent: Intent, content: Content, damagePixels: nat, panelPixels: nat, force: bool)
      returns (d: Decision)
      ensures d == Decide(View(), intent, content, damagePixels, panelPixels, force)
    {
      d := Decide(Policy(config, presentedSinceCleanup, hasPresented), intent, content, damagePixels, panelPixels, force);
    }

    method PresentedSubmissions(d: Decision, physical: nat)
      modifies this
      ensures View() == Submitted(old(View()), d, physical)
    {
      hasPresented := true;
      presentedSinceCleanup := if d.complete then 0 else SatAdd(presentedSinceCleanup, physical);
    }

    /** Installs carried debt; inconsistent debt is rejected unchanged. */
    method RestoreDebt(debt: Debt) returns (error: Option<ConfigError>)
      modifies this
      ensures error.None? <==> DebtValid(debt)
      ensures error.None? ==> View() == old(View()).(hasPresented := debt.hasPresented, presented := debt.partials)
      ensures error.Some? ==> View() == old(View())
    {
      if !debt.hasPresented && debt.partials != 0 {
        return Some(DebtWithoutPresentation);
      }
      hasPresented, presentedSinceCleanup := debt.hasPresented, debt.partials;
      return None;
    }

    /** Changes the configuration only; the counters stay. */
    method Reconfigure(next: Config) returns (error: Option<ConfigError>)
      modifies this
      ensures error == Validate(next)
      ensures View() == if error.None? then old(View()).(config := next) else old(View())
    {
      error := Validate(next);
      if error.None? {
        config := next;
      }
    }
  }
}
