/** The receiver session on its fields: one display core at most, the panel it
    drives, and the bookkeeping around them. Every method is proved to do what
    the functions of Receiver say. */
module Session {
  import opened Geometry
  import opened Pixels
  import opened Raster
  import opened Regions
  import opened Tiles
  import opened Ink
  import opened Refresh
  import opened Backend
  import opened Buffers
  import opened Receiver
  import opened DisplayCore
  import Core
  import Semantic

  /** What outlives a surface. */
  datatype Ledger = Ledger(
    policy: Config,
    freezeOnPenDown: bool,
    automaticCleanup: bool,
    inputNotBefore: nat,
    nextGeneration: nat,
    overlaySequence: nat,
    cleanupCarried: bool,
    debtCarried: Debt)

  /** The fields of the active surface beside its core. */
  datatype Names = Names(
    surfaceId: nat,
    generation: nat,
    localInk: bool,
    inkFrozen: bool,
    inkPaused: bool,
    inkNeedsDown: bool,
    inkNotBefore: nat,
    penNeedsDown: bool,
    penPoint: Option<Point>)

  function SurfaceOf(n: Names, c: Core.State): Receiver.Surface {
    Receiver.Surface.Surface(n.surfaceId, n.generation, n.localInk, n.inkFrozen, n.inkPaused, n.inkNeedsDown, n.inkNotBefore,
                             n.penNeedsDown, n.penPoint, c)
  }

  /** The core and the fields beside it after an overlay command. */
  function EditedCore(c: Core.State, u: OverlayUpdate): Core.State
    requires u.rect.Some? ==> PatchOk(c.w, c.h, u.rect.value, u.luma, u.alpha)
  {
    var peer := if u.clear then Cleared(c.peer) else c.peer;
    c.(peer := if u.rect.Some? then Patched(c.w, c.h, peer, u.rect.value, u.luma, u.alpha) else peer,
       ink := if u.clear || u.localInk == Some(false) then Cleared(c.ink) else c.ink)
  }

  function EditedNames(n: Names, u: OverlayUpdate, now: nat): Names {
    var armed := if u.clear || u.localInk.Some?
                 then n.(penPoint := None, inkNeedsDown := true, inkNotBefore := Max(n.inkNotBefore, now)) else n;
    armed.(localInk := if u.localInk.Some? then u.localInk.value else n.localInk,
           inkFrozen := n.inkFrozen && u.localInk != Some(false))
  }

  lemma EditedSurface(n: Names, c: Core.State, u: OverlayUpdate, now: nat)
    requires u.rect.Some? ==> PatchOk(c.w, c.h, u.rect.value, u.luma, u.alpha)
    ensures OverlayEdited(SurfaceOf(n, c), u, now) == SurfaceOf(EditedNames(n, u, now), EditedCore(c, u))
  {
    hide PatchOk, Patched, Cleared;
  }

  class Session {
    const limits: Limits
    const inkWaveform: Waveform
    const encodings: set<Semantic.Encoding>
    const byteCreditsOn: bool
    const codec: Semantic.Codec
    const panel: PanelBackend
    var ledger: Ledger
    var names: Names
    var core: DisplayCore?

    ghost function Assemble(l: Ledger, n: Names, c: Option<Core.State>): State {
      State(limits, l.policy, inkWaveform, encodings, byteCreditsOn, l.freezeOnPenDown, l.automaticCleanup, l.inputNotBefore,
            l.nextGeneration, l.overlaySequence, l.cleanupCarried, l.debtCarried,
            if c.None? then None
            else Some(SurfaceOf(n, c.value)))
    }

    ghost predicate Owned()
      reads this
    {
      core != null ==> this !in core.Footprint() && panel !in core.Footprint()
    }

    ghost function Inner(): set<object>
      reads this
    {
      if core == null then {} else core.Footprint()
    }

    ghost function Footprint(): set<object>
      reads this
    {
      {this, panel} + Inner()
    }

    ghost predicate Valid()
      reads this, Inner()
    {
      && Owned()
      && (core != null ==> core.Valid() && PenOnPanel(names, core.width, core.height))
    }

    predicate PenOnPanel(n: Names, w: nat, h: nat) {
      n.penPoint.Some? ==> OnPanel(w, h, n.penPoint.value)
    }

    ghost function CoreView(): Option<Core.State>
      requires Valid()
      reads this, Inner()
    {
      if core == null then None else Some(core.View())
    }

    ghost function View(): State
      requires Valid()
      reads this, Inner()
    {
      Assemble(ledger, names, CoreView())
    }

    lemma ViewShaped()
      requires Valid()
      ensures Shaped(View())
    {
      hide Core.Shaped, BufferSet.Valid, BufferSet.Built, BufferSet.View;
    }

    constructor (limits: Limits, inkWaveform: Waveform, encodings: set<Semantic.Encoding>, byteCreditsOn: bool,
                 codec: Semantic.Codec, panel: PanelBackend, policy: Config)
      ensures Valid() && this.panel == panel && core == null
      ensures View() == State(limits, policy, inkWaveform, encodings, byteCreditsOn, true, true, 0, 1, 0, false,
                              Debt(false, 0), None)
    {
      this.limits, this.inkWaveform, this.encodings, this.byteCreditsOn := limits, inkWaveform, encodings, byteCreditsOn;
      this.codec, this.panel := codec, panel;
      ledger := Ledger(policy, true, true, 0, 1, 0, false, Debt(false, 0));
      names := Names(0, 0, false, false, false, true, 0, true, None);
      core := null;
    }

    // --------------------------------------------------------------- results

    /** One result with the credits and identities of the moment. */
    method ResultFor(surfaceId: nat, generation: nat, frameId: nat, code: Code, reason: Receiver.Reason)
      returns (r: FrameResult)
      requires Valid()
      ensures r == FrameResult(surfaceId, generation, frameId, code, reason, Credits(View()), LogicalId(View()),
                               PresentedId(View()), ByteCredits(View()))
    {
      hide Core.Shaped, BufferSet.Valid, BufferSet.Built, BufferSet.View;
      var busy := core != null && core.st.pending.Some?;
      var bytes := if busy then core.st.pending.value.decodedBytes else 0;
      r := FrameResult(
        surfaceId, generation, frameId, code, reason,
        SatSub(limits.maxInflight, if busy then 1 else 0),
        if core == null then 0 else core.st.logicalId,
        if core == null then 0 else core.st.presentedId,
        if !byteCreditsOn then 0 else SatSub(limits.maxInflightBytes, bytes));
    }

    method Immediate(f: Semantic.WireFrame, code: Code, reason: Receiver.Reason) returns (results: seq<FrameResult>)
      requires Valid()
      ensures results == [ImmediateResult(View(), f, code, reason)]
    {
      hide Core.Shaped, BufferSet.Valid, BufferSet.Built, BufferSet.View;
      var r := ResultFor(f.surfaceId, f.generation, f.frameId, code, reason);
      results := [r];
    }

    /** Terminals of the core as results of the session. */
    method Report(terminals: seq<Core.Terminal>) returns (results: seq<FrameResult>)
      requires Valid()
      ensures results == TerminalResults(View(), terminals)
    {
      hide Core.Shaped, BufferSet.Valid, BufferSet.Built, BufferSet.View, Credits, ByteCredits;
      results := [];
      for k := 0 to |terminals|
        invariant |results| == k
        invariant forall j :: 0 <= j < k ==> results[j] == TerminalResult(View(), terminals[j])
      {
        var t := terminals[k];
        var reason := match t.outcome
          case Presented => Receiver.Reason.NoReason
          case Superseded => Receiver.Reason.NoReason
          case Cancelled => if core != null && names.inkFrozen then InkFrozen else ProtocolState
          case BackendFailure => BackendFailed;
        var r := ResultFor(if core == null then 0 else names.surfaceId, if core == null then 0 else names.generation,
                           t.frameId, TerminalCode(t), reason);
        results := results + [r];
      }
    }

    // ---------------------------------------------------------------- frames

    method SurfaceState() returns (s: Semantic.SurfaceState)
      requires Valid() && core != null
      ensures s == SemanticSurface(View())
    {
      hide Core.Shaped, BufferSet.Valid, BufferSet.Built, BufferSet.View;
      s := Semantic.SurfaceState(names.surfaceId, names.generation, core.width, core.height, core.format, core.st.logicalId,
                                 limits.maxRegions, limits.maxFrameBytes);
    }

    /** The checks before validation. */
    method RejectEarly(f: Semantic.WireFrame) returns (reason: Option<Receiver.Reason>)
      requires Valid()
      ensures reason == EarlyRejection(View(), f)
    {
      hide Core.Shaped, BufferSet.Valid, BufferSet.Built, BufferSet.View, DecodedCost;
      if core != null && names.inkFrozen {
        return Some(InkFrozen);
      }
      for k := 0 to |f.regions|
        invariant forall j :: 0 <= j < k ==> f.regions[j].encoding in encodings
      {
        if f.regions[k].encoding !in encodings {
          return Some(Receiver.Reason.Unsupported);
        }
      }
      var now := ResultFor(0, 0, 0, RejectedCode, Receiver.Reason.NoReason);
      if now.credits == 0 {
        return Some(NoCredit);
      }
      if byteCreditsOn && DecodedCost(f.regions) > now.byteCredits {
        return Some(NoCredit);
      }
      if core == null {
        return Some(ProtocolState);
      }
      return None;
    }

    method AcceptFrame(f: Semantic.WireFrame, now: nat) returns (results: seq<FrameResult>)
      requires Valid()
      modifies Inner()
      ensures Valid() && Shaped(old(View()))
      ensures Step.Step(View(), results) == Receiver.AcceptFrame(old(View()), codec, f, now)
    {
      hide Core.Shaped, BufferSet.Valid, BufferSet.Built, BufferSet.View, EarlyRejection, Semantic.Validated, Core.Commit,
           Size, ImmediateResult, TerminalResult;
      ViewShaped();
      var early := RejectEarly(f);
      if early.Some? {
        results := Immediate(f, RejectedCode, early.value);
        return;
      }
      NotEarly(View(), f);
      var surface := SurfaceState();
      var checked := Semantic.ValidateAndDecode(codec, f, surface);
      if checked.Err? {
        var (code, reason) := SemanticReason(checked.error);
        results := Immediate(f, code, reason);
        return;
      }
      results := CommitFrame(f, checked.value, now);
    }

    method CommitFrame(f: Semantic.WireFrame, frame: Core.Frame, now: nat) returns (results: seq<FrameResult>)
      requires Valid() && core != null
      modifies Inner()
      ensures Valid() && Core.Shaped(old(core.View()))
      ensures Step.Step(View(), results) == Receiver.CommitFrame(old(View()), f, frame, now)
    {
      hide Core.Shaped, BufferSet.Valid, BufferSet.Built, BufferSet.View, Core.CommitCheck, ApplyAll, Core.Noted, Size, ImmediateResult, TerminalResult;
      var r := core.Commit(frame, KnownContent(f.content), now);
      match r
      case Refused(e) =>
        var (code, reason) := CommitReason(e);
        results := Immediate(f, code, reason);
      case Committed(superseded) =>
        results := Report(if superseded.Some? then [superseded.value] else []);
    }

    // ---------------------------------------------------------------- freeze

    method SetFrozen(frozen: bool, now: nat) returns (ok: bool, results: seq<FrameResult>)
      requires Valid()
      modifies this, Inner()
      ensures Valid() && core == old(core)
      ensures (if ok then Done(Step.Step(View(), results)) else Failed) == Receiver.SetFrozen(old(View()), frozen, now)
      ensures !ok ==> View() == old(View())
    {
      hide Core.Shaped, BufferSet.Valid, BufferSet.Built, BufferSet.View, TerminalResult, Core.Freeze;
      if core == null {
        return false, [];
      }
      if names.inkFrozen == frozen {
        return true, [];
      }
      if frozen && core.st.presentedId == 0 {
        return false, [];
      }
      RearmInk(now);
      names := names.(inkFrozen := frozen);
      if !frozen {
        return true, [];
      }
      FreezeSize(core);
      var terminals := core.FreezePresented();
      results := Report(terminals);
      ok := true;
    }

    method SetLocalInk(enabled: bool, penAvailable: bool, now: nat) returns (ok: bool)
      requires Valid()
      modifies this
      ensures Valid() && core == old(core)
      ensures (if ok then Done(Step.Step(View(), [])) else Failed)
           == Receiver.SetLocalInk(old(View()), enabled, penAvailable, now)
      ensures !ok ==> View() == old(View())
    {
      hide Core.Shaped, BufferSet.Valid, BufferSet.Built, BufferSet.View, DisplayCore.Valid, DisplayCore.View;
      if (enabled && !penAvailable) || core == null {
        return false;
      }
      if names.localInk != enabled {
        RearmInk(now);
        names := names.(localInk := enabled);
      }
      ok := true;
    }

    method SetInkPaused(paused: bool, now: nat) returns (ok: bool)
      requires Valid()
      modifies this
      ensures Valid() && core == old(core)
      ensures (if ok then Done(Step.Step(View(), [])) else Failed) == Receiver.SetInkPaused(old(View()), paused, now)
      ensures !ok ==> View() == old(View())
    {
      hide Core.Shaped, BufferSet.Valid, BufferSet.Built, BufferSet.View, DisplayCore.Valid, DisplayCore.View;
      if core == null {
        return false;
      }
      if names.inkPaused != paused {
        RearmInk(now);
        names := names.(inkPaused := paused);
      }
      ok := true;
    }

    /** A fresh contact is needed before more ink. */
    method RearmInk(now: nat)
      requires Valid()
      modifies this`names
      ensures Valid() && names == old(names).(penPoint := None, inkNeedsDown := true,
                                              inkNotBefore := Max(old(names).inkNotBefore, now))
    {
      names := names.(penPoint := None, inkNeedsDown := true, inkNotBefore := Max(names.inkNotBefore, now));
    }

    // --------------------------------------------------- ticks, maintenance

    ghost predicate PanelReady()
      requires Valid()
      reads this, Inner(), panel
    {
      PanelFits(View(), panel.View())
    }

    lemma PanelMatches()
      requires Valid() && PanelReady()
      ensures core != null ==> Core.PanelShaped(Size(core.width, core.height), panel.View())
    {
      hide Core.Shaped, BufferSet.Valid, BufferSet.Built, BufferSet.View, Core.PanelShaped, Size;
    }

    /** Remembers the debt for the time without a surface. */
    method CarryOver()
      requires Valid()
      modifies this`ledger
      ensures Valid() && View() == Carry(old(View()))
    {
      hide Core.Shaped, BufferSet.Valid, BufferSet.Built, BufferSet.View;
      if core != null {
        ledger := ledger.(cleanupCarried := core.st.forceCleanup,
                          debtCarried := Debt(core.refreshPolicy.hasPresented, core.refreshPolicy.presentedSinceCleanup));
      }
    }

    method Poll(now: nat, idle: bool) returns (results: seq<FrameResult>)
      requires Valid() && PanelReady()
      modifies Footprint()
      ensures Valid() && core == old(core) && Shaped(old(View()))
      ensures Panelled(Step.Step(View(), results), panel.View()) == Receiver.Poll(old(View()), old(panel.View()), now, idle)
    {
      hide Core.Shaped, BufferSet.Valid, BufferSet.Built, BufferSet.View, TerminalResult, Core.Tick, Core.TickInteractive,
           Core.PanelShaped, Size, Carry, DisplayCore.View, DisplayCore.Valid;
      PanelMatches();
      ViewShaped();
      if core == null {
        return [];
      }
      var terminals;
      if ledger.automaticCleanup {
        terminals := core.TickInteractive(now, panel, idle);
      } else {
        terminals := core.TickInner(now, panel, false);
      }
      CarryOver();
      results := Report(terminals);
    }

    method RequestCleanup(now: nat) returns (results: seq<FrameResult>)
      requires Valid() && PanelReady()
      modifies Footprint()
      ensures Valid() && core == old(core) && Shaped(old(View()))
      ensures Panelled(Step.Step(View(), results), panel.View())
           == Receiver.RequestCleanup(old(View()), old(panel.View()), now)
    {
      hide Core.Shaped, BufferSet.Valid, BufferSet.Built, BufferSet.View, TerminalResult, Core.RequestCleanup,
           Core.PanelShaped, Size;
      ViewShaped();
      if core == null {
        ledger := ledger.(cleanupCarried := true);
        return [];
      }
      var terminals, report := core.RequestCleanup(now, panel);
      ledger := ledger.(
        debtCarried := Debt(core.refreshPolicy.hasPresented, core.refreshPolicy.presentedSinceCleanup),
        cleanupCarried := report.pending);
      results := Report(terminals);
    }

    method SetProfile(config: Config, now: nat) returns (ok: bool, results: seq<FrameResult>)
      requires Valid() && PanelReady()
      modifies Footprint()
      ensures Valid() && core == old(core) && Shaped(old(View()))
      ensures var r := Receiver.SetProfile(old(View()), old(panel.View()), config, now);
              ok == r.PanelDone? && (ok ==> Panelled(Step.Step(View(), results), panel.View()) == r.value)
    {
      hide Core.Shaped, BufferSet.Valid, BufferSet.Built, BufferSet.View, TerminalResult, Core.ChangeProfile,
           Core.PanelShaped, Size, Validate, DisplayCore.View, DisplayCore.Valid;
      PanelMatches();
      ViewShaped();
      if core == null {
        ledger := ledger.(policy := config, cleanupCarried := ledger.cleanupCarried || config != ledger.policy);
        return true, [];
      }
      var error, terminals, report := core.ChangeRefreshProfile(config, now, panel);
      if error.Some? {
        return false, [];
      }
      ledger := ledger.(policy := config, cleanupCarried := report.pending);
      results := Report(terminals);
      ok := true;
    }

    method UpdateRefresh(config: Config) returns (ok: bool)
      requires Valid()
      modifies this, Inner()
      ensures Valid() && core == old(core)
      ensures (if ok then Done(Step.Step(View(), [])) else Failed) == Receiver.UpdateRefresh(old(View()), config)
    {
      hide Core.Shaped, BufferSet.Valid, BufferSet.Built, BufferSet.View, Validate;
      if core != null {
        var error := core.UpdateRefreshConfig(config);
        if error.Some? {
          return false;
        }
      }
      ledger := ledger.(policy := config);
      ok := true;
    }

    // ---------------------------------------------------------- local planes

    /** Presents the planes as they are; `ok` is false when the panel refused. */
    method PresentPlanes(now: nat, intent: Intent) returns (ok: bool, results: seq<FrameResult>)
      requires Valid() && core != null && PanelReady()
      modifies Inner(), panel
      ensures Valid() && core == old(core)
      ensures Core.Shaped(old(core.View()))
      ensures Core.PanelShaped(Size(old(core.View()).w, old(core.View()).h), old(panel.View()))
      ensures var r := Receiver.PresentPlanes(old(View()), old(panel.View()), old(core.View()), now, intent);
              ok == r.PanelDone? && (ok ==> Panelled(Step.Step(View(), results), panel.View()) == r.value)
    {
      hide Core.Shaped, BufferSet.Valid, BufferSet.Built, BufferSet.View, TerminalResult, Core.PresentPlane,
           Core.PanelShaped, Size;
      var terminals;
      ok, terminals := core.PresentPlane(now, panel, intent);
      if !ok {
        return false, [];
      }
      results := Report(terminals);
    }

    method RenderMenu(luma: seq<bv8>, alpha: seq<bv8>, now: nat) returns (ok: bool, results: seq<FrameResult>)
      requires Valid() && PanelReady()
      requires core != null ==> |luma| == |alpha| == Size(core.width, core.height)
      modifies Footprint()
      ensures Valid() && core == old(core) && Shaped(old(View()))
      ensures var r := Receiver.RenderMenu(old(View()), old(panel.View()), luma, alpha, now);
              ok == r.PanelDone? && (ok ==> Panelled(Step.Step(View(), results), panel.View()) == r.value)
    {
      hide Core.Shaped, BufferSet.Valid, BufferSet.Built, BufferSet.View, Receiver.PresentPlanes,
           Core.PanelShaped, Size, AllZero, Carry;
      ViewShaped();
      if core == null {
        return true, [];
      }
      ghost var was := View();
      var drawn := core.SetMenu(luma, alpha);
      PlanesCore(was, panel.View(), View().surface.value.core, now, Settled) by { ViewShaped(); }
      ok, results := PresentPlanes(now, Settled);
      if ok { CarryOver(); }
    }

    /** Erases the ink and asks for a fresh contact. */
    method EraseInk(now: nat)
      requires Valid() && core != null
      modifies this`names, Inner()
      ensures Valid() && Shaped(old(View())) && Shaped(View())
      ensures var u := old(View()).surface.value;
              View() == old(View()).(surface := Some(Rearmed(u, now).(core := u.core.(ink := Cleared(u.core.ink)))))
    {
      hide Core.Shaped, BufferSet.Valid, BufferSet.Built, BufferSet.View, Size, Cleared;
      ViewShaped();
      core.ClearInk();
      RearmInk(now);
      ViewShaped();
    }

    method ClearInk(now: nat) returns (ok: bool, results: seq<FrameResult>)
      requires Valid() && PanelReady()
      modifies Footprint()
      ensures Valid() && core == old(core) && Shaped(old(View()))
      ensures var r := Receiver.ClearInk(old(View()), old(panel.View()), now);
              ok == r.PanelDone? && (ok ==> Panelled(Step.Step(View(), results), panel.View()) == r.value)
    {
      hide Core.Shaped, BufferSet.Valid, BufferSet.Built, BufferSet.View, Receiver.PresentPlanes,
           Core.PanelShaped, Size, Cleared, DisplayCore.View, DisplayCore.Valid;
      ViewShaped();
      if core == null {
        return false, [];
      }
      ghost var was := View();
      EraseInk(now);
      PlanesCore(was.(surface := Some(Rearmed(was.surface.value, now))), panel.View(), View().surface.value.core, now, Latest);
      ok, results := PresentPlanes(now, Latest);
    }

    /** The producer plane after clearing and patching, as asked. */
    method EditPeer(u: OverlayUpdate)
      requires Valid() && core != null
      requires u.rect.Some? ==> PatchOk(core.width, core.height, u.rect.value, u.luma, u.alpha)
      modifies Inner()
      ensures Valid()
      ensures var c := old(core.View());
              var peer := if u.clear then Cleared(c.peer) else c.peer;
              core.View() == c.(peer := if u.rect.Some? then Patched(c.w, c.h, peer, u.rect.value, u.luma, u.alpha) else peer)
    {
      hide Core.Shaped, BufferSet.Valid, BufferSet.Built, BufferSet.View, Size, Cleared, Patched, PatchOk;
      if u.clear {
        core.ClearPeer();
      }
      if u.rect.Some? {
        var ok := core.PatchPeer(u.rect.value, u.luma, u.alpha);
      }
    }

    /** Ink wiped by a clear, or with local ink switched off. */
    method WipeInk(wipe: bool)
      requires Valid() && core != null
      modifies Inner()
      ensures Valid()
      ensures core.View() == if wipe then old(core.View()).(ink := Cleared(old(core.View()).ink)) else old(core.View())
    {
      hide Core.Shaped, BufferSet.Valid, BufferSet.Built, BufferSet.View, Size, Cleared;
      if wipe {
        core.ClearInk();
      }
    }

    method EditPlanes(u: OverlayUpdate)
      requires Valid() && core != null
      requires u.rect.Some? ==> PatchOk(core.width, core.height, u.rect.value, u.luma, u.alpha)
      modifies Inner()
      ensures Valid()
      ensures u.rect.Some? ==> PatchOk(old(core.View()).w, old(core.View()).h, u.rect.value, u.luma, u.alpha)
      ensures core.View() == EditedCore(old(core.View()), u)
    {
      hide Core.Shaped, BufferSet.Valid, BufferSet.Built, BufferSet.View, Size, Cleared, Patched, PatchOk;
      EditPeer(u);
      WipeInk(u.clear || u.localInk == Some(false));
    }

    method EditOverlay(u: OverlayUpdate, now: nat)
      requires Valid() && core != null
      requires u.rect.Some? ==> PatchOk(core.width, core.height, u.rect.value, u.luma, u.alpha)
      modifies this`names, Inner()
      ensures Valid()
      ensures var v := old(View()).surface.value;
              && (u.rect.Some? ==> PatchOk(v.core.w, v.core.h, u.rect.value, u.luma, u.alpha))
              && View() == old(View()).(surface := Some(OverlayEdited(v, u, now)))
    {
      hide Core.Shaped, BufferSet.Valid, BufferSet.Built, BufferSet.View, Size, PatchOk, DisplayCore.Valid,
           DisplayCore.View, OverlayEdited, EditedCore;
      ghost var n, c := names, CoreView().value;
      EditPlanes(u);
      names := EditedNames(names, u, now);
      EditedSurface(n, c, u, now);
    }

    /** Whether a negotiated overlay command may be applied. */
    method CheckOverlay(u: OverlayUpdate) returns (ok: bool)
      requires Valid()
      ensures ok == OverlayAcceptable(View(), u)
      ensures ok ==> core != null && (u.rect.Some? ==> PatchOk(core.width, core.height, u.rect.value, u.luma, u.alpha))
    {
      hide Core.Shaped, BufferSet.Valid, BufferSet.Built, BufferSet.View, PatchOk;
      if u.sequence == 0 || u.sequence <= ledger.overlaySequence || core == null {
        return false;
      }
      if names.surfaceId != u.surfaceId || names.generation != u.generation
         || |u.luma| + |u.alpha| > limits.maxFrameBytes {
        return false;
      }
      ok := if u.rect.Some? then PatchOk(core.width, core.height, u.rect.value, u.luma, u.alpha)
            else u.luma == [] && u.alpha == [] && (u.clear || u.localInk.Some?);
    }

    method UpdateOverlay(u: OverlayUpdate, now: nat) returns (ok: bool, results: seq<FrameResult>)
      requires Valid() && PanelReady()
      modifies Footprint()
      ensures Valid() && core == old(core) && Shaped(old(View()))
      ensures var r := Receiver.UpdateOverlay(old(View()), old(panel.View()), u, now);
              ok == r.PanelDone? && (ok ==> Panelled(Step.Step(View(), results), panel.View()) == r.value)
    {
      hide Core.Shaped, BufferSet.Valid, BufferSet.Built, BufferSet.View, Receiver.PresentPlanes, OverlayAcceptable,
           Core.PanelShaped, Size, Cleared, DisplayCore.View, DisplayCore.Valid, OverlayEdited, PatchOk;
      ViewShaped();
      ghost var was := View();
      var accepted := CheckOverlay(u);
      ledger := ledger.(overlaySequence := Max(ledger.overlaySequence, u.sequence));
      if !accepted {
        return true, [];
      }
      OverlayPatch(was, u);
      EditedShaped(was.surface.value, u, now);
      EditOverlay(u, now);
      ok, results := PresentPlanes(now, Settled);
    }

    // -------------------------------------------------------------------- pen

    /** Freezes the background at the first contact, when asked to. */
    method FreezeForInk() returns (terminals: seq<Core.Terminal>)
      requires Valid() && core != null
      modifies this`names, Inner()
      ensures Valid() && ledger == old(ledger)
      ensures var u := old(View()).surface.value;
              View().surface == Some(u.(inkFrozen := true, core := Core.Freeze(u.core).0))
              && terminals == Core.Freeze(u.core).1
    {
      hide Core.Shaped, BufferSet.Valid, BufferSet.Built, BufferSet.View, Size, Core.Freeze;
      FreezeSize(core);
      terminals := core.FreezePresented();
      names := names.(inkFrozen := true);
    }

    /** Draws the stroke of one record. */
    method DrawInk(r: PenRecord)
      requires Valid() && core != null && Shaped(View())
      modifies this`names, Inner()
      ensures Valid() && ledger == old(ledger)
      ensures View().surface == Some(Drawn(old(View()).surface.value, r))
    {
      hide BufferSet.Valid, BufferSet.Built, BufferSet.View, Size, InkLine, PlaneOk, ValidRect;
      var point := Point(Min(r.x, core.width - 1), Min(r.y, core.height - 1));
      var previous := if names.penPoint.Some? then names.penPoint.value else point;
      core.InkStroke(previous, point, if r.erase then ERASER_RADIUS else PEN_RADIUS, r.erase);
      names := names.(penPoint := Some(point));
    }

    method HasPresented() returns (b: bool)
      requires Valid()
      ensures b == (PresentedId(View()) != 0)
    {
      hide Core.Shaped, BufferSet.Valid, BufferSet.Built, BufferSet.View;
      b := core != null && core.st.presentedId != 0;
    }

    method CheckGate(r: PenRecord, now: nat, physical: bool) returns (gated: bool)
      requires Valid() && core != null
      ensures gated == Gated(View().surface.value, r, now, physical)
    {
      hide BufferSet.Valid, BufferSet.Built, BufferSet.View, DisplayCore.Valid, DisplayCore.View;
      gated := names.inkPaused || (physical && now < names.inkNotBefore)
               || (names.inkNeedsDown && (r.phase == Move || r.phase == Up));
    }

    method NoteContact(r: PenRecord)
      requires Valid() && core != null
      modifies this`names
      ensures Valid() && View() == old(View()).(surface := Some(Contact(old(View()).surface.value, r)))
    {
      hide BufferSet.Valid, BufferSet.Built, BufferSet.View, DisplayCore.Valid, DisplayCore.View, NeedsDown;
      names := names.(inkNeedsDown := NeedsDown(r.phase, names.inkNeedsDown));
    }

    /** Notes the contact, and freezes the background at its start. */
    method Touch(r: PenRecord) returns (terminals: seq<Core.Terminal>)
      requires Valid() && core != null
      modifies this`names, Inner()
      ensures Valid() && ledger == old(ledger)
      ensures var t := Landed(old(View()).surface.value, r, ledger.freezeOnPenDown);
              View().surface == Some(t.u) && terminals == t.terminals
    {
      hide Core.Shaped, BufferSet.Valid, BufferSet.Built, BufferSet.View, Size, Core.Freeze, DisplayCore.Valid,
           DisplayCore.View, Contact;
      NoteContact(r);
      var presented := HasPresented();
      terminals := [];
      if names.localInk && ledger.freezeOnPenDown && r.phase == Down && !names.inkFrozen && presented {
        terminals := FreezeForInk();
      }
    }

    method LiftPen()
      requires Valid() && core != null
      modifies this`names
      ensures Valid() && View() == old(View()).(surface := Some(old(View()).surface.value.(penPoint := None)))
    {
      hide BufferSet.Valid, BufferSet.Built, BufferSet.View, DisplayCore.Valid, DisplayCore.View;
      names := names.(penPoint := None);
    }

    /** One pen record of the local plane. */
    method InkRecord(r: PenRecord, now: nat, physical: bool) returns (terminals: seq<Core.Terminal>)
      requires Valid() && core != null && Shaped(View())
      modifies this`names, Inner()
      ensures Valid() && ledger == old(ledger)
      ensures var i := Receiver.InkRecord(old(View()).surface.value, r, now, physical, ledger.freezeOnPenDown);
              View().surface == Some(i.u) && terminals == i.terminals
    {
      hide Core.Shaped, BufferSet.Valid, BufferSet.Built, BufferSet.View, Size, Drawn, Landed, DisplayCore.Valid,
           DisplayCore.View, Gated;
      var gated := CheckGate(r, now, physical);
      if gated {
        return [];
      }
      LandedShaped(View().surface.value, r, ledger.freezeOnPenDown);
      terminals := Touch(r);
      var presented := HasPresented();
      if names.localInk && presented && (r.phase == Down || r.phase == Move) {
        DrawInk(r);
      } else {
        LiftPen();
      }
    }

    /** Notes the pen contact of the producer. */
    method Follow(r: PenRecord)
      requires Valid() && core != null
      modifies this`names
      ensures Valid() && View() == old(View()).(surface := Some(Followed(old(View()).surface.value, r)))
    {
      hide BufferSet.Valid, BufferSet.Built, BufferSet.View, DisplayCore.Valid, DisplayCore.View, NeedsDown;
      names := names.(penNeedsDown := NeedsDown(r.phase, names.penNeedsDown));
    }

    /** A report that is not wanted ends the contact. */
    method IgnorePen(now: nat)
      requires Valid() && core != null
      modifies this`names
      ensures Valid()
      ensures View() == old(View()).(surface := Some(Rearmed(old(View()).surface.value, now).(penNeedsDown := true)))
    {
      hide BufferSet.Valid, BufferSet.Built, BufferSet.View, DisplayCore.Valid, DisplayCore.View;
      RearmInk(now);
      names := names.(penNeedsDown := true);
    }

    method PenStep(i: PenInput, now: nat, physical: bool) returns (terminals: seq<Core.Terminal>)
      requires Valid() && core != null && Shaped(View())
      modifies this`names, Inner()
      ensures Valid() && ledger == old(ledger)
      ensures var t := Receiver.PenStep(old(View()).surface.value, i, now, physical, ledger.freezeOnPenDown);
              View().surface == Some(t.u) && terminals == t.terminals
    {
      hide Core.Shaped, BufferSet.Valid, BufferSet.Built, BufferSet.View, Size, DisplayCore.Valid, DisplayCore.View,
           Receiver.InkRecord, OnPanel, Followed, Rearmed;
      match i
      case Ignored =>
        IgnorePen(now);
        terminals := [];
      case Inking(r) =>
        if names.penNeedsDown && (r.phase == Move || r.phase == Up) {
          return [];
        }
        FollowedShaped(View().surface.value, r);
        Follow(r);
        terminals := InkRecord(r, now, physical);
    }

    /** The inputs of all reports, in order. */
    method PenSteps(inputs: seq<PenInput>, now: nat, physical: bool) returns (terminals: seq<Core.Terminal>)
      requires Valid() && core != null && Shaped(View())
      modifies this`names, Inner()
      ensures Valid() && ledger == old(ledger) && Shaped(View())
      ensures var i := Receiver.PenSteps(old(View()).surface.value, inputs, now, physical, ledger.freezeOnPenDown);
              View().surface == Some(i.u) && terminals == i.terminals
    {
      hide Core.Shaped, BufferSet.Valid, BufferSet.Built, BufferSet.View, Size, DisplayCore.Valid, DisplayCore.View,
           Receiver.PenStep, SurfaceShaped, SurfaceOf;
      var freeze := ledger.freezeOnPenDown;
      ghost var u := View().surface.value;
      ghost var all := Receiver.PenSteps(u, inputs, now, physical, freeze);
      terminals := [];
      assert inputs[0..] == inputs;
      assert [] + all.terminals == all.terminals;
      for k := 0 to |inputs|
        invariant Valid() && ledger == old(ledger) && Shaped(View())
        invariant var rest := Receiver.PenSteps(View().surface.value, inputs[k..], now, physical, freeze);
                  all.u == rest.u && all.terminals == terminals + rest.terminals
      {
        assert inputs[k..][0] == inputs[k] && inputs[k..][1..] == inputs[k + 1..];
        PenStepShaped(View().surface.value, inputs[k], now, physical, freeze);
        ghost var rest := Receiver.PenSteps(View().surface.value, inputs[k..], now, physical, freeze);
        var more := PenStep(inputs[k], now, physical);
        ghost var later := Receiver.PenSteps(View().surface.value, inputs[k + 1..], now, physical, freeze);
        assert rest.terminals == more + later.terminals && rest.u == later.u;
        assert terminals + (more + later.terminals) == (terminals + more) + later.terminals;
        terminals := terminals + more;
      }
      assert inputs[|inputs|..] == [];
      assert terminals + [] == terminals;
    }

    method PenReport(r: PenReports, now: nat) returns (ok: bool, results: seq<FrameResult>)
      requires Valid() && PanelReady()
      modifies Footprint()
      ensures Valid() && core == old(core) && Shaped(old(View()))
      ensures var o := Receiver.PenReport(old(View()), old(panel.View()), r, now);
              ok == o.PanelDone? && (ok ==> Panelled(Step.Step(View(), results), panel.View()) == o.value)
    {
      hide Core.Shaped, BufferSet.Valid, BufferSet.Built, BufferSet.View, Size, DisplayCore.Valid, DisplayCore.View,
           Receiver.PenSteps, Receiver.PresentPlanes, Core.PanelShaped, SurfaceShaped, TerminalResult, PenInputs;
      ViewShaped();
      if core == null {
        return true, [];
      }
      var inputs := if r.physical && now < ledger.inputNotBefore then []
                    else PenInputs(r.reports, r.listening && (r.forwarding || names.localInk));
      assert inputs == Reaching(View(), r, now);
      PenStepsShaped(View().surface.value, inputs, now, r.physical, ledger.freezeOnPenDown);
      var terminals := PenSteps(inputs, now, r.physical);
      results := Report(terminals);
      ok := true;
      if names.localInk {
        var late;
        ok, late := PresentPlanes(now, Latest);
        results := results + late;
      }
    }

    // --------------------------------------------------------------- surfaces

    /** A core for a new surface, with the debt and an armed cleanup carried. */
    method NewCore(format: Format, w: nat, h: nat, cleanup: bool, debt: Debt) returns (next: DisplayCore)
      requires Valid() && w > 0 && h > 0 && DebtValid(debt)
      requires debt == Receiver.CarriedDebt(View()) && cleanup == CarriedCleanup(View())
      ensures fresh(next) && fresh(next.Footprint()) && next.Valid()
      ensures next.View() == FreshCore(View(), format, w, h)
    {
      hide Core.Shaped, BufferSet.Valid, BufferSet.Built, BufferSet.View, Size, DisplayCore.View, DisplayCore.Valid,
           Core.NewState, Receiver.CarriedDebt, CarriedCleanup, DebtValid;
      NothingArmed(w, h, format, limits.maxFpsX100, limits.settledDeadline, ledger.policy);
      next := new DisplayCore(w, h, format, limits.maxFpsX100, limits.settledDeadline, ledger.policy);
      next.SetInkWaveform(inkWaveform);
      if cleanup {
        next.RequireCleanup();
      }
      var error := next.RestoreRefreshDebt(debt);
    }

    /** The debt to carry: the live one of the surface, or the remembered one. */
    method CarriedDebt() returns (debt: Debt, cleanup: bool)
      requires Valid()
      ensures debt == Receiver.CarriedDebt(View()) && cleanup == CarriedCleanup(View())
    {
      hide Core.Shaped, BufferSet.Valid, BufferSet.Built, BufferSet.View;
      debt, cleanup := ledger.debtCarried, ledger.cleanupCarried;
      if core != null {
        debt := Debt(core.refreshPolicy.hasPresented, core.refreshPolicy.presentedSinceCleanup);
        cleanup := cleanup || core.st.forceCleanup;
      }
    }

    /** Cancels what is pending and reports it. */
    method CancelAll() returns (results: seq<FrameResult>)
      requires Valid()
      modifies Inner()
      ensures Valid() && core == old(core) && ledger == old(ledger)
      ensures var s := old(View());
              if s.surface.None? then View() == s && results == []
              else
                var (core, terminals) := Core.CancelPending(s.surface.value.core);
                View() == WithCore(s, core) && results == TerminalResults(View(), terminals)
    {
      hide Core.Shaped, BufferSet.Valid, BufferSet.Built, BufferSet.View, TerminalResult, Size;
      if core == null {
        return [];
      }
      var terminals := core.CancelPending();
      results := Report(terminals);
    }

    /** The old surface leaves. */
    method TurnOver(debt: Debt, cleanup: bool) returns (results: seq<FrameResult>)
      requires Valid() && debt == Receiver.CarriedDebt(View()) && cleanup == CarriedCleanup(View())
      modifies this`ledger, Inner()
      ensures Valid() && core == old(core)
      ensures Step.Step(View(), results) == TurnedOver(old(View()))
    {
      hide Core.Shaped, BufferSet.Valid, BufferSet.Built, BufferSet.View, TerminalResult, Size, DisplayCore.Valid,
           DisplayCore.View, Core.CancelPending, Receiver.CarriedDebt, CarriedCleanup;
      var generation := Max(ledger.nextGeneration, 1);
      ledger := ledger.(nextGeneration := NextGeneration(generation), cleanupCarried := cleanup, debtCarried := debt);
      results := CancelAll();
    }

    /** The new surface takes its place. */
    method Install(next: DisplayCore, surfaceId: nat, generation: nat, notBefore: nat, now: nat)
      requires Valid() && next.Valid() && this !in next.Footprint() && panel !in next.Footprint()
      modifies this
      ensures Valid() && core == next
      ensures View() == old(View()).(
                inputNotBefore := now,
                surface := Some(Receiver.Surface.Surface(surfaceId, generation, false, false, false, true, notBefore, true, None, next.View())))
    {
      hide Core.Shaped, BufferSet.Valid, BufferSet.Built, BufferSet.View, Size, DisplayCore.Valid, DisplayCore.View;
      ledger := ledger.(inputNotBefore := now);
      names := Names(surfaceId, generation, false, false, false, true, notBefore, true, None);
      core := next;
    }

    method OpenSurface(open: SurfaceOpen, w: nat, h: nat, now: nat) returns (ok: bool, results: seq<FrameResult>)
      requires Valid()
      modifies this, Inner()
      ensures Valid() && fresh(Inner() - old(Inner()))
      ensures (if ok then Done(Step.Step(View(), results)) else Failed) == Receiver.OpenSurface(old(View()), open, w, h, now)
    {
      hide Core.Shaped, BufferSet.Valid, BufferSet.Built, BufferSet.View, Size, Validate, DisplayCore.Valid,
           DisplayCore.View, FreshCore, TurnedOver, Receiver.CarriedDebt, CarriedCleanup, DebtValid, Max, NextGeneration, Core.PanelShaped, OnPanel, TerminalResult;
      ghost var was := View();
      assert ledger.policy == was.policy && ledger.nextGeneration == was.nextGeneration
          && ledger.inputNotBefore == was.inputNotBefore;
      hide Assemble, View, CoreView;
      if open.surfaceId == 0 || w == 0 || h == 0 || Validate(ledger.policy).Some? {
        return false, [];
      }
      var debt, cleanup := CarriedDebt();
      if !DebtValid(debt) {
        return false, [];
      }
      var generation, notBefore := Max(ledger.nextGeneration, 1), ledger.inputNotBefore;
      var next := NewCore(open.format, w, h, cleanup, debt);
      results := TurnOver(debt, cleanup);
      Install(next, open.surfaceId, generation, notBefore, now);
      ok := true;
    }

    method CloseSurface(surfaceId: nat, generation: nat) returns (results: seq<FrameResult>)
      requires Valid()
      modifies this, Inner()
      ensures Valid()
      ensures Step.Step(View(), results) == Receiver.CloseSurface(old(View()), surfaceId, generation)
    {
      hide Core.Shaped, BufferSet.Valid, BufferSet.Built, BufferSet.View, TerminalResult, Size, DisplayCore.Valid,
           DisplayCore.View, DebtOf, Core.CancelPending;
      if core == null || names.surfaceId != surfaceId || names.generation != generation {
        return [];
      }
      ghost var was := View();
      results := CancelAll();
      CarryOver();
      CarriedResults(WithCore(was, Core.CancelPending(was.surface.value.core).0),
                     Core.CancelPending(was.surface.value.core).1);
      core := null;
    }
  }

  /** Carrying over changes nothing a result speaks of. */
  lemma CarriedResults(s: State, terminals: seq<Core.Terminal>)
    ensures TerminalResults(Carry(s), terminals) == TerminalResults(s, terminals)
  {
  }

  lemma FollowedShaped(u: Receiver.Surface, r: PenRecord)
    requires SurfaceShaped(u)
    ensures SurfaceShaped(Followed(u, r))
  {
    hide Core.Shaped, OnPanel;
  }

  lemma LandedShaped(u: Receiver.Surface, r: PenRecord, freezeOnDown: bool)
    requires SurfaceShaped(u)
    ensures SurfaceShaped(Landed(u, r, freezeOnDown).u)
  {
    FrozenShaped(u, Landed(u, r, freezeOnDown).u);
  }

  lemma OverlayPatch(s: State, u: OverlayUpdate)
    requires OverlayAcceptable(s, u)
    ensures s.surface.Some?
    ensures u.rect.Some? ==> PatchOk(s.surface.value.core.w, s.surface.value.core.h, u.rect.value, u.luma, u.alpha)
  {
    hide PatchOk;
  }

  lemma FreezeSize(core: DisplayCore)
    requires core.Valid()
    ensures var t := Core.Freeze(core.View()).0; (t.w, t.h) == (core.width, core.height)
  {
    hide Core.Shaped, BufferSet.Valid, BufferSet.Built, BufferSet.View;
  }

  lemma NothingArmed(w: nat, h: nat, format: Format, maxFpsX100: nat, settledDeadline: nat, config: Config)
    ensures !Core.NewState(w, h, format, maxFpsX100, settledDeadline, config).forceCleanup
  {
    hide Size, CeilDiv;
  }

  lemma NotEarly(s: State, f: Semantic.WireFrame)
    requires EarlyRejection(s, f).None?
    ensures s.surface.Some?
  {
  }
}
