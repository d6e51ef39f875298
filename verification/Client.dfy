/** The producer client: its calls over fields and queues. Every call is shown
    to be a sequence of protocol steps. */
module Client {
  import opened Geometry
  import opened Raster
  import opened Regions
  import opened Tiles
  import opened Ink
  import opened Refresh
  import opened Receiver
  import Delta
  import Semantic
  import P = Producer

  // ----------------------------------------------------------------- traces

  /** Protocol steps one after the other. */
  ghost function PlayAll(p: P.State, codec: Semantic.Codec, acts: seq<P.Act>): Option<P.Played>
    decreases |acts|
  {
    if acts == [] then Some(P.Played(p, []))
    else
      var n := |acts| - 1;
      match PlayAll(p, codec, acts[..n])
      case None => None
      case Some(m) =>
        match P.Play(m.p, codec, acts[n])
        case None => None
        case Some(k) => Some(P.Played(k.p, m.frames + k.frames))
  }

  ghost predicate Traced(p: P.State, codec: Semantic.Codec, acts: seq<P.Act>, q: P.State, sent: seq<Semantic.WireFrame>) {
    PlayAll(p, codec, acts) == Some(P.Played(q, sent))
  }

  lemma TraceStep(p: P.State, codec: Semantic.Codec, acts: seq<P.Act>, q: P.State, sent: seq<Semantic.WireFrame>,
                  a: P.Act, next: P.Played)
    requires Traced(p, codec, acts, q, sent) && P.Play(q, codec, a) == Some(next)
    ensures Traced(p, codec, acts + [a], next.p, sent + next.frames)
  {
    hide P.Play;
    assert (acts + [a])[..|acts|] == acts;
  }

  /** The results that a trace takes in, in order. */
  ghost function Taken(acts: seq<P.Act>): seq<FrameResult> {
    if acts == [] then []
    else
      var n := |acts| - 1;
      Taken(acts[..n]) + if acts[n].Receive? then [acts[n].result] else []
  }

  lemma TakenStep(acts: seq<P.Act>, a: P.Act)
    ensures Taken(acts + [a]) == Taken(acts) + if a.Receive? then [a.result] else []
  {
    assert (acts + [a])[..|acts|] == acts;
  }

  /** The trace goes on from an earlier one, taking in these results. */
  ghost predicate Extends(before: seq<P.Act>, acts: seq<P.Act>, got: seq<FrameResult>) {
    before <= acts && Taken(acts) == Taken(before) + got
  }

  lemma ExtendsSelf(acts: seq<P.Act>)
    ensures Extends(acts, acts, [])
  {
    hide Taken;
  }

  lemma ExtendsStep(before: seq<P.Act>, acts: seq<P.Act>, got: seq<FrameResult>, a: P.Act)
    requires Extends(before, acts, got)
    ensures Extends(before, acts + [a], if a.Receive? then got + [a.result] else got)
  {
    hide Taken;
    TakenStep(acts, a);
  }

  lemma ExtendsChain(a: seq<P.Act>, b: seq<P.Act>, c: seq<P.Act>, inbox: seq<FrameResult>, i: nat, j: nat, k: nat)
    requires i <= j <= k <= |inbox|
    requires Extends(a, b, inbox[i..j]) && Extends(b, c, inbox[j..k])
    ensures Extends(a, c, inbox[i..k])
  {
    hide Taken;
    assert inbox[i..j] + inbox[j..k] == inbox[i..k];
  }

  /** What a result does does not depend on where the call stands. */
  lemma ApplyAnywhere(p: P.State, phase: P.Phase, r: FrameResult)
    ensures P.ApplyResult(p, r).Some? <==> P.ApplyResult(p.(phase := phase), r).Some?
    ensures P.ApplyResult(p, r).Some? ==>
              P.ApplyResult(p.(phase := phase), r).value == P.ApplyResult(p, r).value.(phase := phase)
  {
  }

  lemma ReceiveStep(idle: P.State, phase: P.Phase, codec: Semantic.Codec, r: FrameResult)
    requires P.ApplyResult(idle, r).Some?
    requires phase.Queueing? ==> P.Blocked(idle, phase.regions)
    ensures var q := P.ApplyResult(idle, r).value.(phase := phase);
            P.Play(idle.(phase := phase), codec, P.Receive(r)) == Some(P.Played(q.(phase := P.Advance(q, r)), []))
  {
    hide P.ApplyResult;
    ApplyAnywhere(idle, phase, r);
  }

  // ------------------------------------------------------------------ client

  datatype ClientError = Closed | UnexpectedMessage | OutOfCredit | BadPixels | FrameRejected(result: FrameResult)

  datatype Outcome = Reported(report: Option<FrameResult>) | Aborted(error: ClientError)

  /** What waiting for room in the queue came to. */
  datatype Room = Ready | Lost | NoRoom | Broken

  /** The connection is of no further use. */
  predicate Fatal(o: Outcome) {
    o.Aborted? && (o.error.Closed? || o.error.UnexpectedMessage?)
  }

  class ProducerClient {
    const setup: P.Setup
    const codec: Semantic.Codec
    var nextId: nat
    var receiverLogical: nat
    var logical: nat
    var needsKeyframe: bool
    var credits: nat
    var byteCredits: nat
    var pending: seq<nat>
    var completed: seq<FrameResult>

    ghost function View(phase: P.Phase): P.State
      reads this
    {
      P.State.State(setup, nextId, receiverLogical, logical, needsKeyframe, credits, byteCredits, pending, phase)
    }

    /** Identities are handed out upwards, so no report names the next one. */
    ghost predicate Valid()
      reads this
    {
      && setup.w > 0 && setup.h > 0
      && (forall k :: 0 <= k < |pending| ==> pending[k] < nextId)
      && (forall k :: 0 <= k < |completed| ==> completed[k].frameId < nextId)
    }

    constructor (setup: P.Setup, codec: Semantic.Codec)
      requires setup.w > 0 && setup.h > 0
      ensures this.setup == setup && this.codec == codec
      ensures Valid() && View(P.Idle) == P.NewState(setup) && completed == []
    {
      this.setup, this.codec := setup, codec;
      nextId, receiverLogical, logical, needsKeyframe := 1, 0, 0, true;
      credits, byteCredits := setup.maxInflight, setup.byteLimit;
      pending, completed := [], [];
    }

    method ApplyFrameResult(r: FrameResult) returns (ok: bool)
      requires Valid()
      modifies this
      ensures Valid() && completed == old(completed) && nextId == old(nextId)
      ensures ok <==> P.ApplyResult(old(View(P.Idle)), r).Some?
      ensures View(P.Idle) == if ok then P.ApplyResult(old(View(P.Idle)), r).value else old(View(P.Idle))
      ensures ok ==> r.frameId < nextId
    {
      if r.credits > setup.maxInflight || (setup.byteCreditsOn && r.byteCredits > setup.byteLimit) {
        return false;
      }
      if r.frameId !in pending {
        return false;
      }
      var index := P.Position(pending, r.frameId);
      var left := pending[..index] + pending[index + 1..];
      var keyframe := needsKeyframe || !P.Clean(r);
      pending, credits, receiverLogical, needsKeyframe := left, r.credits, r.logicalId, keyframe;
      byteCredits := if setup.byteCreditsOn then r.byteCredits else byteCredits;
      logical := if keyframe || left == [] then r.logicalId else left[|left| - 1];
      return true;
    }

    /** Enters a frame of this many decoded bytes into the books. */
    method Book(cost: nat) returns (id: nat)
      requires Valid() && credits > 0
      modifies this
      ensures Valid() && completed == old(completed)
      ensures id == old(nextId) && View(P.Idle) == P.Sent(old(View(P.Idle)), cost)
    {
      id := nextId;
      nextId := id + 1;
      credits := credits - 1;
      byteCredits := SatSub(byteCredits, cost);
      logical := id;
      pending := pending + [id];
    }

    /** Takes in results until no frame is without one. */
    method SettlePending(inbox: seq<FrameResult>, start: nat, ghost p0: P.State, ghost sent0: seq<Semantic.WireFrame>,
                         ghost acts0: seq<P.Act>, ghost phase: P.Phase)
      returns (ok: bool, used: nat, ghost acts: seq<P.Act>)
      requires Valid() && phase.Settling? && Traced(p0, codec, acts0, View(phase), sent0)
      requires start <= |inbox|
      modifies this
      ensures Valid() && start <= used <= |inbox|
      ensures ok ==> pending == [] && Traced(p0, codec, acts, View(phase), sent0)
      ensures ok ==> Extends(acts0, acts, inbox[start..used])
      ensures ok ==> completed == old(completed) + inbox[start..used]
      ensures nextId == old(nextId)
    {
      hide PlayAll, P.ApplyResult, Traced, P.Play, Taken;
      used, acts := start, acts0;
      ExtendsSelf(acts0);
      while pending != []
        invariant Valid() && start <= used <= |inbox|
        invariant Traced(p0, codec, acts, View(phase), sent0)
        invariant Extends(acts0, acts, inbox[start..used])
        invariant completed == old(completed) + inbox[start..used] && nextId == old(nextId)
        decreases |inbox| - used
      {
        if used == |inbox| {
          return false, used, acts;
        }
        var r := inbox[used];
        ghost var before := View(P.Idle);
        var fine := ApplyFrameResult(r);
        used := used + 1;
        if !fine {
          return false, used, acts;
        }
        completed := completed + [r];
        ReceiveStep(before, phase, codec, r);
        TraceStep(p0, codec, acts, before.(phase := phase), sent0, P.Receive(r), P.Played(View(phase), []));
        assert sent0 + [] == sent0;
        ExtendsStep(acts0, acts, inbox[start..used - 1], P.Receive(r));
        assert inbox[start..used] == inbox[start..used - 1] + [r];
        acts := acts + [P.Receive(r)];
      }
      ok := true;
    }

    /** Takes in results until the one of `frameId`, which is still to come;
        reports of other frames are kept for later. */
    method WaitForReport(frameId: nat, inbox: seq<FrameResult>, start: nat, ghost p0: P.State,
                         ghost sent0: seq<Semantic.WireFrame>, ghost acts0: seq<P.Act>, ghost phase: P.Phase)
      returns (report: Option<FrameResult>, closed: bool, used: nat, ghost acts: seq<P.Act>)
      requires Valid() && start <= |inbox|
      requires phase.Waiting? && phase.frameId == frameId && frameId in pending
      requires Traced(p0, codec, acts0, View(phase), sent0)
      modifies this
      ensures Valid() && start <= used <= |inbox| && nextId == old(nextId)
      ensures report.Some? ==>
                && used > start && report.value == inbox[used - 1]
                && report.value.frameId == frameId
                && |pending| + (used - start) == |old(pending)|
                && completed == old(completed) + inbox[start..used - 1]
                && Traced(p0, codec, acts, View(P.Advance(View(phase), report.value)), sent0)
                && Extends(acts0, acts, inbox[start..used])
                && (!P.Clean(report.value) ==> needsKeyframe)
                && (old(needsKeyframe) ==> needsKeyframe)
                && (used == start + 1 ==> needsKeyframe == (old(needsKeyframe) || !P.Clean(report.value)))
    {
      hide PlayAll, P.ApplyResult, Traced, P.Play, Taken, P.Advance;
      used, acts := start, acts0;
      ExtendsSelf(acts0);
      while true
        invariant Valid() && start <= used <= |inbox| && nextId == old(nextId)
        invariant frameId in pending && |pending| + (used - start) == |old(pending)|
        invariant Traced(p0, codec, acts, View(phase), sent0)
        invariant Extends(acts0, acts, inbox[start..used])
        invariant completed == old(completed) + inbox[start..used]
        invariant old(needsKeyframe) ==> needsKeyframe
        invariant used == start ==> needsKeyframe == old(needsKeyframe)
        decreases |inbox| - used
      {
        if used == |inbox| {
          return None, true, used, acts;
        }
        var r := inbox[used];
        ghost var before := View(P.Idle);
        var fine := ApplyFrameResult(r);
        used := used + 1;
        if !fine {
          return None, false, used, acts;
        }
        ResultTaken(before, r, frameId);
        ReceiveStep(before, phase, codec, r);
        TraceStep(p0, codec, acts, before.(phase := phase), sent0, P.Receive(r),
                  P.Played(View(P.Advance(View(phase), r)), []));
        assert sent0 + [] == sent0;
        ExtendsStep(acts0, acts, inbox[start..used - 1], P.Receive(r));
        acts := acts + [P.Receive(r)];
        assert inbox[start..used] == inbox[start..used - 1] + [r];
        if r.frameId == frameId {
          return Some(r), false, used, acts;
        }
        StillWaiting(View(phase), r);
        completed := completed + [r];
      }
    }

    /** Puts one frame on the wire when no other is without a result. */
    method Post(regions: seq<Region>, content: Content, forced: bool, ghost p0: P.State,
                ghost sent0: seq<Semantic.WireFrame>, ghost acts0: seq<P.Act>, pixels: Image, ghost prior: Option<Image>,
                intent: Intent)
      returns (frame: Semantic.WireFrame, ghost acts: seq<P.Act>)
      requires Valid() && pending == [] && credits > 0 && P.Cost(regions) <= byteCredits
      requires P.PixelsOk(setup, pixels, prior)
      requires forced == (needsKeyframe || receiverLogical == 0)
      requires P.Chosen(View(P.Settling(pixels, prior, intent)), pixels, prior, regions)
      requires Traced(p0, codec, acts0, View(P.Settling(pixels, prior, intent)), sent0)
      modifies this
      ensures Valid() && pending == [frame.frameId] && completed == old(completed)
      ensures frame.baseId == if forced then 0 else old(logical)
      ensures Traced(p0, codec, acts, View(P.Waiting(frame.frameId, pixels, forced, intent)), sent0 + [frame])
      ensures Extends(acts0, acts, [])
      ensures !needsKeyframe
    {
      hide PlayAll, Traced, P.Play, Taken, P.PixelsOk, P.Chosen, Semantic.RawRegions, P.Cost;
      ghost var before := View(P.Settling(pixels, prior, intent));
      var base := if forced then 0 else logical;
      var id := Book(P.Cost(regions));
      if forced {
        needsKeyframe := false;
      }
      frame := P.Frame(setup, codec, id, base, intent, content, regions);
      ghost var after := View(P.Waiting(id, pixels, forced, intent));
      TransmitStep(before, codec, regions, content, after, frame);
      TraceStep(p0, codec, acts0, before, sent0, P.Transmit(regions, content), P.Played(after, [frame]));
      ExtendsSelf(acts0);
      ExtendsStep(acts0, acts0, [], P.Transmit(regions, content));
      acts := acts0 + [P.Transmit(regions, content)];
    }

    /** One synchronous attempt: `None` when the answer asks for a keyframe and
        the attempt was not one. */
    method Attempt(pixels: Image, prior: Option<Image>, tile: nat, forced: bool, intent: Intent, content: Content,
                   inbox: seq<FrameResult>, start: nat, ghost p0: P.State, ghost sent0: seq<Semantic.WireFrame>,
                   ghost acts0: seq<P.Act>)
      returns (outcome: Option<Outcome>, used: nat, sent: seq<Semantic.WireFrame>, ghost acts: seq<P.Act>)
      requires Valid() && start <= |inbox| && pending == []
      requires P.PixelsOk(setup, pixels, prior)
      requires forced == (needsKeyframe || receiverLogical == 0)
      requires Traced(p0, codec, acts0, View(P.Settling(pixels, prior, intent)), sent0)
      modifies this
      ensures Valid() && start <= used <= |inbox| && |sent| <= 1
      ensures outcome.None? ==>
                && !forced && needsKeyframe && pending == [] && sent != []
                && Traced(p0, codec, acts, View(P.Settling(pixels, None, intent)), sent0 + sent)
                && Extends(acts0, acts, inbox[start..used])
      ensures outcome.Some? && !Fatal(outcome.value) ==>
                && Traced(p0, codec, acts, View(P.Idle), sent0 + sent)
                && Extends(acts0, acts, inbox[start..used])
      ensures outcome.Some? && outcome.value.Reported? ==>
                && outcome.value.report.Some? && sent != []
                && outcome.value.report.value.frameId == sent[0].frameId
                && (P.Clean(outcome.value.report.value) || outcome.value.report.value.reason == InkFrozen)
      ensures sent != [] && forced ==> sent[0].baseId == 0
    {
      hide PlayAll, P.ApplyResult, Traced, P.Play, Taken, Size, Delta.IsDelta, Delta.Tight, Semantic.RawRegions, P.Cost;
      sent, used := [], start;
      var regions := P.Whole(setup, pixels);
      if !forced && prior.Some? {
        regions := Delta.EncodeDelta(setup.w, setup.h, tile, P.Limit(setup), prior.value, pixels);
      }
      assert inbox[start..start] == [];
      if credits == 0 || P.Cost(regions) > byteCredits {
        acts := GaveUp(p0, acts0, View(P.Settling(pixels, prior, intent)), sent0);
        assert sent0 + [] == sent0;
        return Some(Aborted(OutOfCredit)), used, sent, acts;
      }
      var frame;
      ghost var posted, waited;
      frame, posted := Post(regions, content, forced, p0, sent0, acts0, pixels, prior, intent);
      sent := [frame];
      var report, closed;
      report, closed, used, waited := WaitForReport(frame.frameId, inbox, start, p0, sent0 + sent, posted,
                                                    P.Waiting(frame.frameId, pixels, forced, intent));
      acts := waited;
      if report.None? {
        return Some(Aborted(if closed then Closed else UnexpectedMessage)), used, sent, acts;
      }
      ExtendsChain(acts0, posted, waited, inbox, start, start, used);
      var r := report.value;
      if r.reason == InkFrozen || P.Clean(r) {
        return Some(Reported(report)), used, sent, acts;
      }
      if r.code != NeedKeyframeCode || forced {
        return Some(Aborted(FrameRejected(r))), used, sent, acts;
      }
      outcome := None;
    }

    /** Sends one frame when no other is without a result, and waits for its
        result; a delta whose base was lost is sent again as a keyframe. */
    method SendSettled(pixels: Image, prior: Option<Image>, tile: nat, intent: Intent, content: Content,
                       inbox: seq<FrameResult>, start: nat, ghost p0: P.State, ghost acts0: seq<P.Act>)
      returns (outcome: Outcome, used: nat, sent: seq<Semantic.WireFrame>, ghost acts: seq<P.Act>)
      requires Valid() && start <= |inbox|
      requires Traced(p0, codec, acts0, View(P.Settling(pixels, prior, intent)), [])
      modifies this
      ensures Valid() && start <= used <= |inbox| && |sent| <= 2
      ensures !Fatal(outcome) ==>
                && Traced(p0, codec, acts, View(P.Idle), sent)
                && Extends(acts0, acts, inbox[start..used])
      ensures outcome.Reported? ==>
                && outcome.report.Some? && sent != []
                && outcome.report.value.frameId == sent[|sent| - 1].frameId
                && (P.Clean(outcome.report.value) || outcome.report.value.reason == InkFrozen)
      ensures |sent| == 2 ==> sent[1].baseId == 0
    {
      hide PlayAll, P.ApplyResult, Traced, P.Play, Taken, P.PixelsOk;
      var ok, settled;
      ghost var a1, a2;
      ok, settled, a1 := SettlePending(inbox, start, p0, [], acts0, P.Settling(pixels, prior, intent));
      used, sent, acts := settled, [], a1;
      if !ok {
        return Aborted(if used == |inbox| then Closed else UnexpectedMessage), used, sent, acts;
      }
      if !P.PixelsOk(setup, pixels, prior) {
        acts := GaveUp(p0, a1, View(P.Settling(pixels, prior, intent)), []);
        assert inbox[used..used] == [];
        ExtendsChain(acts0, a1, acts, inbox, start, used, used);
        return Aborted(BadPixels), used, sent, acts;
      }
      var first, at, more;
      first, at, sent, a2 := Attempt(pixels, prior, tile, needsKeyframe || receiverLogical == 0, intent, content, inbox,
                                     settled, p0, [], a1);
      assert [] + sent == sent;
      acts, used := a2, at;
      if first.Some? {
        if !Fatal(first.value) {
          ExtendsChain(acts0, a1, a2, inbox, start, settled, at);
        }
        return first.value, used, sent, acts;
      }
      ExtendsChain(acts0, a1, a2, inbox, start, settled, at);
      NoPriorNeeded(setup, pixels, prior);
      var second;
      second, used, more, acts := Attempt(pixels, None, tile, true, intent, content, inbox, at, p0, sent, a2);
      if !Fatal(second.value) {
        ExtendsChain(acts0, a2, acts, inbox, start, at, used);
      }
      sent := sent + more;
      outcome := second.value;
    }

    /** A synchronous frame: a delta against `prior` when one is given and the
        receiver has a base, the whole image otherwise. */
    method SendFrame(pixels: Image, prior: Option<Image>, tile: nat, intent: Intent, content: Content,
                     inbox: seq<FrameResult>)
      returns (outcome: Outcome, used: nat, sent: seq<Semantic.WireFrame>, ghost acts: seq<P.Act>)
      requires Valid()
      modifies this
      ensures Valid() && used <= |inbox| && |sent| <= 2
      ensures !Fatal(outcome) ==>
                && Traced(old(View(P.Idle)), codec, acts, View(P.Idle), sent)
                && Extends([P.BeginSend(pixels, prior, intent)], acts, inbox[..used])
      ensures outcome.Reported? ==>
                && outcome.report.Some? && sent != []
                && outcome.report.value.frameId == sent[|sent| - 1].frameId
                && (P.Clean(outcome.report.value) || outcome.report.value.reason == InkFrozen)
      ensures |sent| == 2 ==> sent[1].baseId == 0
    {
      hide PlayAll, Traced, Extends;
      ghost var p0 := View(P.Idle);
      Begun(p0, codec, P.BeginSend(pixels, prior, intent), View(P.Settling(pixels, prior, intent)));
      outcome, used, sent, acts := SendSettled(pixels, prior, tile, intent, content, inbox, 0, p0,
                                               [P.BeginSend(pixels, prior, intent)]);
      assert inbox[0..used] == inbox[..used];
    }

    /** Takes in results until a queued frame may go out or its base is gone. */
    method AwaitRoom(pixels: Image, regions: seq<Region>, inbox: seq<FrameResult>, ghost p0: P.State,
                     ghost acts0: seq<P.Act>)
      returns (room: Room, used: nat, ghost acts: seq<P.Act>)
      requires Valid() && !needsKeyframe
      requires Traced(p0, codec, acts0, View(P.Queueing(pixels, regions)), [])
      modifies this
      ensures Valid() && used <= |inbox|
      ensures room == Broken || (Extends(acts0, acts, inbox[..used]) && completed == old(completed) + inbox[..used])
      ensures room == Ready || room == NoRoom ==> Traced(p0, codec, acts, View(P.Queueing(pixels, regions)), [])
      ensures room == Lost ==> Traced(p0, codec, acts, View(P.Settling(pixels, None, Latest)), [])
      ensures room == Ready ==> !P.Blocked(View(P.Idle), regions) && !needsKeyframe
      ensures room == NoRoom ==> P.Blocked(View(P.Queueing(pixels, regions)), regions) && pending == []
    {
      hide PlayAll, P.ApplyResult, Traced, P.Play, Extends, P.Cost;
      ghost var phase := P.Queueing(pixels, regions);
      used, acts := 0, acts0;
      ExtendsSelf(acts0);
      while |pending| >= 2 || credits == 0 || P.Cost(regions) > byteCredits
        invariant Valid() && used <= |inbox| && !needsKeyframe
        invariant Traced(p0, codec, acts, View(phase), [])
        invariant Extends(acts0, acts, inbox[..used])
        invariant completed == old(completed) + inbox[..used]
        decreases |inbox| - used
      {
        if pending == [] {
          return NoRoom, used, acts;
        }
        if used == |inbox| {
          return Broken, used, acts;
        }
        var r := inbox[used];
        ghost var before := View(P.Idle);
        var fine := ApplyFrameResult(r);
        used := used + 1;
        if !fine {
          return Broken, used, acts;
        }
        completed := completed + [r];
        ReceiveStep(before, phase, codec, r);
        QueueAdvance(View(phase), r);
        TraceStep(p0, codec, acts, before.(phase := phase), [], P.Receive(r),
                  P.Played(View(P.Advance(View(phase), r)), []));
        NoFrames();
        ExtendsStep(acts0, acts, inbox[..used - 1], P.Receive(r));
        acts := acts + [P.Receive(r)];
        assert inbox[..used] == inbox[..used - 1] + [r];
        if needsKeyframe {
          return Lost, used, acts;
        }
      }
      room := Ready;
    }

    /** Sends the queued delta, and hands back the oldest report on hand. */
    method Speculate(regions: seq<Region>, pixels: Image, content: Content, ghost p0: P.State, ghost acts0: seq<P.Act>)
      returns (frame: Semantic.WireFrame, report: Option<FrameResult>, ghost acts: seq<P.Act>)
      requires Valid() && !P.Blocked(View(P.Idle), regions)
      requires Traced(p0, codec, acts0, View(P.Queueing(pixels, regions)), [])
      modifies this
      ensures Valid() && Traced(p0, codec, acts, View(P.Idle), [frame]) && Extends(acts0, acts, [])
      ensures frame.baseId == old(logical) && frame.frameId == old(nextId)
      ensures old(completed) == (if report.Some? then [report.value] else []) + completed
      ensures report.None? ==> old(completed) == []
    {
      hide PlayAll, P.ApplyResult, Traced, P.Play, Extends, P.Cost, Semantic.RawRegions;
      ghost var ready := View(P.Queueing(pixels, regions));
      var base := logical;
      var id := Book(P.Cost(regions));
      frame := P.Frame(setup, codec, id, base, Latest, content, regions);
      SendStep(ready, codec, content, View(P.Idle), frame);
      TraceStep(p0, codec, acts0, ready, [], P.SendQueued(content), P.Played(View(P.Idle), [frame]));
      assert [] + [frame] == [frame];
      ExtendsSelf(acts0);
      ExtendsStep(acts0, acts0, [], P.SendQueued(content));
      acts := acts0 + [P.SendQueued(content)];
      report := None;
      if completed != [] {
        report := Some(completed[0]);
        completed := completed[1..];
      }
    }

    /** A speculative frame: sent at once as long as fewer than two frames are
        without a result and credit is left, and as a synchronous keyframe when
        the receiver's base is not known. */
    method QueueDelta(previous: Image, pixels: Image, tile: nat, content: Content, inbox: seq<FrameResult>)
      returns (outcome: Outcome, used: nat, sent: seq<Semantic.WireFrame>, ghost acts: seq<P.Act>,
               ghost begin: P.Act)
      requires Valid()
      modifies this
      ensures Valid() && used <= |inbox| && |sent| <= 2
      ensures begin.BeginQueue? && begin.previous == previous && begin.pixels == pixels
      ensures !Fatal(outcome) ==>
                || (outcome == Aborted(BadPixels) && sent == [] && used == 0 && View(P.Idle) == old(View(P.Idle)))
                || (Traced(old(View(P.Idle)), codec, acts, View(P.Idle), sent) && Extends([begin], acts, inbox[..used]))
      ensures outcome.Reported? ==> sent != []
    {
      hide PlayAll, P.ApplyResult, Traced, P.Play, Extends, P.PixelsOk, Size, Delta.IsDelta, Delta.Tight,
           Semantic.RawRegions, P.Cost, P.Blocked;
      ghost var p0 := View(P.Idle);
      used, sent, acts, begin := 0, [], [], P.BeginQueue(previous, pixels, []);
      if needsKeyframe || logical == 0 {
        QueueStep(p0, codec, previous, pixels, []);
        Begun(p0, codec, begin, View(P.Settling(pixels, None, Latest)));
        outcome, used, sent, acts := SendSettled(pixels, None, tile, Latest, content, inbox, 0, p0, [begin]);
        assert inbox[0..used] == inbox[..used];
        return;
      }
      if !P.PixelsOk(setup, pixels, Some(previous)) {
        outcome := Aborted(BadPixels);
        return;
      }
      PixelsSized(setup, pixels, previous);
      var regions := Delta.EncodeDelta(setup.w, setup.h, tile, P.Limit(setup), previous, pixels);
      begin := P.BeginQueue(previous, pixels, regions);
      QueueStep(p0, codec, previous, pixels, regions);
      Begun(p0, codec, begin, View(P.Queueing(pixels, regions)));
      var room;
      ghost var a1;
      room, used, a1 := AwaitRoom(pixels, regions, inbox, p0, [begin]);
      acts := a1;
      assert inbox[0..used] == inbox[..used] && inbox[used..used] == [];
      match room
      case Broken => outcome := Aborted(if used == |inbox| then Closed else UnexpectedMessage);
      case NoRoom =>
        acts := GaveUp(p0, a1, View(P.Queueing(pixels, regions)), []);
        ExtendsChain([begin], a1, acts, inbox, 0, used, used);
        outcome := Aborted(OutOfCredit);
      case Lost =>
        var at;
        outcome, at, sent, acts := SendSettled(pixels, None, tile, Latest, content, inbox, used, p0, a1);
        if !Fatal(outcome) { ExtendsChain([begin], a1, acts, inbox, 0, used, at); }
        assert inbox[0..at] == inbox[..at];
        used := at;
      case Ready =>
        var frame, report;
        frame, report, acts := Speculate(regions, pixels, content, p0, a1);
        ExtendsChain([begin], a1, acts, inbox, 0, used, used);
        sent, outcome := [frame], Reported(report);
    }

    /** The call ends without a frame. */
    ghost method GaveUp(p0: P.State, acts0: seq<P.Act>, p: P.State, sent: seq<Semantic.WireFrame>)
      returns (acts: seq<P.Act>)
      requires Traced(p0, codec, acts0, p, sent) && p.pending == []
      requires p.phase.Settling? || (p.phase.Queueing? && P.Blocked(p, p.phase.regions))
      ensures Traced(p0, codec, acts, p.(phase := P.Idle), sent)
      ensures Extends(acts0, acts, [])
    {
      hide PlayAll, Traced, Taken, P.Blocked;
      TraceStep(p0, codec, acts0, p, sent, P.GiveUp, P.Played(p.(phase := P.Idle), []));
      assert sent + [] == sent;
      ExtendsSelf(acts0);
      ExtendsStep(acts0, acts0, [], P.GiveUp);
      acts := acts0 + [P.GiveUp];
    }
  }

  lemma Begun(p: P.State, codec: Semantic.Codec, a: P.Act, q: P.State)
    requires P.Play(p, codec, a) == Some(P.Played(q, [])) && !a.Receive?
    ensures Traced(p, codec, [a], q, []) && Taken([a]) == []
  {
    hide P.Play;
    assert PlayAll(p, codec, []) == Some(P.Played(p, []));
    assert [] + [a] == [a];
    TraceStep(p, codec, [], p, [], a, P.Played(q, []));
    TakenStep([], a);
    NoFrames();
  }

  lemma NoFrames()
    ensures forall frames: seq<Semantic.WireFrame> :: frames + [] == frames
  {
  }

  lemma QueueAdvance(p: P.State, r: FrameResult)
    requires p.phase.Queueing?
    ensures P.Advance(p, r) == if p.needsKeyframe then P.Settling(p.phase.pixels, None, Latest) else p.phase
  {
  }

  lemma PixelsSized(s: P.Setup, pixels: Image, previous: Image)
    requires P.PixelsOk(s, pixels, Some(previous))
    ensures s.w > 0 && |pixels| == |previous| == Size(s.w, s.h)
  {
  }

  lemma QueueStep(p: P.State, codec: Semantic.Codec, previous: Image, pixels: Image, regions: seq<Region>)
    requires p.phase.Idle?
    ensures p.needsKeyframe || p.logical == 0 ==>
              P.Play(p, codec, P.BeginQueue(previous, pixels, regions))
              == Some(P.Played(p.(phase := P.Settling(pixels, None, Latest)), []))
    ensures !p.needsKeyframe && p.logical != 0 && P.PixelsOk(p.setup, pixels, Some(previous))
            && Delta.IsDelta(p.setup.w, p.setup.h, previous, pixels, P.Limit(p.setup), regions) ==>
              P.Play(p, codec, P.BeginQueue(previous, pixels, regions))
              == Some(P.Played(p.(phase := P.Queueing(pixels, regions)), []))
  {
    hide Delta.IsDelta;
  }

  lemma SendStep(p: P.State, codec: Semantic.Codec, content: Content, q: P.State, frame: Semantic.WireFrame)
    requires p.phase.Queueing? && !P.Blocked(p, p.phase.regions)
    requires frame == P.Frame(p.setup, codec, p.nextId, p.logical, Latest, content, p.phase.regions)
    requires q == P.Sent(p, P.Cost(p.phase.regions)).(phase := P.Idle)
    ensures P.Play(p, codec, P.SendQueued(content)) == Some(P.Played(q, [frame]))
  {
    hide P.Cost, Semantic.RawRegions;
  }

  lemma NoPriorNeeded(s: P.Setup, pixels: Image, prior: Option<Image>)
    requires P.PixelsOk(s, pixels, prior)
    ensures P.PixelsOk(s, pixels, None)
  {
  }

  lemma TransmitStep(p: P.State, codec: Semantic.Codec, regions: seq<Region>, content: Content, q: P.State,
                     frame: Semantic.WireFrame)
    requires p.phase.Settling? && p.pending == [] && p.credits > 0 && P.Cost(regions) <= p.byteCredits
    requires P.PixelsOk(p.setup, p.phase.pixels, p.phase.prior)
    requires P.Chosen(p, p.phase.pixels, p.phase.prior, regions)
    requires frame == P.Frame(p.setup, codec, p.nextId, if P.Forced(p) then 0 else p.logical, p.phase.intent, content, regions)
    requires q == P.Sent(p, P.Cost(regions)).(needsKeyframe := p.needsKeyframe && !P.Forced(p),
                                             phase := P.Waiting(p.nextId, p.phase.pixels, P.Forced(p), p.phase.intent))
    ensures P.Play(p, codec, P.Transmit(regions, content)) == Some(P.Played(q, [frame]))
  {
    hide P.Chosen, P.Cost, P.PixelsOk, Semantic.RawRegions;
  }

  lemma ResultTaken(p: P.State, r: FrameResult, y: nat)
    requires P.ApplyResult(p, r).Some?
    ensures var q := P.ApplyResult(p, r).value;
            && |q.pending| == |p.pending| - 1
            && (y in p.pending && y != r.frameId ==> y in q.pending)
            && q.needsKeyframe == (p.needsKeyframe || !P.Clean(r))
            && q.nextId == p.nextId
  {
    var k := P.Position(p.pending, r.frameId);
    if y in p.pending && y != r.frameId {
      var j :| 0 <= j < |p.pending| && p.pending[j] == y;
      assert P.Without(p.pending, r.frameId)[if j < k then j else j - 1] == y;
    }
  }

  lemma StillWaiting(p: P.State, r: FrameResult)
    requires p.phase.Waiting? && r.frameId != p.phase.frameId
    ensures P.Advance(p, r) == p.phase
  {
  }
}
