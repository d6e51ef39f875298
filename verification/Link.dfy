/** Producer, receiver and the two ordered channels between them, as one step
    relation over the life of a surface. */
module Link {
  import opened Geometry
  import opened Pixels
  import opened Raster
  import opened Regions
  import opened Tiles
  import opened Refresh
  import opened Receiver
  import Core
  import Composition
  import Delta
  import Semantic
  import P = Producer
  import R = Results
  import opened Reliability
  import opened SessionReliability

  /** What the producer encoded for one frame identity. */
  datatype Record = Record(image: Image, regions: seq<Region>)

  datatype System = System(
    p: P.State,
    up: seq<Semantic.WireFrame>,
    s: State,
    panel: Core.Panel,
    down: seq<FrameResult>,
    sent: map<nat, Record>)

  datatype Step =
    | Produce(act: P.Act)
    | Deliver(now: nat)
    | Local(event: R.Event)

  predicate IsLocal(e: R.Event) {
    !e.FrameEvent? && !e.OpenEvent? && !e.CloseEvent?
  }

  /** The caller's duty: a delta is made against the image of the frame that
      `latest_frame_id` names when the call starts. */
  predicate Named(l: System, previous: Image) {
    l.p.logical in l.sent ==> previous == l.sent[l.p.logical].image
  }

  ghost predicate Enabled(l: System, step: Step) {
    match step
    case Produce(act) =>
      (match act
       case Receive(r) => l.down != [] && r == l.down[0]
       case BeginQueue(previous, _, _) => Named(l, previous)
       case BeginSend(_, prior, _) => prior.Some? ==> Named(l, prior.value)
       case _ => true)
    case Deliver(_) => l.up != []
    case Local(e) => IsLocal(e) && R.Enabled(l.s, l.panel, e)
  }

  function SentPixels(p: P.State): Image {
    match p.phase
    case Queueing(pixels, _) => pixels
    case Settling(pixels, _, _) => pixels
    case _ => []
  }

  function SentRegions(p: P.State, act: P.Act): seq<Region> {
    if p.phase.Queueing? then p.phase.regions else if act.Transmit? then act.regions else []
  }

  ghost function Produced(l: System, codec: Semantic.Codec, act: P.Act): Option<System>
    requires act.Receive? ==> l.down != []
  {
    match P.Play(l.p, codec, act)
    case None => None
    case Some(m) =>
      Some(l.(p := m.p,
              up := l.up + m.frames,
              down := if act.Receive? then l.down[1..] else l.down,
              sent := if m.frames == [] then l.sent
                      else l.sent[l.p.nextId := Record(SentPixels(l.p), SentRegions(l.p, act))]))
  }

  /** One step; `None` when it is not taken or ends the connection. */
  ghost function Next(l: System, codec: Semantic.Codec, step: Step): Option<System>
    requires Shaped(l.s) && PanelFits(l.s, l.panel) && Enabled(l, step)
  {
    match step
    case Produce(act) => Produced(l, codec, act)
    case Deliver(now) =>
      var r := AcceptFrame(l.s, codec, l.up[0], now);
      Some(l.(up := l.up[1..], s := r.s, down := l.down + r.results))
    case Local(e) =>
      (match R.Handle(l.s, l.panel, codec, e)
       case PanelFailed => None
       case PanelDone(m) => Some(l.(s := m.step.s, panel := m.panel, down := l.down + m.step.results)))
  }

  // -------------------------------------------------------------- invariant

  /** Both sides talk about the same surface and limits. */
  ghost predicate Agree(l: System) {
    var q, s := l.p.setup, l.s;
    && s.surface.Some?
    && (s.surface.value.surfaceId, s.surface.value.generation) == (q.surfaceId, q.generation)
    && (s.surface.value.core.w, s.surface.value.core.h, s.surface.value.core.format) == (q.w, q.h, FormatGray8)
    && (s.limits.maxFrameBytes, s.limits.maxRegions, s.limits.maxInflight)
       == (q.maxFrameBytes, q.maxRegions, q.maxInflight)
    && q.maxRegions > 0 && q.maxInflight > 0 && q.w > 0 && q.h > 0
    && q.byteCreditsOn == s.byteCreditsOn
    && (q.byteCreditsOn ==> q.byteLimit == s.limits.maxInflightBytes)
    && Semantic.Raw in s.encodings
  }

  function FrameIds(frames: seq<Semantic.WireFrame>): multiset<nat> {
    multiset(seq(|frames|, k requires 0 <= k < |frames| => frames[k].frameId))
  }

  predicate Increasing(ids: seq<nat>) {
    forall i, j :: 0 <= i < j < |ids| ==> ids[i] < ids[j]
  }

  /** Every frame without a result is on its way, pending at the receiver, or
      answered by a result on its way back, and only one of these. */
  ghost predicate Counted(l: System) {
    && multiset(l.p.pending) == FrameIds(l.up) + R.Owed(l.s) + R.ResultIds(l.down)
    && Increasing(l.p.pending)
    && forall k :: 0 <= k < |l.p.pending| ==> 1 <= l.p.pending[k] < l.p.nextId
  }

  predicate Known(l: System, id: nat) {
    id == 0 || id in l.sent
  }

  /** The frame carries the recorded regions, and they lead from the base it
      names to the recorded image. */
  ghost predicate Encodes(l: System, codec: Semantic.Codec, f: Semantic.WireFrame)
    requires l.p.setup.w > 0
  {
    var q := l.p.setup;
    && f.frameId in l.sent
    && var r := l.sent[f.frameId];
       && (f.surfaceId, f.generation) == (q.surfaceId, q.generation)
       && f.intent.IntentOf?
       && f.regions == Semantic.RawRegions(codec, FormatGray8, r.regions)
       && ShapesOk(q.w, q.h, r.regions)
       && Disjoint(r.regions)
       && 1 <= |r.regions| <= Min(q.maxRegions, Delta.MAX_DELTA_REGIONS)
       && |r.image| == Size(q.w, q.h) <= q.maxFrameBytes
       && (f.baseId == 0 ==> r.regions == P.Whole(q, r.image))
       && (f.baseId != 0 ==>
             && f.baseId in l.sent && |l.sent[f.baseId].image| == Size(q.w, q.h)
             && ApplyAll(q.w, q.h, l.sent[f.baseId].image, r.regions) == r.image)
  }

  /** Every identity in use names a recorded image. */
  ghost predicate Recorded(l: System, codec: Semantic.Codec)
    requires l.p.setup.w > 0
  {
    && l.p.nextId >= 1
    && (forall id :: id in l.sent ==> 1 <= id < l.p.nextId && |l.sent[id].image| == Size(l.p.setup.w, l.p.setup.h))
    && Known(l, l.p.logical) && Known(l, l.p.receiverLogical) && Known(l, LogicalId(l.s))
    && (forall k :: 0 <= k < |l.down| ==> Known(l, l.down[k].logicalId))
    && (forall k :: 0 <= k < |l.up| ==> Encodes(l, codec, l.up[k]))
  }

  /** Base fidelity: a valid receiver base is the image of the frame it names. */
  ghost predicate Faithful(l: System) {
    l.s.surface.Some? && l.s.surface.value.core.baseValid ==>
      LogicalId(l.s) in l.sent && l.s.surface.value.core.base == l.sent[LogicalId(l.s)].image
  }

  predicate Answered(down: seq<FrameResult>, k: nat, id: nat)
    requires k <= |down|
  {
    exists j :: 0 <= j < k && down[j].frameId == id
  }

  /** Frames arrive in the order they were sent, and a result that does not ask
      for recovery comes after the results of all earlier frames. */
  ghost predicate Ordered(l: System) {
    && (forall i, j :: 0 <= i < j < |l.up| ==> l.up[i].frameId < l.up[j].frameId)
    && (forall k :: 0 <= k < |l.up| ==> LogicalId(l.s) < l.up[k].frameId)
    && (forall i, j :: 0 <= i < |l.down| && 0 <= j < |l.up| ==> l.down[i].frameId < l.up[j].frameId)
    && (HasPending(l.s) ==> forall y :: y in l.p.pending && y < LogicalId(l.s) ==> Answered(l.down, |l.down|, y))
    && (forall k, y :: 0 <= k < |l.down| && P.Clean(l.down[k]) && y in l.p.pending && y < l.down[k].frameId ==>
          Answered(l.down, k, y))
  }

  /** What a result on its way back may say. */
  ghost predicate Honest(l: System, k: nat)
    requires k < |l.down|
  {
    var r := l.down[k];
    && (r.code == PresentedCode ==> r.logicalId == r.frameId)
    && (r.code == SupersededCode ==>
          r.frameId < r.logicalId && r.logicalId in l.p.pending && !Answered(l.down, k, r.logicalId))
    && r.credits <= l.p.setup.maxInflight
    && (l.p.setup.byteCreditsOn ==> r.byteCredits <= l.p.setup.byteLimit)
  }

  ghost predicate AllHonest(l: System) {
    forall k :: 0 <= k < |l.down| ==> Honest(l, k)
  }

  /** What the producer takes for the latest frame. */
  ghost predicate Tracked(l: System) {
    && (l.p.pending == [] ==> l.p.logical == l.p.receiverLogical)
    && (l.p.pending != [] && !l.p.needsKeyframe ==> l.p.logical == l.p.pending[|l.p.pending| - 1])
  }

  /** A prepared delta still starts from the latest frame, or is dropped. */
  ghost predicate Prepared(l: System) {
    match l.p.phase
    case Idle => true
    case Queueing(pixels, regions) =>
      && !l.p.needsKeyframe
      && l.p.logical in l.sent
      && l.p.setup.w > 0
      && |pixels| == Size(l.p.setup.w, l.p.setup.h) == |l.sent[l.p.logical].image|
      && |pixels| <= l.p.setup.maxFrameBytes
      && Delta.IsDelta(l.p.setup.w, l.p.setup.h, l.sent[l.p.logical].image, pixels, P.Limit(l.p.setup), regions)
    case Settling(_, prior, _) => prior.Some? && !l.p.needsKeyframe ==> Named(l, prior.value)
    case Waiting(id, _, _, _) => l.p.pending == [id]
  }

  /** Flow control: never more frames without a result than the limit allows,
      and a settled frame travels alone. */
  ghost predicate Flow(l: System) {
    && |l.p.pending| <= 2
    && l.p.credits <= l.p.setup.maxInflight
    && (l.p.setup.maxInflight == 1 ==> |l.p.pending| <= 1 && (l.p.pending != [] ==> l.p.credits == 0))
    && (forall k :: 0 <= k < |l.up| ==> l.up[k].intent == Semantic.IntentOf(Settled) ==> l.p.phase.Waiting?)
    && (HasPending(l.s) && l.s.surface.value.core.pending.value.intent == Settled ==> l.p.phase.Waiting?)
  }

  ghost predicate Inv(l: System, codec: Semantic.Codec) {
    && R.Sane(l.s)
    && PanelFits(l.s, l.panel)
    && Agree(l)
    && Counted(l)
    && Recorded(l, codec)
    && Faithful(l)
    && Ordered(l)
    && AllHonest(l)
    && Tracked(l)
    && Prepared(l)
    && Flow(l)
  }

  /** A surface both sides have just opened. */
  ghost predicate Fresh(l: System) {
    && R.Sane(l.s)
    && PanelFits(l.s, l.panel)
    && Agree(l)
    && l.p == P.NewState(l.p.setup)
    && l.up == [] && l.down == [] && l.sent == map[]
    && !HasPending(l.s)
    && LogicalId(l.s) == 0
  }

  lemma FreshInv(l: System, codec: Semantic.Codec)
    requires Fresh(l)
    ensures Inv(l, codec)
  {
    hide R.FrozenCore, Core.Shaped, Composition.BaseCurrent, Core.PanelShaped, Size;
    R.NoResults();
    assert FrameIds([]) == multiset{};
  }

  // --------------------------------------------------------------- counting

  lemma FrameIdsConcat(a: seq<Semantic.WireFrame>, b: seq<Semantic.WireFrame>)
    ensures FrameIds(a + b) == FrameIds(a) + FrameIds(b)
  {
    var c := a + b;
    var x := seq(|a|, k requires 0 <= k < |a| => a[k].frameId);
    var y := seq(|b|, k requires 0 <= k < |b| => b[k].frameId);
    assert seq(|c|, k requires 0 <= k < |c| => c[k].frameId) == x + y;
  }

  lemma FrameIdsHas(frames: seq<Semantic.WireFrame>, id: nat)
    ensures |FrameIds(frames)| == |frames|
    ensures id in FrameIds(frames) <==> exists k :: 0 <= k < |frames| && frames[k].frameId == id
  {
    var x := seq(|frames|, k requires 0 <= k < |frames| => frames[k].frameId);
    assert id in FrameIds(frames) <==> id in x;
    if k :| 0 <= k < |frames| && frames[k].frameId == id { assert x[k] == id; }
    if id in x {
      var k :| 0 <= k < |x| && x[k] == id;
      assert frames[k].frameId == id;
    }
  }

  lemma ResultIdsHas(results: seq<FrameResult>, id: nat)
    ensures |R.ResultIds(results)| == |results|
    ensures id in R.ResultIds(results) <==> Answered(results, |results|, id)
  {
    var x := seq(|results|, k requires 0 <= k < |results| => results[k].frameId);
    assert id in R.ResultIds(results) <==> id in x;
    if Answered(results, |results|, id) {
      var k :| 0 <= k < |results| && results[k].frameId == id;
      assert x[k] == id;
    }
    if id in x {
      var k :| 0 <= k < |x| && x[k] == id;
      assert results[k].frameId == id;
    }
  }

  lemma OneFrame(f: Semantic.WireFrame)
    ensures FrameIds([f]) == multiset{f.frameId} && FrameIds([]) == multiset{}
  {
    var x := seq(|[f]|, k requires 0 <= k < |[f]| => [f][k].frameId);
    assert x == [f.frameId];
  }

  lemma {:induction false} IncreasingOnce(ids: seq<nat>, id: nat)
    requires Increasing(ids)
    ensures multiset(ids)[id] <= 1
  {
    if ids != [] {
      var tail := ids[1..];
      assert ids == [ids[0]] + tail;
      IncreasingOnce(tail, id);
    }
  }

  lemma Spliced(a: seq<nat>, id: nat, b: seq<nat>)
    requires Increasing(a + [id] + b)
    ensures Increasing(a + b)
    ensures multiset(a + b) == multiset(a + [id] + b) - multiset{id}
    ensures b != [] ==> (a + b)[|a + b| - 1] == b[|b| - 1]
  {
    var whole, left := a + [id] + b, a + b;
    forall i, j | 0 <= i < j < |left| ensures left[i] < left[j] {
      assert left[i] == whole[if i < |a| then i else i + 1];
      assert left[j] == whole[if j < |a| then j else j + 1];
    }
    assert multiset(whole) == multiset(a) + multiset{id} + multiset(b);
  }

  lemma WithoutOne(ids: seq<nat>, id: nat)
    requires Increasing(ids) && id in ids
    ensures var left := P.Without(ids, id);
            && multiset(left) == multiset(ids) - multiset{id}
            && Increasing(left)
            && |left| == |ids| - 1
            && (forall y :: y in left <==> y in ids && y != id)
            && (left != [] && ids[|ids| - 1] != id ==> left[|left| - 1] == ids[|ids| - 1])
  {
    hide Increasing;
    var k := P.Position(ids, id);
    var a, b := ids[..k], ids[k + 1..];
    assert ids == a + [id] + b;
    Spliced(a, id, b);
    var left := P.Without(ids, id);
    forall y ensures y in left <==> y in ids && y != id {
      IncreasingOnce(ids, id);
      assert y in left <==> y in multiset(left);
      assert y in ids <==> y in multiset(ids);
      assert id in multiset(ids);
    }
  }

  /** Where an unresolved frame is. */
  lemma Located(l: System, id: nat)
    requires Counted(l)
    ensures id in l.p.pending <==>
              || id in FrameIds(l.up)
              || id in R.Owed(l.s)
              || Answered(l.down, |l.down|, id)
    ensures FrameIds(l.up)[id] + R.Owed(l.s)[id] + R.ResultIds(l.down)[id] <= 1
    ensures |l.p.pending| == |l.up| + |R.Owed(l.s)| + |l.down|
    ensures id in FrameIds(l.up) <==> exists k :: 0 <= k < |l.up| && l.up[k].frameId == id
  {
    hide FrameIds, R.ResultIds, R.Owed;
    FrameIdsHas(l.up, id);
    ResultIdsHas(l.down, id);
    IncreasingOnce(l.p.pending, id);
    assert id in l.p.pending <==> id in multiset(l.p.pending);
    assert |multiset(l.p.pending)| == |l.p.pending|;
  }

  // ---------------------------------------------------------------- results

  /** The producer after taking the next result. */
  function Taken(l: System): System
    requires l.down != [] && P.ApplyResult(l.p, l.down[0]).Some?
  {
    var q := P.ApplyResult(l.p, l.down[0]).value;
    l.(p := q.(phase := P.Advance(q, l.down[0])), down := l.down[1..])
  }

  /** No honest result is ever unexpected. */
  lemma ResultExpected(l: System)
    requires Counted(l) && AllHonest(l) && l.down != []
    ensures P.ApplyResult(l.p, l.down[0]).Some? && l.down[0].frameId in l.p.pending
  {
    hide FrameIds, R.ResultIds, R.Owed, Increasing;
    Located(l, l.down[0].frameId);
    assert Honest(l, 0);
  }

  lemma Balance(pending: multiset<nat>, up: multiset<nat>, owed: multiset<nat>, head: multiset<nat>, rest: multiset<nat>)
    requires pending == up + owed + (head + rest)
    ensures pending - head == up + owed + rest
  {
  }

  lemma TakenParts(l: System)
    requires l.down != [] && P.ApplyResult(l.p, l.down[0]).Some?
    ensures var t := Taken(l);
            && l.down[0].frameId in l.p.pending
            && t.p.pending == P.Without(l.p.pending, l.down[0].frameId)
            && t.p.nextId == l.p.nextId && t.p.setup == l.p.setup
            && t == l.(p := t.p, down := l.down[1..])
  {
    hide P.Without, P.Advance;
  }

  lemma HeadResult(down: seq<FrameResult>)
    requires down != []
    ensures R.ResultIds(down) == multiset{down[0].frameId} + R.ResultIds(down[1..])
  {
    hide R.ResultIds;
    assert down == [down[0]] + down[1..];
    R.ResultsConcat([down[0]], down[1..]);
    R.OneResult(down[0]);
  }

  lemma TakenCounted(l: System)
    requires Counted(l) && l.down != [] && P.ApplyResult(l.p, l.down[0]).Some?
    ensures Counted(Taken(l))
  {
    hide FrameIds, R.ResultIds, R.Owed, Increasing, P.Without, P.ApplyResult, Taken;
    TakenParts(l);
    var id := l.down[0].frameId;
    WithoutOne(l.p.pending, id);
    HeadResult(l.down);
    Balance(multiset(l.p.pending), FrameIds(l.up), R.Owed(l.s), multiset{id}, R.ResultIds(l.down[1..]));
    var t := Taken(l);
    forall k | 0 <= k < |t.p.pending| ensures 1 <= t.p.pending[k] < t.p.nextId {
      assert t.p.pending[k] in l.p.pending;
    }
  }

  /** A result that leaves the producer without need of a keyframe is that of
      its oldest frame. */
  lemma CleanIsOldest(l: System)
    requires Counted(l) && Ordered(l) && l.down != [] && P.Clean(l.down[0])
    ensures forall y :: y in l.p.pending ==> l.down[0].frameId <= y
  {
  }

  lemma BelowLast(ids: seq<nat>, y: nat)
    requires Increasing(ids) && y in ids
    ensures y <= ids[|ids| - 1]
  {
  }

  /** Taking the oldest identity leaves the newest, or nothing. */
  lemma OldestLeaves(ids: seq<nat>, id: nat)
    requires Increasing(ids) && id in ids && forall y :: y in ids ==> id <= y
    ensures var left := P.Without(ids, id);
            && (left == [] ==> ids == [id])
            && (left != [] ==> left[|left| - 1] == ids[|ids| - 1])
  {
    hide P.Without;
    WithoutOne(ids, id);
    var left := P.Without(ids, id);
    if left != [] {
      assert left[0] in left;
      BelowLast(ids, left[0]);
    }
  }

  lemma OnlySuperseded(l: System)
    requires AllHonest(l) && l.down != [] && l.p.pending == [l.down[0].frameId] && P.Clean(l.down[0])
    ensures l.down[0].logicalId == l.down[0].frameId
  {
    assert Honest(l, 0);
  }

  /** Stability of the latest frame: a result either asks for a keyframe or
      leaves it alone. */
  lemma TakenStable(l: System)
    requires Counted(l) && Ordered(l) && AllHonest(l) && Tracked(l)
    requires l.down != [] && P.ApplyResult(l.p, l.down[0]).Some?
    ensures var q := Taken(l).p; q.needsKeyframe || (q.logical == l.p.logical && !l.p.needsKeyframe)
    ensures Tracked(Taken(l))
  {
    hide FrameIds, R.ResultIds, R.Owed, P.Without, AllHonest, Ordered, Increasing;
    TakenParts(l);
    if !Taken(l).p.needsKeyframe {
      CleanIsOldest(l);
      OldestLeaves(l.p.pending, l.down[0].frameId);
      if Taken(l).p.pending == [] { OnlySuperseded(l); }
    }
  }

  lemma AnsweredLater(l: System, k: nat, y: nat)
    requires l.down != [] && 1 <= k <= |l.down| && Answered(l.down, k, y) && y != l.down[0].frameId
    ensures Answered(l.down[1..], k - 1, y)
  {
    var j :| 0 <= j < k && l.down[j].frameId == y;
    assert l.down[1..][j - 1].frameId == y;
  }

  lemma TakenOrdered(l: System)
    requires Counted(l) && Ordered(l)
    requires l.down != [] && P.ApplyResult(l.p, l.down[0]).Some?
    ensures Ordered(Taken(l))
  {
    hide FrameIds, R.ResultIds, R.Owed, P.Without, P.Advance, Counted, Answered, P.ApplyResult, Taken;
    TakenParts(l);
    assert Increasing(l.p.pending) by { CountedParts(l); }
    WithoutOne(l.p.pending, l.down[0].frameId);
    var t := Taken(l);
    forall y | HasPending(t.s) && y in t.p.pending && y < LogicalId(t.s) ensures Answered(t.down, |t.down|, y) {
      AnsweredLater(l, |l.down|, y);
    }
    forall k, y | 0 <= k < |t.down| && P.Clean(t.down[k]) && y in t.p.pending && y < t.down[k].frameId
      ensures Answered(t.down, k, y)
    {
      assert t.down[k] == l.down[k + 1];
      AnsweredLater(l, k + 1, y);
    }
  }

  lemma TakenHonest(l: System)
    requires Counted(l) && AllHonest(l)
    requires l.down != [] && P.ApplyResult(l.p, l.down[0]).Some?
    ensures AllHonest(Taken(l))
  {
    hide FrameIds, R.ResultIds, R.Owed, P.Without, P.Advance, Counted, Answered, P.ApplyResult, Taken;
    TakenParts(l);
    assert Increasing(l.p.pending) by { CountedParts(l); }
    WithoutOne(l.p.pending, l.down[0].frameId);
    var t := Taken(l);
    forall k | 0 <= k < |t.down| ensures Honest(t, k) {
      assert Honest(l, k + 1) && t.down[k] == l.down[k + 1];
      if t.down[k].code == SupersededCode {
        NotAnswered(l, k + 1, t.down[k].logicalId);
      }
    }
  }

  lemma NotAnswered(l: System, k: nat, y: nat)
    requires l.down != [] && 1 <= k <= |l.down| && !Answered(l.down, k, y)
    ensures y != l.down[0].frameId && !Answered(l.down[1..], k - 1, y)
  {
  }

  lemma CountedParts(l: System)
    requires Counted(l)
    ensures Increasing(l.p.pending)
  {
  }

  /** Nothing of `Encodes` depends on the moving parts. */
  lemma SameEncodes(l: System, t: System, codec: Semantic.Codec)
    requires l.p.setup.w > 0 && Recorded(l, codec)
    requires t.p.setup == l.p.setup && t.sent == l.sent
    requires forall k :: 0 <= k < |t.up| ==> t.up[k] in l.up
    ensures forall k :: 0 <= k < |t.up| ==> Encodes(t, codec, t.up[k])
  {
    hide Size, ShapesOk, Disjoint, ApplyAll, Semantic.RawRegions;
    forall k | 0 <= k < |t.up| ensures Encodes(t, codec, t.up[k]) {
      var j :| 0 <= j < |l.up| && l.up[j] == t.up[k];
      assert Encodes(l, codec, l.up[j]);
    }
  }

  lemma TakenRecorded(l: System, codec: Semantic.Codec)
    requires l.p.setup.w > 0 && Agree(l) && Recorded(l, codec) && Faithful(l)
    requires l.down != [] && P.ApplyResult(l.p, l.down[0]).Some?
    requires Taken(l).p.logical == Taken(l).p.receiverLogical || Taken(l).p.logical == l.p.logical
    ensures var t := Taken(l); Agree(t) && Recorded(t, codec) && Faithful(t)
  {
    hide Size, P.Without, Encodes, P.Advance;
    SameEncodes(l, Taken(l), codec);
  }

  lemma TakenLogical(l: System)
    requires l.down != [] && P.ApplyResult(l.p, l.down[0]).Some?
    requires var q := Taken(l).p; q.needsKeyframe || q.logical == l.p.logical
    ensures Taken(l).p.logical == Taken(l).p.receiverLogical || Taken(l).p.logical == l.p.logical
  {
  }

  /** The phase after a result, spelled out. */
  lemma TakenPhase(l: System)
    requires l.down != [] && P.ApplyResult(l.p, l.down[0]).Some?
    requires l.p.phase.Waiting? ==> l.p.pending == [l.p.phase.frameId]
    ensures var q := Taken(l).p;
            match l.p.phase
            case Idle => q.phase.Idle?
            case Queueing(pixels, regions) => q.phase == if q.needsKeyframe then P.Settling(pixels, None, Latest) else l.p.phase
            case Settling(_, _, _) => q.phase == l.p.phase
            case Waiting(_, _, _, _) => q.phase.Idle? || (q.phase.Settling? && q.phase.prior.None?)
  {
    hide P.Without;
  }

  lemma TakenPrepared(l: System)
    requires Counted(l) && Prepared(l) && l.down != [] && P.ApplyResult(l.p, l.down[0]).Some?
    requires var q := Taken(l).p; q.needsKeyframe || (q.logical == l.p.logical && !l.p.needsKeyframe)
    ensures Prepared(Taken(l))
  {
    hide Size, Delta.IsDelta, Counted, P.ApplyResult, P.Advance, Taken;
    TakenParts(l);
    TakenPhase(l);
  }

  lemma TakenFlow(l: System)
    requires Counted(l) && Flow(l) && Prepared(l) && l.p.setup.w > 0
    requires l.down != [] && P.ApplyResult(l.p, l.down[0]).Some?
    ensures Flow(Taken(l))
  {
    hide FrameIds, R.ResultIds, P.Without, Increasing, Delta.IsDelta;
    WithoutOne(l.p.pending, l.down[0].frameId);
    Located(l, 0);
  }

  lemma AgreeParts(l: System)
    requires Agree(l)
    ensures l.p.setup.w > 0 && l.p.setup.h > 0 && l.s.surface.Some?
  {
  }

  lemma TakenInv(l: System, codec: Semantic.Codec)
    requires Inv(l, codec) && l.down != []
    requires l.p.phase.Queueing? ==> P.Blocked(l.p, l.p.phase.regions)
    ensures P.ApplyResult(l.p, l.down[0]).Some? && Inv(Taken(l), codec)
  {
    hide Counted, Ordered, AllHonest, Tracked, Prepared, Flow, Faithful, Recorded, Agree, R.Sane, Core.PanelShaped, Size, P.ApplyResult;
    ResultExpected(l);
    TakenCounted(l);
    TakenStable(l);
    TakenOrdered(l);
    TakenHonest(l);
    TakenLogical(l);
    assert l.p.setup.w > 0 by { AgreeParts(l); }
    TakenRecorded(l, codec);
    TakenPrepared(l);
    TakenFlow(l);
  }

  // ------------------------------------------------------------------ sends

  /** One frame has gone out under the next identity. */
  ghost predicate Posted(l: System, t: System, f: Semantic.WireFrame, r: Record) {
    && f.frameId == l.p.nextId
    && t == l.(p := t.p, up := l.up + [f], sent := l.sent[l.p.nextId := r])
    && t.p.setup == l.p.setup
    && t.p.nextId == l.p.nextId + 1
    && t.p.pending == l.p.pending + [l.p.nextId]
    && t.p.logical == l.p.nextId
    && t.p.receiverLogical == l.p.receiverLogical
    && t.p.credits == l.p.credits - 1
    && !t.p.needsKeyframe
  }

  lemma PostedCounted(l: System, t: System, f: Semantic.WireFrame, r: Record)
    requires Counted(l) && Posted(l, t, f, r) && l.p.nextId >= 1
    ensures Counted(t)
  {
    hide FrameIds, R.ResultIds, R.Owed;
    FrameIdsConcat(l.up, [f]);
    OneFrame(f);
  }

  lemma PostedRecorded(l: System, t: System, codec: Semantic.Codec, f: Semantic.WireFrame, r: Record)
    requires Agree(l) && Recorded(l, codec) && Faithful(l) && Posted(l, t, f, r)
    requires Encodes(t, codec, f) && |r.image| == Size(l.p.setup.w, l.p.setup.h)
    ensures Agree(t) && Recorded(t, codec) && Faithful(t)
  {
    hide Size, ShapesOk, Disjoint, ApplyAll, Semantic.RawRegions;
    forall k | 0 <= k < |t.up| ensures Encodes(t, codec, t.up[k]) {
      if k < |l.up| { assert Encodes(l, codec, l.up[k]); }
    }
  }

  lemma PostedOrdered(l: System, t: System, codec: Semantic.Codec, f: Semantic.WireFrame, r: Record)
    requires Counted(l) && Agree(l) && Recorded(l, codec) && Ordered(l) && AllHonest(l) && Posted(l, t, f, r)
    ensures Ordered(t) && AllHonest(t)
  {
    hide Size, R.Owed, Encodes, FrameIds, R.ResultIds, Answered;
    forall k | 0 <= k < |l.down| ensures l.down[k].frameId < l.p.nextId {
      Located(l, l.down[k].frameId);
      AnsweredBy(l.down, k);
    }
    forall k | 0 <= k < |l.up| ensures l.up[k].frameId < l.p.nextId {
      Located(l, l.up[k].frameId);
    }
    forall k | 0 <= k < |t.down| ensures Honest(t, k) {
      assert Honest(l, k);
    }
  }

  lemma AnsweredBy(down: seq<FrameResult>, k: nat)
    requires k < |down|
    ensures Answered(down, |down|, down[k].frameId)
  {
  }

  lemma PostedFlow(l: System, t: System, f: Semantic.WireFrame, r: Record)
    requires Flow(l) && Posted(l, t, f, r) && l.p.credits > 0 && |l.p.pending| < 2
    requires f.intent == Semantic.IntentOf(Settled) ==> t.p.phase.Waiting?
    requires l.p.phase.Waiting? ==> t.p.phase.Waiting?
    ensures Flow(t)
  {
  }

  lemma PostedTracked(l: System, t: System, f: Semantic.WireFrame, r: Record)
    requires Posted(l, t, f, r)
    ensures Tracked(t)
  {
  }

  /** A whole image overwrites any base. */
  lemma WholeApplies(q: P.Setup, base: Image, pixels: Image)
    requires q.w > 0 && q.h > 0 && |pixels| == |base| == Size(q.w, q.h)
    ensures var regions := P.Whole(q, pixels);
            ShapesOk(q.w, q.h, regions) && Disjoint(regions) && ApplyAll(q.w, q.h, base, regions) == pixels
  {
    var regions := P.Whole(q, pixels);
    assert ShapeOk(q.w, q.h, regions[0]);
    forall k, i | && 0 <= k < |regions| && 0 <= i < |pixels| && InRect(q.w, regions[k].rect, i)
                  && |regions[k].pixels| == Area(regions[k].rect)
      ensures RegionPixel(q.w, regions[k], i) == pixels[i]
    {
      IndexJoin(q.w, i);
    }
    assert TakenFrom(q.w, pixels, regions);
    forall i | 0 <= i < |pixels| ensures Covered(q.w, Rects(regions), i) {
      FullCovers(q.w, q.h, i);
      assert Rects(regions) == [Full(q.w, q.h)];
    }
    ApplyTaken(q.w, q.h, base, pixels, regions);
  }

  /** What is common to both ways of sending. */
  lemma PostedInv(l: System, t: System, codec: Semantic.Codec, f: Semantic.WireFrame, r: Record)
    requires Inv(l, codec) && Posted(l, t, f, r)
    requires l.p.credits > 0 && |l.p.pending| < 2
    requires t.p.setup.w > 0 && Encodes(t, codec, f) && |r.image| == Size(l.p.setup.w, l.p.setup.h)
    requires f.intent == Semantic.IntentOf(Settled) ==> t.p.phase.Waiting?
    requires l.p.phase.Waiting? ==> t.p.phase.Waiting?
    requires Prepared(t)
    ensures Inv(t, codec)
  {
    hide Size, R.Sane, Agree, Counted, Recorded, Faithful, Ordered, AllHonest, Tracked, Prepared, Flow, Encodes, Core.PanelShaped;
    assert l.p.nextId >= 1 by { RecordedParts(l, codec); }
    PostedCounted(l, t, f, r);
    PostedRecorded(l, t, codec, f, r);
    PostedOrdered(l, t, codec, f, r);
    PostedTracked(l, t, f, r);
    PostedFlow(l, t, f, r);
  }

  lemma RecordedParts(l: System, codec: Semantic.Codec)
    requires l.p.setup.w > 0 && Recorded(l, codec)
    ensures l.p.nextId >= 1 && l.p.nextId !in l.sent
    ensures Known(l, l.p.logical) && Known(l, l.p.receiverLogical)
    ensures forall id :: id in l.sent ==> id >= 1 && |l.sent[id].image| == Size(l.p.setup.w, l.p.setup.h)
  {
  }

  /** A queued delta leads from the latest frame, whatever results came in
      while it waited, to its own image. */
  lemma QueuedInv(l: System, codec: Semantic.Codec, content: Content)
    requires Inv(l, codec) && P.Play(l.p, codec, P.SendQueued(content)).Some?
    ensures Inv(Produced(l, codec, P.SendQueued(content)).value, codec)
  {
    hide Size, R.Sane, Counted, Recorded, Faithful, Ordered, AllHonest, Tracked, Core.PanelShaped,
         ApplyAll, ShapeOk, Overlaps, Covered, TakenFrom, Semantic.RawRegions, P.Cost;
    assert l.p.setup.w > 0 && l.p.setup.h > 0 by { AgreeParts(l); }
    RecordedParts(l, codec);
    var Queueing(pixels, regions) := l.p.phase;
    var q := l.p.setup;
    var t := Produced(l, codec, P.SendQueued(content)).value;
    var f := P.Frame(q, codec, l.p.nextId, l.p.logical, Latest, content, regions);
    var r := Record(pixels, regions);
    assert Encodes(t, codec, f) by {
      Delta.DeltaRoundTrip(q.w, q.h, l.sent[l.p.logical].image, pixels, P.Limit(q), regions);
    }
    PostedInv(l, t, codec, f, r);
  }

  lemma TransmittedInv(l: System, codec: Semantic.Codec, regions: seq<Region>, content: Content)
    requires Inv(l, codec) && P.Play(l.p, codec, P.Transmit(regions, content)).Some?
    ensures Inv(Produced(l, codec, P.Transmit(regions, content)).value, codec)
  {
    hide Size, R.Sane, Counted, Recorded, Faithful, Ordered, AllHonest, Core.PanelShaped,
         ApplyAll, ShapeOk, Overlaps, Covered, TakenFrom, Semantic.RawRegions, P.Cost;
    assert l.p.setup.w > 0 && l.p.setup.h > 0 by { AgreeParts(l); }
    RecordedParts(l, codec);
    var Settling(pixels, prior, intent) := l.p.phase;
    var q := l.p.setup;
    var t := Produced(l, codec, P.Transmit(regions, content)).value;
    var f := P.Frame(q, codec, l.p.nextId, if P.Forced(l.p) then 0 else l.p.logical, intent, content, regions);
    var r := Record(pixels, regions);
    assert Encodes(t, codec, f) by {
      WholeApplies(q, pixels, pixels);
      if !P.Forced(l.p) {
        var base := l.sent[l.p.logical].image;
        WholeApplies(q, base, pixels);
        if prior.Some? {
          Delta.DeltaRoundTrip(q.w, q.h, base, pixels, P.Limit(q), regions);
        }
      }
    }
    PostedInv(l, t, codec, f, r);
  }

  /** Only the call under way, or the wish for a keyframe, changes. */
  lemma PhaseInv(l: System, codec: Semantic.Codec, q: P.State)
    requires Inv(l, codec)
    requires q == l.p.(phase := q.phase, needsKeyframe := q.needsKeyframe)
    requires l.p.needsKeyframe ==> q.needsKeyframe
    requires !l.p.phase.Waiting?
    requires Prepared(l.(p := q))
    ensures Inv(l.(p := q), codec)
  {
    hide Size, R.Sane, R.Owed, R.ResultIds, FrameIds, Increasing, Core.PanelShaped, Answered, Encodes, Prepared;
    var t := l.(p := q);
    assert l.p.setup.w > 0 by { AgreeParts(l); }
    SameEncodes(l, t, codec);
    forall k | 0 <= k < |t.down| ensures Honest(t, k) { assert Honest(l, k); }
  }

  lemma BegunInv(l: System, codec: Semantic.Codec, act: P.Act)
    requires Inv(l, codec) && Enabled(l, Produce(act)) && Produced(l, codec, act).Some?
    requires act.BeginQueue? || act.BeginSend? || act.GiveUp? || act.ForceKeyframe?
    ensures Inv(Produced(l, codec, act).value, codec)
  {
    hide Size, R.Sane, Agree, Counted, Recorded, Faithful, Ordered, AllHonest, Tracked, Flow, Core.PanelShaped, Delta.IsDelta,
         P.Blocked;
    assert l.p.setup.w > 0 && l.p.setup.h > 0 by { AgreeParts(l); }
    RecordedParts(l, codec);
    var t := Produced(l, codec, act).value;
    assert t == l.(p := t.p);
    PhaseInv(l, codec, t.p);
  }

  lemma ReceivedInv(l: System, codec: Semantic.Codec, r: FrameResult)
    requires Inv(l, codec) && Enabled(l, Produce(P.Receive(r))) && Produced(l, codec, P.Receive(r)).Some?
    ensures Inv(Produced(l, codec, P.Receive(r)).value, codec)
  {
    hide Inv, P.Blocked, P.Advance, P.ApplyResult;
    assert Produced(l, codec, P.Receive(r)).value == Taken(l);
    TakenInv(l, codec);
  }

  lemma ProducedInv(l: System, codec: Semantic.Codec, act: P.Act)
    requires Inv(l, codec) && Enabled(l, Produce(act)) && Produced(l, codec, act).Some?
    ensures Inv(Produced(l, codec, act).value, codec)
  {
    hide Inv, P.Play, Produced, Enabled;
    match act
    case Receive(r) => ReceivedInv(l, codec, r);
    case SendQueued(content) => SentSome(l, codec, act); QueuedInv(l, codec, content);
    case Transmit(regions, content) => SentSome(l, codec, act); TransmittedInv(l, codec, regions, content);
    case BeginQueue(_, _, _) => BegunInv(l, codec, act);
    case BeginSend(_, _, _) => BegunInv(l, codec, act);
    case GiveUp => BegunInv(l, codec, act);
    case ForceKeyframe => BegunInv(l, codec, act);
  }

  lemma SentSome(l: System, codec: Semantic.Codec, act: P.Act)
    requires (act.Receive? ==> l.down != []) && Produced(l, codec, act).Some?
    ensures P.Play(l.p, codec, act).Some?
  {
    hide P.Play;
  }

  // --------------------------------------------------------------- delivery

  /** The receiver takes the frame into its base. */
  ghost predicate Accepts(s: State, codec: Semantic.Codec, f: Semantic.WireFrame)
    requires Shaped(s)
  {
    && EarlyRejection(s, f).None?
    && Semantic.Validated(codec, f, SemanticSurface(s)).Ok?
    && Core.CommitCheck(s.surface.value.core, Semantic.Validated(codec, f, SemanticSurface(s)).value).None?
  }

  function Delivered(l: System, s: State, results: seq<FrameResult>): System
    requires l.up != []
  {
    l.(up := l.up[1..], s := s, down := l.down + results)
  }

  lemma RefusalShape(s: State, codec: Semantic.Codec, f: Semantic.WireFrame, now: nat)
    requires Shaped(s) && !Accepts(s, codec, f)
    ensures var step := AcceptFrame(s, codec, f, now);
            && step.s == s
            && |step.results| == 1
            && !P.Clean(step.results[0])
            && step.results[0].frameId == f.frameId
            && step.results[0].logicalId == LogicalId(s)
            && step.results[0].credits == Credits(s)
            && step.results[0].byteCredits == ByteCredits(s)
  {
    hide Semantic.Validated, Core.CommitCheck, Core.Shaped, EarlyRejection, Credits, ByteCredits;
  }

  lemma AcceptanceShape(s: State, codec: Semantic.Codec, f: Semantic.WireFrame, now: nat)
    requires R.Sane(s) && Accepts(s, codec, f)
    ensures var step := AcceptFrame(s, codec, f, now);
            var frame := Semantic.Validated(codec, f, SemanticSurface(s)).value;
            var a, b := s.surface.value.core, step.s.surface.value.core;
            && step.s == WithCore(s, b)
            && frame.frameId == f.frameId && frame.baseId == f.baseId
            && f.intent == Semantic.IntentOf(frame.intent)
            && ShapesOk(a.w, a.h, frame.regions)
            && (b.w, b.h, b.format) == (a.w, a.h, a.format)
            && b.base == ApplyAll(a.w, a.h, a.base, frame.regions)
            && b.baseValid && b.logicalId == f.frameId
            && b.pending.Some? && b.pending.value.frameId == f.frameId && b.pending.value.intent == frame.intent
            && (f.baseId != 0 ==> a.baseValid && f.baseId == a.logicalId)
            && a.logicalId < f.frameId
            && (if a.pending.Some?
                then && |step.results| == 1
                     && step.results[0].code == SupersededCode
                     && step.results[0].frameId == a.pending.value.frameId
                     && step.results[0].logicalId == f.frameId
                     && step.results[0].credits == Credits(step.s)
                     && step.results[0].byteCredits == ByteCredits(step.s)
                else step.results == [])
  {
    hide Semantic.Scan, Core.Shaped, Credits, ByteCredits, ApplyAll, R.Sane, Overlaps, ShapeOk;
    R.SaneParts(s);
    Semantic.AcceptedFrameApplies(codec, f, SemanticSurface(s));
  }

  lemma DeliveredCounted(l: System, codec: Semantic.Codec, now: nat)
    requires Counted(l) && R.Sane(l.s) && PanelFits(l.s, l.panel) && l.up != []
    ensures var r := AcceptFrame(l.s, codec, l.up[0], now);
            && Counted(Delivered(l, r.s, r.results))
            && R.Sane(r.s) && PanelFits(r.s, l.panel)
  {
    hide AcceptFrame, FrameIds, R.Owed, R.ResultIds, R.Sane, PanelFits, Increasing;
    var f := l.up[0];
    R.SaneParts(l.s);
    var r := AcceptFrame(l.s, codec, f, now);
    R.FrameKept(l.s, l.panel, codec, f, now);
    assert l.up == [f] + l.up[1..];
    FrameIdsConcat([f], l.up[1..]);
    OneFrame(f);
    R.ResultsConcat(l.down, r.results);
    Handed(multiset(l.p.pending), multiset{f.frameId}, FrameIds(l.up[1..]), R.Owed(l.s), R.Owed(r.s), R.ResultIds(l.down),
           R.ResultIds(r.results));
  }

  lemma Handed(pending: multiset<nat>, head: multiset<nat>, rest: multiset<nat>, before: multiset<nat>, after: multiset<nat>,
               down: multiset<nat>, results: multiset<nat>)
    requires pending == (head + rest) + before + down
    requires results + after == before + head
    ensures pending == rest + after + (down + results)
  {
    assert (head + rest) + before == rest + (before + head);
    assert rest + (results + after) + down == rest + after + (down + results);
  }

  lemma AnsweredMore(down: seq<FrameResult>, more: seq<FrameResult>, k: nat, y: nat)
    requires k <= |down|
    ensures Answered(down + more, k, y) <==> Answered(down, k, y)
    ensures Answered(down, |down|, y) ==> Answered(down + more, |down + more|, y)
  {
    if Answered(down, k, y) {
      var j :| 0 <= j < k && down[j].frameId == y;
      assert (down + more)[j].frameId == y;
    }
    if Answered(down, |down|, y) {
      var j :| 0 <= j < |down| && down[j].frameId == y;
      assert (down + more)[j].frameId == y;
    }
  }

  lemma CreditsBounded(s: State)
    ensures Credits(s) <= s.limits.maxInflight
    ensures ByteCredits(s) <= s.limits.maxInflightBytes
  {
  }

  /** More results on the way back, none of them in the way of the others. */
  lemma MoreHonest(l: System, t: System, results: seq<FrameResult>)
    requires AllHonest(l) && t.down == l.down + results && t.p == l.p
    requires forall k :: |l.down| <= k < |t.down| ==> Honest(t, k)
    ensures AllHonest(t)
  {
    hide Answered;
    forall k | 0 <= k < |t.down| ensures Honest(t, k) {
      if k < |l.down| {
        assert Honest(l, k) && t.down[k] == l.down[k];
        AnsweredMore(l.down, results, k, t.down[k].logicalId);
      }
    }
  }

  lemma RefusedOrdered(l: System, r: FrameResult)
    requires Agree(l) && Ordered(l) && AllHonest(l) && l.up != [] && r.frameId == l.up[0].frameId
    requires !P.Clean(r) && r.credits == Credits(l.s) && r.byteCredits == ByteCredits(l.s)
    ensures var t := Delivered(l, l.s, [r]); Ordered(t) && AllHonest(t)
  {
    hide Answered, Credits, ByteCredits;
    CreditsBounded(l.s);
    var t := Delivered(l, l.s, [r]);
    assert Honest(t, |l.down|);
    MoreHonest(l, t, [r]);
    forall y | HasPending(t.s) && y in t.p.pending && y < LogicalId(t.s) ensures Answered(t.down, |t.down|, y) {
      AnsweredMore(l.down, [r], 0, y);
    }
    forall k, y | 0 <= k < |t.down| && P.Clean(t.down[k]) && y in t.p.pending && y < t.down[k].frameId
      ensures Answered(t.down, k, y)
    {
      assert k < |l.down|;
      AnsweredMore(l.down, [r], k, y);
    }
  }

  /** What the validator reads from an honest frame is what was encoded. */
  lemma DecodesRecord(l: System, codec: Semantic.Codec, f: Semantic.WireFrame)
    requires Agree(l) && Encodes(l, codec, f)
    requires Semantic.Validated(codec, f, SemanticSurface(l.s)).Ok?
    ensures Semantic.Validated(codec, f, SemanticSurface(l.s)).value.regions == l.sent[f.frameId].regions
  {
    hide Semantic.Scan, ShapeOk, Overlaps, ApplyAll, Size;
    Semantic.RawFrameAccepted(codec, f, SemanticSurface(l.s), l.sent[f.frameId].regions);
  }

  /** The heart of base fidelity: a delta is only applied to the base it was
      made against, so the new base is the image that was encoded. */
  lemma AcceptedFaithful(l: System, codec: Semantic.Codec, now: nat)
    requires R.Sane(l.s) && Agree(l) && Recorded(l, codec) && Faithful(l) && l.up != []
    requires Accepts(l.s, codec, l.up[0])
    ensures var r := AcceptFrame(l.s, codec, l.up[0], now);
            && Agree(Delivered(l, r.s, r.results))
            && Recorded(Delivered(l, r.s, r.results), codec)
            && Faithful(Delivered(l, r.s, r.results))
            && r.s.surface.value.core.base == l.sent[l.up[0].frameId].image
            && (l.up[0].baseId != 0 ==> l.s.surface.value.core.base == l.sent[l.up[0].baseId].image)
  {
    hide AcceptFrame, R.Sane, ShapeOk, Overlaps, ApplyAll, Semantic.RawRegions, Semantic.Validated, Size, Core.Shaped, Accepts;
    var f := l.up[0];
    assert Encodes(l, codec, f);
    R.SaneParts(l.s);
    var r := AcceptFrame(l.s, codec, f, now);
    AcceptanceShape(l.s, codec, f, now);
    AcceptsParts(l.s, codec, f);
    DecodesRecord(l, codec, f);
    if f.baseId == 0 {
      assert |l.s.surface.value.core.base| == Size(l.p.setup.w, l.p.setup.h) by { BaseSize(l.s.surface.value.core); }
      WholeApplies(l.p.setup, l.s.surface.value.core.base, l.sent[f.frameId].image);
    }
    var t := Delivered(l, r.s, r.results);
    SameEncodes(l, t, codec);
  }

  lemma AcceptsParts(s: State, codec: Semantic.Codec, f: Semantic.WireFrame)
    requires Shaped(s) && Accepts(s, codec, f)
    ensures s.surface.Some? && Semantic.Validated(codec, f, SemanticSurface(s)).Ok?
  {
    hide Semantic.Validated, Core.CommitCheck;
  }

  lemma BaseSize(core: Core.State)
    requires Core.Shaped(core)
    ensures |core.base| == Size(core.w, core.h)
  {
  }

  /** Only frames still on their way, and not the one that is delivered, come
      after it. */
  lemma HeadIsNext(l: System, y: nat)
    requires Counted(l) && Ordered(l) && l.up != [] && y in l.p.pending && y < l.up[0].frameId
    ensures y in R.Owed(l.s) || Answered(l.down, |l.down|, y)
  {
    hide FrameIds, R.ResultIds, R.Owed, Answered;
    Located(l, y);
  }

  lemma HeadIsPending(l: System)
    requires Counted(l) && l.up != []
    ensures l.up[0].frameId in l.p.pending && !Answered(l.down, |l.down|, l.up[0].frameId)
  {
    hide FrameIds, R.ResultIds, R.Owed;
    var id := l.up[0].frameId;
    Located(l, id);
    ResultIdsHas(l.down, id);
  }

  lemma OwedIs(s: State, y: nat)
    requires R.Sane(s)
    ensures y in R.Owed(s) ==> HasPending(s) && y == LogicalId(s)
    ensures HasPending(s) ==> s.surface.value.core.pending.value.frameId == LogicalId(s)
  {
    hide Core.Shaped, Composition.BaseCurrent, R.FrozenCore;
  }

  lemma AcceptedOrdered(l: System, codec: Semantic.Codec, now: nat)
    requires R.Sane(l.s) && Agree(l) && Counted(l) && Ordered(l) && AllHonest(l) && l.up != []
    requires Accepts(l.s, codec, l.up[0])
    ensures var r := AcceptFrame(l.s, codec, l.up[0], now);
            Ordered(Delivered(l, r.s, r.results)) && AllHonest(Delivered(l, r.s, r.results))
  {
    hide AcceptFrame, R.Sane, ApplyAll, Semantic.Validated, Size, Core.Shaped, Accepts, Answered, R.Owed, R.ResultIds,
         FrameIds, Increasing, Credits, ByteCredits, ShapesOk;
    var f := l.up[0];
    R.SaneParts(l.s);
    var r := AcceptFrame(l.s, codec, f, now);
    AcceptanceShape(l.s, codec, f, now);
    OwedIs(l.s, 0);
    HeadIsPending(l);
    CreditsBounded(r.s);
    var t := Delivered(l, r.s, r.results);
    NewestAnswered(l, t, r.results);
    OldAnswered(l, t, r.results);
    forall k | |l.down| <= k < |t.down| ensures Honest(t, k) {
      AnsweredMore(l.down, r.results, k, f.frameId);
    }
    MoreHonest(l, t, r.results);
  }

  lemma NewestAnswered(l: System, t: System, results: seq<FrameResult>)
    requires Counted(l) && Ordered(l) && R.Sane(l.s) && l.up != []
    requires t.p == l.p && t.down == l.down + results
    requires HasPending(l.s) ==> |results| == 1 && results[0].frameId == l.s.surface.value.core.pending.value.frameId
    ensures forall y :: y in t.p.pending && y < l.up[0].frameId ==> Answered(t.down, |t.down|, y)
  {
    hide R.Sane, FrameIds, R.Owed, R.ResultIds, Increasing, Ordered;
    forall y | y in t.p.pending && y < l.up[0].frameId ensures Answered(t.down, |t.down|, y) {
      HeadIsNext(l, y);
      OwedIs(l.s, y);
      AnsweredMore(l.down, results, 0, y);
      if y in R.Owed(l.s) {
        assert t.down[|l.down|].frameId == y;
      }
    }
  }

  /** The superseded frame was the newest at the receiver. */
  lemma OldAnswered(l: System, t: System, results: seq<FrameResult>)
    requires Ordered(l) && t.p == l.p && t.down == l.down + results
    requires |results| <= 1
    requires results != [] ==> HasPending(l.s) && results[0].frameId == LogicalId(l.s)
    ensures forall k, y :: 0 <= k < |t.down| && P.Clean(t.down[k]) && y in t.p.pending && y < t.down[k].frameId ==>
              Answered(t.down, k, y)
  {
    hide Answered;
    forall k, y | 0 <= k < |t.down| && P.Clean(t.down[k]) && y in t.p.pending && y < t.down[k].frameId
      ensures Answered(t.down, k, y)
    {
      AnsweredMore(l.down, results, Min(k, |l.down|), y);
    }
  }

  lemma AcceptedFlow(l: System, codec: Semantic.Codec, now: nat)
    requires R.Sane(l.s) && Agree(l) && Flow(l) && l.up != [] && Accepts(l.s, codec, l.up[0])
    ensures var r := AcceptFrame(l.s, codec, l.up[0], now); Flow(Delivered(l, r.s, r.results))
  {
    hide AcceptFrame, R.Sane, ApplyAll, Semantic.Validated, Size, Core.Shaped, Accepts, ShapesOk, Credits, ByteCredits;
    R.SaneParts(l.s);
    AcceptanceShape(l.s, codec, l.up[0], now);
  }

  /** A frame the receiver refuses changes nothing there. */
  lemma RefusedRest(l: System, codec: Semantic.Codec, r: FrameResult)
    requires Agree(l) && Recorded(l, codec) && Faithful(l) && Flow(l) && l.up != []
    requires r.logicalId == LogicalId(l.s)
    ensures var t := Delivered(l, l.s, [r]); Agree(t) && Recorded(t, codec) && Faithful(t) && Flow(t)
  {
    hide Size, Encodes;
    SameEncodes(l, Delivered(l, l.s, [r]), codec);
  }

  lemma SameProducer(l: System, t: System)
    requires Tracked(l) && Prepared(l) && t.p == l.p && t.sent == l.sent
    ensures Tracked(t) && Prepared(t)
  {
    hide Delta.IsDelta, Size;
  }

  lemma DeliveredInv(l: System, codec: Semantic.Codec, now: nat)
    requires Inv(l, codec) && l.up != []
    ensures var r := AcceptFrame(l.s, codec, l.up[0], now); Inv(Delivered(l, r.s, r.results), codec)
  {
    hide Counted, Recorded, Faithful, Ordered, AllHonest, Tracked, Prepared, Flow, R.Sane, PanelFits, Agree, AcceptFrame,
         Accepts, Credits, ByteCredits;
    R.SaneParts(l.s);
    AgreeParts(l);
    var f := l.up[0];
    var r := AcceptFrame(l.s, codec, f, now);
    DeliveredCounted(l, codec, now);
    SameProducer(l, Delivered(l, r.s, r.results));
    if Accepts(l.s, codec, f) {
      AcceptedFaithful(l, codec, now);
      AcceptedOrdered(l, codec, now);
      AcceptedFlow(l, codec, now);
    } else {
      RefusalShape(l.s, codec, f, now);
      assert r.results == [r.results[0]];
      RefusedOrdered(l, r.results[0]);
      RefusedRest(l, codec, r.results[0]);
    }
  }

  // ------------------------------------------------------------ local events

  function Beside(l: System, m: Panelled): System {
    l.(s := m.step.s, panel := m.panel, down := l.down + m.step.results)
  }

  lemma BesideCounted(l: System, m: Panelled)
    requires Counted(l) && R.KeptHere(l.s, m)
    ensures Counted(Beside(l, m))
  {
    hide FrameIds, R.Owed, R.ResultIds, R.Sane, PanelFits, Increasing, R.CoresSteadfast, R.AllTruthful;
    R.ResultsConcat(l.down, m.step.results);
    Resolved(multiset(l.p.pending), FrameIds(l.up), R.Owed(l.s), R.Owed(m.step.s), R.ResultIds(l.down),
             R.ResultIds(m.step.results));
  }

  lemma Resolved(pending: multiset<nat>, up: multiset<nat>, before: multiset<nat>, after: multiset<nat>,
                 down: multiset<nat>, results: multiset<nat>)
    requires pending == up + before + down && results + after == before + multiset{}
    ensures pending == up + after + (down + results)
  {
    assert up + (results + after) + down == up + after + (down + results);
  }

  /** Local work answers at most the frame that was pending. */
  lemma BesideResults(l: System, m: Panelled)
    requires R.Sane(l.s) && R.KeptHere(l.s, m)
    ensures |m.step.results| <= 1
    ensures m.step.results != [] ==> HasPending(l.s) && m.step.results[0].frameId == LogicalId(l.s)
  {
    hide R.Sane, R.ResultIds, PanelFits, R.CoresSteadfast, R.AllTruthful;
    ResultIdsHas(m.step.results, 0);
    assert |R.ResultIds(m.step.results) + R.Owed(m.step.s)| == |R.ResultIds(m.step.results)| + |R.Owed(m.step.s)|;
    if m.step.results != [] {
      var id := m.step.results[0].frameId;
      ResultIdsHas(m.step.results, id);
      AnsweredBy(m.step.results, 0);
      assert id in R.ResultIds(m.step.results) + R.Owed(m.step.s);
      OwedIs(l.s, id);
    }
  }

  lemma BesideOrdered(l: System, m: Panelled)
    requires R.Sane(l.s) && Agree(l) && Ordered(l) && AllHonest(l) && R.KeptHere(l.s, m)
    ensures Ordered(Beside(l, m)) && AllHonest(Beside(l, m))
  {
    hide R.Sane, R.ResultIds, PanelFits, Answered, R.Owed, R.FrozenCore;
    BesideResults(l, m);
    var t := Beside(l, m);
    R.SaneParts(l.s);
    OldAnswered(l, t, m.step.results);
    ValidPending(t.s);
    forall y | HasPending(t.s) && y in t.p.pending && y < LogicalId(t.s) ensures Answered(t.down, |t.down|, y) {
      AnsweredMore(l.down, m.step.results, 0, y);
    }
    forall k | |l.down| <= k < |t.down| ensures Honest(t, k) {
      assert R.Truthful(l.s, m.step.results[k - |l.down|]);
    }
    MoreHonest(l, t, m.step.results);
  }

  lemma ValidPending(s: State)
    requires R.Sane(s)
    ensures HasPending(s) ==> s.surface.value.core.baseValid
  {
    hide Core.Shaped, Composition.BaseCurrent, R.FrozenCore;
  }

  lemma BesideRest(l: System, codec: Semantic.Codec, m: Panelled)
    requires R.Sane(l.s) && Agree(l) && Recorded(l, codec) && Faithful(l) && Flow(l) && R.KeptHere(l.s, m)
    ensures var t := Beside(l, m); Agree(t) && Recorded(t, codec) && Faithful(t) && Flow(t)
  {
    hide R.Sane, R.ResultIds, PanelFits, R.Owed, R.FrozenCore, Size, Encodes;
    SameEncodes(l, Beside(l, m), codec);
    forall k | 0 <= k < |m.step.results| ensures Known(l, m.step.results[k].logicalId) {
      assert R.Truthful(l.s, m.step.results[k]);
    }
  }

  lemma LocalInv(l: System, codec: Semantic.Codec, e: R.Event)
    requires Inv(l, codec) && IsLocal(e) && R.Enabled(l.s, l.panel, e) && R.Handle(l.s, l.panel, codec, e).PanelDone?
    ensures Inv(Beside(l, R.Handle(l.s, l.panel, codec, e).value), codec)
  {
    hide Counted, Recorded, Faithful, Ordered, AllHonest, Tracked, Prepared, Flow, R.Sane, PanelFits, Agree, R.Handle, R.Enabled,
         R.CoresSteadfast, R.AllTruthful;
    R.SaneParts(l.s);
    AgreeParts(l);
    var m := R.Handle(l.s, l.panel, codec, e).value;
    R.HandleKept(l.s, l.panel, codec, e);
    assert R.KeptHere(l.s, m);
    BesideCounted(l, m);
    BesideOrdered(l, m);
    BesideRest(l, codec, m);
    SameProducer(l, Beside(l, m));
  }

  // ------------------------------------------------------------------- runs

  lemma InvParts(l: System, codec: Semantic.Codec)
    requires Inv(l, codec)
    ensures R.Sane(l.s) && Shaped(l.s) && PanelFits(l.s, l.panel) && l.s.surface.Some?
  {
    hide Counted, Recorded, Faithful, Ordered, AllHonest, Tracked, Prepared, Flow, R.Sane, PanelFits;
    R.SaneParts(l.s);
  }

  lemma NextInv(l: System, codec: Semantic.Codec, step: Step)
    requires Inv(l, codec) && Shaped(l.s) && PanelFits(l.s, l.panel) && Enabled(l, step) && Next(l, codec, step).Some?
    ensures Inv(Next(l, codec, step).value, codec)
  {
    hide Inv, Produced, AcceptFrame, R.Handle, R.Enabled, Shaped, PanelFits;
    match step
    case Produce(act) => ProducedInv(l, codec, act);
    case Deliver(now) => DeliveredInv(l, codec, now);
    case Local(e) => LocalInv(l, codec, e);
  }

  /** A run of the whole system; `None` when some step could not be taken. */
  ghost function Execute(l: System, codec: Semantic.Codec, steps: seq<Step>): Option<System>
    requires Inv(l, codec)
    decreases |steps|
  {
    InvParts(l, codec);
    if steps == [] then Some(l)
    else if !Enabled(l, steps[0]) then None
    else
      match Next(l, codec, steps[0])
      case None => None
      case Some(t) =>
        NextInv(l, codec, steps[0]);
        Execute(t, codec, steps[1..])
  }

  lemma {:induction false} RunInv(l: System, codec: Semantic.Codec, steps: seq<Step>)
    requires Inv(l, codec) && Execute(l, codec, steps).Some?
    ensures Inv(Execute(l, codec, steps).value, codec)
    decreases |steps|
  {
    hide Inv, Next, Enabled;
    InvParts(l, codec);
    if steps != [] {
      NextInv(l, codec, steps[0]);
      RunInv(Next(l, codec, steps[0]).value, codec, steps[1..]);
    }
  }

  /** Base fidelity: in every interleaving of sends, deliveries, ticks,
      superseding, panel failures, freezes and recoveries, a valid receiver base
      is exactly the image that the producer encoded for the frame it names; and
      a delta delivered next is applied, if at all, to the very image it was
      made against. */
  lemma BaseFidelity(l: System, codec: Semantic.Codec, steps: seq<Step>, now: nat)
    requires Fresh(l)
    ensures Inv(l, codec)
    ensures Execute(l, codec, steps).Some? ==>
              var t := Execute(l, codec, steps).value;
              && t.s.surface.Some?
              && Shaped(t.s)
              && var core := t.s.surface.value.core;
                 && (core.baseValid ==> core.logicalId in t.sent && core.base == t.sent[core.logicalId].image)
                 && (t.up != [] && Accepts(t.s, codec, t.up[0]) ==>
                       var f := t.up[0];
                       && f.frameId in t.sent
                       && (f.baseId != 0 ==> f.baseId in t.sent && core.base == t.sent[f.baseId].image)
                       && var after := AcceptFrame(t.s, codec, f, now).s;
                          && after.surface.Some?
                          && after.surface.value.core.logicalId == f.frameId
                          && after.surface.value.core.base == t.sent[f.frameId].image)
  {
    hide Counted, Ordered, AllHonest, Tracked, Prepared, Flow, R.Sane, AcceptFrame, Accepts, Execute, Fresh, PanelFits,
         Size, Disjoint, ShapesOk, ApplyAll, Semantic.RawRegions;
    FreshInv(l, codec);
    if Execute(l, codec, steps).Some? {
      RunInv(l, codec, steps);
      var t := Execute(l, codec, steps).value;
      InvParts(t, codec);
      if t.up != [] && Accepts(t.s, codec, t.up[0]) {
        assert Encodes(t, codec, t.up[0]);
        AcceptedFaithful(t, codec, now);
        AcceptanceShape(t.s, codec, t.up[0], now);
      }
    }
  }

  lemma RoomOnArrival(l: System)
    requires R.Sane(l.s) && Agree(l) && Counted(l) && Prepared(l) && Flow(l) && l.up != []
    ensures Credits(l.s) > 0
    ensures HasPending(l.s) ==> l.s.surface.value.core.pending.value.intent != Settled
  {
    hide FrameIds, R.ResultIds, Increasing, R.Sane, Delta.IsDelta, Size;
    Located(l, 0);
    OwedIs(l.s, LogicalId(l.s));
  }

  /** Flow control over every run: at most `min(2, max_inflight)` frames without
      a result; no result is unexpected; an arriving frame never finds the
      receiver out of frame credit or behind the barrier of a settled frame; and
      a settled frame is alone on the link. */
  lemma FlowControl(l: System, codec: Semantic.Codec, steps: seq<Step>)
    requires Fresh(l)
    ensures Inv(l, codec)
    ensures Execute(l, codec, steps).Some? ==>
              var t := Execute(l, codec, steps).value;
              && |t.p.pending| <= Min(2, t.s.limits.maxInflight)
              && |t.p.pending| == |t.up| + |t.down| + (if HasPending(t.s) then 1 else 0)
              && (t.down != [] ==> P.ApplyResult(t.p, t.down[0]).Some?)
              && (t.up != [] ==>
                    && Credits(t.s) > 0
                    && (HasPending(t.s) ==> t.s.surface.value.core.pending.value.intent != Settled))
              && (forall k :: 0 <= k < |t.up| ==> t.up[k].intent == Semantic.IntentOf(Settled) ==> |t.p.pending| == 1)
  {
    hide FrameIds, R.ResultIds, Increasing, Recorded, Faithful, Ordered, Tracked, R.Sane, Execute, Fresh, PanelFits, P.ApplyResult,
         Delta.IsDelta, Size;
    FreshInv(l, codec);
    if Execute(l, codec, steps).Some? {
      RunInv(l, codec, steps);
      var t := Execute(l, codec, steps).value;
      Located(t, 0);
      assert |R.Owed(t.s)| == if HasPending(t.s) then 1 else 0;
      if t.down != [] { ResultExpected(t); }
      if t.up != [] { RoomOnArrival(t); }
    }
  }

  // ------------------------------------------------------------ speculation

  /** The frame that a queued delta builds on is the last one on its way, or
      the receiver's own. */
  function Newest(l: System): nat {
    if l.up != [] then l.up[|l.up| - 1].frameId else LogicalId(l.s)
  }

  /** The frames on their way form a chain from the receiver's base. */
  ghost predicate Chained(l: System) {
    && !Frozen(l.s)
    && !l.s.byteCreditsOn
    && (BaseLive(l.s) || LogicalId(l.s) == 0)
    && (l.up != [] ==> l.up[0].baseId == 0 || l.up[0].baseId == LogicalId(l.s))
    && (forall k :: 0 < k < |l.up| ==> l.up[k].baseId == 0 || l.up[k].baseId == l.up[k - 1].frameId)
    && (!l.p.needsKeyframe ==> l.p.logical == Newest(l))
  }

  /** A step that loses nothing: the receiver keeps its base. */
  ghost predicate CalmNext(l: System, t: System) {
    !Frozen(t.s) && (BaseLive(l.s) ==> BaseLive(t.s))
  }

  /** Steps without a freeze of the background. */
  predicate CalmStep(step: Step, freezeOnPenDown: bool) {
    step.Local? ==> CalmEvent(step.event, freezeOnPenDown)
  }

  /** On a calm link every arriving frame is taken. */
  lemma ChainAccepted(l: System, codec: Semantic.Codec)
    requires Inv(l, codec) && Chained(l) && l.up != [] && Shaped(l.s)
    ensures Accepts(l.s, codec, l.up[0])
  {
    hide Counted, Faithful, AllHonest, Tracked, Prepared, Flow, R.Sane, PanelFits, Size, Semantic.Scan, ApplyAll, Overlaps,
         ShapeOk, Core.Shaped, Credits, ValidateRegions;
    var f, s := l.up[0], l.s;
    assert Encodes(l, codec, f);
    var r := l.sent[f.frameId];
    RoomOnArrival(l);
    RawEncodings(codec, r.regions, s.encodings);
    assert EarlyRejection(s, f).None?;
    assert Semantic.HeaderError(f, SemanticSurface(s)).None?;
    Semantic.RawFits(l.p.setup.w, l.p.setup.h, r.regions);
    Semantic.RawFrameAccepted(codec, f, SemanticSurface(s), r.regions);
    Semantic.AcceptedFrameApplies(codec, f, SemanticSurface(s));
  }

  lemma RawEncodings(codec: Semantic.Codec, regions: seq<Region>, encodings: set<Semantic.Encoding>)
    requires Semantic.Raw in encodings
    ensures var wire := Semantic.RawRegions(codec, FormatGray8, regions);
            !exists k :: 0 <= k < |wire| && wire[k].encoding !in encodings
  {
  }

  lemma ChainDelivered(l: System, codec: Semantic.Codec, now: nat)
    requires Inv(l, codec) && Chained(l) && l.up != [] && Shaped(l.s)
    ensures var r := AcceptFrame(l.s, codec, l.up[0], now);
            var t := Delivered(l, r.s, r.results);
            CalmNext(l, t) ==> Chained(t)
  {
    hide AcceptFrame, Inv, Accepts, Shaped;
    ChainAccepted(l, codec);
    InvParts(l, codec);
    AcceptanceShape(l.s, codec, l.up[0], now);
  }

  lemma ChainReceived(l: System, codec: Semantic.Codec, r: FrameResult)
    requires Inv(l, codec) && Chained(l) && Enabled(l, Produce(P.Receive(r)))
    requires Produced(l, codec, P.Receive(r)).Some?
    ensures Chained(Produced(l, codec, P.Receive(r)).value)
  {
    hide Recorded, Faithful, Prepared, Flow, R.Sane, PanelFits, Agree, P.Blocked, P.ApplyResult, Counted, Ordered, AllHonest, Tracked;
    assert Produced(l, codec, P.Receive(r)).value == Taken(l);
    TakenParts(l);
    TakenStable(l);
  }

  lemma ChainSent(l: System, codec: Semantic.Codec, act: P.Act)
    requires (act.SendQueued? || act.Transmit?) && Chained(l) && Produced(l, codec, act).Some?
    requires act.Transmit? ==> l.up == []
    requires act.SendQueued? ==> !l.p.needsKeyframe
    ensures Chained(Produced(l, codec, act).value)
  {
    hide P.Chosen, P.PixelsOk, P.Blocked, P.Cost, Semantic.RawRegions;
  }

  lemma ChainBegun(l: System, codec: Semantic.Codec, act: P.Act)
    requires act.BeginQueue? || act.BeginSend? || act.GiveUp? || act.ForceKeyframe?
    requires Chained(l) && Produced(l, codec, act).Some?
    ensures Chained(Produced(l, codec, act).value)
  {
    hide Delta.IsDelta, P.PixelsOk, P.Blocked;
  }

  lemma ChainProduced(l: System, codec: Semantic.Codec, act: P.Act)
    requires Inv(l, codec) && Chained(l) && Enabled(l, Produce(act)) && Produced(l, codec, act).Some?
    ensures Chained(Produced(l, codec, act).value)
  {
    hide Inv, Chained, P.Play;
    match act
    case Receive(r) => ChainReceived(l, codec, r);
    case Transmit(regions, content) =>
      TransmitSettled(l, codec, regions, content);
      EmptyWhenSettled(l, codec);
      ChainSent(l, codec, act);
    case SendQueued(content) =>
      SendQueueing(l, codec, content);
      QueueReady(l, codec);
      ChainSent(l, codec, act);
    case BeginQueue(_, _, _) => ChainBegun(l, codec, act);
    case BeginSend(_, _, _) => ChainBegun(l, codec, act);
    case GiveUp => ChainBegun(l, codec, act);
    case ForceKeyframe => ChainBegun(l, codec, act);
  }

  lemma TransmitSettled(l: System, codec: Semantic.Codec, regions: seq<Region>, content: Content)
    requires Produced(l, codec, P.Transmit(regions, content)).Some?
    ensures l.p.pending == []
  {
    hide P.Chosen, P.PixelsOk, P.Cost;
  }

  lemma SendQueueing(l: System, codec: Semantic.Codec, content: Content)
    requires Produced(l, codec, P.SendQueued(content)).Some?
    ensures l.p.phase.Queueing?
  {
    hide P.Blocked;
  }

  lemma QueueReady(l: System, codec: Semantic.Codec)
    requires Inv(l, codec) && l.p.phase.Queueing?
    ensures !l.p.needsKeyframe
  {
  }

  lemma EmptyWhenSettled(l: System, codec: Semantic.Codec)
    requires Inv(l, codec) && l.p.pending == []
    ensures l.up == []
  {
    hide FrameIds, R.ResultIds, R.Owed;
    Located(l, 0);
  }

  lemma ChainLocal(l: System, codec: Semantic.Codec, e: R.Event)
    requires Inv(l, codec) && Chained(l) && IsLocal(e) && R.Enabled(l.s, l.panel, e) && R.Handle(l.s, l.panel, codec, e).PanelDone?
    ensures var t := Beside(l, R.Handle(l.s, l.panel, codec, e).value); CalmNext(l, t) ==> Chained(t)
  {
    hide Inv, R.Handle, R.Enabled, R.FrozenCore, R.Kept, R.AllTruthful, PanelFits, Shaped;
    InvParts(l, codec);
    R.HandleKept(l.s, l.panel, codec, e);
  }

  /** On a panel that accepts, a step without freeze loses nothing. */
  lemma StepCalm(l: System, codec: Semantic.Codec, step: Step)
    requires Inv(l, codec) && Shaped(l.s) && PanelFits(l.s, l.panel) && Enabled(l, step) && Next(l, codec, step).Some?
    requires Reliable(l.panel) && CalmStep(step, l.s.freezeOnPenDown) && !Frozen(l.s)
    ensures var t := Next(l, codec, step).value;
            CalmNext(l, t) && Reliable(t.panel) && t.s.freezeOnPenDown == l.s.freezeOnPenDown
  {
    hide Inv, AcceptFrame, R.Handle, R.Enabled, Shaped, PanelFits, Reliable, P.Play;
    InvParts(l, codec);
    match step
    case Produce(act) =>
    case Deliver(now) => FrameSteady(l.s, l.panel, codec, l.up[0], now);
    case Local(e) => HandleSteady(l.s, l.panel, codec, e);
  }

  lemma ChainNext(l: System, codec: Semantic.Codec, step: Step)
    requires Inv(l, codec) && Chained(l) && Shaped(l.s) && PanelFits(l.s, l.panel) && Enabled(l, step)
    requires Next(l, codec, step).Some? && CalmNext(l, Next(l, codec, step).value)
    ensures Chained(Next(l, codec, step).value)
  {
    hide Inv, Produced, AcceptFrame, R.Handle, R.Enabled, Shaped, PanelFits, Chained, CalmNext;
    match step
    case Produce(act) => ChainProduced(l, codec, act);
    case Deliver(now) => ChainDelivered(l, codec, now);
    case Local(e) => ChainLocal(l, codec, e);
  }

  /** Speculation never misses: with byte credits off, on a panel that accepts
      every call and without a freeze of the background, after any run the frame
      that arrives next is accepted, and a delta names exactly the frame the
      receiver holds. */
  lemma {:induction false} SpeculationHolds(l: System, codec: Semantic.Codec, steps: seq<Step>)
    requires Inv(l, codec) && Chained(l) && Reliable(l.panel) && Execute(l, codec, steps).Some?
    requires forall k :: 0 <= k < |steps| ==> CalmStep(steps[k], l.s.freezeOnPenDown)
    ensures var t := Execute(l, codec, steps).value;
            && Inv(t, codec) && Chained(t) && Shaped(t.s)
            && (t.up != [] ==>
                  && Accepts(t.s, codec, t.up[0])
                  && (t.up[0].baseId != 0 ==> t.up[0].baseId == LogicalId(t.s)))
    decreases |steps|
  {
    hide Inv, Next, Enabled, CalmNext, Accepts, Reliable;
    InvParts(l, codec);
    if steps == [] {
      if l.up != [] { ChainAccepted(l, codec); }
    } else {
      NextInv(l, codec, steps[0]);
      StepCalm(l, codec, steps[0]);
      ChainNext(l, codec, steps[0]);
      var t := Next(l, codec, steps[0]).value;
      assert forall k :: 0 <= k < |steps[1..]| ==> steps[1..][k] == steps[k + 1];
      SpeculationHolds(t, codec, steps[1..]);
    }
  }

  /** A fresh surface starts the chain. */
  lemma FreshChained(l: System, codec: Semantic.Codec)
    requires Fresh(l) && !Frozen(l.s) && !l.s.byteCreditsOn
    ensures Inv(l, codec) && Chained(l)
  {
    hide Inv, R.Sane, Agree, PanelFits;
    FreshInv(l, codec);
  }

  /** Opening or replacing a surface starts the link afresh, whatever happened
      on the surface before: so the run theorems hold on every surface. */
  lemma OpenedIsFresh(s: State, panel: Core.Panel, open: SurfaceOpen, w: nat, h: nat, now: nat, q: P.Setup)
    requires R.Sane(s) && PanelFits(s, panel) && Core.PanelShaped(Size(w, h), panel)
    requires open.surfaceId != 0 && open.format == FormatGray8 && w > 0 && h > 0
    requires s.limits.maxRegions > 0 && s.limits.maxInflight > 0 && Semantic.Raw in s.encodings
    requires q == P.Setup(open.surfaceId, Max(s.nextGeneration, 1), w, h, s.limits.maxFrameBytes, s.limits.maxRegions,
                          s.limits.maxInflight, q.byteLimit, s.byteCreditsOn)
    requires q.byteCreditsOn ==> q.byteLimit == s.limits.maxInflightBytes
    ensures OpenSurface(s, open, w, h, now).Done?
    ensures var t := OpenSurface(s, open, w, h, now).step.s;
            Fresh(System(P.NewState(q), [], t, panel, [], map[])) && !Frozen(t)
  {
    hide R.Sane, Core.PanelShaped, Size, TurnedOver, DebtValid, CarriedDebt, R.FrozenCore;
    R.OpenKept(s, panel, open, w, h, now);
    R.FreshSound(s, open.format, w, h) by { R.TurnedOverKept(s); PolicySane(s); }
    TurnedLimits(s);
    FreshIdentities(s, open.format, w, h);
  }

  lemma PolicySane(s: State)
    requires R.Sane(s)
    ensures Validate(s.policy).None?
  {
  }

  lemma TurnedLimits(s: State)
    ensures var t := TurnedOver(s).s;
            t.limits == s.limits && t.encodings == s.encodings && t.byteCreditsOn == s.byteCreditsOn
  {
    hide Core.CancelPending, CarriedDebt;
  }

  lemma FreshIdentities(s: State, format: Format, w: nat, h: nat)
    ensures var core := FreshCore(s, format, w, h);
            core.logicalId == 0 && core.pending.None? && core.format == format
  {
    hide Size, CarriedDebt;
  }
}
