/** The bounded input queue between the device reader and the session, and the
    merge of pen and touch reports by time. */
module Capture {
  import opened Geometry
  import opened Ink

  const CAPACITY: nat := 8192

  /** A report of a device, with its content left abstract, or a fault. */
  datatype Report = Touch(content: nat) | Pen(content: nat) | Fault

  datatype Captured = Captured(time: nat, report: Report)

  datatype Queue = Queue(items: seq<Captured>, stopped: bool, failed: bool)

  function Push(q: Queue, r: Captured): (Queue, bool) {
    if q.stopped then (q, false)
    else if |q.items| == CAPACITY then (Queue(q.items + [Captured(r.time, Fault)], true, true), false)
    else (q.(items := q.items + [r]), true)
  }

  /** Pushes in order until one is refused. */
  function PushAll(q: Queue, rs: seq<Captured>): (Queue, bool)
    decreases |rs|
  {
    if rs == [] then (q, true)
    else
      var (next, ok) := Push(q, rs[0]);
      if ok then PushAll(next, rs[1..]) else (next, false)
  }

  /** The reader's error path: one fault entry, then stop. */
  function Abort(q: Queue, time: nat): Queue {
    Push(q.(failed := true), Captured(time, Fault)).0.(stopped := true)
  }

  // ----------------------------------------------------------------- merging

  predicate Sorted(s: seq<Captured>) {
    forall i, j :: 0 <= i < j < |s| ==> s[i].time <= s[j].time
  }

  /** Puts a report behind all that are not later. */
  function InsertByTime(s: seq<Captured>, r: Captured): seq<Captured> {
    if s == [] || s[|s| - 1].time <= r.time then s + [r]
    else InsertByTime(s[..|s| - 1], r) + [s[|s| - 1]]
  }

  function SortByTime(s: seq<Captured>): seq<Captured> {
    if s == [] then [] else InsertByTime(SortByTime(s[..|s| - 1]), s[|s| - 1])
  }

  /** How many reports at the front are not later than the watermark. */
  function ReadyCount(s: seq<Captured>, watermark: nat): (n: nat)
    ensures n <= |s|
    ensures forall k :: 0 <= k < n ==> s[k].time <= watermark
    ensures n < |s| ==> s[n].time > watermark
  {
    if s == [] || s[0].time > watermark then 0 else 1 + ReadyCount(s[1..], watermark)
  }

  /** Session time of the reports that are not older than the connection. */
  function Since(s: seq<Captured>, origin: nat): seq<Captured> {
    if s == [] then []
    else
      var rest := Since(s[..|s| - 1], origin);
      var r := s[|s| - 1];
      if r.time < origin then rest else rest + [r.(time := SatSub(r.time, origin))]
  }

  /** One round of the reader: a watermark taken first, then both devices read. */
  datatype Batch = Batch(watermark: nat, pen: seq<Captured>, touch: seq<Captured>)

  function Merged(pending: seq<Captured>, b: Batch): seq<Captured> {
    SortByTime(pending + b.pen + b.touch)
  }

  function Ready(pending: seq<Captured>, b: Batch): seq<Captured> {
    Merged(pending, b)[..ReadyCount(Merged(pending, b), b.watermark)]
  }

  function Later(pending: seq<Captured>, b: Batch): seq<Captured> {
    Merged(pending, b)[ReadyCount(Merged(pending, b), b.watermark)..]
  }

  class InputCapture {
    var queue: seq<Captured>
    var stop: bool
    var failed: bool
    var pending: seq<Captured>

    ghost function View(): Queue
      reads this
    {
      Queue(queue, stop, failed)
    }

    constructor ()
      ensures View() == Queue([], false, false) && pending == []
    {
      queue, stop, failed, pending := [], false, false, [];
    }

    method PushReport(r: Captured) returns (ok: bool)
      modifies this`queue, this`stop, this`failed
      ensures (View(), ok) == Push(old(View()), r)
    {
      if stop {
        return false;
      }
      if |queue| == CAPACITY {
        failed := true;
        queue := queue + [Captured(r.time, Fault)];
        stop := true;
        return false;
      }
      queue := queue + [r];
      return true;
    }

    method Drain() returns (reports: seq<Captured>)
      modifies this`queue
      ensures reports == old(queue) && queue == []
    {
      reports := queue;
      queue := [];
    }

    /** One round: `more` is false once the loop ends, because a push was refused
        or the ordering buffer is exhausted. */
    method Round(b: Batch, origin: nat, now: nat) returns (more: bool)
      modifies this
      ensures if |old(pending) + b.pen + b.touch| > CAPACITY
              then !more && View() == Abort(old(View()), now) && pending == old(pending)
              else
                && (View(), more) == PushAll(old(View()), Since(Ready(old(pending), b), origin))
                && (more ==> pending == Later(old(pending), b))
    {
      hide SortByTime, ReadyCount;
      var all := pending + b.pen + b.touch;
      if |all| > CAPACITY {
        failed := true;
        var ok := PushReport(Captured(now, Fault));
        stop := true;
        return false;
      }
      var merged := SortByTime(all);
      var ready := ReadyCount(merged, b.watermark);
      ghost var goal := PushAll(View(), Since(merged[..ready], origin));
      ghost var left := Since(merged[..ready], origin);
      SinceEmpty(origin);
      for k := 0 to ready
        invariant pending == old(pending)
        invariant Since(merged[..ready], origin) == Since(merged[..k], origin) + left
        invariant goal == PushAll(View(), left)
      {
        assert merged[..k + 1][..k] == merged[..k];
        var r := merged[k];
        if r.time >= origin {
          assert merged[..ready][..k] == merged[..k] && merged[..ready][..k + 1] == merged[..k + 1];
          SinceNext(merged[..ready], k, origin, left);
          var ok := PushReport(r.(time := SatSub(r.time, origin)));
          if !ok {
            return false;
          }
          left := left[1..];
        }
      }
      SinceDone(Since(merged[..ready], origin), left);
      pending := merged[ready..];
      return true;
    }
  }

  lemma SinceEmpty(origin: nat)
    ensures Since([], origin) == []
  {
  }

  lemma SinceDone(whole: seq<Captured>, left: seq<Captured>)
    requires whole == whole + left
    ensures left == []
  {
    assert |whole| == |whole| + |left|;
  }

  /** The next report that is pushed is the next of the filtered list. */
  lemma {:induction false} SinceNext(s: seq<Captured>, k: nat, origin: nat, left: seq<Captured>)
    requires k < |s| && s[k].time >= origin && Since(s, origin) == Since(s[..k], origin) + left
    ensures left != [] && left[0] == s[k].(time := SatSub(s[k].time, origin))
    ensures Since(s, origin) == Since(s[..k + 1], origin) + left[1..]
  {
    assert s[..k + 1][..k] == s[..k];
    SincePrefix(s, k + 1, origin);
    var next := s[k].(time := SatSub(s[k].time, origin));
    assert Since(s[..k + 1], origin) == Since(s[..k], origin) + [next];
    assert Since(s, origin)[|Since(s[..k], origin)|] == next;
  }

  lemma {:induction false} SincePrefix(s: seq<Captured>, k: nat, origin: nat)
    requires k <= |s|
    ensures Since(s[..k], origin) <= Since(s, origin)
    decreases |s|
  {
    if k < |s| {
      assert s[..|s| - 1][..k] == s[..k];
      SincePrefix(s[..|s| - 1], k, origin);
    } else {
      assert s[..k] == s;
    }
  }

  // ---------------------------------------------------------------- ordering

  predicate AllBy(s: seq<Captured>, time: nat) {
    forall k :: 0 <= k < |s| ==> s[k].time <= time
  }

  lemma SortedSnoc(s: seq<Captured>, r: Captured)
    requires Sorted(s) && AllBy(s, r.time)
    ensures Sorted(s + [r])
  {
  }

  lemma SortedInit(s: seq<Captured>)
    requires Sorted(s) && s != []
    ensures Sorted(s[..|s| - 1]) && AllBy(s[..|s| - 1], s[|s| - 1].time) && s == s[..|s| - 1] + [s[|s| - 1]]
  {
  }

  lemma {:induction false} InsertSorts(s: seq<Captured>, r: Captured, cut: nat)
    requires Sorted(s) && AllBy(s, cut) && r.time <= cut
    ensures var t := InsertByTime(s, r); Sorted(t) && AllBy(t, cut) && multiset(t) == multiset(s) + multiset{r}
  {
    hide Sorted;
    if s == [] {
      assert Sorted([]) by { EmptySorted(); }
      SortedSnoc(s, r);
    } else {
      SortedInit(s);
      var n := |s| - 1;
      if s[n].time > r.time {
        InsertSorts(s[..n], r, s[n].time);
        SortedSnoc(InsertByTime(s[..n], r), s[n]);
      } else {
        SortedSnoc(s, r);
      }
    }
  }

  lemma EmptySorted()
    ensures Sorted([])
  {
  }

  /** An upper bound of all times. */
  lemma {:induction false} Bounded(s: seq<Captured>) returns (cut: nat)
    ensures AllBy(s, cut)
  {
    cut := 0;
    if s != [] {
      var below := Bounded(s[..|s| - 1]);
      cut := below + s[|s| - 1].time;
    }
  }

  lemma {:induction false} SortSorts(s: seq<Captured>)
    ensures Sorted(SortByTime(s)) && multiset(SortByTime(s)) == multiset(s)
  {
    if s != [] {
      var n := |s| - 1;
      SortSorts(s[..n]);
      var cut := Bounded(SortByTime(s[..n]) + [s[n]]);
      BoundBoth(SortByTime(s[..n]), s[n], cut);
      InsertSorts(SortByTime(s[..n]), s[n], cut);
      assert s == s[..n] + [s[n]];
    }
  }

  lemma BoundBoth(s: seq<Captured>, r: Captured, cut: nat)
    requires AllBy(s + [r], cut)
    ensures AllBy(s, cut) && r.time <= cut
  {
    assert forall k :: 0 <= k < |s| ==> (s + [r])[k] == s[k];
    assert (s + [r])[|s|] == r;
  }

  predicate AllAfter(s: seq<Captured>, time: int) {
    forall k :: 0 <= k < |s| ==> s[k].time > time
  }

  lemma AllKept(pending: seq<Captured>, b: Batch)
    ensures multiset(Merged(pending, b)) == multiset(pending) + multiset(b.pen) + multiset(b.touch)
  {
    hide SortByTime;
    SortSorts(pending + b.pen + b.touch);
  }

  lemma MergedAfter(pending: seq<Captured>, b: Batch, last: int)
    requires AllAfter(pending, last) && AllAfter(b.pen, last) && AllAfter(b.touch, last)
    ensures Sorted(Merged(pending, b)) && AllAfter(Merged(pending, b), last)
  {
    hide SortByTime, Sorted;
    var all := pending + b.pen + b.touch;
    SortSorts(all);
    var merged := Merged(pending, b);
    forall k | 0 <= k < |merged| ensures merged[k].time > last {
      assert merged[k] in multiset(merged);
      assert merged[k] in all;
    }
  }

  /** One round emits exactly what is due, in order, and keeps the rest. */
  lemma RoundOrders(pending: seq<Captured>, b: Batch, last: int)
    requires AllAfter(pending, last) && AllAfter(b.pen, last) && AllAfter(b.touch, last)
    ensures Sorted(Ready(pending, b)) && AllAfter(Ready(pending, b), last)
    ensures forall k :: 0 <= k < |Ready(pending, b)| ==> Ready(pending, b)[k].time <= b.watermark
    ensures AllAfter(Later(pending, b), b.watermark)
    ensures multiset(Ready(pending, b)) + multiset(Later(pending, b))
         == multiset(pending) + multiset(b.pen) + multiset(b.touch)
  {
    hide Merged, ReadyCount;
    MergedAfter(pending, b, last);
    AllKept(pending, b);
    var merged := Merged(pending, b);
    CountSpec(merged, b.watermark);
    assert merged == Ready(pending, b) + Later(pending, b);
  }

  lemma CountSpec(s: seq<Captured>, watermark: nat)
    ensures var n := ReadyCount(s, watermark);
            && n <= |s|
            && (forall k :: 0 <= k < n ==> s[k].time <= watermark)
            && (n < |s| ==> s[n].time > watermark)
  {
  }

  /** All reports due in a run of rounds, and what is left. */
  function Emitted(pending: seq<Captured>, batches: seq<Batch>): (seq<Captured>, seq<Captured>)
    decreases |batches|
  {
    if batches == [] then ([], pending)
    else
      var (later, left) := Emitted(Later(pending, batches[0]), batches[1..]);
      (Ready(pending, batches[0]) + later, left)
  }

  function Arrived(batches: seq<Batch>): multiset<Captured> {
    if batches == [] then multiset{}
    else multiset(batches[0].pen) + multiset(batches[0].touch) + Arrived(batches[1..])
  }

  /** Watermarks do not run backwards, and every report stamped at or before a
      watermark is readable in the round that follows it. */
  predicate Readable(batches: seq<Batch>, last: int)
    decreases |batches|
  {
    batches == [] ||
    (&& last <= batches[0].watermark
     && AllAfter(batches[0].pen, last) && AllAfter(batches[0].touch, last)
     && Readable(batches[1..], batches[0].watermark))
  }

  lemma SortedConcat(a: seq<Captured>, b: seq<Captured>, cut: int)
    requires Sorted(a) && Sorted(b) && (forall k :: 0 <= k < |a| ==> a[k].time <= cut) && AllAfter(b, cut)
    ensures Sorted(a + b)
  {
  }

  lemma AfterConcat(a: seq<Captured>, b: seq<Captured>, last: int, cut: int)
    requires AllAfter(a, last) && AllAfter(b, cut) && last <= cut
    ensures AllAfter(a + b, last)
  {
  }

  lemma NoneAfter(last: int)
    ensures Sorted([]) && AllAfter([], last)
  {
  }

  lemma {:induction false} MergeSorted(pending: seq<Captured>, batches: seq<Batch>, last: int)
    requires AllAfter(pending, last) && Readable(batches, last)
    ensures var (out, left) := Emitted(pending, batches);
            && Sorted(out) && AllAfter(out, last)
            && (batches != [] ==> AllAfter(left, batches[|batches| - 1].watermark))
    decreases |batches|
  {
    hide Merged, ReadyCount, Ready, Later, Sorted, AllAfter;
    NoneAfter(last);
    if batches != [] {
      var b, tail := batches[0], batches[1..];
      RoundOrders(pending, b, last);
      MergeSorted(Later(pending, b), tail, b.watermark);
      var (out, left) := Emitted(Later(pending, b), tail);
      SortedConcat(Ready(pending, b), out, b.watermark);
      AfterConcat(Ready(pending, b), out, last, b.watermark);
      if tail == [] { assert left == Later(pending, b); }
    }
  }

  lemma {:induction false} MergeLossless(pending: seq<Captured>, batches: seq<Batch>)
    ensures var (out, left) := Emitted(pending, batches);
            multiset(out) + multiset(left) == multiset(pending) + Arrived(batches)
    decreases |batches|
  {
    hide Merged, ReadyCount;
    if batches != [] {
      var b, tail := batches[0], batches[1..];
      AllKept(pending, b);
      CountSpec(Merged(pending, b), b.watermark);
      assert Merged(pending, b) == Ready(pending, b) + Later(pending, b);
      MergeLossless(Later(pending, b), tail);
      var (out, left) := Emitted(Later(pending, b), tail);
      assert multiset(Ready(pending, b) + out) == multiset(Ready(pending, b)) + multiset(out);
      Regroup(multiset(Ready(pending, b)), multiset(Later(pending, b)), multiset(pending), multiset(b.pen), multiset(b.touch),
              multiset(out), multiset(left), Arrived(tail));
    }
  }

  /** Captured input is ordered and lossless: over any run of rounds the due
      reports come out in nondecreasing time, and together with those still
      waiting they are exactly the reports that arrived. */
  lemma MergeOrdered(pending: seq<Captured>, batches: seq<Batch>, last: int)
    requires AllAfter(pending, last) && Readable(batches, last)
    ensures var (out, left) := Emitted(pending, batches);
            && Sorted(out) && AllAfter(out, last)
            && multiset(out) + multiset(left) == multiset(pending) + Arrived(batches)
            && (batches != [] ==> AllAfter(left, batches[|batches| - 1].watermark))
  {
    hide Emitted, Sorted, AllAfter, Readable;
    MergeSorted(pending, batches, last);
    MergeLossless(pending, batches);
  }

  lemma Regroup(ready: multiset<Captured>, later: multiset<Captured>, pending: multiset<Captured>, pen: multiset<Captured>,
                touch: multiset<Captured>, out: multiset<Captured>, left: multiset<Captured>, arrived: multiset<Captured>)
    requires ready + later == pending + pen + touch
    requires out + left == later + arrived
    ensures ready + out + left == pending + (pen + touch + arrived)
  {
    assert ready + (out + left) == ready + (later + arrived);
    assert ready + out + left == ready + (out + left);
    assert ready + (later + arrived) == (ready + later) + arrived;
  }

  /** Taking the origin off keeps the order. */
  lemma {:induction false} SinceSorted(s: seq<Captured>, origin: nat)
    requires Sorted(s)
    ensures Sorted(Since(s, origin))
    ensures forall k :: 0 <= k < |Since(s, origin)| ==> Since(s, origin)[k].time + origin <= s[|s| - 1].time
  {
    if s != [] {
      SinceSorted(s[..|s| - 1], origin);
      if |s| > 1 { assert s[|s| - 2].time <= s[|s| - 1].time; }
    }
  }

  lemma {:induction false} SinceConcat(a: seq<Captured>, b: seq<Captured>, origin: nat)
    ensures Since(a + b, origin) == Since(a, origin) + Since(b, origin)
  {
    if b == [] {
      assert a + b == a;
    } else {
      var n := |b| - 1;
      assert (a + b)[..|a + b| - 1] == a + b[..n];
      SinceConcat(a, b[..n], origin);
    }
  }

  /** What the rounds push into the queue. */
  function Pushed(pending: seq<Captured>, batches: seq<Batch>, origin: nat): seq<Captured>
    decreases |batches|
  {
    if batches == [] then []
    else Since(Ready(pending, batches[0]), origin) + Pushed(Later(pending, batches[0]), batches[1..], origin)
  }

  /** The reports reach the session in nondecreasing session time, and are the
      emitted ones without those older than the connection. */
  lemma {:induction false} PushedInOrder(pending: seq<Captured>, batches: seq<Batch>, last: int, origin: nat)
    requires AllAfter(pending, last) && Readable(batches, last)
    ensures Pushed(pending, batches, origin) == Since(Emitted(pending, batches).0, origin)
    ensures Sorted(Pushed(pending, batches, origin))
    decreases |batches|
  {
    hide Merged, ReadyCount, Ready, Later, Sorted, AllAfter, Since;
    MergeOrdered(pending, batches, last);
    SinceSorted(Emitted(pending, batches).0, origin);
    if batches == [] {
      SinceEmpty(origin);
    } else {
      RoundOrders(pending, batches[0], last);
      PushedInOrder(Later(pending, batches[0]), batches[1..], batches[0].watermark, origin);
      SinceConcat(Ready(pending, batches[0]), Emitted(Later(pending, batches[0]), batches[1..]).0, origin);
    }
  }

  // ------------------------------------------------------------ the bounded queue

  datatype Op = PushOp(r: Captured) | DrainOp | StopOp | AbortOp(time: nat)

  datatype History = History(q: Queue, drained: seq<Captured>, appended: seq<Captured>)

  /** A run of pushes and drains, with everything ever drained and appended. */
  function Do(h: History, op: Op): History {
    match op
    case PushOp(r) =>
      var (q, _) := Push(h.q, r);
      History(q, h.drained, h.appended + q.items[|h.q.items|..])
    case DrainOp => History(h.q.(items := []), h.drained + h.q.items, h.appended)
    case StopOp => h.(q := h.q.(stopped := true))
    case AbortOp(time) =>
      var q := Abort(h.q, time);
      History(q, h.drained, h.appended + q.items[|h.q.items|..])
  }

  function DoAll(h: History, ops: seq<Op>): History
    decreases |ops|
  {
    if ops == [] then h else DoAll(Do(h, ops[0]), ops[1..])
  }

  predicate HasFault(s: seq<Captured>) {
    exists k :: 0 <= k < |s| && s[k].report == Fault
  }

  predicate QueueInv(h: History) {
    && h.drained + h.q.items == h.appended
    && |h.q.items| <= CAPACITY + 1
    && (!h.q.stopped ==> |h.q.items| <= CAPACITY && !HasFault(h.appended))
    && (h.appended != [] ==> !HasFault(h.appended[..|h.appended| - 1]))
  }

  predicate Reports(ops: seq<Op>) {
    forall k :: 0 <= k < |ops| ==> ops[k].PushOp? ==> ops[k].r.report != Fault
  }

  lemma AppendFaultFree(s: seq<Captured>, r: Captured)
    requires !HasFault(s)
    ensures (s + [r])[..|s + [r]| - 1] == s
    ensures r.report != Fault ==> !HasFault(s + [r])
  {
    assert (s + [r])[..|s|] == s;
  }

  lemma DoInv(h: History, op: Op)
    requires QueueInv(h) && (op.PushOp? ==> op.r.report != Fault)
    ensures QueueInv(Do(h, op))
  {
    hide HasFault;
    var t := Do(h, op);
    if op.PushOp? && !h.q.stopped {
      var r := if |h.q.items| == CAPACITY then Captured(op.r.time, Fault) else op.r;
      assert t.q.items[|h.q.items|..] == [r];
      AppendFaultFree(h.appended, r);
    } else if op.AbortOp? && !h.q.stopped {
      assert t.q.items[|h.q.items|..] == [Captured(op.time, Fault)];
      AppendFaultFree(h.appended, Captured(op.time, Fault));
    } else if op.DrainOp? {
      assert h.drained + h.q.items + [] == h.drained + h.q.items;
    } else {
      assert t.q.items[|h.q.items|..] == [];
      assert h.appended + [] == h.appended;
    }
  }

  /** Lossless and bounded: over any run of pushes, drains and stops, what was
      drained and what is queued are exactly the accepted reports in order; the
      queue holds at most one entry above its capacity; and a fault is appended
      at most once, as the last entry, after which nothing is accepted. */
  lemma {:induction false} QueueLossless(h: History, ops: seq<Op>)
    requires QueueInv(h) && Reports(ops)
    ensures var t := DoAll(h, ops);
            && t.drained + t.q.items == t.appended
            && |t.q.items| <= CAPACITY + 1
            && (t.appended != [] ==> !HasFault(t.appended[..|t.appended| - 1]))
            && (HasFault(t.appended) ==> t.q.stopped)
            && h.appended <= t.appended
    decreases |ops|
  {
    hide HasFault;
    if ops != [] {
      DoInv(h, ops[0]);
      assert h.appended <= Do(h, ops[0]).appended;
      QueueLossless(Do(h, ops[0]), ops[1..]);
    }
  }

  // -------------------------------------------------- the reader and the session

  /** The reader between two steps: reports waiting for a watermark, reports of the
      last round not pushed yet, and whether its loop still runs; beside it all that
      the session drained and all rounds that were read. */
  datatype Reader = Reader(
    q: Queue,
    pending: seq<Captured>,
    outbox: seq<Captured>,
    running: bool,
    drained: seq<Captured>,
    read: seq<Batch>)

  /** The steps of both threads, in any order: a round is read, its reports are
      pushed one by one, a device fails; the session drains or stops. */
  datatype Act =
    | Read(batch: Batch, now: nat)
    | PushNext
    | DeviceFails(now: nat)
    | DrainAll
    | StopNow

  function Aborted(h: Reader, now: nat): Reader {
    h.(q := Abort(h.q, now), running := false)
  }

  function Move(h: Reader, act: Act, origin: nat): Reader {
    match act
    case Read(b, now) =>
      if !h.running || h.outbox != [] then h
      else if |h.pending + b.pen + b.touch| > CAPACITY then Aborted(h, now)
      else h.(outbox := Since(Ready(h.pending, b), origin), pending := Later(h.pending, b), read := h.read + [b])
    case PushNext =>
      if !h.running || h.outbox == [] then h
      else
        var (q, ok) := Push(h.q, h.outbox[0]);
        if ok then h.(q := q, outbox := h.outbox[1..]) else h.(q := q, running := false)
    case DeviceFails(now) => if !h.running || h.outbox != [] then h else Aborted(h, now)
    case DrainAll => h.(q := h.q.(items := []), drained := h.drained + h.q.items)
    case StopNow => h.(q := h.q.(stopped := true))
  }

  function MoveAll(h: Reader, acts: seq<Act>, origin: nat): Reader
    decreases |acts|
  {
    if acts == [] then h else MoveAll(Move(h, acts[0], origin), acts[1..], origin)
  }

  function ReadsOf(acts: seq<Act>): seq<Batch> {
    if acts == [] then []
    else (if acts[0].Read? then [acts[0].batch] else []) + ReadsOf(acts[1..])
  }

  /** A prefix of what is due, perhaps with one fault at its end. */
  predicate Delivered(got: seq<Captured>, due: seq<Captured>) {
    got <= due || (got != [] && got[|got| - 1].report == Fault && got[..|got| - 1] <= due)
  }

  function Due(start: seq<Captured>, read: seq<Batch>, origin: nat): seq<Captured> {
    Since(Emitted(start, read).0, origin)
  }

  predicate ReaderInv(h: Reader, start: seq<Captured>, origin: nat) {
    && Delivered(h.drained + h.q.items, Due(start, h.read, origin))
    && |h.q.items| <= CAPACITY + 1
    && (!h.q.stopped ==> |h.q.items| <= CAPACITY)
    && (h.running ==>
          && h.drained + h.q.items + h.outbox == Due(start, h.read, origin)
          && Emitted(start, h.read).1 == h.pending)
  }

  lemma {:induction false} EmittedSnoc(start: seq<Captured>, batches: seq<Batch>, b: Batch)
    ensures var (out, left) := Emitted(start, batches);
            Emitted(start, batches + [b]) == (out + Ready(left, b), Later(left, b))
    decreases |batches|
  {
    hide Merged, Ready, Later;
    if batches == [] {
      assert [b][1..] == [];
      assert Emitted(Later(start, b), []) == ([], Later(start, b));
      assert Ready(start, b) + [] == [] + Ready(start, b);
    } else {
      var next := Later(start, batches[0]);
      EmittedSnoc(next, batches[1..], b);
      assert (batches + [b])[1..] == batches[1..] + [b];
      var (out, left) := Emitted(next, batches[1..]);
      assert Ready(start, batches[0]) + (out + Ready(left, b)) == Ready(start, batches[0]) + out + Ready(left, b);
    }
  }

  lemma EndsInFault(got: seq<Captured>, due: seq<Captured>, r: Captured)
    requires got <= due && r.report == Fault
    ensures Delivered(got + [r], due)
  {
    assert (got + [r])[..|got|] == got;
  }

  lemma AbortedInv(h: Reader, now: nat, start: seq<Captured>, origin: nat)
    requires ReaderInv(h, start, origin) && h.running && h.outbox == []
    ensures ReaderInv(Aborted(h, now), start, origin)
  {
    hide Due, Emitted;
    var t := Aborted(h, now);
    var got := h.drained + h.q.items;
    assert got + [] == got;
    if !h.q.stopped {
      EndsInFault(got, got, Captured(now, Fault));
      assert t.drained + t.q.items == got + [Captured(now, Fault)];
    }
  }

  lemma PushNextInv(h: Reader, start: seq<Captured>, origin: nat)
    requires ReaderInv(h, start, origin) && h.running && h.outbox != []
    ensures ReaderInv(Move(h, PushNext, origin), start, origin)
  {
    hide Due, Emitted;
    var t := Move(h, PushNext, origin);
    var got, due := h.drained + h.q.items, Due(start, h.read, origin);
    assert due == got + h.outbox;
    var (q, ok) := Push(h.q, h.outbox[0]);
    if ok {
      assert t.drained + t.q.items == got + [h.outbox[0]];
      assert due == (got + [h.outbox[0]]) + h.outbox[1..];
    } else if !h.q.stopped {
      EndsInFault(got, due, Captured(h.outbox[0].time, Fault));
      assert t.drained + t.q.items == got + [Captured(h.outbox[0].time, Fault)];
    }
  }

  lemma ReadInv(h: Reader, b: Batch, now: nat, start: seq<Captured>, origin: nat)
    requires ReaderInv(h, start, origin) && h.running && h.outbox == []
    ensures ReaderInv(Move(h, Read(b, now), origin), start, origin)
  {
    hide Merged, Ready, Later, Emitted, Since;
    if |h.pending + b.pen + b.touch| > CAPACITY {
      AbortedInv(h, now, start, origin);
    } else {
      var t := Move(h, Read(b, now), origin);
      EmittedSnoc(start, h.read, b);
      SinceConcat(Emitted(start, h.read).0, Ready(h.pending, b), origin);
      assert h.drained + h.q.items + [] == h.drained + h.q.items;
      assert Due(start, t.read, origin) == (t.drained + t.q.items) + t.outbox;
    }
  }

  lemma MoveInv(h: Reader, act: Act, start: seq<Captured>, origin: nat)
    requires ReaderInv(h, start, origin)
    ensures ReaderInv(Move(h, act, origin), start, origin)
  {
    hide Due, Emitted, Push, Merged;
    match act
    case Read(b, now) => if h.running && h.outbox == [] { ReadInv(h, b, now, start, origin); }
    case PushNext => if h.running && h.outbox != [] { PushNextInv(h, start, origin); }
    case DeviceFails(now) => if h.running && h.outbox == [] { AbortedInv(h, now, start, origin); }
    case DrainAll =>
      var t := Move(h, act, origin);
      assert t.drained + t.q.items == h.drained + h.q.items;
    case StopNow =>
  }

  /** Readable rounds stay so when some are left out. */
  lemma {:induction false} ReadableEarlier(batches: seq<Batch>, last: int, earlier: int)
    requires Readable(batches, last) && earlier <= last
    ensures Readable(batches, earlier)
  {
    if batches != [] {
      assert AllAfter(batches[0].pen, earlier) && AllAfter(batches[0].touch, earlier);
    }
  }

  lemma {:induction false} ReadableSkip(before: seq<Batch>, b: Batch, rest: seq<Batch>, last: int)
    requires Readable(before + [b] + rest, last)
    ensures Readable(before + rest, last)
    decreases |before|
  {
    hide AllAfter;
    if before == [] {
      assert ([] + [b] + rest)[1..] == rest;
      ReadableEarlier(rest, b.watermark, last);
      assert before + rest == rest;
    } else {
      assert (before + [b] + rest)[1..] == before[1..] + [b] + rest;
      assert (before + rest)[1..] == before[1..] + rest;
      ReadableSkip(before[1..], b, rest, before[0].watermark);
    }
  }

  lemma {:induction false} ReadableFront(front: seq<Batch>, rest: seq<Batch>, last: int)
    requires Readable(front + rest, last)
    ensures Readable(front, last)
    decreases |front|
  {
    hide AllAfter;
    if front != [] {
      assert (front + rest)[1..] == front[1..] + rest;
      ReadableFront(front[1..], rest, front[0].watermark);
    }
  }

  lemma {:induction false} ReaderRun(h: Reader, acts: seq<Act>, start: seq<Captured>, last: int, origin: nat)
    requires ReaderInv(h, start, origin) && Readable(h.read + ReadsOf(acts), last)
    ensures var t := MoveAll(h, acts, origin); ReaderInv(t, start, origin) && Readable(t.read, last)
    decreases |acts|
  {
    hide ReaderInv, Merged, Ready, Later, Since;
    if acts == [] {
      ReadableFront(h.read, [], last);
    } else {
      var t := Move(h, acts[0], origin);
      MoveInv(h, acts[0], start, origin);
      var rest := ReadsOf(acts[1..]);
      if acts[0].Read? {
        var b := acts[0].batch;
        assert h.read + ([b] + rest) == h.read + [b] + rest;
        if t.read == h.read { ReadableSkip(h.read, b, rest, last); }
      } else {
        assert [] + rest == rest;
      }
      ReaderRun(t, acts[1..], start, last, origin);
    }
  }

  /** Reports of devices, none of them a fault. */
  predicate Real(s: seq<Captured>) {
    forall k :: 0 <= k < |s| ==> s[k].report != Fault
  }

  predicate RealBatches(batches: seq<Batch>) {
    forall k :: 0 <= k < |batches| ==> Real(batches[k].pen) && Real(batches[k].touch)
  }

  lemma RoundReal(pending: seq<Captured>, b: Batch)
    requires Real(pending) && Real(b.pen) && Real(b.touch)
    ensures Real(Ready(pending, b)) && Real(Later(pending, b))
  {
    hide Merged, ReadyCount;
    var merged := Merged(pending, b);
    AllKept(pending, b);
    CountSpec(merged, b.watermark);
    forall k | 0 <= k < |merged| ensures merged[k].report != Fault {
      assert merged[k] in multiset(merged);
      assert merged[k] in pending || merged[k] in b.pen || merged[k] in b.touch;
    }
  }

  lemma {:induction false} EmittedReal(pending: seq<Captured>, batches: seq<Batch>)
    requires Real(pending) && RealBatches(batches)
    ensures Real(Emitted(pending, batches).0)
    decreases |batches|
  {
    hide Merged, Ready, Later;
    if batches != [] {
      RoundReal(pending, batches[0]);
      EmittedReal(Later(pending, batches[0]), batches[1..]);
    }
  }

  lemma {:induction false} SinceReal(s: seq<Captured>, origin: nat)
    requires Real(s)
    ensures Real(Since(s, origin))
  {
    if s != [] {
      SinceReal(s[..|s| - 1], origin);
    }
  }

  /** Of what is delivered only the last entry can be a fault. */
  lemma DeliveredFaults(got: seq<Captured>, due: seq<Captured>)
    requires Delivered(got, due) && Real(due)
    ensures forall k :: 0 <= k < |got| - 1 ==> got[k].report != Fault
    ensures Real(got) <==> got <= due
  {
    forall k | 0 <= k < |got| && (got <= due || k < |got| - 1) ensures got[k].report != Fault {
      assert k < |due| && got[k] == due[k];
    }
  }

  lemma RealConcat(a: seq<Batch>, b: seq<Batch>)
    ensures RealBatches(a + b) <==> RealBatches(a) && RealBatches(b)
  {
    hide Real;
    var c := a + b;
    assert forall k :: 0 <= k < |a| ==> a[k] == c[k];
    assert forall k :: 0 <= k < |b| ==> b[k] == c[|a| + k];
  }

  /** A step adds at most the round it reads. */
  lemma MoveReads(h: Reader, act: Act, origin: nat)
    ensures var t := Move(h, act, origin); t.read == h.read || (act.Read? && t.read == h.read + [act.batch])
  {
    hide Since, Ready, Later, Push;
  }

  lemma {:induction false} ReadSubset(h: Reader, acts: seq<Act>, origin: nat)
    requires RealBatches(h.read) && RealBatches(ReadsOf(acts))
    ensures RealBatches(MoveAll(h, acts, origin).read)
    decreases |acts|
  {
    hide Move, RealBatches;
    if acts != [] {
      var front := if acts[0].Read? then [acts[0].batch] else [];
      RealConcat(front, ReadsOf(acts[1..]));
      RealConcat(h.read, front);
      MoveReads(h, acts[0], origin);
      ReadSubset(Move(h, acts[0], origin), acts[1..], origin);
    }
  }

  function StartReader(): Reader {
    Reader(Queue([], false, false), [], [], true, [], [])
  }

  /** Captured input is ordered and lossless, end to end: in every interleaving of
      rounds, single pushes, device failures, drains and stops, what the session
      drained and what is queued are a prefix of the due reports, which are in
      nondecreasing time, with at most one fault, at the end, and none while the
      reader runs; the due and waiting reports are exactly those that arrived;
      nothing is missing while the reader runs; and the queue never holds more than
      one entry above its capacity. */
  lemma CapturedInOrder(acts: seq<Act>, last: int, origin: nat)
    requires Readable(ReadsOf(acts), last) && RealBatches(ReadsOf(acts))
    ensures var t := MoveAll(StartReader(), acts, origin);
            var (emitted, waiting) := Emitted([], t.read);
            var due := Since(emitted, origin);
            var got := t.drained + t.q.items;
            && Delivered(got, due)
            && Sorted(due)
            && (forall k :: 0 <= k < |got| - 1 ==> got[k].report != Fault)
            && (Real(got) <==> got <= due)
            && (t.running ==> Real(got))
            && multiset(emitted) + multiset(waiting) == Arrived(t.read)
            && (t.running ==> t.drained + t.q.items + t.outbox == due && t.pending == waiting)
            && |t.q.items| <= CAPACITY + 1
  {
    hide Emitted, Sorted, Since, MoveAll, Real, RealBatches;
    var h := StartReader();
    assert RealBatches(h.read) && Real([]) by { NothingReal(); }
    ReadSubset(h, acts, origin);
    StartInv(origin);
    assert h.read + ReadsOf(acts) == ReadsOf(acts);
    ReaderRun(h, acts, [], last, origin);
    var t := MoveAll(h, acts, origin);
    NoneAfter(last);
    MergeOrdered([], t.read, last);
    SinceSorted(Emitted([], t.read).0, origin);
    EmittedReal([], t.read);
    SinceReal(Emitted([], t.read).0, origin);
    DeliveredFaults(t.drained + t.q.items, Due([], t.read, origin));
    if t.running {
      assert t.drained + t.q.items <= Due([], t.read, origin);
    }
  }

  lemma NothingReal()
    ensures RealBatches([]) && Real([])
  {
  }

  lemma StartInv(origin: nat)
    ensures ReaderInv(StartReader(), [], origin)
  {
    hide Merged;
  }

  function Pushes(n: nat): seq<Act> {
    seq(n, _ => PushNext)
  }

  /** A round of the reader is such a run without interruption: the read, then one
      push for each report that is due. */
  lemma {:induction false} PushesAreRound(h: Reader, origin: nat)
    requires h.running
    ensures var t := MoveAll(h, Pushes(|h.outbox|), origin);
            (t.q, t.running) == PushAll(h.q, h.outbox) && t.pending == h.pending && t.drained == h.drained
    decreases |h.outbox|
  {
    hide Push;
    if h.outbox != [] {
      var acts := Pushes(|h.outbox|);
      var t := Move(h, PushNext, origin);
      assert acts[1..] == Pushes(|h.outbox| - 1);
      if t.running {
        PushesAreRound(t, origin);
      } else {
        StoppedStays(t, acts[1..], origin);
      }
    }
  }

  lemma {:induction false} StoppedStays(h: Reader, acts: seq<Act>, origin: nat)
    requires !h.running && forall k :: 0 <= k < |acts| ==> acts[k] == PushNext
    ensures MoveAll(h, acts, origin) == h
    decreases |acts|
  {
    if acts != [] {
      StoppedStays(h, acts[1..], origin);
    }
  }
}
