/** The five-finger cleanup gesture: which contacts the producer sees, and when
    they are taken back. */
module Gesture {
  datatype Phase = Down | Move | Up | Cancel

  datatype Event = Event(phase: Phase, contact: nat, x: nat, y: nat)

  type Contacts = map<nat, (nat, nat)>

  datatype State = State(active: Contacts, forwarded: Contacts, suppressed: bool)

  datatype Result = Result(forward: seq<Event>, cancelled: seq<Event>, cleanup: bool)

  const CHORD: nat := 5

  function ApplyEvent(m: Contacts, e: Event): Contacts {
    if e.phase == Down || e.phase == Move then m[e.contact := (e.x, e.y)] else m - {e.contact}
  }

  function Apply(m: Contacts, report: seq<Event>): Contacts {
    if report == [] then m else ApplyEvent(Apply(m, report[..|report| - 1]), report[|report| - 1])
  }

  // ------------------------------------------------------------ in key order

  lemma LeastExists(s: set<nat>)
    requires s != {}
    ensures exists k :: k in s && forall j :: j in s ==> k <= j
    decreases |s|
  {
    var x :| x in s;
    if y :| y in s && y < x {
      assert y in s - {x};
      LeastExists(s - {x});
      var k :| k in s - {x} && forall j :: j in s - {x} ==> k <= j;
      forall j | j in s ensures k <= j {
        if j != x { assert j in s - {x}; }
      }
    } else {
      assert forall j :: j in s ==> x <= j;
    }
  }

  function Least(s: set<nat>): (k: nat)
    requires s != {}
    ensures k in s && forall j :: j in s ==> k <= j
  {
    LeastExists(s);
    var k :| k in s && forall j :: j in s ==> k <= j;
    k
  }

  /** A cancellation for every contact of the set, lowest first, at its latest
      position. */
  function Cancels(contacts: set<nat>, forwarded: Contacts, active: Contacts): (r: seq<Event>)
    requires contacts <= forwarded.Keys
    ensures |r| == |contacts|
  {
    if contacts == {} then []
    else
      var k := Least(contacts);
      var at := if k in active then active[k] else forwarded[k];
      [Event(Cancel, k, at.0, at.1)] + Cancels(contacts - {k}, forwarded, active)
  }

  // --------------------------------------------------------------- operations

  function Transition(s: State): (State, seq<Event>) {
    (State(s.active, map[], s.suppressed || s.active != map[]), Cancels(s.forwarded.Keys, s.forwarded, map[]))
  }

  function Process(s: State, report: seq<Event>, forwardOn: bool, cleanupOn: bool): (State, Result) {
    var active := Apply(s.active, report);
    if s.suppressed then
      (if active == map[] then State(active, map[], false) else State(active, s.forwarded, true), Result([], [], false))
    else if |active| >= CHORD then
      (State(active, map[], true), Result([], Cancels(s.forwarded.Keys, s.forwarded, active), cleanupOn))
    else if !forwardOn then (State(active, s.forwarded, false), Result([], [], false))
    else (State(active, Apply(s.forwarded, report), false), Result(report, [], false))
  }

  class FiveFingerCleanupGesture {
    var active: Contacts
    var forwarded: Contacts
    var suppressUntilClear: bool

    ghost function View(): State
      reads this
    {
      State(active, forwarded, suppressUntilClear)
    }

    constructor ()
      ensures View() == State(map[], map[], false)
    {
      active, forwarded, suppressUntilClear := map[], map[], false;
    }

    method CancelAll(contacts: Contacts, positions: Contacts) returns (cancelled: seq<Event>)
      ensures cancelled == Cancels(contacts.Keys, contacts, positions)
    {
      cancelled := [];
      var left := contacts.Keys;
      while left != {}
        invariant left <= contacts.Keys
        invariant Cancels(contacts.Keys, contacts, positions) == cancelled + Cancels(left, contacts, positions)
        decreases |left|
      {
        var k := Least(left);
        var at := if k in positions then positions[k] else contacts[k];
        cancelled := cancelled + [Event(Cancel, k, at.0, at.1)];
        left := left - {k};
      }
    }

    method SurfaceTransition() returns (cancelled: seq<Event>)
      modifies this
      ensures (View(), cancelled) == Transition(old(View()))
    {
      cancelled := CancelAll(forwarded, map[]);
      forwarded := map[];
      if active != map[] {
        suppressUntilClear := true;
      }
    }

    /** The contacts after the events of a report. */
    method Follow(contacts: Contacts, report: seq<Event>) returns (m: Contacts)
      ensures m == Apply(contacts, report)
    {
      m := contacts;
      for k := 0 to |report|
        invariant m == Apply(contacts, report[..k])
      {
        assert report[..k + 1][..k] == report[..k];
        if report[k].phase == Down || report[k].phase == Move {
          m := m[report[k].contact := (report[k].x, report[k].y)];
        } else {
          m := m - {report[k].contact};
        }
      }
      assert report[..|report|] == report;
    }

    method ProcessReport(report: seq<Event>, forwardOn: bool, cleanupOn: bool) returns (result: Result)
      modifies this
      ensures (View(), result) == Process(old(View()), report, forwardOn, cleanupOn)
    {
      hide Apply, Cancels;
      active := Follow(active, report);
      if suppressUntilClear {
        if active == map[] {
          suppressUntilClear, forwarded := false, map[];
        }
        return Result([], [], false);
      }
      if |active| >= CHORD {
        suppressUntilClear := true;
        var cancelled := CancelAll(forwarded, active);
        forwarded := map[];
        return Result([], cancelled, cleanupOn);
      }
      if forwardOn {
        forwarded := Follow(forwarded, report);
        return Result(report, [], false);
      }
      return Result([], [], false);
    }
  }

  // ------------------------------------------------------------------ streams

  /** The contacts open after a stream of events, if each contact went down
      before it moved and was lifted or cancelled at most once. */
  function Open(down: set<nat>, stream: seq<Event>): (set<nat>, bool) {
    if stream == [] then (down, true)
    else
      var (before, ok) := Open(down, stream[..|stream| - 1]);
      var e := stream[|stream| - 1];
      if e.phase == Down then (before + {e.contact}, ok && e.contact !in before)
      else if e.phase == Move then (before, ok && e.contact in before)
      else (before - {e.contact}, ok && e.contact in before)
  }

  /** The stream keeps every contact's Down, Move*, then Up or Cancel. */
  predicate Legal(down: set<nat>, stream: seq<Event>) {
    Open(down, stream).1
  }

  /** The recognizer in its session: whether the local menu is shown, and whether
      the surface takes touch input. */
  datatype Mode = Mode(g: State, menu: bool, forwardOn: bool)

  datatype Step =
    | Touch(report: seq<Event>, early: bool, cleanupOn: bool)
    | Switch(menu: bool, forwardOn: bool)

  /** One step of the session: a report, perhaps stamped before the surface accepts
      input; or a change of surface or of the menu, which is a surface transition. */
  function Next(m: Mode, step: Step): (Mode, seq<Event>, bool) {
    match step
    case Touch(report, early, cleanupOn) =>
      if early then
        var (t, r) := Process(m.g, report, false, false);
        var (u, cancelled) := Transition(t);
        (m.(g := u), r.cancelled + cancelled, false)
      else if m.menu then (m.(g := Process(m.g, report, false, false).0), [], false)
      else
        var (t, r) := Process(m.g, report, m.forwardOn, cleanupOn);
        (m.(g := t), r.cancelled + r.forward, r.cleanup)
    case Switch(menu, forwardOn) =>
      var (t, cancelled) := Transition(m.g);
      (Mode(t, menu, forwardOn), cancelled, false)
  }

  /** What the panel reports is well formed for the contacts on it. */
  predicate WellFormed(m: Mode, step: Step) {
    step.Touch? ==> Legal(m.g.active.Keys, step.report)
  }

  /** Where touch is forwarded the producer sees exactly the contacts on the panel;
      elsewhere, and until the panel is clear, it sees none. */
  predicate Inv(m: Mode) {
    if m.g.suppressed then m.g.forwarded == map[] && m.g.active != map[]
    else if m.menu || !m.forwardOn then m.g.forwarded == map[]
    else m.g.forwarded.Keys == m.g.active.Keys
  }

  lemma {:induction false} ApplyKeys(m: Contacts, report: seq<Event>)
    requires Legal(m.Keys, report)
    ensures Apply(m, report).Keys == Open(m.Keys, report).0
  {
    if report != [] {
      ApplyKeys(m, report[..|report| - 1]);
    }
  }

  lemma {:induction false} OpenConcat(down: set<nat>, a: seq<Event>, b: seq<Event>)
    ensures var (mid, ok) := Open(down, a);
            Open(down, a + b) == (Open(mid, b).0, ok && Open(mid, b).1)
    decreases |b|
  {
    if b == [] {
      assert a + b == a;
    } else {
      var n := |b| - 1;
      OpenConcat(down, a, b[..n]);
      assert (a + b)[..|a + b| - 1] == a + b[..n];
      assert (a + b)[|a + b| - 1] == b[n];
    }
  }

  /** The cancellations close every contact of the set, and each one once. */
  lemma {:induction false} CancelsClose(contacts: set<nat>, forwarded: Contacts, active: Contacts)
    requires contacts <= forwarded.Keys
    ensures Open(contacts, Cancels(contacts, forwarded, active)) == ({}, true)
    decreases contacts
  {
    if contacts != {} {
      var k := Least(contacts);
      var rest := Cancels(contacts - {k}, forwarded, active);
      CancelsClose(contacts - {k}, forwarded, active);
      var head := Cancels(contacts, forwarded, active)[0];
      assert [head][..0] == [];
      assert Open(contacts, []) == (contacts, true);
      assert Open(contacts, [head]) == (contacts - {k}, true);
      OpenConcat(contacts, [head], rest);
    }
  }

  /** Every step emits a legal continuation of what the producer has seen. */
  lemma StepLegal(m: Mode, step: Step)
    requires Inv(m) && WellFormed(m, step)
    ensures var (t, out, cleanup) := Next(m, step);
            Inv(t) && Open(m.g.forwarded.Keys, out) == (t.g.forwarded.Keys, true)
  {
    hide Apply, Cancels, Open;
    var s := m.g;
    OpenNothing(s.forwarded.Keys);
    OpenNothing({});
    CancelsClose(s.forwarded.Keys, s.forwarded, map[]);
    assert Next(m, step).0.g.forwarded == map[] ==> Next(m, step).0.g.forwarded.Keys == {};
    if step.Touch? {
      var active := Apply(s.active, step.report);
      CancelsClose(s.forwarded.Keys, s.forwarded, active);
      NothingAdded(Cancels(s.forwarded.Keys, s.forwarded, active));
      if step.early {
        var (t, r) := Process(s, step.report, false, false);
        CancelsNone(map[], map[]);
        NothingAdded(r.cancelled);
        NothingAdded(Cancels(t.forwarded.Keys, t.forwarded, map[]));
      } else {
        ApplyKeys(s.active, step.report);
        if !s.suppressed && !m.menu && m.forwardOn { ApplyKeys(s.forwarded, step.report); }
        NothingAdded(step.report);
      }
    }
  }

  lemma OpenNothing(down: set<nat>)
    ensures Open(down, []) == (down, true)
  {
  }

  lemma CancelsNone(forwarded: Contacts, active: Contacts)
    ensures Cancels({}, forwarded, active) == []
  {
  }

  lemma NothingAdded(events: seq<Event>)
    ensures events + [] == events && [] + events == events
  {
  }

  datatype Trace = Trace(m: Mode, out: seq<Event>, cleanups: nat)

  /** A run of the gesture recognizer and all it emits. */
  function Run(m: Mode, steps: seq<Step>): Trace
    decreases |steps|
  {
    if steps == [] then Trace(m, [], 0)
    else
      var (t, out, cleanup) := Next(m, steps[0]);
      var r := Run(t, steps[1..]);
      Trace(r.m, out + r.out, r.cleanups + if cleanup then 1 else 0)
  }

  predicate RunWellFormed(m: Mode, steps: seq<Step>)
    decreases |steps|
  {
    steps == [] || (WellFormed(m, steps[0]) && RunWellFormed(Next(m, steps[0]).0, steps[1..]))
  }

  /** Trace safety: whatever mix of reports and surface transitions, each
      contact the producer sees goes down once, moves, and is lifted or cancelled
      once; and the contacts it still sees are the forwarded ones. */
  lemma {:induction false} TraceLegal(m: Mode, steps: seq<Step>)
    requires Inv(m) && RunWellFormed(m, steps)
    ensures var r := Run(m, steps);
            Inv(r.m) && Legal(m.g.forwarded.Keys, r.out) && Open(m.g.forwarded.Keys, r.out).0 == r.m.g.forwarded.Keys
    decreases |steps|
  {
    hide Next, Inv, WellFormed, Open;
    if steps == [] {
      OpenNothing(m.g.forwarded.Keys);
    } else {
      StepLegal(m, steps[0]);
      var (t, out, cleanup) := Next(m, steps[0]);
      TraceLegal(t, steps[1..]);
      OpenConcat(m.g.forwarded.Keys, out, Run(t, steps[1..]).out);
    }
  }

  predicate NeverClear(m: Mode, steps: seq<Step>)
    decreases |steps|
  {
    steps == [] || (Next(m, steps[0]).0.g.active != map[] && NeverClear(Next(m, steps[0]).0, steps[1..]))
  }

  lemma SuppressedStep(m: Mode, step: Step)
    requires Inv(m) && m.g.suppressed && Next(m, step).0.g.active != map[]
    ensures var (t, out, cleanup) := Next(m, step); t.g.suppressed && out == [] && !cleanup
  {
    hide Apply, Least;
    CancelsNone(map[], map[]);
  }

  /** After the chord, nothing is forwarded and no further cleanup is requested
      until all contacts have left the panel. */
  lemma {:induction false} SuppressedUntilClear(m: Mode, steps: seq<Step>)
    requires Inv(m) && m.g.suppressed && RunWellFormed(m, steps) && NeverClear(m, steps)
    ensures var r := Run(m, steps); r.m.g.suppressed && r.out == [] && r.cleanups == 0
    decreases |steps|
  {
    hide Next, Inv, WellFormed;
    if steps != [] {
      StepLegal(m, steps[0]);
      SuppressedStep(m, steps[0]);
      SuppressedUntilClear(Next(m, steps[0]).0, steps[1..]);
    }
  }

  /** Reports of fewer than five contacts, on a surface that takes touch and with
      no menu. */
  predicate Plain(m: Mode, steps: seq<Step>)
    decreases |steps|
  {
    steps == [] || (steps[0].Touch? && !steps[0].early && |Next(m, steps[0]).0.g.active| < 5
                    && Plain(Next(m, steps[0]).0, steps[1..]))
  }

  function Reports(steps: seq<Step>): seq<Event> {
    if steps == [] then []
    else (match steps[0] case Touch(report, _, _) => report case Switch(_, _) => []) + Reports(steps[1..])
  }

  /** As long as fewer than five contacts are down the recognizer is transparent:
      the producer sees every event as it was, in order, and no cleanup. */
  lemma {:induction false} PlainTouchPasses(m: Mode, steps: seq<Step>)
    requires !m.g.suppressed && !m.menu && m.forwardOn && Plain(m, steps)
    ensures var r := Run(m, steps); r.out == Reports(steps) && r.cleanups == 0 && !r.m.g.suppressed
    decreases |steps|
  {
    hide Apply;
    if steps != [] {
      PlainTouchPasses(Next(m, steps[0]).0, steps[1..]);
    }
  }

  /** Reaching five contacts takes every forwarded contact back, exactly once,
      asks for one cleanup if wanted, and suppresses the rest. */
  lemma ChordCancels(s: State, report: seq<Event>, forwardOn: bool, cleanupOn: bool)
    requires !s.suppressed && |Apply(s.active, report)| >= 5
    ensures var (t, r) := Process(s, report, forwardOn, cleanupOn);
            var now := Apply(s.active, report);
            && t.suppressed && t.forwarded == map[]
            && r.forward == [] && r.cleanup == cleanupOn
            && |r.cancelled| == |s.forwarded|
            && (forall e :: e in r.cancelled ==>
                  && e.phase == Cancel
                  && (e.contact in now ==> (e.x, e.y) == now[e.contact])
                  && (e.contact !in now && e.contact in s.forwarded ==> (e.x, e.y) == s.forwarded[e.contact]))
            && Open(s.forwarded.Keys, r.cancelled) == ({}, true)
  {
    hide Apply, Open;
    var active := Apply(s.active, report);
    CancelsClose(s.forwarded.Keys, s.forwarded, active);
    CancelsAre(s.forwarded.Keys, s.forwarded, active);
  }

  lemma {:induction false} CancelsAre(contacts: set<nat>, forwarded: Contacts, active: Contacts)
    requires contacts <= forwarded.Keys
    ensures forall e :: e in Cancels(contacts, forwarded, active) ==>
              && e.phase == Cancel
              && (e.contact in active ==> (e.x, e.y) == active[e.contact])
              && (e.contact !in active && e.contact in forwarded ==> (e.x, e.y) == forwarded[e.contact])
    decreases contacts
  {
    if contacts != {} {
      CancelsAre(contacts - {Least(contacts)}, forwarded, active);
    }
  }
}
