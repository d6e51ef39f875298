/** The Type-B touch parser: kernel events become reports of contacts. */
module TouchParser {
  import opened Geometry
  import opened Tiles
  import G = Gesture

  const MAX_SLOTS: nat := 16

  /** The kernel events the parser reacts to. */
  datatype Raw =
    | SynDropped
    | SelectSlot(value: int)
    | TrackingId(value: int)
    | PositionX(value: int)
    | PositionY(value: int)
    | SynReport
    | Other

  datatype Slot = Slot(
    contact: Option<nat>,
    x: Option<int>,
    y: Option<int>,
    pendingDown: bool,
    pendingUp: bool,
    changed: bool)

  const EMPTY := Slot(None, None, None, false, false, false)

  /** One axis of the device and the panel size it maps to. */
  datatype Axis = Axis(low: int, high: int, size: nat, inverted: bool)

  predicate AxisOk(a: Axis) {
    a.low < a.high && a.size > 0
  }

  function Clamp(v: int, low: int, high: int): int {
    if v < low then low else if v > high then high else v
  }

  lemma MulCancel(a: nat, b: nat, c: nat)
    requires c > 0 && a * c <= b * c
    ensures a <= b
  {
  }

  lemma QuotientIs(n: nat, range: nat, q: nat)
    requires range > 0 && q * range <= n < q * range + range
    ensures n / range == q
  {
    var p := n / range;
    assert p * range <= n < p * range + range;
    MulCancel(q, p + 1, range);
    MulCancel(p, q + 1, range);
    assert p * range < (q + 1) * range && q * range < (p + 1) * range;
  }

  /** Scaling maps the ends of a range to the ends of the panel. */
  lemma ScaledInside(v: nat, range: nat, top: nat)
    requires range > 0 && v <= range
    ensures 0 <= v * top / range <= top
    ensures v == 0 ==> v * top / range == 0
    ensures v == range ==> v * top / range == top
  {
    assert 0 <= v * top <= top * range;
    var q := v * top / range;
    assert q * range <= v * top;
    MulCancel(q, top, range);
    if v == range {
      QuotientIs(v * top, range, top);
    }
  }

  /** A raw position on the panel; the ends of the device axis are the edges. */
  function MapAxis(a: Axis, raw: int): (p: nat)
    requires AxisOk(a)
    ensures p < a.size
    ensures raw <= a.low ==> p == if a.inverted then a.size - 1 else 0
    ensures raw >= a.high ==> p == if a.inverted then 0 else a.size - 1
  {
    ScaledInside(Clamp(raw, a.low, a.high) - a.low, a.high - a.low, a.size - 1);
    var p := (Clamp(raw, a.low, a.high) - a.low) * (a.size - 1) / (a.high - a.low);
    if a.inverted then a.size - 1 - p else p
  }

  /** Between the ends a position is scaled to the whole pixel below it, and an
      inverted axis counts from the other edge. */
  lemma MapAxisScales(a: Axis, raw: int)
    requires AxisOk(a) && a.low <= raw <= a.high
    ensures var p, plain := MapAxis(a, raw), MapAxis(a.(inverted := false), raw);
            && plain * (a.high - a.low) <= (raw - a.low) * (a.size - 1) < (plain + 1) * (a.high - a.low)
            && p == if a.inverted then a.size - 1 - plain else plain
  {
    ScaledBelow((raw - a.low) * (a.size - 1), a.high - a.low);
  }

  lemma ScaledBelow(n: int, range: nat)
    requires range > 0
    ensures n / range * range <= n < (n / range + 1) * range
  {
  }

  /** The axes of a device. */
  datatype Device = Device(horizontal: Axis, vertical: Axis)

  predicate DeviceOk(d: Device) {
    AxisOk(d.horizontal) && AxisOk(d.vertical)
  }

  /** The ranges a device reports, made usable. */
  function Usable(a: Axis): (r: Axis)
    ensures AxisOk(r) && (AxisOk(a) ==> r == a)
  {
    a.(high := if a.high > a.low then a.high else a.low + 1, size := Max(a.size, 1))
  }

  predicate Complete(s: Slot) {
    s.contact.Some? && s.x.Some? && s.y.Some?
  }

  function EventOf(d: Device, phase: G.Phase, s: Slot): G.Event
    requires DeviceOk(d) && Complete(s)
  {
    G.Event(phase, s.contact.value, MapAxis(d.horizontal, s.x.value), MapAxis(d.vertical, s.y.value))
  }

  /** What one slot contributes to a report. */
  function SlotOut(d: Device, s: Slot): seq<G.Event>
    requires DeviceOk(d)
  {
    if !Complete(s) then []
    else if s.pendingDown then [EventOf(d, G.Down, s)]
    else if s.pendingUp then [EventOf(d, G.Up, s)]
    else if s.changed then [EventOf(d, G.Move, s)]
    else []
  }

  function SlotAfter(s: Slot): Slot {
    if s.pendingUp then EMPTY
    else if Complete(s) then s.(pendingDown := false, changed := false)
    else s
  }

  /** What one slot contributes to the report after lost events. */
  function SlotDropped(d: Device, s: Slot): seq<G.Event>
    requires DeviceOk(d)
  {
    if Complete(s) then [EventOf(d, G.Cancel, s)] else []
  }

  function Outs(d: Device, slots: seq<Slot>): seq<G.Event>
    requires DeviceOk(d)
  {
    if slots == [] then [] else Outs(d, slots[..|slots| - 1]) + SlotOut(d, slots[|slots| - 1])
  }

  function Afters(slots: seq<Slot>): (r: seq<Slot>)
    ensures |r| == |slots| && forall k :: 0 <= k < |r| ==> r[k] == SlotAfter(slots[k])
  {
    seq(|slots|, k requires 0 <= k < |slots| => SlotAfter(slots[k]))
  }

  function DroppedOuts(d: Device, slots: seq<Slot>): seq<G.Event>
    requires DeviceOk(d)
  {
    if slots == [] then [] else DroppedOuts(d, slots[..|slots| - 1]) + SlotDropped(d, slots[|slots| - 1])
  }

  datatype State = State(slots: seq<Slot>, current: nat, nextContact: nat, dropped: bool)

  predicate Shaped(p: State) {
    |p.slots| == MAX_SLOTS && p.current < MAX_SLOTS
  }

  function Fresh(): State {
    State(seq(MAX_SLOTS, _ => EMPTY), 0, 1, false)
  }

  function Push(d: Device, p: State, e: Raw): (r: (State, seq<G.Event>))
    requires DeviceOk(d) && Shaped(p)
    ensures Shaped(r.0)
  {
    var slot := p.slots[p.current];
    match e
    case SynDropped => (p.(dropped := true), [])
    case SelectSlot(v) => (p.(current := if v < 0 then 0 else Min(v, MAX_SLOTS - 1)), [])
    case TrackingId(v) =>
      if v >= 0 then
        var id := Max(p.nextContact, 1);
        (p.(slots := p.slots[p.current := EMPTY.(contact := Some(id), pendingDown := true)], nextContact := id + 1), [])
      else if slot.contact.Some? then (p.(slots := p.slots[p.current := slot.(pendingUp := true)]), [])
      else (p, [])
    case PositionX(v) => (p.(slots := p.slots[p.current := slot.(x := Some(v), changed := true)]), [])
    case PositionY(v) => (p.(slots := p.slots[p.current := slot.(y := Some(v), changed := true)]), [])
    case SynReport =>
      if p.dropped then (p.(slots := seq(MAX_SLOTS, _ => EMPTY), dropped := false), DroppedOuts(d, p.slots))
      else (p.(slots := Afters(p.slots)), Outs(d, p.slots))
    case Other => (p, [])
  }

  class TypeBParser {
    const device: Device
    const slots: array<Slot>
    var current: nat
    var nextContact: nat
    var dropped: bool

    ghost predicate Valid()
      reads this, slots
    {
      DeviceOk(device) && slots.Length == MAX_SLOTS && current < MAX_SLOTS
    }

    ghost function View(): State
      reads this, slots
    {
      State(slots[..], current, nextContact, dropped)
    }

    constructor (reported: Device)
      ensures Valid() && fresh(slots) && View() == Fresh()
      ensures device == Device(Usable(reported.horizontal), Usable(reported.vertical))
    {
      device := Device(Usable(reported.horizontal), Usable(reported.vertical));
      slots := new Slot[MAX_SLOTS](_ => EMPTY);
      current, nextContact, dropped := 0, 1, false;
    }

    method PushEvent(e: Raw) returns (out: seq<G.Event>)
      requires Valid()
      modifies this, slots
      ensures Valid() && Shaped(old(View()))
      ensures (View(), out) == Push(device, old(View()), e)
    {
      hide MapAxis, SlotOut, SlotAfter, SlotDropped;
      out := [];
      match e
      case SynDropped => dropped := true;
      case SelectSlot(v) => current := if v < 0 then 0 else Min(v, MAX_SLOTS - 1);
      case TrackingId(v) =>
        if v >= 0 {
          var id := AllocateContact();
          slots[current] := EMPTY.(contact := Some(id), pendingDown := true);
        } else if slots[current].contact.Some? {
          slots[current] := slots[current].(pendingUp := true);
        }
      case PositionX(v) => slots[current] := slots[current].(x := Some(v), changed := true);
      case PositionY(v) => slots[current] := slots[current].(y := Some(v), changed := true);
      case SynReport => out := FinishReport();
      case Other =>
    }

    method AllocateContact() returns (id: nat)
      modifies this`nextContact
      ensures id == Max(old(nextContact), 1) && nextContact == id + 1
    {
      id := Max(nextContact, 1);
      nextContact := id + 1;
    }

    method FinishReport() returns (out: seq<G.Event>)
      requires Valid()
      modifies this`dropped, slots
      ensures Valid() && !dropped
      ensures out == if old(dropped) then DroppedOuts(device, old(slots[..])) else Outs(device, old(slots[..]))
      ensures slots[..] == if old(dropped) then seq(MAX_SLOTS, _ => EMPTY) else Afters(old(slots[..]))
    {
      hide SlotOut, SlotAfter, SlotDropped;
      ghost var was := slots[..];
      out := [];
      if dropped {
        dropped := false;
        for k := 0 to slots.Length
          invariant !dropped
          invariant forall j :: 0 <= j < k ==> slots[j] == EMPTY
          invariant forall j :: k <= j < slots.Length ==> slots[j] == was[j]
          invariant out == DroppedOuts(device, was[..k])
        {
          assert was[..k + 1][..k] == was[..k];
          out := out + SlotDropped(device, slots[k]);
          slots[k] := EMPTY;
        }
        assert was[..slots.Length] == was;
        return;
      }
      for k := 0 to slots.Length
        invariant !dropped
        invariant forall j :: 0 <= j < k ==> slots[j] == SlotAfter(was[j])
        invariant forall j :: k <= j < slots.Length ==> slots[j] == was[j]
        invariant out == Outs(device, was[..k])
      {
        assert was[..k + 1][..k] == was[..k];
        out := out + SlotOut(device, slots[k]);
        slots[k] := SlotAfter(slots[k]);
      }
      assert was[..slots.Length] == was;
    }
  }

  // ---------------------------------------------------------------- positions

  lemma {:induction false} OutsHas(d: Device, slots: seq<Slot>, k: nat)
    requires DeviceOk(d) && k < |slots| && SlotOut(d, slots[k]) != []
    ensures SlotOut(d, slots[k])[0] in Outs(d, slots)
  {
    hide SlotOut, EventOf;
    var n := |slots| - 1;
    if k < n {
      assert slots[..n][k] == slots[k];
      OutsHas(d, slots[..n], k);
    }
  }

  /** The state after three kernel events, and what the last of them reports. */
  function Reported(d: Device, p: State, a: Raw, b: Raw, c: Raw): (State, seq<G.Event>)
    requires DeviceOk(d) && Shaped(p)
  {
    Push(d, Push(d, Push(d, p, a).0, b).0, c)
  }

  /** A held contact that is given a position in either order is reported there: the
      first coordinate on the horizontal axis, the second on the vertical. */
  lemma MoveIsReported(d: Device, p: State, x: int, y: int)
    requires DeviceOk(d) && Shaped(p) && !p.dropped
    requires var s := p.slots[p.current]; s.contact.Some? && !s.pendingDown && !s.pendingUp
    ensures var at := G.Event(G.Move, p.slots[p.current].contact.value, MapAxis(d.horizontal, x), MapAxis(d.vertical, y));
            && at in Reported(d, p, PositionX(x), PositionY(y), SynReport).1
            && at in Reported(d, p, PositionY(y), PositionX(x), SynReport).1
  {
    hide MapAxis, Outs;
    var one := Push(d, Push(d, p, PositionX(x)).0, PositionY(y)).0;
    var two := Push(d, Push(d, p, PositionY(y)).0, PositionX(x)).0;
    OutsHas(d, one.slots, p.current);
    OutsHas(d, two.slots, p.current);
  }

  /** A new contact goes down where its first position says. */
  lemma DownIsReported(d: Device, p: State, id: int, x: int, y: int)
    requires DeviceOk(d) && Shaped(p) && !p.dropped && id >= 0
    ensures var at := G.Event(G.Down, Max(p.nextContact, 1), MapAxis(d.horizontal, x), MapAxis(d.vertical, y));
            at in Reported(d, Push(d, p, TrackingId(id)).0, PositionX(x), PositionY(y), SynReport).1
  {
    hide MapAxis, Outs;
    var begun := Push(d, p, TrackingId(id)).0;
    var placed := Push(d, Push(d, begun, PositionX(x)).0, PositionY(y)).0;
    OutsHas(d, placed.slots, p.current);
  }

  lemma {:induction false} DroppedHas(d: Device, slots: seq<Slot>, k: nat)
    requires DeviceOk(d) && k < |slots| && Complete(slots[k])
    ensures EventOf(d, G.Cancel, slots[k]) in DroppedOuts(d, slots)
  {
    hide EventOf;
    var n := |slots| - 1;
    if k < n {
      assert slots[..n][k] == slots[k];
      DroppedHas(d, slots[..n], k);
    }
  }

  /** A contact that leaves is lifted where it was last; one that was placed when
      events were lost is cancelled there. */
  lemma EndIsReported(d: Device, p: State)
    requires DeviceOk(d) && Shaped(p) && !p.dropped
    requires var s := p.slots[p.current]; Complete(s) && !s.pendingDown
    ensures var s := p.slots[p.current];
            var x, y := MapAxis(d.horizontal, s.x.value), MapAxis(d.vertical, s.y.value);
            && G.Event(G.Up, s.contact.value, x, y) in Push(d, Push(d, p, TrackingId(-1)).0, SynReport).1
            && Push(d, Push(d, p, TrackingId(-1)).0, SynReport).0.slots[p.current] == EMPTY
            && G.Event(G.Cancel, s.contact.value, x, y) in Push(d, Push(d, p, SynDropped).0, SynReport).1
  {
    hide MapAxis, Outs, DroppedOuts;
    var lifted := Push(d, p, TrackingId(-1)).0;
    OutsHas(d, lifted.slots, p.current);
    DroppedHas(d, p.slots, p.current);
  }

  // ----------------------------------------------------------------- contacts

  function Contacts(slots: seq<Slot>): set<nat> {
    set k: nat | k < |slots| && slots[k].contact.Some? :: slots[k].contact.value
  }

  predicate Distinct(slots: seq<Slot>) {
    forall i, j :: 0 <= i < j < |slots| && slots[i].contact.Some? && slots[j].contact.Some? ==>
      slots[i].contact != slots[j].contact
  }

  /** A contact is open downstream exactly when its first report was made. */
  predicate Tracks(slots: seq<Slot>, down: set<nat>) {
    forall k :: 0 <= k < |slots| && slots[k].contact.Some? ==>
      if slots[k].pendingDown then slots[k].contact.value !in down
      else slots[k].contact.value in down && Complete(slots[k])
  }

  /** A report after lost events cancels a contact that was never announced. */
  predicate EarlyCancel(slots: seq<Slot>) {
    exists k :: 0 <= k < |slots| && Early(slots[k])
  }

  lemma OneOpen(down: set<nat>, e: G.Event)
    ensures G.Open(down, [e]) ==
            (if e.phase == G.Down then (down + {e.contact}, e.contact !in down)
             else if e.phase == G.Move then (down, e.contact in down)
             else (down - {e.contact}, e.contact in down))
  {
    assert [e][..0] == [];
    assert G.Open(down, []) == (down, true);
  }

  /** One slot more at the end of the report. */
  lemma SlotLegal(d: Device, s: Slot, down: set<nat>)
    requires DeviceOk(d) && Tracks([s], down)
    ensures var (next, ok) := G.Open(down, SlotOut(d, s));
            && ok && Tracks([SlotAfter(s)], next)
            && forall id :: s.contact != Some(id) ==> (id in next <==> id in down)
  {
    hide MapAxis;
    assert [s][0] == s;
    assert [SlotAfter(s)][0] == SlotAfter(s);
    if SlotOut(d, s) != [] {
      OneOpen(down, SlotOut(d, s)[0]);
      assert SlotOut(d, s) == [SlotOut(d, s)[0]];
    } else {
      assert G.Open(down, []) == (down, true);
    }
  }

  /** An ordinary report continues every contact legally. */
  lemma {:induction false} ReportLegal(d: Device, slots: seq<Slot>, down: set<nat>)
    requires DeviceOk(d) && Distinct(slots) && Tracks(slots, down)
    ensures var (next, ok) := G.Open(down, Outs(d, slots));
            && ok && Tracks(Afters(slots), next)
            && forall id :: id !in Contacts(slots) ==> (id in next <==> id in down)
  {
    hide MapAxis, SlotOut, SlotAfter;
    if slots == [] {
      assert G.Open(down, []) == (down, true);
    } else {
      var n := |slots| - 1;
      var init, last := slots[..n], slots[n];
      ReportLegal(d, init, down);
      var (mid, _) := G.Open(down, Outs(d, init));
      assert Tracks([last], mid) by {
        assert [last][0] == last;
        if last.contact.Some? { NotAmong(init, last, slots); }
      }
      SlotLegal(d, last, mid);
      G.OpenConcat(down, Outs(d, init), SlotOut(d, last));
      var (next, _) := G.Open(mid, SlotOut(d, last));
      AftersTrack(slots, mid, next);
      forall id | id !in Contacts(slots) ensures id in next <==> id in down {
        assert id !in Contacts(init) by { if id in Contacts(init) { ContactsGrow(init, slots, id); } }
        assert last.contact != Some(id) by { if last.contact == Some(id) { LastContact(slots, id); } }
      }
    }
  }

  lemma NotAmong(init: seq<Slot>, last: Slot, slots: seq<Slot>)
    requires slots == init + [last] && Distinct(slots) && last.contact.Some?
    ensures last.contact.value !in Contacts(init)
  {
    forall k: nat | k < |init| && init[k].contact.Some?
      ensures init[k].contact.value != last.contact.value
    {
      assert slots[k] == init[k] && slots[|init|] == last;
    }
  }

  lemma ContactsGrow(init: seq<Slot>, slots: seq<Slot>, id: nat)
    requires init <= slots && id in Contacts(init)
    ensures id in Contacts(slots)
  {
    var k: nat :| k < |init| && init[k].contact.Some? && init[k].contact.value == id;
    assert slots[k] == init[k];
  }

  lemma LastContact(slots: seq<Slot>, id: nat)
    requires slots != [] && slots[|slots| - 1].contact == Some(id)
    ensures id in Contacts(slots)
  {
  }

  /** The slots before the last one keep their contacts. */
  lemma AftersTrack(slots: seq<Slot>, mid: set<nat>, next: set<nat>)
    requires slots != [] && Distinct(slots)
    requires var n := |slots| - 1; Tracks(Afters(slots[..n]), mid) && Tracks([SlotAfter(slots[n])], next)
    requires forall id :: slots[|slots| - 1].contact != Some(id) ==> (id in next <==> id in mid)
    ensures Tracks(Afters(slots), next)
  {
    var n := |slots| - 1;
    forall k | 0 <= k < |slots| && Afters(slots)[k].contact.Some?
      ensures var a := Afters(slots)[k];
              if a.pendingDown then a.contact.value !in next else a.contact.value in next && Complete(a)
    {
      if k < n {
        assert Afters(slots)[k] == Afters(slots[..n])[k];
        assert Afters(slots)[k].contact == slots[k].contact;
      } else {
        assert [SlotAfter(slots[n])][0] == Afters(slots)[n];
      }
    }
  }

  lemma SlotDroppedOpen(d: Device, s: Slot, down: set<nat>)
    requires DeviceOk(d)
    ensures G.Open(down, SlotDropped(d, s)) ==
            if Complete(s) then (down - {s.contact.value}, s.contact.value in down) else (down, true)
  {
    hide MapAxis;
    if Complete(s) {
      OneOpen(down, EventOf(d, G.Cancel, s));
    } else {
      G.OpenNothing(down);
    }
  }

  predicate Early(s: Slot) {
    Complete(s) && s.pendingDown
  }

  lemma EarlyGrows(init: seq<Slot>, last: Slot)
    ensures EarlyCancel(init + [last]) <==> EarlyCancel(init) || Early(last)
  {
    var slots := init + [last];
    assert slots[|init|] == last;
    assert forall k :: 0 <= k < |init| ==> slots[k] == init[k];
    if k :| 0 <= k < |init| && Early(init[k]) {
      assert Early(slots[k]);
    }
  }

  /** The report after lost events is legal exactly when no contact is cancelled
      before it was announced. */
  lemma {:induction false} DroppedLegal(d: Device, slots: seq<Slot>, down: set<nat>)
    requires DeviceOk(d) && Distinct(slots) && Tracks(slots, down)
    ensures G.Legal(down, DroppedOuts(d, slots)) <==> !EarlyCancel(slots)
    ensures forall id :: id !in Contacts(slots) ==> (id in G.Open(down, DroppedOuts(d, slots)).0 <==> id in down)
  {
    hide MapAxis, SlotDropped, G.Open, Distinct, Tracks, Contacts;
    if slots == [] {
      G.OpenNothing(down);
    } else {
      var n := |slots| - 1;
      var init, last := slots[..n], slots[n];
      assert slots == init + [last];
      PrefixOf(init, last, down);
      DroppedLegal(d, init, down);
      var (mid, ok) := G.Open(down, DroppedOuts(d, init));
      G.OpenConcat(down, DroppedOuts(d, init), SlotDropped(d, last));
      SlotDroppedOpen(d, last, mid);
      EarlyGrows(init, last);
      hide EarlyCancel;
    }
  }

  /** What holds of the slots holds of all but the last, and of the last. */
  lemma PrefixOf(init: seq<Slot>, last: Slot, down: set<nat>)
    requires Distinct(init + [last]) && Tracks(init + [last], down)
    ensures Distinct(init) && Tracks(init, down)
    ensures last.contact.Some? ==> last.contact.value !in Contacts(init)
    ensures Complete(last) ==> (last.contact.value in down <==> !Early(last))
    ensures forall id :: id !in Contacts(init + [last]) ==> id !in Contacts(init) && last.contact != Some(id)
  {
    var slots := init + [last];
    assert forall k :: 0 <= k < |init| ==> slots[k] == init[k];
    assert slots[|init|] == last;
    if last.contact.Some? {
      NotAmong(init, last, slots);
    }
    forall id | id !in Contacts(slots) ensures id !in Contacts(init) && last.contact != Some(id) {
      forall k: nat | k < |init| && init[k].contact.Some? ensures init[k].contact.value != id {
        assert slots[k] == init[k];
      }
    }
  }

  // --------------------------------------------------------------- whole runs

  /** Every contact ever given out is below the next one. */
  predicate Below(slots: seq<Slot>, down: set<nat>, limit: nat) {
    && (forall id :: id in down ==> id < limit)
    && (forall k :: 0 <= k < |slots| && slots[k].contact.Some? ==> slots[k].contact.value < limit)
  }

  /** What every event keeps, `down` being the contacts reported so far. */
  predicate Sound(p: State, down: set<nat>) {
    Shaped(p) && Distinct(p.slots) && Tracks(p.slots, down) && Below(p.slots, down, p.nextContact)
  }

  /** This event ends the lost events while a contact has not been announced. */
  predicate Harms(p: State, e: Raw) {
    e.SynReport? && p.dropped && EarlyCancel(p.slots)
  }

  /** A slot is replaced by a new contact, or keeps its own. */
  lemma SlotEdited(p: State, down: set<nat>, s: Slot, limit: nat)
    requires Sound(p, down) && limit >= p.nextContact
    requires || (s.contact == Some(limit) && s.pendingDown)
             || (&& s.contact == p.slots[p.current].contact && s.pendingDown == p.slots[p.current].pendingDown
                 && (Complete(p.slots[p.current]) ==> Complete(s)))
    ensures var q := p.(slots := p.slots[p.current := s], nextContact := limit + 1);
            Sound(q, down)
    ensures s.contact == p.slots[p.current].contact ==> Sound(p.(slots := p.slots[p.current := s]), down)
  {
  }

  /** Afterwards the contacts are among those before, so they stay below. */
  lemma ReportKeepsBelow(d: Device, slots: seq<Slot>, down: set<nat>, limit: nat)
    requires DeviceOk(d) && Distinct(slots) && Tracks(slots, down) && Below(slots, down, limit)
    ensures Below(Afters(slots), G.Open(down, Outs(d, slots)).0, limit) && Distinct(Afters(slots))
    ensures Below([], G.Open(down, DroppedOuts(d, slots)).0, limit)
  {
    hide G.Open, Outs, DroppedOuts, Tracks;
    ReportLegal(d, slots, down);
    DroppedLegal(d, slots, down);
    assert forall id :: id in Contacts(slots) ==> id < limit;
  }

  lemma PushSound(d: Device, p: State, e: Raw, down: set<nat>)
    requires DeviceOk(d) && Sound(p, down)
    ensures var (q, out) := Push(d, p, e);
            var (next, ok) := G.Open(down, out);
            Sound(q, next) && (ok <==> !Harms(p, e))
  {
    hide G.Open, Outs, DroppedOuts, Afters, EarlyCancel;
    var slot := p.slots[p.current];
    G.OpenNothing(down);
    match e
    case TrackingId(v) =>
      hide Sound;
      if v >= 0 {
        var id := Max(p.nextContact, 1);
        SlotEdited(p, down, EMPTY.(contact := Some(id), pendingDown := true), id);
      } else if slot.contact.Some? {
        SlotEdited(p, down, slot.(pendingUp := true), p.nextContact);
      }
    case PositionX(v) =>
      hide Sound;
      SlotEdited(p, down, slot.(x := Some(v), changed := true), p.nextContact);
    case PositionY(v) =>
      hide Sound;
      SlotEdited(p, down, slot.(y := Some(v), changed := true), p.nextContact);
    case SynReport =>
      ReportKeepsBelow(d, p.slots, down, p.nextContact);
      ReportLegal(d, p.slots, down);
      DroppedLegal(d, p.slots, down);
    case _ =>
  }

  datatype Input =
    | Touched(e: Raw, early: bool, cleanupOn: bool)
    | Switched(menu: bool, forwardOn: bool)

  /** The steps of the gesture recognizer that a run of events and of surface or
      menu changes causes: an event that reports nothing causes none. */
  function Steps(d: Device, p: State, inputs: seq<Input>): seq<G.Step>
    requires DeviceOk(d) && Shaped(p)
    decreases |inputs|
  {
    if inputs == [] then []
    else match inputs[0]
      case Switched(menu, forwardOn) => [G.Switch(menu, forwardOn)] + Steps(d, p, inputs[1..])
      case Touched(e, early, cleanupOn) =>
        var (q, out) := Push(d, p, e);
        ReportStep(out, early, cleanupOn) + Steps(d, q, inputs[1..])
  }

  function ReportStep(out: seq<G.Event>, early: bool, cleanupOn: bool): seq<G.Step> {
    if out == [] then [] else [G.Touch(out, early, cleanupOn)]
  }

  /** Whenever events were lost, every contact still there had been announced. */
  predicate Announced(d: Device, p: State, inputs: seq<Input>)
    requires DeviceOk(d) && Shaped(p)
    decreases |inputs|
  {
    || inputs == []
    || (match inputs[0]
        case Switched(_, _) => Announced(d, p, inputs[1..])
        case Touched(e, _, _) => !Harms(p, e) && Announced(d, Push(d, p, e).0, inputs[1..]))
  }

  /** Everything the parser reports over a run. */
  function Stream(d: Device, p: State, inputs: seq<Input>): seq<G.Event>
    requires DeviceOk(d) && Shaped(p)
    decreases |inputs|
  {
    if inputs == [] then []
    else match inputs[0]
      case Switched(_, _) => Stream(d, p, inputs[1..])
      case Touched(e, _, _) => Push(d, p, e).1 + Stream(d, Push(d, p, e).0, inputs[1..])
  }

  /** The parser's whole stream is legal exactly when no contact was cancelled
      before it was announced. */
  lemma {:induction false} StreamLegal(d: Device, p: State, down: set<nat>, inputs: seq<Input>)
    requires DeviceOk(d) && Shaped(p) && Sound(p, down)
    ensures G.Legal(down, Stream(d, p, inputs)) <==> Announced(d, p, inputs)
    decreases |inputs|
  {
    hide Push, G.Open, Sound, Harms;
    if inputs == [] {
      G.OpenNothing(down);
    } else {
      match inputs[0]
      case Switched(_, _) => StreamLegal(d, p, down, inputs[1..]);
      case Touched(e, _, _) =>
        var (q, out) := Push(d, p, e);
        PushSound(d, p, e, down);
        G.OpenConcat(down, out, Stream(d, q, inputs[1..]));
        StreamLegal(d, q, G.Open(down, out).0, inputs[1..]);
    }
  }

  lemma StartSound()
    ensures Sound(Fresh(), {})
  {
  }

  /** The gesture recognizer is driven with well-formed reports only. */
  lemma {:induction false} DrivesGesture(d: Device, p: State, m: G.Mode, inputs: seq<Input>)
    requires DeviceOk(d) && Shaped(p) && Sound(p, m.g.active.Keys) && G.Inv(m) && Announced(d, p, inputs)
    ensures G.RunWellFormed(m, Steps(d, p, inputs))
    decreases |inputs|
  {
    hide Push, G.Open, Sound, Harms, G.Inv, G.Next;
    if inputs != [] {
      match inputs[0]
      case Switched(menu, forwardOn) =>
        var step := G.Switch(menu, forwardOn);
        assert Steps(d, p, inputs) == [step] + Steps(d, p, inputs[1..]);
        G.StepLegal(m, step);
        ActiveAfter(m, step);
        DrivesGesture(d, p, G.Next(m, step).0, inputs[1..]);
      case Touched(e, early, cleanupOn) =>
        var (q, out) := Push(d, p, e);
        PushSound(d, p, e, m.g.active.Keys);
        if out == [] {
          G.OpenNothing(m.g.active.Keys);
          assert Steps(d, p, inputs) == Steps(d, q, inputs[1..]);
          DrivesGesture(d, q, m, inputs[1..]);
        } else {
          var step := G.Touch(out, early, cleanupOn);
          assert Steps(d, p, inputs) == [step] + Steps(d, q, inputs[1..]);
          G.StepLegal(m, step);
          ActiveAfter(m, step);
          DrivesGesture(d, q, G.Next(m, step).0, inputs[1..]);
        }
    }
  }

  /** The recognizer's contacts follow the reports. */
  lemma ActiveAfter(m: G.Mode, step: G.Step)
    requires G.WellFormed(m, step)
    ensures G.Next(m, step).0.g.active.Keys ==
            if step.Switch? then m.g.active.Keys else G.Open(m.g.active.Keys, step.report).0
  {
    hide G.Apply, G.Cancels, G.Open;
    if step.Touch? {
      G.ApplyKeys(m.g.active, step.report);
    }
  }

  /** From kernel events to the producer: unless a contact was cancelled before it
      was announced, each contact the producer sees goes down once, moves, and is
      lifted or cancelled at most once, over any events, surfaces and menus. */
  lemma KernelToProducer(d: Device, inputs: seq<Input>)
    requires DeviceOk(d) && Announced(d, Fresh(), inputs)
    ensures G.Legal({}, G.Run(START, Steps(d, Fresh(), inputs)).out)
  {
    hide G.Run, Announced;
    assert START.g.active.Keys == {} == START.g.forwarded.Keys;
    StartSound();
    DrivesGesture(d, Fresh(), START, inputs);
    G.TraceLegal(START, Steps(d, Fresh(), inputs));
  }

  /** No contact, no menu and no surface yet. */
  const START := G.Mode(G.State(map[], map[], false), false, false)

  // ----------------------------------------------------------------- findings

  /** The cancelled contact of a report after lost events may never have been
      announced. */
  lemma CancelBeforeDown(d: Device, x: int, y: int)
    requires DeviceOk(d)
    ensures var touch := [TrackingId(1), PositionX(x), PositionY(y), SynDropped, SynReport];
            var inputs := seq(|touch|, k requires 0 <= k < |touch| => Touched(touch[k], false, true));
            !G.Legal({}, Stream(d, Fresh(), inputs))
  {
    hide MapAxis, G.Open;
    var touch := [TrackingId(1), PositionX(x), PositionY(y), SynDropped, SynReport];
    var inputs := seq(|touch|, k requires 0 <= k < |touch| => Touched(touch[k], false, true));
    StartSound();
    StreamLegal(d, Fresh(), {}, inputs);
    var held := EMPTY.(contact := Some(1), pendingDown := true);
    var full := held.(x := Some(x), y := Some(y), changed := true);
    var p0 := Fresh();
    var p1 := Push(d, p0, touch[0]).0;
    assert p1.slots[0] == held;
    var p2 := Push(d, p1, touch[1]).0;
    var p3 := Push(d, p2, touch[2]).0;
    assert p3.slots[0] == full;
    var p4 := Push(d, p3, touch[3]).0;
    assert Early(p4.slots[0]) && Harms(p4, touch[4]);
    Unannounced(d, p4, inputs[4..]);
    Later(d, p3, inputs[3..]);
    Later(d, p2, inputs[2..]);
    Later(d, p1, inputs[1..]);
    Later(d, p0, inputs);
  }

  lemma Unannounced(d: Device, p: State, inputs: seq<Input>)
    requires DeviceOk(d) && Shaped(p) && inputs != [] && inputs[0].Touched? && Harms(p, inputs[0].e)
    ensures !Announced(d, p, inputs)
  {
  }

  lemma Later(d: Device, p: State, inputs: seq<Input>)
    requires DeviceOk(d) && Shaped(p) && inputs != [] && inputs[0].Touched?
    requires !Announced(d, Push(d, p, inputs[0].e).0, inputs[1..])
    ensures !Announced(d, p, inputs)
  {
  }

  /** Contacts of the slots that were announced. */
  predicate Held(slots: seq<Slot>, id: nat) {
    exists k :: 0 <= k < |slots| && slots[k].contact == Some(id) && !slots[k].pendingDown
  }

  /** A contact that went down and up again within one report. */
  predicate Tap(s: Slot) {
    Complete(s) && s.pendingDown && s.pendingUp
  }

  predicate StaysOpen(s: Slot) {
    if s.pendingDown then Complete(s) else !s.pendingUp
  }

  lemma {:induction false} ReportOpens(d: Device, slots: seq<Slot>, down: set<nat>)
    requires DeviceOk(d) && Distinct(slots) && Tracks(slots, down)
    ensures forall k :: 0 <= k < |slots| && slots[k].contact.Some? ==>
      (slots[k].contact.value in G.Open(down, Outs(d, slots)).0 <==> StaysOpen(slots[k]))
  {
    hide MapAxis, SlotOut, G.Open, Contacts;
    if slots != [] {
      var n := |slots| - 1;
      var init, last := slots[..n], slots[n];
      assert slots == init + [last];
      PrefixOf(init, last, down);
      ReportOpens(d, init, down);
      ReportLegal(d, init, down);
      var mid := G.Open(down, Outs(d, init)).0;
      G.OpenConcat(down, Outs(d, init), SlotOut(d, last));
      SlotOpens(d, last, mid);
    }
  }

  lemma SlotOpens(d: Device, s: Slot, down: set<nat>)
    requires DeviceOk(d) && Tracks([s], down)
    ensures var next := G.Open(down, SlotOut(d, s)).0;
            && (s.contact.Some? ==> (s.contact.value in next <==> StaysOpen(s)))
            && forall id :: s.contact != Some(id) ==> (id in next <==> id in down)
  {
    hide MapAxis;
    assert [s][0] == s;
    if SlotOut(d, s) != [] {
      OneOpen(down, SlotOut(d, s)[0]);
      assert SlotOut(d, s) == [SlotOut(d, s)[0]];
    } else {
      G.OpenNothing(down);
    }
  }

  /** The contacts an event stream speaks of. */
  predicate Mentions(stream: seq<G.Event>, id: nat) {
    exists k :: 0 <= k < |stream| && stream[k].contact == id
  }

  lemma {:induction false} OutsMention(d: Device, slots: seq<Slot>, id: nat)
    requires DeviceOk(d) && id !in Contacts(slots)
    ensures !Mentions(Outs(d, slots), id) && !Mentions(DroppedOuts(d, slots), id)
  {
    hide MapAxis;
    if slots != [] {
      var n := |slots| - 1;
      var init, last := slots[..n], slots[n];
      assert id !in Contacts(init) by { if id in Contacts(init) { ContactsGrow(init, slots, id); } }
      assert last.contact != Some(id) by { if last.contact == Some(id) { LastContact(slots, id); } }
      OutsMention(d, init, id);
    }
  }

  lemma EditKeepsAway(slots: seq<Slot>, at: nat, s: Slot, id: nat)
    requires at < |slots| && id !in Contacts(slots) && s.contact != Some(id)
    ensures id !in Contacts(slots[at := s])
  {
    var next := slots[at := s];
    forall k: nat | k < |next| && next[k].contact.Some? ensures next[k].contact.value != id {
      if k != at { assert slots[k].contact == next[k].contact; }
    }
  }

  lemma HeldElsewhere(slots: seq<Slot>, at: nat, id: nat)
    requires at < |slots| && id !in Contacts(slots)
    ensures slots[at].contact != Some(id)
  {
  }

  /** An identity the parser has given out and forgotten is not reported again. */
  lemma PushKeepsAway(d: Device, p: State, e: Raw, id: nat)
    requires DeviceOk(d) && Shaped(p) && id < p.nextContact && id !in Contacts(p.slots)
    ensures var (q, out) := Push(d, p, e);
            id < q.nextContact && id !in Contacts(q.slots) && !Mentions(out, id)
  {
    hide Outs, DroppedOuts, Contacts, MapAxis;
    HeldElsewhere(p.slots, p.current, id);
    var slot := p.slots[p.current];
    match e
    case TrackingId(v) =>
      if v >= 0 {
        EditKeepsAway(p.slots, p.current, EMPTY.(contact := Some(Max(p.nextContact, 1)), pendingDown := true), id);
      } else if slot.contact.Some? {
        EditKeepsAway(p.slots, p.current, slot.(pendingUp := true), id);
      }
    case PositionX(v) => EditKeepsAway(p.slots, p.current, slot.(x := Some(v), changed := true), id);
    case PositionY(v) => EditKeepsAway(p.slots, p.current, slot.(y := Some(v), changed := true), id);
    case SynReport =>
      OutsMention(d, p.slots, id);
      AftersKeepAway(p.slots, id);
      NoContacts(id);
    case _ =>
  }

  lemma AftersKeepAway(slots: seq<Slot>, id: nat)
    requires id !in Contacts(slots)
    ensures id !in Contacts(Afters(slots))
  {
    forall k: nat | k < |slots| && Afters(slots)[k].contact.Some? ensures Afters(slots)[k].contact.value != id {
      assert slots[k].contact == Afters(slots)[k].contact;
    }
  }

  lemma NoContacts(id: nat)
    ensures id !in Contacts(seq(MAX_SLOTS, _ => EMPTY))
  {
  }

  lemma MentionsConcat(a: seq<G.Event>, b: seq<G.Event>, id: nat)
    requires !Mentions(a, id) && !Mentions(b, id)
    ensures !Mentions(a + b, id)
  {
    forall k | 0 <= k < |a + b| ensures (a + b)[k].contact != id {
    }
  }

  lemma {:induction false} NeverAgain(d: Device, p: State, inputs: seq<Input>, id: nat)
    requires DeviceOk(d) && Shaped(p) && id < p.nextContact && id !in Contacts(p.slots)
    ensures !Mentions(Stream(d, p, inputs), id)
    decreases |inputs|
  {
    hide Push, Contacts, Mentions;
    if inputs == [] {
      assert !Mentions([], id) by { NothingMentioned(id); }
    } else {
      match inputs[0]
      case Switched(_, _) => NeverAgain(d, p, inputs[1..], id);
      case Touched(e, _, _) =>
        var (q, out) := Push(d, p, e);
        PushKeepsAway(d, p, e, id);
        NeverAgain(d, q, inputs[1..], id);
        MentionsConcat(out, Stream(d, q, inputs[1..]), id);
    }
  }

  lemma NothingMentioned(id: nat)
    ensures !Mentions([], id)
  {
  }

  // ----------------------------------------------------------- lost contacts

  /** An open contact that the parser holds in no slot any more. */
  predicate Orphan(p: State, down: set<nat>, id: nat) {
    id in down && !Held(p.slots, id)
  }

  /** An event that makes the parser forget a contact it announced: an ordinary
      report of a tap, or a new identity in a slot that holds an announced one. */
  predicate Loses(p: State, e: Raw)
    requires Shaped(p)
  {
    match e
    case SynReport => !p.dropped && exists k :: 0 <= k < |p.slots| && Tap(p.slots[k])
    case TrackingId(v) => v >= 0 && p.slots[p.current].contact.Some? && !p.slots[p.current].pendingDown
    case _ => false
  }

  lemma OrphanAway(p: State, down: set<nat>, id: nat)
    requires Sound(p, down) && Orphan(p, down, id)
    ensures id < p.nextContact && id !in Contacts(p.slots)
  {
  }

  lemma {:induction false} Unmentioned(down: set<nat>, stream: seq<G.Event>, id: nat)
    requires !Mentions(stream, id)
    ensures id in G.Open(down, stream).0 <==> id in down
  {
    if stream != [] {
      var init := stream[..|stream| - 1];
      assert forall k :: 0 <= k < |init| ==> init[k] == stream[k];
      Unmentioned(down, init, id);
    }
  }

  lemma AwayIsNotHeld(slots: seq<Slot>, id: nat)
    requires id !in Contacts(slots)
    ensures !Held(slots, id)
  {
  }

  /** A contact once lost stays open, and in no slot. */
  lemma OrphanStays(d: Device, p: State, e: Raw, down: set<nat>, id: nat)
    requires DeviceOk(d) && Sound(p, down) && Orphan(p, down, id)
    ensures var (q, out) := Push(d, p, e); Orphan(q, G.Open(down, out).0, id)
  {
    hide Push, G.Open, Contacts, Mentions, Held;
    OrphanAway(p, down, id);
    PushKeepsAway(d, p, e, id);
    var (q, out) := Push(d, p, e);
    Unmentioned(down, out, id);
    AwayIsNotHeld(q.slots, id);
  }

  /** The report after lost events leaves none of the placed contacts open, and
      opens none. */
  lemma {:induction false} DroppedCloses(d: Device, slots: seq<Slot>, down: set<nat>)
    requires DeviceOk(d)
    ensures var next := G.Open(down, DroppedOuts(d, slots)).0;
            && next <= down
            && forall k :: 0 <= k < |slots| && Complete(slots[k]) ==> slots[k].contact.value !in next
  {
    hide MapAxis, SlotDropped, G.Open;
    if slots == [] {
      G.OpenNothing(down);
    } else {
      var n := |slots| - 1;
      DroppedCloses(d, slots[..n], down);
      var mid := G.Open(down, DroppedOuts(d, slots[..n])).0;
      G.OpenConcat(down, DroppedOuts(d, slots[..n]), SlotDropped(d, slots[n]));
      SlotDroppedOpen(d, slots[n], mid);
      assert forall k :: 0 <= k < n ==> slots[k] == slots[..n][k];
    }
  }

  /** After a report without taps, an open contact is held, or was an orphan. */
  lemma ReportHolds(d: Device, slots: seq<Slot>, down: set<nat>, id: nat)
    requires DeviceOk(d) && Distinct(slots) && Tracks(slots, down)
    requires id in G.Open(down, Outs(d, slots)).0
    requires forall k :: 0 <= k < |slots| ==> !Tap(slots[k])
    ensures Held(Afters(slots), id) || (id in down && !Held(slots, id))
  {
    hide MapAxis, SlotOut, G.Open, Outs;
    ReportOpens(d, slots, down);
    ReportLegal(d, slots, down);
    if k: nat :| k < |slots| && slots[k].contact == Some(id) {
      assert Afters(slots)[k].contact == Some(id) && !Afters(slots)[k].pendingDown;
    }
  }

  /** An event that loses nothing makes no orphan. */
  lemma NothingLost(d: Device, p: State, e: Raw, down: set<nat>, id: nat)
    requires DeviceOk(d) && Sound(p, down) && !Loses(p, e)
    requires var (q, out) := Push(d, p, e); Orphan(q, G.Open(down, out).0, id)
    ensures Orphan(p, down, id)
  {
    hide MapAxis, G.Open, Outs, DroppedOuts, Contacts;
    G.OpenNothing(down);
    match e
    case SynReport =>
      if p.dropped {
        DroppedCloses(d, p.slots, down);
      } else {
        ReportHolds(d, p.slots, down, id);
      }
    case TrackingId(v) => EditHolds(p, Push(d, p, e).0, id);
    case PositionX(v) => EditHolds(p, Push(d, p, e).0, id);
    case PositionY(v) => EditHolds(p, Push(d, p, e).0, id);
    case _ =>
  }

  /** Where the current slot was not an announced contact, or still is it, every
      held contact stays so. */
  lemma EditHolds(p: State, q: State, id: nat)
    requires Shaped(p) && Shaped(q) && q.slots == p.slots[p.current := q.slots[p.current]]
    requires var s, t := p.slots[p.current], q.slots[p.current];
             s.contact.None? || s.pendingDown || (t.contact == s.contact && !t.pendingDown)
    ensures Held(p.slots, id) ==> Held(q.slots, id)
  {
    if k :| 0 <= k < |p.slots| && p.slots[k].contact == Some(id) && !p.slots[k].pendingDown {
      assert q.slots[k].contact == Some(id) && !q.slots[k].pendingDown;
    }
  }

  /** An event that loses a contact makes an orphan of it. */
  lemma SomethingLost(d: Device, p: State, e: Raw, down: set<nat>) returns (id: nat)
    requires DeviceOk(d) && Sound(p, down) && Loses(p, e)
    ensures var (q, out) := Push(d, p, e); Orphan(q, G.Open(down, out).0, id)
    ensures !Orphan(p, down, id)
  {
    hide MapAxis, G.Open, Outs, DroppedOuts, Contacts;
    G.OpenNothing(down);
    if e.SynReport? {
      var k :| 0 <= k < |p.slots| && Tap(p.slots[k]);
      id := p.slots[k].contact.value;
      ReportOpens(d, p.slots, down);
      TapLeaves(p.slots, k);
      AwayIsNotHeld(Afters(p.slots), id);
    } else {
      id := p.slots[p.current].contact.value;
      var q := Push(d, p, e).0;
      assert forall k :: 0 <= k < |q.slots| && k != p.current ==> q.slots[k] == p.slots[k];
      assert !Held(q.slots, id);
    }
  }

  /** One event loses a contact exactly when it makes one that stays open in no
      slot. */
  lemma EventLoses(d: Device, p: State, e: Raw, down: set<nat>)
    requires DeviceOk(d) && Sound(p, down)
    ensures Shaped(p)
    ensures var (q, out) := Push(d, p, e);
            Loses(p, e) <==> exists id: nat :: Orphan(q, G.Open(down, out).0, id) && !Orphan(p, down, id)
  {
    hide Push, G.Open, Loses, Orphan, Sound;
    assert Shaped(p) by { SoundParts(p, down); }
    var (q, out) := Push(d, p, e);
    if Loses(p, e) {
      var id := SomethingLost(d, p, e, down);
    } else {
      forall id: nat | Orphan(q, G.Open(down, out).0, id) ensures Orphan(p, down, id) {
        NothingLost(d, p, e, down, id);
      }
    }
  }

  lemma SoundParts(p: State, down: set<nat>)
    requires Sound(p, down)
    ensures Shaped(p) && Tracks(p.slots, down)
  {
  }

  /** The contacts the producer sees are those the parser holds. */
  ghost predicate AllHeld(p: State, down: set<nat>) {
    forall id :: id in down <==> Held(p.slots, id)
  }

  lemma HeldOrOrphan(p: State, down: set<nat>)
    requires Sound(p, down)
    ensures AllHeld(p, down) <==> !exists id: nat :: Orphan(p, down, id)
  {
    if AllHeld(p, down) {
    } else {
      var id :| (id in down) != Held(p.slots, id);
      assert Orphan(p, down, id);
    }
  }

  /** One event keeps every open contact held exactly when it loses none. */
  lemma EventKeepsHeld(d: Device, p: State, e: Raw, down: set<nat>)
    requires DeviceOk(d) && Sound(p, down)
    ensures Shaped(p)
    ensures var (q, out) := Push(d, p, e); AllHeld(q, G.Open(down, out).0) <==> AllHeld(p, down) && !Loses(p, e)
  {
    hide Push, G.Open, Loses, Orphan, Sound, AllHeld;
    assert Shaped(p) by { SoundParts(p, down); }
    var (q, out) := Push(d, p, e);
    PushSound(d, p, e, down);
    HeldOrOrphan(p, down);
    HeldOrOrphan(q, G.Open(down, out).0);
    EventLoses(d, p, e, down);
    if id: nat :| Orphan(p, down, id) { OrphanStays(d, p, e, down, id); }
  }

  /** No event of the run loses a contact. */
  predicate LosesNone(d: Device, p: State, inputs: seq<Input>)
    requires DeviceOk(d) && Shaped(p)
    decreases |inputs|
  {
    || inputs == []
    || (match inputs[0]
        case Switched(_, _) => LosesNone(d, p, inputs[1..])
        case Touched(e, _, _) => !Loses(p, e) && LosesNone(d, Push(d, p, e).0, inputs[1..]))
  }

  function Final(d: Device, p: State, inputs: seq<Input>): State
    requires DeviceOk(d) && Shaped(p)
    decreases |inputs|
  {
    if inputs == [] then p
    else match inputs[0]
      case Switched(_, _) => Final(d, p, inputs[1..])
      case Touched(e, _, _) => Final(d, Push(d, p, e).0, inputs[1..])
  }

  /** Over every run, the contacts still open at the end are those the parser holds
      if and only if they were at the start and no event of the run lost one. */
  lemma {:induction false} RunKeepsHeld(d: Device, p: State, down: set<nat>, inputs: seq<Input>)
    requires DeviceOk(d) && Shaped(p) && Sound(p, down)
    ensures AllHeld(Final(d, p, inputs), G.Open(down, Stream(d, p, inputs)).0) <==>
            AllHeld(p, down) && LosesNone(d, p, inputs)
    decreases |inputs|
  {
    hide Push, G.Open, Sound, Loses, AllHeld;
    if inputs == [] {
      G.OpenNothing(down);
    } else {
      match inputs[0]
      case Switched(_, _) => RunKeepsHeld(d, p, down, inputs[1..]);
      case Touched(e, _, _) =>
        var (q, out) := Push(d, p, e);
        PushSound(d, p, e, down);
        EventKeepsHeld(d, p, e, down);
        G.OpenConcat(down, out, Stream(d, q, inputs[1..]));
        RunKeepsHeld(d, q, G.Open(down, out).0, inputs[1..]);
    }
  }

  /** From a new parser: exactly the runs that lose no contact leave the producer
      with the contacts the parser holds. */
  lemma ContactsHeld(d: Device, inputs: seq<Input>)
    requires DeviceOk(d)
    ensures AllHeld(Final(d, Fresh(), inputs), G.Open({}, Stream(d, Fresh(), inputs)).0) <==> LosesNone(d, Fresh(), inputs)
  {
    hide G.Open, LosesNone, Final, Stream;
    StartSound();
    assert AllHeld(Fresh(), {});
    RunKeepsHeld(d, Fresh(), {}, inputs);
  }

  /** Whatever events come later, no report lifts, moves or cancels a contact that
      was lost: it stays open for good. */
  lemma LostForGood(d: Device, p: State, down: set<nat>, id: nat, later: seq<Input>)
    requires DeviceOk(d) && Shaped(p) && Sound(p, down) && Orphan(p, down, id)
    ensures !Mentions(Stream(d, p, later), id) && id in G.Open(down, Stream(d, p, later)).0
  {
    hide Stream, G.Open, Mentions, Contacts, Sound;
    OrphanAway(p, down, id);
    NeverAgain(d, p, later, id);
    Unmentioned(down, Stream(d, p, later), id);
  }

  /** A contact that goes down and up within one report is announced by it, and
      whatever events come later, no report ever lifts, moves or cancels it. */
  lemma TapIsNeverLifted(d: Device, p: State, down: set<nat>, k: nat, later: seq<Input>)
    requires DeviceOk(d) && Sound(p, down) && !p.dropped && k < MAX_SLOTS && Tap(p.slots[k])
    ensures Shaped(p) && Shaped(Push(d, p, SynReport).0)
    ensures var (q, out) := Push(d, p, SynReport);
            var id := p.slots[k].contact.value;
            && id in G.Open(down, out).0
            && !Mentions(Stream(d, q, later), id)
  {
    hide Outs, G.Open, Contacts, MapAxis, Stream, Mentions;
    var id := p.slots[k].contact.value;
    ReportOpens(d, p.slots, down);
    assert id !in Contacts(Afters(p.slots)) by { TapLeaves(p.slots, k); }
    NeverAgain(d, Push(d, p, SynReport).0, later, id);
  }

  lemma TapLeaves(slots: seq<Slot>, k: nat)
    requires Distinct(slots) && k < |slots| && Tap(slots[k])
    ensures slots[k].contact.value !in Contacts(Afters(slots))
  {
    forall j: nat | j < |slots| && Afters(slots)[j].contact.Some?
      ensures Afters(slots)[j].contact.value != slots[k].contact.value
    {
      if j != k { assert slots[j].contact == Afters(slots)[j].contact; }
    }
  }

  /** A concrete tap: five kernel events after which one contact is down for good. */
  lemma TapExample(d: Device, x: int, y: int)
    requires DeviceOk(d)
    ensures var p1 := Push(d, Fresh(), TrackingId(7)).0;
            var p3 := Push(d, Push(d, p1, PositionX(x)).0, PositionY(y)).0;
            var p4 := Push(d, p3, TrackingId(-1)).0;
            var (p5, out) := Push(d, p4, SynReport);
            && Sound(p4, {}) && Tap(p4.slots[0])
            && 1 in G.Open({}, out).0
            && forall later :: !Mentions(Stream(d, p5, later), 1)
  {
    hide MapAxis, G.Open, Outs, Sound, Stream, Mentions;
    var p0 := Fresh();
    StartSound();
    G.OpenNothing({});
    var p1 := Push(d, p0, TrackingId(7)).0;
    PushSound(d, p0, TrackingId(7), {});
    var p2 := Push(d, p1, PositionX(x)).0;
    PushSound(d, p1, PositionX(x), {});
    var p3 := Push(d, p2, PositionY(y)).0;
    PushSound(d, p2, PositionY(y), {});
    var p4 := Push(d, p3, TrackingId(-1)).0;
    PushSound(d, p3, TrackingId(-1), {});
    assert p4.slots[0] == Slot(Some(1), Some(x), Some(y), true, true, true);
    forall later ensures !Mentions(Stream(d, Push(d, p4, SynReport).0, later), 1) {
      TapIsNeverLifted(d, p4, {}, 0, later);
    }
    TapIsNeverLifted(d, p4, {}, 0, []);
  }

  /** A concrete replacement, without any tap: five kernel events, the last of which
      gives the slot a new identity; the contact announced before is down for good. */
  lemma ReplacedExample(d: Device, x: int, y: int)
    requires DeviceOk(d)
    ensures var p1 := Push(d, Fresh(), TrackingId(7)).0;
            var p3 := Push(d, Push(d, p1, PositionX(x)).0, PositionY(y)).0;
            var (p4, out) := Push(d, p3, SynReport);
            var (p5, none) := Push(d, p4, TrackingId(8));
            var open := G.Open({}, out).0;
            && Sound(p4, open) && AllHeld(p4, open) && Loses(p4, TrackingId(8)) && none == []
            && (forall k :: 0 <= k < |p4.slots| ==> !Tap(p4.slots[k]))
            && Sound(p5, open) && Orphan(p5, open, 1)
            && forall later :: !Mentions(Stream(d, p5, later), 1)
  {
    hide MapAxis, G.Open, Outs, Sound, Stream, Mentions, AllHeld, Held;
    var p0 := Fresh();
    StartSound();
    G.OpenNothing({});
    assert AllHeld(p0, {}) by { NothingHeld(); }
    var p1 := Push(d, p0, TrackingId(7)).0;
    PushSound(d, p0, TrackingId(7), {});
    EventKeepsHeld(d, p0, TrackingId(7), {});
    var p2 := Push(d, p1, PositionX(x)).0;
    PushSound(d, p1, PositionX(x), {});
    EventKeepsHeld(d, p1, PositionX(x), {});
    var p3 := Push(d, p2, PositionY(y)).0;
    PushSound(d, p2, PositionY(y), {});
    EventKeepsHeld(d, p2, PositionY(y), {});
    assert p3.slots == p0.slots[0 := Slot(Some(1), Some(x), Some(y), true, false, true)];
    var (p4, out) := Push(d, p3, SynReport);
    PushSound(d, p3, SynReport, {});
    EventKeepsHeld(d, p3, SynReport, {});
    var open := G.Open({}, out).0;
    assert p4.slots[0] == Slot(Some(1), Some(x), Some(y), false, false, false);
    G.OpenNothing(open);
    PushSound(d, p4, TrackingId(8), open);
    var p5 := Push(d, p4, TrackingId(8)).0;
    assert Orphan(p5, open, 1) by {
      SoundParts(p4, open);
      OnlyFirst(p5.slots);
    }
    forall later ensures !Mentions(Stream(d, p5, later), 1) {
      LostForGood(d, p5, open, 1, later);
    }
  }

  lemma NothingHeld()
    ensures AllHeld(Fresh(), {})
  {
  }

  lemma OnlyFirst(slots: seq<Slot>)
    requires forall k :: 0 <= k < |slots| && slots[k].contact == Some(1) ==> slots[k].pendingDown
    ensures !Held(slots, 1)
  {
  }
}
