/** The multi-touch encoder: only changes are sent, and a guest that keeps a slot
    table sees every touch as the device tracks it
    (emulator/plugin/virtio-input-android/src/virtio-input-android.c). */
module Touch {
  const NO_CONTACT: int := -1
  const PRESSURE_MAX: int := 0x400
  const TOUCH_AXIS_DEFAULT: int := 0x500

  datatype Contact = Contact(id: int, x: int, y: int, pressure: int)

  // ---------------------------------------------------------------- the guest

  /** The EV_ABS events sent to the guest. */
  datatype Event =
    | MtSlot(value: int)
    | MtTrackingId(value: int)
    | MtPositionX(value: int)
    | MtPositionY(value: int)
    | MtPressure(value: int)
    | MtToolType(value: int)
    | MtOrientation(value: int)
    | MtTouchMajor(value: int)
    | MtTouchMinor(value: int)

  /** A Linux multi-touch (type B) slot table: a selected slot, and per slot the last
      value of each axis. */
  datatype Guest = Guest(slot: int, slots: seq<Contact>)

  function FreshGuest(n: nat): (g: Guest)
    ensures |g.slots| == n && g.slot == 0
    ensures forall i :: 0 <= i < n ==> g.slots[i] == Contact(NO_CONTACT, 0, 0, 0)
  {
    Guest(0, seq(n, _ => Contact(NO_CONTACT, 0, 0, 0)))
  }

  /** One event: it selects a slot or sets an axis of the selected one. */
  function See(g: Guest, e: Event): (g1: Guest)
    ensures |g1.slots| == |g.slots|
  {
    if e.MtSlot? then g.(slot := e.value)
    else if !(0 <= g.slot < |g.slots|) then g
    else
      g.(slots := g.slots[g.slot := Axes(g.slots[g.slot], e)])
  }

  /** The axes that the device tracks. */
  function Axes(c: Contact, e: Event): Contact {
    match e
    case MtTrackingId(v) => c.(id := v)
    case MtPositionX(v) => c.(x := v)
    case MtPositionY(v) => c.(y := v)
    case MtPressure(v) => c.(pressure := v)
    case _ => c
  }

  /** One axis of the selected slot. */
  function SeeAxis(g: Guest, b: nat, e: Event): (g1: Guest)
    requires b < |g.slots|
    ensures |g1.slots| == |g.slots|
  {
    Guest(b, g.slots[b := Axes(g.slots[b], e)])
  }

  lemma ContactSeen(g: Guest, b: nat, c: Contact)
    requires b < |g.slots|
    ensures var g1 := SeeAxis(SeeAxis(SeeAxis(g, b, MtTrackingId(c.id)), b, MtPositionX(c.x)), b, MtPositionY(c.y));
            SeeAxis(SeeAxis(g1, b, MtToolType(0)), b, MtPressure(c.pressure)) == Guest(b, g.slots[b := c])
  {
  }

  lemma ReleaseSeen(g: Guest, b: nat)
    requires b < |g.slots|
    ensures SeeAxis(SeeAxis(g, b, MtPressure(0)), b, MtTrackingId(-1)) ==
            Guest(b, g.slots[b := g.slots[b].(pressure := 0, id := -1)])
  {
  }

  /** The slot table after a sequence of events. */
  function Replay(g: Guest, es: seq<Event>): (g1: Guest)
    ensures |g1.slots| == |g.slots|
  {
    if es == [] then g else See(Replay(g, es[..|es| - 1]), es[|es| - 1])
  }

  lemma ReplayOne(g: Guest, es: seq<Event>, e: Event)
    ensures Replay(g, es + [e]) == See(Replay(g, es), e)
  {
    assert (es + [e])[..|es|] == es;
  }

  /** The event that selects a slot, unless it is known to be selected. */
  function SlotEvents(current: int, slot: nat): seq<Event> {
    if slot == current then [] else [MtSlot(slot)]
  }

  /** The events of a move: none when the position is the same, otherwise the slot and
      the axes that differ. */
  function MoveEvents(current: int, b: nat, c: Contact, x: int, y: int, pressure: int): seq<Event> {
    if c.x == x && c.y == y then []
    else SlotEvents(current, b) + AxisEvents(c, x, y, pressure)
  }

  function AxisEvents(c: Contact, x: int, y: int, pressure: int): seq<Event> {
    (if c.x != x then [MtPositionX(x)] else [])
    + (if c.y != y then [MtPositionY(y)] else [])
    + (if c.pressure != pressure then [MtPressure(pressure)] else [])
  }

  // --------------------------------------------------------------- the device

  datatype Axis = AxisX | AxisY | AxisOther

  datatype Input = Button(button: nat, down: bool) | Move(axis: Axis, value: int)

  // ----------------------------------------------------- what is sent, from the inputs

  /** What decides the events of the next input: the held buttons, the slot known to be
      selected or -1, and the position. */
  datatype Encoder = Encoder(held: seq<bool>, slot: int, x: int, y: int)

  /** The buttons that are touches, and those of them whose press is a wheel step. */
  datatype Keys = Keys(mapped: seq<bool>, wheel: set<nat>)

  function TouchEvents(current: int, b: nat, x: int, y: int): seq<Event> {
    SlotEvents(current, b)
    + ([MtTrackingId(b), MtPositionX(x), MtPositionY(y), MtToolType(0), MtPressure(0x400)]
       + [MtOrientation(0), MtTouchMajor(0x500), MtTouchMinor(0x500)])
  }

  function ReleaseEvents(current: int, b: nat): seq<Event> {
    SlotEvents(current, b) + [MtPressure(0), MtTrackingId(-1)]
  }

  /** The slot selected last, when the held buttons below i have been selected in turn. */
  function LastHeld(held: seq<bool>, current: int, i: nat): int
    requires i <= |held|
  {
    if i == 0 then current else if held[i - 1] then i - 1 else LastHeld(held, current, i - 1)
  }

  /** One event for each held button below i, in order, with its slot. */
  function MotionEvents(held: seq<bool>, current: int, e: Event, i: nat): seq<Event>
    requires i <= |held|
  {
    if i == 0 then []
    else
      MotionEvents(held, current, e, i - 1)
      + if held[i - 1] then SlotEvents(LastHeld(held, current, i - 1), i - 1) + [e] else []
  }

  function Translated(k: Keys, input: Input): bool {
    input.Button? && input.button < |k.mapped| && k.mapped[input.button] && !(input.down && input.button in k.wheel)
  }

  /** The events of one input, and the state after it. */
  function Encode(s: Encoder, k: Keys, input: Input): (Encoder, seq<Event>)
    requires |s.held| == |k.mapped|
  {
    match input
    case Button(b, down) =>
      if !Translated(k, input) then (s, [])
      else if down then (s.(held := s.held[b := true], slot := b), TouchEvents(s.slot, b, s.x, s.y))
      else (s.(held := s.held[b := false], slot := -1), ReleaseEvents(s.slot, b))
    case Move(axis, v) =>
      if axis == AxisX && v != s.x then
        (s.(x := v, slot := LastHeld(s.held, s.slot, |s.held|)),
         MotionEvents(s.held, s.slot, MtPositionX(v), |s.held|))
      else if axis == AxisY && v != s.y then
        (s.(y := v, slot := LastHeld(s.held, s.slot, |s.held|)),
         MotionEvents(s.held, s.slot, MtPositionY(v), |s.held|))
      else (s, [])
  }

  /** The slot selected and the events sent in a motion, once the buttons below i have had
      their turn. */
  function Motion(s: Encoder, axis: Axis, v: int, i: nat): (int, seq<Event>)
    requires i <= |s.held|
  {
    if axis == AxisX && v != s.x then
      (LastHeld(s.held, s.slot, i), MotionEvents(s.held, s.slot, MtPositionX(v), i))
    else if axis == AxisY && v != s.y then
      (LastHeld(s.held, s.slot, i), MotionEvents(s.held, s.slot, MtPositionY(v), i))
    else (s.slot, [])
  }

  /** One turn is the move of a contact at the old position, if its button is held. */
  lemma MotionNext(s: Encoder, axis: Axis, v: int, i: nat, c: Contact)
    requires i < |s.held| && c.x == s.x && c.y == s.y && c.pressure == PRESSURE_MAX
    ensures var (slot, es) := Motion(s, axis, v, i);
            var x, y := if axis == AxisX then v else s.x, if axis == AxisY then v else s.y;
            Motion(s, axis, v, i + 1) ==
              if !s.held[i] then (slot, es)
              else (if x == s.x && y == s.y then slot else i, es + MoveEvents(slot, i, c, x, y, PRESSURE_MAX))
  {
    var (slot, es) := Motion(s, axis, v, i);
    assert es + [] == es;
    if axis == AxisX && v != s.x {
      assert AxisEvents(c, v, s.y, PRESSURE_MAX) == [MtPositionX(v)];
    } else if axis == AxisY && v != s.y {
      assert AxisEvents(c, s.x, v, PRESSURE_MAX) == [MtPositionY(v)];
    }
  }

  lemma MotionWhole(s: Encoder, k: Keys, axis: Axis, v: int)
    requires |s.held| == |k.mapped|
    ensures var (slot, es) := Motion(s, axis, v, |s.held|);
            Encode(s, k, Move(axis, v)) ==
              (s.(slot := slot, x := if axis == AxisX then v else s.x, y := if axis == AxisY then v else s.y), es)
  {
  }

  function EncodeAll(s: Encoder, k: Keys, inputs: seq<Input>): (r: (Encoder, seq<Event>))
    requires |s.held| == |k.mapped|
    ensures |r.0.held| == |k.mapped|
  {
    if inputs == [] then (s, [])
    else
      var before := EncodeAll(s, k, inputs[..|inputs| - 1]);
      Then(before, Encode(before.0, k, inputs[|inputs| - 1]))
  }

  function Then(before: (Encoder, seq<Event>), last: (Encoder, seq<Event>)): (Encoder, seq<Event>) {
    (last.0, before.1 + last.1)
  }

  lemma EncodeNext(s: Encoder, k: Keys, inputs: seq<Input>, i: nat)
    requires |s.held| == |k.mapped| && i < |inputs|
    ensures var before := EncodeAll(s, k, inputs[..i]);
            EncodeAll(s, k, inputs[..i + 1]) == Then(before, Encode(before.0, k, inputs[i]))
  {
    assert inputs[..i + 1][..i] == inputs[..i];
  }

  lemma Regroup(a: seq<Event>, b: seq<Event>, c: seq<Event>)
    ensures a + (b + c) == (a + b) + c
  {
  }

  function Ids(es: seq<Event>): nat {
    if es == [] then 0 else Ids(es[..|es| - 1]) + if es[|es| - 1].MtTrackingId? then 1 else 0
  }

  lemma {:induction false} IdsConcat(a: seq<Event>, b: seq<Event>)
    ensures Ids(a + b) == Ids(a) + Ids(b)
    decreases |b|
  {
    if b == [] {
      assert a + b == a;
    } else {
      assert (a + b)[..|a + b| - 1] == a + b[..|b| - 1];
      IdsConcat(a, b[..|b| - 1]);
    }
  }

  lemma OneEvent(e: Event)
    ensures Ids([e]) == if e.MtTrackingId? then 1 else 0
  {
    assert [e][..0] == [] && Ids([]) == 0;
  }

  lemma NoIds(current: int, b: nat)
    ensures Ids(SlotEvents(current, b)) == 0
  {
    OneEvent(MtSlot(b));
  }

  /** A motion sends no tracking id. */
  lemma {:induction false} MotionTouchesNothing(held: seq<bool>, current: int, e: Event, i: nat)
    requires i <= |held| && !e.MtTrackingId?
    ensures Ids(MotionEvents(held, current, e, i)) == 0
    decreases i
  {
    if i > 0 {
      MotionTouchesNothing(held, current, e, i - 1);
      var slots := SlotEvents(LastHeld(held, current, i - 1), i - 1);
      NoIds(LastHeld(held, current, i - 1), i - 1);
      OneEvent(e);
      IdsConcat(slots, [e]);
      IdsConcat(MotionEvents(held, current, e, i - 1), if held[i - 1] then slots + [e] else []);
    }
  }

  lemma TouchIds(current: int, b: nat, x: int, y: int)
    ensures Ids(TouchEvents(current, b, x, y)) == 1 && Ids(ReleaseEvents(current, b)) == 1
  {
    NoIds(current, b);
    var slots := SlotEvents(current, b);
    var some := [MtTrackingId(b), MtPositionX(x), MtPositionY(y), MtToolType(0), MtPressure(0x400)];
    var more := [MtOrientation(0), MtTouchMajor(0x500), MtTouchMinor(0x500)];
    assert some == [MtTrackingId(b)] + [MtPositionX(x)] + [MtPositionY(y)] + [MtToolType(0)] + [MtPressure(0x400)];
    assert more == [MtOrientation(0)] + [MtTouchMajor(0x500)] + [MtTouchMinor(0x500)];
    assert [MtPressure(0), MtTrackingId(-1)] == [MtPressure(0)] + [MtTrackingId(-1)];
    forall a: seq<Event>, e: Event ensures Ids(a + [e]) == Ids(a) + if e.MtTrackingId? then 1 else 0 {
      OneEvent(e);
      IdsConcat(a, [e]);
    }
    OneEvent(MtTrackingId(b));
    OneEvent(MtOrientation(0));
    OneEvent(MtPressure(0));
    IdsConcat(some, more);
    IdsConcat(slots, some + more);
    IdsConcat(slots, [MtPressure(0), MtTrackingId(-1)]);
  }

  function TranslatedCount(k: Keys, inputs: seq<Input>): nat {
    if inputs == [] then 0
    else TranslatedCount(k, inputs[..|inputs| - 1]) + if Translated(k, inputs[|inputs| - 1]) then 1 else 0
  }

  /** Over every run, touches begin and end exactly as often as a mapped button goes down
      or up. Motions neither begin nor end one. */
  lemma {:induction false} TouchesCounted(s: Encoder, k: Keys, inputs: seq<Input>)
    requires |s.held| == |k.mapped|
    ensures Ids(EncodeAll(s, k, inputs).1) == TranslatedCount(k, inputs)
    decreases |inputs|
  {
    if inputs != [] {
      var before := EncodeAll(s, k, inputs[..|inputs| - 1]);
      TouchesCounted(s, k, inputs[..|inputs| - 1]);
      var input := inputs[|inputs| - 1];
      IdsConcat(before.1, Encode(before.0, k, input).1);
      match input
      case Button(b, down) =>
        TouchIds(before.0.slot, b, before.0.x, before.0.y);
      case Move(axis, v) =>
        MotionTouchesNothing(before.0.held, before.0.slot, MtPositionX(v), |before.0.held|);
        MotionTouchesNothing(before.0.held, before.0.slot, MtPositionY(v), |before.0.held|);
    }
  }

  class TouchDevice {
    /** The number of buttons; which of them are mapped; the wheel. */
    const n: nat
    const mapped: seq<bool>
    const wheelAxis: bool
    const wheel: set<nat>

    const tracked: array<Contact>
    const held: array<bool>
    var currentSlot: int
    ghost var sent: seq<Event>

    /** What the guest makes of everything sent so far. */
    ghost function View(): Guest
      reads this
    {
      Replay(FreshGuest(n), sent)
    }

    ghost function Mapping(): Keys
      reads this
    {
      Keys(mapped, if wheelAxis then wheel else {})
    }

    /** What decides the events of the next input. */
    ghost function State(): Encoder
      requires tracked.Length > 0
      reads this, tracked, held
    {
      Encoder(held[..], currentSlot, tracked[0].x, tracked[0].y)
    }

    ghost predicate Shape()
      reads this
    {
      && tracked.Length == n && held.Length == n && |mapped| == n && n > 0
      && 0 <= View().slot < n
      && (currentSlot == -1 || currentSlot == View().slot)
    }

    /** Button b shows at the guest as the device has it. */
    ghost predicate Shown(b: nat)
      requires Shape() && b < n
      reads this, tracked, held
    {
      if held[b] then
        View().slots[b] == tracked[b] && tracked[b].id == b && tracked[b].pressure == PRESSURE_MAX
      else View().slots[b].id == NO_CONTACT
    }

    ghost predicate Valid()
      reads this, tracked, held
    {
      && Shape()
      && (forall b :: 0 <= b < n ==> Shown(b))
      && (forall b :: 0 <= b < n ==> tracked[b].x == tracked[0].x && tracked[b].y == tracked[0].y)
    }

    /** virtio_android_init. */
    constructor (n: nat, mapped: seq<bool>, wheelAxis: bool, wheel: set<nat>)
      requires n > 0 && |mapped| == n
      ensures Valid() && this.n == n && this.mapped == mapped && sent == []
      ensures fresh(tracked) && fresh(held)
      ensures held[..] == seq(n, _ => false) && State() == Encoder(held[..], 0, 0, 0)
    {
      this.n, this.mapped, this.wheelAxis, this.wheel := n, mapped, wheelAxis, wheel;
      tracked := new Contact[n](_ => Contact(0, 0, 0, 0));
      held := new bool[n](_ => false);
      currentSlot, sent := 0, [];
    }

    /** send_event. */
    method Send(e: Event)
      requires n > 0
      modifies this`sent
      ensures sent == old(sent) + [e] && View() == See(old(View()), e)
    {
      ReplayOne(FreshGuest(n), sent, e);
      sent := sent + [e];
    }

    /** Select a slot unless it is known to be selected. */
    method Select(slot: nat)
      requires Shape() && slot < n
      modifies this`sent
      ensures View() == old(View()).(slot := slot)
      ensures sent == old(sent) + SlotEvents(currentSlot, slot)
    {
      if slot != currentSlot {
        Send(MtSlot(slot));
      }
    }

    /** _mts_pointer_down. */
    method PointerDown(b: nat, x: int, y: int, pressure: int)
      requires Shape() && b < n
      modifies this`sent, this`currentSlot, tracked
      ensures Shape() && currentSlot == b
      ensures pressure == PRESSURE_MAX ==> sent == old(sent) + TouchEvents(old(currentSlot), b, x, y)
      ensures tracked[b] == Contact(b, x, y, pressure) && View().slots[b] == tracked[b]
      ensures forall i :: 0 <= i < n && i != b ==>
                tracked[i] == old(tracked[i]) && View().slots[i] == old(View()).slots[i]
    {
      tracked[b] := Contact(b, x, y, pressure);
      Select(b);
      currentSlot := b;
      ghost var sent1 := sent;
      SendContact(b, Contact(b, x, y, pressure));
      SendShape();
      Regroup(sent1, sent[|sent1|..|sent1| + 5], sent[|sent1| + 5..]);
      Regroup(old(sent), SlotEvents(old(currentSlot), b), sent[|sent1|..]);
    }

    /** All tracked axes of a touch down. */
    method SendContact(b: nat, c: Contact)
      requires b < n && View().slot == b
      modifies this`sent
      ensures sent == old(sent) + [MtTrackingId(c.id), MtPositionX(c.x), MtPositionY(c.y), MtToolType(0),
                                   MtPressure(c.pressure)]
      ensures View() == Guest(b, old(View()).slots[b := c])
    {
      ContactSeen(View(), b, c);
      SendAxis(b, MtTrackingId(c.id));
      SendAxis(b, MtPositionX(c.x));
      SendAxis(b, MtPositionY(c.y));
      SendAxis(b, MtToolType(0));
      SendAxis(b, MtPressure(c.pressure));
    }

    /** The axes that a touch down sends beyond those the device tracks. */
    method SendShape()
      requires Shape()
      modifies this`sent
      ensures Shape() && View() == old(View())
      ensures sent == old(sent) + [MtOrientation(0), MtTouchMajor(0x500), MtTouchMinor(0x500)]
    {
      Send(MtOrientation(0));
      Send(MtTouchMajor(TOUCH_AXIS_DEFAULT));
      Send(MtTouchMinor(TOUCH_AXIS_DEFAULT));
    }

    /** _mts_pointer_up. */
    method PointerUp(b: nat)
      requires Shape() && b < n
      modifies this`sent, this`currentSlot, tracked
      ensures Shape() && currentSlot == -1 && View().slots[b].id == NO_CONTACT
      ensures sent == old(sent) + ReleaseEvents(old(currentSlot), b)
      ensures tracked[b] == old(tracked[b]).(id := NO_CONTACT, pressure := 0)
      ensures forall i :: 0 <= i < n && i != b ==>
                tracked[i] == old(tracked[i]) && View().slots[i] == old(View()).slots[i]
    {
      Select(b);
      SendRelease(b);
      tracked[b] := tracked[b].(id := NO_CONTACT, pressure := 0);
      currentSlot := -1;
    }

    /** The axes of a touch that ends. */
    method SendRelease(b: nat)
      requires b < n && View().slot == b
      modifies this`sent
      ensures sent == old(sent) + [MtPressure(0), MtTrackingId(-1)]
      ensures View() == Guest(b, old(View()).slots[b := old(View()).slots[b].(pressure := 0, id := -1)])
    {
      ReleaseSeen(View(), b);
      SendAxis(b, MtPressure(0));
      SendAxis(b, MtTrackingId(NO_CONTACT));
    }

    /** _mts_pointer_move: only what changed is sent, and nothing when the position is
        the same. */
    method PointerMove(b: nat, x: int, y: int, pressure: int)
      requires Shape() && b < n && View().slots[b] == tracked[b]
      modifies this`sent, this`currentSlot, tracked
      ensures Shape() && View().slots[b] == tracked[b]
      ensures sent == old(sent) + MoveEvents(old(currentSlot), b, old(tracked[b]), x, y, pressure)
      ensures currentSlot == if old(tracked[b]).x == x && old(tracked[b]).y == y then old(currentSlot) else b
      ensures tracked[b] == if old(tracked[b]).x == x && old(tracked[b]).y == y then old(tracked[b])
                            else old(tracked[b]).(x := x, y := y, pressure := pressure)
      ensures forall i :: 0 <= i < n && i != b ==>
                tracked[i] == old(tracked[i]) && View().slots[i] == old(View()).slots[i]
    {
      if tracked[b].x == x && tracked[b].y == y {
        return;
      }
      Select(b);
      currentSlot := b;
      assert Guest(b, View().slots[b := tracked[b]]) == View();
      Regroup(old(sent), SlotEvents(old(currentSlot), b), AxisEvents(tracked[b], x, y, pressure));
      SendChanges(b, x, y, pressure);
    }

    /** The axes that differ, to the selected slot. */
    method SendChanges(b: nat, x: int, y: int, pressure: int)
      requires b < n == tracked.Length && View() == Guest(b, View().slots[b := tracked[b]])
      modifies this`sent, tracked
      ensures tracked[b] == old(tracked[b]).(x := x, y := y, pressure := pressure)
      ensures forall i :: 0 <= i < n && i != b ==> tracked[i] == old(tracked[i])
      ensures View() == Guest(b, old(View()).slots[b := tracked[b]])
      ensures sent == old(sent) + AxisEvents(old(tracked[b]), x, y, pressure)
    {
      SendIfChanged(b, tracked[b].x != x, MtPositionX(x));
      SendIfChanged(b, tracked[b].y != y, MtPositionY(y));
      SendIfChanged(b, tracked[b].pressure != pressure, MtPressure(pressure));
    }

    method SendIfChanged(b: nat, changed: bool, e: Event)
      requires b < n == tracked.Length && View() == Guest(b, View().slots[b := tracked[b]])
      requires !e.MtSlot? && (changed <==> Axes(tracked[b], e) != tracked[b])
      modifies this`sent, tracked
      ensures tracked[b] == Axes(old(tracked[b]), e)
      ensures forall i :: 0 <= i < n && i != b ==> tracked[i] == old(tracked[i])
      ensures View() == Guest(b, old(View()).slots[b := tracked[b]])
      ensures sent == old(sent) + if changed then [e] else []
    {
      if changed {
        SendAxis(b, e);
        tracked[b] := Axes(tracked[b], e);
      }
    }

    /** One axis of the selected slot. */
    method SendAxis(b: nat, e: Event)
      requires b < n && View().slot == b && !e.MtSlot?
      modifies this`sent
      ensures sent == old(sent) + [e]
      ensures View() == SeeAxis(old(View()), b, e)
    {
      Send(e);
    }

    /** The INPUT_EVENT_KIND_BTN case. */
    method HandleButton(b: nat, down: bool)
      requires Valid() && b < n
      modifies this`sent, this`currentSlot, tracked, held
      ensures Valid()
      ensures var (s, es) := Encode(old(State()), Mapping(), Button(b, down));
              State() == s && sent == old(sent) + es
    {
      if wheelAxis && b in wheel && down {
        // wheel events are not translated
      } else if mapped[b] {
        var x, y := tracked[b].x, tracked[b].y;
        held[b] := down;
        if down {
          PointerDown(b, x, y, PRESSURE_MAX);
        } else {
          PointerUp(b);
        }
        forall i | 0 <= i < n ensures Shown(i) {
          assert old(Shown(i));
        }
      }
    }

    /** The i-th button has had its turn in a motion. */
    ghost predicate Moving(i: nat, axis: Axis, value: int, s: Encoder, sent0: seq<Event>)
      reads this, tracked, held
    {
      && i <= n && Shape() && held[..] == s.held
      && (forall b :: 0 <= b < n ==> Shown(b))
      && (forall b :: 0 <= b < n ==>
            && tracked[b].x == (if axis == AxisX && b < i then value else s.x)
            && tracked[b].y == (if axis == AxisY && b < i then value else s.y))
      && i <= |s.held| && (currentSlot, sent) == (Motion(s, axis, value, i).0, sent0 + Motion(s, axis, value, i).1)
    }

    /** The INPUT_EVENT_KIND_ABS case: every held button moves, every tracked pointer
        takes the position. */
    method HandleMove(axis: Axis, value: int)
      requires Valid()
      modifies this`sent, this`currentSlot, tracked
      ensures Valid()
      ensures var (s, es) := Encode(old(State()), Mapping(), Move(axis, value));
              State() == s && sent == old(sent) + es
    {
      ghost var s, sent0 := State(), sent;
      var i := 0;
      assert sent0 + [] == sent0;
      while i < n
        invariant Moving(i, axis, value, s, sent0)
      {
        MoveButton(i, axis, value, s, sent0);
        i := i + 1;
      }
      MotionWhole(s, Mapping(), axis, value);
    }

    /** The i-th turn of the loop. */
    method MoveButton(i: nat, axis: Axis, value: int, ghost s: Encoder, ghost sent0: seq<Event>)
      requires i < n && Moving(i, axis, value, s, sent0)
      modifies this`sent, this`currentSlot, tracked
      ensures Moving(i + 1, axis, value, s, sent0)
    {
      var x, y := tracked[i].x, tracked[i].y;
      if axis == AxisX {
        x := value;
      } else if axis == AxisY {
        y := value;
      }
      assert Shown(i);
      ghost var (slot, es) := Motion(s, axis, value, i);
      MotionNext(s, axis, value, i, Contact(i, s.x, s.y, PRESSURE_MAX));
      Regroup(sent0, es, MoveEvents(slot, i, Contact(i, s.x, s.y, PRESSURE_MAX), x, y, PRESSURE_MAX));
      if held[i] {
        PointerMove(i, x, y, PRESSURE_MAX);
      }
      Track(i, axis, value);
      forall b | 0 <= b < n ensures Shown(b) {
        assert old(Shown(b));
      }
    }

    /** The i-th tracked pointer takes the coordinate. */
    method Track(i: nat, axis: Axis, value: int)
      requires i < n == tracked.Length
      modifies tracked
      ensures tracked[i] == if axis == AxisX then old(tracked[i]).(x := value)
                            else if axis == AxisY then old(tracked[i]).(y := value) else old(tracked[i])
      ensures forall b :: 0 <= b < n && b != i ==> tracked[b] == old(tracked[b])
    {
      if axis == AxisX {
        tracked[i] := tracked[i].(x := value);
      } else if axis == AxisY {
        tracked[i] := tracked[i].(y := value);
      }
    }

    ghost predicate SentSo(r: (Encoder, seq<Event>), sent0: seq<Event>)
      requires tracked.Length > 0
      reads this, tracked, held
    {
      State() == r.0 && sent == sent0 + r.1
    }

    /** virtio_input_handle_event. */
    method HandleOne(input: Input, ghost r: (Encoder, seq<Event>), ghost sent0: seq<Event>)
      requires Valid() && (input.Button? ==> input.button < n) && SentSo(r, sent0)
      modifies this`sent, this`currentSlot, tracked, held
      ensures Valid()
      ensures SentSo(Then(r, Encode(r.0, Mapping(), input)), sent0)
    {
      match input {
        case Button(b, down) => HandleButton(b, down);
        case Move(axis, value) => HandleMove(axis, value);
      }
      Regroup(sent0, r.1, Encode(r.0, Mapping(), input).1);
    }

    /** virtio_input_handle_event over any run of button and motion events: what is sent is
        decided by the inputs, and afterwards the guest's slot table shows every held
        button as the device tracks it and no other. */
    method HandleAll(inputs: seq<Input>)
      requires Valid() && forall i :: 0 <= i < |inputs| && inputs[i].Button? ==> inputs[i].button < n
      modifies this`sent, this`currentSlot, tracked, held
      ensures Valid()
      ensures var (s, es) := EncodeAll(old(State()), Mapping(), inputs);
              State() == s && sent == old(sent) + es
      ensures forall b :: 0 <= b < n ==>
                && (held[b] ==> View().slots[b] == Contact(b, State().x, State().y, 0x400))
                && (!held[b] ==> View().slots[b].id == -1)
                && held[b] == HeldAfter(old(held[b]), b, mapped[b], wheelAxis && b in wheel, inputs)
    {
      ghost var s0 := State();
      var i := 0;
      assert inputs[..0] == [];
      while i < |inputs|
        invariant 0 <= i <= |inputs| && Valid() && |s0.held| == |mapped|
        invariant SentSo(EncodeAll(s0, Mapping(), inputs[..i]), old(sent))
      {
        EncodeNext(s0, Mapping(), inputs, i);
        HandleOne(inputs[i], EncodeAll(s0, Mapping(), inputs[..i]), old(sent));
        i := i + 1;
      }
      assert inputs[..|inputs|] == inputs;
      forall b | 0 <= b < n
        ensures held[b] ==> View().slots[b] == Contact(b, State().x, State().y, 0x400)
        ensures !held[b] ==> View().slots[b].id == -1
        ensures held[b] == HeldAfter(old(held[b]), b, mapped[b], wheelAxis && b in wheel, inputs)
      {
        assert Shown(b);
        HeldEncoded(s0, Mapping(), b, inputs);
      }
    }
  }

  /** The buttons that the encoder counts as held. */
  lemma {:induction false} HeldEncoded(s: Encoder, k: Keys, b: nat, inputs: seq<Input>)
    requires |s.held| == |k.mapped| && b < |s.held|
    ensures EncodeAll(s, k, inputs).0.held[b] == HeldAfter(s.held[b], b, k.mapped[b], b in k.wheel, inputs)
    decreases |inputs|
  {
    if inputs != [] {
      HeldEncoded(s, k, b, inputs[..|inputs| - 1]);
    }
  }

  /** Whether button b is held after a run of inputs: its last translated event says. */
  function HeldAfter(was: bool, b: nat, mapped: bool, wheel: bool, inputs: seq<Input>): bool {
    if inputs == [] then was
    else
      var before := HeldAfter(was, b, mapped, wheel, inputs[..|inputs| - 1]);
      match inputs[|inputs| - 1]
      case Button(c, down) => if c == b && mapped && !(wheel && down) then down else before
      case Move(_, _) => before
  }
}
