/**
 The host as one machine: every packet handler of src/input.cpp over the whole state it can touch. Reports that
 only repeat a position are kept as the latest one; discrete events are kept in order, each with the state its own
 device had before it.
 */
module HostMachine {
  import opened Wrappers
  import opened Packets
  import opened Gamepad
  import Keys
  import Mouse = MouseButtons
  import opened ScrollWheel

  /** Gamepads the platform can hold among all clients. */
  const MAX_GAMEPADS := 16

  /** The settings the handlers read, and the controllers for which the platform refuses to create a device. */
  datatype Settings = Settings(
    mouse: bool,
    keyboard: bool,
    controller: bool,
    highResolution: bool,
    emulateHome: bool,
    keys: Keys.Settings,
    refused: set<int>)

  datatype Anchor = Anchor(x: int, y: int, width: int, height: int)

  /** The last absolute position and the relative moves since. */
  datatype Cursor = Cursor(anchor: Option<Anchor>, dx: int, dy: int)

  datatype Sample = Sample(event: TouchEvent, contact: Contact)

  /** A discrete touch event with the contacts of its surface before it. */
  datatype SurfaceEvent = SurfaceEvent(pointer: int, sample: Sample, before: map<int, Sample>)

  /** A pointer that turns to hovering or to moving, with its own last sample before it. */
  datatype PointerChange = PointerChange(before: Option<Sample>, event: TouchEvent)

  /** `contacts` has the latest sample of every pointer, `changes` what has become of each in turn. */
  datatype Surface = Surface(contacts: map<int, Sample>, events: seq<SurfaceEvent>,
                             changes: map<int, seq<PointerChange>>)

  const UNTOUCHED := Surface(map[], [], map[])

  datatype PenSample = PenSample(event: TouchEvent, tool: int, penButtons: int, tilt: int, contact: Contact)

  /** A change of what the pen does, with the last sample before it. */
  datatype PenChange = PenChange(before: Option<PenSample>, event: TouchEvent, tool: int, penButtons: int)

  datatype PenState = PenState(latest: Option<PenSample>, changes: seq<PenChange>)

  datatype Slot = Slot(pad: Pad, surface: Surface, sensors: map<int, Reading>, battery: seq<(int, int)>)

  /** `clicks` are the button packets with the cursor they found; `used` are the gamepad ids taken. */
  datatype Host = Host(
    cursor: Cursor,
    mouse: Mouse.Mouse,
    clicks: seq<(bool, nat, Cursor)>,
    vertical: Wheel,
    horizontal: Wheel,
    keyboard: Keys.Keyboard,
    texts: seq<seq<int>>,
    touch: Surface,
    pen: PenState,
    slots: seq<Slot>,
    used: set<nat>)

  function LastSample(s: Surface, pointer: int): Option<Sample> {
    if pointer in s.contacts then Some(s.contacts[pointer]) else None
  }

  function ChangesOf(s: Surface, pointer: int): seq<PointerChange> {
    if pointer in s.changes then s.changes[pointer] else []
  }

  function TouchSurface(s: Surface, pointer: int, sample: Sample): Surface {
    var before := LastSample(s, pointer);
    var same := before.Some? && before.value.event == sample.event;
    Surface(s.contacts[pointer := sample],
            if sample.event.Positional() then s.events
            else s.events + [SurfaceEvent(pointer, sample, s.contacts)],
            if !sample.event.Positional() || same then s.changes
            else s.changes[pointer := ChangesOf(s, pointer) + [PointerChange(before, sample.event)]])
  }

  function UsePen(p: PenState, sample: PenSample): PenState {
    var same := p.latest.Some? && sample.event.Positional() && p.latest.value.event == sample.event
                && p.latest.value.tool == sample.tool && p.latest.value.penButtons == sample.penButtons;
    PenState(Some(sample),
             if same then p.changes
             else p.changes + [PenChange(p.latest, sample.event, sample.tool, sample.penButtons)])
  }

  /** `alloc_id`: the lowest id that is not taken. */
  function LowestFree(used: set<nat>, from: nat): (id: Option<nat>)
    ensures id.Some? ==> id.value < MAX_GAMEPADS && id.value !in used
    ensures id.None? ==> forall x :: from <= x < MAX_GAMEPADS ==> x in used
    decreases MAX_GAMEPADS - from
  {
    if from >= MAX_GAMEPADS then None
    else if from !in used then Some(from)
    else LowestFree(used, from + 1)
  }

  predicate InRange(h: Host, pad: int) {
    0 <= pad < |h.slots|
  }

  predicate Allocated(h: Host, pad: int) {
    InRange(h, pad) && h.slots[pad].pad.id.Some?
  }

  function SetPad(h: Host, pad: int, p: Pad): Host
    requires InRange(h, pad)
  {
    h.(slots := h.slots[pad := h.slots[pad].(pad := p)])
  }

  /** A new pad: the host is left alone when there is no free id or the platform refuses the device. */
  function Allocate(h: Host, s: Settings, pad: int): Host
    requires InRange(h, pad)
  {
    var id := LowestFree(h.used, 0);
    if id.None? || pad in s.refused then h
    else SetPad(h, pad, Plug(h.slots[pad].pad, id.value)).(used := h.used + {id.value})
  }

  /** The device of a pad that leaves is gone, and its id is free again. */
  function Release(h: Host, pad: int): Host
    requires Allocated(h, pad)
  {
    var slot := h.slots[pad];
    h.(slots := h.slots[pad := Slot(Unplug(slot.pad), UNTOUCHED, map[], slot.battery)],
       used := h.used - {slot.pad.id.value})
  }

  function HandleController(h: Host, s: Settings, pad: int, active: set<int>, buttons: Buttons, axes: Axes): Host {
    if !s.controller || !InRange(h, pad) then h
    else if pad !in active && Allocated(h, pad) then Release(h, pad)
    else
      var ready := if pad in active && !Allocated(h, pad) then Allocate(h, s, pad) else h;
      if !Allocated(ready, pad) then ready
      else SetPad(ready, pad, Report(ready.slots[pad].pad, s.emulateHome, buttons, axes))
  }

  /** What each packet does to the host. */
  function Step(h: Host, s: Settings, p: Packet): Host {
    match p
    case RelMove(dx, dy) =>
      if !s.mouse then h
      else h.(mouse := Mouse.MovedRelatively(h.mouse),
              cursor := h.cursor.(dx := h.cursor.dx + dx, dy := h.cursor.dy + dy))
    case AbsMove(x, y, width, height) =>
      if !s.mouse then h
      else
        var moved := h.(mouse := Mouse.MovedAbsolutely(h.mouse));
        if width == 0 || height == 0 then moved
        else moved.(cursor := Cursor(Some(Anchor(x, y, width, height)), 0, 0))
    case MouseButton(release, button) =>
      if !s.mouse then h
      else h.(mouse := Mouse.Click(h.mouse, release, button), clicks := h.clicks + [(release, button, h.cursor)])
    case Scroll(amount, _) =>
      if !s.mouse then h else h.(vertical := Turn(h.vertical, s.highResolution, amount))
    case HScroll(amount) =>
      if !s.mouse then h else h.(horizontal := Turn(h.horizontal, s.highResolution, amount))
    case Key(release, keyCode, flags, modifiers) =>
      if !s.keyboard then h
      else h.(keyboard := Keys.Press(h.keyboard, s.keys, release, keyCode, flags, modifiers))
    case Text(text) =>
      if !s.keyboard then h else h.(texts := h.texts + [text])
    case Controller(pad, active, buttons, axes) => HandleController(h, s, pad, active, buttons, axes)
    case Touch(event, pointer, contact) =>
      if !s.mouse then h else h.(touch := TouchSurface(h.touch, pointer, Sample(event, contact)))
    case Pen(event, tool, penButtons, tilt, contact) =>
      if !s.mouse then h else h.(pen := UsePen(h.pen, PenSample(event, tool, penButtons, tilt, contact)))
    case PadArrival(pad, _) =>
      if !s.controller || !InRange(h, pad) || Allocated(h, pad) then h else Allocate(h, s, pad)
    case PadTouch(pad, event, pointer, contact) =>
      if !s.controller || !Allocated(h, pad) then h
      else
        var slot := h.slots[pad];
        h.(slots := h.slots[pad := slot.(surface := TouchSurface(slot.surface, pointer, Sample(event, contact)))])
    case PadMotion(pad, sensor, reading) =>
      if !s.controller || !Allocated(h, pad) then h
      else
        var slot := h.slots[pad];
        h.(slots := h.slots[pad := slot.(sensors := slot.sensors[sensor := reading])])
    case PadBattery(pad, state, percent) =>
      if !s.controller || !Allocated(h, pad) then h
      else
        var slot := h.slots[pad];
        h.(slots := h.slots[pad := slot.(battery := slot.battery + [(state, percent)])])
    case OtherPacket(_) => h
  }

  function Run(h: Host, s: Settings, packets: seq<Packet>): Host
    decreases |packets|
  {
    if packets == [] then h else Run(Step(h, s, packets[0]), s, packets[1..])
  }

  /** What the worker runs besides drains: the delayed tasks of the devices, and the task that `reset` pushes. */
  datatype HostTask =
    | PadTask(pad: int, task: nat)
    | RepeatTask(task: nat)
    | LeftReleaseTask(task: nat)
    | ResetTask(order: seq<Keys.KeyId>)

  function RunHostTask(h: Host, s: Settings, t: HostTask): Host {
    match t
    case PadTask(pad, task) => if InRange(h, pad) then SetPad(h, pad, RunTask(h.slots[pad].pad, task)) else h
    case RepeatTask(task) => h.(keyboard := Keys.RunRepeat(h.keyboard, s.keys, task))
    case LeftReleaseTask(task) => h.(mouse := Mouse.RunRelease(h.mouse, task))
    case ResetTask(order) =>
      h.(mouse := Mouse.ResetReleases(h.mouse, 0), keyboard := Keys.ReleaseAll(h.keyboard, order))
  }

  lemma {:induction false} RunAppend(h: Host, s: Settings, some: seq<Packet>, more: seq<Packet>)
    ensures Run(h, s, some + more) == Run(Run(h, s, some), s, more)
    decreases |some|
  {
    if some == [] {
      assert some + more == more;
    } else {
      assert (some + more)[1..] == some[1..] + more;
      RunAppend(Step(h, s, some[0]), s, some[1..], more);
    }
  }

  /**
   `alloc_id` on the bit set itself.
   */
  method AllocId(mask: array<bool>) returns (id: int)
    modifies mask
    ensures id == -1 ==> mask[..] == old(mask[..]) && forall x :: 0 <= x < mask.Length ==> mask[x]
    ensures id != -1 ==>
      && 0 <= id < mask.Length && !old(mask[id]) && mask[..] == old(mask[..])[id := true]
      && forall x :: 0 <= x < id ==> old(mask[x])
  {
    var x := 0;
    while x < mask.Length
      invariant 0 <= x <= mask.Length && mask[..] == old(mask[..])
      invariant forall y :: 0 <= y < x ==> mask[y]
    {
      if !mask[x] {
        mask[x] := true;
        return x;
      }
      x := x + 1;
    }
    return -1;
  }

  // ---------------------------------------------------------------------------------------------------
  // Comparing hosts
  // ---------------------------------------------------------------------------------------------------

  function SettleWheel(w: Wheel): Wheel {
    Wheel(w.emitted + w.remainder, 0)
  }

  /** The host with what its wheels have yet to emit counted as emitted. */
  function Settle(h: Host): Host {
    h.(vertical := SettleWheel(h.vertical), horizontal := SettleWheel(h.horizontal))
  }

  function Fine(s: Settings): Settings {
    s.(highResolution := true)
  }

  lemma {:induction false} RunSettled(h: Host, s: Settings, packets: seq<Packet>)
    ensures Settle(Run(h, s, packets)) == Run(Settle(h), Fine(s), packets)
    decreases |packets|
  {
    if packets != [] {
      StepSettled(h, s, packets[0]);
      RunSettled(Step(h, s, packets[0]), s, packets[1..]);
    }
  }

  lemma StepSettled(h: Host, s: Settings, p: Packet)
    ensures Settle(Step(h, s, p)) == Step(Settle(h), Fine(s), p)
  {
    hide HandleController, Allocate, TouchSurface, UsePen, Keys.Press, Mouse.Click;
    match p
    case Controller(pad, active, buttons, axes) => ControllerSettled(h, s, pad, active, buttons, axes);
    case PadArrival(pad, _) => if InRange(h, pad) { AllocateSettled(h, s, pad); }
    case Scroll(_, _) =>
    case HScroll(_) =>
    case PadTouch(_, _, _, _) =>
    case PadMotion(_, _, _) =>
    case PadBattery(_, _, _) =>
    case _ =>
  }

  lemma TaskSettled(h: Host, s: Settings, t: HostTask)
    ensures Settle(RunHostTask(h, s, t)) == RunHostTask(Settle(h), Fine(s), t)
  {
    hide RunTask, Keys.RunRepeat, Mouse.RunRelease, Mouse.ResetReleases, Keys.ReleaseAll;
  }

  lemma AllocateSettled(h: Host, s: Settings, pad: int)
    requires InRange(h, pad)
    ensures Settle(Allocate(h, s, pad)) == Allocate(Settle(h), Fine(s), pad)
  {
    hide LowestFree;
  }

  lemma ControllerSettled(h: Host, s: Settings, pad: int, active: set<int>, buttons: Buttons, axes: Axes)
    ensures Settle(HandleController(h, s, pad, active, buttons, axes))
         == HandleController(Settle(h), Fine(s), pad, active, buttons, axes)
  {
    hide Allocate, Report, Unplug;
    if InRange(h, pad) {
      AllocateSettled(h, s, pad);
    }
  }

  // ---------------------------------------------------------------------------------------------------
  // Ids of gamepads
  // ---------------------------------------------------------------------------------------------------

  /** Pads of this client hold distinct ids that are marked as taken. */
  ghost predicate Valid(h: Host) {
    && (forall pad :: Allocated(h, pad) ==>
          h.slots[pad].pad.id.value in h.used && h.slots[pad].pad.id.value < MAX_GAMEPADS)
    && (forall a, b :: Allocated(h, a) && Allocated(h, b) && h.slots[a].pad.id == h.slots[b].pad.id ==> a == b)
  }

  /** The ids that the pads of this client hold; the others that are taken belong to other clients. */
  function OwnIds(h: Host): set<nat> {
    set pad | 0 <= pad < |h.slots| && h.slots[pad].pad.id.Some? :: h.slots[pad].pad.id.value
  }

  function FreeIds(h: Host): set<nat> {
    set id: nat | id < MAX_GAMEPADS && id !in h.used
  }

  /** Pads that could still be given a device. */
  function Wanting(h: Host, s: Settings): set<int> {
    set pad | 0 <= pad < |h.slots| && h.slots[pad].pad.id.None? && pad !in s.refused
  }

  /** No id is free and no pad of this client can give one back. */
  predicate Dead(h: Host) {
    FreeIds(h) == {} && forall pad | 0 <= pad < |h.slots| :: h.slots[pad].pad.id.None?
  }

  /** No pad of this client can ever be left without an id while another of its pads gives one back. */
  predicate IdsSuffice(h: Host, s: Settings) {
    !s.controller || |FreeIds(h)| >= |Wanting(h, s)| || Dead(h)
  }

  lemma AllocateCounts(h: Host, s: Settings, pad: int)
    requires Valid(h) && InRange(h, pad) && !Allocated(h, pad)
    ensures var g := Allocate(h, s, pad);
      && Valid(g)
      && (g == h || (Allocated(g, pad) && |FreeIds(g)| == |FreeIds(h)| - 1 &&
                     |Wanting(g, s)| == |Wanting(h, s)| - 1))
    ensures !Allocated(Allocate(h, s, pad), pad) ==> pad in s.refused || FreeIds(h) == {}
  {
    var id := LowestFree(h.used, 0);
    if id.Some? && pad !in s.refused {
      var g := Allocate(h, s, pad);
      assert FreeIds(g) == FreeIds(h) - {id.value};
      assert Wanting(g, s) == Wanting(h, s) - {pad};
      assert pad in Wanting(h, s) && id.value in FreeIds(h);
    }
  }

  lemma ReleaseCounts(h: Host, s: Settings, pad: int)
    requires Valid(h) && Allocated(h, pad)
    ensures var g := Release(h, pad);
      Valid(g) && |FreeIds(g)| == |FreeIds(h)| + 1 && |Wanting(g, s)| <= |Wanting(h, s)| + 1
  {
    var g := Release(h, pad);
    var id := h.slots[pad].pad.id.value;
    assert FreeIds(g) == FreeIds(h) + {id};
    assert Wanting(g, s) == if pad in s.refused then Wanting(h, s) else Wanting(h, s) + {pad};
  }

  lemma SlotChangeKeepsIds(h: Host, s: Settings, g: Host)
    requires Valid(h) && IdsSuffice(h, s)
    requires g.used == h.used && |g.slots| == |h.slots|
    requires forall pad | 0 <= pad < |h.slots| :: g.slots[pad].pad.id == h.slots[pad].pad.id
    ensures Valid(g) && IdsSuffice(g, s)
  {
    assert FreeIds(g) == FreeIds(h);
    assert Wanting(g, s) == Wanting(h, s);
    assert forall pad :: Allocated(g, pad) <==> Allocated(h, pad);
  }

  lemma StepKeepsIds(h: Host, s: Settings, p: Packet)
    requires Valid(h) && IdsSuffice(h, s)
    ensures Valid(Step(h, s, p)) && IdsSuffice(Step(h, s, p), s)
  {
    if p.Controller? && s.controller && InRange(h, p.pad) {
      ControllerKeepsIds(h, s, p);
    } else if p.PadArrival? && s.controller && InRange(h, p.pad) && !Allocated(h, p.pad) {
      AllocateCounts(h, s, p.pad);
    } else {
      StepKeepsPads(h, s, p);
      SlotChangeKeepsIds(h, s, Step(h, s, p));
    }
  }

  /** Other packets leave the ids alone. */
  lemma StepKeepsPads(h: Host, s: Settings, p: Packet)
    requires p.Controller? ==> !s.controller || !InRange(h, p.pad)
    requires p.PadArrival? ==> !s.controller || !InRange(h, p.pad) || Allocated(h, p.pad)
    ensures var g := Step(h, s, p);
      && g.used == h.used && |g.slots| == |h.slots|
      && forall pad | 0 <= pad < |h.slots| :: g.slots[pad].pad.id == h.slots[pad].pad.id
  {
    hide Allocate, Report, Unplug, TouchSurface, UsePen, Keys.Press, Mouse.Click, Turn;
  }

  lemma ControllerKeepsIds(h: Host, s: Settings, p: Packet)
    requires Valid(h) && IdsSuffice(h, s) && p.Controller? && s.controller && InRange(h, p.pad)
    ensures Valid(Step(h, s, p)) && IdsSuffice(Step(h, s, p), s)
  {
    hide FreeIds, Wanting, Allocate, Release, Report;
    if p.pad !in p.active && Allocated(h, p.pad) {
      ReleaseCounts(h, s, p.pad);
      assert !Dead(h);
    } else {
      var ready := if p.pad in p.active && !Allocated(h, p.pad) then Allocate(h, s, p.pad) else h;
      ReadyKeepsIds(h, s, p.pad, ready);
      if Allocated(ready, p.pad) {
        ReportChangesNoId(ready.slots[p.pad].pad, s.emulateHome, p.buttons, p.axes);
      }
      SlotChangeKeepsIds(ready, s, Step(h, s, p));
    }
  }

  lemma ReadyKeepsIds(h: Host, s: Settings, pad: int, ready: Host)
    requires Valid(h) && IdsSuffice(h, s) && InRange(h, pad)
    requires ready == h || (!Allocated(h, pad) && ready == Allocate(h, s, pad))
    ensures Valid(ready) && IdsSuffice(ready, s) && InRange(ready, pad)
  {
    hide Allocate, Wanting;
    if ready != h {
      AllocateCounts(h, s, pad);
      if Dead(h) {
        NoneToGive(h, s, pad);
      }
    }
  }

  lemma NoneToGive(h: Host, s: Settings, pad: int)
    requires FreeIds(h) == {} && InRange(h, pad)
    ensures Allocate(h, s, pad) == h
  {
    forall id: nat | id < MAX_GAMEPADS ensures id in h.used {
      assert id !in FreeIds(h);
    }
  }

  lemma ReportChangesNoId(p: Pad, emulate: bool, buttons: Buttons, axes: Axes)
    ensures Report(p, emulate, buttons, axes).id == p.id
  {
  }

  // ---------------------------------------------------------------------------------------------------
  // No id is leaked
  // ---------------------------------------------------------------------------------------------------

  lemma AllocateLeaksNothing(h: Host, s: Settings, pad: int)
    requires Valid(h) && InRange(h, pad) && !Allocated(h, pad)
    ensures var g := Allocate(h, s, pad); Valid(g) && g.used - OwnIds(g) == h.used - OwnIds(h)
  {
    AllocateCounts(h, s, pad);
    var g := Allocate(h, s, pad);
    if g != h {
      var id := LowestFree(h.used, 0).value;
      assert OwnIds(g) == OwnIds(h) + {id} by {
        assert g.slots[pad].pad.id == Some(id);
        forall own | own in OwnIds(h) ensures own in OwnIds(g) {
          var other :| 0 <= other < |h.slots| && h.slots[other].pad.id == Some(own);
          assert g.slots[other] == h.slots[other];
        }
      }
    }
  }

  lemma ReleaseLeaksNothing(h: Host, pad: int)
    requires Valid(h) && Allocated(h, pad)
    ensures var g := Release(h, pad); Valid(g) && g.used - OwnIds(g) == h.used - OwnIds(h)
  {
    var g := Release(h, pad);
    var id := h.slots[pad].pad.id.value;
    assert OwnIds(g) == OwnIds(h) - {id} by {
      forall own | own in OwnIds(h) && own != id ensures own in OwnIds(g) {
        var other :| 0 <= other < |h.slots| && h.slots[other].pad.id == Some(own);
        assert g.slots[other] == h.slots[other];
      }
    }
  }

  lemma SlotChangeLeaksNothing(h: Host, g: Host)
    requires Valid(h) && g.used == h.used && |g.slots| == |h.slots|
    requires forall pad | 0 <= pad < |h.slots| :: g.slots[pad].pad.id == h.slots[pad].pad.id
    ensures Valid(g) && OwnIds(g) == OwnIds(h)
  {
    assert forall pad :: Allocated(g, pad) <==> Allocated(h, pad);
  }

  /** The ids taken are at all times those of the other clients and exactly those that pads of this client hold. */
  lemma StepLeaksNoId(h: Host, s: Settings, p: Packet)
    requires Valid(h)
    ensures var g := Step(h, s, p); Valid(g) && g.used - OwnIds(g) == h.used - OwnIds(h)
  {
    hide OwnIds, Allocate, Release, Report;
    if p.Controller? && s.controller && InRange(h, p.pad) {
      if p.pad !in p.active && Allocated(h, p.pad) {
        ReleaseLeaksNothing(h, p.pad);
      } else {
        var ready := if p.pad in p.active && !Allocated(h, p.pad) then Allocate(h, s, p.pad) else h;
        if ready != h {
          AllocateLeaksNothing(h, s, p.pad);
          AllocateInRange(h, s, p.pad);
        }
        if Allocated(ready, p.pad) {
          ReportChangesNoId(ready.slots[p.pad].pad, s.emulateHome, p.buttons, p.axes);
        }
        SlotChangeLeaksNothing(ready, Step(h, s, p));
      }
    } else if p.PadArrival? && s.controller && InRange(h, p.pad) && !Allocated(h, p.pad) {
      AllocateLeaksNothing(h, s, p.pad);
    } else {
      StepKeepsPads(h, s, p);
      SlotChangeLeaksNothing(h, Step(h, s, p));
    }
  }

  lemma AllocateInRange(h: Host, s: Settings, pad: int)
    requires InRange(h, pad)
    ensures InRange(Allocate(h, s, pad), pad)
  {
  }

  lemma {:induction false} RunLeaksNoId(h: Host, s: Settings, packets: seq<Packet>)
    requires Valid(h)
    ensures var g := Run(h, s, packets); Valid(g) && g.used - OwnIds(g) == h.used - OwnIds(h)
    decreases |packets|
  {
    if packets != [] {
      StepLeaksNoId(h, s, packets[0]);
      RunLeaksNoId(Step(h, s, packets[0]), s, packets[1..]);
    }
  }
}
