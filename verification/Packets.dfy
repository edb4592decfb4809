/**
 Input packets as the client queues them, and the rule that decides whether a later packet may be
 folded into an earlier one (the `batch` overloads of src/input.cpp).
 */
module Packets {

  /** A value the wire carries as a signed 16-bit integer. */
  type int16 = x: int | -0x8000 <= x <= 0x7fff

  predicate Fits16(x: int) {
    -0x8000 <= x <= 0x7fff
  }

  /** The 32 button bits of a controller; BACK and HOME are the two the host treats specially. */
  datatype Buttons = Buttons(back: bool, home: bool, others: int)

  const RELEASED := Buttons(false, false, 0)

  datatype Axes = Axes(leftTrigger: int, rightTrigger: int, leftX: int, leftY: int, rightX: int, rightY: int)

  datatype TouchEvent = Hover | Down | Up | Move | Cancel | ButtonOnly | HoverLeave | CancelAll | OtherEvent(code: int)
  {
    /** Only MOVE and HOVER describe a position; every other event changes the state of a pointer. */
    predicate Positional() {
      Move? || Hover?
    }
  }

  datatype Contact = Contact(x: real, y: real, pressure: real, major: real, minor: real, rotation: int)

  /** One sample of a motion sensor. */
  datatype Reading = Reading(rx: real, ry: real, rz: real)

  datatype Modifiers = Modifiers(shift: bool, ctrl: bool, alt: bool)

  datatype Packet =
    | RelMove(dx: int16, dy: int16)
    | AbsMove(x: int16, y: int16, width: int16, height: int16)
    | MouseButton(release: bool, button: nat)
    | Scroll(amount1: int16, amount2: int16)
    | HScroll(amount: int16)
    | Key(release: bool, keyCode: int, flags: nat, modifiers: Modifiers)
    | Text(text: seq<int>)
    | Controller(pad: int, active: set<int>, buttons: Buttons, axes: Axes)
    | Touch(event: TouchEvent, pointer: int, contact: Contact)
    | Pen(event: TouchEvent, tool: int, penButtons: int, tilt: int, contact: Contact)
    | PadArrival(pad: int, kind: int)
    | PadTouch(pad: int, event: TouchEvent, pointer: int, contact: Contact)
    | PadMotion(pad: int, sensor: int, reading: Reading)
    | PadBattery(pad: int, state: int, percent: int)
    | OtherPacket(magic: int)

  datatype BatchResult = Batched(merged: Packet) | NotBatchable | TerminateBatch

  /** What becomes of the packet `dest` about to be sent when `src` is found later in the queue. */
  function Batch(dest: Packet, src: Packet): BatchResult {
    match (dest, src)
    case (RelMove(dx, dy), RelMove(dx', dy')) =>
      if Fits16(dx + dx') && Fits16(dy + dy') then Batched(RelMove(dx + dx', dy + dy')) else TerminateBatch
    case (AbsMove(_, _, width, height), AbsMove(_, _, width', height')) =>
      if width == width' && height == height' then Batched(src) else TerminateBatch
    case (Scroll(amount, _), Scroll(amount', _)) =>
      if Fits16(amount + amount') then Batched(Scroll(amount + amount', amount + amount')) else TerminateBatch
    case (HScroll(amount), HScroll(amount')) =>
      if Fits16(amount + amount') then Batched(HScroll(amount + amount')) else TerminateBatch
    case (Controller(pad, active, buttons, _), Controller(pad', active', buttons', _)) =>
      if active != active' then TerminateBatch
      else if pad != pad' then NotBatchable
      else if buttons != buttons' then TerminateBatch
      else Batched(src)
    case (Touch(event, pointer, _), Touch(event', pointer', _)) =>
      if !event.Positional() || !event'.Positional() then TerminateBatch
      else if pointer != pointer' then NotBatchable
      else if event != event' then TerminateBatch
      else Batched(src)
    case (Pen(event, tool, penButtons, _, _), Pen(event', tool', penButtons', _, _)) =>
      if !event.Positional() || event != event' || penButtons != penButtons' || tool != tool' then TerminateBatch
      else Batched(src)
    case (PadTouch(pad, event, pointer, _), PadTouch(pad', event', pointer', _)) =>
      if !event.Positional() then TerminateBatch
      else if pad != pad' then NotBatchable
      else if !event'.Positional() then TerminateBatch
      else if pointer != pointer' then NotBatchable
      else if event != event' then TerminateBatch
      else Batched(src)
    case (PadMotion(pad, sensor, _), PadMotion(pad', sensor', _)) =>
      if pad != pad' || sensor != sensor' then NotBatchable else Batched(src)
    case _ => TerminateBatch
  }

  /**
   A packet nothing merges with or moves across: no earlier packet reaches past it, and it stops its own
   search at once.
   */
  predicate Fence(p: Packet) {
    match p
    case MouseButton(_, _) | Key(_, _, _, _) | Text(_) | PadArrival(_, _) | PadBattery(_, _, _)
       | OtherPacket(_) => true
    case Touch(event, _, _) => !event.Positional()
    case _ => false
  }

  lemma FencesStopBatching(p: Packet, q: Packet)
    requires Fence(p) || Fence(q)
    ensures Batch(p, q) == TerminateBatch
  {
  }
}
