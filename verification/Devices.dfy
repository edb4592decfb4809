/**
 What reaches the devices of the host (src/input.cpp, the handlers): each device sees exactly the packets that are about
 it, in order, and shows what the last of them says.
 */
module Devices {
  import opened Wrappers
  import opened Packets
  import opened Gamepad
  import opened HostMachine
  import opened ScrollWheel
  import Keys
  import Mouse = MouseButtons

  lemma RunOneMore(h: Host, s: Settings, packets: seq<Packet>, p: Packet)
    ensures Run(h, s, packets + [p]) == Step(Run(h, s, packets), s, p)
  {
    hide Step;
    RunAppend(h, s, packets, [p]);
    var g := Run(h, s, packets);
    assert [p][1..] == [];
    assert Run(Step(g, s, p), s, []) == Step(g, s, p);
  }

  // ---------------------------------------------------------------------------------------------------
  // Keyboard, mouse buttons, wheels, text
  // ---------------------------------------------------------------------------------------------------

  /** The keyboard packets among `packets`. */
  function KeyStepsOf(packets: seq<Packet>): seq<Keys.KeyStep> {
    if packets == [] then []
    else if packets[0].Key? then
      [Keys.KeyStep.Packet(packets[0].release, packets[0].keyCode, packets[0].flags, packets[0].modifiers)]
      + KeyStepsOf(packets[1..])
    else KeyStepsOf(packets[1..])
  }

  lemma KeyboardAfter(h: Host, s: Settings, p: Packet)
    ensures Step(h, s, p).keyboard ==
      if p.Key? && s.keyboard then Keys.Press(h.keyboard, s.keys, p.release, p.keyCode, p.flags, p.modifiers)
      else h.keyboard
  {
    hide LowestFree, Report, Unplug, Plug, TouchSurface, UsePen, Keys.Press, Mouse.Click, Turn;
  }

  lemma {:induction false} KeyboardGetsItsPackets(h: Host, s: Settings, packets: seq<Packet>)
    requires s.keyboard
    ensures Run(h, s, packets).keyboard == Keys.ApplyAll(h.keyboard, s.keys, KeyStepsOf(packets))
    decreases |packets|
  {
    hide Step, Keys.Press;
    if packets != [] {
      KeyboardAfter(h, s, packets[0]);
      KeyboardGetsItsPackets(Step(h, s, packets[0]), s, packets[1..]);
      if packets[0].Key? {
        assert KeyStepsOf(packets)[1..] == KeyStepsOf(packets[1..]);
      }
    }
  }

  /** The mouse packets among `packets`, as the buttons see them. */
  function MouseStepsOf(packets: seq<Packet>): seq<Mouse.MouseStep>
    decreases |packets|
  {
    if packets == [] then []
    else
      var p := packets[|packets| - 1];
      MouseStepsOf(packets[..|packets| - 1]) +
      if p.RelMove? then [Mouse.Relative]
      else if p.AbsMove? then [Mouse.Absolute]
      else if p.MouseButton? then [Mouse.Button(p.release, p.button)]
      else []
  }

  lemma MouseAfter(h: Host, s: Settings, p: Packet)
    requires s.mouse
    ensures var g := Step(h, s, p);
      && g.mouse == (if p.RelMove? then Mouse.MovedRelatively(h.mouse)
                     else if p.AbsMove? then Mouse.MovedAbsolutely(h.mouse)
                     else if p.MouseButton? then Mouse.Click(h.mouse, p.release, p.button)
                     else h.mouse)
      && g.clicks == h.clicks + (if p.MouseButton? then [(p.release, p.button, h.cursor)] else [])
  {
    hide LowestFree, Report, Unplug, Plug, TouchSurface, UsePen, Keys.Press, Mouse.Click, Turn;
    assert h.clicks + [] == h.clicks;
  }

  lemma {:induction false} MouseGetsItsPackets(h: Host, s: Settings, packets: seq<Packet>)
    requires s.mouse
    ensures Run(h, s, packets).mouse == Mouse.ApplyAll(h.mouse, MouseStepsOf(packets))
    decreases |packets|
  {
    hide Step, Run, Mouse.Click, Mouse.MovedRelatively, Mouse.MovedAbsolutely, Mouse.ApplyAll;
    if packets == [] {
      NoMouseSteps(h.mouse);
      assert Run(h, s, []) == h by { NothingRuns(h, s); }
    } else {
      var n := |packets| - 1;
      var before, p := packets[..n], packets[n];
      assert packets == before + [p];
      RunOneMore(h, s, before, p);
      MouseAfter(Run(h, s, before), s, p);
      MouseGetsItsPackets(h, s, before);
      var steps := MouseStepsOf(before);
      if p.RelMove? {
        MouseStepAfter(h.mouse, steps, Mouse.Relative);
      } else if p.AbsMove? {
        MouseStepAfter(h.mouse, steps, Mouse.Absolute);
      } else if p.MouseButton? {
        MouseStepAfter(h.mouse, steps, Mouse.Button(p.release, p.button));
      } else {
        assert steps + [] == steps;
      }
    }
  }

  lemma NoMouseSteps(m: Mouse.Mouse)
    ensures Mouse.ApplyAll(m, []) == m
  {
  }

  lemma NothingRuns(h: Host, s: Settings)
    ensures Run(h, s, []) == h
  {
  }

  lemma MouseStepAfter(m: Mouse.Mouse, steps: seq<Mouse.MouseStep>, step: Mouse.MouseStep)
    ensures Mouse.ApplyAll(m, steps + [step]) == Mouse.Apply(Mouse.ApplyAll(m, steps), step)
  {
    assert (steps + [step])[..|steps|] == steps;
  }

  function TextsOf(packets: seq<Packet>): seq<seq<int>>
    decreases |packets|
  {
    if packets == [] then []
    else
      var p := packets[|packets| - 1];
      TextsOf(packets[..|packets| - 1]) + if p.Text? then [p.text] else []
  }

  lemma TextAfter(h: Host, s: Settings, p: Packet)
    ensures Step(h, s, p).texts == h.texts + if p.Text? && s.keyboard then [p.text] else []
  {
    hide LowestFree, Report, Unplug, Plug, TouchSurface, UsePen, Keys.Press, Mouse.Click, Turn;
    assert h.texts + [] == h.texts;
  }

  /** What is typed is what was sent, in order. */
  lemma {:induction false} TextsAreTyped(h: Host, s: Settings, packets: seq<Packet>)
    requires s.keyboard
    ensures Run(h, s, packets).texts == h.texts + TextsOf(packets)
    decreases |packets|
  {
    hide Step;
    if packets == [] {
      assert h.texts + [] == h.texts;
    } else {
      var n := |packets| - 1;
      var before, p := packets[..n], packets[n];
      assert packets == before + [p];
      RunOneMore(h, s, before, p);
      TextAfter(Run(h, s, before), s, p);
      TextsAreTyped(h, s, before);
      var last := if p.Text? then [p.text] else [];
      assert h.texts + TextsOf(before) + last == h.texts + (TextsOf(before) + last);
    }
  }

  /** The amounts of the scroll packets, vertical or horizontal. */
  function AmountsOf(packets: seq<Packet>, horizontal: bool): seq<int> {
    if packets == [] then []
    else if packets[0].Scroll? && !horizontal then [packets[0].amount1] + AmountsOf(packets[1..], horizontal)
    else if packets[0].HScroll? && horizontal then [packets[0].amount] + AmountsOf(packets[1..], horizontal)
    else AmountsOf(packets[1..], horizontal)
  }

  lemma WheelsAfter(h: Host, s: Settings, p: Packet)
    requires s.mouse
    ensures var g := Step(h, s, p);
      && g.vertical == (if p.Scroll? then Turn(h.vertical, s.highResolution, p.amount1) else h.vertical)
      && g.horizontal == (if p.HScroll? then Turn(h.horizontal, s.highResolution, p.amount) else h.horizontal)
  {
    hide LowestFree, Report, Unplug, Plug, TouchSurface, UsePen, Keys.Press, Mouse.Click, Turn;
  }

  /** What a wheel has emitted, with what is left over, is what was sent to it; at high resolution nothing is left. */
  lemma {:induction false} WheelsGetTheirPackets(h: Host, s: Settings, packets: seq<Packet>)
    requires s.mouse
    ensures var g := Run(h, s, packets);
      && g.vertical.emitted + g.vertical.remainder
         == h.vertical.emitted + h.vertical.remainder + Total(AmountsOf(packets, false))
      && g.horizontal.emitted + g.horizontal.remainder
         == h.horizontal.emitted + h.horizontal.remainder + Total(AmountsOf(packets, true))
      && (s.highResolution ==>
            g.vertical.remainder == h.vertical.remainder && g.horizontal.remainder == h.horizontal.remainder)
    decreases |packets|
  {
    hide Step, Quotient;
    if packets != [] {
      WheelsAfter(h, s, packets[0]);
      WheelsGetTheirPackets(Step(h, s, packets[0]), s, packets[1..]);
      if packets[0].Scroll? {
        assert AmountsOf(packets, false)[1..] == AmountsOf(packets[1..], false);
      } else if packets[0].HScroll? {
        assert AmountsOf(packets, true)[1..] == AmountsOf(packets[1..], true);
      }
    }
  }

  // ---------------------------------------------------------------------------------------------------
  // The pointer
  // ---------------------------------------------------------------------------------------------------

  /** A packet that puts the pointer somewhere. */
  predicate Places(p: Packet) {
    p.AbsMove? && p.width != 0 && p.height != 0
  }

  function MovedBy(packets: seq<Packet>): (int, int)
    decreases |packets|
  {
    if packets == [] then (0, 0)
    else
      var p, (dx, dy) := packets[|packets| - 1], MovedBy(packets[..|packets| - 1]);
      if p.RelMove? then (dx + p.dx, dy + p.dy) else (dx, dy)
  }

  lemma CursorAfter(h: Host, s: Settings, p: Packet)
    requires s.mouse
    ensures Step(h, s, p).cursor ==
      if Places(p) then Cursor(Some(Anchor(p.x, p.y, p.width, p.height)), 0, 0)
      else if p.RelMove? then h.cursor.(dx := h.cursor.dx + p.dx, dy := h.cursor.dy + p.dy)
      else h.cursor
  {
    hide LowestFree, Report, Unplug, Plug, TouchSurface, UsePen, Keys.Press, Mouse.Click, Turn;
  }

  /** Without an absolute position the pointer moves by the sum of the relative moves. */
  lemma {:induction false} MovesAddUp(h: Host, s: Settings, packets: seq<Packet>)
    requires s.mouse && forall i :: 0 <= i < |packets| ==> !Places(packets[i])
    ensures Run(h, s, packets).cursor ==
      h.cursor.(dx := h.cursor.dx + MovedBy(packets).0, dy := h.cursor.dy + MovedBy(packets).1)
    decreases |packets|
  {
    hide Step, Places;
    if packets != [] {
      var n := |packets| - 1;
      assert packets == packets[..n] + [packets[n]];
      RunOneMore(h, s, packets[..n], packets[n]);
      CursorAfter(Run(h, s, packets[..n]), s, packets[n]);
      MovesAddUp(h, s, packets[..n]);
    }
  }

  /** The pointer is where the last absolute position put it and the relative moves since have taken it. */
  lemma PointerIsWhereItWasSent(h: Host, s: Settings, before: seq<Packet>, p: Packet, since: seq<Packet>)
    requires s.mouse && Places(p) && forall i :: 0 <= i < |since| ==> !Places(since[i])
    ensures Run(h, s, before + [p] + since).cursor ==
      Cursor(Some(Anchor(p.x, p.y, p.width, p.height)), MovedBy(since).0, MovedBy(since).1)
  {
    RunAppend(h, s, before + [p], since);
    RunOneMore(h, s, before, p);
    CursorAfter(Run(h, s, before), s, p);
    MovesAddUp(Run(h, s, before + [p]), s, since);
  }

  /** A button packet is passed on with the pointer as it is then. */
  lemma ButtonSeesThePointer(h: Host, s: Settings, before: seq<Packet>, release: bool, button: nat)
    requires s.mouse
    ensures var g := Run(h, s, before);
      Run(h, s, before + [MouseButton(release, button)]).clicks == g.clicks + [(release, button, g.cursor)]
  {
    hide Step;
    RunOneMore(h, s, before, MouseButton(release, button));
    MouseAfter(Run(h, s, before), s, MouseButton(release, button));
  }

  // ---------------------------------------------------------------------------------------------------
  // Touches and the pen
  // ---------------------------------------------------------------------------------------------------

  lemma SurfaceAfter(h: Host, s: Settings, p: Packet)
    requires s.mouse
    ensures Step(h, s, p).touch ==
      if p.Touch? then TouchSurface(h.touch, p.pointer, Sample(p.event, p.contact)) else h.touch
    ensures Step(h, s, p).pen ==
      if p.Pen? then UsePen(h.pen, PenSample(p.event, p.tool, p.penButtons, p.tilt, p.contact)) else h.pen
  {
    hide LowestFree, Report, Unplug, Plug, TouchSurface, UsePen, Keys.Press, Mouse.Click, Turn;
  }

  lemma {:induction false} ContactStays(h: Host, s: Settings, packets: seq<Packet>, pointer: int)
    requires s.mouse
    requires forall i :: 0 <= i < |packets| ==> !(packets[i].Touch? && packets[i].pointer == pointer)
    ensures var g := Run(h, s, packets).touch;
      (pointer in g.contacts <==> pointer in h.touch.contacts) &&
      (pointer in h.touch.contacts ==> g.contacts[pointer] == h.touch.contacts[pointer])
    decreases |packets|
  {
    hide Step;
    if packets != [] {
      SurfaceAfter(h, s, packets[0]);
      ContactStays(Step(h, s, packets[0]), s, packets[1..], pointer);
    }
  }

  /** Every pointer is where its last packet said, whatever other pointers have done since. */
  lemma PointersHoldTheirLatest(h: Host, s: Settings, before: seq<Packet>, p: Packet, since: seq<Packet>)
    requires s.mouse && p.Touch?
    requires forall i :: 0 <= i < |since| ==> !(since[i].Touch? && since[i].pointer == p.pointer)
    ensures var g := Run(h, s, before + [p] + since).touch;
      p.pointer in g.contacts && g.contacts[p.pointer] == Sample(p.event, p.contact)
  {
    hide Step;
    RunAppend(h, s, before + [p], since);
    RunOneMore(h, s, before, p);
    SurfaceAfter(Run(h, s, before), s, p);
    ContactStays(Run(h, s, before + [p]), s, since, p.pointer);
  }

  /** Touches that go down, up or away are passed on in order, each with the contacts that it found. */
  lemma TouchEventsAreInOrder(h: Host, s: Settings, before: seq<Packet>, p: Packet)
    requires s.mouse && p.Touch? && !p.event.Positional()
    ensures var g := Run(h, s, before).touch;
      Run(h, s, before + [p]).touch.events ==
        g.events + [SurfaceEvent(p.pointer, Sample(p.event, p.contact), g.contacts)]
  {
    hide Step;
    RunOneMore(h, s, before, p);
    SurfaceAfter(Run(h, s, before), s, p);
  }

  lemma {:induction false} PenStays(h: Host, s: Settings, packets: seq<Packet>)
    requires s.mouse && forall i :: 0 <= i < |packets| ==> !packets[i].Pen?
    ensures Run(h, s, packets).pen == h.pen
    decreases |packets|
  {
    hide Step;
    if packets != [] {
      SurfaceAfter(h, s, packets[0]);
      PenStays(Step(h, s, packets[0]), s, packets[1..]);
    }
  }

  lemma PenHoldsItsLatest(h: Host, s: Settings, before: seq<Packet>, p: Packet, since: seq<Packet>)
    requires s.mouse && p.Pen? && forall i :: 0 <= i < |since| ==> !since[i].Pen?
    ensures Run(h, s, before + [p] + since).pen.latest ==
      Some(PenSample(p.event, p.tool, p.penButtons, p.tilt, p.contact))
  {
    hide Step;
    RunAppend(h, s, before + [p], since);
    RunOneMore(h, s, before, p);
    SurfaceAfter(Run(h, s, before), s, p);
    PenStays(Run(h, s, before + [p]), s, since);
  }

  // ---------------------------------------------------------------------------------------------------
  // Gamepads
  // ---------------------------------------------------------------------------------------------------

  predicate About(p: Packet, pad: int) {
    match p
    case Controller(n, _, _, _) => n == pad
    case PadArrival(n, _) => n == pad
    case PadTouch(n, _, _, _) => n == pad
    case PadMotion(n, _, _) => n == pad
    case PadBattery(n, _, _) => n == pad
    case _ => false
  }

  lemma SlotAlone(h: Host, s: Settings, p: Packet, pad: int)
    requires InRange(h, pad) && !About(p, pad)
    ensures InRange(Step(h, s, p), pad) && Step(h, s, p).slots[pad] == h.slots[pad]
  {
    hide LowestFree, Report, Unplug, Plug, TouchSurface, UsePen, Keys.Press, Mouse.Click, Turn;
  }

  /** Packets about other things leave a pad alone. */
  lemma {:induction false} SlotStays(h: Host, s: Settings, packets: seq<Packet>, pad: int)
    requires InRange(h, pad) && forall i :: 0 <= i < |packets| ==> !About(packets[i], pad)
    ensures InRange(Run(h, s, packets), pad) && Run(h, s, packets).slots[pad] == h.slots[pad]
    decreases |packets|
  {
    hide Step, About;
    if packets != [] {
      SlotAlone(h, s, packets[0], pad);
      SlotStays(Step(h, s, packets[0]), s, packets[1..], pad);
    }
  }

  /** What a controller packet does to its pad: nothing, or the events that it stands for. */
  lemma PadGetsItsPackets(h: Host, s: Settings, p: Packet)
    requires p.Controller? && s.controller && InRange(h, p.pad)
    ensures var pad, report := h.slots[p.pad].pad, Reported(s.emulateHome, p.buttons, p.axes);
      var g, id := Step(h, s, p), LowestFree(h.used, 0);
      && InRange(g, p.pad)
      && g.slots[p.pad].pad ==
           (if pad.id.Some? && p.pad in p.active then ApplyAll(pad, [report])
            else if pad.id.Some? then ApplyAll(pad, [Unplugged])
            else if p.pad in p.active && id.Some? && p.pad !in s.refused then
              ApplyAll(pad, [Plugged(id.value), report])
            else pad)
  {
    hide LowestFree, Report, Unplug;
    var pad, report := h.slots[p.pad].pad, Reported(s.emulateHome, p.buttons, p.axes);
    assert [report][1..] == [] && [Unplugged][1..] == [];
    assert ApplyAll(pad, [report]) == ApplyAll(Apply(pad, report), []) == Apply(pad, report);
    assert ApplyAll(pad, [Unplugged]) == ApplyAll(Apply(pad, Unplugged), []) == Apply(pad, Unplugged);
    var id := LowestFree(h.used, 0);
    if id.Some? {
      var both := [Plugged(id.value), report];
      assert both[1..] == [report];
      var plugged := Apply(pad, both[0]);
      assert ApplyAll(plugged, [report]) == ApplyAll(Apply(plugged, report), []) == Apply(plugged, report);
    }
  }

  /** What a sensor, a touch pad or the battery of an allocated pad says is kept; the last word stays. */
  lemma PadHoldsItsLatest(h: Host, s: Settings, p: Packet, since: seq<Packet>, pad: int)
    requires s.controller && Allocated(h, pad) && About(p, pad)
    requires forall i :: 0 <= i < |since| ==> !About(since[i], pad)
    ensures var g, was := Run(h, s, [p] + since), h.slots[pad];
      && InRange(g, pad)
      && (p.PadMotion? ==> g.slots[pad] == was.(sensors := was.sensors[p.sensor := p.reading]))
      && (p.PadTouch? ==>
            p.pointer in g.slots[pad].surface.contacts &&
            g.slots[pad].surface.contacts[p.pointer] == Sample(p.event, p.contact))
      && (p.PadBattery? ==> g.slots[pad] == was.(battery := was.battery + [(p.state, p.percent)]))
      && (p.PadArrival? ==> g.slots[pad] == was)
  {
    assert ([p] + since)[1..] == since;
    assert InRange(Step(h, s, p), pad) by {
      hide LowestFree, Report, Unplug;
    }
    SlotStays(Step(h, s, p), s, since, pad);
  }

  // ---------------------------------------------------------------------------------------------------
  // Devices that are switched off
  // ---------------------------------------------------------------------------------------------------

  lemma OffAfter(h: Host, s: Settings, p: Packet)
    ensures var g := Step(h, s, p);
      && (!s.keyboard ==> g.keyboard == h.keyboard && g.texts == h.texts)
      && (!s.mouse ==> g.cursor == h.cursor && g.mouse == h.mouse && g.clicks == h.clicks && g.vertical == h.vertical &&
                       g.horizontal == h.horizontal && g.touch == h.touch && g.pen == h.pen)
      && (!s.controller ==> g.slots == h.slots && g.used == h.used)
  {
    hide LowestFree, Report, Unplug, Plug, TouchSurface, UsePen, Keys.Press, Mouse.Click, Turn;
  }

  /** A device that the settings switch off sees nothing. */
  lemma {:induction false} OffMeansOff(h: Host, s: Settings, packets: seq<Packet>)
    ensures var g := Run(h, s, packets);
      && (!s.keyboard ==> g.keyboard == h.keyboard && g.texts == h.texts)
      && (!s.mouse ==> g.cursor == h.cursor && g.mouse == h.mouse && g.clicks == h.clicks && g.vertical == h.vertical &&
                       g.horizontal == h.horizontal && g.touch == h.touch && g.pen == h.pen)
      && (!s.controller ==> g.slots == h.slots && g.used == h.used)
    decreases |packets|
  {
    hide Step;
    if packets != [] {
      OffAfter(h, s, packets[0]);
      OffMeansOff(Step(h, s, packets[0]), s, packets[1..]);
    }
  }
}
