/**
 Batching (the inner loop of `passthrough_queued_messages` in src/input.cpp): the packet about to be sent collects
 later packets from the queue, possibly reaching across packets of other controllers, pointers or sensors. What the
 host ends up with is the same as if every packet had been delivered on its own.
 */
module Batching {
  import opened Wrappers
  import opened Packets
  import opened Gamepad
  import opened HostMachine
  import opened ScrollWheel
  import Keys
  import Mouse = MouseButtons

  /** The packet that is sent for `dest`, and the queue that is left. */
  function Collect(dest: Packet, queue: seq<Packet>): (r: (Packet, seq<Packet>))
    ensures |r.1| <= |queue|
    decreases |queue|
  {
    if queue == [] then (dest, [])
    else
      match Batch(dest, queue[0])
      case TerminateBatch => (dest, queue)
      case Batched(merged) => Collect(merged, queue[1..])
      case NotBatchable =>
        var rest := Collect(dest, queue[1..]);
        (rest.0, [queue[0]] + rest.1)
  }

  /** What a drain sends for `queue`. */
  function Delivered(queue: seq<Packet>): seq<Packet>
    decreases |queue|
  {
    if queue == [] then []
    else
      var (sent, rest) := Collect(queue[0], queue[1..]);
      [sent] + Delivered(rest)
  }

  // ---------------------------------------------------------------------------------------------------
  // Two packets
  // ---------------------------------------------------------------------------------------------------

  /** `later` says everything `earlier` says: same device, same state, newer position. */
  predicate Supersedes(later: Packet, earlier: Packet) {
    match (earlier, later)
    case (Controller(pad, active, buttons, _), Controller(pad', active', buttons', _)) =>
      pad == pad' && active == active' && buttons == buttons'
    case (Touch(event, pointer, _), Touch(event', pointer', _)) =>
      event.Positional() && event == event' && pointer == pointer'
    case (PadTouch(pad, event, pointer, _), PadTouch(pad', event', pointer', _)) =>
      event.Positional() && pad == pad' && event == event' && pointer == pointer'
    case (PadMotion(pad, sensor, _), PadMotion(pad', sensor', _)) => pad == pad' && sensor == sensor'
    case _ => false
  }

  /** Packets whose search may reach across others. */
  predicate Skips(p: Packet) {
    Supersedes(p, p)
  }

  lemma SkippingBatches(dest: Packet, src: Packet)
    ensures Batch(dest, src).NotBatchable? ==> Skips(dest)
    ensures Skips(dest) && Batch(dest, src).Batched? ==> Batch(dest, src).merged == src && Supersedes(src, dest)
    ensures Supersedes(src, dest) ==> Skips(src) && Skips(dest)
  {
    hide Batch, Supersedes, Skips;
    OnlySkippersReachAcross(dest, src);
    SkippersKeepTheLatest(dest, src);
    SupersedingIsAlike(dest, src);
  }

  lemma OnlySkippersReachAcross(dest: Packet, src: Packet)
    ensures Batch(dest, src).NotBatchable? ==> Skips(dest)
  {
  }

  lemma SkippersKeepTheLatest(dest: Packet, src: Packet)
    ensures Skips(dest) && Batch(dest, src).Batched? ==> Batch(dest, src).merged == src && Supersedes(src, dest)
  {
  }

  lemma SupersedingIsAlike(dest: Packet, src: Packet)
    ensures Supersedes(src, dest) ==> Skips(src) && Skips(dest)
  {
  }

  /** A superseded packet leaves no trace. */
  lemma Overwrite(h: Host, s: Settings, earlier: Packet, later: Packet)
    requires Supersedes(later, earlier)
    ensures Step(Step(h, s, earlier), s, later) == Step(h, s, later)
  {
    match earlier
    case Controller(_, _, _, _) => OverwriteController(h, s, earlier, later);
    case Touch(_, _, _) => OverwriteTouch(h, s, earlier, later);
    case PadTouch(_, _, _, _) => OverwritePadTouch(h, s, earlier, later);
    case PadMotion(_, _, _) => OverwriteMotion(h, s, earlier, later);
  }

  lemma OverwriteController(h: Host, s: Settings, earlier: Packet, later: Packet)
    requires Supersedes(later, earlier) && earlier.Controller?
    ensures Step(Step(h, s, earlier), s, later) == Step(h, s, later)
  {
    hide Report, LowestFree;
    var pad := earlier.pad;
    if s.controller && InRange(h, pad) {
      if pad !in earlier.active && Allocated(h, pad) {
        assert !Allocated(Release(h, pad), pad);
      } else {
        var ready := if pad in earlier.active && !Allocated(h, pad) then Allocate(h, s, pad) else h;
        if Allocated(ready, pad) {
          var p := ready.slots[pad].pad;
          EarlierReportIsInvisible(p, s.emulateHome, earlier.buttons, earlier.axes, later.axes);
          ReportChangesNoId(p, s.emulateHome, earlier.buttons, earlier.axes);
          var once := Report(p, s.emulateHome, earlier.buttons, earlier.axes);
          assert Step(h, s, earlier) == SetPad(ready, pad, once);
          SetPadTwice(ready, pad, once, Report(p, s.emulateHome, later.buttons, later.axes));
        }
      }
    }
  }

  lemma SetPadTwice(h: Host, pad: int, once: Pad, twice: Pad)
    requires InRange(h, pad)
    ensures InRange(SetPad(h, pad, once), pad) && SetPad(h, pad, once).slots[pad].pad == once
    ensures SetPad(SetPad(h, pad, once), pad, twice) == SetPad(h, pad, twice)
  {
  }

  lemma OverwriteTouch(h: Host, s: Settings, earlier: Packet, later: Packet)
    requires Supersedes(later, earlier) && earlier.Touch?
    ensures Step(Step(h, s, earlier), s, later) == Step(h, s, later)
  {
    SurfaceForgets(h.touch, earlier.pointer, earlier.event, earlier.contact, later.contact);
  }

  lemma SurfaceForgets(s: Surface, pointer: int, event: TouchEvent, earlier: Contact, later: Contact)
    requires event.Positional()
    ensures TouchSurface(TouchSurface(s, pointer, Sample(event, earlier)), pointer, Sample(event, later))
         == TouchSurface(s, pointer, Sample(event, later))
  {
    assert s.contacts[pointer := Sample(event, earlier)][pointer := Sample(event, later)]
        == s.contacts[pointer := Sample(event, later)];
  }

  /** What a positional sample does to the record of its own pointer, and to no other. */
  lemma SurfaceOf(s: Surface, p: int, mine: Sample)
    requires mine.event.Positional()
    ensures var t := TouchSurface(s, p, mine);
      && t.events == s.events && t.contacts == s.contacts[p := mine]
      && (LastSample(s, p).Some? && LastSample(s, p).value.event == mine.event ==> t.changes == s.changes)
      && (!(LastSample(s, p).Some? && LastSample(s, p).value.event == mine.event) ==>
            t.changes == s.changes[p := ChangesOf(s, p) + [PointerChange(LastSample(s, p), mine.event)]])
      && forall q :: q != p ==> LastSample(t, q) == LastSample(s, q) && ChangesOf(t, q) == ChangesOf(s, q)
  {
  }

  lemma SurfaceCommutes(s: Surface, p: int, mine: Sample, q: int, other: Sample)
    requires p != q && mine.event.Positional() && other.event.Positional()
    ensures TouchSurface(TouchSurface(s, q, other), p, mine) == TouchSurface(TouchSurface(s, p, mine), q, other)
  {
    hide TouchSurface, LastSample, ChangesOf;
    SurfaceOf(s, p, mine);
    SurfaceOf(s, q, other);
    SurfaceOf(TouchSurface(s, q, other), p, mine);
    SurfaceOf(TouchSurface(s, p, mine), q, other);
    var one, two := TouchSurface(TouchSurface(s, q, other), p, mine), TouchSurface(TouchSurface(s, p, mine), q, other);
    assert one.contacts == two.contacts;
    assert one.changes == two.changes;
  }

  lemma OverwritePadTouch(h: Host, s: Settings, earlier: Packet, later: Packet)
    requires Supersedes(later, earlier) && earlier.PadTouch?
    ensures Step(Step(h, s, earlier), s, later) == Step(h, s, later)
  {
    hide TouchSurface;
    if s.controller && Allocated(h, earlier.pad) {
      SurfaceForgets(h.slots[earlier.pad].surface, earlier.pointer, earlier.event, earlier.contact, later.contact);
    }
  }

  lemma OverwriteMotion(h: Host, s: Settings, earlier: Packet, later: Packet)
    requires Supersedes(later, earlier) && earlier.PadMotion?
    ensures Step(Step(h, s, earlier), s, later) == Step(h, s, later)
  {
    if s.controller && Allocated(h, earlier.pad) {
      var sensors := h.slots[earlier.pad].sensors;
      assert sensors[earlier.sensor := earlier.reading][later.sensor := later.reading]
          == sensors[later.sensor := later.reading];
    }
  }

  /** Settings under which a wheel adds up: what it emits does not depend on how the amounts were cut. */
  predicate Smooth(s: Settings) {
    s.highResolution || !s.mouse
  }

  /** A merged packet does what the two packets did, up to the unfinished tick of a wheel. */
  lemma Absorb(h: Host, s: Settings, dest: Packet, src: Packet)
    requires Batch(dest, src).Batched?
    ensures Settle(Step(Step(h, s, dest), s, src)) == Settle(Step(h, s, Batch(dest, src).merged))
    ensures Smooth(s) || !(dest.Scroll? || dest.HScroll?) ==>
      Step(Step(h, s, dest), s, src) == Step(h, s, Batch(dest, src).merged)
  {
    if Smooth(s) || !(dest.Scroll? || dest.HScroll?) {
      AbsorbExactly(h, s, dest, src);
    } else {
      WheelsAddUp(h, s, dest, src);
    }
  }

  lemma AbsorbExactly(h: Host, s: Settings, dest: Packet, src: Packet)
    requires Batch(dest, src).Batched? && (Smooth(s) || !(dest.Scroll? || dest.HScroll?))
    ensures Step(Step(h, s, dest), s, src) == Step(h, s, Batch(dest, src).merged)
  {
    if Skips(dest) {
      SkippingBatches(dest, src);
      Overwrite(h, s, dest, src);
    }
  }

  lemma WheelsAddUp(h: Host, s: Settings, dest: Packet, src: Packet)
    requires Batch(dest, src).Batched? && (dest.Scroll? || dest.HScroll?)
    ensures Settle(Step(Step(h, s, dest), s, src)) == Settle(Step(h, s, Batch(dest, src).merged))
  {
    hide Quotient;
  }

  /** No packet of the same active set can make the host allocate or release the pad of `p` any more. */
  predicate Settled(h: Host, s: Settings, p: Packet) {
    p.Controller? && s.controller && InRange(h, p.pad) ==>
      || (Allocated(h, p.pad) <==> p.pad in p.active)
      || (p.pad in p.active && (p.pad in s.refused || Dead(h)))
  }

  lemma SettledAfter(h: Host, s: Settings, p: Packet)
    requires Valid(h) && IdsSuffice(h, s)
    ensures Settled(Step(h, s, p), s, p)
  {
    if p.Controller? && s.controller && InRange(h, p.pad) && p.pad in p.active && !Allocated(h, p.pad) {
      AllocateCounts(h, s, p.pad);
      if !Allocated(Allocate(h, s, p.pad), p.pad) && p.pad !in s.refused {
        assert p.pad in Wanting(h, s);
        assert |FreeIds(h)| == 0;
        assert Dead(h);
      }
    }
  }

  /** Once `p` is settled, a packet that its search skips may come before or after it. */
  lemma Commute(h: Host, s: Settings, p: Packet, skipped: Packet)
    requires Batch(p, skipped).NotBatchable? && Settled(h, s, p)
    ensures Step(Step(h, s, skipped), s, p) == Step(Step(h, s, p), s, skipped)
    ensures Settled(Step(h, s, skipped), s, p)
  {
    match p
    case Controller(_, _, _, _) => ControllersCommute(h, s, p, skipped);
    case Touch(event, pointer, contact) =>
      SurfaceCommutes(h.touch, pointer, Sample(event, contact),
                      skipped.pointer, Sample(skipped.event, skipped.contact));
    case PadTouch(_, _, _, _) => PadTouchesCommute(h, s, p, skipped);
    case PadMotion(_, _, _) => MotionsCommute(h, s, p, skipped);
  }

  /** A controller packet reads and changes its own slot and the set of taken ids, and nothing else. */
  lemma ControllerIsLocal(h: Host, g: Host, s: Settings, q: Packet)
    requires q.Controller? && InRange(h, q.pad)
    requires |g.slots| == |h.slots| && g.slots[q.pad] == h.slots[q.pad] && g.used == h.used
    ensures var after := Step(h, s, q);
      && |after.slots| == |h.slots|
      && after == h.(slots := h.slots[q.pad := after.slots[q.pad]], used := after.used)
      && Step(g, s, q) == g.(slots := g.slots[q.pad := after.slots[q.pad]], used := after.used)
  {
    hide Report, LowestFree, Unplug, Plug;
    assert h.slots[q.pad := h.slots[q.pad]] == h.slots;
    assert g.slots[q.pad := g.slots[q.pad]] == g.slots;
  }

  /** The packet of a settled pad changes its slot in a way that the taken ids have no part in. */
  lemma SettledIsLocal(h: Host, g: Host, s: Settings, p: Packet)
    requires p.Controller? && s.controller && InRange(h, p.pad) && Settled(h, s, p)
    requires |g.slots| == |h.slots| && g.slots[p.pad] == h.slots[p.pad] && (Dead(h) ==> g == h)
    ensures var after := Step(h, s, p);
      && |after.slots| == |h.slots|
      && after == h.(slots := h.slots[p.pad := after.slots[p.pad]])
      && Step(g, s, p) == g.(slots := g.slots[p.pad := after.slots[p.pad]])
  {
    hide Report, LowestFree, Unplug, Plug;
    if Dead(h) {
      DeadMeansDeaf(h, s, p);
    }
    assert h.slots[p.pad := h.slots[p.pad]] == h.slots;
    assert g.slots[p.pad := g.slots[p.pad]] == g.slots;
  }

  lemma DeadMeansDeaf(h: Host, s: Settings, p: Packet)
    requires p.Controller? && Dead(h)
    ensures Step(h, s, p) == h
  {
    NoneFree(h);
  }

  lemma NoneFree(h: Host)
    requires FreeIds(h) == {}
    ensures LowestFree(h.used, 0).None?
  {
    forall id: nat | id < MAX_GAMEPADS ensures id in h.used {
      assert id !in FreeIds(h);
    }
  }

  lemma ControllersCommute(h: Host, s: Settings, p: Packet, q: Packet)
    requires p.Controller? && q.Controller? && p.pad != q.pad && p.active == q.active && Settled(h, s, p)
    ensures Step(Step(h, s, q), s, p) == Step(Step(h, s, p), s, q)
    ensures Settled(Step(h, s, q), s, p)
  {
    if s.controller && InRange(h, p.pad) && InRange(h, q.pad) {
      ActiveControllersCommute(h, s, p, q);
    }
  }

  lemma ActiveControllersCommute(h: Host, s: Settings, p: Packet, q: Packet)
    requires p.Controller? && q.Controller? && p.pad != q.pad && p.active == q.active && Settled(h, s, p)
    requires s.controller && InRange(h, p.pad) && InRange(h, q.pad)
    ensures Step(Step(h, s, q), s, p) == Step(Step(h, s, p), s, q)
    ensures Settled(Step(h, s, q), s, p)
  {
    var g, k := Step(h, s, q), Step(h, s, p);
    if Dead(h) {
      DeadMeansDeaf(h, s, q);
    }
    hide Step, Dead;
    ControllerIsLocal(h, h, s, q);
    SettledIsLocal(h, g, s, p);
    ControllerIsLocal(h, k, s, q);
    assert g.slots[p.pad := k.slots[p.pad]] == k.slots[q.pad := g.slots[q.pad]];
  }

  lemma PadTouchesCommute(h: Host, s: Settings, p: Packet, q: Packet)
    requires p.PadTouch? && Batch(p, q).NotBatchable?
    ensures Step(Step(h, s, q), s, p) == Step(Step(h, s, p), s, q)
  {
    if s.controller && Allocated(h, p.pad) && Allocated(h, q.pad) {
      if p.pad == q.pad {
        SurfaceCommutes(h.slots[p.pad].surface, p.pointer, Sample(p.event, p.contact),
                        q.pointer, Sample(q.event, q.contact));
      }
      assert Step(Step(h, s, q), s, p).slots == Step(Step(h, s, p), s, q).slots;
    }
  }

  lemma MotionsCommute(h: Host, s: Settings, p: Packet, q: Packet)
    requires p.PadMotion? && Batch(p, q).NotBatchable?
    ensures Step(Step(h, s, q), s, p) == Step(Step(h, s, p), s, q)
  {
    if s.controller && Allocated(h, p.pad) && Allocated(h, q.pad) {
      if p.pad == q.pad {
        var sensors := h.slots[p.pad].sensors;
        assert sensors[p.sensor := p.reading][q.sensor := q.reading]
            == sensors[q.sensor := q.reading][p.sensor := p.reading];
      }
      assert Step(Step(h, s, q), s, p).slots == Step(Step(h, s, p), s, q).slots;
    }
  }

  // ---------------------------------------------------------------------------------------------------
  // A whole search, a whole queue
  // ---------------------------------------------------------------------------------------------------

  lemma {:induction false} CollectSupersedes(dest: Packet, queue: seq<Packet>)
    requires Skips(dest)
    ensures Supersedes(Collect(dest, queue).0, dest)
    decreases |queue|
  {
    if queue != [] {
      SkippingBatches(dest, queue[0]);
      match Batch(dest, queue[0])
      case TerminateBatch =>
      case Batched(merged) => CollectSupersedes(merged, queue[1..]);
      case NotBatchable => CollectSupersedes(dest, queue[1..]);
    }
  }

  lemma PassedAlike(dest: Packet, later: Packet, other: Packet)
    requires Supersedes(later, dest) && Batch(dest, other).NotBatchable?
    ensures Batch(later, other).NotBatchable?
  {
  }

  /** On a host to which `dest` has just been delivered, the collected packet stands for all that were taken. */
  lemma {:induction false} CollectedInForce(h: Host, s: Settings, dest: Packet, queue: seq<Packet>)
    requires Skips(dest) && Settled(h, s, dest) && Step(h, s, dest) == h
    ensures var (sent, rest) := Collect(dest, queue); Run(h, s, queue) == Run(Step(h, s, sent), s, rest)
    decreases |queue|
  {
    hide Step, Batch, Settled, Supersedes, Skips;
    if queue != [] {
      var next := Step(h, s, queue[0]);
      var (sent, rest) := Collect(dest, queue);
      SkippingBatches(dest, queue[0]);
      match Batch(dest, queue[0])
      case TerminateBatch =>
      case Batched(merged) =>
        SupersedingIsAlike(dest, merged);
        SupersedingItself(merged);
        Overwrite(h, s, merged, merged);
        SettledLike(h, s, dest, merged);
        CollectedInForce(next, s, merged, queue[1..]);
        CollectSupersedes(merged, queue[1..]);
        Overwrite(h, s, merged, sent);
      case NotBatchable =>
        Commute(h, s, dest, queue[0]);
        CollectedInForce(next, s, dest, queue[1..]);
        CollectSupersedes(dest, queue[1..]);
        SettledAlike(h, s, dest, sent);
        PassedAlike(dest, sent, queue[0]);
        Commute(h, s, sent, queue[0]);
        assert rest[1..] == Collect(dest, queue[1..]).1;
    }
  }

  lemma SupersedingItself(p: Packet)
    requires Skips(p)
    ensures Supersedes(p, p)
  {
  }

  lemma SettledAlike(h: Host, s: Settings, earlier: Packet, later: Packet)
    requires Supersedes(later, earlier)
    ensures Settled(h, s, earlier) <==> Settled(h, s, later)
  {
  }

  lemma SettledLike(h: Host, s: Settings, earlier: Packet, later: Packet)
    requires Supersedes(later, earlier) && Settled(h, s, earlier)
    ensures Settled(Step(h, s, later), s, later)
  {
  }

  /** A search that cannot reach across anything merges a run of neighbours. */
  lemma {:induction false} CollectedNeighbours(h: Host, s: Settings, dest: Packet, queue: seq<Packet>)
    requires !Skips(dest) && Smooth(s)
    ensures var (sent, rest) := Collect(dest, queue);
      Run(Step(h, s, dest), s, queue) == Run(Step(h, s, sent), s, rest)
    decreases |queue|
  {
    if queue != [] {
      SkippingBatches(dest, queue[0]);
      match Batch(dest, queue[0])
      case TerminateBatch =>
      case Batched(merged) =>
        Absorb(h, s, dest, queue[0]);
        CollectedNeighbours(h, s, merged, queue[1..]);
    }
  }

  lemma CollectExactly(h: Host, s: Settings, queue: seq<Packet>)
    requires queue != [] && Valid(h) && IdsSuffice(h, s) && Smooth(s)
    ensures var (sent, rest) := Collect(queue[0], queue[1..]);
      Run(h, s, queue) == Run(Step(h, s, sent), s, rest)
  {
    var dest := queue[0];
    var (sent, _) := Collect(dest, queue[1..]);
    if Skips(dest) {
      var g := Step(h, s, dest);
      Overwrite(h, s, dest, dest);
      SettledAfter(h, s, dest);
      CollectedInForce(g, s, dest, queue[1..]);
      CollectSupersedes(dest, queue[1..]);
      Overwrite(h, s, dest, sent);
    } else {
      CollectedNeighbours(h, s, dest, queue[1..]);
    }
  }

  /** One search: what it sends, followed by what it leaves, does what the queue does. */
  lemma CollectPreserves(h: Host, s: Settings, queue: seq<Packet>)
    requires queue != [] && Valid(h) && IdsSuffice(h, s)
    ensures var (sent, rest) := Collect(queue[0], queue[1..]);
      && Settle(Run(h, s, queue)) == Settle(Run(Step(h, s, sent), s, rest))
      && (Smooth(s) ==> Run(h, s, queue) == Run(Step(h, s, sent), s, rest))
  {
    hide Run, Step, IdsSuffice, Valid, Settle;
    var (sent, rest) := Collect(queue[0], queue[1..]);
    if Smooth(s) {
      CollectExactly(h, s, queue);
    }
    SettleKeepsIds(h, s);
    CollectExactly(Settle(h), Fine(s), queue);
    RunSettled(h, s, queue);
    StepSettled(h, s, sent);
    RunSettled(Step(h, s, sent), s, rest);
  }

  lemma {:induction false} DeliveredExactly(h: Host, s: Settings, queue: seq<Packet>)
    requires Valid(h) && IdsSuffice(h, s) && Smooth(s)
    ensures Run(h, s, Delivered(queue)) == Run(h, s, queue)
    decreases |queue|
  {
    if queue != [] {
      var (sent, rest) := Collect(queue[0], queue[1..]);
      CollectExactly(h, s, queue);
      StepKeepsIds(h, s, sent);
      DeliveredExactly(Step(h, s, sent), s, rest);
      assert Delivered(queue)[1..] == Delivered(rest);
    }
  }

  /**
   Batching is invisible: draining a queue leaves the host as delivering every packet on its own would, up to the
   unfinished ticks of the wheels if they count in ticks.
   */
  lemma BatchingIsInvisible(h: Host, s: Settings, queue: seq<Packet>)
    requires Valid(h) && IdsSuffice(h, s)
    ensures Settle(Run(h, s, Delivered(queue))) == Settle(Run(h, s, queue))
    ensures Smooth(s) ==> Run(h, s, Delivered(queue)) == Run(h, s, queue)
  {
    RunSettled(h, s, Delivered(queue));
    RunSettled(h, s, queue);
    SettleKeepsIds(h, s);
    DeliveredExactly(Settle(h), Fine(s), queue);
    if Smooth(s) {
      DeliveredExactly(h, s, queue);
    }
  }

  lemma SettleKeepsIds(h: Host, s: Settings)
    requires Valid(h) && IdsSuffice(h, s)
    ensures Valid(Settle(h)) && IdsSuffice(Settle(h), Fine(s))
  {
    assert FreeIds(Settle(h)) == FreeIds(h) && Wanting(Settle(h), Fine(s)) == Wanting(h, s);
    assert forall pad :: Allocated(Settle(h), pad) <==> Allocated(h, pad);
  }

  /** A client that starts on an idle host with no more pads than there are ids never lacks one. */
  lemma IdleHostHasIds(h: Host, s: Settings)
    requires |h.slots| <= MAX_GAMEPADS && h.used == {}
    ensures IdsSuffice(h, s)
  {
    ManyIds(FreeIds(h), MAX_GAMEPADS);
    FewPads(Wanting(h, s), |h.slots|);
  }

  lemma {:induction false} ManyIds(ids: set<nat>, bound: nat)
    requires forall id: nat :: id < bound ==> id in ids
    ensures |ids| >= bound
    decreases bound
  {
    if bound > 0 {
      ManyIds(ids - {bound - 1}, bound - 1);
    }
  }

  lemma {:induction false} FewPads(pads: set<int>, bound: nat)
    requires forall pad :: pad in pads ==> 0 <= pad < bound
    ensures |pads| <= bound
    decreases bound
  {
    if bound == 0 {
      assert forall pad :: pad !in pads;
    } else {
      FewPads(pads - {bound - 1}, bound - 1);
    }
  }

  // ---------------------------------------------------------------------------------------------------
  // Exactly when
  // ---------------------------------------------------------------------------------------------------

  function JoinAndLeave(n: int, m: int): seq<Packet> {
    var join, leave := Controller(n, {n}, RELEASED, CENTERED), Controller(m, {n}, RELEASED, CENTERED);
    [join, leave, join]
  }

  lemma JoinIsPulledForward(n: int, m: int)
    requires n != m
    ensures Delivered(JoinAndLeave(n, m)) == JoinAndLeave(n, m)[..2]
  {
    var join, leave := Controller(n, {n}, RELEASED, CENTERED), Controller(m, {n}, RELEASED, CENTERED);
    var queue := [join, leave, join];
    assert queue[1..] == [leave, join] && [leave, join][1..] == [join] && [join][1..] == [];
    assert Collect(join, [join]) == Collect(join, []);
    assert Batch(join, leave) == NotBatchable;
    assert [leave] + [] == [leave];
    assert Collect(join, [leave, join]) == (join, [leave]);
    assert Delivered([leave]) == [leave];
    assert Delivered(queue) == [join, leave];
  }

  lemma LeavingFrees(h: Host, s: Settings, n: int, m: int)
    requires Valid(h) && s.controller && FreeIds(h) == {} && n in Wanting(h, s) && Allocated(h, m)
    ensures var join, leave := JoinAndLeave(n, m)[0], JoinAndLeave(n, m)[1];
      && Step(h, s, join) == h && !Allocated(h, n)
      && !Allocated(Step(h, s, leave), n) && Allocated(Step(Step(h, s, leave), s, join), n)
  {
    hide Report, Unplug, LowestFree;
    var join, leave := JoinAndLeave(n, m)[0], JoinAndLeave(n, m)[1];
    NoneFree(h);
    var g := Release(h, m);
    assert Step(h, s, leave) == g;
    assert LowestFree(g.used, 0).Some? by {
      FreedIsFound(g.used, h.slots[m].pad.id.value);
    }
    var ready := Allocate(g, s, n);
    ReportChangesNoId(ready.slots[n].pad, s.emulateHome, join.buttons, join.axes);
  }

  lemma FreedIsFound(used: set<nat>, id: nat)
    requires id < MAX_GAMEPADS && id !in used
    ensures LowestFree(used, 0).Some?
  {
  }

  /**
   No id is free, pad `n` waits for one and pad `m` has one: the raw queue [n, m leaves, n] gives `n` the id of `m`,
   but the merged packet for `n` is sent before `m` leaves.
   */
  lemma MergingLosesAPad(h: Host, s: Settings, n: int, m: int)
    requires Valid(h) && s.controller && FreeIds(h) == {} && n in Wanting(h, s) && Allocated(h, m)
    ensures var queue := JoinAndLeave(n, m);
      Allocated(Run(h, s, queue), n) && !Allocated(Run(h, s, Delivered(queue)), n)
  {
    LeavingFrees(h, s, n, m);
    assert n != m;
    JoinIsPulledForward(n, m);
    hide Step, Delivered, Allocated;
    var queue := JoinAndLeave(n, m);
    var join, leave := queue[0], queue[1];
    assert queue[1..] == [leave, join] && [leave, join][1..] == [join] && [join][1..] == [];
    assert queue[..2] == [join, leave] && [join, leave][1..] == [leave] && [leave][1..] == [];
    var g := Step(h, s, leave);
    assert Run(h, s, [join, leave]) == Run(h, s, [leave]) == Run(g, s, []) == g;
    assert Run(h, s, queue) == Run(h, s, [leave, join]) == Run(g, s, [join]) == Run(Step(g, s, join), s, []);
  }

  lemma SettledAllocation(g: Host, h: Host, pad: int)
    requires Allocated(g, pad) && !Allocated(h, pad)
    ensures Settle(g) != Settle(h)
  {
    assert Allocated(Settle(g), pad) && !Allocated(Settle(h), pad);
  }

  /** Arrivals use up the free ids first. */
  lemma {:induction false} ShortageShows(h: Host, s: Settings) returns (queue: seq<Packet>)
    requires Valid(h) && !IdsSuffice(h, s)
    ensures Settle(Run(h, s, Delivered(queue))) != Settle(Run(h, s, queue))
    decreases |FreeIds(h)|
  {
    var n :| n in Wanting(h, s);
    if FreeIds(h) == {} {
      var m :| 0 <= m < |h.slots| && h.slots[m].pad.id.Some?;
      MergingLosesAPad(h, s, n, m);
      queue := JoinAndLeave(n, m);
      SettledAllocation(Run(h, s, queue), Run(h, s, Delivered(queue)), n);
    } else {
      var arrival := PadArrival(n, 0);
      var g := Step(h, s, arrival);
      AllocateCounts(h, s, n);
      var rest := ShortageShows(g, s);
      queue := [arrival] + rest;
      FencesStopBatching(arrival, if rest == [] then arrival else rest[0]);
      assert queue[1..] == rest;
      assert Collect(arrival, rest) == (arrival, rest);
      assert Delivered(queue)[1..] == Delivered(rest);
    }
  }

  /**
   Batching is invisible on every queue exactly when ids suffice: the host has as many free ids as there are pads that
   may still want one, or it has none to give at all.
   */
  lemma BatchingIsInvisibleIff(h: Host, s: Settings)
    requires Valid(h)
    ensures (forall queue :: Settle(Run(h, s, Delivered(queue))) == Settle(Run(h, s, queue))) <==> IdsSuffice(h, s)
  {
    if IdsSuffice(h, s) {
      forall queue ensures Settle(Run(h, s, Delivered(queue))) == Settle(Run(h, s, queue)) {
        BatchingIsInvisible(h, s, queue);
      }
    } else {
      var queue := ShortageShows(h, s);
    }
  }

  // ---------------------------------------------------------------------------------------------------
  // The wheels
  // ---------------------------------------------------------------------------------------------------

  /** A wheel is moved by scroll packets alone. */
  lemma {:induction false} WheelsAlone(h: Host, g: Host, s: Settings, packets: seq<Packet>)
    requires h.vertical == g.vertical && h.horizontal == g.horizontal
    ensures Run(h, s, packets).vertical == Run(g, s, packets).vertical
    ensures Run(h, s, packets).horizontal == Run(g, s, packets).horizontal
    decreases |packets|
  {
    if packets != [] {
      WheelStep(h, g, s, packets[0]);
      WheelsAlone(Step(h, s, packets[0]), Step(g, s, packets[0]), s, packets[1..]);
    }
  }

  lemma ControllerKeepsWheels(h: Host, s: Settings, pad: int, active: set<int>, buttons: Buttons, axes: Axes)
    ensures var g := HandleController(h, s, pad, active, buttons, axes);
      g.vertical == h.vertical && g.horizontal == h.horizontal
  {
    hide LowestFree, Report, Unplug, Plug;
  }

  lemma WheelsAfter(h: Host, s: Settings, p: Packet)
    ensures var g := Step(h, s, p);
      && g.vertical == (if p.Scroll? && s.mouse then Turn(h.vertical, s.highResolution, p.amount1) else h.vertical)
      && g.horizontal ==
           (if p.HScroll? && s.mouse then Turn(h.horizontal, s.highResolution, p.amount) else h.horizontal)
  {
    hide HandleController, LowestFree, TouchSurface, UsePen, Keys.Press, Mouse.Click, Turn;
    if p.Controller? {
      ControllerKeepsWheels(h, s, p.pad, p.active, p.buttons, p.axes);
    }
  }

  lemma WheelStep(h: Host, g: Host, s: Settings, p: Packet)
    requires h.vertical == g.vertical && h.horizontal == g.horizontal
    ensures Step(h, s, p).vertical == Step(g, s, p).vertical && Step(h, s, p).horizontal == Step(g, s, p).horizontal
  {
    hide Step, Turn;
    WheelsAfter(h, s, p);
    WheelsAfter(g, s, p);
  }

  lemma {:induction false} WheelsKeepInv(h: Host, s: Settings, packets: seq<Packet>)
    requires ScrollWheel.Inv(h.vertical) && ScrollWheel.Inv(h.horizontal) && !s.highResolution
    ensures ScrollWheel.Inv(Run(h, s, packets).vertical) && ScrollWheel.Inv(Run(h, s, packets).horizontal)
    decreases |packets|
  {
    if packets != [] {
      WheelStepKeepsInv(h, s, packets[0]);
      WheelsKeepInv(Step(h, s, packets[0]), s, packets[1..]);
    }
  }

  lemma WheelStepKeepsInv(h: Host, s: Settings, p: Packet)
    requires ScrollWheel.Inv(h.vertical) && ScrollWheel.Inv(h.horizontal) && !s.highResolution
    ensures ScrollWheel.Inv(Step(h, s, p).vertical) && ScrollWheel.Inv(Step(h, s, p).horizontal)
  {
    hide Step, Turn, ScrollWheel.Inv;
    WheelsAfter(h, s, p);
    if p.Scroll? {
      TicksFit(h.vertical, p.amount1);
    } else if p.HScroll? {
      TicksFit(h.horizontal, p.amount);
    }
  }

  predicate WithinOneTick(v: Wheel, w: Wheel) {
    var difference := v.emitted - w.emitted;
    difference == -WHEEL_DELTA || difference == 0 || difference == WHEEL_DELTA
  }

  /**
   On every host, whatever the queue: what a wheel has emitted after a drain differs by at most one tick from what it
   would have emitted had every packet been delivered on its own.
   */
  lemma DrainedWheelsWithinOneTick(h: Host, s: Settings, queue: seq<Packet>)
    requires ScrollWheel.Inv(h.vertical) && ScrollWheel.Inv(h.horizontal)
    ensures var drained, raw := Run(h, s, Delivered(queue)), Run(h, s, queue);
      WithinOneTick(drained.vertical, raw.vertical) && WithinOneTick(drained.horizontal, raw.horizontal)
  {
    var bare := h.(slots := [], used := {});
    WheelsAlone(h, bare, s, Delivered(queue));
    WheelsAlone(h, bare, s, queue);
    assert Wanting(bare, s) == {};
    BatchingIsInvisible(bare, s, queue);
    if !s.highResolution {
      WheelsKeepInv(h, s, Delivered(queue));
      WheelsKeepInv(h, s, queue);
      var drained, raw := Run(h, s, Delivered(queue)), Run(h, s, queue);
      MultiplesWithinTwoTicks(drained.vertical.emitted, raw.vertical.emitted);
      MultiplesWithinTwoTicks(drained.horizontal.emitted, raw.horizontal.emitted);
    }
  }

  /** A scroll to the next tick and one step back: the tick is emitted, unless the two packets are merged. */
  lemma MergingSwallowsATick(h: Host, s: Settings)
    requires ScrollWheel.Inv(h.vertical) && !Smooth(s)
    ensures var forth: int16 := WHEEL_DELTA - h.vertical.remainder;
      var queue := [Scroll(forth, 0), Scroll(-1, 0)];
      Run(h, s, Delivered(queue)).vertical.emitted + WHEEL_DELTA == Run(h, s, queue).vertical.emitted
  {
    var forth: int16 := WHEEL_DELTA - h.vertical.remainder;
    var one, two := Scroll(forth, 0), Scroll(-1, 0);
    var both := Scroll(forth - 1, forth - 1);
    assert Batch(one, two) == Batched(both);
    assert [one, two][1..] == [two] && [two][1..] == [];
    assert Collect(one, [two]) == (both, []);
    assert Delivered([one, two]) == [both];
    assert Run(h, s, [both]) == Run(Step(h, s, both), s, [both][1..]) == Step(h, s, both);
    assert Run(h, s, [one, two]) == Run(Step(h, s, one), s, [two]);
    assert Run(Step(h, s, one), s, [two]) == Step(Step(h, s, one), s, two);
    assert Turn(h.vertical, false, forth) == Wheel(h.vertical.emitted + WHEEL_DELTA, 0);
    assert Turn(h.vertical, false, forth - 1) == Wheel(h.vertical.emitted, WHEEL_DELTA - 1);
    assert Turn(Wheel(h.vertical.emitted + WHEEL_DELTA, 0), false, -1) == Wheel(h.vertical.emitted + WHEEL_DELTA, -1);
  }

  lemma MergingShows(h: Host, s: Settings) returns (queue: seq<Packet>)
    requires ScrollWheel.Inv(h.vertical) && !Smooth(s)
    ensures Run(h, s, Delivered(queue)) != Run(h, s, queue)
  {
    MergingSwallowsATick(h, s);
    var forth: int16 := WHEEL_DELTA - h.vertical.remainder;
    queue := [Scroll(forth, 0), Scroll(-1, 0)];
    hide Run, Delivered;
  }

  /** Batching shows in nothing at all exactly when ids suffice and the wheels do not count in ticks. */
  lemma BatchingIsExactIff(h: Host, s: Settings)
    requires Valid(h) && ScrollWheel.Inv(h.vertical)
    ensures (forall queue :: Run(h, s, Delivered(queue)) == Run(h, s, queue)) <==> IdsSuffice(h, s) && Smooth(s)
  {
    hide Run, Delivered, Valid, IdsSuffice, Smooth, Settle, ScrollWheel.Inv;
    if !IdsSuffice(h, s) {
      var queue := ShortageShows(h, s);
      assert Run(h, s, Delivered(queue)) != Run(h, s, queue);
    } else if !Smooth(s) {
      var queue := MergingShows(h, s);
    } else {
      forall queue ensures Run(h, s, Delivered(queue)) == Run(h, s, queue) {
        BatchingIsInvisible(h, s, queue);
      }
    }
  }

  // ---------------------------------------------------------------------------------------------------
  // What is merged
  // ---------------------------------------------------------------------------------------------------

  /** `later` only has a newer position or state to tell: the same thing, the same way. */
  predicate Refreshes(later: Packet, earlier: Packet) {
    || Supersedes(later, earlier)
    || (earlier.AbsMove? && later.AbsMove? && earlier.width == later.width && earlier.height == later.height)
    || (earlier.Pen? && later.Pen? && earlier.event.Positional() && earlier.event == later.event &&
        earlier.tool == later.tool && earlier.penButtons == later.penButtons)
  }

  lemma RefreshingIsMerged(dest: Packet, p: Packet)
    requires Refreshes(p, dest)
    ensures Batch(dest, p) == Batched(p)
  {
    if Supersedes(p, dest) {
      SupersedingIsMerged(dest, p);
    }
  }

  lemma SupersedingIsMerged(dest: Packet, p: Packet)
    requires Supersedes(p, dest)
    ensures Batch(dest, p) == Batched(p)
  {
  }

  /** A run of packets that refresh one another is sent as the last of them. */
  lemma {:induction false} LatestIsSent(dest: Packet, queue: seq<Packet>)
    requires forall i :: 0 <= i < |queue| ==> Refreshes(queue[i], dest)
    ensures Collect(dest, queue) == (if queue == [] then dest else queue[|queue| - 1], [])
    ensures Delivered([dest] + queue) == [if queue == [] then dest else queue[|queue| - 1]]
    decreases |queue|
  {
    hide Refreshes, Batch;
    if queue != [] {
      RefreshingIsMerged(dest, queue[0]);
      forall i | 0 <= i < |queue[1..]| ensures Refreshes(queue[1..][i], queue[0]) {
        RefreshesAlike(dest, queue[0], queue[i + 1]);
      }
      LatestIsSent(queue[0], queue[1..]);
    }
    assert ([dest] + queue)[1..] == queue;
  }

  lemma RefreshesAlike(dest: Packet, p: Packet, q: Packet)
    requires Refreshes(p, dest) && Refreshes(q, dest)
    ensures Refreshes(q, p)
  {
    if Supersedes(p, dest) && Supersedes(q, dest) {
      SupersedesAlike(dest, p, q);
    }
  }

  lemma SupersedesAlike(dest: Packet, p: Packet, q: Packet)
    requires Supersedes(p, dest) && Supersedes(q, dest)
    ensures Supersedes(q, p)
  {
    match dest
    case Controller(_, _, _, _) =>
    case Touch(_, _, _) =>
    case PadTouch(_, _, _, _) =>
    case PadMotion(_, _, _) =>
  }

  function MovesOf(moves: seq<(int16, int16)>): seq<Packet> {
    seq(|moves|, i requires 0 <= i < |moves| => RelMove(moves[i].0, moves[i].1))
  }

  function SumX(moves: seq<(int16, int16)>): int {
    if moves == [] then 0 else moves[0].0 + SumX(moves[1..])
  }

  function SumY(moves: seq<(int16, int16)>): int {
    if moves == [] then 0 else moves[0].1 + SumY(moves[1..])
  }

  /** Adding the moves up, one by one, never leaves 16 bits. */
  predicate SumsFit(x: int, y: int, moves: seq<(int16, int16)>)
    decreases |moves|
  {
    moves == [] ||
    (Fits16(x + moves[0].0) && Fits16(y + moves[0].1) && SumsFit(x + moves[0].0, y + moves[0].1, moves[1..]))
  }

  lemma SumsFitInTheEnd(x: int, y: int, moves: seq<(int16, int16)>)
    requires Fits16(x) && Fits16(y) && SumsFit(x, y, moves)
    ensures Fits16(x + SumX(moves)) && Fits16(y + SumY(moves))
    decreases |moves|
  {
    if moves != [] {
      SumsFitInTheEnd(x + moves[0].0, y + moves[0].1, moves[1..]);
    }
  }

  /** Relative moves whose sums fit are sent as one move by their sum. */
  lemma {:induction false} MovesBecomeOne(x: int16, y: int16, moves: seq<(int16, int16)>)
    requires SumsFit(x, y, moves)
    ensures Fits16(x + SumX(moves)) && Fits16(y + SumY(moves))
    ensures Delivered([RelMove(x, y)] + MovesOf(moves)) == [RelMove(x + SumX(moves), y + SumY(moves))]
  {
    SumsFitInTheEnd(x, y, moves);
    MovesCollect(x, y, moves);
    var queue := [RelMove(x, y)] + MovesOf(moves);
    assert queue[1..] == MovesOf(moves);
  }

  lemma {:induction false} MovesCollect(x: int16, y: int16, moves: seq<(int16, int16)>)
    requires SumsFit(x, y, moves) && Fits16(x + SumX(moves)) && Fits16(y + SumY(moves))
    ensures Collect(RelMove(x, y), MovesOf(moves)) == (RelMove(x + SumX(moves), y + SumY(moves)), [])
    decreases |moves|
  {
    if moves != [] {
      var x', y' := x + moves[0].0, y + moves[0].1;
      assert MovesOf(moves)[1..] == MovesOf(moves[1..]);
      MovesCollect(x', y', moves[1..]);
    }
  }

  /** Sums that do not fit stop the search: no movement is lost. */
  lemma OverflowStops(x: int16, y: int16, x': int16, y': int16)
    requires !Fits16(x + x') || !Fits16(y + y')
    ensures Delivered([RelMove(x, y), RelMove(x', y')]) == [RelMove(x, y), RelMove(x', y')]
  {
    var p, q := RelMove(x, y), RelMove(x', y');
    assert [p, q][1..] == [q] && [q][1..] == [];
    assert Collect(p, [q]) == (p, [q]);
    assert Delivered([q]) == [q];
  }

  /** Packets of different pads, pointers or sensors, none of which does more than refresh. */
  predicate Unrelated(p: Packet, q: Packet) {
    match (p, q)
    case (Controller(pad, active, _, _), Controller(pad', active', _, _)) => active == active' && pad != pad'
    case (Touch(event, pointer, _), Touch(event', pointer', _)) =>
      event.Positional() && event'.Positional() && pointer != pointer'
    case (PadTouch(pad, event, pointer, _), PadTouch(pad', event', pointer', _)) =>
      event.Positional() && (pad != pad' || (event'.Positional() && pointer != pointer'))
    case (PadMotion(pad, sensor, _), PadMotion(pad', sensor', _)) => pad != pad' || sensor != sensor'
    case _ => false
  }

  lemma UnrelatedIsPassed(p: Packet, q: Packet)
    requires Unrelated(p, q)
    ensures Batch(p, q) == NotBatchable
  {
  }

  /** A search reaches across packets of other devices: these stay in order, behind the refreshed packet. */
  lemma {:induction false} SearchReachesAcross(dest: Packet, others: seq<Packet>, later: Packet)
    requires Supersedes(later, dest) && forall i :: 0 <= i < |others| ==> Unrelated(dest, others[i])
    ensures Collect(dest, others + [later]) == (later, others)
    decreases |others|
  {
    hide Batch, Supersedes, Unrelated;
    var queue := others + [later];
    if others == [] {
      assert queue[1..] == [];
      SupersedingIsMerged(dest, later);
    } else {
      assert queue[1..] == others[1..] + [later];
      UnrelatedIsPassed(dest, others[0]);
      SearchReachesAcross(dest, others[1..], later);
      assert [others[0]] + others[1..] == others;
    }
  }

  // ---------------------------------------------------------------------------------------------------
  // Fences
  // ---------------------------------------------------------------------------------------------------

  lemma {:induction false} SearchStopsAtFence(dest: Packet, before: seq<Packet>, fence: Packet, after: seq<Packet>)
    requires Fence(fence)
    ensures var (sent, rest) := Collect(dest, before);
      Collect(dest, before + [fence] + after) == (sent, rest + [fence] + after)
    decreases |before|
  {
    var queue := before + [fence] + after;
    if before == [] {
      FencesStopBatching(dest, fence);
      assert queue == [fence] + after;
    } else {
      assert queue[1..] == before[1..] + [fence] + after;
      match Batch(dest, before[0])
      case TerminateBatch =>
      case Batched(merged) => SearchStopsAtFence(merged, before[1..], fence, after);
      case NotBatchable =>
        SearchStopsAtFence(dest, before[1..], fence, after);
        var (_, rest) := Collect(dest, before[1..]);
        assert [before[0]] + (rest + [fence] + after) == [before[0]] + rest + [fence] + after;
    }
  }

  /**
   Buttons, keys, text, arrivals, battery reports and touches that go down or up cut the queue: everything before is
   sent before and everything after is sent after, and the fence itself is sent as it came.
   */
  lemma {:induction false} FencesKeepTheirPlace(before: seq<Packet>, fence: Packet, after: seq<Packet>)
    requires Fence(fence)
    ensures Delivered(before + [fence] + after) == Delivered(before) + [fence] + Delivered(after)
    decreases |before|
  {
    var queue := before + [fence] + after;
    if before == [] {
      assert queue == [fence] + after;
      assert queue[1..] == after;
      if after != [] {
        FencesStopBatching(fence, after[0]);
      }
      assert Collect(fence, after) == (fence, after);
    } else {
      assert queue[1..] == before[1..] + [fence] + after;
      var (sent, rest) := Collect(before[0], before[1..]);
      SearchStopsAtFence(before[0], before[1..], fence, after);
      FencesKeepTheirPlace(rest, fence, after);
      assert [sent] + (Delivered(rest) + [fence] + Delivered(after))
          == [sent] + Delivered(rest) + [fence] + Delivered(after);
    }
  }
}
