/**
 The queue between the control stream and the worker, and the drain that empties it (src/input.cpp,
 `passthrough(vector)` and `passthrough_queued_messages`).

 First the two locked sections and the drain loop as methods of the object that owns the queue; then the protocol
 they form with any number of producers, as interleaved atomic steps.
 */
module InputQueue {
  import opened Wrappers
  import opened Packets
  import opened HostMachine
  import opened Batching

  const MAX_MESSAGES_PER_DRAIN := 64

  /** The locked section of a drain: the next packet to send, if any, and the queue that is left. */
  function Pop(queue: seq<Packet>): (Option<Packet>, seq<Packet>) {
    if queue == [] then (None, [])
    else
      var (sent, rest) := Collect(queue[0], queue[1..]);
      (Some(sent), rest)
  }

  /** The packets one burst of at most `limit` sends, and the queue it leaves. */
  function Burst(queue: seq<Packet>, limit: nat): (seq<Packet>, seq<Packet>)
    decreases limit
  {
    if limit == 0 || queue == [] then ([], queue)
    else
      var (sent, rest) := Collect(queue[0], queue[1..]);
      var (more, left) := Burst(rest, limit - 1);
      ([sent] + more, left)
  }

  /** A burst sends the first of what draining the whole queue sends, and leaves the queue for the rest of it. */
  lemma {:induction false} BurstIsDelivered(queue: seq<Packet>, limit: nat)
    ensures var (sent, left) := Burst(queue, limit);
      && sent + Delivered(left) == Delivered(queue)
      && (|sent| == limit || (|sent| < limit && left == []))
    decreases limit
  {
    if limit > 0 && queue != [] {
      var (sent, rest) := Collect(queue[0], queue[1..]);
      BurstIsDelivered(rest, limit - 1);
      var (more, left) := Burst(rest, limit - 1);
      assert [sent] + more + Delivered(left) == [sent] + (more + Delivered(left));
    } else {
      assert [] + Delivered(queue) == Delivered(queue);
    }
  }

  /** After a burst the host is on its way to where the whole queue leads. */
  lemma BurstLeadsOn(h: Host, s: Settings, queue: seq<Packet>, limit: nat)
    ensures var (sent, left) := Burst(queue, limit);
      && Run(Run(h, s, sent), s, Delivered(left)) == Run(h, s, Delivered(queue))
      && (|sent| < limit ==> Run(h, s, sent) == Run(h, s, Delivered(queue)))
      && (|sent| < limit && Valid(h) && IdsSuffice(h, s) ==> Settle(Run(h, s, sent)) == Settle(Run(h, s, queue)))
  {
    hide Run, Valid, IdsSuffice, Settle;
    var (sent, left) := Burst(queue, limit);
    BurstIsDelivered(queue, limit);
    RunAppend(h, s, sent, Delivered(left));
    if |sent| < limit {
      assert sent + [] == sent;
    }
    if Valid(h) && IdsSuffice(h, s) {
      BatchingIsInvisible(h, s, queue);
    }
  }

  /** The pass over the queue when `skipped` has been left behind and `ahead` is still to be looked at. */
  ghost function Scanned(skipped: seq<Packet>, payload: Packet, ahead: seq<Packet>): (Option<Packet>, seq<Packet>) {
    var (sent, rest) := Collect(payload, ahead);
    (Some(sent), skipped + rest)
  }

  lemma ScanStep(skipped: seq<Packet>, payload: Packet, ahead: seq<Packet>)
    requires ahead != []
    ensures Scanned(skipped, payload, ahead) ==
      match Batch(payload, ahead[0])
      case TerminateBatch => (Some(payload), skipped + ahead)
      case Batched(merged) => Scanned(skipped, merged, ahead[1..])
      case NotBatchable => Scanned(skipped + [ahead[0]], payload, ahead[1..])
  {
    var rest := Collect(payload, ahead[1..]).1;
    assert skipped + ([ahead[0]] + rest) == skipped + [ahead[0]] + rest;
  }

  class InputContext {
    var inputQueue: seq<Packet>
    var drainPending: bool

    constructor ()
      ensures inputQueue == [] && !drainPending
    {
      inputQueue, drainPending := [], false;
    }

    /** The producer's locked section; it then pushes a drain task if told to. */
    method Enqueue(p: Packet) returns (scheduleDrain: bool)
      modifies this
      ensures inputQueue == old(inputQueue) + [p]
      ensures drainPending && scheduleDrain == !old(drainPending)
    {
      scheduleDrain := false;
      inputQueue := inputQueue + [p];
      if !drainPending {
        drainPending := true;
        scheduleDrain := true;
      }
    }

    /** The drain's locked section: one pass over the queue that erases what it merges. */
    method PopBatched() returns (entry: Option<Packet>)
      modifies this
      ensures (entry, inputQueue) == Pop(old(inputQueue))
      ensures drainPending == (old(drainPending) && old(inputQueue) != [])
    {
      if inputQueue == [] {
        drainPending := false;
        return None;
      }
      var payload := inputQueue[0];
      inputQueue := inputQueue[1..];
      var i := 0;
      assert inputQueue[0..] == inputQueue;
      ghost var rest := Collect(payload, inputQueue).1;
      assert inputQueue[..0] + rest == rest;
      while i < |inputQueue|
        invariant 0 <= i <= |inputQueue|
        invariant drainPending == old(drainPending)
        invariant Scanned(inputQueue[..i], payload, inputQueue[i..]) == Pop(old(inputQueue))
        decreases |inputQueue| - i
      {
        ghost var skipped, ahead := inputQueue[..i], inputQueue[i..];
        ScanStep(skipped, payload, ahead);
        match Batch(payload, inputQueue[i]) {
          case TerminateBatch =>
            assert skipped + ahead == inputQueue;
            return Some(payload);
          case Batched(merged) =>
            payload := merged;
            inputQueue := inputQueue[..i] + inputQueue[i + 1..];
            assert inputQueue[..i] == skipped && inputQueue[i..] == ahead[1..];
          case NotBatchable =>
            i := i + 1;
            assert inputQueue[..i] == skipped + [ahead[0]] && inputQueue[i..] == ahead[1..];
        }
      }
      assert inputQueue[i..] == [] && inputQueue[..i] + [] == inputQueue;
      return Some(payload);
    }

    /**
     A drain nobody interferes with: a bounded burst, after which it wants to run again unless it found the queue empty.
     */
    method PassthroughQueuedMessages(h: Host, s: Settings) returns (host: Host, again: bool)
      modifies this
      ensures host == Run(h, s, Burst(old(inputQueue), MAX_MESSAGES_PER_DRAIN).0)
      ensures inputQueue == Burst(old(inputQueue), MAX_MESSAGES_PER_DRAIN).1
      ensures Run(host, s, Delivered(inputQueue)) == Run(h, s, Delivered(old(inputQueue)))
      ensures !again ==> host == Run(h, s, Delivered(old(inputQueue)))
      ensures !again && Valid(h) && IdsSuffice(h, s) ==> Settle(host) == Settle(Run(h, s, old(inputQueue)))
      ensures again <==> |Burst(old(inputQueue), MAX_MESSAGES_PER_DRAIN).0| == MAX_MESSAGES_PER_DRAIN
      ensures !again ==> inputQueue == [] && !drainPending
      ensures again ==> drainPending == old(drainPending)
    {
      hide Valid, IdsSuffice, Settle, Step, Collect, Delivered;
      BurstLeadsOn(h, s, inputQueue, MAX_MESSAGES_PER_DRAIN);
      host := h;
      var processed := 0;
      while processed < MAX_MESSAGES_PER_DRAIN
        invariant 0 <= processed <= MAX_MESSAGES_PER_DRAIN
        invariant drainPending == old(drainPending)
        invariant var left := MAX_MESSAGES_PER_DRAIN - processed;
          && Run(h, s, Burst(old(inputQueue), MAX_MESSAGES_PER_DRAIN).0) == Run(host, s, Burst(inputQueue, left).0)
          && Burst(old(inputQueue), MAX_MESSAGES_PER_DRAIN).1 == Burst(inputQueue, left).1
          && |Burst(old(inputQueue), MAX_MESSAGES_PER_DRAIN).0| == processed + |Burst(inputQueue, left).0|
      {
        ghost var before := inputQueue;
        var entry := PopBatched();
        if entry.None? {
          return host, false;
        }
        ghost var more := Burst(inputQueue, MAX_MESSAGES_PER_DRAIN - processed - 1).0;
        assert Burst(before, MAX_MESSAGES_PER_DRAIN - processed).0 == [entry.value] + more;
        assert ([entry.value] + more)[1..] == more;
        host := Step(host, s, entry.value);
        processed := processed + 1;
      }
      return host, true;
    }
  }

  // ---------------------------------------------------------------------------------------------------
  // The protocol
  // ---------------------------------------------------------------------------------------------------

  /** A running drain: how many packets it has sent, and the packet it has popped but not yet sent. */
  datatype Drain = Drain(processed: nat, entry: Option<Packet>)

  /**
   `announced` counts producers that have set the flag but not yet pushed their task; `scheduled` counts drain tasks
   in the pool. `arrived` is everything ever queued, `ran` the other tasks the worker has run.
   */
  datatype System = System(
    queue: seq<Packet>,
    pending: bool,
    announced: nat,
    scheduled: nat,
    drains: seq<Drain>,
    host: Host,
    arrived: seq<Packet>,
    ran: seq<HostTask>)

  datatype Event =
    | Arrives(packet: Packet)
    | Pushes
    | Starts
    | Pops(drain: nat)
    | Sends(drain: nat)
    | Yields(drain: nat)
    | TaskRuns(task: HostTask)

  function Initial(h: Host): System {
    System([], false, 0, 0, [], h, [], [])
  }

  predicate Enabled(y: System, e: Event) {
    match e
    case Arrives(_) => true
    case Pushes => y.announced > 0
    case Starts => y.scheduled > 0
    case Pops(d) => d < |y.drains| && y.drains[d].entry.None? && y.drains[d].processed < MAX_MESSAGES_PER_DRAIN
    case Sends(d) => d < |y.drains| && y.drains[d].entry.Some?
    case Yields(d) => d < |y.drains| && y.drains[d].entry.None? && y.drains[d].processed >= MAX_MESSAGES_PER_DRAIN
    // there is one worker
    case TaskRuns(_) => y.drains == []
  }

  function Next(y: System, s: Settings, e: Event): System
    requires Enabled(y, e)
  {
    match e
    case Arrives(p) =>
      y.(queue := y.queue + [p], pending := true, arrived := y.arrived + [p],
         announced := if y.pending then y.announced else y.announced + 1)
    case Pushes => y.(announced := y.announced - 1, scheduled := y.scheduled + 1)
    case Starts => y.(scheduled := y.scheduled - 1, drains := y.drains + [Drain(0, None)])
    case Pops(d) =>
      var (entry, rest) := Pop(y.queue);
      if entry.None? then y.(pending := false, drains := y.drains[..d] + y.drains[d + 1..])
      else y.(queue := rest, drains := y.drains[d := y.drains[d].(entry := entry)])
    case Sends(d) =>
      y.(host := Step(y.host, s, y.drains[d].entry.value),
         drains := y.drains[d := Drain(y.drains[d].processed + 1, None)])
    case Yields(d) => y.(scheduled := y.scheduled + 1, drains := y.drains[..d] + y.drains[d + 1..])
    case TaskRuns(t) => y.(host := RunHostTask(y.host, s, t), ran := y.ran + [t])
  }

  /** Any interleaving; an event that is not possible is passed over. */
  function NextAll(y: System, s: Settings, events: seq<Event>): System
    decreases |events|
  {
    if events == [] then y
    else NextAll(if Enabled(y, events[0]) then Next(y, s, events[0]) else y, s, events[1..])
  }

  /** Drains announced, scheduled or running. */
  function Tokens(y: System): nat {
    y.announced + y.scheduled + |y.drains|
  }

  ghost predicate SingleFlight(y: System) {
    && Tokens(y) == (if y.pending then 1 else 0)
    && (y.queue != [] ==> y.pending)
    && forall d :: 0 <= d < |y.drains| ==>
      y.drains[d].processed + (if y.drains[d].entry.Some? then 1 else 0) <= MAX_MESSAGES_PER_DRAIN
  }

  /** What was popped but not yet sent. */
  function InFlight(y: System): seq<Packet> {
    if |y.drains| == 1 && y.drains[0].entry.Some? then [y.drains[0].entry.value] else []
  }

  /** The host, once it gets what is in flight and queued, will be where delivering everything one by one leads. */
  ghost predicate OnTrack(y: System, h: Host, s: Settings) {
    && Valid(y.host) && IdsSuffice(y.host, s)
    && Run(Settle(h), Fine(s), y.arrived) == Run(Settle(y.host), Fine(s), InFlight(y) + y.queue)
  }

  lemma NextKeepsSingleFlight(y: System, s: Settings, e: Event)
    requires SingleFlight(y) && Enabled(y, e)
    ensures SingleFlight(Next(y, s, e))
  {
  }

  lemma ArrivalKeepsTrack(y: System, h: Host, s: Settings, p: Packet)
    requires OnTrack(y, h, s)
    ensures OnTrack(Next(y, s, Arrives(p)), h, s)
  {
    hide Run, Valid, IdsSuffice, Settle;
    var z := Next(y, s, Arrives(p));
    assert InFlight(z) + z.queue == InFlight(y) + y.queue + [p];
    RunAppend(Settle(h), Fine(s), y.arrived, [p]);
    RunAppend(Settle(y.host), Fine(s), InFlight(y) + y.queue, [p]);
  }

  lemma PopKeepsTrack(y: System, h: Host, s: Settings)
    requires SingleFlight(y) && OnTrack(y, h, s) && Enabled(y, Pops(0)) && y.queue != []
    ensures OnTrack(Next(y, s, Pops(0)), h, s)
  {
    hide Valid, IdsSuffice, Settle, Step, Collect;
    var z := Next(y, s, Pops(0));
    assert InFlight(y) + y.queue == y.queue;
    SettleKeepsIds(y.host, s);
    CollectPreserves(Settle(y.host), Fine(s), y.queue);
    assert (InFlight(z) + z.queue)[1..] == z.queue;
  }

  lemma SendKeepsTrack(y: System, h: Host, s: Settings)
    requires SingleFlight(y) && OnTrack(y, h, s) && Enabled(y, Sends(0))
    ensures OnTrack(Next(y, s, Sends(0)), h, s)
  {
    hide Valid, IdsSuffice, Settle, Step;
    var z := Next(y, s, Sends(0));
    var p := y.drains[0].entry.value;
    StepKeepsIds(y.host, s, p);
    StepSettled(y.host, s, p);
    assert (InFlight(y) + y.queue)[1..] == y.queue;
    assert InFlight(z) + z.queue == y.queue;
  }

  lemma NextKeepsTrack(y: System, h: Host, s: Settings, e: Event)
    requires SingleFlight(y) && OnTrack(y, h, s) && Enabled(y, e) && !e.TaskRuns?
    ensures OnTrack(Next(y, s, e), h, s)
  {
    match e
    case Arrives(p) => ArrivalKeepsTrack(y, h, s, p);
    case Pops(d) => if y.queue != [] { PopKeepsTrack(y, h, s); }
    case Sends(d) => SendKeepsTrack(y, h, s);
    case _ =>
  }

  lemma {:induction false} RunsKeepSingleFlight(y: System, s: Settings, events: seq<Event>)
    requires SingleFlight(y)
    ensures SingleFlight(NextAll(y, s, events))
    decreases |events|
  {
    if events != [] {
      if Enabled(y, events[0]) {
        NextKeepsSingleFlight(y, s, events[0]);
        RunsKeepSingleFlight(Next(y, s, events[0]), s, events[1..]);
      } else {
        RunsKeepSingleFlight(y, s, events[1..]);
      }
    }
  }

  /** Runs in which the worker does nothing but drain. */
  predicate OnlyDrains(events: seq<Event>) {
    forall i :: 0 <= i < |events| ==> !events[i].TaskRuns?
  }

  lemma {:induction false} RunsKeepTrack(y: System, h: Host, s: Settings, events: seq<Event>)
    requires SingleFlight(y) && OnTrack(y, h, s) && OnlyDrains(events)
    ensures OnTrack(NextAll(y, s, events), h, s)
    decreases |events|
  {
    if events != [] {
      assert !events[0].TaskRuns? && OnlyDrains(events[1..]);
      if Enabled(y, events[0]) {
        NextKeepsSingleFlight(y, s, events[0]);
        NextKeepsTrack(y, h, s, events[0]);
        RunsKeepTrack(Next(y, s, events[0]), h, s, events[1..]);
      } else {
        RunsKeepTrack(y, h, s, events[1..]);
      }
    }
  }

  lemma InitiallyOnTrack(h: Host, s: Settings)
    requires Valid(h) && IdsSuffice(h, s)
    ensures OnTrack(Initial(h), h, s)
  {
    assert InFlight(Initial(h)) + [] == [];
  }

  /**
   Under every interleaving of producers and drains there is never more than one drain announced, scheduled or running,
   there is one exactly while the flag is set, and a queue with something in it has the flag set.
   */
  lemma NeverTwoDrains(h: Host, s: Settings, events: seq<Event>)
    ensures var y := NextAll(Initial(h), s, events);
      && Tokens(y) <= 1
      && (Tokens(y) == 1 <==> y.pending)
      && (y.queue != [] ==> y.pending)
  {
    RunsKeepSingleFlight(Initial(h), s, events);
  }

  // ---------------------------------------------------------------------------------------------------
  // Progress
  // ---------------------------------------------------------------------------------------------------

  /** Steps left until the drain finds the queue empty: one round per packet, and where the drain stands now. */
  function Rank(y: System): nat {
    5 * |y.queue| +
    if y.announced > 0 then 4
    else if y.scheduled > 0 then 3
    else if y.drains == [] then 0
    else if y.drains[0].entry.Some? then 6
    else if y.drains[0].processed >= MAX_MESSAGES_PER_DRAIN then 5
    else 2
  }

  /** The one step that is possible when no packet arrives and no other task runs. */
  function Turn(y: System): Event {
    if y.announced > 0 then Pushes
    else if y.scheduled > 0 then Starts
    else if y.drains != [] && y.drains[0].entry.Some? then Sends(0)
    else if y.drains != [] && y.drains[0].processed >= MAX_MESSAGES_PER_DRAIN then Yields(0)
    else Pops(0)
  }

  lemma TurnsAreForced(y: System, e: Event)
    requires SingleFlight(y) && Enabled(y, e) && !e.Arrives? && !e.TaskRuns?
    ensures e == Turn(y)
  {
  }

  lemma TurnsRunOut(y: System, s: Settings)
    requires SingleFlight(y) && y.pending
    ensures Enabled(y, Turn(y)) && Rank(Next(y, s, Turn(y))) < Rank(y)
  {
  }

  function Turns(y: System, s: Settings, n: nat): System
    decreases n
  {
    if n == 0 || !Enabled(y, Turn(y)) then y else Turns(Next(y, s, Turn(y)), s, n - 1)
  }

  lemma {:induction false} TurnsFinish(y: System, s: Settings, n: nat)
    requires SingleFlight(y) && n >= Rank(y)
    ensures var z := Turns(y, s, n);
      !z.pending && z.queue == [] && z.arrived == y.arrived && SingleFlight(z)
    decreases n
  {
    if y.pending {
      TurnsRunOut(y, s);
      NextKeepsSingleFlight(y, s, Turn(y));
      TurnsFinish(Next(y, s, Turn(y)), s, n - 1);
    } else {
      assert !Enabled(y, Turn(y));
    }
  }

  lemma {:induction false} TurnsKeepTrack(y: System, h: Host, s: Settings, n: nat)
    requires SingleFlight(y) && OnTrack(y, h, s)
    ensures OnTrack(Turns(y, s, n), h, s)
    decreases n
  {
    if n > 0 && Enabled(y, Turn(y)) {
      NextKeepsSingleFlight(y, s, Turn(y));
      NextKeepsTrack(y, h, s, Turn(y));
      TurnsKeepTrack(Next(y, s, Turn(y)), h, s, n - 1);
    }
  }

  /**
   No message is stranded: from whatever state an interleaving has reached, the steps the worker is bound to take empty
   the queue and put the flag down, and no drain is left.
   */
  lemma EveryQueueIsEmptied(h: Host, s: Settings, events: seq<Event>)
    ensures var y := NextAll(Initial(h), s, events);
      var z := Turns(y, s, Rank(y));
      !z.pending && z.queue == [] && Tokens(z) == 0 && z.arrived == y.arrived
  {
    RunsKeepSingleFlight(Initial(h), s, events);
    var y := NextAll(Initial(h), s, events);
    TurnsFinish(y, s, Rank(y));
  }

  /**
   None is lost either: with enough ids, and nothing but drains on the worker, those steps leave the host where
   delivering every packet on its own, in the order of arrival, would have left it.
   */
  lemma EveryMessageIsDelivered(h: Host, s: Settings, events: seq<Event>)
    requires Valid(h) && IdsSuffice(h, s) && OnlyDrains(events)
    ensures var y := NextAll(Initial(h), s, events);
      Settle(Turns(y, s, Rank(y)).host) == Settle(Run(h, s, y.arrived))
  {
    InitiallyOnTrack(h, s);
    RunsKeepSingleFlight(Initial(h), s, events);
    RunsKeepTrack(Initial(h), h, s, events);
    var y := NextAll(Initial(h), s, events);
    TurnsFinish(y, s, Rank(y));
    TurnsKeepTrack(y, h, s, Rank(y));
    RunSettled(h, s, y.arrived);
    var z := Turns(y, s, Rank(y));
    assert InFlight(z) + z.queue == [];
  }
}
