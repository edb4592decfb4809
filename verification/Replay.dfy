/**
 Any run of the queue and its worker, delayed tasks included, is a replay of the packets one by one: each is delivered
 once, and a packet only ever passes packets that its search may pass over. No condition on gamepad ids is needed,
 since nothing is claimed to be delivered in the order of arrival.
 */
module Replay {
  import opened Packets
  import opened HostMachine
  import opened Batching
  import opened InputQueue

  /** What happens to the host, one thing at a time. */
  datatype Item = Delivery(packet: Packet) | Task(task: HostTask)

  function DoItem(h: Host, s: Settings, i: Item): Host {
    match i
    case Delivery(p) => Step(h, s, p)
    case Task(t) => RunHostTask(h, s, t)
  }

  function Play(h: Host, s: Settings, items: seq<Item>): Host
    decreases |items|
  {
    if items == [] then h else Play(DoItem(h, s, items[0]), s, items[1..])
  }

  function PacketOf(i: Item): seq<Packet> {
    if i.Delivery? then [i.packet] else []
  }

  function PacketsOf(items: seq<Item>): seq<Packet> {
    if items == [] then [] else PacketOf(items[0]) + PacketsOf(items[1..])
  }

  function TaskOf(i: Item): seq<HostTask> {
    if i.Task? then [i.task] else []
  }

  function TasksOf(items: seq<Item>): seq<HostTask> {
    if items == [] then [] else TaskOf(items[0]) + TasksOf(items[1..])
  }

  function Deliveries(packets: seq<Packet>): seq<Item> {
    seq(|packets|, i requires 0 <= i < |packets| => Delivery(packets[i]))
  }

  function Without(queue: seq<Packet>, k: nat): seq<Packet>
    requires k < |queue|
  {
    queue[..k] + queue[k + 1..]
  }

  /** The packet at `k` may be taken out of the queue before the ones in front of it. */
  predicate Passes(queue: seq<Packet>, k: nat)
    requires k < |queue|
  {
    forall j :: 0 <= j < k ==> Batch(queue[k], queue[j]).NotBatchable?
  }

  /** Taking `taken` out of `before`, one after the other and never past a packet that may not be passed. */
  ghost predicate Pulls(before: seq<Packet>, taken: seq<Packet>, left: seq<Packet>)
    decreases |taken|
  {
    if taken == [] then before == left
    else exists k: nat :: PullsAt(before, k, taken, left)
  }

  ghost predicate PullsAt(before: seq<Packet>, k: nat, taken: seq<Packet>, left: seq<Packet>)
    requires taken != []
    decreases |taken|, 0
  {
    k < |before| && before[k] == taken[0] && Passes(before, k) && Pulls(Without(before, k), taken[1..], left)
  }

  // ---------------------------------------------------------------------------------------------------
  // Pulling
  // ---------------------------------------------------------------------------------------------------

  lemma {:induction false} PullsInTwo(a: seq<Packet>, t: seq<Packet>, b: seq<Packet>, u: seq<Packet>, c: seq<Packet>)
    requires Pulls(a, t, b) && Pulls(b, u, c)
    ensures Pulls(a, t + u, c)
    decreases |t|
  {
    if t == [] {
      assert t + u == u;
    } else {
      var k: nat :| PullsAt(a, k, t, b);
      assert (t + u)[1..] == t[1..] + u;
      PullsInTwo(Without(a, k), t[1..], b, u, c);
      assert PullsAt(a, k, t + u, c);
    }
  }

  lemma {:induction false} PullsFromLonger(a: seq<Packet>, t: seq<Packet>, b: seq<Packet>, p: Packet)
    requires Pulls(a, t, b)
    ensures Pulls(a + [p], t, b + [p])
    decreases |t|
  {
    if t != [] {
      var k: nat :| PullsAt(a, k, t, b);
      PullsFromLonger(Without(a, k), t[1..], b, p);
      assert Without(a + [p], k) == Without(a, k) + [p];
      assert PullsAt(a + [p], k, t, b + [p]);
    }
  }

  /** Nothing is lost, invented or taken twice. */
  lemma {:induction false} PullsKeepsAll(a: seq<Packet>, t: seq<Packet>, b: seq<Packet>)
    requires Pulls(a, t, b)
    ensures multiset(a) == multiset(t) + multiset(b)
    decreases |t|
  {
    if t != [] {
      var k: nat :| PullsAt(a, k, t, b);
      PullsKeepsAll(Without(a, k), t[1..], b);
      assert a == a[..k] + [a[k]] + a[k + 1..];
      assert t == [t[0]] + t[1..];
      assert multiset(a) == multiset(Without(a, k)) + multiset([t[0]]);
    }
  }

  /** What can be passed and by whom depends on what a packet is about, which merging does not change. */
  lemma PassingIsAlike(dest: Packet, src: Packet, other: Packet)
    requires Batch(dest, src).Batched? && Batch(dest, other).NotBatchable?
    ensures Batch(src, other).NotBatchable? && Batch(Batch(dest, src).merged, other).NotBatchable?
  {
  }

  // ---------------------------------------------------------------------------------------------------
  // One search
  // ---------------------------------------------------------------------------------------------------

  /** The packets that a search merges into `dest`. */
  function Absorbed(dest: Packet, queue: seq<Packet>): seq<Packet>
    decreases |queue|
  {
    if queue == [] then []
    else
      match Batch(dest, queue[0])
      case TerminateBatch => []
      case Batched(merged) => [queue[0]] + Absorbed(merged, queue[1..])
      case NotBatchable => Absorbed(dest, queue[1..])
  }

  /** Delivering the merged packets one by one does what sending the merged packet does. */
  lemma {:induction false} AbsorbedDo(h: Host, s: Settings, dest: Packet, queue: seq<Packet>)
    requires Smooth(s)
    ensures Run(Step(h, s, dest), s, Absorbed(dest, queue)) == Step(h, s, Collect(dest, queue).0)
    decreases |queue|
  {
    hide Step, Batch, Smooth;
    if queue != [] {
      match Batch(dest, queue[0])
      case TerminateBatch =>
      case Batched(merged) =>
        Absorb(h, s, dest, queue[0]);
        AbsorbedDo(h, s, merged, queue[1..]);
        assert Absorbed(dest, queue)[1..] == Absorbed(merged, queue[1..]);
      case NotBatchable => AbsorbedDo(h, s, dest, queue[1..]);
    }
  }

  /** A search takes what it merges past the packets it has skipped, and leaves the rest in order. */
  lemma {:induction false} AbsorbedIsPulled(skipped: seq<Packet>, dest: Packet, queue: seq<Packet>)
    requires forall j :: 0 <= j < |skipped| ==> Batch(dest, skipped[j]).NotBatchable?
    ensures Pulls(skipped + queue, Absorbed(dest, queue), skipped + Collect(dest, queue).1)
    decreases |queue|
  {
    hide Batch;
    if queue != [] {
      var all, k := skipped + queue, |skipped|;
      var left := skipped + Collect(dest, queue).1;
      match Batch(dest, queue[0])
      case TerminateBatch =>
      case Batched(merged) =>
        forall j | 0 <= j < k
          ensures Batch(queue[0], all[j]).NotBatchable? && Batch(merged, skipped[j]).NotBatchable?
        {
          PassingIsAlike(dest, queue[0], skipped[j]);
        }
        AbsorbedIsPulled(skipped, merged, queue[1..]);
        assert Without(all, k) == skipped + queue[1..];
        assert Absorbed(dest, queue)[1..] == Absorbed(merged, queue[1..]);
        assert PullsAt(all, k, Absorbed(dest, queue), left);
      case NotBatchable =>
        AbsorbedIsPulled(skipped + [queue[0]], dest, queue[1..]);
        assert skipped + [queue[0]] + queue[1..] == all;
        assert skipped + [queue[0]] + Collect(dest, queue[1..]).1 == left;
    }
  }

  lemma PopIsPulled(queue: seq<Packet>)
    requires queue != []
    ensures Pulls(queue, [queue[0]] + Absorbed(queue[0], queue[1..]), Collect(queue[0], queue[1..]).1)
  {
    AbsorbedIsPulled([], queue[0], queue[1..]);
    var taken := [queue[0]] + Absorbed(queue[0], queue[1..]);
    assert [] + queue[1..] == queue[1..] == Without(queue, 0);
    assert [] + Collect(queue[0], queue[1..]).1 == Collect(queue[0], queue[1..]).1;
    assert taken[1..] == Absorbed(queue[0], queue[1..]);
    assert PullsAt(queue, 0, taken, Collect(queue[0], queue[1..]).1);
  }

  // ---------------------------------------------------------------------------------------------------
  // Playing
  // ---------------------------------------------------------------------------------------------------

  lemma {:induction false} PlayInTwo(h: Host, s: Settings, some: seq<Item>, more: seq<Item>)
    ensures Play(h, s, some + more) == Play(Play(h, s, some), s, more)
    decreases |some|
  {
    hide DoItem;
    if some == [] {
      assert some + more == more;
    } else {
      assert (some + more)[1..] == some[1..] + more;
      PlayInTwo(DoItem(h, s, some[0]), s, some[1..], more);
    }
  }

  lemma {:induction false} PacketsInTwo(some: seq<Item>, more: seq<Item>)
    ensures PacketsOf(some + more) == PacketsOf(some) + PacketsOf(more)
    decreases |some|
  {
    hide PacketOf;
    if some == [] {
      assert some + more == more;
    } else {
      assert (some + more)[1..] == some[1..] + more;
      PacketsInTwo(some[1..], more);
      Associative(PacketOf(some[0]), PacketsOf(some[1..]), PacketsOf(more));
    }
  }

  lemma {:induction false} TasksInTwo(some: seq<Item>, more: seq<Item>)
    ensures TasksOf(some + more) == TasksOf(some) + TasksOf(more)
    decreases |some|
  {
    hide TaskOf;
    if some == [] {
      assert some + more == more;
    } else {
      assert (some + more)[1..] == some[1..] + more;
      TasksInTwo(some[1..], more);
      Associative(TaskOf(some[0]), TasksOf(some[1..]), TasksOf(more));
    }
  }

  lemma Associative<T>(a: seq<T>, b: seq<T>, c: seq<T>)
    ensures a + b + c == a + (b + c)
  {
  }

  lemma {:induction false} DeliveriesPlay(h: Host, s: Settings, packets: seq<Packet>)
    ensures Play(h, s, Deliveries(packets)) == Run(h, s, packets)
    ensures PacketsOf(Deliveries(packets)) == packets && TasksOf(Deliveries(packets)) == []
    decreases |packets|
  {
    hide Step;
    if packets != [] {
      DeliveriesPlay(Step(h, s, packets[0]), s, packets[1..]);
      assert Deliveries(packets)[1..] == Deliveries(packets[1..]);
    }
  }

  lemma {:induction false} PlaySettled(h: Host, s: Settings, items: seq<Item>)
    ensures Settle(Play(h, s, items)) == Play(Settle(h), Fine(s), items)
    decreases |items|
  {
    hide Step, RunHostTask, Settle, Fine;
    if items != [] {
      match items[0] {
        case Delivery(p) => StepSettled(h, s, p);
        case Task(t) => TaskSettled(h, s, t);
      }
      PlaySettled(DoItem(h, s, items[0]), s, items[1..]);
    }
  }

  // ---------------------------------------------------------------------------------------------------
  // Every run
  // ---------------------------------------------------------------------------------------------------

  /**
   `items` lead to the host as it is; `flight` are the packets merged into the one that is popped but not yet sent.
   Together they have been pulled out of what has arrived, and the queue is what is left.
   */
  ghost predicate Replays(y: System, h: Host, s: Settings, items: seq<Item>, flight: seq<Packet>) {
    && Pulls(y.arrived, PacketsOf(items) + flight, y.queue)
    && TasksOf(items) == y.ran
    && Play(Settle(h), Fine(s), items) == Settle(y.host)
    && Run(Settle(y.host), Fine(s), flight) == Run(Settle(y.host), Fine(s), InFlight(y))
    && (InFlight(y) == [] ==> flight == [])
  }

  lemma ArrivalReplays(y: System, h: Host, s: Settings, p: Packet, items: seq<Item>, flight: seq<Packet>)
    requires Replays(y, h, s, items, flight)
    ensures Replays(Next(y, s, Arrives(p)), h, s, items, flight)
  {
    hide Pulls, Play, Run, Settle, Fine;
    PullsFromLonger(y.arrived, PacketsOf(items) + flight, y.queue, p);
  }

  lemma PoppedDo(h: Host, s: Settings, queue: seq<Packet>)
    requires queue != [] && Smooth(s)
    ensures Run(h, s, [queue[0]] + Absorbed(queue[0], queue[1..])) == Run(h, s, [Collect(queue[0], queue[1..]).0])
  {
    hide Step, Absorbed, Collect;
    var taken, sent := [queue[0]] + Absorbed(queue[0], queue[1..]), Collect(queue[0], queue[1..]).0;
    AbsorbedDo(h, s, queue[0], queue[1..]);
    assert taken[1..] == Absorbed(queue[0], queue[1..]);
    OnePacket(h, s, sent);
  }

  lemma PopReplays(y: System, h: Host, s: Settings, items: seq<Item>)
    requires SingleFlight(y) && Enabled(y, Pops(0)) && Replays(y, h, s, items, []) && y.queue != []
    ensures Replays(Next(y, s, Pops(0)), h, s, items, [y.queue[0]] + Absorbed(y.queue[0], y.queue[1..]))
  {
    hide Pulls, Play, Settle, Run, Absorbed, Collect, PacketsOf, TasksOf;
    var taken := [y.queue[0]] + Absorbed(y.queue[0], y.queue[1..]);
    var (sent, rest) := Collect(y.queue[0], y.queue[1..]);
    assert PacketsOf(items) + [] == PacketsOf(items);
    PopIsPulled(y.queue);
    PullsInTwo(y.arrived, PacketsOf(items), y.queue, taken, rest);
    PoppedDo(Settle(y.host), Fine(s), y.queue);
    var z := Next(y, s, Pops(0));
    assert z.queue == rest && z.arrived == y.arrived && z.host == y.host && z.ran == y.ran;
    assert InFlight(z) == [sent];
  }

  lemma OnePacket(h: Host, s: Settings, p: Packet)
    ensures Run(h, s, [p]) == Step(h, s, p)
  {
    hide Step;
    assert [p][1..] == [];
    assert Run(Step(h, s, p), s, []) == Step(h, s, p);
  }

  lemma SendReplays(y: System, h: Host, s: Settings, items: seq<Item>, flight: seq<Packet>)
    requires SingleFlight(y) && Enabled(y, Sends(0)) && Replays(y, h, s, items, flight)
    ensures Replays(Next(y, s, Sends(0)), h, s, items + Deliveries(flight), [])
  {
    hide Pulls, Play, Run, Settle, Step, Deliveries, PacketsOf, TasksOf;
    var sent := y.drains[0].entry.value;
    assert InFlight(y) == [sent];
    PlayInTwo(Settle(h), Fine(s), items, Deliveries(flight));
    PacketsInTwo(items, Deliveries(flight));
    TasksInTwo(items, Deliveries(flight));
    DeliveriesPlay(Settle(y.host), Fine(s), flight);
    OnePacket(Settle(y.host), Fine(s), sent);
    StepSettled(y.host, s, sent);
    assert PacketsOf(items) + flight + [] == PacketsOf(items) + flight;
    var z := Next(y, s, Sends(0));
    assert z.queue == y.queue && z.arrived == y.arrived && z.ran == y.ran && z.host == Step(y.host, s, sent);
    assert InFlight(z) == [];
    assert y.ran + [] == y.ran;
  }

  lemma OneTask(h: Host, s: Settings, t: HostTask)
    ensures Play(h, s, [Task(t)]) == RunHostTask(h, s, t) && PacketsOf([Task(t)]) == [] && TasksOf([Task(t)]) == [t]
  {
    hide RunHostTask;
    assert [Task(t)][1..] == [];
    assert Play(DoItem(h, s, Task(t)), s, []) == DoItem(h, s, Task(t));
  }

  lemma TaskReplays(y: System, h: Host, s: Settings, t: HostTask, items: seq<Item>)
    requires Enabled(y, TaskRuns(t)) && Replays(y, h, s, items, [])
    ensures Replays(Next(y, s, TaskRuns(t)), h, s, items + [Task(t)], [])
  {
    hide Pulls, Play, Run, Settle, RunHostTask, PacketsOf, TasksOf;
    PlayInTwo(Settle(h), Fine(s), items, [Task(t)]);
    PacketsInTwo(items, [Task(t)]);
    TasksInTwo(items, [Task(t)]);
    OneTask(Settle(y.host), Fine(s), t);
    TaskSettled(y.host, s, t);
    assert PacketsOf(items) + [] == PacketsOf(items);
    assert InFlight(Next(y, s, TaskRuns(t))) == [];
  }

  /** Every step keeps a replay, or extends it. */
  lemma NextReplays(y: System, h: Host, s: Settings, e: Event, items: seq<Item>, flight: seq<Packet>)
    returns (more: seq<Item>, aloft: seq<Packet>)
    requires SingleFlight(y) && Enabled(y, e) && Replays(y, h, s, items, flight)
    ensures Replays(Next(y, s, e), h, s, more, aloft)
  {
    more, aloft := items, flight;
    match e {
      case Arrives(p) => ArrivalReplays(y, h, s, p, items, flight);
      case Pops(d) =>
        assert d == 0 && flight == [];
        if y.queue != [] {
          aloft := [y.queue[0]] + Absorbed(y.queue[0], y.queue[1..]);
          PopReplays(y, h, s, items);
        }
      case Sends(d) =>
        assert d == 0;
        more, aloft := items + Deliveries(flight), [];
        SendReplays(y, h, s, items, flight);
      case TaskRuns(t) =>
        more := items + [Task(t)];
        TaskReplays(y, h, s, t, items);
      case _ =>
    }
  }

  lemma {:induction false} RunReplays(y: System, h: Host, s: Settings, events: seq<Event>, items: seq<Item>,
                                      flight: seq<Packet>) returns (more: seq<Item>, aloft: seq<Packet>)
    requires SingleFlight(y) && Replays(y, h, s, items, flight)
    ensures Replays(NextAll(y, s, events), h, s, more, aloft)
    decreases |events|
  {
    hide Replays, SingleFlight, Next, Enabled;
    more, aloft := items, flight;
    if events != [] {
      if Enabled(y, events[0]) {
        NextKeepsSingleFlight(y, s, events[0]);
        more, aloft := NextReplays(y, h, s, events[0], items, flight);
        more, aloft := RunReplays(Next(y, s, events[0]), h, s, events[1..], more, aloft);
      } else {
        more, aloft := RunReplays(y, h, s, events[1..], items, flight);
      }
    }
  }

  lemma {:induction false} TurnsReplay(y: System, h: Host, s: Settings, n: nat, items: seq<Item>, flight: seq<Packet>)
    returns (more: seq<Item>, aloft: seq<Packet>)
    requires SingleFlight(y) && Replays(y, h, s, items, flight)
    ensures Replays(Turns(y, s, n), h, s, more, aloft)
    decreases n
  {
    hide Replays, SingleFlight, Next, Enabled, Turn;
    more, aloft := items, flight;
    if n > 0 && Enabled(y, Turn(y)) {
      NextKeepsSingleFlight(y, s, Turn(y));
      more, aloft := NextReplays(y, h, s, Turn(y), items, flight);
      more, aloft := TurnsReplay(Next(y, s, Turn(y)), h, s, n - 1, more, aloft);
    }
  }

  /**
   Whatever arrives and whatever tasks the worker runs in between, once the drain has finished the host is where
   delivering every packet on its own leads, each exactly once and with the same tasks in between, in an order that
   differs from that of arrival only in packets taken past others that they may pass.
   */
  lemma EveryRunIsAReplay(h: Host, s: Settings, events: seq<Event>) returns (items: seq<Item>)
    ensures var y := NextAll(Initial(h), s, events);
      var z := Turns(y, s, Rank(y));
      && Settle(z.host) == Settle(Play(h, s, items))
      && Pulls(y.arrived, PacketsOf(items), [])
      && multiset(PacketsOf(items)) == multiset(y.arrived)
      && TasksOf(items) == z.ran
  {
    RunsKeepSingleFlight(Initial(h), s, events);
    assert Replays(Initial(h), h, s, [], []);
    var before, aloft := RunReplays(Initial(h), h, s, events, [], []);
    var y := NextAll(Initial(h), s, events);
    TurnsFinish(y, s, Rank(y));
    items, aloft := TurnsReplay(y, h, s, Rank(y), before, aloft);
    hide Pulls, Play, Settle, Turns, NextAll, PacketsOf;
    assert PacketsOf(items) + [] == PacketsOf(items);
    PullsKeepsAll(y.arrived, PacketsOf(items), []);
    PlaySettled(h, s, items);
  }
}
