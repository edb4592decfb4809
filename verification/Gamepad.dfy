/**
 One virtual gamepad and its emulation of the HOME button: holding BACK long enough schedules a delayed
 press of HOME and then a delayed release. Delayed tasks cannot be trusted to be cancelled in time, so every
 task carries the generation it was scheduled in and does nothing once the pad has moved on
 (src/input.cpp, `gamepad_t` and the controller `passthrough`).
 */
module Gamepad {
  import opened Wrappers
  import opened Packets

  datatype PadState = PadState(buttons: Buttons, axes: Axes)

  const CENTERED := Axes(0, 0, 0, 0, 0, 0)
  const NEUTRAL := PadState(RELEASED, CENTERED)

  /** BACK is forced to a value until the client's own BACK agrees with it. */
  datatype Force = NoForce | ForceDown | ForceUp

  datatype HomeTask = PressHome(generation: nat) | ReleaseHome(generation: nat)

  /** A change of the reported buttons: the whole report it replaces, and the new buttons. */
  datatype ButtonChange = ButtonChange(before: Option<PadState>, after: Buttons)

  /**
   `timeout` is the id of the task that was scheduled last, if it still matters; `tasks` are this pad's
   delayed tasks in the pool. `reported` is the last state the platform was given for the plugged-in pad,
   `changes` its button changes in order, and `client` the client's last packet.
   */
  datatype Pad = Pad(
    id: Option<nat>,
    stored: PadState,
    force: Force,
    generation: nat,
    homeHeld: bool,
    timeout: Option<nat>,
    tasks: map<nat, HomeTask>,
    nextTask: nat,
    reported: Option<PadState>,
    changes: seq<ButtonChange>,
    client: PadState)

  const UNPLUGGED := Pad(None, NEUTRAL, NoForce, 0, false, None, map[], 0, None, [], NEUTRAL)

  /** What BACK counts as, and whether it is still forced, when the client says `back`. */
  function Forced(force: Force, back: bool): (Force, bool) {
    match force
    case ForceUp => (if back then ForceUp else NoForce, false)
    case ForceDown => (if back then NoForce else ForceDown, true)
    case NoForce => (NoForce, back)
  }

  function Schedule(p: Pad, task: HomeTask): Pad {
    p.(tasks := p.tasks[p.nextTask := task], timeout := Some(p.nextTask), nextTask := p.nextTask + 1)
  }

  function CancelPending(p: Pad): Pad {
    p.(tasks := if p.timeout.Some? then p.tasks - {p.timeout.value} else p.tasks, timeout := None)
  }

  /** Store `state` and hand it to the platform. */
  function Emit(p: Pad, state: PadState): Pad {
    var same := p.reported.Some? && p.reported.value.buttons == state.buttons;
    p.(stored := state,
       reported := Some(state),
       changes := if same then p.changes else p.changes + [ButtonChange(p.reported, state.buttons)])
  }

  /** The effect of an edge of BACK on the emulation. */
  function BackEdge(p: Pad, emulate: bool, back: bool): Pad {
    if back == p.stored.buttons.back then p
    else if back then
      if emulate then
        var q := p.(generation := p.generation + 1);
        Schedule(q, PressHome(q.generation))
      else p
    else if p.timeout.Some? && !p.homeHeld then CancelPending(p.(generation := p.generation + 1))
    else p
  }

  /** A state packet for a plugged-in pad; `emulate` says that the BACK timeout is not negative. */
  function Report(p: Pad, emulate: bool, buttons: Buttons, axes: Axes): Pad {
    var (force, back) := Forced(p.force, buttons.back);
    var q := BackEdge(p.(force := force, client := PadState(buttons, axes)), emulate, back);
    Emit(q, PadState(Buttons(back, buttons.home || q.homeHeld, buttons.others), axes))
  }

  function Unplug(p: Pad): Pad {
    var q := CancelPending(p.(generation := p.generation + 1));
    q.(homeHeld := false,
       stored := q.stored.(buttons := q.stored.buttons.(home := false)),
       force := NoForce,
       id := None,
       reported := None,
       changes := q.changes + [ButtonChange(q.reported, RELEASED)])
  }

  function Plug(p: Pad, id: nat): Pad {
    p.(id := Some(id))
  }

  /** The BACK timeout is over: BACK is forced up, HOME goes down, and its release is scheduled. */
  function HoldHome(p: Pad, generation: nat): Pad {
    var up := Emit(p.(force := ForceUp), p.stored.(buttons := p.stored.buttons.(back := false)));
    var down := Emit(up, up.stored.(buttons := up.stored.buttons.(home := true)));
    Schedule(down.(homeHeld := true), ReleaseHome(generation))
  }

  function DropHome(p: Pad): Pad {
    Emit(p, p.stored.(buttons := p.stored.buttons.(home := false))).(homeHeld := false, timeout := None)
  }

  /** The pool runs task `t` of this pad, if it has such a task. */
  function RunTask(p: Pad, t: nat): Pad {
    if t !in p.tasks then p
    else
      var q := p.(tasks := p.tasks - {t});
      if p.tasks[t].generation != q.generation || q.id.None? then q
      else
        match p.tasks[t]
        case PressHome(generation) => HoldHome(q, generation)
        case ReleaseHome(_) => DropHome(q)
  }

  // ---------------------------------------------------------------------------------------------------
  // Merging packets
  // ---------------------------------------------------------------------------------------------------

  /** Of two packets with the same buttons the first leaves no trace, whatever the pad went through before. */
  lemma EarlierReportIsInvisible(p: Pad, emulate: bool, buttons: Buttons, earlier: Axes, later: Axes)
    ensures Report(Report(p, emulate, buttons, earlier), emulate, buttons, later)
         == Report(p, emulate, buttons, later)
  {
    var (force, back) := Forced(p.force, buttons.back);
    var edge := BackEdge(p.(force := force, client := PadState(buttons, earlier)), emulate, back);
    EdgeKeepsClient(p.(force := force), emulate, back, PadState(buttons, earlier), PadState(buttons, later));
    assert Forced(force, buttons.back) == (force, back);
    var shown := Buttons(back, buttons.home || edge.homeHeld, buttons.others);
    EmitTwice(edge, PadState(buttons, later), PadState(shown, earlier), PadState(shown, later));
    hide Emit, Schedule, CancelPending;
    var once := Report(p, emulate, buttons, earlier);
    assert once == Emit(edge, PadState(shown, earlier));
    EmitStores(edge, PadState(shown, earlier));
    assert BackEdge(once.(client := PadState(buttons, later)), emulate, back)
        == once.(client := PadState(buttons, later));
  }

  lemma EmitStores(p: Pad, state: PadState)
    ensures var q := Emit(p, state); q.stored == state && q.force == p.force && q.homeHeld == p.homeHeld
  {
  }

  /** The edge of BACK has nothing to do with the packet that is remembered. */
  lemma EdgeKeepsClient(p: Pad, emulate: bool, back: bool, earlier: PadState, later: PadState)
    ensures BackEdge(p.(client := later), emulate, back)
         == BackEdge(p.(client := earlier), emulate, back).(client := later)
    ensures BackEdge(p.(client := earlier), emulate, back).force == p.force
  {
  }

  lemma EmitTwice(p: Pad, client: PadState, earlier: PadState, later: PadState)
    requires earlier.buttons == later.buttons
    ensures Emit(Emit(p, earlier).(client := client), later) == Emit(p.(client := client), later)
  {
  }

  // ---------------------------------------------------------------------------------------------------
  // Every run of the machine
  // ---------------------------------------------------------------------------------------------------

  datatype PadEvent =
    | Plugged(id: nat)
    | Reported(emulate: bool, buttons: Buttons, axes: Axes)
    | Unplugged
    | TaskRuns(task: nat)

  /** Packets reach the pad only in the state their handler checks for; other events pass it by. */
  function Apply(p: Pad, e: PadEvent): Pad {
    match e
    case Plugged(id) => if p.id.None? then Plug(p, id) else p
    case Reported(emulate, buttons, axes) => if p.id.Some? then Report(p, emulate, buttons, axes) else p
    case Unplugged => if p.id.Some? then Unplug(p) else p
    case TaskRuns(t) => RunTask(p, t)
  }

  function ApplyAll(p: Pad, events: seq<PadEvent>): Pad
    decreases |events|
  {
    if events == [] then p else ApplyAll(Apply(p, events[0]), events[1..])
  }

  predicate Current(p: Pad, t: nat) {
    t in p.tasks && p.tasks[t].generation == p.generation
  }

  ghost predicate Inv(p: Pad) {
    // the last scheduled task is the only one of the current generation; the others are stale
    && (forall t :: t in p.tasks ==> t < p.nextTask && p.tasks[t].generation <= p.generation)
    && (forall t :: t in p.tasks ==> (Current(p, t) <==> p.timeout == Some(t)))
    && (p.timeout.Some? ==> Current(p, p.timeout.value) && p.id.Some?)
    // an emulated HOME has its end already scheduled
    && (p.homeHeld ==> p.timeout.Some? && p.stored.buttons.home)
    && (p.timeout.Some? && p.tasks[p.timeout.value].ReleaseHome? ==> p.homeHeld)
    // a press that is still to come belongs to a BACK that is down
    && (p.timeout.Some? && !p.homeHeld ==> p.stored.buttons.back)
    // what the platform shows is what is stored, and HOME without emulation comes from the client
    && (p.reported.Some? ==> p.id.Some? && p.reported.value == p.stored)
    && (p.reported.Some? && p.stored.buttons.home && !p.homeHeld ==> p.client.buttons.home)
  }

  lemma PlugKeepsInv(p: Pad, id: nat)
    requires Inv(p) && p.id.None?
    ensures Inv(Plug(p, id))
  {
  }

  lemma UnplugKeepsInv(p: Pad)
    requires Inv(p) && p.id.Some?
    ensures Inv(Unplug(p))
  {
  }

  /** The edge of BACK comes before the packet is stored; with the packet the invariant is whole again. */
  lemma ReportKeepsInv(p: Pad, emulate: bool, buttons: Buttons, axes: Axes)
    requires Inv(p) && p.id.Some?
    ensures Inv(Report(p, emulate, buttons, axes))
  {
  }

  lemma RunTaskKeepsInv(p: Pad, t: nat)
    requires Inv(p)
    ensures Inv(RunTask(p, t))
  {
    if t in p.tasks && p.tasks[t].generation == p.generation {
      assert Current(p, t);
      if p.tasks[t].PressHome? {
        HoldKeepsInv(p, t);
      } else {
        DropKeepsInv(p, t);
      }
    }
  }

  lemma HoldKeepsInv(p: Pad, t: nat)
    requires Inv(p) && t in p.tasks && p.tasks[t] == PressHome(p.generation)
    ensures Inv(HoldHome(p.(tasks := p.tasks - {t}), p.generation))
  {
    assert Current(p, t);
  }

  lemma DropKeepsInv(p: Pad, t: nat)
    requires Inv(p) && t in p.tasks && p.tasks[t] == ReleaseHome(p.generation)
    ensures Inv(DropHome(p.(tasks := p.tasks - {t})))
  {
    assert Current(p, t);
  }

  lemma ApplyKeepsInv(p: Pad, e: PadEvent)
    requires Inv(p)
    ensures Inv(Apply(p, e))
  {
    hide Inv, Plug, Report, Unplug, RunTask;
    match e
    case Plugged(id) => if p.id.None? { PlugKeepsInv(p, id); }
    case Reported(emulate, buttons, axes) => if p.id.Some? { ReportKeepsInv(p, emulate, buttons, axes); }
    case Unplugged => if p.id.Some? { UnplugKeepsInv(p); }
    case TaskRuns(t) => RunTaskKeepsInv(p, t);
  }

  lemma {:induction false} RunsKeepInv(p: Pad, events: seq<PadEvent>)
    requires Inv(p)
    ensures Inv(ApplyAll(p, events))
    decreases |events|
  {
    if events != [] {
      ApplyKeepsInv(p, events[0]);
      RunsKeepInv(Apply(p, events[0]), events[1..]);
    }
  }

  /** In every reachable state a held HOME has exactly one pending task of the current generation. */
  lemma HomeNeverSticks(events: seq<PadEvent>)
    ensures var p := ApplyAll(UNPLUGGED, events);
      && (p.homeHeld ==> exists t :: Current(p, t))
      && (forall t, u :: Current(p, t) && Current(p, u) ==> t == u)
  {
    RunsKeepInv(UNPLUGGED, events);
    var p := ApplyAll(UNPLUGGED, events);
    if p.homeHeld {
      assert Current(p, p.timeout.value);
    }
  }

  /** HOME is never started for a BACK that is up; and HOME that nobody emulates is the client's own. */
  lemma HomeOnlyForHeldBack(events: seq<PadEvent>, t: nat)
    ensures var p := ApplyAll(UNPLUGGED, events);
      && (!p.homeHeld && Current(p, t) ==> p.tasks[t].PressHome? && p.stored.buttons.back)
      && (!p.homeHeld && p.reported.Some? && p.reported.value.buttons.home ==> p.client.buttons.home)
  {
    RunsKeepInv(UNPLUGGED, events);
  }

  /** Tasks only: no packet arrives any more. */
  function RunTasks(p: Pad, schedule: seq<nat>): Pad
    decreases |schedule|
  {
    if schedule == [] then p else RunTasks(RunTask(p, schedule[0]), schedule[1..])
  }

  predicate HomeReported(p: Pad) {
    p.homeHeld || (p.reported.Some? && p.reported.value.buttons.home)
  }

  /**
   With no further packets the task of the current generation, or that task and the release it schedules,
   clears HOME from the reported state.
   */
  lemma TwoTasksClearHome(p: Pad)
    requires Inv(p) && p.homeHeld
    ensures var one := RunTask(p, p.timeout.value);
      if p.tasks[p.timeout.value].ReleaseHome? then !HomeReported(one)
      else one.timeout.Some? && !HomeReported(RunTask(one, one.timeout.value))
  {
    ApplyKeepsInv(p, TaskRuns(p.timeout.value));
    var one := RunTask(p, p.timeout.value);
    assert Inv(one);
    assert p.reported.Some? ==> p.reported.value == p.stored;
  }

  /** How many task runs a pad can still cause: a press schedules a release. */
  ghost function Weight(tasks: map<nat, HomeTask>): nat {
    if tasks == map[] then 0
    else
      var t :| t in tasks;
      (if tasks[t].PressHome? then 2 else 1) + Weight(tasks - {t})
  }

  lemma {:induction false} WeightWithout(tasks: map<nat, HomeTask>, t: nat)
    requires t in tasks
    ensures Weight(tasks) == (if tasks[t].PressHome? then 2 else 1) + Weight(tasks - {t})
    decreases |tasks|
  {
    var u :| u in tasks && Weight(tasks) == (if tasks[u].PressHome? then 2 else 1) + Weight(tasks - {u});
    if u != t {
      WeightWithout(tasks - {u}, t);
      WeightWithout(tasks - {t}, u);
      assert tasks - {u} - {t} == tasks - {t} - {u};
    }
  }

  lemma TaskRunsAreBounded(p: Pad, t: nat)
    requires t in p.tasks && (forall u :: u in p.tasks ==> u < p.nextTask)
    ensures Weight(RunTask(p, t).tasks) < Weight(p.tasks)
  {
    WeightWithout(p.tasks, t);
    var after := RunTask(p, t);
    if after.tasks != p.tasks - {t} {
      WeightWithout(after.tasks, p.nextTask);
      assert after.tasks - {p.nextTask} == p.tasks - {t};
    }
  }

  ghost predicate Runnable(p: Pad, schedule: seq<nat>)
    decreases |schedule|
  {
    schedule == [] || (schedule[0] in p.tasks && Runnable(RunTask(p, schedule[0]), schedule[1..]))
  }

  /**
   In whatever order the pool runs the delayed tasks, stale ones included, it runs out of them after at most
   `Weight` runs, and then no HOME is reported that the client does not hold.
   */
  lemma {:induction false} EveryScheduleEnds(p: Pad, schedule: seq<nat>)
    requires Inv(p) && Runnable(p, schedule)
    ensures |schedule| <= Weight(p.tasks)
    ensures var q := RunTasks(p, schedule);
      Inv(q) && (q.tasks == map[] ==> !q.homeHeld && (HomeReported(q) ==> q.client.buttons.home))
    decreases |schedule|
  {
    hide Inv, RunTask, Weight, HomeReported;
    if schedule == [] {
      IdleReportsNoHome(p);
    } else {
      RunTaskKeepsInv(p, schedule[0]);
      TasksAreBelow(p);
      TaskRunsAreBounded(p, schedule[0]);
      EveryScheduleEnds(RunTask(p, schedule[0]), schedule[1..]);
    }
  }

  lemma IdleReportsNoHome(p: Pad)
    requires Inv(p)
    ensures p.tasks == map[] ==> !p.homeHeld && (HomeReported(p) ==> p.client.buttons.home)
  {
  }

  lemma TasksAreBelow(p: Pad)
    requires Inv(p)
    ensures forall t :: t in p.tasks ==> t < p.nextTask
  {
  }

  /** A task that was scheduled before the current generation. */
  predicate Stale(p: Pad, t: nat) {
    t < p.nextTask && t in p.tasks && p.tasks[t].generation < p.generation
  }

  /** A stale task stays stale until the pool runs it; an id is never used again. */
  lemma StepKeepsStale(p: Pad, e: PadEvent, t: nat)
    requires t < p.nextTask && (t in p.tasks ==> Stale(p, t))
    ensures var q := Apply(p, e); t < q.nextTask && (t in q.tasks ==> t in p.tasks && Stale(q, t))
  {
    hide Forced;
    match e
    case Reported(_, _, _) =>
    case TaskRuns(u) =>
    case Unplugged =>
    case Plugged(_) =>
  }

  lemma {:induction false} StaleStays(p: Pad, events: seq<PadEvent>, t: nat)
    requires t < p.nextTask && (t in p.tasks ==> Stale(p, t))
    ensures var q := ApplyAll(p, events); t in q.tasks ==> t in p.tasks && Stale(q, t)
    decreases |events|
  {
    hide Apply, Stale;
    if events != [] {
      StepKeepsStale(p, events[0], t);
      StaleStays(Apply(p, events[0]), events[1..], t);
    }
  }

  /** Once stale, a task stays stale over any run that does not consume it, and running it changes nothing. */
  lemma StaleTasksDoNothing(p: Pad, events: seq<PadEvent>, t: nat)
    requires t in p.tasks && p.tasks[t].generation < p.generation && t < p.nextTask
    ensures var q := ApplyAll(p, events);
      t in q.tasks ==> RunTask(q, t) == q.(tasks := q.tasks - {t})
  {
    StaleStays(p, events, t);
  }

  /** A task that is gone stays gone. */
  lemma GoneTasksStayGone(p: Pad, events: seq<PadEvent>, t: nat)
    requires t !in p.tasks && t < p.nextTask
    ensures t !in ApplyAll(p, events).tasks
  {
    StaleStays(p, events, t);
  }

  // ---------------------------------------------------------------------------------------------------
  // What the platform is told is what the client says
  // ---------------------------------------------------------------------------------------------------

  /** The last packet among `events`, or `before` if there is none. */
  function LastPacket(before: PadState, events: seq<PadEvent>): PadState
    decreases |events|
  {
    if events == [] then before
    else if events[|events| - 1].Reported? then
      PadState(events[|events| - 1].buttons, events[|events| - 1].axes)
    else LastPacket(before, events[..|events| - 1])
  }

  lemma {:induction false} LastPacketOf(before: PadState, events: seq<PadEvent>)
    requires events != []
    ensures LastPacket(before, events) ==
      LastPacket(if events[0].Reported? then PadState(events[0].buttons, events[0].axes) else before, events[1..])
    decreases |events|
  {
    var n := |events| - 1;
    if n > 0 && !events[n].Reported? {
      assert events[1..][..n - 1] == events[..n][1..];
      LastPacketOf(before, events[..n]);
    }
  }

  /** While the platform shows the pad, or a task may change it: BACK is the client's unless forced up, the rest too. */
  ghost predicate Shows(p: Pad, client: PadState) {
    p.reported.Some? || p.timeout.Some? ==>
      && p.stored.buttons.others == client.buttons.others && p.stored.axes == client.axes
      && p.force != ForceDown
      && p.stored.buttons.back == (client.buttons.back && p.force == NoForce)
      && (client.buttons.home || p.homeHeld || !p.stored.buttons.home)
  }

  lemma ReportShows(p: Pad, emulate: bool, buttons: Buttons, axes: Axes, client: PadState)
    requires Inv(p) && Shows(p, client) && p.force != ForceDown
    ensures var q := Report(p, emulate, buttons, axes);
      Shows(q, PadState(buttons, axes)) && q.force != ForceDown && q.reported == Some(q.stored)
  {
  }

  lemma RunTaskShows(p: Pad, t: nat, client: PadState)
    requires Inv(p) && Shows(p, client) && p.force != ForceDown
    ensures Shows(RunTask(p, t), client) && RunTask(p, t).force != ForceDown
  {
    if t in p.tasks && p.tasks[t].generation == p.generation {
      assert Current(p, t);
    }
  }

  lemma {:induction false} RunsShow(p: Pad, events: seq<PadEvent>, client: PadState)
    requires Inv(p) && Shows(p, client) && p.force != ForceDown
    ensures Shows(ApplyAll(p, events), LastPacket(client, events))
    decreases |events|
  {
    hide Inv, Report, RunTask, LastPacket;
    if events == [] {
      LastOfNone(client);
    } else {
      var e := events[0];
      var next := if e.Reported? then PadState(e.buttons, e.axes) else client;
      LastPacketOf(client, events);
      ApplyKeepsInv(p, e);
      NothingShown(p);
      match e {
        case Reported(emulate, buttons, axes) => if p.id.Some? { ReportShows(p, emulate, buttons, axes, client); }
        case TaskRuns(t) => RunTaskShows(p, t, client);
        case _ =>
      }
      RunsShow(Apply(p, e), events[1..], next);
    }
  }

  lemma LastOfNone(client: PadState)
    ensures LastPacket(client, []) == client
  {
  }

  lemma NothingShown(p: Pad)
    requires Inv(p)
    ensures p.id.None? ==> p.reported.None? && p.timeout.None?
  {
  }

  /**
   Over every run, what the platform was last told about the pad is what the client's last packet says: its axes, its
   buttons, BACK unless the emulation forces it up, and HOME besides what the emulation adds.
   */
  lemma ReportedIsTheClients(events: seq<PadEvent>)
    ensures var p, client := ApplyAll(UNPLUGGED, events), LastPacket(NEUTRAL, events);
      p.reported.Some? ==>
        var told := p.reported.value;
        && told.axes == client.axes && told.buttons.others == client.buttons.others
        && told.buttons.back == (client.buttons.back && p.force != ForceUp)
        && (told.buttons.home ==> client.buttons.home || p.homeHeld)
        && (p.homeHeld ==> told.buttons.home)
  {
    RunsKeepInv(UNPLUGGED, events);
    RunsShow(UNPLUGGED, events, NEUTRAL);
  }

  /** Right after a packet the platform has been told, HOME of the client included. */
  lemma PacketIsReported(p: Pad, emulate: bool, buttons: Buttons, axes: Axes)
    requires Inv(p) && p.force == NoForce
    ensures Report(p, emulate, buttons, axes).reported ==
      var home := buttons.home || Report(p, emulate, buttons, axes).homeHeld;
      Some(PadState(Buttons(buttons.back, home, buttons.others), axes))
  {
  }

  /**
   The emulation from end to end: BACK goes down and a press of HOME is due; when that runs, the platform sees BACK go
   up and then HOME go down; when the release that it schedules runs, HOME goes up again. Nothing else changes.
   */
  lemma HoldingBackIsHome(p: Pad, buttons: Buttons, axes: Axes)
    requires Inv(p) && p.id.Some? && p.force == NoForce && !p.stored.buttons.back && !p.homeHeld
    requires buttons.back && !buttons.home
    ensures var held := Report(p, true, buttons, axes);
      && held.timeout.Some? && held.tasks[held.timeout.value].PressHome?
      && var home := RunTask(held, held.timeout.value);
        var released := buttons.(back := false);
        && home.reported == Some(PadState(released.(home := true), axes))
        && home.changes == held.changes + [ButtonChange(held.reported, released),
                                           ButtonChange(Some(PadState(released, axes)), released.(home := true))]
        && home.timeout.Some? && home.timeout.value in home.tasks
        && RunTask(home, home.timeout.value).reported == Some(PadState(released, axes))
    ensures Report(p, false, buttons, axes).tasks == p.tasks
  {
    ReportKeepsInv(p, true, buttons, axes);
    var held := Report(p, true, buttons, axes);
    var t := held.timeout.value;
    assert held.tasks[t] == PressHome(held.generation);
    assert held.reported == Some(PadState(buttons, axes));
    var home := RunTask(held, t);
    var released := buttons.(back := false);
    assert home.stored == PadState(released.(home := true), axes);
    assert home.tasks[held.nextTask] == ReleaseHome(held.generation);
    assert held.changes + [ButtonChange(held.reported, released)]
      + [ButtonChange(Some(PadState(released, axes)), released.(home := true))]
      == held.changes + [ButtonChange(held.reported, released),
                         ButtonChange(Some(PadState(released, axes)), released.(home := true))];
  }

  /** BACK that goes up before the press of HOME is due takes it back. */
  lemma ReleasingBackInTime(p: Pad, emulate: bool, buttons: Buttons, axes: Axes, t: nat)
    requires Inv(p) && !p.homeHeld && p.timeout.Some? && p.force == NoForce && !buttons.back
    ensures var q := Report(p, emulate, buttons, axes); q.timeout.None? && !Current(q, t)
  {
    ReportKeepsInv(p, emulate, buttons, axes);
  }

  /** A removal, and a press of BACK that starts the emulation anew, make every earlier task stale. */
  lemma RemovalAndPressOutdateTasks(p: Pad, emulate: bool, buttons: Buttons, axes: Axes, t: nat)
    requires Inv(p) && p.id.Some? && t in p.tasks
    ensures var q := Unplug(p); t in q.tasks ==> q.tasks[t].generation < q.generation
    ensures var q := Report(p, emulate, buttons, axes);
      emulate && q.stored.buttons.back && !p.stored.buttons.back ==>
        t in q.tasks && q.tasks[t].generation < q.generation
  {
  }

  // ---------------------------------------------------------------------------------------------------
  // The object the handlers update
  // ---------------------------------------------------------------------------------------------------

  class GamepadObject {
    var id: Option<nat>
    var gamepadState: PadState
    var backButtonState: Force
    var generation: nat
    var homeHeld: bool
    var backTimeoutId: Option<nat>
    // the task pool, the platform and the client, as far as this pad sees them
    var tasks: map<nat, HomeTask>
    var nextTask: nat
    var reported: Option<PadState>
    var changes: seq<ButtonChange>
    var client: PadState

    function View(): Pad
      reads this
    {
      Pad(id, gamepadState, backButtonState, generation, homeHeld, backTimeoutId, tasks, nextTask, reported,
          changes, client)
    }

    constructor ()
      ensures View() == UNPLUGGED
    {
      id, gamepadState, backButtonState := None, NEUTRAL, NoForce;
      generation, homeHeld, backTimeoutId := 0, false, None;
      tasks, nextTask, reported, changes, client := map[], 0, None, [], NEUTRAL;
    }

    method GamepadUpdate(state: PadState)
      modifies this`reported, this`changes
      ensures reported == Some(state)
      ensures changes == if old(reported).Some? && old(reported).value.buttons == state.buttons
                         then old(changes) else old(changes) + [ButtonChange(old(reported), state.buttons)]
    {
      if reported.None? || reported.value.buttons != state.buttons {
        changes := changes + [ButtonChange(reported, state.buttons)];
      }
      reported := Some(state);
    }

    method PushDelayed(task: HomeTask)
      modifies this`tasks, this`nextTask, this`backTimeoutId
      ensures View() == Schedule(old(View()), task)
    {
      tasks := tasks[nextTask := task];
      backTimeoutId := Some(nextTask);
      nextTask := nextTask + 1;
    }

    method CancelTimeout()
      modifies this`tasks, this`backTimeoutId
      ensures View() == CancelPending(old(View()))
    {
      if backTimeoutId.Some? {
        tasks := tasks - {backTimeoutId.value};
      }
      backTimeoutId := None;
    }

    /** Keep BACK at its forced value until the client agrees with it. */
    method ForceBack(wanted: bool) returns (back: bool)
      modifies this`backButtonState
      ensures (backButtonState, back) == Forced(old(backButtonState), wanted)
    {
      back := wanted;
      match backButtonState {
        case ForceUp =>
          if !wanted {
            backButtonState := NoForce;
          }
          back := false;
        case ForceDown =>
          if wanted {
            backButtonState := NoForce;
          }
          back := true;
        case NoForce =>
      }
    }

    /** Start or abandon the emulation when BACK changes. */
    method OnBackEdge(emulate: bool, back: bool)
      modifies this`generation, this`tasks, this`nextTask, this`backTimeoutId
      ensures View() == BackEdge(old(View()), emulate, back)
    {
      if back != gamepadState.buttons.back {
        if back {
          if emulate {
            generation := generation + 1;
            PushDelayed(PressHome(generation));
          }
        } else if backTimeoutId.Some? {
          if !homeHeld {
            generation := generation + 1;
            CancelTimeout();
          }
        }
      }
    }

    /** The controller packet of a plugged-in pad. */
    method Passthrough(emulate: bool, buttons: Buttons, axes: Axes)
      modifies this
      ensures View() == Report(old(View()), emulate, buttons, axes)
    {
      ghost var p := View();
      client := PadState(buttons, axes);
      var back := ForceBack(buttons.back);
      ghost var q := p.(force := backButtonState, client := client);
      assert View() == q;
      OnBackEdge(emulate, back);
      ghost var r := BackEdge(q, emulate, back);
      assert View() == r;
      var next := PadState(Buttons(back, buttons.home || homeHeld, buttons.others), axes);
      GamepadUpdate(next);
      gamepadState := next;
      assert View() == Emit(r, next);
    }

    /** The last event of a pad that leaves. */
    method Remove()
      modifies this
      ensures View() == Unplug(old(View()))
    {
      ghost var p := View();
      generation := generation + 1;
      CancelTimeout();
      assert View() == CancelPending(p.(generation := p.generation + 1));
      hide CancelPending;
      homeHeld := false;
      gamepadState := gamepadState.(buttons := gamepadState.buttons.(home := false));
      backButtonState := NoForce;
      changes := changes + [ButtonChange(reported, RELEASED)];
      reported := None;
      id := None;
    }

    /** The first closure. */
    method PressHomeButton(scheduled: nat)
      modifies this
      ensures View() == HoldHome(old(View()), scheduled)
    {
      ghost var p := View();
      backButtonState := ForceUp;
      gamepadState := gamepadState.(buttons := gamepadState.buttons.(back := false));
      GamepadUpdate(gamepadState);
      ghost var up := Emit(p.(force := ForceUp), p.stored.(buttons := p.stored.buttons.(back := false)));
      assert View() == up;
      gamepadState := gamepadState.(buttons := gamepadState.buttons.(home := true));
      GamepadUpdate(gamepadState);
      ghost var down := Emit(up, up.stored.(buttons := up.stored.buttons.(home := true)));
      assert View() == down;
      hide Emit, Schedule;
      homeHeld := true;
      PushDelayed(ReleaseHome(scheduled));
    }

    /** The closure that the first one schedules. */
    method ReleaseHomeButton()
      modifies this
      ensures View() == DropHome(old(View()))
    {
      gamepadState := gamepadState.(buttons := gamepadState.buttons.(home := false));
      GamepadUpdate(gamepadState);
      homeHeld := false;
      backTimeoutId := None;
    }

    /** The pool runs one of the two closures. */
    method Run(t: nat)
      modifies this
      ensures View() == RunTask(old(View()), t)
    {
      hide HoldHome, DropHome;
      if t !in tasks {
        return;
      }
      var task := tasks[t];
      tasks := tasks - {t};
      if task.generation != generation || id.None? {
        return;
      }
      match task {
        case PressHome(scheduled) => PressHomeButton(scheduled);
        case ReleaseHome(_) => ReleaseHomeButton();
      }
    }
  }
}
