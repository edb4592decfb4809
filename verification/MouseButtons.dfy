/**
 Mouse buttons (src/input.cpp, the button `passthrough`). While the pointer is moved by absolute positions the
 release of the left button is delayed, so that a right click that follows at once comes before it.
 */
module MouseButtons {

  const LEFT := 1
  const RIGHT := 3
  /** Buttons from here on, and button 0, are passed on without being tracked. */
  const TRACKED := 5

  /** `mouse_left_button_timeout`: null, the marker "no delay", or the id of a delayed release. */
  datatype Delay = Enabled | Disabled | Waiting(task: nat)

  datatype ButtonEvent = ButtonEvent(button: nat, down: bool)

  /** `tasks` are the delayed releases in the pool; `log` is what the platform was told. */
  datatype Mouse = Mouse(pressed: set<nat>, delay: Delay, tasks: set<nat>, nextTask: nat, log: seq<ButtonEvent>)

  const IDLE := Mouse({}, Enabled, {}, 0, [])

  predicate Tracked(button: nat) {
    0 < button < TRACKED
  }

  function Click(m: Mouse, release: bool, button: nat): Mouse {
    if Tracked(button) && (button in m.pressed) != release then m
    else
      var pressed := if !Tracked(button) then m.pressed
                     else if release then m.pressed - {button} else m.pressed + {button};
      var n := m.(pressed := pressed);
      if button == LEFT && release && n.delay == Enabled then
        n.(delay := Waiting(n.nextTask), tasks := n.tasks + {n.nextTask}, nextTask := n.nextTask + 1)
      else if button == RIGHT && !release && n.delay.Waiting? then
        n.(log := n.log + [ButtonEvent(RIGHT, true), ButtonEvent(RIGHT, false)], pressed := n.pressed - {RIGHT})
      else n.(log := n.log + [ButtonEvent(button, !release)])
  }

  function MovedRelatively(m: Mouse): Mouse {
    m.(delay := Disabled)
  }

  function MovedAbsolutely(m: Mouse): Mouse {
    if m.delay == Disabled then m.(delay := Enabled) else m
  }

  /** A delayed release runs; it gives way to a left button that is pressed again. */
  function RunRelease(m: Mouse, t: nat): Mouse {
    if t !in m.tasks then m
    else
      var n := m.(tasks := m.tasks - {t});
      if LEFT in n.pressed then n
      else n.(log := n.log + [ButtonEvent(LEFT, false)], pressed := n.pressed - {LEFT}, delay := Enabled)
  }

  /** The part of `reset` that runs at once: the delayed release, if any, is cancelled. */
  function ResetCancels(m: Mouse): Mouse {
    if m.delay.Waiting? then m.(tasks := m.tasks - {m.delay.task}) else m
  }

  /** The part of `reset` that runs on the worker: what is marked pressed is released, lowest button first. */
  function ResetReleases(m: Mouse, from: nat): Mouse
    decreases TRACKED - from
  {
    if from >= TRACKED then m
    else if from in m.pressed then
      ResetReleases(m.(log := m.log + [ButtonEvent(from, false)], pressed := m.pressed - {from}), from + 1)
    else ResetReleases(m, from + 1)
  }

  /** Whether the platform holds `button` down after `log`. */
  function Held(log: seq<ButtonEvent>, button: nat): bool {
    if log == [] then false
    else if log[|log| - 1].button == button then log[|log| - 1].down
    else Held(log[..|log| - 1], button)
  }

  lemma HeldAfter(log: seq<ButtonEvent>, e: ButtonEvent, button: nat)
    ensures Held(log + [e], button) == if e.button == button then e.down else Held(log, button)
  {
    assert (log + [e])[..|log|] == log;
  }

  /** The events of `button` alternate, beginning with a press. */
  ghost predicate Alternates(log: seq<ButtonEvent>, button: nat) {
    forall i {:trigger log[i]} :: 0 <= i < |log| && log[i].button == button ==> log[i].down != Held(log[..i], button)
  }

  lemma AlternatesAfter(log: seq<ButtonEvent>, e: ButtonEvent, button: nat)
    requires Alternates(log, button) && (e.button == button ==> e.down != Held(log, button))
    ensures Alternates(log + [e], button)
  {
    forall i | 0 <= i < |log + [e]| && (log + [e])[i].button == button
      ensures (log + [e])[i].down != Held((log + [e])[..i], button)
    {
      assert (log + [e])[..i] == log[..i];
      assert log[..|log|] == log;
    }
  }

  // ---------------------------------------------------------------------------------------------------
  // Every run
  // ---------------------------------------------------------------------------------------------------

  datatype MouseStep =
    | Button(release: bool, button: nat)
    | Relative
    | Absolute
    | ReleaseRuns(task: nat)
    | ResetBegins
    | ResetWorks

  function Apply(m: Mouse, s: MouseStep): Mouse {
    match s
    case Button(release, button) => Click(m, release, button)
    case Relative => MovedRelatively(m)
    case Absolute => MovedAbsolutely(m)
    case ReleaseRuns(t) => RunRelease(m, t)
    case ResetBegins => ResetCancels(m)
    case ResetWorks => ResetReleases(m, 0)
  }

  function ApplyAll(m: Mouse, steps: seq<MouseStep>): Mouse
    decreases |steps|
  {
    if steps == [] then m else Apply(ApplyAll(m, steps[..|steps| - 1]), steps[|steps| - 1])
  }

  /** Every tracked button but the left one: the platform follows the marks, and its events alternate. */
  ghost predicate OthersInv(m: Mouse) {
    forall b :: Tracked(b) && b != LEFT ==> Alternates(m.log, b) && (Held(m.log, b) <==> b in m.pressed)
  }

  ghost predicate Inv(m: Mouse) {
    OthersInv(m) && (LEFT in m.pressed ==> Held(m.log, LEFT)) && m.pressed <= {1, 2, 3, 4}
  }

  /** The left button is down without a mark, and no delayed release is left to lift it. */
  predicate Stranded(m: Mouse) {
    Held(m.log, LEFT) && LEFT !in m.pressed && m.tasks == {}
  }

  /** The left button is down without a mark, and waits for one delayed release, which a reset would cancel. */
  predicate HangsByOne(m: Mouse) {
    m.delay.Waiting? && Held(m.log, LEFT) && LEFT !in m.pressed && m.tasks == {m.delay.task}
  }

  lemma LogKeepsOthers(m: Mouse, e: ButtonEvent)
    requires OthersInv(m)
    requires Tracked(e.button) && e.button != LEFT ==> e.down != (e.button in m.pressed)
    ensures OthersInv(m.(log := m.log + [e],
                         pressed := if e.down then m.pressed + {e.button} else m.pressed - {e.button}))
    ensures !Tracked(e.button) ==> OthersInv(m.(log := m.log + [e]))
  {
    forall b | Tracked(b) && b != LEFT
      ensures Alternates(m.log + [e], b)
      ensures Held(m.log + [e], b) <==> if b == e.button then e.down else b in m.pressed
    {
      HeldAfter(m.log, e, b);
      AlternatesAfter(m.log, e, b);
    }
  }

  /** A press of the left button takes it back; no other click strands it or helps. */
  lemma ClickKeepsInv(m: Mouse, release: bool, button: nat)
    requires Inv(m)
    ensures Inv(Click(m, release, button))
    ensures Stranded(Click(m, release, button)) <==> Stranded(m) && !(button == LEFT && !release)
  {
    if Tracked(button) && (button in m.pressed) != release {
    } else if button == LEFT && release && m.delay == Enabled {
      assert Click(m, release, button).log == m.log;
      assert m.nextTask in Click(m, release, button).tasks;
    } else if button == RIGHT && !release && m.delay.Waiting? {
      var down, up := ButtonEvent(RIGHT, true), ButtonEvent(RIGHT, false);
      LogKeepsOthers(m, down);
      LogKeepsOthers(m.(log := m.log + [down], pressed := m.pressed + {RIGHT}), up);
      HeldAfter(m.log, down, LEFT);
      HeldAfter(m.log + [down], up, LEFT);
      assert m.log + [down, up] == m.log + [down] + [up];
    } else {
      LogKeepsOthers(m, ButtonEvent(button, !release));
      HeldAfter(m.log, ButtonEvent(button, !release), LEFT);
    }
  }

  lemma RunReleaseKeepsInv(m: Mouse, t: nat)
    requires Inv(m)
    ensures Inv(RunRelease(m, t))
    ensures Stranded(RunRelease(m, t)) <==> Stranded(m)
  {
    LogKeepsOthers(m, ButtonEvent(LEFT, false));
    HeldAfter(m.log, ButtonEvent(LEFT, false), LEFT);
  }

  lemma ReleasingKeepsInv(m: Mouse, button: nat)
    requires Inv(m) && button in m.pressed
    ensures var n := m.(log := m.log + [ButtonEvent(button, false)], pressed := m.pressed - {button});
      Inv(n) && (Stranded(n) <==> Stranded(m))
  {
    LogKeepsOthers(m, ButtonEvent(button, false));
    HeldAfter(m.log, ButtonEvent(button, false), LEFT);
  }

  lemma {:induction false} ResetReleasesKeepsInv(m: Mouse, from: nat)
    requires Inv(m)
    ensures Inv(ResetReleases(m, from))
    ensures Stranded(ResetReleases(m, from)) <==> Stranded(m)
    ensures ResetReleases(m, from).pressed == set b | b in m.pressed && b < from
    decreases TRACKED - from
  {
    hide Stranded, OthersInv;
    if from < TRACKED {
      if from in m.pressed {
        ReleasingKeepsInv(m, from);
        var n := m.(log := m.log + [ButtonEvent(from, false)], pressed := m.pressed - {from});
        ResetReleasesKeepsInv(n, from + 1);
        assert ResetReleases(m, from) == ResetReleases(n, from + 1);
      } else {
        ResetReleasesKeepsInv(m, from + 1);
      }
    }
  }

  /** Cancelling the delayed release strands the left button exactly when it was the only one still due. */
  lemma CancellingStrandsLeft(m: Mouse)
    requires Inv(m)
    ensures Inv(ResetCancels(m))
    ensures Stranded(ResetCancels(m)) <==> Stranded(m) || HangsByOne(m)
  {
    if m.delay.Waiting? && m.tasks != {} && m.tasks != {m.delay.task} {
      var t :| t in m.tasks && t != m.delay.task;
      assert t in m.tasks - {m.delay.task};
    }
  }

  /** What one step does to a left button that is stranded or about to be. */
  lemma StepStrands(m: Mouse, s: MouseStep)
    requires Inv(m)
    ensures Inv(Apply(m, s))
    ensures Stranded(Apply(m, s)) <==>
      (Stranded(m) && s != Button(false, LEFT)) || (s == ResetBegins && HangsByOne(m))
  {
    match s
    case Button(release, button) => ClickKeepsInv(m, release, button);
    case ReleaseRuns(t) => RunReleaseKeepsInv(m, t);
    case ResetBegins => CancellingStrandsLeft(m);
    case ResetWorks => ResetReleasesKeepsInv(m, 0);
    case _ =>
  }

  /** Step `i` is a reset that cancels the one release due, and the left button has not been pressed since. */
  predicate StrandsAt(steps: seq<MouseStep>, i: nat)
    requires i < |steps|
  {
    && steps[i] == ResetBegins && HangsByOne(ApplyAll(IDLE, steps[..i]))
    && forall j :: i < j < |steps| ==> steps[j] != Button(false, LEFT)
  }

  lemma StrandsAtLonger(steps: seq<MouseStep>, s: MouseStep, i: nat)
    requires i < |steps|
    ensures StrandsAt(steps + [s], i) <==> StrandsAt(steps, i) && s != Button(false, LEFT)
  {
    var all := steps + [s];
    assert all[..i] == steps[..i];
    assert all[|steps|] == s;
    assert forall j :: i < j < |steps| ==> all[j] == steps[j];
  }

  /**
   Over every run, resets included, the left button is down with nothing to lift it exactly if some reset has cancelled
   the only release that was due and the button has not been pressed since.
   */
  lemma {:induction false} LeftIsStrandedIff(steps: seq<MouseStep>)
    ensures Inv(ApplyAll(IDLE, steps))
    ensures Stranded(ApplyAll(IDLE, steps)) <==> exists i: nat :: i < |steps| && StrandsAt(steps, i)
    decreases |steps|
  {
    if steps != [] {
      var n := |steps| - 1;
      var before, s := steps[..n], steps[n];
      assert steps == before + [s];
      LeftIsStrandedIff(before);
      StepStrands(ApplyAll(IDLE, before), s);
      hide Stranded, HangsByOne, Inv, Apply;
      forall i: nat | i < n ensures StrandsAt(steps, i) <==> StrandsAt(before, i) && s != Button(false, LEFT) {
        StrandsAtLonger(before, s, i);
      }
      assert StrandsAt(steps, n) <==> s == ResetBegins && HangsByOne(ApplyAll(IDLE, before));
    }
  }

  /**
   Over every run, resets included: the events of every tracked button but the left one alternate and the platform
   holds exactly the marked ones; a marked left button is down, and so is an unmarked one only while a delayed release
   is pending or a reset has stranded it.
   */
  lemma ButtonsFollowTheirMarks(steps: seq<MouseStep>, button: nat)
    requires Tracked(button)
    ensures var m := ApplyAll(IDLE, steps);
      && (button != LEFT ==> Alternates(m.log, button) && (Held(m.log, button) <==> button in m.pressed))
      && (LEFT in m.pressed ==> Held(m.log, LEFT))
      && (Held(m.log, LEFT) && LEFT !in m.pressed ==>
            m.tasks != {} || exists i: nat :: i < |steps| && StrandsAt(steps, i))
  {
    LeftIsStrandedIff(steps);
  }

  /** After a relative move a left release goes out at once; after an absolute one it waits, and then goes out. */
  lemma MovesDecideTheDelay(m: Mouse)
    requires LEFT in m.pressed
    ensures var relative := Click(MovedRelatively(m), true, LEFT);
      var waiting := Click(MovedAbsolutely(MovedRelatively(m)), true, LEFT);
      && relative.log == m.log + [ButtonEvent(LEFT, false)] && relative.tasks == m.tasks
      && waiting.log == m.log && waiting.tasks == m.tasks + {m.nextTask}
      && LEFT !in relative.pressed && LEFT !in waiting.pressed
      && RunRelease(waiting, m.nextTask).log == m.log + [ButtonEvent(LEFT, false)]
      && RunRelease(Click(waiting, false, LEFT), m.nextTask).log == m.log + [ButtonEvent(LEFT, true)]
  {
  }

  /** What the platform was told about a button. */
  function EventsOf(log: seq<ButtonEvent>, button: nat): seq<bool>
    decreases |log|
  {
    if log == [] then []
    else
      var last := log[|log| - 1];
      EventsOf(log[..|log| - 1], button) + if last.button == button then [last.down] else []
  }

  /** What the client asked for: presses and releases of a button. */
  function ClicksOf(steps: seq<MouseStep>, button: nat): seq<bool>
    decreases |steps|
  {
    if steps == [] then []
    else
      var last := steps[|steps| - 1];
      ClicksOf(steps[..|steps| - 1], button) + if last.Button? && last.button == button then [!last.release] else []
  }

  lemma EventsAfter(log: seq<ButtonEvent>, e: ButtonEvent, button: nat)
    ensures EventsOf(log + [e], button) == EventsOf(log, button) + if e.button == button then [e.down] else []
  {
    assert (log + [e])[..|log|] == log;
  }

  lemma {:induction false} ResetTellsOthers(m: Mouse, from: nat, button: nat)
    requires !(0 < button < 5) && m.pressed <= {1, 2, 3, 4}
    ensures EventsOf(ResetReleases(m, from).log, button) == EventsOf(m.log, button)
    decreases TRACKED - from
  {
    hide EventsOf;
    if from < TRACKED {
      var n := if from in m.pressed
               then m.(log := m.log + [ButtonEvent(from, false)], pressed := m.pressed - {from}) else m;
      EventsAfter(m.log, ButtonEvent(from, false), button);
      ResetTellsOthers(n, from + 1, button);
      assert ResetReleases(m, from) == ResetReleases(n, from + 1);
    }
  }

  lemma StepTells(m: Mouse, s: MouseStep, button: nat)
    requires !(0 < button < 5) && m.pressed <= {1, 2, 3, 4}
    ensures EventsOf(Apply(m, s).log, button)
         == EventsOf(m.log, button) + if s.Button? && s.button == button then [!s.release] else []
  {
    hide EventsOf;
    match s
    case Button(release, b) =>
      EventsAfter(m.log, ButtonEvent(b, !release), button);
      if b == RIGHT {
        EventsAfter(m.log, ButtonEvent(RIGHT, true), button);
        EventsAfter(m.log + [ButtonEvent(RIGHT, true)], ButtonEvent(RIGHT, false), button);
        assert m.log + [ButtonEvent(RIGHT, true)] + [ButtonEvent(RIGHT, false)]
            == m.log + [ButtonEvent(RIGHT, true), ButtonEvent(RIGHT, false)];
      }
    case ReleaseRuns(t) => EventsAfter(m.log, ButtonEvent(LEFT, false), button);
    case ResetWorks => ResetTellsOthers(m, 0, button);
    case _ =>
  }

  /** Over every run the clicks of a button that is not tracked are passed on, all of them and in order. */
  lemma {:induction false} UntrackedArePassedOn(steps: seq<MouseStep>, button: nat)
    requires !(0 < button < 5)
    ensures EventsOf(ApplyAll(IDLE, steps).log, button) == ClicksOf(steps, button)
    decreases |steps|
  {
    hide Apply, EventsOf;
    if steps == [] {
      assert EventsOf([], button) == [] by { NothingTold(button); }
    } else {
      var before := steps[..|steps| - 1];
      UntrackedArePassedOn(before, button);
      LeftIsStrandedIff(before);
      StepTells(ApplyAll(IDLE, before), steps[|steps| - 1], button);
    }
  }

  lemma NothingTold(button: nat)
    ensures EventsOf([], button) == []
  {
  }

  /** Whether the last click of the button was a press, with no reset since. */
  predicate LastPressed(steps: seq<MouseStep>, button: nat)
    decreases |steps|
  {
    if steps == [] then false
    else
      match steps[|steps| - 1]
      case ResetWorks => false
      case Button(release, b) => if b == button then !release else LastPressed(steps[..|steps| - 1], button)
      case _ => LastPressed(steps[..|steps| - 1], button)
  }

  lemma StepMarks(m: Mouse, s: MouseStep, button: nat)
    requires Tracked(button) && button != RIGHT && Inv(m)
    ensures button in Apply(m, s).pressed <==>
      match s
      case ResetWorks => false
      case Button(release, b) => if b == button then !release else button in m.pressed
      case _ => button in m.pressed
  {
    if s.ResetWorks? {
      ResetReleasesKeepsInv(m, 0);
    }
  }

  /** Over every run each tracked button but the right one is marked exactly if it was pressed last. */
  lemma {:induction false} MarksFollowTheClicks(steps: seq<MouseStep>, button: nat)
    requires Tracked(button) && button != RIGHT
    ensures button in ApplyAll(IDLE, steps).pressed <==> LastPressed(steps, button)
    decreases |steps|
  {
    hide Apply, Inv;
    if steps != [] {
      var before := steps[..|steps| - 1];
      MarksFollowTheClicks(before, button);
      LeftIsStrandedIff(before);
      StepMarks(ApplyAll(IDLE, before), steps[|steps| - 1], button);
    }
  }

  /** A click and a reset within the delay: the platform is left holding the button, with nothing to release it. */
  lemma ResetCanStrandLeft()
    ensures var clicked := Click(Click(IDLE, false, LEFT), true, LEFT);
      var reset := ResetReleases(ResetCancels(clicked), 0);
      Held(reset.log, LEFT) && reset.pressed == {} && reset.tasks == {}
  {
    var clicked := Click(Click(IDLE, false, LEFT), true, LEFT);
    assert clicked.log == [ButtonEvent(LEFT, true)];
    var cancelled := ResetCancels(clicked);
    assert cancelled.pressed == {};
    assert ResetReleases(cancelled, 3) == cancelled;
    assert ResetReleases(cancelled, 0) == cancelled;
  }

  /** While a left release waits, a right press is a whole click that the platform sees before that release. */
  lemma RightClickOvertakesLeftRelease(m: Mouse)
    requires Inv(m) && LEFT in m.pressed && RIGHT !in m.pressed && m.delay == Enabled
    ensures var n := Click(Click(m, true, LEFT), false, RIGHT);
      && n.log == m.log + [ButtonEvent(RIGHT, true), ButtonEvent(RIGHT, false)]
      && Held(n.log, LEFT)
      && RunRelease(n, m.nextTask).log == n.log + [ButtonEvent(LEFT, false)]
  {
    var down, up := ButtonEvent(RIGHT, true), ButtonEvent(RIGHT, false);
    HeldAfter(m.log, down, LEFT);
    HeldAfter(m.log + [down], up, LEFT);
    assert m.log + [down, up] == m.log + [down] + [up];
  }

  // ---------------------------------------------------------------------------------------------------
  // The object the handlers update
  // ---------------------------------------------------------------------------------------------------

  class MouseObject {
    const mousePress: array<bool>
    var delay: Delay
    var tasks: set<nat>
    var nextTask: nat
    var log: seq<ButtonEvent>

    ghost predicate Valid()
      reads this, mousePress
    {
      mousePress.Length == TRACKED && !mousePress[0]
    }

    ghost function View(): Mouse
      requires Valid()
      reads this, mousePress
    {
      Mouse((set b | 0 <= b < TRACKED && mousePress[b]), delay, tasks, nextTask, log)
    }

    constructor ()
      ensures Valid() && fresh(mousePress) && View() == IDLE
    {
      mousePress := new bool[TRACKED](_ => false);
      delay, tasks, nextTask, log := Enabled, {}, 0, [];
    }

    method Passthrough(release: bool, button: nat)
      requires Valid()
      modifies this, mousePress
      ensures Valid() && View() == Click(old(View()), release, button)
    {
      if button > 0 && button < mousePress.Length {
        if mousePress[button] != release {
          return;
        }
        mousePress[button] := !release;
      }
      if button == LEFT && release && delay == Enabled {
        delay := Waiting(nextTask);
        tasks := tasks + {nextTask};
        nextTask := nextTask + 1;
        return;
      }
      if button == RIGHT && !release && delay.Waiting? {
        log := log + [ButtonEvent(RIGHT, true), ButtonEvent(RIGHT, false)];
        mousePress[RIGHT] := false;
        return;
      }
      log := log + [ButtonEvent(button, !release)];
    }

    /** The delayed closure. */
    method RunDelayedRelease(t: nat)
      requires Valid()
      modifies this, mousePress
      ensures Valid() && View() == RunRelease(old(View()), t)
    {
      if t !in tasks {
        return;
      }
      tasks := tasks - {t};
      if mousePress[LEFT] {
        return;
      }
      log := log + [ButtonEvent(LEFT, false)];
      mousePress[LEFT] := false;
      delay := Enabled;
    }

    /** The mouse half of the task that `reset` pushes. */
    method Reset()
      requires Valid()
      modifies this, mousePress
      ensures Valid() && View() == ResetReleases(old(View()), 0)
    {
      var x := 0;
      while x < mousePress.Length
        invariant 0 <= x <= TRACKED && Valid()
        invariant ResetReleases(View(), x) == old(ResetReleases(View(), 0))
      {
        label before:
        if mousePress[x] {
          log := log + [ButtonEvent(x, false)];
          mousePress[x] := false;
          assert View() == old@before(View()).(log := old@before(View()).log + [ButtonEvent(x, false)],
                                               pressed := old@before(View()).pressed - {x});
        }
        x := x + 1;
      }
    }
  }
}
