/**
 The life of an application (src/process.cpp, `proc_t`): preparation commands are done one after the other and
 undone in reverse, a failure at any point undoes what was done, and an application may override the encoder
 preset for as long as it runs (src/config.cpp, `apply_nvenc_tuning_preset`).
 */
module Process {
  import opened Wrappers

  // ---------------------------------------------------------------------------------------------------
  // The encoder settings
  // ---------------------------------------------------------------------------------------------------

  datatype TwoPass = PassDisabled | QuarterResolution | FullResolution

  datatype SplitFrame = SplitDisabled | DriverDecides | ForceEnabled

  datatype Nvenc = Nvenc(
    qualityPreset: int, twoPass: TwoPass, vbvPercentageIncrease: int, weightedPrediction: bool,
    adaptiveQuantization: bool, enableMinQp: bool, minQpH264: nat, minQpHevc: nat, minQpAv1: nat,
    h264Cavlc: bool, insertFillerData: bool, splitFrameEncoding: SplitFrame, rcLookahead: int, surfaces: int,
    bframes: int, zerolatency: bool, aqStrength: int, temporalAq: bool)

  const DEFAULT_NVENC := Nvenc(1, QuarterResolution, 0, false, false, false, 19, 23, 23, false, false,
                               DriverDecides, 0, -1, 0, false, 8, false)

  /** `config::video`: the encoder settings and the preset that was chosen for them. */
  datatype Video = Video(nv: Nvenc, preset: int)

  predicate IsPreset(preset: int) {
    0 <= preset <= 2
  }

  function TunedBy(nv: Nvenc, preset: int): Nvenc {
    match preset
    case 0 =>
      nv.(qualityPreset := 1, bframes := 0, zerolatency := true, rcLookahead := 0, twoPass := PassDisabled,
          adaptiveQuantization := false, temporalAq := false, weightedPrediction := false, enableMinQp := false,
          vbvPercentageIncrease := 0, surfaces := -1)
    case 1 =>
      nv.(qualityPreset := 4, bframes := 2, zerolatency := false, rcLookahead := 20, twoPass := QuarterResolution,
          adaptiveQuantization := true, aqStrength := 8, temporalAq := true, weightedPrediction := true,
          enableMinQp := false, vbvPercentageIncrease := 50, surfaces := -1)
    case 2 =>
      nv.(qualityPreset := 7, bframes := 4, zerolatency := false, rcLookahead := 40, twoPass := FullResolution,
          adaptiveQuantization := true, aqStrength := 12, temporalAq := true, weightedPrediction := true,
          enableMinQp := true, minQpH264 := 22, minQpHevc := 26, minQpAv1 := 26, vbvPercentageIncrease := 100,
          surfaces := -1)
    case _ => nv
  }

  /** The settings while an application with this override runs; an override out of range is ignored. */
  function Overridden(video: Video, preset: int): Video {
    if IsPreset(preset) then Video(TunedBy(video.nv, preset), preset) else video
  }

  /**
   The three presets trade latency for quality in this order: more effort, a longer look ahead, more frames in between
   and a larger buffer from each to the next; only the first is free of latency, only the last keeps a quality floor.
   The entropy coder, the filler data and the split of frames are the user's, and so is all with any other number.
   */
  lemma PresetsAreOrdered(nv: Nvenc, preset: int)
    ensures var (low, mid, high) := (TunedBy(nv, 0), TunedBy(nv, 1), TunedBy(nv, 2));
      && low.qualityPreset < mid.qualityPreset < high.qualityPreset
      && 0 == low.rcLookahead < mid.rcLookahead < high.rcLookahead
      && 0 == low.bframes < mid.bframes < high.bframes
      && 0 == low.vbvPercentageIncrease < mid.vbvPercentageIncrease < high.vbvPercentageIncrease
      && low.twoPass.PassDisabled? && mid.twoPass.QuarterResolution? && high.twoPass.FullResolution?
      && low.zerolatency && !mid.zerolatency && !high.zerolatency
      && !low.enableMinQp && !mid.enableMinQp && high.enableMinQp
      && !low.adaptiveQuantization && mid.adaptiveQuantization && high.adaptiveQuantization
      && low.aqStrength == nv.aqStrength && mid.aqStrength < high.aqStrength
    ensures var t := TunedBy(nv, preset);
      && (0 <= preset <= 2 ==> t.surfaces == -1 && t.temporalAq == t.weightedPrediction == (preset > 0))
      && t.h264Cavlc == nv.h264Cavlc && t.insertFillerData == nv.insertFillerData
      && t.splitFrameEncoding == nv.splitFrameEncoding
      && (preset < 0 || preset > 2 ==> t == nv)
  {
    if preset == 0 {
    } else if preset == 1 {
    } else if preset == 2 {
    }
  }

  /** A preset on top of another one is not that preset alone, unless the settings already agreed with the other. */
  lemma PresetsLeaveTraces(nv: Nvenc)
    ensures TunedBy(TunedBy(nv, 2), 0) == TunedBy(nv, 0) <==>
      nv.aqStrength == 12 && nv.minQpH264 == 22 && nv.minQpHevc == 26 && nv.minQpAv1 == 26
    ensures TunedBy(TunedBy(nv, 2), 1) == TunedBy(nv, 1) <==>
      nv.minQpH264 == 22 && nv.minQpHevc == 26 && nv.minQpAv1 == 26
    ensures TunedBy(TunedBy(nv, 1), 0) == TunedBy(nv, 0) <==> nv.aqStrength == 8
    ensures forall p :: TunedBy(TunedBy(nv, p), 2) == TunedBy(nv, 2)
  {
    var a, b := TunedBy(TunedBy(nv, 2), 0), TunedBy(nv, 0);
    assert a == b.(aqStrength := 12, minQpH264 := 22, minQpHevc := 26, minQpAv1 := 26);
    var c, d := TunedBy(TunedBy(nv, 2), 1), TunedBy(nv, 1);
    assert c == d.(minQpH264 := 22, minQpHevc := 26, minQpAv1 := 26);
    assert TunedBy(TunedBy(nv, 1), 0) == b.(aqStrength := 8);
    forall p ensures TunedBy(TunedBy(nv, p), 2) == TunedBy(nv, 2) {
      if p == 0 {
      } else if p == 1 {
      } else if p == 2 {
      }
    }
  }

  // ---------------------------------------------------------------------------------------------------
  // Applications and what happens to them
  // ---------------------------------------------------------------------------------------------------

  /** One entry of `prep_cmds`; either command may be empty. */
  datatype Prep = Prep(doCmd: string, undoCmd: string)

  datatype App = App(id: string, prep: seq<Prep>, detached: seq<string>, cmd: string, autoDetach: bool,
                     waitAll: bool, presetOverride: int)

  const NO_APP := App("", [], [], "", false, false, -1)

  datatype Spawned = Running | Denied | NotSpawned

  /** How the platform answers a do command. */
  datatype Outcome = Outcome(spawned: Spawned, waited: bool, exitCode: int)

  /** What a launch meets: the answer to each do command, the headless compositor, the main command. */
  datatype World = World(prep: nat -> Outcome, headless: bool, compositorStarts: bool, mainStarts: bool)

  datatype Action =
    | Began(id: int)
    | Passed(entry: Prep)
    | Refused(entry: Prep)
    | Undone(entry: Prep)
    | Detached(cmd: string)
    | CompositorStarted
    | CompositorFailed
    | CompositorStopped
    | MainStarted(cmd: string)
    | MainFailed(cmd: string)
    | MainStopped

  /** The decimal text of a number, as `std::to_string` gives it. */
  function Decimal(n: int): (s: string)
    decreases if n < 0 then 1 - n else n
  {
    if n < 0 then "-" + Decimal(-n)
    else if n < 10 then [('0' as int + n) as char]
    else Decimal(n / 10) + [('0' as int + n % 10) as char]
  }

  /** The number that a decimal text stands for. */
  function NumberOf(s: string): int
    decreases |s|
  {
    if s == [] then 0
    else if s[0] == '-' then -NumberOf(s[1..])
    else NumberOf(s[..|s| - 1]) * 10 + (s[|s| - 1] as int - '0' as int)
  }

  lemma {:induction false} DecimalHasDigits(n: int)
    requires n >= 0
    ensures Decimal(n) != [] && forall c <- Decimal(n) :: '0' <= c <= '9'
    decreases n
  {
    if n >= 10 {
      DecimalHasDigits(n / 10);
    }
  }

  /** The text of a number stands for that number, so no two numbers share one. */
  lemma {:induction false} DecimalIsRead(n: int)
    ensures NumberOf(Decimal(n)) == n
    decreases if n < 0 then 1 - n else n
  {
    if n < 0 {
      DecimalIsRead(-n);
      assert Decimal(n)[1..] == Decimal(-n);
    } else if n >= 10 {
      DecimalHasDigits(n);
      DecimalIsRead(n / 10);
      var s := Decimal(n);
      assert s[..|s| - 1] == Decimal(n / 10) && s[|s| - 1] as int - '0' as int == n % 10;
      assert s[0] in s;
    }
  }

  /** The index of the first application with this id, or the number of applications. */
  function FindApp(apps: seq<App>, id: string): (i: nat)
    ensures i <= |apps|
    ensures i < |apps| ==> apps[i].id == id
    ensures forall j :: 0 <= j < i ==> apps[j].id != id
  {
    if apps == [] then 0 else if apps[0].id == id then 0 else 1 + FindApp(apps[1..], id)
  }

  /** `prepIt` is the position of `_app_prep_it`; `history` tells everything done so far, in order. */
  datatype Proc = Proc(
    appId: int, app: App, prepIt: nat, placebo: bool, process: bool, group: bool, compositor: bool,
    video: Video, saved: Video, overridden: bool, history: seq<Action>)
  {
    predicate Valid() {
      prepIt <= |app.prep|
    }
  }

  function Initial(video: Video): Proc {
    Proc(0, NO_APP, 0, false, false, false, false, video, Video(DEFAULT_NVENC, -99), false, [])
  }

  function Log(p: Proc, a: Action): Proc {
    p.(history := p.history + [a])
  }

  // ---------------------------------------------------------------------------------------------------
  // The operations
  // ---------------------------------------------------------------------------------------------------

  function StopProcess(p: Proc): Proc {
    (if p.process then Log(p, MainStopped) else p).(placebo := false, process := false, group := false)
  }

  function StopCompositor(p: Proc): Proc {
    if p.compositor then Log(p, CompositorStopped).(compositor := false) else p
  }

  function UndoOne(p: Proc): (r: Proc)
    requires p.Valid() && p.prepIt > 0
    ensures r.Valid() && r.app == p.app && r.prepIt == p.prepIt - 1
  {
    Log(p, Undone(p.app.prep[p.prepIt - 1])).(prepIt := p.prepIt - 1)
  }

  function UndoAll(p: Proc): (r: Proc)
    requires p.Valid()
    ensures r.Valid() && r.app == p.app
    decreases p.prepIt
  {
    if p.prepIt == 0 then p else UndoAll(UndoOne(p))
  }

  function RestoreVideo(p: Proc): Proc {
    if p.overridden then p.(video := p.saved, overridden := false, saved := p.saved.(preset := -99)) else p
  }

  function Terminated(p: Proc): (r: Proc)
    requires p.Valid()
    ensures r.Valid()
  {
    RestoreVideo(UndoAll(StopCompositor(StopProcess(p)))).(appId := -1)
  }

  /** A do command is passed if it is empty, or ran and ended well. */
  predicate Passes(app: App, i: nat, w: World)
    requires i < |app.prep|
  {
    var o := w.prep(i);
    app.prep[i].doCmd == "" ||
    ((o.spawned == Running || (app.cmd == "" && o.spawned == Denied)) && o.waited && o.exitCode == 0)
  }

  function OverrideVideo(p: Proc): Proc {
    if IsPreset(p.app.presetOverride) then
      p.(saved := p.video, overridden := true,
         video := Video(TunedBy(p.video.nv, p.app.presetOverride), p.app.presetOverride))
    else p
  }

  function Begun(p: Proc, id: int, app: App): Proc {
    OverrideVideo(Log(p, Began(id)).(appId := id, app := app, prepIt := 0))
  }

  function DoPreps(p: Proc, w: World): (r: Proc)
    requires p.Valid()
    ensures r.Valid() && r.app == p.app
    decreases |p.app.prep| - p.prepIt
  {
    if p.prepIt == |p.app.prep| then p
    else if Passes(p.app, p.prepIt, w) then
      DoPreps(Log(p, Passed(p.app.prep[p.prepIt])).(prepIt := p.prepIt + 1), w)
    else Log(p, Refused(p.app.prep[p.prepIt]))
  }

  function Detach(p: Proc, cmds: seq<string>): (r: Proc)
    ensures r.app == p.app && r.prepIt == p.prepIt
    decreases |cmds|
  {
    if cmds == [] then p else Detach(Log(p, Detached(cmds[0])), cmds[1..])
  }

  /** Wrapped in the headless compositor, if that is asked for. */
  function StartCompositor(p: Proc, w: World): (r: (Proc, bool))
    ensures r.0.app == p.app && r.0.prepIt == p.prepIt
  {
    if !w.headless then (p, true)
    else if w.compositorStarts then (Log(p, CompositorStarted).(compositor := true), true)
    else (Log(p, CompositorFailed).(compositor := false), false)
  }

  function StartMain(p: Proc, w: World): (r: (Proc, bool))
    ensures r.0.app == p.app && r.0.prepIt == p.prepIt
  {
    if w.mainStarts then (Log(p, MainStarted(p.app.cmd)).(process := true, group := true), true)
    else (StopCompositor(Log(p, MainFailed(p.app.cmd)).(process := false)), false)
  }

  /** The part of a launch that only the fail guard cleans up after; false is the return value -1. */
  function Launched(p: Proc, w: World): (r: (Proc, bool))
    requires p.Valid()
    ensures r.0.Valid()
  {
    var d := DoPreps(p, w);
    if d.prepIt < |d.app.prep| then (d, false)
    else
      var e := Detach(d, d.app.detached);
      if e.app.cmd == "" then (e.(placebo := true), true)
      else
        var c := StartCompositor(e, w);
        if c.1 then StartMain(c.0, w) else c
  }

  /** `execute`: the new state, and 0, -1 or 404. */
  function Executed(p: Proc, apps: seq<App>, id: int, w: World): (Proc, int)
    requires p.Valid()
  {
    var i := FindApp(apps, Decimal(id));
    if i == |apps| then (Terminated(p), 404)
    else
      var l := Launched(Begun(Terminated(p), id, apps[i]), w);
      if l.1 then (l.0, 0) else (Terminated(l.0), -1)
  }

  /** `running`: the new state, and the id of the running application or 0. */
  function Poll(p: Proc, groupRuns: bool, processRuns: bool, exitCode: int): (Proc, int)
    requires p.Valid()
  {
    if p.placebo || (p.app.waitAll && p.group && groupRuns) || (p.process && processRuns) then (p, p.appId)
    else if p.app.autoDetach && exitCode == 0 then (p.(placebo := true), p.appId)
    else if p.process then (Terminated(p), 0)
    else (p, 0)
  }

  lemma {:induction false} UndoneInReverse(p: Proc)
    requires p.Valid()
    ensures UndoAll(p) == p.(prepIt := 0, history := p.history + UndosOf(p.app.prep[..p.prepIt]))
    decreases p.prepIt
  {
    if p.prepIt > 0 {
      var done := p.app.prep[..p.prepIt];
      UndoneInReverse(Log(p, Undone(p.app.prep[p.prepIt - 1])).(prepIt := p.prepIt - 1));
      assert done[..|done| - 1] == p.app.prep[..p.prepIt - 1];
      assert p.history + UndosOf(done)
          == p.history + [Undone(p.app.prep[p.prepIt - 1])] + UndosOf(p.app.prep[..p.prepIt - 1]);
    }
  }

  lemma TerminateIsClean(p: Proc)
    requires p.Valid()
    ensures var t := Terminated(p);
      && t.Valid() && t.prepIt == 0 && !t.placebo && !t.process && !t.group && !t.compositor && !t.overridden
      && t.appId == -1 && t.app == p.app
  {
    UndoneInReverse(StopCompositor(StopProcess(p)));
  }

  /** The undo steps owed for these entries: last in, first out. */
  function UndosOf(done: seq<Prep>): seq<Action>
    decreases |done|
  {
    if done == [] then [] else [Undone(done[|done| - 1])] + UndosOf(done[..|done| - 1])
  }

  // ---------------------------------------------------------------------------------------------------
  // Every run is well bracketed
  // ---------------------------------------------------------------------------------------------------

  datatype Op =
    | Launch(id: int, world: World)
    | Check(groupRuns: bool, processRuns: bool, exitCode: int)
    | Quit

  function Apply(p: Proc, apps: seq<App>, op: Op): Proc
    requires p.Valid()
  {
    match op
    case Launch(id, w) => Executed(p, apps, id, w).0
    case Check(g, r, e) => Poll(p, g, r, e).0
    case Quit => Terminated(p)
  }

  /** What a reader of the history knows: the entries still to be undone, and what is still running. */
  datatype Open = Open(owed: seq<Prep>, main: bool, compositor: bool)

  /**
   Reads a history from the left. It is refused when a launch begins before everything is closed, when a do command
   runs beside a main command, or when an entry is undone out of turn or while the application still runs.
   */
  function Track(history: seq<Action>): Option<Open>
    decreases |history|
  {
    if history == [] then Some(Open([], false, false))
    else
      var before := Track(history[..|history| - 1]);
      if before.None? then None else TrackOne(before.value, history[|history| - 1])
  }

  function TrackOne(o: Open, a: Action): Option<Open> {
    match a
    case Began(_) => if o == Open([], false, false) then Some(o) else None
    case Passed(e) => if o.main || o.compositor then None else Some(o.(owed := o.owed + [e]))
    case Refused(e) => if o.main || o.compositor then None else Some(o)
    case Undone(e) =>
      if o.main || o.compositor || o.owed == [] || o.owed[|o.owed| - 1] != e then None
      else Some(o.(owed := o.owed[..|o.owed| - 1]))
    case Detached(_) => Some(o)
    case CompositorStarted => if o.compositor then None else Some(o.(compositor := true))
    case CompositorFailed => if o.compositor then None else Some(o)
    case CompositorStopped => if o.compositor then Some(o.(compositor := false)) else None
    case MainStarted(_) => if o.main then None else Some(o.(main := true))
    case MainFailed(_) => if o.main then None else Some(o)
    case MainStopped => if o.main then Some(o.(main := false)) else None
  }

  lemma TrackAfter(history: seq<Action>, a: Action)
    requires Track(history).Some?
    ensures Track(history + [a]) == TrackOne(Track(history).value, a)
  {
    assert (history + [a])[..|history|] == history;
  }

  /** The history says exactly what the fields say. */
  ghost predicate Tracked(p: Proc) {
    p.Valid() && Track(p.history) == Some(Open(p.app.prep[..p.prepIt], p.process, p.compositor))
  }

  /** Whoever has something to clean up is known to be running. */
  predicate Accounted(p: Proc) {
    (p.prepIt > 0 || p.overridden || p.compositor || p.process) ==> p.placebo || p.process
  }

  lemma {:induction false} UndoTracked(p: Proc)
    requires Tracked(p) && !p.process && !p.compositor
    ensures Tracked(UndoAll(p))
    decreases p.prepIt
  {
    if p.prepIt > 0 {
      var a := Undone(p.app.prep[p.prepIt - 1]);
      TrackAfter(p.history, a);
      var q := Log(p, a).(prepIt := p.prepIt - 1);
      assert p.app.prep[..p.prepIt][..p.prepIt - 1] == q.app.prep[..q.prepIt];
      UndoTracked(q);
    }
  }

  lemma StopsTracked(p: Proc)
    requires Tracked(p)
    ensures Tracked(StopProcess(p)) && Tracked(StopCompositor(p))
  {
    if p.process {
      TrackAfter(p.history, MainStopped);
    }
    if p.compositor {
      TrackAfter(p.history, CompositorStopped);
    }
  }

  lemma TerminateTracked(p: Proc)
    requires Tracked(p)
    ensures Tracked(Terminated(p)) && Track(Terminated(p).history) == Some(Open([], false, false))
  {
    StopsTracked(p);
    StopsTracked(StopProcess(p));
    var q := StopCompositor(StopProcess(p));
    UndoTracked(q);
    UndoneInReverse(q);
  }

  lemma {:induction false} DoPrepsTracked(p: Proc, w: World)
    requires Tracked(p) && !p.process && !p.compositor
    ensures var d := DoPreps(p, w); Tracked(d) && !d.process && !d.compositor
    decreases |p.app.prep| - p.prepIt
  {
    if p.prepIt < |p.app.prep| {
      var e := p.app.prep[p.prepIt];
      if Passes(p.app, p.prepIt, w) {
        TrackAfter(p.history, Passed(e));
        assert p.app.prep[..p.prepIt] + [e] == p.app.prep[..p.prepIt + 1];
        DoPrepsTracked(Log(p, Passed(e)).(prepIt := p.prepIt + 1), w);
      } else {
        TrackAfter(p.history, Refused(e));
      }
    }
  }

  lemma {:induction false} DetachTracked(p: Proc, cmds: seq<string>)
    requires Tracked(p)
    ensures Tracked(Detach(p, cmds))
    ensures var d := Detach(p, cmds);
      d.process == p.process && d.compositor == p.compositor && d.app == p.app && d.prepIt == p.prepIt
    decreases |cmds|
  {
    if cmds != [] {
      TrackAfter(p.history, Detached(cmds[0]));
      DetachTracked(Log(p, Detached(cmds[0])), cmds[1..]);
    }
  }

  lemma StartCompositorTracked(p: Proc, w: World)
    requires Tracked(p) && !p.process && !p.compositor
    ensures var c := StartCompositor(p, w).0; Tracked(c) && !c.process
  {
    if w.headless {
      TrackAfter(p.history, if w.compositorStarts then CompositorStarted else CompositorFailed);
    }
  }

  lemma StartMainTracked(p: Proc, w: World)
    requires Tracked(p) && !p.process
    ensures var m := StartMain(p, w); Tracked(m.0) && (m.1 ==> m.0.process)
  {
    if w.mainStarts {
      TrackAfter(p.history, MainStarted(p.app.cmd));
    } else {
      TrackAfter(p.history, MainFailed(p.app.cmd));
      StopsTracked(Log(p, MainFailed(p.app.cmd)).(process := false));
    }
  }

  lemma LaunchedTracked(p: Proc, w: World)
    requires Tracked(p) && !p.process && !p.compositor
    ensures var l := Launched(p, w); Tracked(l.0) && (l.1 ==> l.0.placebo || l.0.process)
  {
    hide Track, TrackOne, DoPreps, Detach, StartCompositor, StartMain;
    DoPrepsTracked(p, w);
    var d := DoPreps(p, w);
    if d.prepIt == |d.app.prep| {
      DetachTracked(d, d.app.detached);
      var e := Detach(d, d.app.detached);
      if e.app.cmd != "" {
        StartCompositorTracked(e, w);
        StartMainTracked(StartCompositor(e, w).0, w);
      }
    }
  }

  lemma BeginTracked(p: Proc, id: int, app: App)
    requires p.Valid() && Track(p.history) == Some(Open([], false, false)) && !p.process && !p.compositor
    ensures var b := Begun(p, id, app); Tracked(b) && !b.process && !b.compositor
  {
    TrackAfter(p.history, Began(id));
    assert app.prep[..0] == [];
  }

  lemma ExecuteTracked(p: Proc, apps: seq<App>, id: int, w: World)
    requires Tracked(p)
    ensures var r := Executed(p, apps, id, w); Tracked(r.0) && Accounted(r.0)
    ensures var r := Executed(p, apps, id, w); r.1 != 0 ==> Track(r.0.history) == Some(Open([], false, false))
  {
    hide Track, TrackOne, Terminated, Begun, Launched;
    TerminateTracked(p);
    TerminateIsClean(p);
    var i := FindApp(apps, Decimal(id));
    if i < |apps| {
      BeginTracked(Terminated(p), id, apps[i]);
      var b := Begun(Terminated(p), id, apps[i]);
      LaunchedTracked(b, w);
      TerminateTracked(Launched(b, w).0);
      TerminateIsClean(Launched(b, w).0);
    }
  }

  lemma ApplyTracked(p: Proc, apps: seq<App>, op: Op)
    requires Tracked(p) && Accounted(p)
    ensures Tracked(Apply(p, apps, op)) && Accounted(Apply(p, apps, op))
  {
    match op
    case Launch(id, w) => ExecuteTracked(p, apps, id, w);
    case Check(_, _, _) =>
      TerminateTracked(p);
      TerminateIsClean(p);
    case Quit =>
      TerminateTracked(p);
      TerminateIsClean(p);
  }

  function ApplyAll(p: Proc, apps: seq<App>, ops: seq<Op>): (r: Proc)
    requires p.Valid()
    ensures r.Valid()
    decreases |ops|
  {
    if ops == [] then p
    else
      var q := Apply(p, apps, ops[0]);
      ApplyAll(q, apps, ops[1..])
  }

  lemma {:induction false} RunsTracked(p: Proc, apps: seq<App>, ops: seq<Op>)
    requires Tracked(p) && Accounted(p)
    ensures Tracked(ApplyAll(p, apps, ops)) && Accounted(ApplyAll(p, apps, ops))
    decreases |ops|
  {
    if ops != [] {
      ApplyTracked(p, apps, ops[0]);
      RunsTracked(Apply(p, apps, ops[0]), apps, ops[1..]);
    }
  }

  /**
   Every history, whatever was launched, checked and stopped in whatever order, is well bracketed: what is owed is
   exactly the entries that `_app_prep_it` has passed, and after a termination nothing is owed.
   */
  lemma EveryRunIsWellBracketed(video: Video, apps: seq<App>, ops: seq<Op>)
    ensures var p := ApplyAll(Initial(video), apps, ops);
      && Track(p.history) == Some(Open(p.app.prep[..p.prepIt], p.process, p.compositor))
      && Track(Terminated(p).history) == Some(Open([], false, false))
  {
    RunsTracked(Initial(video), apps, ops);
    TerminateTracked(ApplyAll(Initial(video), apps, ops));
  }

  // ---------------------------------------------------------------------------------------------------
  // One launch, exactly
  // ---------------------------------------------------------------------------------------------------

  function PassesOf(done: seq<Prep>): seq<Action> {
    seq(|done|, i requires 0 <= i < |done| => Passed(done[i]))
  }

  /**
   The do command of entry `k` is there, and it cannot be started, cannot be waited for, or exits with another code than
   0. That it is denied is no failure by itself if the application has no command of its own.
   */
  predicate CommandFails(app: App, w: World, k: nat)
    requires k < |app.prep|
  {
    && app.prep[k].doCmd != ""
    && (w.prep(k).exitCode != 0 || !w.prep(k).waited || w.prep(k).spawned == NotSpawned ||
        (w.prep(k).spawned == Denied && app.cmd != ""))
  }

  /** `k` is the first entry whose do command fails, or the number of entries. */
  ghost predicate StopsAt(app: App, w: World, k: nat) {
    && k <= |app.prep|
    && (forall i :: 0 <= i < k ==> !CommandFails(app, w, i))
    && (k < |app.prep| ==> CommandFails(app, w, k))
  }

  lemma FailsUnlessPassed(app: App, w: World, k: nat)
    requires k < |app.prep|
    ensures CommandFails(app, w, k) <==> !Passes(app, k, w)
  {
  }

  /** What the do commands from entry `from` on leave in the history if they stop at entry `k`. */
  function StepsOf(app: App, from: nat, k: nat): seq<Action>
    requires from <= k <= |app.prep|
  {
    PassesOf(app.prep[from..k]) + if k < |app.prep| then [Refused(app.prep[k])] else []
  }

  lemma StepsUnfold(app: App, from: nat, k: nat)
    requires from < k <= |app.prep|
    ensures StepsOf(app, from, k) == [Passed(app.prep[from])] + StepsOf(app, from + 1, k)
  {
    assert app.prep[from..k] == [app.prep[from]] + app.prep[from + 1..k];
    assert PassesOf(app.prep[from..k]) == [Passed(app.prep[from])] + PassesOf(app.prep[from + 1..k]);
  }

  lemma StepsEnd(app: App, k: nat)
    requires k <= |app.prep|
    ensures StepsOf(app, k, k) == if k < |app.prep| then [Refused(app.prep[k])] else []
  {
    assert PassesOf(app.prep[k..k]) == [];
  }

  lemma HistoryUnfolds(history: seq<Action>, app: App, from: nat, k: nat)
    requires from < k <= |app.prep|
    ensures history + StepsOf(app, from, k) == history + [Passed(app.prep[from])] + StepsOf(app, from + 1, k)
  {
    StepsUnfold(app, from, k);
  }

  lemma {:induction false} PrepsStopAt(p: Proc, w: World, k: nat)
    requires p.Valid() && StopsAt(p.app, w, k) && p.prepIt <= k
    ensures DoPreps(p, w) == p.(prepIt := k, history := p.history + StepsOf(p.app, p.prepIt, k))
    decreases k - p.prepIt
  {
    hide StepsOf, Passes, CommandFails;
    if p.prepIt < |p.app.prep| {
      FailsUnlessPassed(p.app, w, p.prepIt);
    }
    if p.prepIt < k {
      var q := Log(p, Passed(p.app.prep[p.prepIt])).(prepIt := p.prepIt + 1);
      PrepsStopAt(q, w, k);
      HistoryUnfolds(p.history, p.app, p.prepIt, k);
    } else {
      StepsEnd(p.app, k);
      if k == |p.app.prep| {
        assert p.history + [] == p.history;
      }
    }
  }

  lemma BegunState(p: Proc, id: int, app: App)
    requires p.Valid()
    ensures var b := Begun(Terminated(p), id, app);
      && b.Valid() && b.app == app && b.appId == id && b.prepIt == 0
      && !b.placebo && !b.process && !b.group && !b.compositor
      && b.history == Terminated(p).history + [Began(id)]
  {
    hide Terminated, TunedBy;
    TerminateIsClean(p);
  }

  /**
   When a do command fails, the entries passed before it are undone, last first; the failed entry itself is not.
   The launch answers -1. Whatever ran before has been terminated first.
   */
  lemma FailedPrepIsUndone(p: Proc, apps: seq<App>, id: int, w: World, k: nat)
    requires p.Valid() && FindApp(apps, Decimal(id)) < |apps|
    requires var app := apps[FindApp(apps, Decimal(id))]; StopsAt(app, w, k) && k < |app.prep|
    ensures var app := apps[FindApp(apps, Decimal(id))];
      var r := Executed(p, apps, id, w);
      && r.1 == -1
      && r.0.history == Terminated(p).history + [Began(id)] + PassesOf(app.prep[..k]) + [Refused(app.prep[k])]
                        + UndosOf(app.prep[..k])
  {
    hide CommandFails, PassesOf, UndosOf, Terminated, Begun, DoPreps, Decimal;
    var app := apps[FindApp(apps, Decimal(id))];
    var b := Begun(Terminated(p), id, app);
    BegunState(p, id, app);
    PrepsStopAt(b, w, k);
    assert app.prep[0..k] == app.prep[..k];
    var d := DoPreps(b, w);
    assert d.history == Terminated(p).history + [Began(id)] + (PassesOf(app.prep[..k]) + [Refused(app.prep[k])]);
    FailedLaunchEnds(d);
    assert Executed(p, apps, id, w) == (Terminated(d), -1);
  }

  lemma FailedLaunchEnds(d: Proc)
    requires d.Valid() && !d.process && !d.compositor
    ensures Terminated(d).history == d.history + UndosOf(d.app.prep[..d.prepIt])
  {
    UndoneInReverse(StopCompositor(StopProcess(d)));
  }

  /** The headless compositor and the main command start, as far as there are any. */
  predicate MainRuns(app: App, w: World) {
    app.cmd == "" || ((w.headless ==> w.compositorStarts) && w.mainStarts)
  }

  function DetachesOf(cmds: seq<string>): seq<Action> {
    seq(|cmds|, i requires 0 <= i < |cmds| => Detached(cmds[i]))
  }

  lemma {:induction false} DetachedAll(p: Proc, cmds: seq<string>)
    ensures Detach(p, cmds) == p.(history := p.history + DetachesOf(cmds))
    decreases |cmds|
  {
    if cmds == [] {
      assert p.history + DetachesOf(cmds) == p.history;
    } else {
      DetachedAll(Log(p, Detached(cmds[0])), cmds[1..]);
      assert DetachesOf(cmds) == [Detached(cmds[0])] + DetachesOf(cmds[1..]);
      assert p.history + [Detached(cmds[0])] + DetachesOf(cmds[1..]) == p.history + DetachesOf(cmds);
    }
  }

  lemma {:induction false} FirstFailure(app: App, w: World, from: nat) returns (k: nat)
    requires from <= |app.prep| && forall i :: 0 <= i < from ==> !CommandFails(app, w, i)
    ensures StopsAt(app, w, k)
    decreases |app.prep| - from
  {
    if from == |app.prep| || CommandFails(app, w, from) {
      k := from;
    } else {
      k := FirstFailure(app, w, from + 1);
    }
  }

  /** What is in the history after the do commands have all passed and the detached ones are on their way. */
  function Prepared(app: App): seq<Action> {
    PassesOf(app.prep) + DetachesOf(app.detached)
  }

  lemma PreparedState(b: Proc, w: World)
    requires b.prepIt == 0 && StopsAt(b.app, w, |b.app.prep|)
    ensures var d := DoPreps(b, w);
      Detach(d, b.app.detached) == b.(prepIt := |b.app.prep|, history := b.history + Prepared(b.app))
  {
    hide CommandFails, PassesOf, DetachesOf;
    PrepsStopAt(b, w, |b.app.prep|);
    var d := DoPreps(b, w);
    assert b.app.prep[0..|b.app.prep|] == b.app.prep;
    assert StepsOf(b.app, 0, |b.app.prep|) == PassesOf(b.app.prep);
    DetachedAll(d, b.app.detached);
    assert b.history + PassesOf(b.app.prep) + DetachesOf(b.app.detached) == b.history + Prepared(b.app);
  }

  /** What the launch of the main command leaves in the history. */
  function MainActions(app: App, w: World): seq<Action> {
    if app.cmd == "" then []
    else if w.headless && !w.compositorStarts then [CompositorFailed]
    else
      (if w.headless then [CompositorStarted] else [])
      + if w.mainStarts then [MainStarted(app.cmd)]
        else [MainFailed(app.cmd)] + if w.headless then [CompositorStopped] else []
  }

  lemma LaunchedState(b: Proc, w: World)
    requires b.prepIt == 0 && !b.placebo && !b.process && !b.group && !b.compositor
    requires StopsAt(b.app, w, |b.app.prep|)
    ensures var l := Launched(b, w);
      && l.1 == MainRuns(b.app, w)
      && l.0 == b.(prepIt := |b.app.prep|, placebo := b.app.cmd == "", process := l.1 && b.app.cmd != "",
                   group := l.1 && b.app.cmd != "", compositor := l.1 && b.app.cmd != "" && w.headless,
                   history := b.history + Prepared(b.app) + MainActions(b.app, w))
  {
    hide DoPreps, Detach, Prepared, StopsAt;
    PreparedState(b, w);
    var d := DoPreps(b, w);
    assert d.prepIt == |d.app.prep| by { PrepsStopAt(b, w, |b.app.prep|); }
    assert b.app.detached == d.app.detached;
    var e := Detach(d, b.app.detached);
    if b.app.cmd == "" {
      assert e.history + [] == e.history;
    }
  }

  lemma AnswerIf(p: Proc, apps: seq<App>, id: int, w: World)
    requires p.Valid() && FindApp(apps, Decimal(id)) < |apps|
    ensures var app := apps[FindApp(apps, Decimal(id))];
      Executed(p, apps, id, w).1 == if StopsAt(app, w, |app.prep|) && MainRuns(app, w) then 0 else -1
  {
    var app := apps[FindApp(apps, Decimal(id))];
    var k := FirstFailure(app, w, 0);
    if k < |app.prep| {
      hide Decimal, StopsAt, MainRuns, PassesOf, UndosOf, Executed;
      FailedPrepIsUndone(p, apps, id, w, k);
      OneStop(app, w, k);
    } else {
      hide Decimal, StopsAt, MainRuns, Begun, Launched, Terminated, Prepared;
      BegunState(p, id, app);
      LaunchedState(Begun(Terminated(p), id, app), w);
    }
  }

  /**
   `execute` answers 404 exactly if no application has the id, 0 exactly if the first that has it comes up (no do
   command fails, and the compositor and the main command start), and -1 otherwise.
   */
  lemma LaunchAnswers(p: Proc, apps: seq<App>, id: int, w: World)
    requires p.Valid()
    ensures var answer := Executed(p, apps, id, w).1;
      && (answer == 404 <==> forall i :: 0 <= i < |apps| ==> apps[i].id != Decimal(id))
      && (answer == 0 <==> exists i :: IsFirst(apps, Decimal(id), i) && StopsAt(apps[i], w, |apps[i].prep|) &&
                                       MainRuns(apps[i], w))
      && (answer == 404 || answer == 0 || answer == -1)
  {
    hide Decimal, StopsAt, MainRuns, Begun, Terminated, Launched, Executed;
    var i := FindApp(apps, Decimal(id));
    if i < |apps| {
      assert IsFirst(apps, Decimal(id), i);
      OnlyFirst(apps, Decimal(id), i);
      AnswerIf(p, apps, id, w);
    } else {
      UnknownApp(p, apps, id, w);
    }
  }

  lemma UnknownApp(p: Proc, apps: seq<App>, id: int, w: World)
    requires p.Valid() && FindApp(apps, Decimal(id)) == |apps|
    ensures Executed(p, apps, id, w) == (Terminated(p), 404)
  {
    hide Terminated;
  }

  lemma OnlyFirst(apps: seq<App>, id: string, i: nat)
    requires IsFirst(apps, id, i)
    ensures forall j :: IsFirst(apps, id, j) ==> j == i
  {
    forall j | IsFirst(apps, id, j) ensures j == i {
      assert !(j < i) && !(i < j);
    }
  }

  ghost predicate IsFirst(apps: seq<App>, id: string, i: int) {
    0 <= i < |apps| && apps[i].id == id && forall j :: 0 <= j < i ==> apps[j].id != id
  }

  lemma OneStop(app: App, w: World, k: nat)
    requires StopsAt(app, w, k) && k < |app.prep|
    ensures !StopsAt(app, w, |app.prep|)
  {
  }

  /**
   A launch that answers 0 has passed all the preparation commands in order, then started the detached commands, then
   the compositor if there is one, then the main command; an application without one only counts as running.
   */
  lemma SuccessfulLaunch(p: Proc, apps: seq<App>, id: int, w: World)
    requires p.Valid() && Executed(p, apps, id, w).1 == 0
    ensures var i := FindApp(apps, Decimal(id));
      var r := Executed(p, apps, id, w).0;
      && i < |apps| && r.app == apps[i] && r.appId == id && r.prepIt == |r.app.prep|
      && r.placebo == (r.app.cmd == "") && r.process == r.group == (r.app.cmd != "")
      && r.compositor == (r.app.cmd != "" && w.headless)
      && r.history == Terminated(p).history + [Began(id)] + PassesOf(r.app.prep) + DetachesOf(r.app.detached)
                      + (if r.app.cmd == "" then []
                         else if w.headless then [CompositorStarted, MainStarted(r.app.cmd)]
                         else [MainStarted(r.app.cmd)])
  {
    hide Decimal, StopsAt, Terminated, Begun, Launched, PassesOf, DetachesOf;
    var i := FindApp(apps, Decimal(id));
    BegunState(p, id, apps[i]);
    var b := Begun(Terminated(p), id, apps[i]);
    AnswerIf(p, apps, id, w);
    LaunchedState(b, w);
    assert Executed(p, apps, id, w).0 == Launched(b, w).0;
  }

  /** If the compositor or the main command does not start, the compositor is stopped and all is undone, last first. */
  lemma FailedMainIsUndone(p: Proc, apps: seq<App>, id: int, w: World)
    requires p.Valid() && FindApp(apps, Decimal(id)) < |apps|
    requires var app := apps[FindApp(apps, Decimal(id))]; StopsAt(app, w, |app.prep|) && !MainRuns(app, w)
    ensures var app := apps[FindApp(apps, Decimal(id))];
      var r := Executed(p, apps, id, w);
      && r.1 == -1
      && r.0.history == Terminated(p).history + [Began(id)] + PassesOf(app.prep) + DetachesOf(app.detached)
                        + (if w.headless && !w.compositorStarts then [CompositorFailed]
                           else if w.headless then [CompositorStarted, MainFailed(app.cmd), CompositorStopped]
                           else [MainFailed(app.cmd)])
                        + UndosOf(app.prep)
  {
    hide Decimal, StopsAt, Terminated, Begun, Launched, PassesOf, DetachesOf, UndosOf;
    var app := apps[FindApp(apps, Decimal(id))];
    BegunState(p, id, app);
    var b := Begun(Terminated(p), id, app);
    LaunchedState(b, w);
    var l := Launched(b, w).0;
    FailedLaunchEnds(l);
    assert l.app.prep[..l.prepIt] == app.prep;
    assert Executed(p, apps, id, w) == (Terminated(l), -1);
  }

  // ---------------------------------------------------------------------------------------------------
  // Encoder overrides never stack
  // ---------------------------------------------------------------------------------------------------

  predicate SameVideo(p: Proc, q: Proc) {
    q.video == p.video && q.saved == p.saved && q.overridden == p.overridden && q.app == p.app
  }

  lemma {:induction false} DoPrepsSameVideo(p: Proc, w: World)
    requires p.Valid()
    ensures SameVideo(p, DoPreps(p, w))
    decreases |p.app.prep| - p.prepIt
  {
    if p.prepIt < |p.app.prep| && Passes(p.app, p.prepIt, w) {
      DoPrepsSameVideo(Log(p, Passed(p.app.prep[p.prepIt])).(prepIt := p.prepIt + 1), w);
    }
  }

  lemma {:induction false} DetachSameVideo(p: Proc, cmds: seq<string>)
    ensures SameVideo(p, Detach(p, cmds))
    decreases |cmds|
  {
    if cmds != [] {
      DetachSameVideo(Log(p, Detached(cmds[0])), cmds[1..]);
    }
  }

  lemma CompositorSameVideo(p: Proc, w: World)
    ensures SameVideo(p, StartCompositor(p, w).0)
  {
  }

  lemma MainSameVideo(p: Proc, w: World)
    ensures SameVideo(p, StartMain(p, w).0)
  {
  }

  lemma LaunchedSameVideo(p: Proc, w: World)
    requires p.Valid()
    ensures SameVideo(p, Launched(p, w).0)
  {
    hide DoPreps, Detach, StartCompositor, StartMain;
    DoPrepsSameVideo(p, w);
    var d := DoPreps(p, w);
    DetachSameVideo(d, d.app.detached);
    var e := Detach(d, d.app.detached);
    CompositorSameVideo(e, w);
    MainSameVideo(StartCompositor(e, w).0, w);
  }

  /** The settings are the user's own, or the user's own under the override of the current application. */
  ghost predicate Faithful(p: Proc, video: Video) {
    && p.Valid()
    && p.video == (if p.overridden then Overridden(video, p.app.presetOverride) else video)
    && (p.overridden ==> IsPreset(p.app.presetOverride) && p.saved == video)
  }

  lemma TerminateRestores(p: Proc, video: Video)
    requires Faithful(p, video)
    ensures Faithful(Terminated(p), video) && Terminated(p).video == video
  {
    UndoneInReverse(StopCompositor(StopProcess(p)));
  }

  lemma ExecuteFaithful(p: Proc, apps: seq<App>, id: int, w: World, video: Video)
    requires Faithful(p, video)
    ensures var r := Executed(p, apps, id, w);
      && Faithful(r.0, video)
      && (r.1 != 0 ==> r.0.video == video)
      && (r.1 == 0 ==>
            var i := FindApp(apps, Decimal(id));
            i < |apps| && r.0.app == apps[i] && r.0.video == Overridden(video, apps[i].presetOverride))
  {
    hide Terminated, Launched;
    TerminateRestores(p, video);
    TerminateIsClean(p);
    var i := FindApp(apps, Decimal(id));
    if i < |apps| {
      var b := Begun(Terminated(p), id, apps[i]);
      LaunchedSameVideo(b, w);
      TerminateRestores(Launched(b, w).0, video);
    }
  }

  lemma {:induction false} RunsFaithful(p: Proc, apps: seq<App>, ops: seq<Op>, video: Video)
    requires Faithful(p, video)
    ensures Faithful(ApplyAll(p, apps, ops), video)
    decreases |ops|
  {
    hide Executed, Terminated;
    if ops != [] {
      TerminateRestores(p, video);
      match ops[0] {
        case Launch(id, w) => ExecuteFaithful(p, apps, id, w, video);
        case _ =>
      }
      RunsFaithful(Apply(p, apps, ops[0]), apps, ops[1..], video);
    }
  }

  /**
   After any launches, failures, checks and terminations the encoder settings are those the user started with while no
   override is active, and while one is, the user's with the override of the application launched last applied to them;
   a launch that succeeds leads to its own override, a launch that fails or a termination to the user's settings.
   */
  lemma OverridesNeverStack(video: Video, apps: seq<App>, ops: seq<Op>, id: int, w: World)
    ensures var p := ApplyAll(Initial(video), apps, ops);
      && p.video == (if p.overridden then Overridden(video, p.app.presetOverride) else video)
      && (p.overridden ==> IsPreset(p.app.presetOverride))
      && Terminated(p).video == video
      && (Executed(p, apps, id, w).1 != 0 ==> Executed(p, apps, id, w).0.video == video)
      && (Executed(p, apps, id, w).1 == 0 ==>
            FindApp(apps, Decimal(id)) < |apps| &&
            Executed(p, apps, id, w).0.video == Overridden(video, apps[FindApp(apps, Decimal(id))].presetOverride))
  {
    hide Executed, Terminated;
    RunsFaithful(Initial(video), apps, ops, video);
    var p := ApplyAll(Initial(video), apps, ops);
    TerminateRestores(p, video);
    ExecuteFaithful(p, apps, id, w, video);
  }

  /** Whether the application counts as running. */
  predicate Alive(p: Proc, groupRuns: bool, processRuns: bool, exitCode: int) {
    p.placebo || (p.app.waitAll && p.group && groupRuns) || (p.process && processRuns) ||
    (p.app.autoDetach && exitCode == 0)
  }

  /**
   When nothing counts as running, `running` answers 0 and nothing is left over: no entry owed, no process, the user's
   own settings. When something does, it answers the id of the application and undoes nothing; so an answer of 0 means
   that all is clean, unless the application has the id 0.
   */
  lemma NotRunningMeansClean(video: Video, apps: seq<App>, ops: seq<Op>, g: bool, r: bool, exitCode: int)
    ensures var p := ApplyAll(Initial(video), apps, ops);
      var (c, id) := Poll(p, g, r, exitCode);
      if Alive(p, g, r, exitCode) then
        && id == p.appId
        && c == p.(placebo := p.placebo || !((p.app.waitAll && p.group && g) || (p.process && r)))
      else
        && id == 0 && Track(c.history) == Some(Open([], false, false)) && c.prepIt == 0 && c.video == video
        && !c.placebo && !c.process && !c.compositor && !c.overridden
  {
    var p := ApplyAll(Initial(video), apps, ops);
    RunsTracked(Initial(video), apps, ops);
    RunsFaithful(Initial(video), apps, ops, video);
    hide Terminated, Track, TrackOne, ApplyAll;
    TerminateTracked(p);
    TerminateIsClean(p);
    TerminateRestores(p, video);
    assert p.prepIt == 0 ==> p.app.prep[..p.prepIt] == [];
  }

  /** An application whose id is 0 answers 0 while it runs, with all its entries still to be undone. */
  lemma IdZeroLooksStopped(p: Proc, apps: seq<App>, w: World, g: bool, exitCode: int)
    requires p.Valid() && Executed(p, apps, 0, w).1 == 0
    ensures var q := Executed(p, apps, 0, w).0;
      Poll(q, g, true, exitCode) == (q, 0) && q.prepIt == |q.app.prep| && q.app == apps[FindApp(apps, "0")]
  {
    assert Decimal(0) == "0";
    var b := Begun(Terminated(p), 0, apps[FindApp(apps, "0")]);
    StartedRuns(b, w);
  }

  lemma StartedRuns(b: Proc, w: World)
    requires b.Valid() && Launched(b, w).1
    ensures var q := Launched(b, w).0;
      (q.placebo || q.process) && q.appId == b.appId && q.app == b.app && q.prepIt == |q.app.prep|
  {
    hide DoPreps, Detach;
    PrepsKeepId(b, w);
    DetachKeepsId(DoPreps(b, w), b.app.detached);
  }

  lemma {:induction false} PrepsKeepId(p: Proc, w: World)
    requires p.Valid()
    ensures DoPreps(p, w).appId == p.appId
    decreases |p.app.prep| - p.prepIt
  {
    hide Passes;
    if p.prepIt < |p.app.prep| && Passes(p.app, p.prepIt, w) {
      PrepsKeepId(Log(p, Passed(p.app.prep[p.prepIt])).(prepIt := p.prepIt + 1), w);
    }
  }

  lemma {:induction false} DetachKeepsId(p: Proc, cmds: seq<string>)
    ensures Detach(p, cmds).appId == p.appId
    decreases |cmds|
  {
    if cmds != [] {
      DetachKeepsId(Log(p, Detached(cmds[0])), cmds[1..]);
    }
  }

  // ---------------------------------------------------------------------------------------------------
  // The object the handlers update
  // ---------------------------------------------------------------------------------------------------

  /** The command that the platform is asked to run for a step; an empty command asks for nothing. */
  function CommandOf(a: Action): string {
    match a
    case Passed(e) => e.doCmd
    case Refused(e) => e.doCmd
    case Undone(e) => e.undoCmd
    case Detached(c) => c
    case MainStarted(c) => c
    case MainFailed(c) => c
    case _ => ""
  }

  function Commands(history: seq<Action>): seq<string>
    decreases |history|
  {
    if history == [] then []
    else
      var c := CommandOf(history[|history| - 1]);
      Commands(history[..|history| - 1]) + if c == "" && !history[|history| - 1].Detached? then [] else [c]
  }

  lemma CommandsAfter(history: seq<Action>, a: Action)
    ensures Commands(history + [a]) ==
      Commands(history) + if CommandOf(a) == "" && !a.Detached? then [] else [CommandOf(a)]
  {
    hide CommandOf;
    assert (history + [a])[..|history|] == history;
  }

  lemma {:induction false} CommandsOfBoth(a: seq<Action>, b: seq<Action>)
    ensures Commands(a + b) == Commands(a) + Commands(b)
    decreases |b|
  {
    hide CommandOf;
    if b == [] {
      assert a + b == a;
    } else {
      CommandsOfBoth(a, b[..|b| - 1]);
      assert (a + b)[..|a + b| - 1] == a + b[..|b| - 1];
    }
  }

  /** The commands that are not empty. */
  function Given(cmds: seq<string>): seq<string>
    decreases |cmds|
  {
    if cmds == [] then []
    else Given(cmds[..|cmds| - 1]) + if cmds[|cmds| - 1] == "" then [] else [cmds[|cmds| - 1]]
  }

  function DoCmds(prep: seq<Prep>): (cmds: seq<string>)
    ensures |cmds| == |prep| && forall i :: 0 <= i < |prep| ==> cmds[i] == prep[i].doCmd
  {
    seq(|prep|, i requires 0 <= i < |prep| => prep[i].doCmd)
  }

  function UndoCmdsReversed(prep: seq<Prep>): (cmds: seq<string>)
    ensures |cmds| == |prep| && forall i :: 0 <= i < |prep| ==> cmds[i] == prep[|prep| - 1 - i].undoCmd
  {
    seq(|prep|, i requires 0 <= i < |prep| => prep[|prep| - 1 - i].undoCmd)
  }

  lemma {:induction false} PassesGive(prep: seq<Prep>)
    ensures Commands(PassesOf(prep)) == Given(DoCmds(prep))
    decreases |prep|
  {
    if prep != [] {
      var most := prep[..|prep| - 1];
      PassesGive(most);
      assert PassesOf(prep)[..|prep| - 1] == PassesOf(most);
      assert DoCmds(prep)[..|prep| - 1] == DoCmds(most);
    }
  }

  lemma GivenLast(cmds: seq<string>, last: string)
    ensures Given(cmds + [last]) == Given(cmds) + if last == "" then [] else [last]
  {
    assert (cmds + [last])[..|cmds|] == cmds;
  }

  lemma {:induction false} GivenBehind(first: string, cmds: seq<string>)
    ensures Given([first] + cmds) == (if first == "" then [] else [first]) + Given(cmds)
    decreases |cmds|
  {
    hide Given;
    if cmds == [] {
      NothingGiven();
      GivenLast([], first);
      assert [first] + cmds == [] + [first];
    } else {
      var most, last := cmds[..|cmds| - 1], cmds[|cmds| - 1];
      GivenBehind(first, most);
      GivenLast(most, last);
      GivenLast([first] + most, last);
      assert most + [last] == cmds && [first] + most + [last] == [first] + cmds;
    }
  }

  lemma {:induction false} UndosGive(prep: seq<Prep>)
    ensures Commands(UndosOf(prep)) == Given(UndoCmdsReversed(prep))
    decreases |prep|
  {
    hide Commands, Given;
    if prep == [] {
      assert UndoCmdsReversed(prep) == [];
      NothingGiven();
    } else {
      var last, most := prep[|prep| - 1], prep[..|prep| - 1];
      UndosGive(most);
      CommandsOfBoth([Undone(last)], UndosOf(most));
      CommandsAfter([], Undone(last));
      NothingGiven();
      assert [] + [Undone(last)] == [Undone(last)];
      assert UndoCmdsReversed(prep) == [last.undoCmd] + UndoCmdsReversed(most);
      GivenBehind(last.undoCmd, UndoCmdsReversed(most));
    }
  }

  lemma NothingGiven()
    ensures Commands([]) == [] && Given([]) == []
  {
  }

  /**
   A termination gives the platform exactly the undo commands of the entries that were passed, the last one first,
   without the empty ones.
   */
  lemma TerminateGives(p: Proc)
    requires p.Valid()
    ensures Commands(Terminated(p).history) == Commands(p.history) + Given(UndoCmdsReversed(p.app.prep[..p.prepIt]))
  {
    hide Commands, Given, UndosOf, UndoAll;
    var q := StopCompositor(StopProcess(p));
    UndoneInReverse(q);
    UndosGive(p.app.prep[..p.prepIt]);
    CommandsOfBoth(q.history, UndosOf(p.app.prep[..p.prepIt]));
    if p.process {
      CommandsAfter(p.history, MainStopped);
    }
    if p.compositor {
      CommandsAfter(StopProcess(p).history, CompositorStopped);
    }
    assert Commands(q.history) == Commands(p.history);
  }

  /**
   A launch that answers 0 gives the platform, behind what the termination gives it, the do commands that are not empty
   in order, then all the detached commands in order, then the command of the application if it has one.
   */
  lemma LaunchGives(p: Proc, apps: seq<App>, id: int, w: World)
    requires p.Valid() && Executed(p, apps, id, w).1 == 0
    ensures var r := Executed(p, apps, id, w).0;
      Commands(r.history) == Commands(Terminated(p).history) + Given(DoCmds(r.app.prep)) + r.app.detached
                             + if r.app.cmd == "" then [] else [r.app.cmd]
  {
    hide Commands, Given, PassesOf, DetachesOf, Executed, Terminated, Decimal, FindApp, DoCmds;
    SuccessfulLaunch(p, apps, id, w);
    LaunchHistoryGives(Terminated(p).history, id, Executed(p, apps, id, w).0.app, w.headless);
  }

  lemma LaunchHistoryGives(before: seq<Action>, id: int, app: App, headless: bool)
    ensures Commands(before + [Began(id)] + PassesOf(app.prep) + DetachesOf(app.detached)
                     + if app.cmd == "" then []
                       else if headless then [CompositorStarted, MainStarted(app.cmd)]
                       else [MainStarted(app.cmd)])
      == Commands(before) + Given(DoCmds(app.prep)) + app.detached + if app.cmd == "" then [] else [app.cmd]
  {
    hide Commands, Given, PassesOf, DetachesOf, DoCmds;
    CommandsAfter(before, Began(id));
    CommandsOfBoth(before + [Began(id)], PassesOf(app.prep));
    PassesGive(app.prep);
    var passed := before + [Began(id)] + PassesOf(app.prep);
    CommandsOfBoth(passed, DetachesOf(app.detached));
    DetachesGive(app.detached);
    MainGives(passed + DetachesOf(app.detached), app.cmd, headless);
  }

  lemma {:induction false} DetachesGive(cmds: seq<string>)
    ensures Commands(DetachesOf(cmds)) == cmds
    decreases |cmds|
  {
    if cmds != [] {
      DetachesGive(cmds[..|cmds| - 1]);
      assert DetachesOf(cmds)[..|cmds| - 1] == DetachesOf(cmds[..|cmds| - 1]);
      assert cmds == cmds[..|cmds| - 1] + [cmds[|cmds| - 1]];
    }
  }

  lemma MainGives(history: seq<Action>, cmd: string, headless: bool)
    ensures cmd != "" ==>
      Commands(history + if headless then [CompositorStarted, MainStarted(cmd)] else [MainStarted(cmd)])
        == Commands(history) + [cmd]
    ensures history + [] == history
  {
    hide Commands;
    var started := history + if headless then [CompositorStarted] else [];
    if headless {
      CommandsAfter(history, CompositorStarted);
    }
    CommandsAfter(started, MainStarted(cmd));
    assert started + [MainStarted(cmd)]
        == history + if headless then [CompositorStarted, MainStarted(cmd)] else [MainStarted(cmd)];
  }

  class ProcObject {
    const apps: seq<App>
    var appId: int
    var app: App
    var prepIt: nat
    var placebo: bool
    var process: bool
    var group: bool
    var compositor: bool
    var video: Video
    var saved: Video
    var overridden: bool
    /** The commands given to the platform. */
    var commands: seq<string>
    ghost var history: seq<Action>

    ghost predicate Valid()
      reads this
    {
      prepIt <= |app.prep| && commands == Commands(history)
    }

    ghost function View(): (p: Proc)
      requires Valid()
      reads this
      ensures p.Valid()
    {
      Proc(appId, app, prepIt, placebo, process, group, compositor, video, saved, overridden, history)
    }

    constructor (apps: seq<App>, video: Video)
      ensures Valid() && View() == Initial(video) && this.apps == apps
    {
      this.apps := apps;
      appId, app, prepIt, placebo, process, group, compositor := 0, NO_APP, 0, false, false, false, false;
      this.video, saved, overridden, commands := video, Video(DEFAULT_NVENC, -99), false, [];
      history := [];
    }

    method Run(command: string, ghost a: Action)
      requires Valid() && command == CommandOf(a) && (command != "" || a.Detached?)
      modifies this`commands, this`history
      ensures Valid() && View() == Log(old(View()), a)
    {
      hide Commands, CommandOf;
      CommandsAfter(history, a);
      commands := commands + [command];
      history := history + [a];
    }

    ghost method Note(a: Action)
      requires Valid() && CommandOf(a) == "" && !a.Detached?
      modifies this`history
      ensures Valid() && View() == Log(old(View()), a)
    {
      hide Commands, CommandOf;
      CommandsAfter(history, a);
      assert commands + [] == commands;
      history := history + [a];
    }

    /** One turn of the loop over the undo commands; an empty command is passed over. */
    method UndoStep()
      requires Valid() && prepIt != 0
      modifies this`commands, this`history, this`prepIt
      ensures Valid() && View() == UndoOne(old(View()))
    {
      hide Commands;
      var entry := app.prep[prepIt - 1];
      if entry.undoCmd == "" {
        Note(Undone(entry));
      } else {
        Run(entry.undoCmd, Undone(entry));
      }
      prepIt := prepIt - 1;
    }

    method UndoSteps()
      requires Valid()
      modifies this`commands, this`history, this`prepIt
      ensures Valid() && View() == UndoAll(old(View()))
    {
      hide Commands, UndoOne;
      while prepIt != 0
        invariant Valid() && UndoAll(View()) == old(UndoAll(View()))
        decreases prepIt
      {
        UndoStep();
      }
    }

    method StopMain()
      requires Valid()
      modifies this`placebo, this`process, this`group, this`history
      ensures Valid() && View() == StopProcess(old(View()))
    {
      hide Commands;
      placebo := false;
      if process {
        Note(MainStopped);
      }
      process, group := false, false;
    }

    method StopHeadless()
      requires Valid()
      modifies this`compositor, this`history
      ensures Valid() && View() == StopCompositor(old(View()))
    {
      hide Commands;
      if compositor {
        Note(CompositorStopped);
        compositor := false;
      }
    }

    method Terminate()
      requires Valid()
      modifies this`appId, this`prepIt, this`placebo, this`process, this`group, this`compositor, this`video,
        this`saved, this`overridden, this`commands, this`history
      ensures Valid() && View() == Terminated(old(View()))
    {
      hide UndoAll, Commands, StopCompositor, StopProcess;
      StopMain();
      StopHeadless();
      UndoSteps();
      if overridden {
        video := saved;
        overridden := false;
        saved := saved.(preset := -99);
      }
      appId := -1;
    }

    method ApplyPreset()
      requires Valid()
      modifies this`video
      ensures Valid() && View() == old(View()).(video := Overridden(old(video), old(video).preset))
    {
      if video.preset < 0 || video.preset > 2 {
        return;
      }
      video := video.(nv := TunedBy(video.nv, video.preset));
    }

    method Override()
      requires Valid()
      modifies this`video, this`saved, this`overridden
      ensures Valid() && View() == OverrideVideo(old(View()))
    {
      hide TunedBy, Commands;
      if app.presetOverride >= 0 && app.presetOverride <= 2 {
        saved := video;
        video := video.(preset := app.presetOverride);
        ApplyPreset();
        overridden := true;
      }
    }

    method Begin(id: int, found: App)
      requires Valid()
      modifies this`appId, this`app, this`prepIt, this`video, this`saved, this`overridden, this`history
      ensures Valid() && View() == Begun(old(View()), id, found)
    {
      hide OverrideVideo, Commands;
      appId, app, prepIt := id, found, 0;
      Note(Began(id));
      Override();
    }

    /** One turn of the loop over the do commands; an empty command passes without being run. */
    method DoStep(world: World) returns (ok: bool)
      requires Valid() && prepIt < |app.prep|
      modifies this`commands, this`history
      ensures Valid() && ok == Passes(app, prepIt, world)
      ensures View() == Log(old(View()), if ok then Passed(app.prep[prepIt]) else Refused(app.prep[prepIt]))
    {
      hide Commands;
      var entry := app.prep[prepIt];
      if entry.doCmd == "" {
        Note(Passed(entry));
        return true;
      }
      var o := world.prep(prepIt);
      ok := (o.spawned == Running || (app.cmd == "" && o.spawned == Denied)) && o.waited && o.exitCode == 0;
      Run(entry.doCmd, if ok then Passed(entry) else Refused(entry));
    }

    method DoSteps(world: World) returns (ok: bool)
      requires Valid()
      modifies this`commands, this`history, this`prepIt
      ensures Valid() && View() == DoPreps(old(View()), world)
      ensures ok <==> prepIt == |app.prep|
    {
      hide Commands, Passes;
      while prepIt != |app.prep|
        invariant Valid() && DoPreps(View(), world) == old(DoPreps(View(), world))
      {
        ok := DoStep(world);
        if !ok {
          return;
        }
        prepIt := prepIt + 1;
      }
      ok := true;
    }

    method DetachSteps()
      requires Valid()
      modifies this`commands, this`history
      ensures Valid() && View() == Detach(old(View()), old(app.detached))
    {
      var i := 0;
      while i < |app.detached|
        invariant 0 <= i <= |app.detached| && Valid()
        invariant Detach(View(), app.detached[i..]) == old(Detach(View(), app.detached))
      {
        Run(app.detached[i], Detached(app.detached[i]));
        i := i + 1;
      }
    }

    method RunCompositor(world: World) returns (ok: bool)
      requires Valid()
      modifies this`history, this`compositor
      ensures Valid() && (View(), ok) == StartCompositor(old(View()), world)
    {
      hide Commands;
      if !world.headless {
        return true;
      }
      if !world.compositorStarts {
        Note(CompositorFailed);
        compositor := false;
        return false;
      }
      Note(CompositorStarted);
      compositor := true;
      ok := true;
    }

    method RunMain(world: World) returns (ok: bool)
      requires Valid() && app.cmd != ""
      modifies this`commands, this`history, this`compositor, this`process, this`group
      ensures Valid() && (View(), ok) == StartMain(old(View()), world)
    {
      hide Commands;
      if !world.mainStarts {
        Run(app.cmd, MainFailed(app.cmd));
        process := false;
        StopHeadless();
        return false;
      }
      Run(app.cmd, MainStarted(app.cmd));
      process, group := true, true;
      ok := true;
    }

    method Launch(world: World) returns (ok: bool)
      requires Valid()
      modifies this`commands, this`history, this`prepIt, this`placebo, this`compositor, this`process, this`group
      ensures Valid() && (View(), ok) == Launched(old(View()), world)
    {
      hide DoPreps, Detach, StartCompositor, StartMain, Commands;
      ok := DoSteps(world);
      if !ok {
        return;
      }
      DetachSteps();
      if app.cmd == "" {
        placebo := true;
        return true;
      }
      ok := RunCompositor(world);
      if !ok {
        return;
      }
      ok := RunMain(world);
    }

    method Execute(id: int, world: World) returns (status: int)
      requires Valid()
      modifies this
      ensures Valid() && (View(), status) == Executed(old(View()), apps, id, world)
    {
      hide Terminated, Begun, Launched, Commands;
      Terminate();
      var i := 0;
      while i < |apps| && apps[i].id != Decimal(id)
        invariant 0 <= i <= |apps|
        invariant forall j :: 0 <= j < i ==> apps[j].id != Decimal(id)
      {
        i := i + 1;
      }
      if i == |apps| {
        return 404;
      }
      Begin(id, apps[i]);
      var ok := Launch(world);
      if !ok {
        Terminate();
        return -1;
      }
      status := 0;
    }

    method IsRunning(groupRuns: bool, processRuns: bool, exitCode: int) returns (id: int)
      requires Valid()
      modifies this
      ensures Valid() && (View(), id) == Poll(old(View()), groupRuns, processRuns, exitCode)
    {
      hide Terminated, Commands;
      if placebo {
        return appId;
      } else if app.waitAll && group && groupRuns {
        return appId;
      } else if process && processRuns {
        return appId;
      } else if app.autoDetach && exitCode == 0 {
        placebo := true;
        return appId;
      }
      if process {
        Terminate();
      }
      id := 0;
    }
  }
}
