/**
 The keyboard (src/input.cpp, the keyboard `passthrough`, `repeat_key` and the key half of `reset`): presses are
 de-duplicated per (code, flags), one delayed task repeats the last key pressed, and modifiers the client asks for
 without having pressed them are sent around a key.
 */
module Keys {
  import opened Wrappers
  import opened Packets

  const VKEY_SHIFT := 0x10
  const VKEY_CONTROL := 0x11
  const VKEY_MENU := 0x12
  const VKEY_N := 0x4E
  const VK_F1 := 0x70
  const VK_F13 := 0x7C
  const VKEY_LSHIFT := 0xA0
  const VKEY_RSHIFT := 0xA1
  const VKEY_LCONTROL := 0xA2
  const VKEY_RCONTROL := 0xA3
  const VKEY_LMENU := 0xA4
  const VKEY_RMENU := 0xA5

  const NO_MODIFIERS := Modifiers(false, false, false)

  datatype KeyId = KeyId(code: nat, flags: nat)

  /** The settings the handler reads: whether keys repeat, the right-alt option, and the key bindings. */
  datatype Settings = Settings(repeats: bool, rightAltIsMeta: bool, bindings: map<nat, nat>)

  datatype Kind = Main | Repeat | Synthetic

  /** One call of the platform: `code` is the key code it is given, `id` the key it is sent for. */
  datatype KeyEvent = KeyEvent(kind: Kind, id: KeyId, code: nat, down: bool)

  datatype RepeatTask = RepeatTask(id: KeyId, synthetic: Modifiers)

  /** `repeatId` may outlive its task; `tasks` are the repeat tasks in the pool. */
  datatype Keyboard = Keyboard(
    pressed: set<KeyId>,
    shortcut: Modifiers,
    leftAlt: bool,
    rightAlt: bool,
    repeatId: Option<nat>,
    tasks: map<nat, RepeatTask>,
    nextTask: nat,
    log: seq<KeyEvent>,
    shortcuts: seq<nat>)

  const IDLE := Keyboard({}, NO_MODIFIERS, false, false, None, map[], 0, [], [])

  predicate IsShift(code: nat) { code == VKEY_SHIFT || code == VKEY_LSHIFT || code == VKEY_RSHIFT }
  predicate IsControl(code: nat) { code == VKEY_CONTROL || code == VKEY_LCONTROL || code == VKEY_RCONTROL }
  predicate IsMenu(code: nat) { code == VKEY_MENU || code == VKEY_LMENU || code == VKEY_RMENU }
  predicate IsModifier(code: nat) { IsShift(code) || IsControl(code) || IsMenu(code) }
  predicate IsShortcut(code: nat) { VK_F1 <= code <= VK_F13 || code == VKEY_N }

  function MapKeycode(settings: Settings, code: nat): nat {
    if code in settings.bindings then settings.bindings[code] else code
  }

  function UpdateShortcut(flags: Modifiers, code: nat, release: bool): Modifiers {
    if IsShift(code) then flags.(shift := !release)
    else if IsControl(code) then flags.(ctrl := !release)
    else if IsMenu(code) then flags.(alt := !release)
    else flags
  }

  function ModifierEvents(id: KeyId, synthetic: Modifiers, down: bool): seq<KeyEvent> {
    (if synthetic.shift then [KeyEvent(Synthetic, id, VKEY_SHIFT, down)] else [])
    + (if synthetic.ctrl then [KeyEvent(Synthetic, id, VKEY_CONTROL, down)] else [])
    + (if synthetic.alt then [KeyEvent(Synthetic, id, VKEY_MENU, down)] else [])
  }

  function SendKey(settings: Settings, kind: Kind, id: KeyId, release: bool, synthetic: Modifiers): seq<KeyEvent> {
    var key := [KeyEvent(kind, id, MapKeycode(settings, id.code), !release)];
    if release then key
    else ModifierEvents(id, synthetic, true) + key + ModifierEvents(id, synthetic, false)
  }

  function StopRepeating(k: Keyboard): Keyboard {
    if k.repeatId.Some? then k.(tasks := k.tasks - {k.repeatId.value}) else k
  }

  function StartRepeating(k: Keyboard, task: RepeatTask): Keyboard {
    k.(repeatId := Some(k.nextTask), tasks := k.tasks[k.nextTask := task], nextTask := k.nextTask + 1)
  }

  function RepeatAnew(k: Keyboard, settings: Settings, task: RepeatTask): Keyboard {
    if settings.repeats then StartRepeating(StopRepeating(k), task) else StopRepeating(k)
  }

  /** Left and right alt are followed before anything else. */
  function FollowAlt(k: Keyboard, code: nat, release: bool): Keyboard {
    if code == VKEY_LMENU then k.(leftAlt := !release)
    else if code == VKEY_RMENU then k.(rightAlt := !release)
    else k
  }

  /** The modifiers the packet wants held that the client has not pressed itself. */
  function Wanted(k: Keyboard, settings: Settings, code: nat, release: bool, modifiers: Modifiers): Modifiers {
    if release || IsModifier(code) then NO_MODIFIERS
    else
      var alt := modifiers.alt && !(settings.rightAltIsMeta && k.rightAlt && !k.leftAlt);
      Modifiers(modifiers.shift && !k.shortcut.shift, modifiers.ctrl && !k.shortcut.ctrl, alt && !k.shortcut.alt)
  }

  /** A key that changes: its mark, its events, the repeat task and the shortcut flags. */
  function Switch(k: Keyboard, settings: Settings, id: KeyId, release: bool, synthetic: Modifiers): Keyboard {
    var ready := if release then k else RepeatAnew(k, settings, RepeatTask(id, synthetic));
    ready.(pressed := if release then ready.pressed - {id} else ready.pressed + {id},
           log := ready.log + SendKey(settings, Main, id, release, synthetic),
           shortcut := UpdateShortcut(ready.shortcut, MapKeycode(settings, id.code), release))
  }

  function Press(k: Keyboard, settings: Settings, release: bool, keyCode: int, flags: nat, modifiers: Modifiers)
    : Keyboard
  {
    var code := keyCode % 0x100;
    var id := KeyId(code, flags);
    var followed := FollowAlt(k, code, release);
    var synthetic := Wanted(followed, settings, code, release, modifiers);
    if (id in k.pressed) != release then followed
    else if !release && k.shortcut == Modifiers(true, true, true) && IsShortcut(code) then
      followed.(shortcuts := followed.shortcuts + [code])
    else Switch(followed, settings, id, release, synthetic)
  }

  /** The pool runs a repeat task. */
  function RunRepeat(k: Keyboard, settings: Settings, t: nat): Keyboard {
    if t !in k.tasks then k
    else
      var task := k.tasks[t];
      var running := k.(tasks := k.tasks - {t});
      if task.id !in k.pressed then running.(repeatId := None)
      else
        var events := SendKey(settings, Repeat, task.id, false, task.synthetic);
        StartRepeating(running.(log := running.log + events), task)
  }

  /** `reset` releases every pressed key under its own, unmapped code, in the order the map yields them. */
  function ReleaseAll(k: Keyboard, order: seq<KeyId>): Keyboard
    decreases |order|
  {
    if order == [] then k
    else if order[0] in k.pressed then
      var up := KeyEvent(Main, order[0], order[0].code % 0x100, false);
      ReleaseAll(k.(log := k.log + [up], pressed := k.pressed - {order[0]}), order[1..])
    else ReleaseAll(k, order[1..])
  }

  // ---------------------------------------------------------------------------------------------------
  // What the log must look like
  // ---------------------------------------------------------------------------------------------------

  /** Whether the last press or release logged for `id` was a press. */
  predicate IsDown(log: seq<KeyEvent>, id: KeyId) {
    log != [] &&
    var last := log[|log| - 1];
    if last.kind == Main && last.id == id then last.down else IsDown(log[..|log| - 1], id)
  }

  /** An event may follow `log`: presses and releases of a key alternate, and only a key that is down repeats. */
  predicate Follows(log: seq<KeyEvent>, e: KeyEvent) {
    match e.kind
    case Main => e.down != IsDown(log, e.id)
    case Repeat => e.down && IsDown(log, e.id)
    case Synthetic => true
  }

  predicate Orderly(log: seq<KeyEvent>) {
    log == [] || (Orderly(log[..|log| - 1]) && Follows(log[..|log| - 1], log[|log| - 1]))
  }

  lemma Append(log: seq<KeyEvent>, e: KeyEvent, id: KeyId)
    ensures IsDown(log + [e], id) == if e.kind == Main && e.id == id then e.down else IsDown(log, id)
    ensures Orderly(log + [e]) <==> Orderly(log) && Follows(log, e)
  {
    assert (log + [e])[..|log|] == log;
  }

  lemma {:induction false} AppendSynthetic(log: seq<KeyEvent>, events: seq<KeyEvent>, id: KeyId)
    requires forall i :: 0 <= i < |events| ==> events[i].kind == Synthetic
    ensures IsDown(log + events, id) == IsDown(log, id)
    ensures Orderly(log + events) <==> Orderly(log)
    decreases |events|
  {
    if events == [] {
      assert log + events == log;
    } else {
      var most, last := events[..|events| - 1], events[|events| - 1];
      AppendSynthetic(log, most, id);
      Append(log + most, last, id);
      assert log + events == log + most + [last];
    }
  }

  lemma KeyAmongSynthetics(log: seq<KeyEvent>, before: seq<KeyEvent>, key: KeyEvent, behind: seq<KeyEvent>,
                           after: seq<KeyEvent>, id: KeyId)
    requires after == log + before + [key] + behind
    requires forall i :: 0 <= i < |before| ==> before[i].kind == Synthetic
    requires forall i :: 0 <= i < |behind| ==> behind[i].kind == Synthetic
    requires Orderly(log) && Follows(log, key)
    ensures Orderly(after)
    ensures IsDown(after, id) == if key.kind == Main && key.id == id then key.down else IsDown(log, id)
  {
    AppendSynthetic(log, before, id);
    AppendSynthetic(log, before, key.id);
    Append(log + before, key, id);
    AppendSynthetic(log + before + [key], behind, id);
  }

  lemma SendKeyParts(log: seq<KeyEvent>, settings: Settings, kind: Kind, id: KeyId, release: bool, synthetic: Modifiers)
    ensures var key := KeyEvent(kind, id, MapKeycode(settings, id.code), !release);
      var before := if release then [] else ModifierEvents(id, synthetic, true);
      var behind := if release then [] else ModifierEvents(id, synthetic, false);
      && log + SendKey(settings, kind, id, release, synthetic) == log + before + [key] + behind
      && (forall i :: 0 <= i < |before| ==> before[i].kind == Synthetic)
      && (forall i :: 0 <= i < |behind| ==> behind[i].kind == Synthetic)
  {
    var key := KeyEvent(kind, id, MapKeycode(settings, id.code), !release);
    if !release {
      var before, behind := ModifierEvents(id, synthetic, true), ModifierEvents(id, synthetic, false);
      assert log + (before + [key] + behind) == log + before + [key] + behind;
    }
  }

  /** A key sent with its synthetic modifiers counts as the one event of the key itself. */
  lemma SentKeyCountsOnce(log: seq<KeyEvent>, settings: Settings, kind: Kind, sent: KeyId, release: bool,
                          synthetic: Modifiers)
    requires Orderly(log) && Follows(log, KeyEvent(kind, sent, MapKeycode(settings, sent.code), !release))
    ensures var after := log + SendKey(settings, kind, sent, release, synthetic);
      && Orderly(after)
      && forall id :: IsDown(after, id) == if kind == Main && sent == id then !release else IsDown(log, id)
  {
    var key := KeyEvent(kind, sent, MapKeycode(settings, sent.code), !release);
    var before := if release then [] else ModifierEvents(sent, synthetic, true);
    var behind := if release then [] else ModifierEvents(sent, synthetic, false);
    var after := log + SendKey(settings, kind, sent, release, synthetic);
    SendKeyParts(log, settings, kind, sent, release, synthetic);
    hide SendKey, ModifierEvents, Orderly, IsDown, Follows;
    KeyAmongSynthetics(log, before, key, behind, after, sent);
    forall id
      ensures IsDown(after, id) == if kind == Main && sent == id then !release else IsDown(log, id)
    {
      KeyAmongSynthetics(log, before, key, behind, after, id);
    }
  }

  // ---------------------------------------------------------------------------------------------------
  // Every run
  // ---------------------------------------------------------------------------------------------------

  datatype KeyStep =
    | Packet(release: bool, keyCode: int, flags: nat, modifiers: Modifiers)
    | RepeatRuns(task: nat)
    | ResetCancels
    | ResetWorks(order: seq<KeyId>)

  function Apply(k: Keyboard, settings: Settings, s: KeyStep): Keyboard {
    match s
    case Packet(release, keyCode, flags, modifiers) => Press(k, settings, release, keyCode, flags, modifiers)
    case RepeatRuns(t) => RunRepeat(k, settings, t)
    case ResetCancels => StopRepeating(k)
    case ResetWorks(order) => ReleaseAll(k, order)
  }

  function ApplyAll(k: Keyboard, settings: Settings, steps: seq<KeyStep>): Keyboard
    decreases |steps|
  {
    if steps == [] then k else ApplyAll(Apply(k, settings, steps[0]), settings, steps[1..])
  }

  ghost predicate Inv(k: Keyboard) {
    && Orderly(k.log)
    && (forall id :: IsDown(k.log, id) <==> id in k.pressed)
    && (forall t :: t in k.tasks ==> k.repeatId == Some(t) && t < k.nextTask)
  }

  lemma ReadyToSwitch(k: Keyboard, settings: Settings, id: KeyId, release: bool)
    requires Inv(k) && (id in k.pressed) == release
    ensures Follows(k.log, KeyEvent(Main, id, MapKeycode(settings, id.code), !release))
  {
  }

  lemma SwitchKeepsInv(k: Keyboard, settings: Settings, id: KeyId, release: bool, synthetic: Modifiers)
    requires Inv(k) && (id in k.pressed) == release
    ensures Inv(Switch(k, settings, id, release, synthetic))
  {
    hide SendKey, Orderly, Follows, RepeatAnew, UpdateShortcut;
    ReadyToSwitch(k, settings, id, release);
    SentKeyCountsOnce(k.log, settings, Main, id, release, synthetic);
    RepeatAnewKeepsInv(k, settings, RepeatTask(id, synthetic));
    var ready := if release then k else RepeatAnew(k, settings, RepeatTask(id, synthetic));
    assert Inv(ready) && ready.log == k.log && ready.pressed == k.pressed;
  }

  lemma PressKeepsInv(k: Keyboard, settings: Settings, release: bool, keyCode: int, flags: nat, modifiers: Modifiers)
    requires Inv(k)
    ensures Inv(Press(k, settings, release, keyCode, flags, modifiers))
  {
    var id := KeyId(keyCode % 0x100, flags);
    var followed := FollowAlt(k, id.code, release);
    assert Inv(followed);
    if (id in k.pressed) == release {
      SwitchKeepsInv(followed, settings, id, release, Wanted(followed, settings, id.code, release, modifiers));
    }
  }

  lemma RepeatAnewKeepsInv(k: Keyboard, settings: Settings, task: RepeatTask)
    requires Inv(k)
    ensures Inv(RepeatAnew(k, settings, task)) && RepeatAnew(k, settings, task).log == k.log
  {
  }

  lemma RunRepeatKeepsInv(k: Keyboard, settings: Settings, t: nat)
    requires Inv(k)
    ensures Inv(RunRepeat(k, settings, t))
  {
    var after := RunRepeat(k, settings, t);
    if t in k.tasks && k.tasks[t].id in k.pressed {
      var task := k.tasks[t];
      SentKeyCountsOnce(k.log, settings, Repeat, task.id, false, task.synthetic);
    }
  }

  lemma {:induction false} ReleaseAllKeepsInv(k: Keyboard, order: seq<KeyId>)
    requires Inv(k)
    ensures Inv(ReleaseAll(k, order))
    ensures ReleaseAll(k, order).pressed == set id | id in k.pressed && id !in order
    decreases |order|
  {
    if order != [] {
      if order[0] in k.pressed {
        var up := KeyEvent(Main, order[0], order[0].code % 0x100, false);
        forall other
          ensures Orderly(k.log + [up]) && (IsDown(k.log + [up], other) <==> other in k.pressed - {order[0]})
        {
          Append(k.log, up, other);
        }
        ReleaseAllKeepsInv(k.(log := k.log + [up], pressed := k.pressed - {order[0]}), order[1..]);
      } else {
        ReleaseAllKeepsInv(k, order[1..]);
      }
    }
  }

  lemma {:induction false} RunsKeepInv(k: Keyboard, settings: Settings, steps: seq<KeyStep>)
    requires Inv(k)
    ensures Inv(ApplyAll(k, settings, steps))
    decreases |steps|
  {
    if steps != [] {
      match steps[0] {
        case Packet(release, keyCode, flags, modifiers) =>
          PressKeepsInv(k, settings, release, keyCode, flags, modifiers);
        case RepeatRuns(t) => RunRepeatKeepsInv(k, settings, t);
        case ResetCancels =>
        case ResetWorks(order) => ReleaseAllKeepsInv(k, order);
      }
      RunsKeepInv(Apply(k, settings, steps[0]), settings, steps[1..]);
    }
  }

  /**
   Over any run, resets included: per key the presses and releases alternate and repeats come only while it is down,
   the marks say which keys are down, and at most one repeat is pending.
   */
  lemma KeysAlternate(settings: Settings, steps: seq<KeyStep>)
    ensures var k := ApplyAll(IDLE, settings, steps);
      && Orderly(k.log)
      && (forall id :: IsDown(k.log, id) <==> id in k.pressed)
      && (forall t, u :: t in k.tasks && u in k.tasks ==> t == u)
  {
    RunsKeepInv(IDLE, settings, steps);
  }

  // ---------------------------------------------------------------------------------------------------
  // What the platform holds after a reset
  // ---------------------------------------------------------------------------------------------------

  /** The key codes, with their flags, that the platform was last told are down, whatever they were sent for. */
  function PlatformDown(log: seq<KeyEvent>): set<KeyId> {
    if log == [] then {}
    else
      var last, before := log[|log| - 1], PlatformDown(log[..|log| - 1]);
      if last.down then before + {KeyId(last.code, last.id.flags)} else before - {KeyId(last.code, last.id.flags)}
  }

  function Mapped(settings: Settings, id: KeyId): KeyId {
    KeyId(MapKeycode(settings, id.code), id.flags)
  }

  lemma {:induction false} ReleaseAllClears(k: Keyboard, order: seq<KeyId>)
    requires forall id :: id in k.pressed ==> id in order && id.code < 0x100
    ensures PlatformDown(ReleaseAll(k, order).log) == PlatformDown(k.log) - k.pressed
    decreases |order|
  {
    if order != [] {
      if order[0] in k.pressed {
        var up := KeyEvent(Main, order[0], order[0].code % 0x100, false);
        assert (k.log + [up])[..|k.log|] == k.log;
        assert KeyId(up.code, up.id.flags) == order[0];
        var rest := k.(log := k.log + [up], pressed := k.pressed - {order[0]});
        ReleaseAllClears(rest, order[1..]);
        assert PlatformDown(k.log) - k.pressed == PlatformDown(k.log) - {order[0]} - (k.pressed - {order[0]});
      } else {
        ReleaseAllClears(k, order[1..]);
      }
    }
  }

  /** The bindings keep these keys apart. */
  predicate DistinctOn(settings: Settings, keys: set<nat>) {
    forall a, b | a in keys && b in keys :: MapKeycode(settings, a) == MapKeycode(settings, b) ==> a == b
  }

  function Image(settings: Settings, ids: set<KeyId>): set<KeyId> {
    set id | id in ids :: Mapped(settings, id)
  }

  /** The generic modifier codes that are sent around a key. */
  function Generics(flags: nat, synthetic: Modifiers): set<KeyId> {
    (if synthetic.shift then {KeyId(VKEY_SHIFT, flags)} else {})
    + (if synthetic.ctrl then {KeyId(VKEY_CONTROL, flags)} else {})
    + (if synthetic.alt then {KeyId(VKEY_MENU, flags)} else {})
  }

  /**
   What a run leaves on the platform besides the bound codes of the marked keys: `stranded` codes that resets have left
   down, and codes that are up although they should be down, `lifted` by the modifiers sent around another key.
   */
  datatype Traces = Traces(stranded: set<KeyId>, lifted: set<KeyId>)

  const NO_TRACES := Traces({}, {})

  /** What the platform ought to hold. */
  function Expected(k: Keyboard, settings: Settings, t: Traces): set<KeyId> {
    t.stranded + Image(settings, k.pressed) - t.lifted
  }

  /** The marked keys are among `keys`, and the platform holds what their bound codes and the traces account for. */
  ghost predicate Mirrors(k: Keyboard, settings: Settings, keys: set<nat>, t: Traces) {
    && (forall id :: id in k.pressed ==> id.code in keys && id.code < 0x100)
    && PlatformDown(k.log) == Expected(k, settings, t)
  }

  /** Every packet is about one of `keys`. */
  predicate Within(steps: seq<KeyStep>, keys: set<nat>) {
    forall i :: 0 <= i < |steps| && steps[i].Packet? ==> steps[i].keyCode % 0x100 in keys
  }

  /** Every reset goes over all the keys that are marked. */
  predicate Whole(k: Keyboard, settings: Settings, steps: seq<KeyStep>)
    decreases |steps|
  {
    steps != [] ==>
      && (steps[0].ResetWorks? ==> forall id :: id in k.pressed ==> id in steps[0].order)
      && Whole(Apply(k, settings, steps[0]), settings, steps[1..])
  }

  /** Whether a reset in this state frees what the held keys hold on the platform. */
  predicate FreesHeld(k: Keyboard, settings: Settings) {
    forall id :: id in k.pressed ==> Mapped(settings, id) in k.pressed
  }

  /** Every reset comes at such a moment. */
  predicate CleanResets(k: Keyboard, settings: Settings, steps: seq<KeyStep>)
    decreases |steps|
  {
    steps != [] ==>
      && (steps[0].ResetWorks? ==> FreesHeld(k, settings))
      && CleanResets(Apply(k, settings, steps[0]), settings, steps[1..])
  }

  /** A key that is sent takes its code back; the modifiers around it go up behind it. */
  function Sent(settings: Settings, id: KeyId, release: bool, synthetic: Modifiers, t: Traces): Traces {
    var own := {Mapped(settings, id)};
    Traces(t.stranded - own, t.lifted - own + if release then {} else Generics(id.flags, synthetic))
  }

  /** What one step adds to the traces and takes from them. */
  function TracesBy(k: Keyboard, settings: Settings, s: KeyStep, t: Traces): Traces {
    match s
    case Packet(release, keyCode, flags, modifiers) =>
      var id := KeyId(keyCode % 0x100, flags);
      if Apply(k, settings, s).pressed == k.pressed then t
      else Sent(settings, id, release, Wanted(FollowAlt(k, id.code, release), settings, id.code, release, modifiers), t)
    case RepeatRuns(task) =>
      if task !in k.tasks || k.tasks[task].id !in k.pressed then t
      else Sent(settings, k.tasks[task].id, false, k.tasks[task].synthetic, t)
    case ResetCancels => t
    case ResetWorks(_) => Traces(Expected(k, settings, t) - k.pressed, {})
  }

  function TracesOf(k: Keyboard, settings: Settings, steps: seq<KeyStep>, t: Traces): Traces
    decreases |steps|
  {
    if steps == [] then t
    else TracesOf(Apply(k, settings, steps[0]), settings, steps[1..], TracesBy(k, settings, steps[0], t))
  }

  lemma OneMoreEvent(log: seq<KeyEvent>, e: KeyEvent)
    ensures PlatformDown(log + [e]) ==
      if e.down then PlatformDown(log) + {KeyId(e.code, e.id.flags)}
      else PlatformDown(log) - {KeyId(e.code, e.id.flags)}
  {
    assert (log + [e])[..|log|] == log;
  }

  /** Sending a generic modifier or not. */
  lemma OptionalEvent(log: seq<KeyEvent>, sent: bool, id: KeyId, code: nat, down: bool)
    ensures var events := if sent then [KeyEvent(Synthetic, id, code, down)] else [];
      var codes := if sent then {KeyId(code, id.flags)} else {};
      PlatformDown(log + events) == if down then PlatformDown(log) + codes else PlatformDown(log) - codes
  {
    if sent {
      OneMoreEvent(log, KeyEvent(Synthetic, id, code, down));
    } else {
      assert log + [] == log;
    }
  }

  lemma ModifiersOnPlatform(log: seq<KeyEvent>, id: KeyId, synthetic: Modifiers, down: bool)
    ensures PlatformDown(log + ModifierEvents(id, synthetic, down)) ==
      if down then PlatformDown(log) + Generics(id.flags, synthetic)
      else PlatformDown(log) - Generics(id.flags, synthetic)
  {
    hide PlatformDown;
    var one := if synthetic.shift then [KeyEvent(Synthetic, id, VKEY_SHIFT, down)] else [];
    var two := if synthetic.ctrl then [KeyEvent(Synthetic, id, VKEY_CONTROL, down)] else [];
    var three := if synthetic.alt then [KeyEvent(Synthetic, id, VKEY_MENU, down)] else [];
    OptionalEvent(log, synthetic.shift, id, VKEY_SHIFT, down);
    OptionalEvent(log + one, synthetic.ctrl, id, VKEY_CONTROL, down);
    OptionalEvent(log + one + two, synthetic.alt, id, VKEY_MENU, down);
    assert log + ModifierEvents(id, synthetic, down) == log + one + two + three;
  }

  /** A key with the modifiers around it: the key is down, the modifiers are up, whatever was down before. */
  lemma SentKeyOnPlatform(log: seq<KeyEvent>, settings: Settings, kind: Kind, id: KeyId, release: bool,
                          synthetic: Modifiers)
    ensures PlatformDown(log + SendKey(settings, kind, id, release, synthetic)) ==
      if release then PlatformDown(log) - {Mapped(settings, id)}
      else PlatformDown(log) + {Mapped(settings, id)} - Generics(id.flags, synthetic)
  {
    hide PlatformDown, Generics, ModifierEvents;
    var key := KeyEvent(kind, id, MapKeycode(settings, id.code), !release);
    if release {
      OneMoreEvent(log, key);
    } else {
      var before, behind := ModifierEvents(id, synthetic, true), ModifierEvents(id, synthetic, false);
      ModifiersOnPlatform(log, id, synthetic, true);
      OneMoreEvent(log + before, key);
      ModifiersOnPlatform(log + before + [key], id, synthetic, false);
      assert log + SendKey(settings, kind, id, release, synthetic) == log + before + [key] + behind;
    }
  }

  lemma ImageOfChange(settings: Settings, keys: set<nat>, ids: set<KeyId>, id: KeyId)
    requires DistinctOn(settings, keys) && id.code in keys && forall other :: other in ids ==> other.code in keys
    ensures Image(settings, ids + {id}) == Image(settings, ids) + {Mapped(settings, id)}
    ensures Image(settings, ids - {id}) == Image(settings, ids) - {Mapped(settings, id)}
  {
    forall other | other in ids && Mapped(settings, other) == Mapped(settings, id)
      ensures other == id
    {
      assert other.code == id.code;
    }
  }

  lemma RepeatAnewKeepsLog(k: Keyboard, settings: Settings, task: RepeatTask)
    ensures var after := RepeatAnew(k, settings, task); after.log == k.log && after.pressed == k.pressed
  {
  }

  lemma SwitchKeepsMirror(k: Keyboard, settings: Settings, keys: set<nat>, t: Traces, id: KeyId, release: bool,
                          synthetic: Modifiers)
    requires Mirrors(k, settings, keys, t) && DistinctOn(settings, keys) && id.code in keys && id.code < 0x100
    ensures Mirrors(Switch(k, settings, id, release, synthetic), settings, keys,
                    Sent(settings, id, release, synthetic, t))
  {
    hide SendKey, Image, UpdateShortcut, Mapped, RepeatAnew, DistinctOn, PlatformDown, Generics;
    RepeatAnewKeepsLog(k, settings, RepeatTask(id, synthetic));
    var after := Switch(k, settings, id, release, synthetic);
    assert after.log == k.log + SendKey(settings, Main, id, release, synthetic);
    SentKeyOnPlatform(k.log, settings, Main, id, release, synthetic);
    ImageOfChange(settings, keys, k.pressed, id);
    assert after.pressed == if release then k.pressed - {id} else k.pressed + {id};
  }

  lemma PressKeepsMirror(k: Keyboard, settings: Settings, keys: set<nat>, t: Traces, s: KeyStep)
    requires Mirrors(k, settings, keys, t) && DistinctOn(settings, keys)
    requires s.Packet? && s.keyCode % 0x100 in keys
    ensures Mirrors(Apply(k, settings, s), settings, keys, TracesBy(k, settings, s, t))
  {
    hide Wanted, Image, DistinctOn, PlatformDown, SendKey, RepeatAnew, UpdateShortcut, Sent;
    var id := KeyId(s.keyCode % 0x100, s.flags);
    var followed := FollowAlt(k, id.code, s.release);
    var synthetic := Wanted(followed, settings, id.code, s.release, s.modifiers);
    RepeatAnewKeepsLog(followed, settings, RepeatTask(id, synthetic));
    SwitchKeepsMirror(followed, settings, keys, t, id, s.release, synthetic);
  }

  lemma RepeatKeepsMirror(k: Keyboard, settings: Settings, keys: set<nat>, t: Traces, task: nat)
    requires Mirrors(k, settings, keys, t)
    ensures Mirrors(RunRepeat(k, settings, task), settings, keys, TracesBy(k, settings, RepeatRuns(task), t))
  {
    hide SendKey, Mapped, PlatformDown, Generics;
    if task in k.tasks && k.tasks[task].id in k.pressed {
      var id, synthetic := k.tasks[task].id, k.tasks[task].synthetic;
      SentKeyOnPlatform(k.log, settings, Repeat, id, false, synthetic);
      assert Mapped(settings, id) in Image(settings, k.pressed);
      assert RunRepeat(k, settings, task).log == k.log + SendKey(settings, Repeat, id, false, synthetic);
    }
  }

  lemma ResetKeepsMirror(k: Keyboard, settings: Settings, keys: set<nat>, t: Traces, order: seq<KeyId>)
    requires Mirrors(k, settings, keys, t) && forall id :: id in k.pressed ==> id in order
    ensures Mirrors(ReleaseAll(k, order), settings, keys, TracesBy(k, settings, ResetWorks(order), t))
  {
    ReleaseAllClears(k, order);
    ReleaseAllUnmarks(k, order);
    assert ReleaseAll(k, order).pressed == {};
  }

  lemma {:induction false} ReleaseAllUnmarks(k: Keyboard, order: seq<KeyId>)
    ensures ReleaseAll(k, order).pressed == set id | id in k.pressed && id !in order
    decreases |order|
  {
    if order != [] {
      if order[0] in k.pressed {
        var up := KeyEvent(Main, order[0], order[0].code % 0x100, false);
        ReleaseAllUnmarks(k.(log := k.log + [up], pressed := k.pressed - {order[0]}), order[1..]);
      } else {
        ReleaseAllUnmarks(k, order[1..]);
      }
    }
  }

  /** Over every run the platform holds the bound codes of the marked keys, but for what the traces say. */
  lemma {:induction false} RunsMirror(k: Keyboard, settings: Settings, keys: set<nat>, steps: seq<KeyStep>, t: Traces)
    requires Mirrors(k, settings, keys, t) && DistinctOn(settings, keys)
    requires Within(steps, keys) && Whole(k, settings, steps)
    ensures Mirrors(ApplyAll(k, settings, steps), settings, keys, TracesOf(k, settings, steps, t))
    decreases |steps|
  {
    if steps != [] {
      var after, left := Apply(k, settings, steps[0]), TracesBy(k, settings, steps[0], t);
      match steps[0] {
        case Packet(_, _, _, _) => PressKeepsMirror(k, settings, keys, t, steps[0]);
        case RepeatRuns(task) => RepeatKeepsMirror(k, settings, keys, t, task);
        case ResetCancels =>
        case ResetWorks(order) => ResetKeepsMirror(k, settings, keys, t, order);
      }
      hide Mirrors, Apply, TracesBy, DistinctOn;
      assert Within(steps[1..], keys);
      RunsMirror(after, settings, keys, steps[1..], left);
    }
  }

  /** Resets that come at a clean moment strand nothing. */
  lemma {:induction false} CleanResetsStrandNothing(k: Keyboard, settings: Settings, steps: seq<KeyStep>, t: Traces)
    requires CleanResets(k, settings, steps) && t.stranded == {}
    ensures TracesOf(k, settings, steps, t).stranded == {}
    decreases |steps|
  {
    if steps != [] {
      assert TracesBy(k, settings, steps[0], t).stranded == {} by {
        hide Mapped, Apply, Wanted;
      }
      CleanResetsStrandNothing(Apply(k, settings, steps[0]), settings, steps[1..], TracesBy(k, settings, steps[0], t));
    }
  }

  predicate IsGeneric(code: nat) {
    code == VKEY_SHIFT || code == VKEY_CONTROL || code == VKEY_MENU
  }

  /** None of these keys is sent as a generic modifier. */
  predicate NeverGeneric(settings: Settings, keys: set<nat>) {
    forall code | code in keys :: !IsGeneric(MapKeycode(settings, code))
  }

  /** What is lifted is a generic code, and what is stranded is none. */
  ghost predicate Apart(t: Traces) {
    && (forall id :: id in t.lifted ==> IsGeneric(id.code))
    && (forall id :: id in t.stranded ==> !IsGeneric(id.code))
  }

  lemma StepStaysApart(k: Keyboard, settings: Settings, keys: set<nat>, s: KeyStep, t: Traces)
    requires Apart(t) && NeverGeneric(settings, keys) && (s.Packet? ==> s.keyCode % 0x100 in keys)
    requires forall id :: id in k.pressed ==> id.code in keys
    ensures Apart(TracesBy(k, settings, s, t))
  {
    hide Apply, Wanted, FollowAlt, MapKeycode;
  }

  lemma StepStaysWithin(k: Keyboard, settings: Settings, keys: set<nat>, s: KeyStep)
    requires s.Packet? ==> s.keyCode % 0x100 in keys
    requires forall id :: id in k.pressed ==> id.code in keys
    ensures forall id :: id in Apply(k, settings, s).pressed ==> id.code in keys
  {
    hide Wanted, SendKey, UpdateShortcut;
    if s.ResetWorks? {
      ReleaseAllUnmarks(k, s.order);
    }
  }

  lemma {:induction false} TracesStayApart(k: Keyboard, settings: Settings, keys: set<nat>, steps: seq<KeyStep>,
                                           t: Traces)
    requires Apart(t) && NeverGeneric(settings, keys) && Within(steps, keys)
    requires forall id :: id in k.pressed ==> id.code in keys
    ensures Apart(TracesOf(k, settings, steps, t))
    ensures forall id :: id in ApplyAll(k, settings, steps).pressed ==> id.code in keys
    decreases |steps|
  {
    hide Apply, TracesBy, Apart, NeverGeneric;
    if steps != [] {
      StepStaysApart(k, settings, keys, steps[0], t);
      StepStaysWithin(k, settings, keys, steps[0]);
      assert Within(steps[1..], keys);
      TracesStayApart(Apply(k, settings, steps[0]), settings, keys, steps[1..], TracesBy(k, settings, steps[0], t));
    }
  }

  /**
   Keys go down under their bound code and `reset` lifts them under their own. After any run whose keys the bindings
   keep apart, earlier resets included, a reset frees the platform exactly when each code that it holds, bound to a held
   key or stranded by earlier resets and not lifted by a modifier sent around a key, is the code of a held key with the
   same flags. If none of the keys is sent as a generic modifier, nothing is ever lifted; and earlier resets that freed
   what was held have stranded nothing.
   */
  lemma ResetFreesThePlatformIff(settings: Settings, keys: set<nat>, steps: seq<KeyStep>, order: seq<KeyId>)
    requires DistinctOn(settings, keys) && Within(steps, keys)
    requires Whole(IDLE, settings, steps + [ResetWorks(order)])
    ensures var k, t := ApplyAll(IDLE, settings, steps), TracesOf(IDLE, settings, steps, NO_TRACES);
      && PlatformDown(k.log) == Expected(k, settings, t)
      && (PlatformDown(ReleaseAll(k, order).log) == {} <==> Expected(k, settings, t) <= k.pressed)
      && (NeverGeneric(settings, keys) ==>
            (PlatformDown(ReleaseAll(k, order).log) == {} <==> FreesHeld(k, settings) && t.stranded <= k.pressed))
      && (CleanResets(IDLE, settings, steps) ==> t.stranded == {})
  {
    WholeInTwo(IDLE, settings, steps, order);
    RunsMirror(IDLE, settings, keys, steps, NO_TRACES);
    var k, t := ApplyAll(IDLE, settings, steps), TracesOf(IDLE, settings, steps, NO_TRACES);
    ReleaseAllClears(k, order);
    hide PlatformDown, ReleaseAll, TracesOf, ApplyAll, Whole;
    if held :| held in PlatformDown(k.log) && held !in k.pressed {
      assert held in PlatformDown(k.log) - k.pressed;
    }
    if NeverGeneric(settings, keys) {
      TracesStayApart(IDLE, settings, keys, steps, NO_TRACES);
      NothingLifted(k, settings, keys, t);
    }
    if CleanResets(IDLE, settings, steps) {
      CleanResetsStrandNothing(IDLE, settings, steps, NO_TRACES);
    }
  }

  lemma NothingLifted(k: Keyboard, settings: Settings, keys: set<nat>, t: Traces)
    requires Apart(t) && NeverGeneric(settings, keys)
    requires forall id :: id in k.pressed ==> id.code in keys
    ensures Expected(k, settings, t) <= k.pressed <==> FreesHeld(k, settings) && t.stranded <= k.pressed
  {
    assert Expected(k, settings, t) == t.stranded + Image(settings, k.pressed);
    if Expected(k, settings, t) <= k.pressed {
      forall id | id in k.pressed ensures Mapped(settings, id) in k.pressed {
        assert Mapped(settings, id) in Image(settings, k.pressed);
      }
    }
  }

  lemma {:induction false} WholeInTwo(k: Keyboard, settings: Settings, steps: seq<KeyStep>, order: seq<KeyId>)
    requires Whole(k, settings, steps + [ResetWorks(order)])
    ensures Whole(k, settings, steps)
    ensures forall id :: id in ApplyAll(k, settings, steps).pressed ==> id in order
    decreases |steps|
  {
    var all := steps + [ResetWorks(order)];
    if steps != [] {
      assert all[1..] == steps[1..] + [ResetWorks(order)];
      WholeInTwo(Apply(k, settings, steps[0]), settings, steps[1..], order);
    }
  }

  /** Without any condition on the bindings: a reset lifts the codes of the held keys and nothing else. */
  lemma ResetLiftsHeldCodes(settings: Settings, steps: seq<KeyStep>, order: seq<KeyId>)
    requires Whole(IDLE, settings, steps + [ResetWorks(order)])
    ensures var k := ApplyAll(IDLE, settings, steps);
      && PlatformDown(ReleaseAll(k, order).log) == PlatformDown(k.log) - k.pressed
      && (PlatformDown(ReleaseAll(k, order).log) == {} <==> PlatformDown(k.log) <= k.pressed)
  {
    WholeInTwo(IDLE, settings, steps, order);
    CodesAreBytes(IDLE, settings, steps);
    var k := ApplyAll(IDLE, settings, steps);
    ReleaseAllClears(k, order);
    if held :| held in PlatformDown(k.log) && held !in k.pressed {
      assert held in PlatformDown(k.log) - k.pressed;
    }
  }

  lemma {:induction false} CodesAreBytes(k: Keyboard, settings: Settings, steps: seq<KeyStep>)
    requires forall id :: id in k.pressed ==> id.code < 0x100
    ensures forall id :: id in ApplyAll(k, settings, steps).pressed ==> id.code < 0x100
    decreases |steps|
  {
    if steps != [] {
      if steps[0].ResetWorks? {
        ReleaseAllUnmarks(k, steps[0].order);
      }
      CodesAreBytes(Apply(k, settings, steps[0]), settings, steps[1..]);
    }
  }

  /** The bindings the program starts with: the generic modifiers are sent as the left ones. */
  const DEFAULT_BINDINGS: map<nat, nat> :=
    map[VKEY_SHIFT := VKEY_LSHIFT, VKEY_CONTROL := VKEY_LCONTROL, VKEY_MENU := VKEY_LMENU]

  /**
   They keep the keys of a client apart unless it uses both a generic modifier and the left one, and send none as a
   generic modifier.
   */
  lemma DefaultBindingsKeepApartIff(settings: Settings, keys: set<nat>)
    requires settings.bindings == DEFAULT_BINDINGS
    ensures DistinctOn(settings, keys) <==>
      !(VKEY_SHIFT in keys && VKEY_LSHIFT in keys) && !(VKEY_CONTROL in keys && VKEY_LCONTROL in keys) &&
      !(VKEY_MENU in keys && VKEY_LMENU in keys)
    ensures NeverGeneric(settings, keys)
  {
    if DistinctOn(settings, keys) {
      assert MapKeycode(settings, VKEY_SHIFT) == MapKeycode(settings, VKEY_LSHIFT);
      assert MapKeycode(settings, VKEY_CONTROL) == MapKeycode(settings, VKEY_LCONTROL);
      assert MapKeycode(settings, VKEY_MENU) == MapKeycode(settings, VKEY_LMENU);
    }
  }

  /** The first key that is pressed, with no modifier asked for. */
  lemma FirstPress(settings: Settings, code: nat)
    requires code < 0x100 && !settings.repeats
    ensures var k := Press(IDLE, settings, false, code, 0, NO_MODIFIERS);
      && k.log == [KeyEvent(Main, KeyId(code, 0), MapKeycode(settings, code), true)]
      && k.pressed == {KeyId(code, 0)}
  {
    hide MapKeycode, UpdateShortcut, IsShortcut, IsModifier;
  }

  lemma OneDown(e: KeyEvent)
    requires e.down
    ensures PlatformDown([e]) == {KeyId(e.code, e.id.flags)}
  {
    assert [e] == [] + [e];
    OneMoreEvent([], e);
  }

  /** With the bindings the program starts with, a SHIFT that is held during a reset stays down on the platform. */
  lemma ResetCanStrandABoundKey()
    ensures var settings := Settings(false, false, DEFAULT_BINDINGS);
      var key := KeyId(VKEY_SHIFT, 0);
      var k := Press(IDLE, settings, false, VKEY_SHIFT, 0, NO_MODIFIERS);
      ReleaseAll(k, [key]).pressed == {} && PlatformDown(ReleaseAll(k, [key]).log) == {KeyId(VKEY_LSHIFT, 0)}
  {
    hide Press, PlatformDown, ReleaseAll;
    var settings := Settings(false, false, DEFAULT_BINDINGS);
    var key := KeyId(VKEY_SHIFT, 0);
    FirstPress(settings, VKEY_SHIFT);
    var k := Press(IDLE, settings, false, VKEY_SHIFT, 0, NO_MODIFIERS);
    OneDown(k.log[0]);
    assert k.log == [k.log[0]];
    ReleaseAllClears(k, [key]);
    ReleaseAllUnmarks(k, [key]);
    assert ReleaseAll(k, [key]).pressed == {};
  }

  /** A key that is bound to CONTROL, pressed with CONTROL asked for: the modifier around it lifts it at once. */
  lemma ModifierCanLiftAKey()
    ensures var settings := Settings(false, false, map[0x14 := VKEY_CONTROL]);
      var k := Press(IDLE, settings, false, 0x14, 0, Modifiers(false, true, false));
      KeyId(0x14, 0) in k.pressed && PlatformDown(k.log) == {}
  {
    var settings, ctrl := Settings(false, false, map[0x14 := VKEY_CONTROL]), Modifiers(false, true, false);
    var k := Press(IDLE, settings, false, 0x14, 0, ctrl);
    assert k.log == [] + SendKey(settings, Main, KeyId(0x14, 0), false, ctrl);
    hide Press, PlatformDown;
    SentKeyOnPlatform([], settings, Main, KeyId(0x14, 0), false, ctrl);
    NothingDown();
  }

  lemma NothingDown()
    ensures PlatformDown([]) == {}
  {
  }

  // ---------------------------------------------------------------------------------------------------
  // What a packet does
  // ---------------------------------------------------------------------------------------------------

  /** CTRL, ALT and SHIFT are held and the key is one of the shortcuts. */
  predicate TakesShortcut(k: Keyboard, code: nat) {
    k.shortcut.shift && k.shortcut.ctrl && k.shortcut.alt && (0x70 <= code <= 0x7C || code == 0x4E)
  }

  /**
   A press of a key that is up marks it and tells the platform, a release of a key that is down unmarks it and tells the
   platform; anything else is not passed on, and a shortcut is taken instead of its key.
   */
  lemma PacketIsPassedOn(k: Keyboard, settings: Settings, release: bool, keyCode: int, flags: nat, modifiers: Modifiers)
    requires Inv(k)
    ensures var id, n := KeyId(keyCode % 0x100, flags), Press(k, settings, release, keyCode, flags, modifiers);
      if (id in k.pressed) != release then n.log == k.log && n.pressed == k.pressed && n.shortcuts == k.shortcuts
      else if !release && TakesShortcut(k, id.code) then
        n.log == k.log && n.pressed == k.pressed && n.shortcuts == k.shortcuts + [id.code]
      else
        && n.pressed == (if release then k.pressed - {id} else k.pressed + {id})
        && IsDown(n.log, id) == !release && IsDown(k.log, id) == release && n.shortcuts == k.shortcuts
  {
    hide IsDown, Orderly, Wanted, SendKey, UpdateShortcut, RepeatAnew;
    var id := KeyId(keyCode % 0x100, flags);
    PressKeepsInv(k, settings, release, keyCode, flags, modifiers);
    var followed := FollowAlt(k, id.code, release);
    RepeatAnewKeepsLog(followed, settings, RepeatTask(id, Wanted(followed, settings, id.code, release, modifiers)));
    RepeatAnewKeepsRest(followed, settings, RepeatTask(id, Wanted(followed, settings, id.code, release, modifiers)));
    assert k.shortcut == Modifiers(k.shortcut.shift, k.shortcut.ctrl, k.shortcut.alt);
  }

  lemma RepeatAnewKeepsRest(k: Keyboard, settings: Settings, task: RepeatTask)
    ensures var after := RepeatAnew(k, settings, task);
      after.shortcuts == k.shortcuts && after.shortcut == k.shortcut && after.leftAlt == k.leftAlt &&
      after.rightAlt == k.rightAlt
  {
  }

  /** ALT that is asked for is not sent while right alt is held alone and stands for the meta key. */
  predicate AltIsMeta(k: Keyboard, settings: Settings) {
    settings.rightAltIsMeta && k.rightAlt && !k.leftAlt
  }

  /**
   When the key goes down, the modifiers that the packet asks for are down: the client holds them, or they have just
   been sent; and no others are sent.
   */
  lemma ModifiersAreDownAtTheKey(k: Keyboard, settings: Settings, code: nat, flags: nat, modifiers: Modifiers)
    returns (i: nat)
    requires Inv(k) && code < 0x100 && KeyId(code, flags) !in k.pressed && !TakesShortcut(k, code) && !IsModifier(code)
    ensures var n := Press(k, settings, false, code, flags, modifiers);
      && |k.log| <= i < |n.log| && n.log[..|k.log|] == k.log
      && n.log[i] == KeyEvent(Main, KeyId(code, flags),
                             if code in settings.bindings then settings.bindings[code] else code, true)
      && (modifiers.shift ==> k.shortcut.shift || KeyId(VKEY_SHIFT, flags) in PlatformDown(n.log[..i]))
      && (modifiers.ctrl ==> k.shortcut.ctrl || KeyId(VKEY_CONTROL, flags) in PlatformDown(n.log[..i]))
      && (modifiers.alt ==>
            k.shortcut.alt || AltIsMeta(k, settings) || KeyId(VKEY_MENU, flags) in PlatformDown(n.log[..i]))
      && forall j :: |k.log| <= j < |n.log| && j != i ==>
           && n.log[j].kind == Synthetic
           && (n.log[j].code == VKEY_SHIFT ==> modifiers.shift && !k.shortcut.shift)
           && (n.log[j].code == VKEY_CONTROL ==> modifiers.ctrl && !k.shortcut.ctrl)
           && (n.log[j].code == VKEY_MENU ==> modifiers.alt && !k.shortcut.alt && !AltIsMeta(k, settings))
  {
    hide Press, Wanted, ModifierEvents, PlatformDown, Inv, AltIsMeta, TakesShortcut, IsModifier;
    var id := KeyId(code, flags);
    var wanted := Wanted(k, settings, code, false, modifiers);
    WantedMeans(k, settings, code, modifiers);
    var before, behind := ModifierEvents(id, wanted, true), ModifierEvents(id, wanted, false);
    WantedAreSynthetic(id, wanted, true);
    WantedAreSynthetic(id, wanted, false);
    PressedKeyIsSent(k, settings, code, flags, modifiers);
    var n := Press(k, settings, false, code, flags, modifiers);
    i := |k.log| + |before|;
    assert n.log[..i] == k.log + before;
    ModifiersAreDown(k.log, id, wanted);
    assert forall j :: |k.log| <= j < i ==> n.log[j] == before[j - |k.log|];
    assert forall j :: i < j < |n.log| ==> n.log[j] == behind[j - i - 1];
  }

  lemma WantedMeans(k: Keyboard, settings: Settings, code: nat, modifiers: Modifiers)
    requires !IsModifier(code)
    ensures Wanted(k, settings, code, false, modifiers) ==
      Modifiers(modifiers.shift && !k.shortcut.shift, modifiers.ctrl && !k.shortcut.ctrl,
                modifiers.alt && !AltIsMeta(k, settings) && !k.shortcut.alt)
  {
  }

  lemma WantedAreSynthetic(id: KeyId, wanted: Modifiers, down: bool)
    ensures forall e <- ModifierEvents(id, wanted, down) ::
      && e.kind == Synthetic
      && (e.code == VKEY_SHIFT ==> wanted.shift)
      && (e.code == VKEY_CONTROL ==> wanted.ctrl)
      && (e.code == VKEY_MENU ==> wanted.alt)
  {
  }

  lemma ModifiersAreDown(log: seq<KeyEvent>, id: KeyId, wanted: Modifiers)
    ensures var down := PlatformDown(log + ModifierEvents(id, wanted, true));
      && (wanted.shift ==> KeyId(VKEY_SHIFT, id.flags) in down)
      && (wanted.ctrl ==> KeyId(VKEY_CONTROL, id.flags) in down)
      && (wanted.alt ==> KeyId(VKEY_MENU, id.flags) in down)
  {
    hide PlatformDown, ModifierEvents;
    ModifiersOnPlatform(log, id, wanted, true);
  }

  lemma PressedKeyIsSent(k: Keyboard, settings: Settings, code: nat, flags: nat, modifiers: Modifiers)
    requires code < 0x100 && KeyId(code, flags) !in k.pressed && !TakesShortcut(k, code) && !IsModifier(code)
    ensures var id, wanted := KeyId(code, flags), Wanted(k, settings, code, false, modifiers);
      Press(k, settings, false, code, flags, modifiers).log == k.log
        + (ModifierEvents(id, wanted, true) + [KeyEvent(Main, id, MapKeycode(settings, code), true)]
           + ModifierEvents(id, wanted, false))
  {
    hide Wanted, ModifierEvents, UpdateShortcut, RepeatAnew, MapKeycode;
    assert FollowAlt(k, code, false) == k;
    RepeatAnewKeepsLog(k, settings, RepeatTask(KeyId(code, flags), Wanted(k, settings, code, false, modifiers)));
    assert k.shortcut == Modifiers(k.shortcut.shift, k.shortcut.ctrl, k.shortcut.alt);
  }

  /** A key that goes up, and a modifier either way, is sent under the code it is bound to with nothing around it. */
  lemma SentAlone(k: Keyboard, settings: Settings, release: bool, code: nat, flags: nat, modifiers: Modifiers)
    requires code < 0x100 && (KeyId(code, flags) in k.pressed) == release
    requires release || ((0x10 <= code <= 0x12 || 0xA0 <= code <= 0xA5) && !TakesShortcut(k, code))
    ensures Press(k, settings, release, code, flags, modifiers).log == k.log +
      [KeyEvent(Main, KeyId(code, flags), if code in settings.bindings then settings.bindings[code] else code,
                !release)]
  {
    hide UpdateShortcut, RepeatAnew;
    var followed := FollowAlt(k, code, release);
    var synthetic := Wanted(followed, settings, code, release, modifiers);
    RepeatAnewKeepsLog(followed, settings, RepeatTask(KeyId(code, flags), synthetic));
    assert release || synthetic == NO_MODIFIERS;
  }

  /** A repeat of a held key is sent, and the next one scheduled just like it; a key that is up is not repeated. */
  lemma HeldKeyKeepsRepeating(k: Keyboard, settings: Settings, t: nat)
    requires Inv(k) && t in k.tasks
    ensures var n, id := RunRepeat(k, settings, t), k.tasks[t].id;
      if id in k.pressed then
        && (exists i :: |k.log| <= i < |n.log| &&
                        n.log[i] == KeyEvent(Repeat, id, MapKeycode(settings, id.code), true))
        && n.tasks == map[k.nextTask := k.tasks[t]] && n.repeatId == Some(k.nextTask)
      else n.log == k.log && n.tasks == map[] && n.repeatId == None
  {
    var task := k.tasks[t];
    var before := ModifierEvents(task.id, task.synthetic, true);
    var n := RunRepeat(k, settings, t);
    assert k.tasks - {t} == map[];
    if task.id in k.pressed {
      hide ModifierEvents;
      assert n.log[|k.log| + |before|] == KeyEvent(Repeat, task.id, MapKeycode(settings, task.id.code), true);
    }
  }

  /** A key that goes down is the one that repeats from then on, if keys repeat at all. */
  lemma PressedKeyRepeats(k: Keyboard, settings: Settings, code: nat, flags: nat, modifiers: Modifiers)
    requires Inv(k) && code < 0x100 && KeyId(code, flags) !in k.pressed && !TakesShortcut(k, code)
    ensures var n := Press(k, settings, false, code, flags, modifiers);
      if settings.repeats then
        exists t, synthetic :: n.tasks == map[t := RepeatTask(KeyId(code, flags), synthetic)] && n.repeatId == Some(t)
      else n.tasks == map[]
  {
    hide SendKey, UpdateShortcut, Wanted;
    var followed := FollowAlt(k, code, false);
    assert StopRepeating(followed).tasks == map[];
    var synthetic := Wanted(followed, settings, code, false, modifiers);
    var n := Press(k, settings, false, code, flags, modifiers);
    if settings.repeats {
      assert n.tasks == map[k.nextTask := RepeatTask(KeyId(code, flags), synthetic)];
    }
  }

  // ---------------------------------------------------------------------------------------------------
  // The modifiers that the client holds
  // ---------------------------------------------------------------------------------------------------

  datatype ModifierKind = ShiftKind | ControlKind | MenuKind

  predicate OfKind(code: nat, m: ModifierKind) {
    match m
    case ShiftKind => code == 0x10 || code == 0xA0 || code == 0xA1
    case ControlKind => code == 0x11 || code == 0xA2 || code == 0xA3
    case MenuKind => code == 0x12 || code == 0xA4 || code == 0xA5
  }

  /** Whether the last key of this kind that was sent for itself went down. */
  predicate LastWentDown(log: seq<KeyEvent>, m: ModifierKind) {
    log != [] &&
    var last := log[|log| - 1];
    if last.kind == Main && OfKind(last.code, m) then last.down else LastWentDown(log[..|log| - 1], m)
  }

  predicate FlagOf(flags: Modifiers, m: ModifierKind) {
    match m
    case ShiftKind => flags.shift
    case ControlKind => flags.ctrl
    case MenuKind => flags.alt
  }

  lemma {:induction false} OthersDoNotCount(log: seq<KeyEvent>, events: seq<KeyEvent>, m: ModifierKind)
    requires forall i :: 0 <= i < |events| ==> events[i].kind != Main
    ensures LastWentDown(log + events, m) == LastWentDown(log, m)
    decreases |events|
  {
    if events == [] {
      assert log + events == log;
    } else {
      var most := events[..|events| - 1];
      OthersDoNotCount(log, most, m);
      assert (log + events)[..|log + events| - 1] == log + most;
    }
  }

  lemma KeyCounts(log: seq<KeyEvent>, key: KeyEvent, m: ModifierKind)
    ensures LastWentDown(log + [key], m) ==
      if key.kind == Main && OfKind(key.code, m) then key.down else LastWentDown(log, m)
  {
    assert (log + [key])[..|log|] == log;
  }

  lemma SentKeyCounts(log: seq<KeyEvent>, settings: Settings, kind: Kind, id: KeyId, release: bool,
                      synthetic: Modifiers, m: ModifierKind)
    ensures LastWentDown(log + SendKey(settings, kind, id, release, synthetic), m) ==
      if kind == Main && OfKind(MapKeycode(settings, id.code), m) then !release else LastWentDown(log, m)
  {
    hide MapKeycode, OfKind, LastWentDown, ModifierEvents;
    var key := KeyEvent(kind, id, MapKeycode(settings, id.code), !release);
    KeyCounts(log, key, m);
    if !release {
      var before, behind := ModifierEvents(id, synthetic, true), ModifierEvents(id, synthetic, false);
      WantedAreSynthetic(id, synthetic, true);
      WantedAreSynthetic(id, synthetic, false);
      OthersDoNotCount(log, before, m);
      KeyCounts(log + before, key, m);
      OthersDoNotCount(log + before + [key], behind, m);
      assert log + SendKey(settings, kind, id, release, synthetic) == log + before + [key] + behind;
    }
  }

  lemma StepFollowsModifiers(k: Keyboard, settings: Settings, s: KeyStep, m: ModifierKind)
    requires FlagOf(k.shortcut, m) == LastWentDown(k.log, m) && !s.ResetWorks?
    ensures var n := Apply(k, settings, s); FlagOf(n.shortcut, m) == LastWentDown(n.log, m)
  {
    hide Press, SendKey, LastWentDown;
    match s
    case Packet(release, keyCode, flags, modifiers) =>
      PressFollowsModifiers(k, settings, release, keyCode, flags, modifiers, m);
    case RepeatRuns(t) =>
      if t in k.tasks {
        SentKeyCounts(k.log, settings, Repeat, k.tasks[t].id, false, k.tasks[t].synthetic, m);
      }
    case ResetCancels =>
  }

  lemma PressFollowsModifiers(k: Keyboard, settings: Settings, release: bool, keyCode: int, flags: nat,
                              modifiers: Modifiers, m: ModifierKind)
    requires FlagOf(k.shortcut, m) == LastWentDown(k.log, m)
    ensures var n := Press(k, settings, release, keyCode, flags, modifiers);
      FlagOf(n.shortcut, m) == LastWentDown(n.log, m)
  {
    hide SendKey, LastWentDown, Wanted, MapKeycode, RepeatAnew;
    var id := KeyId(keyCode % 0x100, flags);
    var followed := FollowAlt(k, id.code, release);
    var synthetic := Wanted(followed, settings, id.code, release, modifiers);
    RepeatAnewKeepsLog(followed, settings, RepeatTask(id, synthetic));
    RepeatAnewKeepsRest(followed, settings, RepeatTask(id, synthetic));
    SentKeyCounts(k.log, settings, Main, id, release, synthetic, m);
  }

  /** Between resets a modifier counts as held by the client exactly if the last key of its kind went down. */
  lemma {:induction false} ModifiersFollowTheKeys(k: Keyboard, settings: Settings, steps: seq<KeyStep>, m: ModifierKind)
    requires FlagOf(k.shortcut, m) == LastWentDown(k.log, m)
    requires forall i :: 0 <= i < |steps| ==> !steps[i].ResetWorks?
    ensures var n := ApplyAll(k, settings, steps); FlagOf(n.shortcut, m) == LastWentDown(n.log, m)
    decreases |steps|
  {
    hide Apply, LastWentDown;
    if steps != [] {
      StepFollowsModifiers(k, settings, steps[0], m);
      ModifiersFollowTheKeys(Apply(k, settings, steps[0]), settings, steps[1..], m);
    }
  }

  /** A packet about left or right alt says whether it is held, whatever else becomes of it; no other packet does. */
  lemma AltsFollowThePackets(k: Keyboard, settings: Settings, release: bool, keyCode: int, flags: nat,
                             modifiers: Modifiers)
    ensures var n := Press(k, settings, release, keyCode, flags, modifiers);
      && n.leftAlt == (if keyCode % 0x100 == 0xA4 then !release else k.leftAlt)
      && n.rightAlt == (if keyCode % 0x100 == 0xA5 then !release else k.rightAlt)
  {
    hide SendKey, Wanted, UpdateShortcut;
  }

  // ---------------------------------------------------------------------------------------------------
  // The object the handlers update
  // ---------------------------------------------------------------------------------------------------

  class KeyboardObject {
    var keyPress: map<KeyId, bool>
    var shortcutFlags: Modifiers
    var leftAltPressed: bool
    var rightAltPressed: bool
    var keyPressRepeatId: Option<nat>
    var tasks: map<nat, RepeatTask>
    var nextTask: nat
    var log: seq<KeyEvent>
    var shortcuts: seq<nat>

    function View(): Keyboard
      reads this
    {
      Keyboard((set id | id in keyPress && keyPress[id]), shortcutFlags, leftAltPressed, rightAltPressed,
               keyPressRepeatId, tasks, nextTask, log, shortcuts)
    }

    constructor ()
      ensures View() == IDLE
    {
      keyPress, shortcutFlags, leftAltPressed, rightAltPressed := map[], NO_MODIFIERS, false, false;
      keyPressRepeatId, tasks, nextTask, log, shortcuts := None, map[], 0, [], [];
    }

    method SendKeyAndModifiers(settings: Settings, kind: Kind, id: KeyId, release: bool, synthetic: Modifiers)
      modifies this`log
      ensures log == old(log) + SendKey(settings, kind, id, release, synthetic)
    {
      if !release {
        log := log + ModifierEvents(id, synthetic, true);
      }
      log := log + [KeyEvent(kind, id, MapKeycode(settings, id.code), !release)];
      if !release {
        log := log + ModifierEvents(id, synthetic, false);
      }
    }

    method PushRepeat(task: RepeatTask)
      modifies this`keyPressRepeatId, this`tasks, this`nextTask
      ensures View() == StartRepeating(old(View()), task)
    {
      tasks := tasks[nextTask := task];
      keyPressRepeatId := Some(nextTask);
      nextTask := nextTask + 1;
    }

    /** A mark changes; `operator[]` of the map also creates missing marks. */
    method Mark(id: KeyId, down: bool)
      modifies this`keyPress
      ensures View() == old(View()).(pressed := if down then old(View()).pressed + {id} else old(View()).pressed - {id})
    {
      keyPress := keyPress[id := down];
    }

    /** A new key takes over the repeat task. */
    method TakeOverRepeat(settings: Settings, task: RepeatTask)
      modifies this`keyPressRepeatId, this`tasks, this`nextTask
      ensures View() == RepeatAnew(old(View()), settings, task)
    {
      if keyPressRepeatId.Some? {
        tasks := tasks - {keyPressRepeatId.value};
      }
      assert View() == StopRepeating(old(View()));
      if settings.repeats {
        PushRepeat(task);
      }
    }

    method TrackAlt(code: nat, release: bool)
      modifies this`leftAltPressed, this`rightAltPressed
      ensures View() == FollowAlt(old(View()), code, release)
    {
      if code == VKEY_LMENU {
        leftAltPressed := !release;
      } else if code == VKEY_RMENU {
        rightAltPressed := !release;
      }
    }

    method Passthrough(settings: Settings, release: bool, keyCode: int, flags: nat, modifiers: Modifiers)
      modifies this
      ensures View() == Press(old(View()), settings, release, keyCode, flags, modifiers)
    {
      var code := keyCode % 0x100;
      TrackAlt(code, release);
      var synthetic := Wanted(View(), settings, code, release, modifiers);
      var id := KeyId(code, flags);
      var pressed := id in keyPress && keyPress[id];
      assert pressed <==> id in View().pressed;
      if pressed != release {
        return;
      }
      if !pressed {
        if shortcutFlags == Modifiers(true, true, true) && IsShortcut(code) {
          shortcuts := shortcuts + [code];
          return;
        }
        TakeOverRepeat(settings, RepeatTask(id, synthetic));
      }
      label ready:
      Mark(id, !release);
      SendKeyAndModifiers(settings, Main, id, release, synthetic);
      shortcutFlags := UpdateShortcut(shortcutFlags, MapKeycode(settings, code), release);
      assert View() == old@ready(View()).(pressed := View().pressed, log := log, shortcut := shortcutFlags);
    }

    method RepeatKey(settings: Settings, t: nat)
      modifies this
      ensures View() == RunRepeat(old(View()), settings, t)
    {
      if t !in tasks {
        return;
      }
      var task := tasks[t];
      tasks := tasks - {t};
      if !(task.id in keyPress && keyPress[task.id]) {
        keyPressRepeatId := None;
        return;
      }
      SendKeyAndModifiers(settings, Repeat, task.id, false, task.synthetic);
      PushRepeat(task);
    }

    /** The key half of the task that `reset` pushes; `order` is the order in which the map yields its entries. */
    method Reset(order: seq<KeyId>)
      modifies this
      ensures View() == ReleaseAll(old(View()), order)
    {
      var i := 0;
      while i < |order|
        invariant 0 <= i <= |order|
        invariant ReleaseAll(View(), order[i..]) == ReleaseAll(old(View()), order)
      {
        var id := order[i];
        assert order[i..][0] == id && order[i..][1..] == order[i + 1..];
        if id in keyPress && keyPress[id] {
          log := log + [KeyEvent(Main, id, id.code % 0x100, false)];
          Mark(id, false);
        }
        i := i + 1;
      }
    }
  }
}
