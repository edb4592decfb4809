# Verified model of the streaming host

This project models the state machines at the heart of a game-streaming host in Dafny and proves what they promise. It
follows the program file by file:

- **Input** (`src/input.cpp`). A control-stream thread queues raw packets; one drain on a shared worker pops them, merges
  what it may and feeds the devices. `Packets` says what may be merged, `InputQueue` is the queue with its locked
  sections and the drain that yields after 64 messages, `HostMachine` is everything the packets do to the host,
  `Batching` proves that merging does not show, `Replay` says what holds when the worker runs other tasks as well, and
  `Devices` that every device gets what was sent to it.
  The devices with a life of their own have modules of their own: `Gamepad` (HOME emulated by holding BACK), `Keys`
  (press de-duplication, repeat task, modifiers), `MouseButtons` (delayed left release), `ScrollWheel` (tick
  accumulator).
- **Configuration** (`src/config.cpp`, `src/confighttp.cpp`). `ConfigText` has the parser and the printer,
  `ConfigRoundTrip` and `ConfigLines` what they are to each other and to the layout of a file.
- **Applications** (`src/process.cpp`). `Process` is the do/undo stack and the encoder override, `Expansion` the `$`
  language.
- **Pairing** (`src/nvhttp.cpp`). `Pairing` has the four phases, the map of sessions and an honest client.
- **Small controllers.** `LatencyStats` (lock-free accumulator), `RateLimit` (failed logins), `AdaptiveBitrate`.

Each module first gives the state as a datatype and every operation as a function of the old state; the theorems are
about these functions and about all runs of them. Where the program updates objects in place the module ends with a class
whose fields are the program's, and whose methods are proved to take the abstract value (`View()`) to exactly what the
function says.

Clocks, random bytes, answers of the platform, spurious failures of compare-exchange and the order of an unordered map
are parameters. Delayed tasks are a bag from which any task may run at any time.

## What turned out differently

- Merging controller packets can be seen when gamepad ids are short. `Batching.BatchingIsInvisibleIff` gives the exact
  condition: as many free ids as there are pads that may want one, or no id to give at all, or controllers off.
- Scroll packets merged and unmerged may differ by one tick, never by more (`Batching.DrainedWheelsWithinOneTick`), and
  `Batching.BatchingIsExactIff` says when they do not differ at all.
- `reset` lifts keys under their own code although they went down under their bound one; with the bindings the program
  starts with a held SHIFT stays down (`Keys.ResetFreesThePlatformIff`, `Keys.ResetCanStrandABoundKey`). It also cancels
  a delayed release of the left button (`MouseButtons.LeftIsStrandedIff`).
- The modifiers that are sent around a key go up behind it even if a held key is bound to one of them, and so lift that
  key (`Keys.ModifierCanLiftAKey`).
- `running` answers the id of the application, so one with the id 0 looks stopped (`Process.IdZeroLooksStopped`).
- A configuration is read back as saved exactly when each name and value fits the grammar
  (`ConfigRoundTrip.RoundTripIff`); others are written all the same, and come back as something else.
- A pairing request that restarts a session keeps the certificate of the session it restarts, so a client that comes
  back with a new certificate is not paired under it (`Pairing.HonestClientIsPairedIff`,
  `Pairing.ReturningClientIsNotPaired`).
- `src/latency_stats.h` says that the sentinels never leak out of a snapshot. They do while a sample is counted but no
  collector has left its loop (`LatencyStats.SentinelLeaksIff`).
- The comment on the login limiter speaks of a token bucket, ten failures in 30 seconds and no entry on success. It is a
  fixed window that opens with the first check, successful or not, so twenty failures can fall within a nanosecond
  (`RateLimit.TwentyAreReached`), and checks that run side by side all pass (`RateLimit.ConcurrentChecksAllPass`).
- Pruning expired buckets is visible as soon as the clock advances between the two readings of a call, because a new
  bucket starts at the second and a restarted one at the first (`RateLimit.PruningIsInvisibleIff`).
- The comments of the bitrate controller speak of twice the average round-trip time. Since the average already holds the
  sample, it is 3.5 times the average before (`AdaptiveBitrate.SpikeIff`); and in exact arithmetic one lost packet makes
  every later network sample count as congestion (`AdaptiveBitrate.OneLossCongestsForever`), which puts an end to all
  recovery while such samples keep coming (`AdaptiveBitrate.OneLossEndsRecovery`).

## Model

| member | source | states |
|---|---|---|
| `Packets.FencesStopBatching` | src/input.cpp:1543-1573 | buttons, keys, text, arrivals, battery reports and touches that go down or up are neither merged nor passed over |
| `Batching.Overwrite` | src/input.cpp:1385-1541 | handling a packet and then the one that supersedes it equals handling the later one alone, on every host state |
| `Batching.Absorb` | src/input.cpp:1305-1541 | a packet made of two does what the two did one after the other, up to the unfinished tick of a wheel, and to the last tick if wheels do not count in ticks |
| `Batching.Commute` | src/input.cpp:1385-1541 | a packet that a search passes over may come before or after the packet searched for, per device, once that packet has nothing to allocate |
| `Batching.CollectPreserves` | src/input.cpp:1600-1622 | one search through the queue, on every valid host with enough ids: the merged packet followed by what is left does what the whole queue does, up to unfinished ticks, and to the last tick if wheels do not count in ticks |
| `Batching.BatchingIsInvisible` | src/input.cpp:1305-1674 | draining a queue with batching and delivering every packet on its own end in the same host: pointer, clicks with the pointer they saw, keys, texts, touches with what each found and every turn of a pointer between hovering and moving, pens, pads with their pending tasks, sensors, batteries, ids; wheels up to unfinished ticks, and to the last tick if they do not count in ticks |
| `Batching.BatchingIsInvisibleIff` | src/input.cpp:1305-1674 | up to unfinished ticks that holds for all queues exactly when gamepad ids suffice, which can be read off the host beforehand |
| `Batching.BatchingIsExactIff` | src/input.cpp:1305-1674 | it holds for all queues and down to the last tick exactly when ids suffice and scrolling has high resolution or the mouse is off |
| `Batching.DrainedWheelsWithinOneTick` | src/input.cpp:838-877 | on every host and for every queue, what a wheel has emitted after a drain differs by at most one tick from what it emits when every packet is delivered on its own |
| `Batching.MergingSwallowsATick` | src/input.cpp:1346-1377 | from any state of a wheel that counts in ticks, two packets that emit a tick one by one and none when merged |
| `Batching.ShortageShows` | src/input.cpp:1385-1405 | from any host where ids do not suffice, a queue whose merged and unmerged delivery differ |
| `Batching.MergingLosesAPad` | src/input.cpp:1152-1191 | with no id free, [n, m leaves, n] gives n the id of m; merged, n gets none |
| `Batching.IdleHostHasIds` | src/input.cpp:59-78 | a client on an idle host with no more pads than there are ids never lacks one |
| `Batching.FencesKeepTheirPlace` | src/input.cpp:1543-1622 | everything before a fence is sent before it, everything after is sent after it, and the fence is sent as it came |
| `Batching.LatestIsSent` | src/input.cpp:1385-1541 | of packets that refresh one another in a row, a drain sends the last alone |
| `Batching.MovesBecomeOne` | src/input.cpp:1305-1377 | relative moves in a row whose sums fit 16 bits are sent as one packet with those sums |
| `Batching.OverflowStops` | src/input.cpp:1305-1321 | two moves whose sum does not fit 16 bits are sent as they are, so no movement is lost |
| `Batching.SearchReachesAcross` | src/input.cpp:1385-1541 | a packet is replaced by a later one that supersedes it across any packets about other pads, pointers or sensors, which stay in order behind it |
| `HostMachine.AllocId` | src/input.cpp:61-72 | the lowest clear bit is found and set and no other bit changes; -1 and no change exactly when all are set |
| `HostMachine.StepKeepsIds` | src/input.cpp:893-1291 | no packet makes two pads share an id, or turns enough ids into too few |
| `HostMachine.RunLeaksNoId` | src/input.cpp:59-130 | over every run the ids taken are those of the other clients, unchanged, and exactly those that pads of this client hold |
| `HostMachine.AllocateCounts` | src/input.cpp:896-930 | an allocation either changes nothing or takes one free id for one pad that wanted one; it fails only for want of ids or by refusal |
| `HostMachine.ReleaseCounts` | src/input.cpp:119-130 | a pad that leaves gives its id back |
| `HostMachine.RunSettled` | src/input.cpp:838-877 | forgetting the unfinished tick of a wheel commutes with every run |
| `InputQueue.InputContext.Enqueue` | src/input.cpp:1686-1700 | the message goes to the back; a drain is announced exactly if none was pending, and then one is |
| `InputQueue.InputContext.PopBatched` | src/input.cpp:1588-1622 | erasing in place gives the merged packet and the queue that the search on values gives; an empty queue puts the flag down |
| `InputQueue.InputContext.PassthroughQueuedMessages` | src/input.cpp:1579-1679 | a burst of at most 64: delivering what is left in the queue afterwards takes the host where delivering the whole queue would have; if it does not ask to run again, the host is there already, the queue is empty and, with enough ids, the host is up to unfinished ticks where every packet on its own leads |
| `InputQueue.BurstIsDelivered` | src/input.cpp:1579-1679 | what a burst sends and what the queue it leaves will send make up what the whole queue sends; it sends as many as it may, or leaves nothing |
| `InputQueue.NeverTwoDrains` | src/input.cpp:1579-1700 | on every host and under every interleaving of producers' locked sections, task pushes, locked pops, deliveries and other tasks at most one drain is announced, scheduled or running, exactly one while the flag is set, and a non-empty queue has it set |
| `InputQueue.TurnsAreForced` | src/input.cpp:1579-1700 | besides new arrivals and other tasks the system has exactly one step it can take |
| `InputQueue.TurnsRunOut` | src/input.cpp:1579-1700 | each such step brings the drain closer to its end |
| `InputQueue.EveryQueueIsEmptied` | src/input.cpp:1579-1700 | from every reachable state of any host those steps empty the queue and put the flag down, and no drain is left |
| `InputQueue.EveryMessageIsDelivered` | src/input.cpp:1579-1700 | with enough ids and nothing but drains on the worker they leave the host where delivering all arrived messages unmerged in order would |
| `Replay.EveryRunIsAReplay` | src/input.cpp:1579-1700 | on every host, with delayed tasks and resets running between bursts: the host ends where delivering every packet on its own leads, each exactly once, with the same tasks in between, in an order that only ever takes a packet past others that a search may pass over |
| `Replay.AbsorbedIsPulled` | src/input.cpp:1606-1621 | a search takes what it merges past the packets it has skipped, and leaves the rest in order |
| `Replay.AbsorbedDo` | src/input.cpp:1606-1621 | sending the merged packet does what the packets merged into it do one by one, on every host |
| `Devices.KeyboardGetsItsPackets` | src/input.cpp:765-836 | over every run the keyboard sees exactly the key packets, in order |
| `Devices.MouseGetsItsPackets` | src/input.cpp:454-660 | over every run the mouse sees exactly the moves and button packets, in order |
| `Devices.PointerIsWhereItWasSent` | src/input.cpp:454-599 | the pointer is at the last absolute position that has a size, moved by the sum of the relative moves since |
| `Devices.ButtonSeesThePointer` | src/input.cpp:601-660 | a button packet is passed on with the pointer where it then is |
| `Devices.WheelsGetTheirPackets` | src/input.cpp:838-877 | what each wheel has emitted and has left over is what was sent to it; at high resolution everything is emitted |
| `Devices.TextsAreTyped` | src/input.cpp:879-891 | the texts typed are those sent, in order |
| `Devices.PointersHoldTheirLatest` | src/input.cpp:958-1007 | every touch pointer holds what its own last packet said, whatever other pointers did since |
| `Devices.TouchEventsAreInOrder` | src/input.cpp:958-1007 | touches that go down or up are passed on in order, each with the contacts it found |
| `Devices.PenHoldsItsLatest` | src/input.cpp:1009-1060 | the pen holds what its last packet said |
| `Devices.PadGetsItsPackets` | src/input.cpp:1152-1291 | a controller packet plugs its pad in if it is active, there is an id and the platform agrees, unplugs it if it is not active any more, and otherwise reports; nothing else |
| `Devices.PadHoldsItsLatest` | src/input.cpp:1062-1150 | sensors, touch pad and battery of a pad keep what was said about them last |
| `Devices.OffMeansOff` | src/input.cpp:454-1160 | a device that the settings switch off sees nothing over any run |
| `Gamepad.EarlierReportIsInvisible` | src/input.cpp:1192-1290 | of two packets with the same buttons the first leaves no trace in pad, generation, pending tasks or report, from every prior state |
| `Gamepad.ApplyKeepsInv` | src/input.cpp:1153-1291 | every packet, removal, allocation and task run keeps the invariant that ties HOME, generation and pending tasks together |
| `Gamepad.HomeNeverSticks` | src/input.cpp:1178-1288 | in every reachable state a held HOME has exactly one pending task of the current generation |
| `Gamepad.HomeOnlyForHeldBack` | src/input.cpp:1229-1283 | a pending task of the current generation while HOME is up is a press task and BACK is stored as down; HOME that is not emulated is the client's |
| `Gamepad.ReportedIsTheClients` | src/input.cpp:1192-1291 | over every run, what the platform was told last about an allocated pad is the last packet of the client: its axes and its other buttons, BACK unless the emulation forces it up, HOME only if the client holds it or it is emulated, and always while it is |
| `Gamepad.PacketIsReported` | src/input.cpp:1192-1291 | while BACK is not forced a packet is reported at once as it is, with HOME added while it is emulated |
| `Gamepad.HoldingBackIsHome` | src/input.cpp:1229-1283 | from end to end: BACK goes down, and when the task runs the platform sees BACK up and then HOME down, and when the next one runs HOME up, all else as before |
| `Gamepad.ReleasingBackInTime` | src/input.cpp:1276-1282 | BACK that goes up in time leaves no current task, so HOME is not touched |
| `Gamepad.TwoTasksClearHome` | src/input.cpp:1232-1283 | without further packets the current task, or that task and the release it schedules, clears HOME in what was reported |
| `Gamepad.EveryScheduleEnds` | src/input.cpp:1229-1283 | in whatever order the pool runs the tasks, it runs out of them within a bound, and then no HOME is reported that the client does not hold |
| `Gamepad.StaleTasksDoNothing` | src/input.cpp:1233-1240 | a task of an older generation never changes the pad, over any run |
| `Gamepad.RemovalAndPressOutdateTasks` | src/input.cpp:1178-1230 | a removal and a new press of BACK make all earlier tasks stale |
| `Gamepad.GamepadObject.Passthrough` | src/input.cpp:1192-1291 | the handler updating the pad's fields in place does what the machine's report step does |
| `Gamepad.GamepadObject.Run` | src/input.cpp:1229-1283 | the two delayed closures do what the machine's task step does |
| `Gamepad.GamepadObject.Remove` | src/input.cpp:119-135 | a removal frees the pad and drops its current task |
| `Keys.KeysAlternate` | src/input.cpp:723-831 | over any run, resets included, presses and releases of each key alternate, repeats come only while it is down, the marks say which keys are down, at most one repeat is pending |
| `Keys.SentKeyCountsOnce` | src/input.cpp:723-751 | a key sent between its synthetic modifiers is one event of that key and none of any other |
| `Keys.PacketIsPassedOn` | src/input.cpp:765-831 | a press of a key that is up marks it and puts it down, a release of one that is down does the opposite, a repeated press or release does nothing, and CTRL+ALT+SHIFT with F1 to F13 or N is taken as a shortcut instead |
| `Keys.ModifiersAreDownAtTheKey` | src/input.cpp:768-804 | when a key goes down every modifier that its packet asks for is held by the client or has just been sent, except ALT while right alt stands for meta, and no other is sent |
| `Keys.SentAlone` | src/input.cpp:723-751 | a release, and a press of a modifier, is sent under the bound code with nothing around it |
| `Keys.HeldKeyKeepsRepeating` | src/input.cpp:753-763 | the repeat task of a held key sends it once more and schedules its successor; that of a key that is up does neither |
| `Keys.PressedKeyRepeats` | src/input.cpp:806-820 | the key that went down last is the one that repeats, and none if keys do not repeat |
| `Keys.ModifiersFollowTheKeys` | src/input.cpp:674-721 | between resets a modifier counts as held exactly if the last key of its kind that was sent went down, under its bound code |
| `Keys.AltsFollowThePackets` | src/input.cpp:765-777 | every packet about left or right alt, passed on or not, says whether it counts as held, and no other packet does |
| `Keys.ReleaseAllClears` | src/input.cpp:1714-1725 | a reset lifts on the platform the codes that are marked, in whatever order the map gives them |
| `Keys.RunsMirror` | src/input.cpp:723-831 | for keys that the bindings keep apart, over every run with resets and repeats, and counting every call to the platform: it holds the bound codes of the marked keys and what resets have stranded, less what a modifier sent around a key has lifted |
| `Keys.SentKeyOnPlatform` | src/input.cpp:723-751 | a key sent with modifiers around it is down behind them and they are up, whatever was down before |
| `Keys.ResetFreesThePlatformIff` | src/input.cpp:1702-1725 | for keys that the bindings keep apart, after any run, earlier resets included: a reset leaves no key down exactly when every code that the platform holds, bound to a held key or stranded by earlier resets and not lifted since, is the code of a held key with the same flags; if no key is sent as a generic modifier nothing is ever lifted, and resets that met the condition have stranded nothing |
| `Keys.ResetLiftsHeldCodes` | src/input.cpp:1714-1725 | for all bindings and all runs: a reset lifts the codes of the held keys and nothing else |
| `Keys.DefaultBindingsKeepApartIff` | src/config.cpp:662-667 | the bindings the program starts with keep keys apart exactly if no generic modifier is used along with the left one, and send no key as a generic modifier |
| `Keys.ResetCanStrandABoundKey` | src/config.cpp:662-667 | with those bindings a SHIFT held during a reset stays down on the platform |
| `Keys.ModifierCanLiftAKey` | src/input.cpp:723-751 | a key bound to CONTROL and pressed with CONTROL asked for is marked but up: the modifier sent around it lifts it |
| `Keys.KeyboardObject.Passthrough` | src/input.cpp:765-836 | the handler on the shared map, flags and repeat id does what the press step does |
| `Keys.KeyboardObject.RepeatKey` | src/input.cpp:753-763 | the repeat task sends and reschedules only while the key is marked |
| `Keys.KeyboardObject.Reset` | src/input.cpp:1714-1725 | the loop over the pressed keys releases each once and clears its mark |
| `MouseButtons.ButtonsFollowTheirMarks` | src/input.cpp:601-660 | over every run, resets included: events of every other tracked button alternate and the platform holds exactly the marked ones; a marked left button is down, and an unmarked one only while a release is pending or a reset has stranded it |
| `MouseButtons.LeftIsStrandedIff` | src/input.cpp:1702-1706 | over every run, resets included: the left button is down, unmarked and with nothing to lift it exactly if some reset has cancelled the only release due and the button has not been pressed since |
| `MouseButtons.MarksFollowTheClicks` | src/input.cpp:601-660 | over every run a tracked button but the right one is marked exactly if it was pressed last and no reset came since |
| `MouseButtons.UntrackedArePassedOn` | src/input.cpp:601-660 | over every run the clicks of the other buttons reach the platform, all and in order |
| `MouseButtons.MovesDecideTheDelay` | src/input.cpp:454-660 | a left release goes out at once after a relative move, and after an absolute one only when its task runs, if the button has not been pressed again |
| `MouseButtons.ResetCanStrandLeft` | src/input.cpp:1702-1713 | click and reset within the delay leave the left button down with nothing to release it |
| `MouseButtons.RightClickOvertakesLeftRelease` | src/input.cpp:625-655 | while a left release waits, a right press is a whole click that the platform sees before it |
| `MouseButtons.ResetReleasesKeepsInv` | src/input.cpp:1708-1713 | the loop of a reset clears every mark, keeps the invariant, and neither strands the left button nor helps it |
| `MouseButtons.MouseObject.Passthrough` | src/input.cpp:601-660 | the handler on the array of marks does what the click step does |
| `MouseButtons.MouseObject.RunDelayedRelease` | src/input.cpp:630-643 | the delayed closure gives way to a left button that is pressed again, else lifts it |
| `MouseButtons.MouseObject.Reset` | src/input.cpp:1708-1713 | the loop over the array does what the recursive release does |
| `ScrollWheel.ScrollIsConserved` | src/input.cpp:838-877 | at every step emitted plus remainder is what was received, emitted is a multiple of 120, the remainder is less than a tick |
| `ScrollWheel.BatchingsDifferByOneTick` | src/input.cpp:838-877 | any two lists of amounts with the same total have emitted the same up to one tick |
| `ScrollWheel.BatchingCanSwallowATick` | src/input.cpp:838-877 | forwards past a tick and back emits a tick, the merged packet does not |
| `ScrollWheel.WheelObject.Passthrough` | src/input.cpp:838-859 | the handler with its truncating division does what the wheel step does |
| `ConfigText.ReadString` | src/config.cpp:741-754 | the loop that drops comments gives the string of the recursive definition |
| `ConfigRoundTrip.CommentIsDropped` | src/config.cpp:741-754 | a comment goes, its line end stays |
| `ConfigText.ScanList` | src/config.cpp:756-771 | the loop over the bracket counter ends where the recursive search does |
| `ConfigText.SkipListStops` | src/config.cpp:756-771 | counting brackets: the search stops at the first position up to which as many were closed as were open and have been opened, or at the end of the text |
| `ConfigText.ReadConfig` | src/config.cpp:814-837 | the loop ends on every text, its position strictly advancing, with the settings of the recursive definition |
| `ConfigText.SaveConfig` | src/confighttp.cpp:1445-1485 | the stream holds the printed settings, strings as they are and other values as the library dumps them, without null and empty ones; without any it is refused, and a failing write is reported |
| `ConfigRoundTrip.PrintableIsRead` | src/config.cpp:773-812 | a setting with a good name and value, printed anywhere in a text, is read back as it is, multi-line lists included |
| `ConfigRoundTrip.BadValueIsLost` | src/config.cpp:773-812 | any other value under a good name is read back as another value |
| `ConfigRoundTrip.ParsedNamesAreGood` | src/config.cpp:773-812 | whatever the text, a parsed name is a good one |
| `ConfigRoundTrip.ParseKeeps` | src/config.cpp:814-837 | the first setting of a name stays |
| `ConfigRoundTrip.RoundTripIff` | src/confighttp.cpp:1445-1454 | parsing what was printed gives back exactly the saved settings if and only if each has a good name and a value without comments that starts visibly and is one line, or a list with as many closing as opening brackets and more opening ones in every beginning of it |
| `ConfigLines.LineIsRead` | src/config.cpp:773-812 | a line without a list, with an end or as the last without one, is read as if it stood alone |
| `ConfigLines.SettingIsRead` | src/config.cpp:773-812 | a line with blanks in front, around its `=` and a comment behind sets its name to its value, which keeps its trailing blanks |
| `ConfigLines.BlankIsSkipped` | src/config.cpp:776-778 | blank stretches are passed over with what follows |
| `ConfigLines.FileMeansItsLines` | src/config.cpp:814-837 | a text without lists, whether its last line has an end or not, means what its meaningful lines mean one by one |
| `ConfigLines.LayoutDoesNotMatter` | src/config.cpp:729-837 | texts without lists that have the same meaningful lines mean the same, whatever blank and comment lines they have, whether lines end in LF or CRLF, and whether the last one ends at all |
| `Expansion.FindMatch` | src/process.cpp:498-517 | the scan finds the bracket that closes the first one, or fails if none does |
| `Expansion.ParseEnvVal` | src/process.cpp:519-572 | the loop over moving positions ends and writes what the recursive definition of the language says |
| `Expansion.ExpandUndoesEscape` | src/process.cpp:519-572 | expansion undoes the doubling of every `$`, for every string |
| `Expansion.EscapedPrefix` | src/process.cpp:519-572 | an escaped text in front means itself, whatever follows |
| `Expansion.VariableIsLookedUp` | src/process.cpp:528-551 | escaped a, then `$(V)`, then b means a, the value of V in the environment or nothing if it has none, and what b means, for balanced V; without a meaning of b there is none |
| `Expansion.LoneDollarStays` | src/process.cpp:552-572 | a dollar before any other character, or at the end, stands for itself |
| `Expansion.ClosesBehind` | src/process.cpp:498-517 | the bracket behind V is the one that closes exactly if V is balanced |
| `Expansion.NeverClosesIff` | src/process.cpp:498-517 | the scan for the closing bracket fails exactly if nothing it passes closes as many brackets as are open |
| `Expansion.UnclosedVariableFails` | src/process.cpp:513-515 | a variable that no beginning of what follows closes makes the whole text fail |
| `Process.EveryRunIsWellBracketed` | src/process.cpp:160-462 | over all launches, checks and terminations: undo steps are the reverse of the entries passed, each once, only after command and compositor have stopped, all before the next launch begins; `_app_prep_it` says what is owed |
| `Process.FailedPrepIsUndone` | src/process.cpp:160-280 | a do command that cannot be started, cannot be waited for or exits with another code than 0, whatever ran before: that is terminated first, the entries passed are undone last first, the failed one is not, and the launch answers -1; a denied command of an application without a main command is no failure by itself |
| `Process.PrepsStopAt` | src/process.cpp:247-280 | the do loop passes exactly the entries before the first whose command fails |
| `Process.LaunchAnswers` | src/process.cpp:160-347 | 404 exactly if no application has the id, 0 exactly if no do command of the first that has it fails and the compositor, if asked for, and the main command start, -1 otherwise |
| `Process.SuccessfulLaunch` | src/process.cpp:160-347 | a launch that answers 0 passed all entries in order, then detached all commands, then started compositor and main command, and left exactly those running |
| `Process.FailedMainIsUndone` | src/process.cpp:297-341 | a compositor or a main command that does not start: the compositor is stopped, every entry is undone last first, and the answer is -1 |
| `Process.LaunchGives` | src/process.cpp:247-341 | the platform is given the do commands that are not empty in order, the detached ones in order, then the main command |
| `Process.TerminateGives` | src/process.cpp:410-433 | a termination gives the platform the undo commands of the passed entries that are not empty, last first |
| `Process.DecimalIsRead` | src/process.cpp:160-166 | the text an id is looked up by stands for that id alone |
| `Process.UndoneInReverse` | src/process.cpp:410-433 | the undo loop undoes the passed entries last first and nothing else |
| `Process.TerminateIsClean` | src/process.cpp:395-462 | after a termination nothing is owed, running or overridden |
| `Process.OverridesNeverStack` | src/process.cpp:188-198 | after any run the encoder settings are the user's while no override is active, and the user's under the override of the last application alone while one is; a launch that succeeds leads to its own, failure and termination to the user's |
| `Process.PresetsLeaveTraces` | src/config.cpp:1954-2004 | a preset applied on another is that preset alone only if the settings already agreed with the other: why the whole structure is saved |
| `Process.PresetsAreOrdered` | src/config.cpp:1954-2004 | from preset to preset effort, look ahead, frames in between and buffer grow; only the first has no latency, only the last a quality floor; other numbers and other fields change nothing |
| `Process.NotRunningMeansClean` | src/process.cpp:360-393 | after any run: if nothing counts as running, `running` answers 0, no entry is owed and the settings are the user's; if something does, it answers the id and undoes nothing, and makes a placebo of it exactly if only auto-detach keeps it |
| `Process.IdZeroLooksStopped` | src/process.cpp:360-393 | an application with the id 0 answers 0 while it runs, with all its entries still to be undone |
| `Process.ProcObject.Execute` | src/process.cpp:160-347 | the method with its fail guard takes the object where the launch function says and answers 0, -1 or 404 |
| `Process.ProcObject.Terminate` | src/process.cpp:395-462 | the method takes the object where the termination function says, running the undo commands that are not empty |
| `Process.ProcObject.IsRunning` | src/process.cpp:360-393 | placebo, group, process, auto-detach and clean-up in this order |
| `Process.ProcObject.DoSteps` | src/process.cpp:247-280 | the loop over `_app_prep_it` with its failure exits |
| `Process.ProcObject.UndoSteps` | src/process.cpp:410-433 | the loop that takes `_app_prep_it` back to the beginning |
| `Pairing.AuthorisedOnlyByAllPhases` | src/nvhttp.cpp:384-767 | in every run, whoever is authorised has earned it: on one session since its last restart a PIN, a challenge, a response and a secret came in order, the response under the key of salt and PIN is the hash recomputed, the secret is signed by the certificate that opened the session |
| `Pairing.KeyIsAlwaysSet` | src/nvhttp.cpp:423-478 | the "cipher key not set" branches are unreachable, and the server secret is there when it is needed |
| `Pairing.FailureRemovesSession` | src/nvhttp.cpp:384-393 | whatever is answered with a failure, for a known or a new id, leaves no session and nobody authorised; a request that throws for want of a salt leaves a session that no PIN satisfies |
| `Pairing.OnlySecretsAuthorise` | src/nvhttp.cpp:495-543 | the list of clients grows only by a pairing secret whose hash with challenge and certificate is the one given before and whose signature the certificate verifies, by that session's name and certificate |
| `Pairing.AuthorisedIff` | src/nvhttp.cpp:495-543 | a pairing secret authorises and is answered as paired exactly under those conditions; its session ends either way, and what is wrong decides between not paired and a failure |
| `Pairing.ImpostorIsRefused` | src/nvhttp.cpp:527-543 | a client whose hash or signature does not agree is not authorised, is told so, and has no session to go on with |
| `Pairing.PhasesComeInOrder` | src/nvhttp.cpp:423-493 | a challenge and a response are taken exactly in their phase, and out of it end the session |
| `Pairing.CertIsGivenIff` | src/nvhttp.cpp:599-664 | a request for the certificate is answered at once exactly for a trusted network or a typed PIN, with the certificate exactly if the salt can be read; of an older session only its certificate is left |
| `Pairing.PinIsTakenIff` | src/nvhttp.cpp:711-800 | what is not four digits changes nothing; four digits are taken exactly by a session that waits for them and has a readable salt of 32 digits, and end any other |
| `Pairing.StepLeavesOthers` | src/nvhttp.cpp:599-800 | a request or PIN touches no session but its own |
| `Pairing.HonestClientIsPairedIff` | src/nvhttp.cpp:395-543 | a client with the PIN, other sessions' events in between, is paired under its certificate exactly if no session with another certificate was left under its id; either way its session ends, and the server has proved itself |
| `Pairing.ReturningClientIsNotPaired` | src/nvhttp.cpp:623-664 | from the empty state: a client that asked once under another certificate comes back, goes through the whole conversation, and its certificate is not authorised |
| `Pairing.ResponseStage` | src/nvhttp.cpp:466-493 | the client recovers the server's challenge, the server the client's hash, and the client can check the server's secret |
| `Pairing.HexRoundTrip` | src/utility.h:392-450 | decoding undoes encoding |
| `Pairing.HexIsReadIff` | src/utility.h:392-450 | exactly an even number of hexadecimal digits reads as bytes, anything else as none |
| `Pairing.ReadHexIsWritten` | src/utility.h:392-450 | bytes that were read are written as the text they came from, in lower case |
| `Pairing.PairingServer.Pair` | src/nvhttp.cpp:599-708 | the handler of requests does what the step function says, reply included |
| `Pairing.PairingServer.Pin` | src/nvhttp.cpp:711-800 | works on whichever session the map gives first: takes it out, puts it back on success, answers the held request |
| `Pairing.PairingServer.GetServerCert` | src/nvhttp.cpp:395-421 | the phase on a session in or out of the map |
| `Pairing.PairingServer.ClientChallenge` | src/nvhttp.cpp:423-464 | the phase on a session in the map |
| `Pairing.PairingServer.ServerChallengeResponse` | src/nvhttp.cpp:466-493 | the phase on a session in the map |
| `Pairing.PairingServer.ClientPairingSecret` | src/nvhttp.cpp:495-543 | the last phase: authorises or not, and drops the session |
| `LatencyStats.InterleavingIsInvisible` | src/latency_stats.cpp:20-43 | under every interleaving of any number of collectors with spurious failures, once all are done minimum, maximum, total and count are those of collecting one by one |
| `LatencyStats.NextKeepsInv` | src/latency_stats.cpp:29-42 | at every atomic step: count and total of those past their additions, minimum and maximum of exactly those past their loops, loaded values only ever overtaken |
| `LatencyStats.AloneItFinishes` | src/latency_stats.cpp:35-42 | a collector left alone, from any state, is done once enough of its steps have not failed for no reason |
| `LatencyStats.SentinelLeaksIff` | src/latency_stats.cpp:45-55 | a snapshot, whose four reads may see four states of the run, shows a sentinel exactly if samples were counted at the first read and no collector was past the loop concerned at the read of its extreme |
| `LatencyStats.SentinelLeaks` | src/latency_stats.cpp:29-37 | one step of one collector is enough to see it |
| `LatencyStats.SnapshotAtRest` | src/latency_stats.cpp:45-55 | with all done and fewer than 2^32 samples: 0 <= minimum <= average <= maximum <= 60 s, and all samples counted |
| `LatencyStats.SnapshotDescribesTheValues` | src/latency_stats.cpp:20-55 | under every interleaving, once all are done: the snapshot of plausible values holds their number, the quotient of their sum and their number, and a least and a greatest of them |
| `LatencyStats.ImplausibleAreClamped` | src/latency_stats.cpp:21-27 | negative and non-finite values count as 0, those above a minute as a minute |
| `LatencyStats.MetricAccumulator.Collect` | src/latency_stats.cpp:20-43 | the method with its two loops, however often compare-exchange fails, does what one sequential collection does |
| `LatencyStats.MetricAccumulator.TakeSnapshot` | src/latency_stats.cpp:45-55 | with nobody else at work, the snapshot of the state; all zero without samples |
| `RateLimit.AtMostTwentyPerWindow` | src/confighttp.cpp:190-212 | an address whose checks and failures follow each other, without success, fails at most twenty times in any 30 s, whatever others do in between and in whatever order they get the lock |
| `RateLimit.ClockedIsClockedFor` | src/confighttp.cpp:190-212 | calls in the order of the clock are among the runs for which that is shown |
| `RateLimit.TwentyAreReached` | src/confighttp.cpp:190-212 | twenty failures within a nanosecond, so the bound is exact |
| `RateLimit.ConcurrentChecksAllPass` | src/confighttp.cpp:190-212 | checks that come before the failures all pass: any number of failures fits into a window |
| `RateLimit.LockedOutIff` | src/confighttp.cpp:190-212 | within the 30 s that an address opens, whatever others do, a login may be tried exactly as long as fewer than ten have failed |
| `RateLimit.LockoutEnds` | src/confighttp.cpp:190-200 | when they are over the address starts anew without failures |
| `RateLimit.SuccessForgets` | src/confighttp.cpp:214-217 | a success forgets the failures of its own address and nothing else |
| `RateLimit.PruningIsInvisible` | src/confighttp.cpp:184-200 | checks are answered as if nothing were ever pruned and buckets that are over were replaced; as if only the pruning were gone, when a call sees one time |
| `RateLimit.PruningIsInvisibleIff` | src/confighttp.cpp:184-212 | the answers are those of the limiter without its pruning, on all runs whose calls let the clock advance by at most a given time, exactly if that time is nothing |
| `RateLimit.PruningShowsIfTheClockAdvances` | src/confighttp.cpp:173-200 | a run in the order of the clock in which one nanosecond between the two readings of one call makes pruning tell |
| `RateLimit.LoginFailures.Prune` | src/confighttp.cpp:184-188 | exactly the expired buckets go |
| `RateLimit.LoginFailures.Allow` | src/confighttp.cpp:190-200 | the check on the shared map does what the step says and answers from the bucket it leaves |
| `RateLimit.LoginFailures.RecordFailure` | src/confighttp.cpp:202-212 | the failure on the shared map does what the step says |
| `AdaptiveBitrate.ScaleStaysInRange` | src/adaptive_bitrate.cpp:20-122 | whatever the samples, the scale stays in (0, 1] and the averages in their ranges |
| `AdaptiveBitrate.NeverRisesSoonAfterBad` | src/adaptive_bitrate.cpp:49-121 | no sample within 10 s of a congested or unhealthy one raises the scale |
| `AdaptiveBitrate.RecoveryIsLinear` | src/adaptive_bitrate.cpp:112-121 | once the timer has run out, calm samples raise the scale by 0.004 a tick up to 1 |
| `AdaptiveBitrate.RestoredIff` | src/adaptive_bitrate.cpp:112-121 | the full scale is back exactly when there were enough ticks, and 250 are always enough |
| `AdaptiveBitrate.RecoversTenSecondsLater` | src/adaptive_bitrate.cpp:66-121 | the first sample that is not bad starts the timer, and from ten seconds later on every calm tick adds 0.004 |
| `AdaptiveBitrate.NothingBeforeTheTimer` | src/adaptive_bitrate.cpp:66-121 | before that nothing changes |
| `AdaptiveBitrate.SpikeIff` | src/adaptive_bitrate.cpp:44-48 | a sample is a spike exactly above 3.5 times the average before it |
| `AdaptiveBitrate.NetworkPenalty` | src/adaptive_bitrate.cpp:39-72 | the scale falls exactly on a spike or above 1 % average loss: by 30 % for a spike, by half above 5 % loss and by the loss itself below |
| `AdaptiveBitrate.HealthPenalty` | src/adaptive_bitrate.cpp:74-110 | the scale falls exactly above 11 ms, below 88 % of the frame rate or above 5 % dropped frames, by 12, 12 and 10 % |
| `AdaptiveBitrate.FirstSampleOnlyPrimes` | src/adaptive_bitrate.cpp:25-38 | the first network sample sets the averages and nothing else |
| `AdaptiveBitrate.LossIsRememberedIff` | src/adaptive_bitrate.cpp:33-45 | the average loss is positive exactly if some sample so far reported a loss |
| `AdaptiveBitrate.OneLossCongestsForever` | src/adaptive_bitrate.cpp:44-49 | after one loss every later network sample counts as congestion |
| `AdaptiveBitrate.OneLossEndsRecovery` | src/adaptive_bitrate.cpp:44-121 | after one loss no sample within 10 s of any later network sample raises the scale, so it never recovers while they come more often than that |
| `AdaptiveBitrate.TargetWithinBounds` | src/adaptive_bitrate.cpp:124-146 | within the configured bounds and, unless the floor forbids it, no more than was asked for |
| `AdaptiveBitrate.TargetIsTheScaledRequest` | src/adaptive_bitrate.cpp:124-146 | between the bounds the bitrate is the scaled request, less than 1 below it, and beyond them the bound |
| `AdaptiveBitrate.TargetIsMonotone` | src/adaptive_bitrate.cpp:124-146 | a larger scale or request never gives a smaller bitrate |
| `AdaptiveBitrate.BitrateController.UpdateNetworkStats` | src/adaptive_bitrate.cpp:20-72 | the method on the fields does what the function of the old state says |
| `AdaptiveBitrate.BitrateController.UpdateStreamHealth` | src/adaptive_bitrate.cpp:74-122 | the method on the fields does what the function of the old state says |
| `AdaptiveBitrate.BitrateController.GetTargetBitrate` | src/adaptive_bitrate.cpp:124-146 | the clamps in their order give the target, within its bounds |

## Left out

- Batching.BatchingIsInvisible: delayed tasks (HOME, key repeat, left release) do not run between the packets compared;
  `Replay.EveryRunIsAReplay` has them, and then says less about the order.
- InputQueue.EveryMessageIsDelivered: no other task runs in between; how long a drain takes is not modelled.
- InputQueue.InputContext.PassthroughQueuedMessages: producers do not append between its pops; in the protocol they do.
- Replay.EveryRunIsAReplay: the cancelling half of `reset`, which runs beside the worker, is not one of its events.
- Gamepad.StaleTasksDoNothing: task ids are never used again and the generation does not wrap around its 64 bits.
- HostMachine.AllocateCounts: that the platform refuses a device is a fixed set of controllers, not a choice per attempt.
- HostMachine.RunLeaksNoId: the mask of ids, the marks of keys and buttons are shared by all clients; what other clients
  take, free, press or release while this one's queue is drained is not modelled.
- Keys.ResetFreesThePlatformIff: for runs whose keys the bindings keep apart; when two keys in use share a code, only
  `Keys.ResetLiftsHeldCodes` holds. A reset goes over the whole map of marks, in any order.
- ConfigText.SaveConfig: the text that the library dumps for a value that is no string, and the order in which it lists
  the keys, are parameters.
- ConfigLines.LayoutDoesNotMatter: a carriage return alone is not a line end here, though the program takes it for one.
- ConfigText.ReadConfig: positions are numbers, so a carriage return as the very last character steps one past the end
  here, where the program compares iterators.
- Process.OverridesNeverStack: the settings are changed by nothing but overrides; reloading the configuration while one
  is active is not modelled.
- Process.EveryRunIsWellBracketed: environment variables, working directories, log pipes and the notifications of a stop
  are not modelled; neither is `refresh`, which replaces the table of applications.
- Pairing.AuthorisedOnlyByAllPhases: what a certificate, a hash or a signature is worth is not modelled; the primitives
  are unknown functions.
- Pairing.HonestClientIsPairedIff: pairing by trusted subnet or by a PIN typed on standard input is modelled but the
  honest client waits for a PIN that is entered; persistence, the address match and TLS are not modelled.
- LatencyStats.InterleavingIsInvisible: sums of doubles do not round and no reset happens during the run.
- RateLimit.AtMostTwentyPerWindow: what a call reads with the lock held is no earlier than what calls before it have
  read; a clock that runs backwards is not modelled.
- AdaptiveBitrate.NeverRisesSoonAfterBad: a run has no `reset` in it; a reset begins a new run.
- AdaptiveBitrate.ScaleStaysInRange: reals have no rounding and no underflow of the scale to zero.
- Scaling of touch and pointer coordinates and contact areas: floating-point geometry with little structure.
- `list_string_f` and the key-by-key `apply_config`: many members with one branch each.
- Platform calls, sockets, TLS, HTTP plumbing, logging, tray and Windows-only code.
