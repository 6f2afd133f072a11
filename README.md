# Bluetooth power consumption benchmark — a Dafny model

The benchmark drives a Bluetooth Low Energy device through a few test states, so that its current draw can be
measured in each one. The states are advertising, scanning, connected as central or as peripheral, and
periodic advertising with a synchronised scanner. An operator picks the next state from the console. The
device then starts the radio activity and waits for a report, a connection or a timeout, and returns to the
menu. The model covers:

- the shared coordinator, `PowerConsumptionTest` (module `Coordinator`, class `CoordinatorClass.PowerConsumptionTest`);
- the older shared base class, `PowerConsumptionTestBase` (`TestBase`, `TestBaseClass`);
- the console MAC-address reader and the `%02x` rendering and parsing of addresses (`MacInput`, `Hex`);
- the state names of `bt_test_state.h` (`BtTestState`);
- the platform abstraction: its event records and its handler slot (`BluetoothPlatform`);
- the Zephyr adapter (`ZephyrPlatform`, `ZephyrPlatformClass`);
- the Zephyr event queue, a singly linked list of timed callbacks (`EventList` for the list and its
  properties, `EventQueue.Queue` for the class);
- the Mbed adapter (`MbedPlatform`, `MbedPlatformClass`), and the path of a connection or sync handle from the
  adapter through the coordinator's timed disconnect and back (`MbedBuild`);
- the two stand-alone Mbed programs, `mbed/source/main.cpp` (`MbedMain`, `MbedMainClass`) and
  `source/main.cpp` (`SourceMain`, `SourceMainClass`), over the Mbed stack seen through `MbedGap`.

Every C++ class whose fields change is a Dafny `class` with those fields. Its methods are proved against pure
transition functions on a value snapshot of the fields: `Snapshot() == F(old(Snapshot()), …)`. The properties
are lemmas about those functions, over all inputs.

The model's environment:

- The Bluetooth stack is an oracle. A `Radio` value gives the status code of the vendor call at each position
  of the trace of calls, and the handle a successful "create" writes. Every call the code makes is appended to
  that trace (`requests` or `vendor`).
- Calls into the event-handler interface are appended to `events`. Callbacks posted on an event queue are
  appended as `Call(task)` or `CallIn(millis, task)`. Running one of them later is `RunTask`.
- The console is a `console: string` field that `getchar` consumes. When the input runs out, the blocking read
  never returns, so the loop's further effects do not happen.
- The clock of the event queue is a parameter: `now` for one append, and a reading per visited node for a pass.
  What a callback posts on the queue while a pass runs is a `posts` parameter.

Where a C++ function `assert`s something about the object's state, the Dafny method `requires` it, except for
the two asserts named under "## Left out" that fail on the benchmark's own paths.

## Model

| member | source | states |
|---|---|---|
| Common.Narrow8 | shared/source/BluetoothPlatform.cpp:48-64 | The conversion of an `int` SID to the `uint8_t` field agrees with it modulo 256 and is the identity on 0..255. |
| Common.Narrow8Periodic | shared/source/BluetoothPlatform.cpp:70-86 | SIDs that differ by a multiple of 256 narrow to the same byte. |
| BtTestState.Ordinal | shared/include/bt_test_state.h:28-32 | The five test states have distinct enum values below 5. |
| BtTestState.OrdinalRoundTrip | shared/include/bt_test_state.h:28-32 | Enum value and state convert back and forth exactly; a value names a state iff it is below 5. |
| BtTestState.NameRoundTrip | shared/include/bt_test_state.h:21-26 | Parsing the printed name of a state gives the state back. |
| BtTestState.NameInjective | shared/include/bt_test_state.h:21-26 | Two states print the same name iff they are the same state. |
| BtTestState.PrintCalls | shared/include/bt_test_state.h:34-41 | `print_bt_test_state` calls its printer exactly once, with a name that reads back as the state. |
| Hex.LoweredXDigit | shared/source/test_base.cpp:81-85 | Lower-casing keeps the hex-digit test unchanged, and a lower-cased hex digit is one of `0-9a-f`. |
| Hex.HexValue | shared/source/test_base.cpp:157 | A lower-case hex digit has a value below 16. |
| Hex.HexDigit | shared/source/test_base.cpp:157 | The `%x` digit of a value below 16 is a lower-case hex digit whose value is that number. |
| Hex.HexDigitOfValue | shared/source/test_base.cpp:157 | Every lower-case hex digit is the `%x` digit of its own value. |
| Hex.ByteHex | shared/source/test_base.cpp:157 | `%02x` of a byte is exactly two lower-case hex digits. |
| Hex.ByteHexRoundTrip | shared/source/test_base.cpp:157 | Parsing the `%02x` of a byte gives the byte back. |
| Hex.ParseByteRoundTrip | shared/source/test_base.cpp:157 | Every two-digit lower-case hex string is the `%02x` of the byte it parses to. |
| Hex.MacHexShape | shared/source/test_base.cpp:153-159 | The text of an address is 12 lower-case hex digits, first byte last: byte 5 at position 0, … byte 0 at 10. |
| Hex.MacHexRoundTrip | shared/source/PowerConsumptionTest.cpp:215-218 | Parsing the 12-digit text of an address gives the address back. |
| Hex.ParseMacHexRoundTrip | shared/source/PowerConsumptionTest.cpp:215-218 | Every 12-digit lower-case hex string is the text of the address it parses to. |
| Hex.MacHexInjective | shared/source/PowerConsumptionTest.cpp:215-218 | Two addresses have the same 12-digit text iff they are equal. |
| Hex.RemoveColons | mbed/source/main.cpp:318-331 | Removing the separators leaves no colon and never lengthens the text. |
| Hex.RemoveColonsAppend | mbed/source/main.cpp:318-331 | Removing colons distributes over concatenation. |
| Hex.RemoveColonsNone | mbed/source/main.cpp:318-331 | A text without colons is unchanged by removing them. |
| Hex.GroupedUngroup | mbed/source/main.cpp:141-146 | Removing the colons inserted between digit pairs gives the digits back. |
| Hex.GroupedNLength | mbed/source/main.cpp:141-146 | Grouping adds one colon per completed pair, up to the given count. |
| Hex.GroupedNPair | mbed/source/main.cpp:141-146 | Grouping puts a colon after the leading pair while colons remain and groups the rest. |
| Hex.MacHexColonGrouped | shared/source/PowerConsumptionTest.cpp:177-181 | `%02x:%02x:…` of an address is its 12-digit text with a colon after every pair but the last. |
| Hex.GroupedMatchesColon | mbed/source/main.cpp:322-327 | The grouped form of some digits equals the colon form of an address iff the digits are the address's text. |
| Hex.CStr | shared/source/test_base.cpp:161-164 | The C string of a buffer is its longest prefix free of NUL, ended by a NUL or by the buffer's end. |
| MacInput.HexDigitsOf | shared/source/test_base.cpp:79-97 | The digits kept from some input are no more than the characters read. |
| MacInput.HexDigitsOfLower | shared/source/test_base.cpp:81-85 | Every digit kept is a lower-case hex digit. |
| MacInput.ReadMac | shared/source/test_base.cpp:79-97 | Reading keeps the digits already stored, stores at most 12, and consumes only input that was there. |
| MacInput.Consumed | shared/source/test_base.cpp:79-97 | The reader consumes no more than its input. |
| MacInput.ReadMacRest | shared/source/test_base.cpp:79-97 | What is left after reading is the input minus what was consumed; an unfinished read consumed everything. |
| MacInput.ReadMacStored | shared/source/test_base.cpp:79-97 | The stored target is the digits before plus the lower-cased hex digits among the consumed characters, in order. |
| MacInput.ReadMacStops | shared/source/test_base.cpp:79-97 | The reader stops at the first newline, or once 12 digits are stored, and at no other point. |
| MacInput.ReadMacNotFullBefore | shared/source/test_base.cpp:79-97 | Before the last consumed character, fewer than 12 digits were stored. |
| MacInput.ReadMacStep | shared/source/test_base.cpp:79-97 | One iteration: a newline ends the read, a twelfth digit ends it, any other character is kept or skipped and reading goes on. |
| MacInput.HexDigitsOfPrepend | shared/source/test_base.cpp:81-85 | One more character in front adds its lower-cased form iff it is a hex digit. |
| MacInput.ReadMacLower | shared/source/test_base.cpp:81-85 | The stored target only ever holds lower-case hex digits. |
| MacInput.GroupedNSnoc | mbed/source/main.cpp:141-146 | Grouping after one more digit appends the digit, then a colon when it completes a pair that gets one. |
| MacInput.ReadMacColonStep | mbed/source/main.cpp:128-148 | One iteration of the colon-storing reader: store a hex digit, then add a colon after a completed pair when there is room. |
| MacInput.GroupedDigit | mbed/source/main.cpp:128-148 | One digit added to a grouped target is the grouped target of one more digit, and the loop bound of 17 is hit iff 12 digits are stored. |
| MacInput.ReadMacColonGrouped | mbed/source/main.cpp:128-148 | The colon-storing reader stores exactly the plain reader's digits, grouped in pairs, and consumes and completes the same way. |
| BluetoothPlatform.NewAdvertisingReportEvent | shared/source/BluetoothPlatform.cpp:48-64 | The report event copies every argument; the SID is kept when it fits in a byte. |
| BluetoothPlatform.NewPeriodicSyncEvent | shared/source/BluetoothPlatform.cpp:70-86 | The sync event copies every argument; the SID is kept when it fits in a byte. |
| BluetoothPlatform.SidNarrowingAliases | shared/include/BluetoothPlatform.h:62 | The `uint8_t` SID field makes SIDs that differ by a multiple of 256 build identical events. |
| BluetoothPlatform.NewConnectEventError | shared/source/BluetoothPlatform.cpp:105-106 | The error-only connect event sets the error and leaves every other field as it was. |
| BluetoothPlatform.DeliverAllReceives | shared/include/BluetoothPlatform.h:154-181 | The default handler absorbs every call; an installed handler receives each one, in order, after what it got before. |
| BluetoothPlatform.Platform.constructor | shared/include/BluetoothPlatform.h:251-255 | The handler pointer starts as whatever the memory held. |
| BluetoothPlatform.Platform.SetEventHandler | shared/source/BluetoothPlatform.cpp:29-36 | After the call a handler is always installed: the given one, or the default one for null. |
| EventList.Elapsed | zephyr/source/EventQueue.cpp:32-38 | Elapsed time is the difference of the clocks whenever that fits in 32 bits. |
| EventList.ReadyIffDelayPassed | zephyr/source/EventQueue.cpp:40-43 | Within one wrap of the clock, an event is ready iff its delay has passed. |
| EventList.CallReadyAtOnce | zephyr/source/EventQueue.cpp:65-68 | An event added by `call` is ready at once. |
| EventList.CallInNotEarly | zephyr/source/EventQueue.cpp:70-73 | An event added by `call_in` is not ready before its delay has passed. |
| EventList.ReadyPart | zephyr/source/EventQueue.cpp:75-90 | The events one pass runs are no more than the queue held. |
| EventList.Waiting | zephyr/source/EventQueue.cpp:75-90 | The events one pass keeps are no more than the queue held. |
| EventList.ReadyPartAppend | zephyr/source/EventQueue.cpp:75-90 | Run and kept events of a concatenation are those of each part, concatenated. |
| EventList.PassPartition | zephyr/source/EventQueue.cpp:75-90 | A pass splits the queue into run and kept events: together a permutation of it, run iff ready. |
| EventList.ReadyOrder | zephyr/source/EventQueue.cpp:75-90 | Two ready events run in the order they were queued. |
| EventList.FirstPass | zephyr/include/EventQueue.h:25-27 | The pass in which an event first becomes ready is one of the passes given, or none. |
| EventList.PassGroupFirst | zephyr/include/EventQueue.h:25-27 | The first pass runs exactly the events ready at its time, in queue order. |
| EventList.PassGroupLater | zephyr/include/EventQueue.h:25-27 | Each later pass works on what the earlier passes kept. |
| EventList.ByReadinessShift | zephyr/include/EventQueue.h:25-27 | Ordering by the readiness pass can be computed from what the first pass leaves. |
| EventList.ScheduleOrder | zephyr/include/EventQueue.h:25-27 | Over any sequence of passes, callbacks run in the order they become ready, and ties run in arrival order. |
| EventList.AbsentNotIn | zephyr/source/EventQueue.cpp:92-116 | The recursive absence test is membership. |
| EventList.DistinctUnique | zephyr/source/EventQueue.cpp:92-116 | The list's node ids are pairwise distinct. |
| EventList.ChainToLinks | zephyr/source/EventQueue.cpp:92-116 | Following `next` from the head visits the listed nodes in order and ends at null. |
| EventList.ChainAt | zephyr/source/EventQueue.cpp:92-116 | Each listed node points at the next listed node, and the last points at null. |
| EventList.EventsAt | zephyr/source/EventQueue.cpp:92-116 | The queue's content at each position is the event stored in that node. |
| EventList.AppendLinked | zephyr/source/EventQueue.cpp:92-103 | Appending a fresh node keeps the list well formed and adds its event at the end. |
| EventList.RemoveLinked | zephyr/source/EventQueue.cpp:105-116 | Unlinking the node at a position keeps the list well formed, frees that node and drops its event only. |
| EventList.Finish | zephyr/source/EventQueue.cpp:79-88 | The inner loop, from any state, always reaches the end of the list, counting the nodes callbacks append on the way. |
| EventList.Dispatch | zephyr/source/EventQueue.cpp:75-90 | One pass ends with nothing left to visit. |
| EventList.StepShrinks | zephyr/source/EventQueue.cpp:79-88 | Each visit brings the pass one node closer to the end of the list, posts included. |
| EventList.StepOn | zephyr/source/EventQueue.cpp:79-88 | One visit on the list: a ready node is removed and its callback's posts go at the end; another node is kept in place. |
| EventList.StepConserves | zephyr/source/EventQueue.cpp:79-88 | One visit loses and duplicates no event. |
| EventList.FinishConserves | zephyr/source/EventQueue.cpp:75-90 | From any state on, the pass loses and duplicates no event. |
| EventList.FinishKeepsNoCall | zephyr/source/EventQueue.cpp:79-88 | From any state on, the pass keeps no zero-delay event. |
| EventList.DispatchConserves | zephyr/source/EventQueue.cpp:75-90 | Run plus kept events are exactly the queue plus everything callbacks posted during the pass; a zero-delay event is never kept, so one posted by a callback runs in the same pass. |
| EventList.DispatchFixed | zephyr/source/EventQueue.cpp:75-90 | With no posts and one clock reading, a pass runs exactly `ReadyPart` and keeps exactly `Waiting` of the queue, in queue order. |
| EventList.FinishFixed | zephyr/source/EventQueue.cpp:75-90 | The same, from the state after the first m events. |
| EventList.DispatchInOrder | zephyr/source/EventQueue.cpp:75-90 | With one clock reading and callbacks posting, a pass runs exactly the ready events of the queue followed by what was posted, and keeps the others, each in the order they joined the list; so `ReadyOrder` and `ScheduleOrder` apply to passes that post. |
| EventList.FinishInOrder | zephyr/source/EventQueue.cpp:75-90 | The same, from any state whose visited events and remaining list make up the queue plus what was posted so far. |
| EventList.StepInOrder | zephyr/source/EventQueue.cpp:79-88 | One visit keeps that account: the visited event joins the run or kept part by readiness, and its posts join the tail. |
| EventList.RemoveNodeAsWritten | zephyr/source/EventQueue.cpp:105-116 | The code's unlink keeps the set of allocated cells; it only marks one freed. |
| EventList.DispatchAsWrittenDanglingHead | zephyr/source/EventQueue.cpp:79-89 | Counterexample: two ready nodes make the pass read a freed node and leave the head pointing at a freed node. |
| EventList.RemoveAsWrittenStaleTail | zephyr/source/EventQueue.cpp:105-116 | Counterexample: removing the only node leaves the tail pointing at it, and the next append fails its assert. |
| EventList.AppendAsWrittenUnterminated | zephyr/source/EventQueue.cpp:25-30 | Counterexample: a new node's `next` is never set, so a pass walks off the list. |
| EventList.DestroyAsWrittenLeaks | zephyr/source/EventQueue.cpp:50-63 | Counterexample: the destructor never frees the last node. |
| EventQueue.Queue.Events | zephyr/include/EventQueue.h:45-60 | The queue's contents have one event per listed node. |
| EventQueue.Queue.HeadTailAgree | zephyr/source/EventQueue.cpp:92-103 | Head and tail are null together, as the asserts in `append` expect. |
| EventQueue.Queue.constructor | zephyr/include/EventQueue.h:45-60 | A new queue is empty. |
| EventQueue.Queue.Append | zephyr/source/EventQueue.cpp:92-103 | The event goes at the end of the queue, with its delay and the current time, and the head stays unless the queue was empty. |
| EventQueue.Queue.Call | zephyr/source/EventQueue.cpp:65-68 | `call` queues the callback with no delay. |
| EventQueue.Queue.CallIn | zephyr/source/EventQueue.cpp:70-73 | `call_in` queues the callback with its delay. |
| EventQueue.Queue.RemoveNode | zephyr/source/EventQueue.cpp:105-116 | Unlinking removes exactly that node and its event; no other node except `prev` changes. |
| EventQueue.Queue.RunCallback | zephyr/source/EventQueue.cpp:45-48 | A callback's `call`/`call_in` requests go at the tail in order, stamped with the current uptime; the listed nodes stay in place. |
| EventQueue.Queue.Unlink | zephyr/source/EventQueue.cpp:83-87 | The node after the visited one is read, then that node is unlinked and only its event leaves the queue. |
| EventQueue.Queue.RunNode | zephyr/source/EventQueue.cpp:81-83 | A ready node's callback appends its posts, then the node is unlinked. |
| EventQueue.Queue.KeepNode | zephyr/source/EventQueue.cpp:80-88 | A node that is not ready stays, and the pass moves to the node after it. |
| EventQueue.Queue.Visit | zephyr/source/EventQueue.cpp:79-88 | One visit, with the clock read at that visit and the callback's posts appended, is exactly `EventList.Step`. |
| EventQueue.Queue.DispatchOnce | zephyr/source/EventQueue.cpp:75-90 | One pass, with the clock read again at every node and the nodes callbacks post during it visited too, runs and keeps what `EventList.Dispatch` says. |
| EventQueue.Queue.Destroy | zephyr/source/EventQueue.cpp:50-63 | The destructor frees every node and empties the queue. |
| Coordinator.UpdateStateReports | shared/source/PowerConsumptionTest.cpp:155-164 | The new state is reported iff it differs from the old, and setting the same state again changes nothing. |
| Coordinator.AdvertiseScanRequest | shared/source/PowerConsumptionTest.cpp:76-92 | `advertise` and `scan` make one request, periodic iff periodic mode is on, and change nothing else. |
| Coordinator.TogglePeriodicTwice | shared/source/PowerConsumptionTest.cpp:94-104 | The mode flips iff periodic sync is configured, toggling twice restores it, and each toggle re-prompts. |
| Coordinator.ReadTargetMacEffect | shared/source/PowerConsumptionTest.cpp:106-148 | The target becomes the digits typed iff there are 12 of them, and the prompt is posted again iff the read finished. |
| Coordinator.EmptyEntryKeepsTarget | shared/source/PowerConsumptionTest.cpp:106-148 | Pressing ENTER alone keeps the previous target, although the prompt says it is unset. |
| Coordinator.ReadTargetMacNeverClears | shared/source/PowerConsumptionTest.cpp:137-145 | Once a full target is set, no later entry unsets it. |
| Coordinator.ReadTargetMacConsistent | shared/source/PowerConsumptionTest.cpp:106-148 | Reading the target keeps the test state consistent. |
| Coordinator.ReadCommand | shared/source/PowerConsumptionTest.cpp:58-73 | The command read is one of the menu letters and consumes input, or the input ran out. |
| Coordinator.ReadCommandAt | shared/source/PowerConsumptionTest.cpp:58-73 | The command read is the first menu letter in the input, lower-cased, and reading stops just after it. |
| Coordinator.ReadCommandNone | shared/source/PowerConsumptionTest.cpp:58-73 | Input without a menu letter leaves the read waiting with the input used up. |
| Coordinator.ReadCommandSkips | shared/source/PowerConsumptionTest.cpp:58-73 | Characters other than menu letters before the input change nothing. |
| Coordinator.NextStateSkips | shared/source/PowerConsumptionTest.cpp:47-74 | `nextState` ignores keys that are not commands. |
| Coordinator.NextStateOneCall | shared/source/PowerConsumptionTest.cpp:47-74 | `nextState` returns to START, and makes one request iff a command was read, after the earlier ones. |
| Coordinator.NextStateChanges | shared/source/PowerConsumptionTest.cpp:47-74 | The periodic mode changes only on `p` and the target only on `m`. |
| Coordinator.MacMatchesParsed | shared/source/PowerConsumptionTest.cpp:213-230 | With a full target set, a report matches by address iff the target parses to that address. |
| Coordinator.EnteredMacMatches | shared/source/PowerConsumptionTest.cpp:106-148 | After a 12-digit entry, a peer matches iff its address prints as the typed digits, and the name is not used. |
| Coordinator.ReportCalls | shared/source/PowerConsumptionTest.cpp:211-257 | A non-matching report is ignored; a match syncs, with a 5000 ms timeout, or connects, as the report is periodic or not; the name is used only without a target. |
| Coordinator.ConnectionOutcomes | shared/source/PowerConsumptionTest.cpp:301-320 | A failed connection changes nothing and does not re-prompt; a central schedules its disconnect, a peripheral only records its state. |
| Coordinator.SyncErrorStillDesyncs | shared/source/PowerConsumptionTest.cpp:328-338 | A failed sync still schedules the desync. |
| Coordinator.DisconnectPromptsTwice | shared/source/PowerConsumptionTest.cpp:283-290 | A timed disconnect prompts, and the disconnection that follows prompts again. |
| Coordinator.DeliverExtends | shared/source/PowerConsumptionTest.cpp:174-344 | No event handler takes back a request it made earlier. |
| Coordinator.RunTaskExtends | shared/source/PowerConsumptionTest.cpp:283-299 | No queued task takes back a request. |
| Coordinator.NextStateConsistent | shared/source/PowerConsumptionTest.cpp:47-74 | `nextState` keeps the state consistent. |
| Coordinator.DeliverConsistent | shared/source/PowerConsumptionTest.cpp:174-344 | Every event handler keeps the state consistent. |
| Coordinator.RunTaskConsistent | shared/source/PowerConsumptionTest.cpp:283-299 | Every queued task keeps the state consistent. |
| CoordinatorClass.PowerConsumptionTest.constructor | shared/source/PowerConsumptionTest.cpp:28-29 | A new test has no target, periodic mode off, nothing requested, and is consistent. |
| CoordinatorClass.PowerConsumptionTest.GetChar | shared/source/PowerConsumptionTest.cpp:60 | `getchar` returns the next console character and consumes it. |
| CoordinatorClass.PowerConsumptionTest.UpdateState | shared/source/PowerConsumptionTest.cpp:155-164 | The fields change as `Coordinator.UpdateState` says. |
| CoordinatorClass.PowerConsumptionTest.Advertise | shared/source/PowerConsumptionTest.cpp:76-83 | The fields change as `Coordinator.Advertise` says. |
| CoordinatorClass.PowerConsumptionTest.Scan | shared/source/PowerConsumptionTest.cpp:85-92 | The fields change as `Coordinator.Scan` says. |
| CoordinatorClass.PowerConsumptionTest.TogglePeriodic | shared/source/PowerConsumptionTest.cpp:94-104 | The fields change as `Coordinator.TogglePeriodic` says. |
| CoordinatorClass.PowerConsumptionTest.ReadTargetMac | shared/source/PowerConsumptionTest.cpp:106-148 | The reading loop leaves the fields as `Coordinator.ReadTargetMac` says, and reports whether it finished. |
| CoordinatorClass.PowerConsumptionTest.NextState | shared/source/PowerConsumptionTest.cpp:47-74 | The menu loop leaves the fields as `Coordinator.NextState` says, and reports whether it read a command. |
| CoordinatorClass.PowerConsumptionTest.OnInitComplete | shared/source/PowerConsumptionTest.cpp:174-189 | Initialisation posts the first prompt. |
| CoordinatorClass.PowerConsumptionTest.OnAdvertisingStart | shared/source/PowerConsumptionTest.cpp:191-203 | Advertising start records the state that matches the advertising kind. |
| CoordinatorClass.PowerConsumptionTest.OnScanStart | shared/source/PowerConsumptionTest.cpp:205-209 | Scan start records the SCAN state. |
| CoordinatorClass.PowerConsumptionTest.OnAdvertisingReport | shared/source/PowerConsumptionTest.cpp:211-257 | The fields change as `Coordinator.OnAdvertisingReport` says. |
| CoordinatorClass.PowerConsumptionTest.OnAdvertisingTimeout | shared/source/PowerConsumptionTest.cpp:259-264 | An advertising timeout posts the prompt. |
| CoordinatorClass.PowerConsumptionTest.OnScanTimeout | shared/source/PowerConsumptionTest.cpp:266-271 | A scan timeout posts the prompt. |
| CoordinatorClass.PowerConsumptionTest.TriggerDisconnect | shared/source/PowerConsumptionTest.cpp:283-290 | The timed disconnect asks the platform to disconnect, then returns to the menu. |
| CoordinatorClass.PowerConsumptionTest.TriggerDesync | shared/source/PowerConsumptionTest.cpp:292-299 | The timed desync asks the platform to stop the sync, then returns to the menu. |
| CoordinatorClass.PowerConsumptionTest.OnConnection | shared/source/PowerConsumptionTest.cpp:301-320 | The fields change as `Coordinator.OnConnection` says. |
| CoordinatorClass.PowerConsumptionTest.OnDisconnect | shared/source/PowerConsumptionTest.cpp:322-326 | A disconnection posts the prompt. |
| CoordinatorClass.PowerConsumptionTest.OnPeriodicSync | shared/source/PowerConsumptionTest.cpp:328-338 | The fields change as `Coordinator.OnPeriodicSync` says. |
| CoordinatorClass.PowerConsumptionTest.OnSyncLoss | shared/source/PowerConsumptionTest.cpp:340-344 | A sync loss posts the prompt. |
| TestBase.UpdateStateFlags | shared/source/test_base.cpp:112-121 | The role flags follow the new state, and a change to a state other than START is reported once. |
| TestBase.TogglePeriodicTwice | shared/source/test_base.cpp:60-65 | Toggling always flips the mode, twice restores it, and each toggle re-prompts. |
| TestBase.ReadTargetMacEffect | shared/source/test_base.cpp:67-110 | The target becomes the digits typed iff there are 12 of them, and the prompt is posted again iff the read finished. |
| TestBase.NextStateClearsFlags | shared/source/test_base.cpp:32-58 | `next_state` returns to START with both role flags cleared, and adds one hook iff a command was read. |
| TestBase.SetThenGet | shared/source/test_base.cpp:123-131 | The connecting flag reads back what was set, and nothing else changes. |
| TestBase.IsMatchingMacAddressIff | shared/source/test_base.cpp:153-164 | With 12 target characters, an address matches iff its text is the target, or iff the target parses to it. |
| TestBase.CStrOf | shared/source/test_base.cpp:161-164 | `strncmp` sees a NUL-terminated buffer as the text before its NUL. |
| TestBaseClass.PowerConsumptionTestBase.constructor | shared/include/test_base.h:85-90 | A new base has an empty target and every flag off. |
| TestBaseClass.PowerConsumptionTestBase.GetChar | shared/source/test_base.cpp:47 | `getchar` returns the next console character and consumes it. |
| TestBaseClass.PowerConsumptionTestBase.UpdateState | shared/source/test_base.cpp:112-121 | The fields change as `TestBase.UpdateState` says. |
| TestBaseClass.PowerConsumptionTestBase.TogglePeriodic | shared/source/test_base.cpp:60-65 | The fields change as `TestBase.TogglePeriodic` says. |
| TestBaseClass.PowerConsumptionTestBase.ReadTargetMac | shared/source/test_base.cpp:67-110 | The reading loop leaves the fields as `TestBase.ReadTargetMac` says, and reports whether it finished. |
| TestBaseClass.PowerConsumptionTestBase.NextState | shared/source/test_base.cpp:32-58 | The menu loop leaves the fields as `TestBase.NextState` says, and reports whether it read a command. |
| TestBaseClass.PowerConsumptionTestBase.SetConnectingOrSyncing | shared/source/test_base.cpp:123-126 | Only the connecting flag changes. |
| TestBaseClass.PowerConsumptionTestBase.IsMatchingMacAddress | shared/source/test_base.cpp:153-159 | The byte-wise comparison computes the match `TestBase.IsMatchingMacAddress` defines. |
| MbedGap.HasNameIff | source/main.cpp:291-297 | The name match holds iff some payload field is a complete local name equal to the device name. |
| MbedMain.ReadTargetMacGrouped | mbed/source/main.cpp:117-159 | The stored target is the typed digits grouped in pairs by colons; the prompt is posted again iff the read finished. |
| MbedMain.ReadTargetMacForms | mbed/source/main.cpp:149-155 | The target is empty iff no digit was typed and full length (17) iff 12 were typed. |
| MbedMain.ReadTargetMacShape | mbed/source/main.cpp:117-159 | Every target the entry leaves is a grouped run of lower-case digits. |
| MbedMain.MatchByMacIff | mbed/source/main.cpp:318-331 | With a target set, a peer matches iff its address prints as the target's digits. |
| MbedMain.EntryDecidesMatch | mbed/source/main.cpp:304-333 | After an entry: 12 digits match that address only, fewer match nothing, none match by device name. |
| MbedMain.StartsAreIdle | mbed/source/main.cpp:180-254 | Starting to advertise or scan sets the matching state and role, not connecting. |
| MbedMain.AdvertiseCalls | mbed/source/main.cpp:180-231 | Legacy advertising uses the legacy handle; periodic advertising needs controller support and creates its set once, keeping the handle it got. |
| MbedMain.PeriodicAfterLegacyUsesLegacyHandle | mbed/source/main.cpp:201-215 | Discrepancy: after a legacy run, a periodic run with a set already created advertises on the legacy handle. |
| MbedMain.ReportBusyIff | mbed/source/main.cpp:336-390 | A report starts a connection or sync iff not busy, of the right kind, matching and accepted by the stack; that one request is the only thing added. |
| MbedMain.ConnectionOutcomes | mbed/source/main.cpp:401-425 | A central schedules its disconnect and a peripheral records its state; a failure returns to the menu. |
| MbedMain.NextStateSkips | mbed/source/main.cpp:84-108 | The menu ignores keys that are not commands. |
| MbedMain.IssueShape | mbed/source/main.cpp:117-159 | Making a request keeps the target's shape. |
| MbedMain.NextStateShape | mbed/source/main.cpp:84-108 | The menu keeps the target's shape. |
| MbedMain.DeliverShape | mbed/source/main.cpp:271-453 | Every event handler keeps the target's shape. |
| MbedMain.RunTaskShape | mbed/source/main.cpp:407-415 | Every queued task keeps the target's shape. |
| MbedMainClass.ReadMacChar | mbed/source/main.cpp:130-146 | One loop body: the colon-storing reader either stops here or goes on from the new target and pair count. |
| MbedMainClass.PowerConsumptionTest.constructor | mbed/source/main.cpp:466-475 | A new test has invalid handles, no target and every flag off. |
| MbedMainClass.PowerConsumptionTest.Issue | mbed/source/main.cpp:180-254 | A stack call is recorded, and its status is the radio's answer at that position. |
| MbedMainClass.PowerConsumptionTest.GetChar | mbed/source/main.cpp:98 | `getchar` returns the next console character and consumes it. |
| MbedMainClass.PowerConsumptionTest.UpdateState | mbed/source/main.cpp:161-170 | The fields change as `MbedMain.UpdateState` says. |
| MbedMainClass.PowerConsumptionTest.StartCurrentSet | mbed/source/main.cpp:216-230 | The fields change as `MbedMain.StartCurrentSet` says. |
| MbedMainClass.PowerConsumptionTest.Advertise | mbed/source/main.cpp:180-231 | The fields change as `MbedMain.Advertise` says. |
| MbedMainClass.PowerConsumptionTest.Scan | mbed/source/main.cpp:234-254 | The fields change as `MbedMain.Scan` says. |
| MbedMainClass.PowerConsumptionTest.TogglePeriodic | mbed/source/main.cpp:110-115 | Only the periodic flag flips, and the prompt is posted again. |
| MbedMainClass.PowerConsumptionTest.ReadMacLoop | mbed/source/main.cpp:128-148 | The do-while loop stores what the colon-storing reader stores and stops where it stops. |
| MbedMainClass.PowerConsumptionTest.ReadTargetMac | mbed/source/main.cpp:117-159 | The fields change as `MbedMain.ReadTargetMac` says. |
| MbedMainClass.PowerConsumptionTest.NextState | mbed/source/main.cpp:84-108 | The menu loop leaves the fields as `MbedMain.NextState` says, and reports whether it read a command. |
| MbedMainClass.PowerConsumptionTest.PeerIsMatch | mbed/source/main.cpp:304-333 | The scan over the payload and the address comparison compute `MbedMain.PeerIsMatch`. |
| MbedMainClass.PowerConsumptionTest.OnAdvertisingReport | mbed/source/main.cpp:336-390 | The fields change as `MbedMain.OnAdvertisingReport` says. |
| MbedMainClass.PowerConsumptionTest.OnAdvertisingStart | mbed/source/main.cpp:271-294 | The fields change as `MbedMain.OnAdvertisingStart` says. |
| MbedMainClass.PowerConsumptionTest.OnAdvertisingEnd | mbed/source/main.cpp:296-302 | The end of advertising is handled as a timeout. |
| MbedMainClass.PowerConsumptionTest.OnScanTimeout | mbed/source/main.cpp:392-398 | A scan timeout is handled as a timeout. |
| MbedMainClass.PowerConsumptionTest.OnConnectionComplete | mbed/source/main.cpp:401-425 | The fields change as `MbedMain.OnConnectionComplete` says. |
| MbedMainClass.PowerConsumptionTest.OnDisconnectionComplete | mbed/source/main.cpp:428-433 | The fields change as `MbedMain.OnDisconnectionComplete` says. |
| MbedMainClass.PowerConsumptionTest.OnSyncEstablished | mbed/source/main.cpp:436-445 | The fields change as `MbedMain.OnSyncEstablished` says. |
| MbedMainClass.PowerConsumptionTest.OnSyncLoss | mbed/source/main.cpp:448-453 | The fields change as `MbedMain.OnSyncLoss` says. |
| MbedMainClass.PowerConsumptionTest.DisconnectLink | mbed/source/main.cpp:407-415 | The queued disconnect lambda runs as the `DisconnectTask` of the specification. |
| SourceMain.ReadChoice | source/main.cpp:98-109 | The choice read is a menu letter and consumes input, or the input ran out. |
| SourceMain.ReadChoiceAt | source/main.cpp:98-109 | The choice is the first menu letter in the input, lower-cased, and reading stops just after it. |
| SourceMain.ReadChoiceNone | source/main.cpp:98-109 | Input without a menu letter leaves the read waiting with the input used up. |
| SourceMain.EnteredFlags | source/main.cpp:112-225 | Each start sets its role and periodic flags, clears connecting, and records its state name. |
| SourceMain.PeriodicSetReused | source/main.cpp:147-202 | Once created, the periodic set is only restarted, on the same handle. |
| SourceMain.PeriodicSetCreated | source/main.cpp:147-202 | Without a set, one is created and kept iff its create, parameter and payload calls all succeed, and then it is started. |
| SourceMain.NextStateKeepsSet | source/main.cpp:89-110 | The menu never forgets or changes the periodic set. |
| SourceMain.SetCreatedOnce | source/main.cpp:242-402 | No event handler or queued task forgets or changes the set. |
| SourceMain.ReportBusyIff | source/main.cpp:276-341 | A report starts a connection or sync iff not busy, of the right kind, carrying the device name and accepted by the stack; when not periodic, the only request it can add is `connect` to the reporting peer. |
| SourceMain.ScanOnlyConnects | source/main.cpp:204-212 | `scan` clears the periodic flag, so a report while scanning adds nothing or a `connect` to the reporting peer, and a connection made from there stays non-periodic. |
| SourceMain.DisconnectionLeavesFlagToMenu | source/main.cpp:379-383 | Discrepancy with mbed/source/main.cpp:431: a disconnection does not clear the connecting flag itself; the state chosen next clears it (source/main.cpp:112-118), and until a choice is typed the flag stays and no stack call is made. |
| SourceMain.ConnectionOutcomes | source/main.cpp:352-376 | A central schedules its disconnect after 10 s and a peripheral records its state; a failure returns to the menu. |
| SourceMainClass.PowerConsumptionTest.constructor | source/main.cpp:411-417 | A new test has invalid handles and every flag off. |
| SourceMainClass.PowerConsumptionTest.Issue | source/main.cpp:121-225 | A stack call is recorded, and its status is the radio's answer at that position. |
| SourceMainClass.PowerConsumptionTest.GetChar | source/main.cpp:101 | `getchar` returns the next console character and consumes it. |
| SourceMainClass.PowerConsumptionTest.EnterState | source/main.cpp:112-118 | The fields change as `SourceMain.EnterState` says. |
| SourceMainClass.PowerConsumptionTest.Advertise | source/main.cpp:121-144 | The fields change as `SourceMain.Advertise` says. |
| SourceMainClass.PowerConsumptionTest.AdvertisePeriodic | source/main.cpp:147-202 | The fields change as `SourceMain.AdvertisePeriodic` says. |
| SourceMainClass.PowerConsumptionTest.Scan | source/main.cpp:205-225 | The fields change as `SourceMain.Scan` says. |
| SourceMainClass.PowerConsumptionTest.NextState | source/main.cpp:89-110 | The menu loop leaves the fields as `SourceMain.NextState` says, and reports whether it read a choice. |
| SourceMainClass.PowerConsumptionTest.OnAdvertisingReport | source/main.cpp:276-341 | The fields change as `SourceMain.OnAdvertisingReport` says. |
| SourceMainClass.PowerConsumptionTest.OnAdvertisingStart | source/main.cpp:242-265 | The fields change as `SourceMain.OnAdvertisingStart` says. |
| SourceMainClass.PowerConsumptionTest.OnAdvertisingEnd | source/main.cpp:267-273 | The end of advertising is handled as a timeout. |
| SourceMainClass.PowerConsumptionTest.OnScanTimeout | source/main.cpp:343-349 | A scan timeout is handled as a timeout. |
| SourceMainClass.PowerConsumptionTest.OnConnectionComplete | source/main.cpp:352-376 | The fields change as `SourceMain.OnConnectionComplete` says. |
| SourceMainClass.PowerConsumptionTest.OnDisconnectionComplete | source/main.cpp:379-383 | The fields change as `SourceMain.OnDisconnectionComplete` says. |
| SourceMainClass.PowerConsumptionTest.OnSyncEstablished | source/main.cpp:386-394 | The fields change as `SourceMain.OnSyncEstablished` says. |
| SourceMainClass.PowerConsumptionTest.OnSyncLoss | source/main.cpp:397-402 | The fields change as `SourceMain.OnSyncLoss` says. |
| SourceMainClass.PowerConsumptionTest.DisconnectLink | source/main.cpp:358-364 | The queued disconnect runs as the `DisconnectTask` of the specification. |
| ZephyrPlatform.ReportName | zephyr/source/ZephyrBluetoothPlatform.cpp:449-462 | The name reported always fits the 50-byte buffer with its terminator. |
| ZephyrPlatform.StartAdvertisingOutcome | zephyr/source/ZephyrBluetoothPlatform.cpp:168-197 | One start call; on success, advertising with the end timer armed and the start reported; on failure, still idle with nothing armed or reported. |
| ZephyrPlatform.StartScanOutcome | zephyr/source/ZephyrBluetoothPlatform.cpp:199-222 | One start call; on success, scanning with the end timer armed and the start reported; on failure, still idle. |
| ZephyrPlatform.StartPeriodicAdvertisingOutcome | zephyr/source/ZephyrBluetoothPlatform.cpp:270-336 | Success iff all four calls succeed, then exactly those calls, the timer and the report; a failure after creating the set stops and deletes it. |
| ZephyrPlatform.EndIdempotent | zephyr/source/ZephyrBluetoothPlatform.cpp:396-435 | Ending twice is ending once, and ending what is not running changes nothing. |
| ZephyrPlatform.TimeoutIff | zephyr/source/ZephyrBluetoothPlatform.cpp:396-447 | A timeout is reported iff that activity was running and no connection or sync is under way. |
| ZephyrPlatform.EstablishConnectionOutcome | zephyr/source/ZephyrBluetoothPlatform.cpp:224-252 | Scanning stops and connecting starts; a failure is reported at once as a connection error, a success keeps the connection. |
| ZephyrPlatform.SyncTimeoutRange | zephyr/source/ZephyrBluetoothPlatform.cpp:359 | The sync timeout is milliseconds over ten, clamped to the range 0x000A..0x4000. |
| ZephyrPlatform.SyncBusyIff | zephyr/source/ZephyrBluetoothPlatform.cpp:345-373 | Syncing starts iff the create-sync call succeeds; nothing is reported or armed. |
| ZephyrPlatform.ReportNameFirst | zephyr/source/ZephyrBluetoothPlatform.cpp:449-462 | The first name field stops the parse and gives the reported name. |
| ZephyrPlatform.NameCallbackWhole | zephyr/source/ZephyrBluetoothPlatform.cpp:449-462 | A complete name that fits and has no NUL is reported whole. |
| ZephyrPlatform.ReportNameNone | zephyr/source/ZephyrBluetoothPlatform.cpp:464-495 | Without a name field the name is empty. |
| ZephyrPlatform.ScanCallbackForwards | zephyr/source/ZephyrBluetoothPlatform.cpp:464-495 | While busy a scan result is dropped; otherwise exactly one report is raised, periodic iff it has an interval, with the parsed name and the sender's address. |
| ZephyrPlatform.ConnectedCallbackOutcome | zephyr/source/ZephyrBluetoothPlatform.cpp:497-533 | The connection is stored and reported once; the role is central iff the link info says master; the error is `err`, or the info error narrowed to a byte. |
| ZephyrPlatform.SyncedCallbackOutcome | zephyr/source/ZephyrBluetoothPlatform.cpp:543-569 | The sync is stored, scanning stops, and one successful sync is reported with the scanner's role. |
| ZephyrPlatform.DisconnectReleasesFirst | zephyr/source/ZephyrBluetoothPlatform.cpp:254-267 | Discrepancy: `disconnect` succeeds iff it leaves no connection, so the `disconnected` callback that follows finds `_conn` null; a refused disconnect keeps the connection; busy is cleared either way. |
| ZephyrPlatform.LinkLossClearsBusy | zephyr/source/ZephyrBluetoothPlatform.cpp:535-575 | A disconnection or a sync loss clears the busy flag and is reported once. |
| ZephyrPlatform.BuildConsistentKept | zephyr/source/ZephyrBluetoothPlatform.cpp:405-412 | The state the assert in `endAdvertising` requires is kept by every operation and stack callback of the adapter (each start, end, timer, connect, disconnect, sync, stop-sync and callback). |
| ZephyrPlatformClass.ZephyrBluetoothPlatform.constructor | zephyr/include/ZephyrBluetoothPlatform.h:83-104 | The static instance starts with every flag off and no connection or sync. |
| ZephyrPlatformClass.ZephyrBluetoothPlatform.Vendor | zephyr/source/ZephyrBluetoothPlatform.cpp:32-39 | A vendor call is recorded, and its status is the radio's answer at that position. |
| ZephyrPlatformClass.ZephyrBluetoothPlatform.StartAdvertising | zephyr/source/ZephyrBluetoothPlatform.cpp:168-197 | Fields and result change as `ZephyrPlatform.StartAdvertising` says. |
| ZephyrPlatformClass.ZephyrBluetoothPlatform.StartScan | zephyr/source/ZephyrBluetoothPlatform.cpp:199-222 | Fields and result change as `ZephyrPlatform.StartScan` says. |
| ZephyrPlatformClass.ZephyrBluetoothPlatform.CleanUpExtendedAdvertising | zephyr/source/ZephyrBluetoothPlatform.cpp:384-392 | Fields change as `ZephyrPlatform.CleanUpExtendedAdvertising` says. |
| ZephyrPlatformClass.ZephyrBluetoothPlatform.StartPeriodicAdvertising | zephyr/source/ZephyrBluetoothPlatform.cpp:270-336 | Fields and result change as `ZephyrPlatform.StartPeriodicAdvertising` says. |
| ZephyrPlatformClass.ZephyrBluetoothPlatform.StartScanForPeriodicAdvertising | zephyr/source/ZephyrBluetoothPlatform.cpp:338-343 | Fields and result change as `ZephyrPlatform.StartScanForPeriodicAdvertising` says. |
| ZephyrPlatformClass.ZephyrBluetoothPlatform.EndAdvertising | zephyr/source/ZephyrBluetoothPlatform.cpp:396-419 | Fields change as `ZephyrPlatform.EndAdvertising` says. |
| ZephyrPlatformClass.ZephyrBluetoothPlatform.EndScan | zephyr/source/ZephyrBluetoothPlatform.cpp:421-435 | Fields change as `ZephyrPlatform.EndScan` says. |
| ZephyrPlatformClass.ZephyrBluetoothPlatform.EstablishConnection | zephyr/source/ZephyrBluetoothPlatform.cpp:224-252 | Fields and result change as `ZephyrPlatform.EstablishConnection` says. |
| ZephyrPlatformClass.ZephyrBluetoothPlatform.Disconnect | zephyr/source/ZephyrBluetoothPlatform.cpp:254-267 | Fields and result change as `ZephyrPlatform.Disconnect` says. |
| ZephyrPlatformClass.ZephyrBluetoothPlatform.SyncToPeriodicAdvertising | zephyr/source/ZephyrBluetoothPlatform.cpp:345-373 | Fields and result change as `ZephyrPlatform.SyncToPeriodicAdvertising` says. |
| ZephyrPlatformClass.ZephyrBluetoothPlatform.StopSync | zephyr/source/ZephyrBluetoothPlatform.cpp:375-382 | Fields and result change as `ZephyrPlatform.StopSync` says. |
| ZephyrPlatformClass.ZephyrBluetoothPlatform.ParseName | zephyr/source/ZephyrBluetoothPlatform.cpp:449-462 | The loop over the payload finds the name `ZephyrPlatform.ReportName` defines. |
| ZephyrPlatformClass.ZephyrBluetoothPlatform.ScanCallback | zephyr/source/ZephyrBluetoothPlatform.cpp:464-495 | Fields change as `ZephyrPlatform.ScanCallback` says. |
| ZephyrPlatformClass.ZephyrBluetoothPlatform.ConnectedCallback | zephyr/source/ZephyrBluetoothPlatform.cpp:497-533 | Fields change as `ZephyrPlatform.ConnectedCallback` says. |
| ZephyrPlatformClass.ZephyrBluetoothPlatform.DisconnectedCallback | zephyr/source/ZephyrBluetoothPlatform.cpp:535-541 | Fields change as `ZephyrPlatform.DisconnectedCallback` says, for any reported connection; the assert is left out on its own line. |
| ZephyrPlatformClass.ZephyrBluetoothPlatform.SyncedCallback | zephyr/source/ZephyrBluetoothPlatform.cpp:543-569 | Fields change as `ZephyrPlatform.SyncedCallback` says. |
| ZephyrPlatformClass.ZephyrBluetoothPlatform.SyncLostCallback | zephyr/source/ZephyrBluetoothPlatform.cpp:571-575 | Fields change as `ZephyrPlatform.SyncLostCallback` says. |
| MbedPlatform.CommonStartAdvertisingOutcome | mbed/source/MbedBluetoothPlatform.cpp:54-76 | Payload first and start only if it succeeded; the result is the first failing status; advertiser, not connecting, timeouts heeded. |
| MbedPlatform.CommonStartScanOutcome | mbed/source/MbedBluetoothPlatform.cpp:78-101 | Success iff both the parameter and the start calls succeed; only then is the scan start reported. |
| MbedPlatform.StartPeriodicAdvertisingOutcome | mbed/source/MbedBluetoothPlatform.cpp:213-244 | Without controller support nothing happens and -1 is returned; otherwise success iff all four calls succeed, and then the set's handle is kept. |
| MbedPlatform.StopPeriodicInvalidatesIff | mbed/source/MbedBluetoothPlatform.cpp:103-128 | The handle is invalidated iff the stop, stop and destroy calls all succeed; calls stop at the first failure. |
| MbedPlatform.AdvertisingStartForwardedIff | mbed/source/MbedBluetoothPlatform.cpp:337-365 | The start is reported iff advertising is legacy or both periodic calls succeed; periodic bounds are requested for the current set. |
| MbedPlatform.ReportedNameFirst | mbed/source/MbedBluetoothPlatform.cpp:375-387 | The name is "(unknown name)" iff no complete-name field is present; otherwise it is the first such field's C string. |
| MbedPlatform.ReportForwardedIff | mbed/source/MbedBluetoothPlatform.cpp:389-415 | A report is forwarded iff not busy and of the kind being scanned for, and the event carries the report's fields. |
| MbedPlatform.TimeoutForwardedIff | mbed/source/MbedBluetoothPlatform.cpp:417-437 | A timeout is forwarded iff it is heeded, and afterwards further timeouts are ignored. |
| MbedPlatform.AtMostOneTimeout | mbed/source/MbedBluetoothPlatform.cpp:417-437 | Any run of timeouts forwards at most one, and none once timeouts are ignored. |
| MbedPlatform.AdvertisingEndIsTimeout | mbed/source/MbedBluetoothPlatform.cpp:417-428 | The end of advertising reports and flags exactly as a timeout does. |
| MbedPlatform.ConnectionOutcome | mbed/source/MbedBluetoothPlatform.cpp:439-474 | A completed connection or sync is reported once with its status, role central iff scanning; timeouts are then ignored. |
| MbedPlatform.LinkLossOnce | mbed/source/MbedBluetoothPlatform.cpp:476-499 | A disconnection or sync loss is reported iff one was under way, and a second one is ignored. |
| MbedPlatform.SyncBusyIff | mbed/source/MbedBluetoothPlatform.cpp:281-307 | Syncing starts iff the create-sync call succeeds, with skip 2 and the SID as a byte; then reports are dropped. |
| MbedPlatform.EstablishConnectionKeepsReporting | mbed/source/MbedBluetoothPlatform.cpp:260-279 | Discrepancy: while a connection is pending, reports are still forwarded but the scan timeout is not. |
| MbedPlatform.CStrPlusOne | mbed/source/MbedBluetoothPlatform.cpp:367-373 | One character more after a NUL-free string is seen by C string functions iff it is not NUL. |
| MbedPlatform.CopyStringAsWrittenOverreads | mbed/source/MbedBluetoothPlatform.cpp:367-373 | The copy as written equals the name iff the byte after the field is NUL. |
| MbedPlatform.CopyStringAsWrittenExample | mbed/source/MbedBluetoothPlatform.cpp:367-373 | Counterexample: "abc" followed by byte 2 is copied as "abc\x02". |
| MbedPlatform.ReportedNameExact | mbed/source/MbedBluetoothPlatform.cpp:375-387 | Corrected copy: the reported name is exactly the first complete-name field. |
| MbedPlatformClass.GetNameOfPeer | mbed/source/MbedBluetoothPlatform.cpp:375-387 | The loop over the payload finds the first complete-name field, or nothing. |
| MbedPlatformClass.MbedBluetoothPlatform.constructor | mbed/include/MbedBluetoothPlatform.h:109-113 | A new adapter has an invalid handle, every flag off and nothing recorded. |
| MbedPlatformClass.MbedBluetoothPlatform.Issue | mbed/source/MbedBluetoothPlatform.cpp:54-101 | A stack call is recorded, and its status is the radio's answer at that position. |
| MbedPlatformClass.MbedBluetoothPlatform.CommonStartAdvertising | mbed/source/MbedBluetoothPlatform.cpp:54-76 | Fields and result change as `MbedPlatform.CommonStartAdvertising` says. |
| MbedPlatformClass.MbedBluetoothPlatform.CommonStartScan | mbed/source/MbedBluetoothPlatform.cpp:78-101 | Fields and result change as `MbedPlatform.CommonStartScan` says. |
| MbedPlatformClass.MbedBluetoothPlatform.StopPeriodicAdvertising | mbed/source/MbedBluetoothPlatform.cpp:103-128 | Fields change as `MbedPlatform.StopPeriodicAdvertising` says. |
| MbedPlatformClass.MbedBluetoothPlatform.StartAdvertising | mbed/source/MbedBluetoothPlatform.cpp:206-211 | Fields and result change as `MbedPlatform.StartAdvertising` says. |
| MbedPlatformClass.MbedBluetoothPlatform.StartPeriodicAdvertising | mbed/source/MbedBluetoothPlatform.cpp:213-244 | Fields and result change as `MbedPlatform.StartPeriodicAdvertising` says. |
| MbedPlatformClass.MbedBluetoothPlatform.StartScan | mbed/source/MbedBluetoothPlatform.cpp:246-251 | Fields and result change as `MbedPlatform.StartScan` says. |
| MbedPlatformClass.MbedBluetoothPlatform.StartScanForPeriodicAdvertising | mbed/source/MbedBluetoothPlatform.cpp:253-258 | Fields and result change as `MbedPlatform.StartScanForPeriodicAdvertising` says. |
| MbedPlatformClass.MbedBluetoothPlatform.EstablishConnection | mbed/source/MbedBluetoothPlatform.cpp:260-279 | Fields and result change as `MbedPlatform.EstablishConnection` says. |
| MbedPlatformClass.MbedBluetoothPlatform.SyncToPeriodicAdvertising | mbed/source/MbedBluetoothPlatform.cpp:281-307 | Fields and result change as `MbedPlatform.SyncToPeriodicAdvertising` says. |
| MbedPlatformClass.MbedBluetoothPlatform.Disconnect | mbed/source/MbedBluetoothPlatform.cpp:309-321 | Corrected hand-over (see Findings): the `handle_t` carries the stack handle, and fields and result change as `MbedPlatform.Disconnect` of that handle says. |
| MbedPlatformClass.MbedBluetoothPlatform.StopSync | mbed/source/MbedBluetoothPlatform.cpp:323-332 | Corrected hand-over: fields and result change as `MbedPlatform.StopSync` of the sync handle the `handle_t` carries says. |
| MbedPlatformClass.MbedBluetoothPlatform.OnAdvertisingStart | mbed/source/MbedBluetoothPlatform.cpp:337-365 | Fields change as `MbedPlatform.OnAdvertisingStart` says. |
| MbedPlatformClass.MbedBluetoothPlatform.OnAdvertisingReport | mbed/source/MbedBluetoothPlatform.cpp:389-415 | Fields change as `MbedPlatform.OnAdvertisingReport` says. |
| MbedPlatformClass.MbedBluetoothPlatform.OnAdvertisingEnd | mbed/source/MbedBluetoothPlatform.cpp:417-428 | Fields change as `MbedPlatform.OnAdvertisingEnd` says. |
| MbedPlatformClass.MbedBluetoothPlatform.OnScanTimeout | mbed/source/MbedBluetoothPlatform.cpp:430-437 | Fields change as `MbedPlatform.OnScanTimeout` says. |
| MbedPlatformClass.MbedBluetoothPlatform.OnConnectionComplete | mbed/source/MbedBluetoothPlatform.cpp:439-455 | Fields change as `MbedPlatform.OnConnectionComplete` says, with the event carrying the connection's own stack handle (the corrected hand-over of the Findings row). |
| MbedPlatformClass.MbedBluetoothPlatform.OnPeriodicAdvertisingSyncEstablished | mbed/source/MbedBluetoothPlatform.cpp:457-474 | Fields change as `MbedPlatform.OnPeriodicAdvertisingSyncEstablished` says, with the event carrying the sync's own handle. |
| MbedBuild.StaleHandleAsWritten | mbed/source/MbedBluetoothPlatform.cpp:439-455 | As written: the event carries the address of the callback's local; the coordinator queues `triggerDisconnect` with it, and the disconnect it leads to names the connection just made iff that dead address still holds its handle. |
| MbedBuild.StaleSyncHandleAsWritten | mbed/source/MbedBluetoothPlatform.cpp:457-474 | As written, for a sync: the timed desync ends the sync just made iff the dead local's address still holds its handle. |
| MbedBuild.StaleHandleCounterexample | mbed/source/MbedBluetoothPlatform.cpp:309-332 | Counterexample: once the slot holds another value, the disconnect and the sync stop name a connection and a sync other than the ones made. |
| MbedBuild.TimedDisconnectExact | shared/source/PowerConsumptionTest.cpp:283-320 | Corrected: the timed disconnect, whenever it runs, asks the stack to end exactly the connection that was made. |
| MbedBuild.TimedDesyncExact | shared/source/PowerConsumptionTest.cpp:292-338 | Corrected: the timed desync, with or without a sync error, ends exactly the sync that was reported. |
| MbedBuild.TaskHandsBack | shared/source/PowerConsumptionTest.cpp:283-299 | `triggerDisconnect` and `triggerDesync` pass their stored handle to the platform unchanged, as their first call. |
| MbedPlatformClass.MbedBluetoothPlatform.OnDisconnectionComplete | mbed/source/MbedBluetoothPlatform.cpp:476-487 | Fields change as `MbedPlatform.OnDisconnectionComplete` says. |
| MbedPlatformClass.MbedBluetoothPlatform.OnPeriodicAdvertisingSyncLoss | mbed/source/MbedBluetoothPlatform.cpp:489-499 | Fields change as `MbedPlatform.OnPeriodicAdvertisingSyncLoss` says. |

The class rows above tie each method to its transition function. The lemmas in the same module state what
that function guarantees.

### Discrepancies in the code as written (not bugs in the model)

- `Coordinator.EmptyEntryKeepsTarget`: the prompt says ENTER unsets the target, but an empty entry keeps the
  previous one (PowerConsumptionTest.cpp:106-148).
- `Coordinator.ConnectionOutcomes`: a failed connection does not return to the menu (PowerConsumptionTest.cpp:301-320).
- `Coordinator.SyncErrorStillDesyncs`: a failed sync still schedules the desync (PowerConsumptionTest.cpp:328-338).
- `Coordinator.DisconnectPromptsTwice`: a timed disconnect posts the prompt twice: once itself, once from the
  disconnection (PowerConsumptionTest.cpp:283-290, 322-326).
- `TestBase.IsMatchingMacAddressIff`: the byte comparison ignores `_target_mac_len`, so it holds the target's
  12 characters whatever was entered (test_base.cpp:153-159).
- `MbedMain.PeriodicAfterLegacyUsesLegacyHandle`: legacy advertising overwrites `_adv_handle` but keeps
  `_have_adv_handle` (mbed/source/main.cpp:209-213).
- `MbedMain.NextState`: unlike the shared code, `next_state` does not set the START state, and a newline counts
  as an invalid key (mbed/source/main.cpp:84-108).
- `SourceMain.DisconnectionLeavesFlagToMenu`: unlike mbed/source/main.cpp:431, `onDisconnectionComplete` does not clear
  `_is_connecting_or_syncing` itself; the state chosen next clears it (source/main.cpp:379-383, 112-118).
- `ZephyrPlatform.DisconnectReleasesFirst`: a successful `disconnect` sets `_conn` to null, so the
  `assert(_instance._conn == conn)` of `disconnectedCallback` fails on every disconnect the benchmark triggers
  (ZephyrBluetoothPlatform.cpp:254-267, 535-541).
- `MbedPlatform.EstablishConnectionKeepsReporting`: a pending connection does not set
  `_is_connecting_or_syncing`, so reports are still forwarded (MbedBluetoothPlatform.cpp:260-279).

## Left out

- Console output (`printf`, `putchar`, error messages and their text) is not modelled; only the reports the
  source makes through `update_state` and the platform's event handler are.
- The Bluetooth stacks (Zephyr's host and Mbed's `BLE`/`Gap`) are not modelled: each call's effect is only
  recorded, and its result comes from the `Radio` oracle. A failing `createAdvertisingSet` is assumed not to
  write the handle.
- The stack's unit conversions of intervals (the raw values passed in the periodic bounds) are recorded as
  passed, not interpreted.
- Concurrency, mutexes and interrupt context are not modelled; every handler runs to completion on one thread.
- The endless loops (`dispatch_forever`, `runEventLoop`, the blocking `getchar` waiting for input) are modelled
  one step at a time: `EventQueue.Queue.DispatchOnce` is one pass of the dispatcher, and input that runs out
  stops a read.
- The clock (`k_uptime_get`) is a parameter of the event queue: the `now` of `append`, and for a pass the
  reading `uptime(k)` at its k-th visit.
- EventQueue.Queue.DispatchOnce: a callback's effect on the queue is given by the `posts` parameter (the
  `call`/`call_in` requests each run makes, in order). What else it does is modelled by each program's
  `RunTask`. Its posts are stamped with the uptime read at the node that runs it, not at a later reading.
  A pass whose callbacks keep posting ready events forever is not modelled: `posts` is finite.
- The default `BluetoothPlatform::call` (shared/include/BluetoothPlatform.h:198), which runs `fn` at once, is
  not modelled. The header at hand declares only the `std::function` forms of `init`, `call` and `callIn`
  (BluetoothPlatform.h:192-201) and no `callback_t`, while the adapters override, and the coordinator calls, a
  `(callback_t, void*)` form (MbedBluetoothPlatform.h:44-46, ZephyrBluetoothPlatform.cpp:110-118,
  PowerConsumptionTest.cpp:325). The model follows the adapters: both implement that form by queueing, so every
  call is modelled as a queued request.
- The handler slot of `BluetoothPlatform` (`Platform`, `Deliver`, `DeliverAll`) stands alone: each adapter's
  `events` trace is the sequence of calls it makes on the installed handler, and the model does not compose that
  trace with the slot or with the coordinator's handlers.
- Start-up plumbing is not modelled: `init`, `getLocalAddress`, `deviceName`, `instance`, `run` and the Mbed
  adapter's `onInitComplete` glue. zephyr/source/new_delete.cpp is not part of this model.
- The adapters' `call`/`callIn` (MbedBluetoothPlatform.cpp:163-172, ZephyrBluetoothPlatform.cpp:110-118) only
  forward to an event queue. They are modelled by the `Call`/`CallIn` requests they record, and
  `EventQueue.Queue.Call`/`CallIn` model the Zephyr queue itself.
- `_ignore_timeout` is used by MbedBluetoothPlatform.cpp but is not declared in the header at hand. It is modelled
  as a field that starts false.
- `bt_conn_unref` and the reference counting of Zephyr connections are not modelled.
- ZephyrPlatformClass.ZephyrBluetoothPlatform.SyncedCallback: the `assert(_sync == nullptr)` of
  ZephyrBluetoothPlatform.cpp:543-569 is not required. `syncToPeriodicAdvertising` has already stored `_sync`
  when the stack calls back, so the assert would fail on every successful sync.
- ZephyrPlatformClass.ZephyrBluetoothPlatform.DisconnectedCallback: the `assert(_instance._conn == conn)` of
  ZephyrBluetoothPlatform.cpp:537 is not required. After a successful `disconnect` `_conn` is already null
  (`ZephyrPlatform.DisconnectReleasesFirst`) while the stack reports the real connection, so the assert would fail
  on every timed disconnect.
- Memory leaks outside the event queue are not modelled: the `peer_mac` string of mbed/source/main.cpp:323 and
  the buffer of ZephyrBluetoothPlatform.cpp:97.
- `isprint` only chooses which message to print for an invalid key, so it is left out with the messages.
- EventList.PassAsWritten and EventList.DestroyAsWritten: the as-written loops over a possibly cyclic or dangling
  heap take a `fuel` bound. The counterexamples give enough fuel, so results beyond that bound are not stated.

## Findings

| source | as written | input that shows it | evidently intended | confidence | as-written member | corrected member |
|---|---|---|---|---|---|---|
| zephyr/source/EventQueue.cpp:79-89 | After `removeNode(prev, node)` the loop sets `prev = node` and reads `node->next` from the node it just deleted; removing the head does not move `prev` to a live node. | A queue of two ready events: the pass reads freed memory and leaves `_head` at the freed second node. | Read `next` before deleting; keep `prev` at the last kept node, or at the new head. | high; not executed | EventList.DispatchAsWrittenDanglingHead | EventQueue.Queue.DispatchOnce |
| zephyr/source/EventQueue.cpp:105-116 | `removeNode` never updates `_tail`. | One node, removed: `_head` is null, `_tail` is dangling, and the next `append` fails its assert. | Move `_tail` to `prev`, or to null, when the tail is removed. | high; not executed | EventList.RemoveAsWrittenStaleTail | EventQueue.Queue.RemoveNode |
| zephyr/source/EventQueue.cpp:25-30 | The `Event` constructor leaves `next` uninitialised, and `append` never sets it. | Append to an empty queue onto a non-zeroed allocation: the pass follows `next` off the list. | Set `next = nullptr` for every new event. | medium; not executed | EventList.AppendAsWrittenUnterminated | EventQueue.Queue.Append |
| zephyr/source/EventQueue.cpp:50-63 | The destructor frees nodes while the head has a successor, so the last node survives. | A queue of one event: nothing is freed. | Free every node up to null. | high; not executed | EventList.DestroyAsWrittenLeaks | EventQueue.Queue.Destroy |
| mbed/source/MbedBluetoothPlatform.cpp:439-474 | `onConnectionComplete` and `onPeriodicAdvertisingSyncEstablished` hand the coordinator `&handle`, the address of a local that dies when they return. The coordinator keeps it for CONFIG_CONNECT_TIME (PowerConsumptionTest.cpp:306-314, 328-338), and `disconnect`/`stopSync` then read the handle through it (MbedBluetoothPlatform.cpp:313, 326). | A central connection: when `triggerDisconnect` runs, the stack slot of the finished callback has been reused, so `disconnect` passes whatever value is there. | Hand over a handle that outlives the callback, such as the stack handle itself carried in the `handle_t`, so the timed disconnect ends the connection that was made. | high; not executed | MbedBuild.StaleHandleAsWritten | MbedBuild.TimedDisconnectExact |
| mbed/source/MbedBluetoothPlatform.cpp:367-373 | `copy_string` increments the field length `n`, then resizes the `std::vector<char>` to `n + 1` bytes and copies that many, one byte past the field. It also writes one past the vector's end with `*v.end() = 0`. | A name field "abc" followed in the payload by byte 2: the reported name is "abc" plus that byte. | Copy exactly the field's bytes, so the name is the field. | high; not executed | MbedPlatform.CopyStringAsWrittenOverreads | MbedPlatform.ReportedNameExact |
