# Ambulance proximity engine — a Dafny model

This project models the simulation engine of an ambulance traffic-control
demo. An ambulance moves along a synthetic path or follows live position
fixes. Each position update is checked against a fixed registry of three
traffic signals. A signal that comes within 100 m is switched to green and an
outbound "go green" request may be sent. A signal the ambulance has left
goes back to red. Everything the engine does is recorded in an event log
that keeps the newest 100 entries, newest first.

The model has four modules:

- `Geo` (`geo.dfy`): coordinates, signals and their three-valued status, the
  inclusive 100 m threshold, the default registry and start point. The
  distance is any total function satisfying the two laws the haversine form
  guarantees: zero from a point to itself, and symmetric.
- `EventLog` (`event_log.dfy`): the log updater (new entry in front of at
  most 99 previous ones) and its consequences: newest first, never more
  than 100 entries, the oldest dropped.
- `Proximity` (`proximity.dfy`): one proximity pass as pure functions. It
  gives the registry after the pass, the entries logged and the requests
  issued, in registry order. It holds the registry/triggered-set invariant
  (`Coherent`) and the lemmas about a pass.
- `Engine` (`engine.dfy`): class `Simulation` with the engine's state cells:
  position, signals, run flag, log, settings, timer flag, step counter,
  triggered set and requests in flight. Its commands update those cells in
  place and are proved against the `Proximity` and `EventLog` functions.
  `Valid()` keeps the invariant across every command.

The range test is inclusive: a signal at exactly 100 m is in range
(`src/hooks/useSimulation.ts:42`).

Position updates come from two places, and they differ in which request
settings they use. A live fix runs with the current settings, because the
live-feed subscription is renewed whenever they change
(`src/hooks/useSimulation.ts:113`). A timer tick runs with the settings that
were current when Start installed the timer (`src/hooks/useSimulation.ts:72,
89, 120`). The request switch stays editable while the simulation runs, and so does
the endpoint field while requests are on
(`src/components/ControlPanel.tsx:65-72`). The model keeps
those captured settings in `tickSendRequests` and `tickEndpoint`; see
"## Findings".

## Model

| member | source | states |
|---|---|---|
| `Geo.DefaultTrafficLights` | src/lib/geo.ts:32-57 | the default registry has exactly three signals, with distinct ids "tl-1", "tl-2", "tl-3", all red; the third is "Hospital Junction" at (12.9740, 77.5930) |
| `Geo.InRangeIsInclusive` | src/lib/geo.ts:30 | the proximity threshold is 100 m and the range test is inclusive: exactly 100 m is in range, anything farther is not, and anything nearer than an in-range distance is in range |
| `Geo.DefaultStartIsOffEverySignal` | src/lib/geo.ts:59-62 | the default start is (12.9700, 77.5920); it is not at any default signal, and the three signals stand at three different places |
| `Geo.InRangeAtSignal` | src/lib/geo.ts:16-30 | under the distance laws an ambulance standing on a signal is in range of it, and the range test does not depend on the order of the two points |
| `EventLog.AddLog` | src/hooks/useSimulation.ts:30-35 | after adding an entry it is at index 0, followed by the first at most 99 previous entries in their order; the length is min(previous + 1, 100) |
| `EventLog.AddAllNewestFirst` | src/hooks/useSimulation.ts:30-35 | adding entries one after another yields them newest first, followed by the earlier log, cut to 100 entries |
| `EventLog.LogStaysBounded` | src/hooks/useSimulation.ts:30-35 | a log of at most 100 entries stays at most 100 entries however many are added |
| `EventLog.NewestEntriesKept` | src/hooks/useSimulation.ts:30-35 | after 100 or more additions the log is exactly the newest 100 added entries, newest at the head; every older entry and the earlier log are gone |
| `Proximity.ChangeOf` | src/hooks/useSimulation.ts:44-68 | a signal enters exactly when it is in range and not triggered, leaves exactly when it is out of range and triggered, and is kept exactly when range and triggered agree; afterwards it is triggered exactly when it is in range |
| `Proximity.UpdatedLights` | src/hooks/useSimulation.ts:39-68 | a pass keeps the registry's length and order, and keeps every field of every signal except its status |
| `Proximity.DefaultsCoherent` | src/hooks/useSimulation.ts:20-28 | the all-red defaults with an empty triggered set satisfy the invariant: distinct ids, and a signal is green exactly when its id is in the set |
| `Proximity.CoherentNeverYellow` | src/lib/geo.ts:10 | under the invariant no signal is yellow: the engine only produces red and green |
| `Proximity.UpdatePreservesCoherence` | src/hooks/useSimulation.ts:44-66 | a pass keeps the invariant; afterwards the triggered set is exactly the set of in-range ids, and each signal is green if in range and red if not, all else unchanged |
| `Proximity.ChangeFollowsRange` | src/hooks/useSimulation.ts:42-68 | after a pass at one fix, the next fix enters a signal exactly when it moved into range, leaves it exactly when it moved out, and keeps it otherwise |
| `Proximity.StayingInRangeIsQuiet` | src/hooks/useSimulation.ts:44-68 | a fix at which no signal's range differs from the previous fix changes no signal, logs nothing and issues no request; staying in range over repeated ticks logs nothing more |
| `Proximity.EnteringSignalIsRequested` | src/hooks/useSimulation.ts:44-52 | with requests enabled, every signal a pass enters gets a request to the endpoint carrying its id and name |
| `Proximity.LastQuietEntryIsNewest` | src/hooks/useSimulation.ts:44-58 | with requests disabled, when the last signal of the registry enters, the newest log entry after the pass is the "would POST" entry naming its address |
| `Proximity.EntryCounts` | src/hooks/useSimulation.ts:44-65 | a pass logs exactly one proximity entry per entering signal, and one info entry per leaving signal plus one per entering signal when requests are disabled. It logs no request or error entry at once and issues exactly one request per entering signal when requests are enabled |
| `Engine.SettledEntry` | src/hooks/useSimulation.ts:53-55 | a completed request logs a request entry exactly when it was delivered, naming the endpoint and the signal, and an error entry, naming the endpoint and the failure reason, exactly when it failed |
| `Engine.Simulation.constructor` | src/hooks/useSimulation.ts:19-28 | the initial state: default position and registry, idle, empty log, synthetic path, endpoint "http://192.168.1.100", requests disabled, no timer, step 0, empty triggered set |
| `Engine.Simulation.Log` | src/hooks/useSimulation.ts:30-35 | logging replaces the log with the updater's result and changes nothing else |
| `Engine.Simulation.ProcessSignal` | src/hooks/useSimulation.ts:40-68 | the per-signal rule, under the request settings it is given. An entering signal gets its id added, turns green, and logs a proximity entry then a request or an info entry. A leaving signal gets its id removed, turns red, and logs an info entry. Any other signal is returned unchanged with nothing logged |
| `Engine.Simulation.MapSignals` | src/hooks/useSimulation.ts:39-70 | walking the registry in order with the per-signal rule gives the pass's registry, set, log and requests, each signal judged against the set before the walk |
| `Engine.Simulation.CheckProximity` | src/hooks/useSimulation.ts:37-73 | one pass, under the request settings of the handler that runs it, keeps `Valid()`. Each signal becomes green if in range and red if not, only its status changing, and the triggered set becomes the in-range ids. The pass's entries are logged and its requests issued |
| `Engine.Simulation.MoveTo` | src/hooks/useSimulation.ts:87-88 | a position update moves the ambulance, then runs one pass; a signal the ambulance stands on is green afterwards |
| `Engine.Simulation.OnPositionFix` | src/hooks/useSimulation.ts:92-106 | a live fix comes only while running with the live feed selected; it moves the ambulance and runs one pass with the current request settings |
| `Engine.Simulation.SimulateStep` | src/hooks/useSimulation.ts:76-89 | a tick comes only while a timer is installed. It increases the step counter by exactly one and runs the position update at the path point for the new step, with the request settings captured when the timer was installed |
| `Engine.Simulation.SimulateStepCurrentSettings` | src/hooks/useSimulation.ts:76-89 | the corrected tick: the same step and move, with the request settings current at the tick |
| `Engine.Simulation.Start` | src/hooks/useSimulation.ts:115-122 | start sets running and logs one info entry naming the position source. Unless the live feed is selected, it installs a tick timer that keeps the request settings of that moment |
| `Engine.ArrivalAtHospital` | src/hooks/useSimulation.ts:44-58 | from the default registry and an empty triggered set, a pass standing on "Hospital Junction" turns it green; with requests disabled it issues nothing and its newest entry is the "would POST" entry, with requests enabled it requests that signal |
| `Engine.StartThenSwitchOn` | src/hooks/useSimulation.ts:115-122 | after start with requests disabled and the switch then turned on, the engine runs with a timer installed, the live switch is on and the timer's captured switch is off |
| `Engine.StaleSettingsScenario` | src/hooks/useSimulation.ts:72-120 | on a path whose first point is "Hospital Junction" (not the shipped path): start with requests disabled, enable them, tick. The signal turns green, the newest entry is "would POST" to its address, and no request is issued |
| `Engine.CurrentSettingsScenario` | src/hooks/useSimulation.ts:44-52 | on the same path, the corrected tick requests "Hospital Junction" from the endpoint |
| `Engine.Simulation.Stop` | src/hooks/useSimulation.ts:124-131 | stop leaves the engine idle with no timer, and logs one "stopped" entry on every call, also when already idle |
| `Engine.Simulation.Reset` | src/hooks/useSimulation.ts:133-140 | reset leaves the engine idle with no timer, step 0 and an empty triggered set. The position is the default start, the signals are the defaults and the log is empty. Requests in flight are untouched |
| `Engine.Simulation.OnPostSettled` | src/hooks/useSimulation.ts:49-55 | a request completes once. It leaves the in-flight list and logs exactly one request or error entry; signals and the triggered set are untouched, so the signal stays green |

## Left out

- The haversine arithmetic (`src/lib/geo.ts:16-28`) is floating point. The distance is a parameter of the engine, constrained only by `DistanceLaws`. The model therefore does not show that the default signals are out of range at the default start.
- The synthetic path formula, including its `sin(step * 0.1)` wobble (`src/hooks/useSimulation.ts:79-85`), is floating point. The path is a parameter `pathAt` from step number to coordinate. By the haversine formula the shipped path never comes within 100 m of a default signal: the closest approach is about 132 m, to "Main St & 1st Ave" at step 2, and every later step is farther. So the synthetic mode never switches a signal, although the comment at `src/hooks/useSimulation.ts:81` says the path passes near them; the abstract `pathAt` cannot show this.
- The timer's 500 ms cadence is timer plumbing. The timer is the flag `intervalActive` with the settings it captured, and `SimulateStep` is what it calls while the flag is set; after stop or reset the flag is clear, so no tick follows.
- Calling start while already running would install a second timer and lose the handle of the first. The model keeps one timer flag, and the control panel offers Start only while idle (`src/components/ControlPanel.tsx:36-44`).
- The live-position subscription and its lifecycle (`src/hooks/useSimulation.ts:92-113`) are platform I/O. Each fix goes through `OnPositionFix`, which requires the engine to be running with the live feed selected, as the subscription is (`src/hooks/useSimulation.ts:93`). The "not supported" and "GPS error" error entries that subscription logs are not modelled.
- The outbound POST is network I/O. It is the in-flight list plus `OnPostSettled`, which the caller invokes with the outcome. The URL, headers and JSON body are not modelled.
- The entry id (a random UUID) and the timestamp (the wall clock) are not modelled: an entry is its category and message.
- Message text, emoji and the rounded distance are not modelled: a message is a `Message` variant carrying the names, addresses and reasons the text interpolates.
- The exported raw `setTrafficLights` bypasses the engine and could break the invariant; it is not modelled. The three settings (`useRealGps`, `espEndpoint`, `sendRequests`) are public fields that the presentation layer assigns directly; only Start copies the request settings into the timer's fields.
- React defers state updaters and may run them later or more than once. The model runs every update at once, in call order.
- Rendering (map, panels, page) is presentation only.

## Findings

| source | as written | input that shows it | evidently intended | confidence | as-written member | corrected member |
|---|---|---|---|---|---|---|
| src/hooks/useSimulation.ts:120 | the interval keeps the `simulateStep` of the render in which Start ran, so every tick uses that render's request switch and endpoint (lines 72, 89); changes made while running, which the control panel allows (src/components/ControlPanel.tsx:65-72), reach the live feed but not the ticks | latent with the shipped path and registry, which never bring a tick within 100 m of a signal. It shows with a path or registry that brings a tick within 100 m of tl-3: start with requests off, switch them on, then let such a tick run. The signal turns green, "would POST to 192.168.1.102" is logged, and nothing is sent | a tick honours the settings in force when it fires, as a live fix does | medium, not executed | `Engine.StaleSettingsScenario` (with `Engine.Simulation.SimulateStep`) | `Engine.Simulation.SimulateStepCurrentSettings`, `Engine.CurrentSettingsScenario` |
