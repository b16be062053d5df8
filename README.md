# Lighting controller platform and SimpleThermostat, in Dafny

This project models the core of a Homebridge platform plugin that talks to a lighting controller
over a TCP line protocol (`src/platform.ts`), together with the plugin's one accessory that
carries its own control logic, the SimpleThermostat (`src/device_types/simple_thermostat.ts`).

The platform object (`Platform.LightingPlatform`):

- keeps a text buffer of what the socket has delivered (`on_data`);
- cuts that buffer into lines (`LineCodec`) and tries five regular expressions on every line
  (`Patterns`, `Protocol`);
- passes what they match to the dimmer, switch, toggle and thermostat handlers (`Dispatch`);
- answers the controller's `Ping()` with `Pong()` and runs the ping and pong keepalive timers;
- queues outbound commands and writes them while the socket accepts them (`Outbound`, `enqueue`
  and `on_drain`);
- sends a configuration burst whenever the connection becomes ready (`on_ready`, `Config`), in
  JavaScript's `for...in` key order (`JsObject`);
- at launch, builds its device tables from the configured `lighting_table`, including
  `thermostat_map`, which goes from a measurement key found in a thermostat's address to that
  address (`discoverDevices`, `Discovery`, `MeasurementKey`).

The thermostat (`Thermostat`) is modelled in two parts:

- pure functions on its state record: the staleness check of the measurement, the heating
  decision with its 1-degree hysteresis, and the switch command it emits;
- a class whose setters and controller callbacks change that record and feed the platform's
  outbound queue.

Timers are flags or counters. Socket operations other than writing are recorded in a log.
Calls on the dimmer, switch and toggle handlers, whose code is not part of this model, are
recorded as actions. `Date.now()` and JavaScript's `parseFloat` are parameters.

Two behaviours of the code are modelled as written:

- a DimmerSet level that does not parse is still passed on, as NaN (src/platform.ts:113; `None`
  for `parseInt`), and so is a Measurement value (src/platform.ts:166; whatever the `parseFloat`
  parameter yields);
- `on_ready` (src/platform.ts:198-215) schedules the ping timer but does not cancel a pending
  reconnect.

## Model

| member | source | states |
|---|---|---|
| `LineCodec.IndexOf` | src/platform.ts:104 | -1 exactly when no newline is at or after `from`; otherwise the position of the first one |
| `LineCodec.SplitLines` | src/platform.ts:101-175 | the lines handled, each followed by its newline, then the buffer left behind, spell out the input exactly; no line and not the remainder contains a newline |
| `LineCodec.SplitUnique` | src/platform.ts:101-175 | any cutting of a text into newline-free lines and a newline-free tail is the one `SplitLines` gives |
| `LineCodec.CutFirst` | src/platform.ts:172-173 | cutting the first line off the buffer keeps the handled lines plus the buffer equal to the text received |
| `LineCodec.SplitAppend` | src/platform.ts:101-175 | splitting `a + b` handles the lines of `a`, then the lines of `a`'s leftover followed by `b`, and leaves the same tail |
| `LineCodec.Feed` | src/platform.ts:101-175 | the lines handled over several calls hold no newline, and after at least one chunk neither does the buffer left |
| `LineCodec.FeedMatchesWhole` | src/platform.ts:101-175 | however a stream is cut into chunks, calling `on_data` once per chunk handles the same lines, in the same order, and leaves the same buffer as one call with the whole stream |
| `Patterns.LastFit` | src/platform.ts:108 | a greedy `(.*)` group ends at the last place where the rest of the pattern fits; none is found only when it fits nowhere |
| `Patterns.FirstMatch` | src/platform.ts:108-109 | the match found starts at the leftmost position where the whole pattern matches; none is found only when it matches at no position |
| `Patterns.Exec` | src/platform.ts:108-109 | a match yields one group per `(.*)` of the pattern |
| `Patterns.ExecNoneIff` | src/platform.ts:108-109 | `exec` returns null exactly when the pattern matches at no position of the line |
| `Patterns.ExecAtStart` | src/platform.ts:108-109 | a line that starts with the pattern's head, and whose rest fits the remaining literals, matches with the greedy groups of that rest |
| `Protocol.DimmerSetRoundTrip` | src/platform.ts:108-109 | a DimmerSet line with plain fields yields its address, level and fade time |
| `Protocol.SwitchRoundTrip` | src/platform.ts:116-117 | a Switch line yields its word and its address |
| `Protocol.PingPongRoundTrip` | src/platform.ts:145-153 | the Ping and Pong lines are recognised by their patterns |
| `Protocol.MeasurementRoundTrip` | src/platform.ts:158-160 | a Measurement line yields its Device+Channel key, its units and its value |
| `Protocol.DimmerSetOnly` | src/platform.ts:108-169 | a DimmerSet line matches none of the other four patterns |
| `Protocol.SwitchOnly` | src/platform.ts:108-169 | a Switch line matches none of the other four patterns |
| `Protocol.DimmerSetNotMeasurement` | src/platform.ts:158-160 | a DimmerSet line with plain fields is not a Measurement line |
| `Protocol.SwitchNotMeasurement` | src/platform.ts:158-160 | a Switch line with plain fields is not a Measurement line |
| `Protocol.PingPongOnly` | src/platform.ts:108-169 | the Ping line and the Pong line each match only their own pattern |
| `Protocol.PingOnly` | src/platform.ts:145-156 | the Ping line and the Pong line each match neither the DimmerSet, the Switch nor the Measurement pattern, nor the other one's pattern |
| `Protocol.MeasurementOnly` | src/platform.ts:108-169 | a Measurement line matches none of the four controller patterns |
| `Protocol.NoColonNoControllerMatch` | src/platform.ts:108-153 | a line without a `:` matches no `Lighting_controller::` pattern |
| `Protocol.ControllerMismatch` | src/platform.ts:108-153 | a controller line whose command differs from a pattern's command word does not match that pattern |
| `Protocol.ControllerNotMeasurement` | src/platform.ts:158-160 | a controller line whose only `(` is not followed by `D` is not a Measurement line |
| `Dispatch.LineActions` | src/platform.ts:106-169 | every call a line makes goes to a handler held, under the call's address, by the table it looks in |
| `Dispatch.Perform` | src/platform.ts:119-167 | a call never adds or removes a thermostat and only appends to the lines sent |
| `Dispatch.Run` | src/platform.ts:105-174 | a run of calls never adds or removes a thermostat and only appends to the lines sent |
| `Dispatch.DimmerSetDispatch` | src/platform.ts:108-115 | a DimmerSet line calls `updateLevel` on the dimmer it names, with the level as `parseInt(_, 10)` reads it, if that dimmer exists; nothing else happens |
| `Dispatch.SwitchDispatch` | src/platform.ts:116-143 | a SwitchOn or SwitchOff line calls `updateOn` on the switch, the toggle and the thermostat holding its address, in that order; nothing else happens |
| `Dispatch.OtherSwitchWordIgnored` | src/platform.ts:116-143 | a Switch line whose word is neither On nor Off does nothing |
| `Dispatch.PingPongDispatch` | src/platform.ts:145-156 | a Ping line only answers with a Pong; a Pong line only stops the pong timer |
| `Dispatch.MeasurementDispatch` | src/platform.ts:158-169 | a Measurement line reaches the thermostat that `thermostat_map` names for its key, if that thermostat exists, with the value as `parseFloat` reads it; otherwise nothing happens |
| `Dispatch.PingAnswered` | src/platform.ts:145-150 | a Ping line puts exactly one Pong on the outbound queue and changes no thermostat |
| `Dispatch.RunSwitchTargets` | src/platform.ts:119-142 | of the calls a switch line makes, only the thermostat's changes a thermostat or the outbound queue |
| `Dispatch.RunLine` | src/platform.ts:106-169 | the effect of a line is the effect of each pattern's calls, in the order the patterns are tried |
| `Dispatch.RunAppend` | src/platform.ts:105-174 | the effect of two runs of calls is the effect of the first, then of the second |
| `Dispatch.RunLinesSnoc` | src/platform.ts:105-174 | the effect of several lines and then one more is the effect of that line on the state the others left |
| `JsText.StripSpaces` | src/platform.ts:317 | the result holds exactly the non-white-space characters of the input and is no longer |
| `JsText.StripSpacesAppend` | src/platform.ts:317 | removing white space from two texts laid end to end removes it from each |
| `JsText.StripSpacesKeeps` | src/platform.ts:317 | a text without white space is unchanged |
| `JsText.ParseInt` | src/platform.ts:113 | NaN exactly when no digit follows the leading white space and optional sign |
| `JsText.ParseIntText` | src/platform.ts:113 | the decimal text of any integer, followed by anything but a digit, parses back to that integer |
| `JsText.ParseIntNatural` | src/platform.ts:113 | the decimal text of a natural number, followed by anything but a digit, parses back to it |
| `JsText.ParseIntNegative` | src/platform.ts:113 | a minus sign and the decimal text of a positive number parse back to the negative number |
| `JsObject.Insert` | src/platform.ts:265-306 | assigning a key adds it at the end of the key order if it is new and leaves the order unchanged if it is not |
| `JsObject.InsertKeepsDistinct` | src/platform.ts:265-306 | assigning a key never lists a key twice |
| `JsObject.ForInOrder` | src/platform.ts:202-213 | `for...in` visits every key once: the array-index keys in ascending numeric order, then the other keys in insertion order |
| `JsObject.NamedKeysInOrder` | src/platform.ts:202-213 | an object without array-index keys is visited in insertion order |
| `JsObject.SortAscending` | src/platform.ts:202-213 | the array-index keys sorted ascending, as a permutation of them |
| `MeasurementKey.Key` | src/platform.ts:312-317 | the key extracted from a thermostat address contains no `;` and no white space |
| `MeasurementKey.KeyExists` | src/platform.ts:313-315 | the pattern matches exactly when some `;` in the address is followed by optional white space, `measurement`, optional white space, `=`, optional white space and at least one character other than `;` |
| `MeasurementKey.NoSemicolonNoKey` | src/platform.ts:313-315 | an address without `;` carries no key |
| `MeasurementKey.KeyOfTaggedAddress` | src/platform.ts:312-319 | an address `a; measurement = k`, with `a` on one line and no `;` in `k`, carries the key `k` with its white space removed |
| `Outbound.Outbox.constructor` | src/platform.ts:40-41 | the queue starts empty and not ready to write |
| `Outbound.Outbox.Write` | src/platform.ts:181 | the line is handed to the socket; the socket's answer is unconstrained |
| `Outbound.Outbox.Enqueue` | src/platform.ts:326-332 | the line and its newline are queued; when the socket is ready, they go straight out; what was written followed by what waits is always everything queued, in order |
| `Outbound.Outbox.OnDrain` | src/platform.ts:177-183 | queued lines are written oldest first; what stays queued is a suffix of the old queue; something is written if anything waited; a non-empty queue is left only when the socket refused more |
| `Config.EachLine` | src/platform.ts:202-213 | one command per key visited |
| `Config.ConfigBurstCounts` | src/platform.ts:198-215 | the burst starts with the controller's address and has one command per table entry; the address is configured once; every dimmer once; every other address once per switch, toggle and thermostat table holding it; nothing else is sent |
| `Config.ConfigBurst` | src/platform.ts:198-215 | the burst starts with the controller's address command and has one command per table entry |
| `Config.AddressOnce` | src/platform.ts:201 | no device command can be mistaken for the controller's address command |
| `Config.DimmerOnce` | src/platform.ts:202-204 | a dimmer's command occurs as often as that dimmer is visited |
| `Config.SwitchCounted` | src/platform.ts:205-213 | a switch command occurs as often as its address is visited in the switch, toggle and thermostat tables together |
| `Config.ConfigureDimmerOneToOne` | src/platform.ts:203 | different dimmers get different commands |
| `Config.ConfigureSwitchOneToOne` | src/platform.ts:206-212 | different addresses get different switch commands |
| `Config.KindChars` | src/platform.ts:201-212 | the Configure, ConfigureDimmer and ConfigureSwitch commands differ at a fixed position |
| `Config.FramedAppend` | src/platform.ts:328 | adding newlines line by line commutes with laying lines end to end |
| `Discovery.Filed` | src/platform.ts:265-306 | the device's address joins exactly the table of its type; a thermostat gets a handler seeded from its saved context; `thermostat_map` is untouched |
| `Discovery.MapOne` | src/platform.ts:312-321 | keys are only added; afterwards each key names the thermostat that carries it or keeps its old entry |
| `Discovery.DiscoverOne` | src/platform.ts:241-322 | one pass keeps every thermostat and every map key, files a thermostat under its address and sends each key the device carries to that address |
| `Discovery.Discover` | src/platform.ts:238-324 | discovery never removes an entry of a table or a key of `thermostat_map` |
| `Discovery.MapOneAt` | src/platform.ts:312-321 | one device adds a key to `thermostat_map` exactly when it is a thermostat carrying that key, and then maps the key to its address; other keys are untouched |
| `Discovery.MapOneKeeps` | src/platform.ts:312-321 | every key of `thermostat_map` names a thermostat whose address carries that key, before and after one device |
| `Discovery.FiledKeeps` | src/platform.ts:265-306 | filing a device lists no address twice, keeps the thermostat key list equal to the thermostat table and files a thermostat under its address |
| `Discovery.DiscoverOneKeeps` | src/platform.ts:241-322 | one pass of the discovery loop keeps the tables well formed |
| `Discovery.DiscoverKeeps` | src/platform.ts:238-324 | discovery keeps the tables well formed |
| `Discovery.DiscoverFiles` | src/platform.ts:265-306 | after discovery an address is in a table exactly when it was before or the lighting table lists it with that table's type; other device types are ignored |
| `Discovery.DiscoverSeeds` | src/platform.ts:274-305 | a listed thermostat starts from the saved context of the accessory with its identifier, or from the defaults when that accessory is new; an unlisted one keeps its state |
| `Discovery.DiscoverMapStep` | src/platform.ts:312-321 | the last device decides the last change to `thermostat_map` |
| `Discovery.DiscoverMapKeys` | src/platform.ts:312-321 | after discovery `thermostat_map` holds a key exactly when it held it before or some listed thermostat carries it |
| `Discovery.DiscoverMapLast` | src/platform.ts:312-321 | the thermostat that carries a key last in the lighting table is the one `thermostat_map` names |
| `Discovery.DiscoverMapKept` | src/platform.ts:312-321 | a key that no listed thermostat carries keeps its entry, or its absence |
| `Thermostat.Seeded` | src/device_types/simple_thermostat.ts:8-35 | mode and setpoint are known exactly when the saved context holds them, and then take its values; the measurement and the heater's power start unknown, the heater off |
| `Thermostat.Expire` | src/device_types/simple_thermostat.ts:192-199 | the measurement stays valid exactly when it was valid and the clock lies between its timestamp and 900000 ms later; nothing else changes |
| `Thermostat.Decide` | src/device_types/simple_thermostat.ts:201-217 | the heater is wanted on only in Heat mode with mode, measurement and setpoint known and the measurement below the setpoint plus 1; in that state it is always wanted on at or below the setpoint minus 1 |
| `Thermostat.Emits` | src/device_types/simple_thermostat.ts:218-224 | a command goes out exactly when the power is unknown or differs from the decision on the checked state, and it carries that decision |
| `Thermostat.Processed` | src/device_types/simple_thermostat.ts:179-228 | afterwards the power is known and equals the decision; only the measurement's validity and the power change |
| `Thermostat.Accept` | src/device_types/simple_thermostat.ts:106-177 | each entry point changes only its own field and marks it known; a reading is stamped with the clock; a mode value other than OFF or HEAT keeps the mode |
| `Thermostat.Step` | src/device_types/simple_thermostat.ts:106-228 | after any entry point the power is known, and the heater is on only in Heat mode with everything known and the measurement below the setpoint plus 1 |
| `Thermostat.CurrentStateOf` | src/device_types/simple_thermostat.ts:81-91 | HEAT exactly when the heater is believed on, OFF exactly when it is not |
| `Thermostat.TargetStateOf` | src/device_types/simple_thermostat.ts:93-104 | HEAT exactly in Heat mode, OFF for every other mode |
| `Thermostat.SeededDefaults` | src/device_types/simple_thermostat.ts:8-35 | a new handler takes the saved mode and setpoint when present, and Off and 25.0 otherwise, marked known only when saved; measurement and power start unknown and off |
| `Thermostat.FirstCommandIsOff` | src/device_types/simple_thermostat.ts:179-228 | before any measurement, the first call on a new handler commands the heater off, unless it reports that the heater is already off; the heater is then known to be off |
| `Thermostat.StalenessWindow` | src/device_types/simple_thermostat.ts:192-199 | a measurement stays valid exactly when it is neither from the future nor more than 900000 ms old; nothing else changes |
| `Thermostat.ReadingLifetime` | src/device_types/simple_thermostat.ts:148-199 | a reading taken at `t` is trusted exactly from `t` to `t + 900000` |
| `Thermostat.InvalidationPersists` | src/device_types/simple_thermostat.ts:106-199 | once dropped, a measurement stays invalid until the next reading |
| `Thermostat.HeatingBands` | src/device_types/simple_thermostat.ts:201-217 | in Heat mode with everything known, the heater goes on at or below setpoint minus 1, off at or above setpoint plus 1, and keeps its state strictly between |
| `Thermostat.FailSafeOff` | src/device_types/simple_thermostat.ts:201-217 | without a known mode, a fresh measurement and a known setpoint, or outside Heat mode, the heater is decided off, and that is known |
| `Thermostat.EmitOnlyOnChange` | src/device_types/simple_thermostat.ts:218-227 | a command goes out exactly when the decision differs from the believed power or that power is unknown; it carries the decision, which becomes the believed and known power; nothing else changes apart from the staleness check |
| `Thermostat.ProcessIdempotent` | src/device_types/simple_thermostat.ts:179-228 | processing twice at the same time changes nothing the second time and sends nothing |
| `Thermostat.DecideStable` | src/device_types/simple_thermostat.ts:201-217 | believing the heater is in the state just decided does not change the decision |
| `Thermostat.EchoIsSilent` | src/device_types/simple_thermostat.ts:160-228 | the controller echoing the believed heater state changes nothing and sends nothing while the measurement has not expired |
| `Thermostat.ReportAdoptedInBand` | src/device_types/simple_thermostat.ts:160-228 | a heater report strictly inside the band is adopted without a command |
| `Thermostat.ReportCorrected` | src/device_types/simple_thermostat.ts:160-228 | a heater report that disagrees with the decision is answered with a command restoring the decision |
| `Thermostat.ForcedOutsideBand` | src/device_types/simple_thermostat.ts:160-228 | below the band a report of off is answered by switching on; above it a report of on is answered by switching off |
| `Thermostat.ModeSetterRoundTrip` | src/device_types/simple_thermostat.ts:93-122 | setting OFF or HEAT makes the target getter read that value back; other values keep the mode; the mode becomes known either way |
| `Thermostat.OffModeKeepsHeaterOff` | src/device_types/simple_thermostat.ts:106-228 | outside Heat mode every call leaves the heater off, and the current-state getter says OFF |
| `Thermostat.SimpleThermostat.constructor` | src/device_types/simple_thermostat.ts:24-35 | the handler starts in the state seeded from the saved context |
| `Thermostat.SimpleThermostat.GetCurrentHeatingCoolingState` | src/device_types/simple_thermostat.ts:81-91 | answers as `CurrentStateOf` the handler's state |
| `Thermostat.SimpleThermostat.GetTargetHeatingCoolingState` | src/device_types/simple_thermostat.ts:93-104 | answers as `TargetStateOf` the handler's state |
| `Thermostat.SimpleThermostat.GetCurrentTemperature` | src/device_types/simple_thermostat.ts:124-129 | the last measurement, trusted or not |
| `Thermostat.SimpleThermostat.GetTargetTemperature` | src/device_types/simple_thermostat.ts:131-136 | the setpoint |
| `Thermostat.SimpleThermostat.ProcessState` | src/device_types/simple_thermostat.ts:179-228 | the new state is `Processed` of the old one, whose properties are the lemmas above; the one command `Emits` names is queued for the handler's address, and nothing else; lines already written to the socket stay written |
| `Thermostat.SimpleThermostat.SetTargetHeatingCoolingState` | src/device_types/simple_thermostat.ts:106-122 | the mode is stored and saved in the context, then the state is processed and its command queued; lines already written to the socket stay written |
| `Thermostat.SimpleThermostat.SetTargetTemperature` | src/device_types/simple_thermostat.ts:138-146 | the setpoint is stored and saved in the context, then the state is processed and its command queued; lines already written to the socket stay written |
| `Thermostat.SimpleThermostat.UpdateThermostat` | src/device_types/simple_thermostat.ts:148-158 | the reading is stored with the time it arrived, then the state is processed and its command queued; lines already written to the socket stay written |
| `Thermostat.SimpleThermostat.UpdateOn` | src/device_types/simple_thermostat.ts:160-177 | the reported heater state is believed, then the state is processed and its command queued; lines already written to the socket stay written |
| `Platform.LightingPlatform.constructor` | src/platform.ts:23-59 | a new platform has an empty buffer, empty tables, both keepalive timers cleared and nothing queued |
| `Platform.LightingPlatform.NotifyThermostat` | src/platform.ts:163-167 | a call on a thermostat changes only that thermostat and the outbound queue, as the thermostat's own model says; lines already written to the socket stay written |
| `Platform.LightingPlatform.UpdateOnAll` | src/platform.ts:119-142 | `updateOn` reaches every table holding the address; its effect is the thermostat's; lines already written to the socket stay written |
| `Platform.LightingPlatform.DimmerSetStep` | src/platform.ts:108-115 | records the dimmer call a DimmerSet line makes; it changes no thermostat and queues nothing |
| `Platform.LightingPlatform.SwitchStep` | src/platform.ts:116-143 | makes the calls of a Switch line and has their effect; lines already written to the socket stay written |
| `Platform.LightingPlatform.PingStep` | src/platform.ts:145-150 | a Ping line queues a Pong; lines already written to the socket stay written |
| `Platform.LightingPlatform.PongStep` | src/platform.ts:152-156 | a Pong line cancels the pong timer; nothing else |
| `Platform.LightingPlatform.MeasurementStep` | src/platform.ts:158-169 | makes the call of a Measurement line and has its effect; lines already written to the socket stay written |
| `Platform.LightingPlatform.CommandSteps` | src/platform.ts:108-143 | the DimmerSet and then the Switch pattern are applied to the line; lines already written to the socket stay written |
| `Platform.LightingPlatform.SessionSteps` | src/platform.ts:145-169 | the Ping, Pong and Measurement patterns are applied to the line, in that order; lines already written to the socket stay written |
| `Platform.LightingPlatform.DispatchLine` | src/platform.ts:106-169 | one line makes exactly the calls `LineActions` lists, which the dispatch lemmas characterise, and has exactly their effect; lines already written to the socket stay written |
| `Platform.LightingPlatform.HandleFirstLine` | src/platform.ts:104-173 | the buffer's first line is dispatched and cut off the buffer; the tables do not change; lines already written to the socket stay written |
| `Platform.LightingPlatform.OnData` | src/platform.ts:101-175 | after a chunk, the lines handled are exactly the complete lines of the old buffer plus the chunk, in order, and the buffer keeps the tail; every call is made and has its effect in that order; the pong timer stops exactly when some line is a Pong; lines already written to the socket stay written |
| `Platform.ProgressNext` | src/platform.ts:105-174 | the loop invariant of `on_data` survives one pass |
| `Platform.AnyPongIff` | src/platform.ts:152-156 | the pong timer is stopped by a batch of lines exactly when some line of it matches the Pong pattern |
| `Platform.LightingPlatform.EnqueueEach` | src/platform.ts:202-213 | one `for...in` loop queues one command per key, in the order given; lines already written to the socket stay written |
| `Platform.LightingPlatform.EnqueueBurst` | src/platform.ts:201-213 | the address command, then the four loops, are queued in order; lines already written to the socket stay written |
| `Platform.LightingPlatform.SendBurst` | src/platform.ts:201-214 | the configuration burst is queued, in `for...in` order, and the final drain writes at least one line, taken oldest first from what waited followed by the burst; lines already written to the socket stay written |
| `Platform.LightingPlatform.DrainedBurst` | src/platform.ts:177-183 | a drain after queuing a non-empty burst writes something, and only a prefix of what waited followed by the burst |
| `Platform.LightingPlatform.OnReady` | src/platform.ts:198-215 | the ping timer is scheduled; everything queued is the configuration burst, whose counts `ConfigBurstCounts` gives; the closing drain writes at least one line, a prefix of what waited followed by the burst; lines already written to the socket stay written |
| `Platform.LightingPlatform.OnClose` | src/platform.ts:90-95 | both keepalive timers are cleared and one more reconnect is scheduled |
| `Platform.LightingPlatform.Reconnect` | src/platform.ts:86-88 | a scheduled reconnect fires and the socket connects |
| `Platform.LightingPlatform.OnError` | src/platform.ts:189-192 | the socket is destroyed |
| `Platform.LightingPlatform.OnTimeout` | src/platform.ts:217-220 | the socket is destroyed |
| `Platform.LightingPlatform.PongTimeout` | src/platform.ts:26-28 | a missed Pong destroys the socket |
| `Platform.LightingPlatform.PingTimeout` | src/platform.ts:32-36 | a Ping is queued, the pong timer starts and the ping timer is scheduled again; lines already written to the socket stay written |
| `Platform.LightingPlatform.MapDevice` | src/platform.ts:312-321 | a thermostat whose address carries a key claims it in `thermostat_map` |
| `Platform.LightingPlatform.FileDevice` | src/platform.ts:255-306 | the device is filed under its address in the table of its type |
| `Platform.LightingPlatform.AddThermostat` | src/platform.ts:274-305 | a new handler, seeded from the context, replaces any earlier one for the address |
| `Platform.LightingPlatform.DiscoverStep` | src/platform.ts:241-322 | one pass of the discovery loop, keeping the tables well formed |
| `Platform.LightingPlatform.DiscoverDevices` | src/platform.ts:238-324 | the tables become `Discover` of the old ones, whose properties are the discovery lemmas above, and stay well formed |
| `Platform.LightingPlatform.Launch` | src/platform.ts:78-83 | devices are discovered, then the socket connects |

## Left out

- The socket: only `write`, `connect` and `destroy` are modelled. A write's answer is left free,
  and the port number is not modelled.
- Timers are flags and a counter of scheduled reconnects; the 15-, 30- and 10-second delays are
  not modelled. The source overwrites the pong and ping timer handles without clearing them. A
  timer that is still scheduled then fires later, and this is not modelled. `on_ready` does not
  clear such a timer either.
- One `on_data` call reads `Date.now()` once, as the parameter `now`. Between the lines of one
  chunk the clock does not advance.
- Each thermostat entry point (`setTargetHeatingCoolingState`, `setTargetTemperature`,
  `update_thermostat`, `updateOn`) also reads the clock once, as the parameter `now` of
  `Thermostat.Accept` and `Thermostat.Processed`. The source reads it up to three times: for
  the reading's timestamp (src/device_types/simple_thermostat.ts:153) and for each staleness
  comparison (src/device_types/simple_thermostat.ts:193 and :196). A clock that advances
  between these reads is not modelled.
- `parseFloat` is a parameter from text to a real number, and NaN and the infinities are not
  modelled. A thermostat therefore compares real numbers, not IEEE doubles. In the source, a
  NaN reading compares false both ways, so the heater keeps its state; that case is not
  modelled.
- The dimmer, switch and toggle handlers are outside the model. Calls to them are recorded as
  actions, with the arguments the source passes.
- Homebridge plumbing is not modelled:
  - `configureAccessory`;
  - the identifier `uuid.generate(device_type + address)`, taken as one-to-one;
  - accessory registration;
  - the HomeKit characteristics and their `updateCharacteristic` calls;
  - `accessory.context.device`;
  - logging.

  A restored accessory's context is given as a map from `device_type + address` to its saved
  mode and setpoint. The address its commands carry is taken to be the configured one.
- The thermostat's `queue` and `queue_ready` fields are never used by the source, so they are
  not modelled.
- JavaScript objects used as tables keep their keys in `for...in` order. Keys inherited from
  `Object.prototype` (such as `constructor`) are not modelled.
- `thermostat_map` is a `Map`, but it is written and read with brackets (src/platform.ts:163,
  src/platform.ts:319), so its entries are plain properties of the object. A measurement key
  naming a member of `Map.prototype` also answers a lookup: `size` reads 0 and so reaches a
  thermostat at address `0`. Such keys are not modelled.
- `JsText.ParseInt`: returns the exact integer the digits spell. JavaScript's `parseInt`
  returns a double, which rounds integers beyond 2^53; that rounding is not modelled.
- The round-trip lemmas of `Protocol` and `Dispatch` are stated for plain fields. A plain field
  holds no line terminator and none of `(`, `)`, `,` and `:`. A field holding one of these
  characters can move the greedy groups.
