# bambu-moonraker-shim, modelled in Dafny

The shim presents a Bambu Lab printer as a Klipper printer behind a Moonraker
API, so that Mainsail and Fluidd can drive it. Each of its parts is one Dafny
module here:

- **StateStore** (`state_manager.py`) is the Klipper-shaped printer state:
  - a fixed set of status objects, updated field by field;
  - a rolling temperature history of 600 samples per series;
  - a job tracker that turns print-state transitions into job records;
  - a status notification for the broadcast callback.

  `JobTracker` holds the tracker's transition logic as pure functions.
- **FanControl** (`fan_control.py`) turns a fan name and a speed into an
  `M106 P<channel> S<pwm>` line. A speed is a ratio, a raw PWM value or a
  percentage.
- **DeviceLink** (`bambu_client.py`) is the printer link:
  - a telemetry frame is translated into a state update;
  - commands go out as JSON envelopes on the printer's request topic;
  - temperatures are checked before a heater line is sent.

  The MQTT session is reduced to an outbox of envelopes.
- **FileBridge** (`ftps_client.py`) is the implicit-TLS FTP client:
  - listing with MLSD, falling back to NLST with SIZE queries;
  - creating parent directories, uploading and deleting.

  The server is a parameter that answers each command. The client keeps a
  log of the SIZE, MKD, STOR and DELE commands it sent.
- **Database** (`database_manager.py`) is Moonraker's namespaced key/value
  store, kept in memory. Its file is a snapshot.
- **Gateway** (`moonraker_api.py`) is the JSON-RPC dispatcher
  `handle_jsonrpc`. Its larger branches have their own modules:
  - `NestedKeys`: flatten_to_nested;
  - `Listing`: server.files.*;
  - `Webcams`: server.webcams.*;
  - `GcodeScript`: printer.gcode.script.

The helper modules are:
- `Wrappers`: Option and Result;
- `Json`: the JSON value type, `dict.get`, truthiness and `float()`;
- `Text`: Python's strip, split, lower/upper and replace on `seq<char>`.
  Whitespace is the full `str.isspace` set; case mapping is ASCII;
- `Numeric`: Python's `round`, which rounds half to even, and the clamp.

Where the code does something other than its names and comments suggest, the model follows the code:

- A field updated with None is written only if the object already had that
  field with a value other than None. `update_state` compares against
  `current.get(key)`, so a missing field reads as None and counts as
  unchanged.
- A transition from "paused" back to "printing" opens a fresh job. The
  tracker starts a job on every entry into "printing" from another state.
- MLSD entries are not filtered by the known-directory list. Only the NLST
  fallback uses that list.
- The auxiliary and chamber fan echoes write objects that the fixed status
  schema does not have, so the store drops them.
- A "webcams" database entry that is neither falsy nor a list makes
  server.webcams.post_item and server.webcams.delete_item raise.
  server.webcams.list answers such an entry as it is stored.
- Python rounds 254.5 to 254, so a raw speed is clamped to 255 only above
  254.5.

## Model

| member | source | states |
|---|---|---|
| FanControl.Channel | bambu_moonraker_shim/fan_control.py:26-30 | every fan has an M106 channel between 1 and 3 |
| FanControl.ChannelRoundTrip | bambu_moonraker_shim/fan_control.py:26-30 | reading the channel back gives the fan, so no two fans share a channel |
| FanControl.NormalizeFanTarget | bambu_moonraker_shim/fan_control.py:40-49 | a missing or empty name selects the part fan; any other name is accepted exactly when its form stripped of Unicode whitespace and lower-cased is an alias, and then selects that alias's fan; the error carries the name as given |
| FanControl.NonAsciiNameRejected | bambu_moonraker_shim/fan_control.py:44-49 | a name whose stripped form holds a character outside ASCII is refused, since lower-casing keeps such a character and every alias is ASCII |
| FanControl.CanonicalNamesSelectTheirFan | bambu_moonraker_shim/fan_control.py:40-46 | each fan's own name ("part", "aux", "chamber") selects that fan |
| FanControl.PartSelected | bambu_moonraker_shim/fan_control.py:40-46 | "part" selects the part fan |
| FanControl.AuxSelected | bambu_moonraker_shim/fan_control.py:40-46 | "aux" selects the auxiliary fan |
| FanControl.ChamberSelected | bambu_moonraker_shim/fan_control.py:40-46 | "chamber" selects the chamber fan |
| FanControl.AliasesAreClosed | bambu_moonraker_shim/fan_control.py:14-24 | the fan an alias selects has its own name in the alias table, mapped to the same fan |
| FanControl.UnknownNameRejected | bambu_moonraker_shim/fan_control.py:44-49 | "unknown" is refused with an error naming it |
| FanControl.ParseNumericSpeed | bambu_moonraker_shim/fan_control.py:52-68 | a number passes through; a string is read as text; a bool, null, list or object is an invalid-speed error |
| FanControl.SpeedFromText | bambu_moonraker_shim/fan_control.py:59-62 | blank or whitespace-only text is an invalid-speed error |
| FanControl.PercentMeansFraction | bambu_moonraker_shim/fan_control.py:63-65 | the text "p%" for a whole number p is the ratio p/100 |
| FanControl.SpeedFromPercent | bambu_moonraker_shim/fan_control.py:63-65 | a stripped text ending in "%" whose rest parses to v is the ratio v/100 |
| FanControl.ScaleSpeed | bambu_moonraker_shim/fan_control.py:74-79 | the PWM value always lies in 0..255; on [0,1] it is within 0.5 of 255x; a negative speed gives 0; on (1,254.5] it is within 0.5 of x; above 254.5 it gives 255; on both ranges a tie goes to the even neighbour, as Python's round does |
| FanControl.TiesGoToEven | bambu_moonraker_shim/fan_control.py:74-79 | 254.5 gives 254, 2.5 gives 2, and 0.5 (127.5 of 255) gives 128 |
| FanControl.NormalizeFanSpeed | bambu_moonraker_shim/fan_control.py:71-79 | accepted exactly when the speed parses, and then the PWM is the parsed number scaled, within 0..255 |
| FanControl.SameNumberSameSpeed | bambu_moonraker_shim/fan_control.py:71-79 | two speeds that parse to the same number give the same PWM |
| FanControl.SpeedBoundaries | bambu_moonraker_shim/fan_control.py:71-79 | -5 gives 0, 255 and 300 give 255, 0.5 gives 128, and true and blank text are refused |
| FanControl.RatioAndRawRangesMeet | bambu_moonraker_shim/fan_control.py:74-77 | 1.0 gives 255 but 2.0 and "150%" give 2: a speed just above the ratio range is read as a raw PWM value |
| FanControl.BuildFanCommand | bambu_moonraker_shim/fan_control.py:82-87 | the target is checked before the speed, so its error wins; the command is built exactly when both are valid; its line reads back as the fan's channel and the PWM, and no other text does, so the line is exactly the M106 text |
| FanControl.M106RoundTrip | bambu_moonraker_shim/fan_control.py:86 | the channel and the PWM can be read back from the M106 line, which ends in a newline |
| FanControl.M106ReadBackUnique | bambu_moonraker_shim/fan_control.py:86 | the M106 text for a fan and a PWM is the only text that reads back as them: leading zeros and other layouts are refused |
| FanControl.AuxAtHalf | bambu_moonraker_shim/fan_control.py:82-87 | ("aux", 128) gives "M106 P2 S128" |
| FanControl.ChamberOff | bambu_moonraker_shim/fan_control.py:82-87 | ("chamber", 0) gives "M106 P3 S0" |
| FanControl.SpeedOfFiftyPercent | bambu_moonraker_shim/fan_control.py:63-79 | "50%" gives PWM 128 |
| FanControl.AuxAtFiftyPercent | bambu_moonraker_shim/fan_control.py:82-87 | ("aux", "50%") gives "M106 P2 S128" |
| FanControl.UnknownFanRejected | bambu_moonraker_shim/fan_control.py:82-84 | an unknown fan is refused as the unknown target whatever the speed, even an invalid one |
| Numeric.RoundHalfEven | bambu_moonraker_shim/fan_control.py:75 | the result is within 0.5 of x, and a tie goes to the even neighbour, as Python's round does |
| Numeric.RoundHalfEvenUnique | bambu_moonraker_shim/fan_control.py:75 | any integer within 0.5 of x that is even on a tie is the rounding |
| Numeric.RoundHalfEvenMonotone | bambu_moonraker_shim/fan_control.py:75 | rounding keeps order |
| Numeric.Clamp | bambu_moonraker_shim/fan_control.py:79 | the result lies in [lo,hi]: a value inside is kept, one below gives lo, one above gives hi |
| JobTracker.Duration | bambu_moonraker_shim/state_manager.py:217 | the end minus the start, or 0 when the start is missing or zero |
| JobTracker.Step | bambu_moonraker_shim/state_manager.py:201-258 | every step remembers the new state; entering "printing" opens a job with the fresh id and the current time; a record is produced only from an open job, which is then cleared, and the record carries that job's id and start, the end time, the duration, the filename and the filament; any other step keeps the job as it was |
| JobTracker.StartOpensFreshJob | bambu_moonraker_shim/state_manager.py:209-212 | entering "printing" from another state opens a job with the fresh id and the current time, replacing any open job, and records nothing |
| JobTracker.StayingInPrintingKeepsJob | bambu_moonraker_shim/state_manager.py:208-258 | a repeated "printing" changes nothing and records nothing |
| JobTracker.PauseKeepsJob | bambu_moonraker_shim/state_manager.py:201-258 | a pause keeps the open job and records nothing |
| JobTracker.RecordStatus | bambu_moonraker_shim/state_manager.py:214-256 | a record exactly when a job is open and the state is complete, cancelled, error or standby; status "completed", the state itself, or "cancelled" for standby |
| JobTracker.StepKeepsPairing | bambu_moonraker_shim/state_manager.py:208-256 | the job id and its start time are set and cleared together |
| JobTracker.RecordsNeedStarts | bambu_moonraker_shim/state_manager.py:201-258 | over any run of states, the records plus a still-open job never outnumber the entries into "printing" plus a job open at the start |
| JobTracker.NoPrintNoRecord | bambu_moonraker_shim/state_manager.py:201-258 | from the idle tracker, a run that never enters "printing" records nothing |
| JobTracker.PrintThenComplete | bambu_moonraker_shim/state_manager.py:214-234 | printing at 10 then complete at 70 records exactly one completed job of 60 seconds and leaves no job open |
| JobTracker.ErrorThenCompleteRecordsOnce | bambu_moonraker_shim/state_manager.py:236-256 | printing, error, then complete records one job, with status "error" and the duration up to the error |
| StateStore.InitialPrintState | bambu_moonraker_shim/state_manager.py:6-109 | the initial state has exactly the schema's objects and is in "standby" |
| StateStore.SchemaKeysPresent | bambu_moonraker_shim/state_manager.py:6-109 | every schema object is in the initial state |
| StateStore.InitialStandby | bambu_moonraker_shim/state_manager.py:6-109 | the printer starts in "standby" |
| StateStore.InitialKeysKnown | bambu_moonraker_shim/state_manager.py:6-109 | the initial state has no object outside the schema |
| StateStore.FieldChanges | bambu_moonraker_shim/state_manager.py:139-142 | the changes only name fields the update mentions |
| StateStore.ApplyFieldsReadsBack | bambu_moonraker_shim/state_manager.py:139-142 | after an object update every mentioned field reads as its requested value, every other field reads as before, and no field disappears |
| StateStore.FieldChangesExact | bambu_moonraker_shim/state_manager.py:139-142 | a field is reported changed exactly when the update mentions it and its current value, with None for a missing field, differs; it is reported with the new value |
| StateStore.FieldUpdateIdempotent | bambu_moonraker_shim/state_manager.py:139-142 | applying the same fields again reports no change and leaves the object as it is |
| StateStore.NoFieldChangesMeansSame | bambu_moonraker_shim/state_manager.py:139-142 | no reported change exactly when the object is unchanged |
| StateStore.DeltaExact | bambu_moonraker_shim/state_manager.py:133-149 | a field is in the change set exactly when the update mentions it for a known object and its value differs; the state then reads the requested value, and unmentioned objects and fields stay |
| StateStore.PrintStateSurvives | bambu_moonraker_shim/state_manager.py:135-149 | an update keeps the objects and the print state's field, and a print state not in the change set is unchanged |
| StateStore.ClosedSchema | bambu_moonraker_shim/state_manager.py:135-149 | an update never adds an object; the change set only names known objects, each with at least one change |
| StateStore.AppliedIsStatePlusDelta | bambu_moonraker_shim/state_manager.py:133-149 | each object of the new state is the old object with its changes written over it |
| StateStore.UpdateIdempotent | bambu_moonraker_shim/state_manager.py:129-161 | repeating an update reports no change and leaves the state as it is |
| StateStore.EmptyDeltaIffUnchanged | bambu_moonraker_shim/state_manager.py:133-161 | the change set is empty exactly when the state is unchanged |
| StateStore.Push | bambu_moonraker_shim/state_manager.py:163-170 | a None value is not appended; a series below 600 values grows by the value; a full series drops its oldest value; the bound of 600 is kept |
| StateStore.AppendKeepsBound | bambu_moonraker_shim/state_manager.py:163-170 | an append keeps every series of a sensor within 600 values |
| StateStore.ThreeAppendsAreOneSample | bambu_moonraker_shim/state_manager.py:172-180 | the temperature, target and power appends, one after the other, are one sample |
| StateStore.SampleKeepsBound | bambu_moonraker_shim/state_manager.py:163-180 | a sample keeps every series of every sensor within the bound |
| StateStore.SampleAppendsTemperature | bambu_moonraker_shim/state_manager.py:163-180 | a sample appends the sensor's current temperature to its temperature series, dropping the oldest value when the series is full |
| StateStore.SampleIsLocal | bambu_moonraker_shim/state_manager.py:163-180 | a sample of one sensor leaves every other sensor's history as it was |
| StateStore.SampleReadsOwnObject | bambu_moonraker_shim/state_manager.py:163-180 | a sample depends on the sensor's own status object only |
| StateStore.SamplesCommute | bambu_moonraker_shim/state_manager.py:113-114 | samples of two different sensors give the same history in either order |
| StateStore.SampledKeepsBound | bambu_moonraker_shim/state_manager.py:146-149 | sampling the sensors an update names keeps every series within the bound |
| StateStore.UnchangedSensorStillSampled | bambu_moonraker_shim/state_manager.py:146-147 | an update naming the extruder samples it even when none of its fields changed |
| StateStore.NonEmptySeries | bambu_moonraker_shim/state_manager.py:187 | the reported series are among the sensor's recorded ones |
| StateStore.Seed | bambu_moonraker_shim/state_manager.py:189-198 | a seeded series holds exactly one value |
| StateStore.SeedHasTemperature | bambu_moonraker_shim/state_manager.py:191-192 | a present temperature seeds the temperature series with that one value |
| StateStore.SensorViewNonEmpty | bambu_moonraker_shim/state_manager.py:184-198 | every series reported for a sensor is non-empty |
| StateStore.TemperatureHistoryShape | bambu_moonraker_shim/state_manager.py:182-199 | only the two heaters are reported, each with non-empty series: the recorded non-empty series when there are any, and otherwise a seed from the current temperature |
| StateStore.Notification | bambu_moonraker_shim/state_manager.py:285-295 | the notify_status_update message carries the change set and the event time as its params |
| StateStore.ApplyCategory | bambu_moonraker_shim/state_manager.py:137-142 | the loop over one object's fields yields the updated object and exactly its changes |
| StateStore.StateManager.constructor | bambu_moonraker_shim/state_manager.py:6-121 | the store starts with the initial state, one sample per heater, an idle tracker, no job records, no callback and no broadcast |
| StateStore.StateManager.AppendHistoryValue | bambu_moonraker_shim/state_manager.py:163-170 | the history gains the value as AppendValue says; nothing else changes |
| StateStore.StateManager.RecordTemperatureSample | bambu_moonraker_shim/state_manager.py:172-180 | the history gains the sensor's sample; nothing else changes |
| StateStore.StateManager.HandlePrintStateChange | bambu_moonraker_shim/state_manager.py:201-258 | the tracker takes one Step, and a job record it produces is appended to the records |
| StateStore.StateManager.SetBroadcastCallback | bambu_moonraker_shim/state_manager.py:282-283 | whether a callback is registered; nothing else changes |
| StateStore.StateManager.NotifySubscribers | bambu_moonraker_shim/state_manager.py:285-295 | with a callback registered one notification is broadcast; without one nothing is |
| StateStore.StateManager.ApplyOneCategory | bambu_moonraker_shim/state_manager.py:135-149 | a known object is updated as ApplyFields says and its changes returned; an unknown one changes nothing; a heater is sampled either way |
| StateStore.StateManager.ApplyUpdate | bambu_moonraker_shim/state_manager.py:133-149 | the state becomes the applied update, the returned change set is exactly its delta, and the named heaters are sampled |
| StateStore.StateManager.TrackPrintState | bambu_moonraker_shim/state_manager.py:151-157 | a print state in the change set drives one tracker step with the stored filename and filament; otherwise the tracker is untouched; the id/start pairing is kept |
| StateStore.StateManager.Publish | bambu_moonraker_shim/state_manager.py:159-161 | a non-empty change set sets the event time and is broadcast when a callback is registered; an empty one changes nothing |
| StateStore.StateManager.UpdateState | bambu_moonraker_shim/state_manager.py:129-161 | the state is the applied update; the return is its exact change set; heaters are sampled; a changed print state drives the tracker; a notification is broadcast exactly when something changed and a callback is registered |
| StateStore.StateManager.SensorSnapshot | bambu_moonraker_shim/state_manager.py:184-198 | one sensor's part of the history report |
| StateStore.StateManager.GetTemperatureHistory | bambu_moonraker_shim/state_manager.py:182-199 | the loop over the heaters builds the whole history report |
| DeviceLink.OptReading | bambu_moonraker_shim/bambu_client.py:83-86 | a missing key is no reading; a present one is read with float(), and a value float() refuses is an error naming the key |
| DeviceLink.ParseTelemetry | bambu_moonraker_shim/bambu_client.py:77-143 | the translation succeeds exactly when every present numeric reading is one float() accepts; a failure names a present key whose value float() refuses |
| DeviceLink.Assemble | bambu_moonraker_shim/bambu_client.py:77-143 | the update holds exactly the telemetry objects the frame has data for, each as built from the frame |
| DeviceLink.HeaterFieldsShape | bambu_moonraker_shim/bambu_client.py:81-97 | a heater object holds a temperature and a target exactly when each was read, with that value, and is empty only when neither was |
| DeviceLink.TelemetryFailsOnlyOnBadReading | bambu_moonraker_shim/bambu_client.py:77-143 | the translation fails exactly when one of the five numeric readings is present but refused by float(); the fan speed never makes it fail |
| DeviceLink.SparseHeaters | bambu_moonraker_shim/bambu_client.py:81-97 | each heater object is present exactly when one of its readings is, and each field exactly when its key is, holding the converted number |
| DeviceLink.HeaterMirrorsReadings | bambu_moonraker_shim/bambu_client.py:81-97 | a heater built from its two converted readings mirrors them |
| DeviceLink.PrintStateMapping | bambu_moonraker_shim/bambu_client.py:108-128 | print_stats is reported exactly when gcode_state is in the frame, holding the mapped state, and the filename exactly when subtask_name is there |
| DeviceLink.KlipperStates | bambu_moonraker_shim/bambu_client.py:110-124 | RUNNING is printing, PAUSE is paused, FINISH is complete, and every other value is standby |
| DeviceLink.FanOnOff | bambu_moonraker_shim/bambu_client.py:99-106 | the fan is reported exactly when its speed converts, as 1.0 for a positive speed and 0.0 otherwise |
| DeviceLink.ProgressBoth | bambu_moonraker_shim/bambu_client.py:130-137 | mc_percent p gives progress p/100 in both progress objects; is_active is reported exactly when the print state is in the frame, and is true exactly when printing |
| DeviceLink.OnlyKnownCategories | bambu_moonraker_shim/bambu_client.py:77-143 | the update names only the extruder, the bed, the fan, print_stats and the two progress objects |
| DeviceLink.HandleFrame | bambu_moonraker_shim/bambu_client.py:64-75 | text that is not JSON is ignored; bytes that are not UTF-8 escape, since only the JSON decode error is caught; the payload is searched for "print" as Python's `in` does, so an object without that key, or a string or list not mentioning it, is ignored; an object payload's member goes to MemberTelemetry; a string or list payload that mentions "print", or a scalar payload, escapes |
| DeviceLink.MemberTelemetry | bambu_moonraker_shim/bambu_client.py:77-143 | an object member becomes its translation or the error that escapes; a string or list member gives the empty update exactly when it mentions none of the six keys read outside a try block, and otherwise escapes; a number, boolean or null escapes; the result is never an ignored frame |
| DeviceLink.SearchableMemberIsEmptyUpdate | bambu_moonraker_shim/bambu_client.py:77-143 | a string or list member that mentions none of the six read keys is the empty update |
| DeviceLink.MentionedReadKeyEscapes | bambu_moonraker_shim/bambu_client.py:81-131 | a non-object member that mentions one of the six read keys escapes |
| DeviceLink.PlainMembers | bambu_moonraker_shim/bambu_client.py:77-143 | {"print": "x"} and {"print": []} give the empty update |
| DeviceLink.FanNamingMember | bambu_moonraker_shim/bambu_client.py:99-106 | a list member naming only cooling_fan_speed gives the empty update, as that read is inside a try block |
| DeviceLink.StringNamingReadKey | bambu_moonraker_shim/bambu_client.py:108-110 | the string member "gcode_state=RUNNING" escapes |
| DeviceLink.ListOrScalarEscapes | bambu_moonraker_shim/bambu_client.py:77-143 | a list member naming mc_percent escapes, and so does the number 1.0 |
| DeviceLink.NonObjectPayloads | bambu_moonraker_shim/bambu_client.py:64-75 | the payloads "hello" and [] are ignored; "print", ["print"] and null escape |
| DeviceLink.ReadableFrameUpdates | bambu_moonraker_shim/bambu_client.py:64-75 | a frame whose readings all convert always yields its update |
| DeviceLink.TextTemperatureEscapes | bambu_moonraker_shim/bambu_client.py:83-84 | a nozzle temperature text that does not parse makes the frame escape as an error naming it, whatever else the frame holds |
| DeviceLink.HeaterNamed | bambu_moonraker_shim/bambu_client.py:200-206 | "bed" names the bed and "extruder" the nozzle; any other name is unknown |
| DeviceLink.TemperatureLine | bambu_moonraker_shim/bambu_client.py:196-237 | the checks run in the order heater, number, range, connection, and the first failure is the answer; otherwise the line is exactly the text that reads back as the command word for the heater and the wait flag with the target rounded half to even, within the range |
| DeviceLink.TemperatureTextRoundTrip | bambu_moonraker_shim/bambu_client.py:237 | the command word and the rounded target can be read back from the line |
| DeviceLink.TemperatureReadBackUnique | bambu_moonraker_shim/bambu_client.py:237 | a temperature line is the only text that reads back as its command word and target |
| DeviceLink.ZeroPaddedLineRefused | bambu_moonraker_shim/bambu_client.py:237 | "M104 S0200 " and a newline does not read back |
| Text.CanonicalRoundTrip | bambu_moonraker_shim/bambu_client.py:237 | a text reads as the number n without leading zeros exactly when it is str(n) |
| DeviceLink.BedAlwaysWaits | bambu_moonraker_shim/bambu_client.py:232-233 | an in-range bed target is always sent as M190, whether or not waiting was asked for |
| DeviceLink.ExtruderWaitsWhenAskedOrOff | bambu_moonraker_shim/bambu_client.py:234-235 | an in-range nozzle target is sent as M109 exactly when waiting is asked for or the rounded target is 0 |
| DeviceLink.OnlyTheConnectionRemains | bambu_moonraker_shim/bambu_client.py:213-229 | a known heater with an in-range target is refused without a connection and accepted with one |
| DeviceLink.Extruder200 | bambu_moonraker_shim/bambu_client.py:231-237 | 200.4 on the nozzle without waiting gives "M104 S200 " and a newline |
| DeviceLink.ExtruderOff | bambu_moonraker_shim/bambu_client.py:231-237 | 0.4 on the nozzle rounds to 0 and gives M109, which waits |
| DeviceLink.BedTooHot | bambu_moonraker_shim/bambu_client.py:213-220 | 121 on the bed is out of the range 0..120 |
| DeviceLink.DecodeEncode | bambu_moonraker_shim/bambu_client.py:158-194 | every envelope decodes back to its command |
| DeviceLink.EnvelopeShape | bambu_moonraker_shim/bambu_client.py:158-194 | every envelope is an object whose one member is the command's section, and the body carries sequence_id "0" |
| DeviceLink.LightVariantsShareBody | bambu_moonraker_shim/bambu_client.py:247-276 | the two light envelopes have the same body and differ in their section |
| DeviceLink.BambuClient.constructor | bambu_moonraker_shim/bambu_client.py:11-16 | a new client keeps its serial, has no session, is not connected and has sent nothing |
| DeviceLink.BambuClient.SessionOpened | bambu_moonraker_shim/bambu_client.py:44-45 | entering a session marks the client connected, with a session |
| DeviceLink.BambuClient.SessionLost | bambu_moonraker_shim/bambu_client.py:55-62 | a session error marks the client not connected and keeps the client object |
| DeviceLink.BambuClient.PublishCommand | bambu_moonraker_shim/bambu_client.py:145-154 | with a session and a connection one envelope goes to the request topic; otherwise nothing is sent |
| DeviceLink.BambuClient.PausePrint | bambu_moonraker_shim/bambu_client.py:158-165 | publishes the pause command |
| DeviceLink.BambuClient.ResumePrint | bambu_moonraker_shim/bambu_client.py:167-174 | publishes the resume command |
| DeviceLink.BambuClient.CancelPrint | bambu_moonraker_shim/bambu_client.py:176-183 | publishes the stop command |
| DeviceLink.BambuClient.SendGcodeLine | bambu_moonraker_shim/bambu_client.py:185-194 | publishes the line as a gcode_line command |
| DeviceLink.BambuClient.SendTemperatureCommand | bambu_moonraker_shim/bambu_client.py:196-239 | a refused line returns that error and sends nothing; an accepted line is published as one gcode_line |
| DeviceLink.BambuClient.SetNozzleTemp | bambu_moonraker_shim/bambu_client.py:241-242 | the temperature command for "extruder" |
| DeviceLink.BambuClient.SetBedTemp | bambu_moonraker_shim/bambu_client.py:244-245 | the temperature command for "bed" |
| DeviceLink.BambuClient.SetLight | bambu_moonraker_shim/bambu_client.py:247-276 | publishes the chamber-light envelope under the print section, then under the system section |
| DeviceLink.BambuClient.OnMessage | bambu_moonraker_shim/bambu_client.py:52-75 | an update has every effect UpdateState states: the applied state, the heater samples, the tracker step and job record for a changed print state, the event time and the broadcast; anything else leaves the store entirely unchanged; an escaping error marks the client not connected; the session and the outbox are kept |
| FileBridge.MlsdEntry | bambu_moonraker_shim/ftps_client.py:105-126 | the dot entries are skipped; the item fails exactly when its size fact is present and int() refuses it; otherwise an entry keeps its name, is a directory exactly when its type fact is "dir", has the size fact's integer or 0, and the modify fact or the current time |
| FileBridge.MlsdClassifies | bambu_moonraker_shim/ftps_client.py:105-126 | no dot entry survives an MLSD listing, and each entry comes from an item with its name and type |
| FileBridge.MlsdErrorSticks | bambu_moonraker_shim/ftps_client.py:110 | once an item's size is not an integer, the whole MLSD listing fails |
| FileBridge.MlsdKeepsOrder | bambu_moonraker_shim/ftps_client.py:105-126 | one entry per item other than the dot entries, in MLSD order |
| FileBridge.MlsdFailsIffBadSize | bambu_moonraker_shim/ftps_client.py:105-126 | the listing fails exactly when some item other than a dot entry has a size int() refuses |
| FileBridge.FullPathInjective | bambu_moonraker_shim/ftps_client.py:138-142 | different names under one directory have different paths |
| FileBridge.NlstEntry | bambu_moonraker_shim/ftps_client.py:133-165 | only the dot entries are skipped; an entry keeps its name and takes the current time |
| FileBridge.NlstKeepsOrder | bambu_moonraker_shim/ftps_client.py:133-165 | one entry per listed name other than the dot entries, in NLST order |
| FileBridge.NlstClassification | bambu_moonraker_shim/ftps_client.py:145-158 | a known directory is a directory of size 0; any other name takes the size SIZE gives (0 for none), and when SIZE fails it is a directory exactly when its name has no '.' |
| FileBridge.SizeSkipsKnownDirs | bambu_moonraker_shim/ftps_client.py:145-151 | no SIZE is sent for a known directory, and every SIZE is for a listed name |
| FileBridge.Components | bambu_moonraker_shim/ftps_client.py:198 | a path always has at least one component |
| FileBridge.PrefixGrows | bambu_moonraker_shim/ftps_client.py:204-205 | each directory the loop creates strictly extends the one before it |
| FileBridge.PrefixIsJoin | bambu_moonraker_shim/ftps_client.py:204-205 | the k-th directory is "/" and the first k components joined by "/" |
| FileBridge.MkdPlanTargets | bambu_moonraker_shim/ftps_client.py:202-209 | one MKD per parent component, the i-th for the first i+1 components |
| FileBridge.ParentsLeadToPath | bambu_moonraker_shim/ftps_client.py:202-205 | the last parent followed by the file name is the path without its outer slashes, led by "/" |
| FileBridge.ParentsOfAbc | bambu_moonraker_shim/ftps_client.py:197-209 | "/a/b/c" needs MKD "/a" then MKD "/a/b" |
| FileBridge.SingleComponentNeedsNoDir | bambu_moonraker_shim/ftps_client.py:199-200 | a path with one component needs no MKD |
| FileBridge.SameTargetWithoutDoubleSlash | bambu_moonraker_shim/ftps_client.py:171-214 | without a "//" in the joined path, upload and delete target the same path |
| FileBridge.LeadingSlashDiverges | bambu_moonraker_shim/ftps_client.py:171-214 | for the name "/a" under "/u" an upload targets "/u/a" but a delete targets "/u//a" |
| FileBridge.BambuFTPSClient.constructor | bambu_moonraker_shim/ftps_client.py:65 | a new client has no session and has sent nothing |
| FileBridge.BambuFTPSClient.Connect | bambu_moonraker_shim/ftps_client.py:67-86 | a session that answers NOOP is kept; otherwise a new session opens exactly when the login succeeds, and its failure is an error with no session |
| FileBridge.BambuFTPSClient.CollectMlsd | bambu_moonraker_shim/ftps_client.py:103-126 | the loop gives the MLSD listing of the items |
| FileBridge.BambuFTPSClient.CollectNlst | bambu_moonraker_shim/ftps_client.py:131-165 | the loop gives the NLST listing and logs the SIZE queries for it |
| FileBridge.BambuFTPSClient.ListFiles | bambu_moonraker_shim/ftps_client.py:88-169 | without a session the connection error; otherwise MLSD, or on a permission error the NLST fallback, with an NLST failure giving no files; the session exists afterwards exactly when connect reached one, and the log gains exactly one SIZE per listed name on the fallback and nothing otherwise |
| FileBridge.BambuFTPSClient.EnsureRemoteDirs | bambu_moonraker_shim/ftps_client.py:197-209 | the log gains one MKD per parent directory, in order, whatever each answers |
| FileBridge.BambuFTPSClient.Store | bambu_moonraker_shim/ftps_client.py:177-195 | one STOR; a timeout counts as success but drops the session, and a failure drops it too |
| FileBridge.BambuFTPSClient.UploadFile | bambu_moonraker_shim/ftps_client.py:171-195 | the log is the parent MKDs then STOR of the collapsed target; an unreadable local file stops after the MKDs with an error and no session; otherwise success unless STOR fails, and the session stays exactly when STOR answered cleanly |
| FileBridge.BambuFTPSClient.DeleteFile | bambu_moonraker_shim/ftps_client.py:211-220 | one DELE of the joined path, without collapsing "//"; the result is the server's answer, and the session is kept |
| Database.Lookup | bambu_moonraker_shim/database_manager.py:29-36 | a missing namespace reads as None; a truthy key reads its item or None; no key or an empty one reads the whole namespace |
| Database.Posted | bambu_moonraker_shim/database_manager.py:38-51 | a post leaves the store with the old namespaces and the posted one |
| Database.PostedAfterAdd | bambu_moonraker_shim/database_manager.py:38-51 | posting to a created namespace is the same as posting directly |
| Database.PostThenGet | bambu_moonraker_shim/database_manager.py:38-53 | a value posted under a key reads back as posted and is the answer |
| Database.PostIsLocal | bambu_moonraker_shim/database_manager.py:42-43 | posting under one key changes no other item |
| Database.MergeOverwritesAndKeeps | bambu_moonraker_shim/database_manager.py:44-48 | without a key an object is merged: its fields overwrite, the others stay, and nothing else appears |
| Database.NonObjectMergeChangesNothing | bambu_moonraker_shim/database_manager.py:49-51 | without a key a value that is not an object is dropped; only the namespace is created |
| Database.DeleteOnlyThatKey | bambu_moonraker_shim/database_manager.py:55-60 | deleting removes that key and leaves every other item and namespace |
| Database.DeleteMissingChangesNothing | bambu_moonraker_shim/database_manager.py:55-61 | deleting a missing key or namespace changes nothing |
| Database.EnsureKeepsExisting | bambu_moonraker_shim/database_manager.py:68-73 | existing namespaces are kept as they were, named ones are added empty, and no others appear |
| Database.EnsureIdempotent | bambu_moonraker_shim/database_manager.py:68-73 | ensuring the same names again changes nothing |
| Database.NewNamesAreNew | bambu_moonraker_shim/database_manager.py:68-73 | the added names are distinct and are exactly the named ones not yet present |
| Database.DatabaseManager.constructor | bambu_moonraker_shim/database_manager.py:6-20 | starts from the loaded snapshot, or empty without one |
| Database.DatabaseManager.GetItem | bambu_moonraker_shim/database_manager.py:29-36 | answers Lookup and changes nothing |
| Database.DatabaseManager.WriteThrough | bambu_moonraker_shim/database_manager.py:33-36 | a change made through the namespace get_item handed out becomes that namespace's entries; the order and the saved snapshots are kept |
| Database.DatabaseManager.AddNamespace | bambu_moonraker_shim/database_manager.py:39-40 | a missing namespace is created empty at the end of the order; an existing one is kept |
| Database.DatabaseManager.StoreInto | bambu_moonraker_shim/database_manager.py:42-51 | the namespace is written as Posted says |
| Database.DatabaseManager.PostItem | bambu_moonraker_shim/database_manager.py:38-53 | the store becomes Posted of the old one and is saved; the answer is the stored item, or the namespace without a key |
| Database.DatabaseManager.DeleteItem | bambu_moonraker_shim/database_manager.py:55-61 | a present key is removed and the store saved, answering the rest of the namespace; otherwise None and no save |
| Database.DatabaseManager.GetNamespaces | bambu_moonraker_shim/database_manager.py:65-66 | every namespace exactly once, in insertion order |
| Database.DatabaseManager.EnsureNamespaces | bambu_moonraker_shim/database_manager.py:68-75 | the missing names are added empty in order, and the store is saved exactly when something was added |
| Database.RestartKeepsItems | bambu_moonraker_shim/database_manager.py:11-53 | a value posted, saved and loaded by a new store reads back as posted |
| NestedKeys.Parts | bambu_moonraker_shim/moonraker_api.py:215 | a key splits into at least one part |
| NestedKeys.TwoLevelKey | bambu_moonraker_shim/moonraker_api.py:215 | "a.b" splits into a and b |
| NestedKeys.FlattenToNested | bambu_moonraker_shim/moonraker_api.py:209-222 | the loop gives the key-by-key insertion, and the stored entries as the walk through them leaves them |
| NestedKeys.FailureSticks | bambu_moonraker_shim/moonraker_api.py:214-221 | the first key whose path is blocked fails the whole conversion, naming that key |
| NestedKeys.InsertReadsBack | bambu_moonraker_shim/moonraker_api.py:216-221 | after an insertion the value is found along the key's path |
| NestedKeys.InsertKeepsUnrelated | bambu_moonraker_shim/moonraker_api.py:216-221 | an insertion leaves every path that is neither a prefix nor an extension of it as it was |
| NestedKeys.InsertMakesObjects | bambu_moonraker_shim/moonraker_api.py:217-220 | every level along the path is an object after the insertion |
| NestedKeys.InsertFailsIffBlocked | bambu_moonraker_shim/moonraker_api.py:217-221 | an insertion fails exactly when a proper prefix of its path holds a value that is not an object |
| NestedKeys.Paths | bambu_moonraker_shim/moonraker_api.py:214-215 | one path per item |
| NestedKeys.PrefixFreeReadsBack | bambu_moonraker_shim/moonraker_api.py:209-222 | when no key's path is a prefix of another's, the conversion succeeds and every value is found at its path |
| NestedKeys.UndottedCopied | bambu_moonraker_shim/moonraker_api.py:221 | a key without dots is copied to the top level |
| NestedKeys.DashboardLayout | bambu_moonraker_shim/moonraker_api.py:210-212 | {"dashboard.layout": []} becomes {"dashboard": {"layout": []}} |
| NestedKeys.WalkedFlattens | bambu_moonraker_shim/moonraker_api.py:209-222 | the walk through the stored entries builds the same result as the insertion, and stops at the same failing key |
| NestedKeys.WalkFailureSticks | bambu_moonraker_shim/moonraker_api.py:216-221 | after a failed key the walk changes nothing more |
| NestedKeys.LiveAreObjectItems | bambu_moonraker_shim/moonraker_api.py:216-221 | the stored objects the result still shares are items whose value is an object |
| NestedKeys.LiveItemsMatchResult | bambu_moonraker_shim/moonraker_api.py:216-221 | each stored object the result still shares is found in the result along its key's path, as the store holds it |
| NestedKeys.OnlyPlacedObjectsChange | bambu_moonraker_shim/moonraker_api.py:209-222 | a stored entry the walk changes is an object listed among the items |
| NestedKeys.PrefixFreeKeepsStore | bambu_moonraker_shim/moonraker_api.py:209-222 | when no key's path is a prefix of another's, the walk succeeds and the entries are unchanged |
| NestedKeys.ParentFirstWritesBack | bambu_moonraker_shim/moonraker_api.py:216-221 | walking a before a.b writes b into the stored object a, and the result holds the extended a |
| NestedKeys.ChildFirstLosesIt | bambu_moonraker_shim/moonraker_api.py:216-221 | walking a.b before a leaves the store unchanged, and the result holds a as stored |
| Listing.JoinMoonrakerPath | bambu_moonraker_shim/moonraker_api.py:109-110 | the joined path ends with "/" and the name |
| Listing.GcodesPath | bambu_moonraker_shim/moonraker_api.py:109-110 | under "gcodes" a name becomes "gcodes/name" |
| Listing.JoinIgnoresTrailingSlash | bambu_moonraker_shim/moonraker_api.py:109-110 | a trailing slash on the root does not change the joined path |
| Listing.PrintableByTwoSuffixes | bambu_moonraker_shim/moonraker_api.py:180 | a name is printable exactly when it ends in ".gcode" or ".3mf" |
| Listing.PrintableFilesAppend | bambu_moonraker_shim/moonraker_api.py:176-186 | filtering a concatenation filters each part |
| Listing.PrintableFilesExactly | bambu_moonraker_shim/moonraker_api.py:176-186 | the file list holds exactly the printable non-directory entries, each at "gcodes/name" |
| Listing.FilterPrintable | bambu_moonraker_shim/moonraker_api.py:175-188 | the loop gives the printable files in listing order |
| Listing.FileListFor | bambu_moonraker_shim/moonraker_api.py:152-188 | "config" gives the config listing; a root other than "gcodes" gives nothing; with a printer, the printable files of the listing, or nothing when the listing fails |
| Listing.BuildFileList | bambu_moonraker_shim/moonraker_api.py:152-188 | the bridge is asked only for "gcodes" with a printer, and the answer is the FileListFor of its listing; after that fetch the session exists exactly when connect reached one and the log gains the listing's SIZE queries; any other root leaves the session and the log alone |
| Listing.RootPathsListUploads | bambu_moonraker_shim/moonraker_api.py:1091-1096 | "gcodes", "gcodes/" and any path outside gcodes/ list the uploads directory |
| Listing.SubdirectoryPath | bambu_moonraker_shim/moonraker_api.py:1094-1096 | "gcodes/sub" lists the uploads directory's sub |
| Listing.Partition | bambu_moonraker_shim/moonraker_api.py:1128-1144 | the loop splits a listing into its directories and its files |
| Listing.PartitionCounts | bambu_moonraker_shim/moonraker_api.py:1128-1144 | every entry goes to exactly one side |
| Listing.PartitionAppend | bambu_moonraker_shim/moonraker_api.py:1128-1144 | splitting a concatenation splits each part, keeping order |
| Listing.PartitionMembership | bambu_moonraker_shim/moonraker_api.py:1128-1144 | a directory is on the directory side and a file on the file side |
| Listing.CacheWrite | bambu_moonraker_shim/moonraker_api.py:1105-1120 | only a fresh, successful listing of "gcodes" fetched on a cache miss is written to the cache |
| Listing.GetDirectory | bambu_moonraker_shim/moonraker_api.py:1080-1159 | without a printer "gcodes" gives the mock directory; a cached root is answered without the bridge; otherwise the fetched listing split into directories and files, nothing on failure, and its cache write; after a fetch the session exists exactly when connect reached one and the log gains the listing's SIZE queries; without a fetch the session and the log are left alone |
| Webcams.Cameras | bambu_moonraker_shim/moonraker_api.py:800 | a falsy entry is no cameras, and a list is its cameras |
| Webcams.ListAnswer | bambu_moonraker_shim/moonraker_api.py:789-795 | the answer's only member is "webcams": the stored entry when truthy, else [] |
| Webcams.FirstMatchFrom | bambu_moonraker_shim/moonraker_api.py:806-810 | the first camera from k on with that uid, all before it having another uid; none when no camera has it; an error when a camera without a uid comes first |
| Webcams.FindCamera | bambu_moonraker_shim/moonraker_api.py:806-810 | the loop finds that first match |
| Webcams.PostItem | bambu_moonraker_shim/moonraker_api.py:797-862 | the camera list after the upsert is written through Database.Posted, saved once, with the webcams namespace appended to the order when new, and the camera answered; on an error nothing is written or saved |
| Webcams.Remaining | bambu_moonraker_shim/moonraker_api.py:869 | the filter succeeds exactly when every camera has a uid |
| Webcams.Kept | bambu_moonraker_shim/moonraker_api.py:869 | the kept cameras are exactly those without that uid, never more than before |
| Webcams.DeleteItem | bambu_moonraker_shim/moonraker_api.py:864-877 | the cameras with that uid are removed, and the store is written and saved only when the list shrank; the namespace order is kept; an error writes and saves nothing |
| Webcams.UpdateKeepsIdentity | bambu_moonraker_shim/moonraker_api.py:814-837 | an update keeps the uid and every field outside the settings, and takes each setting from the request, else from the camera |
| Webcams.UpdateIdempotent | bambu_moonraker_shim/moonraker_api.py:814-837 | updating twice with the same request is updating once |
| Webcams.NewCameraShape | bambu_moonraker_shim/moonraker_api.py:841-856 | a new camera has the fresh uid, source "database" and is enabled |
| Webcams.KnownUidUpdatesInPlace | bambu_moonraker_shim/moonraker_api.py:806-839 | a known uid updates that camera in place, keeping the others and the list's length |
| Webcams.UnknownUidAppends | bambu_moonraker_shim/moonraker_api.py:840-857 | a missing or unknown uid appends one new camera with the fresh uid at the end |
| Webcams.UpsertKeepsUids | bambu_moonraker_shim/moonraker_api.py:797-859 | if every camera had a uid, every camera still has one after a post |
| Webcams.ShrinksIffFound | bambu_moonraker_shim/moonraker_api.py:869-871 | the list shrinks exactly when some camera has that uid |
| Webcams.KeptWithoutMatch | bambu_moonraker_shim/moonraker_api.py:869-877 | with no camera of that uid the list is kept as it is |
| Webcams.DeleteIdempotent | bambu_moonraker_shim/moonraker_api.py:864-877 | deleting the same uid twice is deleting it once |
| GcodeScript.ScanPin | bambu_moonraker_shim/moonraker_api.py:916-923 | the loop over the words gives the PIN= and VALUE= scan: the last of each wins |
| GcodeScript.ScanFailureSticks | bambu_moonraker_shim/moonraker_api.py:919-923 | once a VALUE= word fails to parse, the whole scan fails |
| GcodeScript.ScanFan | bambu_moonraker_shim/moonraker_api.py:938-946 | the loop gives the FAN= and SPEED= scan |
| GcodeScript.FindS | bambu_moonraker_shim/moonraker_api.py:975-978 | the loop finds the first word starting with S and reads its number |
| GcodeScript.HeaterScanFailureSticks | bambu_moonraker_shim/moonraker_api.py:1014-1022 | once a TARGET= word fails to parse, the whole scan fails |
| GcodeScript.HeaterScanPrefix | bambu_moonraker_shim/moonraker_api.py:1014-1022 | scanning one more word is one more heater step |
| GcodeScript.ScanHeater | bambu_moonraker_shim/moonraker_api.py:1010-1022 | the loop gives the HEATER=, TARGET= and WAIT= scan |
| GcodeScript.ReadHeaterWord | bambu_moonraker_shim/moonraker_api.py:1015-1022 | one word updates the heater scan as the branches say |
| GcodeScript.DecidePin | bambu_moonraker_shim/moonraker_api.py:914-932 | a SET_PIN line for the case light becomes a light action; any other line goes on to the next check |
| GcodeScript.DecideFan | bambu_moonraker_shim/moonraker_api.py:936-967 | a SET_FAN_SPEED line whose fan command builds becomes a fan action; any other line goes on |
| GcodeScript.DecideHeaterCode | bambu_moonraker_shim/moonraker_api.py:970-1004 | a heater code becomes a heater action, or the missing-S error; an unreadable S word goes on |
| GcodeScript.DecideSetHeater | bambu_moonraker_shim/moonraker_api.py:1008-1047 | a SET_HEATER_TEMPERATURE line whose words parse becomes a heater action or an error; any other line goes on |
| GcodeScript.DecideLine | bambu_moonraker_shim/moonraker_api.py:912-1051 | the checks in source order decide the line, and a line none of them takes is forwarded |
| GcodeScript.Outbounds | bambu_moonraker_shim/bambu_client.py:145-154 | one envelope per command when linked, none otherwise |
| GcodeScript.OutboundsAppend | bambu_moonraker_shim/bambu_client.py:145-154 | the envelopes of two runs of commands are those of each, in order |
| GcodeScript.PerformLight | bambu_moonraker_shim/moonraker_api.py:925-930 | the light's envelopes are published and the case-light value is echoed into the state |
| GcodeScript.PerformHeater | bambu_moonraker_shim/moonraker_api.py:987-1044 | a refused heater line ends the script with the client's error and changes nothing; an accepted one is published and its target echoed |
| GcodeScript.Perform | bambu_moonraker_shim/moonraker_api.py:925-1051 | an action that fails ends the script and changes nothing; any other action publishes its commands and applies its echo |
| GcodeScript.RunScript | bambu_moonraker_shim/moonraker_api.py:902-1052 | the outbox gains the envelopes of every line before the first error, the state takes their echoes, and that error is the result |
| GcodeScript.RunLineWith | bambu_moonraker_shim/moonraker_api.py:907-1051 | one line extends the run, and a failing line changes nothing |
| GcodeScript.HaltKeepsRun | bambu_moonraker_shim/moonraker_api.py:980-996 | the line that ends a script adds no command and no echo |
| GcodeScript.HaltSticks | bambu_moonraker_shim/moonraker_api.py:980-996 | once the script has ended, later lines change nothing |
| GcodeScript.ErrorSkipsTheRest | bambu_moonraker_shim/moonraker_api.py:980-996 | whatever follows a failing part of a script, the run is that part's run |
| GcodeScript.FailingLineLeavesNoTrace | bambu_moonraker_shim/moonraker_api.py:980-996 | a failing line records its error and keeps the earlier commands and echoes |
| GcodeScript.BlankLineSkipped | bambu_moonraker_shim/moonraker_api.py:908-910 | a blank line changes nothing |
| GcodeScript.OtherLinesForwarded | bambu_moonraker_shim/moonraker_api.py:1049-1051 | a line no check takes is forwarded as it is, without an echo |
| GcodeScript.FanLineOnly | bambu_moonraker_shim/moonraker_api.py:914-1008 | a SET_FAN_SPEED line reaches no other check |
| GcodeScript.SetHeaterLineOnly | bambu_moonraker_shim/moonraker_api.py:914-1008 | a SET_HEATER_TEMPERATURE line reaches no other check |
| GcodeScript.HeaterCodeOnly | bambu_moonraker_shim/moonraker_api.py:914-970 | a heater code reaches neither the pin nor the fan check |
| GcodeScript.CaselightPlanned | bambu_moonraker_shim/moonraker_api.py:914-930 | SET_PIN with PIN=caselight switches the light on exactly when VALUE is positive |
| GcodeScript.LightEffect | bambu_moonraker_shim/moonraker_api.py:925-930 | the light sends both light envelopes and no G-code line, and echoes 1.0 or 0.0 |
| GcodeScript.LastPinWins | bambu_moonraker_shim/moonraker_api.py:919-921 | a PIN= word after the others names the pin, when the pin has no '=' |
| GcodeScript.BadFanLineForwarded | bambu_moonraker_shim/moonraker_api.py:936-1051 | a SET_FAN_SPEED line the fan command refuses is forwarded unchanged |
| GcodeScript.HeaterCodeWithoutS | bambu_moonraker_shim/moonraker_api.py:980-985 | a heater code without an S word ends the script with an error naming the line |
| GcodeScript.HeaterOutcome | bambu_moonraker_shim/moonraker_api.py:987-1000 | a heater line is accepted only with a link, and is then published as one G-code line with the requested target echoed; a refused line ends the script with the client's error |
| GcodeScript.SetHeaterPlanned | bambu_moonraker_shim/moonraker_api.py:1008-1036 | a SET_HEATER_TEMPERATURE line whose words parse is decided by them |
| GcodeScript.PlanFallsToSetHeater | bambu_moonraker_shim/moonraker_api.py:1006-1047 | when no earlier check takes a line, the SET_HEATER_TEMPERATURE check decides it |
| GcodeScript.HeaterNames | bambu_moonraker_shim/moonraker_api.py:1024-1036 | HEATER and TARGET are both required; "heater_bed" and "bed" select the bed, "extruder" the nozzle, and any other name is an error |
| GcodeScript.ExtraFanEchoDropped | bambu_moonraker_shim/moonraker_api.py:954-964 | the aux and chamber fan echoes leave a schema-shaped state unchanged |
| GcodeScript.Echo | bambu_moonraker_shim/moonraker_api.py:998-1000 | an echo leaves the printer state as the applied update |
| Gateway.FixedOnlyReads | bambu_moonraker_shim/moonraker_api.py:647-896 | every branch answered with a constant only reads |
| Gateway.RouteOf | bambu_moonraker_shim/moonraker_api.py:647-1203 | a method name selects a branch exactly when it is one of the 28 names the `if`/`elif` chain tests, and then the branch that name selects; anything else, including a missing or non-string method, reaches the fallback |
| Gateway.RequestOf | bambu_moonraker_shim/moonraker_api.py:626-643 | a decoded message is a request exactly when it is an object; its id, method and params are those members, with null for a missing id or method and an empty object for missing params |
| Gateway.AbsentParamsAccepted | bambu_moonraker_shim/moonraker_api.py:669 | a request without "params" reaches every branch with empty parameters |
| Gateway.NullParams | bambu_moonraker_shim/moonraker_api.py:663-669 | a null "params" makes printer.objects.query raise but not server.info |
| Gateway.Requested | bambu_moonraker_shim/moonraker_api.py:670-674 | exactly the requested objects the state has, each as stored |
| Gateway.QueryStatus | bambu_moonraker_shim/moonraker_api.py:670-674 | the loop collects those objects |
| Gateway.RequeryStable | bambu_moonraker_shim/moonraker_api.py:666-686 | asking again for the objects of an answer gives the same answer |
| Gateway.QueryAllIffCovered | bambu_moonraker_shim/moonraker_api.py:666-686 | the answer is the whole state exactly when every object was asked for |
| Gateway.Query | bambu_moonraker_shim/moonraker_api.py:666-686 | query and subscribe answer the requested status and the event time |
| Gateway.Items | bambu_moonraker_shim/moonraker_api.py:214 | the namespace's items, each key once with its value |
| Gateway.NamespaceNests | bambu_moonraker_shim/moonraker_api.py:699-700 | a namespace where no key's path is a prefix of another's always converts |
| Gateway.GetItem | bambu_moonraker_shim/moonraker_api.py:688-702 | maintenance reads as {}; the mainsail root without a key is nested, and only the mainsail entries change, as the walk through them leaves them; everything else is Lookup and changes nothing; the order and the saved snapshots are kept |
| Gateway.PrefixFreeReadKeepsStore | bambu_moonraker_shim/moonraker_api.py:688-702 | reading a mainsail root none of whose keys' paths is a prefix of another's changes nothing, whatever the enumeration order |
| Gateway.PostItem | bambu_moonraker_shim/moonraker_api.py:704-714 | a maintenance write is echoed and not stored; any other write goes through Database.Posted, is saved once, appends a new namespace to the order, and answers the stored value; a refused or maintenance write saves nothing |
| Gateway.DeleteItem | bambu_moonraker_shim/moonraker_api.py:716-720 | the store loses the key and keeps its namespace order; the database is saved exactly when something was deleted; the answer is the rest of the namespace, or None when nothing was deleted |
| Gateway.Strs | bambu_moonraker_shim/moonraker_api.py:898-900 | the names as JSON strings, in order |
| Gateway.ListNamespaces | bambu_moonraker_shim/moonraker_api.py:898-900 | the namespaces in insertion order, each once, and no backups |
| Gateway.FanName | bambu_moonraker_shim/moonraker_api.py:760-765 | a falsy fan selects the default, a string names one, and any other value makes the handler raise |
| Gateway.SetFanSpeed | bambu_moonraker_shim/moonraker_api.py:759-787 | a refused fan or speed is a code-400 error that changes nothing; a valid one publishes the M106 line and echoes speed/255 |
| Gateway.RunScript | bambu_moonraker_shim/moonraker_api.py:902-1052 | the script runs line by line; a failing line gives a code-400 error and the lines before it keep their effect; a script that is not a string raises |
| Gateway.HandleJsonRpc | bambu_moonraker_shim/moonraker_api.py:637-1204 | the response carries the request's id; a branch that reads its parameters raises, with no effect at all, when they are not an object; an unknown method answers {}; the queries answer the requested objects; constant branches answer their constant; printer.objects.list answers the state's object names, server.database.list the namespaces in insertion order, server.temperature_store the temperature history, server.connection.identify the connection id and server.webcams.list the stored webcam list; read-only branches change nothing; database branches leave the state store, the printer client and the file bridge unchanged, and get_item reads and writes as Gateway.GetItem states |
| Gateway.Dispatch | bambu_moonraker_shim/moonraker_api.py:647-1201 | the same guarantees, branch by branch |
| Gateway.Change | bambu_moonraker_shim/moonraker_api.py:688-1159 | the database branches leave the state store, the printer client and the file bridge unchanged and write no cache; get_item reads and writes as Gateway.GetItem states, keeping the namespace order and the saved file |
| Gateway.ChangeDatabase | bambu_moonraker_shim/moonraker_api.py:688-877 | get_item reads and writes as Gateway.GetItem states, keeping the namespace order and the saved file; the other database and webcam branches state only validity |
| Gateway.ChangePrinter | bambu_moonraker_shim/moonraker_api.py:759-1052 | the fan and script branches keep every object valid; their effects are stated by Gateway.SetFanSpeed and Gateway.RunScript |
| Gateway.ChangeFiles | bambu_moonraker_shim/moonraker_api.py:1070-1159 | the listing branches keep the file bridge valid; their effects are stated by Gateway.Files and Gateway.Directories |
| Gateway.Inspect | bambu_moonraker_shim/moonraker_api.py:647-900 | the read-only branches: the unknown method, the queries, the constants, the object names, the namespaces, the temperature history, the connection id, the webcam list and the two history delegations; get_item is not among them |
| Gateway.Files | bambu_moonraker_shim/moonraker_api.py:1070-1078 | the answer carries the requested root; for "gcodes" with a printer the listing is FileListFor of the bridge's listing; any other string root is FileListFor without the bridge, which is left alone; after a fetch the session exists exactly when connect reached one and the log gains the listing's SIZE queries; without one the session and the log are kept; a root that is not a string lists no files |
| Gateway.Directories | bambu_moonraker_shim/moonraker_api.py:1080-1159 | server.files.get_directory answers GetDirectory, with a cached root answered from the cache; after a fetch the session exists exactly when connect reached one and the log gains the listing's SIZE queries, and without one both are kept; a path that is not a string raises before anything is fetched |

## Left out

- MQTT and TLS session plumbing is not modelled: the aiomqtt client, `_connect_loop`, `start`, the mock loop and reconnection timing. The link is reduced to `connected`/`hasSession` flags and an outbox of envelopes.
- JSON parsing and serialisation are not modelled. Frames arrive as `Json.Value`; bytes that are not UTF-8 and text that is not JSON are two separate cases, and envelopes are values rather than bytes.
- Floating point is modelled as exact reals, with no NaN or IEEE rounding. JSON integers and floats are one kind of number, so the webcam defaults `target_fps` 15 and `rotation` 0 are the numbers 15 and 0, with no distinction between `15` and `15.0` in the output. Python's `float()` on text is modelled for decimal literals only, not for "inf", "nan", exponents, underscores between digits or non-ASCII digits.
- The clock is the parameter `now`. Fresh job ids and webcam uids are the parameter `freshId`. Whether the local file of an upload opens is the parameter `readable`.
- The sqlite file cache and job history are not modelled as databases. A cache write is returned as `cacheWrite`, job records go to a list, and the history branches answer `Delegated`.
- The key/value store's file I/O (`_load`, `_save`) is a snapshot passed in and a list of saved snapshots. A file that fails to load is the same as no file.
- Mock and constant payloads are answered as a `Fixed(name)` marker, not with their contents. These are server.info, printer.info, machine.*, server.config, server.files.metadata and the others that only return a literal.
- The `safe_max` warning and all `print` output are left out, because they change no state.
- notify_webcams_changed, the websocket ConnectionManager and the FastAPI HTTP routes are not modelled.
- MLSD timestamps are not parsed. An entry keeps its raw `modify` fact, or the current time without one.
- The top-level copies of the modules outside `bambu_moonraker_shim/` are not part of this model.
- `get_state` and `get_object` are plain reads of the state field.
- A handler that raises is modelled as the `Raised` body.
- Parameters of a type the model does not follow answer `Unmodelled`, for example a database namespace that is not a string.
- Dictionary iteration order is an arbitrary enumeration of the map. The constructor samples the heaters in an arbitrary order, and `SamplesCommute` shows that the order does not matter.
- The cursor walk of flatten_to_nested is specified by a functional insertion with the same failure cases. Its writes into the stored objects it walks are modelled by `NestedKeys.Walked`.
- Gateway.GetItem: the write-back is computed per call on values. Sharing it creates between stored objects (a value placed inside another stored object) does not carry over to later calls, and the namespace's dictionary order is an arbitrary enumeration.
- printer.objects.list answers `Objects` with a set of names: the key order of the state is not modelled, since the state is a map.
- GcodeScript.DecideLine: upper-casing is ASCII only. Python's upper() also maps ß, ı, ſ and the ligatures U+FB00 to U+FB06 to ASCII capitals, so a command word spelled with them is recognised by the source and forwarded here. Lower-casing is ASCII only too; for fan names this agrees with Python, as `FanControl.NonAsciiNameRejected` shows.
- Error messages are typed reasons rather than message strings.
- Python's cross-type equality (`True == 1`) is not modelled: values are compared structurally. This affects the change check of the state store and the uid matching of the webcam branches (Webcams.FirstMatchFrom, Webcams.Kept).
- Python's `int()` on text is modelled for ASCII digit literals with an optional sign and surrounding whitespace; underscores between digits and non-ASCII digits, which `int()` also accepts, are not.
- The temperature series hold JSON values: the `float()` conversion on append is not modelled.
- `include_monitors` of the temperature store has no effect in the source, and is not modelled.
- StateStore.FieldChanges: its own contract states only which fields can appear; FieldChangesExact states the full property.
- GcodeScript.Echo: states only the resulting printer state, not the history samples, job-tracker step, event time or broadcasts that the update also causes. The same gap applies to the members that echo through it: GcodeScript.PerformLight, GcodeScript.PerformHeater, GcodeScript.Perform and GcodeScript.RunLineWith.
- GcodeScript.RunScript: states the error, the outbox and the printer state, not the history samples or broadcasts.
- Gateway.RunScript: states the body, the outbox and the printer state, not the history samples or broadcasts.
- Gateway.SetFanSpeed: states the body, the outbox and the printer state, not the history samples or broadcasts.
- Handlers are modelled as atomic steps. In the source, handle_jsonrpc, update_state and _handle_message are coroutines that yield at each `await` (a publish, a broadcast, each update_state of a script), and there the MQTT task can apply telemetry or clear `connected`. The model has no telemetry and no change of connection between those awaits. In particular GcodeScript.RunScript samples `client.Linked()` once for the whole script, where the source tests `connected` again at every publish.
- Gateway.Change: for the fan, script and listing branches it states only validity; their effects are stated by Gateway.SetFanSpeed, Gateway.RunScript, Gateway.Files and Gateway.Directories.
- Gateway.ChangeDatabase: states get_item in full; for post_item, delete_item and the webcam writes it states only validity, and their effects are stated by Gateway.PostItem, Gateway.DeleteItem, Webcams.PostItem and Webcams.DeleteItem.
- Gateway.ChangePrinter: states only validity; the effects are stated by Gateway.SetFanSpeed and Gateway.RunScript.
- Gateway.ChangeFiles: states only validity; the effects are stated by Gateway.Files and Gateway.Directories.
- Gateway.HandleJsonRpc: states what Gateway.Dispatch states, with the request's id; the same gap applies.
- Gateway.Dispatch: states in full the read-only branches (the unknown method, the queries, the constants, the object names, the namespaces, the temperature history, the connection id, the webcam list and the history delegations), which change no object at all, and get_item; the database branches leave the state store, the printer client and the file bridge unchanged. For the other branches that write, it states only validity; their effects are stated by the branch methods it calls (Gateway.PostItem, Gateway.SetFanSpeed, Webcams.PostItem and the others).
