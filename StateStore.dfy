/** The printer-state store: a closed map of status objects ("extruder",
    "print_stats", ...) each mapping field names to values, the temperature
    history kept beside it, the job tracker and the change broadcast. The
    functions below are the specification; class StateManager is the store
    itself and is proved against them. */
module StateStore {
  import opened Wrappers
  import opened Json
  import JobTracker

  type Fields = map<string, Value>
  type State = map<string, Fields>
  type Series = seq<Value>
  type SensorHistory = map<string, Series>
  type History = map<string, SensorHistory>

  /** Samples kept per history series. */
  const MaxTempSamples: nat := 600

  /** The objects whose temperature, target and power are sampled. */
  const TemperatureObjects: set<string> := {"extruder", "heater_bed"}

  // ------------------------------------------------------------ initial state

  function N(x: real): Value { Num(x) }

  /** The configuration object advertised to the dashboard. */
  const ConfigFile: Fields := map[
    "settings" := Obj(map[
      "printer" := Obj(map["kinematics" := Str("corexy"), "max_velocity" := N(500.0), "max_accel" := N(10000.0)]),
      "extruder" := Obj(map["min_temp" := N(0.0), "max_temp" := N(300.0), "nozzle_diameter" := N(0.4)]),
      "heater_bed" := Obj(map["min_temp" := N(0.0), "max_temp" := N(120.0)]),
      "fan" := Obj(map["pin" := Str("fan0")]),
      "virtual_sdcard" := Obj(map["path" := Str("/tmp/gcodes")]),
      "pause_resume" := Obj(map[]),
      "display_status" := Obj(map[]),
      "gcode_macro pause" := Obj(map[]),
      "gcode_macro resume" := Obj(map[]),
      "gcode_macro cancel_print" := Obj(map[]),
      "output_pin caselight" := Obj(map["pin" := Str("gpio1"), "pwm" := Bool(false), "value" := N(0.0), "shutdown_value" := N(0.0)])
    ]),
    "config" := Obj(map[
      "printer" := Obj(map["kinematics" := Str("corexy"), "max_velocity" := Str("500"), "max_accel" := Str("10000")]),
      "extruder" := Obj(map["min_temp" := Str("0"), "max_temp" := Str("300"), "nozzle_diameter" := Str("0.4")]),
      "heater_bed" := Obj(map["min_temp" := Str("0"), "max_temp" := Str("120")]),
      "virtual_sdcard" := Obj(map["path" := Str("/tmp/gcodes")]),
      "pause_resume" := Obj(map[]),
      "display_status" := Obj(map[]),
      "gcode_macro pause" := Obj(map[]),
      "gcode_macro resume" := Obj(map[]),
      "gcode_macro cancel_print" := Obj(map[])
    ])
  ]

  /** The state at start-up. "fan", "virtual_sdcard" and "display_status" are
      written twice in the literal; the later entries are the ones in force. */
  const InitialState: State := map[
    "extruder" := map["temperature" := N(0.0), "target" := N(0.0), "power" := N(0.0),
                      "pressure_advance" := N(0.0), "smooth_time" := N(0.0)],
    "heater_bed" := map["temperature" := N(0.0), "target" := N(0.0), "power" := N(0.0)],
    "heaters" := map["available_heaters" := List([Str("extruder"), Str("heater_bed")]),
                     "available_sensors" := List([Str("extruder"), Str("heater_bed")])],
    "print_stats" := map["state" := Str("standby"), "filename" := Str(""), "print_duration" := N(0.0),
                         "total_duration" := N(0.0), "filament_used" := N(0.0)],
    "toolhead" := map["position" := List([N(0.0), N(0.0), N(0.0)]), "status" := Str("Ready"),
                      "homed_axes" := Str("xyz"), "max_velocity" := N(500.0), "max_accel" := N(3000.0),
                      "max_accel_to_decel" := N(1500.0), "square_corner_velocity" := N(5.0)],
    "configfile" := ConfigFile,
    "virtual_sdcard" := map["progress" := N(0.0), "is_active" := Bool(false), "file_position" := N(0.0)],
    "display_status" := map["message" := Str(""), "progress" := N(0.0)],
    "fan" := map["speed" := N(0.0)],
    "output_pin caselight" := map["value" := N(0.0)],
    "webhooks" := map["state" := Str("ready"), "state_message" := Str("Printer is ready")]
  ]

  /** The status objects the store knows; no others are ever added. */
  const SchemaKeys: set<string> := {
    "extruder", "heater_bed", "heaters", "print_stats", "toolhead", "configfile",
    "virtual_sdcard", "display_status", "fan", "output_pin caselight", "webhooks"
  }

  lemma InitialPrintState()
    ensures InitialState.Keys == SchemaKeys
    ensures "print_stats" in InitialState && "state" in InitialState["print_stats"]
    ensures InitialState["print_stats"]["state"] == Str("standby")
  {
    assert SchemaKeys <= InitialState.Keys by { SchemaKeysPresent(); }
    assert InitialState.Keys <= SchemaKeys by { InitialKeysKnown(); }
    assert InitialState["print_stats"]["state"] == Str("standby") by { InitialStandby(); }
  }

  lemma SchemaKeysPresent()
    ensures SchemaKeys <= InitialState.Keys
  {
    forall k | k in SchemaKeys ensures k in InitialState {
    }
  }

  lemma InitialStandby()
    ensures "print_stats" in InitialState && "state" in InitialState["print_stats"]
    ensures InitialState["print_stats"]["state"] == Str("standby")
  {
  }

  lemma InitialKeysKnown()
    ensures InitialState.Keys <= SchemaKeys
  {
    forall k | k in InitialState ensures k in SchemaKeys {
    }
  }

  // ------------------------------------------------------------- one object

  /** The fields of an update whose value differs from the current one
      (`current.get(key) != value`; a missing field reads as None). */
  function FieldChanges(cur: Fields, vals: Fields): (ch: Fields)
    ensures ch.Keys <= vals.Keys
  {
    map k | k in vals && Get(cur, k) != vals[k] :: vals[k]
  }

  /** One object after its update: every changed field overwritten. */
  function ApplyFields(cur: Fields, vals: Fields): Fields {
    cur + FieldChanges(cur, vals)
  }

  /** After the update every mentioned field reads as the requested value,
      every other field is as it was, and no field disappears. */
  lemma ApplyFieldsReadsBack(cur: Fields, vals: Fields)
    ensures forall k :: k in vals ==> Get(ApplyFields(cur, vals), k) == vals[k]
    ensures forall k :: k !in vals ==> Get(ApplyFields(cur, vals), k) == Get(cur, k)
    ensures cur.Keys <= ApplyFields(cur, vals).Keys
  {
  }

  /** A field is reported changed exactly when its current value differs,
      and is reported with the new value. */
  lemma FieldChangesExact(cur: Fields, vals: Fields, k: string)
    ensures k in FieldChanges(cur, vals) <==> k in vals && Get(cur, k) != vals[k]
    ensures k in FieldChanges(cur, vals) ==> FieldChanges(cur, vals)[k] == vals[k]
  {
  }

  /** Updating an object with what it already holds changes nothing. */
  lemma FieldUpdateIdempotent(cur: Fields, vals: Fields)
    ensures FieldChanges(ApplyFields(cur, vals), vals) == map[]
    ensures ApplyFields(ApplyFields(cur, vals), vals) == ApplyFields(cur, vals)
  {
    ApplyFieldsReadsBack(cur, vals);
  }

  lemma NoFieldChangesMeansSame(cur: Fields, vals: Fields)
    ensures FieldChanges(cur, vals) == map[] <==> ApplyFields(cur, vals) == cur
  {
    if ApplyFields(cur, vals) == cur {
      forall k | k in vals
        ensures Get(cur, k) == vals[k]
      {
        ApplyFieldsReadsBack(cur, vals);
      }
    }
  }

  // ---------------------------------------------------------- whole update

  /** The state after the categories in `done` of update `u` are applied;
      categories unknown to the state are ignored. */
  function AppliedOn(st: State, u: State, done: set<string>): (r: State)
    ensures r.Keys == st.Keys
  {
    map c | c in st :: if c in u && c in done then ApplyFields(st[c], u[c]) else st[c]
  }

  /** The changes those categories make, leaving out categories without one. */
  function DeltaOn(st: State, u: State, done: set<string>): (d: State)
    ensures d.Keys <= u.Keys * st.Keys * done
  {
    map c | c in u && c in done && c in st && FieldChanges(st[c], u[c]) != map[] :: FieldChanges(st[c], u[c])
  }

  /** Applying one more category changes only that category. */
  lemma AppliedOnAddOne(st: State, u: State, done: set<string>, c: string)
    requires c !in done
    ensures c in st ==> AppliedOn(st, u, done)[c] == st[c]
    ensures AppliedOn(st, u, done + {c}) ==
      if c in st && c in u then AppliedOn(st, u, done)[c := ApplyFields(st[c], u[c])] else AppliedOn(st, u, done)
  {
  }

  /** ... and adds at most that category's changes to the delta. */
  lemma DeltaOnAddOne(st: State, u: State, done: set<string>, c: string)
    requires c !in done
    ensures DeltaOn(st, u, done + {c}) ==
      if c in st && c in u && FieldChanges(st[c], u[c]) != map[] then DeltaOn(st, u, done)[c := FieldChanges(st[c], u[c])]
      else DeltaOn(st, u, done)
  {
  }

  /** The state after the whole update. */
  function Applied(st: State, u: State): State {
    AppliedOn(st, u, u.Keys)
  }

  /** The change set the whole update reports. */
  function Delta(st: State, u: State): State {
    DeltaOn(st, u, u.Keys)
  }

  /** A field appears in the delta exactly when the update mentions it for a
      known category and its current value differs; the state ends up with
      the requested value there; untouched categories and fields stay. */
  lemma DeltaExact(st: State, u: State, c: string, k: string)
    ensures (c in Delta(st, u) && k in Delta(st, u)[c]) <==>
      (c in st && c in u && k in u[c] && Get(st[c], k) != u[c][k])
    ensures c in Delta(st, u) && k in Delta(st, u)[c] ==> Delta(st, u)[c][k] == u[c][k]
    ensures c in st && c in u && k in u[c] ==> Get(Applied(st, u)[c], k) == u[c][k]
    ensures c in st && (c !in u || k !in u[c]) ==> Get(Applied(st, u)[c], k) == Get(st[c], k)
    ensures c in st && c !in u ==> Applied(st, u)[c] == st[c]
  {
    if c in st && c in u {
      FieldChangesExact(st[c], u[c], k);
      ApplyFieldsReadsBack(st[c], u[c]);
    }
  }

  /** The print state is never removed, and it changes only when the delta
      reports a change of it. */
  lemma PrintStateSurvives(st: State, u: State)
    requires "print_stats" in st && "state" in st["print_stats"]
    ensures Applied(st, u).Keys == st.Keys
    ensures "state" in Applied(st, u)["print_stats"]
    ensures !("print_stats" in Delta(st, u) && "state" in Delta(st, u)["print_stats"]) ==>
      Applied(st, u)["print_stats"]["state"] == st["print_stats"]["state"]
  {
    DeltaExact(st, u, "print_stats", "state");
    if "print_stats" in u {
      ApplyFieldsReadsBack(st["print_stats"], u["print_stats"]);
    }
  }

  /** The set of categories never changes: unknown categories in an update
      are dropped, and the delta never holds an empty category. */
  lemma ClosedSchema(st: State, u: State)
    ensures Applied(st, u).Keys == st.Keys
    ensures Delta(st, u).Keys <= st.Keys
    ensures forall c :: c in Delta(st, u) ==> Delta(st, u)[c] != map[]
  {
  }

  /** The new state is the old one overwritten by exactly the delta. */
  lemma AppliedIsStatePlusDelta(st: State, u: State)
    ensures forall c :: c in st ==>
      Applied(st, u)[c] == st[c] + (if c in Delta(st, u) then Delta(st, u)[c] else map[])
  {
  }

  /** Applying the same update again reports nothing and changes nothing. */
  lemma UpdateIdempotent(st: State, u: State)
    ensures Delta(Applied(st, u), u) == map[]
    ensures Applied(Applied(st, u), u) == Applied(st, u)
  {
    var a := Applied(st, u);
    forall c | c in st && c in u
      ensures FieldChanges(a[c], u[c]) == map[]
      ensures ApplyFields(a[c], u[c]) == a[c]
    {
      assert a[c] == ApplyFields(st[c], u[c]);
      FieldUpdateIdempotent(st[c], u[c]);
    }
    assert Delta(a, u) == map[] by {
      forall c | c in Delta(a, u)
        ensures false
      {
      }
    }
  }

  /** An update reports nothing exactly when it leaves the state as it was. */
  lemma EmptyDeltaIffUnchanged(st: State, u: State)
    ensures Delta(st, u) == map[] <==> Applied(st, u) == st
  {
    if Delta(st, u) == map[] {
      forall c | c in st && c in u
        ensures ApplyFields(st[c], u[c]) == st[c]
      {
        assert c !in Delta(st, u);
        NoFieldChangesMeansSame(st[c], u[c]);
      }
    }
    if Applied(st, u) == st {
      forall c | c in st && c in u
        ensures FieldChanges(st[c], u[c]) == map[]
      {
        assert Applied(st, u)[c] == ApplyFields(st[c], u[c]);
        NoFieldChangesMeansSame(st[c], u[c]);
      }
    }
  }

  // ---------------------------------------------------------------- history

  /** Append one sample to a series (None is skipped); a series over the
      bound loses its oldest sample. */
  function Push(series: Series, v: Value): (r: Series)
    ensures v != Null && |series| < MaxTempSamples ==> r == series + [v]
    ensures v != Null && |series| == MaxTempSamples ==> r == series[1..] + [v]
    ensures v == Null ==> r == series
    ensures |series| <= MaxTempSamples ==> |r| <= MaxTempSamples
  {
    if v == Null then series
    else
      var s := series + [v];
      if |s| > MaxTempSamples then s[1..] else s
  }

  function EntryOf(h: History, sensor: string): SensorHistory {
    if sensor in h then h[sensor] else map[]
  }

  function SeriesOf(e: SensorHistory, field: string): Series {
    if field in e then e[field] else []
  }

  function AppendToEntry(e: SensorHistory, field: string, v: Value): SensorHistory {
    if v == Null then e else e[field := Push(SeriesOf(e, field), v)]
  }

  /** One history append (the setdefault-and-append of the store). */
  function AppendValue(h: History, sensor: string, field: string, v: Value): History {
    if v == Null then h else h[sensor := AppendToEntry(EntryOf(h, sensor), field, v)]
  }

  /** The entry a sample of `f` makes from entry `e`. */
  function SampleEntry(e: SensorHistory, f: Fields): SensorHistory {
    AppendToEntry(AppendToEntry(AppendToEntry(e, "temperatures", Get(f, "temperature")),
      "targets", Get(f, "target")), "powers", Get(f, "power"))
  }

  predicate Sampleable(st: State, sensor: string) {
    sensor in TemperatureObjects && sensor in st && st[sensor] != map[]
  }

  predicate HasReading(f: Fields) {
    Get(f, "temperature") != Null || Get(f, "target") != Null || Get(f, "power") != Null
  }

  /** One temperature sample of `sensor`: its temperature, target and power
      appended to their series. Other objects, a missing or empty object, and
      absent readings add nothing. */
  function RecordSample(st: State, h: History, sensor: string): History {
    if Sampleable(st, sensor) && HasReading(st[sensor]) then h[sensor := SampleEntry(EntryOf(h, sensor), st[sensor])]
    else h
  }

  /** The three appends of a sample, one after the other, are RecordSample. */
  lemma ThreeAppendsAreOneSample(st: State, h: History, sensor: string)
    requires Sampleable(st, sensor)
    ensures var f := st[sensor];
      AppendValue(AppendValue(AppendValue(h, sensor, "temperatures", Get(f, "temperature")),
        sensor, "targets", Get(f, "target")), sensor, "powers", Get(f, "power"))
      == RecordSample(st, h, sensor)
  {
    var f := st[sensor];
    var t, g := Get(f, "temperature"), Get(f, "target");
    var e1 := AppendToEntry(EntryOf(h, sensor), "temperatures", t);
    var h1 := AppendValue(h, sensor, "temperatures", t);
    assert EntryOf(h1, sensor) == e1;
    var h2 := AppendValue(h1, sensor, "targets", g);
    assert EntryOf(h2, sensor) == AppendToEntry(e1, "targets", g);
    assert h2 == if t == Null && g == Null then h else h[sensor := AppendToEntry(e1, "targets", g)];
  }

  /** No series is longer than the bound. */
  predicate Bounded(h: History) {
    forall s, f :: s in h && f in h[s] ==> |h[s][f]| <= MaxTempSamples
  }

  lemma AppendKeepsBound(e: SensorHistory, field: string, v: Value)
    requires forall f :: f in e ==> |e[f]| <= MaxTempSamples
    ensures var r := AppendToEntry(e, field, v); forall f :: f in r ==> |r[f]| <= MaxTempSamples
  {
  }

  /** Sampling never lets a series outgrow the bound. */
  lemma SampleKeepsBound(st: State, h: History, sensor: string)
    requires Bounded(h)
    ensures Bounded(RecordSample(st, h, sensor))
  {
    if Sampleable(st, sensor) && HasReading(st[sensor]) {
      var f := st[sensor];
      var e0 := EntryOf(h, sensor);
      AppendKeepsBound(e0, "temperatures", Get(f, "temperature"));
      var e1 := AppendToEntry(e0, "temperatures", Get(f, "temperature"));
      AppendKeepsBound(e1, "targets", Get(f, "target"));
      var e2 := AppendToEntry(e1, "targets", Get(f, "target"));
      AppendKeepsBound(e2, "powers", Get(f, "power"));
    }
  }

  /** A sample puts the current temperature at the end of its series, and on
      a full series the oldest sample goes. */
  lemma SampleAppendsTemperature(st: State, h: History, sensor: string)
    requires Sampleable(st, sensor) && Get(st[sensor], "temperature") != Null
    ensures var old_ := SeriesOf(EntryOf(h, sensor), "temperatures");
      var new_ := RecordSample(st, h, sensor)[sensor]["temperatures"];
      && (|old_| < MaxTempSamples ==> new_ == old_ + [Get(st[sensor], "temperature")])
      && (|old_| == MaxTempSamples ==> new_ == old_[1..] + [Get(st[sensor], "temperature")])
  {
  }

  /** A sample touches only its own sensor's entry. */
  lemma SampleIsLocal(st: State, h: History, sensor: string, other: string)
    requires other != sensor
    ensures other in RecordSample(st, h, sensor) <==> other in h
    ensures other in h ==> RecordSample(st, h, sensor)[other] == h[other]
  {
  }

  /** A sample reads only the sensor's own object. */
  lemma SampleReadsOwnObject(st1: State, st2: State, h: History, sensor: string)
    requires sensor in st1 <==> sensor in st2
    requires sensor in st1 ==> st1[sensor] == st2[sensor]
    ensures RecordSample(st1, h, sensor) == RecordSample(st2, h, sensor)
  {
  }

  /** Samples of different sensors commute. */
  lemma SamplesCommute(st: State, h: History, a: string, b: string)
    requires a != b
    ensures RecordSample(st, RecordSample(st, h, a), b) == RecordSample(st, RecordSample(st, h, b), a)
  {
    assert EntryOf(RecordSample(st, h, a), b) == EntryOf(h, b);
    assert EntryOf(RecordSample(st, h, b), a) == EntryOf(h, a);
  }

  /** The history after the temperature objects among `cats` are sampled
      from state `st` (one sample each, in either order). */
  function Sampled(st: State, h: History, cats: set<string>): History {
    var h1 := if "extruder" in cats then RecordSample(st, h, "extruder") else h;
    if "heater_bed" in cats then RecordSample(st, h1, "heater_bed") else h1
  }

  /** Sampling one more category is one more RecordSample, whichever it is. */
  lemma SampledAddOne(st: State, h: History, done: set<string>, c: string)
    requires c !in done
    ensures Sampled(st, h, done + {c}) ==
      if c in TemperatureObjects then RecordSample(st, Sampled(st, h, done), c) else Sampled(st, h, done)
  {
    if c == "extruder" && "heater_bed" in done {
      SamplesCommute(st, h, "extruder", "heater_bed");
    }
  }

  lemma SampledKeepsBound(st: State, h: History, cats: set<string>)
    requires Bounded(h)
    ensures Bounded(Sampled(st, h, cats))
  {
    SampleKeepsBound(st, h, "extruder");
    SampleKeepsBound(st, if "extruder" in cats then RecordSample(st, h, "extruder") else h, "heater_bed");
  }

  /** Every object in an update that is a temperature object gets sampled,
      even when none of its fields changed. */
  lemma UnchangedSensorStillSampled(st: State, h: History, u: State)
    requires "extruder" in u && "heater_bed" !in u
    ensures Sampled(Applied(st, u), h, u.Keys) == RecordSample(Applied(st, u), h, "extruder")
  {
  }

  // ------------------------------------------------------ history snapshot

  function NonEmptySeries(e: SensorHistory): (r: SensorHistory)
    ensures r.Keys <= e.Keys
  {
    map k | k in e && e[k] != [] :: e[k]
  }

  /** The one-sample entry made from the current object when a sensor has no
      history of its own. */
  function Seed(f: Fields): (r: SensorHistory)
    ensures forall k :: k in r ==> |r[k]| == 1
  {
    var t := if "temperature" in f then map["temperatures" := [f["temperature"]]] else map[];
    var g := if "target" in f then t["targets" := [f["target"]]] else t;
    if "power" in f then g["powers" := [f["power"]]] else g
  }

  /** The entry reported for one sensor, if any. */
  function SensorView(st: State, h: History, sensor: string): Option<SensorHistory> {
    if sensor in h && h[sensor] != map[] then Some(NonEmptySeries(h[sensor]))
    else
      var seeded := Seed(if sensor in st then st[sensor] else map[]);
      if seeded != map[] then Some(seeded) else None
  }

  /** The snapshot restricted to the sensors in `done`. */
  function TemperatureHistoryOn(st: State, h: History, done: set<string>): map<string, SensorHistory> {
    map s | s in done && SensorView(st, h, s).Some? :: SensorView(st, h, s).value
  }

  /** The history snapshot handed to the dashboard. */
  function TemperatureHistory(st: State, h: History): map<string, SensorHistory> {
    TemperatureHistoryOn(st, h, TemperatureObjects)
  }

  lemma TemperatureHistoryOnAddOne(st: State, h: History, done: set<string>, s: string)
    requires s !in done
    ensures TemperatureHistoryOn(st, h, done + {s}) ==
      if SensorView(st, h, s).Some? then TemperatureHistoryOn(st, h, done)[s := SensorView(st, h, s).value]
      else TemperatureHistoryOn(st, h, done)
  {
  }

  lemma SeedHasTemperature(f: Fields)
    requires "temperature" in f
    ensures "temperatures" in Seed(f) && Seed(f)["temperatures"] == [f["temperature"]]
  {
  }

  /** A sensor's reported entry never holds an empty series. */
  lemma SensorViewNonEmpty(st: State, h: History, s: string)
    requires SensorView(st, h, s).Some?
    ensures forall k :: k in SensorView(st, h, s).value ==> SensorView(st, h, s).value[k] != []
  {
  }

  /** The snapshot covers only temperature objects and never holds an empty
      series; a sensor with history reports exactly its non-empty series; a
      sensor without any reports one sample taken from the current state. */
  lemma TemperatureHistoryShape(st: State, h: History, s: string)
    ensures TemperatureHistory(st, h).Keys <= TemperatureObjects
    ensures s in TemperatureHistory(st, h) ==> forall k :: k in TemperatureHistory(st, h)[s] ==> TemperatureHistory(st, h)[s][k] != []
    ensures s in TemperatureObjects && s in h && h[s] != map[] ==> TemperatureHistory(st, h)[s] == NonEmptySeries(h[s])
    ensures s in TemperatureObjects && (s !in h || h[s] == map[]) && s in st && "temperature" in st[s] ==>
      && s in TemperatureHistory(st, h)
      && "temperatures" in TemperatureHistory(st, h)[s]
      && TemperatureHistory(st, h)[s]["temperatures"] == [st[s]["temperature"]]
  {
    if s in TemperatureHistory(st, h) {
      SensorViewNonEmpty(st, h, s);
    }
    if s in TemperatureObjects && (s !in h || h[s] == map[]) && s in st && "temperature" in st[s] {
      SeedHasTemperature(st[s]);
    }
  }

  // ------------------------------------------------------------ broadcast

  function DeltaJson(d: State): Value {
    Obj(map c | c in d :: Obj(d[c]))
  }

  /** The status-update notification sent for a change set. */
  function Notification(d: State, t: real): (v: Value)
    ensures v.Obj? && "params" in v.fields && v.fields["params"] == List([DeltaJson(d), Num(t)])
  {
    Obj(map["jsonrpc" := Str("2.0"), "method" := Str("notify_status_update"),
            "params" := List([DeltaJson(d), Num(t)])])
  }

  // ------------------------------------------------- the per-object loop

  /** Walks an update's fields one by one, writing and recording each field
      whose value differs. */
  method ApplyCategory(cur: Fields, values: Fields) returns (updated: Fields, changes: Fields)
    ensures updated == ApplyFields(cur, values)
    ensures changes == FieldChanges(cur, values)
  {
    updated := cur;
    changes := map[];
    var remaining := values.Keys;
    while remaining != {}
      invariant remaining <= values.Keys
      invariant forall k :: k in changes <==> k in values && k !in remaining && Get(cur, k) != values[k]
      invariant forall k :: k in changes ==> changes[k] == values[k]
      invariant updated == cur + changes
      decreases remaining
    {
      var key :| key in remaining;
      assert Get(updated, key) == Get(cur, key);
      if Get(updated, key) != values[key] {
        updated := updated[key := values[key]];
        changes := changes[key := values[key]];
      }
      remaining := remaining - {key};
    }
    assert changes == FieldChanges(cur, values);
  }

  // ------------------------------------------------------------ the store


  /** One category more in the update loop: the state, the delta and the
      history follow the whole-update functions on one more category. */
  lemma ApplyStep(s0: State, u: State, h0: History, done: set<string>, c: string,
                  st: State, d: State, h: History, st': State, changes: Fields, d': State, h': History)
    requires c in u && c !in done
    requires st == AppliedOn(s0, u, done) && d == DeltaOn(s0, u, done)
    requires h == Sampled(Applied(s0, u), h0, done)
    requires st' == if c in st then st[c := ApplyFields(st[c], u[c])] else st
    requires changes == if c in st then FieldChanges(st[c], u[c]) else map[]
    requires d' == if changes != map[] then d[c := changes] else d
    requires h' == if c in TemperatureObjects then RecordSample(st', h, c) else h
    ensures st' == AppliedOn(s0, u, done + {c})
    ensures d' == DeltaOn(s0, u, done + {c})
    ensures h' == Sampled(Applied(s0, u), h0, done + {c})
  {
    AppliedOnAddOne(s0, u, done, c);
    DeltaOnAddOne(s0, u, done, c);
    AppliedOnAddOne(s0, u, u.Keys - {c}, c);
    assert u.Keys - {c} + {c} == u.Keys;
    SampledAddOne(Applied(s0, u), h0, done, c);
    SampleReadsOwnObject(st', Applied(s0, u), h, c);
  }
  class StateManager {
    var state: State
    var history: History
    var lastEventTime: real
    var currentJobId: Option<string>
    var currentJobStart: Option<real>
    var lastPrintState: Value
    /** Records handed to the job-history sink, oldest first. */
    var jobs: seq<JobTracker.JobRecord>
    /** Whether a broadcast callback is registered (its truthiness). */
    var callbackSet: bool
    /** Notifications handed to the broadcast callback, oldest first. */
    var broadcasts: seq<Value>

    /** The schema stays the initial one, the print state the tracker saw is
        the one in the state, id and start time are paired, and history is
        bounded. */
    ghost predicate Valid()
      reads this
    {
      && state.Keys == SchemaKeys
      && "state" in state["print_stats"]
      && lastPrintState == state["print_stats"]["state"]
      && (currentJobId.Some? <==> currentJobStart.Some?)
      && Bounded(history)
    }

    function Tracker(): JobTracker.Tracker
      reads this
    {
      JobTracker.Tracker(currentJobId, currentJobStart, lastPrintState)
    }

    constructor(now: real)
      ensures Valid()
      ensures state == InitialState
      ensures history == Sampled(InitialState, map[], TemperatureObjects)
      ensures lastEventTime == now
      ensures Tracker() == JobTracker.Idle
      ensures jobs == [] && !callbackSet && broadcasts == []
    {
      state := InitialState;
      history := map[];
      lastEventTime := now;
      currentJobId := None;
      currentJobStart := None;
      lastPrintState := Str("standby");
      jobs := [];
      callbackSet := false;
      broadcasts := [];
      new;
      RecordTemperatureSample("extruder");
      RecordTemperatureSample("heater_bed");
      InitialPrintState();
      SampledKeepsBound(InitialState, map[], TemperatureObjects);
    }

    method AppendHistoryValue(sensor: string, field: string, v: Value)
      modifies this
      ensures history == AppendValue(old(history), sensor, field, v)
      ensures state == old(state) && lastEventTime == old(lastEventTime)
      ensures Tracker() == old(Tracker()) && jobs == old(jobs)
      ensures callbackSet == old(callbackSet) && broadcasts == old(broadcasts)
    {
      if v == Null {
        return;
      }
      var entry := if sensor in history then history[sensor] else map[];
      var series := if field in entry then entry[field] else [];
      series := series + [v];
      if |series| > MaxTempSamples {
        series := series[1..];
      }
      history := history[sensor := entry[field := series]];
    }

    method RecordTemperatureSample(sensor: string)
      modifies this
      ensures history == RecordSample(state, old(history), sensor)
      ensures state == old(state) && lastEventTime == old(lastEventTime)
      ensures Tracker() == old(Tracker()) && jobs == old(jobs)
      ensures callbackSet == old(callbackSet) && broadcasts == old(broadcasts)
    {
      if sensor !in TemperatureObjects {
        return;
      }
      if sensor !in state || state[sensor] == map[] {
        return;
      }
      var f := state[sensor];
      ThreeAppendsAreOneSample(state, history, sensor);
      AppendHistoryValue(sensor, "temperatures", Get(f, "temperature"));
      AppendHistoryValue(sensor, "targets", Get(f, "target"));
      AppendHistoryValue(sensor, "powers", Get(f, "power"));
    }

    method HandlePrintStateChange(newState: Value, filename: Value, filament: Value, now: real, freshId: string)
      modifies this
      ensures var r := JobTracker.Step(old(Tracker()), newState, filename, filament, now, freshId);
        && Tracker() == r.0
        && jobs == old(jobs) + (if r.1.Some? then [r.1.value] else [])
      ensures state == old(state) && history == old(history) && lastEventTime == old(lastEventTime)
      ensures callbackSet == old(callbackSet) && broadcasts == old(broadcasts)
    {
      if newState == Str("printing") && lastPrintState != Str("printing") {
        currentJobId := Some(freshId);
        currentJobStart := Some(now);
      } else if newState == Str("complete") && currentJobId.Some? && currentJobId.value != "" {
        var duration := JobTracker.Duration(currentJobStart, now);
        jobs := jobs + [JobTracker.JobRecord(currentJobId.value, filename, currentJobStart, now, duration, Str("completed"), filament)];
        currentJobId := None;
        currentJobStart := None;
      } else if JobTracker.IsTerminal(newState) && currentJobId.Some? && currentJobId.value != "" {
        var duration := JobTracker.Duration(currentJobStart, now);
        var status := if newState == Str("cancelled") || newState == Str("error") then newState else Str("cancelled");
        jobs := jobs + [JobTracker.JobRecord(currentJobId.value, filename, currentJobStart, now, duration, status, filament)];
        currentJobId := None;
        currentJobStart := None;
      }
      lastPrintState := newState;
    }

    method SetBroadcastCallback(registered: bool)
      modifies this
      ensures callbackSet == registered
      ensures state == old(state) && history == old(history) && lastEventTime == old(lastEventTime)
      ensures Tracker() == old(Tracker()) && jobs == old(jobs) && broadcasts == old(broadcasts)
    {
      callbackSet := registered;
    }

    method NotifySubscribers(changes: State)
      modifies this
      ensures broadcasts == old(broadcasts) + (if callbackSet then [Notification(changes, lastEventTime)] else [])
      ensures state == old(state) && history == old(history) && lastEventTime == old(lastEventTime)
      ensures Tracker() == old(Tracker()) && jobs == old(jobs) && callbackSet == old(callbackSet)
    {
      if callbackSet {
        broadcasts := broadcasts + [Notification(changes, lastEventTime)];
      }
    }

    /** One category of an update: a known category gets its differing
        fields written; a temperature object is then sampled. */
    method ApplyOneCategory(category: string, values: Fields) returns (changes: Fields)
      modifies this
      ensures state == if category in old(state) then old(state)[category := ApplyFields(old(state)[category], values)] else old(state)
      ensures changes == if category in old(state) then FieldChanges(old(state)[category], values) else map[]
      ensures history == if category in TemperatureObjects then RecordSample(state, old(history), category) else old(history)
      ensures lastEventTime == old(lastEventTime) && Tracker() == old(Tracker()) && jobs == old(jobs)
      ensures callbackSet == old(callbackSet) && broadcasts == old(broadcasts)
    {
      changes := map[];
      if category in state {
        var updated;
        updated, changes := ApplyCategory(state[category], values);
        state := state[category := updated];
        if category in TemperatureObjects {
          RecordTemperatureSample(category);
        }
      } else if category in TemperatureObjects {
        RecordTemperatureSample(category);
      }
    }

    /** The per-category loop of an update. */
    method ApplyUpdate(u: State) returns (changed: State)
      modifies this
      ensures changed == Delta(old(state), u)
      ensures state == Applied(old(state), u)
      ensures history == Sampled(state, old(history), u.Keys)
      ensures lastEventTime == old(lastEventTime) && Tracker() == old(Tracker()) && jobs == old(jobs)
      ensures callbackSet == old(callbackSet) && broadcasts == old(broadcasts)
    {
      ghost var s0 := state;
      ghost var h0 := history;
      ghost var final := Applied(s0, u);
      changed := map[];
      var remaining := u.Keys;
      while remaining != {}
        invariant remaining <= u.Keys
        invariant state == AppliedOn(s0, u, u.Keys - remaining)
        invariant changed == DeltaOn(s0, u, u.Keys - remaining)
        invariant history == Sampled(final, h0, u.Keys - remaining)
        invariant lastEventTime == old(lastEventTime) && Tracker() == old(Tracker()) && jobs == old(jobs)
        invariant callbackSet == old(callbackSet) && broadcasts == old(broadcasts)
        decreases remaining
      {
        var category :| category in remaining;
        ghost var done := u.Keys - remaining;
        ghost var sBefore, dBefore, hBefore := state, changed, history;
        var changes := ApplyOneCategory(category, u[category]);
        if changes != map[] {
          changed := changed[category := changes];
        }
        remaining := remaining - {category};
        assert u.Keys - remaining == done + {category};
        ApplyStep(s0, u, h0, done, category, sBefore, dBefore, hBefore, state, changes, changed, history);
      }
      assert u.Keys - remaining == u.Keys;
    }

    /** The job-tracking step of an update: the handler runs only when the
        change set reports a new print state, with the stored filename and
        filament figure. */
    method TrackPrintState(changed: State, now: real, freshId: string)
      requires "print_stats" in state && "state" in state["print_stats"]
      modifies this
      ensures state == old(state) && history == old(history) && lastEventTime == old(lastEventTime)
      ensures "print_stats" in changed && "state" in changed["print_stats"] ==>
        var ps := state["print_stats"];
        var r := JobTracker.Step(old(Tracker()), ps["state"], GetOr(ps, "filename", Str("")),
                                 GetOr(ps, "filament_used", Num(0.0)), now, freshId);
        Tracker() == r.0 && jobs == old(jobs) + (if r.1.Some? then [r.1.value] else [])
      ensures !("print_stats" in changed && "state" in changed["print_stats"]) ==>
        Tracker() == old(Tracker()) && jobs == old(jobs)
      ensures JobTracker.Paired(old(Tracker())) ==> JobTracker.Paired(Tracker())
      ensures callbackSet == old(callbackSet) && broadcasts == old(broadcasts)
    {
      if "print_stats" in changed && "state" in changed["print_stats"] {
        var ps := state["print_stats"];
        var filename := GetOr(ps, "filename", Str(""));
        var filament := GetOr(ps, "filament_used", Num(0.0));
        if JobTracker.Paired(Tracker()) {
          JobTracker.StepKeepsPairing(Tracker(), ps["state"], filename, filament, now, freshId);
        }
        HandlePrintStateChange(ps["state"], filename, filament, now, freshId);
      }
    }

    /** The broadcast step of an update: a non-empty change set refreshes the
        event time and goes to the subscribers. */
    method Publish(changed: State, now: real)
      modifies this
      ensures lastEventTime == if changed != map[] then now else old(lastEventTime)
      ensures broadcasts == old(broadcasts) + (if changed != map[] && callbackSet then [Notification(changed, now)] else [])
      ensures state == old(state) && history == old(history)
      ensures Tracker() == old(Tracker()) && jobs == old(jobs) && callbackSet == old(callbackSet)
    {
      if changed != map[] {
        lastEventTime := now;
        NotifySubscribers(changed);
      }
    }

    /** Applies an update, then runs the job tracker when the print state
        changed, and refreshes the event time and broadcasts the change set
        when there is one. The change set is also returned. */
    method UpdateState(u: State, now: real, freshId: string) returns (changed: State)
      requires Valid()
      modifies this
      ensures Valid()
      ensures changed == Delta(old(state), u)
      ensures state == Applied(old(state), u)
      ensures history == Sampled(state, old(history), u.Keys)
      ensures "print_stats" in changed && "state" in changed["print_stats"] ==>
        var ps := state["print_stats"];
        var r := JobTracker.Step(old(Tracker()), ps["state"], GetOr(ps, "filename", Str("")),
                                 GetOr(ps, "filament_used", Num(0.0)), now, freshId);
        Tracker() == r.0 && jobs == old(jobs) + (if r.1.Some? then [r.1.value] else [])
      ensures !("print_stats" in changed && "state" in changed["print_stats"]) ==>
        Tracker() == old(Tracker()) && jobs == old(jobs)
      ensures lastEventTime == if changed != map[] then now else old(lastEventTime)
      ensures broadcasts == old(broadcasts) + (if changed != map[] && callbackSet then [Notification(changed, now)] else [])
      ensures callbackSet == old(callbackSet)
    {
      ghost var s0 := state;
      changed := ApplyUpdate(u);
      assert Bounded(history) by {
        SampledKeepsBound(state, old(history), u.Keys);
      }
      assert state.Keys == SchemaKeys && "state" in state["print_stats"] by {
        PrintStateSurvives(s0, u);
      }
      assert !("print_stats" in changed && "state" in changed["print_stats"]) ==>
        state["print_stats"]["state"] == s0["print_stats"]["state"] by {
        PrintStateSurvives(s0, u);
      }
      TrackPrintState(changed, now, freshId);
      assert lastPrintState == state["print_stats"]["state"];
      Publish(changed, now);
    }

    /** One sensor's part of the snapshot: its recorded non-empty series, or
        a seed from the current state when it has no history. */
    method SensorSnapshot(sensor: string) returns (v: Option<SensorHistory>)
      ensures v == SensorView(state, history, sensor)
    {
      var sensorHistory := if sensor in history then history[sensor] else map[];
      if sensorHistory != map[] {
        return Some(map k | k in sensorHistory && sensorHistory[k] != [] :: sensorHistory[k]);
      }
      var sensorState := if sensor in state then state[sensor] else map[];
      var seeded: SensorHistory := map[];
      if "temperature" in sensorState {
        seeded := seeded["temperatures" := [sensorState["temperature"]]];
      }
      if "target" in sensorState {
        seeded := seeded["targets" := [sensorState["target"]]];
      }
      if "power" in sensorState {
        seeded := seeded["powers" := [sensorState["power"]]];
      }
      if seeded != map[] {
        return Some(seeded);
      }
      return None;
    }

    /** The history snapshot, sensor by sensor. */
    method GetTemperatureHistory() returns (r: map<string, SensorHistory>)
      ensures r == TemperatureHistory(state, history)
    {
      r := map[];
      var remaining := TemperatureObjects;
      while remaining != {}
        invariant remaining <= TemperatureObjects
        invariant r == TemperatureHistoryOn(state, history, TemperatureObjects - remaining)
        decreases remaining
      {
        var sensor :| sensor in remaining;
        var v := SensorSnapshot(sensor);
        TemperatureHistoryOnAddOne(state, history, TemperatureObjects - remaining, sensor);
        assert TemperatureObjects - (remaining - {sensor}) == (TemperatureObjects - remaining) + {sensor};
        if v.Some? {
          r := r[sensor := v.value];
        }
        remaining := remaining - {sensor};
      }
    }
  }
}
