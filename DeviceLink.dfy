/** The printer link: telemetry frames from the printer's report topic are
    translated into sparse state updates, temperature requests are checked
    and encoded as G-code, and every outbound command is a small JSON
    envelope published on the printer's request topic. */
module DeviceLink {
  import opened Wrappers
  import opened Json
  import Text
  import Numeric
  import StateStore
  import JobTracker

  // ------------------------------------------------------------- telemetry

  /** The "print" object of a report message. */
  type Frame = map<string, Value>

  /** A reading that float() refuses; the exception escapes the handler. */
  datatype TelemetryError = NotANumber(key: string) | NotAFrame | NotUtf8

  /** float(data.get(key)) for a key that may be absent. */
  function OptReading(d: Frame, key: string): (r: Result<Option<real>, TelemetryError>)
    ensures key !in d ==> r == Ok(None)
    ensures key in d ==> (r.Ok? <==> ToFloat(d[key]).Some?)
    ensures key in d && r.Ok? ==> r.value == ToFloat(d[key])
    ensures r.Err? ==> r.error == NotANumber(key)
  {
    if key !in d then Ok(None)
    else match ToFloat(d[key])
      case Some(x) => Ok(Some(x))
      case None => Err(NotANumber(key))
  }

  function HeaterFields(temperature: Option<real>, target: Option<real>): StateStore.Fields {
    (if temperature.Some? then map["temperature" := Num(temperature.value)] else map[])
    + (if target.Some? then map["target" := Num(target.value)] else map[])
  }

  /** The print state the dashboard understands for a vendor gcode_state. */
  function KlipperState(g: Value): string {
    if g == Str("RUNNING") then "printing"
    else if g == Str("PAUSE") then "paused"
    else if g == Str("FINISH") then "complete"
    else "standby"
  }

  /** The fan object: on/off only; a speed float() refuses drops the fan alone. */
  function FanFields(d: Frame): Option<StateStore.Fields> {
    if "cooling_fan_speed" !in d then None
    else match ToFloat(d["cooling_fan_speed"])
      case Some(x) => Some(map["speed" := Num(if x > 0.0 then 1.0 else 0.0)])
      case None => None
  }

  function PrintStatsFields(d: Frame): StateStore.Fields
    requires "gcode_state" in d
  {
    map["state" := Str(KlipperState(d["gcode_state"]))]
    + (if "subtask_name" in d then map["filename" := d["subtask_name"]] else map[])
  }

  function NonEmpty(f: StateStore.Fields): Option<StateStore.Fields> {
    if f != map[] then Some(f) else None
  }

  const TelemetryCategories: set<string> :=
    {"extruder", "heater_bed", "fan", "print_stats", "virtual_sdcard", "display_status"}

  /** What one category of the update holds, given readings that all
      converted: a heater with neither reading, a fan without a usable speed,
      print stats without gcode_state and progress without mc_percent are
      left out. */
  function Category(d: Frame, nt: Option<real>, ng: Option<real>, bt: Option<real>, bg: Option<real>,
                    mc: Option<real>, k: string): Option<StateStore.Fields>
  {
    if k == "extruder" then NonEmpty(HeaterFields(nt, ng))
    else if k == "heater_bed" then NonEmpty(HeaterFields(bt, bg))
    else if k == "fan" then FanFields(d)
    else if k == "print_stats" then (if "gcode_state" in d then Some(PrintStatsFields(d)) else None)
    else if k == "virtual_sdcard" then
      if mc.Some? then
        Some(map["progress" := Num(mc.value / 100.0)]
             + (if "gcode_state" in d then map["is_active" := Bool(KlipperState(d["gcode_state"]) == "printing")] else map[]))
      else None
    else if k == "display_status" then
      if mc.Some? then Some(map["progress" := Num(mc.value / 100.0)]) else None
    else None
  }

  /** The update built from readings that all converted. */
  function Assemble(d: Frame, nt: Option<real>, ng: Option<real>, bt: Option<real>, bg: Option<real>, mc: Option<real>)
    : (u: StateStore.State)
    ensures u.Keys <= TelemetryCategories
    ensures forall k :: k in u <==> k in TelemetryCategories && Category(d, nt, ng, bt, bg, mc, k).Some?
    ensures forall k | k in u :: u[k] == Category(d, nt, ng, bt, bg, mc, k).value
  {
    map k | k in TelemetryCategories && Category(d, nt, ng, bt, bg, mc, k).Some? :: Category(d, nt, ng, bt, bg, mc, k).value
  }

  lemma HeaterFieldsShape(temperature: Option<real>, target: Option<real>)
    ensures var f := HeaterFields(temperature, target);
      && ("temperature" in f <==> temperature.Some?)
      && ("target" in f <==> target.Some?)
      && (temperature.Some? ==> f["temperature"] == Num(temperature.value))
      && (target.Some? ==> f["target"] == Num(target.value))
      && (f != map[] <==> temperature.Some? || target.Some?)
  {
    var f := HeaterFields(temperature, target);
    if temperature.Some? {
      assert "temperature" in f;
    } else if target.Some? {
      assert "target" in f;
    }
  }

  /** _parse_telemetry: the readings are converted in source order and the
      first one float() refuses aborts the whole update. */
  function ParseTelemetry(d: Frame): (r: Result<StateStore.State, TelemetryError>)
    ensures r.Ok? <==> Readable(d)
    ensures r.Err? ==> r.error.NotANumber? && r.error.key in d && ToFloat(d[r.error.key]).None?
  {
    var nt := OptReading(d, "nozzle_temper");
    var ng := OptReading(d, "nozzle_target_temper");
    var bt := OptReading(d, "bed_temper");
    var bg := OptReading(d, "bed_target_temper");
    var mc := OptReading(d, "mc_percent");
    if nt.Err? then Err(nt.error)
    else if ng.Err? then Err(ng.error)
    else if bt.Err? then Err(bt.error)
    else if bg.Err? then Err(bg.error)
    else if mc.Err? then Err(mc.error)
    else Ok(Assemble(d, nt.value, ng.value, bt.value, bg.value, mc.value))
  }

  /** A present key whose value float() accepts. */
  predicate Converts(d: Frame, key: string) {
    key in d && ToFloat(d[key]).Some?
  }

  predicate Readable(d: Frame) {
    forall key | key in ["nozzle_temper", "nozzle_target_temper", "bed_temper", "bed_target_temper", "mc_percent"]
      :: key in d ==> ToFloat(d[key]).Some?
  }

  /** The translation fails exactly when one of the five numeric readings is
      present but not a number; the fan speed never makes it fail. */
  lemma TelemetryFailsOnlyOnBadReading(d: Frame)
    ensures ParseTelemetry(d).Ok? <==> Readable(d)
  {
  }

  /** A heater field mirrors its source key: present exactly when the key is,
      holding the number float() gives for it. */
  predicate FieldMirrors(f: StateStore.Fields, field: string, d: Frame, key: string) {
    && (field in f <==> key in d)
    && (field in f ==> f[field].Num? && Some(f[field].r) == ToFloat(d[key]))
  }

  /** A heater object is sparse: present exactly when one of its two readings
      is, and each field mirrors its reading. */
  predicate HeaterMirrors(u: StateStore.State, heater: string, d: Frame, tempKey: string, targetKey: string) {
    && (heater in u <==> tempKey in d || targetKey in d)
    && (heater in u ==> FieldMirrors(u[heater], "temperature", d, tempKey) && FieldMirrors(u[heater], "target", d, targetKey))
  }

  /** The heater objects are sparse: a category appears exactly when one of
      its readings is present, and each field exactly when its source key is. */
  lemma SparseHeaters(d: Frame)
    requires ParseTelemetry(d).Ok?
    ensures HeaterMirrors(ParseTelemetry(d).value, "extruder", d, "nozzle_temper", "nozzle_target_temper")
    ensures HeaterMirrors(ParseTelemetry(d).value, "heater_bed", d, "bed_temper", "bed_target_temper")
  {
    var nt := OptReading(d, "nozzle_temper");
    var ng := OptReading(d, "nozzle_target_temper");
    var bt := OptReading(d, "bed_temper");
    var bg := OptReading(d, "bed_target_temper");
    var mc := OptReading(d, "mc_percent");
    var u := Assemble(d, nt.value, ng.value, bt.value, bg.value, mc.value);
    assert ParseTelemetry(d).value == u;
    assert Category(d, nt.value, ng.value, bt.value, bg.value, mc.value, "extruder") == NonEmpty(HeaterFields(nt.value, ng.value));
    assert Category(d, nt.value, ng.value, bt.value, bg.value, mc.value, "heater_bed") == NonEmpty(HeaterFields(bt.value, bg.value));
    HeaterMirrorsReadings(d, u, "extruder", "nozzle_temper", "nozzle_target_temper", nt.value, ng.value);
    HeaterMirrorsReadings(d, u, "heater_bed", "bed_temper", "bed_target_temper", bt.value, bg.value);
  }

  /** One heater of the update, from its two converted readings. */
  lemma HeaterMirrorsReadings(d: Frame, u: StateStore.State, heater: string, tempKey: string, targetKey: string,
                              t: Option<real>, g: Option<real>)
    requires OptReading(d, tempKey) == Ok(t) && OptReading(d, targetKey) == Ok(g)
    requires heater in u <==> HeaterFields(t, g) != map[]
    requires heater in u ==> u[heater] == HeaterFields(t, g)
    ensures HeaterMirrors(u, heater, d, tempKey, targetKey)
  {
    HeaterFieldsShape(t, g);
  }

  /** The print state is reported exactly when gcode_state is in the frame,
      and the filename only together with it. */
  lemma PrintStateMapping(d: Frame)
    requires ParseTelemetry(d).Ok?
    ensures var u := ParseTelemetry(d).value;
      && ("print_stats" in u <==> "gcode_state" in d)
      && ("print_stats" in u ==>
            && u["print_stats"]["state"] == Str(KlipperState(d["gcode_state"]))
            && ("filename" in u["print_stats"] <==> "subtask_name" in d)
            && ("filename" in u["print_stats"] ==> u["print_stats"]["filename"] == d["subtask_name"]))
  {
    var nt := OptReading(d, "nozzle_temper");
    var ng := OptReading(d, "nozzle_target_temper");
    var bt := OptReading(d, "bed_temper");
    var bg := OptReading(d, "bed_target_temper");
    var mc := OptReading(d, "mc_percent");
    assert ParseTelemetry(d).value == Assemble(d, nt.value, ng.value, bt.value, bg.value, mc.value);
  }

  /** RUNNING, PAUSE and FINISH have their own states; every other value is standby. */
  lemma KlipperStates(g: Value)
    ensures KlipperState(Str("RUNNING")) == "printing"
    ensures KlipperState(Str("PAUSE")) == "paused"
    ensures KlipperState(Str("FINISH")) == "complete"
    ensures g != Str("RUNNING") && g != Str("PAUSE") && g != Str("FINISH") ==> KlipperState(g) == "standby"
  {
  }

  /** The fan is on/off: 1.0 for a positive speed, 0.0 otherwise, and no fan
      object when the speed is missing or not a number. */
  lemma FanOnOff(d: Frame)
    requires ParseTelemetry(d).Ok?
    ensures var u := ParseTelemetry(d).value;
      && ("fan" in u <==> Converts(d, "cooling_fan_speed"))
      && ("fan" in u ==> u["fan"] == map["speed" := Num(if ToFloat(d["cooling_fan_speed"]).value > 0.0 then 1.0 else 0.0)])
  {
    var nt := OptReading(d, "nozzle_temper");
    var ng := OptReading(d, "nozzle_target_temper");
    var bt := OptReading(d, "bed_temper");
    var bg := OptReading(d, "bed_target_temper");
    var mc := OptReading(d, "mc_percent");
    assert ParseTelemetry(d).value == Assemble(d, nt.value, ng.value, bt.value, bg.value, mc.value);
  }

  /** mc_percent p is progress p/100 in both progress objects; is_active is
      written only when the print state is in the same frame. */
  lemma ProgressBoth(d: Frame)
    requires ParseTelemetry(d).Ok?
    ensures var u := ParseTelemetry(d).value;
      && ("virtual_sdcard" in u <==> "mc_percent" in d)
      && ("display_status" in u <==> "mc_percent" in d)
      && ("mc_percent" in d ==>
            && u["virtual_sdcard"]["progress"] == u["display_status"]["progress"]
            && Some(u["display_status"]["progress"].r * 100.0) == ToFloat(d["mc_percent"])
            && ("is_active" in u["virtual_sdcard"] <==> "gcode_state" in d)
            && ("is_active" in u["virtual_sdcard"] ==>
                  u["virtual_sdcard"]["is_active"] == Bool(KlipperState(d["gcode_state"]) == "printing")))
  {
    var nt := OptReading(d, "nozzle_temper");
    var ng := OptReading(d, "nozzle_target_temper");
    var bt := OptReading(d, "bed_temper");
    var bg := OptReading(d, "bed_target_temper");
    var mc := OptReading(d, "mc_percent");
    var u := Assemble(d, nt.value, ng.value, bt.value, bg.value, mc.value);
    assert ParseTelemetry(d).value == u;
    var sd := Category(d, nt.value, ng.value, bt.value, bg.value, mc.value, "virtual_sdcard");
    var ds := Category(d, nt.value, ng.value, bt.value, bg.value, mc.value, "display_status");
    assert "virtual_sdcard" in u <==> sd.Some?;
    assert "display_status" in u <==> ds.Some?;
    if "mc_percent" in d {
      var p := mc.value.value;
      assert sd.value["progress"] == Num(p / 100.0) && ds.value["progress"] == Num(p / 100.0);
      assert ("is_active" in sd.value <==> "gcode_state" in d);
    }
  }

  /** Nothing else appears in the update. */
  lemma OnlyKnownCategories(d: Frame)
    requires ParseTelemetry(d).Ok?
    ensures ParseTelemetry(d).value.Keys
      <= {"extruder", "heater_bed", "fan", "print_stats", "virtual_sdcard", "display_status"}
  {
    var nt := OptReading(d, "nozzle_temper");
    var ng := OptReading(d, "nozzle_target_temper");
    var bt := OptReading(d, "bed_temper");
    var bg := OptReading(d, "bed_target_temper");
    var mc := OptReading(d, "mc_percent");
    assert ParseTelemetry(d).value == Assemble(d, nt.value, ng.value, bt.value, bg.value, mc.value);
  }

  /** An inbound message: bytes that are not UTF-8, text that is not JSON,
      or a decoded payload. */
  datatype Received = NotUtf8Bytes | NotJson | Payload(v: Value)

  /** What a message leads to: nothing, an update for the store, or an error
      that escapes the handler. */
  datatype Inbound = Ignored | Update(u: StateStore.State) | Escaped(e: TelemetryError)

  /** Python's `key in v` on a decoded value: a key of an object, a
      substring of a string, an element of a list; None where the test
      itself raises (a number, a boolean or null). */
  function Mentions(v: Value, key: string): Option<bool> {
    match v
    case Obj(f) => Some(key in f)
    case Str(s) => Some(Text.Contains(s, key))
    case List(xs) => Some(Str(key) in xs)
    case _ => None
  }

  /** The telemetry keys whose value _parse_telemetry reads with `.get`
      outside a try block; the fan key's read is inside one. */
  const ReadKeys: set<string> :=
    {"nozzle_temper", "nozzle_target_temper", "bed_temper", "bed_target_temper", "gcode_state", "mc_percent"}

  /** _parse_telemetry on any "print" member. An object is translated. On a
      string or a list every membership test is a substring or element test:
      a hit on a key of ReadKeys reaches a `.get` that raises, and otherwise
      the store gets the empty update. A number, boolean or null raises on
      the first test. */
  function MemberTelemetry(d: Value): (r: Inbound)
    ensures !r.Ignored?
    ensures !d.Obj? ==> r == Update(map[]) || r == Escaped(NotAFrame)
    ensures !d.Obj? ==> (r.Update? <==> (d.Str? || d.List?) && forall k | k in ReadKeys :: Mentions(d, k) == Some(false))
  {
    match d
    case Obj(f) =>
      (match ParseTelemetry(f)
       case Ok(u) => Update(u)
       case Err(e) => Escaped(e))
    case _ =>
      if Mentions(d, "nozzle_temper").None? then Escaped(NotAFrame)
      else if exists k | k in ReadKeys :: Mentions(d, k) == Some(true) then Escaped(NotAFrame)
      else Update(map[])
  }

  /** _handle_message: a payload that mentions "print" is translated; JSON
      decode errors are swallowed, but a UnicodeDecodeError from decoding
      the bytes is not and escapes. A string or list payload that mentions
      "print" raises on `payload["print"]`, and a scalar payload on the test. */
  function HandleFrame(m: Received): (r: Inbound)
    ensures m.NotJson? ==> r == Ignored
    ensures m.NotUtf8Bytes? ==> r == Escaped(NotUtf8)
    ensures m.Payload? && m.v.Obj? && "print" in m.v.fields ==> r == MemberTelemetry(m.v.fields["print"])
    ensures m.Payload? && m.v.Obj? && "print" in m.v.fields && m.v.fields["print"].Obj? ==>
      r == match ParseTelemetry(m.v.fields["print"].fields)
           case Ok(u) => Update(u)
           case Err(e) => Escaped(e)
    ensures r.Ignored? <==> m.NotJson? || (m.Payload? && Mentions(m.v, "print") == Some(false))
    ensures m.Payload? && !m.v.Obj? ==> r.Ignored? || r == Escaped(NotAFrame)
  {
    match m
    case NotUtf8Bytes => Escaped(NotUtf8)
    case NotJson => Ignored
    case Payload(v) =>
      match Mentions(v, "print")
      case None => Escaped(NotAFrame)
      case Some(false) => Ignored
      case Some(true) => if v.Obj? then MemberTelemetry(v.fields["print"]) else Escaped(NotAFrame)
  }

  /** A string or list "print" member that names none of the read keys gives
      the empty update, so the client stays connected; one that names a read
      key, or a scalar member, escapes. */
  lemma {:induction false} SearchableMemberIsEmptyUpdate(d: Value)
    requires d.Str? || d.List?
    requires forall k | k in ReadKeys :: Mentions(d, k) == Some(false)
    ensures HandleFrame(Payload(Obj(map["print" := d]))) == Update(map[])
  {
    assert Mentions(Obj(map["print" := d]), "print") == Some(true);
  }

  lemma {:induction false} MentionedReadKeyEscapes(d: Value, k: string)
    requires !d.Obj? && k in ReadKeys && Mentions(d, k) == Some(true)
    ensures HandleFrame(Payload(Obj(map["print" := d]))) == Escaped(NotAFrame)
  {
    assert Mentions(Obj(map["print" := d]), "print") == Some(true);
  }

  lemma {:induction false} PlainMembers()
    ensures HandleFrame(Payload(Obj(map["print" := Str("x")]))) == Update(map[])
    ensures HandleFrame(Payload(Obj(map["print" := List([])]))) == Update(map[])
  {
    forall k | k in ReadKeys
      ensures Mentions(Str("x"), k) == Some(false)
    {
      Text.LackedCharNotContained("x", k, 'e');
    }
    SearchableMemberIsEmptyUpdate(Str("x"));
    SearchableMemberIsEmptyUpdate(List([]));
  }

  /** The fan key is read inside a try block, so naming it does not escape. */
  lemma {:induction false} FanNamingMember()
    ensures HandleFrame(Payload(Obj(map["print" := List([Str("cooling_fan_speed")])]))) == Update(map[])
  {
    SearchableMemberIsEmptyUpdate(List([Str("cooling_fan_speed")]));
  }

  lemma {:induction false} StringNamingReadKey()
    ensures HandleFrame(Payload(Obj(map["print" := Str("gcode_state=RUNNING")]))) == Escaped(NotAFrame)
  {
    assert Text.StartsWith("gcode_state=RUNNING", "gcode_state");
    MentionedReadKeyEscapes(Str("gcode_state=RUNNING"), "gcode_state");
  }

  lemma {:induction false} ListOrScalarEscapes()
    ensures HandleFrame(Payload(Obj(map["print" := List([Str("mc_percent")])]))) == Escaped(NotAFrame)
    ensures HandleFrame(Payload(Obj(map["print" := Num(1.0)]))) == Escaped(NotAFrame)
  {
    MentionedReadKeyEscapes(List([Str("mc_percent")]), "mc_percent");
    assert Mentions(Obj(map["print" := Num(1.0)]), "print") == Some(true);
  }

  /** A top-level payload that is not an object is ignored when it does not
      mention "print" and escapes when it does or cannot be searched. */
  lemma {:induction false} NonObjectPayloads()
    ensures HandleFrame(Payload(Str("hello"))) == Ignored
    ensures HandleFrame(Payload(Str("print"))) == Escaped(NotAFrame)
    ensures HandleFrame(Payload(List([Str("print")]))) == Escaped(NotAFrame)
    ensures HandleFrame(Payload(List([]))) == Ignored
    ensures HandleFrame(Payload(Null)) == Escaped(NotAFrame)
  {
    Text.LackedCharNotContained("hello", "print", 'p');
    assert Text.StartsWith("print", "print");
  }

  /** A frame with readable values becomes an update that the store can apply. */
  lemma ReadableFrameUpdates(d: Frame)
    requires Readable(d)
    ensures HandleFrame(Payload(Obj(map["print" := Obj(d)]))) == Update(ParseTelemetry(d).value)
  {
    TelemetryFailsOnlyOnBadReading(d);
  }

  /** A non-numeric nozzle temperature escapes, whatever else the frame holds. */
  lemma TextTemperatureEscapes(d: Frame, s: string)
    requires Text.ParseDecimal(s).None?
    ensures HandleFrame(Payload(Obj(map["print" := Obj(d["nozzle_temper" := Str(s)])])))
      == Escaped(NotANumber("nozzle_temper"))
  {
  }

  // ------------------------------------------------------ temperature lines

  datatype Heater = Bed | Extruder

  function HeaterNamed(name: string): (h: Option<Heater>)
    ensures h == Some(Bed) <==> name == "bed"
    ensures h == Some(Extruder) <==> name == "extruder"
  {
    if name == "bed" then Some(Bed) else if name == "extruder" then Some(Extruder) else None
  }

  function MinTemp(h: Heater): int { 0 }

  function MaxTemp(h: Heater): int {
    match h
    case Bed => 120
    case Extruder => 300
  }

  datatype TempError =
    | UnknownHeater(name: string)
    | InvalidValue
    | OutOfRange(value: real, lo: int, hi: int)
    | NotConnected

  /** The command word: the bed always waits (M190); the extruder waits (M109)
      when asked to or when it is being switched off, and otherwise does not (M104). */
  function HeaterCode(h: Heater, wait: bool, rounded: int): string {
    match h
    case Bed => "M190"
    case Extruder => if wait || rounded == 0 then "M109" else "M104"
  }

  function TemperatureText(code: string, n: nat): string {
    code + " S" + Text.NatToString(n) + " \n"
  }

  /** Reads a temperature line back into its command word and value. */
  function ParseTemperatureLine(g: string): Option<(string, nat)> {
    if |g| >= 8 && g[4..6] == " S" && g[|g| - 2..] == " \n" then
      match Text.ParseCanonicalNat(g[6..|g| - 2])
      case Some(n) => Some((g[..4], n))
      case None => None
    else None
  }

  lemma TemperatureTextRoundTrip(code: string, n: nat)
    requires |code| == 4
    ensures ParseTemperatureLine(TemperatureText(code, n)) == Some((code, n))
  {
    var d := Text.NatToString(n);
    var g := TemperatureText(code, n);
    assert g == code + " S" + d + " \n";
    assert g[..4] == code;
    assert g[4..6] == " S";
    assert g[|g| - 2..] == " \n";
    assert g[6..|g| - 2] == d;
    Text.CanonicalRoundTrip(d, n);
  }

  /** TemperatureText(code, n) is the only text that reads back as the word
      and the target: a leading zero or a different layout does not. */
  lemma TemperatureReadBackUnique(code: string, n: nat, g: string)
    requires ParseTemperatureLine(g) == Some((code, n))
    ensures g == TemperatureText(code, n)
  {
    Text.CanonicalRoundTrip(g[6..|g| - 2], n);
    assert g == g[..4] + g[4..6] + g[6..|g| - 2] + g[|g| - 2..];
  }

  /** A zero-padded target does not read back. */
  lemma ZeroPaddedLineRefused()
    ensures ParseTemperatureLine("M104 S0200 \n") == None
  {
    assert "M104 S0200 \n"[6..10] == "0200";
  }

  lemma TemperatureOnlyReadBack(code: string, n: nat)
    ensures forall g :: ParseTemperatureLine(g) == Some((code, n)) ==> g == TemperatureText(code, n)
  {
    forall g | ParseTemperatureLine(g) == Some((code, n)) {
      TemperatureReadBackUnique(code, n, g);
    }
  }

  /** send_temperature_command without the publish: the checks run in the
      order heater, number, range, connection, and the first failure is the
      answer; on success the line carries the target rounded half to even. */
  function TemperatureLine(heater: string, target: Value, wait: bool, linked: bool): (r: Result<string, TempError>)
    ensures HeaterNamed(heater).None? ==> r == Err(UnknownHeater(heater))
    ensures HeaterNamed(heater).Some? && ToFloat(target).None? ==> r == Err(InvalidValue)
    ensures HeaterNamed(heater).Some? && ToFloat(target).Some? ==>
      var h, v := HeaterNamed(heater).value, ToFloat(target).value;
      && (v < MinTemp(h) as real || v > MaxTemp(h) as real ==> r == Err(OutOfRange(v, MinTemp(h), MaxTemp(h))))
      && (MinTemp(h) as real <= v <= MaxTemp(h) as real && !linked ==> r == Err(NotConnected))
      && (MinTemp(h) as real <= v <= MaxTemp(h) as real && linked ==>
            var n := Numeric.RoundHalfEven(v);
            && MinTemp(h) <= n <= MaxTemp(h)
            && r.Ok?
            && ParseTemperatureLine(r.value) == Some((HeaterCode(h, wait, n), n))
            && (forall g :: ParseTemperatureLine(g) == Some((HeaterCode(h, wait, n), n)) ==> g == r.value))
    ensures r.Ok? ==> Text.EndsWith(r.value, " \n")
  {
    match HeaterNamed(heater)
    case None => Err(UnknownHeater(heater))
    case Some(h) =>
      match ToFloat(target)
      case None => Err(InvalidValue)
      case Some(v) =>
        if v < MinTemp(h) as real || v > MaxTemp(h) as real then Err(OutOfRange(v, MinTemp(h), MaxTemp(h)))
        else if !linked then Err(NotConnected)
        else
          var n := Numeric.RoundHalfEven(v);
          TemperatureTextRoundTrip(HeaterCode(h, wait, n), n);
          TemperatureOnlyReadBack(HeaterCode(h, wait, n), n);
          Ok(TemperatureText(HeaterCode(h, wait, n), n))
  }

  /** The bed is always set with M190, whether or not waiting was asked for. */
  lemma BedAlwaysWaits(v: real, wait: bool)
    requires 0.0 <= v <= 120.0
    ensures TemperatureLine("bed", Num(v), wait, true).Ok?
    ensures ParseTemperatureLine(TemperatureLine("bed", Num(v), wait, true).value).value.0 == "M190"
  {
  }

  /** The extruder waits exactly when asked to or when the rounded target is 0. */
  lemma ExtruderWaitsWhenAskedOrOff(v: real, wait: bool)
    requires 0.0 <= v <= 300.0
    ensures var r := TemperatureLine("extruder", Num(v), wait, true);
      r.Ok? && (ParseTemperatureLine(r.value).value.0 == "M109" <==> wait || Numeric.RoundHalfEven(v) == 0)
  {
  }

  /** A rejected request never produces a line, and a known heater with a
      numeric in-range target is only refused for the missing connection. */
  lemma OnlyTheConnectionRemains(heater: string, v: real, wait: bool)
    requires HeaterNamed(heater).Some?
    requires 0.0 <= v <= MaxTemp(HeaterNamed(heater).value) as real
    ensures TemperatureLine(heater, Num(v), wait, false) == Err(NotConnected)
    ensures TemperatureLine(heater, Num(v), wait, true).Ok?
  {
  }

  lemma DigitsOf200()
    ensures Text.NatToString(200) == "200"
  {
    assert Text.NatToString(2) == "2";
    assert Text.NatToString(20) == "20";
  }

  /** 200.4 degrees on the extruder without waiting is "M104 S200 \n". */
  lemma Extruder200()
    ensures TemperatureLine("extruder", Num(200.4), false, true) == Ok("M104 S200 \n")
  {
    assert Numeric.RoundHalfEven(200.4) == 200;
    assert HeaterNamed("extruder") == Some(Extruder);
    assert HeaterCode(Extruder, false, 200) == "M104";
    DigitsOf200();
    assert TemperatureText("M104", 200) == "M104 S200 \n";
  }

  /** 0.4 degrees rounds to 0, which switches the extruder off with M109. */
  lemma ExtruderOff()
    ensures TemperatureLine("extruder", Num(0.4), false, true) == Ok("M109 S0 \n")
  {
    assert Numeric.RoundHalfEven(0.4) == 0;
    assert HeaterNamed("extruder") == Some(Extruder);
    assert HeaterCode(Extruder, false, 0) == "M109";
    assert Text.NatToString(0) == "0";
    assert TemperatureText("M109", 0) == "M109 S0 \n";
  }

  /** 121 degrees is too hot for the bed. */
  lemma BedTooHot()
    ensures TemperatureLine("bed", Num(121.0), false, true) == Err(OutOfRange(121.0, 0, 120))
  {
  }

  // ------------------------------------------------------------- envelopes

  datatype Section = PrintSection | SystemSection

  function SectionName(s: Section): string {
    match s
    case PrintSection => "print"
    case SystemSection => "system"
  }

  /** The commands the shim sends to the printer. */
  datatype Command =
    | Pause
    | Resume
    | Stop
    | GcodeLine(line: string)
    | Light(section: Section, on: bool)

  function LedBody(on: bool): map<string, Value> {
    map[
      "sequence_id" := Str("0"),
      "command" := Str("ledctrl"),
      "led_node" := Str("chamber_light"),
      "led_mode" := Str(if on then "on" else "off"),
      "led_on_time" := Num(500.0),
      "led_off_time" := Num(500.0),
      "loop_times" := Num(0.0),
      "interval_time" := Num(0.0)
    ]
  }

  function SectionOf(c: Command): Section {
    if c.Light? then c.section else PrintSection
  }

  function Body(c: Command): map<string, Value> {
    match c
    case Pause => map["sequence_id" := Str("0"), "command" := Str("pause")]
    case Resume => map["sequence_id" := Str("0"), "command" := Str("resume")]
    case Stop => map["sequence_id" := Str("0"), "command" := Str("stop")]
    case GcodeLine(g) => map["sequence_id" := Str("0"), "command" := Str("gcode_line"), "param" := Str(g)]
    case Light(_, on) => LedBody(on)
  }

  /** The JSON object published for a command: one section holding the body. */
  function Encode(c: Command): Value {
    Obj(map[SectionName(SectionOf(c)) := Obj(Body(c))])
  }

  function DecodeBody(section: Section, b: map<string, Value>): Option<Command> {
    var cmd := Get(b, "command");
    if section == PrintSection && cmd == Str("pause") then Some(Pause)
    else if section == PrintSection && cmd == Str("resume") then Some(Resume)
    else if section == PrintSection && cmd == Str("stop") then Some(Stop)
    else if section == PrintSection && cmd == Str("gcode_line") && Get(b, "param").Str? then Some(GcodeLine(Get(b, "param").s))
    else if cmd == Str("ledctrl") && Get(b, "led_mode") == Str("on") then Some(Light(section, true))
    else if cmd == Str("ledctrl") && Get(b, "led_mode") == Str("off") then Some(Light(section, false))
    else None
  }

  /** Reads a published object back into the command it carries. */
  function Decode(v: Value): Option<Command> {
    if v.Obj? && "print" in v.fields && v.fields["print"].Obj? then DecodeBody(PrintSection, v.fields["print"].fields)
    else if v.Obj? && "system" in v.fields && v.fields["system"].Obj? then DecodeBody(SystemSection, v.fields["system"].fields)
    else None
  }

  /** Every envelope decodes back to its command. */
  lemma DecodeEncode(c: Command)
    ensures Decode(Encode(c)) == Some(c)
  {
    assert "print" != "system";
  }

  /** Every command has exactly one section, and its body carries sequence_id "0". */
  lemma EnvelopeShape(c: Command)
    ensures Encode(c).Obj? && Encode(c).fields.Keys == {SectionName(SectionOf(c))}
    ensures Body(c)["sequence_id"] == Str("0")
  {
  }

  /** The two light envelopes differ only in their section. */
  lemma LightVariantsShareBody(on: bool)
    ensures Body(Light(PrintSection, on)) == Body(Light(SystemSection, on))
    ensures Encode(Light(PrintSection, on)) != Encode(Light(SystemSection, on))
  {
    assert "print" in Encode(Light(PrintSection, on)).fields;
    assert "print" !in Encode(Light(SystemSection, on)).fields;
  }

  // ---------------------------------------------------------------- client

  function RequestTopic(serial: string): string {
    "device/" + serial + "/request"
  }

  /** One publish: topic and the JSON object (its serialisation is not modelled). */
  datatype Outbound = Outbound(topic: string, payload: Value)

  /** The printer client: whether an MQTT client exists, whether it is
      connected, and everything published so far. */
  class BambuClient {
    const serial: string
    var hasSession: bool
    var connected: bool
    var outbox: seq<Outbound>

    /** Everything ever published went to this printer's request topic. */
    ghost predicate Valid()
      reads this
    {
      forall i :: 0 <= i < |outbox| ==> outbox[i].topic == RequestTopic(serial)
    }

    predicate Linked()
      reads this
    {
      hasSession && connected
    }

    constructor(serial: string)
      ensures Valid() && this.serial == serial
      ensures !hasSession && !connected && outbox == []
    {
      this.serial := serial;
      hasSession := false;
      connected := false;
      outbox := [];
    }

    /** The session loop entered an MQTT session. */
    method SessionOpened()
      modifies this
      ensures hasSession && connected && outbox == old(outbox)
    {
      hasSession := true;
      connected := true;
    }

    /** The session loop caught an error; the client object is kept. */
    method SessionLost()
      modifies this
      ensures !connected && hasSession == old(hasSession) && outbox == old(outbox)
    {
      connected := false;
    }

    /** publish_command: nothing leaves without a connected client. */
    method PublishCommand(c: Command)
      requires Valid()
      modifies this
      ensures Valid()
      ensures outbox == old(outbox) + (if Linked() then [Outbound(RequestTopic(serial), Encode(c))] else [])
      ensures hasSession == old(hasSession) && connected == old(connected)
    {
      if !hasSession || !connected {
        return;
      }
      outbox := outbox + [Outbound(RequestTopic(serial), Encode(c))];
    }

    method PausePrint()
      requires Valid()
      modifies this
      ensures Valid()
      ensures outbox == old(outbox) + (if Linked() then [Outbound(RequestTopic(serial), Encode(Pause))] else [])
      ensures hasSession == old(hasSession) && connected == old(connected)
    {
      PublishCommand(Pause);
    }

    method ResumePrint()
      requires Valid()
      modifies this
      ensures Valid()
      ensures outbox == old(outbox) + (if Linked() then [Outbound(RequestTopic(serial), Encode(Resume))] else [])
      ensures hasSession == old(hasSession) && connected == old(connected)
    {
      PublishCommand(Resume);
    }

    /** Cancelling sends the printer's "stop" command. */
    method CancelPrint()
      requires Valid()
      modifies this
      ensures Valid()
      ensures outbox == old(outbox) + (if Linked() then [Outbound(RequestTopic(serial), Encode(Stop))] else [])
      ensures hasSession == old(hasSession) && connected == old(connected)
    {
      PublishCommand(Stop);
    }

    method SendGcodeLine(g: string)
      requires Valid()
      modifies this
      ensures Valid()
      ensures outbox == old(outbox) + (if Linked() then [Outbound(RequestTopic(serial), Encode(GcodeLine(g)))] else [])
      ensures hasSession == old(hasSession) && connected == old(connected)
    {
      PublishCommand(GcodeLine(g));
    }

    /** send_temperature_command: any failed check answers with the error and
        publishes nothing; otherwise the line goes out as one gcode_line. */
    method SendTemperatureCommand(heater: string, target: Value, wait: bool) returns (r: Result<(), TempError>)
      requires Valid()
      modifies this
      ensures Valid()
      ensures var line := TemperatureLine(heater, target, wait, old(Linked()));
        && (line.Err? ==> r == Err(line.error) && outbox == old(outbox))
        && (line.Ok? ==> r == Ok(()) && outbox == old(outbox) + [Outbound(RequestTopic(serial), Encode(GcodeLine(line.value)))])
      ensures hasSession == old(hasSession) && connected == old(connected)
    {
      var line := TemperatureLine(heater, target, wait, hasSession && connected);
      if line.Err? {
        return Err(line.error);
      }
      SendGcodeLine(line.value);
      r := Ok(());
    }

    method SetNozzleTemp(t: real, wait: bool) returns (r: Result<(), TempError>)
      requires Valid()
      modifies this
      ensures Valid()
      ensures var line := TemperatureLine("extruder", Num(t), wait, old(Linked()));
        && (line.Err? ==> r == Err(line.error) && outbox == old(outbox))
        && (line.Ok? ==> r == Ok(()) && outbox == old(outbox) + [Outbound(RequestTopic(serial), Encode(GcodeLine(line.value)))])
      ensures hasSession == old(hasSession) && connected == old(connected)
    {
      r := SendTemperatureCommand("extruder", Num(t), wait);
    }

    method SetBedTemp(t: real, wait: bool) returns (r: Result<(), TempError>)
      requires Valid()
      modifies this
      ensures Valid()
      ensures var line := TemperatureLine("bed", Num(t), wait, old(Linked()));
        && (line.Err? ==> r == Err(line.error) && outbox == old(outbox))
        && (line.Ok? ==> r == Ok(()) && outbox == old(outbox) + [Outbound(RequestTopic(serial), Encode(GcodeLine(line.value)))])
      ensures hasSession == old(hasSession) && connected == old(connected)
    {
      r := SendTemperatureCommand("bed", Num(t), wait);
    }

    /** set_light: the "print" envelope, then the "system" one, or nothing. */
    method SetLight(on: bool)
      requires Valid()
      modifies this
      ensures Valid()
      ensures outbox == old(outbox) + (if Linked() then
        [Outbound(RequestTopic(serial), Encode(Light(PrintSection, on))),
         Outbound(RequestTopic(serial), Encode(Light(SystemSection, on)))] else [])
      ensures hasSession == old(hasSession) && connected == old(connected)
    {
      PublishCommand(Light(PrintSection, on));
      PublishCommand(Light(SystemSection, on));
    }

    /** One inbound message: an update goes to the store; an escaping error
        ends the session (the session loop marks the client disconnected). */
    method OnMessage(m: Received, store: StateStore.StateManager, now: real, freshId: string)
      requires store.Valid()
      modifies this, store
      ensures store.Valid()
      ensures HandleFrame(m).Update? ==>
        var u := HandleFrame(m).u;
        var changed := StateStore.Delta(old(store.state), u);
        && store.state == StateStore.Applied(old(store.state), u)
        && store.history == StateStore.Sampled(store.state, old(store.history), u.Keys)
        && ("print_stats" in changed && "state" in changed["print_stats"] ==>
              var ps := store.state["print_stats"];
              var r := JobTracker.Step(old(store.Tracker()), ps["state"], GetOr(ps, "filename", Str("")),
                                       GetOr(ps, "filament_used", Num(0.0)), now, freshId);
              store.Tracker() == r.0 && store.jobs == old(store.jobs) + (if r.1.Some? then [r.1.value] else []))
        && (!("print_stats" in changed && "state" in changed["print_stats"]) ==>
              store.Tracker() == old(store.Tracker()) && store.jobs == old(store.jobs))
        && store.lastEventTime == (if changed != map[] then now else old(store.lastEventTime))
        && store.broadcasts == old(store.broadcasts)
             + (if changed != map[] && store.callbackSet then [StateStore.Notification(changed, now)] else [])
        && store.callbackSet == old(store.callbackSet)
      ensures !HandleFrame(m).Update? ==> unchanged(store)
      ensures connected == (old(connected) && !HandleFrame(m).Escaped?)
      ensures hasSession == old(hasSession) && outbox == old(outbox)
    {
      match HandleFrame(m)
      case Ignored =>
      case Update(u) =>
        var _ := store.UpdateState(u, now, freshId);
      case Escaped(_) =>
        connected := false;
    }
  }
}
