/** printer.gcode.script: the script is split into lines, each trimmed and
    blank ones skipped; SET_PIN for the case light, SET_FAN_SPEED, the heater
    codes M104/M109/M140/M190 and SET_HEATER_TEMPERATURE are intercepted and
    turned into client calls plus a state echo; every other line is forwarded
    as it is. A heater line that cannot be carried out ends the script with an
    error. An intercepted line whose parsing fails (float() or the fan
    command refusing its input) falls through to the next check, and in the
    end is forwarded. */
module GcodeScript {
  import opened Wrappers
  import opened Json
  import Text
  import FanControl
  import DeviceLink
  import StateStore

  datatype ScriptError =
    | MissingS(line: string)
    | UnsupportedHeaterCommand(cmd: string)
    | InvalidSetHeater(line: string)
    | UnknownHeaterName(name: string)
    | Rejected(e: DeviceLink.TempError)

  /** What one trimmed, non-blank line asks for. */
  datatype Action =
    | SetLight(on: bool)
    | SetFan(cmd: FanControl.FanCommand)
    | SetHeater(heater: DeviceLink.Heater, target: real, wait: bool)
    | Fail(err: ScriptError)
    | Forward(line: string)

  /** part.split("=", 1)[1] */
  function Assigned(part: string): string {
    Text.AfterFirst(part, '=')
  }

  /** part.split("=")[1]: the text between the first '=' and the next one. */
  function SecondField(part: string): string {
    Text.Split(Text.AfterFirst(part, '='), '=')[0]
  }

  // ------------------------------------------------------------------ SET_PIN

  datatype PinArgs = PinArgs(pin: string, value: real)

  /** One word of a SET_PIN line: the last PIN= and VALUE= win; a VALUE=
      that float() refuses aborts the interception. */
  function PinStep(acc: PinArgs, part: string): Option<PinArgs> {
    var up := Text.Upper(part);
    if Text.StartsWith(up, "PIN=") then Some(acc.(pin := SecondField(part)))
    else if Text.StartsWith(up, "VALUE=") then
      match Text.ParseDecimal(SecondField(part))
      case Some(v) => Some(acc.(value := v))
      case None => None
    else Some(acc)
  }

  function PinScan(parts: seq<string>): Option<PinArgs>
    decreases |parts|
  {
    if |parts| == 0 then Some(PinArgs("", 0.0))
    else
      match PinScan(parts[..|parts| - 1])
      case None => None
      case Some(acc) => PinStep(acc, parts[|parts| - 1])
  }

  method ScanPin(parts: seq<string>) returns (r: Option<PinArgs>)
    ensures r == PinScan(parts)
  {
    var pin := "";
    var value := 0.0;
    var i := 0;
    while i < |parts|
      invariant 0 <= i <= |parts|
      invariant PinScan(parts[..i]) == Some(PinArgs(pin, value))
    {
      assert parts[..i + 1][..i] == parts[..i];
      var part := parts[i];
      var up := Text.Upper(part);
      if Text.StartsWith(up, "PIN=") {
        pin := SecondField(part);
      } else if Text.StartsWith(up, "VALUE=") {
        var v := Text.ParseDecimal(SecondField(part));
        if v.None? {
          ScanFailureSticks(parts, i + 1);
          return None;
        }
        value := v.value;
      }
      i := i + 1;
    }
    assert parts[..i] == parts;
    r := Some(PinArgs(pin, value));
  }

  lemma {:induction false} ScanFailureSticks(parts: seq<string>, k: nat)
    requires k <= |parts| && PinScan(parts[..k]).None?
    ensures PinScan(parts).None?
    decreases |parts| - k
  {
    if k < |parts| {
      assert parts[..k + 1][..k] == parts[..k];
      ScanFailureSticks(parts, k + 1);
    } else {
      assert parts[..k] == parts;
    }
  }

  /** SET_PIN PIN=caselight: the light goes on for a positive VALUE. */
  function PinPlan(line: string): Option<Action> {
    if !Text.StartsWith(Text.Upper(line), "SET_PIN") then None
    else
      match PinScan(Text.Words(line))
      case Some(a) => if a.pin == "caselight" then Some(SetLight(a.value > 0.0)) else None
      case None => None
  }

  // ------------------------------------------------------------ SET_FAN_SPEED

  datatype FanArgs = FanArgs(fan: Option<string>, speed: Option<string>)

  function FanStep(acc: FanArgs, part: string): FanArgs {
    var up := Text.Upper(part);
    if Text.StartsWith(up, "FAN=") then acc.(fan := Some(Assigned(part)))
    else if Text.StartsWith(up, "SPEED=") then acc.(speed := Some(Assigned(part)))
    else acc
  }

  function FanScan(parts: seq<string>): FanArgs
    decreases |parts|
  {
    if |parts| == 0 then FanArgs(None, None)
    else FanStep(FanScan(parts[..|parts| - 1]), parts[|parts| - 1])
  }

  method ScanFan(parts: seq<string>) returns (r: FanArgs)
    ensures r == FanScan(parts)
  {
    var fan: Option<string> := None;
    var speed: Option<string> := None;
    var i := 0;
    while i < |parts|
      invariant 0 <= i <= |parts|
      invariant FanScan(parts[..i]) == FanArgs(fan, speed)
    {
      assert parts[..i + 1][..i] == parts[..i];
      var part := parts[i];
      var up := Text.Upper(part);
      if Text.StartsWith(up, "FAN=") {
        fan := Some(Assigned(part));
      } else if Text.StartsWith(up, "SPEED=") {
        speed := Some(Assigned(part));
      }
      i := i + 1;
    }
    assert parts[..i] == parts;
    r := FanArgs(fan, speed);
  }

  /** The speed argument as build_fan_command receives it: text, or None. */
  function SpeedArg(s: Option<string>): Value {
    if s.Some? then Str(s.value) else Null
  }

  function FanPlan(line: string): Option<Action> {
    if !Text.StartsWith(Text.Upper(line), "SET_FAN_SPEED") then None
    else
      var a := FanScan(Text.Words(line));
      match FanControl.BuildFanCommand(a.fan, SpeedArg(a.speed))
      case Ok(c) => Some(SetFan(c))
      case Err(_) => None
  }

  // ------------------------------------------------------ M104/M109/M140/M190

  predicate IsHeaterCode(up: string) {
    Text.StartsWith(up, "M104") || Text.StartsWith(up, "M109")
    || Text.StartsWith(up, "M140") || Text.StartsWith(up, "M190")
  }

  /** The first word starting with "S": None when there is none, Some(None)
      when float() refuses the rest of it. */
  function FirstS(parts: seq<string>): Option<Option<real>>
    decreases |parts|
  {
    if |parts| == 0 then None
    else if Text.StartsWith(parts[0], "S") then Some(Text.ParseDecimal(parts[0][1..]))
    else FirstS(parts[1..])
  }

  method FindS(parts: seq<string>) returns (r: Option<Option<real>>)
    ensures r == FirstS(parts)
  {
    var i := 0;
    while i < |parts|
      invariant 0 <= i <= |parts|
      invariant FirstS(parts) == FirstS(parts[i..])
    {
      assert parts[i..][1..] == parts[i + 1..];
      if Text.StartsWith(parts[i], "S") {
        return Some(Text.ParseDecimal(parts[i][1..]));
      }
      i := i + 1;
    }
    r := None;
  }

  /** The upper-cased line's first word is the command word; the extruder
      codes set the nozzle (M109 waits), the bed codes set the bed. */
  function HeaterCodePlan(line: string): Option<Action> {
    var up := Text.Upper(line);
    if !IsHeaterCode(up) then None
    else
      var cmd := Text.TakeWord(up);
      match FirstS(Text.Words(up))
      case None => Some(Fail(MissingS(line)))
      case Some(None) => None
      case Some(Some(t)) =>
        if cmd == "M104" || cmd == "M109" then Some(SetHeater(DeviceLink.Extruder, t, cmd == "M109"))
        else if cmd == "M140" || cmd == "M190" then Some(SetHeater(DeviceLink.Bed, t, cmd == "M190"))
        else Some(Fail(UnsupportedHeaterCommand(cmd)))
  }

  // --------------------------------------------------- SET_HEATER_TEMPERATURE

  datatype HeaterArgs = HeaterArgs(heater: Option<string>, target: Option<real>, wait: bool)

  const WaitWords: set<string> := {"1", "true", "yes", "on"}

  function HeaterStep(acc: HeaterArgs, part: string): Option<HeaterArgs> {
    var up := Text.Upper(part);
    if Text.StartsWith(up, "HEATER=") then Some(acc.(heater := Some(Assigned(part))))
    else if Text.StartsWith(up, "TARGET=") then
      match Text.ParseDecimal(Assigned(part))
      case Some(t) => Some(acc.(target := Some(t)))
      case None => None
    else if Text.StartsWith(up, "WAIT=") then Some(acc.(wait := Text.Lower(Text.Strip(Assigned(part))) in WaitWords))
    else Some(acc)
  }

  function HeaterScan(parts: seq<string>): Option<HeaterArgs>
    decreases |parts|
  {
    if |parts| == 0 then Some(HeaterArgs(None, None, false))
    else
      match HeaterScan(parts[..|parts| - 1])
      case None => None
      case Some(acc) => HeaterStep(acc, parts[|parts| - 1])
  }

  lemma {:induction false} HeaterScanFailureSticks(parts: seq<string>, k: nat)
    requires k <= |parts| && HeaterScan(parts[..k]).None?
    ensures HeaterScan(parts).None?
    decreases |parts| - k
  {
    if k < |parts| {
      assert parts[..k + 1][..k] == parts[..k];
      HeaterScanFailureSticks(parts, k + 1);
    } else {
      assert parts[..k] == parts;
    }
  }

  lemma HeaterScanPrefix(parts: seq<string>, i: nat)
    requires i < |parts|
    ensures HeaterScan(parts[..i + 1])
      == if HeaterScan(parts[..i]).None? then None else HeaterStep(HeaterScan(parts[..i]).value, parts[i])
  {
    assert parts[..i + 1][..i] == parts[..i];
  }

  method ScanHeater(parts: seq<string>) returns (r: Option<HeaterArgs>)
    ensures r == HeaterScan(parts)
  {
    var acc := HeaterArgs(None, None, false);
    var i := 0;
    while i < |parts|
      invariant 0 <= i <= |parts|
      invariant HeaterScan(parts[..i]) == Some(acc)
    {
      HeaterScanPrefix(parts, i);
      var next := ReadHeaterWord(acc, parts[i]);
      if next.None? {
        HeaterScanFailureSticks(parts, i + 1);
        return None;
      }
      acc := next.value;
      i := i + 1;
    }
    assert parts[..i] == parts;
    r := Some(acc);
  }

  /** One word of a SET_HEATER_TEMPERATURE line. */
  method ReadHeaterWord(acc: HeaterArgs, part: string) returns (r: Option<HeaterArgs>)
    ensures r == HeaterStep(acc, part)
  {
    var up := Text.Upper(part);
    r := Some(acc);
    if Text.StartsWith(up, "HEATER=") {
      r := Some(acc.(heater := Some(Assigned(part))));
    } else if Text.StartsWith(up, "TARGET=") {
      var t := Text.ParseDecimal(Assigned(part));
      if t.None? {
        return None;
      }
      r := Some(acc.(target := Some(t.value)));
    } else if Text.StartsWith(up, "WAIT=") {
      r := Some(acc.(wait := Text.Lower(Text.Strip(Assigned(part))) in WaitWords));
    }
  }

  /** HEATER and TARGET are both required; "extruder" is the nozzle,
      "heater_bed" and "bed" the bed. */
  function SetHeaterPlan(line: string): Option<Action> {
    if !Text.StartsWith(Text.Upper(line), "SET_HEATER_TEMPERATURE") then None
    else
      match HeaterScan(Text.Words(line))
      case None => None
      case Some(a) => Some(HeaterChoice(a, line))
  }

  function HeaterChoice(a: HeaterArgs, line: string): Action {
    if a.heater.None? || a.target.None? then Fail(InvalidSetHeater(line))
    else if a.heater.value == "extruder" then SetHeater(DeviceLink.Extruder, a.target.value, a.wait)
    else if a.heater.value == "heater_bed" || a.heater.value == "bed" then SetHeater(DeviceLink.Bed, a.target.value, a.wait)
    else Fail(UnknownHeaterName(a.heater.value))
  }

  // ---------------------------------------------------------------- one line

  /** The checks in source order; a line none of them takes is forwarded. */
  function Plan(line: string): Action {
    match PinPlan(line)
    case Some(a) => a
    case None =>
      match FanPlan(line)
      case Some(a) => a
      case None =>
        match HeaterCodePlan(line)
        case Some(a) => a
        case None =>
          match SetHeaterPlan(line)
          case Some(a) => a
          case None => Forward(line)
  }

  /** Plan, computed the way the handler does it, check by check. */
  method DecideLine(line: string) returns (a: Action)
    ensures a == Plan(line)
  {
    var pin := DecidePin(line);
    if pin.Some? {
      return pin.value;
    }
    var fan := DecideFan(line);
    if fan.Some? {
      return fan.value;
    }
    var code := DecideHeaterCode(line);
    if code.Some? {
      return code.value;
    }
    var heater := DecideSetHeater(line);
    if heater.Some? {
      return heater.value;
    }
    a := Forward(line);
  }

  method DecidePin(line: string) returns (r: Option<Action>)
    ensures r == PinPlan(line)
  {
    r := None;
    if Text.StartsWith(Text.Upper(line), "SET_PIN") {
      var pin := ScanPin(Text.Words(line));
      if pin.Some? && pin.value.pin == "caselight" {
        r := Some(SetLight(pin.value.value > 0.0));
      }
    }
  }

  method DecideFan(line: string) returns (r: Option<Action>)
    ensures r == FanPlan(line)
  {
    r := None;
    if Text.StartsWith(Text.Upper(line), "SET_FAN_SPEED") {
      var args := ScanFan(Text.Words(line));
      var command := FanControl.BuildFanCommand(args.fan, SpeedArg(args.speed));
      if command.Ok? {
        r := Some(SetFan(command.value));
      }
    }
  }

  method DecideHeaterCode(line: string) returns (r: Option<Action>)
    ensures r == HeaterCodePlan(line)
  {
    var up := Text.Upper(line);
    if !IsHeaterCode(up) {
      return None;
    }
    var cmd := Text.TakeWord(up);
    var temp := FindS(Text.Words(up));
    if temp.None? {
      return Some(Fail(MissingS(line)));
    }
    if temp.value.None? {
      return None;
    }
    var t := temp.value.value;
    if cmd == "M104" || cmd == "M109" {
      r := Some(SetHeater(DeviceLink.Extruder, t, cmd == "M109"));
    } else if cmd == "M140" || cmd == "M190" {
      r := Some(SetHeater(DeviceLink.Bed, t, cmd == "M190"));
    } else {
      r := Some(Fail(UnsupportedHeaterCommand(cmd)));
    }
  }

  method DecideSetHeater(line: string) returns (r: Option<Action>)
    ensures r == SetHeaterPlan(line)
  {
    r := None;
    if Text.StartsWith(Text.Upper(line), "SET_HEATER_TEMPERATURE") {
      var args := ScanHeater(Text.Words(line));
      if args.Some? {
        var heater, target := args.value.heater, args.value.target;
        if heater.None? || target.None? {
          r := Some(Fail(InvalidSetHeater(line)));
        } else if heater.value == "extruder" {
          r := Some(SetHeater(DeviceLink.Extruder, target.value, args.value.wait));
        } else if heater.value == "heater_bed" || heater.value == "bed" {
          r := Some(SetHeater(DeviceLink.Bed, target.value, args.value.wait));
        } else {
          r := Some(Fail(UnknownHeaterName(heater.value)));
        }
      }
    }
  }

  // ---------------------------------------------------------------- effects

  /** The state echo for the case light. */
  function LightEcho(on: bool): StateStore.State {
    map["output_pin caselight" := map["value" := Num(if on then 1.0 else 0.0)]]
  }

  /** The state echo for a fan: speed/255, into that fan's status objects. */
  function FanEcho(c: FanControl.FanCommand): StateStore.State {
    var ratio := Num(if c.speed > 0 then c.speed as real / 255.0 else 0.0);
    match c.target
    case Part => map["fan" := map["speed" := ratio]]
    case Aux => map["fan_generic aux" := map["speed" := ratio], "fan_aux" := map["speed" := ratio]]
    case Chamber => map["fan_generic chamber" := map["speed" := ratio], "fan_chamber" := map["speed" := ratio]]
  }

  /** The state echo for a heater: the requested target, not rounded. */
  function HeaterEcho(h: DeviceLink.Heater, t: real): StateStore.State {
    match h
    case Extruder => map["extruder" := map["target" := Num(t)]]
    case Bed => map["heater_bed" := map["target" := Num(t)]]
  }

  function HeaterWord(h: DeviceLink.Heater): string {
    match h
    case Extruder => "extruder"
    case Bed => "bed"
  }

  /** What carrying out one action does: the commands it hands to the client
      and the state echo, or the error that ends the script. */
  datatype Outcome = Next(sent: seq<DeviceLink.Command>, echo: Option<StateStore.State>) | Halt(err: ScriptError)

  function Effect(a: Action, linked: bool): Outcome {
    match a
    case SetLight(on) =>
      Next([DeviceLink.Light(DeviceLink.PrintSection, on), DeviceLink.Light(DeviceLink.SystemSection, on)], Some(LightEcho(on)))
    case SetFan(c) => Next([DeviceLink.GcodeLine(c.gcode)], Some(FanEcho(c)))
    case SetHeater(h, t, wait) =>
      (match DeviceLink.TemperatureLine(HeaterWord(h), Num(t), wait, linked)
       case Err(e) => Halt(Rejected(e))
       case Ok(g) => Next([DeviceLink.GcodeLine(g)], Some(HeaterEcho(h, t))))
    case Fail(e) => Halt(e)
    case Forward(l) => Next([DeviceLink.GcodeLine(l)], None)
  }

  /** The publishes a sequence of client commands produces: none while the
      client is not linked. */
  function Outbounds(serial: string, cmds: seq<DeviceLink.Command>, linked: bool): (r: seq<DeviceLink.Outbound>)
    ensures |r| == if linked then |cmds| else 0
    decreases |cmds|
  {
    if !linked || |cmds| == 0 then []
    else Outbounds(serial, cmds[..|cmds| - 1], linked) + [Publish(serial, cmds[|cmds| - 1])]
  }

  /** The envelope carrying one command to the printer's request topic. */
  function Publish(serial: string, c: DeviceLink.Command): DeviceLink.Outbound {
    DeviceLink.Outbound(DeviceLink.RequestTopic(serial), DeviceLink.Encode(c))
  }

  lemma OutboundsOne(serial: string, c: DeviceLink.Command, linked: bool)
    ensures Outbounds(serial, [c], linked) == if linked then [Publish(serial, c)] else []
  {
    assert [c][..0] == [];
  }

  lemma OutboundsTwo(serial: string, c: DeviceLink.Command, d: DeviceLink.Command, linked: bool)
    ensures Outbounds(serial, [c, d], linked) == if linked then [Publish(serial, c), Publish(serial, d)] else []
  {
    assert [c, d][..1] == [c];
    OutboundsOne(serial, c, linked);
  }

  lemma {:induction false} OutboundsAppend(serial: string, a: seq<DeviceLink.Command>, b: seq<DeviceLink.Command>, linked: bool)
    ensures Outbounds(serial, a + b, linked) == Outbounds(serial, a, linked) + Outbounds(serial, b, linked)
    decreases |b|
  {
    if linked && |b| > 0 {
      var b' := b[..|b| - 1];
      assert (a + b)[..|a + b| - 1] == a + b';
      OutboundsAppend(serial, a, b', linked);
    } else if linked {
      assert a + b == a;
    }
  }

  function ApplyEcho(st: StateStore.State, echo: Option<StateStore.State>): StateStore.State {
    if echo.Some? then StateStore.Applied(st, echo.value) else st
  }

  /** update_state with an echo; only the resulting status is followed here. */
  method Echo(store: StateStore.StateManager, u: StateStore.State, now: real, freshId: string)
    requires store.Valid()
    modifies store
    ensures store.Valid() && store.state == StateStore.Applied(old(store.state), u)
  {
    var _ := store.UpdateState(u, now, freshId);
  }

  method PerformLight(on: bool, client: DeviceLink.BambuClient, store: StateStore.StateManager, now: real, freshId: string)
    requires client.Valid() && store.Valid()
    modifies client, store
    ensures client.Valid() && store.Valid()
    ensures client.hasSession == old(client.hasSession) && client.connected == old(client.connected)
    ensures var o := Effect(SetLight(on), old(client.Linked()));
      client.outbox == old(client.outbox) + Outbounds(client.serial, o.sent, old(client.Linked()))
      && store.state == ApplyEcho(old(store.state), o.echo)
  {
    OutboundsTwo(client.serial, DeviceLink.Light(DeviceLink.PrintSection, on), DeviceLink.Light(DeviceLink.SystemSection, on), client.Linked());
    client.SetLight(on);
    Echo(store, LightEcho(on), now, freshId);
  }

  method PerformHeater(h: DeviceLink.Heater, t: real, wait: bool, client: DeviceLink.BambuClient,
                       store: StateStore.StateManager, now: real, freshId: string)
    returns (halt: Option<ScriptError>)
    requires client.Valid() && store.Valid()
    modifies client, store
    ensures client.Valid() && store.Valid()
    ensures client.hasSession == old(client.hasSession) && client.connected == old(client.connected)
    ensures var line := DeviceLink.TemperatureLine(HeaterWord(h), Num(t), wait, old(client.Linked()));
      && (line.Err? ==> halt == Some(Rejected(line.error)) && client.outbox == old(client.outbox) && store.state == old(store.state))
      && (line.Ok? ==>
            && halt.None?
            && client.outbox == old(client.outbox) + [DeviceLink.Outbound(DeviceLink.RequestTopic(client.serial), DeviceLink.Encode(DeviceLink.GcodeLine(line.value)))]
            && store.state == StateStore.Applied(old(store.state), HeaterEcho(h, t)))
  {
    var r;
    match h {
      case Extruder => r := client.SetNozzleTemp(t, wait);
      case Bed => r := client.SetBedTemp(t, wait);
    }
    if r.Err? {
      return Some(Rejected(r.error));
    }
    Echo(store, HeaterEcho(h, t), now, freshId);
    halt := None;
  }

  /** Carries out one action with the client and the store. */
  method Perform(a: Action, client: DeviceLink.BambuClient, store: StateStore.StateManager, now: real, freshId: string)
    returns (halt: Option<ScriptError>)
    requires client.Valid() && store.Valid()
    modifies client, store
    ensures client.Valid() && store.Valid()
    ensures client.hasSession == old(client.hasSession) && client.connected == old(client.connected)
    ensures var o := Effect(a, old(client.Linked()));
      && (o.Halt? ==> halt == Some(o.err) && client.outbox == old(client.outbox) && store.state == old(store.state))
      && (o.Next? ==>
            && halt.None?
            && client.outbox == old(client.outbox) + Outbounds(client.serial, o.sent, old(client.Linked()))
            && store.state == ApplyEcho(old(store.state), o.echo))
  {
    halt := None;
    match a
    case SetLight(on) =>
      PerformLight(on, client, store, now, freshId);
    case SetFan(c) =>
      OutboundsOne(client.serial, DeviceLink.GcodeLine(c.gcode), client.Linked());
      client.SendGcodeLine(c.gcode);
      Echo(store, FanEcho(c), now, freshId);
    case SetHeater(h, t, wait) =>
      HeaterOutcome(h, t, wait, client.Linked());
      var line := DeviceLink.TemperatureLine(HeaterWord(h), Num(t), wait, client.Linked());
      if line.Ok? {
        OutboundsOne(client.serial, DeviceLink.GcodeLine(line.value), client.Linked());
      }
      halt := PerformHeater(h, t, wait, client, store, now, freshId);
    case Fail(e) =>
      halt := Some(e);
    case Forward(l) =>
      OutboundsOne(client.serial, DeviceLink.GcodeLine(l), client.Linked());
      client.SendGcodeLine(l);
  }

  // ------------------------------------------------------------ whole script

  /** How far a script got: the error that ended it, if any, and the client
      commands and state echoes of the lines before. */
  datatype Run = Run(halted: Option<ScriptError>, sent: seq<DeviceLink.Command>, echoes: seq<StateStore.State>)

  /** One more raw line: nothing once halted or for a blank line, else the
      effect of the trimmed line's action. */
  function RunLine(prev: Run, raw: string, linked: bool): Run {
    var line := Text.Strip(raw);
    if prev.halted.Some? || line == "" then prev
    else
      match Effect(Plan(line), linked)
      case Halt(e) => Run(Some(e), prev.sent, prev.echoes)
      case Next(s, echo) => Run(None, prev.sent + s, prev.echoes + EchoList(echo))
  }

  function EchoList(echo: Option<StateStore.State>): seq<StateStore.State> {
    if echo.Some? then [echo.value] else []
  }

  function ScriptRun(lines: seq<string>, linked: bool): Run
    decreases |lines|
  {
    if |lines| == 0 then Run(None, [], [])
    else RunLine(ScriptRun(lines[..|lines| - 1], linked), lines[|lines| - 1], linked)
  }

  /** The state after the echoes, in order. */
  function AppliedAll(st: StateStore.State, echoes: seq<StateStore.State>): StateStore.State
    decreases |echoes|
  {
    if |echoes| == 0 then st else StateStore.Applied(AppliedAll(st, echoes[..|echoes| - 1]), echoes[|echoes| - 1])
  }

  lemma AppliedAllSnoc(st: StateStore.State, echoes: seq<StateStore.State>, echo: Option<StateStore.State>)
    ensures AppliedAll(st, echoes + EchoList(echo)) == ApplyEcho(AppliedAll(st, echoes), echo)
  {
    if echo.Some? {
      assert (echoes + [echo.value])[..|echoes|] == echoes;
    } else {
      assert echoes + [] == echoes;
    }
  }

  /** The script text as the handler splits it. */
  function Lines(script: string): seq<string> {
    Text.Split(script, '\n')
  }

  /** printer.gcode.script: "ok", or the first heater error. */
  method RunScript(script: string, client: DeviceLink.BambuClient, store: StateStore.StateManager, now: real, freshId: string)
    returns (r: Result<(), ScriptError>)
    requires client.Valid() && store.Valid()
    modifies client, store
    ensures client.Valid() && store.Valid()
    ensures client.hasSession == old(client.hasSession) && client.connected == old(client.connected)
    ensures var run := ScriptRun(Lines(script), old(client.Linked()));
      && r == (if run.halted.Some? then Err(run.halted.value) else Ok(()))
      && client.outbox == old(client.outbox) + Outbounds(client.serial, run.sent, old(client.Linked()))
      && store.state == AppliedAll(old(store.state), run.echoes)
  {
    var lines := Text.Split(script, '\n');
    ghost var linked := client.Linked();
    ghost var run := Run(None, [], []);
    var i := 0;
    while i < |lines|
      invariant 0 <= i <= |lines|
      invariant client.Valid() && store.Valid()
      invariant client.hasSession == old(client.hasSession) && client.connected == old(client.connected)
      invariant run == ScriptRun(lines[..i], linked) && run.halted.None?
      invariant client.outbox == old(client.outbox) + Outbounds(client.serial, run.sent, linked)
      invariant store.state == AppliedAll(old(store.state), run.echoes)
    {
      RunPrefix(lines, i, linked);
      var halt := RunLineWith(lines[i], run, linked, old(client.outbox), old(store.state), client, store, now, freshId);
      ghost var prev := run;
      run := RunLine(run, lines[i], linked);
      if halt.Some? {
        HaltKeepsRun(prev, lines[i], linked);
        HaltSticks(lines, i + 1, linked);
        return Err(halt.value);
      }
      i := i + 1;
    }
    assert lines[..i] == lines;
    r := Ok(());
  }

  /** One raw line of the script, carried out: the run so far grows by
      RunLine. */
  method RunLineWith(raw: string, ghost run: Run, ghost linked: bool, ghost base: seq<DeviceLink.Outbound>,
                     ghost st0: StateStore.State, client: DeviceLink.BambuClient, store: StateStore.StateManager,
                     now: real, freshId: string)
    returns (halt: Option<ScriptError>)
    requires client.Valid() && store.Valid() && linked == client.Linked() && run.halted.None?
    requires client.outbox == base + Outbounds(client.serial, run.sent, linked)
    requires store.state == AppliedAll(st0, run.echoes)
    modifies client, store
    ensures client.Valid() && store.Valid()
    ensures client.hasSession == old(client.hasSession) && client.connected == old(client.connected)
    ensures var next := RunLine(run, raw, linked);
      && halt == next.halted
      && (halt.Some? ==> client.outbox == old(client.outbox) && store.state == old(store.state))
      && (halt.None? ==>
            && client.outbox == base + Outbounds(client.serial, next.sent, linked)
            && store.state == AppliedAll(st0, next.echoes))
  {
    var line := Text.Strip(raw);
    if line == "" {
      return None;
    }
    var a := DecideLine(line);
    ghost var o := Effect(a, linked);
    ghost var before := client.outbox;
    halt := Perform(a, client, store, now, freshId);
    if halt.None? {
      assert RunLine(run, raw, linked) == Run(None, run.sent + o.sent, run.echoes + EchoList(o.echo));
      ghost var now0 := Outbounds(client.serial, run.sent, linked);
      ghost var added := Outbounds(client.serial, o.sent, linked);
      OutboundsAppend(client.serial, run.sent, o.sent, linked);
      Associative(base, now0, added);
      AppliedAllSnoc(st0, run.echoes, o.echo);
    }
  }

  lemma Associative<T>(a: seq<T>, b: seq<T>, c: seq<T>)
    ensures (a + b) + c == a + (b + c)
  {
  }

  /** The line that ends a script adds no command and no echo. */
  lemma HaltKeepsRun(prev: Run, raw: string, linked: bool)
    requires prev.halted.None? && RunLine(prev, raw, linked).halted.Some?
    ensures RunLine(prev, raw, linked).sent == prev.sent && RunLine(prev, raw, linked).echoes == prev.echoes
  {
  }

  lemma RunPrefix(lines: seq<string>, i: nat, linked: bool)
    requires i < |lines|
    ensures ScriptRun(lines[..i + 1], linked) == RunLine(ScriptRun(lines[..i], linked), lines[i], linked)
  {
    assert lines[..i + 1][..i] == lines[..i];
  }

  // ---------------------------------------------------------------- lemmas

  /** Once a line ends the script, later lines change nothing. */
  lemma {:induction false} HaltSticks(lines: seq<string>, k: nat, linked: bool)
    requires k <= |lines| && ScriptRun(lines[..k], linked).halted.Some?
    ensures ScriptRun(lines, linked) == ScriptRun(lines[..k], linked)
    decreases |lines| - k
  {
    if k < |lines| {
      assert lines[..k + 1][..k] == lines[..k];
      HaltSticks(lines, k + 1, linked);
    } else {
      assert lines[..k] == lines;
    }
  }

  /** An error skips the remaining lines: whatever follows, the run is the
      one up to the failing line. */
  lemma ErrorSkipsTheRest(lines: seq<string>, more: seq<string>, linked: bool)
    requires ScriptRun(lines, linked).halted.Some?
    ensures ScriptRun(lines + more, linked) == ScriptRun(lines, linked)
  {
    assert (lines + more)[..|lines|] == lines;
    HaltSticks(lines + more, |lines|, linked);
  }

  /** A failing line adds no command and no state echo of its own. */
  lemma FailingLineLeavesNoTrace(lines: seq<string>, line: string, linked: bool)
    requires ScriptRun(lines, linked).halted.None?
    requires Text.Strip(line) != "" && Effect(Plan(Text.Strip(line)), linked).Halt?
    ensures ScriptRun(lines + [line], linked)
      == Run(Some(Effect(Plan(Text.Strip(line)), linked).err), ScriptRun(lines, linked).sent, ScriptRun(lines, linked).echoes)
  {
    var prev := ScriptRun(lines, linked);
    assert ScriptRun(lines + [line], linked) == RunLine(prev, line, linked) by {
      assert (lines + [line])[..|lines|] == lines;
    }
  }

  /** Blank lines are skipped. */
  lemma BlankLineSkipped(lines: seq<string>, line: string, linked: bool)
    requires Text.Strip(line) == ""
    ensures ScriptRun(lines + [line], linked) == ScriptRun(lines, linked)
  {
    assert (lines + [line])[..|lines|] == lines;
  }

  /** A line no interceptor takes is forwarded as it is, without an echo. */
  lemma OtherLinesForwarded(line: string, linked: bool)
    requires var up := Text.Upper(line);
      !Text.StartsWith(up, "SET_PIN") && !Text.StartsWith(up, "SET_FAN_SPEED")
      && !IsHeaterCode(up) && !Text.StartsWith(up, "SET_HEATER_TEMPERATURE")
    ensures Plan(line) == Forward(line)
    ensures Effect(Plan(line), linked) == Next([DeviceLink.GcodeLine(line)], None)
  {
  }

  /** Two prefixes that differ at a position cannot both start a line. */
  lemma PrefixesClash(s: string, p: string, q: string, k: nat)
    requires Text.StartsWith(s, p) && k < |p| && k < |q| && p[k] != q[k]
    ensures !Text.StartsWith(s, q)
  {
    Text.PrefixCharAt(s, p, k);
    if Text.StartsWith(s, q) {
      Text.PrefixCharAt(s, q, k);
    }
  }

  /** A line that starts with the word "S..." is no heater code. */
  lemma NotHeaterCode(up: string, p: string)
    requires Text.StartsWith(up, p) && |p| > 0 && p[0] == 'S'
    ensures !IsHeaterCode(up)
  {
    PrefixesClash(up, p, "M104", 0);
    PrefixesClash(up, p, "M109", 0);
    PrefixesClash(up, p, "M140", 0);
    PrefixesClash(up, p, "M190", 0);
  }

  /** Which interceptors a line can reach is fixed by its first letters. */
  lemma FanLineOnly(up: string)
    requires Text.StartsWith(up, "SET_FAN_SPEED")
    ensures !Text.StartsWith(up, "SET_PIN") && !IsHeaterCode(up) && !Text.StartsWith(up, "SET_HEATER_TEMPERATURE")
  {
    PrefixesClash(up, "SET_FAN_SPEED", "SET_PIN", 4);
    NotHeaterCode(up, "SET_FAN_SPEED");
    PrefixesClash(up, "SET_FAN_SPEED", "SET_HEATER_TEMPERATURE", 4);
  }

  lemma SetHeaterLineOnly(up: string)
    requires Text.StartsWith(up, "SET_HEATER_TEMPERATURE")
    ensures !Text.StartsWith(up, "SET_PIN") && !Text.StartsWith(up, "SET_FAN_SPEED") && !IsHeaterCode(up)
  {
    PrefixesClash(up, "SET_HEATER_TEMPERATURE", "SET_PIN", 4);
    PrefixesClash(up, "SET_HEATER_TEMPERATURE", "SET_FAN_SPEED", 4);
    NotHeaterCode(up, "SET_HEATER_TEMPERATURE");
  }

  lemma HeaterCodeOnly(up: string)
    requires IsHeaterCode(up)
    ensures !Text.StartsWith(up, "SET_PIN") && !Text.StartsWith(up, "SET_FAN_SPEED")
  {
    var code := if Text.StartsWith(up, "M104") then "M104" else if Text.StartsWith(up, "M109") then "M109"
      else if Text.StartsWith(up, "M140") then "M140" else "M190";
    PrefixesClash(up, code, "SET_PIN", 0);
    PrefixesClash(up, code, "SET_FAN_SPEED", 0);
  }

  /** SET_PIN PIN=caselight is taken by the light, whatever follows. */
  lemma CaselightPlanned(line: string)
    requires Text.StartsWith(Text.Upper(line), "SET_PIN")
    requires PinScan(Text.Words(line)).Some? && PinScan(Text.Words(line)).value.pin == "caselight"
    ensures Plan(line) == SetLight(PinScan(Text.Words(line)).value.value > 0.0)
  {
    assert PinPlan(line) == Some(SetLight(PinScan(Text.Words(line)).value.value > 0.0));
  }

  /** The case light is switched with both envelopes and echoed as 1.0 or
      0.0; nothing is forwarded as a G-code line. */
  lemma LightEffect(on: bool, linked: bool)
    ensures Effect(SetLight(on), linked).Next?
    ensures Effect(SetLight(on), linked).sent
      == [DeviceLink.Light(DeviceLink.PrintSection, on), DeviceLink.Light(DeviceLink.SystemSection, on)]
    ensures Effect(SetLight(on), linked).echo == Some(map["output_pin caselight" := map["value" := Num(if on then 1.0 else 0.0)]])
    ensures forall g :: DeviceLink.GcodeLine(g) !in Effect(SetLight(on), linked).sent
  {
  }

  /** The last PIN= word names the pin, whatever came before it. */
  lemma LastPinWins(parts: seq<string>, pin: string)
    requires PinScan(parts).Some?
    ensures PinScan(parts + ["PIN=" + pin]).Some?
    ensures '=' !in pin ==> PinScan(parts + ["PIN=" + pin]).value.pin == pin
  {
    var p := "PIN=" + pin;
    assert (parts + [p])[..|parts|] == parts;
    assert Text.Upper(p)[..4] == "PIN=" by {
      assert p[..4] == "PIN=";
    }
    assert p == "PIN" + ['='] + pin;
    Text.AfterFirstSeparator("PIN", '=', pin);
    if '=' !in pin {
      Text.SplitWithoutSeparator(pin, '=');
    }
  }

  /** A SET_FAN_SPEED line the fan command refuses is forwarded as it is. */
  lemma BadFanLineForwarded(line: string)
    requires Text.StartsWith(Text.Upper(line), "SET_FAN_SPEED")
    requires var a := FanScan(Text.Words(line)); FanControl.BuildFanCommand(a.fan, SpeedArg(a.speed)).Err?
    ensures Plan(line) == Forward(line)
  {
    FanLineOnly(Text.Upper(line));
    assert PinPlan(line) == None && FanPlan(line) == None;
    assert HeaterCodePlan(line) == None && SetHeaterPlan(line) == None;
  }

  /** A heater code without an S word is an error naming the line. */
  lemma HeaterCodeWithoutS(line: string, linked: bool)
    requires IsHeaterCode(Text.Upper(line))
    requires FirstS(Text.Words(Text.Upper(line))).None?
    ensures Plan(line) == Fail(MissingS(line))
    ensures Effect(Plan(line), linked) == Halt(MissingS(line))
  {
    HeaterCodeOnly(Text.Upper(line));
    assert PinPlan(line) == None && FanPlan(line) == None;
    assert HeaterCodePlan(line) == Some(Fail(MissingS(line)));
  }

  /** A heater line that goes through echoes the requested, unrounded
      target, and sends the rounded one; one that does not ends the script
      with the client's error. */
  lemma HeaterOutcome(h: DeviceLink.Heater, t: real, wait: bool, linked: bool)
    ensures var line := DeviceLink.TemperatureLine(HeaterWord(h), Num(t), wait, linked);
      && (line.Ok? ==> linked)
      && (line.Ok? ==> Effect(SetHeater(h, t, wait), linked) == Next([DeviceLink.GcodeLine(line.value)], Some(HeaterEcho(h, t))))
      && (line.Err? ==> Effect(SetHeater(h, t, wait), linked) == Halt(Rejected(line.error)))
  {
  }

  /** A SET_HEATER_TEMPERATURE line whose words parse is decided by them. */
  lemma SetHeaterPlanned(line: string)
    requires Text.StartsWith(Text.Upper(line), "SET_HEATER_TEMPERATURE")
    requires HeaterScan(Text.Words(line)).Some?
    ensures Plan(line) == HeaterChoice(HeaterScan(Text.Words(line)).value, line)
  {
    SetHeaterLineOnly(Text.Upper(line));
    NoPinPlan(line);
    NoFanPlan(line);
    NoHeaterCodePlan(line);
    PlanFallsToSetHeater(line);
  }

  lemma NoPinPlan(line: string)
    requires !Text.StartsWith(Text.Upper(line), "SET_PIN")
    ensures PinPlan(line).None?
  {
  }

  lemma NoFanPlan(line: string)
    requires !Text.StartsWith(Text.Upper(line), "SET_FAN_SPEED")
    ensures FanPlan(line).None?
  {
  }

  lemma NoHeaterCodePlan(line: string)
    requires !IsHeaterCode(Text.Upper(line))
    ensures HeaterCodePlan(line).None?
  {
  }

  /** With no earlier interceptor taking the line, SET_HEATER_TEMPERATURE decides it. */
  lemma PlanFallsToSetHeater(line: string)
    requires PinPlan(line).None? && FanPlan(line).None? && HeaterCodePlan(line).None?
    ensures SetHeaterPlan(line).Some? ==> Plan(line) == SetHeaterPlan(line).value
  {
  }

  /** Both bed names select the bed, the nozzle needs "extruder", and HEATER
      and TARGET are both required. */
  lemma HeaterNames(a: HeaterArgs, line: string)
    ensures a.heater.None? || a.target.None? ==> HeaterChoice(a, line) == Fail(InvalidSetHeater(line))
    ensures a.heater.Some? && a.target.Some? ==>
      && (a.heater.value in {"heater_bed", "bed"} ==> HeaterChoice(a, line) == SetHeater(DeviceLink.Bed, a.target.value, a.wait))
      && (a.heater.value == "extruder" ==> HeaterChoice(a, line) == SetHeater(DeviceLink.Extruder, a.target.value, a.wait))
      && (a.heater.value !in {"heater_bed", "bed", "extruder"} ==> HeaterChoice(a, line) == Fail(UnknownHeaterName(a.heater.value)))
  {
  }

  /** The auxiliary and chamber fans have no status object in the store, so
      their echo leaves the state as it was. */
  lemma ExtraFanEchoDropped(st: StateStore.State, c: FanControl.FanCommand)
    requires st.Keys == StateStore.SchemaKeys
    requires c.target != FanControl.Part
    ensures StateStore.Applied(st, FanEcho(c)) == st
  {
    var u := FanEcho(c);
    assert forall k | k in u :: k !in st;
  }
}
