/** Fan names, speed normalisation and the M106 command the printer accepts
    for each of its three fans. */
module FanControl {
  import opened Wrappers
  import opened Json
  import Text
  import Numeric

  datatype FanTarget = Part | Aux | Chamber

  /** The canonical name of each fan. */
  function TargetName(t: FanTarget): string {
    match t
    case Part => "part"
    case Aux => "aux"
    case Chamber => "chamber"
  }

  /** Every accepted (lower-case) fan name and the fan it selects. */
  const FanAliases: map<string, FanTarget> := map[
    "part" := Part, "part_cooling" := Part, "toolhead" := Part,
    "aux" := Aux, "auxiliary" := Aux,
    "chamber" := Chamber, "rear" := Chamber, "case" := Chamber, "exhaust" := Chamber
  ]

  /** The P index of the M106 command for each fan. */
  function Channel(t: FanTarget): (ch: nat)
    ensures 1 <= ch <= 3
  {
    match t
    case Part => 1
    case Aux => 2
    case Chamber => 3
  }

  /** The fan a channel number stands for. */
  function ChannelTarget(ch: nat): Option<FanTarget> {
    if ch == 1 then Some(Part) else if ch == 2 then Some(Aux) else if ch == 3 then Some(Chamber) else None
  }

  lemma ChannelRoundTrip(t: FanTarget)
    ensures ChannelTarget(Channel(t)) == Some(t)
  {
  }

  datatype FanError = UnknownTarget(name: string) | BadSpeed

  /** A missing or empty name selects the part-cooling fan; otherwise the
      stripped, lower-cased name must be one of the aliases. */
  function NormalizeFanTarget(name: Option<string>): (r: Result<FanTarget, FanError>)
    ensures (name == None || name == Some("")) ==> r == Ok(Part)
    ensures name.Some? && name.value != "" ==>
      (r.Ok? <==> Text.Lower(Text.Strip(name.value)) in FanAliases)
    ensures r.Ok? && name.Some? && name.value != "" ==> r.value == FanAliases[Text.Lower(Text.Strip(name.value))]
    ensures r.Err? ==> r == Err(UnknownTarget(name.value))
  {
    if name == None || name == Some("") then Ok(Part)
    else
      var key := Text.Lower(Text.Strip(name.value));
      if key in FanAliases then Ok(FanAliases[key]) else Err(UnknownTarget(name.value))
  }

  /** Each fan's canonical name is accepted and selects that fan. */
  lemma CanonicalNamesSelectTheirFan(t: FanTarget)
    ensures NormalizeFanTarget(Some(TargetName(t))) == Ok(t)
  {
    match t
    case Part => PartSelected();
    case Aux => AuxSelected();
    case Chamber => ChamberSelected();
  }

  /** A lower-case name without surrounding blanks is its own key. */
  lemma OwnKey(s: string)
    requires s != "" && !Text.IsSpace(s[0]) && !Text.IsSpace(s[|s| - 1])
    requires forall i | 0 <= i < |s| :: !('A' <= s[i] <= 'Z')
    ensures Text.Lower(Text.Strip(s)) == s
  {
    Text.StripUnpadded(s);
    Text.LowerWithoutCapitals(s);
  }

  lemma PartSelected()
    ensures NormalizeFanTarget(Some("part")) == Ok(Part)
  {
    assert Text.Lower(Text.Strip("part")) == "part" by { OwnKey("part"); }
    assert "part" in FanAliases && FanAliases["part"] == Part;
  }

  lemma AuxSelected()
    ensures NormalizeFanTarget(Some("aux")) == Ok(Aux)
  {
    assert Text.Lower(Text.Strip("aux")) == "aux" by { OwnKey("aux"); }
    assert "aux" in FanAliases && FanAliases["aux"] == Aux;
  }

  lemma ChamberSelected()
    ensures NormalizeFanTarget(Some("chamber")) == Ok(Chamber)
  {
    assert Text.Lower(Text.Strip("chamber")) == "chamber" by { OwnKey("chamber"); }
    assert "chamber" in FanAliases && FanAliases["chamber"] == Chamber;
  }

  /** A name whose stripped form holds a character outside ASCII is
      refused: lower-casing keeps that character, and every alias is ASCII. */
  lemma NonAsciiNameRejected(name: string, i: nat)
    requires i < |Text.Strip(name)| && Text.Strip(name)[i] as int >= 128
    ensures NormalizeFanTarget(Some(name)) == Err(UnknownTarget(name))
  {
    var key := Text.Lower(Text.Strip(name));
    assert key[i] == Text.Strip(name)[i];
    if key in FanAliases {
      AliasIsAscii(key, i);
    }
  }

  /** Every alias is ASCII text. */
  lemma AliasIsAscii(k: string, i: nat)
    requires k in FanAliases && i < |k|
    ensures k[i] as int < 128
  {
    assert k == "part" || k == "part_cooling" || k == "toolhead" || k == "aux" || k == "auxiliary"
      || k == "chamber" || k == "rear" || k == "case" || k == "exhaust";
  }

  /** Every alias lands on a fan whose canonical name is itself an alias of
      that same fan. */
  lemma AliasesAreClosed(alias: string)
    requires alias in FanAliases
    ensures TargetName(FanAliases[alias]) in FanAliases
    ensures FanAliases[TargetName(FanAliases[alias])] == FanAliases[alias]
  {
  }

  /** A requested speed as a number: numbers as they are, text through
      SpeedFromText; booleans and anything else are errors. */
  function ParseNumericSpeed(v: Value): (r: Result<real, FanError>)
    ensures v.Num? ==> r == Ok(v.r)
    ensures v.Bool? || v.Null? || v.List? || v.Obj? ==> r == Err(BadSpeed)
    ensures v.Str? ==> r == SpeedFromText(v.s)
  {
    match v
    case Num(x) => Ok(x)
    case Str(s) => SpeedFromText(s)
    case _ => Err(BadSpeed)
  }

  /** Text speeds: blank is an error, "N%" is N/100, anything else goes
      through float(). */
  function SpeedFromText(s: string): (r: Result<real, FanError>)
    ensures Text.Strip(s) == "" ==> r == Err(BadSpeed)
  {
    var stripped := Text.Strip(s);
    if stripped == "" then Err(BadSpeed)
    else if Text.EndsWith(stripped, "%") then PercentRatio(Text.ParseDecimal(Text.Strip(Text.RStripChar(stripped, '%'))))
    else
      match Text.ParseDecimal(stripped)
      case Some(x) => Ok(x)
      case None => Err(BadSpeed)
  }

  /** The speed a percentage stands for, or an error when its number does not parse. */
  function PercentRatio(p: Option<real>): (r: Result<real, FanError>)
    ensures r.Ok? <==> p.Some?
  {
    match p
    case Some(x) => Ok(x / 100.0)
    case None => Err(BadSpeed)
  }

  /** The PWM value 0..255 for an already numeric speed: values in [0, 1] are
      a fraction of full speed, everything else is a raw PWM value. */
  function ScaleSpeed(x: real): (pwm: int)
    ensures 0 <= pwm <= 255
    ensures 0.0 <= x <= 1.0 ==> -0.5 <= pwm as real - x * 255.0 <= 0.5
    ensures x < 0.0 ==> pwm == 0
    ensures 1.0 < x <= 254.5 ==> -0.5 <= pwm as real - x <= 0.5
    ensures x > 254.5 ==> pwm == 255
    ensures 0.0 <= x <= 1.0 && (pwm as real - x * 255.0 == 0.5 || x * 255.0 - pwm as real == 0.5) ==> pwm % 2 == 0
    ensures 1.0 < x <= 254.5 && (pwm as real - x == 0.5 || x - pwm as real == 0.5) ==> pwm % 2 == 0
  {
    var scaled := if 0.0 <= x <= 1.0 then Numeric.RoundHalfEven(x * 255.0) else Numeric.RoundHalfEven(x);
    Numeric.Clamp(0, 255, scaled)
  }

  /** Python's round sends a tie to the even neighbour: 254.5 gives 254, not
      255; 2.5 gives 2; half speed, 127.5, gives 128. */
  lemma TiesGoToEven()
    ensures ScaleSpeed(254.5) == 254
    ensures ScaleSpeed(2.5) == 2
    ensures ScaleSpeed(0.5) == 128
  {
    Numeric.RoundHalfEvenUnique(254.5, 254);
    Numeric.RoundHalfEvenUnique(2.5, 2);
    Numeric.RoundHalfEvenUnique(127.5, 128);
  }

  /** normalize_fan_speed: parse, then scale. */
  function NormalizeFanSpeed(v: Value): (r: Result<int, FanError>)
    ensures r.Ok? ==> 0 <= r.value <= 255
    ensures r.Ok? <==> ParseNumericSpeed(v).Ok?
    ensures r.Ok? ==> r.value == ScaleSpeed(ParseNumericSpeed(v).value)
  {
    match ParseNumericSpeed(v)
    case Ok(x) => Ok(ScaleSpeed(x))
    case Err(e) => Err(e)
  }

  /** "N%" means the fraction N/100, so it normalises exactly like that
      number (SameNumberSameSpeed). */
  lemma PercentMeansFraction(p: nat)
    ensures ParseNumericSpeed(Str(Text.NatToString(p) + "%")) == Ok(p as real / 100.0)
  {
    PercentSpeed(Text.NatToString(p), p);
  }

  lemma PercentSpeed(d: string, p: nat)
    requires d == Text.NatToString(p)
    ensures SpeedFromText(d + "%") == Ok(p as real / 100.0)
  {
    var s := d + "%";
    assert Text.Strip(s) == s && Text.EndsWith(s, "%") && Text.RStripChar(s, '%') == d by { PercentText(d); }
    assert Text.Strip(d) == d by { Text.DigitsHaveNoSpace(d); }
    assert Text.ParseDecimal(d) == Some(p as real) by { Text.ParseDecimalOfNat(p); }
    SpeedFromPercent(s, d, p as real);
  }

  /** A stripped text ending in '%' whose rest reads as v is the speed v/100. */
  lemma SpeedFromPercent(s: string, rest: string, v: real)
    requires Text.Strip(s) == s && s != "" && Text.EndsWith(s, "%")
    requires Text.Strip(Text.RStripChar(s, '%')) == rest && Text.ParseDecimal(rest) == Some(v)
    ensures SpeedFromText(s) == Ok(v / 100.0)
  {
    PercentTextBranch(s);
    PercentRatioOf(Text.ParseDecimal(rest), v);
  }

  lemma PercentRatioOf(o: Option<real>, v: real)
    requires o == Some(v)
    ensures PercentRatio(o) == Ok(v / 100.0)
  {
  }

  lemma PercentTextBranch(s: string)
    requires Text.Strip(s) == s && s != "" && Text.EndsWith(s, "%")
    ensures SpeedFromText(s) == PercentRatio(Text.ParseDecimal(Text.Strip(Text.RStripChar(s, '%'))))
  {
  }

  lemma SameNumberSameSpeed(v: Value, w: Value)
    requires ParseNumericSpeed(v) == ParseNumericSpeed(w)
    ensures NormalizeFanSpeed(v) == NormalizeFanSpeed(w)
  {
  }

  /** Digits followed by '%' are already stripped, end with '%', and lose
      exactly that '%' to rstrip. */
  lemma PercentText(d: string)
    requires d != "" && Text.AllDigits(d)
    ensures Text.Strip(d + "%") == d + "%"
    ensures Text.EndsWith(d + "%", "%")
    ensures Text.RStripChar(d + "%", '%') == d
  {
    var s := d + "%";
    assert s[0] == d[0] && Text.IsDigit(d[0]);
    Text.StripUnpadded(s);
    assert s[..|s| - 1] == d;
    assert Text.IsDigit(d[|d| - 1]);
  }

  /** Speeds a dashboard sends for the three fans' boundaries. */
  lemma SpeedBoundaries()
    ensures NormalizeFanSpeed(Num(-5.0)) == Ok(0)
    ensures NormalizeFanSpeed(Num(255.0)) == Ok(255)
    ensures NormalizeFanSpeed(Num(300.0)) == Ok(255)
    ensures NormalizeFanSpeed(Num(0.5)) == Ok(128)
    ensures NormalizeFanSpeed(Bool(true)) == Err(BadSpeed)
    ensures NormalizeFanSpeed(Str("  ")) == Err(BadSpeed)
  {
    assert Numeric.RoundHalfEven(127.5) == 128;
  }

  /** The fraction range and the raw range overlap in meaning at their edge:
      1 is full speed, 2 is almost off, and "150%" is 1.5, a raw value. */
  lemma RatioAndRawRangesMeet()
    ensures NormalizeFanSpeed(Num(1.0)) == Ok(255)
    ensures NormalizeFanSpeed(Num(2.0)) == Ok(2)
    ensures NormalizeFanSpeed(Str(Text.NatToString(150) + "%")) == Ok(2)
  {
    assert ScaleSpeed(1.0) == 255 by { assert Numeric.RoundHalfEven(255.0) == 255; }
    assert ScaleSpeed(2.0) == 2 by { assert Numeric.RoundHalfEven(2.0) == 2; }
    assert ScaleSpeed(1.5) == 2 by { assert Numeric.RoundHalfEven(1.5) == 2; }
    PercentMeansFraction(150);
  }

  datatype FanCommand = FanCommand(target: FanTarget, speed: int, gcode: string)

  /** The command line for one fan at one PWM value. */
  function M106(t: FanTarget, pwm: nat): string {
    "M106 P" + Text.NatToString(Channel(t)) + " S" + Text.NatToString(pwm) + "\n"
  }

  /** build_fan_command: the target is resolved first, so an unknown name is
      reported even when the speed is bad too. */
  function BuildFanCommand(fan: Option<string>, speed: Value): (r: Result<FanCommand, FanError>)
    ensures NormalizeFanTarget(fan).Err? ==> r == Err(NormalizeFanTarget(fan).error)
    ensures r.Ok? <==> NormalizeFanTarget(fan).Ok? && NormalizeFanSpeed(speed).Ok?
    ensures r.Ok? ==>
      && r.value.target == NormalizeFanTarget(fan).value
      && r.value.speed == NormalizeFanSpeed(speed).value
      && 0 <= r.value.speed <= 255
      && ParseM106(r.value.gcode) == Some((Channel(r.value.target), r.value.speed))
      && (forall g :: ParseM106(g) == Some((Channel(r.value.target), r.value.speed)) ==> g == r.value.gcode)
      && Text.EndsWith(r.value.gcode, "\n")
  {
    match NormalizeFanTarget(fan)
    case Err(e) => Err(e)
    case Ok(t) =>
      match NormalizeFanSpeed(speed)
      case Err(e) => Err(e)
      case Ok(pwm) =>
        M106RoundTrip(t, pwm);
        M106OnlyReadBack(t, pwm);
        Ok(FanCommand(t, pwm, M106(t, pwm)))
  }

  /** Reads an M106 line back into its channel and PWM value (the inverse of M106). */
  function ParseM106(g: string): Option<(nat, nat)> {
    if Text.StartsWith(g, "M106 P") && Text.EndsWith(g, "\n") && |g| >= 7 then
      var body := g[6..|g| - 1];
      var parts := Text.Split(body, ' ');
      if |parts| == 2 && Text.StartsWith(parts[1], "S") then
        match (Text.ParseCanonicalNat(parts[0]), Text.ParseCanonicalNat(parts[1][1..]))
        case (Some(ch), Some(s)) => Some((ch, s))
        case _ => None
      else None
    else None
  }

  lemma DigitsHaveNoSpaceChar(d: string)
    requires Text.AllDigits(d)
    ensures ' ' !in d
  {
    assert !Text.IsDigit(' ');
  }

  /** The channel and speed written into an M106 line are recovered from it. */
  lemma M106RoundTrip(t: FanTarget, pwm: nat)
    ensures ParseM106(M106(t, pwm)) == Some((Channel(t), pwm))
    ensures Text.EndsWith(M106(t, pwm), "\n")
  {
    var c := Text.NatToString(Channel(t));
    var s := Text.NatToString(pwm);
    var g := M106(t, pwm);
    assert g == "M106 P" + c + " S" + s + "\n";
    assert g[..6] == "M106 P";
    assert g[6..|g| - 1] == c + " S" + s;
    DigitsHaveNoSpaceChar(c);
    DigitsHaveNoSpaceChar(s);
    assert ' ' !in "S" + s by { assert "S" + s == ['S'] + s; }
    var body := c + " S" + s;
    assert body == c + [' '] + ("S" + s);
    SplitAtOnlySeparator(c, "S" + s, ' ');
    assert Text.Split(body, ' ') == [c, "S" + s];
    assert ("S" + s)[1..] == s;
    Text.CanonicalRoundTrip(c, Channel(t));
    Text.CanonicalRoundTrip(s, pwm);
  }

  /** M106(t, pwm) is the only text that reads back as its channel and PWM
      value: no other spelling (a leading zero, another separator) does. */
  lemma M106ReadBackUnique(t: FanTarget, pwm: nat, g: string)
    requires ParseM106(g) == Some((Channel(t), pwm))
    ensures g == M106(t, pwm)
  {
    M106Shape(g, Channel(t), pwm);
  }

  /** The text of a line ParseM106 reads as (c, p). */
  lemma M106Shape(g: string, c: nat, p: nat)
    requires ParseM106(g) == Some((c, p))
    ensures g == "M106 P" + Text.NatToString(c) + " S" + Text.NatToString(p) + "\n"
  {
    var body := g[6..|g| - 1];
    M106Fields(g, c, p);
    M106Body(body, c, p);
    FrameAround(g, 6, 1);
  }

  /** What ParseM106 checked of a line it reads as (c, p). */
  lemma M106Fields(g: string, c: nat, p: nat)
    requires ParseM106(g) == Some((c, p))
    ensures |g| >= 7 && g[..6] == "M106 P" && g[|g| - 1..] == "\n"
    ensures |Text.Split(g[6..|g| - 1], ' ')| == 2
    ensures Text.StartsWith(Text.Split(g[6..|g| - 1], ' ')[1], "S")
    ensures Text.ParseCanonicalNat(Text.Split(g[6..|g| - 1], ' ')[0]) == Some(c)
    ensures Text.ParseCanonicalNat(Text.Split(g[6..|g| - 1], ' ')[1][1..]) == Some(p)
  {
  }

  /** The middle of such a line: channel, space, S and speed. */
  lemma M106Body(body: string, c: nat, p: nat)
    requires |Text.Split(body, ' ')| == 2 && Text.StartsWith(Text.Split(body, ' ')[1], "S")
    requires Text.ParseCanonicalNat(Text.Split(body, ' ')[0]) == Some(c)
    requires Text.ParseCanonicalNat(Text.Split(body, ' ')[1][1..]) == Some(p)
    ensures body == Text.NatToString(c) + " S" + Text.NatToString(p)
  {
    var parts := Text.Split(body, ' ');
    var a, rest := parts[0], parts[1];
    Text.CanonicalRoundTrip(a, c);
    Text.CanonicalRoundTrip(rest[1..], p);
    TwoPartsJoin(body, parts);
    assert rest == "S" + rest[1..];
  }

  /** A string split into two pieces on ' ' is the pieces joined by ' '. */
  lemma TwoPartsJoin(body: string, parts: seq<string>)
    requires parts == Text.Split(body, ' ') && |parts| == 2
    ensures body == parts[0] + " " + parts[1]
  {
    Text.JoinSplit(body, ' ');
    assert parts[1..] == [parts[1]];
  }

  /** A string is its first k characters, its middle and its last j. */
  lemma FrameAround(g: string, k: nat, j: nat)
    requires k + j <= |g|
    ensures g == g[..k] + g[k..|g| - j] + g[|g| - j..]
  {
  }

  lemma M106OnlyReadBack(t: FanTarget, pwm: nat)
    ensures forall g :: ParseM106(g) == Some((Channel(t), pwm)) ==> g == M106(t, pwm)
  {
    forall g | ParseM106(g) == Some((Channel(t), pwm)) {
      M106ReadBackUnique(t, pwm, g);
    }
  }

  /** Two separator-free pieces joined by one separator split back into them. */
  lemma {:induction false} SplitAtOnlySeparator(a: string, b: string, c: char)
    requires c !in a && c !in b
    ensures Text.Split(a + [c] + b, c) == [a, b]
    decreases |a|
  {
    if |a| == 0 {
      assert [] + [c] + b == [c] + b;
      assert ([c] + b)[1..] == b;
      Text.SplitWithoutSeparator(b, c);
    } else {
      assert (a + [c] + b)[1..] == a[1..] + [c] + b;
      assert c !in a[1..];
      SplitAtOnlySeparator(a[1..], b, c);
      assert [a[0]] + a[1..] == a;
    }
  }

  lemma SpeedOf128()
    ensures NormalizeFanSpeed(Num(128.0)) == Ok(128)
  {
    assert ScaleSpeed(128.0) == 128 by { assert Numeric.RoundHalfEven(128.0) == 128; }
  }

  lemma AuxLine128()
    ensures M106(Aux, 128) == "M106 P2 S128\n"
  {
    assert Text.NatToString(1) == "1";
    assert Text.NatToString(12) == "12";
    assert Text.NatToString(128) == "128";
    assert Text.NatToString(2) == "2";
  }

  /** The auxiliary fan at PWM 128 is channel 2, speed 128. */
  lemma AuxAtHalf()
    ensures BuildFanCommand(Some("aux"), Num(128.0)) == Ok(FanCommand(Aux, 128, "M106 P2 S128\n"))
  {
    assert NormalizeFanTarget(Some("aux")) == Ok(Aux) by { AuxSelected(); }
    assert NormalizeFanSpeed(Num(128.0)) == Ok(128) by { SpeedOf128(); }
    assert M106(Aux, 128) == "M106 P2 S128\n" by { AuxLine128(); }
  }

  lemma SpeedOfZero()
    ensures NormalizeFanSpeed(Num(0.0)) == Ok(0)
  {
    assert ScaleSpeed(0.0) == 0 by { assert Numeric.RoundHalfEven(0.0) == 0; }
  }

  lemma ChamberLine0()
    ensures M106(Chamber, 0) == "M106 P3 S0\n"
  {
    assert Text.NatToString(3) == "3";
    assert Text.NatToString(0) == "0";
  }

  /** Turning the chamber fan off is channel 3, speed 0. */
  lemma ChamberOff()
    ensures BuildFanCommand(Some("chamber"), Num(0.0)) == Ok(FanCommand(Chamber, 0, "M106 P3 S0\n"))
  {
    assert NormalizeFanTarget(Some("chamber")) == Ok(Chamber) by { ChamberSelected(); }
    assert NormalizeFanSpeed(Num(0.0)) == Ok(0) by { SpeedOfZero(); }
    assert M106(Chamber, 0) == "M106 P3 S0\n" by { ChamberLine0(); }
  }

  lemma FiftyPercentIsStripped()
    ensures Text.Strip("50%") == "50%" && Text.RStripChar("50%", '%') == "50"
  {
    Text.StripUnpadded("50%");
  }

  lemma FiftyParses()
    ensures Text.Strip("50") == "50" && Text.ParseDecimal("50") == Some(50.0)
  {
    Text.StripUnpadded("50");
    assert Text.NatToString(50) == "50" by { assert Text.NatToString(5) == "5"; }
    Text.ParseDecimalOfNat(50);
  }

  /** "50%" is half speed: PWM 128 (127.5 rounds to the even neighbour). */
  lemma SpeedOfFiftyPercent()
    ensures NormalizeFanSpeed(Str("50%")) == Ok(128)
  {
    assert ParseNumericSpeed(Str("50%")) == Ok(0.5) by { FiftyPercentParses(); }
    assert ScaleSpeed(0.5) == 128 by { HalfIs128(); }
  }

  lemma FiftyPercentParses()
    ensures SpeedFromText("50%") == Ok(0.5)
  {
    FiftyPercentIsStripped();
    FiftyParses();
  }

  lemma HalfIs128()
    ensures ScaleSpeed(0.5) == 128
  {
    assert Numeric.RoundHalfEven(127.5) == 128;
  }

  /** "50%" for the auxiliary fan is the same command as PWM 128. */
  lemma AuxAtFiftyPercent()
    ensures BuildFanCommand(Some("aux"), Str("50%")) == Ok(FanCommand(Aux, 128, "M106 P2 S128\n"))
  {
    assert NormalizeFanTarget(Some("aux")) == Ok(Aux) by { AuxSelected(); }
    assert NormalizeFanSpeed(Str("50%")) == Ok(128) by { SpeedOfFiftyPercent(); }
    assert M106(Aux, 128) == "M106 P2 S128\n" by { AuxLine128(); }
  }

  /** A name that is no alias is rejected whatever the speed. */
  lemma UnknownFanRejected(speed: Value)
    ensures BuildFanCommand(Some("unknown"), speed) == Err(UnknownTarget("unknown"))
  {
    UnknownNameRejected();
  }

  lemma UnknownNameRejected()
    ensures NormalizeFanTarget(Some("unknown")) == Err(UnknownTarget("unknown"))
  {
    assert Text.Lower(Text.Strip("unknown")) == "unknown" by { OwnKey("unknown"); }
    assert "unknown" !in FanAliases by { NoAliasStartsWithU("unknown"); }
  }

  lemma NoAliasStartsWithU(s: string)
    requires |s| > 0 && s[0] == 'u'
    ensures s !in FanAliases
  {
    assert forall k | k in FanAliases :: k[0] != 'u';
  }
}
