/**
 * The text of the lighting controller's line protocol: the five patterns src/platform.ts matches
 * inbound lines against, the lines the controller sends that they are meant to recognise, and the
 * commands the platform sends. Every command is sent with a trailing newline, added when it is
 * queued (see Outbound).
 */
module Protocol {
  import opened Wrappers
  import opened Patterns
  import opened Sequences

  const Controller := "Lighting_controller"
  const ControllerPrefix := Controller + "::"

  const DimmerHead := ControllerPrefix + "DimmerSet(Address1 = "
  const LevelLit := ", DimmerLevel = "
  const FadeLit := ", FadeTime = "
  const SwitchHead := ControllerPrefix + "Switch"
  const AddressLit := "(Address1 = "
  const CloseLit := ")"
  const PingLine := ControllerPrefix + "Ping()"
  const PongLine := ControllerPrefix + "Pong()"
  const MeasurementHead := "Measurement(Device+Channel = "
  const UnitsLit := ", Units = "
  const ValueLit := ", Value = "

  /** `/Lighting_controller::DimmerSet\(Address1 = (.*), DimmerLevel = (.*), FadeTime = (.*)\)/` */
  const DimmerSetPattern := [DimmerHead, LevelLit, FadeLit, CloseLit]
  /** `/Lighting_controller::Switch(.*)\(Address1 = (.*)\)/` */
  const SwitchPattern := [SwitchHead, AddressLit, CloseLit]
  /** `/Lighting_controller::Ping\(\)/` */
  const PingPattern := [PingLine]
  /** `/Lighting_controller::Pong\(\)/` */
  const PongPattern := [PongLine]
  /** `/Measurement\(Device\+Channel = (.*), Units = (.*), Value = (.*)\)/` */
  const MeasurementPattern := [MeasurementHead, UnitsLit, ValueLit, CloseLit]

  /** The word a switch line carries for each state. */
  function OnOff(on: bool): string
  {
    if on then "On" else "Off"
  }

  /** A field of a line: one line, and none of the characters the line format uses as punctuation. */
  predicate Plain(s: string)
  {
    AnyChars(s) && '(' !in s && ')' !in s && ',' !in s && ':' !in s
  }

  /** The controller reports a dimmer's level. */
  function DimmerSetLine(address: string, level: string, fade: string): string
  {
    DimmerHead + address + LevelLit + level + FadeLit + fade + CloseLit
  }

  /**
   * A switch changed state. The controller reports it with this line and the platform commands it
   * with the same text.
   */
  function SwitchLine(on: bool, address: string): string
  {
    SwitchWordLine(OnOff(on), address)
  }

  /** A switch line with any word where On or Off belongs. */
  function SwitchWordLine(word: string, address: string): string
  {
    SwitchHead + word + AddressLit + address + CloseLit
  }

  /** The controller reports a temperature reading. */
  function MeasurementLine(key: string, units: string, value: string): string
  {
    MeasurementHead + key + UnitsLit + units + ValueLit + value + CloseLit
  }

  /** The first command of every connection: the controller's own lighting address. */
  function Configure(lightingAddress: string): string
  {
    ControllerPrefix + "Configure(Lighting_Address = " + lightingAddress + CloseLit
  }

  function ConfigureDimmer(address: string): string
  {
    ControllerPrefix + "ConfigureDimmer" + AddressLit + address + CloseLit
  }

  function ConfigureSwitch(address: string): string
  {
    ControllerPrefix + "ConfigureSwitch" + AddressLit + address + CloseLit
  }

  // Reading the lines back.

  /** The last group of a pattern that ends in `)`. */
  lemma CloseGroup(v: string)
    requires AnyChars(v)
    ensures Fits(v + CloseLit, [CloseLit]) && Groups(v + CloseLit, [CloseLit]) == [v]
  {
    LastGroup(v, CloseLit);
  }

  /** The two groups of `(.*), <word> = (.*)\)` when the fields are plain. */
  lemma CommaGroups(u: string, lit: string, v: string)
    requires Plain(u) && Plain(v) && |lit| > 1 && lit[0] == ',' && ',' !in lit[1..]
    ensures Fits(u + lit + (v + CloseLit), [lit, CloseLit])
    ensures Groups(u + lit + (v + CloseLit), [lit, CloseLit]) == [u, v]
  {
    CloseGroup(v);
    var t := u + lit + (v + CloseLit);
    assert t[|u| + 1..] == lit[1..] + v + CloseLit;
    NoCandidate(t, lit, |u| + 1);
    MidGroup(u, lit, v + CloseLit, [CloseLit]);
    assert [lit] + [CloseLit] == [lit, CloseLit];
  }

  /**
   * The three groups of `(.*), <word1> = (.*), <word2> = (.*)\)` when the fields are plain and
   * the two words differ in their first letter.
   */
  lemma ThreeGroups(k: string, lit1: string, u: string, lit2: string, v: string)
    requires Plain(k) && Plain(u) && Plain(v)
    requires |lit1| > 1 && lit1[0] == ',' && ',' !in lit1[1..]
    requires |lit2| > 2 && lit2[0] == ',' && ',' !in lit2[1..] && |lit1| > 2 && lit1[2] != lit2[2]
    ensures Fits(k + lit1 + (u + lit2 + (v + CloseLit)), [lit1, lit2, CloseLit])
    ensures Groups(k + lit1 + (u + lit2 + (v + CloseLit)), [lit1, lit2, CloseLit]) == [k, u, v]
  {
    CommaGroups(u, lit2, v);
    FirstWordOnce(k, lit1, u, lit2, v);
    MidGroup(k, lit1, u + lit2 + (v + CloseLit), [lit2, CloseLit]);
    assert [lit1] + [lit2, CloseLit] == [lit1, lit2, CloseLit];
  }

  /** In such a line the first word occurs only once. */
  lemma FirstWordOnce(k: string, lit1: string, u: string, lit2: string, v: string)
    requires Plain(u) && Plain(v)
    requires |lit1| > 1 && lit1[0] == ',' && ',' !in lit1[1..]
    requires |lit2| > 2 && lit2[0] == ',' && ',' !in lit2[1..] && |lit1| > 2 && lit1[2] != lit2[2]
    ensures var t := k + lit1 + (u + lit2 + (v + CloseLit));
            forall j :: |k| < j <= |t| ==> !(lit1 <= t[j..])
  {
    var t := k + lit1 + (u + lit2 + (v + CloseLit));
    var p := |k| + |lit1| + |u|;
    assert t[|k| + 1..p] == lit1[1..] + u;
    assert t[p + 1..] == lit2[1..] + v + CloseLit;
    assert t[p + 2] == lit2[2];
    OnlyCandidate(t, lit1, |k| + 1, p);
  }

  /** A DimmerSet line yields its address, level and fade time. */
  lemma DimmerSetRoundTrip(address: string, level: string, fade: string)
    requires Plain(address) && Plain(level) && Plain(fade)
    ensures Exec(DimmerSetLine(address, level, fade), DimmerSetPattern) == Some([address, level, fade])
  {
    CommaLits();
    ThreeGroups(address, LevelLit, level, FadeLit, fade);
    var rest := address + LevelLit + (level + FadeLit + (fade + CloseLit));
    Nest7(DimmerHead, address, LevelLit, level, FadeLit, fade, CloseLit);
    assert DimmerSetPattern[1..] == [LevelLit, FadeLit, CloseLit];
    ExecAtStart(DimmerSetLine(address, level, fade), DimmerSetPattern, rest);
  }

  /** A Measurement line yields its Device+Channel key, its units and its value. */
  lemma MeasurementRoundTrip(key: string, units: string, value: string)
    requires Plain(key) && Plain(units) && Plain(value)
    ensures Exec(MeasurementLine(key, units, value), MeasurementPattern) == Some([key, units, value])
  {
    CommaLits();
    ThreeGroups(key, UnitsLit, units, ValueLit, value);
    var rest := key + UnitsLit + (units + ValueLit + (value + CloseLit));
    Nest7(MeasurementHead, key, UnitsLit, units, ValueLit, value, CloseLit);
    assert MeasurementPattern[1..] == [UnitsLit, ValueLit, CloseLit];
    ExecAtStart(MeasurementLine(key, units, value), MeasurementPattern, rest);
  }

  /** The separators between the fields of DimmerSet and Measurement lines: a comma, then no other. */
  lemma CommaLits()
    ensures |LevelLit| > 2 && LevelLit[0] == ',' && ',' !in LevelLit[1..]
    ensures |FadeLit| > 2 && FadeLit[0] == ',' && ',' !in FadeLit[1..] && LevelLit[2] != FadeLit[2]
    ensures |UnitsLit| > 2 && UnitsLit[0] == ',' && ',' !in UnitsLit[1..]
    ensures |ValueLit| > 2 && ValueLit[0] == ',' && ',' !in ValueLit[1..] && UnitsLit[2] != ValueLit[2]
  {
    assert LevelLit[1..] == " DimmerLevel = ";
    assert FadeLit[1..] == " FadeTime = ";
    assert UnitsLit[1..] == " Units = ";
    assert ValueLit[1..] == " Value = ";
  }

  /** The two groups of `(.*)\(<word> = (.*)\)` when the fields are plain. */
  lemma ParenGroups(w: string, lit: string, v: string)
    requires Plain(w) && Plain(v) && |lit| > 1 && lit[0] == '(' && '(' !in lit[1..]
    ensures Fits(w + lit + (v + CloseLit), [lit, CloseLit])
    ensures Groups(w + lit + (v + CloseLit), [lit, CloseLit]) == [w, v]
  {
    CloseGroup(v);
    var t := w + lit + (v + CloseLit);
    assert t[|w| + 1..] == lit[1..] + v + CloseLit;
    NoCandidate(t, lit, |w| + 1);
    MidGroup(w, lit, v + CloseLit, [CloseLit]);
    assert [lit] + [CloseLit] == [lit, CloseLit];
  }

  /** A switch line yields its word (On or Off, or whatever stands there) and the address. */
  lemma SwitchRoundTrip(word: string, address: string)
    requires Plain(word) && Plain(address)
    ensures Exec(SwitchWordLine(word, address), SwitchPattern) == Some([word, address])
  {
    assert AddressLit[1..] == "Address1 = ";
    assert '(' !in "Address1 = ";
    ParenGroups(word, AddressLit, address);
    var rest := word + AddressLit + (address + CloseLit);
    assert SwitchWordLine(word, address) == SwitchHead + rest;
    assert SwitchPattern[1..] == [AddressLit, CloseLit];
    ExecAtStart(SwitchWordLine(word, address), SwitchPattern, rest);
  }

  /** A ping line is recognised, with no groups; so is a pong line. */
  lemma PingPongRoundTrip()
    ensures Exec(PingLine, PingPattern) == Some([])
    ensures Exec(PongLine, PongPattern) == Some([])
  {
    assert PingLine == PingPattern[0] + [];
    ExecAtStart(PingLine, PingPattern, []);
    assert PongLine == PongPattern[0] + [];
    ExecAtStart(PongLine, PongPattern, []);
  }

  // Lines that a pattern does not recognise.

  /** In a controller line whose command has no `:`, the `::` after the controller's name is the only `:`. */
  lemma ColonsOfControllerLine(r: string)
    requires ':' !in r
    ensures forall j :: 0 <= j < |ControllerPrefix + r| && (ControllerPrefix + r)[j] == ':' ==> j in {19, 20}
  {
    var line := ControllerPrefix + r;
    forall j | 0 <= j < |line| ensures line[j] == ':' ==> j in {19, 20} {
      if j < 19 {
        assert line[j] == Controller[j];
      } else if j > 20 {
        assert line[j] == r[j - 21];
      }
    }
  }

  /**
   * A controller line is not recognised by a controller pattern whose command differs from the
   * line's command at some position `i`.
   */
  lemma ControllerMismatch(r: string, pat: seq<string>, h: string, i: nat)
    requires |pat| > 0 && pat[0] == ControllerPrefix + h
    requires ':' !in r && i < |r| && i < |h| && r[i] != h[i]
    ensures Exec(ControllerPrefix + r, pat) == None
  {
    var line := ControllerPrefix + r;
    ColonsOfControllerLine(r);
    assert pat[0][19] == ':';
    assert !(pat[0] <= line[0..]) by {
      assert pat[0][21 + i] == h[i] && line[21 + i] == r[i];
    }
    assert !(pat[0] <= line[1..]) by {
      assert pat[0][0] == 'L' && line[1] == 'i';
    }
    HeadAbsentByChar(line, pat, 19, {19, 20});
  }

  /** A line without any `:` is not recognised by a controller pattern. */
  lemma NoColonNoControllerMatch(line: string, pat: seq<string>, h: string)
    requires |pat| > 0 && pat[0] == ControllerPrefix + h && ':' !in line
    ensures Exec(line, pat) == None
  {
    assert pat[0][19] == ':';
    HeadAbsentByChar(line, pat, 19, {});
  }

  /**
   * A controller line whose only `(` is not followed by `D` is not a Measurement line: the
   * Measurement head has `D` right after its `(`.
   */
  lemma ControllerNotMeasurement(c: string, x: string)
    requires '(' !in c && '(' !in x && !("D" <= x)
    ensures Exec(ControllerPrefix + c + "(" + x, MeasurementPattern) == None
  {
    var line := ControllerPrefix + c + "(" + x;
    var p := 21 + |c|;
    forall j | 0 <= j < |line| ensures line[j] == '(' ==> j in {p} {
      if j < 21 {
        assert line[j] == ControllerPrefix[j];
      } else if j < p {
        assert line[j] == c[j - 21];
      } else if j > p {
        assert line[j] == x[j - p - 1];
      }
    }
    assert MeasurementHead[11] == '(' && MeasurementHead[12] == 'D';
    assert !(MeasurementHead <= line[p - 11..]);
    HeadAbsentByChar(line, MeasurementPattern, 11, {p});
  }

  /** The command text of a DimmerSet line, after the controller's name. */
  function DimmerSetCommand(address: string, level: string, fade: string): string
  {
    "DimmerSet(Address1 = " + address + LevelLit + level + FadeLit + fade + CloseLit
  }

  lemma DimmerSetLineShape(address: string, level: string, fade: string)
    ensures DimmerSetLine(address, level, fade) == ControllerPrefix + DimmerSetCommand(address, level, fade)
  {
  }

  lemma DimmerSetCommandNoColon(address: string, level: string, fade: string)
    requires ':' !in address && ':' !in level && ':' !in fade
    ensures ':' !in DimmerSetCommand(address, level, fade)
  {
  }

  /** A DimmerSet line is recognised by no other pattern. */
  lemma DimmerSetOnly(address: string, level: string, fade: string)
    requires Plain(address) && Plain(level) && Plain(fade)
    ensures var line := DimmerSetLine(address, level, fade);
            && Exec(line, SwitchPattern) == None && Exec(line, PingPattern) == None
            && Exec(line, PongPattern) == None && Exec(line, MeasurementPattern) == None
  {
    var r := DimmerSetCommand(address, level, fade);
    DimmerSetLineShape(address, level, fade);
    DimmerSetCommandNoColon(address, level, fade);
    assert r[0] == 'D';
    ControllerMismatch(r, SwitchPattern, "Switch", 0);
    ControllerMismatch(r, PingPattern, "Ping()", 0);
    ControllerMismatch(r, PongPattern, "Pong()", 0);
    DimmerSetNotMeasurement(address, level, fade);
  }

  /** A DimmerSet line is its head and then the fields with their separators. */
  lemma DimmerSetTail(address: string, level: string, fade: string)
    ensures DimmerSetLine(address, level, fade)
         == DimmerHead + (address + LevelLit + level + FadeLit + fade + CloseLit)
  {
    Regroup7(DimmerHead, address, LevelLit, level, FadeLit, fade, CloseLit);
  }

  lemma DimmerSetNotMeasurement(address: string, level: string, fade: string)
    requires Plain(address) && Plain(level) && Plain(fade)
    ensures Exec(DimmerSetLine(address, level, fade), MeasurementPattern) == None
  {
    var tail := address + LevelLit + level + FadeLit + fade + CloseLit;
    var x := "Address1 = " + tail;
    DimmerSetTail(address, level, fade);
    var u := ControllerPrefix + "DimmerSet" + "(";
    Assoc(ControllerPrefix, "DimmerSet(", "Address1 = ");
    assert "DimmerSet(" == "DimmerSet" + "(";
    Assoc(ControllerPrefix, "DimmerSet", "(");
    assert DimmerHead == u + "Address1 = ";
    Assoc(u, "Address1 = ", tail);
    assert '(' !in x && x[0] == 'A';
    ControllerNotMeasurement("DimmerSet", x);
  }

  function SwitchCommand(word: string, address: string): string
  {
    "Switch" + word + AddressLit + address + CloseLit
  }

  lemma SwitchLineShape(word: string, address: string)
    ensures SwitchWordLine(word, address) == ControllerPrefix + SwitchCommand(word, address)
  {
  }

  lemma SwitchCommandNoColon(word: string, address: string)
    requires ':' !in word && ':' !in address
    ensures ':' !in SwitchCommand(word, address)
  {
  }

  /** A switch line is recognised by no other pattern. */
  lemma SwitchOnly(word: string, address: string)
    requires Plain(word) && Plain(address)
    ensures var line := SwitchWordLine(word, address);
            && Exec(line, DimmerSetPattern) == None && Exec(line, PingPattern) == None
            && Exec(line, PongPattern) == None && Exec(line, MeasurementPattern) == None
  {
    var r := SwitchCommand(word, address);
    SwitchLineShape(word, address);
    SwitchCommandNoColon(word, address);
    assert r[0] == 'S';
    assert DimmerSetPattern[0] == ControllerPrefix + "DimmerSet(Address1 = ";
    ControllerMismatch(r, DimmerSetPattern, "DimmerSet(Address1 = ", 0);
    ControllerMismatch(r, PingPattern, "Ping()", 0);
    ControllerMismatch(r, PongPattern, "Pong()", 0);
    SwitchNotMeasurement(word, address);
  }

  lemma SwitchNotMeasurement(word: string, address: string)
    requires Plain(word) && Plain(address)
    ensures Exec(SwitchWordLine(word, address), MeasurementPattern) == None
  {
    var x := "Address1 = " + address + CloseLit;
    assert SwitchWordLine(word, address) == ControllerPrefix + ("Switch" + word) + "(" + x;
    assert '(' !in x && x[0] == 'A';
    ControllerNotMeasurement("Switch" + word, x);
  }

  /** A ping line is recognised by no other pattern, and neither is a pong line. */
  lemma PingPongOnly()
    ensures && Exec(PingLine, DimmerSetPattern) == None && Exec(PingLine, SwitchPattern) == None
            && Exec(PingLine, PongPattern) == None && Exec(PingLine, MeasurementPattern) == None
    ensures && Exec(PongLine, DimmerSetPattern) == None && Exec(PongLine, SwitchPattern) == None
            && Exec(PongLine, PingPattern) == None && Exec(PongLine, MeasurementPattern) == None
  {
    PingOnly("Ping()", PongPattern, "Pong()");
    PingOnly("Pong()", PingPattern, "Ping()");
  }

  lemma PingOnly(r: string, other: seq<string>, h: string)
    requires r == "Ping()" || r == "Pong()"
    requires other == [ControllerPrefix + h] && (h == "Ping()" || h == "Pong()") && h != r
    ensures var line := ControllerPrefix + r;
            && Exec(line, DimmerSetPattern) == None && Exec(line, SwitchPattern) == None
            && Exec(line, other) == None && Exec(line, MeasurementPattern) == None
  {
    assert ':' !in r && r[0] == 'P' && r[1] != h[1];
    assert DimmerSetPattern[0] == ControllerPrefix + "DimmerSet(Address1 = ";
    ControllerMismatch(r, DimmerSetPattern, "DimmerSet(Address1 = ", 0);
    ControllerMismatch(r, SwitchPattern, "Switch", 0);
    ControllerMismatch(r, other, h, 1);
    assert ControllerPrefix + r == ControllerPrefix + r[..4] + "(" + ")";
    ControllerNotMeasurement(r[..4], ")");
  }

  /** A Measurement line is recognised by no other pattern. */
  lemma MeasurementOnly(key: string, units: string, value: string)
    requires Plain(key) && Plain(units) && Plain(value)
    ensures var line := MeasurementLine(key, units, value);
            && Exec(line, DimmerSetPattern) == None && Exec(line, SwitchPattern) == None
            && Exec(line, PingPattern) == None && Exec(line, PongPattern) == None
  {
    var line := MeasurementLine(key, units, value);
    assert ':' !in line;
    assert DimmerSetPattern[0] == ControllerPrefix + "DimmerSet(Address1 = ";
    NoColonNoControllerMatch(line, DimmerSetPattern, "DimmerSet(Address1 = ");
    NoColonNoControllerMatch(line, SwitchPattern, "Switch");
    NoColonNoControllerMatch(line, PingPattern, "Ping()");
    NoColonNoControllerMatch(line, PongPattern, "Pong()");
  }
}
