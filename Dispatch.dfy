/**
 * What src/platform.ts does with one inbound line (the body of the `on_data` loop): each of the
 * five patterns is tried on the line independently, and each one that matches reaches the device
 * handlers that the line's address names. The calls are recorded as actions; the calls that
 * reach a thermostat or the outbound queue are then given their effect.
 */
module Dispatch {
  import opened Wrappers
  import opened JsText
  import opened Patterns
  import opened Protocol
  import opened Thermostat

  /** A call the platform makes on behalf of a line. */
  datatype Action =
    | UpdateLevel(address: string, level: Option<int>)     // dimmers[A].updateLevel(parseInt(L, 10)); None is NaN
    | SwitchUpdateOn(address: string, on: bool)           // switches[A].updateOn(on)
    | ToggleUpdateOn(address: string, on: bool)           // toggles[A].updateOn(on)
    | ThermostatUpdateOn(address: string, on: bool)       // simple_thermostats[A].updateOn(on)
    | AnswerPing                                           // enqueue('Lighting_controller::Pong()')
    | PongReceived                                         // clearTimeout(pong_timer)
    | ThermostatReading(address: string, temperature: real) // simple_thermostats[a].update_thermostat(parseFloat(V))

  /**
   * The platform's tables as dispatch sees them: the keys of `dimmers`, `switches`, `toggles`
   * and `simple_thermostats`, and `thermostat_map` from measurement keys to thermostat addresses.
   */
  datatype Registry = Registry(
    dimmers: seq<string>, switches: seq<string>, toggles: seq<string>,
    thermostats: set<string>, thermostatMap: map<string, string>)

  /** A call reaches a handler only when the table it looks in holds the call's address. */
  predicate Registered(act: Action, reg: Registry)
  {
    match act
    case UpdateLevel(a, _) => a in reg.dimmers
    case SwitchUpdateOn(a, _) => a in reg.switches
    case ToggleUpdateOn(a, _) => a in reg.toggles
    case ThermostatUpdateOn(a, _) => a in reg.thermostats
    case ThermostatReading(a, _) => a in reg.thermostats
    case _ => true
  }

  function DimmerActions(line: string, reg: Registry): (r: seq<Action>)
    ensures forall act :: act in r ==> Registered(act, reg)
  {
    match Exec(line, DimmerSetPattern)
    case Some(g) => if g[0] in reg.dimmers then [UpdateLevel(g[0], ParseInt(g[1]))] else []
    case None => []
  }

  /** `updateOn(on)` on every table that holds `address`: switches, then toggles, then thermostats. */
  function SwitchTargets(address: string, on: bool, reg: Registry): (r: seq<Action>)
    ensures forall act :: act in r ==> Registered(act, reg)
  {
    (if address in reg.switches then [SwitchUpdateOn(address, on)] else [])
    + (if address in reg.toggles then [ToggleUpdateOn(address, on)] else [])
    + (if address in reg.thermostats then [ThermostatUpdateOn(address, on)] else [])
  }

  function SwitchActions(line: string, reg: Registry): (r: seq<Action>)
    ensures forall act :: act in r ==> Registered(act, reg)
  {
    match Exec(line, SwitchPattern)
    case Some(g) =>
      if g[0] == "On" then SwitchTargets(g[1], true, reg)
      else if g[0] == "Off" then SwitchTargets(g[1], false, reg)
      else []
    case None => []
  }

  function PingActions(line: string): seq<Action>
  {
    if Exec(line, PingPattern).Some? then [AnswerPing] else []
  }

  function PongActions(line: string): seq<Action>
  {
    if Exec(line, PongPattern).Some? then [PongReceived] else []
  }

  function MeasurementActions(line: string, reg: Registry, parseFloat: string -> real): (r: seq<Action>)
    ensures forall act :: act in r ==> Registered(act, reg)
  {
    match Exec(line, MeasurementPattern)
    case Some(g) =>
      if g[0] in reg.thermostatMap && reg.thermostatMap[g[0]] in reg.thermostats
      then [ThermostatReading(reg.thermostatMap[g[0]], parseFloat(g[2]))]
      else []
    case None => []
  }

  /** Every call one line causes, in the order the platform makes them. */
  function LineActions(line: string, reg: Registry, parseFloat: string -> real): (r: seq<Action>)
    ensures forall act :: act in r ==> Registered(act, reg)
  {
    DimmerActions(line, reg) + SwitchActions(line, reg) + PingActions(line) + PongActions(line)
    + MeasurementActions(line, reg, parseFloat)
  }

  /** The calls caused by several lines, in order. */
  function LinesActions(lines: seq<string>, reg: Registry, parseFloat: string -> real): seq<Action>
    decreases |lines|
  {
    if lines == [] then []
    else LinesActions(lines[..|lines| - 1], reg, parseFloat) + LineActions(lines[|lines| - 1], reg, parseFloat)
  }

  /** The thermostats' states, by address, and every line ever put on the outbound queue. */
  datatype World = World(states: map<string, ThermostatState>, sent: seq<string>)

  /** The effect of one call on the thermostats and the outbound queue. */
  function Perform(w: World, act: Action, now: int): (r: World)
    ensures r.states.Keys == w.states.Keys
    ensures w.sent <= r.sent
  {
    match act
    case ThermostatUpdateOn(a, on) =>
      if a in w.states
      then World(w.states[a := Step(w.states[a], Power(on), now)], w.sent + Commands(StepEmits(w.states[a], Power(on), now), a))
      else w
    case ThermostatReading(a, t) =>
      if a in w.states
      then World(w.states[a := Step(w.states[a], Reading(t), now)], w.sent + Commands(StepEmits(w.states[a], Reading(t), now), a))
      else w
    case AnswerPing => World(w.states, w.sent + [PongLine + "\n"])
    case _ => w
  }

  /** The effect of several calls, one after the other. */
  function Run(w: World, acts: seq<Action>, now: int): (r: World)
    ensures r.states.Keys == w.states.Keys
    ensures w.sent <= r.sent
    decreases |acts|
  {
    if acts == [] then w else Perform(Run(w, acts[..|acts| - 1], now), acts[|acts| - 1], now)
  }

  /** One more call at the end. */
  lemma RunSnoc(w: World, acts: seq<Action>, act: Action, now: int)
    ensures Run(w, acts + [act], now) == Perform(Run(w, acts, now), act, now)
  {
    assert (acts + [act])[..|acts|] == acts;
  }

  /** Running two runs of calls is running one and then the other. */
  lemma {:induction false} RunAppend(w: World, a: seq<Action>, b: seq<Action>, now: int)
    ensures Run(w, a + b, now) == Run(Run(w, a, now), b, now)
    decreases |b|
  {
    if b == [] {
      assert a + b == a;
    } else {
      assert (a + b)[..|a + b| - 1] == a + b[..|b| - 1];
      RunAppend(w, a, b[..|b| - 1], now);
    }
  }

  /**
   * Of the calls a switch line makes, only the one on the thermostat has an effect on the
   * thermostats or on what is sent.
   */
  lemma RunSwitchTargets(w: World, address: string, on: bool, reg: Registry, now: int)
    ensures Run(w, SwitchTargets(address, on, reg), now)
         == if address in reg.thermostats then Perform(w, ThermostatUpdateOn(address, on), now) else w
  {
    var p1 := if address in reg.switches then [SwitchUpdateOn(address, on)] else [];
    var p2 := if address in reg.toggles then [ToggleUpdateOn(address, on)] else [];
    var p3 := if address in reg.thermostats then [ThermostatUpdateOn(address, on)] else [];
    RunAppend(w, p1 + p2, p3, now);
    RunAppend(w, p1, p2, now);
    assert Run(w, p1, now) == w;
    assert Run(w, p2, now) == w;
  }

  /** The effect of one line's calls is the effect of each pattern's calls, in the order the patterns are tried. */
  lemma RunLine(w: World, line: string, reg: Registry, parseFloat: string -> real, now: int)
    ensures Run(w, LineActions(line, reg, parseFloat), now)
         == Run(Run(Run(Run(Run(w, DimmerActions(line, reg), now), SwitchActions(line, reg), now),
                        PingActions(line), now), PongActions(line), now),
                MeasurementActions(line, reg, parseFloat), now)
  {
    var d, s, pi, po := DimmerActions(line, reg), SwitchActions(line, reg), PingActions(line), PongActions(line);
    var m := MeasurementActions(line, reg, parseFloat);
    RunAppend(w, d + s + pi + po, m, now);
    RunAppend(w, d + s + pi, po, now);
    RunAppend(w, d + s, pi, now);
    RunAppend(w, d, s, now);
  }

  /** The calls of several lines followed by one more line. */
  lemma LinesActionsSnoc(lines: seq<string>, line: string, reg: Registry, parseFloat: string -> real)
    ensures LinesActions(lines + [line], reg, parseFloat)
         == LinesActions(lines, reg, parseFloat) + LineActions(line, reg, parseFloat)
  {
    assert (lines + [line])[..|lines|] == lines;
  }

  /** The effect of several lines followed by one more line is the effect of that line afterwards. */
  lemma RunLinesSnoc(w: World, lines: seq<string>, line: string, reg: Registry, parseFloat: string -> real, now: int)
    ensures Run(w, LinesActions(lines + [line], reg, parseFloat), now)
         == Run(Run(w, LinesActions(lines, reg, parseFloat), now), LineActions(line, reg, parseFloat), now)
  {
    LinesActionsSnoc(lines, line, reg, parseFloat);
    RunAppend(w, LinesActions(lines, reg, parseFloat), LineActions(line, reg, parseFloat), now);
  }

  // What the lines of the protocol do.

  /** A DimmerSet line reaches the dimmer it names, with the level read as `parseInt` reads it, and nothing else. */
  lemma DimmerSetDispatch(address: string, level: string, fade: string, reg: Registry, parseFloat: string -> real)
    requires Plain(address) && Plain(level) && Plain(fade)
    ensures LineActions(DimmerSetLine(address, level, fade), reg, parseFloat)
         == if address in reg.dimmers then [UpdateLevel(address, ParseInt(level))] else []
  {
    DimmerSetRoundTrip(address, level, fade);
    DimmerSetOnly(address, level, fade);
  }

  /**
   * A switch line reaches, in this order, the switch, the toggle and the thermostat that hold its
   * address, telling each the new state.
   */
  lemma SwitchDispatch(on: bool, address: string, reg: Registry, parseFloat: string -> real)
    requires Plain(address)
    ensures LineActions(SwitchLine(on, address), reg, parseFloat) == SwitchTargets(address, on, reg)
  {
    var line := SwitchLine(on, address);
    assert Plain(OnOff(on));
    SwitchRoundTrip(OnOff(on), address);
    SwitchOnly(OnOff(on), address);
    assert DimmerActions(line, reg) == [];
    assert SwitchActions(line, reg) == SwitchTargets(address, on, reg);
    assert PingActions(line) == [] && PongActions(line) == [];
    assert MeasurementActions(line, reg, parseFloat) == [];
  }

  /** A switch line whose word is neither On nor Off reaches nothing. */
  lemma OtherSwitchWordIgnored(word: string, address: string, reg: Registry, parseFloat: string -> real)
    requires Plain(word) && Plain(address) && word != "On" && word != "Off"
    ensures LineActions(SwitchWordLine(word, address), reg, parseFloat) == []
  {
    SwitchRoundTrip(word, address);
    SwitchOnly(word, address);
  }

  /** A ping is answered with exactly one pong, and a pong stops the pong timer; nothing else happens. */
  lemma PingPongDispatch(reg: Registry, parseFloat: string -> real)
    ensures LineActions(PingLine, reg, parseFloat) == [AnswerPing]
    ensures LineActions(PongLine, reg, parseFloat) == [PongReceived]
  {
    PingPongRoundTrip();
    PingPongOnly();
  }

  /**
   * A Measurement line reaches the thermostat that `thermostat_map` names for its key, when that
   * thermostat exists, with the value as `parseFloat` reads it; otherwise nothing.
   */
  lemma MeasurementDispatch(key: string, units: string, value: string, reg: Registry, parseFloat: string -> real)
    requires Plain(key) && Plain(units) && Plain(value)
    ensures LineActions(MeasurementLine(key, units, value), reg, parseFloat)
         == if key in reg.thermostatMap && reg.thermostatMap[key] in reg.thermostats
            then [ThermostatReading(reg.thermostatMap[key], parseFloat(value))]
            else []
  {
    MeasurementRoundTrip(key, units, value);
    MeasurementOnly(key, units, value);
  }

  /** A ping line puts exactly one pong on the outbound queue and changes no thermostat. */
  lemma PingAnswered(w: World, reg: Registry, parseFloat: string -> real, now: int)
    ensures Run(w, LineActions(PingLine, reg, parseFloat), now) == World(w.states, w.sent + [PongLine + "\n"])
  {
    PingPongDispatch(reg, parseFloat);
    assert [AnswerPing][..0] == [];
  }
}
