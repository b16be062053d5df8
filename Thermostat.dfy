/**
 * The SimpleThermostat accessory (src/device_types/simple_thermostat.ts): a heating thermostat
 * run by the platform. It keeps the mode and setpoint HomeKit asked for, the last temperature
 * measured and the heater's power, each with a flag saying whether it is known, and after every
 * change decides whether the heater should be on, commanding the controller when that decision
 * differs from what it believes the heater is doing.
 *
 * Times are milliseconds on the clock `Date.now()` reads; the clock is a parameter here.
 */
module Thermostat {
  import opened Wrappers
  import opened Outbound
  import Protocol

  /** A measurement older than this many milliseconds is no longer trusted. */
  const StaleAfter := 900000
  /** Half the width of the band around the setpoint inside which the heater is left as it is. */
  const Deadband: real := 1.0
  const DefaultTemperature: real := 25.0

  /** HomeKit's OFF and HEAT, the same numbers for the current and the target heating state. */
  const Off := 0
  const Heat := 1

  datatype ThermostatState = ThermostatState(
    mode: string, validMode: bool,
    thermostat: real, validThermostat: bool, timestampThermostat: int,
    setpoint: real, validSetpoint: bool,
    power: bool, validPower: bool)

  /**
   * The state a new handler starts from. Mode and setpoint come from the accessory's saved
   * context when it holds them; the measurement and the power are never known at first.
   */
  function Seeded(contextMode: Option<string>, contextSetpoint: Option<real>): (r: ThermostatState)
    ensures r.validMode <==> contextMode.Some?
    ensures contextMode.Some? ==> r.mode == contextMode.value
    ensures r.validSetpoint <==> contextSetpoint.Some?
    ensures contextSetpoint.Some? ==> r.setpoint == contextSetpoint.value
    ensures !r.validThermostat && !r.validPower && !r.power
  {
    ThermostatState(
      contextMode.GetOr("Off"), contextMode.Some?,
      DefaultTemperature, false, 0,
      contextSetpoint.GetOr(DefaultTemperature), contextSetpoint.Some?,
      false, false)
  }

  /** The state after its measurement has been checked against the clock: a reading from the future or older than the window is dropped. */
  function Expire(s: ThermostatState, now: int): (r: ThermostatState)
    ensures r.validThermostat <==>
              s.validThermostat && s.timestampThermostat <= now <= s.timestampThermostat + StaleAfter
    ensures r == s.(validThermostat := r.validThermostat)
  {
    if s.validThermostat && (now < s.timestampThermostat || now > s.timestampThermostat + StaleAfter)
    then s.(validThermostat := false)
    else s
  }

  /** Whether the heater should be on: only in Heat mode with everything known, with hysteresis around the setpoint. */
  function Decide(s: ThermostatState): (r: bool)
    ensures r ==> s.validMode && s.validThermostat && s.validSetpoint && s.mode == "Heat"
    ensures r ==> s.thermostat < s.setpoint + Deadband
    ensures (s.validMode && s.validThermostat && s.validSetpoint && s.mode == "Heat"
             && s.thermostat <= s.setpoint - Deadband) ==> r
  {
    if s.validMode && s.validThermostat && s.validSetpoint then
      if s.mode == "Heat" then
        var v := if s.thermostat >= s.setpoint + Deadband then false else s.power;
        if s.thermostat <= s.setpoint - Deadband then true else v
      else false
    else false
  }

  /** The command `process_state` sends, if any: the decision, when it differs from the believed power or that power is unknown. */
  function Emits(s: ThermostatState, now: int): (r: Option<bool>)
    ensures r.None? <==> s.validPower && Decide(Expire(s, now)) == s.power
    ensures r.Some? ==> r.value == Decide(Expire(s, now))
  {
    var e := Expire(s, now);
    var v := Decide(e);
    if v != e.power || !e.validPower then Some(v) else None
  }

  /** The state `process_state` leaves. */
  function Processed(s: ThermostatState, now: int): (r: ThermostatState)
    ensures r.validPower && r.power == Decide(Expire(s, now))
    ensures r == Expire(s, now).(power := r.power, validPower := true)
  {
    var e := Expire(s, now);
    match Emits(s, now)
    case Some(v) => e.(power := v, validPower := true)
    case None => e
  }

  /** The lines a command puts on the outbound queue. */
  function Commands(emitted: Option<bool>, address: string): seq<string>
  {
    match emitted
    case Some(v) => [Protocol.SwitchLine(v, address) + "\n"]
    case None => []
  }

  /** What reaches a thermostat from HomeKit and from the controller. */
  datatype Input =
    | SetMode(target: int)       // setTargetHeatingCoolingState
    | SetSetpoint(setpoint: real) // setTargetTemperature
    | Reading(temperature: real) // update_thermostat
    | Power(on: bool)            // updateOn

  /** The mode `setTargetHeatingCoolingState` stores for a HomeKit value; other values keep the mode. */
  function ModeFor(value: int, mode: string): string
  {
    if value == Off then "Off" else if value == Heat then "Heat" else mode
  }

  /** An entry point's change to the state, before it calls `process_state`. */
  function Accept(s: ThermostatState, input: Input, now: int): (r: ThermostatState)
    ensures input.SetMode? ==> r == s.(mode := r.mode, validMode := true)
                               && r.mode in {"Off", "Heat", s.mode}
    ensures input.SetSetpoint? ==> r == s.(setpoint := input.setpoint, validSetpoint := true)
    ensures input.Reading? ==> r == s.(thermostat := input.temperature, validThermostat := true,
                                       timestampThermostat := now)
    ensures input.Power? ==> r == s.(power := input.on, validPower := true)
  {
    match input
    case SetMode(value) => s.(mode := ModeFor(value, s.mode), validMode := true)
    case SetSetpoint(value) => s.(setpoint := value, validSetpoint := true)
    case Reading(value) => s.(thermostat := value, validThermostat := true, timestampThermostat := now)
    case Power(on) => s.(power := on, validPower := true)
  }

  /** An entry point as a whole: the change, then `process_state`. */
  function Step(s: ThermostatState, input: Input, now: int): (r: ThermostatState)
    ensures r.validPower
    ensures r.power ==> r.validMode && r.mode == "Heat" && r.validThermostat && r.validSetpoint
                        && r.thermostat < r.setpoint + Deadband
  {
    Processed(Accept(s, input, now), now)
  }

  /** The command an entry point sends, if any. */
  function StepEmits(s: ThermostatState, input: Input, now: int): Option<bool>
  {
    Emits(Accept(s, input, now), now)
  }

  /** `getCurrentHeatingCoolingState`: HEAT while the heater is believed on, otherwise OFF. */
  function CurrentStateOf(s: ThermostatState): (r: int)
    ensures r == Heat <==> s.power
    ensures r == Off <==> !s.power
  {
    if s.power then Heat else Off
  }

  /** `getTargetHeatingCoolingState`: HEAT in Heat mode, OFF for every other mode. */
  function TargetStateOf(s: ThermostatState): (r: int)
    ensures r == Heat <==> s.mode == "Heat"
    ensures r == Off <==> s.mode != "Heat"
  {
    if s.mode == "Heat" then Heat else Off
  }

  // Properties of the controller.

  /** A new handler: the saved mode and setpoint or the defaults; measurement and power unknown. */
  lemma SeededDefaults(contextMode: Option<string>, contextSetpoint: Option<real>)
    ensures var s := Seeded(contextMode, contextSetpoint);
      && (s.validMode <==> contextMode.Some?) && (contextMode.None? ==> s.mode == "Off")
      && (contextMode.Some? ==> s.mode == contextMode.value)
      && (s.validSetpoint <==> contextSetpoint.Some?)
      && (contextSetpoint.None? ==> s.setpoint == 25.0)
      && (contextSetpoint.Some? ==> s.setpoint == contextSetpoint.value)
      && !s.validThermostat && !s.validPower && !s.power
      && TargetStateOf(s) == (if contextMode == Some("Heat") then Heat else Off)
  {
  }

  /**
   * Before any measurement, the first entry point of a new handler commands the heater off: the
   * power is unknown and the decision without a measurement is off. Only a report that the
   * heater is already off is taken as it is.
   */
  lemma FirstCommandIsOff(contextMode: Option<string>, contextSetpoint: Option<real>, input: Input, now: int)
    requires !input.Reading?
    ensures StepEmits(Seeded(contextMode, contextSetpoint), input, now)
            == if input == Power(false) then None else Some(false)
    ensures var s := Step(Seeded(contextMode, contextSetpoint), input, now);
            !s.power && s.validPower
  {
  }

  /** A measurement survives the check exactly when it is at most the window old and not from the future. */
  lemma StalenessWindow(s: ThermostatState, now: int)
    ensures Expire(s, now).validThermostat
            <==> s.validThermostat && s.timestampThermostat <= now <= s.timestampThermostat + StaleAfter
    ensures Expire(s, now) == s.(validThermostat := Expire(s, now).validThermostat)
  {
  }

  /** A reading taken at `taken` is trusted at `now` exactly when `now` is in `[taken, taken + 900000]`. */
  lemma ReadingLifetime(s: ThermostatState, value: real, taken: int, now: int)
    ensures var r := Accept(s, Reading(value), taken);
            Expire(r, now).validThermostat <==> taken <= now <= taken + 900000
  {
    StalenessWindow(Accept(s, Reading(value), taken), now);
  }

  /** Only a reading makes a measurement valid again: every other entry point keeps it dropped. */
  lemma InvalidationPersists(s: ThermostatState, input: Input, now: int)
    requires !s.validThermostat && !input.Reading?
    ensures !Step(s, input, now).validThermostat
  {
  }

  /** The heating rule: on at or below the band, off at or above it, unchanged strictly inside it. */
  lemma HeatingBands(s: ThermostatState, now: int)
    requires s.mode == "Heat" && s.validMode && s.validSetpoint && Expire(s, now).validThermostat
    ensures s.thermostat <= s.setpoint - 1.0 ==> Processed(s, now).power
    ensures s.thermostat >= s.setpoint + 1.0 ==> !Processed(s, now).power
    ensures s.setpoint - 1.0 < s.thermostat < s.setpoint + 1.0 ==> Processed(s, now).power == s.power
  {
  }

  /** Fail-safe: without a known mode, a fresh measurement and a known setpoint, or outside Heat mode, the heater is off. */
  lemma FailSafeOff(s: ThermostatState, now: int)
    requires !(s.validMode && Expire(s, now).validThermostat && s.validSetpoint) || s.mode != "Heat"
    ensures !Processed(s, now).power && Processed(s, now).validPower
  {
  }

  /**
   * A command goes out exactly when the decision differs from the believed power or that power
   * is unknown; afterwards the believed power is the decision and is known, and nothing but the
   * measurement check and the power changes.
   */
  lemma EmitOnlyOnChange(s: ThermostatState, now: int)
    ensures var p := Processed(s, now);
            && p.validPower
            && p.power == Decide(Expire(s, now))
            && (Emits(s, now).Some? <==> (!s.validPower || p.power != s.power))
            && (Emits(s, now).Some? ==> Emits(s, now).value == p.power)
            && p.(power := s.power, validPower := s.validPower) == Expire(s, now)
  {
  }

  /** Processing twice with the same clock changes nothing more and sends nothing the second time. */
  lemma ProcessIdempotent(s: ThermostatState, now: int)
    ensures Processed(Processed(s, now), now) == Processed(s, now)
    ensures Emits(Processed(s, now), now) == None
  {
    var e := Expire(s, now);
    assert Expire(Processed(s, now), now) == Processed(s, now);
    assert Decide(Processed(s, now)) == Processed(s, now).power by {
      DecideStable(e, Decide(e));
    }
  }

  /** Believing the heater is in the state just decided does not change the decision. */
  lemma DecideStable(e: ThermostatState, v: bool)
    requires v == Decide(e)
    ensures Decide(e.(power := v, validPower := true)) == v
  {
  }

  /**
   * The controller echoing the command just sent, or the state the thermostat already believes,
   * changes nothing and sends nothing, as long as the measurement has not expired meanwhile.
   */
  lemma EchoIsSilent(s0: ThermostatState, now: int, later: int)
    requires var s := Processed(s0, now); Expire(s, later) == s
    ensures var s := Processed(s0, now);
            Step(s, Power(s.power), later) == s && StepEmits(s, Power(s.power), later) == None
  {
    var s := Processed(s0, now);
    assert Accept(s, Power(s.power), later) == s;
    ProcessIdempotent(s0, now);
    assert Decide(s) == s.power by {
      DecideStable(Expire(s0, now), Decide(Expire(s0, now)));
    }
  }

  /** A report of the heater's state strictly inside the band is adopted without a command. */
  lemma ReportAdoptedInBand(s: ThermostatState, on: bool, now: int)
    requires s.mode == "Heat" && s.validMode && s.validSetpoint && Expire(s, now).validThermostat
    requires s.setpoint - 1.0 < s.thermostat < s.setpoint + 1.0
    ensures Step(s, Power(on), now).power == on && StepEmits(s, Power(on), now) == None
  {
  }

  /**
   * A report that disagrees with a forced decision (outside the band, or any decision to be off)
   * is answered with a command restoring the decision.
   */
  lemma ReportCorrected(s: ThermostatState, on: bool, now: int)
    requires var d := Decide(Expire(Accept(s, Power(on), now), now)); d != on
    ensures StepEmits(s, Power(on), now) == Some(!on) && Step(s, Power(on), now).power == !on
  {
  }

  /** The decision is forced, so a disagreeing report is corrected, below the band and above it. */
  lemma ForcedOutsideBand(s: ThermostatState, on: bool, now: int)
    requires s.mode == "Heat" && s.validMode && s.validSetpoint && Expire(s, now).validThermostat
    requires s.thermostat <= s.setpoint - 1.0 || s.thermostat >= s.setpoint + 1.0
    ensures var d := s.thermostat <= s.setpoint - 1.0;
            StepEmits(s, Power(!d), now) == Some(d) && Step(s, Power(!d), now).power == d
  {
  }

  /** The mode setter stores Off for OFF and Heat for HEAT, so the target getter reads the value back; other values keep the mode. */
  lemma ModeSetterRoundTrip(s: ThermostatState, value: int, now: int)
    ensures var a := Accept(s, SetMode(value), now);
            && a.validMode
            && (value == Off || value == Heat ==> TargetStateOf(a) == value)
            && (value != Off && value != Heat ==> a.mode == s.mode)
            && TargetStateOf(Step(s, SetMode(value), now)) == TargetStateOf(a)
  {
  }

  /** In OFF mode, whatever else happens, the heater is commanded and kept off. */
  lemma OffModeKeepsHeaterOff(s: ThermostatState, input: Input, now: int)
    requires Accept(s, input, now).mode != "Heat"
    ensures !Step(s, input, now).power
    ensures CurrentStateOf(Step(s, input, now)) == Off
  {
    FailSafeOff(Accept(s, input, now), now);
  }

  /** The handler object the platform keeps for each SimpleThermostat device. */
  class SimpleThermostat {
    /** `accessory.context.device.address`, the address its commands carry. */
    const address: string
    /** The platform's outbound queue, which `platform.enqueue` feeds. */
    const outbox: Outbox
    var state: ThermostatState
    /** The mode and setpoint saved in `accessory.context`, which outlive the handler. */
    var contextMode: Option<string>
    var contextSetpoint: Option<real>

    constructor (address: string, outbox: Outbox, contextMode: Option<string>, contextSetpoint: Option<real>)
      ensures this.address == address && this.outbox == outbox
      ensures state == Seeded(contextMode, contextSetpoint)
      ensures this.contextMode == contextMode && this.contextSetpoint == contextSetpoint
    {
      this.address := address;
      this.outbox := outbox;
      var s := ThermostatState("Off", false, 25.0, false, 0, 25.0, false, false, false);
      if contextMode.Some? {
        s := s.(mode := contextMode.value, validMode := true);
      }
      if contextSetpoint.Some? {
        s := s.(setpoint := contextSetpoint.value, validSetpoint := true);
      }
      state := s;
      this.contextMode := contextMode;
      this.contextSetpoint := contextSetpoint;
    }

    /** `getCurrentHeatingCoolingState`. */
    method GetCurrentHeatingCoolingState() returns (r: int)
      ensures r == CurrentStateOf(state)
    {
      if state.power {
        r := Heat;
      } else {
        r := Off;
      }
    }

    /** `getTargetHeatingCoolingState`. */
    method GetTargetHeatingCoolingState() returns (r: int)
      ensures r == TargetStateOf(state)
    {
      if state.mode == "Heat" {
        r := Heat;
      } else {
        r := Off;
      }
    }

    /** `getCurrentTemperature`: the last measurement, or the default before any, whether or not it is still trusted. */
    method GetCurrentTemperature() returns (r: real)
      ensures r == state.thermostat
    {
      r := state.thermostat;
    }

    /** `getTargetTemperature`: the setpoint, or the default when none was ever set or saved. */
    method GetTargetTemperature() returns (r: real)
      ensures r == state.setpoint
    {
      r := state.setpoint;
    }

    /**
     * `process_state`: drops a stale or future measurement, decides, and when the decision
     * differs from the believed power (or that is unknown) records it and commands the switch.
     */
    method ProcessState(now: int)
      requires outbox.Valid()
      modifies this`state, outbox
      ensures outbox.Valid()
      ensures old(outbox.written) <= outbox.written
      ensures state == Processed(old(state), now)
      ensures outbox.enqueued == old(outbox.enqueued) + Commands(Emits(old(state), now), address)
    {
      var power := state.power;
      var value := power;
      if state.validThermostat {
        if now < state.timestampThermostat {
          state := state.(validThermostat := false);
        }
        if now > state.timestampThermostat + StaleAfter {
          state := state.(validThermostat := false);
        }
      }
      if state.validMode && state.validThermostat && state.validSetpoint {
        if state.mode == "Heat" {
          if state.thermostat >= state.setpoint + Deadband {
            value := false;
          }
          if state.thermostat <= state.setpoint - Deadband {
            value := true;
          }
        } else {
          value := false;
        }
      } else {
        value := false;
      }
      if value != power || !state.validPower {
        state := state.(power := value, validPower := true);
        outbox.Enqueue(Protocol.SwitchLine(value, address));
      }
    }

    /** `setTargetHeatingCoolingState`: stores the mode, saves it in the context, re-evaluates. */
    method SetTargetHeatingCoolingState(value: int, now: int)
      requires outbox.Valid()
      modifies this`state, this`contextMode, outbox
      ensures outbox.Valid()
      ensures old(outbox.written) <= outbox.written
      ensures state == Step(old(state), SetMode(value), now)
      ensures contextMode == Some(Accept(old(state), SetMode(value), now).mode)
      ensures outbox.enqueued == old(outbox.enqueued) + Commands(StepEmits(old(state), SetMode(value), now), address)
    {
      if value == Off {
        state := state.(mode := "Off");
      } else if value == Heat {
        state := state.(mode := "Heat");
      }
      state := state.(validMode := true);
      contextMode := Some(state.mode);
      ProcessState(now);
    }

    /** `setTargetTemperature`: stores the setpoint, saves it in the context, re-evaluates. */
    method SetTargetTemperature(value: real, now: int)
      requires outbox.Valid()
      modifies this`state, this`contextSetpoint, outbox
      ensures outbox.Valid()
      ensures old(outbox.written) <= outbox.written
      ensures state == Step(old(state), SetSetpoint(value), now)
      ensures contextSetpoint == Some(value)
      ensures outbox.enqueued == old(outbox.enqueued) + Commands(StepEmits(old(state), SetSetpoint(value), now), address)
    {
      state := state.(setpoint := value, validSetpoint := true);
      contextSetpoint := Some(state.setpoint);
      ProcessState(now);
    }

    /** `update_thermostat`: a new measurement, stamped with the clock, then re-evaluation. */
    method UpdateThermostat(thermostat: real, now: int)
      requires outbox.Valid()
      modifies this`state, outbox
      ensures outbox.Valid()
      ensures old(outbox.written) <= outbox.written
      ensures state == Step(old(state), Reading(thermostat), now)
      ensures outbox.enqueued == old(outbox.enqueued) + Commands(StepEmits(old(state), Reading(thermostat), now), address)
    {
      state := state.(thermostat := thermostat, validThermostat := true, timestampThermostat := now);
      ProcessState(now);
    }

    /** `updateOn`: the controller reports the heater's switch, then re-evaluation. */
    method UpdateOn(power: bool, now: int)
      requires outbox.Valid()
      modifies this`state, outbox
      ensures outbox.Valid()
      ensures old(outbox.written) <= outbox.written
      ensures state == Step(old(state), Power(power), now)
      ensures outbox.enqueued == old(outbox.enqueued) + Commands(StepEmits(old(state), Power(power), now), address)
    {
      state := state.(power := power, validPower := true);
      ProcessState(now);
    }
  }
}
