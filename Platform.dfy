/**
 * The platform object of src/platform.ts: the session with the lighting controller. It splits
 * the inbound stream into lines and dispatches them, answers the controller's pings, keeps the
 * keepalive timers, configures the controller when the connection is ready, and builds its
 * device tables from the configured lighting table.
 *
 * The socket, the timers and the device handlers other than the thermostats are outside the
 * model: a socket operation is recorded in `socketOps`, a timer is a flag saying whether it is
 * scheduled, and a call to a dimmer, switch or toggle handler is recorded in `actions`.
 */
module Platform {
  import opened Wrappers
  import opened JsObject
  import opened LineCodec
  import opened Protocol
  import MeasurementKey
  import opened Outbound
  import opened Thermostat
  import opened Dispatch
  import opened Patterns
  import opened JsText
  import opened Config
  import opened Discovery
  import opened Sequences

  /** What the platform asks of the socket besides writing. */
  datatype SocketOp = Connect | Destroy

  /**
   * Where `on_data` stands after handling the lines `done` of the text `total`, when it started
   * from the log `a0`, the world `w0`, the handled lines `h0` and the pong timer `p0`, and now
   * holds the buffer `buffer`, the handled lines `handled`, the log `actions`, the world `w` and
   * the pong timer `pong`.
   */
  ghost predicate Progress(total: string, done: seq<string>, reg: Registry, parseFloat: string -> real,
                           a0: seq<Action>, w0: World, h0: seq<string>, p0: bool, now: int,
                           buffer: string, handled: seq<string>, actions: seq<Action>, w: World, pong: bool)
  {
    && Joined(done) + buffer == total && LinesClean(done)
    && handled == h0 + done
    && actions == a0 + LinesActions(done, reg, parseFloat)
    && w == Run(w0, LinesActions(done, reg, parseFloat), now)
    && pong == (p0 && !AnyPong(done))
  }

  /** Handling the buffer's first line takes `on_data` one line further. */
  lemma ProgressNext(total: string, done: seq<string>, reg: Registry, parseFloat: string -> real,
                     a0: seq<Action>, w0: World, h0: seq<string>, p0: bool, now: int,
                     buffer: string, index: nat, handled: seq<string>, actions: seq<Action>, w: World, pong: bool,
                     handled': seq<string>, actions': seq<Action>, w': World, pong': bool)
    requires Progress(total, done, reg, parseFloat, a0, w0, h0, p0, now, buffer, handled, actions, w, pong)
    requires index < |buffer| && IndexOf(buffer, '\n', 0) == index
    requires handled' == handled + [buffer[..index]]
    requires actions' == actions + LineActions(buffer[..index], reg, parseFloat)
    requires w' == Run(w, LineActions(buffer[..index], reg, parseFloat), now)
    requires pong' == (pong && Exec(buffer[..index], PongPattern).None?)
    ensures Progress(total, done + [buffer[..index]], reg, parseFloat, a0, w0, h0, p0, now,
                     buffer[index + 1..], handled', actions', w', pong')
  {
    var line := buffer[..index];
    var done' := done + [line];
    CutFirst(done, buffer, index);
    Assoc(h0, done, [line]);
    assert handled' == h0 + done';
    LogSnoc(a0, done, line, reg, parseFloat);
    assert actions' == a0 + LinesActions(done', reg, parseFloat);
    RunLinesSnoc(w0, done, line, reg, parseFloat, now);
    assert w' == Run(w0, LinesActions(done', reg, parseFloat), now);
    AnyPongSnoc(done, line);
    assert pong' == (p0 && !AnyPong(done'));
  }

  /** The log after one more line. */
  lemma LogSnoc(a0: seq<Action>, done: seq<string>, line: string, reg: Registry, parseFloat: string -> real)
    ensures a0 + LinesActions(done + [line], reg, parseFloat)
         == a0 + LinesActions(done, reg, parseFloat) + LineActions(line, reg, parseFloat)
  {
    LinesActionsSnoc(done, line, reg, parseFloat);
    Assoc(a0, LinesActions(done, reg, parseFloat), LineActions(line, reg, parseFloat));
  }

  /** Some line of `lines` is a pong, which stops the pong timer. */
  predicate AnyPong(lines: seq<string>)
    decreases |lines|
  {
    lines != [] && (AnyPong(lines[..|lines| - 1]) || Exec(lines[|lines| - 1], PongPattern).Some?)
  }

  /** `AnyPong` holds exactly when the Pong pattern matches one of the lines. */
  lemma {:induction false} AnyPongIff(lines: seq<string>)
    ensures AnyPong(lines) <==> exists i :: 0 <= i < |lines| && Exec(lines[i], PongPattern).Some?
    decreases |lines|
  {
    if lines != [] {
      var init := lines[..|lines| - 1];
      AnyPongIff(init);
      if exists i :: 0 <= i < |init| && Exec(init[i], PongPattern).Some? {
        var i :| 0 <= i < |init| && Exec(init[i], PongPattern).Some?;
        assert lines[i] == init[i];
      }
      if exists i :: 0 <= i < |lines| && Exec(lines[i], PongPattern).Some? {
        var i :| 0 <= i < |lines| && Exec(lines[i], PongPattern).Some?;
        if i < |init| {
          assert init[i] == lines[i];
        }
      }
    }
  }

  /** One more line. */
  lemma AnyPongSnoc(done: seq<string>, line: string)
    ensures AnyPong(done + [line]) == (AnyPong(done) || Exec(line, PongPattern).Some?)
  {
    assert (done + [line])[..|done|] == done;
  }

  class LightingPlatform {
    const outbox: Outbox
    /** `config.lighting_address`. */
    const lightingAddress: string
    /** JavaScript's `parseFloat`, applied to a measurement's value text. */
    const parseFloat: string -> real

    var socketBuffer: string
    /** The keys of `dimmers`, `switches`, `toggles` and `simple_thermostats`, in the order they were added. */
    var dimmers: seq<string>
    var switches: seq<string>
    var toggles: seq<string>
    var thermostatKeys: seq<string>
    var thermostats: map<string, SimpleThermostat>
    /** `thermostat_map`: measurement key to thermostat address. */
    var thermostatMap: map<string, string>

    /** Whether the ping timer, the pong timer are scheduled, and how many reconnects are. */
    var pingArmed: bool
    var pongArmed: bool
    var pendingReconnects: nat

    /** Every line handled, every call made on a line's behalf, every socket operation, in order. */
    ghost var handled: seq<string>
    ghost var actions: seq<Action>
    ghost var socketOps: seq<SocketOp>

    ghost function Handlers(): set<SimpleThermostat>
      reads this`thermostats
    {
      set a | a in thermostats :: thermostats[a]
    }

    /**
     * The session's invariant: the outbound queue keeps its own, the pong timer only runs while
     * the ping timer does, and each thermostat handler feeds this platform's queue with the
     * address it is filed under.
     */
    ghost predicate Valid()
      reads this`pingArmed, this`pongArmed, this`thermostats, outbox
    {
      && outbox.Valid()
      && (pongArmed ==> pingArmed)
      && (forall a :: a in thermostats ==> thermostats[a].outbox == outbox && thermostats[a].address == a)
    }

    /** What the tables keep (see `TablesWellFormed`). */
    ghost predicate TablesValid()
      reads this`dimmers, this`switches, this`toggles, this`thermostatKeys, this`thermostats, this`thermostatMap
    {
      TablesWellFormed(dimmers, switches, toggles, thermostatKeys, thermostats.Keys, thermostatMap)
    }

    /** The tables with each thermostat handler's state. */
    ghost function Listing(): Catalog
      reads this`dimmers, this`switches, this`toggles, this`thermostatKeys, this`thermostats, this`thermostatMap
      reads Handlers()`state
    {
      Catalog(dimmers, switches, toggles, thermostatKeys, map a | a in thermostats :: thermostats[a].state, thermostatMap)
    }

    /** The tables as dispatch reads them. */
    function Tables(): Registry
      reads this`dimmers, this`switches, this`toggles, this`thermostats, this`thermostatMap
    {
      Registry(dimmers, switches, toggles, thermostats.Keys, thermostatMap)
    }

    /** The thermostats' states and everything queued for the controller so far. */
    ghost function Current(): World
      reads this`thermostats, outbox`enqueued, Handlers()`state
    {
      World(map a | a in thermostats :: thermostats[a].state, outbox.enqueued)
    }

    constructor (lightingAddress: string, parseFloat: string -> real)
      ensures Valid() && TablesValid() && fresh(outbox)
      ensures this.lightingAddress == lightingAddress && this.parseFloat == parseFloat
      ensures socketBuffer == "" && !pingArmed && !pongArmed && pendingReconnects == 0
      ensures dimmers == [] && switches == [] && toggles == [] && thermostatKeys == []
      ensures thermostats == map[] && thermostatMap == map[]
      ensures outbox.queue == [] && !outbox.queueReady && outbox.enqueued == []
      ensures handled == [] && actions == [] && socketOps == []
    {
      outbox := new Outbox();
      this.lightingAddress := lightingAddress;
      this.parseFloat := parseFloat;
      socketBuffer := "";
      dimmers, switches, toggles, thermostatKeys := [], [], [], [];
      thermostats, thermostatMap := map[], map[];
      pingArmed, pongArmed, pendingReconnects := false, false, 0;
      handled, actions, socketOps := [], [], [];
    }

    /** Records a call to a device handler. */
    ghost method Record(act: Action)
      modifies this`actions
      ensures actions == old(actions) + [act]
    {
      actions := actions + [act];
    }

    /** A call to a thermostat: the controller reported its switch, or a measurement for it arrived. */
    method NotifyThermostat(act: Action, now: int)
      requires Valid() && (act.ThermostatUpdateOn? || act.ThermostatReading?) && act.address in thermostats
      modifies outbox, Handlers()`state
      ensures old(outbox.written) <= outbox.written
      ensures Valid()
      ensures Current() == Perform(old(Current()), act, now)
    {
      var t := thermostats[act.address];
      if act.ThermostatUpdateOn? {
        t.UpdateOn(act.on, now);
      } else {
        t.UpdateThermostat(act.temperature, now);
      }
      forall k | k in thermostats && k != act.address ensures thermostats[k] != t {
        assert thermostats[k].address == k;
      }
    }

    /** `updateOn(on)` on every table holding `address`. */
    method UpdateOnAll(address: string, on: bool, now: int)
      requires Valid()
      modifies this`actions, outbox, Handlers()`state
      ensures old(outbox.written) <= outbox.written
      ensures Valid()
      ensures actions == old(actions) + SwitchTargets(address, on, Tables())
      ensures Current() == Run(old(Current()), SwitchTargets(address, on, Tables()), now)
    {
      RunSwitchTargets(Current(), address, on, Tables(), now);
      actions := actions + SwitchTargets(address, on, Tables());
      if address in thermostats {
        NotifyThermostat(ThermostatUpdateOn(address, on), now);
      }
    }

    /** The DimmerSet pattern: `updateLevel(parseInt(L, 10))` on the dimmer named, if there is one. */
    method DimmerSetStep(line: string, now: int)
      modifies this`actions
      ensures actions == old(actions) + DimmerActions(line, Tables())
      ensures Current() == Run(Current(), DimmerActions(line, Tables()), now)
    {
      var m := Exec(line, DimmerSetPattern);
      if m.Some? {
        if m.value[0] in dimmers {
          Record(UpdateLevel(m.value[0], ParseInt(m.value[1])));
        }
      }
    }

    /** The Switch pattern: `updateOn` on every table holding the address when the word is On or Off. */
    method SwitchStep(line: string, now: int)
      requires Valid()
      modifies this`actions, outbox, Handlers()`state
      ensures old(outbox.written) <= outbox.written
      ensures Valid()
      ensures actions == old(actions) + SwitchActions(line, Tables())
      ensures Current() == Run(old(Current()), SwitchActions(line, Tables()), now)
    {
      var m := Exec(line, SwitchPattern);
      if m.Some? {
        if m.value[0] == "On" {
          UpdateOnAll(m.value[1], true, now);
        }
        if m.value[0] == "Off" {
          UpdateOnAll(m.value[1], false, now);
        }
      }
    }

    /** The Ping pattern: a Pong goes on the outbound queue. */
    method PingStep(line: string, now: int)
      requires Valid()
      modifies this`actions, outbox
      ensures old(outbox.written) <= outbox.written
      ensures Valid()
      ensures actions == old(actions) + PingActions(line)
      ensures Current() == Run(old(Current()), PingActions(line), now)
    {
      if Exec(line, PingPattern).Some? {
        Record(AnswerPing);
        outbox.Enqueue(PongLine);
      }
    }

    /** The Pong pattern: the pong timer is cleared. */
    method PongStep(line: string, now: int)
      requires Valid()
      modifies this`actions, this`pongArmed
      ensures Valid()
      ensures actions == old(actions) + PongActions(line)
      ensures pongArmed == (old(pongArmed) && Exec(line, PongPattern).None?)
      ensures Current() == Run(Current(), PongActions(line), now)
    {
      if Exec(line, PongPattern).Some? {
        Record(PongReceived);
        pongArmed := false;
      }
    }

    /** The Measurement pattern: the reading goes to the thermostat `thermostat_map` names for the key, if it exists. */
    method MeasurementStep(line: string, now: int)
      requires Valid()
      modifies this`actions, outbox, Handlers()`state
      ensures old(outbox.written) <= outbox.written
      ensures Valid()
      ensures actions == old(actions) + MeasurementActions(line, Tables(), parseFloat)
      ensures Current() == Run(old(Current()), MeasurementActions(line, Tables(), parseFloat), now)
    {
      var m := Exec(line, MeasurementPattern);
      if m.Some? {
        var k := m.value[0];
        if k in thermostatMap {
          var a := thermostatMap[k];
          if a in thermostats {
            var act := ThermostatReading(a, parseFloat(m.value[2]));
            Record(act);
            NotifyThermostat(act, now);
          }
        }
      }
    }

    /** The first two patterns tried on a line: DimmerSet, then Switch. */
    method CommandSteps(line: string, now: int)
      requires Valid()
      modifies this`actions, outbox, Handlers()`state
      ensures old(outbox.written) <= outbox.written
      ensures Valid()
      ensures actions == old(actions) + DimmerActions(line, Tables()) + SwitchActions(line, Tables())
      ensures Current() == Run(Run(old(Current()), DimmerActions(line, Tables()), now), SwitchActions(line, Tables()), now)
    {
      DimmerSetStep(line, now);
      SwitchStep(line, now);
    }

    /** The last three patterns tried on a line: Ping, Pong, then Measurement. */
    method SessionSteps(line: string, now: int)
      requires Valid()
      modifies this`actions, this`pongArmed, outbox, Handlers()`state
      ensures old(outbox.written) <= outbox.written
      ensures Valid()
      ensures actions == old(actions) + PingActions(line) + PongActions(line) + MeasurementActions(line, Tables(), parseFloat)
      ensures Current()
           == Run(Run(Run(old(Current()), PingActions(line), now), PongActions(line), now),
                  MeasurementActions(line, Tables(), parseFloat), now)
      ensures pongArmed == (old(pongArmed) && Exec(line, PongPattern).None?)
    {
      PingStep(line, now);
      PongStep(line, now);
      MeasurementStep(line, now);
    }

    /** The body of the `on_data` loop for one line: every pattern is tried on it, in turn. */
    method DispatchLine(line: string, now: int)
      requires Valid()
      modifies this`actions, this`pongArmed, outbox, Handlers()`state
      ensures old(outbox.written) <= outbox.written
      ensures Valid()
      ensures actions == old(actions) + LineActions(line, Tables(), parseFloat)
      ensures Current() == Run(old(Current()), LineActions(line, Tables(), parseFloat), now)
      ensures pongArmed == (old(pongArmed) && Exec(line, PongPattern).None?)
    {
      ghost var reg, a0 := Tables(), actions;
      RunLine(Current(), line, reg, parseFloat, now);
      CommandSteps(line, now);
      SessionSteps(line, now);
      Regroup6(a0, DimmerActions(line, reg), SwitchActions(line, reg), PingActions(line), PongActions(line),
        MeasurementActions(line, reg, parseFloat));
    }

    /** One pass of the `on_data` loop: the buffer's first line is handled and cut off. */
    method HandleFirstLine(index: nat, now: int)
      requires Valid() && index < |socketBuffer| && IndexOf(socketBuffer, '\n', 0) == index
      modifies this`socketBuffer, this`handled, this`actions, this`pongArmed, outbox, Handlers()`state
      ensures old(outbox.written) <= outbox.written
      ensures Valid() && Tables() == old(Tables())
      ensures socketBuffer == old(socketBuffer[index + 1..])
      ensures handled == old(handled) + [old(socketBuffer[..index])]
      ensures actions == old(actions) + LineActions(old(socketBuffer[..index]), Tables(), parseFloat)
      ensures Current() == Run(old(Current()), LineActions(old(socketBuffer[..index]), Tables(), parseFloat), now)
      ensures pongArmed == (old(pongArmed) && Exec(old(socketBuffer[..index]), PongPattern).None?)
    {
      var line := socketBuffer[..index];
      DispatchLine(line, now);
      socketBuffer, handled := socketBuffer[index + 1..], handled + [line];
    }

    /**
     * `on_data`: the chunk is appended to the buffer, every complete line in it is dispatched in
     * order, and the unterminated tail stays in the buffer.
     */
    method OnData(data: string, now: int)
      requires Valid()
      modifies this`socketBuffer, this`handled, this`actions, this`pongArmed, outbox, Handlers()`state
      ensures old(outbox.written) <= outbox.written
      ensures Valid()
      ensures var split := SplitLines(old(socketBuffer) + data);
        && socketBuffer == split.rest
        && handled == old(handled) + split.lines
        && actions == old(actions) + LinesActions(split.lines, Tables(), parseFloat)
        && Current() == Run(old(Current()), LinesActions(split.lines, Tables(), parseFloat), now)
        && pongArmed == (old(pongArmed) && !AnyPong(split.lines))
    {
      ghost var total, reg, a0, w0, h0, p0 := socketBuffer + data, Tables(), actions, Current(), handled, pongArmed;
      ghost var done: seq<string> := [];
      socketBuffer := socketBuffer + data;
      var index := IndexOf(socketBuffer, '\n', 0);
      while index != -1
        invariant Valid() && Tables() == reg
        invariant old(outbox.written) <= outbox.written
        invariant index == IndexOf(socketBuffer, '\n', 0)
        invariant Progress(total, done, reg, parseFloat, a0, w0, h0, p0, now,
                           socketBuffer, handled, actions, Current(), pongArmed)
        decreases |socketBuffer|
      {
        ghost var buffer, line, hd, acts, w, pong := socketBuffer, socketBuffer[..index], handled, actions, Current(), pongArmed;
        HandleFirstLine(index, now);
        ProgressNext(total, done, reg, parseFloat, a0, w0, h0, p0, now, buffer, index,
          hd, acts, w, pong, handled, actions, Current(), pongArmed);
        done := done + [line];
        index := IndexOf(socketBuffer, '\n', 0);
      }
      SplitUnique(total, done, socketBuffer);
    }

    /** One `for...in` loop of `on_ready`: a command per key, in the order given. */
    method EnqueueEach(make: string -> string, keys: seq<string>)
      requires outbox.Valid()
      modifies outbox
      ensures old(outbox.written) <= outbox.written
      ensures outbox.Valid()
      ensures outbox.enqueued == old(outbox.enqueued) + Framed(EachLine(make, keys))
    {
      for i := 0 to |keys|
        invariant outbox.Valid()
        invariant old(outbox.written) <= outbox.written
        invariant outbox.enqueued == old(outbox.enqueued) + Framed(EachLine(make, keys[..i]))
      {
        outbox.Enqueue(make(keys[i]));
        EachLineSnoc(make, keys[..i], keys[i]);
        assert keys[..i + 1] == keys[..i] + [keys[i]];
        FramedAppend(EachLine(make, keys[..i]), [make(keys[i])]);
      }
      assert keys[..|keys|] == keys;
    }

    /** The enqueues of `on_ready`, for tables visited in the orders given. */
    method EnqueueBurst(d: seq<string>, s: seq<string>, t: seq<string>, th: seq<string>)
      requires outbox.Valid()
      modifies outbox
      ensures old(outbox.written) <= outbox.written
      ensures outbox.Valid()
      ensures outbox.enqueued == old(outbox.enqueued) + Framed(Burst(lightingAddress, d, s, t, th))
    {
      ghost var e0 := outbox.enqueued;
      outbox.Enqueue(Configure(lightingAddress));
      ghost var e1 := outbox.enqueued;
      EnqueueEach(ConfigureDimmer, d);
      ghost var e2 := outbox.enqueued;
      EnqueueEach(ConfigureSwitch, s);
      ghost var e3 := outbox.enqueued;
      EnqueueEach(ConfigureSwitch, t);
      ghost var e4 := outbox.enqueued;
      EnqueueEach(ConfigureSwitch, th);
      BurstChain(lightingAddress, d, s, t, th, e0, e1, e2, e3, e4, outbox.enqueued);
    }

    /**
     * `on_ready`: the ping timer starts, the controller is told its lighting address and then
     * every dimmer, switch, toggle and thermostat, each table in `for...in` order, and the queue
     * is drained.
     */
    method OnReady()
      requires Valid()
      modifies this`pingArmed, outbox
      ensures old(outbox.written) <= outbox.written
      ensures Valid() && pingArmed
      ensures outbox.enqueued
           == old(outbox.enqueued) + Framed(ConfigBurst(lightingAddress, dimmers, switches, toggles, thermostatKeys))
      ensures old(outbox.written) < outbox.written
      ensures outbox.written[|old(outbox.written)|..]
           <= old(outbox.queue) + Framed(ConfigBurst(lightingAddress, dimmers, switches, toggles, thermostatKeys))
      ensures outbox.queue != [] ==> !outbox.queueReady
    {
      pingArmed := true;
      SendBurst();
    }

    /** The enqueues of `on_ready` and the drain after them. */
    method SendBurst()
      requires outbox.Valid()
      modifies outbox
      ensures old(outbox.written) <= outbox.written
      ensures outbox.Valid()
      ensures outbox.enqueued
           == old(outbox.enqueued) + Framed(ConfigBurst(lightingAddress, dimmers, switches, toggles, thermostatKeys))
      ensures old(outbox.written) < outbox.written
      ensures outbox.written[|old(outbox.written)|..]
           <= old(outbox.queue) + Framed(ConfigBurst(lightingAddress, dimmers, switches, toggles, thermostatKeys))
      ensures outbox.queue != [] ==> !outbox.queueReady
    {
      ghost var w0, q0 := outbox.written, outbox.queue;
      ghost var e0 := outbox.enqueued;
      ghost var burst := ConfigBurst(lightingAddress, dimmers, switches, toggles, thermostatKeys);
      ConfigBurstParts(lightingAddress, dimmers, switches, toggles, thermostatKeys);
      EnqueueBurst(ForInOrder(dimmers), ForInOrder(switches), ForInOrder(toggles), ForInOrder(thermostatKeys));
      assert outbox.enqueued == e0 + Framed(burst);
      assert |burst| > 0;
      ghost var w1, q1 := outbox.written, outbox.queue;
      outbox.OnDrain();
      DrainedBurst(w0, q0, Framed(burst), w1, q1, outbox.written, outbox.queue);
    }

    /**
     * What the drain that ends `on_ready` has written: something, and no more than the lines
     * that waited and the burst, oldest first.
     */
    static lemma DrainedBurst(w0: seq<string>, q0: seq<string>, burst: seq<string>,
                              w1: seq<string>, q1: seq<string>, w2: seq<string>, q2: seq<string>)
      requires |burst| > 0 && w0 <= w1 && w1 + q1 == w0 + q0 + burst
      requires w2 + q2 == w1 + q1 && (q1 != [] ==> |q2| < |q1|) && w1 <= w2
      ensures w0 < w2 && w2[|w0|..] <= q0 + burst
    {
      assert |w2| > |w0| by {
        if q1 == [] {
          assert |w1| == |w0| + |q0| + |burst|;
        }
      }
      assert w2 + q2 == w0 + (q0 + burst);
      assert w2[..|w0|] == w0 by {
        assert (w2 + q2)[..|w0|] == w0;
      }
      assert (w2 + q2)[|w0|..] == q0 + burst;
      assert w2[|w0|..] == (w2 + q2)[|w0|..|w2|];
    }

    /** `on_close`: both keepalive timers are cleared and a reconnect is scheduled. */
    method OnClose()
      requires Valid()
      modifies this`pingArmed, this`pongArmed, this`pendingReconnects
      ensures Valid() && !pingArmed && !pongArmed
      ensures pendingReconnects == old(pendingReconnects) + 1
    {
      pingArmed, pongArmed := false, false;
      pendingReconnects := pendingReconnects + 1;
    }

    /** A scheduled `reconnect` fires: the socket connects again. */
    method Reconnect()
      requires pendingReconnects > 0
      modifies this`pendingReconnects, this`socketOps
      ensures pendingReconnects == old(pendingReconnects) - 1
      ensures socketOps == old(socketOps) + [Connect]
    {
      pendingReconnects := pendingReconnects - 1;
      socketOps := socketOps + [Connect];
    }

    /** `on_error`: the socket is destroyed. */
    method OnError()
      modifies this`socketOps
      ensures socketOps == old(socketOps) + [Destroy]
    {
      socketOps := socketOps + [Destroy];
    }

    /** `on_timeout`: the socket is destroyed. */
    method OnTimeout()
      modifies this`socketOps
      ensures socketOps == old(socketOps) + [Destroy]
    {
      socketOps := socketOps + [Destroy];
    }

    /** `pong_timeout`: no Pong came back in time, so the socket is destroyed. */
    method PongTimeout()
      requires Valid() && pongArmed
      modifies this`pongArmed, this`socketOps
      ensures Valid() && !pongArmed
      ensures socketOps == old(socketOps) + [Destroy]
    {
      pongArmed := false;
      socketOps := socketOps + [Destroy];
    }

    /**
     * `ping_timeout`: a Ping goes on the outbound queue, the pong timer starts and the ping
     * timer is scheduled again.
     */
    method PingTimeout()
      requires Valid() && pingArmed
      modifies this`pongArmed, outbox
      ensures old(outbox.written) <= outbox.written
      ensures Valid() && pingArmed && pongArmed
      ensures outbox.enqueued == old(outbox.enqueued) + [PingLine + "\n"]
    {
      outbox.Enqueue(PingLine);
      pongArmed := true;
    }

    /** One device of the lighting table, filed as `discoverDevices` files it. */
    method DiscoverStep(d: Device, restored: map<string, Context>)
      requires Valid() && TablesValid()
      modifies this`dimmers, this`switches, this`toggles, this`thermostatKeys, this`thermostats, this`thermostatMap
      ensures Valid() && TablesValid()
      ensures Listing() == DiscoverOne(old(Listing()), d, restored)
    {
      ghost var before := Listing();
      FileDevice(d, restored);
      ghost var filed := Listing();
      MapDevice(d);
      assert Listing() == filed.(thermostatMap := MapOne(before.thermostatMap, d));
      DiscoverOneKeeps(before, d, restored);
      assert Listing().thermostats.Keys == thermostats.Keys;
    }

    /** A thermostat whose address carries a measurement key claims that key in `thermostat_map`. */
    method MapDevice(d: Device)
      modifies this`thermostatMap
      ensures thermostatMap == MapOne(old(thermostatMap), d)
    {
      if d.deviceType == "SimpleThermostat" {
        var key := MeasurementKey.Key(d.address);
        if key.Some? {
          thermostatMap := thermostatMap[key.value := d.address];
        }
      }
    }

    /** The device goes into the table of its type, if it has one of the four types. */
    method FileDevice(d: Device, restored: map<string, Context>)
      requires Valid()
      modifies this`dimmers, this`switches, this`toggles, this`thermostatKeys, this`thermostats
      ensures Valid()
      ensures Listing() == Filed(old(Listing()), d, restored)
    {
      if d.deviceType == "Dimmer" {
        dimmers := Insert(dimmers, d.address);
      } else if d.deviceType == "Switch" {
        switches := Insert(switches, d.address);
      } else if d.deviceType == "Toggle" {
        toggles := Insert(toggles, d.address);
      } else if d.deviceType == "SimpleThermostat" {
        var context := ContextOf(d.deviceType, d.address, restored);
        AddThermostat(d.address, context);
      }
    }

    /** A new thermostat handler for `address`, seeded from `context`, replaces any earlier one. */
    method AddThermostat(address: string, context: Context)
      requires Valid()
      modifies this`thermostatKeys, this`thermostats
      ensures Valid()
      ensures Listing()
           == old(Listing()).(thermostatKeys := Insert(old(thermostatKeys), address),
                              thermostats := old(Listing()).thermostats[address := Seeded(context.mode, context.setpoint)])
    {
      var handler := new SimpleThermostat(address, outbox, context.mode, context.setpoint);
      thermostatKeys, thermostats := Insert(thermostatKeys, address), thermostats[address := handler];
    }

    /** `discoverDevices`: every device of the lighting table, in order. */
    method DiscoverDevices(table: seq<Device>, restored: map<string, Context>)
      requires Valid() && TablesValid()
      modifies this`dimmers, this`switches, this`toggles, this`thermostatKeys, this`thermostats, this`thermostatMap
      ensures Valid() && TablesValid()
      ensures Listing() == Discover(old(Listing()), table, restored)
    {
      for i := 0 to |table|
        invariant Valid() && TablesValid()
        invariant Listing() == Discover(old(Listing()), table[..i], restored)
      {
        DiscoverStep(table[i], restored);
        assert table[..i + 1][..i] == table[..i];
      }
      assert table[..|table|] == table;
    }

    /** The `didFinishLaunching` callback: the devices are discovered and the socket connects. */
    method Launch(table: seq<Device>, restored: map<string, Context>)
      requires Valid() && TablesValid()
      modifies this`dimmers, this`switches, this`toggles, this`thermostatKeys, this`thermostats, this`thermostatMap
      modifies this`socketOps
      ensures Valid() && TablesValid()
      ensures Listing() == Discover(old(Listing()), table, restored)
      ensures socketOps == old(socketOps) + [Connect]
    {
      DiscoverDevices(table, restored);
      socketOps := socketOps + [Connect];
    }
  }
}
