/**
 * The configuration burst src/platform.ts sends when the connection becomes ready (`on_ready`):
 * the controller's lighting address first, then one ConfigureDimmer per dimmer and one
 * ConfigureSwitch per switch, toggle and thermostat, each table visited in `for...in` order.
 */
module Config {
  import opened Protocol
  import opened JsObject

  /** `make(key)` for every key, in order. */
  function EachLine(make: string -> string, keys: seq<string>): (r: seq<string>)
    ensures |r| == |keys|
    decreases |keys|
  {
    if keys == [] then [] else [make(keys[0])] + EachLine(make, keys[1..])
  }

  /** The lines `on_ready` queues, before the newline `enqueue` adds to each. */
  function ConfigBurst(lightingAddress: string, dimmers: seq<string>, switches: seq<string>,
                       toggles: seq<string>, thermostats: seq<string>): (r: seq<string>)
    ensures |r| == 1 + |dimmers| + |switches| + |toggles| + |thermostats|
    ensures r[0] == Configure(lightingAddress)
  {
    assert |multiset(ForInOrder(dimmers))| == |multiset(dimmers)|;
    assert |multiset(ForInOrder(switches))| == |multiset(switches)|;
    assert |multiset(ForInOrder(toggles))| == |multiset(toggles)|;
    assert |multiset(ForInOrder(thermostats))| == |multiset(thermostats)|;
    Burst(lightingAddress, ForInOrder(dimmers), ForInOrder(switches), ForInOrder(toggles), ForInOrder(thermostats))
  }

  lemma ConfigBurstParts(lightingAddress: string, dimmers: seq<string>, switches: seq<string>,
                         toggles: seq<string>, thermostats: seq<string>)
    ensures ConfigBurst(lightingAddress, dimmers, switches, toggles, thermostats)
         == Burst(lightingAddress, ForInOrder(dimmers), ForInOrder(switches), ForInOrder(toggles), ForInOrder(thermostats))
  {
  }

  /** The burst for tables visited in the orders given. */
  function Burst(lightingAddress: string, d: seq<string>, s: seq<string>, t: seq<string>, th: seq<string>): seq<string>
  {
    [Configure(lightingAddress)]
    + EachLine(ConfigureDimmer, d)
    + EachLine(ConfigureSwitch, s)
    + EachLine(ConfigureSwitch, t)
    + EachLine(ConfigureSwitch, th)
  }

  /** One more key. */
  lemma {:induction false} EachLineSnoc(make: string -> string, keys: seq<string>, key: string)
    ensures EachLine(make, keys + [key]) == EachLine(make, keys) + [make(key)]
    decreases |keys|
  {
    if keys == [] {
      assert keys + [key] == [key];
    } else {
      assert (keys + [key])[1..] == keys[1..] + [key];
      EachLineSnoc(make, keys[1..], key);
    }
  }

  /** Each line as it goes on the wire. */
  function Framed(lines: seq<string>): (r: seq<string>)
    ensures |r| == |lines|
    decreases |lines|
  {
    if lines == [] then [] else [lines[0] + "\n"] + Framed(lines[1..])
  }

  lemma {:induction false} FramedAppend(a: seq<string>, b: seq<string>)
    ensures Framed(a + b) == Framed(a) + Framed(b)
    decreases |a|
  {
    if a == [] {
      assert a + b == b;
    } else {
      assert (a + b)[1..] == a[1..] + b;
      FramedAppend(a[1..], b);
    }
  }

  /** The burst on the wire, part by part. */
  lemma BurstFramed(lightingAddress: string, d: seq<string>, s: seq<string>, t: seq<string>, th: seq<string>)
    ensures Framed(Burst(lightingAddress, d, s, t, th))
         == [Configure(lightingAddress) + "\n"] + Framed(EachLine(ConfigureDimmer, d))
            + Framed(EachLine(ConfigureSwitch, s)) + Framed(EachLine(ConfigureSwitch, t))
            + Framed(EachLine(ConfigureSwitch, th))
  {
    var c, ld, ls, lt, lth := [Configure(lightingAddress)], EachLine(ConfigureDimmer, d),
      EachLine(ConfigureSwitch, s), EachLine(ConfigureSwitch, t), EachLine(ConfigureSwitch, th);
    FramedAppend(c + ld + ls + lt, lth);
    FramedAppend(c + ld + ls, lt);
    FramedAppend(c + ld, ls);
    FramedAppend(c, ld);
  }

  /** Queuing the burst's parts one after another queues the burst. */
  lemma BurstChain(lightingAddress: string, d: seq<string>, s: seq<string>, t: seq<string>, th: seq<string>,
                   e0: seq<string>, e1: seq<string>, e2: seq<string>, e3: seq<string>, e4: seq<string>,
                   e5: seq<string>)
    requires e1 == e0 + [Configure(lightingAddress) + "\n"]
    requires e2 == e1 + Framed(EachLine(ConfigureDimmer, d))
    requires e3 == e2 + Framed(EachLine(ConfigureSwitch, s))
    requires e4 == e3 + Framed(EachLine(ConfigureSwitch, t))
    requires e5 == e4 + Framed(EachLine(ConfigureSwitch, th))
    ensures e5 == e0 + Framed(Burst(lightingAddress, d, s, t, th))
  {
    BurstFramed(lightingAddress, d, s, t, th);
  }

  /** A key listed once is counted once. */
  lemma {:induction false} DistinctCount(keys: seq<string>, a: string)
    requires Distinct(keys)
    ensures multiset(keys)[a] == if a in keys then 1 else 0
    decreases |keys|
  {
    if keys != [] {
      assert keys == [keys[0]] + keys[1..];
      DistinctCount(keys[1..], a);
      if keys[0] == a {
        assert a !in keys[1..] by {
          forall j | 0 <= j < |keys[1..]| ensures keys[1..][j] != a {
            assert keys[1..][j] == keys[j + 1];
          }
        }
      }
    }
  }

  /** With `make` one to one, the line for `a` occurs as often as `a` does. */
  lemma {:induction false} EachLineCount(make: string -> string, keys: seq<string>, a: string)
    requires forall x, y :: make(x) == make(y) ==> x == y
    ensures multiset(EachLine(make, keys))[make(a)] == multiset(keys)[a]
    decreases |keys|
  {
    if keys != [] {
      assert keys == [keys[0]] + keys[1..];
      EachLineCount(make, keys[1..], a);
    }
  }

  /** A line that `make` never produces does not occur. */
  lemma {:induction false} EachLineMisses(make: string -> string, keys: seq<string>, line: string)
    requires forall x :: make(x) != line
    ensures multiset(EachLine(make, keys))[line] == 0
    decreases |keys|
  {
    if keys != [] {
      EachLineMisses(make, keys[1..], line);
    }
  }

  /** Where the kind of a configuration command is spelt: right after "Configure". */
  const KindAt := |ControllerPrefix| + 9

  lemma KindChars(lightingAddress: string, a: string)
    ensures Configure(lightingAddress)[KindAt] == '('
    ensures ConfigureDimmer(a)[KindAt] == 'D'
    ensures ConfigureSwitch(a)[KindAt] == 'S'
  {
    assert |ControllerPrefix| == 21;
  }

  /** The address sits between a fixed head and the closing parenthesis. */
  lemma AddressInside(head: string, a: string, line: string)
    requires line == head + a + CloseLit
    ensures a == line[|head|..|line| - 1]
  {
  }

  lemma ConfigureDimmerOneToOne()
    ensures forall x, y :: ConfigureDimmer(x) == ConfigureDimmer(y) ==> x == y
  {
    forall x, y | ConfigureDimmer(x) == ConfigureDimmer(y) ensures x == y {
      var head := ControllerPrefix + "ConfigureDimmer" + AddressLit;
      AddressInside(head, x, ConfigureDimmer(x));
      AddressInside(head, y, ConfigureDimmer(y));
    }
  }

  lemma ConfigureSwitchOneToOne()
    ensures forall x, y :: ConfigureSwitch(x) == ConfigureSwitch(y) ==> x == y
  {
    forall x, y | ConfigureSwitch(x) == ConfigureSwitch(y) ensures x == y {
      var head := ControllerPrefix + "ConfigureSwitch" + AddressLit;
      AddressInside(head, x, ConfigureSwitch(x));
      AddressInside(head, y, ConfigureSwitch(y));
    }
  }

  /**
   * The burst configures the controller's address exactly once, first; every dimmer exactly once;
   * and every address once for each of the switch, toggle and thermostat tables that hold it (an
   * address in two of them is configured twice). Nothing else is sent.
   */
  lemma ConfigBurstCounts(lightingAddress: string, dimmers: seq<string>, switches: seq<string>,
                          toggles: seq<string>, thermostats: seq<string>, a: string)
    requires Distinct(dimmers) && Distinct(switches) && Distinct(toggles) && Distinct(thermostats)
    ensures var burst := ConfigBurst(lightingAddress, dimmers, switches, toggles, thermostats);
      && |burst| == 1 + |dimmers| + |switches| + |toggles| + |thermostats|
      && burst[0] == Configure(lightingAddress)
      && multiset(burst)[Configure(lightingAddress)] == 1
      && multiset(burst)[ConfigureDimmer(a)] == (if a in dimmers then 1 else 0)
      && multiset(burst)[ConfigureSwitch(a)]
         == (if a in switches then 1 else 0) + (if a in toggles then 1 else 0) + (if a in thermostats then 1 else 0)
  {
    var d, s, t, th := ForInOrder(dimmers), ForInOrder(switches), ForInOrder(toggles), ForInOrder(thermostats);
    AddressOnce(lightingAddress, d, s, t, th);
    DimmerOnce(lightingAddress, d, s, t, th, a);
    DistinctCount(dimmers, a);
    SwitchCounted(lightingAddress, d, s, t, th, a);
    DistinctCount(switches, a);
    DistinctCount(toggles, a);
    DistinctCount(thermostats, a);
  }

  /** The controller's own address is configured once: no other command looks like it. */
  lemma AddressOnce(lightingAddress: string, d: seq<string>, s: seq<string>, t: seq<string>, th: seq<string>)
    ensures multiset(Burst(lightingAddress, d, s, t, th))[Configure(lightingAddress)] == 1
  {
    forall x ensures ConfigureDimmer(x) != Configure(lightingAddress) && ConfigureSwitch(x) != Configure(lightingAddress) {
      KindChars(lightingAddress, x);
    }
    EachLineMisses(ConfigureDimmer, d, Configure(lightingAddress));
    EachLineMisses(ConfigureSwitch, s, Configure(lightingAddress));
    EachLineMisses(ConfigureSwitch, t, Configure(lightingAddress));
    EachLineMisses(ConfigureSwitch, th, Configure(lightingAddress));
  }

  /** A dimmer's command occurs as often as the dimmer is visited. */
  lemma DimmerOnce(lightingAddress: string, d: seq<string>, s: seq<string>, t: seq<string>, th: seq<string>, a: string)
    ensures multiset(Burst(lightingAddress, d, s, t, th))[ConfigureDimmer(a)] == multiset(d)[a]
  {
    forall x ensures ConfigureSwitch(x) != ConfigureDimmer(a) {
      KindChars(lightingAddress, x);
      KindChars(lightingAddress, a);
    }
    KindChars(lightingAddress, a);
    ConfigureDimmerOneToOne();
    EachLineCount(ConfigureDimmer, d, a);
    EachLineMisses(ConfigureSwitch, s, ConfigureDimmer(a));
    EachLineMisses(ConfigureSwitch, t, ConfigureDimmer(a));
    EachLineMisses(ConfigureSwitch, th, ConfigureDimmer(a));
  }

  /** A switch command occurs as often as its address is visited in the three switch-like tables together. */
  lemma SwitchCounted(lightingAddress: string, d: seq<string>, s: seq<string>, t: seq<string>, th: seq<string>, a: string)
    ensures multiset(Burst(lightingAddress, d, s, t, th))[ConfigureSwitch(a)]
         == multiset(s)[a] + multiset(t)[a] + multiset(th)[a]
  {
    forall x ensures ConfigureDimmer(x) != ConfigureSwitch(a) {
      KindChars(lightingAddress, x);
      KindChars(lightingAddress, a);
    }
    KindChars(lightingAddress, a);
    ConfigureSwitchOneToOne();
    EachLineMisses(ConfigureDimmer, d, ConfigureSwitch(a));
    EachLineCount(ConfigureSwitch, s, a);
    EachLineCount(ConfigureSwitch, t, a);
    EachLineCount(ConfigureSwitch, th, a);
  }
}
