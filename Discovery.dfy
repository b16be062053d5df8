/**
 * `discoverDevices` in src/platform.ts: the platform walks the configured `lighting_table` once
 * and files every device under its address in the table of its type, creating a thermostat
 * handler seeded from the accessory's saved context, and records in `thermostat_map` the
 * measurement key of every thermostat address that carries one.
 */
module Discovery {
  import opened Wrappers
  import opened JsObject
  import opened Thermostat
  import MeasurementKey

  /** One entry of the configuration's `lighting_table`. */
  datatype Device = Device(name: string, deviceType: string, address: string)

  /** The mode and setpoint a restored accessory's saved context holds, if any. */
  datatype Context = Context(mode: Option<string>, setpoint: Option<real>)

  /**
   * The platform's tables: the keys of `dimmers`, `switches`, `toggles` and
   * `simple_thermostats` in the order they were added, the state of each thermostat's handler,
   * and `thermostat_map`.
   */
  datatype Catalog = Catalog(
    dimmers: seq<string>, switches: seq<string>, toggles: seq<string>,
    thermostatKeys: seq<string>, thermostats: map<string, ThermostatState>,
    thermostatMap: map<string, string>)

  /**
   * What the tables keep: each table's keys are listed once, `thermostatKeys` lists exactly the
   * thermostats, and `thermostat_map` sends each measurement key to a thermostat whose address
   * carries that key.
   */
  predicate TablesWellFormed(dimmers: seq<string>, switches: seq<string>, toggles: seq<string>,
                             thermostatKeys: seq<string>, thermostats: set<string>,
                             thermostatMap: map<string, string>)
  {
    && Distinct(dimmers) && Distinct(switches) && Distinct(toggles) && Distinct(thermostatKeys)
    && (forall a :: a in thermostatKeys ==> a in thermostats)
    && (forall a :: a in thermostats ==> a in thermostatKeys)
    && (forall k :: k in thermostatMap ==> thermostatMap[k] in thermostats)
    && (forall k :: k in thermostatMap ==> MeasurementKey.Key(thermostatMap[k]) == Some(k))
  }

  predicate WellFormed(c: Catalog)
  {
    TablesWellFormed(c.dimmers, c.switches, c.toggles, c.thermostatKeys, c.thermostats.Keys, c.thermostatMap)
  }

  /**
   * The saved context a device's handler starts from. The accessory is looked up by the
   * identifier generated from `device_type + address`; `restored` maps that text to the context
   * of the cached accessory, and a new accessory has an empty context.
   */
  function ContextOf(deviceType: string, address: string, restored: map<string, Context>): Context
  {
    if deviceType + address in restored then restored[deviceType + address] else Context(None, None)
  }

  /** The state a thermostat handler for `address` starts in. */
  function SeededFor(address: string, restored: map<string, Context>): ThermostatState
  {
    var ctx := ContextOf("SimpleThermostat", address, restored);
    Seeded(ctx.mode, ctx.setpoint)
  }

  /** `d` is a thermostat whose address carries the measurement key `k`. */
  predicate KeyedBy(d: Device, k: string)
  {
    d.deviceType == "SimpleThermostat" && MeasurementKey.Key(d.address) == Some(k)
  }

  /** One pass of the loop of `discoverDevices`. */
  function DiscoverOne(c: Catalog, d: Device, restored: map<string, Context>): (r: Catalog)
    ensures c.thermostats.Keys <= r.thermostats.Keys && c.thermostatMap.Keys <= r.thermostatMap.Keys
    ensures d.deviceType == "SimpleThermostat" ==> d.address in r.thermostats
    ensures forall k :: KeyedBy(d, k) ==> k in r.thermostatMap && r.thermostatMap[k] == d.address
  {
    Filed(c, d, restored).(thermostatMap := MapOne(c.thermostatMap, d))
  }

  /** The device filed under its address in the table of its type, if it has one of the four types. */
  function Filed(c: Catalog, d: Device, restored: map<string, Context>): (r: Catalog)
    ensures r.thermostatMap == c.thermostatMap
    ensures forall a :: a in r.dimmers <==> a in c.dimmers || (d.deviceType == "Dimmer" && a == d.address)
    ensures forall a :: a in r.switches <==> a in c.switches || (d.deviceType == "Switch" && a == d.address)
    ensures forall a :: a in r.toggles <==> a in c.toggles || (d.deviceType == "Toggle" && a == d.address)
    ensures forall a :: a in r.thermostats <==>
              a in c.thermostats || (d.deviceType == "SimpleThermostat" && a == d.address)
    ensures d.deviceType == "SimpleThermostat" ==> r.thermostats[d.address] == SeededFor(d.address, restored)
  {
    if d.deviceType == "Dimmer" then c.(dimmers := Insert(c.dimmers, d.address))
    else if d.deviceType == "Switch" then c.(switches := Insert(c.switches, d.address))
    else if d.deviceType == "Toggle" then c.(toggles := Insert(c.toggles, d.address))
    else if d.deviceType == "SimpleThermostat" then
      c.(thermostatKeys := Insert(c.thermostatKeys, d.address),
         thermostats := c.thermostats[d.address := SeededFor(d.address, restored)])
    else c
  }

  /** `thermostat_map` after one device: a thermostat whose address carries a key claims it. */
  function MapOne(m: map<string, string>, d: Device): (r: map<string, string>)
    ensures m.Keys <= r.Keys
    ensures forall k :: k in r ==> (KeyedBy(d, k) && r[k] == d.address) || (k in m && r[k] == m[k])
  {
    if d.deviceType == "SimpleThermostat" then
      match MeasurementKey.Key(d.address)
      case Some(k) => m[k := d.address]
      case None => m
    else m
  }

  /** What one device does to a key of `thermostat_map`. */
  lemma MapOneAt(m: map<string, string>, d: Device, k: string)
    ensures k in MapOne(m, d) <==> k in m || KeyedBy(d, k)
    ensures KeyedBy(d, k) ==> MapOne(m, d)[k] == d.address
    ensures !KeyedBy(d, k) && k in m ==> MapOne(m, d)[k] == m[k]
  {
  }

  /** The whole of `discoverDevices`: every device of `table`, in order. */
  function Discover(c: Catalog, table: seq<Device>, restored: map<string, Context>): (r: Catalog)
    ensures c.thermostats.Keys <= r.thermostats.Keys && c.thermostatMap.Keys <= r.thermostatMap.Keys
    ensures forall a :: a in c.dimmers ==> a in r.dimmers
    ensures forall a :: a in c.switches ==> a in r.switches
    ensures forall a :: a in c.toggles ==> a in r.toggles
    decreases |table|
  {
    if table == [] then c
    else DiscoverOne(Discover(c, table[..|table| - 1], restored), table[|table| - 1], restored)
  }

  /** Some device of `table` has the type `kind` and the address `a`. */
  predicate Lists(table: seq<Device>, kind: string, a: string)
  {
    exists i :: 0 <= i < |table| && table[i].deviceType == kind && table[i].address == a
  }

  /** Filing a device keeps the tables well formed. */
  lemma DiscoverOneKeeps(c: Catalog, d: Device, restored: map<string, Context>)
    requires WellFormed(c)
    ensures WellFormed(DiscoverOne(c, d, restored))
  {
    var f := Filed(c, d, restored);
    FiledKeeps(c, d, restored);
    MapOneKeeps(c.thermostatMap, d, f.thermostats.Keys);
  }

  /** Filing keeps every table's keys distinct and `thermostatKeys` in step with the thermostats. */
  lemma FiledKeeps(c: Catalog, d: Device, restored: map<string, Context>)
    requires WellFormed(c)
    ensures var f := Filed(c, d, restored);
      && Distinct(f.dimmers) && Distinct(f.switches) && Distinct(f.toggles) && Distinct(f.thermostatKeys)
      && (forall a :: a in f.thermostatKeys ==> a in f.thermostats)
      && (forall a :: a in f.thermostats ==> a in f.thermostatKeys)
      && c.thermostats.Keys <= f.thermostats.Keys
      && (d.deviceType == "SimpleThermostat" ==> d.address in f.thermostats)
  {
    InsertKeepsDistinct(c.dimmers, d.address);
    InsertKeepsDistinct(c.switches, d.address);
    InsertKeepsDistinct(c.toggles, d.address);
    InsertKeepsDistinct(c.thermostatKeys, d.address);
  }

  /** A key `thermostat_map` gains names a thermostat whose address carries it. */
  lemma MapOneKeeps(m: map<string, string>, d: Device, thermostats: set<string>)
    requires forall k :: k in m ==> m[k] in thermostats && MeasurementKey.Key(m[k]) == Some(k)
    requires d.deviceType == "SimpleThermostat" ==> d.address in thermostats
    ensures var m' := MapOne(m, d);
      forall k :: k in m' ==> m'[k] in thermostats && MeasurementKey.Key(m'[k]) == Some(k)
  {
  }

  /** Discovery keeps the tables well formed. */
  lemma {:induction false} DiscoverKeeps(c: Catalog, table: seq<Device>, restored: map<string, Context>)
    requires WellFormed(c)
    ensures WellFormed(Discover(c, table, restored))
    decreases |table|
  {
    if table != [] {
      DiscoverKeeps(c, table[..|table| - 1], restored);
      DiscoverOneKeeps(Discover(c, table[..|table| - 1], restored), table[|table| - 1], restored);
    }
  }

  /** One more device: what `Lists` says of the longer table. */
  lemma ListsSnoc(table: seq<Device>, kind: string, a: string)
    requires table != []
    ensures Lists(table, kind, a)
        <==> Lists(table[..|table| - 1], kind, a)
             || (table[|table| - 1].deviceType == kind && table[|table| - 1].address == a)
  {
    var init := table[..|table| - 1];
    if Lists(table, kind, a) {
      var i :| 0 <= i < |table| && table[i].deviceType == kind && table[i].address == a;
      if i < |init| {
        assert init[i] == table[i];
      }
    }
    if Lists(init, kind, a) {
      var i :| 0 <= i < |init| && init[i].deviceType == kind && init[i].address == a;
      assert table[i] == init[i];
    }
  }

  /**
   * After discovery, an address is in a table exactly when it was before or the lighting table
   * lists it with that table's type; every other device type is ignored.
   */
  lemma {:induction false} DiscoverFiles(c: Catalog, table: seq<Device>, restored: map<string, Context>, a: string)
    ensures var r := Discover(c, table, restored);
      && (a in r.dimmers <==> a in c.dimmers || Lists(table, "Dimmer", a))
      && (a in r.switches <==> a in c.switches || Lists(table, "Switch", a))
      && (a in r.toggles <==> a in c.toggles || Lists(table, "Toggle", a))
      && (a in r.thermostatKeys <==> a in c.thermostatKeys || Lists(table, "SimpleThermostat", a))
      && (a in r.thermostats <==> a in c.thermostats || Lists(table, "SimpleThermostat", a))
    decreases |table|
  {
    if table != [] {
      DiscoverFiles(c, table[..|table| - 1], restored, a);
      ListsSnoc(table, "Dimmer", a);
      ListsSnoc(table, "Switch", a);
      ListsSnoc(table, "Toggle", a);
      ListsSnoc(table, "SimpleThermostat", a);
    }
  }

  /**
   * A thermostat the lighting table lists starts from its saved context; one it does not list
   * keeps the state it had.
   */
  lemma {:induction false} DiscoverSeeds(c: Catalog, table: seq<Device>, restored: map<string, Context>, a: string)
    ensures var r := Discover(c, table, restored);
      && (Lists(table, "SimpleThermostat", a) ==> a in r.thermostats && r.thermostats[a] == SeededFor(a, restored))
      && (!Lists(table, "SimpleThermostat", a) && a in c.thermostats ==> a in r.thermostats && r.thermostats[a] == c.thermostats[a])
    decreases |table|
  {
    if table != [] {
      DiscoverSeeds(c, table[..|table| - 1], restored, a);
      ListsSnoc(table, "SimpleThermostat", a);
    }
  }

  /** The last device of the table decides the last step of `thermostat_map`. */
  lemma DiscoverMapStep(c: Catalog, table: seq<Device>, restored: map<string, Context>)
    requires table != []
    ensures Discover(c, table, restored).thermostatMap
         == MapOne(Discover(c, table[..|table| - 1], restored).thermostatMap, table[|table| - 1])
  {
  }

  /** Some thermostat of `table` carries the measurement key `k`. */
  predicate Carries(table: seq<Device>, k: string)
    decreases |table|
  {
    table != [] && (Carries(table[..|table| - 1], k) || KeyedBy(table[|table| - 1], k))
  }

  /**
   * `thermostat_map` after discovery holds a key exactly when it held it before or some
   * thermostat of the lighting table carries it.
   */
  lemma {:induction false} DiscoverMapKeys(c: Catalog, table: seq<Device>, restored: map<string, Context>, k: string)
    ensures k in Discover(c, table, restored).thermostatMap <==> k in c.thermostatMap || Carries(table, k)
    decreases |table|
  {
    if table != [] {
      var init := table[..|table| - 1];
      DiscoverMapKeys(c, init, restored, k);
      DiscoverMapStep(c, table, restored);
      MapOneAt(Discover(c, init, restored).thermostatMap, table[|table| - 1], k);
    }
  }

  /** The thermostat that carries a key last in the lighting table is the one `thermostat_map` names. */
  lemma {:induction false} DiscoverMapLast(c: Catalog, table: seq<Device>, restored: map<string, Context>, k: string, i: nat)
    requires i < |table| && KeyedBy(table[i], k)
    requires forall j :: i < j < |table| ==> !KeyedBy(table[j], k)
    ensures var r := Discover(c, table, restored);
      k in r.thermostatMap && r.thermostatMap[k] == table[i].address
    decreases |table|
  {
    var init := table[..|table| - 1];
    DiscoverMapStep(c, table, restored);
    MapOneAt(Discover(c, init, restored).thermostatMap, table[|table| - 1], k);
    if i < |table| - 1 {
      assert !KeyedBy(table[|table| - 1], k);
      DiscoverMapLast(c, init, restored, k, i);
    }
  }

  /** A key no thermostat of the lighting table carries keeps its entry, or its absence. */
  lemma {:induction false} DiscoverMapKept(c: Catalog, table: seq<Device>, restored: map<string, Context>, k: string)
    requires forall j :: 0 <= j < |table| ==> !KeyedBy(table[j], k)
    ensures var r := Discover(c, table, restored);
      (k in r.thermostatMap <==> k in c.thermostatMap)
      && (k in c.thermostatMap ==> r.thermostatMap[k] == c.thermostatMap[k])
    decreases |table|
  {
    if table != [] {
      var init := table[..|table| - 1];
      assert !KeyedBy(table[|table| - 1], k);
      DiscoverMapKept(c, init, restored, k);
      DiscoverMapStep(c, table, restored);
      MapOneAt(Discover(c, init, restored).thermostatMap, table[|table| - 1], k);
    }
  }
}
