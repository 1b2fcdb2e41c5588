/**
 * The admin script registry (resources/js/admin/core/Registry.js): module
 * data registered per route, routes handed to a router, and module
 * instances created when a route fires. The router and the module
 * callbacks are outside code; the calls made to them are recorded.
 */
module AdminRegistry {
  import opened Wrappers
  import opened OrderedMaps

  /** A module constructor, known by its function name. */
  datatype ModuleConstructor = ModuleConstructor(name: string)

  /** A callback passed with module data. */
  datatype Callback = Callback(id: nat)

  /** The options object a module is constructed with. */
  type Options = map<string, string>

  /** Module data: the constructor, its options and an optional callback. */
  datatype ModuleData = ModuleData(ctor: ModuleConstructor, options: Options, callback: Option<Callback>)

  /** A module instance; `serial` tells apart the objects of successive `new` calls. */
  datatype ModuleInstance = ModuleInstance(constructorName: string, options: Options, serial: nat)

  /**
   * A call `router.route( pattern, name, callback )` made for a route. The
   * callback holds the route's own array `this.data[ name ]`, which
   * `registerModuleForRoute` only ever pushes onto: when the router fires
   * it, it creates the modules that array holds at that moment.
   */
  datatype RouteCall = RouteCall(pattern: string, name: string)

  /** The instance created for module data `d` as the `serial`-th object. */
  function Instantiate(d: ModuleData, serial: nat): (m: ModuleInstance)
    ensures m.constructorName == d.ctor.name && m.options == d.options && m.serial == serial
  {
    ModuleInstance(d.ctor.name, d.options, serial)
  }

  /** The route map after registering `entry` for `route`. */
  function Registered(data: OrderedMap<string, seq<ModuleData>>, entry: ModuleData, route: string): (r: OrderedMap<string, seq<ModuleData>>)
    requires data.Valid()
    ensures r.Valid()
    ensures r.Get(route) == Some(data.Get(route).GetOr([]) + [entry])
    ensures forall other :: other != route ==> r.Get(other) == data.Get(other)
    ensures r.keys == if route in data.values then data.keys else data.keys + [route]
  {
    var withRoute := if route in data.values then data else data.Put(route, []);
    withRoute.Put(route, withRoute.values[route] + [entry])
  }

  /** The callback invocation `createModule( d )` makes, if any, for the `serial`-th object. */
  function CallbackCall(d: ModuleData, serial: nat): seq<(Callback, ModuleInstance)> {
    if d.callback.Some? then [(d.callback.value, Instantiate(d, serial))] else []
  }

  /** The callback invocations `createModules` makes, objects numbered from `start`. */
  function CallbackCalls(ds: seq<ModuleData>, start: nat): (r: seq<(Callback, ModuleInstance)>)
    ensures |r| <= |ds|
    decreases |ds|
  {
    if ds == [] then []
    else
      var n := |ds| - 1;
      CallbackCalls(ds[..n], start) + CallbackCall(ds[n], start + n)
  }

  /** The router calls `initializeRoutes` makes: one per route, in the order of the route map. */
  function RouteCalls(data: OrderedMap<string, seq<ModuleData>>): (r: seq<RouteCall>)
    requires data.Valid()
    ensures |r| == |data.keys|
    ensures forall i :: 0 <= i < |r| ==> r[i].pattern == data.keys[i] && r[i].name == data.keys[i]
  {
    seq(|data.keys|, i requires 0 <= i < |data.keys| => RouteCall(data.keys[i], data.keys[i]))
  }

  /** The instances stored after `createModules( ds )`, objects numbered from `start`. */
  function Created(modules: map<string, ModuleInstance>, ds: seq<ModuleData>, start: nat): (r: map<string, ModuleInstance>)
    ensures modules.Keys <= r.Keys
    ensures forall name :: name in r && name !in modules ==> exists i :: 0 <= i < |ds| && ds[i].ctor.name == name
    decreases |ds|
  {
    if ds == [] then modules
    else
      var n := |ds| - 1;
      Created(modules, ds[..n], start)[ds[n].ctor.name := Instantiate(ds[n], start + n)]
  }

  /** Creating one more module calls its callback, if any, after those of the modules before it. */
  lemma {:induction false} CallbackStep(ds: seq<ModuleData>, start: nat, i: nat)
    requires i < |ds|
    ensures CallbackCalls(ds[..i + 1], start) == CallbackCalls(ds[..i], start) + CallbackCall(ds[i], start + i)
  {
    assert ds[..i + 1][..i] == ds[..i];
  }

  /**
   * `createModules( ds )` calls exactly the callbacks present in `ds`, each
   * with the instance created for its module data.
   */
  lemma {:induction false} CallbackCallsExactly(ds: seq<ModuleData>, start: nat)
    ensures forall c :: c in CallbackCalls(ds, start) ==>
      exists i :: 0 <= i < |ds| && ds[i].callback == Some(c.0) && c.1 == Instantiate(ds[i], start + i)
    ensures forall i :: 0 <= i < |ds| && ds[i].callback.Some? ==>
      (ds[i].callback.value, Instantiate(ds[i], start + i)) in CallbackCalls(ds, start)
    decreases |ds|
  {
    if ds != [] {
      var n := |ds| - 1;
      CallbackCallsExactly(ds[..n], start);
      forall c | c in CallbackCalls(ds, start)
        ensures exists i :: 0 <= i < |ds| && ds[i].callback == Some(c.0) && c.1 == Instantiate(ds[i], start + i)
      {
        if c in CallbackCalls(ds[..n], start) {
          var i :| 0 <= i < n && ds[..n][i].callback == Some(c.0) && c.1 == Instantiate(ds[..n][i], start + i);
          assert ds[i] == ds[..n][i];
        } else {
          assert ds[n].callback == Some(c.0) && c.1 == Instantiate(ds[n], start + n);
        }
      }
      forall i | 0 <= i < |ds| && ds[i].callback.Some?
        ensures (ds[i].callback.value, Instantiate(ds[i], start + i)) in CallbackCalls(ds, start)
      {
        if i < n {
          assert ds[..n][i] == ds[i];
        }
      }
    }
  }

  /** Some module data in `ds` carries constructor name `name`. */
  ghost predicate Names(ds: seq<ModuleData>, name: string) {
    exists i :: 0 <= i < |ds| && ds[i].ctor.name == name
  }

  /** One more module data stores its instance over those before it. */
  lemma {:induction false} CreatedStep(modules: map<string, ModuleInstance>, ds: seq<ModuleData>, start: nat, i: nat)
    requires i < |ds|
    ensures Created(modules, ds[..i + 1], start) == Created(modules, ds[..i], start)[ds[i].ctor.name := Instantiate(ds[i], start + i)]
  {
    assert ds[..i + 1][..i] == ds[..i];
  }

  /** `createModules( ds )` stores exactly the earlier names and the names in `ds`. */
  lemma {:induction false} CreatedNames(modules: map<string, ModuleInstance>, ds: seq<ModuleData>, start: nat)
    ensures forall name :: name in Created(modules, ds, start) <==> name in modules || Names(ds, name)
    decreases |ds|
  {
    if ds != [] {
      var n := |ds| - 1;
      CreatedNames(modules, ds[..n], start);
      forall name ensures Names(ds, name) <==> Names(ds[..n], name) || ds[n].ctor.name == name {
        if Names(ds[..n], name) {
          var i :| 0 <= i < n && ds[..n][i].ctor.name == name;
          assert ds[i] == ds[..n][i];
        }
        if Names(ds, name) && ds[n].ctor.name != name {
          var i :| 0 <= i < |ds| && ds[i].ctor.name == name;
          assert ds[..n][i] == ds[i];
        }
      }
    }
  }

  /**
   * After `createModules( ds )` the instance stored under a name is the one
   * created for the last module data of that name.
   */
  lemma {:induction false} CreatedLastWins(modules: map<string, ModuleInstance>, ds: seq<ModuleData>, start: nat, i: nat)
    requires i < |ds|
    requires forall j :: i < j < |ds| ==> ds[j].ctor.name != ds[i].ctor.name
    ensures ds[i].ctor.name in Created(modules, ds, start)
    ensures Created(modules, ds, start)[ds[i].ctor.name] == Instantiate(ds[i], start + i)
    decreases |ds|
  {
    var n := |ds| - 1;
    if i < n {
      assert ds[..n][i] == ds[i];
      forall j | i < j < n ensures ds[..n][j].ctor.name != ds[..n][i].ctor.name {
        assert ds[..n][j] == ds[j];
      }
      CreatedLastWins(modules, ds[..n], start, i);
    }
  }

  /** `createModules( ds )` keeps whatever is, or is not, stored under a name none of `ds` carries. */
  lemma {:induction false} CreatedKeepsOthers(modules: map<string, ModuleInstance>, ds: seq<ModuleData>, start: nat, name: string)
    requires !Names(ds, name)
    ensures name in Created(modules, ds, start) <==> name in modules
    ensures name in modules ==> Created(modules, ds, start)[name] == modules[name]
    decreases |ds|
  {
    if ds != [] {
      var n := |ds| - 1;
      forall i | 0 <= i < n ensures ds[..n][i].ctor.name != name {
        assert ds[..n][i] == ds[i];
      }
      assert ds[n].ctor.name != name;
      CreatedKeepsOthers(modules, ds[..n], start, name);
    }
  }

  /** `Registry`: the route map, the instances, and the calls made to the router and to callbacks. */
  class Registry {
    var data: OrderedMap<string, seq<ModuleData>>
    var modules: map<string, ModuleInstance>
    /** How many module objects have been created so far. */
    var constructed: nat
    var callbackCalls: seq<(Callback, ModuleInstance)>
    var routerCalls: seq<RouteCall>

    ghost predicate Valid()
      reads this
    {
      data.Valid()
    }

    constructor ()
      ensures Valid()
      ensures data == Empty() && modules == map[] && constructed == 0
      ensures callbackCalls == [] && routerCalls == []
    {
      data := Empty();
      modules := map[];
      constructed := 0;
      callbackCalls := [];
      routerCalls := [];
    }

    /** `createModule`: create the instance, store it under its constructor's name, and call the callback if any. */
    method CreateModule(d: ModuleData)
      modifies this`modules, this`constructed, this`callbackCalls
      ensures modules == old(modules)[d.ctor.name := Instantiate(d, old(constructed))]
      ensures constructed == old(constructed) + 1
      ensures callbackCalls == old(callbackCalls) + CallbackCall(d, old(constructed))
    {
      var instance := Instantiate(d, constructed);
      constructed := constructed + 1;
      modules := modules[d.ctor.name := instance];
      if d.callback.Some? {
        callbackCalls := callbackCalls + [(d.callback.value, instance)];
      }
    }

    /** `createModules`: create the modules in list order. */
    method CreateModules(ds: seq<ModuleData>)
      modifies this`modules, this`constructed, this`callbackCalls
      ensures modules == Created(old(modules), ds, old(constructed))
      ensures constructed == old(constructed) + |ds|
      ensures callbackCalls == old(callbackCalls) + CallbackCalls(ds, old(constructed))
    {
      ghost var modules0, constructed0, calls0 := modules, constructed, callbackCalls;
      for i := 0 to |ds|
        invariant modules == Created(modules0, ds[..i], constructed0)
        invariant constructed == constructed0 + i
        invariant callbackCalls == calls0 + CallbackCalls(ds[..i], constructed0)
      {
        CreatedStep(modules0, ds, constructed0, i);
        CallbackStep(ds, constructed0, i);
        ghost var made := CallbackCalls(ds[..i], constructed0);
        assert (calls0 + made) + CallbackCall(ds[i], constructed0 + i) == calls0 + (made + CallbackCall(ds[i], constructed0 + i));
        CreateModule(ds[i]);
      }
      assert ds[..|ds|] == ds;
    }

    /**
     * `initializeRoute` for a registered route: hand the route to the
     * router, the route string serving as pattern and name.
     */
    method InitializeRoute(route: string)
      modifies this`routerCalls
      ensures routerCalls == old(routerCalls) + [RouteCall(route, route)]
    {
      routerCalls := routerCalls + [RouteCall(route, route)];
    }

    /** `initializeRoutes`: one router call per registered route, then the instances created so far. */
    method InitializeRoutes() returns (r: map<string, ModuleInstance>)
      requires Valid()
      modifies this`routerCalls
      ensures routerCalls == old(routerCalls) + RouteCalls(data)
      ensures r == modules
    {
      for i := 0 to |data.keys|
        invariant routerCalls == old(routerCalls) + RouteCalls(data)[..i]
      {
        assert RouteCalls(data)[..i + 1] == RouteCalls(data)[..i] + [RouteCall(data.keys[i], data.keys[i])];
        InitializeRoute(data.keys[i]);
      }
      assert RouteCalls(data)[..|data.keys|] == RouteCalls(data);
      r := modules;
    }

    /**
     * The router firing the callback it was handed for `route`: the
     * modules of the route's list as it stands now, including any
     * registered after `initializeRoutes`, are created.
     */
    method FireRoute(route: string)
      requires RouteCall(route, route) in routerCalls && route in data.values
      modifies this`modules, this`constructed, this`callbackCalls
      ensures modules == Created(old(modules), data.values[route], old(constructed))
      ensures constructed == old(constructed) + |data.values[route]|
      ensures callbackCalls == old(callbackCalls) + CallbackCalls(data.values[route], old(constructed))
    {
      CreateModules(data.values[route]);
    }

    /** `registerModuleForRoute`: start an empty list for an unseen route, then append the module data. */
    method RegisterModuleForRoute(entry: ModuleData, route: string)
      requires Valid()
      modifies this`data
      ensures Valid()
      ensures data == Registered(old(data), entry, route)
    {
      if route !in data.values {
        data := data.Put(route, []);
      }
      data := data.Put(route, data.values[route] + [entry]);
    }
  }

  /** Registering `a` for `edit` and `c` for `settings` lists the two routes in that order. */
  method RegisterTwoRoutes(a: ModuleData, c: ModuleData) returns (registry: Registry)
    ensures fresh(registry) && registry.Valid()
    ensures registry.data.keys == ["edit", "settings"] && "edit" in registry.data.values && registry.data.values["edit"] == [a]
    ensures registry.modules == map[] && registry.constructed == 0 && registry.routerCalls == []
  {
    registry := new Registry();
    registry.RegisterModuleForRoute(a, "edit");
    registry.RegisterModuleForRoute(c, "settings");
  }

  /**
   * Registering a module for one route and one for another, then
   * initializing the routes, creates no module and makes one router call
   * per route in registration order. A module registered for the first
   * route afterwards is still created when that route fires.
   */
  method RegisterInitializeThenFire(a: ModuleData, b: ModuleData, c: ModuleData)
    returns (instances: map<string, ModuleInstance>, calls: seq<RouteCall>, fired: map<string, ModuleInstance>)
    ensures instances == map[]
    ensures calls == [RouteCall("edit", "edit"), RouteCall("settings", "settings")]
    ensures fired == map[a.ctor.name := Instantiate(a, 0)][b.ctor.name := Instantiate(b, 1)]
  {
    var registry := RegisterTwoRoutes(a, c);
    instances := registry.InitializeRoutes();
    calls := registry.routerCalls;
    assert |calls| == 2 && calls[0] == RouteCall("edit", "edit") && calls[1] == RouteCall("settings", "settings");
    registry.RegisterModuleForRoute(b, "edit");
    assert registry.data.values["edit"] == [a, b];
    registry.FireRoute("edit");
    assert [a, b][..1] == [a] && [a][..0] == [];
    fired := registry.modules;
  }
}
