/** Acquiring a device for a job, step by step, and undoing whatever was done. */
module DeviceProviders {
  import opened Options
  import opened Docker

  datatype Context = Context(job: JobId, account: string, now: int, names: Names)

  /** Which parts a device needs: a camera feed, an egress gateway, a second network; and the
      networks that the device, or its gateway, and the bridge join. */
  datatype Config = Config(camera: bool, proxy: bool, controlNetwork: bool, pool: seq<Index>,
                           network: Option<string>, cameraNetwork: Option<string>)

  /** Which of the fallible steps work this time. */
  datatype Luck = Luck(
    list: bool,              // docker ps for the account
    volume: bool,
    publisher: bool,         // the operator grants the camera
    bridgeRun: bool,
    bridgeSettles: bool,
    gatewayRun: bool,
    gatewaySettles: bool,
    connects: bool,
    deviceRun: bool,
    serial: bool,
    usable: bool,
    pinned: bool,
    installed: bool)

  datatype AcquireError =
    | ConcurrentRun | ListFailed | VolumeFailed | NoPublisher | NoCamera | BridgeFailed | GatewayFailed | DeviceFailed

  /** Refusals that come before anything is touched. */
  predicate Early(e: AcquireError) {
    e.ListFailed? || e.ConcurrentRun? || e.VolumeFailed?
  }

  function Labelled(c: Context, role: Role, camera: Option<Index>, network: Network): Container {
    Container(true, Some(c.job), Some(c.account), Some(role), Some(c.now), camera, network)
  }

  /** A container of this job, with what the sweep and the account check will read on it. */
  ghost predicate IsOurs(c: Context, containers: Containers, name: Name, role: Role) {
    && name in containers
    && var it := containers[name];
    && it.owned && it.job == Some(c.job) && it.account == Some(c.account) && it.role == Some(role)
    && it.createdAt == Some(c.now)
  }

  /** The device carries the camera's index and lives in the gateway, if there is one, which
      therefore cannot be removed while it stands. */
  ghost predicate IsPinned(c: Context, containers: Containers, config: Config, camera: Option<Index>) {
    && IsOurs(c, containers, c.names.device, DeviceRole) && containers[c.names.device].camera == camera
    && (!config.proxy ==> containers[c.names.device].network == Joined(config.network))
    && (config.proxy ==>
          && containers[c.names.device].network == InsideOf(c.names.gateway)
          && IsOurs(c, containers, c.names.gateway, GatewayRole) && containers[c.names.gateway].camera.None?
          && containers[c.names.gateway].network == Joined(config.network)
          && Borrowed(containers, c.names.gateway))
  }

  ghost predicate IsBridged(c: Context, containers: Containers, config: Config, camera: Option<Index>) {
    && IsOurs(c, containers, c.names.bridge, CameraRole) && containers[c.names.bridge].camera == camera
    && containers[c.names.bridge].network == Joined(config.cameraNetwork)
  }

  /** Nothing but the job's own device is inside its gateway, and nothing is inside the
      device or the bridge. */
  ghost predicate NamespacesOwn(containers: Containers, names: Names) {
    forall n :: n in containers ==>
      && (containers[n].network == InsideOf(names.gateway) ==> n == names.device)
      && containers[n].network != InsideOf(names.device)
      && containers[n].network != InsideOf(names.bridge)
  }

  function OwnNames(names: Names): set<Name> {
    {names.device, names.gateway, names.bridge}
  }

  /** Everything outside the job's own names is as it was. */
  ghost predicate OthersUntouched(before: Containers, after: Containers, own: set<Name>) {
    before - own == after - own
  }

  ghost predicate NoRefusalSince(before: seq<Event>, after: seq<Event>) {
    && before <= after
    && forall i :: |before| <= i < |after| ==> !after[i].Refused?
  }

  /** A camera goes back to the pool only when the containers that had it open are gone. */
  ghost predicate FreedLast(before: seq<Event>, after: seq<Event>, gone: set<Name>) {
    && before <= after
    && forall i :: |before| <= i < |after| && after[i].CameraFreed? ==> after[i].remaining.Keys !! gone
  }

  ghost predicate NothingFreed(before: seq<Event>, after: seq<Event>) {
    && before <= after
    && forall i :: |before| <= i < |after| ==> !after[i].CameraFreed?
  }

  lemma Chain(a: seq<Event>, b: seq<Event>, c: seq<Event>)
    requires a <= b && b <= c
    ensures NoRefusalSince(a, b) && NoRefusalSince(b, c) ==> NoRefusalSince(a, c)
    ensures NothingFreed(a, b) && NothingFreed(b, c) ==> NothingFreed(a, c)
    ensures forall gone :: NothingFreed(a, b) && FreedLast(b, c, gone) ==> FreedLast(a, c, gone)
  {
    assert forall i :: 0 <= i < |b| ==> b[i] == c[i];
  }

  // ----- the two containers that clean up after themselves -----

  /** A gateway that starts but does not stay up is removed again. */
  method StartProxyGateway(host: Host, c: Context, config: Config, luck: Luck) returns (ok: bool)
    modifies host`containers, host`events
    ensures host.leases == old(host.leases)
    ensures OthersUntouched(old(host.containers), host.containers, {c.names.gateway})
    ensures NothingFreed(old(host.events), host.events)
    ensures ok ==> host.containers == (old(host.containers) - {c.names.gateway})[
                     c.names.gateway := Labelled(c, GatewayRole, None, Joined(config.network))]
    ensures host.wedged == {} && !Borrowed(old(host.containers), c.names.gateway) ==>
              && (ok <==> luck.gatewayRun && luck.gatewaySettles && (config.controlNetwork ==> luck.connects))
              && (!ok ==> host.containers == old(host.containers) - {c.names.gateway})
              && NoRefusalSince(old(host.events), host.events)
  {
    var name := c.names.gateway;
    var container := Labelled(c, GatewayRole, None, Joined(config.network));
    var _ := host.Remove(name);
    ok := host.Run(name, container, luck.gatewayRun);
    if !ok {
      return;
    }
    assert old(host.containers) - {name} == host.containers - {name};
    if !luck.gatewaySettles || (config.controlNetwork && !luck.connects) {
      assert !Borrowed(old(host.containers), name) ==> !Borrowed(host.containers, name);
      var _ := host.Remove(name);
      ok := false;
    }
  }

  /** And so is a camera bridge. */
  method StartCameraBridge(host: Host, c: Context, config: Config, index: Index, luck: Luck) returns (ok: bool)
    modifies host`containers, host`events
    ensures host.leases == old(host.leases)
    ensures OthersUntouched(old(host.containers), host.containers, {c.names.bridge})
    ensures NothingFreed(old(host.events), host.events)
    ensures ok ==> host.containers == (old(host.containers) - {c.names.bridge})[
                     c.names.bridge := Labelled(c, CameraRole, Some(index), Joined(config.cameraNetwork))]
    ensures host.wedged == {} && !Borrowed(old(host.containers), c.names.bridge) ==>
              && (ok <==> luck.bridgeRun && luck.bridgeSettles)
              && (!ok ==> host.containers == old(host.containers) - {c.names.bridge})
              && NoRefusalSince(old(host.events), host.events)
  {
    var name := c.names.bridge;
    var container := Labelled(c, CameraRole, Some(index), Joined(config.cameraNetwork));
    var _ := host.Remove(name);
    ok := host.Run(name, container, luck.bridgeRun);
    if !ok {
      return;
    }
    assert old(host.containers) - {name} == host.containers - {name};
    if !luck.bridgeSettles {
      assert !Borrowed(old(host.containers), name) ==> !Borrowed(host.containers, name);
      var _ := host.Remove(name);
      ok := false;
    }
  }

  // ----- what an acquisition holds, and giving it back -----

  /** One removal of a teardown; a failure is left to the reaper. */
  method TryRemove(host: Host, name: Name, wanted: bool)
    modifies host`containers, host`events
    ensures OthersUntouched(old(host.containers), host.containers, {name})
    ensures host.containers.Keys <= old(host.containers).Keys
    ensures NothingFreed(old(host.events), host.events)
    ensures host.wedged == {} && !Borrowed(old(host.containers), name) ==>
              && host.containers == old(host.containers) - (if wanted then {name} else {})
              && NoRefusalSince(old(host.events), host.events)
  {
    if wanted {
      var _ := host.Remove(name);
    }
  }

  class Acquisition {
    const c: Context
    var camera: Option<Index>
    var bridge: bool
    var gateway: bool

    constructor (c: Context)
      ensures this.c == c && camera == None && !bridge && !gateway
    {
      this.c := c;
      camera, bridge, gateway := None, false, false;
    }

    /** The names a teardown removes. */
    function Held(): set<Name>
      reads this
    {
      {c.names.device} + (if bridge then {c.names.bridge} else {}) + (if gateway then {c.names.gateway} else {})
    }

    /** Device, bridge, camera, gateway: the device lets go of the camera and of the
        namespace before either is given up. Safe to run again. */
    method Teardown(host: Host)
      requires Apart(c.names)
      modifies host`containers, host`leases, host`events
      ensures OthersUntouched(old(host.containers), host.containers, OwnNames(c.names))
      ensures host.leases == if camera.Some? && camera.value in old(host.leases)
                                && old(host.leases)[camera.value] == c.job
                             then old(host.leases) - {camera.value} else old(host.leases)
      ensures old(host.events) <= host.events
      ensures host.wedged == {} && NamespacesOwn(old(host.containers), c.names) ==>
                && host.containers == old(host.containers) - Held()
                && NoRefusalSince(old(host.events), host.events)
                && (camera.None? || bridge || c.names.bridge !in old(host.containers) ==>
                      FreedLast(old(host.events), host.events, {c.names.device, c.names.bridge}))
    {
      TryRemove(host, c.names.device, true);
      ghost var c1 := host.containers;
      TryRemove(host, c.names.bridge, bridge);
      ghost var c2 := host.containers;
      if camera.Some? {
        host.FreeCamera(camera.value, c.job);
      }
      TryRemove(host, c.names.gateway, gateway);
      Shrinks(old(host.containers), c1, c2, host.containers, c.names);
    }

    static lemma Shrinks(a: Containers, b: Containers, d: Containers, e: Containers, names: Names)
      requires a - {names.device} == b - {names.device} && b - {names.bridge} == d - {names.bridge}
      requires d - {names.gateway} == e - {names.gateway}
      ensures OthersUntouched(a, e, OwnNames(names))
    {
      var own := OwnNames(names);
      assert a - own == (a - {names.device}) - own && b - own == (b - {names.device}) - own;
      assert b - own == (b - {names.bridge}) - own && d - own == (d - {names.bridge}) - own;
      assert d - own == (d - {names.gateway}) - own && e - own == (e - {names.gateway}) - own;
    }
  }
}

/** The emulator provider: a camera feed, a gateway and a device, in that order. */
module EmulatorProvider {
  import opened Options
  import opened Docker
  import opened DeviceProviders

  ghost predicate CameraLent(config: Config, luck: Luck, leases: map<Index, JobId>) {
    config.camera ==> luck.publisher && FreeIndex(config.pool, leases) && luck.bridgeRun && luck.bridgeSettles
  }

  ghost predicate FreeIndex(pool: seq<Index>, leases: map<Index, JobId>) {
    exists i :: i in pool && i !in leases
  }

  ghost predicate GatewayUp(config: Config, luck: Luck) {
    config.proxy ==> luck.gatewayRun && luck.gatewaySettles && (config.controlNetwork ==> luck.connects)
  }

  ghost predicate DeviceUp(config: Config, luck: Luck) {
    luck.deviceRun && luck.serial && luck.usable && (config.proxy ==> luck.pinned) && luck.installed
  }

  /** The names an attempt gets as far as starting, and so clears of what was there. */
  ghost function Touched(names: Names, config: Config, luck: Luck, leases: map<Index, JobId>): set<Name> {
    {names.device}
    + (if config.camera && luck.publisher && FreeIndex(config.pool, leases) then {names.bridge} else {})
    + (if config.proxy && CameraLent(config, luck, leases) then {names.gateway} else {})
  }

  ghost predicate LeaseHeld(a: Acquisition, host: Host, leases: map<Index, JobId>)
    reads a, host
  {
    if a.camera.None? then host.leases == leases
    else a.camera.value !in leases && host.leases == leases[a.camera.value := a.c.job]
  }

  ghost predicate Healthy(host: Host, names: Names)
    reads host
  {
    host.wedged == {} && NamespacesOwn(host.containers, names)
  }

  /** Ask for the camera before anything is leased or started. */
  method LendCamera(host: Host, a: Acquisition, config: Config, luck: Luck) returns (error: Option<AcquireError>)
    requires Apart(a.c.names) && a.camera == None && !a.bridge && !a.gateway
    modifies host`containers, host`leases, host`events, a`camera, a`bridge
    ensures OthersUntouched(old(host.containers), host.containers, {a.c.names.bridge})
    ensures LeaseHeld(a, host, old(host.leases))
    ensures NothingFreed(old(host.events), host.events)
    ensures error.Some? ==> error.value in {NoPublisher, NoCamera, BridgeFailed}
    ensures a.bridge ==> IsBridged(a.c, host.containers, config, a.camera)
    ensures error.None? ==> (a.camera.Some? <==> config.camera) && (a.bridge <==> config.camera)
    ensures old(Healthy(host, a.c.names)) ==>
              && (error.None? <==> CameraLent(config, luck, old(host.leases)))
              && NoRefusalSince(old(host.events), host.events)
              && Healthy(host, a.c.names)
              && host.containers - (if a.bridge then {a.c.names.bridge} else {}) ==
                 old(host.containers) - (if config.camera && luck.publisher && FreeIndex(config.pool, old(host.leases))
                                         then {a.c.names.bridge} else {})
              && (a.camera.Some? ==> a.bridge || a.c.names.bridge !in host.containers)
  {
    if !config.camera {
      return None;
    }
    if !luck.publisher {
      return Some(NoPublisher);
    }
    var leased := host.LeaseCamera(config.pool, a.c.job);
    a.camera := leased;
    if leased.None? {
      assert !FreeIndex(config.pool, old(host.leases));
      return Some(NoCamera);
    }
    assert FreeIndex(config.pool, old(host.leases));
    var ok := StartCameraBridge(host, a.c, config, leased.value, luck);
    a.bridge := ok;
    return if ok then None else Some(BridgeFailed);
  }

  method StartGatewayIfProxied(host: Host, a: Acquisition, config: Config, luck: Luck)
      returns (error: Option<AcquireError>)
    requires Apart(a.c.names) && !a.gateway
    modifies host`containers, host`events, a`gateway
    ensures OthersUntouched(old(host.containers), host.containers, {a.c.names.gateway})
    ensures host.leases == old(host.leases) && NothingFreed(old(host.events), host.events)
    ensures error.Some? ==> error.value == GatewayFailed && config.proxy && !a.gateway
    ensures error.None? ==> (a.gateway <==> config.proxy)
    ensures a.gateway ==> host.containers == (old(host.containers) - {a.c.names.gateway})[
                            a.c.names.gateway := Labelled(a.c, GatewayRole, None, Joined(config.network))]
    ensures old(Healthy(host, a.c.names)) && a.c.names.device !in old(host.containers) ==>
              && (error.None? <==> GatewayUp(config, luck))
              && NoRefusalSince(old(host.events), host.events)
              && Healthy(host, a.c.names)
              && host.containers - (if a.gateway then {a.c.names.gateway} else {}) ==
                 old(host.containers) - (if config.proxy then {a.c.names.gateway} else {})
  {
    if !config.proxy {
      return None;
    }
    var ok := StartProxyGateway(host, a.c, config, luck);
    a.gateway := ok;
    return if ok then None else Some(GatewayFailed);
  }

  function DeviceContainer(c: Context, config: Config, camera: Option<Index>, proxied: bool): Container {
    Labelled(c, DeviceRole, camera, if proxied then InsideOf(c.names.gateway) else Joined(config.network))
  }

  method StartDevice(host: Host, a: Acquisition, config: Config, luck: Luck) returns (error: Option<AcquireError>)
    requires Apart(a.c.names)
    modifies host`containers, host`events
    ensures OthersUntouched(old(host.containers), host.containers, {a.c.names.device})
    ensures host.leases == old(host.leases) && NothingFreed(old(host.events), host.events)
    ensures error.None? || error.value == DeviceFailed
    ensures error.None? ==> host.containers == old(host.containers)[
                              a.c.names.device := DeviceContainer(a.c, config, a.camera, a.gateway)]
    ensures old(Healthy(host, a.c.names) && a.c.names.device !in host.containers) && (config.proxy <==> a.gateway) ==>
              && (error.None? <==> DeviceUp(config, luck))
              && NoRefusalSince(old(host.events), host.events)
              && Healthy(host, a.c.names)
              && host.containers - {a.c.names.device} == old(host.containers)
  {
    var container := DeviceContainer(a.c, config, a.camera, a.gateway);
    var ok := host.Run(a.c.names.device, container, luck.deviceRun);
    if !ok || !luck.serial || !luck.usable || (a.gateway && !luck.pinned) || !luck.installed {
      return Some(DeviceFailed);
    }
    return None;
  }

  /** Someone else's run of the account: two would share one session volume. */
  ghost predicate Concurrent(containers: Containers, c: Context) {
    exists n :: n in containers && containers[n].account == Some(c.account) && containers[n].job != Some(c.job)
  }

  ghost predicate AllWell(config: Config, luck: Luck, leases: map<Index, JobId>) {
    CameraLent(config, luck, leases) && GatewayUp(config, luck) && DeviceUp(config, luck)
  }

  /** The steps inside the try block, in order, stopping at the first that fails. */
  method BringUp(host: Host, a: Acquisition, config: Config, luck: Luck) returns (error: Option<AcquireError>)
    requires Apart(a.c.names) && a.camera == None && !a.bridge && !a.gateway
    modifies host`containers, host`leases, host`events, a`camera, a`bridge, a`gateway
    ensures OthersUntouched(old(host.containers), host.containers, OwnNames(a.c.names))
    ensures LeaseHeld(a, host, old(host.leases)) && NothingFreed(old(host.events), host.events)
    ensures error.Some? ==> !Early(error.value)
    ensures error.None? ==> Ready(a, host, config)
    ensures old(Healthy(host, a.c.names)) && a.c.names.device !in old(host.containers) ==>
              && (error.None? <==> AllWell(config, luck, old(host.leases)))
              && NoRefusalSince(old(host.events), host.events)
              && Healthy(host, a.c.names)
              && (a.camera.Some? ==> a.bridge || a.c.names.bridge !in host.containers)
              && host.containers - a.Held() ==
                 old(host.containers) - Touched(a.c.names, config, luck, old(host.leases))
  {
    ghost var c0, e0, l0 := host.containers, host.events, host.leases;
    ghost var names := a.c.names;
    ghost var lent := config.camera && luck.publisher && FreeIndex(config.pool, l0);
    error := LendCamera(host, a, config, luck);
    ghost var c1, e1 := host.containers, host.events;
    Narrow(c0, c1, names.bridge, names);
    Outside(c0, c1, names.bridge, names.device);
    if error.Some? {
      Through(c0, c1, c1, names, lent, a.bridge, false, false);
      return;
    }
    error := GatewayAndDevice(host, a, config, luck);
    Chain(e0, e1, host.events);
    Through(c0, c1, host.containers, names, lent, a.bridge, config.proxy, a.gateway);
  }

  /** The namespace before the device that is put inside it. */
  method GatewayAndDevice(host: Host, a: Acquisition, config: Config, luck: Luck) returns (error: Option<AcquireError>)
    requires Apart(a.c.names) && !a.gateway
    modifies host`containers, host`events, a`gateway
    ensures OthersUntouched(old(host.containers), host.containers, OwnNames(a.c.names))
    ensures SameAt(old(host.containers), host.containers, a.c.names.bridge)
    ensures error.Some? ==> error.value in {GatewayFailed, DeviceFailed}
    ensures error.None? ==> (a.gateway <==> config.proxy) && IsPinned(a.c, host.containers, config, a.camera)
    ensures error == Some(GatewayFailed) ==>
              !a.gateway && (a.c.names.device in host.containers <==> a.c.names.device in old(host.containers))
    ensures host.leases == old(host.leases) && NothingFreed(old(host.events), host.events)
    ensures old(Healthy(host, a.c.names)) && a.c.names.device !in old(host.containers) ==>
              && (error.None? <==> GatewayUp(config, luck) && DeviceUp(config, luck))
              && NoRefusalSince(old(host.events), host.events)
              && Healthy(host, a.c.names)
              && host.containers - ({a.c.names.device} + Only(a.c.names.gateway, a.gateway)) ==
                 old(host.containers) - ({a.c.names.device} + Only(a.c.names.gateway, config.proxy))
  {
    ghost var c0, e0 := host.containers, host.events;
    ghost var names := a.c.names;
    error := StartGatewayIfProxied(host, a, config, luck);
    ghost var c1, e1 := host.containers, host.events;
    Narrow(c0, c1, names.gateway, names);
    Outside(c0, c1, names.gateway, names.device);
    Outside(c0, c1, names.gateway, names.bridge);
    if error.Some? {
      DeviceOver(c0, c1, c1, names, config.proxy, a.gateway);
      return;
    }
    error := StartDevice(host, a, config, luck);
    PinnedOnceStarted(a.c, c0, c1, host.containers, config, a.camera, a.gateway);
    Narrow(c1, host.containers, names.device, names);
    Outside(c1, host.containers, names.device, names.bridge);
    Chain(e0, e1, host.events);
    DeviceOver(c0, c1, host.containers, names, config.proxy, a.gateway);
  }

  lemma PinnedOnceStarted(c: Context, c0: Containers, c1: Containers, c2: Containers, config: Config,
                          camera: Option<Index>, gateway: bool)
    requires Apart(c.names)
    ensures (&& (gateway <==> config.proxy)
             && (gateway ==> c1 == (c0 - {c.names.gateway})[
                  c.names.gateway := Labelled(c, GatewayRole, None, Joined(config.network))])
             && c2 == c1[c.names.device := DeviceContainer(c, config, camera, gateway)])
            ==> IsPinned(c, c2, config, camera)
  {
    if c2 == c1[c.names.device := DeviceContainer(c, config, camera, gateway)] && gateway {
      assert c.names.device in c2 && c2[c.names.device].network == InsideOf(c.names.gateway);
    }
  }

  lemma DeviceOver(c0: Containers, c1: Containers, c2: Containers, names: Names, gatewayTouched: bool, gateway: bool)
    ensures && c1 - Only(names.gateway, gateway) == c0 - Only(names.gateway, gatewayTouched)
            && c2 - {names.device} == c1 - {names.device}
            ==> c2 - ({names.device} + Only(names.gateway, gateway)) ==
                c0 - ({names.device} + Only(names.gateway, gatewayTouched))
  {
    var d, g, gt := {names.device}, Only(names.gateway, gateway), Only(names.gateway, gatewayTouched);
    assert c2 - (d + g) == (c2 - d) - g;
    assert (c1 - d) - g == (c1 - g) - d;
    assert (c0 - gt) - d == c0 - (d + gt);
  }

  lemma Narrow(a: Containers, b: Containers, name: Name, names: Names)
    requires OthersUntouched(a, b, {name}) && name in OwnNames(names)
    ensures OthersUntouched(a, b, OwnNames(names))
  {
    var own := OwnNames(names);
    assert a - own == (a - {name}) - own && b - own == (b - {name}) - own;
  }

  ghost predicate SameAt(a: Containers, b: Containers, name: Name) {
    (name in a <==> name in b) && (name in a ==> a[name] == b[name])
  }

  lemma Outside(a: Containers, b: Containers, name: Name, other: Name)
    requires OthersUntouched(a, b, {name}) && other != name
    ensures SameAt(a, b, other)
  {
    assert other in a <==> other in a - {name};
    assert other in b <==> other in b - {name};
    if other in a { assert a[other] == (a - {name})[other] == (b - {name})[other] == b[other]; }
  }

  function Only(name: Name, wanted: bool): set<Name> {
    if wanted then {name} else {}
  }

  /** Undoing the steps one by one is undoing them together. */
  lemma Through(c0: Containers, c1: Containers, c2: Containers, names: Names,
                bridgeTouched: bool, bridge: bool, gatewayTouched: bool, gateway: bool)
    ensures && c1 - Only(names.bridge, bridge) == c0 - Only(names.bridge, bridgeTouched)
            && c2 - ({names.device} + Only(names.gateway, gateway)) ==
                c1 - ({names.device} + Only(names.gateway, gatewayTouched))
            ==> c2 - ({names.device} + Only(names.bridge, bridge) + Only(names.gateway, gateway)) ==
                c0 - ({names.device} + Only(names.bridge, bridgeTouched) + Only(names.gateway, gatewayTouched))
  {
    var d, b, bt := {names.device}, Only(names.bridge, bridge), Only(names.bridge, bridgeTouched);
    var g, gt := Only(names.gateway, gateway), Only(names.gateway, gatewayTouched);
    assert c2 - (d + b + g) == (c2 - (d + g)) - b;
    assert (c1 - (d + gt)) - b == (c1 - b) - (d + gt);
    assert (c0 - bt) - (d + gt) == c0 - (d + bt + gt);
  }

  /** The try block and its catch: an attempt that fails is torn down on the spot. */
  method Attempt(host: Host, a: Acquisition, config: Config, luck: Luck) returns (error: Option<AcquireError>)
    requires Apart(a.c.names) && a.camera == None && !a.bridge && !a.gateway
    modifies host`containers, host`leases, host`events, a`camera, a`bridge, a`gateway
    ensures OthersUntouched(old(host.containers), host.containers, OwnNames(a.c.names))
    ensures if error.None? then LeaseHeld(a, host, old(host.leases)) else host.leases == old(host.leases)
    ensures old(host.events) <= host.events
    ensures error.Some? ==> !Early(error.value)
    ensures error.None? ==> Ready(a, host, config)
    ensures old(Healthy(host, a.c.names)) && a.c.names.device !in old(host.containers) ==>
              && (error.None? <==> AllWell(config, luck, old(host.leases)))
              && NoRefusalSince(old(host.events), host.events)
              && Healthy(host, a.c.names)
              && (error.Some? ==> FreedLast(old(host.events), host.events, {a.c.names.device, a.c.names.bridge}))
              && host.containers - (if error.None? then a.Held() else {}) ==
                 old(host.containers) - Touched(a.c.names, config, luck, old(host.leases))
  {
    ghost var e0 := host.events;
    error := BringUp(host, a, config, luck);
    ghost var c1, e1 := host.containers, host.events;
    if error.Some? {
      a.Teardown(host);
      Chain(e0, e1, host.events);
      Both(old(host.containers), c1, host.containers, a.c.names);
    } else {
      assert NothingFreed(e0, e1);
    }
  }

  lemma Both(a: Containers, b: Containers, c: Containers, names: Names)
    requires OthersUntouched(a, b, OwnNames(names)) && OthersUntouched(b, c, OwnNames(names))
    ensures OthersUntouched(a, c, OwnNames(names))
  {
  }

  /** The parts the configuration asks for are there, and the device is where it should be. */
  ghost predicate Ready(a: Acquisition, host: Host, config: Config)
    reads a, host
  {
    && (a.gateway <==> config.proxy) && (a.bridge <==> config.camera) && (a.camera.Some? <==> config.camera)
    && IsPinned(a.c, host.containers, config, a.camera)
    && (config.camera ==> IsBridged(a.c, host.containers, config, a.camera))
  }

  /** What follows once nothing stands in the way: the last attempt's device goes, and a new
      one is attempted. */
  method AcquireUnopposed(host: Host, c: Context, config: Config, luck: Luck)
      returns (r: Result<Acquisition, AcquireError>)
    requires Apart(c.names)
    modifies host`containers, host`leases, host`events
    ensures OthersUntouched(old(host.containers), host.containers, OwnNames(c.names))
    ensures r.Err? ==> host.leases == old(host.leases) && !Early(r.error)
    ensures r.Ok? ==> fresh(r.value) && r.value.c == c && LeaseHeld(r.value, host, old(host.leases))
    ensures r.Ok? ==> Ready(r.value, host, config)
    ensures old(host.events) <= host.events
    ensures old(Healthy(host, c.names)) ==>
              && (r.Ok? <==> AllWell(config, luck, old(host.leases)))
              && Healthy(host, c.names) && NoRefusalSince(old(host.events), host.events)
              && (r.Err? ==> FreedLast(old(host.events), host.events, {c.names.device, c.names.bridge}))
              && host.containers - (if r.Ok? then r.value.Held() else {}) ==
                 old(host.containers) - Touched(c.names, config, luck, old(host.leases))
  {
    ghost var c0, e0 := host.containers, host.events;
    TryRemove(host, c.names.device, true);
    ghost var c1, e1 := host.containers, host.events;
    Narrow(c0, c1, c.names.device, c.names);
    var a := new Acquisition(c);
    var error := Attempt(host, a, config, luck);
    Chain(e0, e1, host.events);
    Both(c0, c1, host.containers, c.names);
    ghost var touched := Touched(c.names, config, luck, old(host.leases));
    assert c0 - {c.names.device} - touched == c0 - touched;
    return if error.None? then Ok(a) else Err(error.value);
  }

  /** Whichever step fails, the job's containers are gone, every other container and every
      lease is as before, the camera went back last, and no removal was refused. */
  method Acquire(host: Host, c: Context, config: Config, luck: Luck) returns (r: Result<Acquisition, AcquireError>)
    requires Apart(c.names)
    modifies host`containers, host`leases, host`events
    ensures OthersUntouched(old(host.containers), host.containers, OwnNames(c.names))
    ensures r.Err? ==> host.leases == old(host.leases)
    ensures r.Ok? ==> fresh(r.value) && r.value.c == c && LeaseHeld(r.value, host, old(host.leases))
    ensures r.Ok? ==> Ready(r.value, host, config)
    ensures r.Ok? ==> !Concurrent(old(host.containers), c)
    ensures r.Err? && Early(r.error) <==>
            !luck.list || !luck.volume || Concurrent(old(host.containers), c)
    ensures r.Err? && Early(r.error) ==>
              host.containers == old(host.containers) && host.events == old(host.events)
    ensures old(host.events) <= host.events
    ensures old(Healthy(host, c.names)) ==>
              && (r.Ok? <==> luck.list && !Concurrent(old(host.containers), c) && luck.volume
                             && AllWell(config, luck, old(host.leases)))
              && Healthy(host, c.names) && NoRefusalSince(old(host.events), host.events)
              && (r.Err? && !Early(r.error) ==>
                    && host.containers == old(host.containers) - Touched(c.names, config, luck, old(host.leases))
                    && FreedLast(old(host.events), host.events, {c.names.device, c.names.bridge}))
              && (r.Ok? ==>
                    host.containers - r.value.Held() ==
                       old(host.containers) - Touched(c.names, config, luck, old(host.leases)))
  {
    if !luck.list {
      return Err(ListFailed);
    }
    if exists n :: n in host.containers && host.containers[n].account == Some(c.account)
        && host.containers[n].job != Some(c.job) {
      return Err(ConcurrentRun);
    }
    if !luck.volume {
      return Err(VolumeFailed);
    }
    r := AcquireUnopposed(host, c, config, luck);
    assert host.containers - {} == host.containers;
  }

  /** A run that gives the device back in its `finally`, however the flow went: what is
      left is what was there, less the job's own containers. */
  method RunOnDevice(host: Host, c: Context, config: Config, luck: Luck, flowWorks: bool) returns (ok: bool)
    requires Apart(c.names)
    modifies host`containers, host`leases, host`events
    ensures OthersUntouched(old(host.containers), host.containers, OwnNames(c.names))
    ensures host.leases == old(host.leases)
    ensures old(Healthy(host, c.names)) && luck.list && luck.volume && !Concurrent(old(host.containers), c) ==>
              && (ok <==> flowWorks && AllWell(config, luck, old(host.leases)))
              && host.containers == old(host.containers) - Touched(c.names, config, luck, old(host.leases))
              && NoRefusalSince(old(host.events), host.events)
  {
    ghost var c0, e0 := host.containers, host.events;
    var r := Acquire(host, c, config, luck);
    if r.Err? {
      return false;
    }
    ghost var c1, e1 := host.containers, host.events;
    r.value.Teardown(host);
    Chain(e0, e1, host.events);
    Both(c0, c1, host.containers, c.names);
    return flowWorks;
  }
}

/** The ReDroid provider: no camera, and a gateway that is up before the try block. */
module RedroidProvider {
  import opened Options
  import opened Docker
  import opened DeviceProviders
  import opened EmulatorProvider

  method Acquire(host: Host, c: Context, config: Config, luck: Luck) returns (r: Result<Acquisition, AcquireError>)
    requires Apart(c.names) && !config.camera
    modifies host`containers, host`leases, host`events
    ensures OthersUntouched(old(host.containers), host.containers, OwnNames(c.names))
    ensures host.leases == old(host.leases)
    ensures r.Ok? ==> fresh(r.value) && r.value.c == c && !Concurrent(old(host.containers), c)
    ensures r.Ok? ==> Ready(r.value, host, config)
    ensures r.Err? && Early(r.error) <==>
            !luck.list || !luck.volume || Concurrent(old(host.containers), c)
    ensures r.Err? && Early(r.error) ==>
              host.containers == old(host.containers) && host.events == old(host.events)
    ensures old(host.events) <= host.events
    ensures old(Healthy(host, c.names)) ==>
              && (r.Ok? <==> luck.list && !Concurrent(old(host.containers), c) && luck.volume
                             && GatewayUp(config, luck) && DeviceUp(config, luck))
              && NoRefusalSince(old(host.events), host.events)
              && (r.Err? && !Early(r.error) ==>
                    host.containers == old(host.containers) - Touched(c.names, config, luck, old(host.leases)))
              && (r.Ok? ==>
                    && Healthy(host, c.names)
                    && host.containers - r.value.Held() ==
                       old(host.containers) - Touched(c.names, config, luck, old(host.leases)))
  {
    if !luck.list {
      return Err(ListFailed);
    }
    if exists n :: n in host.containers && host.containers[n].account == Some(c.account)
        && host.containers[n].job != Some(c.job) {
      return Err(ConcurrentRun);
    }
    if !luck.volume {
      return Err(VolumeFailed);
    }
    ghost var c0, e0 := host.containers, host.events;
    TryRemove(host, c.names.device, true);
    ghost var c1, e1 := host.containers, host.events;
    Narrow(c0, c1, c.names.device, c.names);
    var a := new Acquisition(c);
    var error := Start(host, a, config, luck);
    Chain(e0, e1, host.events);
    Both(c0, c1, host.containers, c.names);
    ghost var touched := Touched(c.names, config, luck, old(host.leases));
    assert c0 - {c.names.device} - touched == c0 - touched;
    assert host.containers - {} == host.containers;
    return if error.None? then Ok(a) else Err(error.value);
  }

  /** A gateway that does not come up has already removed itself; a device that does not
      takes the gateway with it. */
  method Start(host: Host, a: Acquisition, config: Config, luck: Luck) returns (error: Option<AcquireError>)
    requires Apart(a.c.names) && !config.camera && a.camera == None && !a.bridge && !a.gateway
    modifies host`containers, host`leases, host`events, a`gateway
    ensures OthersUntouched(old(host.containers), host.containers, OwnNames(a.c.names))
    ensures host.leases == old(host.leases) && old(host.events) <= host.events
    ensures error.Some? ==> !Early(error.value)
    ensures error.None? ==> Ready(a, host, config)
    ensures old(Healthy(host, a.c.names)) && a.c.names.device !in old(host.containers) ==>
              && (error.None? <==> GatewayUp(config, luck) && DeviceUp(config, luck))
              && NoRefusalSince(old(host.events), host.events)
              && Healthy(host, a.c.names)
              && host.containers - (if error.None? then a.Held() else {}) ==
                 old(host.containers) - Touched(a.c.names, config, luck, old(host.leases))
  {
    ghost var c0, e0 := host.containers, host.events;
    ghost var names := a.c.names;
    error := GatewayAndDevice(host, a, config, luck);
    ghost var c1, e1 := host.containers, host.events;
    Through(c0, c0, c1, names, false, false, config.proxy, a.gateway);
    if error == Some(GatewayFailed) {
      if names.device !in c1 {
        assert c1 - ({names.device} + Only(names.bridge, false) + Only(names.gateway, false)) == c1 == c1 - {};
      }
      return;
    }
    if error.Some? {
      a.Teardown(host);
      Chain(e0, e1, host.events);
      Both(c0, c1, host.containers, names);
      return;
    }
  }
}
