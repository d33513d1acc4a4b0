/**
 The view of a node that the front end sees, and the four payloads the cache
 keeps of it: what the database owns, the runtime sample, SMART and thermal data.
 */
module FrontView {
  import opened Wrappers
  import Text

  // ---- The view ----

  /** A disk; the identity stands for its device path, type, protocol, model, serial and the rest. */
  datatype SmartDevice = SmartDevice(name: string, identity: string, temperature: Option<real>)

  datatype Smart = Smart(status: string, updatedAt: Option<int>, ttl: int, devices: Option<seq<SmartDevice>>)

  datatype Thermal = Thermal(status: string, updatedAt: Option<int>, sensors: seq<string>)

  datatype NodeMeta = NodeMeta(id: int, order: int, title: string, search: seq<string>, tags: seq<string>)

  datatype Observation = Observation(receivedAt: string, observedAt: string, sentAt: string, staleAfter: int)

  datatype System = System(
    osFamily: string, platform: string, platformVersion: string, kernelVersion: string, arch: string, uptime: string)

  datatype Load = Load(one: real, five: real, fifteen: real)

  datatype Cpu = Cpu(usage: real, load: Load, model: string, physical: int, logical: int, sockets: int)

  datatype Memory = Memory(
    total: int, used: int, available: int, buffers: int, cached: int, usedRatio: real, swapTotal: int, swapUsed: int)

  datatype Mount = Mount(mountpoint: string, fsType: string, total: int, used: int, usedRatio: real)

  datatype Disk = Disk(mounts: seq<Mount>, io: string, temperatureDevices: seq<string>, smart: Option<Smart>)

  /** The parts no payload takes apart: network, processes, connections, RAID and pressure. */
  datatype Rest = Rest(encoded: string)

  datatype NodeView = NodeView(
    node: NodeMeta, observation: Observation, system: System, cpu: Cpu, memory: Memory, disk: Disk, rest: Rest,
    thermal: Option<Thermal>)

  // ---- What it is built from ----

  datatype Server = Server(
    id: int, order: int, name: string, tags: string, os: Option<string>, platform: Option<string>,
    platformVersion: Option<string>, kernelVersion: Option<string>, arch: Option<string>, cpuModel: Option<string>,
    coresPhysical: Option<int>, coresLogical: Option<int>, sockets: Option<int>, memTotal: Option<int>,
    swapTotal: Option<int>, rootPath: Option<string>, rootFsType: Option<string>)

  /** A report; the details stand for mounts, disk and network traffic, and whatever else is only carried along. */
  datatype Report = Report(
    timestamp: int, sentAt: string, uptime: string, usage: real, load: Load, memory: Memory, smart: Option<Smart>,
    thermal: Option<Thermal>, details: string)

  /** Parsing, formatting and the parts of the view that pass through the cache as they are. */
  datatype Library = Library(
    tags: string -> seq<string>,
    search: (string, string, string, string, seq<string>) -> seq<string>,
    osFamily: string -> string,
    format: int -> string,
    parse: string -> Option<int>,
    mounts: string -> seq<Mount>,
    io: string -> string,
    rest: string -> Rest,
    thermal: Thermal -> Thermal,
    physical: (string, string) -> bool)

  function OrEmpty(s: Option<string>): string {
    if s.Some? then s.value else ""
  }

  function PositiveOr(n: Option<int>, fallback: int): int {
    if n.Some? && n.value > 0 then n.value else fallback
  }

  // ---- SMART ----

  predicate ValidTemperature(t: Option<real>) {
    t.Some? && t.value > 0.0
  }

  predicate InvalidTemperature(t: Option<real>) {
    t.Some? && t.value <= 0.0
  }

  function NormalDevice(device: SmartDevice): SmartDevice {
    if InvalidTemperature(device.temperature) then device.(temperature := None) else device
  }

  function NormalDevices(devices: seq<SmartDevice>): (normal: seq<SmartDevice>)
    ensures |normal| == |devices|
  {
    seq(|devices|, i requires 0 <= i < |devices| => NormalDevice(devices[i]))
  }

  function NormalSmart(smart: Option<Smart>): Option<Smart> {
    if smart.None? then None
    else
      var devices := smart.value.devices;
      Some(smart.value.(devices := Some(if devices.None? then [] else NormalDevices(devices.value))))
  }

  method NormalizeDiskSmart(smart: Option<Smart>) returns (normal: Option<Smart>)
    ensures normal == NormalSmart(smart)
  {
    if smart.None? {
      return None;
    }
    var devices: seq<SmartDevice> := [];
    if smart.value.devices.Some? {
      var given := smart.value.devices.value;
      for i := 0 to |given|
        invariant devices == NormalDevices(given[..i])
      {
        var device := given[i];
        if InvalidTemperature(device.temperature) {
          device := device.(temperature := None);
        }
        devices := devices + [device];
      }
      assert given[..|given|] == given;
    }
    return Some(smart.value.(devices := Some(devices)));
  }

  /** A named physical disk that reports a temperature. */
  predicate Eligible(lib: Library, device: SmartDevice) {
    Text.Trim(device.name) != [] && ValidTemperature(device.temperature) && lib.physical(device.name, device.identity)
  }

  /** The names of the eligible disks among the first n, each once, in the order of their first appearance. */
  function Names(lib: Library, devices: seq<SmartDevice>, n: nat): seq<string>
    requires n <= |devices|
  {
    if n == 0 then []
    else
      var earlier := Names(lib, devices, n - 1);
      var name := Text.Trim(devices[n - 1].name);
      if Eligible(lib, devices[n - 1]) && name !in earlier then earlier + [name] else earlier
  }

  /** Each name is listed once, and exactly the names of eligible disks are. */
  lemma {:induction false} NamesAreEligible(lib: Library, devices: seq<SmartDevice>, n: nat)
    requires n <= |devices|
    ensures var names := Names(lib, devices, n);
      && (forall i, j :: 0 <= i < j < |names| ==> names[i] != names[j])
      && (forall name :: name in names ==>
        exists k :: 0 <= k < n && Eligible(lib, devices[k]) && Text.Trim(devices[k].name) == name)
      && (forall k :: 0 <= k < n && Eligible(lib, devices[k]) ==> Text.Trim(devices[k].name) in names)
  {
    if n > 0 {
      NamesAreEligible(lib, devices, n - 1);
    }
  }

  function Devices(smart: Option<Smart>): seq<SmartDevice> {
    if smart.Some? && smart.value.devices.Some? then smart.value.devices.value else []
  }

  function TemperatureDevices(lib: Library, smart: Option<Smart>): seq<string> {
    Names(lib, Devices(smart), |Devices(smart)|)
  }

  method SmartTemperatureDeviceNames(lib: Library, smart: Option<Smart>) returns (names: seq<string>)
    ensures names == TemperatureDevices(lib, smart)
  {
    names := [];
    if smart.None? || smart.value.devices.None? || smart.value.devices.value == [] {
      return;
    }
    var devices := smart.value.devices.value;
    var seen: set<string> := {};
    for i := 0 to |devices|
      invariant names == Names(lib, devices, i)
      invariant forall name :: name in seen <==> name in names
    {
      var name := Text.Trim(devices[i].name);
      if name == [] || !ValidTemperature(devices[i].temperature)
        || !lib.physical(devices[i].name, devices[i].identity) {
        continue;
      }
      if name in seen {
        continue;
      }
      seen := seen + {name};
      names := names + [name];
    }
  }

  lemma EligibleWhenNormal(lib: Library, device: SmartDevice)
    ensures NormalDevice(device).name == device.name
    ensures Eligible(lib, NormalDevice(device)) == Eligible(lib, device)
  {
  }

  lemma {:induction false} NamesOfNormal(lib: Library, devices: seq<SmartDevice>, n: nat)
    requires n <= |devices|
    ensures Names(lib, NormalDevices(devices), n) == Names(lib, devices, n)
  {
    if n > 0 {
      NamesOfNormal(lib, devices, n - 1);
      assert NormalDevices(devices)[n - 1] == NormalDevice(devices[n - 1]);
      EligibleWhenNormal(lib, devices[n - 1]);
    }
  }

  /** Dropping impossible temperatures does not change which disks have one. */
  lemma TemperatureDevicesOfNormal(lib: Library, smart: Option<Smart>)
    ensures TemperatureDevices(lib, NormalSmart(smart)) == TemperatureDevices(lib, smart)
  {
    NamesOfNormal(lib, Devices(smart), |Devices(smart)|);
    assert Devices(NormalSmart(smart)) == NormalDevices(Devices(smart));
  }

  // ---- The unsplit view ----

  function BuildNodeView(lib: Library, server: Server, report: Report, staleAfter: int): NodeView {
    var tags := lib.tags(server.tags);
    var title := Text.Trim(server.name);
    var received := lib.format(report.timestamp);
    var reported := lib.parse(report.sentAt);
    var memory := report.memory;
    NodeView(
      NodeMeta(server.id, server.order, title,
               lib.search(title, OrEmpty(server.os), OrEmpty(server.platform), OrEmpty(server.arch), tags), tags),
      Observation(received, if reported.Some? then lib.format(reported.value) else received, report.sentAt, staleAfter),
      System(lib.osFamily(OrEmpty(server.os)), OrEmpty(server.platform), OrEmpty(server.platformVersion),
             OrEmpty(server.kernelVersion), OrEmpty(server.arch), report.uptime),
      Cpu(report.usage, report.load, Text.Trim(OrEmpty(server.cpuModel)), PositiveOr(server.coresPhysical, 0),
          PositiveOr(server.coresLogical, 0), PositiveOr(server.sockets, 1)),
      memory.(total := if memory.total == 0 then PositiveOr(server.memTotal, 0) else memory.total,
              swapTotal := if memory.swapTotal == 0 then PositiveOr(server.swapTotal, 0) else memory.swapTotal),
      Disk(lib.mounts(report.details), lib.io(report.details), TemperatureDevices(lib, report.smart),
        NormalSmart(report.smart)),
      lib.rest(report.details),
      if report.thermal.Some? then Some(lib.thermal(report.thermal.value)) else None)
  }

  // ---- The payloads ----

  /** The fields of the view that only the database knows. */
  datatype Meta = Meta(
    node: NodeMeta, system: System, cpu: Cpu, memoryTotal: int, swapTotal: int, rootPath: string, rootFsType: string)

  datatype Projection = Projection(view: NodeView, meta: Meta, memoryTotal: int, swapTotal: int)

  datatype Stamped<T> = Stamped(receivedAt: string, value: T)

  const NO_LOAD := Load(0.0, 0.0, 0.0)
  const EMPTY_REPORT := Report(0, "", "", 0.0, NO_LOAD, Memory(0, 0, 0, 0, 0, 0.0, 0, 0), None, None, "")

  function MetaFromServer(lib: Library, server: Server): Meta {
    var view := BuildNodeView(lib, server, EMPTY_REPORT, 0);
    Meta(view.node, view.system.(uptime := ""), view.cpu.(usage := 0.0, load := NO_LOAD), view.memory.total,
         view.memory.swapTotal, Text.Trim(OrEmpty(server.rootPath)), Text.Trim(OrEmpty(server.rootFsType)))
  }

  /** What a report and its server row put into the cache: the totals are the report's own. */
  function ProjectionOf(lib: Library, server: Server, report: Report, staleAfter: int): Projection {
    Projection(BuildNodeView(lib, server, report, staleAfter), MetaFromServer(lib, server), report.memory.total,
               report.memory.swapTotal)
  }

  /** The sample without what the other payloads hold; None for a view without a valid id. */
  function RuntimePayload(p: Projection): Option<NodeView> {
    var v := p.view;
    if v.node.id <= 0 then None
    else
      Some(NodeView(
        NodeMeta(v.node.id, 0, "", [], []), v.observation, System("", "", "", "", "", v.system.uptime),
        Cpu(v.cpu.usage, v.cpu.load, "", 0, 0, 0), v.memory.(total := p.memoryTotal, swapTotal := p.swapTotal),
        v.disk.(smart := None, temperatureDevices := []), v.rest, None))
  }

  function SmartPayload(v: NodeView): Option<Stamped<Smart>> {
    if v.disk.smart.None? || Text.Trim(v.observation.receivedAt) == [] then None
    else Some(Stamped(v.observation.receivedAt, v.disk.smart.value))
  }

  function ThermalPayload(v: NodeView): Option<Stamped<Thermal>> {
    if v.thermal.None? || Text.Trim(v.observation.receivedAt) == [] then None
    else Some(Stamped(v.observation.receivedAt, v.thermal.value))
  }

  // ---- Recomposition ----

  predicate Fillable(mount: Mount, meta: Meta) {
    && meta.rootPath != [] && meta.rootFsType != []
    && Text.Trim(mount.mountpoint) == meta.rootPath && Text.Trim(mount.fsType) == []
  }

  function FilledMounts(mounts: seq<Mount>, meta: Meta): (filled: seq<Mount>)
    ensures |filled| == |mounts|
  {
    seq(|mounts|, i requires 0 <= i < |mounts| =>
      if Fillable(mounts[i], meta) then mounts[i].(fsType := meta.rootFsType) else mounts[i])
  }

  function Compose(runtime: NodeView, meta: Meta): NodeView {
    runtime.(
      node := meta.node,
      system := meta.system.(uptime := runtime.system.uptime),
      cpu := meta.cpu.(usage := runtime.cpu.usage, load := runtime.cpu.load),
      memory := runtime.memory.(
        total := if runtime.memory.total == 0 then meta.memoryTotal else runtime.memory.total,
        swapTotal := if runtime.memory.swapTotal == 0 then meta.swapTotal else runtime.memory.swapTotal),
      disk := runtime.disk.(mounts := FilledMounts(runtime.disk.mounts, meta)))
  }

  method ComposeFrontNode(runtime: NodeView, meta: Meta) returns (node: NodeView)
    ensures node == Compose(runtime, meta)
  {
    node := runtime.(node := meta.node);
    node := node.(system := System(meta.system.osFamily, meta.system.platform, meta.system.platformVersion,
                                   meta.system.kernelVersion, meta.system.arch, node.system.uptime));
    node := node.(cpu := node.cpu.(model := meta.cpu.model, physical := meta.cpu.physical, logical := meta.cpu.logical,
                                   sockets := meta.cpu.sockets));
    if node.memory.total == 0 {
      node := node.(memory := node.memory.(total := meta.memoryTotal));
    }
    if node.memory.swapTotal == 0 {
      node := node.(memory := node.memory.(swapTotal := meta.swapTotal));
    }
    var mounts := node.disk.mounts;
    if meta.rootPath != [] && meta.rootFsType != [] {
      for i := 0 to |mounts|
        invariant |mounts| == |runtime.disk.mounts|
        invariant forall k :: 0 <= k < i ==> mounts[k] == FilledMounts(runtime.disk.mounts, meta)[k]
        invariant forall k :: i <= k < |mounts| ==> mounts[k] == runtime.disk.mounts[k]
      {
        if Text.Trim(mounts[i].mountpoint) == meta.rootPath && Text.Trim(mounts[i].fsType) == [] {
          mounts := mounts[i := mounts[i].(fsType := meta.rootFsType)];
        }
      }
    }
    assert mounts == FilledMounts(runtime.disk.mounts, meta);
    node := node.(disk := node.disk.(mounts := mounts));
  }

  predicate SameReceivedAt(lib: Library, a: string, b: string) {
    var x, y := Text.Trim(a), Text.Trim(b);
    && x != [] && y != []
    && (x == y || (lib.parse(x).Some? && lib.parse(x) == lib.parse(y)))
  }

  function ApplySmart(lib: Library, v: NodeView, smart: Option<Stamped<Smart>>): NodeView {
    if smart.Some? && SameReceivedAt(lib, v.observation.receivedAt, smart.value.receivedAt) then
      var data := Some(smart.value.value);
      v.(disk := v.disk.(smart := data, temperatureDevices := TemperatureDevices(lib, data)))
    else v
  }

  function ApplyThermal(lib: Library, v: NodeView, thermal: Option<Stamped<Thermal>>): NodeView {
    if thermal.Some? && SameReceivedAt(lib, v.observation.receivedAt, thermal.value.receivedAt) then
      v.(thermal := Some(thermal.value.value))
    else v
  }

  function Recompose(lib: Library, runtime: NodeView, meta: Meta, smart: Option<Stamped<Smart>>,
      thermal: Option<Stamped<Thermal>>): NodeView {
    ApplyThermal(lib, ApplySmart(lib, Compose(runtime, meta), smart), thermal)
  }

  // ---- Splitting loses nothing ----

  /** The view with the root file system's type filled in where the report left it blank. */
  function Filled(v: NodeView, meta: Meta): NodeView {
    v.(disk := v.disk.(mounts := FilledMounts(v.disk.mounts, meta)))
  }

  lemma SmartReturns(lib: Library, bare: NodeView, v: NodeView, raw: Option<Smart>)
    requires Text.Trim(v.observation.receivedAt) != [] && bare.observation == v.observation
    requires v.disk.smart == NormalSmart(raw) && v.disk.temperatureDevices == TemperatureDevices(lib, raw)
    requires bare.disk.smart == None && bare.disk.temperatureDevices == []
    ensures ApplySmart(lib, bare, SmartPayload(v))
         == bare.(disk := bare.disk.(smart := v.disk.smart, temperatureDevices := v.disk.temperatureDevices))
  {
    TemperatureDevicesOfNormal(lib, raw);
  }

  lemma ThermalReturns(lib: Library, bare: NodeView, v: NodeView)
    requires Text.Trim(v.observation.receivedAt) != [] && bare.observation == v.observation && bare.thermal == None
    ensures ApplyThermal(lib, bare, ThermalPayload(v)) == bare.(thermal := v.thermal)
  {
  }

  predicate Changes(mount: Mount, meta: Meta) {
    Fillable(mount, meta) && mount.fsType != meta.rootFsType
  }

  /** The only difference there can be is a blank file-system type at the root path. */
  lemma FillingIsTheOnlyChange(v: NodeView, meta: Meta)
    ensures Filled(v, meta) == v <==> forall i :: 0 <= i < |v.disk.mounts| ==> !Changes(v.disk.mounts[i], meta)
  {
    assert forall i :: 0 <= i < |v.disk.mounts| && Changes(v.disk.mounts[i], meta) ==>
      FilledMounts(v.disk.mounts, meta)[i] != v.disk.mounts[i];
  }

  /**
   For any server with an id and any report with a receive time, the payloads
   recombine to the view, with blank types at the root path filled in: to the very
   same view exactly if there is none.
   */
  lemma SplitIsLossless(lib: Library, server: Server, report: Report, staleAfter: int)
    requires server.id > 0 && Text.Trim(lib.format(report.timestamp)) != []
    ensures var p := ProjectionOf(lib, server, report, staleAfter);
      && RuntimePayload(p).Some?
      && var back := Recompose(lib, RuntimePayload(p).value, p.meta, SmartPayload(p.view), ThermalPayload(p.view));
        && back == Filled(p.view, p.meta)
        && (back == p.view <==> forall i :: 0 <= i < |p.view.disk.mounts| ==> !Changes(p.view.disk.mounts[i], p.meta))
  {
    var p := ProjectionOf(lib, server, report, staleAfter);
    var bare := Compose(RuntimePayload(p).value, p.meta);
    SmartReturns(lib, bare, p.view, report.smart);
    var withSmart := ApplySmart(lib, bare, SmartPayload(p.view));
    ThermalReturns(lib, withSmart, p.view);
    FillingIsTheOnlyChange(p.view, p.meta);
  }
}
