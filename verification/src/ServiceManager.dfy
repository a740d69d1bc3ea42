/**
 Installing and uninstalling services: the ordered effects on the service control manager and the registry,
 with an early exit at whichever of them fails.
 */
module ServiceManager {
  import opened RegistryPath
  import opened Wrappers
  import opened Registry
  import MultiString

  /** The parts of a configuration that installation uses; `digest` stands for the digest of the name. */
  datatype Config = Config(
    name: string,
    digest: string,
    hasDescription: bool,
    standaloneOption: Option<bool>,
    startup: string,
    dll: string,
    svchostExecutable: string,
    rundll32Executable: string)

  const SVCHOST_SUB_KEY := "SOFTWARE" + [SEPARATOR] + "Microsoft\\Windows NT\\CurrentVersion\\Svchost"
  const SERVICES_SUB_KEY := "SYSTEM" + [SEPARATOR] + "CurrentControlSet\\Services"
  const SVCHOST_KEY := "HKLM" + [SEPARATOR] + SVCHOST_SUB_KEY

  function Standalone(c: Config): bool {
    if c.standaloneOption.Some? then c.standaloneOption.value else true
  }

  function GroupName(c: Config): string {
    "Broker_" + c.name + "_" + c.digest
  }

  function GroupKeyPath(c: Config): string {
    SVCHOST_KEY + [SEPARATOR] + GroupName(c)
  }

  function ParamKeyPath(c: Config): string {
    "HKLM" + [SEPARATOR] + (SERVICES_SUB_KEY + [SEPARATOR] + c.name + [SEPARATOR] + "Parameters")
  }

  /** The command line that the control manager will start the service with. */
  function ImagePath(c: Config): string {
    if Standalone(c) then c.rundll32Executable + " \"" + c.dll + "\" service " + c.name
    else c.svchostExecutable + " -k " + GroupName(c)
  }

  /** The registry and the names of the services the control manager knows. */
  datatype World = World(tree: Tree, services: set<string>)

  function ServicesKey(): KeyName {
    NameOf(LocalMachine, SERVICES_SUB_KEY)
  }

  function SvchostKey(): KeyName {
    NameOf(LocalMachine, SVCHOST_SUB_KEY)
  }

  function Child(k: KeyName, name: string): KeyName {
    KeyName(k.hive, k.path + [Fold(name)])
  }

  function ServiceKey(c: Config): KeyName {
    Child(ServicesKey(), c.name)
  }

  function ParamKey(c: Config): KeyName {
    Child(ServiceKey(c), "Parameters")
  }

  function GroupKey(c: Config): KeyName {
    Child(SvchostKey(), GroupName(c))
  }

  function GroupSlot(c: Config): (KeyName, string) {
    (SvchostKey(), Fold(GroupName(c)))
  }

  // ---------------------------------------------------------------------------------------------
  // Installation

  datatype InstallOp =
    | OpenScm | CreateService | Describe
    | SetGroupValue | SetGroupKey | SetDll | SetUnload | SetMain
    | SetStartup

  /** The first, and the svchost, part of the calls of `install`. */
  function CreateOps(c: Config): seq<InstallOp> {
    [OpenScm, CreateService] + (if c.hasDescription then [Describe] else [])
  }

  function RegisterOps(): seq<InstallOp> {
    [SetGroupValue, SetGroupKey, SetDll, SetUnload, SetMain]
  }

  function HostOps(c: Config): seq<InstallOp> {
    if Standalone(c) then [] else RegisterOps()
  }

  /** The calls of `install`, in order. */
  function InstallOps(c: Config): seq<InstallOp> {
    CreateOps(c) + HostOps(c) + [SetStartup]
  }

  function SetIn(w: World, path: string, name: string, v: Value, faulty: bool): (World, bool) {
    var (t, o) := SetSpec(w.tree, path, name, v, faulty);
    (w.(tree := t), o == Done)
  }

  /** Where, under which name and what each registry write of `install` writes. */
  function SetPath(c: Config, op: InstallOp): string {
    match op
    case SetGroupValue => SVCHOST_KEY
    case SetGroupKey => GroupKeyPath(c)
    case _ => ParamKeyPath(c)
  }

  function SetName(c: Config, op: InstallOp): string {
    match op
    case SetGroupValue => GroupName(c)
    case SetGroupKey => "CoInitializeSecurityParam"
    case SetDll => "ServiceDll"
    case SetUnload => "ServiceDllUnloadOnStop"
    case SetMain => "ServiceMain"
    case _ => "StartupConfiguration"
  }

  function SetValue(c: Config, op: InstallOp): Value {
    match op
    case SetGroupValue => MultiSz(MultiString.Encode([c.name]))
    case SetGroupKey => Dword(1)
    case SetDll => ExpandSz(c.dll)
    case SetUnload => Dword(1)
    case SetMain => Sz("ServiceMain")
    case _ => Sz(c.startup)
  }

  predicate IsSet(op: InstallOp) {
    !op.OpenScm? && !op.CreateService? && !op.Describe?
  }

  /** One call of `install`, and whether it succeeded. */
  function Perform(w: World, c: Config, op: InstallOp, faulty: bool): (World, bool) {
    match op
    case OpenScm => (w, !faulty)
    case CreateService =>
      // The control manager keeps its database under the Services key and refuses a name it knows.
      if faulty || Fold(c.name) in w.services then (w, false)
      else (World(Put(w.tree, ServiceKey(c), "ImagePath", Sz(ImagePath(c))), w.services + {Fold(c.name)}), true)
    case Describe => (w, !faulty)
    case _ => SetIn(w, SetPath(c, op), SetName(c, op), SetValue(c, op), faulty)
  }

  /** Performs the calls until one fails, and says which. */
  function PerformAll(w: World, c: Config, ops: seq<InstallOp>, faults: set<InstallOp>): (World, Option<InstallOp>)
    decreases |ops|
  {
    if ops == [] then (w, None)
    else
      var (w', ok) := Perform(w, c, ops[0], ops[0] in faults);
      if ok then PerformAll(w', c, ops[1..], faults) else (w', Some(ops[0]))
  }

  function InstallSpec(w: World, c: Config, faults: set<InstallOp>): (World, Option<InstallOp>) {
    PerformAll(w, c, InstallOps(c), faults)
  }

  // ---------------------------------------------------------------------------------------------
  // Uninstallation

  datatype UninstallOp =
    | OpenManager | OpenService | StopService | DeleteService | DeleteGroupKey | DeleteGroupValue

  /** The deletion of the group: the first failure ends it, and is only logged. */
  function UnregisterSpec(w: World, c: Config, faults: set<UninstallOp>): World {
    var (t, o) := DeleteTreeSpec(w.tree, GroupKeyPath(c), DeleteGroupKey in faults);
    if o != Done then w.(tree := t)
    else w.(tree := DeleteValueSpec(t, SVCHOST_KEY, GroupName(c), DeleteGroupValue in faults).0)
  }

  /** The control manager drops the service together with its part of the registry. */
  function DropService(w: World, c: Config): World {
    World(CutTree(w.tree, ServiceKey(c)), w.services - {Fold(c.name)})
  }

  function UninstallSpec(w: World, c: Config, faults: set<UninstallOp>): (World, Option<UninstallOp>) {
    if OpenManager in faults then (w, Some(OpenManager))
    else if OpenService in faults || Fold(c.name) !in w.services then (w, Some(OpenService))
    else if StopService in faults then (w, Some(StopService))
    else if DeleteService in faults then (w, Some(DeleteService))
    else
      var w' := DropService(w, c);
      (if Standalone(c) then w' else UnregisterSpec(w', c, faults), None)
  }

  // ---------------------------------------------------------------------------------------------
  // The objects

  /** The machine that installation changes. */
  class Machine {
    var tree: Tree
    var services: set<string>

    function State(): World
      reads this
    {
      World(tree, services)
    }

    method SetRegistry(path: string, name: string, v: Value, faulty: bool) returns (o: Outcome)
      modifies this`tree
      ensures (tree, o) == SetSpec(old(tree), path, name, v, faulty)
    {
      match Decompose(path) {
        case Illegal => o := IllegalPath;
        case Key(hive, sub) =>
          if faulty {
            o := Failed;
          } else {
            tree := Put(tree, NameOf(hive, sub), name, v);
            o := Done;
          }
      }
    }

    method DeleteRegistryTree(path: string, faulty: bool) returns (o: Outcome)
      modifies this`tree
      ensures (tree, o) == DeleteTreeSpec(old(tree), path, faulty)
    {
      match Decompose(path) {
        case Illegal => o := IllegalPath;
        case Key(hive, sub) =>
          var k := NameOf(hive, sub);
          if faulty || k !in tree.keys {
            o := Failed;
          } else {
            tree := CutTree(tree, k);
            o := Done;
          }
      }
    }

    method DeleteRegistryValue(path: string, name: string, faulty: bool) returns (o: Outcome)
      modifies this`tree
      ensures (tree, o) == DeleteValueSpec(old(tree), path, name, faulty)
    {
      match Decompose(path) {
        case Illegal => o := IllegalPath;
        case Key(hive, sub) =>
          var k := NameOf(hive, sub);
          if faulty || (k, Fold(name)) !in tree.values {
            o := Failed;
          } else {
            tree := CutValue(tree, k, name);
            o := Done;
          }
      }
    }
  }

  class Manager {
    const config: Config
    const standalone: bool
    const groupName: string
    const groupKey: string
    const paramKey: string

    ghost predicate Valid() {
      && standalone == Standalone(config) && groupName == GroupName(config)
      && groupKey == GroupKeyPath(config) && paramKey == ParamKeyPath(config)
    }

    constructor (config: Config)
      ensures Valid() && this.config == config
    {
      this.config := config;
      standalone := if config.standaloneOption.Some? then config.standaloneOption.value else true;
      var group := "Broker_" + config.name + "_" + config.digest;
      var key := SVCHOST_KEY;
      key := key + [SEPARATOR];
      key := key + group;
      groupName := group;
      groupKey := key;
      paramKey := ParamKeyPath(config);
    }

    /** One registry write of the installation; `op` says which, `rest` what is still to come. */
    method Write(m: Machine, path: string, name: string, v: Value, op: InstallOp, faults: set<InstallOp>,
                 ghost rest: seq<InstallOp>)
      returns (failed: Option<InstallOp>)
      requires IsSet(op) && path == SetPath(config, op) && name == SetName(config, op) && v == SetValue(config, op)
      modifies m`tree
      ensures failed == None || failed == Some(op)
      ensures PerformAll(old(m.State()), config, [op] + rest, faults) ==
              if failed.None? then PerformAll(m.State(), config, rest, faults) else (m.State(), failed)
    {
      PerformCons(m.State(), config, op, rest, faults);
      var o := m.SetRegistry(path, name, v, op in faults);
      failed := if o == Done then None else Some(op);
    }

    method Install(m: Machine, faults: set<InstallOp>) returns (failed: Option<InstallOp>)
      requires Valid()
      modifies m
      ensures (m.State(), failed) == InstallSpec(old(m.State()), config, faults)
    {
      hide PerformAll;
      hide InstallSpec;
      InstallSplits(m.State(), config, faults);
      failed := Create(m, faults);
      if failed.None? {
        failed := Register(m, faults);
        if failed.None? {
          failed := WriteLast(m, "StartupConfiguration", Sz(config.startup), SetStartup, faults);
        }
      }
    }

    /** Registers with svchost, unless the service is to run standalone. */
    method Register(m: Machine, faults: set<InstallOp>) returns (failed: Option<InstallOp>)
      requires Valid()
      modifies m`tree
      ensures (m.State(), failed) == PerformAll(old(m.State()), config, HostOps(config), faults)
    {
      failed := None;
      if !standalone {
        failed := RegisterSvchost(m, faults);
      }
    }

    /** Creates the service and describes it. */
    method Create(m: Machine, faults: set<InstallOp>) returns (failed: Option<InstallOp>)
      requires Valid()
      modifies m
      ensures (m.State(), failed) == PerformAll(old(m.State()), config, CreateOps(config), faults)
    {
      ghost var w0 := m.State();
      ghost var rest := if config.hasDescription then [Describe] else [];
      PerformCons(w0, config, OpenScm, [CreateService] + rest, faults);
      PerformCons(w0, config, CreateService, rest, faults);
      assert [OpenScm] + ([CreateService] + rest) == CreateOps(config);
      if OpenScm in faults {
        return Some(OpenScm);
      }
      if CreateService in faults || Fold(config.name) in m.services {
        return Some(CreateService);
      }
      m.tree := Put(m.tree, ServiceKey(config), "ImagePath", Sz(ImagePath(config)));
      m.services := m.services + {Fold(config.name)};
      assert (m.State(), true) == Perform(w0, config, CreateService, false);
      PerformOne(m.State(), config, Describe, faults);
      failed := if config.hasDescription && Describe in faults then Some(Describe) else None;
    }

    method RegisterSvchost(m: Machine, faults: set<InstallOp>) returns (failed: Option<InstallOp>)
      requires Valid()
      modifies m`tree
      ensures (m.State(), failed) == PerformAll(old(m.State()), config, RegisterOps(), faults)
    {
      ghost var rest := [SetDll, SetUnload, SetMain];
      assert RegisterOps() == [SetGroupValue] + ([SetGroupKey] + rest);
      var group := MultiSz(MultiString.Encode([config.name]));
      failed := Write(m, SVCHOST_KEY, groupName, group, SetGroupValue, faults, [SetGroupKey] + rest);
      if failed.None? {
        failed := Write(m, groupKey, "CoInitializeSecurityParam", Dword(1), SetGroupKey, faults, rest);
        if failed.None? {
          failed := SetParameters(m, faults);
        }
      }
    }

    method SetParameters(m: Machine, faults: set<InstallOp>) returns (failed: Option<InstallOp>)
      requires Valid()
      modifies m`tree
      ensures (m.State(), failed) == PerformAll(old(m.State()), config, [SetDll, SetUnload, SetMain], faults)
    {
      hide PerformAll;
      ghost var rest := [SetUnload, SetMain];
      assert [SetDll, SetUnload, SetMain] == [SetDll] + rest;
      failed := Write(m, paramKey, "ServiceDll", ExpandSz(config.dll), SetDll, faults, rest);
      if failed.None? {
        ghost var last := [SetMain];
        assert rest == [SetUnload] + last;
        failed := Write(m, paramKey, "ServiceDllUnloadOnStop", Dword(1), SetUnload, faults, last);
        if failed.None? {
          failed := WriteLast(m, "ServiceMain", Sz("ServiceMain"), SetMain, faults);
        }
      }
    }

    method WriteLast(m: Machine, name: string, v: Value, op: InstallOp, faults: set<InstallOp>)
      returns (failed: Option<InstallOp>)
      requires Valid() && op in {SetMain, SetStartup} && name == SetName(config, op) && v == SetValue(config, op)
      modifies m`tree
      ensures (m.State(), failed) == PerformAll(old(m.State()), config, [op], faults)
    {
      failed := Write(m, paramKey, name, v, op, faults, []);
      assert [op] + [] == [op];
    }

    method Uninstall(m: Machine, faults: set<UninstallOp>) returns (failed: Option<UninstallOp>)
      requires Valid()
      modifies m
      ensures (m.State(), failed) == UninstallSpec(old(m.State()), config, faults)
    {
      if OpenManager in faults {
        return Some(OpenManager);
      }
      if OpenService in faults || Fold(config.name) !in m.services {
        return Some(OpenService);
      }
      if StopService in faults {
        return Some(StopService);
      }
      if DeleteService in faults {
        return Some(DeleteService);
      }
      m.tree := CutTree(m.tree, ServiceKey(config));
      m.services := m.services - {Fold(config.name)};
      if !standalone {
        UnregisterSvchost(m, faults);
      }
      failed := None;
    }

    method UnregisterSvchost(m: Machine, faults: set<UninstallOp>)
      requires Valid()
      modifies m`tree
      ensures m.State() == UnregisterSpec(old(m.State()), config, faults)
    {
      var o := m.DeleteRegistryTree(groupKey, DeleteGroupKey in faults);
      if o == Done {
        o := m.DeleteRegistryValue(SVCHOST_KEY, groupName, DeleteGroupValue in faults);
      }
    }
  }

  lemma PerformCons(w: World, c: Config, op: InstallOp, ops: seq<InstallOp>, faults: set<InstallOp>)
    ensures var (w', ok) := Perform(w, c, op, op in faults);
            PerformAll(w, c, [op] + ops, faults) == if ok then PerformAll(w', c, ops, faults) else (w', Some(op))
  {
    assert ([op] + ops)[1..] == ops;
  }

  lemma PerformOne(w: World, c: Config, op: InstallOp, faults: set<InstallOp>)
    ensures var (w', ok) := Perform(w, c, op, op in faults);
            PerformAll(w, c, [op], faults) == (w', if ok then None else Some(op))
  {
    PerformCons(w, c, op, [], faults);
    assert [op] + [] == [op];
  }

  lemma InstallSplits(w: World, c: Config, faults: set<InstallOp>)
    ensures var (w1, o1) := PerformAll(w, c, CreateOps(c), faults);
            var (w2, o2) := PerformAll(w1, c, HostOps(c), faults);
            InstallSpec(w, c, faults) ==
            if o1.Some? then (w1, o1) else if o2.Some? then (w2, o2) else PerformAll(w2, c, [SetStartup], faults)
  {
    var middle := HostOps(c);
    assert InstallOps(c) == CreateOps(c) + (middle + [SetStartup]);
    PerformSplit(w, c, CreateOps(c), middle + [SetStartup], faults);
    PerformSplit(PerformAll(w, c, CreateOps(c), faults).0, c, middle, [SetStartup], faults);
  }

  lemma {:induction false} PerformSplit(w: World, c: Config, a: seq<InstallOp>, b: seq<InstallOp>,
                                        faults: set<InstallOp>)
    ensures var (w', o) := PerformAll(w, c, a, faults);
            PerformAll(w, c, a + b, faults) == if o.None? then PerformAll(w', c, b, faults) else (w', o)
    decreases |a|
  {
    if a == [] {
      assert a + b == b;
    } else {
      assert (a + b)[0] == a[0] && (a + b)[1..] == a[1..] + b;
      var (w1, ok) := Perform(w, c, a[0], a[0] in faults);
      if ok {
        PerformSplit(w1, c, a[1..], b, faults);
      }
    }
  }
}
