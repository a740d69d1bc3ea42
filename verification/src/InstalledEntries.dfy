/**
 What a complete installation leaves in the registry, literally: which values, under which keys, and what the command
 line it registers means to the process that is started with it. And what an uninstallation leaves that fails.
 */
module InstalledEntries {
  import opened RegistryPath
  import opened Wrappers
  import opened Registry
  import opened ServiceManager
  import opened InstalledServices
  import opened CommandLine
  import opened CommandLineRoundTrip
  import opened CommandLineQuoting
  import MultiString

  // ---------------------------------------------------------------------------------------------
  // The values of an installation, one by one

  predicate Writes(op: InstallOp) {
    !op.OpenScm? && !op.Describe?
  }

  function SlotOf(c: Config, op: InstallOp): (KeyName, string) {
    match op
    case CreateService => (ServiceKey(c), Fold("ImagePath"))
    case SetGroupValue => GroupSlot(c)
    case SetGroupKey => (GroupKey(c), Fold(SetName(c, op)))
    case _ => (ParamKey(c), Fold(SetName(c, op)))
  }

  function ValueOf(c: Config, op: InstallOp): Value {
    if op.CreateService? then Sz(ImagePath(c)) else SetValue(c, op)
  }

  /** A further call adds its value, over whatever was there. */
  lemma {:induction false} AllValuesThen(c: Config, ops: seq<InstallOp>, op: InstallOp)
    ensures AllValues(c, ops + [op]) ==
            if Writes(op) then AllValues(c, ops)[SlotOf(c, op) := ValueOf(c, op)] else AllValues(c, ops)
    decreases |ops|
  {
    hide AddedValues;
    hide SlotOf;
    hide ValueOf;
    AddedOne(c, op);
    if ops == [] {
      assert [] + [op] == [op] && [op][1..] == [];
      assert AllValues(c, [op]) == AddedValues(c, op) + map[];
    } else {
      assert (ops + [op])[0] == ops[0] && (ops + [op])[1..] == ops[1..] + [op];
      AllValuesThen(c, ops[1..], op);
    }
  }

  lemma AddedOne(c: Config, op: InstallOp)
    ensures AddedValues(c, op) == if Writes(op) then map[SlotOf(c, op) := ValueOf(c, op)] else map[]
  {
    hide Fold;
    hide ImagePath;
  }

  // ---------------------------------------------------------------------------------------------
  // Literally

  lemma FoldedNames()
    ensures Fold("SYSTEM") == "SYSTEM" && Fold("CurrentControlSet") == "CURRENTCONTROLSET"
    ensures Fold("Services") == "SERVICES" && Fold("Parameters") == "PARAMETERS"
    ensures Fold("SOFTWARE") == "SOFTWARE" && Fold("Microsoft") == "MICROSOFT" && Fold("Windows NT") == "WINDOWS NT"
    ensures Fold("CurrentVersion") == "CURRENTVERSION" && Fold("Svchost") == "SVCHOST"
  {
  }

  lemma FoldedLongNames()
    ensures Fold("CoInitializeSecurityParam") == "COINITIALIZESECURITYPARAM"
    ensures Fold("ServiceDllUnloadOnStop") == "SERVICEDLLUNLOADONSTOP"
  {
  }

  lemma FoldedShortNames()
    ensures Fold("ImagePath") == "IMAGEPATH" && Fold("ServiceDll") == "SERVICEDLL"
    ensures Fold("ServiceMain") == "SERVICEMAIN" && Fold("StartupConfiguration") == "STARTUPCONFIGURATION"
  {
  }

  function ServicePath(c: Config): seq<string> {
    ["SYSTEM", "CURRENTCONTROLSET", "SERVICES", Fold(c.name)]
  }

  const SVCHOST_PATH: seq<string> := ["SOFTWARE", "MICROSOFT", "WINDOWS NT", "CURRENTVERSION", "SVCHOST"]

  lemma ServiceKeyIs(c: Config)
    ensures ServiceKey(c) == KeyName(LocalMachine, ServicePath(c))
    ensures ParamKey(c) == KeyName(LocalMachine, ServicePath(c) + ["PARAMETERS"])
  {
    FoldedNames();
    var a, b := "SYSTEM", "SYSTEM" + [SEPARATOR] + "CurrentControlSet";
    assert SERVICES_SUB_KEY == b + [SEPARATOR] + "Services";
    ComponentsOfOne(Fold(a));
    NameOfChild(LocalMachine, a, "CurrentControlSet");
    NameOfChild(LocalMachine, b, "Services");
  }

  lemma SvchostKeyIs()
    ensures SvchostKey() == KeyName(LocalMachine, SVCHOST_PATH)
  {
    var a := "SOFTWARE" + [SEPARATOR] + "Microsoft" + [SEPARATOR] + "Windows NT";
    var b := a + [SEPARATOR] + "CurrentVersion";
    SvchostParts(a);
    FoldedNames();
    SvchostKeyBegins();
    hide Fold;
    hide NameOf;
    NameOfChild(LocalMachine, a, "CurrentVersion");
    NameOfChild(LocalMachine, b, "Svchost");
  }

  lemma SvchostParts(a: string)
    requires a == "SOFTWARE" + [SEPARATOR] + "Microsoft" + [SEPARATOR] + "Windows NT"
    ensures SvchostKey() == NameOf(LocalMachine, a + [SEPARATOR] + "CurrentVersion" + [SEPARATOR] + "Svchost")
  {
    hide NameOf;
    assert SVCHOST_SUB_KEY == a + [SEPARATOR] + "CurrentVersion" + [SEPARATOR] + "Svchost";
  }

  lemma SvchostKeyBegins()
    ensures NameOf(LocalMachine, "SOFTWARE" + [SEPARATOR] + "Microsoft" + [SEPARATOR] + "Windows NT")
         == KeyName(LocalMachine, ["SOFTWARE", "MICROSOFT", "WINDOWS NT"])
  {
    hide Fold;
    FoldedNames();
    ComponentsOfOne(Fold("SOFTWARE"));
    NameOfChild(LocalMachine, "SOFTWARE", "Microsoft");
    NameOfChild(LocalMachine, "SOFTWARE" + [SEPARATOR] + "Microsoft", "Windows NT");
  }

  /** A value by hive, key and name, the last two in upper case. */
  function Slot(hive: Hive, path: seq<string>, name: string): (KeyName, string) {
    (KeyName(hive, path), name)
  }

  function GroupOf(c: Config): string {
    Fold("Broker_" + c.name + "_" + c.digest)
  }

  /** Everything that a service in an svchost process has in the registry. */
  function SvchostValues(c: Config): map<(KeyName, string), Value> {
    var service := ServicePath(c);
    map[
      Slot(LocalMachine, service, "IMAGEPATH") := Sz(ImagePath(c)),
      Slot(LocalMachine, SVCHOST_PATH, GroupOf(c)) := MultiSz(MultiString.Encode([c.name])),
      Slot(LocalMachine, SVCHOST_PATH + [GroupOf(c)], "COINITIALIZESECURITYPARAM") := Dword(1),
      Slot(LocalMachine, service + ["PARAMETERS"], "SERVICEDLL") := ExpandSz(c.dll),
      Slot(LocalMachine, service + ["PARAMETERS"], "SERVICEDLLUNLOADONSTOP") := Dword(1),
      Slot(LocalMachine, service + ["PARAMETERS"], "SERVICEMAIN") := Sz("ServiceMain"),
      Slot(LocalMachine, service + ["PARAMETERS"], "STARTUPCONFIGURATION") := Sz(c.startup)
    ]
  }

  /** Everything that a service in a process of its own has there. */
  function StandaloneValues(c: Config): map<(KeyName, string), Value> {
    map[
      Slot(LocalMachine, ServicePath(c), "IMAGEPATH") := Sz(ImagePath(c)),
      Slot(LocalMachine, ServicePath(c) + ["PARAMETERS"], "STARTUPCONFIGURATION") := Sz(c.startup)
    ]
  }

  lemma SlotIs(c: Config, op: InstallOp)
    requires Writes(op)
    ensures match op
            case CreateService => SlotOf(c, op) == Slot(LocalMachine, ServicePath(c), "IMAGEPATH")
            case SetGroupValue => SlotOf(c, op) == Slot(LocalMachine, SVCHOST_PATH, GroupOf(c))
            case SetGroupKey =>
              SlotOf(c, op) == Slot(LocalMachine, SVCHOST_PATH + [GroupOf(c)], "COINITIALIZESECURITYPARAM")
            case SetDll => SlotOf(c, op) == Slot(LocalMachine, ServicePath(c) + ["PARAMETERS"], "SERVICEDLL")
            case SetUnload =>
              SlotOf(c, op) == Slot(LocalMachine, ServicePath(c) + ["PARAMETERS"], "SERVICEDLLUNLOADONSTOP")
            case SetMain => SlotOf(c, op) == Slot(LocalMachine, ServicePath(c) + ["PARAMETERS"], "SERVICEMAIN")
            case _ => SlotOf(c, op) == Slot(LocalMachine, ServicePath(c) + ["PARAMETERS"], "STARTUPCONFIGURATION")
  {
    ServiceKeyIs(c);
    SvchostKeyIs();
    FoldedLongNames();
    FoldedShortNames();
    hide Fold;
    hide ServiceKey;
    hide ParamKey;
    hide SvchostKey;
    hide ServicePath;
  }

  lemma CreateEntries(c: Config)
    ensures AllValues(c, CreateOps(c)) == map[Slot(LocalMachine, ServicePath(c), "IMAGEPATH") := Sz(ImagePath(c))]
  {
    hide ImagePath;
    hide AllValues;
    var a := [OpenScm];
    SlotIs(c, CreateService);
    hide SlotOf;
    hide ServicePath;
    AllValuesThen(c, [], OpenScm);
    assert [] + [OpenScm] == a;
    AllValuesOfNone(c);
    AllValuesThen(c, a, CreateService);
    assert a + [CreateService] == [OpenScm, CreateService];
    AllValuesThen(c, [OpenScm, CreateService], Describe);
    assert [OpenScm, CreateService] + [] == [OpenScm, CreateService];
  }

  lemma AllValuesOfNone(c: Config)
    ensures AllValues(c, []) == map[]
  {
  }

  lemma GroupEntries(c: Config)
    ensures AllValues(c, CreateOps(c) + [SetGroupValue, SetGroupKey]) == map[
              Slot(LocalMachine, ServicePath(c), "IMAGEPATH") := Sz(ImagePath(c)),
              Slot(LocalMachine, SVCHOST_PATH, GroupOf(c)) := MultiSz(MultiString.Encode([c.name])),
              Slot(LocalMachine, SVCHOST_PATH + [GroupOf(c)], "COINITIALIZESECURITYPARAM") := Dword(1)]
  {
    CreateEntries(c);
    SlotIs(c, SetGroupValue);
    SlotIs(c, SetGroupKey);
    hide SlotOf;
    hide Slot;
    hide ServicePath;
    hide ImagePath;
    hide AllValues;
    hide CreateOps;
    AllValuesThen(c, CreateOps(c), SetGroupValue);
    AllValuesThen(c, CreateOps(c) + [SetGroupValue], SetGroupKey);
    assert CreateOps(c) + [SetGroupValue] + [SetGroupKey] == CreateOps(c) + [SetGroupValue, SetGroupKey];
  }

  lemma SvchostEntries(c: Config)
    requires !Standalone(c)
    ensures Entries(c) == SvchostValues(c)
  {
    GroupEntries(c);
    EntriesInOrder(c);
    SlotIs(c, SetDll);
    SlotIs(c, SetUnload);
    SlotIs(c, SetMain);
    SlotIs(c, SetStartup);
    hide SlotOf;
    hide Slot;
    hide ServicePath;
    hide ImagePath;
    hide Entries;
    hide AllValues;
    hide InstallOps;
    hide CreateOps;
    hide Fold;
    hide MultiString.Encode;
  }

  lemma EntriesInOrder(c: Config)
    requires !Standalone(c)
    ensures Entries(c) == AllValues(c, CreateOps(c) + [SetGroupValue, SetGroupKey])
                            [SlotOf(c, SetDll) := ValueOf(c, SetDll)][SlotOf(c, SetUnload) := ValueOf(c, SetUnload)]
                            [SlotOf(c, SetMain) := ValueOf(c, SetMain)][SlotOf(c, SetStartup) := ValueOf(c, SetStartup)]
  {
    var p := CreateOps(c) + [SetGroupValue, SetGroupKey];
    SvchostOrder(c);
    hide SlotOf;
    hide ValueOf;
    hide AllValues;
    hide InstallOps;
    hide CreateOps;
    AllValuesThen(c, p, SetDll);
    AllValuesThen(c, p + [SetDll], SetUnload);
    AllValuesThen(c, p + [SetDll] + [SetUnload], SetMain);
    AllValuesThen(c, p + [SetDll] + [SetUnload] + [SetMain], SetStartup);
  }

  lemma SvchostOrder(c: Config)
    requires !Standalone(c)
    ensures InstallOps(c) ==
            CreateOps(c) + [SetGroupValue, SetGroupKey] + [SetDll] + [SetUnload] + [SetMain] + [SetStartup]
  {
  }

  lemma StandaloneEntries(c: Config)
    requires Standalone(c)
    ensures Entries(c) == StandaloneValues(c)
  {
    CreateEntries(c);
    SlotIs(c, SetStartup);
    hide SlotOf;
    hide Slot;
    hide ServicePath;
    hide ImagePath;
    hide AllValues;
    hide CreateOps;
    AllValuesThen(c, CreateOps(c), SetStartup);
    assert CreateOps(c) + [SetStartup] == InstallOps(c);
  }

  /** A complete installation adds exactly the values listed for its kind of service, and keeps all others. */
  lemma InstalledValues(w: World, c: Config)
    requires Valid(c) && Ready(w) && Fold(c.name) !in w.services
    ensures var (w1, failed) := InstallSpec(w, c, {});
            && failed == None && w1.services == w.services + {Fold(c.name)}
            && w1.tree.values == w.tree.values +
                 if c.standaloneOption == Some(false) then SvchostValues(c) else StandaloneValues(c)
  {
    var ops := InstallOps(c);
    InstallOpsDiffer(c);
    PerformAllAdds(w, c, ops, {});
    assert ops[..|ops|] == ops;
    PlusEntries(w, c);
    if Standalone(c) {
      StandaloneEntries(c);
    } else {
      SvchostEntries(c);
    }
  }

  // ---------------------------------------------------------------------------------------------
  // The command line that is registered

  /** Text that stands for itself in a command line. */
  predicate Word(s: string) {
    s != "" && QUOTE !in s && SPACE !in s && TAB !in s
  }

  lemma WordIsRead(done: seq<string>, word: string, line: string)
    requires Word(word)
    ensures Close(Feed(Between(done), word)) == done + [word]
    ensures Feed(Between(done), word + [SPACE] + line) == Feed(Between(done + [word]), line)
  {
    SubstitutedPlain(word);
    SoundWord(word);
    ArgFeed(done, word);
    FeedMore(done, word, line);
  }

  lemma SoundWord(word: string)
    requires Word(word)
    ensures Sound(word) && Escaped(word) == word
  {
    SubstitutedPlain(word);
  }

  lemma {:induction false} ProtectedPlain(arg: string, n: nat)
    requires QUOTE !in arg && (if arg == "" then n == 0 else arg[|arg| - 1] != SLASH)
    ensures Protected(arg, n) == Slashes(n) + arg
    decreases |arg|
  {
    if arg != "" {
      var ch, rest := arg[0], arg[1..];
      assert ch in arg && arg == [ch] + rest;
      if ch == SLASH {
        ProtectedPlain(rest, n + 1);
        SlashMoves("", n, arg);
      } else {
        ProtectedPlain(rest, 0);
        PlainMoves(n, ch, rest);
      }
    }
  }

  lemma PlainMoves(n: nat, ch: char, rest: string)
    ensures Slashes(n) + [ch] + (Slashes(0) + rest) == Slashes(n) + ([ch] + rest)
  {
    assert Slashes(0) + rest == rest;
  }

  /** A path in quotes is read as it is if it has no quote and does not end in a backslash. */
  lemma QuotedPathIsRead(done: seq<string>, path: string, line: string)
    requires QUOTE !in path && (path != "" ==> path[|path| - 1] != SLASH)
    ensures Feed(Between(done), [QUOTE] + path + [QUOTE] + [SPACE] + line) == Feed(Between(done + [path]), line)
  {
    ProtectedPlain(path, 0);
    assert Slashes(0) + path == path;
    QuotedIsRead(done, path);
    FeedMore(done, Quoted(path), line);
    assert path + Slashes(0) == path;
  }

  lemma RundllTail(dll: string, name: string)
    requires QUOTE !in dll && (dll != "" ==> dll[|dll| - 1] != SLASH) && Word(name)
    ensures SplitTail([SPACE] + ([QUOTE] + dll + [QUOTE] + [SPACE] + ("service" + [SPACE] + name)))
         == [dll, "service", name]
  {
    hide Feed;
    hide Close;
    hide Word;
    var rest := "service" + [SPACE] + name;
    ServiceIsWord();
    SpaceFeed(Between([]), [QUOTE] + dll + [QUOTE] + [SPACE] + rest);
    BeginsArg([], "");
    QuotedPathIsRead([], dll, rest);
    WordIsRead([dll], "service", name);
    WordIsRead([dll, "service"], name, "");
    assert [] + [dll] == [dll] && [dll] + ["service"] == [dll, "service"];
    assert [dll, "service"] + [name] == [dll, "service", name];
    ClosesToNothing();
  }

  lemma ServiceIsWord()
    ensures Word("service")
  {
  }

  lemma ClosesToNothing()
    ensures Close(Between([])) == []
  {
  }

  lemma SvchostTail(group: string)
    requires Word(group)
    ensures SplitTail([SPACE] + ("-k" + [SPACE] + group)) == ["-k", group]
  {
    hide Feed;
    hide Close;
    hide Word;
    SwitchIsWord();
    SpaceFeed(Between([]), "-k" + [SPACE] + group);
    WordIsRead([], "-k", group);
    WordIsRead(["-k"], group, "");
    assert [] + ["-k"] == ["-k"] && ["-k"] + [group] == ["-k", group];
    ClosesToNothing();
  }

  lemma SwitchIsWord()
    ensures Word("-k")
  {
  }

  /** A word as program name, and the rest of the line. */
  lemma WordAsName(name: string, tail: string, executable: string)
    requires Word(name) && tail != "" && tail[0] == SPACE
    ensures ToArgv(name + tail, executable) == [name] + SplitTail(tail)
  {
    forall i | 0 <= i < |name| ensures !White(name[i]) {
      assert name[i] in name;
    }
    assert (name + tail)[0] == name[0] && name[0] in name;
    PlainName(name, tail, executable);
  }

  /**
   The value registered for a service in a process of its own, read as a command line: rundll32 is told to call
   `service` in the program's library, with the name of the service.
   */
  lemma StandaloneCommandLine(w: World, c: Config, executable: string)
    requires Valid(c) && Ready(w) && Fold(c.name) !in w.services && c.standaloneOption != Some(false)
    requires Word(c.rundll32Executable) && Word(c.name)
    requires QUOTE !in c.dll && (c.dll != "" ==> c.dll[|c.dll| - 1] != SLASH)
    ensures var values, slot := InstallSpec(w, c, {}).0.tree.values, Slot(LocalMachine, ServicePath(c), "IMAGEPATH");
            && slot in values && values[slot].Sz?
            && ToArgv(values[slot].text, executable) == [c.rundll32Executable, c.dll, "service", c.name]
  {
    InstalledValues(w, c);
    StandaloneLists(c);
    var tail := [SPACE] + ([QUOTE] + c.dll + [QUOTE] + [SPACE] + ("service" + [SPACE] + c.name));
    StandaloneImage(c, tail);
    hide *;
    RundllTail(c.dll, c.name);
    WordAsName(c.rundll32Executable, tail, executable);
  }

  lemma StandaloneLists(c: Config)
    ensures var m, x := StandaloneValues(c), Slot(LocalMachine, ServicePath(c), "IMAGEPATH");
            x in m && m[x] == Sz(ImagePath(c)) && Sz(ImagePath(c)).text == ImagePath(c)
  {
    hide ImagePath;
    hide ServicePath;
  }

  lemma StandaloneImage(c: Config, tail: string)
    requires Standalone(c)
    requires tail == [SPACE] + ([QUOTE] + c.dll + [QUOTE] + [SPACE] + ("service" + [SPACE] + c.name))
    ensures ImagePath(c) == c.rundll32Executable + tail && tail != "" && tail[0] == SPACE
  {
  }

  /**
   The value registered for a service in an svchost process, read as a command line: svchost is told to run a group,
   and the value named after that group lists exactly this service.
   */
  lemma SvchostCommandLine(w: World, c: Config, executable: string)
    requires Valid(c) && Ready(w) && Fold(c.name) !in w.services && c.standaloneOption == Some(false)
    requires Word(c.svchostExecutable) && Word(c.name) && Word("_" + c.digest)
    ensures var values, slot := InstallSpec(w, c, {}).0.tree.values, Slot(LocalMachine, ServicePath(c), "IMAGEPATH");
            && slot in values && values[slot].Sz?
            && var argv := ToArgv(values[slot].text, executable);
               && argv == [c.svchostExecutable, "-k", "Broker_" + c.name + "_" + c.digest]
               && var group := Slot(LocalMachine, SVCHOST_PATH, Fold(argv[2]));
                  group in values && values[group].MultiSz?
                  && MultiString.DecodeExactly(values[group].buffer) == [c.name]
  {
    InstalledValues(w, c);
    SvchostLists(c);
    GroupIsWord(c);
    MultiString.DecodeExactlyInverts([c.name]);
    hide InstallSpec;
    hide Fold;
    hide SvchostValues;
    var tail := [SPACE] + ("-k" + [SPACE] + GroupName(c));
    assert ImagePath(c) == c.svchostExecutable + tail;
    assert GroupName(c) == "Broker_" + c.name + "_" + c.digest;
    hide ImagePath;
    hide ToArgv;
    hide GroupName;
    SvchostTail(GroupName(c));
    WordAsName(c.svchostExecutable, tail, executable);
  }

  lemma GroupIsWord(c: Config)
    requires Word(c.name) && Word("_" + c.digest)
    ensures Word(GroupName(c))
  {
    assert GroupName(c) == "Broker_" + c.name + ("_" + c.digest);
  }

  lemma SvchostLists(c: Config)
    ensures var m := SvchostValues(c);
            && Slot(LocalMachine, ServicePath(c), "IMAGEPATH") in m
            && m[Slot(LocalMachine, ServicePath(c), "IMAGEPATH")] == Sz(ImagePath(c))
            && Slot(LocalMachine, SVCHOST_PATH, GroupOf(c)) in m
            && m[Slot(LocalMachine, SVCHOST_PATH, GroupOf(c))] == MultiSz(MultiString.Encode([c.name]))
  {
    hide Fold;
    hide ImagePath;
    assert SVCHOST_PATH[0] != ServicePath(c)[0];
    assert |SVCHOST_PATH| == 5 && |SVCHOST_PATH + [GroupOf(c)]| == 6 && |ServicePath(c)| == 4;
  }

  // ---------------------------------------------------------------------------------------------
  // Uninstallation that fails

  /** Only the two values of the group are outside the service's own keys. */
  lemma GroupOutside(c: Config, x: (KeyName, string))
    requires x in SvchostValues(c) && !Under(x.0, ServiceKey(c))
    ensures x == Slot(LocalMachine, SVCHOST_PATH, GroupOf(c))
         || x == Slot(LocalMachine, SVCHOST_PATH + [GroupOf(c)], "COINITIALIZESECURITYPARAM")
  {
    ServiceKeyIs(c);
    hide Fold;
    hide ServiceKey;
    hide ImagePath;
    assert ServicePath(c) <= ServicePath(c) + ["PARAMETERS"];
  }

  /** The service's own keys are gone and its group is complete. */
  function GroupLeft(w: World, c: Config): World {
    Plus(w, c, [SetGroupValue, SetGroupKey])
  }

  lemma GroupLeftIs(w: World, c: Config)
    ensures GroupLeft(w, c) ==
            World(Tree(w.tree.keys + {GroupKey(c)},
                       w.tree.values[SlotOf(c, SetGroupValue) := ValueOf(c, SetGroupValue)]
                         [SlotOf(c, SetGroupKey) := ValueOf(c, SetGroupKey)]), w.services)
  {
    AddedOne(c, SetGroupValue);
    AddedOne(c, SetGroupKey);
    PlusCons(w, c, SetGroupValue, [SetGroupKey]);
    PlusOne(w, c, SetGroupValue);
    PlusOne(Plus(w, c, [SetGroupValue]), c, SetGroupKey);
    hide AddedValues;
    hide Plus;
    hide SlotOf;
    hide ValueOf;
    hide GroupKey;
    assert [SetGroupValue] + [SetGroupKey] == [SetGroupValue, SetGroupKey];
    assert w.tree.keys + {} == w.tree.keys;
  }

  lemma GroupValues(c: Config)
    ensures var m, s, k := SvchostValues(c), SlotOf(c, SetGroupValue), SlotOf(c, SetGroupKey);
            && s in m && m[s] == ValueOf(c, SetGroupValue) && k in m && m[k] == ValueOf(c, SetGroupKey) && s != k
            && !Under(s.0, ServiceKey(c)) && !Under(k.0, ServiceKey(c))
  {
    SlotIs(c, SetGroupValue);
    SlotIs(c, SetGroupKey);
    ServiceKeyIs(c);
    hide Fold;
    hide ServiceKey;
    hide SlotOf;
    hide ImagePath;
    assert SVCHOST_PATH[0] != ServicePath(c)[0] && (SVCHOST_PATH + [GroupOf(c)])[0] == SVCHOST_PATH[0];
    assert |SVCHOST_PATH + [GroupOf(c)]| == 6 && |ServicePath(c) + ["PARAMETERS"]| == 5;
  }

  lemma CallsOfSvchost(c: Config)
    requires !Standalone(c)
    ensures SetGroupValue in InstallOps(c) && SetGroupKey in InstallOps(c)
  {
    var n := |CreateOps(c)|;
    assert InstallOps(c)[n] == SetGroupValue && InstallOps(c)[n + 1] == SetGroupKey;
  }

  /** The values that deleting the service leaves. */
  lemma DropValues(w: World, c: Config)
    requires Fresh(w, c) && !Standalone(c)
    ensures var d, s, k := DropService(Plus(w, c, InstallOps(c)), c).tree.values, SlotOf(c, SetGroupValue),
                           SlotOf(c, SetGroupKey);
            && (forall x :: x in d <==> x in w.tree.values || x == s || x == k)
            && (forall x | x in w.tree.values :: x != s && x != k && d[x] == w.tree.values[x])
            && s != k && d[s] == ValueOf(c, SetGroupValue) && d[k] == ValueOf(c, SetGroupKey)
  {
    var d := DropService(Plus(w, c, InstallOps(c)), c).tree.values;
    DropLeaves(w, c, InstallOps(c));
    GroupValues(c);
    SvchostEntries(c);
    EntriesOwned(c);
    EntriesDropped(w, c);
    hide DropService;
    hide Plus;
    hide SvchostValues;
    hide InstallOps;
    hide SlotOf;
    hide ValueOf;
    hide Fold;
    hide AllValues;
    hide OwnsSlot;
    hide ServiceKey;
    hide Under;
    forall x | x in Entries(c) && !Under(x.0, ServiceKey(c))
      ensures x == SlotOf(c, SetGroupValue) || x == SlotOf(c, SetGroupKey)
    {
      GroupOutsideSlots(c, x);
    }
    forall x | x in w.tree.values ensures x !in Entries(c) {
      assert !OwnsSlot(c, x);
    }
  }

  lemma EntriesDropped(w: World, c: Config)
    ensures var d := DropService(Plus(w, c, InstallOps(c)), c).tree.values;
            forall x | x in Entries(c) && !Under(x.0, ServiceKey(c)) :: x in d && d[x] == Entries(c)[x]
  {
    hide AllValues;
    hide ServiceKey;
    hide InstallOps;
  }

  lemma TwoMore(d: map<(KeyName, string), Value>, w: map<(KeyName, string), Value>, s: (KeyName, string),
                k: (KeyName, string))
    requires forall x :: x in d <==> x in w || x == s || x == k
    requires forall x | x in w :: x != s && x != k && d[x] == w[x]
    ensures s != k ==> d == w[s := d[s]][k := d[k]]
  {
  }

  /** Deleting the service takes its own keys and leaves the group. */
  lemma DropLeavesGroup(w: World, c: Config)
    requires Fresh(w, c) && !Standalone(c)
    ensures DropService(Plus(w, c, InstallOps(c)), c) == GroupLeft(w, c)
  {
    var d := DropService(Plus(w, c, InstallOps(c)), c);
    CallsOfSvchost(c);
    DropLeaves(w, c, InstallOps(c));
    DropValues(w, c);
    GroupLeftIs(w, c);
    hide *;
    TwoMore(d.tree.values, w.tree.values, SlotOf(c, SetGroupValue), SlotOf(c, SetGroupKey));
  }

  lemma GroupOutsideSlots(c: Config, x: (KeyName, string))
    requires x in SvchostValues(c) && !Under(x.0, ServiceKey(c))
    ensures x == SlotOf(c, SetGroupValue) || x == SlotOf(c, SetGroupKey)
  {
    GroupOutside(c, x);
    SlotIs(c, SetGroupValue);
    SlotIs(c, SetGroupKey);
  }

  /** Deleting the group's key after that leaves its value. */
  lemma CutLeavesValue(w: World, c: Config)
    requires Fresh(w, c)
    ensures CutTree(GroupLeft(w, c).tree, GroupKey(c)) == Leftover(w, c).tree
  {
    GroupLeftIs(w, c);
    SlotsApart(c);
    var t, l := CutTree(GroupLeft(w, c).tree, GroupKey(c)), Leftover(w, c).tree;
    assert Under(GroupKey(c), GroupKey(c)) && !Under(SvchostKey(), GroupKey(c));
    forall k | k in w.tree.keys ensures !Under(k, GroupKey(c)) {
      assert !OwnsKey(c, k);
    }
    forall x | x in w.tree.values ensures !Under(x.0, GroupKey(c)) {
      assert !OwnsSlot(c, x);
    }
    assert t.keys == l.keys;
    assert t.values == l.values;
  }

  /**
   Uninstalling a complete installation, whichever of its calls fail. The first of the four calls on the control
   manager that fails is reported, nothing has changed, and uninstalling again succeeds; after them the result is
   success, and what is left of the group is what its deletion did not get to.
   */
  lemma UninstallWithFaults(w: World, c: Config, faults: set<UninstallOp>)
    requires Valid(c) && Ready(w) && Fresh(w, c)
    ensures var w1 := InstallSpec(w, c, {}).0;
            var r := UninstallSpec(w1, c, faults);
            if OpenManager in faults then r == (w1, Some(OpenManager))
            else if OpenService in faults then r == (w1, Some(OpenService))
            else if StopService in faults then r == (w1, Some(StopService))
            else if DeleteService in faults then r == (w1, Some(DeleteService))
            else if c.standaloneOption != Some(false) then r == (w, None)
            else if DeleteGroupKey in faults then r == (GroupLeft(w, c), None)
            else if DeleteGroupValue in faults then r == (Leftover(w, c), None)
            else r == (w, None)
    ensures UninstallSpec(InstallSpec(w, c, {}).0, c, {}) == (w, None)
  {
    var ops := InstallOps(c);
    InstallOpsDiffer(c);
    FullInstallKeepsGroup(c);
    PerformAllAdds(w, c, ops, {});
    assert ops[..|ops|] == ops;
    UninstallAfter(w, c, ops);
    if !Standalone(c) {
      DropLeavesGroup(w, c);
      UnregisterWithFaults(w, c, faults);
    }
  }

  lemma UnregisterWithFaults(w: World, c: Config, faults: set<UninstallOp>)
    requires Valid(c) && Fresh(w, c)
    ensures DeleteGroupKey in faults ==> UnregisterSpec(GroupLeft(w, c), c, faults) == GroupLeft(w, c)
    ensures DeleteGroupKey !in faults && DeleteGroupValue in faults ==>
              UnregisterSpec(GroupLeft(w, c), c, faults) == Leftover(w, c)
    ensures DeleteGroupKey !in faults && DeleteGroupValue !in faults ==>
              UnregisterSpec(GroupLeft(w, c), c, faults) == UnregisterSpec(GroupLeft(w, c), c, {})
  {
    GroupPath(c);
    SvchostPath();
    GroupLeftIs(w, c);
    CutLeavesValue(w, c);
  }
}
