/** Installation and uninstallation refine a set of installed services, and what a failed installation leaves behind. */
module InstalledServices {
  import opened RegistryPath
  import opened Wrappers
  import opened Registry
  import opened ServiceManager

  /** A name that stays one component of a registry path. */
  predicate Plain(s: string) {
    SEPARATOR !in s && GENERIC_SEPARATOR !in s && NUL !in s
  }

  predicate Valid(c: Config) {
    c.name != "" && Plain(c.name) && Plain(c.digest)
  }

  /** Different services: their names differ under case folding, and digests have one fixed length. */
  predicate Distinct(c: Config, d: Config) {
    Fold(c.name) != Fold(d.name) && |c.digest| == |d.digest|
  }

  // ---------------------------------------------------------------------------------------------
  // Where the paths lead

  lemma LocalMachineRoot()
    ensures Lookup(ROOTS, "HKLM") == Some(LocalMachine)
  {
    assert ROOTS[1..][1..] == ROOTS[2..] && ROOTS[2..][1..] == ROOTS[3..] && ROOTS[3..][1..] == ROOTS[4..];
    assert ROOTS[4..][1..] == ROOTS[5..] && ROOTS[5..][1..] == ROOTS[6..];
    assert ROOTS[6..][1..] == ROOTS[7..] && ROOTS[7..][1..] == ROOTS[8..];
    assert ROOTS[7..][0].0 == "HKCU" && "HKCU"[2] != "HKLM"[2];
    assert ROOTS[6..][0].0 == "HKCC" && "HKCC"[2] != "HKLM"[2];
    assert ROOTS[5..][0].0 == "HKCR" && "HKCR"[2] != "HKLM"[2];
    forall i | 0 <= i < 5 ensures ROOTS[i..][0].0 == ROOTS[i].0 && |ROOTS[i].0| > 4 {
    }
    assert Lookup(ROOTS[8..], "HKLM") == Some(LocalMachine);
    assert Lookup(ROOTS[5..], "HKLM") == Lookup(ROOTS[6..], "HKLM") == Lookup(ROOTS[7..], "HKLM");
    assert Lookup(ROOTS[3..], "HKLM") == Lookup(ROOTS[4..], "HKLM") == Lookup(ROOTS[5..], "HKLM");
    assert Lookup(ROOTS[1..], "HKLM") == Lookup(ROOTS[2..], "HKLM") == Lookup(ROOTS[3..], "HKLM");
    assert ROOTS[0..] == ROOTS;
  }

  /** A sub-key that a root can carry unchanged. */
  predicate Clean(sub: string) {
    sub != "" && Bare(sub) && GENERIC_SEPARATOR !in sub && NUL !in sub
  }

  lemma ChildIsClean(sub: string, child: string)
    requires Clean(sub) && Plain(child) && child != ""
    ensures Clean(sub + [SEPARATOR] + child)
  {
    var s := sub + [SEPARATOR] + child;
    assert s[0] == sub[0] && s[|s| - 1] == child[|child| - 1] && child[|child| - 1] in child;
  }

  lemma SvchostSubKeyIsClean()
    ensures Clean(SVCHOST_SUB_KEY)
  {
    SvchostFirstHalf();
    SvchostSecondHalf();
    assert "Microsoft\\Windows NT\\CurrentVersion\\Svchost" == "Microsoft\\Windows NT" + "\\CurrentVersion\\Svchost";
  }

  lemma SvchostFirstHalf()
    ensures GENERIC_SEPARATOR !in "Microsoft\\Windows NT" && NUL !in "Microsoft\\Windows NT"
  {
  }

  lemma SvchostSecondHalf()
    ensures GENERIC_SEPARATOR !in "\\CurrentVersion\\Svchost" && NUL !in "\\CurrentVersion\\Svchost"
  {
  }

  lemma ServicesSubKeyIsClean()
    ensures Clean(SERVICES_SUB_KEY)
  {
    var b := "CurrentControlSet\\Services";
    assert GENERIC_SEPARATOR !in b && NUL !in b && b[|b| - 1] == 's';
    assert SERVICES_SUB_KEY == "SYSTEM" + [SEPARATOR] + b;
  }

  /** A clean sub-key below HKLM names the key it spells. */
  lemma MachinePath(sub: string)
    requires Clean(sub)
    ensures Decompose("HKLM" + [SEPARATOR] + sub) == Key(LocalMachine, sub)
  {
    LocalMachineRoot();
    DecomposeComposed("HKLM", sub);
  }

  lemma SvchostPath()
    ensures Decompose(SVCHOST_KEY) == Key(LocalMachine, SVCHOST_SUB_KEY)
  {
    SvchostSubKeyIsClean();
    MachinePath(SVCHOST_SUB_KEY);
  }

  lemma PlainGroup(c: Config)
    requires Valid(c)
    ensures Plain(GroupName(c)) && GroupName(c) != ""
  {
  }

  lemma GroupPath(c: Config)
    requires Valid(c)
    ensures Decompose(GroupKeyPath(c)) == Key(LocalMachine, SVCHOST_SUB_KEY + [SEPARATOR] + GroupName(c))
    ensures NameOf(LocalMachine, SVCHOST_SUB_KEY + [SEPARATOR] + GroupName(c)) == GroupKey(c)
  {
    PlainGroup(c);
    SvchostSubKeyIsClean();
    ChildPath(SVCHOST_SUB_KEY, GroupName(c));
  }

  lemma ChildPath(sub: string, child: string)
    requires Clean(sub) && Plain(child) && child != ""
    ensures Clean(sub + [SEPARATOR] + child)
    ensures Decompose("HKLM" + [SEPARATOR] + sub + [SEPARATOR] + child) == Key(LocalMachine, sub + [SEPARATOR] + child)
    ensures NameOf(LocalMachine, sub + [SEPARATOR] + child) == Child(NameOf(LocalMachine, sub), child)
  {
    ChildIsClean(sub, child);
    MachinePath(sub + [SEPARATOR] + child);
    assert "HKLM" + [SEPARATOR] + sub + [SEPARATOR] + child == "HKLM" + [SEPARATOR] + (sub + [SEPARATOR] + child);
    NameOfChild(LocalMachine, sub, child);
  }

  lemma ParamPath(c: Config)
    requires Valid(c)
    ensures var sub := SERVICES_SUB_KEY + [SEPARATOR] + c.name + [SEPARATOR] + "Parameters";
            Decompose(ParamKeyPath(c)) == Key(LocalMachine, sub) && NameOf(LocalMachine, sub) == ParamKey(c)
  {
    ServicesSubKeyIsClean();
    ChildPath(SERVICES_SUB_KEY, c.name);
    assert Plain("Parameters");
    ChildPath(SERVICES_SUB_KEY + [SEPARATOR] + c.name, "Parameters");
    MachinePath(SERVICES_SUB_KEY + [SEPARATOR] + c.name + [SEPARATOR] + "Parameters");
  }

  /** The two branches of the registry that the program writes to part at their first component. */
  lemma BranchesPart()
    ensures ServicesKey().path[0] != SvchostKey().path[0]
    ensures ServicesKey().hive == SvchostKey().hive == LocalMachine
  {
    FirstComponent("SYSTEM", "CurrentControlSet\\Services");
    FirstComponent("SOFTWARE", "Microsoft\\Windows NT\\CurrentVersion\\Svchost");
    assert |Fold("SYSTEM")| != |Fold("SOFTWARE")|;
  }

  lemma FirstComponent(s: string, t: string)
    requires SEPARATOR !in s
    ensures Components(Fold(s + [SEPARATOR] + t))[0] == Fold(s)
  {
    FoldAppend(s + [SEPARATOR], t);
    FoldAppend(s, [SEPARATOR]);
    assert Fold([SEPARATOR]) == [SEPARATOR];
    FoldKeepsSeparators(s);
    ComponentsAppend(Fold(s), Fold(t));
    ComponentsOfOne(Fold(s));
  }

  /** The name can be recovered from the group name, so different services have different groups. */
  lemma GroupsDiffer(c: Config, d: Config)
    requires Distinct(c, d)
    ensures Fold(GroupName(c)) != Fold(GroupName(d))
  {
    if Fold(GroupName(c)) == Fold(GroupName(d)) {
      var g, h := Fold(GroupName(c)), Fold(GroupName(d));
      assert |c.name| == |d.name|;
      forall i | 0 <= i < |c.name| ensures Fold(c.name)[i] == Fold(d.name)[i] {
        assert GroupName(c)[7 + i] == c.name[i] && GroupName(d)[7 + i] == d.name[i];
        assert g[7 + i] == h[7 + i];
      }
    }
  }

  // ---------------------------------------------------------------------------------------------
  // What belongs to a service

  predicate OwnsKey(c: Config, k: KeyName) {
    Under(k, ServiceKey(c)) || Under(k, GroupKey(c))
  }

  predicate OwnsSlot(c: Config, x: (KeyName, string)) {
    OwnsKey(c, x.0) || x == GroupSlot(c)
  }

  /** No two services own the same key or value. */
  lemma OwnersAreUnique(c: Config, d: Config, x: (KeyName, string))
    requires Distinct(c, d)
    ensures !(OwnsKey(c, x.0) && OwnsKey(d, x.0))
    ensures !(OwnsSlot(c, x) && OwnsSlot(d, x))
  {
    BranchesPart();
    GroupsDiffer(c, d);
    var p := x.0.path;
    var s, g := ServicesKey().path, SvchostKey().path;
    assert forall e :: Under(x.0, ServiceKey(e)) ==> p[|s|] == Fold(e.name) && p[0] == s[0];
    assert forall e :: Under(x.0, GroupKey(e)) ==> p[|g|] == Fold(GroupName(e)) && p[0] == g[0];
  }

  /** The world has the branches the program writes below, and nothing of the service. */
  ghost predicate Fresh(w: World, c: Config) {
    && Fold(c.name) !in w.services
    && (forall k :: k in w.tree.keys ==> !OwnsKey(c, k))
    && (forall x :: x in w.tree.values ==> !OwnsSlot(c, x))
  }

  ghost predicate Ready(w: World) {
    Ancestors(ServicesKey()) <= w.tree.keys && Ancestors(SvchostKey()) <= w.tree.keys
  }

  // ---------------------------------------------------------------------------------------------
  // What each call of an installation adds

  function AddedKeys(c: Config, op: InstallOp): set<KeyName> {
    match op
    case OpenScm => {}
    case Describe => {}
    case SetGroupValue => {}
    case CreateService => {ServiceKey(c)}
    case SetGroupKey => {GroupKey(c)}
    case _ => {ServiceKey(c), ParamKey(c)}
  }

  function AddedValues(c: Config, op: InstallOp): map<(KeyName, string), Value> {
    match op
    case OpenScm => map[]
    case Describe => map[]
    case CreateService => map[(ServiceKey(c), Fold("ImagePath")) := Sz(ImagePath(c))]
    case SetGroupValue => map[GroupSlot(c) := SetValue(c, op)]
    case SetGroupKey => map[(GroupKey(c), Fold(SetName(c, op))) := SetValue(c, op)]
    case _ => map[(ParamKey(c), Fold(SetName(c, op))) := SetValue(c, op)]
  }

  function AllKeys(c: Config, ops: seq<InstallOp>): set<KeyName> {
    if ops == [] then {} else AddedKeys(c, ops[0]) + AllKeys(c, ops[1..])
  }

  function AllValues(c: Config, ops: seq<InstallOp>): map<(KeyName, string), Value> {
    if ops == [] then map[] else AddedValues(c, ops[0]) + AllValues(c, ops[1..])
  }

  /** The world with the entries of some calls added to it, by plain union. */
  function Plus(w: World, c: Config, ops: seq<InstallOp>): World {
    World(Tree(w.tree.keys + AllKeys(c, ops), w.tree.values + AllValues(c, ops)),
          if CreateService in ops then w.services + {Fold(c.name)} else w.services)
  }

  lemma AncestorsOfChild(k: KeyName, name: string)
    ensures Ancestors(Child(k, name)) == Ancestors(k) + {Child(k, name)}
  {
    var child := Child(k, name);
    assert child.path[..|k.path|] == k.path && child.path[..|child.path|] == child.path;
    forall i | 1 <= i <= |k.path| ensures child.path[..i] == k.path[..i] {
    }
    forall a | a in Ancestors(child) ensures a in Ancestors(k) + {child} {
      var i :| 1 <= i <= |child.path| && a == KeyName(child.hive, child.path[..i]);
      assert i <= |k.path| ==> a == KeyName(k.hive, k.path[..i]);
    }
    forall a | a in Ancestors(k) + {child} ensures a in Ancestors(child) {
      if a != child {
        var i :| 1 <= i <= |k.path| && a == KeyName(k.hive, k.path[..i]);
        assert a == KeyName(child.hive, child.path[..i]);
      } else {
        assert a == KeyName(child.hive, child.path[..|child.path|]);
      }
    }
  }

  lemma PutAdds(w: World, k: KeyName, name: string, v: Value, new': set<KeyName>)
    requires Ancestors(k) <= w.tree.keys + new' && new' <= Ancestors(k)
    ensures Put(w.tree, k, name, v) == Tree(w.tree.keys + new', w.tree.values + map[(k, Fold(name)) := v])
  {
  }

  lemma MapUnionAssociates<K, V>(a: map<K, V>, b: map<K, V>, c: map<K, V>)
    ensures a + b + c == a + (b + c)
  {
  }

  lemma PlusNone(w: World, c: Config)
    ensures Plus(w, c, []) == w
  {
    assert w.tree.keys + {} == w.tree.keys;
    assert w.tree.values + map[] == w.tree.values;
  }

  lemma PlusOne(w: World, c: Config, op: InstallOp)
    ensures Plus(w, c, [op]) ==
            World(Tree(w.tree.keys + AddedKeys(c, op), w.tree.values + AddedValues(c, op)),
                  if op == CreateService then w.services + {Fold(c.name)} else w.services)
  {
    assert [op][1..] == [] && (CreateService in [op] <==> op == CreateService);
    assert AllKeys(c, [op]) == AddedKeys(c, op) + AllKeys(c, []);
    assert AllValues(c, [op]) == AddedValues(c, op) + AllValues(c, []);
    assert AddedKeys(c, op) + {} == AddedKeys(c, op);
    assert AddedValues(c, op) + map[] == AddedValues(c, op);
  }

  lemma PlusCons(w: World, c: Config, op: InstallOp, ops: seq<InstallOp>)
    ensures Plus(Plus(w, c, [op]), c, ops) == Plus(w, c, [op] + ops)
  {
    PlusOne(w, c, op);
    assert ([op] + ops)[1..] == ops;
    assert w.tree.keys + AddedKeys(c, op) + AllKeys(c, ops) == w.tree.keys + (AddedKeys(c, op) + AllKeys(c, ops));
    MapUnionAssociates(w.tree.values, AddedValues(c, op), AllValues(c, ops));
    assert CreateService in [op] + ops <==> op == CreateService || CreateService in ops;
  }

  /** A call that does not fail adds its entries and touches nothing else. */
  lemma PerformAdds(w: World, c: Config, op: InstallOp)
    requires Valid(c) && Ready(w) && (op == CreateService ==> Fold(c.name) !in w.services)
    ensures Perform(w, c, op, false) == (Plus(w, c, [op]), true)
  {
    PlusOne(w, c, op);
    AncestorsOfChild(ServicesKey(), c.name);
    AncestorsOfChild(ServiceKey(c), "Parameters");
    AncestorsOfChild(SvchostKey(), GroupName(c));
    assert w.tree.keys + {} == w.tree.keys && w.tree.values + map[] == w.tree.values;
    match op {
      case OpenScm =>
      case Describe =>
      case CreateService => PutAdds(w, ServiceKey(c), "ImagePath", Sz(ImagePath(c)), {ServiceKey(c)});
      case SetGroupValue =>
        SvchostPath();
        PutAdds(w, SvchostKey(), GroupName(c), SetValue(c, op), {});
      case SetGroupKey =>
        GroupPath(c);
        PutAdds(w, GroupKey(c), SetName(c, op), SetValue(c, op), {GroupKey(c)});
      case _ =>
        ParamPath(c);
        PutAdds(w, ParamKey(c), SetName(c, op), SetValue(c, op), {ServiceKey(c), ParamKey(c)});
    }
  }

  /** How many calls precede the first faulty one. */
  function FirstFault(ops: seq<InstallOp>, faults: set<InstallOp>): (k: nat)
    ensures k <= |ops|
    ensures forall j | 0 <= j < k :: ops[j] !in faults
    ensures k < |ops| ==> ops[k] in faults
  {
    if ops == [] || ops[0] in faults then 0 else 1 + FirstFault(ops[1..], faults)
  }

  /** An installation performs exactly the calls before its first fault. */
  lemma {:induction false} PerformAllAdds(w: World, c: Config, ops: seq<InstallOp>, faults: set<InstallOp>)
    requires Valid(c) && Ready(w)
    requires CreateService in ops ==> Fold(c.name) !in w.services
    requires forall i, j | 0 <= i < j < |ops| :: ops[i] != ops[j]
    ensures var k := FirstFault(ops, faults);
            PerformAll(w, c, ops, faults) == (Plus(w, c, ops[..k]), if k == |ops| then None else Some(ops[k]))
    decreases |ops|
  {
    hide Perform;
    hide Plus;
    if ops == [] || ops[0] in faults {
      assert ops[..0] == [];
      PlusNone(w, c);
      if ops != [] {
        FaultyPerform(w, c, ops[0]);
      }
    } else {
      var rest, w1 := ops[1..], Plus(w, c, [ops[0]]);
      PerformAdds(w, c, ops[0]);
      PlusOne(w, c, ops[0]);
      PerformAllAdds(w1, c, rest, faults);
      var k := FirstFault(rest, faults);
      PlusCons(w, c, ops[0], rest[..k]);
      assert [ops[0]] + rest[..k] == ops[..k + 1];
      PerformCons(w, c, ops[0], rest, faults);
      assert [ops[0]] + rest == ops;
    }
  }

  lemma FaultyPerform(w: World, c: Config, op: InstallOp)
    requires Valid(c)
    ensures Perform(w, c, op, true) == (w, false)
  {
  }

  // ---------------------------------------------------------------------------------------------
  // Uninstalling after any part of an installation

  /** Everything a service's installation adds lies below its service key, or is its group. */
  lemma {:induction false} AllOwned(c: Config, ops: seq<InstallOp>)
    ensures forall k | k in AllKeys(c, ops) ::
              Under(k, ServiceKey(c)) || (k == GroupKey(c) && SetGroupKey in ops)
    ensures forall x | x in AllValues(c, ops) ::
              || Under(x.0, ServiceKey(c))
              || (x.0 == GroupKey(c) && SetGroupKey in ops)
              || (x == GroupSlot(c) && SetGroupValue in ops)
    decreases |ops|
  {
    if ops != [] {
      AllOwned(c, ops[1..]);
      assert ops == [ops[0]] + ops[1..];
    }
  }

  lemma {:induction false} GroupAdded(c: Config, ops: seq<InstallOp>)
    ensures SetGroupKey in ops ==> GroupKey(c) in AllKeys(c, ops)
    ensures SetGroupValue in ops ==>
              GroupSlot(c) in AllValues(c, ops) && AllValues(c, ops)[GroupSlot(c)] == SetValue(c, SetGroupValue)
    decreases |ops|
  {
    if ops != [] {
      GroupAdded(c, ops[1..]);
      AllOwned(c, ops[1..]);
      SlotsApart(c);
      assert ops == [ops[0]] + ops[1..];
    }
  }

  /** The group's value is in neither of the service's own keys. */
  lemma SlotsApart(c: Config)
    ensures !OwnsKey(c, SvchostKey()) && !Under(GroupKey(c), ServiceKey(c))
  {
    BranchesPart();
    assert GroupKey(c).path[0] == SvchostKey().path[0];
    assert ServiceKey(c).path[0] == ServicesKey().path[0];
    assert |GroupKey(c).path| == |SvchostKey().path| + 1;
  }

  /** The world with nothing but the service's group value added. */
  function Leftover(w: World, c: Config): World {
    w.(tree := w.tree.(values := w.tree.values[GroupSlot(c) := SetValue(c, SetGroupValue)]))
  }

  /** The group is deleted if its key exists; otherwise deleting the key fails and the value is left alone. */
  lemma UnregisterDeletes(w: World, c: Config)
    requires Valid(c)
    ensures UnregisterSpec(w, c, {}) ==
            if GroupKey(c) !in w.tree.keys then w
            else w.(tree := CutValue(CutTree(w.tree, GroupKey(c)), SvchostKey(), GroupName(c)))
  {
    GroupPath(c);
    SvchostPath();
    var t := CutTree(w.tree, GroupKey(c));
    if GroupSlot(c) !in t.values {
      assert t.values - {GroupSlot(c)} == t.values;
    }
  }

  /** What dropping the service leaves of it: its group. */
  lemma DropLeaves(w: World, c: Config, ops: seq<InstallOp>)
    requires Fresh(w, c)
    ensures var d := DropService(Plus(w, c, ops), c);
            && d.services == w.services
            && d.tree.keys == w.tree.keys + (if SetGroupKey in ops then {GroupKey(c)} else {})
            && (forall x :: x in d.tree.values <==>
                  x in w.tree.values || (x in AllValues(c, ops) && !Under(x.0, ServiceKey(c))))
            && (forall x | x in w.tree.values :: d.tree.values[x] == w.tree.values[x])
            && (SetGroupValue in ops ==>
                  GroupSlot(c) in d.tree.values && d.tree.values[GroupSlot(c)] == SetValue(c, SetGroupValue))
  {
    AllOwned(c, ops);
    GroupAdded(c, ops);
    SlotsApart(c);
    var p := Plus(w, c, ops);
    forall x | x in w.tree.values ensures x !in AllValues(c, ops) && p.tree.values[x] == w.tree.values[x] {
      assert !OwnsSlot(c, x);
    }
  }

  /**
   Uninstalling after any part of an installation that created the service restores the world exactly, except
   if the group value had been written and the group key had not: then that value stays behind.
   */
  lemma UninstallAfter(w: World, c: Config, ops: seq<InstallOp>)
    requires Valid(c) && Fresh(w, c) && CreateService in ops
    requires Standalone(c) ==> SetGroupValue !in ops && SetGroupKey !in ops
    ensures UninstallSpec(Plus(w, c, ops), c, {}) ==
            (if SetGroupValue in ops && SetGroupKey !in ops then Leftover(w, c) else w, None)
  {
    var d := DropService(Plus(w, c, ops), c);
    DropLeaves(w, c, ops);
    if Standalone(c) {
      GroupStays(w, d, c, ops);
    } else {
      UnregisterDeletes(d, c);
      if SetGroupKey in ops {
        GroupGoes(w, d, c, ops);
      } else {
        GroupStays(w, d, c, ops);
      }
    }
  }

  /** The group key is there: its tree, and then the value, are deleted. */
  lemma GroupGoes(w: World, d: World, c: Config, ops: seq<InstallOp>)
    requires Fresh(w, c) && SetGroupKey in ops && d == DropService(Plus(w, c, ops), c)
    ensures GroupKey(c) in d.tree.keys
    ensures CutValue(CutTree(d.tree, GroupKey(c)), SvchostKey(), GroupName(c)) == w.tree
  {
    DropLeaves(w, c, ops);
    AllOwned(c, ops);
    var t := CutValue(CutTree(d.tree, GroupKey(c)), SvchostKey(), GroupName(c));
    forall k | k in w.tree.keys ensures !OwnsKey(c, k) {
    }
    assert t.keys == w.tree.keys;
    forall x ensures x in t.values <==> x in w.tree.values {
      if x in w.tree.values {
        assert !OwnsSlot(c, x);
      }
    }
    assert t.values == w.tree.values;
  }

  /** The group key is missing: nothing of the group is deleted. */
  lemma GroupStays(w: World, d: World, c: Config, ops: seq<InstallOp>)
    requires Fresh(w, c) && SetGroupKey !in ops && d == DropService(Plus(w, c, ops), c)
    ensures GroupKey(c) !in d.tree.keys
    ensures d == if SetGroupValue in ops then Leftover(w, c) else w
  {
    DropLeaves(w, c, ops);
    AllOwned(c, ops);
    GroupAdded(c, ops);
    SlotsApart(c);
    assert Under(GroupKey(c), GroupKey(c)) && OwnsKey(c, GroupKey(c));
    assert d.tree.keys == w.tree.keys;
    var v := (if SetGroupValue in ops then Leftover(w, c) else w).tree.values;
    forall x ensures x in d.tree.values <==> x in v {
    }
    assert d.tree.values == v;
  }

  // ---------------------------------------------------------------------------------------------
  // A failed installation

  lemma InstallOpsDiffer(c: Config)
    ensures var ops := InstallOps(c);
            && (forall i, j | 0 <= i < j < |ops| :: ops[i] != ops[j])
            && |ops| >= 3 && ops[0] == OpenScm && ops[1] == CreateService
            && (Standalone(c) ==> SetGroupValue !in ops && SetGroupKey !in ops)
  {
  }

  /** In the calls before a fault, exactly the group value is there without the group key if the key is the fault. */
  lemma OnlyBetween(c: Config, k: nat)
    requires k < |InstallOps(c)|
    ensures var before := InstallOps(c)[..k];
            && (SetGroupValue in before && SetGroupKey !in before <==> InstallOps(c)[k] == SetGroupKey)
            && (CreateService in before <==> k >= 2)
  {
    var ops := InstallOps(c);
    InstallOpsDiffer(c);
    assert k >= 2 ==> ops[..k][1] == CreateService;
    var n := |CreateOps(c)|;
    if !Standalone(c) {
      assert ops[n] == SetGroupValue && ops[n + 1] == SetGroupKey;
      assert k > n ==> ops[..k][n] == SetGroupValue;
      assert k > n + 1 ==> ops[..k][n + 1] == SetGroupKey;
    }
  }

  /**
   Installation that fails at any of its calls, then uninstallation whose deletions fail only for lack of an
   entry. A failure before the service exists leaves the world as it was, and nothing to uninstall; a later one
   is undone completely, except exactly the one at the group key, which leaves the group value behind.
   */
  lemma FailedInstallThenUninstall(w: World, c: Config, faults: set<InstallOp>)
    requires Valid(c) && Ready(w) && Fresh(w, c)
    requires InstallSpec(w, c, faults).1.Some?
    ensures var (w1, failed) := InstallSpec(w, c, faults);
            var r := UninstallSpec(w1, c, {});
            match failed.value
            case OpenScm => w1 == w && r == (w, Some(OpenService))
            case CreateService => w1 == w && r == (w, Some(OpenService))
            case SetGroupKey => r == (Leftover(w, c), None)
            case _ => r == (w, None)
  {
    var ops := InstallOps(c);
    var k := FirstFault(ops, faults);
    InstallOpsDiffer(c);
    PerformAllAdds(w, c, ops, faults);
    OnlyBetween(c, k);
    if k >= 2 {
      UninstallAfter(w, c, ops[..k]);
    } else {
      PlusNone(w, c);
      if k == 1 {
        assert ops[..1] == [OpenScm];
        PlusOne(w, c, OpenScm);
        assert w.tree.keys + {} == w.tree.keys && w.tree.values + map[] == w.tree.values;
      }
    }
  }

  /** A residue is a real one: the value was not there before. */
  lemma LeftoverIsNew(w: World, c: Config)
    requires Fresh(w, c)
    ensures Leftover(w, c) != w && GroupSlot(c) in Leftover(w, c).tree.values && GroupSlot(c) !in w.tree.values
  {
    assert OwnsSlot(c, GroupSlot(c));
  }

  /** No uninstallation removes it, whichever of its calls fail: the service it would open does not exist. */
  lemma LeftoverOutlastsUninstall(w: World, c: Config, faults: set<UninstallOp>)
    requires Fresh(w, c)
    ensures UninstallSpec(Leftover(w, c), c, faults) ==
            (Leftover(w, c), Some(if OpenManager in faults then OpenManager else OpenService))
  {
  }

  /** A complete installation overwrites it with the same value, and uninstalling after that leaves nothing. */
  lemma LeftoverGoesWithNextInstall(w: World, c: Config)
    requires Valid(c) && Ready(w) && Fresh(w, c) && !Standalone(c)
    ensures var (w1, failed) := InstallSpec(Leftover(w, c), c, {});
            failed == None && w1 == InstallSpec(w, c, {}).0 && UninstallSpec(w1, c, {}) == (w, None)
  {
    var ops := InstallOps(c);
    InstallOpsDiffer(c);
    FullInstallKeepsGroup(c);
    assert ops[..|ops|] == ops;
    PerformAllAdds(Leftover(w, c), c, ops, {});
    PerformAllAdds(w, c, ops, {});
    assert ops[|CreateOps(c)|] == SetGroupValue;
    PlusOverwrites(w, c, ops);
    UninstallAfter(w, c, ops);
  }

  lemma PlusOverwrites(w: World, c: Config, ops: seq<InstallOp>)
    requires SetGroupValue in ops
    ensures Plus(Leftover(w, c), c, ops) == Plus(w, c, ops)
  {
    GroupAdded(c, ops);
    assert Leftover(w, c).tree.values + AllValues(c, ops) == w.tree.values + AllValues(c, ops);
  }

  // ---------------------------------------------------------------------------------------------
  // Histories of installations and uninstallations

  function Entries(c: Config): map<(KeyName, string), Value> {
    AllValues(c, InstallOps(c))
  }

  function EntryKeys(c: Config): set<KeyName> {
    AllKeys(c, InstallOps(c))
  }

  /** Services that may be installed side by side on a machine that has none of them. */
  ghost predicate Family(base: World, all: set<Config>) {
    && Ready(base)
    && (forall c | c in all :: Valid(c) && Fresh(base, c))
    && (forall c, d | c in all && d in all && c != d :: Distinct(c, d))
  }

  /** `w` is `base` together with the entries of exactly the services in `s`. */
  ghost predicate IsUnion(w: World, base: World, s: set<Config>) {
    && (forall k :: k in w.tree.keys <==> k in base.tree.keys || exists c :: c in s && k in EntryKeys(c))
    && (forall x :: x in w.tree.values <==> x in base.tree.values || exists c :: c in s && x in Entries(c))
    && (forall x | x in base.tree.values :: w.tree.values[x] == base.tree.values[x])
    && (forall c, x | c in s && x in Entries(c) :: w.tree.values[x] == Entries(c)[x])
    && (forall n :: n in w.services <==> n in base.services || exists c :: c in s && n == Fold(c.name))
  }

  lemma EntriesOwned(c: Config)
    ensures forall k | k in EntryKeys(c) :: OwnsKey(c, k)
    ensures forall x | x in Entries(c) :: OwnsSlot(c, x)
  {
    AllOwned(c, InstallOps(c));
  }

  /** A service that is not installed is absent from the union of those that are. */
  lemma UnionFresh(w: World, base: World, s: set<Config>, all: set<Config>, c: Config)
    requires Family(base, all) && s <= all && c in all && c !in s && IsUnion(w, base, s)
    ensures Fresh(w, c) && Ready(w)
  {
    forall k | k in w.tree.keys ensures !OwnsKey(c, k) {
      ForeignKey(w, base, s, all, c, k);
    }
    forall x | x in w.tree.values ensures !OwnsSlot(c, x) {
      ForeignSlot(w, base, s, all, c, x);
    }
  }

  lemma ForeignKey(w: World, base: World, s: set<Config>, all: set<Config>, c: Config, k: KeyName)
    requires Family(base, all) && s <= all && c in all && c !in s && IsUnion(w, base, s) && k in w.tree.keys
    ensures !OwnsKey(c, k)
  {
    if k !in base.tree.keys {
      var d :| d in s && k in EntryKeys(d);
      EntriesOwned(d);
      OwnersAreUnique(c, d, (k, ""));
    }
  }

  lemma ForeignSlot(w: World, base: World, s: set<Config>, all: set<Config>, c: Config, x: (KeyName, string))
    requires Family(base, all) && s <= all && c in all && c !in s && IsUnion(w, base, s) && x in w.tree.values
    ensures !OwnsSlot(c, x)
  {
    if x !in base.tree.values {
      var d :| d in s && x in Entries(d);
      EntriesOwned(d);
      OwnersAreUnique(c, d, x);
    }
  }

  lemma UnionPlus(w: World, base: World, s: set<Config>, all: set<Config>, c: Config)
    requires Family(base, all) && s <= all && c in all && c !in s && IsUnion(w, base, s)
    ensures IsUnion(Plus(w, c, InstallOps(c)), base, s + {c})
  {
    hide Plus;
    hide Entries;
    hide EntryKeys;
    hide OwnsSlot;
    hide OwnsKey;
    hide Valid;
    hide Ready;
    hide Distinct;
    UnionFresh(w, base, s, all, c);
    EntriesOwned(c);
    PlusEntries(w, c);
    var p := Plus(w, c, InstallOps(c));
    forall x | x in w.tree.values ensures p.tree.values[x] == w.tree.values[x] {
      assert !OwnsSlot(c, x);
    }
  }

  /** A complete installation adds all entries of a service. */
  lemma PlusEntries(w: World, c: Config)
    ensures Plus(w, c, InstallOps(c)) ==
            World(Tree(w.tree.keys + EntryKeys(c), w.tree.values + Entries(c)), w.services + {Fold(c.name)})
  {
    assert InstallOps(c)[1] == CreateService;
  }

  /** The world without anything that belongs to `c`. */
  function Without(w: World, c: Config): World {
    World(Tree(set k | k in w.tree.keys && !OwnsKey(c, k),
               map x | x in w.tree.values && !OwnsSlot(c, x) :: w.tree.values[x]),
          w.services - {Fold(c.name)})
  }

  lemma UnionWithout(w: World, base: World, s: set<Config>, all: set<Config>, c: Config)
    requires Family(base, all) && s <= all && c in s && IsUnion(w, base, s)
    ensures IsUnion(Without(w, c), base, s - {c})
  {
    var v, r := Without(w, c), s - {c};
    EntriesOwned(c);
    forall d | d in r
      ensures Fold(d.name) != Fold(c.name)
      ensures forall k | k in EntryKeys(d) :: !OwnsKey(c, k)
      ensures forall x | x in Entries(d) :: !OwnsSlot(c, x)
    {
      EntriesOwned(d);
      forall k | k in EntryKeys(d) ensures !OwnsKey(c, k) {
        OwnersAreUnique(c, d, (k, ""));
      }
      forall x | x in Entries(d) ensures !OwnsSlot(c, x) {
        OwnersAreUnique(c, d, x);
      }
    }
    WithoutKeys(w, base, s, c);
    WithoutValues(w, base, s, c);
    assert Fresh(base, c);
  }

  lemma WithoutKeys(w: World, base: World, s: set<Config>, c: Config)
    requires IsUnion(w, base, s) && c in s && Fresh(base, c)
    requires forall k | k in EntryKeys(c) :: OwnsKey(c, k)
    requires forall d, k | d in s - {c} && k in EntryKeys(d) :: !OwnsKey(c, k)
    ensures forall k :: k in Without(w, c).tree.keys <==>
                          k in base.tree.keys || exists d :: d in s - {c} && k in EntryKeys(d)
  {
    forall k | k in Without(w, c).tree.keys && k !in base.tree.keys
      ensures exists d :: d in s - {c} && k in EntryKeys(d)
    {
      var d :| d in s && k in EntryKeys(d);
      assert d != c;
    }
  }

  lemma WithoutValues(w: World, base: World, s: set<Config>, c: Config)
    requires IsUnion(w, base, s) && c in s && Fresh(base, c)
    requires forall x | x in Entries(c) :: OwnsSlot(c, x)
    requires forall d, x | d in s - {c} && x in Entries(d) :: !OwnsSlot(c, x)
    ensures forall x :: x in Without(w, c).tree.values <==>
                          x in base.tree.values || exists d :: d in s - {c} && x in Entries(d)
  {
    forall x | x in Without(w, c).tree.values && x !in base.tree.values
      ensures exists d :: d in s - {c} && x in Entries(d)
    {
      var d :| d in s && x in Entries(d);
      assert d != c;
    }
  }

  /** What was taken away are exactly the entries of `c`. */
  lemma WithoutPlus(w: World, base: World, s: set<Config>, all: set<Config>, c: Config)
    requires Family(base, all) && s <= all && c in s && IsUnion(w, base, s)
    ensures w == Plus(Without(w, c), c, InstallOps(c))
  {
    UnionWithout(w, base, s, all, c);
    UnionPlus(Without(w, c), base, s - {c}, all, c);
    assert s - {c} + {c} == s;
    UnionIsUnique(w, Plus(Without(w, c), c, InstallOps(c)), base, s);
  }

  lemma UnionIsUnique(v: World, w: World, base: World, s: set<Config>)
    requires IsUnion(v, base, s) && IsUnion(w, base, s)
    ensures v == w
  {
    assert v.tree.keys == w.tree.keys;
    assert v.services == w.services;
    forall x | x in v.tree.values ensures x in w.tree.values && v.tree.values[x] == w.tree.values[x] {
      if x !in base.tree.values {
        var c :| c in s && x in Entries(c);
      }
    }
    assert v.tree.values == w.tree.values;
  }

  datatype Action = Install(config: Config) | Uninstall(config: Config)

  /** One undisturbed action on the world, and whether it succeeded. */
  function Act(w: World, a: Action): (World, bool) {
    match a
    case Install(c) => var r := InstallSpec(w, c, {}); (r.0, r.1.None?)
    case Uninstall(c) => var r := UninstallSpec(w, c, {}); (r.0, r.1.None?)
  }

  /** The same action on the set of installed services. */
  function AbstractAct(s: set<Config>, a: Action): (set<Config>, bool) {
    match a
    case Install(c) => (s + {c}, c !in s)
    case Uninstall(c) => (s - {c}, c in s)
  }

  /** Each action does to the registry exactly what it does to the set, and succeeds exactly when that changes. */
  lemma ActRefines(w: World, base: World, s: set<Config>, all: set<Config>, a: Action)
    requires Family(base, all) && s <= all && a.config in all && IsUnion(w, base, s)
    ensures IsUnion(Act(w, a).0, base, AbstractAct(s, a).0)
    ensures Act(w, a).1 == AbstractAct(s, a).1
  {
    match a
    case Install(c) =>
      if c in s {
        InstallRefused(w, c);
        assert s + {c} == s;
      } else {
        UnionFresh(w, base, s, all, c);
        InstallOpsDiffer(c);
        PerformAllAdds(w, c, InstallOps(c), {});
        assert InstallOps(c)[..|InstallOps(c)|] == InstallOps(c);
        UnionPlus(w, base, s, all, c);
      }
    case Uninstall(c) =>
      if c in s {
        var v := Without(w, c);
        UnionWithout(w, base, s, all, c);
        WithoutPlus(w, base, s, all, c);
        UnionFresh(v, base, s - {c}, all, c);
        InstallOpsDiffer(c);
        FullInstallKeepsGroup(c);
        UninstallAfter(v, c, InstallOps(c));
      } else {
        UnionFresh(w, base, s, all, c);
        assert s - {c} == s;
      }
  }

  lemma FullInstallKeepsGroup(c: Config)
    ensures CreateService in InstallOps(c)
    ensures SetGroupValue in InstallOps(c) ==> SetGroupKey in InstallOps(c)
  {
    assert InstallOps(c)[1] == CreateService;
    if !Standalone(c) {
      assert InstallOps(c)[|CreateOps(c)| + 1] == SetGroupKey;
    }
  }

  /** A service that exists is not created again, and nothing changes. */
  lemma InstallRefused(w: World, c: Config)
    requires Fold(c.name) in w.services
    ensures InstallSpec(w, c, {}) == (w, Some(CreateService))
  {
    var rest := InstallOps(c)[2..];
    assert InstallOps(c) == [OpenScm] + ([CreateService] + rest);
    PerformCons(w, c, OpenScm, [CreateService] + rest, {});
    PerformCons(w, c, CreateService, rest, {});
  }

  function ActAll(w: World, h: seq<Action>): World
    decreases |h|
  {
    if h == [] then w else ActAll(Act(w, h[0]).0, h[1..])
  }

  function AbstractAll(s: set<Config>, h: seq<Action>): set<Config>
    decreases |h|
  {
    if h == [] then s else AbstractAll(AbstractAct(s, h[0]).0, h[1..])
  }

  /**
   After any history of installations and uninstallations, in any order and with repetitions, the registry and
   the control manager hold the base together with the disjoint union of the entries of exactly the services
   that are installed.
   */
  lemma {:induction false} HistoryRefines(w: World, base: World, s: set<Config>, all: set<Config>, h: seq<Action>)
    requires Family(base, all) && s <= all && IsUnion(w, base, s)
    requires forall i | 0 <= i < |h| :: h[i].config in all
    ensures IsUnion(ActAll(w, h), base, AbstractAll(s, h)) && AbstractAll(s, h) <= all
    decreases |h|
  {
    if h != [] {
      ActRefines(w, base, s, all, h[0]);
      HistoryRefines(Act(w, h[0]).0, base, AbstractAct(s, h[0]).0, all, h[1..]);
    }
  }

  /** From a machine without any of them. */
  lemma InstalledServicesRefine(base: World, all: set<Config>, h: seq<Action>)
    requires Family(base, all) && forall i | 0 <= i < |h| :: h[i].config in all
    ensures IsUnion(ActAll(base, h), base, AbstractAll({}, h))
    ensures AbstractAll({}, h) == {} ==> ActAll(base, h) == base
  {
    assert IsUnion(base, base, {});
    HistoryRefines(base, base, {}, all, h);
    if AbstractAll({}, h) == {} {
      UnionIsUnique(ActAll(base, h), base, base, {});
    }
  }
}
