/** The registry as a tree of keys with named values, and the operations the program performs on it. */
module Registry {
  import opened RegistryPath

  datatype Value = MultiSz(buffer: string) | Dword(number: nat) | ExpandSz(text: string) | Sz(text: string)

  /** A key is named by its hive and its folded path, one component per level. */
  datatype KeyName = KeyName(hive: Hive, path: seq<string>)

  /** The keys that exist and the values they hold, by key and folded value name. */
  datatype Tree = Tree(keys: set<KeyName>, values: map<(KeyName, string), Value>)

  datatype Outcome = Done | IllegalPath | Failed

  // ---------------------------------------------------------------------------------------------
  // Names

  /** Names are compared without regard to case. */
  function FoldChar(c: char): char {
    if 'a' <= c <= 'z' then c - 32 as char else c
  }

  function Fold(s: string): (r: string)
    ensures |r| == |s| && forall i | 0 <= i < |s| :: r[i] == FoldChar(s[i])
  {
    seq(|s|, i requires 0 <= i < |s| => FoldChar(s[i]))
  }

  function Components(sub: string): (r: seq<string>)
    ensures |r| >= 1
  {
    if sub == "" then [""]
    else if sub[0] == SEPARATOR then [""] + Components(sub[1..])
    else
      var rest := Components(sub[1..]);
      [[sub[0]] + rest[0]] + rest[1..]
  }

  function NameOf(hive: Hive, sub: string): KeyName {
    KeyName(hive, Components(Fold(sub)))
  }

  lemma {:induction false} ComponentsOfOne(s: string)
    requires SEPARATOR !in s
    ensures Components(s) == [s]
  {
    if s != "" {
      assert s[0] in s;
      ComponentsOfOne(s[1..]);
      assert [s[0]] + s[1..] == s;
    }
  }

  lemma {:induction false} ComponentsAppend(s: string, t: string)
    ensures Components(s + [SEPARATOR] + t) == Components(s) + Components(t)
  {
    var u := s + [SEPARATOR] + t;
    if s == "" {
      assert u[1..] == t;
    } else {
      assert u[1..] == s[1..] + [SEPARATOR] + t;
      ComponentsAppend(s[1..], t);
    }
  }

  lemma FoldAppend(s: string, t: string)
    ensures Fold(s + t) == Fold(s) + Fold(t)
  {
  }

  lemma FoldKeepsSeparators(s: string)
    ensures SEPARATOR in Fold(s) <==> SEPARATOR in s
  {
    forall i | 0 <= i < |s| ensures Fold(s)[i] == SEPARATOR <==> s[i] == SEPARATOR {
    }
    if SEPARATOR in s {
      var i :| 0 <= i < |s| && s[i] == SEPARATOR;
      assert Fold(s)[i] in Fold(s);
    }
  }

  /** The name of a key one level down. */
  lemma NameOfChild(hive: Hive, sub: string, child: string)
    requires SEPARATOR !in child
    ensures NameOf(hive, sub + [SEPARATOR] + child) == KeyName(hive, NameOf(hive, sub).path + [Fold(child)])
  {
    FoldAppend(sub + [SEPARATOR], child);
    FoldAppend(sub, [SEPARATOR]);
    assert Fold([SEPARATOR]) == [SEPARATOR];
    FoldKeepsSeparators(child);
    ComponentsAppend(Fold(sub), Fold(child));
    ComponentsOfOne(Fold(child));
  }

  // ---------------------------------------------------------------------------------------------
  // Operations on trees

  /** `k` is `root` or below it. */
  predicate Under(k: KeyName, root: KeyName) {
    k.hive == root.hive && root.path <= k.path
  }

  /** The key and all keys above it. */
  function Ancestors(k: KeyName): set<KeyName> {
    set i | 1 <= i <= |k.path| :: KeyName(k.hive, k.path[..i])
  }

  /** Writing a value creates the key, and those above it, if they are missing. */
  function Put(t: Tree, k: KeyName, name: string, v: Value): Tree {
    Tree(t.keys + Ancestors(k), t.values[(k, Fold(name)) := v])
  }

  function CutTree(t: Tree, root: KeyName): Tree {
    Tree(set k | k in t.keys && !Under(k, root), map x | x in t.values && !Under(x.0, root) :: t.values[x])
  }

  function CutValue(t: Tree, k: KeyName, name: string): Tree {
    t.(values := t.values - {(k, Fold(name))})
  }

  // ---------------------------------------------------------------------------------------------
  // The program's operations, by path

  /** `faulty` is a failure of the system call for some other reason. */
  function SetSpec(t: Tree, path: string, name: string, v: Value, faulty: bool): (Tree, Outcome) {
    match Decompose(path)
    case Illegal => (t, IllegalPath)
    case Key(hive, sub) => if faulty then (t, Failed) else (Put(t, NameOf(hive, sub), name, v), Done)
  }

  /** Deleting a tree fails if there is no such key. */
  function DeleteTreeSpec(t: Tree, path: string, faulty: bool): (Tree, Outcome) {
    match Decompose(path)
    case Illegal => (t, IllegalPath)
    case Key(hive, sub) =>
      if faulty || NameOf(hive, sub) !in t.keys then (t, Failed) else (CutTree(t, NameOf(hive, sub)), Done)
  }

  function DeleteValueSpec(t: Tree, path: string, name: string, faulty: bool): (Tree, Outcome) {
    match Decompose(path)
    case Illegal => (t, IllegalPath)
    case Key(hive, sub) =>
      if faulty || (NameOf(hive, sub), Fold(name)) !in t.values then (t, Failed)
      else (CutValue(t, NameOf(hive, sub), name), Done)
  }
}
