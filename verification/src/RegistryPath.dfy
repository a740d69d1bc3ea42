/** Registry paths: a predefined root, a separator, and a sub-key. */
module RegistryPath {
  import opened Wrappers

  const SEPARATOR: char := '\\'
  const GENERIC_SEPARATOR: char := '/'
  const NUL: char := '\0'

  datatype Hive = ClassesRoot | CurrentConfig | CurrentUser | LocalMachine | Users

  /** The roots as the program lists them: one name occurs twice. */
  const ROOTS: seq<(string, Hive)> := [
    ("HKEY_LOCAL_MACHINE", ClassesRoot), ("HKEY_CURRENT_CONFIG", CurrentConfig), ("HKEY_CURRENT_USER", CurrentUser),
    ("HKEY_LOCAL_MACHINE", LocalMachine), ("HKEY_USERS", Users),
    ("HKCR", ClassesRoot), ("HKCC", CurrentConfig), ("HKCU", CurrentUser), ("HKLM", LocalMachine), ("HKU", Users)]

  /** The roots as they are meant. */
  function IntendedRoot(name: string): Option<Hive> {
    if name == "HKEY_CLASSES_ROOT" then Some(ClassesRoot)
    else if name == "HKEY_CURRENT_CONFIG" then Some(CurrentConfig)
    else if name == "HKEY_CURRENT_USER" then Some(CurrentUser)
    else if name == "HKEY_LOCAL_MACHINE" then Some(LocalMachine)
    else if name == "HKEY_USERS" then Some(Users)
    else if name == "HKCR" then Some(ClassesRoot)
    else if name == "HKCC" then Some(CurrentConfig)
    else if name == "HKCU" then Some(CurrentUser)
    else if name == "HKLM" then Some(LocalMachine)
    else if name == "HKU" then Some(Users)
    else None
  }

  /** A hash map keeps the first of several entries with equal keys, and compares keys case-sensitively. */
  function Lookup(table: seq<(string, Hive)>, name: string): Option<Hive> {
    if table == [] then None
    else if table[0].0 == name then Some(table[0].1)
    else Lookup(table[1..], name)
  }

  function Normalized(path: string): (r: string)
    ensures |r| == |path|
    ensures forall i | 0 <= i < |path| :: r[i] == if path[i] == GENERIC_SEPARATOR then SEPARATOR else path[i]
  {
    seq(|path|, i requires 0 <= i < |path| => if path[i] == GENERIC_SEPARATOR then SEPARATOR else path[i])
  }

  function TrimRight(s: string): string
    decreases |s|
  {
    if s != "" && s[|s| - 1] == SEPARATOR then TrimRight(s[..|s| - 1]) else s
  }

  function TrimLeft(s: string): string {
    if s != "" && s[0] == SEPARATOR then TrimLeft(s[1..]) else s
  }

  function Trim(s: string): string {
    TrimLeft(TrimRight(s))
  }

  /** The index of the first separator, or the length if there is none. */
  function FirstSeparator(s: string): (n: nat)
    ensures n <= |s| && (n < |s| ==> s[n] == SEPARATOR) && SEPARATOR !in s[..n]
  {
    if s == "" || s[0] == SEPARATOR then 0 else 1 + FirstSeparator(s[1..])
  }

  /** A character pointer carries a string up to its first NUL. */
  function CString(s: string): string {
    if s == "" || s[0] == NUL then "" else [s[0]] + CString(s[1..])
  }

  datatype Decomposed = Key(hive: Hive, subKey: string) | Illegal

  function Decompose(path: string): Decomposed {
    var preferred := Normalized(path);
    var pure := TrimRight(preferred);
    TrimRightPrefix(preferred);
    var n := FirstSeparator(preferred);
    var first := if n < |pure| then pure[..n] else pure;
    var root := Lookup(ROOTS, first);
    if root.Some? && |first| < |pure| then Key(root.value, Trim(CString(preferred[|first| + 1..]))) else Illegal
  }

  // ---------------------------------------------------------------------------------------------
  // Trimming

  lemma {:induction false} TrimRightPrefix(s: string)
    ensures TrimRight(s) <= s
    ensures TrimRight(s) != "" ==> TrimRight(s)[|TrimRight(s)| - 1] != SEPARATOR
    ensures forall i | |TrimRight(s)| <= i < |s| :: s[i] == SEPARATOR
    decreases |s|
  {
    if s != "" && s[|s| - 1] == SEPARATOR {
      TrimRightPrefix(s[..|s| - 1]);
    }
  }

  lemma {:induction false} TrimLeftSuffix(s: string)
    ensures |TrimLeft(s)| <= |s| && TrimLeft(s) == s[|s| - |TrimLeft(s)|..]
    ensures TrimLeft(s) != "" ==> TrimLeft(s)[0] != SEPARATOR
    ensures TrimLeft(s) == "" ==> forall i | 0 <= i < |s| :: s[i] == SEPARATOR
  {
    if s != "" && s[0] == SEPARATOR {
      TrimLeftSuffix(s[1..]);
      if TrimLeft(s) == "" {
        forall i | 0 <= i < |s| ensures s[i] == SEPARATOR {
          assert i > 0 ==> s[i] == s[1..][i - 1];
        }
      }
    }
  }

  /** No separator at either end. */
  predicate Bare(s: string) {
    s != "" ==> s[0] != SEPARATOR && s[|s| - 1] != SEPARATOR
  }

  lemma TrimBare(s: string)
    ensures Bare(Trim(s))
    ensures Trim(s) == "" <==> forall i | 0 <= i < |s| :: s[i] == SEPARATOR
    ensures forall c | c in Trim(s) :: c in s
  {
    TrimRightPrefix(s);
    var t := TrimRight(s);
    TrimLeftSuffix(t);
    if Trim(s) == "" {
      assert t == "";
    } else {
      assert Trim(s)[|Trim(s)| - 1] == t[|t| - 1] == s[|t| - 1];
    }
  }

  lemma BareTrims(s: string)
    requires Bare(s)
    ensures Trim(s) == s
  {
  }

  lemma {:induction false} CStringPrefix(s: string)
    ensures CString(s) <= s && NUL !in CString(s)
    ensures NUL !in s ==> CString(s) == s
  {
    if s != "" && s[0] != NUL {
      CStringPrefix(s[1..]);
    }
  }

  // ---------------------------------------------------------------------------------------------
  // What a decomposition gives

  /** What follows the root, cleaned up. */
  function SubKey(preferred: string, n: nat): string
    requires n < |preferred|
  {
    Trim(CString(preferred[n + 1..]))
  }

  /** Decomposition as a function of the normalised path and the table of roots. */
  function FromNormalized(p: string, table: seq<(string, Hive)>): Decomposed {
    var n := FirstSeparator(p);
    if n < |TrimRight(p)| && n < |p| && Lookup(table, p[..n]).Some?
    then Key(Lookup(table, p[..n]).value, SubKey(p, n))
    else Illegal
  }

  lemma DecomposeKey(path: string)
    ensures Decompose(path) == FromNormalized(Normalized(path), ROOTS)
  {
    var preferred := Normalized(path);
    TrimRightPrefix(preferred);
    var n, m := FirstSeparator(preferred), |TrimRight(preferred)|;
    assert n < m ==> TrimRight(preferred)[..n] == preferred[..n];
  }

  lemma SubKeyIsClean(preferred: string, n: nat)
    requires n < |TrimRight(preferred)| <= |preferred| && preferred[n] == SEPARATOR
    requires GENERIC_SEPARATOR !in preferred
    ensures var sub := SubKey(preferred, n);
            && GENERIC_SEPARATOR !in sub && NUL !in sub && Bare(sub)
            && (NUL !in preferred ==> sub != "")
  {
    TrimRightPrefix(preferred);
    var rest, last := preferred[n + 1..], |TrimRight(preferred)| - 1;
    CStringPrefix(rest);
    TrimBare(CString(rest));
    assert rest[last - (n + 1)] == preferred[last] != SEPARATOR;
    assert forall c :: c in CString(rest) ==> c in rest;
    assert forall c :: c in rest ==> c in preferred;
  }

  /** A sub-key is clean, and empty only if a NUL hides everything but separators. */
  lemma DecomposedSubKey(path: string)
    requires Decompose(path).Key?
    ensures var sub := Decompose(path).subKey;
            && GENERIC_SEPARATOR !in sub && NUL !in sub && Bare(sub)
            && (NUL !in path ==> sub != "")
  {
    DecomposeKey(path);
    var preferred := Normalized(path);
    TrimRightPrefix(preferred);
    SubKeyIsClean(preferred, FirstSeparator(preferred));
    if NUL !in path {
      forall i | 0 <= i < |preferred| ensures preferred[i] != NUL {
        assert path[i] in path;
      }
    }
  }

  /** The same path, up to the style of its separators. */
  predicate SameStyle(p: string, q: string) {
    && |p| == |q|
    && forall i | 0 <= i < |p| ::
         p[i] == q[i] || (p[i] in {SEPARATOR, GENERIC_SEPARATOR} && q[i] in {SEPARATOR, GENERIC_SEPARATOR})
  }

  lemma StyleDoesNotMatter(p: string, q: string)
    requires SameStyle(p, q)
    ensures Decompose(p) == Decompose(q)
  {
    assert Normalized(p) == Normalized(q);
  }

  lemma {:induction false} FirstSeparatorAppend(s: string)
    ensures FirstSeparator(s + [SEPARATOR]) == FirstSeparator(s)
  {
    if s != "" && s[0] != SEPARATOR {
      assert (s + [SEPARATOR])[1..] == s[1..] + [SEPARATOR];
      FirstSeparatorAppend(s[1..]);
    }
  }

  lemma {:induction false} CStringAppend(s: string)
    ensures CString(s + [SEPARATOR]) == if NUL in s then CString(s) else s + [SEPARATOR]
  {
    if s != "" && s[0] != NUL {
      assert (s + [SEPARATOR])[1..] == s[1..] + [SEPARATOR];
      assert s == [s[0]] + s[1..];
      CStringAppend(s[1..]);
    }
  }

  lemma SubKeyAppend(p: string, n: nat)
    requires n < |p|
    ensures SubKey(p + [SEPARATOR], n) == SubKey(p, n)
  {
    var rest := p[n + 1..];
    assert (p + [SEPARATOR])[n + 1..] == rest + [SEPARATOR];
    CStringAppend(rest);
    CStringPrefix(rest);
    assert (rest + [SEPARATOR])[..|rest|] == rest;
  }

  /** Trailing separators, of either style, change nothing. */
  lemma TrailingSeparatorsDoNotMatter(path: string, sep: char)
    requires sep == SEPARATOR || sep == GENERIC_SEPARATOR
    ensures Decompose(path + [sep]) == Decompose(path)
  {
    assert Normalized(path + [sep]) == Normalized(path) + [SEPARATOR];
    DecomposeKey(path);
    DecomposeKey(path + [sep]);
    FromNormalizedAppend(Normalized(path), ROOTS);
  }

  lemma FromNormalizedAppend(p: string, table: seq<(string, Hive)>)
    ensures FromNormalized(p + [SEPARATOR], table) == FromNormalized(p, table)
  {
    FirstSeparatorAppend(p);
    assert (p + [SEPARATOR])[..|p|] == p;
    assert TrimRight(p + [SEPARATOR]) == TrimRight(p);
    TrimRightPrefix(p);
    var n := FirstSeparator(p);
    assert (p + [SEPARATOR])[..n] == p[..n];
    if n < |p| {
      SubKeyAppend(p, n);
    }
  }

  lemma {:induction false} FirstSeparatorAfter(name: string, rest: string)
    requires SEPARATOR !in name
    ensures FirstSeparator(name + [SEPARATOR] + rest) == |name|
  {
    var s := name + [SEPARATOR] + rest;
    if name != "" {
      assert s[1..] == name[1..] + [SEPARATOR] + rest;
      assert name[0] in name;
      FirstSeparatorAfter(name[1..], rest);
    }
  }

  lemma {:induction false} LookupIsListed(table: seq<(string, Hive)>, name: string)
    requires Lookup(table, name).Some?
    ensures exists i :: 0 <= i < |table| && table[i].0 == name
  {
    if table[0].0 != name {
      LookupIsListed(table[1..], name);
    }
  }

  lemma RootsArePlain(name: string)
    requires Lookup(ROOTS, name).Some?
    ensures SEPARATOR !in name && GENERIC_SEPARATOR !in name
  {
    LookupIsListed(ROOTS, name);
    LongRootsArePlain(name);
    ShortRootsArePlain(name);
    var i :| 0 <= i < |ROOTS| && ROOTS[i].0 == name;
    if i >= 5 {
      assert ROOTS[5..][i - 5].0 == name;
    } else {
      assert ROOTS[..5][i].0 == name;
    }
  }

  lemma LongRootsArePlain(name: string)
    ensures (exists i :: 0 <= i < 5 && ROOTS[..5][i].0 == name) ==> SEPARATOR !in name && GENERIC_SEPARATOR !in name
  {
  }

  lemma ShortRootsArePlain(name: string)
    ensures (exists i :: 0 <= i < 5 && ROOTS[5..][i].0 == name) ==> SEPARATOR !in name && GENERIC_SEPARATOR !in name
  {
  }

  /** A clean sub-key under a known root is found again unchanged. */
  lemma DecomposeComposed(name: string, sub: string)
    requires Lookup(ROOTS, name).Some?
    requires sub != "" && Bare(sub) && GENERIC_SEPARATOR !in sub && NUL !in sub
    ensures Decompose(name + [SEPARATOR] + sub) == Key(Lookup(ROOTS, name).value, sub)
  {
    var path := name + [SEPARATOR] + sub;
    RootsArePlain(name);
    assert Normalized(path) == path;
    DecomposeKey(path);
    ComposedNormal(path, name, sub, ROOTS);
  }

  lemma ComposedNormal(path: string, name: string, sub: string, table: seq<(string, Hive)>)
    requires path == name + [SEPARATOR] + sub && SEPARATOR !in name && Lookup(table, name).Some?
    requires sub != "" && Bare(sub) && NUL !in sub
    ensures FromNormalized(path, table) == Key(Lookup(table, name).value, sub)
  {
    assert path[|path| - 1] == sub[|sub| - 1];
    assert TrimRight(path) == path;
    FirstSeparatorAfter(name, sub);
    assert path[..|name|] == name && path[|name| + 1..] == sub;
    CStringPrefix(sub);
    BareTrims(sub);
  }

  /** A root alone is no path to a key. */
  lemma RootAlone(name: string)
    requires Lookup(ROOTS, name).Some?
    ensures Decompose(name) == Illegal
  {
    RootsArePlain(name);
    DecomposeKey(name);
    assert Normalized(name) == name;
    TrimRightPrefix(name);
  }

  /**
   Decomposing the root, a separator and the sub-key of a decomposition gives the same pair, except exactly if the
   sub-key is empty, as it can be when the path has a NUL.
   */
  lemma DecomposeAgain(path: string, name: string)
    requires Decompose(path).Key? && Lookup(ROOTS, name) == Some(Decompose(path).hive)
    ensures Decompose(name + [SEPARATOR] + Decompose(path).subKey) == Decompose(path)
       <==> Decompose(path).subKey != ""
  {
    var sub := Decompose(path).subKey;
    if sub == "" {
      RootAlone(name);
      TrailingSeparatorsDoNotMatter(name, SEPARATOR);
      assert name + [SEPARATOR] + sub == name + [SEPARATOR];
    } else {
      DecomposedSubKey(path);
      DecomposeComposed(name, sub);
    }
  }

  lemma LookupFrom(table: seq<(string, Hive)>, i: nat, name: string)
    requires i < |table|
    ensures Lookup(table[i..], name) ==
            if table[i].0 == name then Some(table[i].1) else Lookup(table[i + 1..], name)
  {
    assert table[i..][0] == table[i] && table[i..][1..] == table[i + 1..];
  }

  /** The table as a chain of comparisons. */
  lemma RootsInOrder(name: string)
    ensures Lookup(ROOTS, name) ==
            if name == "HKEY_LOCAL_MACHINE" then Some(ClassesRoot)
            else if name == "HKEY_CLASSES_ROOT" then Lookup(ROOTS[1..], name)
            else IntendedRoot(name)
  {
    hide Lookup;
    assert ROOTS[0..] == ROOTS;
    LookupFrom(ROOTS, 0, name);
    LookupFrom(ROOTS, 1, name);
    LookupFrom(ROOTS, 2, name);
    LookupFrom(ROOTS, 3, name);
    LookupFrom(ROOTS, 4, name);
    LookupFrom(ROOTS, 5, name);
    LookupFrom(ROOTS, 6, name);
    LookupFrom(ROOTS, 7, name);
    LookupFrom(ROOTS, 8, name);
    LookupFrom(ROOTS, 9, name);
    LookupEmpty(name);
    assert ROOTS[10..] == [];
  }

  lemma LookupEmpty(name: string)
    ensures Lookup([], name) == None
  {
  }

  /** The repeated entry sends one long name to the wrong root and leaves another unknown; nothing else. */
  lemma RootsExceptTwo(name: string)
    ensures Lookup(ROOTS, name) ==
            if name == "HKEY_LOCAL_MACHINE" then Some(ClassesRoot)
            else if name == "HKEY_CLASSES_ROOT" then None
            else IntendedRoot(name)
  {
    RootsInOrder(name);
    if name == "HKEY_CLASSES_ROOT" && Lookup(ROOTS[1..], name).Some? {
      LookupIsListed(ROOTS[1..], name);
    }
  }

  // ---------------------------------------------------------------------------------------------
  // Exactly what decomposes into what

  function Separators(n: nat): string {
    if n == 0 then "" else Separators(n - 1) + [SEPARATOR]
  }

  lemma {:induction false} SeparatorsAre(n: nat)
    ensures |Separators(n)| == n && forall i | 0 <= i < n :: Separators(n)[i] == SEPARATOR
  {
    if n > 0 {
      SeparatorsAre(n - 1);
    }
  }

  lemma AllSeparators(s: string)
    requires forall i | 0 <= i < |s| :: s[i] == SEPARATOR
    ensures s == Separators(|s|)
  {
    SeparatorsAre(|s|);
  }

  /** Text without separators at its ends, with separators put before and after it. */
  predicate Padded(s: string, a: nat, sub: string, b: nat) {
    s == Separators(a) + sub + Separators(b) && sub != "" && Bare(sub)
  }

  lemma TrimPads(s: string) returns (a: nat, b: nat)
    requires Trim(s) != ""
    ensures Padded(s, a, Trim(s), b)
  {
    var t := TrimRight(s);
    TrimBare(s);
    TrimRightPrefix(s);
    TrimLeftSuffix(t);
    a, b := |t| - |Trim(s)|, |s| - |t|;
    TrimLeftLeaves(t);
    AllSeparators(t[..a]);
    AllSeparators(s[|t|..]);
    assert s == t[..a] + Trim(s) + s[|t|..];
  }

  lemma {:induction false} TrimLeftLeaves(s: string)
    ensures |TrimLeft(s)| <= |s| && forall i | 0 <= i < |s| - |TrimLeft(s)| :: s[i] == SEPARATOR
  {
    if s != "" && s[0] == SEPARATOR {
      TrimLeftLeaves(s[1..]);
      forall i | 0 <= i < |s| - |TrimLeft(s)| ensures s[i] == SEPARATOR {
        assert i > 0 ==> s[i] == s[1..][i - 1];
      }
    }
  }

  lemma {:induction false} TrimRightOfPadded(s: string, b: nat)
    requires s != "" && s[|s| - 1] != SEPARATOR
    ensures TrimRight(s + Separators(b)) == s
  {
    if b == 0 {
      assert s + "" == s;
    } else {
      TrimRightOfPadded(s, b - 1);
      TrimRightDrop(s + Separators(b - 1));
      assert s + Separators(b) == s + Separators(b - 1) + [SEPARATOR];
    }
  }

  lemma TrimRightDrop(s: string)
    ensures TrimRight(s + [SEPARATOR]) == TrimRight(s)
  {
    assert (s + [SEPARATOR])[..|s|] == s;
  }

  lemma {:induction false} TrimLeftOfPadded(a: nat, s: string)
    requires s != "" && s[0] != SEPARATOR
    ensures TrimLeft(Separators(a) + s) == s
  {
    if a == 0 {
      assert "" + s == s;
    } else {
      SeparatorsAre(a);
      SeparatorsAre(a - 1);
      var t := Separators(a) + s;
      assert t[1..] == Separators(a - 1) + s;
      TrimLeftOfPadded(a - 1, s);
    }
  }

  lemma TrimOfPadded(s: string, a: nat, sub: string, b: nat)
    requires Padded(s, a, sub, b)
    ensures Trim(s) == sub
  {
    var front := Separators(a) + sub;
    assert front[|front| - 1] == sub[|sub| - 1];
    TrimRightOfPadded(front, b);
    TrimLeftOfPadded(a, sub);
  }

  /** The normalised path is a root, separators, the sub-key between its first and last other character, separators. */
  ghost predicate Spells(p: string, hive: Hive, sub: string) {
    exists name, a: nat, b: nat :: SpelledAs(p, hive, sub, name, a, b)
  }

  predicate SpelledAs(p: string, hive: Hive, sub: string, name: string, a: nat, b: nat) {
    && Lookup(ROOTS, name) == Some(hive) && a > 0 && sub != "" && Bare(sub)
    && p == name + Separators(a) + sub + Separators(b)
  }

  /** Which paths without NULs decompose, and into what: all others are rejected. */
  lemma DecomposeIff(path: string, hive: Hive, sub: string)
    requires NUL !in path
    ensures Decompose(path) == Key(hive, sub) <==> Spells(Normalized(path), hive, sub)
  {
    var p := Normalized(path);
    DecomposeKey(path);
    NormalizedNul(path);
    hide Decompose;
    hide FromNormalized;
    hide Normalized;
    if FromNormalized(p, ROOTS) == Key(hive, sub) {
      DecomposedSubKey(path);
      KeyIsSpelled(p, hive, sub);
    }
    if Spells(p, hive, sub) {
      var name, a: nat, b: nat :| SpelledAs(p, hive, sub, name, a, b);
      SpelledIsKey(p, hive, sub, name, a, b);
    }
  }

  lemma KeyIsSpelled(p: string, hive: Hive, sub: string)
    requires NUL !in p && FromNormalized(p, ROOTS) == Key(hive, sub) && sub != ""
    ensures Spells(p, hive, sub)
  {
    hide Lookup;
    hide TrimRight;
    hide TrimLeft;
    var n := FirstSeparator(p);
    var rest := p[n + 1..];
    NoNul(p, n + 1);
    assert p == p[..n] + [SEPARATOR] + rest;
    hide FirstSeparator;
    hide CString;
    hide Trim;
    hide Separators;
    var a, b := TrimPads(rest);
    PadsOnce(p[..n], a, sub, b);
    assert SpelledAs(p, hive, sub, p[..n], a + 1, b);
  }

  lemma NormalizedNul(path: string)
    requires NUL !in path
    ensures NUL !in Normalized(path)
  {
    forall i | 0 <= i < |path| ensures Normalized(path)[i] != NUL {
      assert path[i] in path;
    }
  }

  lemma NoNul(p: string, n: nat)
    requires NUL !in p && n <= |p|
    ensures CString(p[n..]) == p[n..]
  {
    CStringPrefix(p[n..]);
  }

  lemma PadsOnce(name: string, a: nat, sub: string, b: nat)
    ensures name + [SEPARATOR] + (Separators(a) + sub + Separators(b))
         == name + Separators(a + 1) + sub + Separators(b)
  {
    SeparatorsAre(a);
    SeparatorsAre(a + 1);
    assert [SEPARATOR] + Separators(a) == Separators(a + 1);
  }

  lemma SpelledIsKey(p: string, hive: Hive, sub: string, name: string, a: nat, b: nat)
    requires SpelledAs(p, hive, sub, name, a, b) && NUL !in p
    ensures FromNormalized(p, ROOTS) == Key(hive, sub)
  {
    hide Lookup;
    hide TrimRight;
    hide Trim;
    hide FirstSeparator;
    hide CString;
    var rest := Separators(a - 1) + sub + Separators(b);
    RootsArePlain(name);
    PadsOnce(name, a - 1, sub, b);
    CutAfter(p, name, rest);
    FirstSeparatorAfter(name, rest);
    EndsInSub(p, name, a, sub, b);
    NoNul(p, |name| + 1);
    TrimOfPadded(rest, a - 1, sub, b);
  }

  lemma CutAfter(p: string, name: string, rest: string)
    requires p == name + [SEPARATOR] + rest
    ensures p[..|name|] == name && |name| < |p| && p[|name| + 1..] == rest
  {
  }

  lemma EndsInSub(p: string, name: string, a: nat, sub: string, b: nat)
    requires p == name + Separators(a) + sub + Separators(b) && a > 0 && sub != "" && Bare(sub)
    ensures |name| < |TrimRight(p)|
  {
    var front := name + Separators(a) + sub;
    assert front[|front| - 1] == sub[|sub| - 1];
    TrimRightOfPadded(front, b);
  }
}
