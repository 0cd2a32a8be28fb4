/**
 * The singleton that maps every default platform tuple to its list of
 * directory names: the canonical path first, then the legacy names.
 */
module DefaultOsInfoPathMapping {
  import opened JavaLang
  import opened OsInfo
  import opened NativeOsArchUtil
  import opened DefaultOsInfo

  /**
   * m is the default mapping: its keys are exactly the default tuples; each
   * list starts with the canonical path of its key, and the rest of the list
   * is the legacy paths, in order, of a constant that has that key.
   */
  ghost predicate IsDefaultMapping(m: map<OsInfo, seq<string>>) {
    CanonicalFirst(m) &&
    (forall o :: o in m ==> exists d :: GetOsInfo(d) == o) &&
    (forall d :: GetOsInfo(d) in m && |m[GetOsInfo(d)]| >= 1 && m[GetOsInfo(d)][1..] == GetLegacyPaths(d))
  }

  /** The tuples of a list of constants. */
  ghost function TuplesOf(values: seq<DefaultOsInfo>): set<OsInfo>
  {
    if values == [] then {} else TuplesOf(values[..|values| - 1]) + {GetOsInfo(values[|values| - 1])}
  }

  /** A tuple of a list of constants belongs to one of them. */
  lemma {:induction false} TuplesOfMember(values: seq<DefaultOsInfo>, o: OsInfo)
    requires o in TuplesOf(values)
    ensures exists d :: d in values && GetOsInfo(d) == o
  {
    var last := values[|values| - 1];
    if GetOsInfo(last) != o {
      TuplesOfMember(values[..|values| - 1], o);
      var d :| d in values[..|values| - 1] && GetOsInfo(d) == o;
      assert d in values;
    }
  }

  /** Every list of m starts with the canonical path of its key. */
  ghost predicate CanonicalFirst(m: map<OsInfo, seq<string>>) {
    forall o :: o in m ==> |m[o]| >= 1 && m[o][0] == GetPathForOsInfo(o)
  }

  /** Every constant among the first n of values is a key whose list continues with its legacy paths. */
  ghost predicate LegacyPathsKept(values: seq<DefaultOsInfo>, n: nat, m: map<OsInfo, seq<string>>)
    requires n <= |values|
  {
    forall j :: 0 <= j < n ==>
      GetOsInfo(values[j]) in m && |m[GetOsInfo(values[j])]| >= 1 &&
      m[GetOsInfo(values[j])][1..] == GetLegacyPaths(values[j])
  }

  /** The state of the loop of createDefaultMapping after the first n constants of values. */
  ghost predicate Filled(values: seq<DefaultOsInfo>, n: nat, m: map<OsInfo, seq<string>>)
    requires n <= |values|
  {
    CanonicalFirst(m) && m.Keys == TuplesOf(values[..n]) && LegacyPathsKept(values, n, m)
  }

  /** One put of the loop extends the state by the next constant. */
  lemma PutStep(values: seq<DefaultOsInfo>, i: nat, m: map<OsInfo, seq<string>>, allPaths: seq<string>)
    requires i < |values| && Filled(values, i, m)
    requires allPaths == [GetPathForOsInfo(GetOsInfo(values[i]))] + GetLegacyPaths(values[i])
    ensures Filled(values, i + 1, m[GetOsInfo(values[i]) := allPaths])
  {
    var m' := m[GetOsInfo(values[i]) := allPaths];
    forall j | 0 <= j <= i
      ensures GetOsInfo(values[j]) in m' && |m'[GetOsInfo(values[j])]| >= 1 &&
        m'[GetOsInfo(values[j])][1..] == GetLegacyPaths(values[j])
    {
      if GetOsInfo(values[j]) == GetOsInfo(values[i]) {
        // A later constant with an earlier constant's tuple overwrites it with the same list.
        SameTupleSameLegacy(values[j], values[i]);
      }
    }
    assert values[..i + 1][..i] == values[..i];
  }

  /** Once every constant of values is put, each of them is a key holding its legacy paths. */
  lemma FilledAll(values: seq<DefaultOsInfo>, m: map<OsInfo, seq<string>>)
    requires Filled(values, |values|, m)
    ensures m.Keys == TuplesOf(values)
    ensures forall d :: d in values ==>
      GetOsInfo(d) in m && |m[GetOsInfo(d)]| >= 1 && m[GetOsInfo(d)][1..] == GetLegacyPaths(d)
  {
    assert values[..|values|] == values;
    forall d | d in values
      ensures GetOsInfo(d) in m && |m[GetOsInfo(d)]| >= 1 && m[GetOsInfo(d)][1..] == GetLegacyPaths(d)
    {
      var j :| 0 <= j < |values| && values[j] == d;
    }
  }

  /**
   * The loop of createDefaultMapping over a list of constants: one put per
   * constant, in list order, of its tuple and its list of paths.
   */
  method PutAll(values: seq<DefaultOsInfo>) returns (m: map<OsInfo, seq<string>>)
    ensures CanonicalFirst(m)
    ensures m.Keys == TuplesOf(values)
    ensures forall d :: d in values ==>
      GetOsInfo(d) in m && |m[GetOsInfo(d)]| >= 1 && m[GetOsInfo(d)][1..] == GetLegacyPaths(d)
  {
    m := map[];
    var i := 0;
    while i < |values|
      invariant i <= |values| && Filled(values, i, m)
    {
      var defaultOsInfoValue := values[i];
      var osInfo := GetOsInfo(defaultOsInfoValue);
      var pathForOsInfo := GetPathForOsInfo(osInfo);
      var additionalPaths := GetLegacyPaths(defaultOsInfoValue);
      var allPaths := [pathForOsInfo] + additionalPaths;
      PutStep(values, i, m, allPaths);
      m := m[osInfo := allPaths];
      i := i + 1;
    }
    FilledAll(values, m);
  }

  /** createDefaultMapping: the loop over values(), which lists every constant. */
  method CreateDefaultMapping() returns (m: map<OsInfo, seq<string>>)
    ensures IsDefaultMapping(m)
  {
    m := PutAll(Values());
    forall o | o in m
      ensures exists d :: GetOsInfo(d) == o
    {
      TuplesOfMember(Values(), o);
    }
    forall d: DefaultOsInfo
      ensures GetOsInfo(d) in m && |m[GetOsInfo(d)]| >= 1 && m[GetOsInfo(d)][1..] == GetLegacyPaths(d)
    {
      ValuesListsEveryConstant(d);
    }
  }

  /** The enum's single INSTANCE: the mapping is built once in the constructor and never changed. */
  class PathMapping {
    const mapping: map<OsInfo, seq<string>>

    constructor ()
      ensures IsDefaultMapping(mapping)
    {
      var m := CreateDefaultMapping();
      mapping := m;
    }

    /** getMapping. */
    function GetMapping(): (r: map<OsInfo, seq<string>>)
      requires IsDefaultMapping(mapping)
      ensures IsDefaultMapping(r)
    {
      mapping
    }
  }

  /** Two default mappings agree on the key of every constant. */
  lemma SameEntry(m1: map<OsInfo, seq<string>>, m2: map<OsInfo, seq<string>>, d: DefaultOsInfo)
    requires IsDefaultMapping(m1) && IsDefaultMapping(m2)
    ensures GetOsInfo(d) in m1 && GetOsInfo(d) in m2 && m1[GetOsInfo(d)] == m2[GetOsInfo(d)]
  {
    var o := GetOsInfo(d);
    var l1, l2 := m1[o], m2[o];
    assert l1[0] == l2[0];
    assert l1[1..] == l2[1..];
    assert l1 == [l1[0]] + l1[1..];
    assert l2 == [l2[0]] + l2[1..];
  }

  /** The default mapping is unique: it does not depend on the order in which the constants are put. */
  lemma DefaultMappingUnique(m1: map<OsInfo, seq<string>>, m2: map<OsInfo, seq<string>>)
    requires IsDefaultMapping(m1) && IsDefaultMapping(m2)
    ensures m1 == m2
  {
    forall o | o in m1
      ensures o in m2 && m1[o] == m2[o]
    {
      var d :| GetOsInfo(d) == o;
      SameEntry(m1, m2, d);
    }
    forall o | o in m2
      ensures o in m1
    {
      var d :| GetOsInfo(d) == o;
      SameEntry(m1, m2, d);
    }
  }

  /**
   * Every mapped list holds two names: first the canonical path of its tuple,
   * then the constant's one legacy name.
   */
  lemma MappedListShape(m: map<OsInfo, seq<string>>, d: DefaultOsInfo)
    requires IsDefaultMapping(m)
    ensures GetOsInfo(d) in m
    ensures |m[GetOsInfo(d)]| == |GetLegacyPaths(d)| + 1 == 2
    ensures m[GetOsInfo(d)] == [GetPathForOsInfo(GetOsInfo(d)), GetLegacyPaths(d)[0]]
  {
    OneLegacyPath(d);
    var l := m[GetOsInfo(d)];
    assert l == [l[0]] + l[1..];
  }

  /** The two Windows x86-64 constants share one key, whose list is the same for both. */
  lemma WindowsEntriesCollapse(m: map<OsInfo, seq<string>>)
    requires IsDefaultMapping(m)
    ensures GetOsInfo(WINDOWS_X86_64) == GetOsInfo(WINDOWS_EM64T_64)
    ensures m[GetOsInfo(WINDOWS_EM64T_64)][1..] == GetLegacyPaths(WINDOWS_X86_64) == GetLegacyPaths(WINDOWS_EM64T_64)
  {
    TuplesDistinctButWindows(WINDOWS_X86_64, WINDOWS_EM64T_64);
  }

  /** Looking up a default tuple finds its legacy alias, for each pair the legacy regression expects. */
  lemma LegacyAliasFound(m: map<OsInfo, seq<string>>)
    requires IsDefaultMapping(m)
    ensures "linux_32" in m[GetOsInfo(LINUX_X86_32)]
    ensures "linux_64" in m[GetOsInfo(LINUX_X86_64)]
    ensures "linux_arm" in m[GetOsInfo(LINUX_ARM_32)]
    ensures "linux_arm64" in m[GetOsInfo(LINUX_AARCH_64)]
    ensures "osx_32" in m[GetOsInfo(MACOS_PPC_32)]
    ensures "osx_64" in m[GetOsInfo(MACOS_X86_64)]
    ensures "windows_32" in m[GetOsInfo(WINDOWS_X86_32)]
    ensures "windows_64" in m[GetOsInfo(WINDOWS_X86_64)]
    ensures "windows_64" in m[GetOsInfo(WINDOWS_IA64_64)]
    ensures "aix_32" in m[GetOsInfo(AIX_PPC_32)]
  {
    LegacyRegression();
    MappedListShape(m, LINUX_X86_32);
    MappedListShape(m, LINUX_X86_64);
    MappedListShape(m, LINUX_ARM_32);
    MappedListShape(m, LINUX_AARCH_64);
    MappedListShape(m, MACOS_PPC_32);
    MappedListShape(m, MACOS_X86_64);
    MappedListShape(m, WINDOWS_X86_32);
    MappedListShape(m, WINDOWS_X86_64);
    MappedListShape(m, WINDOWS_IA64_64);
    MappedListShape(m, AIX_PPC_32);
  }

  /** The canonical name is found before the legacy one for 64-bit Linux on x86. */
  lemma LinuxX86Lookup(m: map<OsInfo, seq<string>>)
    requires IsDefaultMapping(m)
    ensures m[GetOsInfo(LINUX_X86_64)] == ["linux-x86_64-64", "linux_64"]
  {
    LinuxX86PathExample();
  }
}
