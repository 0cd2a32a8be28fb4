/**
 * The fixed catalogue of known platforms: fifteen entries, each a tuple
 * built through OsInfoFactory.from together with its one legacy directory
 * name.
 */
module DefaultOsInfo {
  import opened JavaLang
  import opened OsInfo
  import opened NativeOsArchUtil
  import opened OsInfoFactory

  /** The constants of the enum, in declaration order: six 32-bit ones, then nine 64-bit ones. */
  datatype DefaultOsInfo =
    | AIX_PPC_32 | LINUX_ARM_32 | LINUX_X86_32 | MACOS_PPC_32 | SOLARIS_SPARC_32 | WINDOWS_X86_32
    | AIX_PPC64_64 | LINUX_X86_64 | LINUX_AARCH_64 | LINUX_PPC64LE_64 | MACOS_X86_64
    | SOLARIS_SPARCV9_64 | WINDOWS_X86_64 | WINDOWS_EM64T_64 | WINDOWS_IA64_64

  // The legacy path lists.
  const LIST_AIX_32: seq<string> := ["aix_32"]
  const LIST_LINUX_ARM: seq<string> := ["linux_arm"]
  const LIST_LINUX_32: seq<string> := ["linux_32"]
  const LIST_OSX_32: seq<string> := ["osx_32"]
  const LIST_SOLARIS_32: seq<string> := ["solaris_32"]
  const LIST_WINDOWS_32: seq<string> := ["windows_32"]
  const LIST_AIX_64: seq<string> := ["aix_64"]
  const LIST_LINUX_64: seq<string> := ["linux_64"]
  const LIST_LINUX_ARM_64: seq<string> := ["linux_arm64"]
  const LIST_OSX_64: seq<string> := ["osx_64"]
  const LIST_WINDOWS_64: seq<string> := ["windows_64"]
  const LIST_SOLARIS_64: seq<string> := ["solaris_64"]

  /** DefaultOsInfo.values(). */
  function Values(): (r: seq<DefaultOsInfo>)
    ensures |r| == 15
    ensures forall i, j :: 0 <= i < j < |r| ==> r[i] != r[j]
  {
    [AIX_PPC_32, LINUX_ARM_32, LINUX_X86_32, MACOS_PPC_32, SOLARIS_SPARC_32, WINDOWS_X86_32,
     AIX_PPC64_64, LINUX_X86_64, LINUX_AARCH_64, LINUX_PPC64LE_64, MACOS_X86_64,
     SOLARIS_SPARCV9_64, WINDOWS_X86_64, WINDOWS_EM64T_64, WINDOWS_IA64_64]
  }

  /** Enum.ordinal(): the position of a constant in its declaration. */
  function Ordinal(d: DefaultOsInfo): nat
  {
    match d
    case AIX_PPC_32 => 0 case LINUX_ARM_32 => 1 case LINUX_X86_32 => 2 case MACOS_PPC_32 => 3
    case SOLARIS_SPARC_32 => 4 case WINDOWS_X86_32 => 5 case AIX_PPC64_64 => 6 case LINUX_X86_64 => 7
    case LINUX_AARCH_64 => 8 case LINUX_PPC64LE_64 => 9 case MACOS_X86_64 => 10
    case SOLARIS_SPARCV9_64 => 11 case WINDOWS_X86_64 => 12 case WINDOWS_EM64T_64 => 13
    case WINDOWS_IA64_64 => 14
  }

  /** values() lists every constant, each at its ordinal. */
  lemma ValuesListsEveryConstant(d: DefaultOsInfo)
    ensures Ordinal(d) < |Values()| && Values()[Ordinal(d)] == d
    ensures d in Values()
  {
  }

  /** The constructor arguments of each constant: family, architecture, bitness and legacy paths. */
  function Arguments(d: DefaultOsInfo): (string, string, int, seq<string>)
  {
    match d
    case AIX_PPC_32 => (OS_FAMILY_AIX, ARCH_PPCLE32, 32, LIST_AIX_32)
    case LINUX_ARM_32 => (OS_FAMILY_LINUX, ARCH_ARM32, 32, LIST_LINUX_ARM)
    case LINUX_X86_32 => (OS_FAMILY_LINUX, ARCH_X86_32, 32, LIST_LINUX_32)
    case MACOS_PPC_32 => (OS_FAMILY_OSX, ARCH_PPCLE32, 32, LIST_OSX_32)
    case SOLARIS_SPARC_32 => (OS_FAMILY_SOLARIS, ARCH_SPARC32, 32, LIST_SOLARIS_32)
    case WINDOWS_X86_32 => (OS_FAMILY_WINDOWS, ARCH_X86_32, 32, LIST_WINDOWS_32)
    case AIX_PPC64_64 => (OS_FAMILY_AIX, ARCH_PPC64, 64, LIST_AIX_64)
    case LINUX_X86_64 => (OS_FAMILY_LINUX, ARCH_X86_64, 64, LIST_LINUX_64)
    case LINUX_AARCH_64 => (OS_FAMILY_LINUX, ARCH_AARCH64, 64, LIST_LINUX_ARM_64)
    case LINUX_PPC64LE_64 => (OS_FAMILY_LINUX, ARCH_PPCLE64, 64, LIST_LINUX_64)
    case MACOS_X86_64 => (OS_FAMILY_OSX, ARCH_X86_64, 64, LIST_OSX_64)
    case SOLARIS_SPARCV9_64 => (OS_FAMILY_SOLARIS, ARCH_SPARC64, 64, LIST_SOLARIS_64)
    case WINDOWS_X86_64 => (OS_FAMILY_WINDOWS, ARCH_X86_64, 64, LIST_WINDOWS_64)
    case WINDOWS_EM64T_64 => (OS_FAMILY_WINDOWS, ARCH_X86_64, 64, LIST_WINDOWS_64)
    case WINDOWS_IA64_64 => (OS_FAMILY_WINDOWS, ARCH_IA64, 64, LIST_WINDOWS_64)
  }

  /**
   * getOsInfo: the tuple the enum constructor stored. The constructor builds it
   * with OsInfoFactory.from; GetOsInfoIsFrom shows that this is exactly the
   * declared family, architecture and bitness.
   */
  function GetOsInfo(d: DefaultOsInfo): (r: OsInfo)
    ensures r.special == ""
  {
    var (family, architecture, bitness, _) := Arguments(d);
    OsInfo(family, architecture, bitness, "")
  }

  /** getLegacyPaths. */
  function GetLegacyPaths(d: DefaultOsInfo): seq<string>
  {
    Arguments(d).3
  }

  /** The first six constants are the 32-bit group, the other nine the 64-bit group. */
  lemma BitnessGroups(k: nat)
    requires k < |Values()|
    ensures GetOsInfo(Values()[k]).bitness == if k < 6 then 32 else 64
  {
  }

  /** Every constant has exactly one legacy path. */
  lemma OneLegacyPath(d: DefaultOsInfo)
    ensures |GetLegacyPaths(d)| == 1
  {
  }

  /** Position of each constant's architecture token in the alias table of normalizeArchitecture. */
  function ArchIndex(d: DefaultOsInfo): (k: nat)
    ensures k < |ARCH_ALIASES| && ARCH_ALIASES[k].1 == Arguments(d).1
  {
    match d
    case AIX_PPC_32 => 10 case LINUX_ARM_32 => 7 case LINUX_X86_32 => 0 case MACOS_PPC_32 => 10
    case SOLARIS_SPARC_32 => 4 case WINDOWS_X86_32 => 0 case AIX_PPC64_64 => 9 case LINUX_X86_64 => 1
    case LINUX_AARCH_64 => 6 case LINUX_PPC64LE_64 => 11 case MACOS_X86_64 => 1
    case SOLARIS_SPARCV9_64 => 5 case WINDOWS_X86_64 => 1 case WINDOWS_EM64T_64 => 1
    case WINDOWS_IA64_64 => 3
  }

  /** OsInfoFactory.from leaves a lower-case family and a canonical architecture token as they are. */
  lemma FromCanonical(family: string, k: nat, bitness: int)
    requires k < |ARCH_ALIASES|
    requires forall i :: 0 <= i < |family| ==> IsLowerChar(family[i])
    ensures From(family, ARCH_ALIASES[k].1, bitness) == OsInfo(family, ARCH_ALIASES[k].1, bitness, "")
  {
    CanonicalTokensAreFixed(k);
    CanonicalIsLower(k);
    ToLowerOfLower(ARCH_ALIASES[k].1);
    ToLowerOfLower(family);
  }

  /**
   * The enum's family and architecture constants are lower-case canonical
   * tokens, so the tuple OsInfoFactory.from builds from them is the declared one.
   */
  lemma GetOsInfoIsFrom(d: DefaultOsInfo)
    ensures GetOsInfo(d) == From(Arguments(d).0, Arguments(d).1, Arguments(d).2)
  {
    var family := Arguments(d).0;
    assert family in {OS_FAMILY_AIX, OS_FAMILY_LINUX, OS_FAMILY_OSX, OS_FAMILY_SOLARIS, OS_FAMILY_WINDOWS};
    assert forall i :: 0 <= i < |family| ==> IsLowerChar(family[i]);
    FromCanonical(family, ArchIndex(d), Arguments(d).2);
  }

  /** The architecture of every default tuple is canonical: normalising it again changes nothing. */
  lemma DefaultArchitectureIsCanonical(d: DefaultOsInfo)
    ensures NormalizeArchitecture(GetOsInfo(d).architecture) == GetOsInfo(d).architecture
  {
    CanonicalTokensAreFixed(ArchIndex(d));
  }

  /** The legacy directory names the packaging conventions before the canonical path used. */
  lemma LegacyRegression()
    ensures "linux_32" in GetLegacyPaths(LINUX_X86_32)
    ensures "linux_64" in GetLegacyPaths(LINUX_X86_64)
    ensures "linux_arm" in GetLegacyPaths(LINUX_ARM_32)
    ensures "linux_arm64" in GetLegacyPaths(LINUX_AARCH_64)
    ensures "osx_32" in GetLegacyPaths(MACOS_PPC_32)
    ensures "osx_64" in GetLegacyPaths(MACOS_X86_64)
    ensures "windows_32" in GetLegacyPaths(WINDOWS_X86_32)
    ensures "windows_64" in GetLegacyPaths(WINDOWS_X86_64)
    ensures "windows_64" in GetLegacyPaths(WINDOWS_IA64_64)
    ensures "aix_32" in GetLegacyPaths(AIX_PPC_32)
  {
  }

  /** WINDOWS_X86_64 and WINDOWS_EM64T_64 stand for the same tuple, and only they share one. */
  lemma {:induction false} TuplesDistinctButWindows(d1: DefaultOsInfo, d2: DefaultOsInfo)
    ensures GetOsInfo(d1) == GetOsInfo(d2) <==>
      d1 == d2 || {d1, d2} == {WINDOWS_X86_64, WINDOWS_EM64T_64}
  {
  }

  /** Constants with equal tuples have equal legacy paths, so a map keyed by tuple loses nothing. */
  lemma SameTupleSameLegacy(d1: DefaultOsInfo, d2: DefaultOsInfo)
    requires GetOsInfo(d1) == GetOsInfo(d2)
    ensures GetLegacyPaths(d1) == GetLegacyPaths(d2)
  {
    TuplesDistinctButWindows(d1, d2);
  }

  /** The canonical path of every default tuple is "family-architecture-bitness" of its declaration. */
  lemma DefaultPath(d: DefaultOsInfo)
    ensures GetPathForOsInfo(GetOsInfo(d)) ==
      Arguments(d).0 + "-" + Arguments(d).1 + "-" + IntToString(Arguments(d).2)
    ensures |Fields(GetPathForOsInfo(GetOsInfo(d)), '-')| == 3
  {
    var family := Arguments(d).0;
    assert family in {OS_FAMILY_AIX, OS_FAMILY_LINUX, OS_FAMILY_OSX, OS_FAMILY_SOLARIS, OS_FAMILY_WINDOWS};
    CanonicalPath(family, ArchIndex(d), Arguments(d).2);
  }

  /** No canonical architecture token contains a dash. */
  lemma CanonicalHasNoDash(k: nat)
    requires k < |ARCH_ALIASES|
    ensures '-' !in ARCH_ALIASES[k].1
  {
  }

  /** A tuple of a dash-free family and a canonical architecture token has a three-field path. */
  lemma CanonicalPath(family: string, k: nat, bitness: int)
    requires k < |ARCH_ALIASES| && '-' !in family && bitness >= 0
    ensures var o := OsInfo(family, ARCH_ALIASES[k].1, bitness, "");
      GetPathForOsInfo(o) == family + "-" + ARCH_ALIASES[k].1 + "-" + IntToString(bitness) &&
      |Fields(GetPathForOsInfo(o), '-')| == 3
  {
    CanonicalTokensAreFixed(k);
    CanonicalHasNoDash(k);
    PathForOsInfoFields(OsInfo(family, ARCH_ALIASES[k].1, bitness, ""));
  }

  /** The canonical path of the 64-bit Linux x86 platform. */
  lemma LinuxX86PathExample()
    ensures GetPathForOsInfo(GetOsInfo(LINUX_X86_64)) == "linux-x86_64-64"
  {
    CanonicalTokensAreFixed(1);
    assert IntToString(64) == "64";
  }
}
