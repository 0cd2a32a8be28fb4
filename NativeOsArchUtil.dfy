/**
 * Normalisation of the raw os.name / os.arch strings into the canonical OS
 * family, architecture token and bitness, and the canonical directory name
 * "family-arch-bitness[-special]" built from them.
 */
module NativeOsArchUtil {
  import opened JavaLang
  import opened OsInfo

  // Canonical architecture tokens.
  const ARCH_X86_32: string := "x86_32"
  const ARCH_X86_64: string := "x86_64"
  const ITANIUM_32: string := "itanium_32"
  const ARCH_IA64: string := "itanium_64"
  const ARCH_SPARC32: string := "sparc_32"
  const ARCH_SPARC64: string := "sparc_64"
  const ARCH_ARM32: string := "arm_32"
  const ARCH_AARCH64: string := "aarch_64"
  const ARCH_PPC32: string := "ppc_32"
  const ARCH_PPC64: string := "ppc_64"
  const ARCH_PPCLE32: string := "ppcle"
  const ARCH_PPCLE64: string := "ppcle_64"

  // Aliases reported by JDKs for each canonical token.
  const ALIASES_X86_32: seq<string> := ["x8632", "x86", "i386", "i486", "i586", "i686", "ia32", "x32"]
  const ALIASES_X86_64: seq<string> := ["x8664", "amd64", "ia32e", "em64t", "x64"]
  const ALIASES_ITA64: seq<string> := ["ia64", "ia64w", "itanium64"]
  const ALIASES_SPARC_32: seq<string> := ["sparc", "sparc32"]
  const ALIASES_SPARC_64: seq<string> := ["sparcv9", "sparc64"]
  const ALIASES_PPC32: seq<string> := ["ppc"]
  const ALIASES_PPC64: seq<string> := ["ppc64"]
  const ALIASES_PPCLE32: seq<string> := ["ppcle", "ppc32le"]
  const ALIASES_PPCLE64: seq<string> := ["ppc64le"]

  // OS families.
  const OS_FAMILY_LINUX: string := "linux"
  const OS_FAMILY_WINDOWS: string := "windows"
  const OS_FAMILY_OSX: string := "osx"
  const OS_FAMILY_AIX: string := "aix"
  const OS_FAMILY_SOLARIS: string := "solaris"
  const OS_FAMILY_ZOS: string := "zos"

  const OS_FAMILY_UNKNOWN_MESSAGE: string := "OS family cannot be determined."

  // -----------------------------------------------------------------------
  // OS family

  /**
   * determineOsFamily: the lower-cased name is searched for "solaris"/"sunos",
   * then "nix"/"nux", "win", "mac" and "aix"; the first hit decides. A name
   * without any of them is an IllegalStateException; a null name a
   * NullPointerException.
   */
  function DetermineOsFamily(osName: Option<string>): (r: Result<string>)
    ensures osName.None? ==> r == Err(NullPointer)
    ensures r.Ok? ==> r.value in {OS_FAMILY_SOLARIS, OS_FAMILY_LINUX, OS_FAMILY_WINDOWS, OS_FAMILY_OSX, OS_FAMILY_AIX}
    ensures r.Err? && osName.Some? ==> r.error == IllegalState(OS_FAMILY_UNKNOWN_MESSAGE)
  {
    match osName
    case None => Err(NullPointer)
    case Some(name) =>
      var lowercaseOsName := ToLower(name);
      if Contains(lowercaseOsName, OS_FAMILY_SOLARIS) || Contains(lowercaseOsName, "sunos") then Ok(OS_FAMILY_SOLARIS)
      else if Contains(lowercaseOsName, "nix") || Contains(lowercaseOsName, "nux") then Ok(OS_FAMILY_LINUX)
      else if Contains(lowercaseOsName, "win") then Ok(OS_FAMILY_WINDOWS)
      else if Contains(lowercaseOsName, "mac") then Ok(OS_FAMILY_OSX)
      else if Contains(lowercaseOsName, "aix") then Ok(OS_FAMILY_AIX)
      else Err(IllegalState(OS_FAMILY_UNKNOWN_MESSAGE))
  }

  /** The priority order of the family tokens, as plain ordered data. */
  const FAMILY_TOKENS: seq<(string, string)> := [
    ("solaris", OS_FAMILY_SOLARIS), ("sunos", OS_FAMILY_SOLARIS),
    ("nix", OS_FAMILY_LINUX), ("nux", OS_FAMILY_LINUX),
    ("win", OS_FAMILY_WINDOWS), ("mac", OS_FAMILY_OSX), ("aix", OS_FAMILY_AIX)]

  /** The family of the first token of the table, from index k on, that occurs in name. */
  function FirstTokenMatch(name: string, tokens: seq<(string, string)>, k: nat): (r: Option<string>)
    ensures r.None? <==> forall j :: k <= j < |tokens| ==> !Contains(name, tokens[j].0)
    ensures r.Some? ==> exists j :: k <= j < |tokens| && Contains(name, tokens[j].0) && r.value == tokens[j].1
    decreases |tokens| - k
  {
    if k >= |tokens| then None
    else if Contains(name, tokens[k].0) then Some(tokens[k].1)
    else FirstTokenMatch(name, tokens, k + 1)
  }

  /** The if-chain of determineOsFamily is the first match in the ordered token table. */
  lemma DetermineOsFamilyIsFirstToken(name: string)
    ensures DetermineOsFamily(Some(name)) ==
      match FirstTokenMatch(ToLower(name), FAMILY_TOKENS, 0)
      case Some(f) => Ok(f)
      case None => Err(IllegalState(OS_FAMILY_UNKNOWN_MESSAGE))
  {
    var l, t := ToLower(name), FAMILY_TOKENS;
    assert FirstTokenMatch(l, t, 6) == if Contains(l, "aix") then Some(OS_FAMILY_AIX) else None;
    assert FirstTokenMatch(l, t, 5) == if Contains(l, "mac") then Some(OS_FAMILY_OSX) else FirstTokenMatch(l, t, 6);
    assert FirstTokenMatch(l, t, 4) == if Contains(l, "win") then Some(OS_FAMILY_WINDOWS) else FirstTokenMatch(l, t, 5);
    assert FirstTokenMatch(l, t, 3) == if Contains(l, "nux") then Some(OS_FAMILY_LINUX) else FirstTokenMatch(l, t, 4);
    assert FirstTokenMatch(l, t, 2) == if Contains(l, "nix") then Some(OS_FAMILY_LINUX) else FirstTokenMatch(l, t, 3);
    assert FirstTokenMatch(l, t, 1) == if Contains(l, "sunos") then Some(OS_FAMILY_SOLARIS) else FirstTokenMatch(l, t, 2);
    assert FirstTokenMatch(l, t, 0) == if Contains(l, "solaris") then Some(OS_FAMILY_SOLARIS) else FirstTokenMatch(l, t, 1);
  }

  /** Matching is case-insensitive: any casing of a name gives the family of its lower-case form. */
  lemma DetermineOsFamilyIgnoresCase(name: string)
    ensures DetermineOsFamily(Some(name)) == DetermineOsFamily(Some(ToLower(name)))
  {
    ToLowerIdempotent(name);
  }

  /** A name mentioning SunOS is Solaris even if it also mentions a Linux token. */
  lemma SolarisBeforeLinux(name: string)
    requires Contains(ToLower(name), "sunos") && Contains(ToLower(name), "nux")
    ensures DetermineOsFamily(Some(name)) == Ok(OS_FAMILY_SOLARIS)
  {
  }

  /** The z/OS family is never produced. */
  lemma DetermineOsFamilyNeverZos(name: string)
    ensures DetermineOsFamily(Some(name)) != Ok(OS_FAMILY_ZOS)
  {
  }

  // -----------------------------------------------------------------------
  // Architecture

  /**
   * normalizeArchitecture: an alias is replaced by its canonical token
   * (exact, case-sensitive match); any other string is returned unchanged.
   * The alias lists are tried in the order of ARCH_ALIASES, which is the
   * order of the if-chain in the source.
   */
  function NormalizeArchitecture(architecture: string): string
  {
    LookupAlias(architecture, 0)
  }

  /** The if-chain of normalizeArchitecture from its k-th test on. */
  function LookupAlias(architecture: string, k: nat): string
    decreases |ARCH_ALIASES| - k
  {
    if k >= |ARCH_ALIASES| then architecture
    else if architecture in ARCH_ALIASES[k].0 then ARCH_ALIASES[k].1
    else LookupAlias(architecture, k + 1)
  }

  /** normalizeArchitecturePath: the normalised architecture of a tuple. */
  function NormalizeArchitecturePath(osInfo: OsInfo): string
  {
    NormalizeArchitecture(osInfo.architecture)
  }

  /** The alias sets with their canonical tokens, in the order normalizeArchitecture tests them. */
  const ARCH_ALIASES: seq<(seq<string>, string)> := [
    (ALIASES_X86_32, ARCH_X86_32), (ALIASES_X86_64, ARCH_X86_64), (["ia64n"], ITANIUM_32),
    (ALIASES_ITA64, ARCH_IA64), (ALIASES_SPARC_32, ARCH_SPARC32), (ALIASES_SPARC_64, ARCH_SPARC64),
    (["aarch64"], ARCH_AARCH64), (["arm", "arm32"], ARCH_ARM32), (ALIASES_PPC32, ARCH_PPC32),
    (ALIASES_PPC64, ARCH_PPC64), (ALIASES_PPCLE32, ARCH_PPCLE32), (ALIASES_PPCLE64, ARCH_PPCLE64)]

  /** arch is an alias in some set of the table. */
  predicate IsAlias(architecture: string) {
    exists k :: 0 <= k < |ARCH_ALIASES| && architecture in ARCH_ALIASES[k].0
  }

  /** No string is an alias in two different sets, so the order of the tests does not matter. */
  lemma AliasSetsDisjoint(j: nat, k: nat, a: string)
    requires j < k < |ARCH_ALIASES|
    ensures !(a in ARCH_ALIASES[j].0 && a in ARCH_ALIASES[k].0)
  {
  }

  /** A string in none of the lists j..k-1 passes those tests of the chain. */
  lemma {:induction false} LookupSkips(a: string, j: nat, k: nat)
    requires j <= k <= |ARCH_ALIASES|
    requires forall i :: j <= i < k ==> a !in ARCH_ALIASES[i].0
    ensures LookupAlias(a, j) == LookupAlias(a, k)
    decreases k - j
  {
    if j < k {
      LookupSkips(a, j + 1, k);
    }
  }

  /** Every alias of a set is mapped to that set's single canonical token. */
  lemma NormalizeAlias(k: nat, a: string)
    requires k < |ARCH_ALIASES| && a in ARCH_ALIASES[k].0
    ensures NormalizeArchitecture(a) == ARCH_ALIASES[k].1
  {
    forall i | 0 <= i < k
      ensures a !in ARCH_ALIASES[i].0
    {
      AliasSetsDisjoint(i, k, a);
    }
    LookupSkips(a, 0, k);
  }

  /** A string that the chain changes from its j-th test on is an alias of a later set. */
  lemma {:induction false} LookupChangedIsAlias(a: string, j: nat)
    requires LookupAlias(a, j) != a
    ensures exists k :: j <= k < |ARCH_ALIASES| && a in ARCH_ALIASES[k].0
    decreases |ARCH_ALIASES| - j
  {
    if a !in ARCH_ALIASES[j].0 {
      LookupChangedIsAlias(a, j + 1);
    }
  }

  /** A string that normalizeArchitecture changes is an alias of some set. */
  lemma ChangedIsAlias(a: string)
    requires NormalizeArchitecture(a) != a
    ensures IsAlias(a)
  {
    LookupChangedIsAlias(a, 0);
  }

  /** A string in no alias set passes through unchanged. */
  lemma NormalizePassThrough(a: string)
    requires !IsAlias(a)
    ensures NormalizeArchitecture(a) == a
  {
    if NormalizeArchitecture(a) != a {
      ChangedIsAlias(a);
    }
  }

  /** No alias contains an upper-case letter. */
  lemma AliasIsLower(k: nat, a: string)
    requires k < |ARCH_ALIASES| && a in ARCH_ALIASES[k].0
    ensures forall i :: 0 <= i < |a| ==> IsLowerChar(a[i])
  {
    if k == 0 {
      assert a in ALIASES_X86_32;
    } else if k == 1 {
      assert a in ALIASES_X86_64;
    } else if k == 3 {
      assert a in ALIASES_ITA64;
    } else if k == 4 {
      assert a in ALIASES_SPARC_32;
    } else if k == 5 {
      assert a in ALIASES_SPARC_64;
    } else if k == 7 {
      assert a in ["arm", "arm32"];
    } else if k == 10 {
      assert a in ALIASES_PPCLE32;
    }
  }

  /** No alias contains an underscore. */
  lemma AliasHasNoUnderscore(k: nat, a: string)
    requires k < |ARCH_ALIASES| && a in ARCH_ALIASES[k].0
    ensures '_' !in a
  {
    if k == 0 {
      assert a in ALIASES_X86_32;
    } else if k == 1 {
      assert a in ALIASES_X86_64;
    } else if k == 3 {
      assert a in ALIASES_ITA64;
    } else if k == 4 {
      assert a in ALIASES_SPARC_32;
    } else if k == 5 {
      assert a in ALIASES_SPARC_64;
    } else if k == 7 {
      assert a in ["arm", "arm32"];
    } else if k == 10 {
      assert a in ALIASES_PPCLE32;
    }
  }

  /** Each canonical token is either no alias at all, or (only "ppcle") an alias of itself. */
  lemma CanonicalTokensAreFixed(k: nat)
    requires k < |ARCH_ALIASES|
    ensures NormalizeArchitecture(ARCH_ALIASES[k].1) == ARCH_ALIASES[k].1
    ensures IsAlias(ARCH_ALIASES[k].1) <==> ARCH_ALIASES[k].1 == ARCH_PPCLE32
  {
    var c := ARCH_ALIASES[k].1;
    if k == 10 {
      assert c in ARCH_ALIASES[10].0;
      NormalizeAlias(10, c);
    } else {
      assert c != ARCH_PPCLE32 && '_' in c;
      if IsAlias(c) {
        var j :| 0 <= j < |ARCH_ALIASES| && c in ARCH_ALIASES[j].0;
        AliasHasNoUnderscore(j, c);
      }
      NormalizePassThrough(c);
    }
  }

  /** normalizeArchitecture is idempotent. */
  lemma NormalizeIdempotent(a: string)
    ensures NormalizeArchitecture(NormalizeArchitecture(a)) == NormalizeArchitecture(a)
  {
    if IsAlias(a) {
      var k :| 0 <= k < |ARCH_ALIASES| && a in ARCH_ALIASES[k].0;
      NormalizeAlias(k, a);
      CanonicalTokensAreFixed(k);
    } else {
      NormalizePassThrough(a);
    }
  }

  /** Examples quoted for the alias sets. */
  lemma NormalizeExamples()
    ensures NormalizeArchitecture("amd64") == ARCH_X86_64
    ensures NormalizeArchitecture("x64") == ARCH_X86_64
    ensures NormalizeArchitecture("ia32e") == ARCH_X86_64
    ensures NormalizeArchitecture("ia64n") == ITANIUM_32
  {
    NormalizeAlias(1, "amd64");
    NormalizeAlias(1, "x64");
    NormalizeAlias(1, "ia32e");
    NormalizeAlias(2, "ia64n");
  }

  /** Matching is case-sensitive: an upper-case spelling of an alias passes through. */
  lemma NormalizeIsCaseSensitive()
    ensures NormalizeArchitecture("AMD64") == "AMD64"
  {
    forall k | 0 <= k < |ARCH_ALIASES|
      ensures "AMD64" !in ARCH_ALIASES[k].0
    {
      forall a | a in ARCH_ALIASES[k].0
        ensures a != "AMD64"
      {
        AliasIsLower(k, a);
        assert !IsLowerChar("AMD64"[0]);
      }
    }
    NormalizePassThrough("AMD64");
  }

  // -----------------------------------------------------------------------
  // Bitness

  /** guessBitnessFromArchitecture: 64 when the architecture mentions "64", else 32. */
  function GuessBitnessFromArchitecture(arch: string): (r: int)
    ensures r == 64 || r == 32
    ensures r == 64 <==> Contains(arch, "64")
  {
    if Contains(arch, "64") then 64 else 32
  }

  /** A bitness property value that determineBitness accepts: non-empty and all digits. */
  predicate Usable(value: string) {
    value != "" && IsDigits(value)
  }

  /** Integer.parseInt on a value that matched [0-9]+: fails only beyond Java's int range. */
  function ParseBitness(value: string): (r: Result<int>)
    requires Usable(value)
    ensures r.Ok? <==> DigitsValue(value) <= INT_MAX
    ensures r.Ok? ==> r.value == DigitsValue(value)
    ensures r.Err? ==> r.error == NumberFormat(value)
  {
    match ParseInt(value)
    case Some(v) => Ok(v)
    case None => Err(NumberFormat(value))
  }

  /**
   * determineBitness: sun.arch.data.model if usable, else com.ibm.vm.bitmode
   * if usable, else the guess from os.arch (null os.arch fails).
   */
  function DetermineBitness(props: Properties): Result<int>
  {
    var bitness := GetPropertyOr(props, "sun.arch.data.model", "");
    if Usable(bitness) then ParseBitness(bitness)
    else
      var ibmBitness := GetPropertyOr(props, "com.ibm.vm.bitmode", "");
      if Usable(ibmBitness) then ParseBitness(ibmBitness)
      else
        match GetProperty(props, "os.arch")
        case Some(arch) => Ok(GuessBitnessFromArchitecture(arch))
        case None => Err(NullPointer)
  }

  /** The generic signal wins whenever it is usable, whatever the vendor signal says. */
  lemma BitnessPrefersSunSignal(props: Properties)
    requires "sun.arch.data.model" in props && Usable(props["sun.arch.data.model"])
    requires DigitsValue(props["sun.arch.data.model"]) <= INT_MAX
    ensures DetermineBitness(props) == Ok(DigitsValue(props["sun.arch.data.model"]))
  {
  }

  /** Without a usable generic signal, a usable vendor signal decides. */
  lemma BitnessFallsBackToIbmSignal(props: Properties)
    requires !("sun.arch.data.model" in props && Usable(props["sun.arch.data.model"]))
    requires "com.ibm.vm.bitmode" in props && Usable(props["com.ibm.vm.bitmode"])
    requires DigitsValue(props["com.ibm.vm.bitmode"]) <= INT_MAX
    ensures DetermineBitness(props) == Ok(DigitsValue(props["com.ibm.vm.bitmode"]))
  {
  }

  /** Without either signal the result is 64 exactly when os.arch contains "64", else 32. */
  lemma BitnessFallsBackToArchitecture(props: Properties)
    requires !("sun.arch.data.model" in props && Usable(props["sun.arch.data.model"]))
    requires !("com.ibm.vm.bitmode" in props && Usable(props["com.ibm.vm.bitmode"]))
    requires "os.arch" in props
    ensures DetermineBitness(props) == Ok(if Contains(props["os.arch"], "64") then 64 else 32)
  {
  }

  /** A digit string too large for an int escapes as a NumberFormatException. */
  lemma BitnessOverflowThrows(props: Properties)
    requires "sun.arch.data.model" in props && Usable(props["sun.arch.data.model"])
    requires DigitsValue(props["sun.arch.data.model"]) > INT_MAX
    ensures DetermineBitness(props) == Err(NumberFormat(props["sun.arch.data.model"]))
  {
  }

  // -----------------------------------------------------------------------
  // Canonical path

  /** getPathForOsInfo: "family-arch-bitness", with "-special" appended when special is non-empty. */
  function GetPathForOsInfo(osInfo: OsInfo): string
  {
    var basePath := osInfo.osFamily + "-" + NormalizeArchitecturePath(osInfo) + "-" + IntToString(osInfo.bitness);
    if osInfo.special == "" then basePath else basePath + "-" + osInfo.special
  }

  /**
   * The path splits back at "-" into the family, the normalised architecture,
   * the bitness and the fields of the special qualifier, when none of the
   * first two contains a dash and the bitness is not negative.
   */
  lemma PathForOsInfoFields(osInfo: OsInfo)
    requires '-' !in osInfo.osFamily && '-' !in NormalizeArchitecturePath(osInfo)
    requires osInfo.bitness >= 0
    ensures Fields(GetPathForOsInfo(osInfo), '-') ==
      [osInfo.osFamily, NormalizeArchitecturePath(osInfo), IntToString(osInfo.bitness)] +
      (if osInfo.special == "" then [] else Fields(osInfo.special, '-'))
  {
    var f, a, b := osInfo.osFamily, NormalizeArchitecturePath(osInfo), IntToString(osInfo.bitness);
    NatToStringNoSign(osInfo.bitness);
    var tail := if osInfo.special == "" then b else b + "-" + osInfo.special;
    assert GetPathForOsInfo(osInfo) == f + ['-'] + (a + ['-'] + tail);
    FieldsCons(f, '-', a + ['-'] + tail);
    FieldsCons(a, '-', tail);
    if osInfo.special == "" {
      FieldsOfPlain(b, '-');
    } else {
      assert tail == b + ['-'] + osInfo.special;
      FieldsCons(b, '-', osInfo.special);
    }
  }

  /** The bitness field of a path parses back to the tuple's bitness. */
  lemma PathBitnessRoundTrip(osInfo: OsInfo)
    requires '-' !in osInfo.osFamily && '-' !in NormalizeArchitecturePath(osInfo)
    requires 0 <= osInfo.bitness <= INT_MAX
    ensures |Fields(GetPathForOsInfo(osInfo), '-')| >= 3
    ensures ParseInt(Fields(GetPathForOsInfo(osInfo), '-')[2]) == Some(osInfo.bitness)
  {
    PathForOsInfoFields(osInfo);
    ParseDecimalRoundTrip(osInfo.bitness, INT_MIN, INT_MAX);
  }
}
