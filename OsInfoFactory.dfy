/**
 * Construction of platform tuples: from explicit parameters, from a raw
 * os.name, and from the running JVM's system properties.
 */
module OsInfoFactory {
  import opened JavaLang
  import opened OsInfo
  import opened NativeOsArchUtil

  /** from: the architecture is normalised before the tuple is built. */
  function From(osFamily: string, architecture: string, bitness: int): (r: OsInfo)
    ensures r.architecture == ToLower(NormalizeArchitecture(architecture))
    ensures r.osFamily == ToLower(osFamily) && r.bitness == bitness
    ensures r.special == ""
  {
    NewOsInfo(osFamily, NormalizeArchitecture(architecture), bitness)
  }

  /** fromOsName: the family is determined from the raw OS name; its failure propagates. */
  function FromOsName(osName: string, architecture: string, bitness: int): (r: Result<OsInfo>)
    ensures DetermineOsFamily(Some(osName)).Err? ==> r == Err(DetermineOsFamily(Some(osName)).error)
    ensures DetermineOsFamily(Some(osName)).Ok? ==>
      r == Ok(From(DetermineOsFamily(Some(osName)).value, architecture, bitness))
  {
    match DetermineOsFamily(Some(osName))
    case Err(e) => Err(e)
    case Ok(osFamily) => Ok(From(osFamily, architecture, bitness))
  }

  /**
   * fromCurrent: family from os.name, normalised os.arch and determineBitness,
   * evaluated in that order; the first exception wins. A missing os.arch only
   * fails when the tuple is built (toLowerCase on null), after the bitness.
   */
  function FromCurrent(props: Properties): Result<OsInfo>
  {
    match DetermineOsFamily(GetProperty(props, "os.name"))
    case Err(e) => Err(e)
    case Ok(family) =>
      var arch := GetProperty(props, "os.arch");
      var normalizedArch := if arch.Some? then Some(NormalizeArchitecture(arch.value)) else None;
      match DetermineBitness(props)
      case Err(e) => Err(e)
      case Ok(bitness) =>
        if normalizedArch.None? then Err(NullPointer)
        else Ok(NewOsInfo(family, normalizedArch.value, bitness))
  }

  /** fromCurrent is fromOsName applied to os.name, os.arch and determineBitness. */
  lemma FromCurrentIsFromOsName(props: Properties)
    requires "os.name" in props && "os.arch" in props
    requires DetermineBitness(props).Ok?
    ensures FromCurrent(props) == FromOsName(props["os.name"], props["os.arch"], DetermineBitness(props).value)
  {
  }

  /** fromCurrent fails exactly when one of its inputs cannot be determined. */
  lemma FromCurrentFailures(props: Properties)
    ensures FromCurrent(props).Err? <==>
      DetermineOsFamily(GetProperty(props, "os.name")).Err? ||
      DetermineBitness(props).Err? || "os.arch" !in props
    ensures "os.name" !in props ==> FromCurrent(props) == Err(NullPointer)
  {
  }

  /** A tuple built from a lower-case architecture holds a canonical architecture: normalising it again changes nothing. */
  lemma FromArchitectureIsCanonical(osFamily: string, architecture: string, bitness: int)
    requires forall i :: 0 <= i < |architecture| ==> IsLowerChar(architecture[i])
    ensures NormalizeArchitecture(From(osFamily, architecture, bitness).architecture)
         == From(osFamily, architecture, bitness).architecture
  {
    var n := NormalizeArchitecture(architecture);
    if IsAlias(architecture) {
      var k :| 0 <= k < |ARCH_ALIASES| && architecture in ARCH_ALIASES[k].0;
      NormalizeAlias(k, architecture);
      CanonicalTokensAreFixed(k);
      CanonicalIsLower(k);
    } else {
      NormalizePassThrough(architecture);
    }
    ToLowerOfLower(n);
  }

  /** Every canonical token is written in lower case. */
  lemma CanonicalIsLower(k: nat)
    requires k < |ARCH_ALIASES|
    ensures forall i :: 0 <= i < |ARCH_ALIASES[k].1| ==> IsLowerChar(ARCH_ALIASES[k].1[i])
  {
  }

  /** The canonical path of ("aix", "ppc64", 64). */
  lemma AixPpc64Path()
    ensures GetPathForOsInfo(From("aix", "ppc64", 64)) == "aix-ppc_64-64"
  {
    NormalizeAlias(9, "ppc64");
    CanonicalIsLower(9);
    ToLowerOfLower(ARCH_PPC64);
    CanonicalTokensAreFixed(9);
    assert From("aix", "ppc64", 64) == OsInfo("aix", ARCH_PPC64, 64, "");
    assert IntToString(64) == "64";
  }
}
