/**
 * The immutable platform tuple (OS family, architecture, bitness, special
 * qualifier). Its fields are final, so it is a value; the two Java
 * constructors become the two functions NewOsInfo and NewOsInfoSpecial.
 */
module OsInfo {
  import opened JavaLang

  /** The four final fields of an OsInfo object; only built by the two constructors below. */
  datatype OsInfo = OsInfo(osFamily: string, architecture: string, bitness: int, special: string)

  /** The three-argument constructor: family and architecture are lower-cased, special is "". */
  function NewOsInfo(osFamily: string, architecture: string, bitness: int): (r: OsInfo)
    ensures r.osFamily == ToLower(osFamily) && r.architecture == ToLower(architecture)
    ensures r.bitness == bitness && r.special == ""
  {
    OsInfo(ToLower(osFamily), ToLower(architecture), bitness, "")
  }

  /** The four-argument constructor: special is stored as given, without lower-casing. */
  function NewOsInfoSpecial(osFamily: string, architecture: string, bitness: int, special: string): (r: OsInfo)
    ensures r.osFamily == ToLower(osFamily) && r.architecture == ToLower(architecture)
    ensures r.bitness == bitness && r.special == special
  {
    OsInfo(ToLower(osFamily), ToLower(architecture), bitness, special)
  }

  /** The three-argument constructor is the four-argument one with an empty qualifier. */
  lemma NewOsInfoIsSpecialEmpty(osFamily: string, architecture: string, bitness: int)
    ensures NewOsInfo(osFamily, architecture, bitness) == NewOsInfoSpecial(osFamily, architecture, bitness, "")
  {
  }

  /** A tuple built by either constructor holds no upper-case letter in family or architecture. */
  ghost predicate Normalized(o: OsInfo) {
    (forall i :: 0 <= i < |o.osFamily| ==> IsLowerChar(o.osFamily[i])) &&
    (forall i :: 0 <= i < |o.architecture| ==> IsLowerChar(o.architecture[i]))
  }

  /** The family and architecture of a constructed tuple are case-insensitive in the arguments. */
  lemma {:induction false} ConstructorIgnoresCase(osFamily: string, architecture: string, bitness: int, special: string)
    ensures Normalized(NewOsInfoSpecial(osFamily, architecture, bitness, special))
    ensures NewOsInfoSpecial(ToLower(osFamily), ToLower(architecture), bitness, special)
         == NewOsInfoSpecial(osFamily, architecture, bitness, special)
  {
    ToLowerIdempotent(osFamily);
    ToLowerIdempotent(architecture);
  }

  /** OsInfo.equals: same bitness, family, architecture and special. */
  predicate Equals(a: OsInfo, b: OsInfo) {
    a.bitness == b.bitness && a.osFamily == b.osFamily &&
    a.architecture == b.architecture && a.special == b.special
  }

  /** equals is exactly value equality of the tuple. */
  lemma EqualsIsValueEquality(a: OsInfo, b: OsInfo)
    ensures Equals(a, b) <==> a == b
  {
  }

  /** OsInfo.hashCode: 31-based combination of the four fields, in int arithmetic. */
  function HashCode(o: OsInfo): (h: int)
    ensures INT_MIN <= h <= INT_MAX
  {
    var h0 := StringHashCode(o.osFamily);
    var h1 := WrapInt(31 * h0 + StringHashCode(o.architecture));
    var h2 := WrapInt(31 * h1 + o.bitness);
    WrapInt(31 * h2 + StringHashCode(o.special))
  }

  /** Objects that are equal have equal hash codes. */
  lemma HashCodeConsistent(a: OsInfo, b: OsInfo)
    requires Equals(a, b)
    ensures HashCode(a) == HashCode(b)
  {
  }
}
