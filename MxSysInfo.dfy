/**
 * The mx.sysinfo platform string: the property when it is set, otherwise a
 * guess "arch-os-extra" where, on Linux, extra encodes the versions of the C
 * library and of the C++ runtime read off the targets of their symbolic links.
 * The file system is reached only through a Host: the canonical path of a
 * file (which may fail with an IOException) and whether a file exists.
 */
module MxSysInfo {
  import opened JavaLang

  datatype Host = Host(canonicalPath: string -> Result<string>, fileExists: string -> bool)

  // -----------------------------------------------------------------------
  // The two regular expressions, matched against a whole string

  /** The characters Java's '.' does not match outside DOTALL mode. */
  predicate IsLineTerminator(c: char) {
    c == '\n' || c == '\r' || c as int == 0x85 || c as int == 0x2028 || c as int == 0x2029
  }

  predicate NoLineTerminator(s: string) {
    forall i :: 0 <= i < |s| ==> !IsLineTerminator(s[i])
  }

  /** The longest prefix of s made of decimal digits: what a greedy \d+ consumes. */
  function LeadingDigits(s: string): (r: string)
    ensures |r| <= |s| && r == s[..|r|]
    ensures forall i :: 0 <= i < |r| ==> IsDigit(r[i])
    ensures |r| < |s| ==> !IsDigit(s[|r|])
  {
    if s == [] || !IsDigit(s[0]) then [] else [s[0]] + LeadingDigits(s[1..])
  }

  /** The two patterns of guessMxSysInfo. */
  datatype Pattern =
    | Libc       // .*/libc-(\d+)\.(\d+)\..*
    | Libstdcxx  // .*/libstdc\+\+\.so\.(\d+)\.0\.(\d+)

  /** The literal that follows the leading .* of a pattern. */
  function Anchor(p: Pattern): string {
    match p
    case Libc => "/libc-"
    case Libstdcxx => "/libstdc++.so."
  }

  /** The literal between the two groups. */
  function Middle(p: Pattern): string {
    match p
    case Libc => "."
    case Libstdcxx => ".0."
  }

  /**
   * The part of a pattern after its leading .*, matched against all of t:
   * the groups it captures, or None. Both groups are greedy digit runs, so
   * the match, when there is one, is unique.
   */
  function MatchTail(p: Pattern, t: string): Option<(string, string)>
  {
    if StartsWith(t, Anchor(p)) then MatchGroups(p, t[|Anchor(p)|..]) else None
  }

  /** The groups and what follows them, matched against u (the text after the anchor). */
  function MatchGroups(p: Pattern, u: string): Option<(string, string)>
  {
    var g1 := LeadingDigits(u);
    if g1 == [] then None else MatchSecond(p, g1, u[|g1|..])
  }

  /** The middle literal, the second group and the end of the pattern, matched against v. */
  function MatchSecond(p: Pattern, g1: string, v: string): Option<(string, string)>
  {
    if !StartsWith(v, Middle(p)) then None
    else
      var w := v[|Middle(p)|..];
      var g2 := LeadingDigits(w);
      if g2 != [] && Closes(p, w[|g2|..]) then Some((g1, g2)) else None
  }

  /** What may follow the second group: "\\..*" for libc, nothing for the C++ runtime. */
  predicate Closes(p: Pattern, x: string) {
    match p
    case Libc => |x| > 0 && x[0] == '.'
    case Libstdcxx => x == []
  }

  /**
   * The leading greedy .* backtracks from the end: the first start position
   * tried that lets the tail match is the last one below n.
   */
  function LastMatch(tail: string -> Option<(string, string)>, s: string, n: nat): Option<(string, string)>
    requires n <= |s|
  {
    if n == 0 then None
    else if tail(s[n - 1..]).Some? then tail(s[n - 1..])
    else LastMatch(tail, s, n - 1)
  }

  /** The tail matcher of a pattern, as a function value. */
  function TailOf(p: Pattern): string -> Option<(string, string)> {
    t => MatchTail(p, t)
  }

  /** Matcher.matches() followed by group(1) and group(2). */
  function Groups(p: Pattern, s: string): Option<(string, string)>
  {
    if NoLineTerminator(s) then LastMatch(TailOf(p), s, |s|) else None
  }

  /** The text a pattern's tail matches, built from its two groups and what the final .* matched. */
  function Render(p: Pattern, g1: string, g2: string, rest: string): string {
    Anchor(p) + (g1 + (Middle(p) + (g2 + Last(p, rest))))
  }

  /** The groups of a tail: digit runs, and nothing after the last one for the C++ pattern. */
  predicate GroupsShape(p: Pattern, g1: string, g2: string, rest: string) {
    IsDigits(g1) && IsDigits(g2) && (p.Libstdcxx? ==> rest == [])
  }

  /** The strings a pattern matches as a whole, with the groups it captures. */
  ghost predicate Shape(p: Pattern, s: string, prefix: string, g1: string, g2: string, rest: string) {
    NoLineTerminator(s) && GroupsShape(p, g1, g2, rest) && s == prefix + Render(p, g1, g2, rest)
  }

  /** What follows the second group in a rendering. */
  function Last(p: Pattern, rest: string): string {
    if p.Libc? then "." + rest else []
  }

  /** What the second layer accepts is the middle literal, the second group and a proper ending. */
  lemma MatchSecondSound(p: Pattern, g1: string, v: string, g2: string) returns (rest: string)
    requires MatchSecond(p, g1, v) == Some((g1, g2))
    ensures IsDigits(g2) && (p.Libstdcxx? ==> rest == []) && v == Middle(p) + (g2 + Last(p, rest))
  {
    var w := v[|Middle(p)|..];
    SplitAfterPrefix(v, Middle(p));
    assert g2 == LeadingDigits(w);
    var x := w[|g2|..];
    assert w == g2 + x;
    assert Closes(p, x);
    if p.Libc? {
      rest := x[1..];
      assert x == [x[0]] + rest;
    } else {
      rest := [];
    }
  }

  /** What the tail matcher accepts is a rendering of the groups it reports. */
  lemma MatchTailSound(p: Pattern, t: string, g1: string, g2: string) returns (rest: string)
    requires MatchTail(p, t) == Some((g1, g2))
    ensures GroupsShape(p, g1, g2, rest) && t == Render(p, g1, g2, rest)
  {
    var u := t[|Anchor(p)|..];
    SplitAfterPrefix(t, Anchor(p));
    assert MatchGroups(p, u) == Some((g1, g2)) && g1 == LeadingDigits(u);
    var v := u[|g1|..];
    SplitAfterPrefix(u, g1);
    rest := MatchSecondSound(p, g1, v, g2);
  }

  /** The second layer accepts the middle literal, a digit group and a proper ending. */
  lemma MatchSecondComplete(p: Pattern, g1: string, g2: string, rest: string)
    requires GroupsShape(p, g1, g2, rest)
    ensures MatchSecond(p, g1, Middle(p) + (g2 + Last(p, rest))) == Some((g1, g2))
  {
    var v := Middle(p) + (g2 + Last(p, rest));
    assert v[|Middle(p)|..] == g2 + Last(p, rest);
    LeadingDigitsOf(g2, Last(p, rest));
    assert (g2 + Last(p, rest))[|g2|..] == Last(p, rest);
  }

  /** A rendering of digit groups is accepted by the tail matcher, with the same groups. */
  lemma MatchTailComplete(p: Pattern, g1: string, g2: string, rest: string)
    requires GroupsShape(p, g1, g2, rest)
    ensures MatchTail(p, Render(p, g1, g2, rest)) == Some((g1, g2))
  {
    var v := Middle(p) + (g2 + Last(p, rest));
    var u := g1 + v;
    assert (Anchor(p) + u)[|Anchor(p)|..] == u;
    assert Middle(p)[0] == '.';
    LeadingDigitsOf(g1, v);
    assert u[|g1|..] == v;
    MatchSecondComplete(p, g1, g2, rest);
  }

  /** A string that starts with a is a followed by the rest. */
  lemma SplitAfterPrefix(s: string, a: string)
    requires StartsWith(s, a)
    ensures s == a + s[|a|..]
  {
  }

  /** A greedy digit run stops exactly where the digits do. */
  lemma {:induction false} LeadingDigitsOf(g: string, s: string)
    requires forall i :: 0 <= i < |g| ==> IsDigit(g[i])
    requires s == [] || !IsDigit(s[0])
    ensures LeadingDigits(g + s) == g
  {
    if g != [] {
      assert (g + s)[1..] == g[1..] + s;
      LeadingDigitsOf(g[1..], s);
    } else {
      assert g + s == s;
    }
  }

  /** LastMatch only reports what the tail matcher accepted at some start below n. */
  lemma {:induction false} LastMatchSound(tail: string -> Option<(string, string)>, s: string, n: nat) returns (k: nat)
    requires n <= |s| && LastMatch(tail, s, n).Some?
    ensures k < n && tail(s[k..]) == LastMatch(tail, s, n)
  {
    if tail(s[n - 1..]).Some? {
      k := n - 1;
    } else {
      k := LastMatchSound(tail, s, n - 1);
    }
  }

  /** LastMatch finds a match whenever the tail matches at some start below n. */
  lemma {:induction false} LastMatchComplete(tail: string -> Option<(string, string)>, s: string, n: nat, k: nat)
    requires k < n <= |s| && tail(s[k..]).Some?
    ensures LastMatch(tail, s, n).Some?
  {
    if k < n - 1 && tail(s[n - 1..]).None? {
      LastMatchComplete(tail, s, n - 1, k);
    }
  }

  /** LastMatch passes over the starts above k at which the tail does not match. */
  lemma {:induction false} LastMatchSkips(tail: string -> Option<(string, string)>, s: string, n: nat, k: nat)
    requires k < n <= |s|
    requires forall j :: k < j < n ==> tail(s[j..]).None?
    ensures LastMatch(tail, s, n) == LastMatch(tail, s, k + 1)
  {
    if n > k + 1 {
      LastMatchSkips(tail, s, n - 1, k);
    }
  }

  /** Whatever Matcher.matches() accepts has the pattern's shape, with the groups it reports. */
  lemma GroupsSound(p: Pattern, s: string, g1: string, g2: string) returns (prefix: string, rest: string)
    requires Groups(p, s) == Some((g1, g2))
    ensures Shape(p, s, prefix, g1, g2, rest)
  {
    assert NoLineTerminator(s) && LastMatch(TailOf(p), s, |s|) == Some((g1, g2));
    var k := LastMatchSound(TailOf(p), s, |s|);
    prefix := s[..k];
    SplitAfterPrefix(s, prefix);
    var t := s[k..];
    assert TailOf(p)(t) == Some((g1, g2));
    rest := MatchTailSound(p, t, g1, g2);
  }

  /** Matcher.matches() accepts every string of the pattern's shape. */
  lemma GroupsComplete(p: Pattern, s: string, prefix: string, g1: string, g2: string, rest: string)
    requires Shape(p, s, prefix, g1, g2, rest)
    ensures Groups(p, s).Some?
  {
    var k := |prefix|;
    assert s[k..] == Render(p, g1, g2, rest);
    MatchTailComplete(p, g1, g2, rest);
    LastMatchComplete(TailOf(p), s, |s|, k);
  }

  /** A rendered tail holds '/' only at its first character. */
  lemma RenderSlashFirst(p: Pattern, g1: string, g2: string, rest: string)
    requires GroupsShape(p, g1, g2, rest) && '/' !in rest
    ensures |Render(p, g1, g2, rest)| > 0 && '/' !in Render(p, g1, g2, rest)[1..]
  {
    assert Render(p, g1, g2, rest)[1..] == Anchor(p)[1..] + (g1 + (Middle(p) + (g2 + Last(p, rest))));
    assert '/' !in g1 && '/' !in g2;
  }

  /** Behind a prefix, such a tail leaves no '/' after the position where it starts. */
  lemma SlashOnlyAt(prefix: string, t: string)
    requires |t| > 0 && '/' !in t[1..]
    ensures forall j :: |prefix| < j < |prefix + t| ==> (prefix + t)[j] != '/'
  {
    forall j | |prefix| < j < |prefix + t|
      ensures (prefix + t)[j] != '/'
    {
      assert (prefix + t)[j] == t[1..][j - |prefix| - 1];
    }
  }

  /** The tail matcher fails at every start that is not a '/'. */
  lemma NoTailWithoutSlash(p: Pattern, s: string, k: nat)
    requires k <= |s|
    requires forall j :: k < j < |s| ==> s[j] != '/'
    ensures forall j :: k < j < |s| ==> TailOf(p)(s[j..]).None?
  {
    forall j | k < j < |s|
      ensures TailOf(p)(s[j..]).None?
    {
      assert s[j..][0] == s[j] && Anchor(p)[0] == '/';
    }
  }

  /**
   * When what the final .* matched holds no '/', the groups captured are the
   * ones the string was built from.
   */
  lemma GroupsRoundTrip(p: Pattern, prefix: string, g1: string, g2: string, rest: string)
    requires '/' !in rest
    requires Shape(p, prefix + Render(p, g1, g2, rest), prefix, g1, g2, rest)
    ensures Groups(p, prefix + Render(p, g1, g2, rest)) == Some((g1, g2))
  {
    var s := prefix + Render(p, g1, g2, rest);
    var k := |prefix|;
    assert s[k..] == Render(p, g1, g2, rest);
    MatchTailComplete(p, g1, g2, rest);
    assert TailOf(p)(s[k..]).Some?;
    RenderSlashFirst(p, g1, g2, rest);
    SlashOnlyAt(prefix, Render(p, g1, g2, rest));
    NoTailWithoutSlash(p, s, k);
    LastMatchSkips(TailOf(p), s, |s|, k);
  }

  // -----------------------------------------------------------------------
  // The guess

  /**
   * The C++ runtime version: "5" for major 5; for major 6, "6" below minor 9
   * and "6" followed by the minor's text from 9 on; otherwise major then
   * minor. Integer.parseInt on a minor beyond int range throws.
   */
  function CxxVersion(major: string, minor: string): (r: Result<string>)
    ensures r.Err? ==> major == "6" && r.error == NumberFormat(minor)
  {
    if major == "5" then Ok("5")
    else if major == "6" then
      match ParseInt(minor)
      case None => Err(NumberFormat(minor))
      case Some(minorVersion) => Ok(if minorVersion < 9 then "6" else "6" + minor)
    else Ok(major + minor)
  }

  /** The minor version only fails to parse when it is beyond the int range. */
  lemma CxxVersionFails(major: string, minor: string)
    requires IsDigits(minor)
    ensures CxxVersion(major, minor).Err? <==> major == "6" && DigitsValue(minor) > INT_MAX
  {
    assert minor[0] != '-' && minor[0] != '+';
  }

  /** The C++ version strings of common runtimes. */
  lemma CxxVersionExamples()
    ensures CxxVersion("5", "7") == Ok("5")
    ensures CxxVersion("6", "8") == Ok("6")
    ensures CxxVersion("6", "28") == Ok("628")
    ensures CxxVersion("7", "1") == Ok("71")
  {
    assert DigitsValue("8") == 8 && DigitsValue("28") == 28 by {
      assert "28"[..1] == "2";
    }
    assert IsDigits("28") && ParseInt("28") == Some(28);
    assert "6" + "28" == "628" && "7" + "1" == "71";
  }

  /** The path whose target names the C++ runtime: version 6 when it exists, otherwise 5. */
  function LibstdcxxFile(host: Host): (r: string)
    ensures r == "/usr/lib/libstdc++.so.6" || r == "/usr/lib/libstdc++.so.5"
    ensures r == "/usr/lib/libstdc++.so.5" <==> !host.fileExists("/usr/lib/libstdc++.so.6")
  {
    if host.fileExists("/usr/lib/libstdc++.so.6") then "/usr/lib/libstdc++.so.6" else "/usr/lib/libstdc++.so.5"
  }

  /**
   * The body of the try block on Linux: "c" + libc major + minor + "cxx" +
   * C++ version, or the exception it raises.
   */
  function LinuxExtra(host: Host): (r: Result<string>)
  {
    match host.canonicalPath("/lib/libc.so.6")
    case Err(e) => Err(e)
    case Ok(libcDest) =>
      match Groups(Libc, libcDest)
      case None => Err(IO("libc symlink contains unexpected destination: " + libcDest))
      case Some((libcMajor, libcMinor)) =>
        match host.canonicalPath(LibstdcxxFile(host))
        case Err(e) => Err(e)
        case Ok(libstdcxxDest) =>
          match Groups(Libstdcxx, libstdcxxDest)
          case None => Err(IO("libstdc++ symlink contains unexpected destination: " + libstdcxxDest))
          case Some((cxxMajor, cxxMinor)) =>
            match CxxVersion(cxxMajor, cxxMinor)
            case Err(e) => Err(e)
            case Ok(cxxver) => Ok("c" + libcMajor + libcMinor + "cxx" + cxxver)
  }

  /** String concatenation of a possibly null string. */
  function JavaString(s: Option<string>): string {
    if s.Some? then s.value else "null"
  }

  /**
   * guessMxSysInfo: os.arch, os.name and extra joined by '-'. Extra is
   * "unknown" off Linux and whenever the Linux probe throws an IOException;
   * any other exception escapes.
   */
  function GuessMxSysInfo(props: Properties, host: Host): (r: Result<string>)
    ensures r.Err? ==> GetProperty(props, "os.name") == Some("Linux") && !r.error.IO?
    ensures GetProperty(props, "os.name") != Some("Linux") ==>
      r == Ok(JavaString(GetProperty(props, "os.arch")) + "-" + JavaString(GetProperty(props, "os.name")) + "-" + "unknown")
  {
    var arch := GetProperty(props, "os.arch");
    var os := GetProperty(props, "os.name");
    var extra: Result<string> :=
      if os != Some("Linux") then Ok("unknown")
      else match LinuxExtra(host)
        case Ok(x) => Ok(x)
        case Err(e) => if e.IO? then Ok("unknown") else Err(e);
    match extra
    case Err(e) => Err(e)
    case Ok(x) => Ok(JavaString(arch) + "-" + JavaString(os) + "-" + x)
  }

  /** getMxSysInfo: the mx.sysinfo property overrides the guess. */
  function GetMxSysInfo(props: Properties, host: Host): (r: Result<string>)
    ensures "mx.sysinfo" in props ==> r == Ok(props["mx.sysinfo"])
    ensures "mx.sysinfo" !in props ==> r == GuessMxSysInfo(props, host)
  {
    match GetProperty(props, "mx.sysinfo")
    case Some(mxSysInfo) => Ok(mxSysInfo)
    case None => GuessMxSysInfo(props, host)
  }

  /**
   * On Linux with links whose targets have the expected shapes, the guess
   * ends in "c<libc major><libc minor>cxx<C++ version>".
   */
  lemma LinuxGuess(props: Properties, host: Host, libcDir: string, libcMajor: string, libcMinor: string,
                   libcRest: string, cxxDir: string, cxxMajor: string, cxxMinor: string)
    requires GetProperty(props, "os.name") == Some("Linux")
    requires '/' !in libcRest
    requires Shape(Libc, libcDir + Render(Libc, libcMajor, libcMinor, libcRest), libcDir, libcMajor, libcMinor, libcRest)
    requires host.canonicalPath("/lib/libc.so.6") == Ok(libcDir + Render(Libc, libcMajor, libcMinor, libcRest))
    requires Shape(Libstdcxx, cxxDir + Render(Libstdcxx, cxxMajor, cxxMinor, []), cxxDir, cxxMajor, cxxMinor, [])
    requires host.canonicalPath(LibstdcxxFile(host)) == Ok(cxxDir + Render(Libstdcxx, cxxMajor, cxxMinor, []))
    requires CxxVersion(cxxMajor, cxxMinor).Ok?
    ensures GuessMxSysInfo(props, host) == Ok(JavaString(GetProperty(props, "os.arch")) + "-" + "Linux" + "-" +
      ("c" + libcMajor + libcMinor + "cxx" + CxxVersion(cxxMajor, cxxMinor).value))
  {
    GroupsRoundTrip(Libc, libcDir, libcMajor, libcMinor, libcRest);
    GroupsRoundTrip(Libstdcxx, cxxDir, cxxMajor, cxxMinor, []);
  }
}
