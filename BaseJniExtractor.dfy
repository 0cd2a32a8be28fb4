/**
 * The shared machinery of the JNI extractors: where native resources are
 * looked up inside the class path, how a library's bytes are copied out of a
 * resource into the extraction directory, how AUTOEXTRACT.LIST manifests are
 * read, and how folders left behind by earlier runs are cleaned up.
 */
module BaseJniExtractor {
  import opened JavaLang
  import opened FileSystem
  import opened Streams
  import MxSysInfo

  const JAVA_TMPDIR: string := "java.io.tmpdir"
  const ALTR_TMPDIR: string := "./tmplib"
  const TMP_PREFIX: string := "nativelib-loader_"
  const LEFTOVER_MIN_AGE: string := "org.scijava.nativelib.leftoverMinAgeMs"
  const LEFTOVER_MIN_AGE_DEFAULT: int := 5 * 60 * 1000
  const BUFFER_SIZE: nat := 8192
  const AUTOEXTRACT_LIST: string := "AUTOEXTRACT.LIST"
  const RESOURCE_ROOT: string := "META-INF/lib/"

  // ---------------------------------------------------------------------
  // Class-path resources

  /**
   * What a class loader can see: for each resource name, the contents of
   * every class-path entry that holds it, in class-path order.
   */
  datatype Loader = Loader(resources: map<string, seq<seq<byte>>>)

  /** ClassLoader.getResource: the first entry holding the name, or null. */
  function GetResource(loader: Loader, name: string): Option<seq<byte>>
  {
    if name in loader.resources && |loader.resources[name]| > 0 then Some(loader.resources[name][0])
    else None
  }

  /** ClassLoader.getResources: every entry holding the name. */
  function GetResources(loader: Loader, name: string): seq<seq<byte>>
  {
    if name in loader.resources then loader.resources[name] else []
  }

  /**
   * The resource directories searched for native libraries: the one for the
   * platform's mx.sysinfo first, then the generic one.
   */
  function NativeResourcePaths(mxSysInfo: Option<string>): (r: seq<string>)
    ensures 1 <= |r| <= 2 && r[|r| - 1] == RESOURCE_ROOT
    ensures |r| == 2 <==> mxSysInfo.Some?
    ensures mxSysInfo.Some? ==> r[0] == RESOURCE_ROOT + mxSysInfo.value + "/"
    ensures forall i :: 0 <= i < |r| ==> StartsWith(r[i], RESOURCE_ROOT) && EndsWith(r[i], "/")
  {
    match mxSysInfo
    case Some(info) => [RESOURCE_ROOT + info + "/", RESOURCE_ROOT]
    case None => [RESOURCE_ROOT]
  }

  /** getMxSysInfo never answers null, so a successful start always searches two directories. */
  lemma NativeResourcePathsFromSysInfo(props: Properties, host: MxSysInfo.Host)
    requires MxSysInfo.GetMxSysInfo(props, host).Ok?
    ensures |NativeResourcePaths(Some(MxSysInfo.GetMxSysInfo(props, host).value))| == 2
  {
  }

  // ---------------------------------------------------------------------
  // Resolving a JNI library inside a resource directory

  /** libPath with a '/' added when it lacks one, followed by the mapped name. */
  function CombinedPath(libPath: string, mapped: string): string
  {
    (if EndsWith(libPath, "/") then libPath else libPath + "/") + mapped
  }

  /** The combined path is libPath, one separator, then the mapped name. */
  lemma CombinedPathShape(libPath: string, mapped: string)
    ensures StartsWith(CombinedPath(libPath, mapped), libPath)
    ensures EndsWith(CombinedPath(libPath, mapped), "/" + mapped)
    ensures |CombinedPath(libPath, mapped)| == |libPath| + |mapped| + (if EndsWith(libPath, "/") then 0 else 1)
  {
    var r := CombinedPath(libPath, mapped);
    if EndsWith(libPath, "/") {
      assert r[|r| - |mapped| - 1..] == libPath[|libPath| - 1..] + mapped;
    } else {
      assert r[|r| - |mapped| - 1..] == "/" + mapped;
    }
  }

  /** The other Mac OS X library suffix: ".jnilib" and ".dylib" stand in for each other. */
  function AltLibName(mapped: string): Option<string>
  {
    if EndsWith(mapped, ".jnilib") then Some(mapped[..|mapped| - 7] + ".dylib")
    else if EndsWith(mapped, ".dylib") then Some(mapped[..|mapped| - 6] + ".jnilib")
    else None
  }

  /**
   * Swapping the suffix keeps the base name, and swapping it twice gives the
   * original name back; a name with neither suffix has no alternative.
   */
  lemma AltLibNameInvolution(mapped: string)
    ensures AltLibName(mapped).None? <==> !EndsWith(mapped, ".jnilib") && !EndsWith(mapped, ".dylib")
    ensures AltLibName(mapped).Some? ==> AltLibName(AltLibName(mapped).value) == Some(mapped)
    ensures EndsWith(mapped, ".jnilib") ==> AltLibName(mapped) == Some(mapped[..|mapped| - 7] + ".dylib")
    ensures EndsWith(mapped, ".dylib") ==> AltLibName(mapped) == Some(mapped[..|mapped| - 6] + ".jnilib")
  {
    if EndsWith(mapped, ".jnilib") {
      var base := mapped[..|mapped| - 7];
      assert base + ".jnilib" == mapped;
      assert mapped[|mapped| - 6..][0] == mapped[|mapped| - 6] == 'j';
      SwapDylib(base);
    } else if EndsWith(mapped, ".dylib") {
      var base := mapped[..|mapped| - 6];
      assert base + ".dylib" == mapped;
      SwapJnilib(base);
    }
  }

  lemma SwapJnilib(base: string)
    ensures AltLibName(base + ".jnilib") == Some(base + ".dylib")
  {
    var m := base + ".jnilib";
    assert m[|m| - 7..] == ".jnilib";
    assert m[..|m| - 7] == base;
  }

  lemma SwapDylib(base: string)
    ensures AltLibName(base + ".dylib") == Some(base + ".jnilib")
  {
    var m := base + ".dylib";
    assert m[|m| - 6..] == ".dylib";
    assert !EndsWith(m, ".jnilib") by {
      if |m| >= 7 {
        assert m[|m| - 7..][1] == m[|m| - 6] == '.';
      }
    }
    assert m[..|m| - 6] == base;
  }

  /**
   * The resource extractJni settles on, with the file name it is extracted
   * under: the mapped name at the combined path in the library's own jar;
   * failing that, on a suffix mismatch, the alternative name looked up in the
   * extractor's own class loader directly after libPath.
   */
  function ResolveJni(jarLoader: Loader, ownLoader: Loader, libPath: string, mapped: string): Option<(seq<byte>, string)>
  {
    match GetResource(jarLoader, CombinedPath(libPath, mapped))
    case Some(bytes) => Some((bytes, mapped))
    case None =>
      match AltLibName(mapped)
      case None => None
      case Some(alt) =>
        match GetResource(ownLoader, libPath + alt)
        case Some(bytes) => Some((bytes, alt))
        case None => None
  }

  /**
   * The library is found exactly when the combined path exists in the jar or
   * the alternative name exists in the own loader; the combined path takes
   * precedence, and the name extracted under is the mapped name or its
   * alternative.
   */
  lemma ResolveJniCases(jarLoader: Loader, ownLoader: Loader, libPath: string, mapped: string)
    ensures var r := ResolveJni(jarLoader, ownLoader, libPath, mapped);
      && (r.Some? <==> GetResource(jarLoader, CombinedPath(libPath, mapped)).Some? ||
                       (AltLibName(mapped).Some? && GetResource(ownLoader, libPath + AltLibName(mapped).value).Some?))
      && (GetResource(jarLoader, CombinedPath(libPath, mapped)).Some? ==>
            r == Some((GetResource(jarLoader, CombinedPath(libPath, mapped)).value, mapped)))
      && (r.Some? && r.value.1 != mapped ==>
            AltLibName(r.value.1) == Some(mapped) &&
            Some(r.value.0) == GetResource(ownLoader, libPath + r.value.1))
  {
    AltLibNameInvolution(mapped);
  }

  /**
   * The alternative name is appended to libPath as it stands: without a
   * trailing separator it runs into the last directory's name.
   */
  lemma AltProbeJoinsLibPath()
    ensures CombinedPath("META-INF/lib", "libfoo.jnilib") == "META-INF/lib/libfoo.jnilib"
    ensures AltLibName("libfoo.jnilib") == Some("libfoo.dylib")
    ensures "META-INF/lib" + AltLibName("libfoo.jnilib").value == "META-INF/liblibfoo.dylib"
  {
    ExampleCombinedPath();
    ExampleAltLibName();
    assert "META-INF/lib" + "libfoo.dylib" == "META-INF/liblibfoo.dylib";
  }

  lemma ExampleCombinedPath()
    ensures CombinedPath("META-INF/lib", "libfoo.jnilib") == "META-INF/lib/libfoo.jnilib"
  {
    assert CombinedPath("META-INF/lib", "libfoo.jnilib") == "META-INF/lib" + "/" + "libfoo.jnilib" by {
      assert "META-INF/lib"[|"META-INF/lib"| - 1] == 'b';
    }
    assert "META-INF/lib" + "/" + "libfoo.jnilib" == "META-INF/lib/libfoo.jnilib";
  }

  lemma ExampleAltLibName()
    ensures AltLibName("libfoo.jnilib") == Some("libfoo.dylib")
  {
    assert "libfoo" + ".jnilib" == "libfoo.jnilib";
    SwapJnilib("libfoo");
    assert "libfoo" + ".dylib" == "libfoo.dylib";
  }

  /**
   * For every library path and every name with an alternative, the
   * alternative probe is the path the jar probe would use for that name
   * exactly when libPath already ends in a separator.
   */
  lemma AltProbeSeparator(libPath: string, mapped: string)
    requires AltLibName(mapped).Some?
    ensures var alt := AltLibName(mapped).value;
      libPath + alt == CombinedPath(libPath, alt) <==> EndsWith(libPath, "/")
  {
    var alt := AltLibName(mapped).value;
    CombinedPathShape(libPath, alt);
  }

  // ---------------------------------------------------------------------
  // AUTOEXTRACT.LIST manifests

  /**
   * The characters an InputStreamReader for UTF-8 makes of the bytes: an
   * ASCII byte is its own character, and any other byte stands for the
   * replacement character.
   */
  function Decode(bytes: seq<byte>): string
  {
    seq(|bytes|, i requires 0 <= i < |bytes| => if bytes[i] >= 0 then (bytes[i] as int) as char else '�')
  }

  predicate IsAscii(s: string) {
    forall i :: 0 <= i < |s| ==> s[i] as int < 128
  }

  /** The bytes of an ASCII string. */
  function Encode(s: string): seq<byte>
    requires IsAscii(s)
  {
    seq(|s|, i requires 0 <= i < |s| && IsAscii(s) => (s[i] as int) as byte)
  }

  /** Decoding the bytes of an ASCII string gives the string back. */
  lemma DecodeEncode(s: string)
    requires IsAscii(s)
    ensures Decode(Encode(s)) == s
  {
  }

  /** The characters that end a line for BufferedReader.readLine. */
  predicate IsLineEnd(c: char) {
    c == '\n' || c == '\r'
  }

  predicate NoLineEnd(s: string) {
    forall i :: 0 <= i < |s| ==> !IsLineEnd(s[i])
  }

  /** The length of the first line of s: the characters before the first line end. */
  function LineLength(s: string): (k: nat)
    ensures k <= |s| && NoLineEnd(s[..k])
    ensures k < |s| ==> IsLineEnd(s[k])
  {
    if s == [] || IsLineEnd(s[0]) then 0
    else
      var k := 1 + LineLength(s[1..]);
      assert s[..k] == [s[0]] + s[1..][..k - 1];
      k
  }

  /**
   * BufferedReader.readLine until it answers null: lines end at "\n", "\r"
   * or "\r\n", and a last line without a line end still counts.
   */
  function ReadLines(s: string): (lines: seq<string>)
    ensures forall i :: 0 <= i < |lines| ==> NoLineEnd(lines[i])
    decreases |s|
  {
    if s == [] then []
    else
      var k := LineLength(s);
      if k == |s| then
        assert s[..k] == s;
        [s]
      else
        var next := if s[k] == '\r' && k + 1 < |s| && s[k + 1] == '\n' then k + 2 else k + 1;
        [s[..k]] + ReadLines(s[next..])
  }

  /** The text of lines, each followed by eol. */
  function Terminated(lines: seq<string>, eol: string): string
  {
    if lines == [] then "" else lines[0] + (eol + Terminated(lines[1..], eol))
  }

  lemma {:induction false} LineLengthOf(line: string, rest: string)
    requires NoLineEnd(line) && (rest == [] || IsLineEnd(rest[0]))
    ensures LineLength(line + rest) == |line|
    decreases |line|
  {
    if line != [] {
      assert (line + rest)[1..] == line[1..] + rest;
      LineLengthOf(line[1..], rest);
    }
  }

  /** Reading a line followed by a line end leaves the text after the line end. */
  lemma ReadLinesStep(line: string, eol: string, after: string)
    requires eol == "\n" || eol == "\r" || eol == "\r\n"
    requires NoLineEnd(line)
    requires eol == "\r" && after != [] ==> after[0] != '\n'
    ensures ReadLines(line + (eol + after)) == [line] + ReadLines(after)
  {
    var s := line + (eol + after);
    LineLengthOf(line, eol + after);
    var k := |line|;
    assert s[..k] == line;
    assert s[k..] == eol + after;
    var next := if s[k] == '\r' && k + 1 < |s| && s[k + 1] == '\n' then k + 2 else k + 1;
    assert next == k + |eol| by {
      assert s[k] == eol[0];
      if eol == "\r" && k + 1 < |s| {
        assert s[k + 1] == after[0];
      }
    }
    assert s[next..] == after;
  }

  /** Text written with "\r" line ends never starts with "\n". */
  lemma CarriageReturnText(lines: seq<string>)
    requires forall i :: 0 <= i < |lines| ==> NoLineEnd(lines[i])
    ensures Terminated(lines, "\r") == [] || Terminated(lines, "\r")[0] != '\n'
  {
    if lines != [] && lines[0] != [] {
      assert Terminated(lines, "\r")[0] == lines[0][0];
    }
  }

  /**
   * A manifest written with any one of the three line ends, one entry per
   * line, reads back as exactly its entries.
   */
  lemma {:induction false} ReadTerminated(lines: seq<string>, eol: string)
    requires eol == "\n" || eol == "\r" || eol == "\r\n"
    requires forall i :: 0 <= i < |lines| ==> NoLineEnd(lines[i])
    ensures ReadLines(Terminated(lines, eol)) == lines
    decreases |lines|
  {
    if lines != [] {
      var after := Terminated(lines[1..], eol);
      CarriageReturnText(lines[1..]);
      ReadLinesStep(lines[0], eol, after);
      ReadTerminated(lines[1..], eol);
    }
  }

  /** The library bytes for one manifest line: the first resource directory holding it. */
  function FindLibrary(loader: Loader, paths: seq<string>, line: string): (r: Option<seq<byte>>)
    ensures r.None? <==> forall i :: 0 <= i < |paths| ==> GetResource(loader, paths[i] + line).None?
    decreases |paths|
  {
    if paths == [] then None
    else
      match GetResource(loader, paths[0] + line)
      case Some(bytes) => Some(bytes)
      case None =>
        var r := FindLibrary(loader, paths[1..], line);
        assert forall i :: 1 <= i < |paths| ==> paths[i] == paths[1..][i - 1];
        r
  }

  /** The first resource directory that holds the library is the one used. */
  lemma {:induction false} FindLibraryFirst(loader: Loader, paths: seq<string>, line: string, i: nat)
    requires i < |paths| && GetResource(loader, paths[i] + line).Some?
    requires forall j :: 0 <= j < i ==> GetResource(loader, paths[j] + line).None?
    ensures FindLibrary(loader, paths, line) == GetResource(loader, paths[i] + line)
    decreases i
  {
    if i > 0 {
      FindLibraryFirst(loader, paths[1..], line, i - 1);
    }
  }

  // ---------------------------------------------------------------------
  // Leftover age and copying

  /**
   * getLeftoverMinAge: the property as a long, with five minutes when it is
   * missing or not a number.
   */
  function GetLeftoverMinAge(props: Properties): (age: int)
    ensures LONG_MIN <= age <= LONG_MAX
    ensures LEFTOVER_MIN_AGE !in props ==> age == LEFTOVER_MIN_AGE_DEFAULT
    ensures LEFTOVER_MIN_AGE in props && ParseLong(props[LEFTOVER_MIN_AGE]).Some? ==>
              age == ParseLong(props[LEFTOVER_MIN_AGE]).value
    ensures LEFTOVER_MIN_AGE in props && ParseLong(props[LEFTOVER_MIN_AGE]).None? ==>
              age == LEFTOVER_MIN_AGE_DEFAULT
  {
    ParseDecimalRoundTrip(LEFTOVER_MIN_AGE_DEFAULT, LONG_MIN, LONG_MAX);
    match ParseLong(GetPropertyOr(props, LEFTOVER_MIN_AGE, IntToString(LEFTOVER_MIN_AGE_DEFAULT)))
    case Some(age) => age
    case None => LEFTOVER_MIN_AGE_DEFAULT
  }

  /**
   * copy: reads the input to its end through an 8192-byte buffer and writes
   * every chunk read; the output receives exactly the bytes that were left
   * in the input, in chunks of 1 to 8192 bytes.
   */
  method Copy(input: InputStream, output: OutputSink)
    requires input.Valid()
    modifies input, output
    ensures input.Valid() && input.pos == |input.data|
    ensures output.written == old(output.written) + input.data[old(input.pos)..]
    ensures old(output.chunks) <= output.chunks
    ensures forall k :: |old(output.chunks)| <= k < |output.chunks| ==> 0 < |output.chunks[k]| <= BUFFER_SIZE
  {
    var tmp := new byte[BUFFER_SIZE];
    while true
      invariant input.Valid() && old(input.pos) <= input.pos
      invariant output.written == old(output.written) + input.data[old(input.pos)..input.pos]
      invariant old(output.chunks) <= output.chunks
      invariant forall k :: |old(output.chunks)| <= k < |output.chunks| ==> 0 < |output.chunks[k]| <= BUFFER_SIZE
      decreases |input.data| - input.pos
    {
      ghost var before := input.pos;
      var len := input.Read(tmp);
      if len <= 0 {
        break;
      }
      output.Write(tmp, 0, len);
      assert input.data[old(input.pos)..input.pos] == input.data[old(input.pos)..before] + input.data[before..input.pos];
    }
    assert input.data[old(input.pos)..] == input.data[old(input.pos)..input.pos];
  }

  // ---------------------------------------------------------------------
  // Recursive deletion

  /** The entries of m at or inside d. */
  ghost function Subtree(m: map<Path, Entry>, d: Path): set<Path>
  {
    set q | q in m && d <= q
  }

  /** No entry at or inside d is locked. */
  ghost predicate Unlocked(m: map<Path, Entry>, locked: set<Path>, d: Path) {
    forall q :: q in m && d <= q ==> q !in locked
  }

  /** m1 is m0 with some unlocked entries at or inside d removed and nothing else changed. */
  ghost predicate Shrunk(m0: map<Path, Entry>, m1: map<Path, Entry>, locked: set<Path>, d: Path) {
    (forall q :: q in m1 ==> q in m0 && m1[q] == m0[q]) &&
    (forall q :: q in m0 && q !in m1 ==> d <= q && q !in locked)
  }

  /** m1 is m0 without every entry at or inside d. */
  ghost predicate Gone(m0: map<Path, Entry>, m1: map<Path, Entry>, d: Path) {
    forall q :: q in m1 <==> q in m0 && !(d <= q)
  }

  /** q is at or inside one of the first n roots. */
  ghost predicate UnderSome(roots: seq<Path>, n: nat, q: Path) {
    exists j :: 0 <= j < n && j < |roots| && roots[j] <= q
  }

  /** A tree entry with something inside it is a directory. */
  lemma InsideIsDirectory(m: map<Path, Entry>, c: Path, q: Path)
    requires Tree(m) && q in m && c <= q && c != q
    ensures IsDirectoryIn(m, c)
  {
    AncestorsAreDirectories(m, q, |c|);
    assert q[..|c|] == c;
  }

  /** One more root considered. */
  lemma UnderSomeStep(roots: seq<Path>, i: nat, q: Path)
    requires i < |roots|
    ensures UnderSome(roots, i + 1, q) <==> UnderSome(roots, i, q) || roots[i] <= q
  {
  }

  /** Nothing lies inside a file. */
  lemma FileIsLeaf(m: map<Path, Entry>, c: Path)
    requires Tree(m) && IsFileIn(m, c)
    ensures forall q :: q in m && c <= q ==> q == c
  {
    forall q | q in m && c <= q
      ensures q == c
    {
      if q != c {
        InsideIsDirectory(m, c, q);
      }
    }
  }

  /** Every entry strictly inside d lies at or inside one of d's children. */
  lemma ChildrenCover(m: map<Path, Entry>, d: Path, children: seq<Path>, q: Path)
    requires Tree(m) && q in m && Below(d, q)
    requires forall c :: c in children <==> c in m && c != [] && Parent(c) == d
    ensures UnderSome(children, |children|, q)
  {
    var c := q[..|d| + 1];
    if |d| + 1 < |q| {
      AncestorsAreDirectories(m, q, |d| + 1);
    } else {
      assert c == q;
    }
    assert Parent(c) == d;
    assert c in children;
    var j :| 0 <= j < |children| && children[j] == c;
  }

  /** Of two paths of one length, at most one is a prefix of q. */
  lemma PrefixUnique(a: Path, b: Path, q: Path)
    requires |a| == |b| && b <= q && a != b
    ensures !(a <= q)
  {
    assert b == q[..|b|];
  }

  /** Distinct children of one directory have disjoint subtrees. */
  lemma SiblingsApart(m: map<Path, Entry>, d: Path, children: seq<Path>, i: nat, q: Path)
    requires ListsChildren(m, d, children)
    requires i < |children| && children[i] <= q
    ensures !UnderSome(children, i, q)
  {
    forall j | 0 <= j < i
      ensures !(children[j] <= q)
    {
      assert children[j] in children && children[i] in children;
      PrefixUnique(children[j], children[i], q);
    }
  }

  /**
   * The state of deleteRecursively's loop over the listing of d after i
   * children: exactly the entries inside those children are gone, all of
   * them unlocked.
   */
  ghost predicate DeletedChildren(m0: map<Path, Entry>, m: map<Path, Entry>, locked: set<Path>, d: Path,
                                  children: seq<Path>, i: nat)
  {
    i <= |children| &&
    (forall q :: q in m <==> q in m0 && !UnderSome(children, i, q)) &&
    (forall q :: q in m ==> m[q] == m0[q]) &&
    (forall j :: 0 <= j < i ==> Unlocked(m0, locked, children[j])) &&
    Shrunk(m0, m, locked, d)
  }

  /** Deleting an unlocked file child removes exactly its (one-entry) subtree. */
  lemma FileChildDeleted(m0: map<Path, Entry>, m: map<Path, Entry>, locked: set<Path>, c: Path)
    requires Tree(m0) && IsFileIn(m0, c) && c !in locked
    requires forall q :: q in m ==> q in m0
    ensures Shrunk(m, m - {c}, locked, c) && Gone(m, m - {c}, c) && Unlocked(m, locked, c)
  {
    FileIsLeaf(m0, c);
  }

  /** Deleting a child with all its contents moves the loop on by one. */
  lemma ChildDeleted(m0: map<Path, Entry>, m: map<Path, Entry>, m1: map<Path, Entry>, locked: set<Path>,
                              d: Path, children: seq<Path>, i: nat)
    requires ListsChildren(m0, d, children) && DeletedChildren(m0, m, locked, d, children, i)
    requires i < |children| && Shrunk(m, m1, locked, children[i]) && Gone(m, m1, children[i])
    requires Unlocked(m, locked, children[i])
    ensures DeletedChildren(m0, m1, locked, d, children, i + 1)
  {
    var c := children[i];
    assert c in children;
    forall q | q in m0 && c <= q
      ensures q in m
    {
      SiblingsApart(m0, d, children, i, q);
    }
  }

  /** A child that cannot be deleted leaves d undeletable, with only d's unlocked entries gone. */
  lemma ChildFailed(m0: map<Path, Entry>, m: map<Path, Entry>, m1: map<Path, Entry>, locked: set<Path>,
                    d: Path, children: seq<Path>, i: nat)
    requires ListsChildren(m0, d, children) && DeletedChildren(m0, m, locked, d, children, i)
    requires i < |children| && Shrunk(m, m1, locked, children[i]) && !Unlocked(m, locked, children[i])
    ensures Shrunk(m0, m1, locked, d) && !Unlocked(m0, locked, d)
  {
    assert children[i] in children;
  }

  /** After the whole listing nothing is left inside d. */
  lemma AllChildrenDeleted(m0: map<Path, Entry>, m: map<Path, Entry>, locked: set<Path>, d: Path, children: seq<Path>)
    requires Tree(m0) && IsDirectoryIn(m0, d)
    requires ListsChildren(m0, d, children) && DeletedChildren(m0, m, locked, d, children, |children|)
    ensures d in m && !(exists q :: q in m && Below(d, q))
    ensures forall q :: q in m <==> q in m0 && !Below(d, q)
    ensures Gone(m0, m - {d}, d)
  {
    forall q | q in m0 && Below(d, q)
      ensures UnderSome(children, |children|, q)
    {
      ChildrenCover(m0, d, children, q);
    }
    forall q | q in m0 && UnderSome(children, |children|, q)
      ensures Below(d, q)
    {
      var j :| 0 <= j < |children| && children[j] <= q;
      assert children[j] in children;
    }
    forall q | d <= q
      ensures q == d || Below(d, q)
    {
      assert q[..|d|] == d;
    }
  }

  /** Once all children are deleted, d's subtree is unlocked exactly when d is. */
  lemma AllChildrenUnlocked(m0: map<Path, Entry>, m: map<Path, Entry>, locked: set<Path>, d: Path, children: seq<Path>)
    requires Tree(m0) && IsDirectoryIn(m0, d)
    requires ListsChildren(m0, d, children) && DeletedChildren(m0, m, locked, d, children, |children|)
    ensures Unlocked(m0, locked, d) <==> d !in locked
  {
    if d !in locked {
      forall q | q in m0 && d <= q
        ensures q !in locked
      {
        if q != d {
          ChildrenCover(m0, d, children, q);
          var j :| 0 <= j < |children| && children[j] <= q;
          assert Unlocked(m0, locked, children[j]);
        }
      }
    }
  }

  /** The recursion on a child of d works on a strictly smaller subtree. */
  lemma SubtreeShrinks(m0: map<Path, Entry>, m: map<Path, Entry>, d: Path, c: Path)
    requires d in m0 && m.Keys <= m0.Keys && c != [] && Parent(c) == d
    ensures Subtree(m, c) < Subtree(m0, d)
  {
    assert d in Subtree(m0, d);
    assert d !in Subtree(m, c);
    forall q | q in Subtree(m, c)
      ensures q in Subtree(m0, d)
    {
      assert d <= c;
    }
  }

  /**
   * deleteRecursively: deletes the files and, recursively, the directories
   * inside d, stopping at the first failure, then d itself. When d is not a
   * directory nothing happens and the answer is true. For a directory the
   * answer is true exactly when nothing at or inside it is locked (and it is
   * not the root), and then all of it is gone; whatever happens, only
   * unlocked entries at or inside d are removed.
   */
  method DeleteRecursively(fs: FileSystem, d: Path) returns (ok: bool)
    requires fs.Valid()
    modifies fs
    ensures fs.Valid()
    ensures Shrunk(old(fs.entries), fs.entries, fs.locked, d)
    ensures !IsDirectoryIn(old(fs.entries), d) ==> ok && fs.entries == old(fs.entries)
    ensures IsDirectoryIn(old(fs.entries), d) ==> (ok <==> d != [] && Unlocked(old(fs.entries), fs.locked, d))
    ensures ok && IsDirectoryIn(old(fs.entries), d) ==> Gone(old(fs.entries), fs.entries, d)
    decreases Subtree(fs.entries, d), 1
  {
    var listing := fs.ListFiles(d);
    if listing.None? {
      return true;
    }
    ghost var m0 := fs.entries;
    ok := DeleteListed(fs, d, listing.value);
    if !ok {
      return false;
    }
    AllChildrenDeleted(m0, fs.entries, fs.locked, d, listing.value);
    AllChildrenUnlocked(m0, fs.entries, fs.locked, d, listing.value);
    ok := fs.Delete(d);
  }

  /**
   * The loop of deleteRecursively over the listing of directory d: each file
   * is deleted, each directory deleted recursively, stopping at the first
   * failure. On success every listed child is gone with its contents, none of
   * it locked; on failure something inside d is locked.
   */
  method DeleteListed(fs: FileSystem, d: Path, files: seq<Path>) returns (ok: bool)
    requires fs.Valid() && IsDirectoryIn(fs.entries, d) && ListsChildren(fs.entries, d, files)
    modifies fs
    ensures fs.Valid()
    ensures ok ==> DeletedChildren(old(fs.entries), fs.entries, fs.locked, d, files, |files|)
    ensures !ok ==> Shrunk(old(fs.entries), fs.entries, fs.locked, d) && !Unlocked(old(fs.entries), fs.locked, d)
    decreases Subtree(fs.entries, d), 0
  {
    ghost var m0 := fs.entries;
    var i := 0;
    while i < |files|
      invariant fs.Valid() && fs.entries.Keys <= m0.Keys
      invariant DeletedChildren(m0, fs.entries, fs.locked, d, files, i)
    {
      var c := files[i];
      assert c in files;
      SiblingsApart(m0, d, files, i, c);
      assert fs.IsFile(c) || fs.IsDirectory(c);
      ghost var before := fs.entries;
      var deleted := true;
      if fs.IsFile(c) {
        FileIsLeaf(fs.entries, c);
        deleted := fs.Delete(c);
        if deleted {
          FileChildDeleted(m0, before, fs.locked, c);
        }
      } else if fs.IsDirectory(c) {
        SubtreeShrinks(m0, fs.entries, d, c);
        deleted := DeleteRecursively(fs, c);
      }
      if !deleted {
        ChildFailed(m0, before, fs.entries, fs.locked, d, files, i);
        return false;
      }
      ChildDeleted(m0, before, fs.entries, fs.locked, d, files, i);
      i := i + 1;
    }
    return true;
  }

  // ---------------------------------------------------------------------
  // Leftovers of earlier runs

  /** The temporary directory's name: java.io.tmpdir, or ./tmplib when it is not set. */
  function TmpName(props: Properties): string
  {
    GetPropertyOr(props, JAVA_TMPDIR, ALTR_TMPDIR)
  }

  /** The temporary directory, when TmpName(props) is not the empty pathname. */
  function TmpDir(props: Properties, cwd: Path): Path
  {
    FileOf(cwd, TmpName(props))
  }

  /**
   * A leftover folder old enough to go: a directory directly inside tmp whose
   * name starts with the extractor's prefix and whose last modification is at
   * least minAge before now.
   */
  ghost predicate Stale(m: map<Path, Entry>, tmp: Path, f: Path, minAge: int, now: int) {
    f in m && f != [] && Parent(f) == tmp && StartsWith(Name(f), TMP_PREFIX) &&
    m[f].Directory? && now - m[f].lastModified >= minAge
  }

  /**
   * The state of deleteLeftoverFiles's loop after i entries of the listing:
   * only unlocked entries inside stale folders among them are gone, and the
   * stale folders with nothing locked inside are gone entirely.
   */
  ghost predicate Swept(m0: map<Path, Entry>, m: map<Path, Entry>, locked: set<Path>, tmp: Path,
                        folders: seq<Path>, i: nat, minAge: int, now: int)
  {
    i <= |folders| &&
    (forall q :: q in m ==> q in m0 && m[q] == m0[q]) &&
    Removed(m0, m, locked, tmp, folders, i, minAge, now) &&
    Cleared(m0, m, locked, tmp, folders, i, minAge, now)
  }

  /** Whatever m lacks of m0 was unlocked and lay in a stale folder among the first i of the listing. */
  ghost predicate Removed(m0: map<Path, Entry>, m: map<Path, Entry>, locked: set<Path>, tmp: Path,
                          folders: seq<Path>, i: nat, minAge: int, now: int)
  {
    forall q :: q in m0 && q !in m ==>
      q !in locked && UnderSome(folders, i, q) && |tmp| < |q| && Stale(m0, tmp, q[..|tmp| + 1], minAge, now)
  }

  /** Every stale folder among the first i of the listing with nothing locked inside is gone from m. */
  ghost predicate Cleared(m0: map<Path, Entry>, m: map<Path, Entry>, locked: set<Path>, tmp: Path,
                          folders: seq<Path>, i: nat, minAge: int, now: int)
    requires i <= |folders|
  {
    forall j :: 0 <= j < i && Stale(m0, tmp, folders[j], minAge, now) && Unlocked(m0, locked, folders[j]) ==>
      forall q :: q in m ==> !(folders[j] <= q)
  }

  /**
   * m1 is m0 after the leftover sweep of tmp: nothing changed, only unlocked
   * entries of stale folders removed, and every stale folder with nothing
   * locked inside removed entirely.
   */
  ghost predicate LeftoversSwept(m0: map<Path, Entry>, m1: map<Path, Entry>, locked: set<Path>, tmp: Path,
                                 minAge: int, now: int)
  {
    (forall q :: q in m1 ==> q in m0 && m1[q] == m0[q]) &&
    (forall q :: q in m0 && q !in m1 ==> q !in locked && |tmp| < |q| && Stale(m0, tmp, q[..|tmp| + 1], minAge, now)) &&
    (forall f, q :: (Stale(m0, tmp, f, minAge, now) && Unlocked(m0, locked, f) && q in m1) ==> !(f <= q))
  }

  /** f is due for deletion in m: a prefixed directory at least minAge old. */
  predicate DueIn(m: map<Path, Entry>, f: Path, minAge: int, now: int)
    requires f != []
  {
    StartsWith(Name(f), TMP_PREFIX) && IsDirectoryIn(m, f) && now - m[f].lastModified >= minAge
  }

  /** One more entry of the listing handled: deleted when due, left alone otherwise. */
  lemma SweepStep(m0: map<Path, Entry>, m: map<Path, Entry>, m1: map<Path, Entry>, locked: set<Path>, tmp: Path,
                  folders: seq<Path>, i: nat, minAge: int, now: int)
    requires ListsChildren(m0, tmp, folders) && Swept(m0, m, locked, tmp, folders, i, minAge, now)
    requires i < |folders| && folders[i] != [] && Shrunk(m, m1, locked, folders[i])
    requires !DueIn(m, folders[i], minAge, now) ==> m1 == m
    requires DueIn(m, folders[i], minAge, now) && Unlocked(m, locked, folders[i]) ==> Gone(m, m1, folders[i])
    ensures Swept(m0, m1, locked, tmp, folders, i + 1, minAge, now)
  {
    var f := folders[i];
    DueWhenStale(m0, m, locked, tmp, folders, i, minAge, now);
    SweepRemoves(m0, m, m1, locked, tmp, folders, i, minAge, now);
    SweepClears(m0, m, m1, locked, tmp, folders, i, minAge, now);
    assert forall q :: q in m1 ==> q in m0 && m1[q] == m0[q];
    SweptIntro(m0, m1, locked, tmp, folders, i + 1, minAge, now);
  }

  /** Swept, from its three parts. */
  lemma SweptIntro(m0: map<Path, Entry>, m: map<Path, Entry>, locked: set<Path>, tmp: Path,
                   folders: seq<Path>, i: nat, minAge: int, now: int)
    requires i <= |folders|
    requires forall q :: q in m ==> q in m0 && m[q] == m0[q]
    requires Removed(m0, m, locked, tmp, folders, i, minAge, now)
    requires Cleared(m0, m, locked, tmp, folders, i, minAge, now)
    ensures Swept(m0, m, locked, tmp, folders, i, minAge, now)
  {
  }

  /** An entry not yet handled is due exactly when it is stale in the tree the sweep started from. */
  lemma DueWhenStale(m0: map<Path, Entry>, m: map<Path, Entry>, locked: set<Path>, tmp: Path,
                     folders: seq<Path>, i: nat, minAge: int, now: int)
    requires ListsChildren(m0, tmp, folders) && Swept(m0, m, locked, tmp, folders, i, minAge, now)
    requires i < |folders| && folders[i] != []
    ensures Stale(m0, tmp, folders[i], minAge, now) <==> DueIn(m, folders[i], minAge, now)
    ensures Unlocked(m0, locked, folders[i]) ==> Unlocked(m, locked, folders[i])
  {
    NotYetSwept(m0, m, locked, tmp, folders, i, minAge, now);
    assert folders[i] in folders;
  }

  /** What one step removes lies in a stale folder among the entries handled. */
  lemma SweepRemoves(m0: map<Path, Entry>, m: map<Path, Entry>, m1: map<Path, Entry>, locked: set<Path>, tmp: Path,
                     folders: seq<Path>, i: nat, minAge: int, now: int)
    requires i < |folders| && Removed(m0, m, locked, tmp, folders, i, minAge, now)
    requires Shrunk(m, m1, locked, folders[i])
    requires !Stale(m0, tmp, folders[i], minAge, now) ==> m1 == m
    ensures Removed(m0, m1, locked, tmp, folders, i + 1, minAge, now)
  {
    forall q | q in m0 && q !in m1
      ensures q !in locked && UnderSome(folders, i + 1, q) && |tmp| < |q| && Stale(m0, tmp, q[..|tmp| + 1], minAge, now)
    {
      if q in m {
        RemovedNow(m0, m, m1, locked, tmp, folders, i, minAge, now, q);
      } else {
        UnderMore(folders, i, q);
      }
    }
  }

  /** An entry this step removes lies in the folder it handles, which is stale. */
  lemma RemovedNow(m0: map<Path, Entry>, m: map<Path, Entry>, m1: map<Path, Entry>, locked: set<Path>, tmp: Path,
                   folders: seq<Path>, i: nat, minAge: int, now: int, q: Path)
    requires i < |folders| && Shrunk(m, m1, locked, folders[i])
    requires !Stale(m0, tmp, folders[i], minAge, now) ==> m1 == m
    requires q in m && q !in m1
    ensures q !in locked && UnderSome(folders, i + 1, q) && |tmp| < |q| && Stale(m0, tmp, q[..|tmp| + 1], minAge, now)
  {
    var f := folders[i];
    assert Stale(m0, tmp, f, minAge, now) && f <= q && q !in locked;
    assert q[..|tmp| + 1] == f;
    assert 0 <= i < i + 1 && folders[i] <= q;
  }

  /** What lies under one of the first i roots lies under one of the first i + 1. */
  lemma UnderMore(roots: seq<Path>, i: nat, q: Path)
    requires UnderSome(roots, i, q)
    ensures UnderSome(roots, i + 1, q)
  {
    var j :| 0 <= j < i && j < |roots| && roots[j] <= q;
    assert 0 <= j < i + 1 && roots[j] <= q;
  }

  /** After one step every stale folder handled so far with nothing locked inside is gone. */
  lemma SweepClears(m0: map<Path, Entry>, m: map<Path, Entry>, m1: map<Path, Entry>, locked: set<Path>, tmp: Path,
                    folders: seq<Path>, i: nat, minAge: int, now: int)
    requires i < |folders| && Cleared(m0, m, locked, tmp, folders, i, minAge, now)
    requires forall q :: q in m1 ==> q in m
    requires Stale(m0, tmp, folders[i], minAge, now) && Unlocked(m0, locked, folders[i]) ==> Gone(m, m1, folders[i])
    ensures Cleared(m0, m1, locked, tmp, folders, i + 1, minAge, now)
  {
    forall j, q | 0 <= j < i + 1 && Stale(m0, tmp, folders[j], minAge, now) && Unlocked(m0, locked, folders[j]) && q in m1
      ensures !(folders[j] <= q)
    {
      if j < i {
        assert q in m;
        assert forall q' :: q' in m ==> !(folders[j] <= q');
      } else {
        assert folders[j] == folders[i];
        assert q in m1 <==> q in m && !(folders[i] <= q);
      }
    }
  }

  /** Before the loop nothing is swept. */
  lemma SweepStart(m0: map<Path, Entry>, locked: set<Path>, tmp: Path, folders: seq<Path>, minAge: int, now: int)
    ensures Swept(m0, m0, locked, tmp, folders, 0, minAge, now)
  {
  }

  /** Without a temporary directory there is nothing to sweep. */
  lemma NothingToSweep(m: map<Path, Entry>, locked: set<Path>, tmp: Path, minAge: int, now: int)
    requires Tree(m) && !IsDirectoryIn(m, tmp)
    ensures LeftoversSwept(m, m, locked, tmp, minAge, now)
  {
    forall f | f in m && f != [] && Parent(f) == tmp
      ensures false
    {
    }
  }

  /** The loop's final state is the sweep of the whole listing. */
  lemma SweptAll(m0: map<Path, Entry>, m: map<Path, Entry>, locked: set<Path>, tmp: Path,
                 folders: seq<Path>, minAge: int, now: int)
    requires ListsChildren(m0, tmp, folders) && Swept(m0, m, locked, tmp, folders, |folders|, minAge, now)
    ensures LeftoversSwept(m0, m, locked, tmp, minAge, now)
  {
    forall f, q | Stale(m0, tmp, f, minAge, now) && Unlocked(m0, locked, f) && q in m
      ensures !(f <= q)
    {
      assert f in folders;
      var j :| 0 <= j < |folders| && folders[j] == f;
    }
  }

  /** An entry of the listing not yet handled is still there, unchanged. */
  lemma NotYetSwept(m0: map<Path, Entry>, m: map<Path, Entry>, locked: set<Path>, tmp: Path,
                    folders: seq<Path>, i: nat, minAge: int, now: int)
    requires ListsChildren(m0, tmp, folders) && Swept(m0, m, locked, tmp, folders, i, minAge, now)
    requires i < |folders|
    ensures folders[i] in m && m[folders[i]] == m0[folders[i]]
  {
    assert folders[i] in folders;
    SiblingsApart(m0, tmp, folders, i, folders[i]);
  }

  /**
   * The body of deleteLeftoverFiles's loop for one entry of the listing:
   * a prefixed entry at least minAge old is deleted recursively (which
   * leaves anything but a directory alone).
   */
  method SweepFolder(fs: FileSystem, folder: Path, minAge: int, now: int)
    requires fs.Valid() && folder != []
    modifies fs
    ensures fs.Valid()
    ensures Shrunk(old(fs.entries), fs.entries, fs.locked, folder)
    ensures !DueIn(old(fs.entries), folder, minAge, now) ==> fs.entries == old(fs.entries)
    ensures DueIn(old(fs.entries), folder, minAge, now) && Unlocked(old(fs.entries), fs.locked, folder) ==>
              Gone(old(fs.entries), fs.entries, folder)
  {
    if StartsWith(Name(folder), TMP_PREFIX) {
      var age := now - fs.LastModified(folder);
      if age >= minAge {
        var deleted := DeleteRecursively(fs, folder);
      }
    }
  }

  /**
   * The whole effect of deleteLeftoverFiles on the disk: nothing for the
   * empty pathname, whose listing is null, and LeftoversSwept in the
   * temporary directory otherwise.
   */
  ghost predicate SweptIn(m0: map<Path, Entry>, m1: map<Path, Entry>, locked: set<Path>, props: Properties, cwd: Path, now: int) {
    if TmpName(props) == "" then m1 == m0
    else LeftoversSwept(m0, m1, locked, TmpDir(props, cwd), GetLeftoverMinAge(props), now)
  }

  /**
   * deleteLeftoverFiles: removes, recursively, every folder of the
   * temporary directory named with the extractor's prefix that is at least
   * the minimal leftover age old, as far as locked files allow. Nothing
   * else is removed and nothing is changed. The clock is read once, as
   * now, for the whole sweep.
   */
  method DeleteLeftoverFiles(fs: FileSystem, props: Properties, cwd: Path, now: int)
    requires fs.Valid()
    modifies fs
    ensures fs.Valid()
    ensures SweptIn(old(fs.entries), fs.entries, fs.locked, props, cwd, now)
  {
    var name := TmpName(props);
    if name == "" {
      // listFiles of the empty pathname is null
      return;
    }
    var tmpDirectory := FileOf(cwd, name);
    var listing := fs.ListFiles(tmpDirectory);
    if listing.None? {
      NothingToSweep(fs.entries, fs.locked, tmpDirectory, GetLeftoverMinAge(props), now);
      return;
    }
    var folders := listing.value;
    var minAge := GetLeftoverMinAge(props);
    ghost var m0 := fs.entries;
    SweepStart(m0, fs.locked, tmpDirectory, folders, minAge, now);
    var i := 0;
    while i < |folders|
      invariant fs.Valid()
      invariant Swept(m0, fs.entries, fs.locked, tmpDirectory, folders, i, minAge, now)
    {
      var folder := folders[i];
      ghost var before := fs.entries;
      assert folder in folders;
      SweepFolder(fs, folder, minAge, now);
      SweepStep(m0, before, fs.entries, fs.locked, tmpDirectory, folders, i, minAge, now);
      i := i + 1;
    }
    SweptAll(m0, fs.entries, fs.locked, tmpDirectory, folders, minAge, now);
  }

  // ---------------------------------------------------------------------
  // Extraction into the file tree

  /**
   * Where extractResource writes: the output name inside the JNI directory.
   * The directory argument it is given plays no part.
   */
  function OutputFile(jniDir: Path, outputName: string): Path
  {
    jniDir + ToPath(outputName)
  }

  /** A FileOutputStream can be opened on p: p is no directory and its parent is one. */
  predicate Writable(m: map<Path, Entry>, p: Path) {
    p != [] && IsDirectoryIn(m, Parent(p)) && !IsDirectoryIn(m, p)
  }

  /** Writing a file where one can be opened keeps every other place writable or not as it was. */
  lemma WritableAfterWrite(m: map<Path, Entry>, out: Path, content: seq<byte>, now: int, p: Path)
    requires Writable(m, out)
    ensures Writable(m[out := File(content, now)], p) <==> Writable(m, p)
  {
  }

  /** Writing a file where one can be opened keeps the tree a tree. */
  lemma TreeAfterWrite(m: map<Path, Entry>, out: Path, content: seq<byte>, now: int)
    requires Tree(m) && Writable(m, out)
    ensures Tree(m[out := File(content, now)])
  {
  }

  /** The outcome of extracting a list of libraries: the first failure, if any, and the resulting tree. */
  datatype Run = Run(error: Option<Error>, entries: map<Path, Entry>)
  {
    /** What the extracting method returns: the failure as its exception, or normal completion. */
    function Outcome(): Result<()> {
      if error.Some? then Err(error.value) else Ok(())
    }
  }

  function MissingLibrary(line: string): Error {
    IO("Couldn't find native library " + line + "on the classpath")
  }

  /**
   * extractLibrariesFromResource's effect, line by line: each line's library
   * is looked up in the resource directories and written to the line's name
   * inside jniDir; the first line that is missing or cannot be written stops
   * the run.
   */
  function ExtractLines(m: map<Path, Entry>, jniDir: Path, loader: Loader, paths: seq<string>,
                        lines: seq<string>, now: int): Run
    decreases |lines|
  {
    if lines == [] then Run(None, m)
    else
      match FindLibrary(loader, paths, lines[0])
      case None => Run(Some(MissingLibrary(lines[0])), m)
      case Some(bytes) =>
        var out := OutputFile(jniDir, lines[0]);
        if !Writable(m, out) then Run(Some(IO(PathString(out))), m)
        else ExtractLines(m[out := File(bytes, now)], jniDir, loader, paths, lines[1..], now)
  }

  /**
   * A run succeeds exactly when every line's library is found and every
   * line's file can be opened in the tree the run starts from; then every
   * one of those files is in the result, written at now (what each holds
   * is ExtractLinesContents).
   */
  lemma {:induction false} ExtractLinesSucceeds(m: map<Path, Entry>, jniDir: Path, loader: Loader, paths: seq<string>,
                                                lines: seq<string>, now: int)
    ensures var run := ExtractLines(m, jniDir, loader, paths, lines, now);
      (run.error.None? <==>
         forall k :: 0 <= k < |lines| ==>
           FindLibrary(loader, paths, lines[k]).Some? && Writable(m, OutputFile(jniDir, lines[k]))) &&
      (run.error.None? ==>
         forall k :: 0 <= k < |lines| ==>
           IsFileIn(run.entries, OutputFile(jniDir, lines[k])) &&
           run.entries[OutputFile(jniDir, lines[k])].lastModified == now)
    decreases |lines|
  {
    if lines != [] {
      var found := FindLibrary(loader, paths, lines[0]);
      var out := OutputFile(jniDir, lines[0]);
      if found.Some? && Writable(m, out) {
        var m1 := m[out := File(found.value, now)];
        ExtractLinesSucceeds(m1, jniDir, loader, paths, lines[1..], now);
        forall p {
          WritableAfterWrite(m, out, found.value, now, p);
        }
        ExtractLinesKeeps(m1, jniDir, loader, paths, lines[1..], now);
        assert forall k :: 1 <= k < |lines| ==> lines[k] == lines[1..][k - 1];
      }
    }
  }

  /** No line after the k-th writes the k-th line's file. */
  predicate LastWriter(jniDir: Path, lines: seq<string>, k: nat)
    requires k < |lines|
  {
    forall j :: k < j < |lines| ==> OutputFile(jniDir, lines[j]) != OutputFile(jniDir, lines[k])
  }

  /** A successful run leaves in each line's file that line's library, unless a later line writes the same file. */
  lemma {:induction false} ExtractLinesContents(m: map<Path, Entry>, jniDir: Path, loader: Loader, paths: seq<string>,
                                                lines: seq<string>, now: int)
    ensures var run := ExtractLines(m, jniDir, loader, paths, lines, now);
      run.error.None? ==>
        forall k :: 0 <= k < |lines| && LastWriter(jniDir, lines, k) ==>
          FindLibrary(loader, paths, lines[k]).Some? && OutputFile(jniDir, lines[k]) in run.entries &&
          run.entries[OutputFile(jniDir, lines[k])] == File(FindLibrary(loader, paths, lines[k]).value, now)
    decreases |lines|
  {
    if lines != [] {
      var found := FindLibrary(loader, paths, lines[0]);
      var out := OutputFile(jniDir, lines[0]);
      if found.Some? && Writable(m, out) {
        var m1 := m[out := File(found.value, now)];
        var rest := lines[1..];
        var run := ExtractLines(m1, jniDir, loader, paths, rest, now);
        ExtractLinesContents(m1, jniDir, loader, paths, rest, now);
        forall k | 0 <= k < |lines| && LastWriter(jniDir, lines, k)
          ensures run.error.None? ==>
            FindLibrary(loader, paths, lines[k]).Some? && OutputFile(jniDir, lines[k]) in run.entries &&
            run.entries[OutputFile(jniDir, lines[k])] == File(FindLibrary(loader, paths, lines[k]).value, now)
        {
          if k == 0 {
            forall j | 0 <= j < |rest|
              ensures OutputFile(jniDir, rest[j]) != out
            {
              assert rest[j] == lines[j + 1];
            }
            ExtractLinesUntouched(m1, jniDir, loader, paths, rest, now, out);
          } else {
            assert rest[k - 1] == lines[k];
            forall j | k - 1 < j < |rest|
              ensures OutputFile(jniDir, rest[j]) != OutputFile(jniDir, rest[k - 1])
            {
              assert rest[j] == lines[j + 1];
            }
            assert LastWriter(jniDir, rest, k - 1);
          }
        }
      }
    }
  }

  /** A run leaves alone an entry that no line writes. */
  lemma {:induction false} ExtractLinesUntouched(m: map<Path, Entry>, jniDir: Path, loader: Loader, paths: seq<string>,
                                                 lines: seq<string>, now: int, q: Path)
    requires q in m && forall j :: 0 <= j < |lines| ==> OutputFile(jniDir, lines[j]) != q
    ensures var run := ExtractLines(m, jniDir, loader, paths, lines, now);
      q in run.entries && run.entries[q] == m[q]
    decreases |lines|
  {
    if lines != [] {
      var found := FindLibrary(loader, paths, lines[0]);
      var out := OutputFile(jniDir, lines[0]);
      if found.Some? && Writable(m, out) {
        forall j | 0 <= j < |lines[1..]|
          ensures OutputFile(jniDir, lines[1..][j]) != q
        {
          assert lines[1..][j] == lines[j + 1];
        }
        ExtractLinesUntouched(m[out := File(found.value, now)], jniDir, loader, paths, lines[1..], now, q);
      }
    }
  }

  /** A run keeps every entry and changes, or adds, only files written at now. */
  lemma {:induction false} ExtractLinesKeeps(m: map<Path, Entry>, jniDir: Path, loader: Loader, paths: seq<string>,
                                             lines: seq<string>, now: int)
    ensures var run := ExtractLines(m, jniDir, loader, paths, lines, now);
      (forall q :: q in m ==> q in run.entries) &&
      (forall q :: q in run.entries && (q !in m || run.entries[q] != m[q]) ==>
         run.entries[q].File? && run.entries[q].lastModified == now) &&
      (forall q :: IsFileIn(m, q) && m[q].lastModified == now ==> IsFileIn(run.entries, q) && run.entries[q].lastModified == now)
    decreases |lines|
  {
    if lines != [] {
      var found := FindLibrary(loader, paths, lines[0]);
      var out := OutputFile(jniDir, lines[0]);
      if found.Some? && Writable(m, out) {
        ExtractLinesKeeps(m[out := File(found.value, now)], jniDir, loader, paths, lines[1..], now);
      }
    }
  }

  /** A run keeps the file tree a tree. */
  lemma {:induction false} ExtractLinesTree(m: map<Path, Entry>, jniDir: Path, loader: Loader, paths: seq<string>,
                                            lines: seq<string>, now: int)
    requires Tree(m)
    ensures Tree(ExtractLines(m, jniDir, loader, paths, lines, now).entries)
    decreases |lines|
  {
    if lines != [] {
      var found := FindLibrary(loader, paths, lines[0]);
      var out := OutputFile(jniDir, lines[0]);
      if found.Some? && Writable(m, out) {
        TreeAfterWrite(m, out, found.value, now);
        ExtractLinesTree(m[out := File(found.value, now)], jniDir, loader, paths, lines[1..], now);
      }
    }
  }

  /**
   * When every line before k succeeds and line k's library is nowhere to be
   * found, the run fails with the message naming line k.
   */
  lemma {:induction false} ExtractLinesMissing(m: map<Path, Entry>, jniDir: Path, loader: Loader, paths: seq<string>,
                                               lines: seq<string>, now: int, k: nat)
    requires k < |lines| && FindLibrary(loader, paths, lines[k]).None?
    requires forall j :: 0 <= j < k ==>
      FindLibrary(loader, paths, lines[j]).Some? && Writable(m, OutputFile(jniDir, lines[j]))
    ensures ExtractLines(m, jniDir, loader, paths, lines, now).error == Some(MissingLibrary(lines[k]))
    decreases k
  {
    if k > 0 {
      var found := FindLibrary(loader, paths, lines[0]);
      var out := OutputFile(jniDir, lines[0]);
      var m1 := m[out := File(found.value, now)];
      forall p {
        WritableAfterWrite(m, out, found.value, now, p);
      }
      ExtractLinesMissing(m1, jniDir, loader, paths, lines[1..], now, k - 1);
    }
  }

  /** The rest of a run after its first line. */
  lemma ExtractLinesStep(m: map<Path, Entry>, jniDir: Path, loader: Loader, paths: seq<string>,
                         lines: seq<string>, i: nat, now: int)
    requires i < |lines|
    ensures var found := FindLibrary(loader, paths, lines[i]);
      var out := OutputFile(jniDir, lines[i]);
      ExtractLines(m, jniDir, loader, paths, lines[i..], now) ==
        if found.None? then Run(Some(MissingLibrary(lines[i])), m)
        else if !Writable(m, out) then Run(Some(IO(PathString(out))), m)
        else ExtractLines(m[out := File(found.value, now)], jniDir, loader, paths, lines[i + 1..], now)
  {
    assert lines[i..][0] == lines[i] && lines[i..][1..] == lines[i + 1..];
  }

  /** The manifests registered under each resource directory, in order. */
  function Manifests(loader: Loader, paths: seq<string>): seq<seq<byte>>
  {
    if paths == [] then [] else GetResources(loader, paths[0] + AUTOEXTRACT_LIST) + Manifests(loader, paths[1..])
  }

  /** The manifests from the p-th resource directory on. */
  lemma ManifestsFrom(loader: Loader, paths: seq<string>, p: nat)
    requires p < |paths|
    ensures Manifests(loader, paths[p..]) ==
            GetResources(loader, paths[p] + AUTOEXTRACT_LIST) + Manifests(loader, paths[p + 1..])
  {
    assert paths[p..][0] == paths[p] && paths[p..][1..] == paths[p + 1..];
  }

  /** The manifests from the k-th on: the k-th one's lines, then (unless they failed) the rest. */
  lemma ExtractManifestsStep(m: map<Path, Entry>, jniDir: Path, loader: Loader, paths: seq<string>,
                             manifests: seq<seq<byte>>, k: nat, now: int)
    requires k < |manifests|
    ensures var run := ExtractLines(m, jniDir, loader, paths, ReadLines(Decode(manifests[k])), now);
      ExtractManifests(m, jniDir, loader, paths, manifests[k..], now) ==
        if run.error.Some? then run else ExtractManifests(run.entries, jniDir, loader, paths, manifests[k + 1..], now)
  {
    assert manifests[k..][0] == manifests[k] && manifests[k..][1..] == manifests[k + 1..];
  }

  /** extractRegistered's effect: each manifest's libraries in turn, stopping at the first failure. */
  function ExtractManifests(m: map<Path, Entry>, jniDir: Path, loader: Loader, paths: seq<string>,
                            manifests: seq<seq<byte>>, now: int): Run
    decreases |manifests|
  {
    if manifests == [] then Run(None, m)
    else
      var run := ExtractLines(m, jniDir, loader, paths, ReadLines(Decode(manifests[0])), now);
      if run.error.Some? then run
      else ExtractManifests(run.entries, jniDir, loader, paths, manifests[1..], now)
  }

  /** Extracting two lists of manifests is extracting the first, then (unless it failed) the second. */
  lemma {:induction false} ExtractManifestsAppend(m: map<Path, Entry>, jniDir: Path, loader: Loader, paths: seq<string>,
                                                  first: seq<seq<byte>>, second: seq<seq<byte>>, now: int)
    ensures var run := ExtractManifests(m, jniDir, loader, paths, first, now);
      ExtractManifests(m, jniDir, loader, paths, first + second, now) ==
        if run.error.Some? then run else ExtractManifests(run.entries, jniDir, loader, paths, second, now)
    decreases |first|
  {
    if first == [] {
      assert first + second == second;
    } else {
      assert (first + second)[0] == first[0] && (first + second)[1..] == first[1..] + second;
      var run := ExtractLines(m, jniDir, loader, paths, ReadLines(Decode(first[0])), now);
      if run.error.None? {
        ExtractManifestsAppend(run.entries, jniDir, loader, paths, first[1..], second, now);
      }
    }
  }

  // ---------------------------------------------------------------------
  // Construction

  /**
   * The constructor's shared start (init): the resource directories from
   * mx.sysinfo, then the sweep of leftovers in the temporary directory. A
   * failure of getMxSysInfo escapes before anything is swept.
   */
  method Init(fs: FileSystem, props: Properties, host: MxSysInfo.Host, cwd: Path, now: int) returns (r: Result<seq<string>>)
    requires fs.Valid()
    modifies fs
    ensures fs.Valid()
    ensures MxSysInfo.GetMxSysInfo(props, host).Err? ==>
              r == Err(MxSysInfo.GetMxSysInfo(props, host).error) && fs.entries == old(fs.entries)
    ensures MxSysInfo.GetMxSysInfo(props, host).Ok? ==>
              r == Ok(NativeResourcePaths(Some(MxSysInfo.GetMxSysInfo(props, host).value))) &&
              SweptIn(old(fs.entries), fs.entries, fs.locked, props, cwd, now)
  {
    var mxSysInfo := MxSysInfo.GetMxSysInfo(props, host);
    if mxSysInfo.Err? {
      return Err(mxSysInfo.error);
    }
    var paths := NativeResourcePaths(Some(mxSysInfo.value));
    DeleteLeftoverFiles(fs, props, cwd, now);
    r := Ok(paths);
  }

  /**
   * getTempDir: a fresh directory, named with the extractor's prefix, inside
   * the temporary directory, which is created first when it is missing. It
   * fails exactly when the temporary directory cannot be made: its name is
   * the empty pathname, or a file is in the way. made is the disk after
   * mkdirs; the fresh directory is the only entry added to it.
   */
  method GetTempDir(fs: FileSystem, props: Properties, cwd: Path, now: int) returns (r: Result<Path>, ghost made: map<Path, Entry>)
    requires fs.Valid()
    modifies fs
    ensures fs.Valid()
    ensures MadeDirsNamed(old(fs.entries), made, cwd, TmpName(props), now)
    ensures r.Ok? <==> TmpName(props) != "" && NoFileOn(old(fs.entries), TmpDir(props, cwd))
    ensures r.Ok? ==> r.value != [] && Parent(r.value) == TmpDir(props, cwd) && StartsWith(Name(r.value), TMP_PREFIX) &&
                      r.value !in old(fs.entries) && r.value !in made && fs.entries == made[r.value := Directory(now)] &&
                      IsDirectoryIn(fs.entries, r.value) && (forall q :: q in fs.entries ==> !Below(r.value, q))
    ensures r.Err? ==> fs.entries == made && r.error == IO("Unable to create temporary directory " + Normalize(TmpName(props)))
  {
    var name := TmpName(props);
    made := fs.entries;
    if name == "" {
      // new File("") is no directory, and mkdirs makes nothing for it
      return Err(IO("Unable to create temporary directory " + Normalize(name))), made;
    }
    var tmpDir := FileOf(cwd, name);
    if !fs.IsDirectory(tmpDir) {
      fs.Mkdirs(tmpDir, now);
      made := fs.entries;
      if !fs.IsDirectory(tmpDir) {
        return Err(IO("Unable to create temporary directory " + Normalize(name))), made;
      }
    } else {
      DirectoryIffNoFileOn(fs.entries, tmpDir);
    }
    ghost var before := fs.entries;
    r := fs.CreateTempDirectory(tmpDir, TMP_PREFIX, now);
    InsideMeansDirectory(before, r.value);
  }

  // ---------------------------------------------------------------------
  // The extractor

  /**
   * An extractor: the class whose jar holds the libraries (null until the
   * first extractJni falls back to the extractor's own class), the
   * extractor's own class loader, the resource directories, and the two
   * directories of the concrete extractor: nativeDir for dependencies and
   * jniDir for JNI libraries.
   */
  class JniExtractor {
    const fs: FileSystem
    var libraryJarLoader: Option<Loader>
    const ownLoader: Loader
    const nativeResourcePaths: seq<string>
    const nativeDir: Path
    const jniDir: Path

    ghost predicate Valid()
      reads this, fs
    {
      fs.Valid()
    }

    constructor (fs: FileSystem, libraryJarLoader: Option<Loader>, ownLoader: Loader,
                 nativeResourcePaths: seq<string>, nativeDir: Path, jniDir: Path)
      ensures this.fs == fs && this.libraryJarLoader == libraryJarLoader && this.ownLoader == ownLoader
      ensures this.nativeResourcePaths == nativeResourcePaths
      ensures this.nativeDir == nativeDir && this.jniDir == jniDir
    {
      this.fs := fs;
      this.libraryJarLoader := libraryJarLoader;
      this.ownLoader := ownLoader;
      this.nativeResourcePaths := nativeResourcePaths;
      this.nativeDir := nativeDir;
      this.jniDir := jniDir;
    }

    /**
     * extractResource: copies the resource's bytes into a file named
     * outputName inside the JNI directory, whatever dir says. It fails,
     * leaving the tree as it was, when that file cannot be opened; otherwise
     * the file holds exactly the resource's bytes.
     */
    method ExtractResource(dir: Path, resource: seq<byte>, outputName: string, now: int) returns (r: Result<Path>)
      requires Valid()
      modifies fs
      ensures Valid()
      ensures var out := OutputFile(jniDir, outputName);
        (r.Ok? <==> Writable(old(fs.entries), out)) &&
        (r.Ok? ==> r.value == out && fs.entries == old(fs.entries)[out := File(resource, now)]) &&
        (r.Err? ==> r.error == IO(PathString(out)) && fs.entries == old(fs.entries))
    {
      var input := new InputStream(resource);
      var outfile := OutputFile(jniDir, outputName);
      var created := fs.WriteFile(outfile, [], now);
      if !created {
        return Err(IO(PathString(outfile)));
      }
      var output := new OutputSink();
      Copy(input, output);
      assert output.written == resource;
      var closed := fs.WriteFile(outfile, output.written, now);
      r := Ok(outfile);
    }

    /**
     * extractJni: finds the library (see ResolveJni), using the extractor's
     * own class loader as the library's when none was given, and extracts it
     * into the JNI directory; a library found nowhere is an IOException
     * naming the combined path.
     */
    method ExtractJni(libPath: string, mappedName: string, now: int) returns (r: Result<Path>)
      requires Valid()
      modifies this, fs
      ensures Valid()
      ensures libraryJarLoader == Some(old(libraryJarLoader).GetOr(ownLoader))
      ensures var found := ResolveJni(libraryJarLoader.value, ownLoader, libPath, mappedName);
        (found.None? ==>
           r == Err(IO("Couldn't find resource " + CombinedPath(libPath, mappedName))) && fs.entries == old(fs.entries)) &&
        (found.Some? ==>
           var out := OutputFile(jniDir, found.value.1);
           (r.Ok? <==> Writable(old(fs.entries), out)) &&
           (r.Ok? ==> r.value == out && fs.entries == old(fs.entries)[out := File(found.value.0, now)]) &&
           (r.Err? ==> r.error == IO(PathString(out)) && fs.entries == old(fs.entries)))
    {
      if libraryJarLoader.None? {
        libraryJarLoader := Some(ownLoader);
      }
      var combinedPath := CombinedPath(libPath, mappedName);
      var lib := GetResource(libraryJarLoader.value, combinedPath);
      var name := mappedName;
      if lib.None? {
        var altLibName := AltLibName(mappedName);
        if altLibName.Some? {
          lib := GetResource(ownLoader, libPath + altLibName.value);
          if lib.Some? {
            name := altLibName.value;
          }
        }
      }
      if lib.Some? {
        r := ExtractResource(jniDir, lib.value, name, now);
        return;
      }
      r := Err(IO("Couldn't find resource " + combinedPath));
    }

    /**
     * The loop of extractLibrariesFromResource over the resource directories
     * for one line: the first directory holding the library wins.
     */
    method FindLibraryOf(line: string) returns (lib: Option<seq<byte>>)
      ensures lib == FindLibrary(ownLoader, nativeResourcePaths, line)
    {
      lib := None;
      var i := 0;
      while i < |nativeResourcePaths|
        invariant 0 <= i <= |nativeResourcePaths| && lib.None?
        invariant forall j :: 0 <= j < i ==> GetResource(ownLoader, nativeResourcePaths[j] + line).None?
      {
        lib := GetResource(ownLoader, nativeResourcePaths[i] + line);
        if lib.Some? {
          FindLibraryFirst(ownLoader, nativeResourcePaths, line, i);
          return;
        }
        i := i + 1;
      }
    }

    /**
     * extractLibrariesFromResource: every line of the manifest names a
     * library, which is extracted under that name; the first line whose
     * library is missing, or whose file cannot be opened, ends the run with
     * an IOException. The effect is that of ExtractLines.
     */
    method ExtractLibrariesFromResource(manifest: seq<byte>, now: int) returns (r: Result<()>)
      requires Valid()
      modifies fs
      ensures Valid()
      ensures var run := ExtractLines(old(fs.entries), jniDir, ownLoader, nativeResourcePaths,
                                      ReadLines(Decode(manifest)), now);
        fs.entries == run.entries && r == run.Outcome()
    {
      var lines := ReadLines(Decode(manifest));
      assert lines[0..] == lines;
      var i := 0;
      while i < |lines|
        invariant Valid() && 0 <= i <= |lines|
        invariant ExtractLines(old(fs.entries), jniDir, ownLoader, nativeResourcePaths, lines, now) ==
                  ExtractLines(fs.entries, jniDir, ownLoader, nativeResourcePaths, lines[i..], now)
      {
        var line := lines[i];
        ExtractLinesStep(fs.entries, jniDir, ownLoader, nativeResourcePaths, lines, i, now);
        var lib := FindLibraryOf(line);
        if lib.None? {
          return Err(MissingLibrary(line));
        }
        var extracted := ExtractResource(nativeDir, lib.value, line, now);
        if extracted.Err? {
          return Err(extracted.error);
        }
        i := i + 1;
      }
      r := Ok(());
    }

    /** The libraries of each manifest in turn, stopping at the first failure. */
    method ExtractEach(manifests: seq<seq<byte>>, now: int) returns (r: Result<()>)
      requires Valid()
      modifies fs
      ensures Valid()
      ensures var run := ExtractManifests(old(fs.entries), jniDir, ownLoader, nativeResourcePaths, manifests, now);
        fs.entries == run.entries && r == run.Outcome()
    {
      assert manifests[0..] == manifests;
      var k := 0;
      while k < |manifests|
        invariant Valid() && 0 <= k <= |manifests|
        invariant ExtractManifests(old(fs.entries), jniDir, ownLoader, nativeResourcePaths, manifests, now) ==
                  ExtractManifests(fs.entries, jniDir, ownLoader, nativeResourcePaths, manifests[k..], now)
      {
        ExtractManifestsStep(fs.entries, jniDir, ownLoader, nativeResourcePaths, manifests, k, now);
        var extracted := ExtractLibrariesFromResource(manifests[k], now);
        if extracted.Err? {
          return Err(extracted.error);
        }
        k := k + 1;
      }
      r := Ok(());
    }

    /**
     * extractRegistered: the libraries of every AUTOEXTRACT.LIST manifest
     * the own class loader finds under each resource directory, in order,
     * stopping at the first failure. The effect is that of ExtractManifests.
     */
    method ExtractRegistered(now: int) returns (r: Result<()>)
      requires Valid()
      modifies fs
      ensures Valid()
      ensures var run := ExtractManifests(old(fs.entries), jniDir, ownLoader, nativeResourcePaths,
                                          Manifests(ownLoader, nativeResourcePaths), now);
        fs.entries == run.entries && r == run.Outcome()
    {
      ghost var all := Manifests(ownLoader, nativeResourcePaths);
      assert nativeResourcePaths[0..] == nativeResourcePaths;
      var p := 0;
      while p < |nativeResourcePaths|
        invariant Valid() && 0 <= p <= |nativeResourcePaths|
        invariant ExtractManifests(old(fs.entries), jniDir, ownLoader, nativeResourcePaths, all, now) ==
                  ExtractManifests(fs.entries, jniDir, ownLoader, nativeResourcePaths,
                                   Manifests(ownLoader, nativeResourcePaths[p..]), now)
      {
        var resources := GetResources(ownLoader, nativeResourcePaths[p] + AUTOEXTRACT_LIST);
        ManifestsFrom(ownLoader, nativeResourcePaths, p);
        ExtractManifestsAppend(fs.entries, jniDir, ownLoader, nativeResourcePaths,
                               resources, Manifests(ownLoader, nativeResourcePaths[p + 1..]), now);
        var extracted := ExtractEach(resources, now);
        if extracted.Err? {
          return Err(extracted.error);
        }
        p := p + 1;
      }
      r := Ok(());
    }
  }
}
