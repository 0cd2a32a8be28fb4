/**
 * The legacy platform classifier and the library naming rules built on it.
 * The classifier's result is cached in a static field; the class
 * NativeLibraryUtil below holds that field.
 */
module NativeLibraryUtil {
  import opened JavaLang
  import opened NativeOsArchUtil
  import opened DefaultOsInfo
  import FileSystem
  import MxSysInfo
  import BaseJniExtractor
  import DefaultJniExtractor

  datatype Architecture =
    | UNKNOWN | LINUX_32 | LINUX_64 | LINUX_ARM | WINDOWS_32 | WINDOWS_64 | OSX_32 | OSX_64 | OSX_PPC

  datatype Processor = P_UNKNOWN | INTEL_32 | INTEL_64 | PPC | ARM

  /** The java.lang.Package of the library jar's class, as far as the naming rules read it. */
  datatype Package = Package(implementationVersion: Option<string>)

  const DELIM: string := "/"
  const JAVA_TMPDIR: string := "java.io.tmpdir"

  /** Enum.name() of an architecture. */
  function Name(a: Architecture): string
  {
    match a
    case UNKNOWN => "UNKNOWN" case LINUX_32 => "LINUX_32" case LINUX_64 => "LINUX_64"
    case LINUX_ARM => "LINUX_ARM" case WINDOWS_32 => "WINDOWS_32" case WINDOWS_64 => "WINDOWS_64"
    case OSX_32 => "OSX_32" case OSX_64 => "OSX_64" case OSX_PPC => "OSX_PPC"
  }

  // -----------------------------------------------------------------------
  // Processor

  /**
   * getProcessor on the value of os.arch: lower-cased, then "arm", then "ppc",
   * then "86" or "amd" (64-bit when it also contains "64"); anything else is
   * unknown.
   */
  function ProcessorOf(osArch: string): Processor
  {
    var arch := ToLower(osArch);
    if Contains(arch, "arm") then ARM
    else if Contains(arch, "ppc") then PPC
    else if Contains(arch, "86") || Contains(arch, "amd") then
      var bits := if Contains(arch, "64") then 64 else 32;
      if bits == 32 then INTEL_32 else INTEL_64
    else P_UNKNOWN
  }

  /** getProcessor: a missing os.arch is a NullPointerException. */
  function GetProcessor(props: Properties): (r: Result<Processor>)
    ensures r.Err? <==> "os.arch" !in props
    ensures r.Err? ==> r.error == NullPointer
    ensures r.Ok? ==> r.value == ProcessorOf(props["os.arch"])
  {
    match GetProperty(props, "os.arch")
    case None => Err(NullPointer)
    case Some(arch) => Ok(ProcessorOf(arch))
  }

  /** The processor does not depend on the case of os.arch. */
  lemma {:induction false} ProcessorIgnoresCase(osArch: string)
    ensures ProcessorOf(ToLower(osArch)) == ProcessorOf(osArch)
  {
    ToLowerIdempotent(osArch);
  }

  /** Lower-casing neither creates nor removes an occurrence of a string of digits. */
  lemma {:induction false} ContainsDigitsIgnoresCase(s: string, t: string)
    requires forall k :: 0 <= k < |t| ==> IsDigit(t[k])
    ensures Contains(ToLower(s), t) <==> Contains(s, t)
  {
    ContainsAt(ToLower(s), t);
    ContainsAt(s, t);
    forall i | 0 <= i <= |s| - |t|
      ensures OccursAt(ToLower(s), t, i) <==> OccursAt(s, t, i)
    {
      OccursLowerAt(s, t, i);
    }
  }

  /** At one index: lower-casing keeps the digits of t and turns nothing else into one. */
  lemma OccursLowerAt(s: string, t: string, i: nat)
    requires forall k :: 0 <= k < |t| ==> IsDigit(t[k])
    requires i <= |s| - |t|
    ensures OccursAt(ToLower(s), t, i) <==> OccursAt(s, t, i)
  {
    var lower := ToLower(s)[i..i + |t|];
    var orig := s[i..i + |t|];
    assert forall k :: 0 <= k < |t| ==> lower[k] == LowerChar(orig[k]);
    if lower == t {
      assert forall k :: 0 <= k < |t| ==> orig[k] == t[k];
    }
    if orig == t {
      assert forall k :: 0 <= k < |t| ==> lower[k] == t[k];
    }
  }

  /** An Intel processor has the bitness that guessBitnessFromArchitecture assigns to the same os.arch. */
  lemma IntelBitnessAgrees(osArch: string)
    requires ProcessorOf(osArch) in {INTEL_32, INTEL_64}
    ensures GuessBitnessFromArchitecture(osArch) == (if ProcessorOf(osArch) == INTEL_64 then 64 else 32)
  {
    ContainsDigitsIgnoresCase(osArch, "64");
  }

  /** Some aliases that normalizeArchitecture knows as x86_64 are no Intel processor here. */
  lemma LegacyProcessorMissesAliases()
    ensures NormalizeArchitecture("x64") == ARCH_X86_64 && ProcessorOf("x64") == P_UNKNOWN
  {
    NormalizeAlias(1, "x64");
    assert ToLower("x64") == "x64";
    NotContains("x64", "arm");
    NotContains("x64", "ppc");
    NotContains("x64", "86");
    NotContains("x64", "amd");
  }

  /** A string whose first character does not occur in s is not contained in s. */
  lemma NotContains(s: string, t: string)
    requires |t| > 0 && t[0] !in s
    ensures !Contains(s, t)
  {
    ContainsAt(s, t);
    forall i | 0 <= i <= |s| - |t|
      ensures !OccursAt(s, t, i)
    {
      assert s[i..i + |t|][0] == s[i];
    }
  }

  // -----------------------------------------------------------------------
  // Architecture

  /** The decision of getArchitecture for a lower-cased os.name and a known processor. */
  function Classify(name: string, processor: Processor): Architecture
  {
    if Contains(name, "nix") || Contains(name, "nux") then
      if processor == INTEL_32 then LINUX_32
      else if processor == INTEL_64 then LINUX_64
      else if processor == ARM then LINUX_ARM
      else UNKNOWN
    else if Contains(name, "win") then
      if processor == INTEL_32 then WINDOWS_32
      else if processor == INTEL_64 then WINDOWS_64
      else UNKNOWN
    else if Contains(name, "mac") then
      if processor == INTEL_32 then OSX_32
      else if processor == INTEL_64 then OSX_64
      else if processor == PPC then OSX_PPC
      else UNKNOWN
    else UNKNOWN
  }

  /** The architecture that getArchitecture determines from os.name and os.arch. */
  function ArchitectureFor(osName: string, osArch: string): Architecture
  {
    var processor := ProcessorOf(osArch);
    if processor == P_UNKNOWN then UNKNOWN else Classify(ToLower(osName), processor)
  }

  /**
   * getArchitecture is known for exactly eight combinations: Linux with an
   * Intel or ARM processor, Windows with an Intel processor, and Mac with an
   * Intel or PowerPC processor.
   */
  lemma KnownArchitectures(osName: string, osArch: string)
    ensures var n, p := ToLower(osName), ProcessorOf(osArch);
      var linux := Contains(n, "nix") || Contains(n, "nux");
      var windows := !linux && Contains(n, "win");
      var mac := !linux && !windows && Contains(n, "mac");
      ArchitectureFor(osName, osArch) != UNKNOWN <==>
        (linux && p in {INTEL_32, INTEL_64, ARM}) ||
        (windows && p in {INTEL_32, INTEL_64}) ||
        (mac && p in {INTEL_32, INTEL_64, PPC})
  {
  }

  /** The classification does not depend on the case of os.name or os.arch. */
  lemma ArchitectureIgnoresCase(osName: string, osArch: string)
    ensures ArchitectureFor(ToLower(osName), ToLower(osArch)) == ArchitectureFor(osName, osArch)
  {
    ToLowerIdempotent(osName);
    ProcessorIgnoresCase(osArch);
  }

  /**
   * The legacy classifier and determineOsFamily agree on the family when the
   * name mentions neither Solaris nor SunOS, which determineOsFamily tests first.
   */
  lemma ArchitectureAgreesWithFamily(osName: string, osArch: string)
    requires var n := ToLower(osName); !Contains(n, "solaris") && !Contains(n, "sunos")
    ensures ArchitectureFor(osName, osArch) in {LINUX_32, LINUX_64, LINUX_ARM} ==>
      DetermineOsFamily(Some(osName)) == Ok(OS_FAMILY_LINUX)
    ensures ArchitectureFor(osName, osArch) in {WINDOWS_32, WINDOWS_64} ==>
      DetermineOsFamily(Some(osName)) == Ok(OS_FAMILY_WINDOWS)
    ensures ArchitectureFor(osName, osArch) in {OSX_32, OSX_64, OSX_PPC} ==>
      DetermineOsFamily(Some(osName)) == Ok(OS_FAMILY_OSX)
  {
  }

  /** The static state of the class: the cached architecture. */
  class NativeLibraryUtil {
    var architecture: Architecture

    /** Class initialisation: nothing is cached yet. */
    constructor ()
      ensures architecture == UNKNOWN
    {
      architecture := UNKNOWN;
    }

    /**
     * getArchitecture: classifies only while the cache holds UNKNOWN, so a known
     * architecture, once found, is returned unchanged by every later call. The
     * closing log statement reads os.name again, so a missing os.name always
     * throws.
     */
    method GetArchitecture(props: Properties) returns (r: Result<Architecture>)
      modifies this
      ensures old(architecture) != UNKNOWN ==> architecture == old(architecture)
      ensures old(architecture) == UNKNOWN ==>
        architecture == (if "os.name" in props && "os.arch" in props
                         then ArchitectureFor(props["os.name"], props["os.arch"]) else UNKNOWN)
      ensures r.Ok? <==> "os.name" in props && (old(architecture) != UNKNOWN || "os.arch" in props)
      ensures r.Ok? ==> r.value == architecture
      ensures r.Err? ==> r.error == NullPointer
    {
      if architecture == UNKNOWN {
        var processor := GetProcessor(props);
        if processor.Err? {
          return Err(processor.error);
        }
        if processor.value != P_UNKNOWN {
          var osName := GetProperty(props, "os.name");
          if osName.None? {
            return Err(NullPointer);
          }
          var name := ToLower(osName.value);
          architecture := Classify(name, processor.value);
        }
      }
      if "os.name" !in props {
        return Err(NullPointer);
      }
      return Ok(architecture);
    }

    /** getPlatformLibraryPath: the resource directory of the current architecture. */
    method GetPlatformLibraryPath(props: Properties) returns (r: Result<string>)
      modifies this
      ensures old(architecture) != UNKNOWN ==> architecture == old(architecture)
      ensures old(architecture) == UNKNOWN ==>
        architecture == (if "os.name" in props && "os.arch" in props
                         then ArchitectureFor(props["os.name"], props["os.arch"]) else UNKNOWN)
      ensures r.Ok? <==> "os.name" in props && (old(architecture) != UNKNOWN || "os.arch" in props)
      ensures r.Ok? ==> r.value == LibraryPathFor(architecture)
    {
      var arch := GetArchitecture(props);
      if arch.Err? {
        return Err(arch.error);
      }
      var path := "META-INF" + DELIM + "lib" + DELIM;
      path := path + ToLower(Name(arch.value)) + DELIM;
      return Ok(path);
    }

    /** getPlatformLibraryName: the file name of a library on the current architecture. */
    method GetPlatformLibraryName(props: Properties, libName: string) returns (r: Result<Option<string>>)
      modifies this
      ensures old(architecture) != UNKNOWN ==> architecture == old(architecture)
      ensures old(architecture) == UNKNOWN ==>
        architecture == (if "os.name" in props && "os.arch" in props
                         then ArchitectureFor(props["os.name"], props["os.arch"]) else UNKNOWN)
      ensures r.Ok? <==> "os.name" in props && (old(architecture) != UNKNOWN || "os.arch" in props)
      ensures r.Ok? ==> r.value == PlatformLibraryName(architecture, libName)
    {
      var arch := GetArchitecture(props);
      if arch.Err? {
        return Err(arch.error);
      }
      return Ok(PlatformLibraryName(arch.value, libName));
    }

    /**
     * loadNativeLibrary: nothing is extracted for an UNKNOWN architecture.
     * Otherwise a DefaultJniExtractor working in java.io.tmpdir extracts
     * System.mapLibraryName(libName) from the platform directory, and the
     * extracted file is loaded; an IOException, SecurityException or
     * UnsatisfiedLinkError on the way makes the result false, any other
     * exception escapes. extraction is the outcome of constructing the
     * extractor and extracting the library, when that was attempted;
     * loadError is what System.load throws.
     */
    method LoadNativeLibrary(fs: FileSystem.FileSystem, props: Properties, host: MxSysInfo.Host,
                             cwd: FileSystem.Path, now: int,
                             libraryJarLoader: Option<BaseJniExtractor.Loader>, ownLoader: BaseJniExtractor.Loader,
                             mapLibraryName: string -> string, libName: string, loadError: Option<Error>)
      returns (r: Result<bool>, ghost extraction: Result<FileSystem.Path>,
               ghost swept: map<FileSystem.Path, FileSystem.Entry>, ghost made: map<FileSystem.Path, FileSystem.Entry>)
      requires fs.Valid()
      modifies this, fs
      ensures fs.Valid()
      ensures old(architecture) != UNKNOWN ==> architecture == old(architecture)
      ensures old(architecture) == UNKNOWN ==>
        architecture == (if "os.name" in props && "os.arch" in props
                         then ArchitectureFor(props["os.name"], props["os.arch"]) else UNKNOWN)
      ensures var arch := ArchitectureOutcome(props, old(architecture), architecture);
        && r == LoadOutcome(arch, extraction, loadError)
        && (arch.Err? || arch == Ok(UNKNOWN) ==> fs.entries == old(fs.entries))
        && (arch.Ok? && arch.value != UNKNOWN ==>
              Extracted(old(fs.entries), swept, made, fs.entries, fs.locked, props, host, cwd, now,
                        libraryJarLoader, ownLoader, LibraryPathFor(architecture), mapLibraryName(libName), extraction))
    {
      extraction := Err(IllegalState("nothing extracted"));
      var arch := GetArchitecture(props);
      swept, made := fs.entries, fs.entries;
      if arch.Err? {
        return Err(arch.error), extraction, swept, made;
      }
      if arch.value == UNKNOWN {
        // No native library available for this platform.
        return Ok(false), extraction, swept, made;
      }
      // getPlatformLibraryPath, which the source calls once the extractor
      // exists, cannot fail now and changes neither the cache nor the disk.
      var libPath := GetPlatformLibraryPath(props);
      var outcome;
      outcome, swept, made := ExtractWithDefault(fs, props, host, cwd, now, libraryJarLoader, ownLoader,
                                                 libPath.value, mapLibraryName(libName));
      extraction := outcome;
      match outcome
      case Err(e) =>
        if !Caught(e) {
          return Err(e), extraction, swept, made;
        }
        r := Ok(false);
      case Ok(_) =>
        match loadError
        case Some(e) =>
          if !Caught(e) {
            return Err(e), extraction, swept, made;
          }
          r := Ok(false);
        case None =>
          r := Ok(true);
    }

    /**
     * loadVersionedNativeLibrary: loadNativeLibrary of the name with the
     * library jar's implementation version (see GetVersionedLibraryName).
     * The NullPointerException of a class without a package is thrown
     * before the architecture is looked up or anything is extracted.
     */
    method LoadVersionedNativeLibrary(fs: FileSystem.FileSystem, props: Properties, host: MxSysInfo.Host,
                                      cwd: FileSystem.Path, now: int,
                                      libraryJarLoader: Option<BaseJniExtractor.Loader>, ownLoader: BaseJniExtractor.Loader,
                                      libraryJarPackage: Option<Package>, mapLibraryName: string -> string, libName: string,
                                      loadError: Option<Error>)
      returns (r: Result<bool>, ghost extraction: Result<FileSystem.Path>,
               ghost swept: map<FileSystem.Path, FileSystem.Entry>, ghost made: map<FileSystem.Path, FileSystem.Entry>)
      requires fs.Valid()
      modifies this, fs
      ensures fs.Valid()
      ensures old(architecture) != UNKNOWN ==> architecture == old(architecture)
      ensures libraryJarPackage.Some? && old(architecture) == UNKNOWN ==>
        architecture == (if "os.name" in props && "os.arch" in props
                         then ArchitectureFor(props["os.name"], props["os.arch"]) else UNKNOWN)
      ensures libraryJarPackage.None? ==>
        r == Err(NullPointer) && architecture == old(architecture) && fs.entries == old(fs.entries)
      ensures libraryJarPackage.Some? ==>
        var versioned := GetVersionedLibraryName(libraryJarPackage, libName).value;
        var arch := ArchitectureOutcome(props, old(architecture), architecture);
        && r == LoadOutcome(arch, extraction, loadError)
        && (arch.Err? || arch == Ok(UNKNOWN) ==> fs.entries == old(fs.entries))
        && (arch.Ok? && arch.value != UNKNOWN ==>
              Extracted(old(fs.entries), swept, made, fs.entries, fs.locked, props, host, cwd, now,
                        libraryJarLoader, ownLoader, LibraryPathFor(architecture),
                        mapLibraryName(versioned), extraction))
    {
      var versioned := GetVersionedLibraryName(libraryJarPackage, libName);
      if versioned.Err? {
        return Err(versioned.error), Err(versioned.error), fs.entries, fs.entries;
      }
      r, extraction, swept, made := LoadNativeLibrary(fs, props, host, cwd, now, libraryJarLoader, ownLoader, mapLibraryName,
                                         versioned.value, loadError);
    }
  }

  /**
   * The try block of loadNativeLibrary up to System.load: a DefaultJniExtractor
   * working in java.io.tmpdir, then extractJni of the mapped library name
   * from libPath. swept is the tree after the extractor's sweep of leftovers,
   * made the tree after mkdirs on its working directory (see Extracted).
   */
  method ExtractWithDefault(fs: FileSystem.FileSystem, props: Properties, host: MxSysInfo.Host,
                            cwd: FileSystem.Path, now: int,
                            libraryJarLoader: Option<BaseJniExtractor.Loader>, ownLoader: BaseJniExtractor.Loader,
                            libPath: string, mapped: string)
    returns (r: Result<FileSystem.Path>, ghost swept: map<FileSystem.Path, FileSystem.Entry>,
             ghost made: map<FileSystem.Path, FileSystem.Entry>)
    requires fs.Valid()
    modifies fs
    ensures fs.Valid()
    ensures Extracted(old(fs.entries), swept, made, fs.entries, fs.locked, props, host, cwd, now,
                      libraryJarLoader, ownLoader, libPath, mapped, r)
  {
    var tmpDirectory := GetProperty(props, JAVA_TMPDIR);
    var extractor;
    extractor, swept := DefaultJniExtractor.New(fs, props, host, cwd, now, libraryJarLoader, ownLoader, tmpDirectory);
    made := fs.entries;
    if extractor.Err? {
      return Err(extractor.error), swept, made;
    }
    r := extractor.value.ExtractJni(libPath, mapped, now);
  }

  /**
   * The effect of ExtractWithDefault on the tree m0 it starts from, ending in
   * m1 with the outcome r. A failing getMxSysInfo escapes with nothing
   * changed. Otherwise the leftovers are swept (giving swept); without
   * java.library.tmpdir and java.io.tmpdir, new File(null) throws a
   * NullPointerException; then mkdirs on the working directory (giving
   * made), which is an IOException when its name is the empty pathname or
   * a file lies on its path; then the
   * library is looked up (ResolveJni) and written into the working
   * directory, an IOException when it is found nowhere or cannot be opened.
   */
  ghost predicate Extracted(m0: map<FileSystem.Path, FileSystem.Entry>, swept: map<FileSystem.Path, FileSystem.Entry>,
                            made: map<FileSystem.Path, FileSystem.Entry>, m1: map<FileSystem.Path, FileSystem.Entry>,
                            locked: set<FileSystem.Path>, props: Properties, host: MxSysInfo.Host,
                            cwd: FileSystem.Path, now: int,
                            libraryJarLoader: Option<BaseJniExtractor.Loader>, ownLoader: BaseJniExtractor.Loader,
                            libPath: string, mapped: string, r: Result<FileSystem.Path>)
  {
    var sysInfo := MxSysInfo.GetMxSysInfo(props, host);
    var dirName := DefaultJniExtractor.NativeDirName(props, GetProperty(props, JAVA_TMPDIR));
    if sysInfo.Err? then r == Err(sysInfo.error) && m1 == m0
    else
      BaseJniExtractor.SweptIn(m0, swept, locked, props, cwd, now) &&
      if dirName.None? then r == Err(NullPointer) && m1 == swept
      else
        var dir := FileSystem.FileOf(cwd, dirName.value);
        FileSystem.MadeDirsNamed(swept, made, cwd, dirName.value, now) &&
        if dirName.value == "" || !FileSystem.NoFileOn(swept, dir) then
          r == Err(IO("Unable to create native library working directory " + FileSystem.Normalize(dirName.value))) && m1 == made
        else
          match BaseJniExtractor.ResolveJni(libraryJarLoader.GetOr(ownLoader), ownLoader, libPath, mapped)
          case None => r == Err(IO("Couldn't find resource " + BaseJniExtractor.CombinedPath(libPath, mapped))) && m1 == made
          case Some((bytes, name)) =>
            var out := BaseJniExtractor.OutputFile(dir, name);
            if BaseJniExtractor.Writable(made, out) then r == Ok(out) && m1 == made[out := FileSystem.File(bytes, now)]
            else r == Err(IO(FileSystem.PathString(out))) && m1 == made
  }

  /**
   * The extraction succeeds exactly when getMxSysInfo does, a working
   * directory is named by a pathname other than the empty one, no file lies
   * on its path, the library is found and
   * its file can be opened; then that file holds the library's bytes. Of
   * its failures only getMxSysInfo's and the NullPointerException are not
   * IOExceptions.
   */
  lemma ExtractedSucceeds(m0: map<FileSystem.Path, FileSystem.Entry>, swept: map<FileSystem.Path, FileSystem.Entry>,
                          made: map<FileSystem.Path, FileSystem.Entry>, m1: map<FileSystem.Path, FileSystem.Entry>,
                          locked: set<FileSystem.Path>, props: Properties, host: MxSysInfo.Host,
                          cwd: FileSystem.Path, now: int,
                          libraryJarLoader: Option<BaseJniExtractor.Loader>, ownLoader: BaseJniExtractor.Loader,
                          libPath: string, mapped: string, r: Result<FileSystem.Path>)
    requires Extracted(m0, swept, made, m1, locked, props, host, cwd, now, libraryJarLoader, ownLoader, libPath, mapped, r)
    ensures var dirName := DefaultJniExtractor.NativeDirName(props, GetProperty(props, JAVA_TMPDIR));
      var found := BaseJniExtractor.ResolveJni(libraryJarLoader.GetOr(ownLoader), ownLoader, libPath, mapped);
      r.Ok? <==>
        && MxSysInfo.GetMxSysInfo(props, host).Ok? && dirName.Some? && dirName.value != ""
        && FileSystem.NoFileOn(swept, FileSystem.FileOf(cwd, dirName.value)) && found.Some?
        && BaseJniExtractor.Writable(made, BaseJniExtractor.OutputFile(FileSystem.FileOf(cwd, dirName.value), found.value.1))
    ensures r.Ok? ==>
      var found := BaseJniExtractor.ResolveJni(libraryJarLoader.GetOr(ownLoader), ownLoader, libPath, mapped);
      found.Some? && r.value in m1 && m1[r.value] == FileSystem.File(found.value.0, now)
    ensures r.Err? && MxSysInfo.GetMxSysInfo(props, host).Ok? ==>
      (r.error.IO? <==> DefaultJniExtractor.NativeDirName(props, GetProperty(props, JAVA_TMPDIR)).Some?)
  {
  }

  /** What getArchitecture answers, from the cache before and after the call. */
  function ArchitectureOutcome(props: Properties, cached: Architecture, architecture: Architecture): Result<Architecture>
  {
    if "os.name" in props && (cached != UNKNOWN || "os.arch" in props) then Ok(architecture) else Err(NullPointer)
  }

  // -----------------------------------------------------------------------
  // Naming rules

  /** The exceptions loadNativeLibrary catches. */
  predicate Caught(e: Error) {
    e.IO? || e.Security? || e.UnsatisfiedLink?
  }

  /**
   * The outcome of loadNativeLibrary, given the outcomes of getArchitecture,
   * of the extraction (attempted only for a known architecture) and of
   * System.load.
   */
  function LoadOutcome(arch: Result<Architecture>, extraction: Result<FileSystem.Path>, loadError: Option<Error>): Result<bool>
  {
    match arch
    case Err(e) => Err(e)
    case Ok(UNKNOWN) => Ok(false)
    case Ok(_) =>
      match extraction
      case Err(e) => if Caught(e) then Ok(false) else Err(e)
      case Ok(_) =>
        match loadError
        case None => Ok(true)
        case Some(e) => if Caught(e) then Ok(false) else Err(e)
  }

  /**
   * loadNativeLibrary succeeds exactly when the architecture is known, the
   * library is extracted and loading throws nothing; it throws only what
   * getArchitecture, the extraction or the loading throws and it does not
   * catch.
   */
  lemma LoadOutcomeCases(arch: Result<Architecture>, extraction: Result<FileSystem.Path>, loadError: Option<Error>)
    ensures LoadOutcome(arch, extraction, loadError) == Ok(true) <==>
      arch.Ok? && arch.value != UNKNOWN && extraction.Ok? && loadError.None?
    ensures arch == Ok(UNKNOWN) ==> LoadOutcome(arch, extraction, loadError) == Ok(false)
    ensures arch.Err? ==> LoadOutcome(arch, extraction, loadError) == Err(arch.error)
    ensures arch.Ok? && LoadOutcome(arch, extraction, loadError).Err? ==>
      !Caught(LoadOutcome(arch, extraction, loadError).error)
  {
  }

  /** getPlatformLibraryPath for an architecture: "META-INF/lib/<lower-case name>/". */
  function LibraryPathFor(a: Architecture): (r: string)
    ensures StartsWith(r, "META-INF/lib/") && EndsWith(r, "/")
  {
    "META-INF" + DELIM + "lib" + DELIM + ToLower(Name(a)) + DELIM
  }

  /** The lower-case enum names, the legacy directory names. */
  lemma DirectoryNames()
    ensures ToLower(Name(LINUX_32)) == "linux_32" && ToLower(Name(LINUX_64)) == "linux_64"
    ensures ToLower(Name(LINUX_ARM)) == "linux_arm"
    ensures ToLower(Name(WINDOWS_32)) == "windows_32" && ToLower(Name(WINDOWS_64)) == "windows_64"
    ensures ToLower(Name(OSX_32)) == "osx_32" && ToLower(Name(OSX_64)) == "osx_64"
    ensures ToLower(Name(OSX_PPC)) == "osx_ppc" && ToLower(Name(UNKNOWN)) == "unknown"
  {
  }

  /** Different architectures have different library directories. */
  lemma LibraryPathInjective(a1: Architecture, a2: Architecture)
    requires LibraryPathFor(a1) == LibraryPathFor(a2)
    ensures a1 == a2
  {
    DirectoryNames();
    var n := |"META-INF/lib/"|;
    assert ToLower(Name(a1)) == LibraryPathFor(a1)[n..|LibraryPathFor(a1)| - 1];
    assert ToLower(Name(a2)) == LibraryPathFor(a2)[n..|LibraryPathFor(a2)| - 1];
  }

  /**
   * Every legacy directory of a known architecture other than OSX_PPC is a
   * legacy path of some default platform, so the new mapping still finds it.
   */
  lemma LegacyDirectoryIsDefaultLegacyPath(a: Architecture)
    requires a != UNKNOWN && a != OSX_PPC
    ensures exists d :: ToLower(Name(a)) in GetLegacyPaths(d)
  {
    DirectoryNames();
    match a
    case LINUX_32 => assert ToLower(Name(a)) in GetLegacyPaths(LINUX_X86_32);
    case LINUX_64 => assert ToLower(Name(a)) in GetLegacyPaths(LINUX_X86_64);
    case LINUX_ARM => assert ToLower(Name(a)) in GetLegacyPaths(LINUX_ARM_32);
    case WINDOWS_32 => assert ToLower(Name(a)) in GetLegacyPaths(WINDOWS_X86_32);
    case WINDOWS_64 => assert ToLower(Name(a)) in GetLegacyPaths(WINDOWS_X86_64);
    case OSX_32 => assert ToLower(Name(a)) in GetLegacyPaths(MACOS_PPC_32);
    case OSX_64 => assert ToLower(Name(a)) in GetLegacyPaths(MACOS_X86_64);
  }

  /**
   * getPlatformLibraryName for an architecture: Linux "<name>.so" (no "lib"
   * prefix), Windows "<name>.dll", Intel Mac "lib<name>.dylib", and null for
   * OSX_PPC and UNKNOWN.
   */
  function PlatformLibraryName(a: Architecture, libName: string): (r: Option<string>)
    ensures r.Some? <==> a !in {UNKNOWN, OSX_PPC}
  {
    match a
    case LINUX_32 | LINUX_64 | LINUX_ARM => Some(libName + ".so")
    case WINDOWS_32 | WINDOWS_64 => Some(libName + ".dll")
    case OSX_32 | OSX_64 => Some("lib" + libName + ".dylib")
    case _ => None
  }

  /** The prefix and suffix getPlatformLibraryName puts around a name on an architecture. */
  function Affixes(a: Architecture): (string, string)
  {
    match a
    case LINUX_32 | LINUX_64 | LINUX_ARM => ("", ".so")
    case WINDOWS_32 | WINDOWS_64 => ("", ".dll")
    case _ => ("lib", ".dylib")
  }

  /** The library name back from a platform file name: the platform's prefix and suffix removed. */
  function StripAffixes(a: Architecture, fileName: string): Option<string>
  {
    var (prefix, suffix) := Affixes(a);
    if StartsWith(fileName, prefix) && |prefix| + |suffix| <= |fileName| &&
       EndsWith(fileName, suffix)
    then Some(fileName[|prefix|..|fileName| - |suffix|])
    else None
  }

  /** Removing the platform's prefix and suffix gives the library name back. */
  lemma PlatformLibraryNameRoundTrip(a: Architecture, libName: string)
    requires PlatformLibraryName(a, libName).Some?
    ensures StripAffixes(a, PlatformLibraryName(a, libName).value) == Some(libName)
  {
    var f := PlatformLibraryName(a, libName).value;
    var (prefix, suffix) := Affixes(a);
    assert f == prefix + libName + suffix;
    assert f[|prefix|..|f| - |suffix|] == libName;
    assert f[|f| - |suffix|..] == suffix;
  }

  /**
   * getVersionedLibraryName: "-<version>" is appended when the jar's
   * implementation version is present and non-empty. A class without a
   * package (getPackage() is null) makes it throw a NullPointerException.
   */
  function GetVersionedLibraryName(libraryJarPackage: Option<Package>, libName: string): (r: Result<string>)
    ensures r.Err? <==> libraryJarPackage.None?
    ensures r.Err? ==> r.error == NullPointer
    ensures r.Ok? ==> StartsWith(r.value, libName)
  {
    match libraryJarPackage
    case None => Err(NullPointer)
    case Some(pkg) =>
      var version := pkg.implementationVersion;
      if version.Some? && |version.value| > 0 then Ok(libName + "-" + version.value) else Ok(libName)
  }

  /** The version suffix is exactly "-<version>", and nothing without a version. */
  lemma VersionedNameSuffix(version: Option<string>, libName: string)
    ensures var r := GetVersionedLibraryName(Some(Package(version)), libName);
      r.Ok? && r.value[|libName|..] == (if version.Some? && version.value != "" then "-" + version.value else "")
    ensures GetVersionedLibraryName(Some(Package(version)), libName) == Ok(libName) <==> version.None? || version.value == ""
  {
  }
}
