# native-lib-loader, modelled in Dafny

native-lib-loader finds the native (JNI) library that matches the running
JVM's platform, copies it out of a jar into a directory on disk, and hands
that file to `System.load`. This project models its core and proves
properties of the model:

- **Platform detection.**
  - `NativeOsArchUtil`: the operating-system family from `os.name`, the
    bitness from the `sun.arch.data.model`, `com.ibm.vm.bitmode` and
    `os.arch` properties, the normalisation of architecture aliases
    (`amd64` → `x86_64` and so on), and the `family-arch-bitness[-special]`
    path fragment.
  - `OsInfo` / `OsInfoFactory`: the platform tuple, its `equals` and
    `hashCode`, and its factories.
  - `DefaultOsInfo` / `DefaultOsInfoPathMapping`: the fifteen known
    platforms, their legacy directory names, and the map from each tuple
    to the list of directories to search.
  - `NativeLibraryUtil`: the legacy `Architecture` classification
    (`LINUX_64`, `OSX_PPC`, ...), the resource directory
    `META-INF/lib/<architecture>/`, the platform file name of a library
    (`<name>.so`, `<name>.dll` or `lib<name>.dylib`), versioned library names, and
    `loadNativeLibrary`.
- **`mx.sysinfo`** (`MxSysInfo`): the property when it is set. Otherwise a
  guess `arch-os-extra`, where on Linux `extra` is read off the targets of
  the `libc.so.6` and `libstdc++.so.*` links with the two regular
  expressions of the source.
- **Extraction** (`BaseJniExtractor`, `DefaultJniExtractor`,
  `WebappJniExtractor`):
  - init: resource directories and the sweep of stale
    `nativelib-loader_*` folders, with `deleteRecursively`;
  - the temporary directory;
  - `extractJni`, including the `.jnilib`/`.dylib` fallback;
  - `extractRegistered` over every `AUTOEXTRACT.LIST` manifest, read line
    by line as `BufferedReader.readLine` does;
  - `extractResource` and the buffered `copy` loop;
  - the two subclasses' working directories, including the webapp
    extractor's `classloaderName.now.attempt` retry loop.

Model conventions:

- **Java values.** System properties are a `map<string, string>`. A Java
  exception is the `Err` case of a `Result`. `null` is `None` where the
  source handles it.
- **File system.** The file system is a class over a map from paths
  (sequences of names) to files and directories, plus a set of entries
  the operating system refuses to delete. `mkdir`, `mkdirs`, `delete`,
  `listFiles`, `FileOutputStream` and `Files.createTempDirectory` are
  methods on it with full contracts.
- **Class loaders** are maps from resource names to the bytes of each
  resource of that name.
- **Inputs from the environment.** The clock, the canonical-path and
  file-existence probes of `MxSysInfo`, `System.mapLibraryName` and the
  outcome of `System.load` are parameters.
- **The empty pathname.** On JDK releases up to 23, `new File("")` names
  no file: it is never a directory, `mkdirs` makes nothing for it and `listFiles` answers
  null. A directory property set to the empty string is modelled that way
  (`FileSystem.MadeDirsNamed`, `BaseJniExtractor.SweptIn`), not as the
  working directory.

## Model

| member | source | states |
|---|---|---|
| JavaLang.GetPropertyOr | src/main/java/org/scijava/nativelib/BaseJniExtractor.java:119 | System.getProperty(key, default): the property's value when it is set, the default exactly when it is not |
| JavaLang.ParseDecimalRoundTrip | src/main/java/org/scijava/nativelib/BaseJniExtractor.java:318-325 | every value in the range parses back from its decimal rendering, so Long.parseLong(String.valueOf(default)) gives the default |
| JavaLang.NatToStringInjective | src/main/java/org/scijava/nativelib/WebappJniExtractor.java:82-83 | distinct attempt counters render as distinct decimal strings, so each retry names a new directory |
| JavaLang.WrapInt | src/main/java/org/scijava/nativelib/OsInfo.java:68-74 | Java int overflow: the result is a 32-bit int congruent to the exact value modulo 2^32 |
| JavaLang.StringHashCode | src/main/java/org/scijava/nativelib/OsInfo.java:68-74 | String.hashCode runs over the UTF-16 code units and is a 32-bit int |
| JavaLang.Utf16Units | src/main/java/org/scijava/nativelib/OsInfo.java:68-74 | a character is one UTF-16 code unit below U+10000 and two above, each unit below 0x10000 |
| JavaLang.Utf16UnitsDecode | src/main/java/org/scijava/nativelib/OsInfo.java:68-74 | a character above U+FFFF is a high then a low surrogate that give the character back |
| JavaLang.StringHashCodeAppendBmp | src/main/java/org/scijava/nativelib/OsInfo.java:68-74 | appending a character below U+10000 multiplies the hash by 31 and adds the character, with int overflow |
| JavaLang.StringHashCodeAppendPair | src/main/java/org/scijava/nativelib/OsInfo.java:68-74 | appending a character above U+FFFF takes that step twice, once per surrogate |
| OsInfo.NewOsInfo | src/main/java/org/scijava/nativelib/OsInfo.java:12-17 | the family and architecture are stored lower-cased, the bitness as given, and the special part is empty |
| OsInfo.NewOsInfoSpecial | src/main/java/org/scijava/nativelib/OsInfo.java:19-24 | the family and architecture are stored lower-cased; the bitness and the special part are stored as given |
| OsInfo.NewOsInfoIsSpecialEmpty | src/main/java/org/scijava/nativelib/OsInfo.java:12-24 | the three-argument constructor is the four-argument one with an empty special part |
| OsInfo.ConstructorIgnoresCase | src/main/java/org/scijava/nativelib/OsInfo.java:19-24 | a constructed tuple's family and architecture are all lower case and do not depend on the case of the arguments |
| OsInfo.EqualsIsValueEquality | src/main/java/org/scijava/nativelib/OsInfo.java:43-65 | equals holds exactly when the two tuples agree in all four fields |
| OsInfo.HashCode | src/main/java/org/scijava/nativelib/OsInfo.java:68-74 | the 31-based hash is a 32-bit int |
| OsInfo.HashCodeConsistent | src/main/java/org/scijava/nativelib/OsInfo.java:43-74 | tuples that are equal have equal hash codes |
| OsInfoFactory.From | src/main/java/org/scijava/nativelib/OsInfoFactory.java:21-25 | the architecture is normalised and then lower-cased, the family is lower-cased, and the special part is empty |
| OsInfoFactory.FromOsName | src/main/java/org/scijava/nativelib/OsInfoFactory.java:27-31 | an OS name with no known family raises determineOsFamily's error; otherwise the result is `from` of that family |
| OsInfoFactory.FromCurrentIsFromOsName | src/main/java/org/scijava/nativelib/OsInfoFactory.java:9-19 | with os.name and os.arch set and a determinable bitness, fromCurrent is fromOsName of those three values |
| OsInfoFactory.FromCurrentFailures | src/main/java/org/scijava/nativelib/OsInfoFactory.java:9-19 | fromCurrent throws exactly when the family is unknown, the bitness cannot be determined or os.arch is missing; a missing os.name is a NullPointerException |
| OsInfoFactory.FromArchitectureIsCanonical | src/main/java/org/scijava/nativelib/OsInfoFactory.java:21-25 | for a lower-case architecture, the stored architecture is a fixed point of normalizeArchitecture |
| OsInfoFactory.AixPpc64Path | src/test/java/org/scijava/nativelib/NativeOsArchUtilTest.java:15-21 | `from("aix", "ppc64", 64)` has the path `aix-ppc_64-64` |
| NativeOsArchUtil.DetermineOsFamily | src/main/java/org/scijava/nativelib/NativeOsArchUtil.java:91-115 | a null name throws NullPointerException; any answer is one of the five families; any other failure is the IllegalStateException with its message |
| NativeOsArchUtil.FirstTokenMatch | src/main/java/org/scijava/nativelib/NativeOsArchUtil.java:94-112 | no family exactly when no token of the chain occurs in the name; otherwise the family of a token that occurs |
| NativeOsArchUtil.DetermineOsFamilyIsFirstToken | src/main/java/org/scijava/nativelib/NativeOsArchUtil.java:91-115 | the family is that of the first token of the if-chain found in the lower-cased name, and the error when none is found |
| NativeOsArchUtil.DetermineOsFamilyIgnoresCase | src/main/java/org/scijava/nativelib/NativeOsArchUtil.java:91-92 | the family depends only on the lower-cased name |
| NativeOsArchUtil.SolarisBeforeLinux | src/main/java/org/scijava/nativelib/NativeOsArchUtil.java:94-100 | a name containing both "sunos" and "nux" is Solaris, because the Solaris test comes first |
| NativeOsArchUtil.DetermineOsFamilyNeverZos | src/main/java/org/scijava/nativelib/NativeOsArchUtil.java:71-115 | the declared z/OS family is never the answer |
| NativeOsArchUtil.AliasSetsDisjoint | src/main/java/org/scijava/nativelib/NativeOsArchUtil.java:32-68 | no string is an alias in two different alias lists, so the order of the tests is immaterial |
| NativeOsArchUtil.NormalizeAlias | src/main/java/org/scijava/nativelib/NativeOsArchUtil.java:190-240 | every alias normalises to the canonical token of its list |
| NativeOsArchUtil.ChangedIsAlias | src/main/java/org/scijava/nativelib/NativeOsArchUtil.java:190-240 | a string that normalisation changes is an alias |
| NativeOsArchUtil.NormalizePassThrough | src/main/java/org/scijava/nativelib/NativeOsArchUtil.java:190-240 | a string that is no alias is returned unchanged |
| NativeOsArchUtil.AliasIsLower | src/main/java/org/scijava/nativelib/NativeOsArchUtil.java:32-68 | every alias is lower case |
| NativeOsArchUtil.AliasHasNoUnderscore | src/main/java/org/scijava/nativelib/NativeOsArchUtil.java:32-68 | no alias contains '_' |
| NativeOsArchUtil.CanonicalTokensAreFixed | src/main/java/org/scijava/nativelib/NativeOsArchUtil.java:11-68 | each canonical token normalises to itself, and only `ppcle` is also an alias |
| NativeOsArchUtil.NormalizeIdempotent | src/main/java/org/scijava/nativelib/NativeOsArchUtil.java:190-240 | normalising twice is normalising once |
| NativeOsArchUtil.NormalizeExamples | src/main/java/org/scijava/nativelib/NativeOsArchUtil.java:190-240 | amd64, x64 and ia32e become x86_64; ia64n becomes itanium_32 |
| NativeOsArchUtil.NormalizeIsCaseSensitive | src/main/java/org/scijava/nativelib/NativeOsArchUtil.java:190-240 | the match is exact: "AMD64" is returned unchanged |
| NativeOsArchUtil.GuessBitnessFromArchitecture | src/main/java/org/scijava/nativelib/NativeOsArchUtil.java:137-147 | 64 exactly when the architecture contains "64", 32 otherwise |
| NativeOsArchUtil.ParseBitness | src/main/java/org/scijava/nativelib/NativeOsArchUtil.java:121-122 | a digit string parses exactly when it fits an int, to its value; otherwise a NumberFormatException on it |
| NativeOsArchUtil.BitnessPrefersSunSignal | src/main/java/org/scijava/nativelib/NativeOsArchUtil.java:117-123 | a usable sun.arch.data.model that fits an int is the bitness, whatever the other signals say |
| NativeOsArchUtil.BitnessFallsBackToIbmSignal | src/main/java/org/scijava/nativelib/NativeOsArchUtil.java:125-130 | without a usable sun.arch.data.model, a usable com.ibm.vm.bitmode that fits an int is the bitness |
| NativeOsArchUtil.BitnessFallsBackToArchitecture | src/main/java/org/scijava/nativelib/NativeOsArchUtil.java:132-135 | without either signal, the bitness is 64 exactly when os.arch contains "64" |
| NativeOsArchUtil.BitnessOverflowThrows | src/main/java/org/scijava/nativelib/NativeOsArchUtil.java:121-122 | a digit-only sun.arch.data.model beyond the int range throws NumberFormatException instead of falling back |
| NativeOsArchUtil.PathForOsInfoFields | src/main/java/org/scijava/nativelib/NativeOsArchUtil.java:160-174 | splitting the path on '-' gives back the family, the normalised architecture, the bitness and then the special part's fields |
| NativeOsArchUtil.PathBitnessRoundTrip | src/main/java/org/scijava/nativelib/NativeOsArchUtil.java:160-174 | the third field of the path parses back to the bitness |
| DefaultOsInfo.Values | src/main/java/org/scijava/nativelib/DefaultOsInfo.java:12-27 | fifteen constants, pairwise distinct |
| DefaultOsInfo.ValuesListsEveryConstant | src/main/java/org/scijava/nativelib/DefaultOsInfo.java:12-27 | every constant occurs in values() at its ordinal |
| DefaultOsInfo.GetOsInfo | src/main/java/org/scijava/nativelib/DefaultOsInfo.java:41-48 | no known platform has a special part |
| DefaultOsInfo.GetOsInfoIsFrom | src/main/java/org/scijava/nativelib/DefaultOsInfo.java:41-48 | each constant's tuple is OsInfoFactory.from of its declared family, architecture and bitness |
| DefaultOsInfo.ArchIndex | src/main/java/org/scijava/nativelib/DefaultOsInfo.java:12-27 | every declared architecture is one of the canonical tokens |
| DefaultOsInfo.DefaultArchitectureIsCanonical | src/main/java/org/scijava/nativelib/DefaultOsInfo.java:41-48 | a known platform's architecture is a fixed point of normalizeArchitecture |
| DefaultOsInfo.BitnessGroups | src/main/java/org/scijava/nativelib/DefaultOsInfo.java:12-27 | the first six constants are 32-bit and the others 64-bit |
| DefaultOsInfo.OneLegacyPath | src/main/java/org/scijava/nativelib/DefaultOsInfo.java:64-75 | every constant has exactly one legacy directory |
| DefaultOsInfo.LegacyRegression | src/test/java/org/scijava/nativelib/NativeLibLegacyTest.java:24-33 | the legacy directories of the ten platforms the regression test lists |
| DefaultOsInfo.TuplesDistinctButWindows | src/main/java/org/scijava/nativelib/DefaultOsInfo.java:12-27 | two constants share a tuple exactly when they are equal or are WINDOWS_X86_64 and WINDOWS_EM64T_64 |
| DefaultOsInfo.SameTupleSameLegacy | src/main/java/org/scijava/nativelib/DefaultOsInfo.java:12-27 | constants with the same tuple have the same legacy directories |
| DefaultOsInfo.DefaultPath | src/test/java/org/scijava/nativelib/NativeOsArchUtilTest.java:23-34 | every known platform's path is family-architecture-bitness and splits into exactly three fields |
| DefaultOsInfo.LinuxX86PathExample | src/main/java/org/scijava/nativelib/NativeOsArchUtil.java:160-174 | the path of LINUX_X86_64 is `linux-x86_64-64` |
| DefaultOsInfoPathMapping.PutAll | src/main/java/org/scijava/nativelib/DefaultOsInfoPathMapping.java:23-34 | the keys are exactly the tuples of the constants; every list starts with the tuple's path and continues with the constant's legacy directories |
| DefaultOsInfoPathMapping.CreateDefaultMapping | src/main/java/org/scijava/nativelib/DefaultOsInfoPathMapping.java:20-37 | the result is the default mapping: every key is a known tuple, and every known platform maps to its path followed by its legacy directories |
| DefaultOsInfoPathMapping.PathMapping.constructor | src/main/java/org/scijava/nativelib/DefaultOsInfoPathMapping.java:16-18 | the singleton holds the default mapping |
| DefaultOsInfoPathMapping.PathMapping.GetMapping | src/main/java/org/scijava/nativelib/DefaultOsInfoPathMapping.java:39-41 | the mapping handed out is the default mapping |
| DefaultOsInfoPathMapping.DefaultMappingUnique | src/main/java/org/scijava/nativelib/DefaultOsInfoPathMapping.java:20-37 | there is only one default mapping, so overwriting the shared Windows key loses nothing |
| DefaultOsInfoPathMapping.MappedListShape | src/main/java/org/scijava/nativelib/DefaultOsInfoPathMapping.java:26-33 | every list has exactly two directories: the tuple's path, then the legacy directory |
| DefaultOsInfoPathMapping.WindowsEntriesCollapse | src/main/java/org/scijava/nativelib/DefaultOsInfoPathMapping.java:23-33 | WINDOWS_X86_64 and WINDOWS_EM64T_64 share one key, and its list fits both |
| DefaultOsInfoPathMapping.LegacyAliasFound | src/test/java/org/scijava/nativelib/NativeLibLegacyTest.java:23-44 | for each of the ten platforms of the regression table (linux_32, linux_64, linux_arm, linux_arm64, osx_32, osx_64, windows_32, windows_64 for both x86_64 and IA-64, aix_32) the mapped list holds its legacy directory |
| DefaultOsInfoPathMapping.LinuxX86Lookup | src/main/java/org/scijava/nativelib/DefaultOsInfoPathMapping.java:20-37 | LINUX_X86_64 maps to `linux-x86_64-64`, then `linux_64` |
| MxSysInfo.LeadingDigits | src/main/java/org/scijava/nativelib/MxSysInfo.java:66-67 | what a greedy `\d+` takes: the longest all-digit prefix |
| MxSysInfo.GroupsSound | src/main/java/org/scijava/nativelib/MxSysInfo.java:65-81 | a successful match gives a prefix, the anchor, the two digit groups with their separators, and the rest, which make up the whole string |
| MxSysInfo.GroupsComplete | src/main/java/org/scijava/nativelib/MxSysInfo.java:65-81 | every string of that shape matches |
| MxSysInfo.GroupsRoundTrip | src/main/java/org/scijava/nativelib/MxSysInfo.java:65-81 | a link target built from two version groups yields exactly those groups |
| MxSysInfo.CxxVersion | src/main/java/org/scijava/nativelib/MxSysInfo.java:82-97 | the only failure is Integer.parseInt of the minor version, and only for major version 6 |
| MxSysInfo.CxxVersionFails | src/main/java/org/scijava/nativelib/MxSysInfo.java:82-97 | it fails exactly when the major version is 6 and the minor exceeds the int range |
| MxSysInfo.CxxVersionExamples | src/main/java/org/scijava/nativelib/MxSysInfo.java:82-97 | 5 gives "5"; 6 with minor 8 gives "6"; 6 with 28 gives "628"; 7 with 1 gives "71" |
| MxSysInfo.LibstdcxxFile | src/main/java/org/scijava/nativelib/MxSysInfo.java:71-73 | libstdc++.so.6, or libstdc++.so.5 exactly when .so.6 does not exist |
| MxSysInfo.GuessMxSysInfo | src/main/java/org/scijava/nativelib/MxSysInfo.java:58-107 | off Linux, `arch-os-unknown`; only the Linux probe can fail, and never with an IOException, which yields "unknown" |
| MxSysInfo.GetMxSysInfo | src/main/java/org/scijava/nativelib/MxSysInfo.java:47-50 | the mx.sysinfo property when it is set, the guess otherwise |
| MxSysInfo.LinuxGuess | src/main/java/org/scijava/nativelib/MxSysInfo.java:63-106 | on Linux, with link targets of the expected shape, the guess ends in `c<libc major><libc minor>cxx<C++ version>` |
| NativeLibraryUtil.GetProcessor | src/main/java/org/scijava/nativelib/NativeLibraryUtil.java:128-150 | a missing os.arch is a NullPointerException; otherwise the processor of the lower-cased architecture |
| NativeLibraryUtil.ProcessorIgnoresCase | src/main/java/org/scijava/nativelib/NativeLibraryUtil.java:133-147 | the processor does not depend on the case of os.arch |
| NativeLibraryUtil.IntelBitnessAgrees | src/main/java/org/scijava/nativelib/NativeLibraryUtil.java:141-147 | for Intel processors, the 32/64 split agrees with guessBitnessFromArchitecture |
| NativeLibraryUtil.LegacyProcessorMissesAliases | src/main/java/org/scijava/nativelib/NativeLibraryUtil.java:133-147 | `x64` normalises to x86_64 but is an UNKNOWN processor to the legacy classification |
| NativeLibraryUtil.KnownArchitectures | src/main/java/org/scijava/nativelib/NativeLibraryUtil.java:82-121 | the architecture is known exactly for Linux with Intel or ARM, Windows with Intel, and Mac with Intel or PPC, the name tests taken in order |
| NativeLibraryUtil.ArchitectureIgnoresCase | src/main/java/org/scijava/nativelib/NativeLibraryUtil.java:82-121 | the classification does not depend on the case of os.name or os.arch |
| NativeLibraryUtil.ArchitectureAgreesWithFamily | src/main/java/org/scijava/nativelib/NativeLibraryUtil.java:86-116 | for non-Solaris names, a Linux, Windows or OSX architecture agrees with determineOsFamily |
| NativeLibraryUtil.NativeLibraryUtil.constructor | src/main/java/org/scijava/nativelib/NativeLibraryUtil.java:72 | the cached architecture starts UNKNOWN |
| NativeLibraryUtil.NativeLibraryUtil.GetArchitecture | src/main/java/org/scijava/nativelib/NativeLibraryUtil.java:82-121 | a known cached architecture is kept; an UNKNOWN one is reclassified; it fails with NullPointerException exactly when os.name is missing, or os.arch is missing while nothing is cached |
| NativeLibraryUtil.NativeLibraryUtil.GetPlatformLibraryPath | src/main/java/org/scijava/nativelib/NativeLibraryUtil.java:157-162 | `META-INF/lib/<lower-cased architecture>/`, with getArchitecture's failures; an UNKNOWN cache is first reclassified from os.name and os.arch, a known one kept |
| NativeLibraryUtil.NativeLibraryUtil.GetPlatformLibraryName | src/main/java/org/scijava/nativelib/NativeLibraryUtil.java:170-189 | the platform file name of the library, null for UNKNOWN and OSX_PPC, with getArchitecture's failures; an UNKNOWN cache is first reclassified from os.name and os.arch, a known one kept |
| NativeLibraryUtil.NativeLibraryUtil.LoadNativeLibrary | src/main/java/org/scijava/nativelib/NativeLibraryUtil.java:251-288 | true exactly when the architecture is known, the library is extracted under its resolved name into the directory java.library.tmpdir or else java.io.tmpdir names, and loads; UNKNOWN gives false and leaves the disk untouched; IO, security and link errors give false; other exceptions escape; for a known architecture the disk changes exactly as ExtractWithDefault states for the library's resource directory and mapped name; the architecture is the cached one, or for an UNKNOWN cache the classification of os.name and os.arch |
| NativeLibraryUtil.NativeLibraryUtil.LoadVersionedNativeLibrary | src/main/java/org/scijava/nativelib/NativeLibraryUtil.java:237-242 | a class without a package is a NullPointerException thrown before anything else happens, with the disk and the cached architecture untouched; otherwise loadNativeLibrary of the versioned name, with the same outcome, and for a known architecture the disk changes as ExtractWithDefault states for the versioned name; the architecture is the cached one, or for an UNKNOWN cache the classification of os.name and os.arch |
| NativeLibraryUtil.ExtractWithDefault | src/main/java/org/scijava/nativelib/NativeLibraryUtil.java:261-267 | the whole outcome of building a DefaultJniExtractor and calling extractJni: a getMxSysInfo failure changes nothing; otherwise the leftovers are swept (nothing when java.io.tmpdir is empty), a missing directory name is a NullPointerException, the working directory is made (nothing for an empty name), and then "Unable to create native library working directory" (for an empty name too), "Couldn't find resource", an IOException naming the output file, or the resolved bytes written under the resolved name |
| NativeLibraryUtil.ExtractedSucceeds | src/main/java/org/scijava/nativelib/NativeLibraryUtil.java:261-267 | extraction succeeds exactly when getMxSysInfo succeeds, a non-empty directory name is given, no prefix of it is a file, the library resolves and its output file can be written; then the file holds the resolved bytes, written now; after getMxSysInfo succeeds, a failure is an IOException exactly when a directory is named |
| NativeLibraryUtil.LoadOutcomeCases | src/main/java/org/scijava/nativelib/NativeLibraryUtil.java:251-288 | success exactly when the architecture is known, extraction succeeds and System.load raises nothing; an escaping error is never one of the three caught kinds |
| NativeLibraryUtil.LibraryPathFor | src/main/java/org/scijava/nativelib/NativeLibraryUtil.java:157-162 | every platform library path starts with `META-INF/lib/` and ends with '/' |
| NativeLibraryUtil.DirectoryNames | src/main/java/org/scijava/nativelib/NativeLibraryUtil.java:68-69 | the lower-cased names of the nine architectures |
| NativeLibraryUtil.LibraryPathInjective | src/main/java/org/scijava/nativelib/NativeLibraryUtil.java:157-162 | different architectures have different resource directories |
| NativeLibraryUtil.LegacyDirectoryIsDefaultLegacyPath | src/main/java/org/scijava/nativelib/DefaultOsInfo.java:64-75 | every known architecture but OSX_PPC names the legacy directory of some known platform |
| NativeLibraryUtil.PlatformLibraryName | src/main/java/org/scijava/nativelib/NativeLibraryUtil.java:170-189 | a name exists exactly for the architectures other than UNKNOWN and OSX_PPC |
| NativeLibraryUtil.PlatformLibraryNameRoundTrip | src/main/java/org/scijava/nativelib/NativeLibraryUtil.java:170-189 | stripping the platform's prefix and suffix gives back the library name |
| NativeLibraryUtil.GetVersionedLibraryName | src/main/java/org/scijava/nativelib/NativeLibraryUtil.java:221-227 | a NullPointerException exactly when the class has no package; otherwise the versioned name starts with the library name |
| NativeLibraryUtil.VersionedNameSuffix | src/test/java/org/scijava/nativelib/NativeLibraryUtilTest.java:9-14 | the suffix is "-version" for a non-empty version and nothing otherwise; the name is unchanged exactly when there is no version |
| FileSystem.Child | src/main/java/org/scijava/nativelib/WebappJniExtractor.java:82-83 | `new File(dir, name)` is a path directly inside dir |
| FileSystem.DirectoryIffNoFileOn | src/main/java/org/scijava/nativelib/DefaultJniExtractor.java:74-75 | in a tree, an existing path is a directory exactly when no prefix of it is a file |
| FileSystem.InsideMeansDirectory | src/main/java/org/scijava/nativelib/WebappJniExtractor.java:84-92 | a path with anything inside it is a directory |
| FileSystem.FreshChild | src/main/java/org/scijava/nativelib/BaseJniExtractor.java:125 | some name with the prefix is unused in any directory |
| FileSystem.ListSet | src/main/java/org/scijava/nativelib/BaseJniExtractor.java:103 | an array listing every entry of a set once |
| FileSystem.CollapseSlashes | src/main/java/org/scijava/nativelib/BaseJniExtractor.java:118-123 | no '/' follows another, the last character is kept, and the name does not grow |
| FileSystem.Normalize | src/main/java/org/scijava/nativelib/BaseJniExtractor.java:118-123 | the text of a `new File(s)` is a normal Unix pathname (no repeated '/', no trailing '/' but the root's), no longer than s, and empty only for an empty s |
| FileSystem.NormalizeNormal | src/main/java/org/scijava/nativelib/DefaultJniExtractor.java:72-76 | a pathname that is already normal prints as given, so normalising twice changes nothing more |
| FileSystem.PathnameExamples | src/main/java/org/scijava/nativelib/BaseJniExtractor.java:118-123 | "/tmp/" prints as "/tmp", "a//b" as "a/b", and "/" stays "/" |
| FileSystem.FileSystem.LastModified | src/main/java/org/scijava/nativelib/BaseJniExtractor.java:308 | File.lastModified is 0 for a missing path |
| FileSystem.FileSystem.Mkdir | src/main/java/org/scijava/nativelib/WebappJniExtractor.java:84 | File.mkdir succeeds exactly for a missing path whose parent is a directory, and adds only that directory |
| FileSystem.FileSystem.Mkdirs | src/main/java/org/scijava/nativelib/DefaultJniExtractor.java:74-75 | afterwards p is a directory exactly when no prefix of it was a file; old entries are kept and only directories on the way to p are added |
| FileSystem.FileSystem.Delete | src/main/java/org/scijava/nativelib/BaseJniExtractor.java:107-113 | File.delete succeeds exactly for an existing, unlocked path with nothing inside it, and removes only that path |
| FileSystem.FileSystem.ListFiles | src/main/java/org/scijava/nativelib/BaseJniExtractor.java:103-104 | null exactly when the path is no directory; otherwise its direct children, each once |
| FileSystem.FileSystem.WriteFile | src/main/java/org/scijava/nativelib/BaseJniExtractor.java:269-271 | a FileOutputStream opens exactly where the parent is a directory and the path is no directory (an existing file is overwritten); the file then holds the bytes |
| FileSystem.FileSystem.CreateTempDirectory | src/main/java/org/scijava/nativelib/BaseJniExtractor.java:125 | succeeds exactly inside a directory, adding one new prefixed directory; fails with an IOException changing nothing |
| Streams.InputStream.Read | src/main/java/org/scijava/nativelib/BaseJniExtractor.java:339 | -1 at the end of the stream; otherwise between 1 and the buffer's length of the next bytes |
| Streams.OutputSink.Write | src/main/java/org/scijava/nativelib/BaseJniExtractor.java:343 | appends exactly `len` bytes from `off` |
| BaseJniExtractor.NativeResourcePaths | src/main/java/org/scijava/nativelib/BaseJniExtractor.java:88-96 | `META-INF/lib/<mx.sysinfo>/` then `META-INF/lib/`, or only the latter without mx.sysinfo |
| BaseJniExtractor.NativeResourcePathsFromSysInfo | src/main/java/org/scijava/nativelib/BaseJniExtractor.java:88-96 | getMxSysInfo never answers null, so there are always two resource directories |
| BaseJniExtractor.CombinedPathShape | src/main/java/org/scijava/nativelib/BaseJniExtractor.java:161 | the combined path is libPath, one '/' added only when missing, then the mapped name |
| BaseJniExtractor.AltLibNameInvolution | src/main/java/org/scijava/nativelib/BaseJniExtractor.java:169-180 | only .jnilib and .dylib names have an alternative; it swaps the suffix, and swapping twice gives the name back |
| BaseJniExtractor.ResolveJniCases | src/main/java/org/scijava/nativelib/BaseJniExtractor.java:160-187 | a library is found exactly when the combined path or the alternative name exists; the combined path wins; an alternative find comes from the extractor's own loader |
| BaseJniExtractor.AltProbeJoinsLibPath | src/main/java/org/scijava/nativelib/BaseJniExtractor.java:182 | the alternative probe adds no '/': `META-INF/lib` with `libfoo.jnilib` probes `META-INF/liblibfoo.dylib` |
| BaseJniExtractor.AltProbeSeparator | src/main/java/org/scijava/nativelib/BaseJniExtractor.java:161-182 | for every library path and every name with an alternative, the alternative probe is the path the jar probe would use for that name exactly when the library path ends in '/' |
| BaseJniExtractor.DecodeEncode | src/main/java/org/scijava/nativelib/BaseJniExtractor.java:219-221 | UTF-8 decoding of an ASCII manifest gives its text back |
| BaseJniExtractor.LineLength | src/main/java/org/scijava/nativelib/BaseJniExtractor.java:222 | the first line is the longest prefix without a line end |
| BaseJniExtractor.ReadLines | src/main/java/org/scijava/nativelib/BaseJniExtractor.java:222 | no line readLine returns contains a line end |
| BaseJniExtractor.ReadTerminated | src/main/java/org/scijava/nativelib/BaseJniExtractor.java:222 | reading lines each ended by "\n", "\r" or "\r\n" gives back exactly those lines |
| BaseJniExtractor.FindLibrary | src/main/java/org/scijava/nativelib/BaseJniExtractor.java:223-229 | no library exactly when no resource directory holds the line |
| BaseJniExtractor.FindLibraryFirst | src/main/java/org/scijava/nativelib/BaseJniExtractor.java:223-229 | the first resource directory holding the line wins |
| BaseJniExtractor.GetLeftoverMinAge | src/main/java/org/scijava/nativelib/BaseJniExtractor.java:318-325 | the parsed property when it is a long, else the five-minute default, also for a malformed value |
| BaseJniExtractor.Copy | src/main/java/org/scijava/nativelib/BaseJniExtractor.java:333-345 | the output receives exactly the rest of the input, in chunks of 1 to 8192 bytes |
| BaseJniExtractor.AllChildrenDeleted | src/main/java/org/scijava/nativelib/BaseJniExtractor.java:105-113 | once every child is gone, the directory is empty and deleting it removes the whole subtree |
| BaseJniExtractor.AllChildrenUnlocked | src/main/java/org/scijava/nativelib/BaseJniExtractor.java:105-113 | the children were all deleted exactly when nothing inside was locked |
| BaseJniExtractor.DeleteRecursively | src/main/java/org/scijava/nativelib/BaseJniExtractor.java:101-114 | only unlocked entries in the subtree go; a non-directory is true and untouched; a directory is true exactly when nothing in it is locked, and then its whole subtree is gone |
| BaseJniExtractor.DeleteListed | src/main/java/org/scijava/nativelib/BaseJniExtractor.java:104-112 | the loop over the listing: on success every listed child is gone with all its contents and none of it was locked; on the first failure only unlocked entries inside the directory have gone and something inside it is locked |
| BaseJniExtractor.NothingToSweep | src/main/java/org/scijava/nativelib/BaseJniExtractor.java:298-304 | without a temporary directory the sweep changes nothing |
| BaseJniExtractor.SweepFolder | src/main/java/org/scijava/nativelib/BaseJniExtractor.java:306-315 | a folder younger than the minimum age is untouched; an old one is deleted recursively |
| BaseJniExtractor.DeleteLeftoverFiles | src/main/java/org/scijava/nativelib/BaseJniExtractor.java:296-316 | an empty java.io.tmpdir lists nothing and changes nothing; otherwise only unlocked entries of stale prefixed folders in the temporary directory are removed, and every stale folder with nothing locked inside is gone |
| BaseJniExtractor.ExtractLinesSucceeds | src/main/java/org/scijava/nativelib/BaseJniExtractor.java:222-237 | a manifest extracts exactly when every line's library is found and can be written; then every line's file is on disk, written now |
| BaseJniExtractor.ExtractLinesContents | src/main/java/org/scijava/nativelib/BaseJniExtractor.java:222-237 | after a successful manifest, the file of each line that no later line overwrites holds that line's library bytes |
| BaseJniExtractor.ExtractLinesUntouched | src/main/java/org/scijava/nativelib/BaseJniExtractor.java:222-237 | a path no line writes keeps its entry |
| BaseJniExtractor.ExtractLinesKeeps | src/main/java/org/scijava/nativelib/BaseJniExtractor.java:222-237 | extraction keeps every path, and changes only files it writes now |
| BaseJniExtractor.ExtractLinesTree | src/main/java/org/scijava/nativelib/BaseJniExtractor.java:222-237 | extraction keeps the file tree a tree |
| BaseJniExtractor.ExtractLinesMissing | src/main/java/org/scijava/nativelib/BaseJniExtractor.java:230-236 | the first line whose library is missing stops the run with "Couldn't find native library" |
| BaseJniExtractor.ExtractManifestsAppend | src/main/java/org/scijava/nativelib/BaseJniExtractor.java:202-210 | extracting two lists of manifests is extracting the first, then, if it succeeded, the second |
| BaseJniExtractor.Init | src/main/java/org/scijava/nativelib/BaseJniExtractor.java:85-99 | a getMxSysInfo failure escapes with the disk untouched; otherwise the resource directories are set and the leftovers swept |
| BaseJniExtractor.GetTempDir | src/main/java/org/scijava/nativelib/BaseJniExtractor.java:116-126 | succeeds exactly when the temporary directory's name is not empty and no prefix of it is a file; mkdirs adds only directories on its way (nothing for the empty name); then a new, empty, prefixed directory inside it is the only other entry added; otherwise nothing else changes and the error is "Unable to create temporary directory" and the directory's name as File prints it |
| BaseJniExtractor.JniExtractor.constructor | src/main/java/org/scijava/nativelib/BaseJniExtractor.java:77-86 | the extractor holds its loaders, resource directories and working directories |
| BaseJniExtractor.JniExtractor.ExtractResource | src/main/java/org/scijava/nativelib/BaseJniExtractor.java:256-278 | writes the resource to its name inside the JNI directory exactly when the file can be opened; otherwise an IOException changing nothing |
| BaseJniExtractor.JniExtractor.ExtractJni | src/main/java/org/scijava/nativelib/BaseJniExtractor.java:144-196 | "Couldn't find resource" when neither name resolves; otherwise the resolved bytes written under the resolved name, or an IOException changing nothing |
| BaseJniExtractor.JniExtractor.FindLibraryOf | src/main/java/org/scijava/nativelib/BaseJniExtractor.java:223-229 | the loop finds the library in the first resource directory that holds it |
| BaseJniExtractor.JniExtractor.ExtractLibrariesFromResource | src/main/java/org/scijava/nativelib/BaseJniExtractor.java:213-244 | extracts the manifest's lines in order and stops at the first failure, with that failure |
| BaseJniExtractor.JniExtractor.ExtractEach | src/main/java/org/scijava/nativelib/BaseJniExtractor.java:206-209 | extracts a sequence of manifests in order, stopping at the first failure |
| BaseJniExtractor.JniExtractor.ExtractRegistered | src/main/java/org/scijava/nativelib/BaseJniExtractor.java:199-211 | extracts every AUTOEXTRACT.LIST of every resource directory in order, stopping at the first failure |
| DefaultJniExtractor.New | src/main/java/org/scijava/nativelib/DefaultJniExtractor.java:66-78 | after init, the directory java.library.tmpdir or tmplib names is made (nothing for an empty name), adding only directories on its way; success exactly when the name is not empty and no prefix of it is a file, else "Unable to create native library working directory" and the name as File prints it; both working directories are that directory |
| DefaultJniExtractor.NewDefault | src/main/java/org/scijava/nativelib/DefaultJniExtractor.java:61-64 | the same with no library jar and `tmplib` as the default directory |
| WebappJniExtractor.Trial | src/main/java/org/scijava/nativelib/WebappJniExtractor.java:82-83 | each trial directory sits directly inside the native directory |
| WebappJniExtractor.TrialNameInjective | src/main/java/org/scijava/nativelib/WebappJniExtractor.java:82-83 | different attempts give different directory names |
| WebappJniExtractor.NotYetTried | src/main/java/org/scijava/nativelib/WebappJniExtractor.java:81-90 | an attempt's directory is none of the earlier attempts' |
| WebappJniExtractor.CreateJniSubDir | src/main/java/org/scijava/nativelib/WebappJniExtractor.java:78-93 | the loop ends; it succeeds exactly when the native directory is a directory, with the first attempt whose directory was not yet on disk, every earlier attempt's directory already existing, and only the new directory added; otherwise it fails on attempt 0 changing nothing |
| WebappJniExtractor.MakeDirectories | src/main/java/org/scijava/nativelib/WebappJniExtractor.java:69-93 | a new prefixed native directory in the temporary directory, holding only the JNI directory of attempt 0; these two are the only entries added after getTempDir's mkdirs, which is all that changes on failure; fails exactly when the temporary directory cannot be made |
| WebappJniExtractor.New | src/main/java/org/scijava/nativelib/WebappJniExtractor.java:68-96 | init, then the two directories; no library jar; the same outcomes as MakeDirectories on the swept tree, with the same frame: after mkdirs only the native and JNI directories are added |

## Left out

- System.load is a parameter (the error it raises, if any); its effect on the JVM is not modelled.
- System.mapLibraryName is a function parameter; its per-platform rules are not modelled.
- Class loaders are maps from resource names to byte contents. URLs, jar files and the JVM's class-loader delegation are not modelled.
- The name Files.createTempDirectory picks is any fresh name with the prefix, not a random one.
- deleteOnExit is not modelled: nothing runs at JVM exit.
- Logging, toString and the trivial getters (getJniDir, getNativeDir, the OsInfo getters) are not modelled; the extractor's fields stand for the getters.
- Concurrency is not modelled: another process racing on the same directories is not modelled.
- Symbolic links and canonical paths are not modelled in the file system. The Host parameter answers MxSysInfo's getCanonicalPath and exists probes, and `..` is not resolved.
- Decode: only ASCII bytes decode to themselves; every other byte becomes U+FFFD, so multi-byte UTF-8 characters in a manifest are not modelled.
- FileOutputStream is modelled as one write of the whole content when the stream closes; a failure part-way through the copy is not modelled.
- WebappJniExtractor.CreateJniSubDir: the class-loader name is treated as a single file name; a name containing '/' is not modelled as nested directories.
- WebappJniExtractor.MakeDirectories: the isDirectory check after mkdirs and the exception inside the retry loop are proved never to fire here, so they have no branch of their own.
- NativeLibraryUtil.NativeLibraryUtil.LoadNativeLibrary: in the source, getPlatformLibraryPath is evaluated after the extractor is built; the model computes it before. The architecture is already cached then, so the result is the same.
- BaseJniExtractor.Init: the branch for a null mx.sysinfo is unreachable (NativeResourcePathsFromSysInfo) and is kept only in NativeResourcePaths.
- BaseJniExtractor.MissingLibrary keeps the source's message, which lacks a space before "on the classpath".
- BaseJniExtractor.JniExtractor.ExtractResource ignores its directory argument and always writes into the JNI directory, as the source does.
- Error messages print paths with PathString: names joined by '/' from the root, which is what the source prints when java.io.tmpdir is absolute; the relative form it prints under a relative java.io.tmpdir is not modelled. A directory named by a property prints as FileSystem.Normalize gives the property's text, as java.io.File keeps it on Unix.
- BaseJniExtractor.GetLeftoverMinAge: JavaLang.ParseLong reads ASCII digits '0'..'9' only. Long.parseLong also accepts the other Unicode decimal digits (Character.digit), so a property written in, say, Arabic-Indic digits gives the five-minute default here.
- BaseJniExtractor.DeleteLeftoverFiles: the clock is one reading, now, for the whole sweep. The source reads System.currentTimeMillis once per folder, so a folder that becomes stale while the sweep runs is not modelled.
- The empty pathname follows JDK releases up to 23. From JDK 24 on, `new File("")` stands for the current directory, which is not modelled.
- BaseJniExtractor.JniExtractor.ExtractJni: a FileOutputStream that cannot be opened fails with IO(PathString(out)); the " (<reason>)" suffix of Java's FileNotFoundException message (for example "Is a directory") is not modelled. The same holds for ExtractResource and NativeLibraryUtil.ExtractWithDefault.
- Class.getPackage is a parameter (NativeLibraryUtil.Package, None for null); only its implementation version is read, and how the JVM finds a package and its manifest is not modelled.
- NativeOsArchUtil.GetPathForOsInfo: the bitness is written with ASCII digits (IntToString). String.format's %d uses the default locale's digits, which is not modelled.
- The JniExtractor interface, NativeLoader and the two-argument getPlatformLibraryPath(String, OsInfo) the legacy test calls are not part of this model.
- Locale-specific lower-casing is not modelled: toLowerCase is modelled for ASCII letters only.
