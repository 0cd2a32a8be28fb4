/**
 * WebappJniExtractor: an extractor for several applications in one virtual
 * machine. Each extractor gets its own fresh directory inside the temporary
 * directory (see getTempDir), and inside that a JNI subdirectory named after
 * the class loader, the creation time and an attempt number, so that no two
 * class loaders load a library from the same file.
 */
module WebappJniExtractor {
  import opened JavaLang
  import opened FileSystem
  import opened BaseJniExtractor
  import MxSysInfo

  /** The name of the attempt-th candidate subdirectory: "<classloaderName>.<now>.<attempt>". */
  function TrialName(classloaderName: string, now: int, attempt: nat): string
  {
    classloaderName + "." + IntToString(now) + "." + NatToString(attempt)
  }

  function Trial(nativeDir: Path, classloaderName: string, now: int, attempt: nat): (p: Path)
    ensures p != [] && Parent(p) == nativeDir && Below(nativeDir, p)
  {
    Child(nativeDir, TrialName(classloaderName, now, attempt))
  }

  /** Different attempts try different names. */
  lemma TrialNameInjective(classloaderName: string, now: int, a: nat, b: nat)
    requires TrialName(classloaderName, now, a) == TrialName(classloaderName, now, b)
    ensures a == b
  {
    var prefix := classloaderName + "." + IntToString(now) + ".";
    var name := TrialName(classloaderName, now, a);
    assert name == prefix + NatToString(a) && name == prefix + NatToString(b);
    assert NatToString(a) == name[|prefix|..] == NatToString(b);
    NatToStringInjective(a, b);
  }

  /** The candidates before the n-th. */
  function Trials(nativeDir: Path, classloaderName: string, now: int, n: nat): set<Path>
  {
    if n == 0 then {} else Trials(nativeDir, classloaderName, now, n - 1) + {Trial(nativeDir, classloaderName, now, n - 1)}
  }

  /** No candidate from the n-th on was among the first n. */
  lemma {:induction false} NotYetTried(nativeDir: Path, classloaderName: string, now: int, n: nat, m: nat)
    requires n <= m
    ensures Trial(nativeDir, classloaderName, now, m) !in Trials(nativeDir, classloaderName, now, n)
  {
    if n > 0 {
      NotYetTried(nativeDir, classloaderName, now, n - 1, m);
      if TrialName(classloaderName, now, m) == TrialName(classloaderName, now, n - 1) {
        TrialNameInjective(classloaderName, now, m, n - 1);
      }
      assert Trial(nativeDir, classloaderName, now, m)[|nativeDir|] == TrialName(classloaderName, now, m);
    }
  }

  /**
   * The loop of the constructor that makes the JNI subdirectory: attempts
   * 0, 1, 2, ... until mkdir succeeds, skipping candidates that already
   * exist. It succeeds exactly when nativeDir is a directory, with a
   * subdirectory that did not exist before, every earlier candidate having
   * been there already; otherwise the first candidate is named in the error.
   */
  method CreateJniSubDir(fs: FileSystem, nativeDir: Path, classloaderName: string, now: int)
    returns (r: Result<Path>, attempt: nat)
    requires fs.Valid()
    modifies fs
    ensures fs.Valid()
    ensures r.Ok? <==> IsDirectoryIn(old(fs.entries), nativeDir)
    ensures forall j :: 0 <= j < attempt ==> Trial(nativeDir, classloaderName, now, j) in old(fs.entries)
    ensures r.Ok? ==> r.value == Trial(nativeDir, classloaderName, now, attempt) && r.value !in old(fs.entries) &&
                      fs.entries == old(fs.entries)[r.value := Directory(now)]
    ensures r.Err? ==> attempt == 0 && fs.entries == old(fs.entries) &&
                       r.error == IO("Unable to create native library working directory " +
                                     PathString(Trial(nativeDir, classloaderName, now, 0)))
  {
    ghost var m := fs.entries;
    attempt := 0;
    while true
      invariant fs.Valid() && fs.entries == m
      invariant forall j :: 0 <= j < attempt ==> Trial(nativeDir, classloaderName, now, j) in m
      invariant Trials(nativeDir, classloaderName, now, attempt) <= m.Keys
      decreases m.Keys - Trials(nativeDir, classloaderName, now, attempt)
    {
      var trial := Trial(nativeDir, classloaderName, now, attempt);
      var made := fs.Mkdir(trial, now);
      if made {
        return Ok(trial), attempt;
      }
      if fs.Exists(trial) {
        assert trial in m;
        NotYetTried(nativeDir, classloaderName, now, attempt, attempt);
        attempt := attempt + 1;
        continue;
      }
      InsideMeansDirectory(m, nativeDir);
      assert !IsDirectoryIn(m, nativeDir);
      assert Trial(nativeDir, classloaderName, now, 0) !in m;
      return Err(IO("Unable to create native library working directory " + PathString(trial))), attempt;
    }
  }

  /**
   * The directories of the constructor after the base extractor's start: a
   * fresh native directory from getTempDir and the JNI subdirectory inside
   * it. The native directory is new and empty, so mkdirs on it changes
   * nothing and the first candidate subdirectory is free: neither of the
   * constructor's own IOExceptions can happen, and this fails only when
   * getTempDir does. made is the disk after getTempDir's mkdirs; the two
   * directories are the only entries added to it.
   */
  method MakeDirectories(fs: FileSystem, props: Properties, cwd: Path, now: int, classloaderName: string)
    returns (r: Result<(Path, Path)>, ghost made: map<Path, Entry>)
    requires fs.Valid()
    modifies fs
    ensures fs.Valid()
    ensures MadeDirsNamed(old(fs.entries), made, cwd, TmpName(props), now)
    ensures r.Ok? <==> TmpName(props) != "" && NoFileOn(old(fs.entries), TmpDir(props, cwd))
    ensures r.Err? ==> fs.entries == made && r.error == IO("Unable to create temporary directory " + Normalize(TmpName(props)))
    ensures r.Ok? ==>
      var (nativeDir, jniDir) := r.value;
      nativeDir != [] && Parent(nativeDir) == TmpDir(props, cwd) && StartsWith(Name(nativeDir), TMP_PREFIX) &&
      nativeDir !in old(fs.entries) && IsDirectoryIn(fs.entries, nativeDir) &&
      jniDir == Trial(nativeDir, classloaderName, now, 0) && IsDirectoryIn(fs.entries, jniDir) &&
      (forall q :: q in fs.entries && Below(nativeDir, q) ==> q == jniDir) &&
      nativeDir !in made && fs.entries == made[nativeDir := Directory(now)][jniDir := Directory(now)]
  {
    var tempDir;
    tempDir, made := GetTempDir(fs, props, cwd, now);
    if tempDir.Err? {
      return Err(tempDir.error), made;
    }
    var nativeDir := tempDir.value;
    fs.Mkdirs(nativeDir, now);
    // The directory is already there, so the isDirectory check after
    // mkdirs always passes.
    assert fs.IsDirectory(nativeDir);
    ghost var before := fs.entries;
    var jniDir, attempt := CreateJniSubDir(fs, nativeDir, classloaderName, now);
    // Nothing is inside it, so the first candidate is free and the loop's
    // IOException cannot happen either.
    assert Trial(nativeDir, classloaderName, now, 0) !in before;
    assert jniDir.Ok? && attempt == 0;
    r := Ok((nativeDir, jniDir.value));
  }

  /**
   * new WebappJniExtractor(classloaderName): the base extractor's start,
   * with no library class (resource directories, then the sweep of
   * leftovers, which ends in the state swept), then the directories of
   * MakeDirectories, made after getTempDir's mkdirs. getNativeDir answers
   * the native directory and getJniDir the subdirectory.
   */
  method New(fs: FileSystem, props: Properties, host: MxSysInfo.Host, cwd: Path, now: int,
             ownLoader: Loader, classloaderName: string)
    returns (r: Result<JniExtractor>, ghost swept: map<Path, Entry>, ghost made: map<Path, Entry>)
    requires fs.Valid()
    modifies fs
    ensures fs.Valid()
    ensures var sysInfo := MxSysInfo.GetMxSysInfo(props, host);
      sysInfo.Err? ==> r == Err(sysInfo.error) && fs.entries == old(fs.entries)
    ensures var sysInfo := MxSysInfo.GetMxSysInfo(props, host);
      sysInfo.Ok? ==>
        SweptIn(old(fs.entries), swept, fs.locked, props, cwd, now) &&
        MadeDirsNamed(swept, made, cwd, TmpName(props), now) &&
        (r.Ok? <==> TmpName(props) != "" && NoFileOn(swept, TmpDir(props, cwd))) &&
        (r.Err? ==> fs.entries == made && r.error == IO("Unable to create temporary directory " + Normalize(TmpName(props)))) &&
        (r.Ok? ==> fresh(r.value) && r.value.Valid() && r.value.fs == fs &&
                   r.value.libraryJarLoader.None? && r.value.ownLoader == ownLoader &&
                   r.value.nativeResourcePaths == NativeResourcePaths(Some(sysInfo.value)))
    ensures r.Ok? ==>
      var nativeDir := r.value.nativeDir;
      nativeDir != [] && Parent(nativeDir) == TmpDir(props, cwd) && StartsWith(Name(nativeDir), TMP_PREFIX) &&
      nativeDir !in swept && IsDirectoryIn(fs.entries, nativeDir) &&
      r.value.jniDir == Trial(nativeDir, classloaderName, now, 0) && IsDirectoryIn(fs.entries, r.value.jniDir) &&
      (forall q :: q in fs.entries && Below(nativeDir, q) ==> q == r.value.jniDir) &&
      nativeDir !in made && fs.entries == made[nativeDir := Directory(now)][r.value.jniDir := Directory(now)]
  {
    swept := fs.entries;
    made := fs.entries;
    var paths := Init(fs, props, host, cwd, now);
    if paths.Err? {
      return Err(paths.error), swept, made;
    }
    swept := fs.entries;
    var dirs;
    dirs, made := MakeDirectories(fs, props, cwd, now, classloaderName);
    if dirs.Err? {
      return Err(dirs.error), swept, made;
    }
    var extractor := new JniExtractor(fs, None, ownLoader, paths.value, dirs.value.0, dirs.value.1);
    r := Ok(extractor);
  }
}
