/**
 * DefaultJniExtractor: an extractor for one application per virtual machine.
 * Dependencies and JNI libraries go to the same directory, named by the
 * java.library.tmpdir property (or tmplib), which is created when missing.
 */
module DefaultJniExtractor {
  import opened JavaLang
  import opened FileSystem
  import opened BaseJniExtractor
  import MxSysInfo

  const LIBRARY_TMPDIR := "java.library.tmpdir"
  const DEFAULT_TMPLIB := "tmplib"

  /**
   * The name of the extractor's working directory: java.library.tmpdir, or
   * tmplib when that is not set. Both may be missing (null).
   */
  function NativeDirName(props: Properties, tmplib: Option<string>): Option<string>
  {
    match GetProperty(props, LIBRARY_TMPDIR)
    case Some(name) => Some(name)
    case None => tmplib
  }

  /**
   * new DefaultJniExtractor(libraryJarClass, tmplib): the base extractor's
   * start (resource directories, then the sweep of leftovers, which ends in
   * the state swept), then mkdirs on the working directory. Without a name
   * for that directory, new File(null) throws a NullPointerException. It
   * fails with an IOException when the working directory is not a directory
   * after mkdirs, which happens exactly when its name is the empty pathname
   * (which mkdirs leaves alone) or a file lies on its path.
   * getJniDir and getNativeDir both answer the working directory.
   */
  method New(fs: FileSystem, props: Properties, host: MxSysInfo.Host, cwd: Path, now: int,
             libraryJarLoader: Option<Loader>, ownLoader: Loader, tmplib: Option<string>)
    returns (r: Result<JniExtractor>, ghost swept: map<Path, Entry>)
    requires fs.Valid()
    modifies fs
    ensures fs.Valid()
    ensures var sysInfo := MxSysInfo.GetMxSysInfo(props, host);
      sysInfo.Err? ==> r == Err(sysInfo.error) && fs.entries == old(fs.entries)
    ensures var sysInfo := MxSysInfo.GetMxSysInfo(props, host);
      sysInfo.Ok? ==>
        SweptIn(old(fs.entries), swept, fs.locked, props, cwd, now) &&
        (NativeDirName(props, tmplib).None? ==> r == Err(NullPointer) && fs.entries == swept)
    ensures var sysInfo := MxSysInfo.GetMxSysInfo(props, host);
      var name := NativeDirName(props, tmplib);
      sysInfo.Ok? && name.Some? ==>
        var dir := FileOf(cwd, name.value);
        MadeDirsNamed(swept, fs.entries, cwd, name.value, now) &&
        (r.Ok? <==> name.value != "" && NoFileOn(swept, dir)) &&
        (r.Err? ==> r.error == IO("Unable to create native library working directory " + Normalize(name.value))) &&
        (r.Ok? ==> fresh(r.value) && r.value.Valid() && r.value.fs == fs &&
                   r.value.libraryJarLoader == libraryJarLoader && r.value.ownLoader == ownLoader &&
                   r.value.nativeResourcePaths == NativeResourcePaths(Some(sysInfo.value)) &&
                   r.value.nativeDir == dir && r.value.jniDir == dir && IsDirectoryIn(fs.entries, dir))
  {
    swept := fs.entries;
    var paths := Init(fs, props, host, cwd, now);
    if paths.Err? {
      return Err(paths.error), swept;
    }
    swept := fs.entries;
    var name := NativeDirName(props, tmplib);
    if name.None? {
      return Err(NullPointer), swept;
    }
    if name.value == "" {
      // new File("") is no directory, and mkdirs makes nothing for it
      return Err(IO("Unable to create native library working directory " + Normalize(name.value))), swept;
    }
    var nativeDir := FileOf(cwd, name.value);
    fs.Mkdirs(nativeDir, now);
    if !fs.IsDirectory(nativeDir) {
      return Err(IO("Unable to create native library working directory " + Normalize(name.value))), swept;
    }
    var extractor := new JniExtractor(fs, libraryJarLoader, ownLoader, paths.value, nativeDir, nativeDir);
    r := Ok(extractor);
  }

  /** new DefaultJniExtractor(): no library class, and tmplib as the fallback directory. */
  method NewDefault(fs: FileSystem, props: Properties, host: MxSysInfo.Host, cwd: Path, now: int, ownLoader: Loader)
    returns (r: Result<JniExtractor>, ghost swept: map<Path, Entry>)
    requires fs.Valid()
    modifies fs
    ensures fs.Valid()
    ensures var sysInfo := MxSysInfo.GetMxSysInfo(props, host);
      sysInfo.Err? ==> r == Err(sysInfo.error) && fs.entries == old(fs.entries)
    ensures var sysInfo := MxSysInfo.GetMxSysInfo(props, host);
      var name := GetPropertyOr(props, LIBRARY_TMPDIR, DEFAULT_TMPLIB);
      var dir := FileOf(cwd, name);
      sysInfo.Ok? ==>
        SweptIn(old(fs.entries), swept, fs.locked, props, cwd, now) &&
        MadeDirsNamed(swept, fs.entries, cwd, name, now) &&
        (r.Ok? <==> name != "" && NoFileOn(swept, dir)) &&
        (r.Err? ==> r.error == IO("Unable to create native library working directory " + Normalize(name))) &&
        (r.Ok? ==> fresh(r.value) && r.value.Valid() && r.value.fs == fs &&
                   r.value.libraryJarLoader.None? && r.value.ownLoader == ownLoader &&
                   r.value.nativeResourcePaths == NativeResourcePaths(Some(sysInfo.value)) &&
                   r.value.nativeDir == dir && r.value.jniDir == dir && IsDirectoryIn(fs.entries, dir))
  {
    r, swept := New(fs, props, host, cwd, now, None, ownLoader, Some(DEFAULT_TMPLIB));
  }
}
