/**
 * The part of java.io.File the extractors rely on, over an abstract file
 * tree: a map from paths (sequences of names, the empty path being the root)
 * to files, with their bytes, and directories, each with its last-modified
 * time. Files held open by another process cannot be deleted; they are the
 * set `locked`.
 */
module FileSystem {
  import opened JavaLang

  type Path = seq<string>

  datatype Entry = File(content: seq<byte>, lastModified: int) | Directory(lastModified: int)

  function Parent(p: Path): Path
    requires p != []
  {
    p[..|p| - 1]
  }

  /** new File(parent, child) for a child name without separators. */
  function Child(d: Path, name: string): (c: Path)
    ensures c != [] && Parent(c) == d
  {
    d + [name]
  }

  /** The last name of a path: File.getName(). */
  function Name(p: Path): string
    requires p != []
  {
    p[|p| - 1]
  }

  /**
   * The names between the separators of s, as the operating system walks
   * them: empty names and "." stay in the same directory.
   */
  function ToPath(s: string): Path
  {
    Names(Fields(s, '/'))
  }

  function Names(fields: seq<string>): Path
  {
    if fields == [] then []
    else if fields[0] == "" || fields[0] == "." then Names(fields[1..])
    else [fields[0]] + Names(fields[1..])
  }

  /**
   * new File(s), resolved against the working directory cwd unless s is
   * absolute. The empty pathname is the exception the callers test for
   * first: new File("") names no file, so it is never a directory, mkdirs
   * makes nothing for it and listFiles answers null.
   */
  function FileOf(cwd: Path, s: string): Path
  {
    if StartsWith(s, "/") then ToPath(s) else cwd + ToPath(s)
  }

  /** The text of a path, as File.toString writes an absolute path. */
  function PathString(p: Path): string
  {
    if p == [] then "" else PathString(Parent(p)) + "/" + Name(p)
  }

  /** No '/' follows another. */
  predicate NoDoubleSlash(s: string) {
    forall i :: 0 <= i < |s| - 1 ==> !(s[i] == '/' && s[i + 1] == '/')
  }

  /** A pathname as java.io.File keeps it on Unix: no repeated '/', no trailing '/' except the root's. */
  predicate Normal(s: string) {
    NoDoubleSlash(s) && (|s| > 1 ==> s[|s| - 1] != '/')
  }

  /** s with each run of '/' made one. */
  function CollapseSlashes(s: string): (r: string)
    ensures NoDoubleSlash(r)
    ensures |r| <= |s|
    ensures |s| > 0 ==> |r| > 0 && r[|r| - 1] == s[|s| - 1]
  {
    if |s| <= 1 then s
    else if s[|s| - 1] == '/' && s[|s| - 2] == '/' then CollapseSlashes(s[..|s| - 1])
    else CollapseSlashes(s[..|s| - 1]) + [s[|s| - 1]]
  }

  /**
   * The pathname new File(s) keeps, and so what File.toString returns, on
   * Unix: each run of '/' becomes one, then a trailing '/' goes unless it
   * is all there is.
   */
  function Normalize(s: string): (r: string)
    ensures Normal(r)
    ensures |r| <= |s|
    ensures s != [] ==> r != []
  {
    var c := CollapseSlashes(s);
    if |c| > 1 && c[|c| - 1] == '/' then c[..|c| - 1] else c
  }

  /** A pathname that is already normal is kept as it is; so Normalize is idempotent. */
  lemma {:induction false} NormalizeNormal(s: string)
    requires Normal(s)
    ensures Normalize(s) == s
  {
    CollapseNoDoubleSlash(s);
  }

  /** "/tmp/" prints as "/tmp", "a//b" as "a/b", and the root stays "/". */
  lemma PathnameExamples()
    ensures Normalize("/tmp/") == "/tmp"
    ensures Normalize("a//b") == "a/b"
    ensures Normalize("/") == "/"
  {
    CollapseNoDoubleSlash("/tmp/");
    assert "/tmp/"[..4] == "/tmp";
    CollapseNoDoubleSlash("a/");
    assert "a//"[..2] == "a/";
    assert CollapseSlashes("a//") == "a/";
    assert "a//b"[..3] == "a//";
    assert CollapseSlashes("a//b") == "a/" + "b";
  }

  lemma {:induction false} CollapseNoDoubleSlash(s: string)
    requires NoDoubleSlash(s)
    ensures CollapseSlashes(s) == s
  {
    if |s| > 1 {
      var t := s[..|s| - 1];
      assert NoDoubleSlash(t) by {
        forall i | 0 <= i < |t| - 1 ensures !(t[i] == '/' && t[i + 1] == '/') {
          assert t[i] == s[i] && t[i + 1] == s[i + 1];
        }
      }
      CollapseNoDoubleSlash(t);
      assert !(s[|s| - 2] == '/' && s[|s| - 1] == '/');
      assert t + [s[|s| - 1]] == s;
    }
  }

  /** q lies strictly inside the directory d. */
  predicate Below(d: Path, q: Path) {
    |d| < |q| && q[..|d|] == d
  }

  predicate IsDirectoryIn(m: map<Path, Entry>, p: Path) {
    p in m && m[p].Directory?
  }

  predicate IsFileIn(m: map<Path, Entry>, p: Path) {
    p in m && m[p].File?
  }

  /** The root is a directory and every other entry sits in a directory. */
  ghost predicate Tree(m: map<Path, Entry>) {
    IsDirectoryIn(m, []) &&
    forall p :: p in m && p != [] ==> IsDirectoryIn(m, Parent(p))
  }

  /** No prefix of p, p included, is a file: mkdirs can make p a directory. */
  predicate NoFileOn(m: map<Path, Entry>, p: Path) {
    forall k :: 0 <= k <= |p| ==> !IsFileIn(m, p[..k])
  }

  /** Every prefix of an entry of a tree is a directory. */
  lemma {:induction false} AncestorsAreDirectories(m: map<Path, Entry>, p: Path, k: nat)
    requires Tree(m) && p in m && k < |p|
    ensures IsDirectoryIn(m, p[..k])
    decreases |p| - k
  {
    if k == |p| - 1 {
      assert p[..k] == Parent(p);
    } else {
      AncestorsAreDirectories(m, p, k + 1);
      assert p[..k] == Parent(p[..k + 1]);
    }
  }

  /** Whatever lies inside p in a tree makes p a directory of the tree. */
  lemma InsideMeansDirectory(m: map<Path, Entry>, p: Path)
    requires Tree(m)
    ensures forall q :: q in m && Below(p, q) ==> IsDirectoryIn(m, p)
  {
    forall q | q in m && Below(p, q)
      ensures IsDirectoryIn(m, p)
    {
      AncestorsAreDirectories(m, q, |p|);
      assert q[..|p|] == p;
    }
  }

  /** An entry of a tree is a directory exactly when no prefix of it is a file. */
  lemma DirectoryIffNoFileOn(m: map<Path, Entry>, p: Path)
    requires Tree(m) && p in m
    ensures m[p].Directory? <==> NoFileOn(m, p)
  {
    forall k | 0 <= k < |p|
      ensures !IsFileIn(m, p[..k])
    {
      AncestorsAreDirectories(m, p, k);
    }
    assert p[..|p|] == p;
  }

  /**
   * m1 is m0 after mkdirs(p): p is a directory exactly when no prefix of p
   * was a file, every entry of m0 is kept, and the only entries added are
   * directories on the way to p.
   */
  ghost predicate MadeDirs(m0: map<Path, Entry>, m1: map<Path, Entry>, p: Path, now: int) {
    (IsDirectoryIn(m1, p) <==> NoFileOn(m0, p)) &&
    (forall q :: q in m0 ==> q in m1 && m1[q] == m0[q]) &&
    (forall q :: q in m1 && q !in m0 ==> q <= p && m1[q] == Directory(now))
  }

  /**
   * m1 is m0 after new File(name).mkdirs(), with name resolved against cwd:
   * nothing is made for the empty pathname, MadeDirs for any other.
   */
  ghost predicate MadeDirsNamed(m0: map<Path, Entry>, m1: map<Path, Entry>, cwd: Path, name: string, now: int) {
    if name == "" then m1 == m0 else MadeDirs(m0, m1, FileOf(cwd, name), now)
  }

  /** A missing path can become a directory exactly when its parent can. */
  lemma NoFileOnStep(m: map<Path, Entry>, p: Path)
    requires p != [] && p !in m
    ensures NoFileOn(m, p) <==> NoFileOn(m, Parent(p))
  {
    var parent := Parent(p);
    forall k | 0 <= k <= |parent|
      ensures p[..k] == parent[..k]
    {
    }
    if NoFileOn(m, parent) {
      forall k | 0 <= k <= |p|
        ensures !IsFileIn(m, p[..k])
      {
        if k == |p| {
          assert p[..k] == p;
        }
      }
    }
  }

  /** mkdirs(p) is mkdirs(parent) followed by mkdir(p) when the parent became a directory. */
  lemma MadeDirsStep(m0: map<Path, Entry>, m1: map<Path, Entry>, m2: map<Path, Entry>, p: Path, now: int)
    requires p != [] && p !in m0 && Tree(m1)
    requires MadeDirs(m0, m1, Parent(p), now)
    requires m2 == if IsDirectoryIn(m1, Parent(p)) then m1[p := Directory(now)] else m1
    ensures Tree(m2) && MadeDirs(m0, m2, p, now)
  {
    var parent := Parent(p);
    NoFileOnStep(m0, p);
    forall q | q in m1 && q !in m0
      ensures q <= p
    {
      assert q <= parent;
    }
    assert !(p <= parent);
  }

  /** Every finite set of lengths has a strict upper bound. */
  lemma {:induction false} LengthBound(s: set<nat>) returns (b: nat)
    ensures forall x :: x in s ==> x < b
  {
    if s == {} {
      b := 0;
    } else {
      var x :| x in s;
      var rest := LengthBound(s - {x});
      b := if x < rest then rest else x + 1;
      forall y | y in s
        ensures y < b
      {
        if y != x {
          assert y in s - {x};
        }
      }
    }
  }

  /** A finite tree leaves room, in every directory, for a name with any given prefix. */
  lemma FreshChild(m: map<Path, Entry>, dir: Path, prefix: string) returns (name: string)
    ensures Child(dir, prefix + name) !in m
  {
    var lengths := set q | q in m && q != [] :: |Name(q)|;
    var b := LengthBound(lengths);
    name := seq(b, _ => 'x');
    var c := Child(dir, prefix + name);
    assert |Name(c)| == |prefix| + b;
    assert forall q :: q in m && q != [] ==> |Name(q)| in lengths;
  }

  /** children lists exactly the entries directly inside d, each once. */
  ghost predicate ListsChildren(m: map<Path, Entry>, d: Path, children: seq<Path>) {
    (forall c :: c in children <==> c in m && c != [] && Parent(c) == d) &&
    (forall j, k :: 0 <= j < k < |children| ==> children[j] != children[k])
  }

  /** Finite sets listed in some order, as File.listFiles lists a directory. */
  method ListSet(s: set<Path>) returns (r: seq<Path>)
    ensures forall x :: x in r <==> x in s
    ensures forall i, j :: 0 <= i < j < |r| ==> r[i] != r[j]
  {
    r := [];
    var left := s;
    while left != {}
      invariant left <= s
      invariant forall x :: x in r <==> x in s && x !in left
      invariant forall i, j :: 0 <= i < j < |r| ==> r[i] != r[j]
      decreases left
    {
      var x :| x in left;
      r := r + [x];
      left := left - {x};
    }
  }

  class FileSystem {
    var entries: map<Path, Entry>
    const locked: set<Path>

    ghost predicate Valid()
      reads this
    {
      Tree(entries)
    }

    constructor (entries: map<Path, Entry>, locked: set<Path>)
      requires Tree(entries)
      ensures Valid() && this.entries == entries && this.locked == locked
    {
      this.entries := entries;
      this.locked := locked;
    }

    predicate Exists(p: Path)
      reads this
    {
      p in entries
    }

    predicate IsDirectory(p: Path)
      reads this
    {
      IsDirectoryIn(entries, p)
    }

    predicate IsFile(p: Path)
      reads this
    {
      IsFileIn(entries, p)
    }

    /** File.lastModified: 0 for a path that does not exist. */
    function LastModified(p: Path): (t: int)
      reads this
      ensures p !in entries ==> t == 0
    {
      if p in entries then entries[p].lastModified else 0
    }

    /** File.mkdir: creates p when it does not exist and its parent is a directory. */
    method Mkdir(p: Path, now: int) returns (ok: bool)
      requires Valid()
      modifies this
      ensures Valid()
      ensures ok <==> p != [] && p !in old(entries) && IsDirectoryIn(old(entries), Parent(p))
      ensures entries == if ok then old(entries)[p := Directory(now)] else old(entries)
    {
      ok := p != [] && p !in entries && IsDirectory(Parent(p));
      if ok {
        entries := entries[p := Directory(now)];
      }
    }

    /**
     * File.mkdirs: creates p and its missing parents. Afterwards p is a
     * directory exactly when no prefix of p was a file; only missing
     * prefixes of p are added, as directories; nothing changes when p is
     * already there.
     */
    method Mkdirs(p: Path, now: int)
      requires Valid()
      modifies this
      ensures Valid()
      ensures MadeDirs(old(entries), entries, p, now)
      ensures p in old(entries) ==> entries == old(entries)
      decreases |p|
    {
      if p in entries {
        DirectoryIffNoFileOn(entries, p);
        return;
      }
      var parent := Parent(p);
      ghost var before := entries;
      Mkdirs(parent, now);
      ghost var middle := entries;
      if IsDirectory(parent) {
        entries := entries[p := Directory(now)];
      }
      MadeDirsStep(before, middle, entries, p, now);
    }

    /**
     * File.delete: removes a file, or a directory with nothing inside; a
     * locked file and the root stay.
     */
    method Delete(p: Path) returns (ok: bool)
      requires Valid()
      modifies this
      ensures Valid()
      ensures ok <==> p != [] && p in old(entries) && p !in locked &&
                      !(exists q :: q in old(entries) && Below(p, q))
      ensures entries == if ok then old(entries) - {p} else old(entries)
    {
      ok := p != [] && p in entries && p !in locked && !(exists q :: q in entries && Below(p, q));
      if ok {
        forall q | q in entries && q != [] && q != p
          ensures Parent(q) != p
        {
          assert Parent(q) == p ==> Below(p, q);
        }
        entries := entries - {p};
      }
    }

    /** File.listFiles: the entries directly inside d, or null when d is not a directory. */
    method ListFiles(d: Path) returns (r: Option<seq<Path>>)
      ensures r.None? <==> !IsDirectory(d)
      ensures r.Some? ==> ListsChildren(entries, d, r.value)
    {
      if !IsDirectory(d) {
        return None;
      }
      var children := ListSet(set c | c in entries && c != [] && Parent(c) == d);
      r := Some(children);
    }

    /**
     * new FileOutputStream(p), the bytes written, then close(): p becomes a
     * file holding content. Opening fails with a FileNotFoundException when
     * p is a directory or its parent is not one.
     */
    method WriteFile(p: Path, content: seq<byte>, now: int) returns (ok: bool)
      requires Valid()
      modifies this
      ensures Valid()
      ensures ok <==> p != [] && IsDirectoryIn(old(entries), Parent(p)) && !IsDirectoryIn(old(entries), p)
      ensures entries == if ok then old(entries)[p := File(content, now)] else old(entries)
    {
      ok := p != [] && IsDirectory(Parent(p)) && !IsDirectory(p);
      if ok {
        forall q | q in entries && q != [] && Parent(q) == p
          ensures false
        {
        }
        entries := entries[p := File(content, now)];
      }
    }

    /**
     * Files.createTempDirectory(dir, prefix): a new directory inside dir whose
     * name is prefix followed by a name of the system's choosing that is not
     * in use yet.
     */
    method CreateTempDirectory(dir: Path, prefix: string, now: int) returns (r: Result<Path>)
      requires Valid()
      modifies this
      ensures Valid()
      ensures r.Ok? <==> IsDirectoryIn(old(entries), dir)
      ensures r.Ok? ==> r.value != [] && Parent(r.value) == dir && StartsWith(Name(r.value), prefix) &&
                        r.value !in old(entries) && entries == old(entries)[r.value := Directory(now)]
      ensures r.Err? ==> entries == old(entries) && r.error.IO?
    {
      ghost var unused := FreshChild(entries, dir, prefix);
      var randomName :| Child(dir, prefix + randomName) !in entries;
      var path := Child(dir, prefix + randomName);
      var ok := Mkdir(path, now);
      if ok {
        r := Ok(path);
      } else {
        r := Err(IO(PathString(dir)));
      }
    }
  }
}
