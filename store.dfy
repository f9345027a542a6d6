/** The filesystem as the synchroniser sees it: regular files with their
    contents, explicitly created directories, and a content fingerprint. */
module Store {
  import opened Paths

  type Content = seq<bv8>
  type Digest = seq<bv8>

  /** A snapshot of the filesystem. */
  datatype Disk = Disk(files: map<Path, Content>, dirs: set<Path>)

  /** `file_exists(p)`: a regular file, a directory, or a directory that
      holds some file. */
  predicate Exists(d: Disk, p: Path)
  {
    p in d.files || p in d.dirs || exists f | f in d.files :: Below(p, f)
  }

  /** `md5_file(p)`: the fingerprint of a regular file, none otherwise. */
  function FingerprintAt(fingerprint: Content -> Digest, d: Disk, p: Path): (r: Option<Digest>)
    ensures r.Some? <==> p in d.files
    ensures p in d.files ==> r.value == fingerprint(d.files[p])
  {
    if p in d.files then Some(fingerprint(d.files[p])) else None
  }

  /** `glob(dir.'/Version*.php')`, as a set of paths. */
  function Candidates(d: Disk, dir: Path): (r: set<Path>)
    ensures forall f :: f in r <==> f in d.files && IsCandidateIn(dir, f)
  {
    set f | f in d.files.Keys && IsCandidateIn(dir, f)
  }

  /** The disk after `target` has been written with `content`. */
  function Put(d: Disk, target: Path, content: Content): Disk
  {
    d.(files := d.files[target := content])
  }

  /** `Filesystem::copy` succeeds: the source is a regular file and the
      target is a regular file or does not exist. */
  predicate CanCopy(d: Disk, source: Path, target: Path)
  {
    source in d.files && (target in d.files || !Exists(d, target))
  }

  /** Writing a file never makes an existing path disappear. */
  lemma ExistsAfterPut(d: Disk, target: Path, content: Content, p: Path)
    requires Exists(d, p)
    ensures Exists(Put(d, target, content), p)
  {
    if p !in d.files && p !in d.dirs {
      var f :| f in d.files && Below(p, f);
      assert f in Put(d, target, content).files;
    }
  }

  /** `s` lists every element of `S` exactly once, in some order. */
  ghost predicate IsEnumeration(s: seq<Path>, S: set<Path>)
  {
    && (forall x :: x in S <==> x in s)
    && (forall i, j :: 0 <= i < j < |s| ==> s[i] != s[j])
  }

  datatype Option<T> = None | Some(value: T)

  /** The mutable filesystem the synchroniser reads and writes. */
  class FileSystem {
    var files: map<Path, Content>
    var dirs: set<Path>
    /** The digest `md5_file` computes; only its being a function of the
        content is relied on. */
    const fingerprint: Content -> Digest

    constructor (files: map<Path, Content>, dirs: set<Path>, fingerprint: Content -> Digest)
      ensures this.files == files && this.dirs == dirs && this.fingerprint == fingerprint
    {
      this.files := files;
      this.dirs := dirs;
      this.fingerprint := fingerprint;
    }

    function View(): Disk
      reads this
    {
      Disk(files, dirs)
    }

    method FileExists(p: Path) returns (b: bool)
      ensures b == Exists(View(), p)
    {
      b := p in files || p in dirs || exists f | f in files.Keys :: Below(p, f);
    }

    method Md5File(p: Path) returns (r: Option<Digest>)
      ensures r == FingerprintAt(fingerprint, View(), p)
    {
      r := if p in files then Some(fingerprint(files[p])) else None;
    }

    /** `glob`: the candidates of `dir`, in an order the filesystem chooses. */
    method Glob(dir: Path) returns (paths: seq<Path>)
      ensures IsEnumeration(paths, Candidates(View(), dir))
    {
      var remaining := set f | f in files.Keys && IsCandidateIn(dir, f);
      paths := [];
      while remaining != {}
        invariant forall x :: x in Candidates(View(), dir) <==> x in paths || x in remaining
        invariant forall x :: x in paths ==> x !in remaining
        invariant forall i, j :: 0 <= i < j < |paths| ==> paths[i] != paths[j]
        decreases |remaining|
      {
        var f :| f in remaining;
        paths := paths + [f];
        remaining := remaining - {f};
      }
    }

    /** `Filesystem::copy(source, target)`: fails when the source is not a
        regular file or the target is an existing non-file; otherwise the
        target holds the source's content and nothing else changes. */
    method Copy(source: Path, target: Path) returns (ok: bool)
      modifies this
      ensures ok == CanCopy(old(View()), source, target)
      ensures View() == if ok then Put(old(View()), target, old(files)[source]) else old(View())
    {
      var targetExists := FileExists(target);
      ok := source in files && (target in files || !targetExists);
      if ok {
        files := files[target := files[source]];
      }
    }
  }
}
