/** Path strings as the synchroniser builds them: plain concatenation with
    "/", no normalisation, and the last "/"-separated segment as file name. */
module Paths {

  type Path = string

  /** `dir.'/'.name`, the only way the synchroniser builds paths. */
  function Join(dir: Path, name: string): Path
  {
    dir + "/" + name
  }

  /** The segment after the last "/" of `p` (all of `p` when it has none):
      what `array_pop(explode('/', p))` yields. */
  function Basename(p: Path): (r: string)
    ensures '/' !in r
  {
    if p == [] then []
    else if p[|p| - 1] == '/' then []
    else Basename(p[..|p| - 1]) + [p[|p| - 1]]
  }

  /** Basename is the longest suffix without "/": it is a suffix, and it is
      either all of `p` or preceded by a "/". */
  lemma {:induction false} BasenameIsLastSegment(p: Path)
    ensures |Basename(p)| <= |p| && Basename(p) == p[|p| - |Basename(p)|..]
    ensures |Basename(p)| < |p| ==> p[|p| - |Basename(p)| - 1] == '/'
  {
    if p != [] && p[|p| - 1] != '/' {
      var q := p[..|p| - 1];
      BasenameIsLastSegment(q);
      assert p[|p| - |Basename(p)|..] == p[|p| - |Basename(p)|..|p| - 1] + [p[|p| - 1]];
    }
  }

  /** The file name of a path built by Join is the name it was built from. */
  lemma BasenameOfJoin(dir: Path, name: string)
    requires '/' !in name
    ensures Basename(Join(dir, name)) == name
  {
    var p := Join(dir, name);
    BasenameIsLastSegment(p);
    assert p[|p| - |name|..] == name;
    assert p[|p| - |name| - 1] == '/';
  }

  /** A file name that `glob('Version*.php')` matches inside one directory. */
  predicate IsMigrationName(name: string)
  {
    && |name| >= |"Version"| + |".php"|
    && name[..|"Version"|] == "Version"
    && name[|name| - |".php"|..] == ".php"
    && '/' !in name
  }

  /** `f` lies somewhere below directory `dir`. */
  predicate Below(dir: Path, f: Path)
  {
    |dir| + 1 <= |f| && f[..|dir| + 1] == dir + "/"
  }

  /** `f` is a migration candidate directly inside `dir`. */
  predicate IsCandidateIn(dir: Path, f: Path)
  {
    Below(dir, f) && IsMigrationName(f[|dir| + 1..])
  }

  /** A candidate of `dir` is `dir` joined with its own file name. */
  lemma CandidateIsJoin(dir: Path, f: Path)
    requires IsCandidateIn(dir, f)
    ensures f == Join(dir, Basename(f)) && IsMigrationName(Basename(f))
  {
    var name := f[|dir| + 1..];
    assert f == Join(dir, name);
    BasenameOfJoin(dir, name);
  }
}
