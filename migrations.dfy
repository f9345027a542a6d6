/** The migration synchroniser (`Migrations` in Composer/Migrations.php):
    copies the `Version*.php` files of every installed package into the
    project's migrations directory, asking before it overwrites a file
    whose content differs.

    Each operation is given twice: a function over a World value that says
    what the operation does, and a method over the mutable FileSystem and
    ConsoleIO objects, proved to follow that function. */
module Migrations {
  import opened Paths
  import opened Store
  import opened Console

  /** The two keys of a package's `extra` section the synchroniser reads. */
  datatype Extra = Extra(appMigrationsDir: Option<string>, migrationSourceDir: Option<seq<string>>)

  datatype Package = Package(extra: Extra)

  /** A package together with the path it is installed at. */
  datatype Installed = Installed(path: Path, package: Package)

  /** The exceptions that abort a run. */
  datatype Error =
    | SourceDirNotFound(dir: Path)          // the RuntimeException of handlePackage
    | CopyFailed(source: Path, target: Path) // an IOException of Filesystem::copy

  datatype Result<T> = Ok(value: T) | Err(error: Error)

  /** Everything an operation can observe or change. */
  datatype World = World(disk: Disk, channel: Channel)

  /** The world after an operation, with its result. After an error the
      world is the one at the moment of the error: nothing is rolled back. */
  datatype Outcome<T> = Outcome(world: World, result: Result<T>)

  /** Where packages keep their migrations unless they say otherwise. */
  const DefaultSuffixes: seq<string> := ["Resources/migrations", "migrations"]

  /** getDestinationDir: the project root joined with the root package's
      `app-migrations-dir`, or with `migrations` when that key is absent. */
  function DestinationDir(projectRoot: Path, root: Extra): (r: Path)
    ensures root.appMigrationsDir.Some? ==> r == projectRoot + "/" + root.appMigrationsDir.value
    ensures root.appMigrationsDir.None? ==> r == projectRoot + "/migrations"
  {
    if root.appMigrationsDir.Some? then Join(projectRoot, root.appMigrationsDir.value)
    else Join(projectRoot, "migrations")
  }

  /** Where a candidate is copied to: the destination joined with its file name. */
  function Target(destDir: Path, source: Path): (r: Path)
    ensures Below(destDir, r)
  {
    Join(destDir, Basename(source))
  }

  /** The copy step shared by the "absent" and the "confirmed" cases. */
  function CopyTo(w: World, source: Path, target: Path): (r: Outcome<bool>)
    ensures r.result.Ok? <==> CanCopy(w.disk, source, target)
    ensures r.result.Ok? ==> && r.result.value
                             && r.world.disk == Put(w.disk, target, w.disk.files[source])
                             && r.world.channel == Write(w.channel, Imported(Basename(source)))
    ensures r.result.Err? ==> r == Outcome(w, Err(CopyFailed(source, target)))
  {
    if CanCopy(w.disk, source, target) then
      Outcome(World(Put(w.disk, target, w.disk.files[source]),
                    Write(w.channel, Imported(Basename(source)))),
              Ok(true))
    else
      Outcome(w, Err(CopyFailed(source, target)))
  }

  /** checkAndMoveFile: copy when the target is absent, skip silently when
      its fingerprint equals the source's, otherwise ask once (default no)
      and copy only on yes. */
  function MoveFile(fingerprint: Content -> Digest, w: World, source: Path, destDir: Path): (r: Outcome<bool>)
    // an absent target: copied, and nobody is asked
    ensures !Exists(w.disk, Target(destDir, source)) ==>
      r.world.channel.prompts == w.channel.prompts &&
      (source in w.disk.files ==> r.result == Ok(true))
    // an equal target: nothing happens at all
    ensures Exists(w.disk, Target(destDir, source))
            && FingerprintAt(fingerprint, w.disk, Target(destDir, source)) == FingerprintAt(fingerprint, w.disk, source)
      ==> r == Outcome(w, Ok(false))
    // a differing target: exactly one question, and a copy exactly on yes
    ensures Exists(w.disk, Target(destDir, source))
            && FingerprintAt(fingerprint, w.disk, Target(destDir, source)) != FingerprintAt(fingerprint, w.disk, source)
      ==> var (yes, c) := Ask(w.channel, Prompt(source, Target(destDir, source), false));
          r.world.channel.prompts == c.prompts && r.world.channel.answers == c.answers &&
          (r.result == Ok(true) ==> yes) &&
          (!yes ==> r == Outcome(w.(channel := c), Ok(false))) &&
          (yes && source in w.disk.files && Target(destDir, source) in w.disk.files ==> r.result == Ok(true))
    // the only change a copy makes is the target holding the source's content
    ensures r.result == Ok(true) ==>
      source in w.disk.files &&
      r.world.disk == Put(w.disk, Target(destDir, source), w.disk.files[source]) &&
      r.world.channel.output == w.channel.output + [Imported(Basename(source))]
    ensures r.result != Ok(true) ==> r.world.disk == w.disk && r.world.channel.output == w.channel.output
    ensures r.result.Err? ==> r.result.error == CopyFailed(source, Target(destDir, source))
    // afterwards the target exists, whatever was decided
    ensures r.result.Ok? ==> Exists(r.world.disk, Target(destDir, source))
  {
    var target := Target(destDir, source);
    if !Exists(w.disk, target) then CopyTo(w, source, target)
    else if FingerprintAt(fingerprint, w.disk, target) == FingerprintAt(fingerprint, w.disk, source) then
      Outcome(w, Ok(false))
    else
      var (yes, c) := Ask(w.channel, Prompt(source, target, false));
      if yes then CopyTo(w.(channel := c), source, target)
      else Outcome(w.(channel := c), Ok(false))
  }

  /** The candidate loop of handlePackage: every candidate of `order` is
      handed to MoveFile, in order, and the results are or-ed; an error
      stops the loop. */
  function MoveAll(fingerprint: Content -> Digest, w: World, order: seq<Path>, destDir: Path): (r: Outcome<bool>)
    // the only error of the candidate loop is a failed copy
    ensures r.result.Err? ==> r.result.error.CopyFailed?
    decreases |order|
  {
    if order == [] then Outcome(w, Ok(false))
    else
      var before := MoveAll(fingerprint, w, order[..|order| - 1], destDir);
      if before.result.Err? then before
      else
        var step := MoveFile(fingerprint, before.world, order[|order| - 1], destDir);
        if step.result.Err? then step
        else Outcome(step.world, Ok(before.result.value || step.result.value))
  }

  /** Which source directory a package's migrations are taken from. */
  datatype Selection =
    | Found(dir: Path)     // the first listed directory that exists
    | NoneFound            // no listed directory exists, and none is required
    | Missing(dir: Path)   // an explicitly listed directory that does not exist

  /** The suffix walk of handlePackage, from `suffixes[0]` on. */
  function SelectFrom(d: Disk, packagePath: Path, suffixes: seq<string>, explicit: bool): (r: Selection)
    ensures r.Found? ==> Exists(d, r.dir)
    ensures r.Missing? ==> explicit && suffixes != [] && r.dir == Join(packagePath, suffixes[0]) && !Exists(d, r.dir)
    ensures explicit ==> (r.NoneFound? <==> suffixes == [])
  {
    if suffixes == [] then NoneFound
    else
      var dir := Join(packagePath, suffixes[0]);
      if Exists(d, dir) then Found(dir)
      else if explicit then Missing(dir)
      else SelectFrom(d, packagePath, suffixes[1..], explicit)
  }

  /** The `migration-source-dir` list, or the default pair. */
  function Suffixes(extra: Extra): seq<string>
  {
    if extra.migrationSourceDir.Some? then extra.migrationSourceDir.value else DefaultSuffixes
  }

  function SelectDir(d: Disk, p: Installed): Selection
  {
    SelectFrom(d, p.path, Suffixes(p.package.extra), p.package.extra.migrationSourceDir.Some?)
  }

  /** handlePackage, for the candidates of the selected directory listed in `order`. */
  function HandleSpec(fingerprint: Content -> Digest, w: World, p: Installed, destDir: Path, order: seq<Path>): (r: Outcome<bool>)
    // without a source directory nothing changes; a missing one is the only cause of SourceDirNotFound
    ensures !SelectDir(w.disk, p).Found? ==> r.world == w
    ensures (r.result.Err? && r.result.error.SourceDirNotFound?) <==> SelectDir(w.disk, p).Missing?
  {
    match SelectDir(w.disk, p)
    case Found(_) => MoveAll(fingerprint, w, order, destDir)
    case NoneFound => Outcome(w, Ok(false))
    case Missing(dir) => Outcome(w, Err(SourceDirNotFound(dir)))
  }

  /** `order` is the listing `glob` may return for `p` on disk `d`. */
  ghost predicate FitsOrder(d: Disk, p: Installed, order: seq<Path>)
  {
    match SelectDir(d, p)
    case Found(dir) => IsEnumeration(order, Candidates(d, dir))
    case _ => order == []
  }

  /** The packages of a run: the root package at '.', then the installed ones. */
  function RunList(root: Package, installed: seq<Installed>): seq<Installed>
  {
    [Installed(".", root)] + installed
  }

  /** The package loop of synchronizeMigrations: one handlePackage result
      per package, in order; an error ends the run. */
  function DriveSpec(fingerprint: Content -> Digest, w: World, destDir: Path,
                     pkgs: seq<Installed>, orders: seq<seq<Path>>): (r: Outcome<seq<bool>>)
    requires |orders| == |pkgs|
    ensures r.result.Ok? ==> |r.result.value| == |pkgs|
    decreases |pkgs|
  {
    if pkgs == [] then Outcome(w, Ok([]))
    else
      var n := |pkgs| - 1;
      var before := DriveSpec(fingerprint, w, destDir, pkgs[..n], orders[..n]);
      if before.result.Err? then Outcome(before.world, Err(before.result.error))
      else
        var step := HandleSpec(fingerprint, before.world, pkgs[n], destDir, orders[n]);
        if step.result.Err? then Outcome(step.world, Err(step.result.error))
        else Outcome(step.world, Ok(before.result.value + [step.result.value]))
  }

  /** Every listing of a run is one `glob` may return at the moment it runs. */
  ghost predicate FitsRun(fingerprint: Content -> Digest, w: World, destDir: Path,
                          pkgs: seq<Installed>, orders: seq<seq<Path>>)
    requires |orders| == |pkgs|
    decreases |pkgs|
  {
    pkgs != [] ==>
      var n := |pkgs| - 1;
      && FitsRun(fingerprint, w, destDir, pkgs[..n], orders[..n])
      && var before := DriveSpec(fingerprint, w, destDir, pkgs[..n], orders[..n]);
         before.result.Ok? ==> FitsOrder(before.world.disk, pkgs[n], orders[n])
  }

  /** synchronizeMigrations: all packages, then the advisory exactly when
      some package imported a file. The result says whether it was written. */
  function RunSpec(fingerprint: Content -> Digest, w: World, projectRoot: Path,
                   root: Package, installed: seq<Installed>, orders: seq<seq<Path>>): (r: Outcome<bool>)
    requires |orders| == |installed| + 1
    // the advisory touches no file, and the run fails exactly when a package failed
    ensures var o := DriveSpec(fingerprint, w, DestinationDir(projectRoot, root.extra), RunList(root, installed), orders);
            && r.world.disk == o.world.disk
            && r.world.channel.prompts == o.world.channel.prompts
            && (r.result.Err? <==> o.result.Err?)
  {
    var o := DriveSpec(fingerprint, w, DestinationDir(projectRoot, root.extra), RunList(root, installed), orders);
    if o.result.Err? then Outcome(o.world, Err(o.result.error))
    else
      var any := true in o.result.value;
      Outcome(if any then o.world.(channel := Write(o.world.channel, Advisory)) else o.world, Ok(any))
  }

  // ---------------------------------------------------------------------
  // The imperative synchroniser

  function WorldOf(fs: FileSystem, io: ConsoleIO): World
    reads fs, io
  {
    World(fs.View(), io.View())
  }

  method CheckAndMoveFile(fs: FileSystem, io: ConsoleIO, source: Path, destDir: Path) returns (r: Result<bool>)
    modifies fs, io
    ensures Outcome(WorldOf(fs, io), r) == MoveFile(fs.fingerprint, old(WorldOf(fs, io)), source, destDir)
  {
    ghost var w0 := WorldOf(fs, io);
    ghost var spec := MoveFile(fs.fingerprint, w0, source, destDir);
    var filename := Basename(source);
    var target := Join(destDir, filename);
    var doTheMove: bool;
    var targetExists := fs.FileExists(target);
    if targetExists {
      var targetDigest := fs.Md5File(target);
      var sourceDigest := fs.Md5File(source);
      if targetDigest == sourceDigest {
        assert spec == Outcome(w0, Ok(false));
        doTheMove := false;
      } else {
        doTheMove := io.AskConfirmation(Prompt(source, target, false));
        assert spec == if doTheMove then CopyTo(WorldOf(fs, io), source, target)
                       else Outcome(WorldOf(fs, io), Ok(false));
      }
    } else {
      assert spec == CopyTo(w0, source, target);
      doTheMove := true;
    }
    if doTheMove {
      ghost var w1 := WorldOf(fs, io);
      var ok := fs.Copy(source, target);
      if !ok {
        assert CopyTo(w1, source, target) == Outcome(w1, Err(CopyFailed(source, target)));
        return Err(CopyFailed(source, target));
      }
      io.WriteMessage(Imported(filename));
      assert CopyTo(w1, source, target) == Outcome(WorldOf(fs, io), Ok(true));
      return Ok(true);
    }
    return Ok(false);
  }

  /** The `foreach (glob(...) as $fullPath)` loop of handlePackage. */
  method MoveCandidates(fs: FileSystem, io: ConsoleIO, paths: seq<Path>, destDir: Path) returns (r: Result<bool>)
    modifies fs, io
    ensures Outcome(WorldOf(fs, io), r) == MoveAll(fs.fingerprint, old(WorldOf(fs, io)), paths, destDir)
  {
    ghost var w0 := WorldOf(fs, io);
    var foundFile := false;
    var k := 0;
    while k < |paths|
      invariant 0 <= k <= |paths|
      invariant MoveAll(fs.fingerprint, w0, paths[..k], destDir) == Outcome(WorldOf(fs, io), Ok(foundFile))
    {
      var result := CheckAndMoveFile(fs, io, paths[k], destDir);
      assert paths[..k + 1][..k] == paths[..k];
      if result.Err? {
        MoveAllErrorSticks(fs.fingerprint, w0, paths, destDir, k + 1);
        return result;
      }
      // remember that a file was moved, whatever later candidates return
      foundFile := if foundFile then foundFile else result.value;
      k := k + 1;
    }
    assert paths[..|paths|] == paths;
    return Ok(foundFile);
  }

  method HandlePackage(fs: FileSystem, io: ConsoleIO, p: Installed, destDir: Path)
    returns (r: Result<bool>, ghost order: seq<Path>)
    modifies fs, io
    ensures FitsOrder(old(fs.View()), p, order)
    ensures Outcome(WorldOf(fs, io), r) == HandleSpec(fs.fingerprint, old(WorldOf(fs, io)), p, destDir, order)
  {
    ghost var w0 := WorldOf(fs, io);
    var extra := p.package.extra;
    var installSuffixes := if extra.migrationSourceDir.Some? then extra.migrationSourceDir.value else DefaultSuffixes;
    var explicit := extra.migrationSourceDir.Some?;
    order := [];
    var i := 0;
    while i < |installSuffixes|
      invariant 0 <= i <= |installSuffixes|
      invariant WorldOf(fs, io) == w0
      invariant SelectFrom(w0.disk, p.path, installSuffixes[i..], explicit) == SelectDir(w0.disk, p)
    {
      var migrationDir := Join(p.path, installSuffixes[i]);
      var dirExists := fs.FileExists(migrationDir);
      if dirExists {
        var paths := fs.Glob(migrationDir);
        order := paths;
        r := MoveCandidates(fs, io, paths, destDir);
        return r, order;
      } else if explicit {
        return Err(SourceDirNotFound(migrationDir)), order;
      }
      assert installSuffixes[i..][1..] == installSuffixes[i + 1..];
      i := i + 1;
    }
    return Ok(false), order;
  }

  /** Once a prefix of the run has failed, the whole run fails the same way. */
  lemma {:induction false} DriveErrorSticks(fingerprint: Content -> Digest, w: World, destDir: Path,
                                            pkgs: seq<Installed>, orders: seq<seq<Path>>, k: nat)
    requires |orders| == |pkgs| && k <= |pkgs|
    requires DriveSpec(fingerprint, w, destDir, pkgs[..k], orders[..k]).result.Err?
    requires FitsRun(fingerprint, w, destDir, pkgs[..k], orders[..k])
    ensures DriveSpec(fingerprint, w, destDir, pkgs, orders) == DriveSpec(fingerprint, w, destDir, pkgs[..k], orders[..k])
    ensures FitsRun(fingerprint, w, destDir, pkgs, orders)
    decreases |pkgs| - k
  {
    if k == |pkgs| {
      assert pkgs[..k] == pkgs && orders[..k] == orders;
    } else {
      var n := |pkgs| - 1;
      if k < n {
        assert pkgs[..n][..k] == pkgs[..k] && orders[..n][..k] == orders[..k];
        DriveErrorSticks(fingerprint, w, destDir, pkgs[..n], orders[..n], k);
      } else {
        assert pkgs[..n] == pkgs[..k] && orders[..n] == orders[..k];
      }
    }
  }

  /** Once a candidate has failed, the rest of the candidate loop is skipped. */
  lemma {:induction false} MoveAllErrorSticks(fingerprint: Content -> Digest, w: World, order: seq<Path>,
                                              destDir: Path, k: nat)
    requires k <= |order|
    requires MoveAll(fingerprint, w, order[..k], destDir).result.Err?
    ensures MoveAll(fingerprint, w, order, destDir) == MoveAll(fingerprint, w, order[..k], destDir)
    decreases |order| - k
  {
    if k == |order| {
      assert order[..k] == order;
    } else {
      var n := |order| - 1;
      if k < n {
        assert order[..n][..k] == order[..k];
        MoveAllErrorSticks(fingerprint, w, order[..n], destDir, k);
      } else {
        assert order[..n] == order[..k];
      }
    }
  }

  /** Package `j` handled after a run over the packages before it that has
      gone well so far. */
  lemma DriveStep(fingerprint: Content -> Digest, w: World, destDir: Path,
                  pkgs: seq<Installed>, j: nat, orders: seq<seq<Path>>, order: seq<Path>)
    requires j < |pkgs| && |orders| == j
    requires DriveSpec(fingerprint, w, destDir, pkgs[..j], orders).result.Ok?
    requires FitsRun(fingerprint, w, destDir, pkgs[..j], orders)
    requires FitsOrder(DriveSpec(fingerprint, w, destDir, pkgs[..j], orders).world.disk, pkgs[j], order)
    ensures FitsRun(fingerprint, w, destDir, pkgs[..j + 1], orders + [order])
    ensures var before := DriveSpec(fingerprint, w, destDir, pkgs[..j], orders);
            var step := HandleSpec(fingerprint, before.world, pkgs[j], destDir, order);
            DriveSpec(fingerprint, w, destDir, pkgs[..j + 1], orders + [order])
            == if step.result.Err? then Outcome(step.world, Err(step.result.error))
               else Outcome(step.world, Ok(before.result.value + [step.result.value]))
  {
    assert pkgs[..j + 1][..j] == pkgs[..j] && (orders + [order])[..j] == orders;
    assert pkgs[..j + 1][j] == pkgs[j];
  }

  /** Glob orders for packages a failed run never reached. */
  function Unreached(n: nat): (r: seq<seq<Path>>)
    ensures |r| == n
  {
    seq(n, _ => [])
  }

  /** A run whose first `k` packages end in an error fails with that error,
      whatever follows. */
  lemma DriveFailsEarly(fingerprint: Content -> Digest, w: World, destDir: Path,
                        pkgs: seq<Installed>, done: seq<seq<Path>>, k: nat)
    requires k == |done| && k <= |pkgs|
    requires FitsRun(fingerprint, w, destDir, pkgs[..k], done)
    requires DriveSpec(fingerprint, w, destDir, pkgs[..k], done).result.Err?
    ensures var orders := done + Unreached(|pkgs| - k);
            && FitsRun(fingerprint, w, destDir, pkgs, orders)
            && DriveSpec(fingerprint, w, destDir, pkgs, orders) == DriveSpec(fingerprint, w, destDir, pkgs[..k], done)
  {
    var orders := done + Unreached(|pkgs| - k);
    assert orders[..k] == done;
    DriveErrorSticks(fingerprint, w, destDir, pkgs, orders, k);
  }

  /** The run after package `j`, given that handling it turned the world
    the earlier packages left into `now` with `result`. */
  lemma NextStep(fingerprint: Content -> Digest, w0: World, destDir: Path, packages: seq<Installed>, j: nat,
                 orders: seq<seq<Path>>, order: seq<Path>, now: World, result: Result<bool>)
    requires j < |packages| && |orders| == j
    requires FitsRun(fingerprint, w0, destDir, packages[..j], orders)
    requires DriveSpec(fingerprint, w0, destDir, packages[..j], orders).result.Ok?
    requires var before := DriveSpec(fingerprint, w0, destDir, packages[..j], orders);
             && FitsOrder(before.world.disk, packages[j], order)
             && Outcome(now, result) == HandleSpec(fingerprint, before.world, packages[j], destDir, order)
    ensures FitsRun(fingerprint, w0, destDir, packages[..j + 1], orders + [order])
    ensures var before := DriveSpec(fingerprint, w0, destDir, packages[..j], orders);
            DriveSpec(fingerprint, w0, destDir, packages[..j + 1], orders + [order])
            == Outcome(now, if result.Err? then Err(result.error) else Ok(before.result.value + [result.value]))
    ensures result.Err? ==>
      var all := orders + [order] + Unreached(|packages| - j - 1);
      && FitsRun(fingerprint, w0, destDir, packages, all)
      && DriveSpec(fingerprint, w0, destDir, packages, all) == Outcome(now, Err(result.error))
  {
    DriveStep(fingerprint, w0, destDir, packages, j, orders, order);
    if result.Err? {
      DriveFailsEarly(fingerprint, w0, destDir, packages, orders + [order], j + 1);
    }
  }

  /** One turn of the package loop: package `j` handled after a run that
      has gone well so far. */
  method HandleNext(fs: FileSystem, io: ConsoleIO, packages: seq<Installed>, j: nat,
                    ghost w0: World, ghost orders: seq<seq<Path>>, destDir: Path)
    returns (result: Result<bool>, ghost order: seq<Path>)
    requires j < |packages| && |orders| == j
    requires FitsRun(fs.fingerprint, w0, destDir, packages[..j], orders)
    requires DriveSpec(fs.fingerprint, w0, destDir, packages[..j], orders).result.Ok?
    requires DriveSpec(fs.fingerprint, w0, destDir, packages[..j], orders).world == WorldOf(fs, io)
    modifies fs, io
    ensures FitsRun(fs.fingerprint, w0, destDir, packages[..j + 1], orders + [order])
    ensures var before := DriveSpec(fs.fingerprint, w0, destDir, packages[..j], orders);
            DriveSpec(fs.fingerprint, w0, destDir, packages[..j + 1], orders + [order])
            == Outcome(WorldOf(fs, io), if result.Err? then Err(result.error)
                                        else Ok(before.result.value + [result.value]))
    // an error ends the run, whatever the packages left are
    ensures result.Err? ==>
      var all := orders + [order] + Unreached(|packages| - j - 1);
      && FitsRun(fs.fingerprint, w0, destDir, packages, all)
      && DriveSpec(fs.fingerprint, w0, destDir, packages, all) == Outcome(WorldOf(fs, io), Err(result.error))
  {
    result, order := HandlePackage(fs, io, packages[j], destDir);
    NextStep(fs.fingerprint, w0, destDir, packages, j, orders, order, WorldOf(fs, io), result);
  }

  /** The loop over the packages of a run: each is handled in turn, and the
      first error ends the run. */
  method HandleAll(fs: FileSystem, io: ConsoleIO, packages: seq<Installed>, destDir: Path)
    returns (r: Result<seq<bool>>, ghost orders: seq<seq<Path>>)
    modifies fs, io
    ensures |orders| == |packages|
    ensures FitsRun(fs.fingerprint, old(WorldOf(fs, io)), destDir, packages, orders)
    ensures Outcome(WorldOf(fs, io), r) == DriveSpec(fs.fingerprint, old(WorldOf(fs, io)), destDir, packages, orders)
  {
    ghost var w0 := WorldOf(fs, io);
    var areFileMigrated: seq<bool> := [];
    orders := [];

    for j := 0 to |packages|
      invariant |orders| == j
      invariant FitsRun(fs.fingerprint, w0, destDir, packages[..j], orders)
      invariant DriveSpec(fs.fingerprint, w0, destDir, packages[..j], orders)
                == Outcome(WorldOf(fs, io), Ok(areFileMigrated))
    {
      var result;
      ghost var order;
      result, order := HandleNext(fs, io, packages, j, w0, orders, destDir);
      orders := orders + [order];
      if result.Err? {
        return Err(result.error), orders + Unreached(|packages| - j - 1);
      }
      areFileMigrated := areFileMigrated + [result.value];
    }
    assert packages[..|packages|] == packages;
    return Ok(areFileMigrated), orders;
  }

  method SynchronizeMigrations(fs: FileSystem, io: ConsoleIO, projectRoot: Path,
                               root: Package, installed: seq<Installed>)
    returns (r: Result<bool>, ghost orders: seq<seq<Path>>)
    modifies fs, io
    ensures |orders| == |installed| + 1
    ensures FitsRun(fs.fingerprint, old(WorldOf(fs, io)), DestinationDir(projectRoot, root.extra),
                    RunList(root, installed), orders)
    ensures Outcome(WorldOf(fs, io), r)
            == RunSpec(fs.fingerprint, old(WorldOf(fs, io)), projectRoot, root, installed, orders)
  {
    var appMigrationDir := DestinationDir(projectRoot, root.extra);
    // the root package at the project's own path, then every installed one
    var results;
    results, orders := HandleAll(fs, io, RunList(root, installed), appMigrationDir);
    if results.Err? {
      return Err(results.error), orders;
    }
    var areFileMigrated := results.value;
    if true in areFileMigrated {
      io.WriteMessage(Advisory);
    }
    return Ok(true in areFileMigrated), orders;
  }
}
