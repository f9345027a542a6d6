/** Running the synchroniser a second time, on the disk the first run left
    and with every question answered "no", copies nothing: every candidate
    either finds an equal file or a file it may not overwrite. */
module Idempotence {
  import opened Paths
  import opened Store
  import opened Console
  import opened Migrations

  function Elems(s: seq<Path>): set<Path>
  {
    set x | x in s
  }

  /** The package's source directory is valid on `d`, and every candidate in
      it outside `rest` already has its target in the destination. */
  ghost predicate Settled(d: Disk, destDir: Path, p: Installed, rest: set<Path>)
  {
    match SelectDir(d, p)
    case Found(dir) => forall c :: c in Candidates(d, dir) ==> c in rest || Exists(d, Target(destDir, c))
    case NoneFound => true
    case Missing(_) => false
  }

  ghost predicate AllSettled(d: Disk, destDir: Path, done: seq<Installed>)
  {
    forall j :: 0 <= j < |done| ==> Settled(d, destDir, done[j], {})
  }

  /** Writing a file can only move the selection to a directory that did
      not exist before, and never makes a package fail. */
  lemma {:induction false} SelectAfterPut(d: Disk, t: Path, x: Content, path: Path, suffixes: seq<string>, explicit: bool)
    ensures var s := SelectFrom(d, path, suffixes, explicit);
            var s' := SelectFrom(Put(d, t, x), path, suffixes, explicit);
            && (s'.Missing? ==> s.Missing?)
            && (s'.Found? ==> (s.Found? && s.dir == s'.dir) || !Exists(d, s'.dir))
  {
    if suffixes != [] {
      var dir := Join(path, suffixes[0]);
      if Exists(d, dir) {
        ExistsAfterPut(d, t, x, dir);
      } else if !explicit {
        SelectAfterPut(d, t, x, path, suffixes[1..], explicit);
      }
    }
  }

  /** A copy into the destination keeps every package settled: a new file
      that is a candidate somewhere is its own target. */
  lemma SettledAfterPut(d: Disk, destDir: Path, name: string, x: Content, p: Installed, rest: set<Path>)
    requires '/' !in name
    requires Settled(d, destDir, p, rest)
    ensures Settled(Put(d, Join(destDir, name), x), destDir, p, rest)
  {
    var t := Join(destDir, name);
    var d' := Put(d, t, x);
    SelectAfterPut(d, t, x, p.path, Suffixes(p.package.extra), p.package.extra.migrationSourceDir.Some?);
    var s' := SelectDir(d', p);
    if s'.Found? {
      forall c | c in Candidates(d', s'.dir)
        ensures c in rest || Exists(d', Target(destDir, c))
      {
        if c == t {
          BasenameOfJoin(destDir, name);
        } else {
          assert c in Candidates(d, s'.dir);
          assert Exists(d, s'.dir);
          if !(c in rest) {
            ExistsAfterPut(d, t, x, Target(destDir, c));
          }
        }
      }
    }
  }

  lemma SettledAfterMove(fingerprint: Content -> Digest, w: World, source: Path, destDir: Path,
                         p: Installed, rest: set<Path>)
    requires Settled(w.disk, destDir, p, rest)
    ensures Settled(MoveFile(fingerprint, w, source, destDir).world.disk, destDir, p, rest)
  {
    if MoveFile(fingerprint, w, source, destDir).result == Ok(true) {
      SettledAfterPut(w.disk, destDir, Basename(source), w.disk.files[source], p, rest);
    }
  }

  /** Handling the candidates of `order` settles them and keeps every other
      package settled. */
  lemma {:induction false} MoveAllSettles(fingerprint: Content -> Digest, w: World, order: seq<Path>, destDir: Path,
                                          done: seq<Installed>, cur: Installed, rest: set<Path>)
    requires AllSettled(w.disk, destDir, done)
    requires Settled(w.disk, destDir, cur, rest)
    ensures var r := MoveAll(fingerprint, w, order, destDir);
            r.result.Ok? ==> AllSettled(r.world.disk, destDir, done)
                             && Settled(r.world.disk, destDir, cur, rest - Elems(order))
    decreases |order|
  {
    if order != [] {
      var n := |order| - 1;
      var c := order[n];
      MoveAllSettles(fingerprint, w, order[..n], destDir, done, cur, rest);
      var before := MoveAll(fingerprint, w, order[..n], destDir);
      if before.result.Ok? {
        var after := MoveFile(fingerprint, before.world, c, destDir).world.disk;
        forall j | 0 <= j < |done|
          ensures Settled(after, destDir, done[j], {})
        {
          SettledAfterMove(fingerprint, before.world, c, destDir, done[j], {});
        }
        var left := rest - Elems(order[..n]);
        SettledAfterMove(fingerprint, before.world, c, destDir, cur, left);
        assert order == order[..n] + [c];
        assert rest - Elems(order) == left - {c};
      }
    }
  }

  lemma HandleSettles(fingerprint: Content -> Digest, w: World, p: Installed, destDir: Path,
                      order: seq<Path>, done: seq<Installed>)
    requires AllSettled(w.disk, destDir, done)
    requires FitsOrder(w.disk, p, order)
    ensures var r := HandleSpec(fingerprint, w, p, destDir, order);
            r.result.Ok? ==> AllSettled(r.world.disk, destDir, done + [p])
  {
    var r := HandleSpec(fingerprint, w, p, destDir, order);
    if SelectDir(w.disk, p).Found? {
      assert Settled(w.disk, destDir, p, Elems(order));
      MoveAllSettles(fingerprint, w, order, destDir, done, p, Elems(order));
      assert Elems(order) - Elems(order) == {};
    }
  }

  /** A run that completes leaves every one of its packages settled. */
  lemma {:induction false} DriveSettles(fingerprint: Content -> Digest, w: World, destDir: Path,
                                        pkgs: seq<Installed>, orders: seq<seq<Path>>)
    requires |orders| == |pkgs|
    requires FitsRun(fingerprint, w, destDir, pkgs, orders)
    ensures var r := DriveSpec(fingerprint, w, destDir, pkgs, orders);
            r.result.Ok? ==> AllSettled(r.world.disk, destDir, pkgs)
    decreases |pkgs|
  {
    if pkgs != [] {
      var n := |pkgs| - 1;
      DriveSettles(fingerprint, w, destDir, pkgs[..n], orders[..n]);
      var before := DriveSpec(fingerprint, w, destDir, pkgs[..n], orders[..n]);
      if before.result.Ok? {
        HandleSettles(fingerprint, before.world, pkgs[n], destDir, orders[n], pkgs[..n]);
        assert pkgs[..n] + [pkgs[n]] == pkgs;
      }
    }
  }

  /** With every target present and every answer "no", the candidate loop
      changes nothing but the prompt trace. */
  lemma {:induction false} MoveAllQuiet(fingerprint: Content -> Digest, w: World, order: seq<Path>, destDir: Path)
    requires DeclinesAll(w.channel)
    requires forall c :: c in order ==> Exists(w.disk, Target(destDir, c))
    ensures var r := MoveAll(fingerprint, w, order, destDir);
            && r.result == Ok(false) && r.world.disk == w.disk
            && r.world.channel.output == w.channel.output && DeclinesAll(r.world.channel)
    decreases |order|
  {
    if order != [] {
      var n := |order| - 1;
      assert forall c :: c in order[..n] ==> c in order;
      MoveAllQuiet(fingerprint, w, order[..n], destDir);
      var before := MoveAll(fingerprint, w, order[..n], destDir);
      var answers := before.world.channel.answers;
      assert answers != [] ==> !answers[0] && forall i :: 0 <= i < |answers[1..]| ==> !answers[1..][i] by {
        if answers != [] {
          forall i | 0 <= i < |answers[1..]| ensures !answers[1..][i] {
            assert answers[1..][i] == answers[i + 1];
          }
        }
      }
    }
  }

  lemma HandleQuiet(fingerprint: Content -> Digest, w: World, p: Installed, destDir: Path, order: seq<Path>)
    requires DeclinesAll(w.channel)
    requires Settled(w.disk, destDir, p, {})
    requires FitsOrder(w.disk, p, order)
    ensures var r := HandleSpec(fingerprint, w, p, destDir, order);
            && r.result == Ok(false) && r.world.disk == w.disk
            && r.world.channel.output == w.channel.output && DeclinesAll(r.world.channel)
  {
    if SelectDir(w.disk, p).Found? {
      MoveAllQuiet(fingerprint, w, order, destDir);
    }
  }

  lemma {:induction false} DriveQuiet(fingerprint: Content -> Digest, w: World, destDir: Path,
                                      pkgs: seq<Installed>, orders: seq<seq<Path>>)
    requires |orders| == |pkgs|
    requires DeclinesAll(w.channel)
    requires AllSettled(w.disk, destDir, pkgs)
    requires FitsRun(fingerprint, w, destDir, pkgs, orders)
    ensures var r := DriveSpec(fingerprint, w, destDir, pkgs, orders);
            && r.result.Ok? && true !in r.result.value && r.world.disk == w.disk
            && r.world.channel.output == w.channel.output && DeclinesAll(r.world.channel)
    decreases |pkgs|
  {
    if pkgs != [] {
      var n := |pkgs| - 1;
      assert AllSettled(w.disk, destDir, pkgs[..n]) by {
        forall j | 0 <= j < n ensures Settled(w.disk, destDir, pkgs[..n][j], {}) {
          assert pkgs[..n][j] == pkgs[j];
        }
      }
      DriveQuiet(fingerprint, w, destDir, pkgs[..n], orders[..n]);
      var before := DriveSpec(fingerprint, w, destDir, pkgs[..n], orders[..n]);
      assert Settled(w.disk, destDir, pkgs[n], {});
      HandleQuiet(fingerprint, before.world, pkgs[n], destDir, orders[n]);
    }
  }

  /** A completed run leaves all its packages settled. */
  lemma RunSettles(fingerprint: Content -> Digest, w: World, projectRoot: Path,
                   root: Package, installed: seq<Installed>, orders: seq<seq<Path>>)
    requires |orders| == |installed| + 1
    requires FitsRun(fingerprint, w, DestinationDir(projectRoot, root.extra), RunList(root, installed), orders)
    requires RunSpec(fingerprint, w, projectRoot, root, installed, orders).result.Ok?
    ensures AllSettled(RunSpec(fingerprint, w, projectRoot, root, installed, orders).world.disk,
                       DestinationDir(projectRoot, root.extra), RunList(root, installed))
  {
    DriveSettles(fingerprint, w, DestinationDir(projectRoot, root.extra), RunList(root, installed), orders);
  }

  /** A run over settled packages that declines every question is quiet. */
  lemma RunQuiet(fingerprint: Content -> Digest, w: World, projectRoot: Path,
                 root: Package, installed: seq<Installed>, orders: seq<seq<Path>>)
    requires |orders| == |installed| + 1
    requires DeclinesAll(w.channel)
    requires AllSettled(w.disk, DestinationDir(projectRoot, root.extra), RunList(root, installed))
    requires FitsRun(fingerprint, w, DestinationDir(projectRoot, root.extra), RunList(root, installed), orders)
    ensures var r := RunSpec(fingerprint, w, projectRoot, root, installed, orders);
            r.result == Ok(false) && r.world.disk == w.disk && r.world.channel.output == w.channel.output
  {
    DriveQuiet(fingerprint, w, DestinationDir(projectRoot, root.extra), RunList(root, installed), orders);
  }

  /** Idempotence: after a run that completed, a second run over the disk
      it left, answering "no" to every question, fails nowhere, copies no
      file, writes no line and reports no import. */
  lemma SecondRunCopiesNothing(fingerprint: Content -> Digest, w: World, projectRoot: Path,
                               root: Package, installed: seq<Installed>,
                               orders1: seq<seq<Path>>, second: Channel, orders2: seq<seq<Path>>)
    requires |orders1| == |installed| + 1 && |orders2| == |installed| + 1
    requires FitsRun(fingerprint, w, DestinationDir(projectRoot, root.extra), RunList(root, installed), orders1)
    requires RunSpec(fingerprint, w, projectRoot, root, installed, orders1).result.Ok?
    requires DeclinesAll(second)
    requires var w1 := RunSpec(fingerprint, w, projectRoot, root, installed, orders1).world;
             FitsRun(fingerprint, World(w1.disk, second), DestinationDir(projectRoot, root.extra),
                     RunList(root, installed), orders2)
    ensures var w1 := RunSpec(fingerprint, w, projectRoot, root, installed, orders1).world;
            var r2 := RunSpec(fingerprint, World(w1.disk, second), projectRoot, root, installed, orders2);
            r2.result == Ok(false) && r2.world.disk == w1.disk && r2.world.channel.output == second.output
  {
    RunSettles(fingerprint, w, projectRoot, root, installed, orders1);
    var w1 := RunSpec(fingerprint, w, projectRoot, root, installed, orders1).world;
    RunQuiet(fingerprint, World(w1.disk, second), projectRoot, root, installed, orders2);
  }
}
