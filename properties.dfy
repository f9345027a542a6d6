/** What the synchroniser guarantees, stated over the functions of
    module Migrations. */
module Properties {
  import opened Paths
  import opened Store
  import opened Console
  import opened Migrations

  // ---------------------------------------------------------------------
  // Destination

  /** The destination always lies directly or deeper below the project root. */
  lemma DestinationBelowRoot(projectRoot: Path, root: Extra)
    ensures Below(projectRoot, DestinationDir(projectRoot, root))
  {
    var r := DestinationDir(projectRoot, root);
    assert r[..|projectRoot| + 1] == projectRoot + "/";
  }

  /** A file is copied under its own file name. */
  lemma TargetKeepsName(destDir: Path, source: Path)
    ensures Basename(Target(destDir, source)) == Basename(source)
  {
    BasenameOfJoin(destDir, Basename(source));
  }

  /** A candidate is copied to the destination under its own file name. */
  lemma TargetOfCandidate(destDir: Path, dir: Path, c: Path)
    requires IsCandidateIn(dir, c)
    ensures Target(destDir, c) == destDir + "/" + c[|dir| + 1..]
  {
    CandidateIsJoin(dir, c);
    BasenameOfJoin(dir, c[|dir| + 1..]);
    assert c == Join(dir, c[|dir| + 1..]);
  }

  // ---------------------------------------------------------------------
  // One candidate

  /** A target holding the same content as the source is skipped without a
      question, whatever the fingerprint function is. */
  lemma SameContentSkips(fingerprint: Content -> Digest, w: World, source: Path, destDir: Path)
    requires source in w.disk.files && Target(destDir, source) in w.disk.files
    requires w.disk.files[Target(destDir, source)] == w.disk.files[source]
    ensures MoveFile(fingerprint, w, source, destDir) == Outcome(w, Ok(false))
  {
  }

  /** Moving a file a second time after it was copied does nothing. */
  lemma MoveAfterCopySkips(fingerprint: Content -> Digest, w: World, source: Path, destDir: Path, c: Channel)
    requires MoveFile(fingerprint, w, source, destDir).result == Ok(true)
    ensures var w1 := MoveFile(fingerprint, w, source, destDir).world.(channel := c);
            MoveFile(fingerprint, w1, source, destDir) == Outcome(w1, Ok(false))
  {
    var w1 := MoveFile(fingerprint, w, source, destDir).world.(channel := c);
    SameContentSkips(fingerprint, w1, source, destDir);
  }

  // ---------------------------------------------------------------------
  // Source-directory selection

  /** Without `migration-source-dir` the walk never fails: it yields the
      first listed directory that exists, and nothing when none exists. */
  lemma {:induction false} DefaultSelection(d: Disk, path: Path, suffixes: seq<string>)
    ensures !SelectFrom(d, path, suffixes, false).Missing?
    ensures SelectFrom(d, path, suffixes, false).NoneFound?
            <==> forall k :: 0 <= k < |suffixes| ==> !Exists(d, Join(path, suffixes[k]))
    ensures forall k :: 0 <= k < |suffixes| && Exists(d, Join(path, suffixes[k]))
                        && (forall j :: 0 <= j < k ==> !Exists(d, Join(path, suffixes[j])))
                        ==> SelectFrom(d, path, suffixes, false) == Found(Join(path, suffixes[k]))
  {
    if suffixes != [] {
      DefaultSelection(d, path, suffixes[1..]);
      forall k | 1 <= k < |suffixes|
        ensures suffixes[1..][k - 1] == suffixes[k]
      {
      }
      if !Exists(d, Join(path, suffixes[0])) {
        forall k | 0 < k < |suffixes| && Exists(d, Join(path, suffixes[k]))
                   && (forall j :: 0 <= j < k ==> !Exists(d, Join(path, suffixes[j])))
          ensures SelectFrom(d, path, suffixes, false) == Found(Join(path, suffixes[k]))
        {
          assert forall j :: 0 <= j < k - 1 ==> !Exists(d, Join(path, suffixes[1..][j]));
        }
      }
    }
  }

  /** With `migration-source-dir` only the first listed directory matters:
      it is used when it exists, and when it does not the package fails,
      however many later entries exist. An empty list selects nothing. */
  lemma ExplicitSelection(d: Disk, p: Installed)
    requires p.package.extra.migrationSourceDir.Some?
    ensures var list := p.package.extra.migrationSourceDir.value;
            SelectDir(d, p) == if list == [] then NoneFound
                               else if Exists(d, Join(p.path, list[0])) then Found(Join(p.path, list[0]))
                               else Missing(Join(p.path, list[0]))
  {
  }

  /** handlePackage throws exactly when the package lists its source
      directories and the first of them does not exist. */
  lemma HandleFailsOnlyOnMissingExplicit(fingerprint: Content -> Digest, w: World, p: Installed,
                                         destDir: Path, order: seq<Path>)
    requires FitsOrder(w.disk, p, order)
    ensures var r := HandleSpec(fingerprint, w, p, destDir, order);
            var list := p.package.extra.migrationSourceDir;
            (r.result.Err? && r.result.error.SourceDirNotFound?)
            <==> (list.Some? && list.value != [] && !Exists(w.disk, Join(p.path, list.value[0])))
  {
    var r := HandleSpec(fingerprint, w, p, destDir, order);
    if p.package.extra.migrationSourceDir.None? {
      DefaultSelection(w.disk, p.path, DefaultSuffixes);
    } else {
      ExplicitSelection(w.disk, p);
    }
  }

  /** A package without `migration-source-dir` none of whose default
      directories exists contributes nothing and raises no error. */
  lemma HandleWithoutSources(fingerprint: Content -> Digest, w: World, p: Installed,
                             destDir: Path, order: seq<Path>)
    requires p.package.extra.migrationSourceDir.None?
    requires forall k :: 0 <= k < |DefaultSuffixes| ==> !Exists(w.disk, Join(p.path, DefaultSuffixes[k]))
    ensures HandleSpec(fingerprint, w, p, destDir, order) == Outcome(w, Ok(false))
  {
    DefaultSelection(w.disk, p.path, DefaultSuffixes);
  }

  // ---------------------------------------------------------------------
  // The candidate loop

  /** No file other than the targets of the candidates is created or
      changed, and no directory either. */
  lemma {:induction false} MoveAllOnlyTargets(fingerprint: Content -> Digest, w: World, order: seq<Path>,
                                              destDir: Path, f: Path)
    requires forall c :: c in order ==> Target(destDir, c) != f
    ensures var r := MoveAll(fingerprint, w, order, destDir);
            && r.world.disk.dirs == w.disk.dirs
            && (f in r.world.disk.files <==> f in w.disk.files)
            && (f in w.disk.files ==> r.world.disk.files[f] == w.disk.files[f])
    decreases |order|
  {
    if order != [] {
      var n := |order| - 1;
      assert forall c :: c in order[..n] ==> c in order;
      MoveAllOnlyTargets(fingerprint, w, order[..n], destDir, f);
      assert Target(destDir, order[n]) != f;
    }
  }

  /** The new messages are all "Imported" lines. */
  ghost predicate OnlyImports(before: seq<Message>, after: seq<Message>)
  {
    before <= after && forall i :: |before| <= i < |after| ==> after[i].Imported?
  }

  /** The loop answers "nothing moved" exactly when it wrote no Imported
      line, and then the disk is as it was. */
  lemma {:induction false} MoveAllReportsImports(fingerprint: Content -> Digest, w: World, order: seq<Path>,
                                                 destDir: Path)
    ensures var r := MoveAll(fingerprint, w, order, destDir);
            && OnlyImports(w.channel.output, r.world.channel.output)
            && (r.result == Ok(false) ==> r.world.disk == w.disk && r.world.channel.output == w.channel.output)
            && (r.result == Ok(true) ==> |r.world.channel.output| > |w.channel.output|)
    decreases |order|
  {
    if order != [] {
      var n := |order| - 1;
      MoveAllReportsImports(fingerprint, w, order[..n], destDir);
    }
  }

  /** Every candidate is handled: after a loop that did not fail, the
      target of every candidate exists (copied, equal or declined). */
  lemma {:induction false} MoveAllCovers(fingerprint: Content -> Digest, w: World, order: seq<Path>, destDir: Path)
    ensures var r := MoveAll(fingerprint, w, order, destDir);
            r.result.Ok? ==> forall c :: c in order ==> Exists(r.world.disk, Target(destDir, c))
    decreases |order|
  {
    if order != [] {
      var n := |order| - 1;
      var before := MoveAll(fingerprint, w, order[..n], destDir);
      MoveAllCovers(fingerprint, w, order[..n], destDir);
      var step := MoveFile(fingerprint, before.world, order[n], destDir);
      if before.result.Ok? && step.result.Ok? {
        forall c | c in order
          ensures Exists(step.world.disk, Target(destDir, c))
        {
          if c != order[n] {
            assert c in order[..n];
            if step.result.value {
              ExistsAfterPut(before.world.disk, Target(destDir, order[n]),
                             before.world.disk.files[order[n]], Target(destDir, c));
            }
          }
        }
      }
    }
  }

  /** The loop continued over more candidates. */
  function Continue(fingerprint: Content -> Digest, x: Outcome<bool>, more: seq<Path>, destDir: Path): Outcome<bool>
  {
    if x.result.Err? then x
    else
      var y := MoveAll(fingerprint, x.world, more, destDir);
      if y.result.Err? then y else Outcome(y.world, Ok(x.result.value || y.result.value))
  }

  /** No short-circuit: handling `a + b` is handling `a` and then every
      candidate of `b`, even when `a` already moved a file. */
  lemma {:induction false} MoveAllSplit(fingerprint: Content -> Digest, w: World, a: seq<Path>, b: seq<Path>,
                                        destDir: Path)
    ensures MoveAll(fingerprint, w, a + b, destDir)
            == Continue(fingerprint, MoveAll(fingerprint, w, a, destDir), b, destDir)
    decreases |b|
  {
    if b == [] {
      assert a + b == a;
    } else {
      var n := |b| - 1;
      assert (a + b)[..|a + b| - 1] == a + b[..n];
      assert (a + b)[|a + b| - 1] == b[n];
      MoveAllSplit(fingerprint, w, a, b[..n], destDir);
      var x := MoveAll(fingerprint, w, a, destDir);
      if x.result.Ok? {
        // both sides take the same last step, from the same world
        var y := MoveAll(fingerprint, x.world, b[..n], destDir);
        assert MoveAll(fingerprint, w, a + b[..n], destDir).world == y.world;
      }
    }
  }

  // ---------------------------------------------------------------------
  // The run

  /** Handling one package writes Imported lines only, and reports a copy
      exactly when it wrote one. */
  lemma HandleReportsImports(fingerprint: Content -> Digest, w: World, p: Installed, destDir: Path, order: seq<Path>)
    ensures var r := HandleSpec(fingerprint, w, p, destDir, order);
            && OnlyImports(w.channel.output, r.world.channel.output)
            && (r.result == Ok(false) ==> r.world.channel.output == w.channel.output)
            && (r.result == Ok(true) ==> |r.world.channel.output| > |w.channel.output|)
  {
    MoveAllReportsImports(fingerprint, w, order, destDir);
  }

  lemma {:induction false} DriveReportsImports(fingerprint: Content -> Digest, w: World, destDir: Path,
                                               pkgs: seq<Installed>, orders: seq<seq<Path>>)
    requires |orders| == |pkgs|
    ensures var r := DriveSpec(fingerprint, w, destDir, pkgs, orders);
            && OnlyImports(w.channel.output, r.world.channel.output)
            && (r.result.Ok? ==> (true in r.result.value <==> |r.world.channel.output| > |w.channel.output|))
    decreases |pkgs|
  {
    if pkgs != [] {
      var n := |pkgs| - 1;
      var before := DriveSpec(fingerprint, w, destDir, pkgs[..n], orders[..n]);
      DriveReportsImports(fingerprint, w, destDir, pkgs[..n], orders[..n]);
      if before.result.Ok? {
        HandleReportsImports(fingerprint, before.world, pkgs[n], destDir, orders[n]);
        var step := HandleSpec(fingerprint, before.world, pkgs[n], destDir, orders[n]);
        if step.result.Ok? {
          assert true in before.result.value + [step.result.value]
                 <==> true in before.result.value || step.result.value;
        }
      }
    }
  }

  /** The advisory is written exactly when the run imported some file, and
      after the last Imported line; a failed run never writes it. */
  lemma RunAdvisory(fingerprint: Content -> Digest, w: World, projectRoot: Path,
                    root: Package, installed: seq<Installed>, orders: seq<seq<Path>>)
    requires |orders| == |installed| + 1
    ensures w.channel.output <= RunSpec(fingerprint, w, projectRoot, root, installed, orders).world.channel.output
    ensures var r := RunSpec(fingerprint, w, projectRoot, root, installed, orders);
            var added := r.world.channel.output[|w.channel.output|..];
            && (r.result.Ok? ==> (r.result.value <==> Advisory in added))
            && (r.result.Ok? ==> (r.result.value <==> exists i :: 0 <= i < |added| && added[i].Imported?))
            && (r.result.Err? ==> Advisory !in added)
    // on an import the advisory is written once, as the last line, after Imported lines only
    ensures var r := RunSpec(fingerprint, w, projectRoot, root, installed, orders);
            var added := r.world.channel.output[|w.channel.output|..];
            r.result == Ok(true) ==>
              && added != [] && added[|added| - 1] == Advisory
              && forall i :: 0 <= i < |added| - 1 ==> added[i].Imported?
  {
    var destDir := DestinationDir(projectRoot, root.extra);
    var o := DriveSpec(fingerprint, w, destDir, RunList(root, installed), orders);
    DriveReportsImports(fingerprint, w, destDir, RunList(root, installed), orders);
    var r := RunSpec(fingerprint, w, projectRoot, root, installed, orders);
    var added := r.world.channel.output[|w.channel.output|..];
    var imports := o.world.channel.output[|w.channel.output|..];
    assert forall i :: 0 <= i < |imports| ==> imports[i] == o.world.channel.output[|w.channel.output| + i];
    if r.result.Ok? && r.result.value {
      assert added == imports + [Advisory];
      assert added[0] == imports[0];
    } else {
      assert added == imports;
    }
  }

  /** The root package, at '.', is handled before any installed package. */
  lemma RootFirst(fingerprint: Content -> Digest, w: World, destDir: Path,
                  root: Package, installed: seq<Installed>, orders: seq<seq<Path>>)
    requires |orders| == |installed| + 1
    ensures DriveSpec(fingerprint, w, destDir, RunList(root, installed)[..1], orders[..1])
            == var step := HandleSpec(fingerprint, w, Installed(".", root), destDir, orders[0]);
               if step.result.Err? then Outcome(step.world, Err(step.result.error))
               else Outcome(step.world, Ok([step.result.value]))
  {
    var pkgs := RunList(root, installed);
    assert pkgs[..1][..0] == [] && orders[..1][..0] == [];
    assert pkgs[..1][0] == Installed(".", root);
    var step := HandleSpec(fingerprint, w, Installed(".", root), destDir, orders[0]);
    if step.result.Ok? {
      assert [] + [step.result.value] == [step.result.value];
    }
  }
}
