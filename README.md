# ComposerBundleMigration: the migration synchroniser

When Composer installs or updates packages, the class `Migrations` runs
`synchronizeMigrations`. That method looks for Doctrine migration files (`Version*.php`) in the project's
root package and in every installed package, and copies them into the project's migrations
directory. A file whose name is new is copied without a question. A file whose name already exists there
with the same md5 is skipped without a question. A file whose name exists with a different md5 is
overwritten only after the user says yes. When anything was copied, a closing advisory tells the user
to run the Doctrine migration commands.

The model has six modules:

- `Paths`: paths as the code builds them, by plain `dir.'/'.name` concatenation. `Basename` models
  `array_pop(explode('/', p))`. Also here: which names `glob('Version*.php')` matches directly inside a
  directory.
- `Store`: the filesystem.
  - `Disk` is a value snapshot: regular files with their bytes, plus explicit directories.
  - `FileSystem` is the mutable object the synchroniser works on. Its methods are `file_exists`,
    `md5_file`, `glob` and Symfony's `Filesystem::copy`.
  - md5 is an abstract function of the content: the `fingerprint` field.
- `Console`: the `IOInterface`, as a scripted oracle.
  - `answers` holds the replies still to come. Once they are used up, every question gets its
    default.
  - Every question asked and every tracked message written is recorded.
- `Migrations`: each operation of the class twice.
  - A function over a `World` (disk plus channel) states what the operation does: `DestinationDir`,
    `MoveFile`, `MoveAll`, `HandleSpec`, `DriveSpec`, `RunSpec`.
  - A method over `FileSystem` and `ConsoleIO` has loops shaped like the PHP code, and its `ensures`
    ties its effect to that function: `CheckAndMoveFile`, `MoveCandidates`, `HandlePackage`,
    `HandleAll`, `SynchronizeMigrations`.
  - A thrown exception is an `Err` result. After an `Err`, the world is the one at the moment of the
    error: nothing is rolled back.
- `Properties`: what the synchroniser guarantees, proved over the functions.
- `Idempotence`: a second run over the disk a completed run left, with every question answered
  "no", changes nothing.

PHP's `glob` returns its matches sorted. The model does not rely on any order: it proves every
property for every order in which the matches may be listed, the sorted one included.

- Each method returns, as a ghost out-parameter, the listing it actually got.
- `FitsOrder` and `FitsRun` state that every such listing names each file `glob` matched at that
  moment exactly once.
- The functions take the listings as arguments, so every property holds whatever order the
  filesystem chose.

The class's doc comments and its code disagree in four places. The model follows the code.

- The doc comment of `synchronizeMigrations` (lines 44-45) and the one of `getDestinationDir`
  (lines 171-172) give `app/DoctrineMigrations` as the default destination. The code
  (line 184) uses `<project root>/migrations`.
- The doc comment says the user is asked when the existing file is "present AND equal"
  (line 51). The code (lines 143-154) asks when the md5 digests DIFFER, and skips equal files
  silently.
- The doc comment of `synchronizeMigrations` names the configuration key `migration-source`
  (line 48). The code reads `migration-source-dir` (lines 96, 120).
- The same doc comment lists only `Resources/migrations` as the default source (line 47). The
  code also tries a plain `migrations` directory after it (line 98).

Two details of the code are also kept as written:

- Only the FIRST entry of an explicit `migration-source-dir` list is ever looked at. When it
  does not exist, handlePackage throws (lines 100-123), even if later entries exist.
- The "did anything move" flag of the candidate loop never short-circuits (line 115). Every
  candidate is still handled after a copy.

## Model

| member | source | states |
|---|---|---|
| Paths.Basename | Composer/Migrations.php:139-140 | the file name taken from a path never contains "/" |
| Paths.BasenameIsLastSegment | Composer/Migrations.php:139-140 | the file name is a suffix of the path, and it is the whole path or is preceded by "/" (the last segment of explode('/')) |
| Paths.BasenameOfJoin | Composer/Migrations.php:139-142 | the file name of `dir/name` is `name` whenever `name` has no "/" |
| Paths.CandidateIsJoin | Composer/Migrations.php:107 | every path glob returns for `dir/Version*.php` is `dir` joined with its own file name, and that name matches `Version*.php` |
| Store.FingerprintAt | Composer/Migrations.php:143 | defines the md5_file abstraction: a digest exactly for regular files, namely the fingerprint of the content, so equal content gives an equal digest |
| Store.Candidates | Composer/Migrations.php:107 | defines the glob abstraction: the set it matches is exactly the regular files directly in `dir` whose name is `Version*.php` |
| Store.ExistsAfterPut | Composer/Migrations.php:162 | writing a file never makes an existing path disappear |
| Store.FileSystem.FileExists | Composer/Migrations.php:104 | returns the file_exists abstraction Exists on the current state: true exactly for a file, a directory, or a path some file lies below |
| Store.FileSystem.Md5File | Composer/Migrations.php:143 | returns FingerprintAt on the current state:  the fingerprint of a regular file, and none for anything else |
| Store.FileSystem.Glob | Composer/Migrations.php:107 | glob returns every matching candidate exactly once, in some order |
| Store.FileSystem.Copy | Composer/Migrations.php:161-162 | the copy succeeds exactly when the source is a file and the target is a file or absent; on success only the target changes, and it then holds the source's bytes; on failure nothing changes |
| Console.Ask | Composer/Migrations.php:150-153 | a question is recorded once; the reply is the next scripted answer, or the question's default once the script is used up |
| Console.ConsoleIO.constructor | Composer/Migrations.php:64 | a new channel holds the scripted answers, with no question asked and nothing written |
| Console.ConsoleIO.AskConfirmation | Composer/Migrations.php:150-153 | askConfirmation behaves as Ask on the channel's state |
| Console.ConsoleIO.WriteMessage | Composer/Migrations.php:163 | write appends the message to the output and changes nothing else |
| Migrations.DestinationDir | Composer/Migrations.php:177-185 | defines the destination formula: the destination is `<root>/<app-migrations-dir>` when that key is set, and `<root>/migrations` otherwise |
| Migrations.MoveFile | Composer/Migrations.php:136-168 | an absent target is copied without a question; a target with the same md5 gives false with nothing changed; a differing target causes exactly one question (default no), the file is copied only on yes, and on yes whenever source and target are regular files; a no gives false and changes nothing but the prompt trace; a copy changes only the target and writes one Imported line; the only error is a failed copy; afterwards the target exists |
| Migrations.Target | Composer/Migrations.php:139-142 | the target of a file lies below the destination directory |
| Migrations.CopyTo | Composer/Migrations.php:160-164 | the copy succeeds exactly when Filesystem::copy can; then it gives true, puts the source's bytes at the target and writes one Imported line with the file name; otherwise it fails with CopyFailed and changes nothing |
| Migrations.MoveAll | Composer/Migrations.php:107-116 | the candidate loop; its only error is a failed copy |
| Migrations.SelectFrom | Composer/Migrations.php:100-123 | the suffix walk: a selected directory exists; a Missing result only comes from an explicit list, names its first entry, and that entry does not exist; with an explicit list nothing is selected exactly when the list is empty |
| Migrations.HandleSpec | Composer/Migrations.php:88-125 | handlePackage: when no directory is selected the world is unchanged, and SourceDirNotFound is raised exactly when the selection is Missing |
| Migrations.DriveSpec | Composer/Migrations.php:66-79 | a run that completes has one result per package |
| Migrations.RunSpec | Composer/Migrations.php:58-86 | synchronizeMigrations: after the package loop, the advisory changes no file and asks nothing, and the run fails exactly when a package failed |
| Migrations.CheckAndMoveFile | Composer/Migrations.php:136-168 | the method's effect on disk and channel, and its result, are those of MoveFile |
| Migrations.MoveCandidates | Composer/Migrations.php:105-118 | the candidate loop's effect and result are those of MoveAll over the listing it was given |
| Migrations.HandlePackage | Composer/Migrations.php:88-125 | the listing used is the one glob returned for the selected directory, and the effect and result are those of HandleSpec on it |
| Migrations.DriveErrorSticks | Composer/Migrations.php:69-79 | once a package has thrown, the later packages change nothing |
| Migrations.MoveAllErrorSticks | Composer/Migrations.php:107-116 | once a candidate's copy has thrown, the later candidates change nothing |
| Migrations.DriveStep | Composer/Migrations.php:74-79 | handling package `j` after the packages before it extends the run by exactly that package's outcome |
| Migrations.NextStep | Composer/Migrations.php:74-79 | one turn of the package loop extends the run by that package's outcome, and an error there is the outcome of the whole run |
| Migrations.DriveFailsEarly | Composer/Migrations.php:69-79 | a run whose first packages end in an error ends with that error, whatever the later packages are |
| Migrations.HandleNext | Composer/Migrations.php:75-78 | one turn of the package loop extends the run by exactly that package's outcome; an error there ends the whole run with it |
| Migrations.HandleAll | Composer/Migrations.php:68-79 | the root call and the package loop together have the effect and results of DriveSpec, with glob listings that fit every moment |
| Migrations.SynchronizeMigrations | Composer/Migrations.php:58-86 | the whole run has the effect of RunSpec: every package in order, then the advisory when some file was imported |
| Properties.DestinationBelowRoot | Composer/Migrations.php:182-184 | the destination always lies below the project root |
| Properties.TargetKeepsName | Composer/Migrations.php:139-142 | a file is copied under its own file name |
| Properties.TargetOfCandidate | Composer/Migrations.php:139-142 | a candidate found in `dir` is copied to `<destination>/<its name inside dir>` |
| Properties.SameContentSkips | Composer/Migrations.php:143-148 | a target with the same bytes as its source is skipped without a question, whatever the digest function |
| Properties.MoveAfterCopySkips | Composer/Migrations.php:142-164 | handling a file again right after it was copied does nothing |
| Properties.DefaultSelection | Composer/Migrations.php:96-124 | without `migration-source-dir` no error is raised; nothing is selected iff no listed directory exists; otherwise the first existing one is selected |
| Properties.ExplicitSelection | Composer/Migrations.php:96-123 | with `migration-source-dir` only the first entry matters: it is selected when it exists and raises the error otherwise; an empty list selects nothing |
| Properties.HandleFailsOnlyOnMissingExplicit | Composer/Migrations.php:100-124 | handlePackage raises the "not found" error iff the package lists source directories and the first one is missing |
| Properties.HandleWithoutSources | Composer/Migrations.php:96-124 | a package without a configuration and without either default directory gives false, raises no error and changes nothing |
| Properties.MoveAllOnlyTargets | Composer/Migrations.php:139-162 | no file except the candidates' targets is created or changed, and no directory |
| Properties.MoveAllReportsImports | Composer/Migrations.php:112-163 | the loop writes Imported lines only; a false result means nothing was copied or written; a true result means something was |
| Properties.MoveAllCovers | Composer/Migrations.php:107-116 | after a loop without error, every candidate's target exists |
| Properties.MoveAllSplit | Composer/Migrations.php:112-115 | no short-circuit: the loop over `a + b` is the loop over `a`, then every candidate of `b`, with the flags or-ed |
| Properties.HandleReportsImports | Composer/Migrations.php:105-118 | one package writes Imported lines only, and reports true exactly when it wrote one |
| Properties.DriveReportsImports | Composer/Migrations.php:66-79 | the package loop writes Imported lines only, and some package reports true iff a line was written |
| Properties.RunAdvisory | Composer/Migrations.php:81-85 | the advisory is written iff some package imported a file; it is then written once, as the last line, after Imported lines only; a failed run never writes it |
| Properties.RootFirst | Composer/Migrations.php:68-72 | the first package handled is the root package at '.' |
| Idempotence.SelectAfterPut | Composer/Migrations.php:100-162 | writing a file never makes a package fail, and changes its selected directory only to one that did not exist before |
| Idempotence.SettledAfterPut | Composer/Migrations.php:142-162 | a copy into the destination keeps every package's candidates provided with targets |
| Idempotence.SettledAfterMove | Composer/Migrations.php:136-168 | handling a candidate keeps every package's candidates provided with targets |
| Idempotence.MoveAllSettles | Composer/Migrations.php:107-116 | after a package's loop, each of its candidates has a target, and earlier packages stay so |
| Idempotence.HandleSettles | Composer/Migrations.php:88-125 | after handlePackage, all its candidates and those of earlier packages have targets |
| Idempotence.DriveSettles | Composer/Migrations.php:66-79 | a completed package loop leaves every candidate of every package with a target |
| Idempotence.MoveAllQuiet | Composer/Migrations.php:142-157 | when every target exists and every answer is no, the loop gives false and changes neither disk nor output |
| Idempotence.HandleQuiet | Composer/Migrations.php:88-125 | likewise for one package whose candidates all have targets |
| Idempotence.DriveQuiet | Composer/Migrations.php:66-79 | likewise for the package loop |
| Idempotence.RunSettles | Composer/Migrations.php:58-86 | a completed run leaves every candidate of every package with a target |
| Idempotence.RunQuiet | Composer/Migrations.php:58-86 | a run over such a disk, declining every question, gives false and changes neither disk nor output |
| Idempotence.SecondRunCopiesNothing | Composer/Migrations.php:58-168 | after a completed run, a second run on the disk it left, answering no to every question, raises no error, copies nothing, writes nothing and reports no import |

## Left out

- Composer plumbing is taken as parameters: the project root (`dirname(Factory::getComposerFile())`), the
  root package's `extra`, and the installed packages with their install paths (`getPackages`,
  `getInstallPath`).
- md5 is an abstract function of a file's bytes, the `fingerprint`. Only its being a function is relied
  on: equal bytes give equal digests. Collisions are possible, as with md5. `md5_file` of a path that is
  not a regular file yields no digest. This stands in for PHP's `false`. Two paths without a digest
  compare equal, as `false === false` does, and the file is then skipped. A target without a digest
  differs from a source with one.
- `Filesystem::copy` is modelled without file times. Symfony skips an overwrite when the target is newer
  than the source, and the synchroniser still reports "Importing ... " in that case. The model always
  writes. The creation of the target's parent directory is not modelled either: a write needs no
  existing directory here. So a copy whose target directory is itself a regular file succeeds in the
  model, while Symfony's `mkdir` throws there.
- A `Disk` has no well-formedness condition. Its directories need not be closed under parents:
  with only `a/b` listed, `a` does not exist unless some file lies below it. A path can be a regular
  file and also have files below it. Neither can happen on a real filesystem.
- Store.FileSystem.Glob: the listing order is left to the filesystem, and only "each candidate exactly
  once" is stated. glob metacharacters inside the package path are not interpreted. A directory named
  `Version*.php` is not a candidate. In the program, such a directory is returned by glob, and its
  copy throws in `Filesystem::copy` because the source is not a regular file, which aborts the run. The
  model skips it silently.
- Unreadable files, permission errors and concurrent changes to the filesystem are not modelled: every
  file read succeeds.
- The very-verbose log lines (lines 108-110, 144-147) and the exact text of the messages are left out.
  Only `Imported(filename)` and the advisory are traced.
- PHP's loose typing is left out. `extra` values are assumed to be a string (`app-migrations-dir`) or a
  list of strings (`migration-source-dir`). A `migration-source-dir` key present with value null passes
  `array_key_exists` (line 96) but not `isset` (line 120). That case is not modelled.
- handlePackage returns `null` when no directory is found. The model gives `false`, which `in_array(true,
  ...)` treats the same way.
- Paths are not normalised: `a//b`, `./x` and `x` are different paths, as string concatenation makes
  them.
- Idempotence.SecondRunCopiesNothing is stated for a second run that declines every question. A
  question declined in the first run is asked again in the second. With yes answers the second run can
  overwrite again.
