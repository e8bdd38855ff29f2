# django-dumprestore, modelled in Dafny

django-dumprestore backs a Django site up into one zip file and restores it from there. This project models
the sequential logic at its core and proves what that logic promises.

- **Archive views** (`archive.dfy`, module `Archives`). Several prefix-scoped views share one zip container.
  - A view is a value: the container plus a prefix.
  - The container (`zip.dfy`, class `Zip.ZipFile`) is the one mutable object. Its list of entries is only ever appended to.
  - `subarchive` and `_name` compose prefixes. `writestr` and `write` append one entry under the qualified key. `open` reads it back. `namelist` filters the stored keys by prefix.
- **The lifecycle tree** (`backupset.dfy`, module `BackupSets`). A `BackupSet` node has a name, an optional driver, its children in insertion order and a parent link.
  - A node's archive is its own view when one is assigned. Otherwise it is the parent's view narrowed by the node's name.
  - The six phase methods first visit the children in order, then call the node's own driver.
  - A driver is abstract. It is an identity plus the values its two check hooks return.
  - Each phase returns the trace of driver calls it made: phase, driver, and the archive view handed over.
- **The older aggregation tree** (`legacy.dfy`, module `Legacy`). This is the tree of `backup.py`.
  - `preflight` asks every child, then passes only when every answer is truthy.
  - `backup` concatenates the children's `(name, path)` lists.
  - `cleanup` lists the children's answers, one per child.
  - The root set writes the collected pairs into a new zip file.
  - A set that overrides the three hooks, such as the media set, is a leaf given by what its hooks answer.
- **Media backup** (`media.dfy`, module `Media`). `FileBackupDriver.backup` walks the storage with a LIFO work-list of directories.
  - Storage is a map from directory path to its listing.
  - The loop is proved against a recursive walk (`Visit`). On storages whose listings are plain, that walk lists every directory once and writes every file once.
  - `MediaBackupSet` picks its driver from the engine registry and hands the driver a temporary file name.
- **Database backup** (`database.dfy`, module `Database`).
  - `Postgres.dump` builds the `pg_dump` command line and environment from one database's settings. The model returns that invocation rather than starting a process.
  - `DatabaseDriver.get_databases` orders the configured databases and resolves each engine to a driver class.
  - `DatabaseDriver.dump` writes one `<db>.dmp` entry per database into its archive view.
- **Python behaviour** (`py.dfy`, module `Py`): the Python semantics the code depends on.
  - `v == False` also holds for `0`.
  - Truthiness of None, numbers, strings and lists.
  - The exceptions the code raises, returned as `Result.Err`.

Three behaviours of the code are kept as written:

- **Media arcnames.** `os.path.join(".", f)` is `"./f"`, so every arcname the media walk passes to `zip.write` starts with `"./"`. The source path passed with it is `os.path.join(MEDIA_ROOT, arcname)`; with the test's MEDIA_ROOT "/baz" that is "/baz/./f1". The expectations in tests/test_media.py:26-32 record the arguments of the `write` calls, and they list bare names (`'f1'`, `'/baz/f1'`). The model follows the code. `Media.FixtureWalk` proves the arguments the code passes for that fixture, in the same order the test expects. (Python's `zipfile` then normalises the name it stores, turning "./f1" into "f1"; see `Zip.ZipFile.Write` under "## Left out".)
- **Media preflight.** `MediaBackupSet.preflight` answers None when it succeeds. `backupset.py` counts None as a pass, but the older `backup.py` counts it as a failure. `Legacy.MediaChildFailsPreflight` proves that a media child fails its legacy parent's pre-flight check.
- **Constant command head.** `Postgres.backup_command` is copied before it is extended. In the model it is the constant `Database.BackupCommand`, so no call can change it.

## Model

| member | source | states |
|---|---|---|
| Archives.Subarchive | dumprestore/archive.py:16-21 | The new view shares the container. Its prefix is `p` under an empty prefix, else the old prefix, then "/", then `p`. |
| Archives.QualifiedName | dumprestore/archive.py:23-27 | The key is the name itself under an empty prefix, else prefix + "/" + name. |
| Archives.WriteStr | dumprestore/archive.py:29-30 | Exactly one entry `(_name(name), data)` is appended to the shared container. Every earlier entry is unchanged. |
| Archives.Write | dumprestore/archive.py:32-33 | Equals `writestr(arcname, <contents of filename>)`: one entry holding the file's contents under the qualified arcname. |
| Archives.Open | dumprestore/archive.py:40-41 | Fails exactly when the qualified key is not stored, and then with KeyError of that qualified key. On success, the payload is the one stored by the last entry under that key: no later entry has that key. |
| Zip.LookupLatest | dumprestore/archive.py:40-41 | Reading a key gives the payload of its last write, whatever other keys were written after it. |
| Archives.OpenLatestWrite | dumprestore/archive.py:29-41 | Write a name twice, then another name: `open(name)` reads the second write. |
| Archives.Namelist | dumprestore/archive.py:35-38 | A name is listed exactly when some stored key starts with the view's prefix and yields that name after dropping the prefix and one more character. The order follows the container (`Archives.ListedConcat`). |
| Archives.SubarchiveCompose | dumprestore/archive.py:16-27 | `subarchive(x).subarchive(y)` is the same view as `subarchive(x + "/" + y)`, so both qualify every name alike. |
| Archives.SubarchiveQualifies | dumprestore/archive.py:16-27 | A sub-view `p` stores `name` under the key where its parent view stores `p/name`. |
| Archives.ListedConcat | dumprestore/archive.py:35-38 | `namelist` filters stored keys one at a time, in container order. Listing a concatenation lists each part in turn. |
| Archives.ListedMembers | dumprestore/archive.py:35-38 | A name is listed exactly when some stored key starts with the prefix and yields that name after dropping prefix and one more character. |
| Archives.NameRoundTrip | dumprestore/archive.py:23-38 | Under a non-empty prefix, the qualified key lists back as exactly the name given. |
| Archives.WrittenNameListed | dumprestore/archive.py:29-38 | After `writestr(name, …)` through a view with a non-empty prefix, that view's `namelist` gains exactly `name`, at the end. |
| Archives.WrittenThenOpened | dumprestore/archive.py:29-41 | After `writestr`, `open(name)` on the same view reads the data back. So does the root view, under the fully qualified key. |
| Archives.NamelistQuirks | dumprestore/archive.py:35-38 | With prefix "" every listed name loses its first character. Sibling key "ab/x" leaks into view "a" as "/x". A key equal to the prefix lists as "". |
| Archives.NarrowedJoins | dumprestore/archive.py:16-21 | Successive `subarchive` calls yield the names joined with "/", after the starting prefix if it is non-empty, on the same container. |
| Py.NoneRules | dumprestore/backupset.py:62 | None passes `False not in checks`, but None is falsy. |
| BackupSets.DefaultDriver | dumprestore/backupset.py:8-26 | The base driver's check hooks return None. |
| BackupSets.BackupSet.constructor | dumprestore/backupset.py:32-37 | A new node keeps its name and driver, has no archive, no children and no parent, and is a tree on its own. |
| BackupSets.BackupSet.AddChild | dumprestore/backupset.py:39-41 | Sets `child.parent` to this node and appends the child after the existing ones, which stay as they were. This node's subtree stays valid. |
| BackupSets.BackupSet.SetArchive | dumprestore/backupset.py:49-50 | The node's own archive becomes the given one. |
| BackupSets.BackupSet.GetArchive | dumprestore/backupset.py:43-47 | The assigned view when there is one. A parentless node without one fails with AttributeError, and that is the only failure. A derived view's prefix ends in the node's name. |
| BackupSets.ArchiveDefined | dumprestore/backupset.py:43-47 | When the top node holds an archive, the getter succeeds for every node of the tree. |
| BackupSets.EffectivePrefix | dumprestore/backupset.py:43-52 | A node's archive is the nearest archive-owning ancestor's archive, narrowed by the names of the nodes below that owner down to the node itself. |
| BackupSets.ParentlessIsRoot | dumprestore/backupset.py:39-41 | In a tree built by `addChild`, the top node is the only node without a parent. |
| BackupSets.BackupSet.Check | dumprestore/backupset.py:54-62 | `before_dump`/`before_restore` result equals `Passes`. The calls made are the children's calls in insertion order, with no short-circuit, then the node's own driver call on its own archive. |
| BackupSets.BackupSet.CheckChildren | dumprestore/backupset.py:57-59 | The loop collects one result per child, in order, and the children's calls in order. |
| BackupSets.PassesAggregate | dumprestore/backupset.py:62 | `False not in checks`, over the collected children's results and the driver's result, is exactly `Passes`. |
| BackupSets.PassesIffNoFalseBelow | dumprestore/backupset.py:54-62 | A check passes exactly when no driver anywhere in the subtree answers `False`. A False anywhere fails every ancestor. None or any other value passes. |
| BackupSets.BackupSet.Act | dumprestore/backupset.py:64-98 | `dump`, `after_dump`, `restore`, `after_restore` make the children's calls in insertion order, then the node's own driver call on its archive. |
| BackupSets.BackupSet.ActChildren | dumprestore/backupset.py:66-67 | The children loop of an action phase makes each child's calls in order. |
| BackupSets.TraceSplit | dumprestore/backupset.py:64-69 | A node's calls are its children's calls, then one call of its own driver on its own archive. A node without a driver makes none. |
| BackupSets.TraceCallsEveryDriver | dumprestore/backupset.py:54-98 | Every phase, the checks included, calls exactly the drivers of the subtree, each with its node's archive, and nothing else. |
| Legacy.BackupSet.constructor | dumprestore/backup.py:18-21 | A new set has no parent and no children. It keeps its destination directory. A root set (`RootBackupSet.__init__`, dumprestore/backup.py:53-55) stores its file name first and always keeps the default "/var/tmp". |
| Legacy.BackupSet.SetSetParent | dumprestore/backup.py:23-25 | Sets `parent` and appends this set after the parent's children. A parent with its own hooks has no `children`, so the call fails with AttributeError after the parent was recorded. |
| Legacy.BackupSet.Preflight | dumprestore/backup.py:27-35 | Asks each child in order. A child's exception propagates. The result is the subtree's `PreflightOf`. |
| Legacy.PreflightPasses | dumprestore/backup.py:27-35 | The result is True exactly when every child answers something truthy. It is False exactly when all answer and one answer is falsy. It raises exactly when a child raises. No children means True. |
| Legacy.MediaChildFailsPreflight | dumprestore/backup.py:27-35 | A child whose preflight answers None, as the media set's does, makes its parent answer False. |
| Legacy.BackupSet.Backup | dumprestore/backup.py:37-42 | The children's lists are concatenated in child order, as the subtree's `FilesOf`. The first failure propagates. |
| Legacy.FilesFromLeaves | dumprestore/backup.py:37-42 | Collecting succeeds exactly when every leaf set's `backup` succeeds. The collected list then holds exactly the pairs the leaves supply. |
| Legacy.BackupSet.RootBackup | dumprestore/backup.py:57-62 | On a collection failure, no zip is made. Otherwise a new zip under the root's file name holds one entry per pair, `arcname = name` read from `path`, in collection order, and is closed. |
| Legacy.WriteAll | dumprestore/backup.py:60-61 | The loop appends `ZipEntries(files)` to the zip: one write per pair, in order. |
| Legacy.ZipEntries | dumprestore/backup.py:60-61 | Pair i becomes entry i, storing the contents of its path under its name. |
| Legacy.BackupSet.Cleanup | dumprestore/backup.py:44-49 | Asks every child in order. The result is the subtree's `CleanupOf`. The root set answers None, as at dumprestore/backup.py:65-67. |
| Legacy.CleanupItems | dumprestore/backup.py:44-49 | A plain set answers a list with exactly one item per child, item j being child j's answer, nested rather than flattened. The root set answers None. |
| Media.Join | dumprestore/media.py:38-41 | POSIX `os.path.join`: an absolute second part replaces the first. Otherwise the parts are concatenated, with one "/" between them unless the first part is empty or already ends in "/". |
| Media.FileEntries | dumprestore/media.py:39-43 | File i of directory `d` becomes the entry `(join(d, f), contents of join(root, join(d, f)))`. |
| Media.PushAll | dumprestore/media.py:37-38 | Every subdirectory `nd` is appended to the work-list as `join(d, nd)`, in listing order. |
| Media.WriteFiles | dumprestore/media.py:39-43 | One zip write per file of the directory, in listing order, and nothing else. |
| Media.PendingPush | dumprestore/media.py:35-38 | Pushing the subdirectories means their walks are owed last-pushed first, before the rest of the work-list (LIFO). |
| Media.PopStep | dumprestore/media.py:34-43 | One loop turn (pop, list, write, push) leaves the same total walk owed, and strictly less of it. |
| Media.Backup | dumprestore/media.py:27-44 | Starting from ".", the loop ends with the zip holding exactly the entries of the recursive walk `Visit`. The directories are listed in that walk's order. `count` is the number of writes. The zip is new and closed once at the end. |
| Media.WalkExactlyOnce | dumprestore/media.py:34-43 | On plain listings: "." is listed first, every subdirectory of a listed directory is listed, none twice. The zip gets exactly the files of the listed directories, directory by directory, with no arcname twice. |
| Media.FixtureWellFormed | tests/test_media.py:6-11 | The test storage is one the walk can run on. |
| Media.FixtureListed | tests/test_media.py:6-11 | On the test storage, directories are listed as ".", "./d2", "./d1", "./d1/d3": the last pushed is the first popped. |
| Media.FixtureWalk | tests/test_media.py:26-32 | On the test storage with root "/baz", the `write` calls are for f1, f2, d1/f3, d1/d3/f4, in that order. The arcnames passed start with "./" and the sources with "/baz/./" (see above). |
| Media.GetDriver | dumprestore/media.py:53-54 | The class registered for the engine, or None when there is none. |
| Media.RegistryDrivers | dumprestore/media.py:23-25 | The Django file-system storage maps to `FileBackupDriver`. Every other engine has no driver. |
| Media.MediaBackupSet.constructor | dumprestore/media.py:49-51 | No driver yet. The destination directory is kept. |
| Media.MediaBackupSet.Preflight | dumprestore/media.py:56-63 | Looks up `module + "." + class name`. Found: the driver is set and the answer is None. Not found: NameError (from the undefined `engine`), and the driver is unchanged. |
| Media.MediaBackupSet.Backup | dumprestore/media.py:65-70 | With a driver, it hands the temporary name to the driver exactly once and answers `[("media.zip", name)]`. Without one, AttributeError. |
| Media.MediaBackupSet.Cleanup | dumprestore/media.py:72-73 | Nothing to delete: the empty list. |
| Database.PgDumpEnv | dumprestore/database.py:31-32 | The environment holds PGPASSWORD exactly when the password is set, with that value, and no other variable. |
| Database.CommandRoundTrip | dumprestore/database.py:27-38 | The command line gives back the settings it was built from. `-U`, `-h`, `-p` each appear exactly when their setting is not None, in that order, and NAME comes last. |
| Database.PostgresDump | dumprestore/database.py:23-40 | Builds the command and the environment step by step, with the result `PgDumpFor`. A missing database or key fails with KeyError: USER, PASSWORD, HOST, PORT, NAME, first missing wins. |
| Database.DumpSettings | dumprestore/database.py:21-38 | A successful dump's command starts with the six fixed flags and `-f filename`, and carries every given setting back out. The environment is the password alone. |
| Database.DumpExamples | dumprestore/tests/test_database.py:27-51 | The two argument lists the tests expect: with every setting given, and with USER set to None. |
| Database.Remove | dumprestore/database.py:52-53 | `list.remove` succeeds exactly when the name is present. Otherwise it raises ValueError. |
| Database.RemoveUnique | dumprestore/database.py:52-53 | On a list without repeats, `remove(o)` drops exactly `o` and keeps the order of the rest. |
| Database.RemoveAllOk | dumprestore/database.py:52-53 | On distinct configured names, the removals succeed exactly when the order names configured databases, none twice. The rest then stay in their own order. |
| Database.RemoveAllErrors | dumprestore/database.py:52-53 | The removals only ever fail with ValueError. |
| Database.Others | dumprestore/database.py:51-53 | The names left are exactly the configured names that are not in the order. |
| Database.ResolveOne | dumprestore/database.py:55-58 | Resolves exactly when the database is configured, has an ENGINE, and that engine has a registered class; the result is that class. A missing database gives KeyError of its name. A missing ENGINE gives KeyError("ENGINE"). An engine that is None or unregistered gives DatabaseBackupException carrying that engine. |
| Database.ResolveAll | dumprestore/database.py:54-59 | Resolving the list succeeds exactly when every name resolves. It then pairs each name with its own class, in order. |
| Database.ResolveErrors | dumprestore/database.py:54-59 | Resolving never fails with ValueError. |
| Database.GetDatabases | dumprestore/database.py:49-59 | The removal loop, then the resolving loop, give exactly `Ordered`: the first failure, or the resolved pairs. |
| Database.OrderedValueError | dumprestore/database.py:50-59 | It fails with ValueError exactly when the backup order repeats a name or names an unconfigured database. |
| Database.OrderedSucceeds | dumprestore/database.py:50-59 | With a valid order, it succeeds exactly when every configured database has a registered engine. |
| Database.OrderedExactlyOnce | dumprestore/database.py:50-59 | On success: the ordered names first, in their order, then every other configured name. Every configured database appears exactly once, each with its engine's class. |
| Database.OrderExample | dumprestore/tests/test_database.py:73-79 | With the order ["two"] over "one", "two", "three", "two" comes first and the others follow. |
| Database.DumpAllInOrder | dumprestore/database.py:74-80 | Dumps run in database order until one fails. The i-th command is the i-th database's. Without a failure, every database was dumped. |
| Database.DumpEntriesListed | dumprestore/database.py:73-81 | Through a view with a non-empty prefix, the written entries list back as "<db>.dmp", in database order. |
| Database.DatabaseDriver.constructor | dumprestore/database.py:46-47 | Keeps the temporary directory. No databases are stored yet. |
| Database.DatabaseDriver.BeforeDump | dumprestore/database.py:61-65 | Stores the fully ordered `(db, class)` list and answers None. When ordering fails, the error propagates and nothing is stored. |
| Database.DatabaseDriver.Dump | dumprestore/database.py:73-83 | One run per stored database, in order, and after each successful run exactly one "<db>.dmp" entry holding its temporary file. The first failure stops the loop. Before `before_dump`, AttributeError. |

## Left out

- **Stand-ins for I/O and processes.**
  - Zip writes are modelled by `Zip.ZipFile`, a list of entries.
  - Real zip I/O and `Archive.new` are not modelled.
  - A file read becomes the abstract payload `FileContents(path)`.
- **Nondeterministic inputs are parameters.**
  - `tempfile.NamedTemporaryFile` names are given as parameters (`tmpName`, `temps`).
  - `os.unlink` is not modelled.
  - `subprocess.check_call` is not run; the command and environment it would receive are returned.
  - The Django settings are parameters: `DATABASES`, `DATABASE_BACKUP_ORDER`, `MEDIA_ROOT`, and the storage class name.
  - The keys of `DATABASES` are a parameter. Their order stands for Python's dict order, which is unspecified.
- **Not modelled: logging and `print`.**
- **Registries are constant maps.** The self-registering metaclass of dumprestore/registry.py is replaced by constant maps passed as parameters.
- **Media restore is not part of this model.** The incremental restore (`MediaDriver`, `FileMetadata`, `restore`) has no implementation in dumprestore/media.py.
- **Other code not modelled:** the management commands, dumprestore/default.py (tree construction only) and setup.py.
- **`DatabaseDriver.before_restore` and `restore`.**
  - `before_restore` lacks the `archive` parameter the tree passes, and it refers to an undefined `log`.
  - `restore` does nothing.
- **Stale tests.** tests/test_database.py and the `backup` method name in dumprestore/tests/test_database.py refer to APIs that do not exist. Only their expected argument lists are used.
- **Leaf sets.** Sets with their own hooks are given by what those hooks answer (`Legacy.Kind.Leaf`). The media set's own hooks are modelled separately, in `Media.MediaBackupSet`.
- Legacy.BackupSet.Backup: requires that no `RootBackupSet` sits below the set. A nested root set's `backup` returns None, which `extend` would reject; that case is not modelled.
- Legacy.BackupSet.RootBackup: requires the same, and the answer None of `RootBackupSet.backup` is replaced by the written zip it leaves behind.
- BackupSets.BackupSet.Check / Act: a driver hook is assumed not to raise. In the source, a raising hook ends the phase at once: later siblings' hooks are not called, and no result is returned. Hooks that do raise include `DatabaseDriver.before_dump` (ValueError, KeyError, DatabaseBackupException) and `DatabaseDriver.dump` (AttributeError when `databases` is None). The model's drivers only answer values. So `BackupSets.TraceCallsEveryDriver` (the drivers of the subtree, and only those, are called) is promised only for runs where no hook raises. Those errors are modelled inside `Database`, not carried into the tree.
- I/O failures are not modelled: the `open` in `Archive.write`, reading or stat-ing a source file in `zipfile.ZipFile.write`, a failing `listdir`, and `CalledProcessError` from `check_call`. Every write and every dump command is taken to succeed.
- BackupSets.BackupSet.AddChild: only this node's subtree is proved valid afterwards. The footprints of its ancestors are ghost state and are not updated. So a tree is built bottom-up, or by adding to the top node, as the source's own uses do. The source also allows adding a child below a node that already has a parent; this gives the same links, but the model proves nothing about the ancestors after such a call.
- BackupSets.TraceCallsEveryDriver: states which calls a phase makes, not how many times each is made. No lemma counts the calls.
- Zip.ZipFile.Write: the stored name is the arcname as passed. Python's `zipfile.ZipFile.write` stores `os.path.normpath(arcname)` with leading "/" removed. So the zip that the media walk (`Media.Backup`) and the root set (`Legacy.BackupSet.RootBackup`) produce holds "f1" and "d1/f3", while the model's entries hold the arguments "./f1" and "./d1/f3". `writestr` stores its name unchanged, so `Archives.WriteStr`, `Archives.Write` and `Database.DatabaseDriver.Dump` are exact.
- BackupSets.BackupSet.Check: requires the top node to hold an archive. Without one, the `AttributeError` of the getter (modelled by `BackupSets.BackupSet.GetArchive`) is not carried through the phases. The same holds for `BackupSets.BackupSet.Act`.
- BackupSets.BackupSet.Act: the drivers' own dump and restore effects are abstract. Only the calls are recorded.
- Media.Backup: requires every directory a listing names to be listable. A `listdir` that raises is not modelled.
- Media.MediaBackupSet.Backup: records the name handed to the driver. The driver's own work is `Media.Backup`.
- Database.DatabaseDriver.Dump: only `Postgres` is registered, so every stored database is dumped through `Database.PostgresDump`.
