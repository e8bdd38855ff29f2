/**
 * Database backup (dumprestore/database.py).
 *
 * `Postgres.dump` builds a `pg_dump` command line and its environment from
 * one database's settings; the process it then starts is left out, so the
 * model returns the command and environment it would run. `DatabaseDriver`
 * orders the configured databases (the names of the backup order first,
 * then the rest), resolves each engine to a driver class, and on `dump`
 * writes one "<db>.dmp" entry per database into its archive view.
 */
module Database {

  import opened Py
  import opened Zip
  import opened Archives

  /** One entry of the database settings: every key maps to a string or to None. */
  type Conf = map<string, Option<string>>

  /** The database driver classes. */
  datatype DbDriverClass = Postgres

  const PostgresEngine := "django.db.backends.postgresql_psycopg2"

  /** The engine registry as the module fills it in. */
  const Registry: map<string, DbDriverClass> := map[PostgresEngine := Postgres]

  /** `Postgres.backup_command`: the fixed head of every command; a constant, so no call can change it. */
  const BackupCommand: seq<string> := ["pg_dump", "-Fc", "-C", "-EUTF-8", "-b", "-o"]

  /** A process the code would start: its argument list and its whole environment. */
  datatype Invocation = Invocation(command: seq<string>, env: map<string, string>)

  /** `conf[key]`: the setting, or KeyError when the key is absent. */
  function Setting(conf: Conf, key: string): (r: Result<Option<string>>)
    ensures r.Ok? <==> key in conf
    ensures r.Ok? ==> r.value == conf[key]
  {
    if key in conf then Ok(conf[key]) else Err(KeyError(key))
  }

  /** `[flag, value]` when the setting is given, nothing when it is None. */
  function OptionArg(flag: string, v: Option<string>): (r: seq<string>)
    ensures v.None? ==> r == []
    ensures v.Some? ==> r == [flag, v.value]
  {
    if v.Some? then [flag, v.value] else []
  }

  /** The command `dump` runs for the given settings. */
  function PgDumpCommand(filename: string, user: Option<string>, host: Option<string>, port: Option<string>, name: Option<string>): seq<string>
  {
    BackupCommand + ["-f", filename] + OptionArg("-U", user) + OptionArg("-h", host) + OptionArg("-p", port)
      + (if name.Some? then [name.value] else [])
  }

  /** The environment `dump` runs with: the password, when there is one, and nothing else. */
  function PgDumpEnv(password: Option<string>): (r: map<string, string>)
    ensures "PGPASSWORD" in r <==> password.Some?
    ensures password.Some? ==> r["PGPASSWORD"] == password.value
    ensures forall k :: k in r ==> k == "PGPASSWORD"
  {
    if password.Some? then map["PGPASSWORD" := password.value] else map[]
  }

  /** The settings a command line carries, in the order `dump` appends them. */
  datatype DumpArgs = DumpArgs(filename: string, user: Option<string>, host: Option<string>, port: Option<string>, name: Option<string>)

  /** Reads `flag value` off the front of `rest` when it is there. */
  function TakeFlag(flag: string, rest: seq<string>): (Option<string>, seq<string>)
  {
    if |rest| >= 2 && rest[0] == flag then (Some(rest[1]), rest[2..]) else (None, rest)
  }

  /** Reads a `pg_dump` command line back into the settings it was built from. */
  function ParseCommand(cmd: seq<string>): Option<DumpArgs>
  {
    if |cmd| < 8 || cmd[..6] != BackupCommand || cmd[6] != "-f" then None
    else
      var (user, r1) := TakeFlag("-U", cmd[8..]);
      var (host, r2) := TakeFlag("-h", r1);
      var (port, r3) := TakeFlag("-p", r2);
      if |r3| == 0 then Some(DumpArgs(cmd[7], user, host, port, None))
      else if |r3| == 1 then Some(DumpArgs(cmd[7], user, host, port, Some(r3[0])))
      else None
  }

  /** Round trip: the command line determines the settings it was built from, whatever their values;
      each optional pair is present exactly when its setting is, and in the order -U, -h, -p, name. */
  lemma CommandRoundTrip(a: DumpArgs)
    ensures ParseCommand(PgDumpCommand(a.filename, a.user, a.host, a.port, a.name)) == Some(a)
  {
    var cmd := PgDumpCommand(a.filename, a.user, a.host, a.port, a.name);
    var afterPort := if a.name.Some? then [a.name.value] else [];
    var afterHost := OptionArg("-p", a.port) + afterPort;
    var afterUser := OptionArg("-h", a.host) + afterHost;
    var head := BackupCommand + ["-f", a.filename];
    assert cmd == head + (OptionArg("-U", a.user) + afterUser);
    assert cmd[..6] == BackupCommand && cmd[6] == "-f" && cmd[7] == a.filename;
    assert cmd[8..] == OptionArg("-U", a.user) + afterUser;
    assert "-h" != "-U" && "-p" != "-U" && "-p" != "-h" by {
      assert "-h"[1] != "-U"[1] && "-p"[1] != "-U"[1] && "-p"[1] != "-h"[1];
    }
    if a.port.Some? {
      assert afterHost[0] == "-p";
    } else {
      assert afterHost == afterPort && |afterPort| <= 1;
    }
    if a.host.Some? {
      assert afterUser[0] == "-h";
    } else {
      assert afterUser == afterHost;
    }
    if a.user.None? {
      assert OptionArg("-U", a.user) + afterUser == afterUser;
    }
    assert TakeFlag("-U", OptionArg("-U", a.user) + afterUser) == (a.user, afterUser);
    assert TakeFlag("-h", afterUser) == (a.host, afterHost);
    assert TakeFlag("-p", afterHost) == (a.port, afterPort);
  }

  /** `Postgres.dump(filename, db)`, up to the process start: the settings are read in the order USER,
      PASSWORD, HOST, PORT, NAME, so the first missing one is the KeyError raised. */
  function PgDumpFor(filename: string, db: string, databases: map<string, Conf>): Result<Invocation>
  {
    if db !in databases then Err(KeyError(db))
    else
      var conf := databases[db];
      if "USER" !in conf then Err(KeyError("USER"))
      else if "PASSWORD" !in conf then Err(KeyError("PASSWORD"))
      else if "HOST" !in conf then Err(KeyError("HOST"))
      else if "PORT" !in conf then Err(KeyError("PORT"))
      else if "NAME" !in conf then Err(KeyError("NAME"))
      else Ok(Invocation(PgDumpCommand(filename, conf["USER"], conf["HOST"], conf["PORT"], conf["NAME"]), PgDumpEnv(conf["PASSWORD"])))
  }

  /** `Postgres.dump`: copies the fixed head, extends it step by step and fills the environment. */
  method PostgresDump(filename: string, db: string, databases: map<string, Conf>) returns (r: Result<Invocation>)
    ensures r == PgDumpFor(filename, db, databases)
  {
    if db !in databases {
      return Err(KeyError(db));
    }
    var conf := databases[db];
    var environment: map<string, string> := map[];
    var command := BackupCommand;
    command := command + ["-f", filename];
    var user := Setting(conf, "USER");
    if user.Err? {
      return Err(user.error);
    }
    if user.value.Some? {
      command := command + ["-U", user.value.value];
    }
    var password := Setting(conf, "PASSWORD");
    if password.Err? {
      return Err(password.error);
    }
    if password.value.Some? {
      environment := environment["PGPASSWORD" := password.value.value];
    }
    var host := Setting(conf, "HOST");
    if host.Err? {
      return Err(host.error);
    }
    if host.value.Some? {
      command := command + ["-h", host.value.value];
    }
    var port := Setting(conf, "PORT");
    if port.Err? {
      return Err(port.error);
    }
    if port.value.Some? {
      command := command + ["-p", port.value.value];
    }
    var name := Setting(conf, "NAME");
    if name.Err? {
      return Err(name.error);
    }
    if name.value.Some? {
      command := command + [name.value.value];
    }
    assert command == PgDumpCommand(filename, user.value, host.value, port.value, name.value);
    r := Ok(Invocation(command, environment));
  }

  /** A successful dump runs a command that starts with the fixed head and "-f filename", carries every
      given setting back out, and runs with the password, when there is one, as its only variable. */
  lemma DumpSettings(filename: string, db: string, databases: map<string, Conf>)
    requires PgDumpFor(filename, db, databases).Ok?
    ensures var inv := PgDumpFor(filename, db, databases).value;
      && inv.command[..8] == BackupCommand + ["-f", filename]
      && ParseCommand(inv.command) == Some(DumpArgs(filename, databases[db]["USER"], databases[db]["HOST"], databases[db]["PORT"], databases[db]["NAME"]))
      && ("PGPASSWORD" in inv.env <==> databases[db]["PASSWORD"].Some?)
      && (forall k :: k in inv.env ==> k == "PGPASSWORD")
  {
    var conf := databases[db];
    CommandRoundTrip(DumpArgs(filename, conf["USER"], conf["HOST"], conf["PORT"], conf["NAME"]));
  }

  /** The settings of the Postgres tests. */
  const TestConf: Conf := map[
    "USER" := Some("xxuserxx"), "PASSWORD" := Some("xxpasswordxx"),
    "HOST" := Some("xxhostxx"), "PORT" := Some("xxportxx"), "NAME" := Some("xxnamexx")]

  const StdArgs: seq<string> := ["pg_dump", "-Fc", "-C", "-EUTF-8", "-b", "-o", "-f", "/var/tmp/foo"]

  /** With every setting given, and with USER set to None. */
  lemma DumpExamples()
    ensures PgDumpFor("/var/tmp/foo", "test", map["test" := TestConf]) ==
      Ok(Invocation(StdArgs + ["-U", "xxuserxx", "-h", "xxhostxx", "-p", "xxportxx", "xxnamexx"], map["PGPASSWORD" := "xxpasswordxx"]))
    ensures PgDumpFor("/var/tmp/foo", "test", map["test" := TestConf["USER" := None]]) ==
      Ok(Invocation(StdArgs + ["-h", "xxhostxx", "-p", "xxportxx", "xxnamexx"], map["PGPASSWORD" := "xxpasswordxx"]))
  {
    var c := TestConf;
    assert c["USER"] == Some("xxuserxx") && c["PASSWORD"] == Some("xxpasswordxx");
    assert c["HOST"] == Some("xxhostxx") && c["PORT"] == Some("xxportxx") && c["NAME"] == Some("xxnamexx");
    var full := PgDumpCommand("/var/tmp/foo", Some("xxuserxx"), Some("xxhostxx"), Some("xxportxx"), Some("xxnamexx"));
    assert full == StdArgs + ["-U", "xxuserxx", "-h", "xxhostxx", "-p", "xxportxx", "xxnamexx"];
    var noUser := PgDumpCommand("/var/tmp/foo", None, Some("xxhostxx"), Some("xxportxx"), Some("xxnamexx"));
    assert noUser == StdArgs + ["-h", "xxhostxx", "-p", "xxportxx", "xxnamexx"];
  }

  /** `remaining.remove(o)`: the list without the first occurrence of `o`, or ValueError when there is none. */
  function Remove(xs: seq<string>, o: string): (r: Result<seq<string>>)
    ensures r.Ok? <==> o in xs
  {
    if xs == [] then Err(ValueError(o))
    else if xs[0] == o then Ok(xs[1..])
    else match Remove(xs[1..], o)
      case Ok(ys) => Ok([xs[0]] + ys)
      case Err(e) => Err(e)
  }

  /** The loop `for o in order: remaining.remove(o)`, stopping at the first failure. */
  function RemoveAll(xs: seq<string>, order: seq<string>): Result<seq<string>>
  {
    if order == [] then Ok(xs)
    else match RemoveAll(xs, order[..|order| - 1])
      case Ok(ys) => Remove(ys, order[|order| - 1])
      case Err(e) => Err(e)
  }

  /** The names of `xs` that are not in `order`, in the order of `xs`. */
  function Others(xs: seq<string>, order: seq<string>): (r: seq<string>)
    ensures forall x :: x in r <==> x in xs && x !in order
  {
    if xs == [] then []
    else (if xs[0] in order then [] else [xs[0]]) + Others(xs[1..], order)
  }

  /** The driver class for one database: KeyError when it is not configured or has no ENGINE, and
      DatabaseBackupException when no class is registered for its engine. */
  function ResolveOne(db: string, databases: map<string, Conf>, registry: map<string, DbDriverClass>): (r: Result<DbDriverClass>)
    ensures r.Ok? <==> db in databases && "ENGINE" in databases[db] && databases[db]["ENGINE"].Some? && databases[db]["ENGINE"].value in registry
    ensures r.Ok? ==> r.value == registry[databases[db]["ENGINE"].value]
    ensures db !in databases ==> r == Err(KeyError(db))
    ensures db in databases && "ENGINE" !in databases[db] ==> r == Err(KeyError("ENGINE"))
    ensures db in databases && "ENGINE" in databases[db] && !r.Ok? ==>
      r == Err(DatabaseBackupException(databases[db]["ENGINE"]))
  {
    if db !in databases then Err(KeyError(db))
    else if "ENGINE" !in databases[db] then Err(KeyError("ENGINE"))
    else
      var engine := databases[db]["ENGINE"];
      if engine.None? || engine.value !in registry then Err(DatabaseBackupException(engine))
      else Ok(registry[engine.value])
  }

  /** The pairs `(db, driver)` for `dbs` in order, or the first database's failure. */
  function Resolve(dbs: seq<string>, databases: map<string, Conf>, registry: map<string, DbDriverClass>): Result<seq<(string, DbDriverClass)>>
  {
    if dbs == [] then Ok([])
    else match Resolve(dbs[..|dbs| - 1], databases, registry)
      case Err(e) => Err(e)
      case Ok(t) =>
        match ResolveOne(dbs[|dbs| - 1], databases, registry)
        case Err(e) => Err(e)
        case Ok(c) => Ok(t + [(dbs[|dbs| - 1], c)])
  }

  /** What `list(get_databases())` produces: remove the ordered names from the configured ones, then
      resolve the ordered names followed by the remaining ones. */
  function Ordered(order: seq<string>, keys: seq<string>, databases: map<string, Conf>, registry: map<string, DbDriverClass>): Result<seq<(string, DbDriverClass)>>
  {
    match RemoveAll(keys, order)
    case Err(e) => Err(e)
    case Ok(rest) => Resolve(order + rest, databases, registry)
  }

  /** `list(get_databases())`, with the settings' backup order (empty when unset) and the configured names
      in the settings' own order. */
  method GetDatabases(order: seq<string>, keys: seq<string>, databases: map<string, Conf>, registry: map<string, DbDriverClass>)
    returns (r: Result<seq<(string, DbDriverClass)>>)
    ensures r == Ordered(order, keys, databases, registry)
  {
    var remaining := keys;
    for i := 0 to |order|
      invariant RemoveAll(keys, order[..i]) == Ok(remaining)
    {
      assert order[..i + 1][..i] == order[..i];
      var removed := Remove(remaining, order[i]);
      if removed.Err? {
        assert RemoveAll(keys, order[..i + 1]) == removed;
        PrefixFails(keys, order, i + 1);
        return Err(removed.error);
      }
      remaining := removed.value;
    }
    assert order[..|order|] == order;
    var all := order + remaining;
    var result := [];
    for i := 0 to |all|
      invariant Resolve(all[..i], databases, registry) == Ok(result)
    {
      assert all[..i + 1][..i] == all[..i];
      var driver := ResolveOne(all[i], databases, registry);
      if driver.Err? {
        assert Resolve(all[..i + 1], databases, registry) == Err(driver.error);
        ResolvePrefixFails(all, i + 1, databases, registry);
        return Err(driver.error);
      }
      result := result + [(all[i], driver.value)];
    }
    assert all[..|all|] == all;
    r := Ok(result);
  }

  /** Once the removals fail, they fail the same way for every longer order. */
  lemma {:induction false} PrefixFails(keys: seq<string>, order: seq<string>, k: nat)
    requires k <= |order| && RemoveAll(keys, order[..k]).Err?
    ensures RemoveAll(keys, order) == RemoveAll(keys, order[..k])
    decreases |order| - k
  {
    if k < |order| {
      assert order[..k + 1][..k] == order[..k];
      PrefixFails(keys, order, k + 1);
    } else {
      assert order[..k] == order;
    }
  }

  /** Once resolving fails, it fails with the same error for every longer list. */
  lemma {:induction false} ResolvePrefixFails(dbs: seq<string>, k: nat, databases: map<string, Conf>, registry: map<string, DbDriverClass>)
    requires k <= |dbs| && Resolve(dbs[..k], databases, registry).Err?
    ensures Resolve(dbs, databases, registry) == Resolve(dbs[..k], databases, registry)
    decreases |dbs| - k
  {
    if k < |dbs| {
      assert dbs[..k + 1][..k] == dbs[..k];
      ResolvePrefixFails(dbs, k + 1, databases, registry);
    } else {
      assert dbs[..k] == dbs;
    }
  }

  /** Removing names that are not there leaves the list as it was. */
  lemma {:induction false} OthersNone(xs: seq<string>, order: seq<string>)
    requires forall x :: x in xs ==> x !in order
    ensures Others(xs, order) == xs
    decreases |xs|
  {
    if xs != [] {
      OthersNone(xs[1..], order);
      assert [xs[0]] + xs[1..] == xs;
    }
  }

  lemma {:induction false} OthersNoDup(xs: seq<string>, order: seq<string>)
    requires NoDup(xs)
    ensures NoDup(Others(xs, order))
    decreases |xs|
  {
    if xs != [] {
      assert NoDup(xs[1..]) by {
        forall i, j | 0 <= i < j < |xs[1..]|
          ensures xs[1..][i] != xs[1..][j]
        {
          assert xs[1..][i] == xs[i + 1] && xs[1..][j] == xs[j + 1];
        }
      }
      OthersNoDup(xs[1..], order);
      assert xs[0] !in xs[1..] by {
        forall j | 0 <= j < |xs[1..]|
          ensures xs[1..][j] != xs[0]
        {
          assert xs[1..][j] == xs[j + 1];
        }
      }
      NoDupConcat(if xs[0] in order then [] else [xs[0]], Others(xs[1..], order));
    }
  }

  lemma {:induction false} OthersSnoc(xs: seq<string>, order: seq<string>, o: string)
    ensures Others(xs, order + [o]) == Others(Others(xs, order), [o])
    decreases |xs|
  {
    if xs != [] {
      OthersSnoc(xs[1..], order, o);
      var rest := Others(xs[1..], order);
      assert xs[0] in order + [o] <==> xs[0] in order || xs[0] == o;
      if xs[0] !in order {
        assert Others(xs, order) == [xs[0]] + rest;
        assert ([xs[0]] + rest)[1..] == rest;
        assert xs[0] in [o] <==> xs[0] == o;
      } else {
        assert Others(xs, order) == [] + rest == rest;
        assert Others(xs, order + [o]) == [] + Others(rest, [o]);
      }
    }
  }

  /** On a list without repeats, `remove(o)` drops exactly `o` and keeps the order of the rest. */
  lemma {:induction false} RemoveUnique(xs: seq<string>, o: string)
    requires NoDup(xs) && o in xs
    ensures Remove(xs, o) == Ok(Others(xs, [o]))
    decreases |xs|
  {
    assert NoDup(xs[1..]) by {
      forall i, j | 0 <= i < j < |xs[1..]|
        ensures xs[1..][i] != xs[1..][j]
      {
        assert xs[1..][i] == xs[i + 1] && xs[1..][j] == xs[j + 1];
      }
    }
    if xs[0] == o {
      forall x | x in xs[1..]
        ensures x !in [o]
      {
        var j :| 0 <= j < |xs[1..]| && xs[1..][j] == x;
        assert xs[j + 1] == x;
      }
      OthersNone(xs[1..], [o]);
      assert xs[0] in [o];
      assert Others(xs, [o]) == [] + xs[1..] == xs[1..];
    } else {
      RemoveUnique(xs[1..], o);
    }
  }

  /** Removals only ever fail with ValueError. */
  lemma {:induction false} RemoveAllErrors(xs: seq<string>, order: seq<string>)
    ensures RemoveAll(xs, order).Err? ==> RemoveAll(xs, order).error.ValueError?
    decreases |order|
  {
    if order != [] {
      RemoveAllErrors(xs, order[..|order| - 1]);
      match RemoveAll(xs, order[..|order| - 1])
      case Ok(ys) => RemoveErrors(ys, order[|order| - 1]);
      case Err(_) =>
    }
  }

  lemma {:induction false} RemoveErrors(xs: seq<string>, o: string)
    ensures Remove(xs, o).Err? ==> Remove(xs, o) == Err(ValueError(o))
    decreases |xs|
  {
    if xs != [] && xs[0] != o {
      RemoveErrors(xs[1..], o);
    }
  }

  /** On configured names without repeats, the removals succeed exactly when the order names configured
      databases, none twice, and then leave the other names in their own order. */
  lemma {:induction false} RemoveAllOk(keys: seq<string>, order: seq<string>)
    requires NoDup(keys)
    ensures RemoveAll(keys, order).Ok? <==> NoDup(order) && forall o :: o in order ==> o in keys
    ensures RemoveAll(keys, order).Ok? ==> RemoveAll(keys, order).value == Others(keys, order)
    decreases |order|
  {
    if order == [] {
      OthersNone(keys, order);
    } else {
      var init, o := order[..|order| - 1], order[|order| - 1];
      assert order == init + [o];
      RemoveAllOk(keys, init);
      var good := NoDup(init) && forall x :: x in init ==> x in keys;
      if good {
        var rest := Others(keys, init);
        OthersNoDup(keys, init);
        OthersSnoc(keys, init, o);
        if o in rest {
          RemoveUnique(rest, o);
          NoDupConcat(init, [o]);
        } else {
          assert o !in keys || o in init;
          if o in init {
            var k :| 0 <= k < |init| && init[k] == o;
            assert order[k] == order[|order| - 1];
          }
        }
      } else {
        if !NoDup(init) {
          var i, j :| 0 <= i < j < |init| && init[i] == init[j];
          assert order[i] == order[j];
        } else {
          var x :| x in init && x !in keys;
          assert x in order;
        }
      }
    }
  }

  /** The names of the resolved pairs. */
  function DbNames(ps: seq<(string, DbDriverClass)>): (r: seq<string>)
    ensures |r| == |ps|
    ensures forall i :: 0 <= i < |ps| ==> r[i] == ps[i].0
  {
    if ps == [] then [] else DbNames(ps[..|ps| - 1]) + [ps[|ps| - 1].0]
  }

  /** Resolving succeeds exactly when every database resolves, and then pairs each with its own class. */
  lemma {:induction false} ResolveAll(dbs: seq<string>, databases: map<string, Conf>, registry: map<string, DbDriverClass>)
    ensures Resolve(dbs, databases, registry).Ok? <==> forall i :: 0 <= i < |dbs| ==> ResolveOne(dbs[i], databases, registry).Ok?
    ensures Resolve(dbs, databases, registry).Ok? ==>
      && DbNames(Resolve(dbs, databases, registry).value) == dbs
      && forall i :: 0 <= i < |dbs| ==> Resolve(dbs, databases, registry).value[i].1 == ResolveOne(dbs[i], databases, registry).value
    decreases |dbs|
  {
    if dbs != [] {
      var init := dbs[..|dbs| - 1];
      ResolveAll(init, databases, registry);
      if !(forall i :: 0 <= i < |init| ==> ResolveOne(init[i], databases, registry).Ok?) {
        var i :| 0 <= i < |init| && !ResolveOne(init[i], databases, registry).Ok?;
        assert dbs[i] == init[i];
      }
    }
  }

  /** `get_databases` fails with ValueError exactly when the backup order repeats a name or names a
      database that is not configured. */
  lemma OrderedValueError(order: seq<string>, keys: seq<string>, databases: map<string, Conf>, registry: map<string, DbDriverClass>)
    requires NoDup(keys)
    ensures var r := Ordered(order, keys, databases, registry);
      r.Err? && r.error.ValueError? <==> !(NoDup(order) && forall o :: o in order ==> o in keys)
  {
    RemoveAllOk(keys, order);
    RemoveAllErrors(keys, order);
    if RemoveAll(keys, order).Ok? {
      ResolveErrors(order + Others(keys, order), databases, registry);
    }
  }

  /** With a valid backup order, `get_databases` succeeds exactly when every configured database has an
      ENGINE with a registered class. */
  lemma OrderedSucceeds(order: seq<string>, keys: seq<string>, databases: map<string, Conf>, registry: map<string, DbDriverClass>)
    requires NoDup(keys) && NoDup(order) && forall o :: o in order ==> o in keys
    ensures Ordered(order, keys, databases, registry).Ok? <==> forall k :: k in keys ==> ResolveOne(k, databases, registry).Ok?
  {
    RemoveAllOk(keys, order);
    var all := order + Others(keys, order);
    ResolveAll(all, databases, registry);
    if Ordered(order, keys, databases, registry).Ok? {
      forall k | k in keys
        ensures ResolveOne(k, databases, registry).Ok?
      {
        assert k in all;
        var i :| 0 <= i < |all| && all[i] == k;
      }
    }
  }

  /** When `get_databases` succeeds, it yields the ordered names first, in their order, then every other
      configured name in the settings' order: every configured database exactly once, each with the class
      registered for its engine. */
  lemma OrderedExactlyOnce(order: seq<string>, keys: seq<string>, databases: map<string, Conf>, registry: map<string, DbDriverClass>)
    requires NoDup(keys) && forall k :: k in keys <==> k in databases
    requires Ordered(order, keys, databases, registry).Ok?
    ensures var ps := Ordered(order, keys, databases, registry).value;
      && DbNames(ps) == order + Others(keys, order)
      && NoDup(DbNames(ps))
      && (forall db :: db in DbNames(ps) <==> db in databases)
      && forall i :: 0 <= i < |ps| ==> ResolveOne(ps[i].0, databases, registry) == Ok(ps[i].1)
  {
    OrderedValueError(order, keys, databases, registry);
    RemoveAllOk(keys, order);
    var all := order + Others(keys, order);
    assert Ordered(order, keys, databases, registry) == Resolve(all, databases, registry);
    ResolveAll(all, databases, registry);
    var ps := Resolve(all, databases, registry).value;
    assert DbNames(ps) == all;
    OthersNoDup(keys, order);
    NoDupConcat(order, Others(keys, order));
    forall db
      ensures db in all <==> db in databases
    {
      assert db in all <==> db in order || db in Others(keys, order);
    }
    forall i | 0 <= i < |ps|
      ensures ResolveOne(ps[i].0, databases, registry) == Ok(ps[i].1)
    {
      assert ps[i].0 == DbNames(ps)[i] == all[i];
    }
  }

  /** Resolving never fails with ValueError. */
  lemma {:induction false} ResolveErrors(dbs: seq<string>, databases: map<string, Conf>, registry: map<string, DbDriverClass>)
    ensures Resolve(dbs, databases, registry).Err? ==> !Resolve(dbs, databases, registry).error.ValueError?
    decreases |dbs|
  {
    if dbs != [] {
      ResolveErrors(dbs[..|dbs| - 1], databases, registry);
    }
  }

  /** The settings of the ordering tests: three Postgres databases. */
  const ThreeDatabases: map<string, Conf> := map[
    "one" := map["ENGINE" := Some(PostgresEngine)],
    "two" := map["ENGINE" := Some(PostgresEngine)],
    "three" := map["ENGINE" := Some(PostgresEngine)]]

  /** With the backup order ["two"], "two" comes first and the others follow. */
  lemma OrderExample()
    ensures Ordered(["two"], ["one", "two", "three"], ThreeDatabases, Registry) ==
      Ok([("two", Postgres), ("one", Postgres), ("three", Postgres)])
  {
    assert "one" != "two" by { assert "one"[0] != "two"[0]; }
    assert ["one", "two", "three"][1..] == ["two", "three"] && ["two", "three"][1..] == ["three"];
    assert Remove(["two", "three"], "two") == Ok(["three"]);
    assert Remove(["one", "two", "three"], "two") == Ok(["one"] + ["three"]);
    assert ["one"] + ["three"] == ["one", "three"];
    assert ["two"][..0] == [];
    assert "two" != "three" && "one" != "three" by { assert "two"[1] != "three"[1] && "one"[0] != "three"[0]; }
    forall db | db in ["one", "two", "three"]
      ensures ResolveOne(db, ThreeDatabases, Registry) == Ok(Postgres)
    {
      assert db in ThreeDatabases && ThreeDatabases[db]["ENGINE"] == Some(PostgresEngine);
    }
    var all := ["two", "one", "three"];
    assert ["two"] + ["one", "three"] == all;
    assert all[..2] == ["two", "one"] && all[..2][..1] == ["two"] && ["two"][..0] == [];
    assert ResolveOne("two", ThreeDatabases, Registry) == Ok(Postgres);
    assert ResolveOne("one", ThreeDatabases, Registry) == Ok(Postgres);
    assert ResolveOne("three", ThreeDatabases, Registry) == Ok(Postgres);
    assert [] + [("two", Postgres)] == [("two", Postgres)];
    assert Resolve(["two"], ThreeDatabases, Registry) == Ok([("two", Postgres)]);
    assert ["two", "one"][..1] == ["two"];
    assert [("two", Postgres)] + [("one", Postgres)] == [("two", Postgres), ("one", Postgres)];
    assert Resolve(["two", "one"], ThreeDatabases, Registry) == Ok([("two", Postgres), ("one", Postgres)]);
    assert [("two", Postgres), ("one", Postgres)] + [("three", Postgres)] == [("two", Postgres), ("one", Postgres), ("three", Postgres)];
  }

  /** What `dump` did over a list of databases: the commands it ran, in order, and the failure that
      stopped it, if one did. */
  datatype DumpOutcome = DumpOutcome(runs: seq<Invocation>, failure: Option<Error>)

  /** One driver dump per database, in order, stopping at the first that fails. */
  function DumpAll(dbs: seq<(string, DbDriverClass)>, temps: seq<string>, databases: map<string, Conf>): DumpOutcome
    requires |temps| >= |dbs|
  {
    if dbs == [] then DumpOutcome([], None)
    else
      var prev := DumpAll(dbs[..|dbs| - 1], temps, databases);
      if prev.failure.Some? then prev
      else
        var (db, driver) := dbs[|dbs| - 1];
        match driver
        case Postgres =>
          match PgDumpFor(temps[|dbs| - 1], db, databases)
          case Err(e) => DumpOutcome(prev.runs, Some(e))
          case Ok(inv) => DumpOutcome(prev.runs + [inv], None)
  }

  /** The archive entries for the first k databases: "<db>.dmp" holding the k-th temporary file. */
  function DumpEntries(a: Archive, dbs: seq<(string, DbDriverClass)>, temps: seq<string>, k: nat): (r: seq<Entry>)
    requires k <= |dbs| && k <= |temps|
    ensures |r| == k
  {
    if k == 0 then [] else DumpEntries(a, dbs, temps, k - 1) + [(QualifiedName(a, dbs[k - 1].0 + ".dmp"), FileContents(temps[k - 1]))]
  }

  /** `dump` runs the databases' dumps in order until one fails: the i-th command is the i-th database's,
      and without a failure every database was dumped. */
  lemma {:induction false} DumpAllInOrder(dbs: seq<(string, DbDriverClass)>, temps: seq<string>, databases: map<string, Conf>)
    requires |temps| >= |dbs|
    ensures var out := DumpAll(dbs, temps, databases);
      && |out.runs| <= |dbs|
      && (out.failure.None? ==> |out.runs| == |dbs|)
      && (forall i :: 0 <= i < |out.runs| ==> PgDumpFor(temps[i], dbs[i].0, databases) == Ok(out.runs[i]))
      && (out.failure.Some? ==> |out.runs| < |dbs| && PgDumpFor(temps[|out.runs|], dbs[|out.runs|].0, databases) == Err(out.failure.value))
    decreases |dbs|
  {
    if dbs != [] {
      var init := dbs[..|dbs| - 1];
      DumpAllInOrder(init, temps, databases);
      var prev := DumpAll(init, temps, databases);
      if prev.failure.Some? {
        assert dbs[|prev.runs|] == init[|prev.runs|];
      }
      forall i | 0 <= i < |prev.runs|
        ensures dbs[i] == init[i]
      {
      }
    }
  }

  /** Once a dump fails, the longer lists fail the same way. */
  lemma {:induction false} DumpPrefixFails(dbs: seq<(string, DbDriverClass)>, k: nat, temps: seq<string>, databases: map<string, Conf>)
    requires k <= |dbs| <= |temps| && DumpAll(dbs[..k], temps, databases).failure.Some?
    ensures DumpAll(dbs, temps, databases) == DumpAll(dbs[..k], temps, databases)
    decreases |dbs| - k
  {
    if k < |dbs| {
      assert dbs[..k + 1][..k] == dbs[..k];
      DumpPrefixFails(dbs, k + 1, temps, databases);
    } else {
      assert dbs[..k] == dbs;
    }
  }

  /** One more database: its dump's outcome is added to the runs, or becomes the failure. */
  lemma DumpStep(dbs: seq<(string, DbDriverClass)>, i: nat, temps: seq<string>, databases: map<string, Conf>)
    requires i < |dbs| <= |temps| && DumpAll(dbs[..i], temps, databases).failure.None?
    ensures var prev := DumpAll(dbs[..i], temps, databases).runs;
      DumpAll(dbs[..i + 1], temps, databases) ==
        match PgDumpFor(temps[i], dbs[i].0, databases)
        case Ok(inv) => DumpOutcome(prev + [inv], None)
        case Err(e) => DumpOutcome(prev, Some(e))
  {
    assert dbs[..i + 1][..i] == dbs[..i];
    assert dbs[..i + 1][i] == dbs[i];
  }

  /** The names "<db>.dmp" for the databases, in order. */
  function DumpNames(dbs: seq<(string, DbDriverClass)>): (r: seq<string>)
    ensures |r| == |dbs|
  {
    if dbs == [] then [] else DumpNames(dbs[..|dbs| - 1]) + [dbs[|dbs| - 1].0 + ".dmp"]
  }

  /** Through a view with a non-empty prefix, the entries of the first k databases list back as their
      "<db>.dmp" names, in database order. */
  lemma {:induction false} DumpEntriesListed(a: Archive, dbs: seq<(string, DbDriverClass)>, temps: seq<string>, k: nat)
    requires a.prefix != "" && k <= |dbs| && k <= |temps|
    ensures Listed(a.prefix, Names(DumpEntries(a, dbs, temps, k))) == DumpNames(dbs[..k])
  {
    if k > 0 {
      DumpEntriesListed(a, dbs, temps, k - 1);
      var name := dbs[k - 1].0 + ".dmp";
      WrittenNameListed(a, DumpEntries(a, dbs, temps, k - 1), name, FileContents(temps[k - 1]));
      assert dbs[..k][..k - 1] == dbs[..k - 1];
      assert DumpNames(dbs[..k]) == DumpNames(dbs[..k - 1]) + [name];
      assert DumpEntries(a, dbs, temps, k) == DumpEntries(a, dbs, temps, k - 1) + [(QualifiedName(a, name), FileContents(temps[k - 1]))];
    }
  }

  /** `DatabaseDriver`: the chosen databases, set by `before_dump`, and the directory for its temporary files. */
  class DatabaseDriver {
    const tempdir: string
    var databases: Option<seq<(string, DbDriverClass)>>

    constructor (tempdir: string)
      ensures this.tempdir == tempdir && databases == None
    {
      this.tempdir := tempdir;
      databases := None;
    }

    /** `before_dump(archive)`: store the ordered databases and answer None, which a check treats as a
        pass; when ordering fails, the error propagates and nothing is stored. */
    method BeforeDump(archive: Archive, order: seq<string>, keys: seq<string>, settings: map<string, Conf>, registry: map<string, DbDriverClass>)
      returns (r: Result<PyValue>)
      modifies this`databases
      ensures Ordered(order, keys, settings, registry).Ok? ==>
        databases == Some(Ordered(order, keys, settings, registry).value) && r == Ok(PyNone)
      ensures Ordered(order, keys, settings, registry).Err? ==>
        databases == old(databases) && r == Err(Ordered(order, keys, settings, registry).error)
    {
      var dbs := GetDatabases(order, keys, settings, registry);
      if dbs.Err? {
        return Err(dbs.error);
      }
      databases := Some(dbs.value);
      r := Ok(PyNone);
    }

    /** `dump(archive)`: for each stored database, in order, run its driver's dump into the next temporary
        file and write that file to the archive as "<db>.dmp"; the first failing dump stops the loop. Before
        `before_dump` there are no stored databases and the attribute lookup fails. */
    method Dump(archive: Archive, temps: seq<string>, settings: map<string, Conf>) returns (r: Result<PyValue>, runs: seq<Invocation>)
      requires !archive.zip.closed
      requires databases.Some? ==> |temps| >= |databases.value|
      modifies archive.zip`entries
      ensures databases.None? ==> r == Err(AttributeError("databases")) && runs == [] && archive.zip.entries == old(archive.zip.entries)
      ensures databases.Some? ==>
        var out := DumpAll(databases.value, temps, settings);
        && runs == out.runs
        && |runs| <= |databases.value|
        && archive.zip.entries == old(archive.zip.entries) + DumpEntries(archive, databases.value, temps, |runs|)
        && r == (if out.failure.Some? then Err(out.failure.value) else Ok(PyNone))
    {
      if databases.None? {
        return Err(AttributeError("databases")), [];
      }
      var dbs := databases.value;
      runs := [];
      for i := 0 to |dbs|
        invariant DumpAll(dbs[..i], temps, settings) == DumpOutcome(runs, None)
        invariant |runs| == i
        invariant archive.zip.entries == old(archive.zip.entries) + DumpEntries(archive, dbs, temps, i)
      {
        var (db, driver) := dbs[i];
        var filename := temps[i];
        var inv := PostgresDump(filename, db, settings);
        DumpStep(dbs, i, temps, settings);
        if inv.Err? {
          DumpPrefixFails(dbs, i + 1, temps, settings);
          return Err(inv.error), runs;
        }
        runs := runs + [inv.value];
        Write(archive, filename, db + ".dmp");
        assert DumpEntries(archive, dbs, temps, i + 1) ==
          DumpEntries(archive, dbs, temps, i) + [(QualifiedName(archive, db + ".dmp"), FileContents(filename))];
      }
      assert dbs[..|dbs|] == dbs;
      r := Ok(PyNone);
    }
  }
}
