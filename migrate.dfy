/** The migrator as the Go package has it: a database handle whose
    `migrations` table the migrator changes in place, and `SqlxMigrate`,
    whose `Migrate` and `Rollback` loops are proved to do what `MigrateRun`
    and `RollbackRun` specify. */
module Migrate {
  import opened Reconcile
  import ApplyProofs
  import RollbackProofs

  /** The drivers `New` accepts. */
  const SupportedDrivers: set<string> := {"sqlite3", "mysql"}

  /** The driver check of `New`. */
  function CheckDriver(driverName: string): (r: Option<Error>)
    ensures r.None? <==> driverName == "sqlite3" || driverName == "mysql"
    ensures r.Some? ==> r.value == UnsupportedDriver(driverName)
  {
    if driverName in SupportedDrivers then None else Some(UnsupportedDriver(driverName))
  }

  /** An open transaction: its own view of the `migrations` table. */
  datatype Tx = Tx(view: set<string>)

  /** A database handle: its driver and the rows of its `migrations` table.
      Each call takes its outcome from `env` and is recorded in `calls`. */
  class DB {
    const driverName: string
    var tracked: set<string>
    ghost var calls: seq<Call>

    constructor (driverName: string, tracked: set<string>)
      ensures this.driverName == driverName && this.tracked == tracked && calls == []
    {
      this.driverName := driverName;
      this.tracked := tracked;
      calls := [];
    }

    /** `CREATE TABLE IF NOT EXISTS migrations`: never changes the rows. */
    method ExecCreateTable(env: Env) returns (o: Outcome)
      modifies this`calls
      ensures o == env(CreateTable)
      ensures calls == old(calls) + [CreateTable]
    {
      o := env(CreateTable);
      calls := calls + [CreateTable];
    }

    /** `SELECT id FROM migrations WHERE id=?` for the migration at `i`. */
    method Get(id: string, i: nat, env: Env) returns (r: LookupResult)
      modifies this`calls
      ensures r.LookupFailed? <==> env(Lookup(i)).Fail?
      ensures r.LookupFailed? ==> r.cause == env(Lookup(i)).cause
      ensures r.Found? <==> env(Lookup(i)).Ok? && id in tracked
      ensures calls == old(calls) + [Lookup(i)]
    {
      r := Classify(env(Lookup(i)), id in tracked);
      calls := calls + [Lookup(i)];
    }

    method Beginx(i: nat, env: Env) returns (tx: Tx, o: Outcome)
      modifies this`calls
      ensures o == env(Begin(i)) && tx.view == tracked
      ensures calls == old(calls) + [Begin(i)]
    {
      o := env(Begin(i));
      tx := Tx(tracked);
      calls := calls + [Begin(i)];
    }

    /** `INSERT INTO migrations (id) VALUES (?)` inside `tx`. */
    method TxInsert(tx: Tx, id: string, i: nat, env: Env) returns (tx': Tx, o: Outcome)
      modifies this`calls
      ensures o == env(Insert(i))
      ensures tx'.view == if o.Ok? then tx.view + {id} else tx.view
      ensures calls == old(calls) + [Insert(i)]
    {
      o := env(Insert(i));
      tx' := if o.Ok? then Tx(tx.view + {id}) else tx;
      calls := calls + [Insert(i)];
    }

    /** `DELETE FROM migrations WHERE id=?` inside `tx`. */
    method TxDelete(tx: Tx, id: string, i: nat, env: Env) returns (tx': Tx, o: Outcome)
      modifies this`calls
      ensures o == env(Delete(i))
      ensures tx'.view == if o.Ok? then tx.view - {id} else tx.view
      ensures calls == old(calls) + [Delete(i)]
    {
      o := env(Delete(i));
      tx' := if o.Ok? then Tx(tx.view - {id}) else tx;
      calls := calls + [Delete(i)];
    }

    /** A user step (`Forward` or `Backward`) run with `tx`; what it does to
        other tables is not modelled, it leaves the `migrations` rows alone. */
    method TxStep(tx: Tx, step: Call, env: Env) returns (o: Outcome)
      requires step.Forward? || step.Backward?
      modifies this`calls
      ensures o == env(step)
      ensures calls == old(calls) + [step]
    {
      o := env(step);
      calls := calls + [step];
    }

    /** Commit `tx`: its view becomes the table, or nothing changes. */
    method TxCommit(tx: Tx, i: nat, env: Env) returns (o: Outcome)
      modifies this
      ensures o == env(Commit(i))
      ensures tracked == if o.Ok? then tx.view else old(tracked)
      ensures calls == old(calls) + [Commit(i)]
    {
      o := env(Commit(i));
      if o.Ok? {
        tracked := tx.view;
      }
      calls := calls + [Commit(i)];
    }
  }

  class SqlxMigrate {
    const db: DB
    const migrations: seq<Migration>

    constructor (db: DB, migrations: seq<Migration>)
      ensures this.db == db && this.migrations == migrations
    {
      this.db := db;
      this.migrations := migrations;
    }

    /** Migrates the registry: afterwards the table and the error are what
        `MigrateRun` says, so on success every registry id is tracked. */
    method Migrate(env: Env) returns (err: Option<Error>)
      modifies db
      ensures var r := MigrateRun(migrations, old(db.tracked), env);
        err == r.err && db.tracked == r.tracked && db.calls == old(db.calls) + r.calls
      ensures err.None? ==> forall m :: m in migrations ==> m.id in db.tracked
    {
      ghost var t0, c0 := db.tracked, db.calls;
      ghost var spec := MigrateRun(migrations, t0, env);
      err := CreateMigrationTable(env);
      if err.Some? {
        return;
      }
      ConcatAssoc(c0, [CreateTable], ApplyFrom(migrations, 0, t0, env).calls);
      var i := 0;
      while i < |migrations|
        invariant 0 <= i <= |migrations|
        invariant err.None?
        invariant spec.err == ApplyFrom(migrations, i, db.tracked, env).err
        invariant spec.tracked == ApplyFrom(migrations, i, db.tracked, env).tracked
        invariant c0 + spec.calls == db.calls + ApplyFrom(migrations, i, db.tracked, env).calls
      {
        var migration := migrations[i];
        ghost var before, log := db.tracked, db.calls;
        var found := db.Get(migration.id, i, env);
        match found {
          case NotFound =>
          case Found =>
            ConcatAssoc(log, [Lookup(i)], ApplyFrom(migrations, i + 1, before, env).calls);
            i := i + 1;
            continue;
          case LookupFailed(cause) =>
            return Some(LookingUpMigration(cause));
        }
        ghost var t := Transaction(Up, i, migration.id, before, env);
        err := RunMigration(migration, i, env);
        if err.Some? {
          ConcatAssoc(log, [Lookup(i)], t.calls);
          return;
        }
        ghost var next := ApplyFrom(migrations, i + 1, t.tracked, env).calls;
        ConcatAssoc(log, [Lookup(i)], t.calls);
        ConcatAssoc(log + [Lookup(i)], t.calls, next);
        ConcatAssoc(log, [Lookup(i)] + t.calls, next);
        i := i + 1;
      }
      ApplyProofs.MigrateTracked(migrations, t0, env);
    }

    /** Rolls back the registry from its last entry to its first: afterwards
        the table and the error are what `RollbackRun` says, so on success
        no id of a reversible migration is tracked. */
    method Rollback(env: Env) returns (err: Option<Error>)
      modifies db
      ensures var r := RollbackRun(migrations, old(db.tracked), env);
        err == r.err && db.tracked == r.tracked && db.calls == old(db.calls) + r.calls
      ensures err.None? ==> forall m :: m in migrations && m.hasRollback ==> m.id !in db.tracked
    {
      ghost var t0, c0 := db.tracked, db.calls;
      ghost var spec := RollbackRun(migrations, t0, env);
      err := CreateMigrationTable(env);
      if err.Some? {
        return;
      }
      ConcatAssoc(c0, [CreateTable], RevertBelow(migrations, |migrations|, t0, env).calls);
      var i := |migrations| - 1;
      while i >= 0
        invariant -1 <= i < |migrations|
        invariant err.None?
        invariant spec.err == RevertBelow(migrations, i + 1, db.tracked, env).err
        invariant spec.tracked == RevertBelow(migrations, i + 1, db.tracked, env).tracked
        invariant c0 + spec.calls == db.calls + RevertBelow(migrations, i + 1, db.tracked, env).calls
      {
        var migration := migrations[i];
        if !migration.hasRollback {
          i := i - 1;
          continue;
        }
        ghost var before, log := db.tracked, db.calls;
        var found := db.Get(migration.id, i, env);
        match found {
          case NotFound =>
            ConcatAssoc(log, [Lookup(i)], RevertBelow(migrations, i, before, env).calls);
            i := i - 1;
            continue;
          case Found =>
          case LookupFailed(cause) =>
            return Some(LookingUpRollback(cause));
        }
        ghost var t := Transaction(Down, i, migration.id, before, env);
        err := RunRollback(migration, i, env);
        if err.Some? {
          ConcatAssoc(log, [Lookup(i)], t.calls);
          return;
        }
        ghost var next := RevertBelow(migrations, i, t.tracked, env).calls;
        ConcatAssoc(log, [Lookup(i)], t.calls);
        ConcatAssoc(log + [Lookup(i)], t.calls, next);
        ConcatAssoc(log, [Lookup(i)] + t.calls, next);
        i := i - 1;
      }
      RollbackProofs.RollbackTracked(migrations, t0, env);
    }

    /** The bootstrap: its failure is wrapped, the rows never change. */
    method CreateMigrationTable(env: Env) returns (err: Option<Error>)
      modifies db`calls
      ensures err.None? <==> env(CreateTable).Ok?
      ensures err.Some? ==> err.value == CreatingTable(env(CreateTable).cause)
      ensures db.calls == old(db.calls) + [CreateTable]
    {
      var o := db.ExecCreateTable(env);
      if o.Fail? {
        return Some(CreatingTable(o.cause));
      }
      return None;
    }

    /** Inserts the id and runs the forward step in one transaction: the id
        is tracked afterwards exactly when every call succeeded. */
    method RunMigration(migration: Migration, i: nat, env: Env) returns (err: Option<Error>)
      modifies db
      ensures var t := Transaction(Up, i, migration.id, old(db.tracked), env);
        err == t.err && db.tracked == t.tracked && db.calls == old(db.calls) + t.calls
    {
      var tx, o := db.Beginx(i, env);
      if o.Fail? {
        return Some(RunningMigration(o.cause));
      }
      tx, o := db.TxInsert(tx, migration.id, i, env);
      if o.Fail? {
        return Some(RunningMigration(o.cause));
      }
      o := db.TxStep(tx, Forward(i), env);
      if o.Fail? {
        return Some(RunningMigration(o.cause));
      }
      o := db.TxCommit(tx, i, env);
      if o.Fail? {
        return Some(RunningMigration(o.cause));
      }
      return None;
    }

    /** Deletes the id and runs the reverse step in one transaction: the id
        is gone afterwards exactly when every call succeeded, and otherwise
        the table is unchanged. */
    method RunRollback(migration: Migration, i: nat, env: Env) returns (err: Option<Error>)
      modifies db
      ensures var t := Transaction(Down, i, migration.id, old(db.tracked), env);
        err == t.err && db.tracked == t.tracked && db.calls == old(db.calls) + t.calls
    {
      var tx, o := db.Beginx(i, env);
      if o.Fail? {
        return Some(RunningRollback(o.cause));
      }
      tx, o := db.TxDelete(tx, migration.id, i, env);
      if o.Fail? {
        return Some(RunningRollback(o.cause));
      }
      o := db.TxStep(tx, Backward(i), env);
      if o.Fail? {
        return Some(RunningRollback(o.cause));
      }
      o := db.TxCommit(tx, i, env);
      if o.Fail? {
        return Some(RunningRollback(o.cause));
      }
      return None;
    }
  }

  /** Builds a migrator for a supported driver; otherwise returns the error
      and no migrator. */
  method New(db: DB, migrations: seq<Migration>) returns (m: SqlxMigrate?, err: Option<Error>)
    ensures err == CheckDriver(db.driverName)
    ensures err.Some? ==> m == null
    ensures err.None? ==> m != null && fresh(m) && m.db == db && m.migrations == migrations
  {
    err := CheckDriver(db.driverName);
    if err.Some? {
      return null, err;
    }
    m := new SqlxMigrate(db, migrations);
  }
}
