/** The scenarios of the package's integration tests, with a database on
    which every call succeeds. */
module Scenarios {
  import opened Reconcile
  import Migrate

  /** An environment in which no call fails. */
  const NoFaults: Env := (c: Call) => Ok

  /** Apply a reversible migration "1", apply again, roll back, apply once
      more: the second apply only looks up, the rollback removes the row,
      and the last apply repeats the first. */
  lemma ApplyRollbackReapply()
    ensures var migs := [Migration("1", true)];
      var first := MigrateRun(migs, {}, NoFaults);
      var second := MigrateRun(migs, first.tracked, NoFaults);
      var back := RollbackRun(migs, second.tracked, NoFaults);
      var again := MigrateRun(migs, back.tracked, NoFaults);
      && first == Run(None, {"1"}, [CreateTable, Lookup(0), Begin(0), Insert(0), Forward(0), Commit(0)])
      && second == Run(None, {"1"}, [CreateTable, Lookup(0)])
      && back == Run(None, {}, [CreateTable, Lookup(0), Begin(0), Delete(0), Backward(0), Commit(0)])
      && again == first
  {
  }

  /** With "1" already tracked, a registry of "1" and "2" skips "1" and
      runs only "2". */
  lemma ExistingMigrations()
    ensures var migs := [Migration("1", false), Migration("2", false)];
      MigrateRun(migs, {"1"}, NoFaults)
      == Run(None, {"1", "2"}, [CreateTable, Lookup(0), Lookup(1), Begin(1), Insert(1), Forward(1), Commit(1)])
  {
  }

  /** The same round trip through `New` and the migrator's methods. */
  method RoundTrip()
  {
    var db := new Migrate.DB("sqlite3", {});
    var m, err := Migrate.New(db, [Migration("1", true)]);
    assert err.None?;
    err := m.Migrate(NoFaults);
    assert err.None? && db.tracked == {"1"};
    err := m.Rollback(NoFaults);
    assert err.None? && db.tracked == {};
    err := m.Migrate(NoFaults);
    assert err.None? && db.tracked == {"1"};

    var other := new Migrate.DB("postgres", {});
    var none, refused := Migrate.New(other, []);
    assert none == null && refused == Some(UnsupportedDriver("postgres"));
  }
}
