/** Properties of `Migrate`, proved on its specification `MigrateRun`. */
module ApplyProofs {
  import opened Reconcile

  /** The walk only adds ids of the registry; when it succeeds it has added
      every one of them that was not tracked yet. */
  lemma {:induction false} ApplyFromTracked(migs: seq<Migration>, i: nat, tracked: set<string>, env: Env)
    requires i <= |migs|
    ensures var r := ApplyFrom(migs, i, tracked, env);
      && tracked <= r.tracked <= tracked + IdsFrom(migs, i)
      && (r.err.None? ==> r.tracked == tracked + IdsFrom(migs, i))
    decreases |migs| - i
  {
    if i < |migs| {
      var m := migs[i];
      if env(Lookup(i)).Ok? {
        if m.id in tracked {
          ApplyFromTracked(migs, i + 1, tracked, env);
        } else {
          var t := Transaction(Up, i, m.id, tracked, env);
          if t.err.None? {
            ApplyFromTracked(migs, i + 1, t.tracked, env);
          }
        }
      }
    }
  }

  /** The walk from index `i` makes calls for indices i.. only, in registry
      order. */
  lemma {:induction false} ApplyFromOrder(migs: seq<Migration>, i: nat, tracked: set<string>, env: Env)
    requires i <= |migs|
    ensures var r := ApplyFrom(migs, i, tracked, env);
      Within(r.calls, i, |migs|) && Ascending(r.calls)
    decreases |migs| - i
  {
    if i < |migs| {
      var m := migs[i];
      if env(Lookup(i)).Ok? {
        var next := tracked;
        var head := [Lookup(i)];
        if m.id !in tracked {
          var t := Transaction(Up, i, m.id, tracked, env);
          head := head + t.calls;
          next := t.tracked;
          if t.err.Some? {
            return;
          }
        }
        ApplyFromOrder(migs, i + 1, next, env);
        var rest := ApplyFrom(migs, i + 1, next, env).calls;
        assert forall c :: c in head ==> Index(c) == i;
        AscendingConcat(head, rest, i);
      }
    }
  }

  lemma AscendingConcat(xs: seq<Call>, ys: seq<Call>, i: int)
    requires forall c :: c in xs ==> Index(c) == i
    requires Ascending(ys) && forall c :: c in ys ==> Index(c) > i
    ensures Ascending(xs + ys)
  {
  }

  /** The walk stops at its first failing call and reports it. */
  lemma {:induction false} ApplyFromReported(migs: seq<Migration>, i: nat, tracked: set<string>, env: Env)
    requires i <= |migs|
    ensures Reported(Up, ApplyFrom(migs, i, tracked, env), env)
    decreases |migs| - i
  {
    if i < |migs| {
      var m := migs[i];
      if env(Lookup(i)).Ok? {
        if m.id in tracked {
          ApplyFromReported(migs, i + 1, tracked, env);
          ReportedPrepend(Up, [Lookup(i)], ApplyFrom(migs, i + 1, tracked, env), env);
        } else {
          var t := Transaction(Up, i, m.id, tracked, env);
          if t.err.Some? {
            ReportedPrepend(Up, [Lookup(i)], t, env);
          } else {
            ApplyFromReported(migs, i + 1, t.tracked, env);
            var rest := ApplyFrom(migs, i + 1, t.tracked, env);
            ReportedPrepend(Up, [Lookup(i)] + t.calls, rest, env);
            assert [Lookup(i)] + t.calls + rest.calls == ([Lookup(i)] + t.calls) + rest.calls;
          }
        }
      }
    }
  }

  /** Only the migrations whose id was untracked when the walk started get
      anything but a lookup: no begin, insert, forward step or commit is
      ever made for an already tracked id. */
  lemma {:induction false} ApplyFromSkipsTracked(migs: seq<Migration>, i: nat, tracked: set<string>, env: Env)
    requires i <= |migs|
    ensures var r := ApplyFrom(migs, i, tracked, env);
      forall c :: c in r.calls && !c.CreateTable? && !c.Lookup? && c.index < |migs| ==> migs[c.index].id !in tracked
    decreases |migs| - i
  {
    if i < |migs| {
      var m := migs[i];
      if env(Lookup(i)).Ok? {
        if m.id in tracked {
          ApplyFromSkipsTracked(migs, i + 1, tracked, env);
        } else {
          var t := Transaction(Up, i, m.id, tracked, env);
          if t.err.None? {
            ApplyFromSkipsTracked(migs, i + 1, t.tracked, env);
          }
        }
      }
    }
  }

  /** The table changes only by the commits that succeeded: each adds the
      id of its migration. */
  lemma {:induction false} ApplyFromCommitted(migs: seq<Migration>, i: nat, tracked: set<string>, env: Env)
    requires i <= |migs|
    ensures var r := ApplyFrom(migs, i, tracked, env);
      r.tracked == tracked + Committed(migs, r.calls, env)
    decreases |migs| - i
  {
    if i == |migs| {
      assert Committed(migs, [], env) == {};
    } else {
      var m := migs[i];
      if env(Lookup(i)).Fail? {
        assert Committed(migs, [Lookup(i)], env) == {};
      } else if m.id in tracked {
        ApplyFromCommitted(migs, i + 1, tracked, env);
        var rest := ApplyFrom(migs, i + 1, tracked, env);
        CommittedConcat(migs, [Lookup(i)], rest.calls, env);
        assert Committed(migs, [Lookup(i)], env) == {};
      } else {
        var t := Transaction(Up, i, m.id, tracked, env);
        CommittedConcat(migs, [Lookup(i)], t.calls, env);
        assert Committed(migs, [Lookup(i)], env) == {};
        if t.err.Some? {
          assert Committed(migs, t.calls, env) == {};
        } else {
          assert Committed(migs, t.calls, env) == {m.id};
          ApplyFromCommitted(migs, i + 1, t.tracked, env);
          var rest := ApplyFrom(migs, i + 1, t.tracked, env);
          CommittedConcat(migs, [Lookup(i)] + t.calls, rest.calls, env);
        }
      }
    }
  }

  /** When the table cannot be created, `Migrate` returns that error before
      any lookup and the table is unchanged. */
  lemma MigrateBootstrapFailure(migs: seq<Migration>, tracked: set<string>, env: Env)
    requires env(CreateTable).Fail?
    ensures MigrateRun(migs, tracked, env)
         == Run(Some(CreatingTable(env(CreateTable).cause)), tracked, [CreateTable])
  {
  }

  /** After `Migrate`, every id it added is a registry id that was untracked
      before; when it succeeds every registry id is tracked. */
  lemma MigrateTracked(migs: seq<Migration>, tracked: set<string>, env: Env)
    ensures var r := MigrateRun(migs, tracked, env);
      && tracked <= r.tracked
      && (forall x :: x in r.tracked - tracked ==> exists m :: m in migs && m.id == x)
      && (r.err.None? ==> forall m :: m in migs ==> m.id in r.tracked)
  {
    ApplyFromTracked(migs, 0, tracked, env);
    var r := MigrateRun(migs, tracked, env);
    forall x | x in r.tracked - tracked ensures exists m :: m in migs && m.id == x {
      var j :| 0 <= j < |migs| && migs[j].id == x;
      assert migs[j] in migs;
    }
  }

  /** `Migrate` bootstraps first, then visits the registry in order. */
  lemma MigrateOrder(migs: seq<Migration>, tracked: set<string>, env: Env)
    ensures var r := MigrateRun(migs, tracked, env);
      && r.calls[0] == CreateTable
      && Within(r.calls[1..], 0, |migs|)
      && Ascending(r.calls)
  {
    ApplyFromOrder(migs, 0, tracked, env);
    var r := MigrateRun(migs, tracked, env);
    if env(CreateTable).Ok? {
      var rest := ApplyFrom(migs, 0, tracked, env).calls;
      assert r.calls[1..] == rest;
      AscendingConcat([CreateTable], rest, -1);
    }
  }

  /** `Migrate` stops at the first failing call, attempts nothing after it,
      and returns its error wrapped for the phase that failed; it succeeds
      exactly when every call it made succeeded. */
  lemma MigrateReported(migs: seq<Migration>, tracked: set<string>, env: Env)
    ensures Reported(Up, MigrateRun(migs, tracked, env), env)
  {
    if env(CreateTable).Ok? {
      ApplyFromReported(migs, 0, tracked, env);
      ReportedPrepend(Up, [CreateTable], ApplyFrom(migs, 0, tracked, env), env);
    }
  }

  /** A forward step (or any part of its transaction) is never attempted for
      an id that was tracked when `Migrate` started. */
  lemma MigrateSkipsTracked(migs: seq<Migration>, tracked: set<string>, env: Env)
    ensures var r := MigrateRun(migs, tracked, env);
      forall k: nat :: Forward(k) in r.calls && k < |migs| ==> migs[k].id !in tracked
  {
    ApplyFromSkipsTracked(migs, 0, tracked, env);
  }

  /** Each migration is all-or-nothing: the table gains exactly the ids of
      the migrations whose commit succeeded. */
  lemma MigrateAtomic(migs: seq<Migration>, tracked: set<string>, env: Env)
    ensures var r := MigrateRun(migs, tracked, env);
      r.tracked == tracked + Committed(migs, r.calls, env)
  {
    if env(CreateTable).Ok? {
      ApplyFromCommitted(migs, 0, tracked, env);
      CommittedConcat(migs, [CreateTable], ApplyFrom(migs, 0, tracked, env).calls, env);
      assert Committed(migs, [CreateTable], env) == {};
    } else {
      assert Committed(migs, [CreateTable], env) == {};
    }
  }

  /** Once every registry id is tracked, `Migrate` only bootstraps and looks
      up: it runs no transaction and leaves the table as it was. */
  lemma MigrateWhenAllTracked(migs: seq<Migration>, tracked: set<string>, env: Env)
    requires forall m :: m in migs ==> m.id in tracked
    ensures var r := MigrateRun(migs, tracked, env);
      && r.tracked == tracked
      && forall c :: c in r.calls ==> c.CreateTable? || c.Lookup?
  {
    forall x | x in IdsFrom(migs, 0) ensures x in tracked {
      var j :| 0 <= j < |migs| && migs[j].id == x;
      assert migs[j] in migs;
    }
    ApplyFromTracked(migs, 0, tracked, env);
    if env(CreateTable).Ok? {
      ApplyFromOrder(migs, 0, tracked, env);
      ApplyFromSkipsTracked(migs, 0, tracked, env);
      var rest := ApplyFrom(migs, 0, tracked, env).calls;
      forall c | c in rest ensures c.Lookup? {
        assert migs[c.index] in migs;
      }
    }
  }

  /** A second `Migrate` after a successful one, whatever its environment,
      runs no forward step and leaves the table unchanged. */
  lemma MigrateIdempotent(migs: seq<Migration>, tracked: set<string>, env1: Env, env2: Env)
    requires MigrateRun(migs, tracked, env1).err.None?
    ensures var first := MigrateRun(migs, tracked, env1);
      var second := MigrateRun(migs, first.tracked, env2);
      && second.tracked == first.tracked
      && (forall c :: c in second.calls ==> c.CreateTable? || c.Lookup?)
      && (second.err.None? <==> AllOk(second.calls, env2))
  {
    var first := MigrateRun(migs, tracked, env1);
    MigrateTracked(migs, tracked, env1);
    MigrateWhenAllTracked(migs, first.tracked, env2);
    var second := MigrateRun(migs, first.tracked, env2);
    MigrateReported(migs, first.tracked, env2);
  }
}
