/** Properties of `Rollback`, proved on its specification `RollbackRun`. */
module RollbackProofs {
  import opened Reconcile
  import ApplyProofs

  /** The backward walk only removes ids of reversible migrations below
      `n`; when it succeeds it has removed every one of them. */
  lemma {:induction false} RevertBelowTracked(migs: seq<Migration>, n: nat, tracked: set<string>, env: Env)
    requires n <= |migs|
    ensures var r := RevertBelow(migs, n, tracked, env);
      && tracked - ReversibleBelow(migs, n) <= r.tracked <= tracked
      && (r.err.None? ==> r.tracked == tracked - ReversibleBelow(migs, n))
    decreases n
  {
    if n > 0 {
      var i := n - 1;
      var m := migs[i];
      if !m.hasRollback {
        RevertBelowTracked(migs, i, tracked, env);
      } else if env(Lookup(i)).Ok? {
        if m.id !in tracked {
          RevertBelowTracked(migs, i, tracked, env);
        } else {
          var t := Transaction(Down, i, m.id, tracked, env);
          if t.err.None? {
            RevertBelowTracked(migs, i, t.tracked, env);
          }
        }
      }
    }
  }

  /** The backward walk below `n` makes calls for indices below `n` only,
      from the last to the first, and none for a migration without a
      reverse step. */
  lemma {:induction false} RevertBelowOrder(migs: seq<Migration>, n: nat, tracked: set<string>, env: Env)
    requires n <= |migs|
    ensures var r := RevertBelow(migs, n, tracked, env);
      && Within(r.calls, 0, n)
      && Descending(r.calls)
      && forall c :: c in r.calls && !c.CreateTable? && c.index < |migs| ==> migs[c.index].hasRollback
    decreases n
  {
    if n > 0 {
      var i := n - 1;
      var m := migs[i];
      if !m.hasRollback {
        RevertBelowOrder(migs, i, tracked, env);
      } else if env(Lookup(i)).Ok? {
        var next := tracked;
        var head := [Lookup(i)];
        if m.id in tracked {
          var t := Transaction(Down, i, m.id, tracked, env);
          head := head + t.calls;
          next := t.tracked;
          if t.err.Some? {
            return;
          }
        }
        RevertBelowOrder(migs, i, next, env);
        var rest := RevertBelow(migs, i, next, env).calls;
        assert forall c :: c in head ==> Index(c) == i;
        DescendingConcat(head, rest, i);
      }
    }
  }

  lemma DescendingConcat(xs: seq<Call>, ys: seq<Call>, i: int)
    requires forall c :: c in xs ==> Index(c) == i
    requires Descending(ys) && forall c :: c in ys ==> Index(c) < i
    ensures Descending(xs + ys)
  {
  }

  /** The backward walk stops at its first failing call and reports it. */
  lemma {:induction false} RevertBelowReported(migs: seq<Migration>, n: nat, tracked: set<string>, env: Env)
    requires n <= |migs|
    ensures Reported(Down, RevertBelow(migs, n, tracked, env), env)
    decreases n
  {
    if n > 0 {
      var i := n - 1;
      var m := migs[i];
      if !m.hasRollback {
        RevertBelowReported(migs, i, tracked, env);
      } else if env(Lookup(i)).Ok? {
        if m.id !in tracked {
          RevertBelowReported(migs, i, tracked, env);
          ReportedPrepend(Down, [Lookup(i)], RevertBelow(migs, i, tracked, env), env);
        } else {
          var t := Transaction(Down, i, m.id, tracked, env);
          if t.err.Some? {
            ReportedPrepend(Down, [Lookup(i)], t, env);
          } else {
            RevertBelowReported(migs, i, t.tracked, env);
            var rest := RevertBelow(migs, i, t.tracked, env);
            ReportedPrepend(Down, [Lookup(i)] + t.calls, rest, env);
            assert [Lookup(i)] + t.calls + rest.calls == ([Lookup(i)] + t.calls) + rest.calls;
          }
        }
      }
    }
  }

  /** A reverse step (or any part of its transaction) is only attempted for
      an id that was tracked when the walk started. */
  lemma {:induction false} RevertBelowOnlyTracked(migs: seq<Migration>, n: nat, tracked: set<string>, env: Env)
    requires n <= |migs|
    ensures var r := RevertBelow(migs, n, tracked, env);
      forall c :: c in r.calls && !c.CreateTable? && !c.Lookup? && c.index < |migs| ==> migs[c.index].id in tracked
    decreases n
  {
    if n > 0 {
      var i := n - 1;
      var m := migs[i];
      if !m.hasRollback {
        RevertBelowOnlyTracked(migs, i, tracked, env);
      } else if env(Lookup(i)).Ok? {
        if m.id !in tracked {
          RevertBelowOnlyTracked(migs, i, tracked, env);
        } else {
          var t := Transaction(Down, i, m.id, tracked, env);
          if t.err.None? {
            RevertBelowOnlyTracked(migs, i, t.tracked, env);
            var rest := RevertBelow(migs, i, t.tracked, env);
            forall c | c in rest.calls && !c.CreateTable? && !c.Lookup? && c.index < |migs|
              ensures migs[c.index].id in tracked
            {
            }
          }
        }
      }
    }
  }

  /** The table changes only by the commits that succeeded: each removes the
      id of its migration. */
  lemma {:induction false} RevertBelowCommitted(migs: seq<Migration>, n: nat, tracked: set<string>, env: Env)
    requires n <= |migs|
    ensures var r := RevertBelow(migs, n, tracked, env);
      r.tracked == tracked - Committed(migs, r.calls, env)
    decreases n
  {
    if n == 0 {
      assert Committed(migs, [], env) == {};
    } else {
      var i := n - 1;
      var m := migs[i];
      if !m.hasRollback {
        RevertBelowCommitted(migs, i, tracked, env);
      } else if env(Lookup(i)).Fail? {
        assert Committed(migs, [Lookup(i)], env) == {};
      } else if m.id !in tracked {
        RevertBelowCommitted(migs, i, tracked, env);
        var rest := RevertBelow(migs, i, tracked, env);
        CommittedConcat(migs, [Lookup(i)], rest.calls, env);
        assert Committed(migs, [Lookup(i)], env) == {};
      } else {
        var t := Transaction(Down, i, m.id, tracked, env);
        CommittedConcat(migs, [Lookup(i)], t.calls, env);
        assert Committed(migs, [Lookup(i)], env) == {};
        if t.err.Some? {
          assert Committed(migs, t.calls, env) == {};
        } else {
          assert Committed(migs, t.calls, env) == {m.id};
          RevertBelowCommitted(migs, i, t.tracked, env);
          var rest := RevertBelow(migs, i, t.tracked, env);
          CommittedConcat(migs, [Lookup(i)] + t.calls, rest.calls, env);
        }
      }
    }
  }

  /** When the table cannot be created, `Rollback` returns that error before
      any lookup and the table is unchanged. */
  lemma RollbackBootstrapFailure(migs: seq<Migration>, tracked: set<string>, env: Env)
    requires env(CreateTable).Fail?
    ensures RollbackRun(migs, tracked, env)
         == Run(Some(CreatingTable(env(CreateTable).cause)), tracked, [CreateTable])
  {
  }

  /** `Rollback` only removes ids of migrations with a reverse step; when it
      succeeds every such id is gone, and every other id keeps its
      membership either way. */
  lemma RollbackTracked(migs: seq<Migration>, tracked: set<string>, env: Env)
    ensures var r := RollbackRun(migs, tracked, env);
      && r.tracked <= tracked
      && (forall x :: x in tracked - r.tracked ==> exists m :: m in migs && m.hasRollback && m.id == x)
      && (r.err.None? ==> forall m :: m in migs && m.hasRollback ==> m.id !in r.tracked)
  {
    RevertBelowTracked(migs, |migs|, tracked, env);
    var r := RollbackRun(migs, tracked, env);
    forall x | x in tracked - r.tracked ensures exists m :: m in migs && m.hasRollback && m.id == x {
      var j :| 0 <= j < |migs| && migs[j].hasRollback && migs[j].id == x;
      assert migs[j] in migs;
    }
    if r.err.None? {
      forall m | m in migs && m.hasRollback ensures m.id !in r.tracked {
        var j :| 0 <= j < |migs| && migs[j] == m;
        assert m.id in ReversibleBelow(migs, |migs|);
      }
    }
  }

  /** A migration without a reverse step gets no call at all from
      `Rollback`, so its row is left as it was unless a reversible entry
      shares its id. */
  lemma RollbackSkipsIrreversible(migs: seq<Migration>, tracked: set<string>, env: Env)
    ensures var r := RollbackRun(migs, tracked, env);
      forall c :: c in r.calls && !c.CreateTable? ==> c.index < |migs| && migs[c.index].hasRollback
  {
    RevertBelowOrder(migs, |migs|, tracked, env);
  }

  /** `Rollback` bootstraps first, then visits the registry from its last
      entry to its first. */
  lemma RollbackOrder(migs: seq<Migration>, tracked: set<string>, env: Env)
    ensures var r := RollbackRun(migs, tracked, env);
      && r.calls[0] == CreateTable
      && Within(r.calls[1..], 0, |migs|)
      && Descending(r.calls[1..])
  {
    RevertBelowOrder(migs, |migs|, tracked, env);
    var r := RollbackRun(migs, tracked, env);
    if env(CreateTable).Ok? {
      assert r.calls[1..] == RevertBelow(migs, |migs|, tracked, env).calls;
    }
  }

  /** `Rollback` stops at the first failing call, attempts nothing after it,
      and returns its error wrapped for the phase that failed; it succeeds
      exactly when every call it made succeeded. */
  lemma RollbackReported(migs: seq<Migration>, tracked: set<string>, env: Env)
    ensures Reported(Down, RollbackRun(migs, tracked, env), env)
  {
    if env(CreateTable).Ok? {
      RevertBelowReported(migs, |migs|, tracked, env);
      ReportedPrepend(Down, [CreateTable], RevertBelow(migs, |migs|, tracked, env), env);
    }
  }

  /** A reverse step is never run for an id that was untracked when
      `Rollback` started. */
  lemma RollbackOnlyTracked(migs: seq<Migration>, tracked: set<string>, env: Env)
    ensures var r := RollbackRun(migs, tracked, env);
      forall k: nat :: Backward(k) in r.calls && k < |migs| ==> migs[k].id in tracked
  {
    RevertBelowOnlyTracked(migs, |migs|, tracked, env);
  }

  /** Each rollback is all-or-nothing: the table loses exactly the ids of
      the migrations whose commit succeeded. */
  lemma RollbackAtomic(migs: seq<Migration>, tracked: set<string>, env: Env)
    ensures var r := RollbackRun(migs, tracked, env);
      r.tracked == tracked - Committed(migs, r.calls, env)
  {
    assert Committed(migs, [CreateTable], env) == {};
    if env(CreateTable).Ok? {
      RevertBelowCommitted(migs, |migs|, tracked, env);
      CommittedConcat(migs, [CreateTable], RevertBelow(migs, |migs|, tracked, env).calls, env);
    }
  }

  /** Apply, roll back, apply again: when all three runs succeed, whatever
      the outcomes that got them there, the table ends as the first apply
      left it. Ids without a reverse step stay tracked through the rollback
      and are skipped by the second apply. */
  lemma ReapplyRestores(migs: seq<Migration>, t0: set<string>, e1: Env, e2: Env, e3: Env)
    requires MigrateRun(migs, t0, e1).err.None?
    requires RollbackRun(migs, MigrateRun(migs, t0, e1).tracked, e2).err.None?
    requires MigrateRun(migs, RollbackRun(migs, MigrateRun(migs, t0, e1).tracked, e2).tracked, e3).err.None?
    ensures var a := MigrateRun(migs, t0, e1);
      var b := RollbackRun(migs, a.tracked, e2);
      MigrateRun(migs, b.tracked, e3).tracked == a.tracked
  {
    var a := MigrateRun(migs, t0, e1);
    var b := RollbackRun(migs, a.tracked, e2);
    var c := MigrateRun(migs, b.tracked, e3);
    var ids := set m | m in migs :: m.id;
    ApplyProofs.MigrateTracked(migs, t0, e1);
    RollbackTracked(migs, a.tracked, e2);
    ApplyProofs.MigrateTracked(migs, b.tracked, e3);
    forall x | x in a.tracked - b.tracked ensures x in ids {
      var m :| m in migs && m.hasRollback && m.id == x;
    }
    forall x | x in c.tracked - b.tracked ensures x in ids {
      var m :| m in migs && m.id == x;
    }
    RestoreSets(ids, a.tracked, b.tracked, c.tracked);
  }

  /** Removing some of `ids` from a set holding all of them and adding them
      all back gives the set again. */
  lemma RestoreSets(ids: set<string>, ta: set<string>, tb: set<string>, tc: set<string>)
    requires ids <= ta && tb <= ta && ta - tb <= ids
    requires ids <= tc && tb <= tc && tc - tb <= ids
    ensures tc == ta
  {
  }
}
