/** The reconciliation logic of the sqlx migrator, stated on values.

    The `migrations` table is the set of ids it holds. Every database call
    and every user step gets its outcome from an environment `env`, keyed by
    the kind of call and the registry index it is made for; inside one
    Migrate or Rollback each such key is used at most once, so an
    environment can describe any pattern of failures. */
module Reconcile {

  datatype Option<T> = None | Some(value: T)

  /** A registry entry: the id that keys the `migrations` table, and whether
      a reverse step was supplied (a non-nil `Rollback`). The forward step
      is taken to be non-nil, and only its outcome matters. */
  datatype Migration = Migration(id: string, hasRollback: bool)

  /** The errors the migrator returns, one per `fmt.Errorf` wrapping. */
  datatype Error =
    | UnsupportedDriver(driver: string)
    | CreatingTable(cause: string)
    | LookingUpMigration(cause: string)
    | LookingUpRollback(cause: string)
    | RunningMigration(cause: string)
    | RunningRollback(cause: string)

  /** The context text each wrapping puts in front of what it wraps. */
  function Prefix(e: Error): string
  {
    match e
    case UnsupportedDriver(_) => "Unsupported driver name: "
    case CreatingTable(_) => "creating migrations table: "
    case LookingUpMigration(_) => "looking up migration by id: "
    case LookingUpRollback(_) => "looking up rollback by id: "
    case RunningMigration(_) => "running migration: "
    case RunningRollback(_) => "running rollback: "
  }

  /** What was wrapped: the driver name or the underlying error's text. */
  function Detail(e: Error): string
  {
    if e.UnsupportedDriver? then e.driver else e.cause
  }

  /** The text of the error, as `err.Error()` renders it: the context
      prefix, then the wrapped text. */
  function Message(e: Error): string
  {
    Prefix(e) + Detail(e)
  }

  /** The characters at positions 0 and 11 of the message tell the six
      prefixes apart. */
  lemma MessageKey(e: Error)
    ensures |Prefix(e)| > 11
    ensures Message(e)[0] == Prefix(e)[0] && Message(e)[11] == Prefix(e)[11]
    ensures Prefix(e)[0] == match e
      case UnsupportedDriver(_) => 'U'
      case CreatingTable(_) => 'c'
      case LookingUpMigration(_) | LookingUpRollback(_) => 'l'
      case RunningMigration(_) | RunningRollback(_) => 'r'
    ensures Prefix(e)[11] == match e
      case UnsupportedDriver(_) => ' '
      case CreatingTable(_) => 'g'
      case LookingUpMigration(_) => 'm'
      case LookingUpRollback(_) => 'r'
      case RunningMigration(_) => 'r'
      case RunningRollback(_) => 'l'
  {
  }

  /** The text of an error determines the error: the six context prefixes
      keep the failing phase recognisable whatever the wrapped text is. */
  lemma MessageIdentifiesError(e1: Error, e2: Error)
    requires Message(e1) == Message(e2)
    ensures e1 == e2
  {
    MessageKey(e1);
    MessageKey(e2);
    var p := Prefix(e1);
    assert p == Prefix(e2);
    assert Detail(e1) == Message(e1)[|p|..] == Detail(e2);
  }

  /** The outcome the environment gives a call. */
  datatype Outcome = Ok | Fail(cause: string)

  /** A call the migrator makes: a database call or a user step, with the
      registry index of the migration it is made for. */
  datatype Call =
    | CreateTable
    | Lookup(index: nat)
    | Begin(index: nat)
    | Insert(index: nat)
    | Delete(index: nat)
    | Forward(index: nat)
    | Backward(index: nat)
    | Commit(index: nat)

  type Env = Call -> Outcome

  /** What `Get` reports: a row, `sql.ErrNoRows`, or any other error. */
  datatype LookupResult = Found | NotFound | LookupFailed(cause: string)

  function Classify(o: Outcome, present: bool): (r: LookupResult)
    ensures r.LookupFailed? <==> o.Fail?
    ensures o.Ok? ==> (r.Found? <==> present)
  {
    match o
    case Fail(cause) => LookupFailed(cause)
    case Ok => if present then Found else NotFound
  }

  /** The result of one Migrate or Rollback (or a part of one): the error
      returned, the rows of the table afterwards, and the calls made. */
  datatype Run = Run(err: Option<Error>, tracked: set<string>, calls: seq<Call>)

  datatype Direction = Up | Down

  /** Where a call stands in a walk: the bootstrap comes before index 0. */
  function Index(c: Call): int
  {
    if c.CreateTable? then -1 else c.index
  }

  predicate AllOk(calls: seq<Call>, env: Env)
  {
    forall c :: c in calls ==> env(c).Ok?
  }

  /** Every call is made for a registry index in [lo, hi). */
  predicate Within(calls: seq<Call>, lo: int, hi: int)
  {
    forall c :: c in calls ==> !c.CreateTable? && lo <= c.index < hi
  }

  predicate Ascending(calls: seq<Call>)
  {
    forall a, b :: 0 <= a < b < |calls| ==> Index(calls[a]) <= Index(calls[b])
  }

  predicate Descending(calls: seq<Call>)
  {
    forall a, b :: 0 <= a < b < |calls| ==> Index(calls[a]) >= Index(calls[b])
  }

  /** The error a failing call is reported as, in the given direction. */
  function Blame(dir: Direction, c: Call, cause: string): Error
  {
    match c
    case CreateTable => CreatingTable(cause)
    case Lookup(_) => if dir == Up then LookingUpMigration(cause) else LookingUpRollback(cause)
    case _ => Running(dir, cause)
  }

  /** The wrapping of `runMigration` (Up) and `runRollback` (Down). */
  function Running(dir: Direction, cause: string): Error
  {
    if dir == Up then RunningMigration(cause) else RunningRollback(cause)
  }

  /** The run returned no error and every call it made succeeded, or it
      stopped right after its first failing call and returned that call's
      error, wrapped with the context of its phase. */
  predicate Reported(dir: Direction, r: Run, env: Env)
  {
    if r.err.None? then AllOk(r.calls, env)
    else
      && |r.calls| > 0
      && AllOk(r.calls[..|r.calls| - 1], env)
      && var last := r.calls[|r.calls| - 1];
      && env(last).Fail?
      && r.err.value == Blame(dir, last, env(last).cause)
  }

  /** Calls that all succeeded, put in front of a run, keep it reported. */
  lemma ReportedPrepend(dir: Direction, pre: seq<Call>, r: Run, env: Env)
    requires AllOk(pre, env) && Reported(dir, r, env)
    ensures Reported(dir, r.(calls := pre + r.calls), env)
  {
  }

  lemma ConcatAssoc<T>(a: seq<T>, b: seq<T>, c: seq<T>)
    ensures (a + b) + c == a + (b + c)
  {
  }

  /** The ids the successful commits in `calls` are about. */
  function Committed(migs: seq<Migration>, calls: seq<Call>, env: Env): set<string>
  {
    set c | c in calls && c.Commit? && c.index < |migs| && env(c).Ok? :: migs[c.index].id
  }

  lemma CommittedConcat(migs: seq<Migration>, a: seq<Call>, b: seq<Call>, env: Env)
    ensures Committed(migs, a + b, env) == Committed(migs, a, env) + Committed(migs, b, env)
  {
  }

  /** The calls of one transaction, in the order `runMigration` and
      `runRollback` make them. */
  function TxCalls(dir: Direction, i: nat): seq<Call>
  {
    match dir
    case Up => [Begin(i), Insert(i), Forward(i), Commit(i)]
    case Down => [Begin(i), Delete(i), Backward(i), Commit(i)]
  }

  /** `runMigration` (Up) and `runRollback` (Down) for the migration at
      index `i` with id `id`: begin, insert or delete the row, run the step,
      commit; the first failure discards the transaction. */
  function Transaction(dir: Direction, i: nat, id: string, tracked: set<string>, env: Env): (r: Run)
    ensures Reported(dir, r, env)
    ensures r.tracked == if r.err.Some? then tracked
                         else if dir == Up then tracked + {id} else tracked - {id}
    ensures forall c :: c in r.calls ==> !c.CreateTable? && !c.Lookup? && c.index == i
    ensures r.err.None? <==> Commit(i) in r.calls && env(Commit(i)).Ok?
  {
    var cs := TxCalls(dir, i);
    if env(cs[0]).Fail? then Run(Some(Running(dir, env(cs[0]).cause)), tracked, cs[..1])
    else if env(cs[1]).Fail? then Run(Some(Running(dir, env(cs[1]).cause)), tracked, cs[..2])
    else if env(cs[2]).Fail? then Run(Some(Running(dir, env(cs[2]).cause)), tracked, cs[..3])
    else if env(cs[3]).Fail? then Run(Some(Running(dir, env(cs[3]).cause)), tracked, cs)
    else Run(None, if dir == Up then tracked + {id} else tracked - {id}, cs)
  }

  /** A transaction makes its calls in the order begin, insert or delete,
      step, commit, and stops after the first one that fails. */
  lemma TransactionOrder(dir: Direction, i: nat, id: string, tracked: set<string>, env: Env)
    ensures var r := Transaction(dir, i, id, tracked, env);
      r.calls != [] && r.calls <= TxCalls(dir, i)
  {
  }

  /** The body of `Migrate`'s loop from registry index `i` on: look the id
      up; skip it when it is tracked, stop on a lookup error, otherwise run
      the migration and stop if that fails. */
  function ApplyFrom(migs: seq<Migration>, i: nat, tracked: set<string>, env: Env): (r: Run)
    requires i <= |migs|
    ensures tracked <= r.tracked
    ensures Within(r.calls, i, |migs|)
    decreases |migs| - i
  {
    if i == |migs| then Run(None, tracked, [])
    else
      var m := migs[i];
      match Classify(env(Lookup(i)), m.id in tracked)
      case NotFound =>
        var t := Transaction(Up, i, m.id, tracked, env);
        if t.err.Some? then t.(calls := [Lookup(i)] + t.calls)
        else
          var rest := ApplyFrom(migs, i + 1, t.tracked, env);
          rest.(calls := [Lookup(i)] + t.calls + rest.calls)
      case Found =>
        var rest := ApplyFrom(migs, i + 1, tracked, env);
        rest.(calls := [Lookup(i)] + rest.calls)
      case LookupFailed(cause) =>
        Run(Some(LookingUpMigration(cause)), tracked, [Lookup(i)])
  }

  /** The body of `Rollback`'s loop over indices n-1 down to 0: skip a
      migration without a reverse step before any lookup, skip an untracked
      id, stop on a lookup error, otherwise roll back and stop if that fails. */
  function RevertBelow(migs: seq<Migration>, n: nat, tracked: set<string>, env: Env): (r: Run)
    requires n <= |migs|
    ensures r.tracked <= tracked
    ensures Within(r.calls, 0, n)
    decreases n
  {
    if n == 0 then Run(None, tracked, [])
    else
      var i := n - 1;
      var m := migs[i];
      if !m.hasRollback then RevertBelow(migs, i, tracked, env)
      else
        match Classify(env(Lookup(i)), m.id in tracked)
        case NotFound =>
          var rest := RevertBelow(migs, i, tracked, env);
          rest.(calls := [Lookup(i)] + rest.calls)
        case Found =>
          var t := Transaction(Down, i, m.id, tracked, env);
          if t.err.Some? then t.(calls := [Lookup(i)] + t.calls)
          else
            var rest := RevertBelow(migs, i, t.tracked, env);
            rest.(calls := [Lookup(i)] + t.calls + rest.calls)
        case LookupFailed(cause) =>
          Run(Some(LookingUpRollback(cause)), tracked, [Lookup(i)])
  }

  /** `SqlxMigrate.Migrate`: bootstrap the table, then walk the registry. */
  function MigrateRun(migs: seq<Migration>, tracked: set<string>, env: Env): (r: Run)
    ensures r.calls != [] && r.calls[0] == CreateTable
    ensures tracked <= r.tracked
  {
    match env(CreateTable)
    case Fail(cause) => Run(Some(CreatingTable(cause)), tracked, [CreateTable])
    case Ok =>
      var r := ApplyFrom(migs, 0, tracked, env);
      r.(calls := [CreateTable] + r.calls)
  }

  /** `SqlxMigrate.Rollback`: bootstrap the table, then walk the registry
      backwards. */
  function RollbackRun(migs: seq<Migration>, tracked: set<string>, env: Env): (r: Run)
    ensures r.calls != [] && r.calls[0] == CreateTable
    ensures r.tracked <= tracked
  {
    match env(CreateTable)
    case Fail(cause) => Run(Some(CreatingTable(cause)), tracked, [CreateTable])
    case Ok =>
      var r := RevertBelow(migs, |migs|, tracked, env);
      r.(calls := [CreateTable] + r.calls)
  }

  /** The ids of the registry from index `i` on. */
  function IdsFrom(migs: seq<Migration>, i: nat): (ids: set<string>)
    requires i <= |migs|
    ensures forall x :: x in ids <==> exists j :: i <= j < |migs| && migs[j].id == x
    decreases |migs| - i
  {
    if i == |migs| then {} else {migs[i].id} + IdsFrom(migs, i + 1)
  }

  /** The ids of the migrations below index `n` that have a reverse step. */
  function ReversibleBelow(migs: seq<Migration>, n: nat): (ids: set<string>)
    requires n <= |migs|
    ensures forall x :: x in ids <==> exists j :: 0 <= j < n && migs[j].hasRollback && migs[j].id == x
  {
    if n == 0 then {}
    else (if migs[n - 1].hasRollback then {migs[n - 1].id} else {}) + ReversibleBelow(migs, n - 1)
  }
}
