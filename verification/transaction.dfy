/** internal/infrastructure/database/transaction/transaction.go: run a body
    inside a database transaction, roll back unless it commits, and run the
    hooks the body registered only after a successful commit.

    The database is a value of type `D`: the body receives the committed
    state and returns the state its writes produce, which becomes the new
    committed state only on commit. A hook is a value of type `H`, and
    `run` says what running it does to the rest of the system, a value of
    type `W`. Driver failures of `BeginTxx` and `Commit` are parameters. */
module Transaction {
  import opened Wrappers
  import opened Errors
  import opened Events

  /** An open `*sqlx.Tx`. */
  datatype Tx = Tx(id: nat)

  /** The part of a `context.Context` the core reads: the value under
      `TxKey`, absent or nil when `tx` is `None`. */
  datatype Context = Context(tx: Option<Tx>)

  const ErrNoTx: Error := Message("transaction not found in context")

  /** `GetTx`. */
  function GetTx(ctx: Context): (r: Result<Tx, Error>)
    ensures ctx.tx.None? <==> r.Err?
    ensures r.Err? ==> r.error == ErrNoTx
    ensures r.Ok? ==> Some(r.value) == ctx.tx
  {
    if ctx.tx.None? then Err(ErrNoTx) else Ok(ctx.tx.value)
  }

  /** `WithTx`: a context carrying the transaction. */
  function WithTx(ctx: Context, tx: Tx): (r: Context)
    ensures GetTx(r) == Ok(tx)
  {
    ctx.(tx := Some(tx))
  }

  /** The transaction object as the body sees it: the context carrying the
      open transaction, and the after-commit hooks registered so far. */
  datatype Scope<H> = Scope(ctx: Context, hooks: seq<H>)

  /** `AfterCommit`: append a hook. */
  function AfterCommit<H>(s: Scope<H>, hook: H): (r: Scope<H>)
    ensures r.ctx == s.ctx
    ensures |r.hooks| == |s.hooks| + 1 && r.hooks[..|s.hooks|] == s.hooks && r.hooks[|s.hooks|] == hook
  {
    s.(hooks := s.hooks + [hook])
  }

  /** What the body leaves behind: its writes, its scope, and its error. */
  datatype BodyResult<D, H> = BodyResult(db: D, scope: Scope<H>, err: Option<Error>)

  /** The committed database, the rest of the system, the error `RWTx`
      returns, the hook list left on the transaction object, and how many
      hooks were started. */
  datatype TxResult<D, W, H> = TxResult(db: D, world: W, err: Option<Error>, hooks: seq<H>, hooksRun: nat)

  /** Run hooks in order, stopping at the first error; also returns how many
      were started. */
  function RunHooks<W, H>(w: W, hooks: seq<H>, run: (W, H) -> Step<W>): (r: (Step<W>, nat))
    ensures r.1 <= |hooks|
    ensures r.0.failure.None? ==> r.1 == |hooks|
    ensures r.0.failure.Some? ==> r.1 >= 1
    ensures |hooks| == 0 ==> r == (Step(w, None), 0)
    decreases |hooks|
  {
    if |hooks| == 0 then (Step(w, None), 0)
    else
      var s := run(w, hooks[0]);
      if s.failure.Some? then (s, 1)
      else
        var rest := RunHooks(s.state, hooks[1..], run);
        (rest.0, rest.1 + 1)
  }

  /** Hooks before the one that failed all succeeded, and the failing hook's
      error is the one returned; on success every hook ran. */
  lemma {:induction false} HooksStopAtFirstError<W, H>(w: W, hooks: seq<H>, run: (W, H) -> Step<W>)
    ensures var (s, n) := RunHooks(w, hooks, run);
      s.failure.Some? ==>
        && 1 <= n
        && RunHooks(w, hooks[..n - 1], run).0.failure.None?
        && run(RunHooks(w, hooks[..n - 1], run).0.state, hooks[n - 1]) == s
    ensures var (s, n) := RunHooks(w, hooks, run);
      s.failure.None? ==> n == |hooks|
    decreases |hooks|
  {
    var (s, n) := RunHooks(w, hooks, run);
    if |hooks| > 0 && s.failure.Some? {
      var s0 := run(w, hooks[0]);
      if s0.failure.Some? {
        assert hooks[..0] == [];
      } else {
        HooksStopAtFirstError(s0.state, hooks[1..], run);
        assert hooks[1..][..n - 2] == hooks[1..n - 1];
        assert hooks[..n - 1][1..] == hooks[1..n - 1];
        assert hooks[..n - 1][0] == hooks[0];
        assert hooks[1..][n - 2] == hooks[n - 1];
      }
    }
  }

  /** `runTx` (and `RWTx`, which only fixes the isolation level). */
  function RunTx<D, W, H>(db: D, w: W, ctx: Context, pending: seq<H>, tx: Tx, beginErr: Option<Error>,
                          body: (D, Scope<H>) -> BodyResult<D, H>, commitErr: Option<Error>,
                          run: (W, H) -> Step<W>): (r: TxResult<D, W, H>)
    ensures beginErr.Some? ==> r == TxResult(db, w, beginErr, [], 0)
    ensures beginErr.None? ==>
      var b := body(db, Scope(WithTx(ctx, tx), []));
      && r.hooks == b.scope.hooks
      && (b.err.Some? ==> r == TxResult(db, w, b.err, b.scope.hooks, 0))
      && (b.err.None? && commitErr.Some? ==> r == TxResult(db, w, commitErr, b.scope.hooks, 0))
      && (b.err.None? && commitErr.None? ==>
            var (s, n) := RunHooks(w, b.scope.hooks, run);
            r == TxResult(b.db, s.state, s.failure, b.scope.hooks, n))
  {
    // the hook list is reset before the transaction begins
    var scope: Scope<H> := Scope(ctx, []);
    if beginErr.Some? then TxResult(db, w, beginErr, scope.hooks, 0)
    else
      var b := body(db, scope.(ctx := WithTx(ctx, tx)));
      if b.err.Some? then TxResult(db, w, b.err, b.scope.hooks, 0)
      else if commitErr.Some? then TxResult(db, w, commitErr, b.scope.hooks, 0)
      else
        var (s, n) := RunHooks(w, b.scope.hooks, run);
        TxResult(b.db, s.state, s.failure, b.scope.hooks, n)
  }

  /** Hooks registered before the call are never run: only the body's own
      registrations, in order, and only after a commit. */
  lemma PendingHooksDiscarded<D, W, H>(db: D, w: W, ctx: Context, p1: seq<H>, p2: seq<H>, tx: Tx,
                                       beginErr: Option<Error>, body: (D, Scope<H>) -> BodyResult<D, H>,
                                       commitErr: Option<Error>, run: (W, H) -> Step<W>)
    ensures RunTx(db, w, ctx, p1, tx, beginErr, body, commitErr, run) == RunTx(db, w, ctx, p2, tx, beginErr, body, commitErr, run)
    ensures RunTx(db, w, ctx, p1, tx, beginErr, body, commitErr, run).hooksRun > 0 ==>
      beginErr.None? && commitErr.None? && body(db, Scope(WithTx(ctx, tx), [])).err.None?
  {
  }

  /** One hook: its outcome is the outcome of running it. */
  lemma RunOneHook<W, H>(w: W, h: H, run: (W, H) -> Step<W>)
    ensures RunHooks(w, [h], run).0 == run(w, h)
  {
    assert [h][1..] == [];
  }

  /** Whatever the hooks do, a commit keeps the body's writes; without a
      commit the database is untouched. */
  lemma CommitIsDurable<D, W, H>(db: D, w: W, ctx: Context, pending: seq<H>, tx: Tx, beginErr: Option<Error>,
                                 body: (D, Scope<H>) -> BodyResult<D, H>, commitErr: Option<Error>,
                                 run: (W, H) -> Step<W>)
    ensures var r := RunTx(db, w, ctx, pending, tx, beginErr, body, commitErr, run);
      var committed := beginErr.None? && commitErr.None? && body(db, Scope(WithTx(ctx, tx), [])).err.None?;
      && (committed ==> r.db == body(db, Scope(WithTx(ctx, tx), [])).db)
      && (!committed ==> r.db == db && r.world == w && r.err.Some?)
  {
  }
}
