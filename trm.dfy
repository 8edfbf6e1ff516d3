/**
 * The transaction coordinator (pkg/trm/manager.go).
 *
 * A context carries the active transaction under a private key; `ExtractTx`
 * looks it up. `Do` begins a transaction, runs a unit of work with a context
 * that carries it, commits when the work succeeds, and rolls back on every
 * path through a deferred `Rollback`.
 *
 * The unit of work is a Go closure whose statements reach the transaction
 * through its context. Dafny cannot pass a method as a value, so the work is a
 * function from the tables the transaction sees to the tables after its writes
 * and its error; that is what its repository calls do when `ExtractTx` finds
 * the transaction (see `Postgres.PostgresRepo.ExecContext`).
 */
module Trm {
  import opened Errors
  import opened SqlDb

  /**
   * A `context.Context` as far as the transaction key goes: the root, any
   * derivation that adds no transaction (cancellation, deadlines, other values),
   * or a value stored under the transaction key.
   */
  datatype Context =
    | Background
    | Derived(parent: Context)
    | WithTxValue(parent: Context, tx: Tx)

  /** True when some layer of the context stores a transaction. */
  predicate CarriesTx(ctx: Context)
  {
    match ctx
    case Background => false
    case Derived(parent) => CarriesTx(parent)
    case WithTxValue(_, _) => true
  }

  /** `ExtractTx`: the innermost transaction stored in the context, or nil. */
  function ExtractTx(ctx: Context): Tx?
  {
    match ctx
    case Background => null
    case Derived(parent) => ExtractTx(parent)
    case WithTxValue(_, tx) => tx
  }

  /** `ExtractTx` yields nil exactly when no layer stores a transaction. */
  lemma {:induction false} ExtractTxNil(ctx: Context)
    ensures ExtractTx(ctx) == null <==> !CarriesTx(ctx)
  {
    match ctx
    case Background =>
    case Derived(parent) => ExtractTxNil(parent);
    case WithTxValue(_, _) =>
  }

  /** `withTx`: a child context from which `ExtractTx` yields `tx`, whatever the parent stored. */
  function WithTx(ctx: Context, tx: Tx): (r: Context)
    ensures ExtractTx(r) == tx && CarriesTx(r)
    ensures ExtractTx(Derived(r)) == tx
  {
    WithTxValue(ctx, tx)
  }

  /** `ctx` with `n` derivations on top that store no transaction. */
  function DeriveN(ctx: Context, n: nat): Context
  {
    if n == 0 then ctx else Derived(DeriveN(ctx, n - 1))
  }

  /**
   * A context derived from the one `withTx` returns, through any number of
   * layers that store no transaction, still yields the stored transaction.
   */
  lemma {:induction false} WithTxDerived(ctx: Context, tx: Tx, n: nat)
    ensures ExtractTx(DeriveN(WithTx(ctx, tx), n)) == tx
    ensures CarriesTx(DeriveN(WithTx(ctx, tx), n))
  {
    if n > 0 {
      WithTxDerived(ctx, tx, n - 1);
    }
  }

  /** `txManager`: begins its transactions on one pool. */
  class Manager {
    const db: Database

    constructor (db: Database)
      ensures this.db == db
    {
      this.db := db;
    }

    /**
     * `BeginTx`: on failure the error and no context or transaction; otherwise
     * a fresh active transaction and a context that carries it.
     */
    method BeginTx(ctx: Context, fault: Option<Error>) returns (txCtx: Option<Context>, tx: Tx?, err: Option<Error>)
      ensures fault.Some? ==> err == fault && txCtx.None? && tx == null
      ensures fault.None? ==> err.None? && tx != null && fresh(tx)
      ensures fault.None? ==> tx.db == db && tx.state == Active && tx.view == db.tables && tx.calls == []
      ensures fault.None? ==> txCtx == Some(WithTx(ctx, tx))
    {
      if fault.Some? {
        return None, null, fault;
      }
      tx := new Tx.Begin(db);
      txCtx := Some(WithTx(ctx, tx));
      err := None;
    }

    /**
     * `Do`. `beginFault` and `commitFault` are the outcomes of beginning and
     * committing; `work` is the callback. `tx` and `workCtx` (ghost) are the
     * transaction begun and the context the callback was given.
     */
    method Do(ctx: Context, beginFault: Option<Error>, work: Tables -> (Tables, Option<Error>), commitFault: Option<Error>)
      returns (err: Option<Error>, ghost tx: Tx?, ghost workCtx: Option<Context>)
      modifies db
      // A failed begin is returned as it is; the callback never runs.
      ensures beginFault.Some? ==> err == beginFault && tx == null && workCtx.None?
      ensures beginFault.Some? ==> db.tables == old(db.tables)
      // Otherwise the callback runs once, in a context carrying the new transaction ...
      ensures beginFault.None? ==> tx != null && fresh(tx) && tx.db == db
      ensures beginFault.None? ==> workCtx.Some? && ExtractTx(workCtx.value) == tx
      // ... its error is returned unchanged, nothing is committed, and the deferred Rollback ends the transaction;
      ensures beginFault.None? && work(old(db.tables)).1.Some? ==>
        err == work(old(db.tables)).1 && tx.calls == [RollbackCall] && tx.state == RolledBack
        && db.tables == old(db.tables)
      // ... or Commit runs once, its result is the result, and the deferred Rollback follows it.
      ensures beginFault.None? && work(old(db.tables)).1.None? ==>
        err == commitFault && tx.calls == [CommitCall, RollbackCall]
        && tx.state == (if commitFault.None? then Committed else RolledBack)
        && db.tables == (if commitFault.None? then work(old(db.tables)).0 else old(db.tables))
    {
      var txCtx, t, beginErr := BeginTx(ctx, beginFault);
      if beginErr.Some? {
        return beginErr, null, None;
      }
      tx, workCtx := t, txCtx;
      // The callback's statements land in the transaction its context carries.
      var (after, workErr) := work(t.view);
      t.view := after;
      if workErr.Some? {
        var ignored := t.Rollback();
        return workErr, tx, workCtx;
      }
      err := t.Commit(commitFault);
      var ignored := t.Rollback();
    }
  }
}
