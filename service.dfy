/**
 * The order service (internal/service/order.go): saving an order is one
 * transaction holding four writes in sequence, retried as a whole with
 * exponential backoff.
 *
 * The repository operations are idempotent (every insert does nothing on a
 * key it finds), which is what makes re-running a whole attempt safe.
 */
module OrderService {
  import opened Errors
  import opened Entities
  import opened SqlDb
  import opened Trm
  import opened Postgres
  import opened Retry

  /** The driver's outcome for each of the four writes of one attempt. */
  datatype WriteFaults = WriteFaults(order: Option<Error>, delivery: Option<Error>, payment: Option<Error>, items: Option<Error>)

  const NoWriteFaults: WriteFaults := WriteFaults(None, None, None, None)

  /** The outcomes one attempt meets: beginning the transaction, the writes, the commit. */
  datatype AttemptScript = AttemptScript(begin: Option<Error>, writes: WriteFaults, commit: Option<Error>)

  /** The retry configuration `SaveOrder` uses: 5 attempts, 100ms doubling, no cap. */
  const SaveRetry: RetryConfig := RetryConfig(5, 100 * Millisecond, 0, 2)

  /**
   * The callback `SaveOrder` hands to `Do`, on the tables its transaction
   * sees: save the order, then the delivery, the payment and the items, stopping
   * at the first failure with that failure wrapped. An order without items
   * issues no item statement at all.
   */
  function RunWrites(t: Tables, order: Order, f: WriteFaults): (Tables, Option<Error>)
  {
    var uid := order.orderUid;
    if f.order.Some? then (t, Some(Wrap("failed to save order", f.order.value)))
    else
      var t := Apply(t, InsertOrder(OrderRowOf(order)));
      if f.delivery.Some? then (t, Some(Wrap("failed to save delivery", f.delivery.value)))
      else
        var t := Apply(t, InsertDelivery(DeliveryRowOf(uid, order.delivery)));
        if f.payment.Some? then (t, Some(Wrap("failed to save payment", f.payment.value)))
        else
          var t := Apply(t, InsertPayment(PaymentRowOf(uid, order.payment)));
          if order.items == [] then (t, None)
          else if f.items.Some? then (t, Some(Wrap("failed to save items", f.items.value)))
          else (Apply(t, InsertItems(ItemRowsOf(uid, order.items))), None)
  }

  /** The statements an attempt whose writes all succeed issues, in order. */
  function Statements(order: Order): seq<Statement>
  {
    var uid := order.orderUid;
    [InsertOrder(OrderRowOf(order)), InsertDelivery(DeliveryRowOf(uid, order.delivery)),
     InsertPayment(PaymentRowOf(uid, order.payment))]
    + (if order.items == [] then [] else [InsertItems(ItemRowsOf(uid, order.items))])
  }

  /** The statements `ss` applied to `t` in order. */
  function ApplyAll(t: Tables, ss: seq<Statement>): Tables
    decreases |ss|
  {
    if ss == [] then t else ApplyAll(Apply(t, ss[0]), ss[1..])
  }

  /**
   * The writes fail exactly when a write that is issued fails; the error wraps
   * the first such failure, and the statements before it have been applied.
   * When none fails, all of the order's statements have been applied.
   */
  lemma RunWritesOutcome(t: Tables, order: Order, f: WriteFaults)
    ensures var (t', err) := RunWrites(t, order, f);
      && (err.None? <==> f.order.None? && f.delivery.None? && f.payment.None? && (order.items == [] || f.items.None?))
      && (f.order.Some? ==> t' == t && Is(err.value, f.order.value))
      && (f.order.None? && f.delivery.Some? ==> t' == ApplyAll(t, Statements(order)[..1]) && Is(err.value, f.delivery.value))
      && (f.order.None? && f.delivery.None? && f.payment.Some? ==> t' == ApplyAll(t, Statements(order)[..2]) && Is(err.value, f.payment.value))
      && (f.order.None? && f.delivery.None? && f.payment.None? && order.items != [] && f.items.Some? ==>
            t' == ApplyAll(t, Statements(order)[..3]) && Is(err.value, f.items.value))
      && (err.None? ==> t' == ApplyAll(t, Statements(order)))
  {
    var ss := Statements(order);
    ApplyAllPrefix(t, ss, 1);
    ApplyAllPrefix(t, ss, 2);
    ApplyAllPrefix(t, ss, 3);
    if order.items == [] {
      assert ss[..3] == ss;
    } else {
      ApplyAllPrefix(t, ss, 4);
      assert ss[..4] == ss;
    }
    assert ss[..0] == [];
  }

  /** Applying one more statement of `ss` extends the prefix applied. */
  lemma ApplyAllPrefix(t: Tables, ss: seq<Statement>, k: nat)
    requires 0 < k <= |ss|
    ensures ApplyAll(t, ss[..k]) == Apply(ApplyAll(t, ss[..k - 1]), ss[k - 1])
  {
    assert ss[..k] == ss[..k - 1] + [ss[k - 1]];
    ApplyAllSnoc(t, ss[..k - 1], ss[k - 1]);
  }

  lemma {:induction false} ApplyAllSnoc(t: Tables, ss: seq<Statement>, s: Statement)
    ensures ApplyAll(t, ss + [s]) == Apply(ApplyAll(t, ss), s)
    decreases |ss|
  {
    if ss == [] {
      assert [] + [s] == [s];
      assert [s][1..] == [];
    } else {
      assert (ss + [s])[1..] == ss[1..] + [s];
      ApplyAllSnoc(Apply(t, ss[0]), ss[1..], s);
    }
  }

  /** A statement that would change nothing still changes nothing after any other statement. */
  lemma StaysApplied(t: Tables, s: Statement, other: Statement)
    requires Apply(t, s) == t
    ensures Apply(Apply(t, other), s) == Apply(t, other)
  {
    var t' := Apply(t, other);
    ApplyKeepsRows(t, other);
    if s.InsertItems? {
      InsertItemRowsFacts(t.items, s.rows);
      forall k | 0 <= k < |s.rows| ensures HasRid(t'.items, s.rows[k].rid) {
        assert HasRid(t.items, s.rows[k].rid);
        var j :| 0 <= j < |t.items| && t.items[j].rid == s.rows[k].rid;
        assert t'.items[j] == t.items[j];
      }
    }
  }

  /**
   * Re-running the writes after an attempt that stopped part-way, or after one
   * that completed, leaves the tables as one complete run would: the retried
   * attempt is safe because every insert does nothing on a key it finds.
   */
  lemma RetryIsIdempotent(t: Tables, order: Order, f: WriteFaults)
    ensures RunWrites(RunWrites(t, order, f).0, order, NoWriteFaults).0 == RunWrites(t, order, NoWriteFaults).0
  {
    var uid := order.orderUid;
    var s1 := InsertOrder(OrderRowOf(order));
    var s2 := InsertDelivery(DeliveryRowOf(uid, order.delivery));
    var s3 := InsertPayment(PaymentRowOf(uid, order.payment));
    var s4 := InsertItems(ItemRowsOf(uid, order.items));
    var t1 := Apply(t, s1);
    var t2 := Apply(t1, s2);
    var t3 := Apply(t2, s3);
    var t4 := Apply(t3, s4);
    ApplyIdempotent(t, s1);
    ApplyIdempotent(t1, s2);
    ApplyIdempotent(t2, s3);
    ApplyIdempotent(t3, s4);
    StaysApplied(t1, s1, s2);
    StaysApplied(t2, s1, s3);
    StaysApplied(t2, s2, s3);
    if f.order.None? && f.delivery.None? && f.payment.None? && order.items != [] && f.items.None? {
      StaysApplied(t3, s1, s4);
      StaysApplied(t3, s2, s4);
      StaysApplied(t3, s3, s4);
    }
  }

  /**
   * An order written on tables that hold nothing of it reads back as itself,
   * provided its 32-bit columns fit and its item keys are new and distinct.
   */
  lemma SavedOrderReadsBack(t: Tables, order: Order)
    requires order.orderUid !in t.orders && order.orderUid !in t.deliveries && order.orderUid !in t.payments
    requires forall k :: 0 <= k < |t.items| ==> t.items[k].orderUid != order.orderUid
    requires FreshRids(t.items, ItemRowsOf(order.orderUid, order.items)) && RidsUnique(ItemRowsOf(order.orderUid, order.items))
    requires -0x8000_0000 <= order.payment.customFee < 0x8000_0000
    requires forall k :: 0 <= k < |order.items| ==> -0x8000_0000 <= order.items[k].sale < 0x8000_0000
    ensures var t' := RunWrites(t, order, NoWriteFaults).0;
      AssembleOrder(SelectRow(t'.orders, order.orderUid, None), t', order.orderUid, ReadFaults(None, None, None, None))
        == (order, None)
  {
    var uid := order.orderUid;
    var t' := RunWrites(t, order, NoWriteFaults).0;
    WrittenHeader(t, order);
    WrittenRows(t, order);
    ItemsReadBack(uid, order.items);
    DeliveryRoundTrip(uid, order.delivery);
    PaymentRoundTrip(uid, order.payment);
    OrderHeaderRoundTrip(order);
  }

  /** The header, delivery and payment rows a complete, fault-free run leaves for a new order. */
  lemma WrittenHeader(t: Tables, order: Order)
    requires order.orderUid !in t.orders && order.orderUid !in t.deliveries && order.orderUid !in t.payments
    ensures var t' := RunWrites(t, order, NoWriteFaults).0;
      && order.orderUid in t'.orders && t'.orders[order.orderUid] == OrderRowOf(order)
      && order.orderUid in t'.deliveries && t'.deliveries[order.orderUid] == DeliveryRowOf(order.orderUid, order.delivery)
      && order.orderUid in t'.payments && t'.payments[order.orderUid] == PaymentRowOf(order.orderUid, order.payment)
  {
  }

  /** The item rows of a new order after a complete, fault-free run: its own rows, in order. */
  lemma WrittenRows(t: Tables, order: Order)
    requires forall k :: 0 <= k < |t.items| ==> t.items[k].orderUid != order.orderUid
    requires FreshRids(t.items, ItemRowsOf(order.orderUid, order.items)) && RidsUnique(ItemRowsOf(order.orderUid, order.items))
    ensures RowsOf(RunWrites(t, order, NoWriteFaults).0.items, order.orderUid) == ItemRowsOf(order.orderUid, order.items)
  {
    var uid := order.orderUid;
    var rows := ItemRowsOf(uid, order.items);
    WrittenItems(t, order);
    var items' := t.items + rows;
    RowsOfUniform(t.items, uid);
    RowsOfConcat(t.items, rows, uid);
    RowsOfUniform(rows, uid);
    assert RowsOf(items', uid) == rows;
  }

  /** The `items` table after a complete, fault-free run: the order's rows appended when they are new. */
  lemma WrittenItems(t: Tables, order: Order)
    requires FreshRids(t.items, ItemRowsOf(order.orderUid, order.items)) && RidsUnique(ItemRowsOf(order.orderUid, order.items))
    ensures RunWrites(t, order, NoWriteFaults).0.items == t.items + ItemRowsOf(order.orderUid, order.items)
  {
    CleanRunItems(t, order);
    if order.items == [] {
      assert t.items + [] == t.items;
    } else {
      InsertFreshRows(t.items, ItemRowsOf(order.orderUid, order.items));
    }
  }

  /** A complete, fault-free run touches `items` only with the order's one multi-row insert. */
  lemma CleanRunItems(t: Tables, order: Order)
    ensures RunWrites(t, order, NoWriteFaults).0.items
         == if order.items == [] then t.items else InsertItemRows(t.items, ItemRowsOf(order.orderUid, order.items))
  {
    var uid := order.orderUid;
    var t1 := Apply(t, InsertOrder(OrderRowOf(order)));
    var t2 := Apply(t1, InsertDelivery(DeliveryRowOf(uid, order.delivery)));
    var t3 := Apply(t2, InsertPayment(PaymentRowOf(uid, order.payment)));
    var f := NoWriteFaults;
    assert f.order.None? && f.delivery.None? && f.payment.None? && f.items.None?;
    assert t1.items == t.items && t2.items == t1.items && t3.items == t2.items;
    assert RunWrites(t, order, f).0 == if order.items == [] then t3 else Apply(t3, InsertItems(ItemRowsOf(uid, order.items)));
  }

  lemma ItemsReadBack(uid: string, items: seq<Item>)
    requires forall k :: 0 <= k < |items| ==> -0x8000_0000 <= items[k].sale < 0x8000_0000
    ensures ItemsFromRows(ItemRowsOf(uid, items)) == items
  {
    var rows := ItemRowsOf(uid, items);
    forall k | 0 <= k < |rows| ensures ItemFromRow(rows[k]) == items[k] {
      ItemRoundTrip(uid, items[k]);
    }
  }

  /** What attempt `a` of saving `order` returns, on tables `t` that no earlier attempt changed. */
  function AttemptOutcome(t: Tables, order: Order, a: AttemptScript): Option<Error>
  {
    if a.begin.Some? then a.begin
    else
      var (_, err) := RunWrites(t, order, a.writes);
      if err.Some? then err else a.commit
  }

  /** The outcome of each numbered attempt, as `Retry` sees its closure. */
  function Outcomes(t: Tables, order: Order, script: nat -> AttemptScript): nat -> Option<Error>
  {
    (k: nat) => AttemptOutcome(t, order, script(k))
  }

  class OrderService {
    const txManager: Manager
    const repo: PostgresRepo

    /** The transaction manager and the repository work on one pool, as the application wires them. */
    predicate Valid()
      reads this
    {
      txManager.db == repo.db
    }

    /** `NewOrderService`. */
    constructor (txManager: Manager, repo: PostgresRepo)
      requires txManager.db == repo.db
      ensures this.txManager == txManager && this.repo == repo
      ensures Valid()
    {
      this.txManager := txManager;
      this.repo := repo;
    }

    /**
     * The callback's body as statements on the repository: run in a context
     * carrying an active transaction, it changes that transaction's view as
     * `RunWrites` says and returns its error, and leaves the pool alone.
     */
    method WriteOrder(ctx: Context, order: Order, f: WriteFaults) returns (err: Option<Error>)
      requires ExtractTx(ctx) != null && ExtractTx(ctx).state == Active
      modifies repo.db, TxOf(ctx)
      ensures ExtractTx(ctx).view == RunWrites(old(ExtractTx(ctx).view), order, f).0
      ensures err == RunWrites(old(ExtractTx(ctx).view), order, f).1
      ensures ExtractTx(ctx).state == Active && repo.db.tables == old(repo.db.tables)
    {
      var tx := ExtractTx(ctx);
      var uid := order.orderUid;
      err := repo.SaveOrder(ctx, order, f.order);
      if err.Some? {
        return Some(Wrap("failed to save order", err.value));
      }
      err := repo.SaveDelivery(ctx, uid, order.delivery, f.delivery);
      if err.Some? {
        return Some(Wrap("failed to save delivery", err.value));
      }
      err := repo.SavePayment(ctx, uid, order.payment, f.payment);
      if err.Some? {
        return Some(Wrap("failed to save payment", err.value));
      }
      err := repo.SaveItems(ctx, uid, order.items, f.items);
      if err.Some? {
        return Some(Wrap("failed to save items", err.value));
      }
    }

    /**
     * `SaveOrder`: up to five attempts, each one `Do` with the writes as its
     * callback, sleeping 100ms, 200ms, 400ms, 800ms between them. `script(k)` is
     * what the k-th attempt meets. The result and the calls follow `Retry` over
     * the attempts' outcomes; only the successful attempt changes the tables,
     * by exactly its writes.
     */
    method SaveOrder(ctx: Context, order: Order, script: nat -> AttemptScript)
      returns (err: Option<Error>, ghost calls: nat, ghost sleeps: seq<int>)
      requires Valid()
      modifies txManager.db
      ensures Follows(SaveRetry, Outcomes(old(txManager.db.tables), order, script), err, calls, sleeps)
      ensures err.None? ==> txManager.db.tables == RunWrites(old(txManager.db.tables), order, script(calls).writes).0
      ensures err.Some? ==> txManager.db.tables == old(txManager.db.tables)
    {
      ghost var t0 := txManager.db.tables;
      ghost var outcomes := Outcomes(t0, order, script);
      var c := WithDefaults(SaveRetry);
      var delay := c.initialDelay;
      sleeps := [];
      var attempt := 1;
      while attempt <= c.maxAttempts
        invariant c == SaveRetry
        invariant 1 <= attempt <= c.maxAttempts
        invariant forall k :: 1 <= k < attempt ==> outcomes(k).Some?
        invariant |sleeps| == attempt - 1
        invariant forall i :: 0 <= i < |sleeps| ==> sleeps[i] == DelayAt(c, i)
        invariant delay == DelayAt(c, attempt - 1)
        invariant txManager.db.tables == t0
        decreases c.maxAttempts - attempt
      {
        var a := script(attempt);
        var work := (t: Tables) => RunWrites(t, order, a.writes);
        var e, tx, workCtx := txManager.Do(ctx, a.begin, work, a.commit);
        assert e == outcomes(attempt);
        if e.None? {
          return e, attempt, sleeps;
        }
        if attempt == c.maxAttempts {
          return e, attempt, sleeps;
        }
        sleeps := sleeps + [delay];
        delay := NextDelay(c, delay);
        attempt := attempt + 1;
      }
      assert false;
    }

    /** `GetOrderByID`: a stub that returns the zero order and no error. */
    method GetOrderByID(ctx: Context, orderUid: string) returns (ord: Order, err: Option<Error>)
      ensures ord == ZeroOrder && err.None?
    {
      return ZeroOrder, None;
    }
  }

  /** The sleeps between `SaveOrder`'s attempts double from 100ms: 100ms times 2 to the i-th. */
  lemma SaveRetryDelays(i: nat)
    ensures DelayAt(SaveRetry, i) == 100 * Millisecond * Pow(2, i)
  {
    DelayExponential(SaveRetry, i);
  }
}
