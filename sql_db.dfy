/**
 * The relational store as the repository uses it, reduced to what its
 * statements decide (the SQL text, the driver and the pool are not modelled).
 *
 * Each table is keyed by its unique column: `orders`, `deliveries` and
 * `payments` by `order_uid`, `items` by `rid`. Every insert the repository
 * issues carries `ON CONFLICT (<key>) DO NOTHING`, so `Apply` inserts a row
 * only when its key is absent. The `items` table is a sequence in insertion
 * order, which is also the order in which a query returns its rows here.
 *
 * `Database` is the pool (statements commit on their own); `Tx` is a
 * transaction begun on it, whose writes are seen only through the
 * transaction until it commits.
 */
module SqlDb {
  import opened Errors
  import opened RepoModels

  datatype Tables = Tables(
    orders: map<string, OrderRow>,
    deliveries: map<string, DeliveryRow>,
    payments: map<string, PaymentRow>,
    items: seq<ItemRow>)

  predicate HasRid(items: seq<ItemRow>, rid: string)
  {
    exists k :: 0 <= k < |items| && items[k].rid == rid
  }

  /** The unique index on `items.rid`. */
  predicate RidsUnique(items: seq<ItemRow>)
  {
    forall i, j :: 0 <= i < j < |items| ==> items[i].rid != items[j].rid
  }

  datatype Statement =
    | InsertOrder(order: OrderRow)         // ON CONFLICT (order_uid) DO NOTHING
    | InsertDelivery(delivery: DeliveryRow) // ON CONFLICT (order_uid) DO NOTHING
    | InsertPayment(payment: PaymentRow)   // ON CONFLICT (order_uid) DO NOTHING
    | InsertItems(rows: seq<ItemRow>)      // one multi-row insert, ON CONFLICT (rid) DO NOTHING

  /**
   * A multi-row insert into `items`: the rows are taken in order and each is
   * skipped when its `rid` is already present, also when an earlier row of the
   * same statement took it.
   */
  function InsertItemRows(items: seq<ItemRow>, rows: seq<ItemRow>): (r: seq<ItemRow>)
    ensures items <= r
    ensures (forall k :: 0 <= k < |rows| ==> HasRid(items, rows[k].rid)) ==> r == items
    decreases |rows|
  {
    if rows == [] then items
    else
      var next := if HasRid(items, rows[0].rid) then items else items + [rows[0]];
      var r := InsertItemRows(next, rows[1..]);
      assert HasRid(items, rows[0].rid) && (forall k :: 0 <= k < |rows| ==> HasRid(items, rows[k].rid)) ==>
        forall k :: 0 <= k < |rows[1..]| ==> HasRid(next, rows[1..][k].rid);
      r
  }

  /**
   * After a multi-row insert every row's key is present, the rows added are
   * rows of the statement, and the unique index on `rid` still holds.
   */
  lemma {:induction false} InsertItemRowsFacts(items: seq<ItemRow>, rows: seq<ItemRow>)
    ensures forall k :: 0 <= k < |rows| ==> HasRid(InsertItemRows(items, rows), rows[k].rid)
    ensures forall k :: |items| <= k < |InsertItemRows(items, rows)| ==> InsertItemRows(items, rows)[k] in rows
    ensures RidsUnique(items) ==> RidsUnique(InsertItemRows(items, rows))
    decreases |rows|
  {
    if rows != [] {
      var next := if HasRid(items, rows[0].rid) then items else items + [rows[0]];
      InsertItemRowsStep(items, rows);
      var r := InsertItemRows(next, rows[1..]);
      InsertItemRowsFacts(next, rows[1..]);
      assert HasRid(next, rows[0].rid) by {
        if !HasRid(items, rows[0].rid) { assert next[|items|] == rows[0]; }
      }
      assert HasRid(r, rows[0].rid) by {
        var k :| 0 <= k < |next| && next[k].rid == rows[0].rid;
        assert r[k] == next[k];
      }
      forall k | 0 <= k < |rows| ensures HasRid(r, rows[k].rid) {
        if k > 0 { assert rows[k] == rows[1..][k - 1]; }
      }
      forall k | |items| <= k < |r| ensures r[k] in rows {
        if k < |next| {
          assert r[k] == next[k] == rows[0];
        } else {
          assert r[k] in rows[1..];
        }
      }
      if RidsUnique(items) {
        assert RidsUnique(next) by {
          if next != items {
            forall a, b | 0 <= a < b < |next| ensures next[a].rid != next[b].rid {
              if b == |items| {
                assert next[a] == items[a];
              } else {
                assert next[a] == items[a] && next[b] == items[b];
              }
            }
          }
        }
      }
    }
  }

  /** No row of `rows` has a key already present in `items`. */
  predicate FreshRids(items: seq<ItemRow>, rows: seq<ItemRow>)
  {
    forall j, k :: 0 <= j < |items| && 0 <= k < |rows| ==> items[j].rid != rows[k].rid
  }

  /** Rows whose keys are all new, and distinct among themselves, are appended as they are. */
  lemma {:induction false} InsertFreshRows(items: seq<ItemRow>, rows: seq<ItemRow>)
    requires RidsUnique(rows) && FreshRids(items, rows)
    ensures InsertItemRows(items, rows) == items + rows
    decreases |rows|
  {
    if rows != [] {
      var next := items + [rows[0]];
      assert !HasRid(items, rows[0].rid);
      InsertItemRowsStep(items, rows);
      FreshAfterAppend(items, rows);
      InsertFreshRows(next, rows[1..]);
      AppendShift(items, rows);
    }
  }

  lemma AppendShift<T>(a: seq<T>, b: seq<T>)
    requires b != []
    ensures (a + [b[0]]) + b[1..] == a + b
  {
    assert b == [b[0]] + b[1..];
  }

  lemma InsertItemRowsStep(items: seq<ItemRow>, rows: seq<ItemRow>)
    requires rows != []
    ensures InsertItemRows(items, rows)
         == InsertItemRows(if HasRid(items, rows[0].rid) then items else items + [rows[0]], rows[1..])
  {
  }

  lemma FreshAfterAppend(items: seq<ItemRow>, rows: seq<ItemRow>)
    requires rows != [] && RidsUnique(rows) && FreshRids(items, rows)
    ensures RidsUnique(rows[1..]) && FreshRids(items + [rows[0]], rows[1..])
  {
    var next := items + [rows[0]];
    forall j, k | 0 <= j < |next| && 0 <= k < |rows[1..]| ensures next[j].rid != rows[1..][k].rid {
      assert rows[1..][k] == rows[k + 1];
      if j < |items| {
        assert next[j] == items[j];
      } else {
        assert next[j] == rows[0];
      }
    }
    assert forall i, j :: 0 <= i < j < |rows[1..]| ==> rows[1..][i] == rows[i + 1] && rows[1..][j] == rows[j + 1];
  }

  /** What one statement does to the tables (insert-if-absent on the key). */
  function Apply(t: Tables, s: Statement): Tables
  {
    match s
    case InsertOrder(o) =>
      if o.orderUid in t.orders then t else t.(orders := t.orders[o.orderUid := o])
    case InsertDelivery(d) =>
      if d.orderUid in t.deliveries then t else t.(deliveries := t.deliveries[d.orderUid := d])
    case InsertPayment(p) =>
      if p.orderUid in t.payments then t else t.(payments := t.payments[p.orderUid := p])
    case InsertItems(rows) =>
      t.(items := InsertItemRows(t.items, rows))
  }

  /** Issuing the same insert twice leaves the tables as issuing it once. */
  lemma ApplyIdempotent(t: Tables, s: Statement)
    ensures Apply(Apply(t, s), s) == Apply(t, s)
  {
    if s.InsertItems? {
      var once := InsertItemRows(t.items, s.rows);
      InsertItemRowsFacts(t.items, s.rows);
      assert InsertItemRows(once, s.rows) == once;
    }
  }

  /** An insert never removes or changes a row that was already there. */
  lemma ApplyKeepsRows(t: Tables, s: Statement)
    ensures t.orders.Keys <= Apply(t, s).orders.Keys
    ensures forall k :: k in t.orders ==> Apply(t, s).orders[k] == t.orders[k]
    ensures forall k :: k in t.deliveries ==> k in Apply(t, s).deliveries && Apply(t, s).deliveries[k] == t.deliveries[k]
    ensures forall k :: k in t.payments ==> k in Apply(t, s).payments && Apply(t, s).payments[k] == t.payments[k]
    ensures t.items <= Apply(t, s).items
    ensures RidsUnique(t.items) ==> RidsUnique(Apply(t, s).items)
  {
    if s.InsertItems? {
      InsertItemRowsFacts(t.items, s.rows);
    }
  }

  /** `GetContext` on a table keyed by `order_uid`: the row, or `sql.ErrNoRows`. */
  function SelectRow<R>(table: map<string, R>, orderUid: string, fault: Option<Error>): (r: Result<R, Error>)
    ensures fault.Some? ==> r == Err(fault.value)
    ensures fault.None? && orderUid !in table ==> r == Err(ErrNoRows)
    ensures fault.None? && orderUid in table ==> r == Ok(table[orderUid])
  {
    if fault.Some? then Err(fault.value)
    else if orderUid !in table then Err(ErrNoRows)
    else Ok(table[orderUid])
  }

  /** `SELECT ... FROM items WHERE order_uid = $1`: the matching rows in table order. */
  function RowsOf(items: seq<ItemRow>, orderUid: string): (r: seq<ItemRow>)
    ensures forall k :: 0 <= k < |r| ==> r[k].orderUid == orderUid && r[k] in items
    ensures forall k :: 0 <= k < |items| && items[k].orderUid == orderUid ==> items[k] in r
    ensures |r| <= |items|
  {
    if items == [] then []
    else if items[|items| - 1].orderUid == orderUid then RowsOf(items[..|items| - 1], orderUid) + [items[|items| - 1]]
    else RowsOf(items[..|items| - 1], orderUid)
  }

  /** Filtering the rows of one order distributes over concatenation. */
  lemma {:induction false} RowsOfConcat(a: seq<ItemRow>, b: seq<ItemRow>, orderUid: string)
    ensures RowsOf(a + b, orderUid) == RowsOf(a, orderUid) + RowsOf(b, orderUid)
    decreases |b|
  {
    if b == [] {
      assert a + b == a;
    } else {
      var b' := b[..|b| - 1];
      assert (a + b)[..|a + b| - 1] == a + b';
      assert (a + b)[|a + b| - 1] == b[|b| - 1];
      RowsOfConcat(a, b', orderUid);
    }
  }

  /** Rows that all belong to the order are kept as they are; rows that none do are all dropped. */
  lemma {:induction false} RowsOfUniform(items: seq<ItemRow>, orderUid: string)
    ensures (forall k :: 0 <= k < |items| ==> items[k].orderUid == orderUid) ==> RowsOf(items, orderUid) == items
    ensures (forall k :: 0 <= k < |items| ==> items[k].orderUid != orderUid) ==> RowsOf(items, orderUid) == []
  {
    if items != [] {
      RowsOfUniform(items[..|items| - 1], orderUid);
      assert items[..|items| - 1] + [items[|items| - 1]] == items;
    }
  }

  /** `SelectContext` on `items`: no matching row is an empty result, not an error. */
  function SelectItems(items: seq<ItemRow>, orderUid: string, fault: Option<Error>): (r: Result<seq<ItemRow>, Error>)
    ensures fault.Some? <==> r.Err?
    ensures r.Err? ==> r.error == fault.value
    ensures r.Ok? ==> r.value == RowsOf(items, orderUid)
  {
    if fault.Some? then Err(fault.value) else Ok(RowsOf(items, orderUid))
  }

  /** The connection pool: each statement commits on its own. */
  class Database {
    var tables: Tables

    constructor (initial: Tables)
      ensures tables == initial
    {
      tables := initial;
    }

    /** `db.ExecContext`: a failing statement changes nothing. */
    method Exec(s: Statement, fault: Option<Error>) returns (err: Option<Error>)
      modifies this
      ensures err == fault
      ensures tables == if fault.None? then Apply(old(tables), s) else old(tables)
    {
      err := fault;
      if fault.None? {
        tables := Apply(tables, s);
      }
    }
  }

  datatype TxState = Active | Committed | RolledBack

  datatype TxCall = CommitCall | RollbackCall

  /**
   * A transaction (`*sqlx.Tx`). `view` is what its statements see: the tables
   * when it began plus its own writes. `calls` records the Commit and Rollback
   * calls made on it, in order.
   */
  class Tx {
    const db: Database
    var state: TxState
    var view: Tables
    ghost var calls: seq<TxCall>

    /** `db.BeginTxx` when it succeeds. */
    constructor Begin(db: Database)
      ensures this.db == db && state == Active && view == db.tables && calls == []
    {
      this.db := db;
      state := Active;
      view := db.tables;
      calls := [];
    }

    /** `tx.ExecContext`: refused with `sql.ErrTxDone` once the transaction has ended. */
    method Exec(s: Statement, fault: Option<Error>) returns (err: Option<Error>)
      modifies this`view
      ensures state == old(state) && calls == old(calls)
      ensures old(state) != Active ==> err == Some(ErrTxDone) && view == old(view)
      ensures old(state) == Active ==> err == fault
      ensures old(state) == Active ==> view == if fault.None? then Apply(old(view), s) else old(view)
    {
      if state != Active {
        return Some(ErrTxDone);
      }
      err := fault;
      if fault.None? {
        view := Apply(view, s);
      }
    }

    /** The `orders` lookup of `tx.GetContext`. */
    function SelectOrder(orderUid: string, fault: Option<Error>): (r: Result<OrderRow, Error>)
      reads this
      ensures state != Active ==> r == Err(ErrTxDone)
      ensures state == Active ==> r == SelectRow(view.orders, orderUid, fault)
    {
      if state != Active then Err(ErrTxDone) else SelectRow(view.orders, orderUid, fault)
    }

    /**
     * `tx.Commit`: installs the transaction's view when it succeeds; a failed
     * commit ends the transaction without changing the tables; a second call is
     * refused with `sql.ErrTxDone`.
     */
    method Commit(fault: Option<Error>) returns (err: Option<Error>)
      modifies this, db
      ensures calls == old(calls) + [CommitCall] && view == old(view)
      ensures old(state) != Active ==> err == Some(ErrTxDone) && state == old(state) && db.tables == old(db.tables)
      ensures old(state) == Active && fault.Some? ==> err == fault && state == RolledBack && db.tables == old(db.tables)
      ensures old(state) == Active && fault.None? ==> err.None? && state == Committed && db.tables == view
    {
      calls := calls + [CommitCall];
      if state != Active {
        return Some(ErrTxDone);
      }
      if fault.Some? {
        state := RolledBack;
        return fault;
      }
      db.tables := view;
      state := Committed;
      err := None;
    }

    /** `tx.Rollback`: discards the writes; after the end of the transaction it only reports `sql.ErrTxDone`. */
    method Rollback() returns (err: Option<Error>)
      modifies this
      ensures calls == old(calls) + [RollbackCall] && view == old(view)
      ensures old(state) != Active ==> err == Some(ErrTxDone) && state == old(state)
      ensures old(state) == Active ==> err.None? && state == RolledBack
    {
      calls := calls + [RollbackCall];
      if state != Active {
        return Some(ErrTxDone);
      }
      state := RolledBack;
      err := None;
    }
  }
}
