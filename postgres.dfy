/**
 * The order store (internal/repo/postgres.go): four inserts that do nothing on
 * conflict, the read that assembles an order from its four tables, and the
 * choice between the context's transaction and the pool.
 */
module Postgres {
  import opened Errors
  import opened Entities
  import opened RepoModels
  import opened SqlDb
  import opened Trm

  /** Go's conversion `int32(i)`: keeps the low 32 bits as a two's-complement value. */
  function ToInt32(i: int): (r: Int32)
    ensures -0x8000_0000 <= i < 0x8000_0000 ==> r == i
    ensures (i - r) % 0x1_0000_0000 == 0
  {
    var low := i % 0x1_0000_0000;
    if low < 0x8000_0000 then low else low - 0x1_0000_0000
  }

  /** `nullString`: "" is stored as NULL, any other string as itself. */
  function NullStringOf(s: string): (ns: NullString)
    ensures ns.valid <==> s != ""
    ensures ns.Scanned()
    ensures NullStringToString(ns) == s
  {
    if s == "" then NullString("", false) else NullString(s, true)
  }

  /**
   * `nullInt32`: 0 is stored as NULL, any other int as `int32(i)`; only values in
   * the 32-bit range read back unchanged.
   */
  function NullInt32Of(i: int): (ni: NullInt32)
    ensures ni.valid <==> i != 0
    ensures ni.valid ==> ni.int32 == ToInt32(i)
    ensures ni.Scanned()
    ensures -0x8000_0000 <= i < 0x8000_0000 ==> NullInt32ToInt(ni) == i
  {
    if i == 0 then NullInt32(0, false) else NullInt32(ToInt32(i), true)
  }

  /**
   * The store keeps only the low 32 bits: no value outside the 32-bit range reads
   * back as itself, values 2^32 apart are stored alike, and 2^32 itself is stored
   * as a valid 0.
   */
  lemma NullInt32Truncates(i: int)
    ensures !(-0x8000_0000 <= i < 0x8000_0000) ==> NullInt32ToInt(NullInt32Of(i)) != i
    ensures i != 0 && i + 0x1_0000_0000 != 0 ==> NullInt32Of(i + 0x1_0000_0000) == NullInt32Of(i)
    ensures NullInt32Of(0x1_0000_0000).valid && NullInt32ToInt(NullInt32Of(0x1_0000_0000)) == 0
  {
  }

  // The rows the four inserts write (the `Values(...)` of each statement).

  function OrderRowOf(o: Order): OrderRow
  {
    OrderRow(
      o.orderUid, o.trackNumber, NullStringOf(o.entry), NullStringOf(o.locale),
      NullStringOf(o.internalSig), o.customerId, o.deliveryService,
      NullStringOf(o.shardKey), o.smId, o.dateCreated, NullStringOf(o.oofShard))
  }

  function DeliveryRowOf(orderUid: string, d: Delivery): DeliveryRow
  {
    DeliveryRow(
      orderUid, NullStringOf(d.name), NullStringOf(d.phone), NullStringOf(d.zip),
      NullStringOf(d.city), NullStringOf(d.address), NullStringOf(d.region), NullStringOf(d.email))
  }

  function PaymentRowOf(orderUid: string, p: Payment): PaymentRow
  {
    PaymentRow(
      orderUid, p.transaction, NullStringOf(p.requestId), p.currency, p.provider, p.amount,
      p.paymentDt, NullStringOf(p.bank), p.deliveryCost, p.goodsTotal, NullInt32Of(p.customFee))
  }

  function ItemRowOf(orderUid: string, it: Item): ItemRow
  {
    ItemRow(
      it.rid, orderUid, it.chrtId, it.trackNumber, it.price, it.name, NullInt32Of(it.sale),
      NullStringOf(it.size), it.totalPrice, it.nmId, NullStringOf(it.brand), it.status)
  }

  /** The rows of `SaveItems`: one per item, in order, each tagged with `orderUid`. */
  function ItemRowsOf(orderUid: string, items: seq<Item>): (rows: seq<ItemRow>)
    ensures |rows| == |items|
    ensures forall k :: 0 <= k < |items| ==> rows[k] == ItemRowOf(orderUid, items[k])
    ensures forall k :: 0 <= k < |rows| ==> rows[k].orderUid == orderUid && rows[k].rid == items[k].rid
  {
    if items == [] then [] else ItemRowsOf(orderUid, items[..|items| - 1]) + [ItemRowOf(orderUid, items[|items| - 1])]
  }

  /** Storing an order's header and reading it back loses nothing. */
  lemma OrderHeaderRoundTrip(o: Order)
    ensures OrderRowScanned(OrderRowOf(o))
    ensures OrderToEntity(OrderRowOf(o), DeliveryRowOf(o.orderUid, o.delivery), PaymentRowOf(o.orderUid, o.payment), [])
         == o.(delivery := DeliveryToEntity(DeliveryRowOf(o.orderUid, o.delivery)),
               payment := PaymentToEntity(PaymentRowOf(o.orderUid, o.payment)), items := [])
  {
  }

  /** Storing a delivery and reading it back loses nothing: "" and NULL are the same to the reader. */
  lemma DeliveryRoundTrip(orderUid: string, d: Delivery)
    ensures DeliveryRowScanned(DeliveryRowOf(orderUid, d))
    ensures DeliveryToEntity(DeliveryRowOf(orderUid, d)) == d
  {
  }

  /** A payment reads back unchanged when its custom fee fits in 32 bits. */
  lemma PaymentRoundTrip(orderUid: string, p: Payment)
    requires -0x8000_0000 <= p.customFee < 0x8000_0000
    ensures PaymentRowScanned(PaymentRowOf(orderUid, p))
    ensures PaymentToEntity(PaymentRowOf(orderUid, p)) == p
  {
  }

  /** An item reads back unchanged when its sale fits in 32 bits. */
  lemma ItemRoundTrip(orderUid: string, it: Item)
    requires -0x8000_0000 <= it.sale < 0x8000_0000
    ensures ItemRowScanned(ItemRowOf(orderUid, it))
    ensures ItemToEntity(ItemRowOf(orderUid, it)) == it
  {
  }

  // The entity `GetOrder` builds inline, reading the payload of each nullable
  // column directly (`.String`, `int(.Int32)`), without the models.go helpers.

  function HeaderFromRow(o: OrderRow): (e: Order)
    ensures e.delivery == ZeroOrder.delivery && e.payment == ZeroOrder.payment && e.items == []
    ensures OrderRowScanned(o) ==> forall d, p ::
      OrderToEntity(o, d, p, []) == e.(delivery := DeliveryToEntity(d), payment := PaymentToEntity(p))
  {
    Order(
      o.orderUid, o.trackNumber, o.entry.str, o.locale.str, o.internalSignature.str,
      o.customerId, o.deliveryService, o.shardKey.str, o.smId, o.dateCreated, o.oofShard.str,
      ZeroOrder.delivery, ZeroOrder.payment, [])
  }

  function DeliveryFromRow(d: DeliveryRow): (e: Delivery)
    ensures DeliveryRowScanned(d) ==> e == DeliveryToEntity(d)
  {
    Delivery(d.name.str, d.phone.str, d.zip.str, d.city.str, d.address.str, d.region.str, d.email.str)
  }

  function PaymentFromRow(p: PaymentRow): (e: Payment)
    ensures PaymentRowScanned(p) ==> e == PaymentToEntity(p)
  {
    Payment(
      p.transaction, p.requestId.str, p.currency, p.provider, p.amount, p.paymentDt,
      p.bank.str, p.deliveryCost, p.goodsTotal, p.customFee.int32)
  }

  function ItemFromRow(r: ItemRow): (e: Item)
    ensures ItemRowScanned(r) ==> e == ItemToEntity(r)
  {
    Item(
      r.chrtId, r.trackNumber, r.price, r.rid, r.name, r.sale.int32, r.size.str,
      r.totalPrice, r.nmId, r.brand.str, r.status)
  }

  function ItemsFromRows(rows: seq<ItemRow>): (items: seq<Item>)
    ensures |items| == |rows|
    ensures forall k :: 0 <= k < |rows| ==> items[k] == ItemFromRow(rows[k])
  {
    seq(|rows|, k requires 0 <= k < |rows| => ItemFromRow(rows[k]))
  }

  /** The outcome of each query `GetOrder` issues (driver failures only). */
  datatype ReadFaults = ReadFaults(order: Option<Error>, delivery: Option<Error>, payment: Option<Error>, items: Option<Error>)

  /** `GetOrder` as a function of the header lookup and the pool's tables. */
  function AssembleOrder(header: Result<OrderRow, Error>, pool: Tables, orderUid: string, f: ReadFaults): (Order, Option<Error>)
  {
    match header
    case Err(e) => (ZeroOrder, Some(if Is(e, ErrNoRows) then ErrOrderNotFound else e))
    case Ok(o) =>
      var ord := HeaderFromRow(o);
      match SelectRow(pool.deliveries, orderUid, f.delivery)
      case Err(e) => (ord, Some(e))
      case Ok(d) =>
        var ord := ord.(delivery := DeliveryFromRow(d));
        match SelectRow(pool.payments, orderUid, f.payment)
        case Err(e) => (ord, Some(e))
        case Ok(p) =>
          var ord := ord.(payment := PaymentFromRow(p));
          match SelectItems(pool.items, orderUid, f.items)
          case Err(e) => (ord, Some(e))
          case Ok(rows) => (ord.(items := ItemsFromRows(rows)), None)
  }

  /**
   * The not-found mapping: a missing `orders` row (an error that is
   * `sql.ErrNoRows`) becomes `ErrOrderNotFound`; any other header error is
   * returned unchanged; a missing delivery or payment row is NOT mapped, so
   * `ErrOrderNotFound` comes only from a missing `orders` row.
   */
  /** The driver's failures are never the repository's own `ErrOrderNotFound`. */
  predicate DriverFaults(header: Result<OrderRow, Error>, f: ReadFaults)
  {
    && (header.Err? ==> header.error != ErrOrderNotFound)
    && f.delivery != Some(ErrOrderNotFound)
    && f.payment != Some(ErrOrderNotFound)
    && f.items != Some(ErrOrderNotFound)
  }

  lemma NotFoundMapping(header: Result<OrderRow, Error>, pool: Tables, orderUid: string, f: ReadFaults)
    ensures header.Err? && Is(header.error, ErrNoRows) ==> AssembleOrder(header, pool, orderUid, f).1 == Some(ErrOrderNotFound)
    ensures header.Err? && !Is(header.error, ErrNoRows) ==> AssembleOrder(header, pool, orderUid, f).1 == Some(header.error)
    ensures header.Ok? && f.delivery.None? && orderUid !in pool.deliveries ==> AssembleOrder(header, pool, orderUid, f).1 == Some(ErrNoRows)
    ensures header.Ok? && f.delivery.None? && orderUid in pool.deliveries && f.payment.None? && orderUid !in pool.payments
      ==> AssembleOrder(header, pool, orderUid, f).1 == Some(ErrNoRows)
    ensures DriverFaults(header, f) && AssembleOrder(header, pool, orderUid, f).1 == Some(ErrOrderNotFound)
      ==> header.Err? && Is(header.error, ErrNoRows)
  {
  }

  /**
   * When every query succeeds, `GetOrder` returns one item per fetched row, in
   * row order, and on rows as the database scans them (NULL read as "" or 0) it
   * builds the same order as `OrderToEntity`.
   */
  lemma AssembleMatchesOrderToEntity(o: OrderRow, pool: Tables, orderUid: string)
    requires orderUid in pool.deliveries && orderUid in pool.payments
    requires OrderRowScanned(o) && DeliveryRowScanned(pool.deliveries[orderUid]) && PaymentRowScanned(pool.payments[orderUid])
    requires forall k :: 0 <= k < |pool.items| ==> ItemRowScanned(pool.items[k])
    ensures var (ord, err) := AssembleOrder(Ok(o), pool, orderUid, ReadFaults(None, None, None, None));
      && err.None?
      && ord == OrderToEntity(o, pool.deliveries[orderUid], pool.payments[orderUid], RowsOf(pool.items, orderUid))
  {
    var rows := RowsOf(pool.items, orderUid);
    forall k | 0 <= k < |rows| ensures ItemFromRow(rows[k]) == ItemToEntity(rows[k]) {
      assert rows[k] in pool.items;
    }
  }

  /** The transactions a context can hand to a statement. */
  function TxOf(ctx: Context): set<Tx>
  {
    var tx := ExtractTx(ctx);
    if tx == null then {} else {tx}
  }

  class PostgresRepo {
    const db: Database

    constructor (db: Database)
      ensures this.db == db
    {
      this.db := db;
    }

    /** What `execContext` does with statement `s`: on the context's transaction when there is one, on the pool otherwise. */
    twostate predicate Executed(ctx: Context, s: Statement, fault: Option<Error>, new err: Option<Error>)
      reads this, db, TxOf(ctx)
    {
      var tx := ExtractTx(ctx);
      if tx != null then
        && db.tables == old(db.tables)
        && tx.state == old(tx.state) && tx.calls == old(tx.calls)
        && (old(tx.state) != Active ==> err == Some(ErrTxDone) && tx.view == old(tx.view))
        && (old(tx.state) == Active ==> err == fault)
        && (old(tx.state) == Active ==> tx.view == if fault.None? then Apply(old(tx.view), s) else old(tx.view))
      else
        && err == fault
        && db.tables == if fault.None? then Apply(old(db.tables), s) else old(db.tables)
    }

    /** `execContext`. `fault` is the driver's outcome for the statement. */
    method ExecContext(ctx: Context, s: Statement, fault: Option<Error>) returns (err: Option<Error>)
      modifies db, TxOf(ctx)
      ensures Executed(ctx, s, fault, err)
    {
      var tx := ExtractTx(ctx);
      if tx != null {
        err := tx.Exec(s, fault);
      } else {
        err := db.Exec(s, fault);
      }
    }

    /** `SaveOrder`: one insert into `orders`, keyed by `order_uid`. */
    method SaveOrder(ctx: Context, o: Order, fault: Option<Error>) returns (err: Option<Error>)
      modifies db, TxOf(ctx)
      ensures Executed(ctx, InsertOrder(OrderRowOf(o)), fault, err)
    {
      err := ExecContext(ctx, InsertOrder(OrderRowOf(o)), fault);
    }

    /** `SaveDelivery`: one insert into `deliveries` under `orderUid`. */
    method SaveDelivery(ctx: Context, orderUid: string, d: Delivery, fault: Option<Error>) returns (err: Option<Error>)
      modifies db, TxOf(ctx)
      ensures Executed(ctx, InsertDelivery(DeliveryRowOf(orderUid, d)), fault, err)
    {
      err := ExecContext(ctx, InsertDelivery(DeliveryRowOf(orderUid, d)), fault);
    }

    /** `SavePayment`: one insert into `payments` under `orderUid`. */
    method SavePayment(ctx: Context, orderUid: string, p: Payment, fault: Option<Error>) returns (err: Option<Error>)
      modifies db, TxOf(ctx)
      ensures Executed(ctx, InsertPayment(PaymentRowOf(orderUid, p)), fault, err)
    {
      err := ExecContext(ctx, InsertPayment(PaymentRowOf(orderUid, p)), fault);
    }

    /**
     * `SaveItems`: nothing at all for an empty slice; otherwise one multi-row
     * insert with a row per item, in order, each tagged with `orderUid`.
     */
    method SaveItems(ctx: Context, orderUid: string, items: seq<Item>, fault: Option<Error>) returns (err: Option<Error>)
      modifies db, TxOf(ctx)
      ensures items == [] ==> err.None? && unchanged(db) && unchanged(TxOf(ctx))
      ensures items != [] ==> Executed(ctx, InsertItems(ItemRowsOf(orderUid, items)), fault, err)
    {
      if |items| == 0 {
        return None;
      }
      var rows: seq<ItemRow> := [];
      for k := 0 to |items|
        invariant |rows| == k
        invariant forall j :: 0 <= j < k ==> rows[j] == ItemRowOf(orderUid, items[j])
      {
        rows := rows + [ItemRowOf(orderUid, items[k])];
      }
      assert rows == ItemRowsOf(orderUid, items);
      err := ExecContext(ctx, InsertItems(rows), fault);
    }

    /** The `orders` row as `getContext` sees it: through the context's transaction when there is one. */
    function OrderHeader(ctx: Context, orderUid: string, fault: Option<Error>): Result<OrderRow, Error>
      reads this, db, TxOf(ctx)
    {
      var tx := ExtractTx(ctx);
      if tx != null then tx.SelectOrder(orderUid, fault) else SelectRow(db.tables.orders, orderUid, fault)
    }

    /** `getContext` for the `orders` query. */
    method GetContext(ctx: Context, orderUid: string, fault: Option<Error>) returns (r: Result<OrderRow, Error>)
      ensures ExtractTx(ctx) != null ==> r == ExtractTx(ctx).SelectOrder(orderUid, fault)
      ensures ExtractTx(ctx) == null ==> r == SelectRow(db.tables.orders, orderUid, fault)
    {
      var tx := ExtractTx(ctx);
      if tx != null {
        r := tx.SelectOrder(orderUid, fault);
      } else {
        r := SelectRow(db.tables.orders, orderUid, fault);
      }
    }

    /**
     * `GetOrder`. Only the `orders` query goes through `getContext`; the
     * delivery, payment and item queries always use the pool.
     */
    method GetOrder(ctx: Context, orderUid: string, f: ReadFaults) returns (ord: Order, err: Option<Error>)
      ensures (ord, err) == AssembleOrder(OrderHeader(ctx, orderUid, f.order), db.tables, orderUid, f)
    {
      ord := ZeroOrder;
      var header := GetContext(ctx, orderUid, f.order);
      if header.Err? {
        if Is(header.error, ErrNoRows) {
          return ord, Some(ErrOrderNotFound);
        }
        return ord, Some(header.error);
      }
      ord := HeaderFromRow(header.value);

      var delivery := SelectRow(db.tables.deliveries, orderUid, f.delivery);
      if delivery.Err? {
        return ord, Some(delivery.error);
      }
      ord := ord.(delivery := DeliveryFromRow(delivery.value));

      var payment := SelectRow(db.tables.payments, orderUid, f.payment);
      if payment.Err? {
        return ord, Some(payment.error);
      }
      ord := ord.(payment := PaymentFromRow(payment.value));

      var fetched := SelectItems(db.tables.items, orderUid, f.items);
      if fetched.Err? {
        return ord, Some(fetched.error);
      }
      var rows := fetched.value;
      var items: seq<Item> := [];
      for k := 0 to |rows|
        invariant |items| == k
        invariant forall j :: 0 <= j < k ==> items[j] == ItemFromRow(rows[j])
      {
        items := items + [ItemFromRow(rows[k])];
      }
      assert items == ItemsFromRows(rows);
      ord := ord.(items := items);
      err := None;
    }
  }
}
