/**
 * Row shapes of the four tables and their conversion into entities
 * (internal/repo/models.go).
 *
 * `sql.NullString` and `sql.NullInt32` keep a payload and a `Valid` flag. A value
 * scanned from a NULL column has `Valid == false` and a zero payload; the
 * predicates `Scanned` say that, since several readers rely on it.
 */
module RepoModels {
  import opened Entities

  /** The values of Go's `int32`. */
  type Int32 = x: int | -0x8000_0000 <= x < 0x8000_0000

  datatype NullString = NullString(str: string, valid: bool)
  {
    /** What scanning a column yields: NULL leaves the payload empty. */
    predicate Scanned() { valid || str == "" }
  }

  datatype NullInt32 = NullInt32(int32: Int32, valid: bool)
  {
    predicate Scanned() { valid || int32 == 0 }
  }

  datatype OrderRow = OrderRow(
    orderUid: string,
    trackNumber: string,
    entry: NullString,
    locale: NullString,
    internalSignature: NullString,
    customerId: string,
    deliveryService: string,
    shardKey: NullString,
    smId: int,
    dateCreated: Time,
    oofShard: NullString)

  datatype DeliveryRow = DeliveryRow(
    orderUid: string,
    name: NullString,
    phone: NullString,
    zip: NullString,
    city: NullString,
    address: NullString,
    region: NullString,
    email: NullString)

  datatype PaymentRow = PaymentRow(
    orderUid: string,
    transaction: string,
    requestId: NullString,
    currency: string,
    provider: string,
    amount: int,
    paymentDt: Time,
    bank: NullString,
    deliveryCost: int,
    goodsTotal: int,
    customFee: NullInt32)

  datatype ItemRow = ItemRow(
    rid: string,
    orderUid: string,
    chrtId: int,
    trackNumber: string,
    price: int,
    name: string,
    sale: NullInt32,
    size: NullString,
    totalPrice: int,
    nmId: int,
    brand: NullString,
    status: int)

  predicate OrderRowScanned(o: OrderRow)
  {
    o.entry.Scanned() && o.locale.Scanned() && o.internalSignature.Scanned()
    && o.shardKey.Scanned() && o.oofShard.Scanned()
  }

  predicate DeliveryRowScanned(d: DeliveryRow)
  {
    d.name.Scanned() && d.phone.Scanned() && d.zip.Scanned() && d.city.Scanned()
    && d.address.Scanned() && d.region.Scanned() && d.email.Scanned()
  }

  predicate PaymentRowScanned(p: PaymentRow)
  {
    p.requestId.Scanned() && p.bank.Scanned() && p.customFee.Scanned()
  }

  predicate ItemRowScanned(i: ItemRow)
  {
    i.sale.Scanned() && i.size.Scanned() && i.brand.Scanned()
  }

  /** `nullStringToString`: the payload of a valid value, "" for NULL. */
  function NullStringToString(ns: NullString): (s: string)
    ensures ns.valid ==> s == ns.str
    ensures !ns.valid ==> s == ""
    ensures ns.Scanned() ==> s == ns.str
  {
    if ns.valid then ns.str else ""
  }

  /** `nullInt32ToInt`: the widened payload of a valid value, 0 for NULL. */
  function NullInt32ToInt(ni: NullInt32): (i: int)
    ensures ni.valid ==> i == ni.int32
    ensures !ni.valid ==> i == 0
    ensures ni.Scanned() ==> i == ni.int32
    ensures -0x8000_0000 <= i < 0x8000_0000
  {
    if ni.valid then ni.int32 else 0
  }

  function DeliveryToEntity(d: DeliveryRow): Delivery
  {
    Delivery(
      NullStringToString(d.name),
      NullStringToString(d.phone),
      NullStringToString(d.zip),
      NullStringToString(d.city),
      NullStringToString(d.address),
      NullStringToString(d.region),
      NullStringToString(d.email))
  }

  function PaymentToEntity(p: PaymentRow): Payment
  {
    Payment(
      p.transaction,
      NullStringToString(p.requestId),
      p.currency,
      p.provider,
      p.amount,
      p.paymentDt,
      NullStringToString(p.bank),
      p.deliveryCost,
      p.goodsTotal,
      NullInt32ToInt(p.customFee))
  }

  function ItemToEntity(i: ItemRow): Item
  {
    Item(
      i.chrtId,
      i.trackNumber,
      i.price,
      i.rid,
      i.name,
      NullInt32ToInt(i.sale),
      NullStringToString(i.size),
      i.totalPrice,
      i.nmId,
      NullStringToString(i.brand),
      i.status)
  }

  /** The loop of `OrderToEntity`: one entity per row, in row order. */
  function ItemsToEntity(rows: seq<ItemRow>): (items: seq<Item>)
    ensures |items| == |rows|
    ensures forall k :: 0 <= k < |rows| ==> items[k] == ItemToEntity(rows[k])
  {
    if rows == [] then [] else [ItemToEntity(rows[0])] + ItemsToEntity(rows[1..])
  }

  /**
   * `OrderToEntity`: the header copied, NULL columns read as "" or 0, delivery
   * and payment through their converters, and the items left empty (nil in Go)
   * when there are no rows.
   */
  function OrderToEntity(o: OrderRow, d: DeliveryRow, p: PaymentRow, rows: seq<ItemRow>): (e: Order)
    ensures e.orderUid == o.orderUid && e.trackNumber == o.trackNumber
    ensures e.customerId == o.customerId && e.deliveryService == o.deliveryService
    ensures e.smId == o.smId && e.dateCreated == o.dateCreated
    ensures e.entry == NullStringToString(o.entry) && e.locale == NullStringToString(o.locale)
    ensures e.internalSig == NullStringToString(o.internalSignature)
    ensures e.shardKey == NullStringToString(o.shardKey) && e.oofShard == NullStringToString(o.oofShard)
    ensures e.delivery == DeliveryToEntity(d) && e.payment == PaymentToEntity(p)
    ensures rows == [] ==> e.items == []
    ensures |e.items| == |rows|
    ensures forall k :: 0 <= k < |rows| ==> e.items[k] == ItemToEntity(rows[k])
  {
    var header := Order(
      o.orderUid,
      o.trackNumber,
      NullStringToString(o.entry),
      NullStringToString(o.locale),
      NullStringToString(o.internalSignature),
      o.customerId,
      o.deliveryService,
      NullStringToString(o.shardKey),
      o.smId,
      o.dateCreated,
      NullStringToString(o.oofShard),
      DeliveryToEntity(d),
      PaymentToEntity(p),
      []);
    if |rows| > 0 then header.(items := ItemsToEntity(rows)) else header
  }
}
