/**
 * The JSON shape of an order message and its conversion to and from the
 * entities (internal/handler/models.go).
 *
 * Every field is copied as it is, except the payment timestamp: the JSON form
 * holds Unix seconds, so an entity's timestamp loses its nanoseconds on the
 * way out and comes back as a whole second.
 */
module HandlerModels {
  import E = Entities

  datatype Delivery = Delivery(
    name: string,
    phone: string,
    zip: string,
    city: string,
    address: string,
    region: string,
    email: string)

  datatype Payment = Payment(
    transaction: string,
    requestId: string,
    currency: string,
    provider: string,
    amount: int,
    paymentDt: int,      // Unix seconds
    bank: string,
    deliveryCost: int,
    goodsTotal: int,
    customFee: int)

  datatype Item = Item(
    chrtId: int,
    trackNumber: string,
    price: int,
    rid: string,
    name: string,
    sale: int,
    size: string,
    totalPrice: int,
    nmId: int,
    brand: string,
    status: int)

  datatype Order = Order(
    orderUid: string,
    trackNumber: string,
    entry: string,
    delivery: Delivery,
    payment: Payment,
    items: seq<Item>,
    locale: string,
    internalSig: string,
    customerId: string,
    deliveryService: string,
    shardKey: string,
    smId: int,
    dateCreated: E.Time,
    oofShard: string)

  function DeliveryEntityToJSON(e: E.Delivery): Delivery
  {
    Delivery(e.name, e.phone, e.zip, e.city, e.address, e.region, e.email)
  }

  function DeliveryJSONToEntity(h: Delivery): E.Delivery
  {
    E.Delivery(h.name, h.phone, h.zip, h.city, h.address, h.region, h.email)
  }

  function PaymentEntityToJSON(e: E.Payment): Payment
  {
    Payment(
      e.transaction, e.requestId, e.currency, e.provider, e.amount, E.Unix(e.paymentDt),
      e.bank, e.deliveryCost, e.goodsTotal, e.customFee)
  }

  function PaymentJSONToEntity(h: Payment): E.Payment
  {
    E.Payment(
      h.transaction, h.requestId, h.currency, h.provider, h.amount, E.FromUnix(h.paymentDt),
      h.bank, h.deliveryCost, h.goodsTotal, h.customFee)
  }

  function ItemEntityToJSON(e: E.Item): Item
  {
    Item(e.chrtId, e.trackNumber, e.price, e.rid, e.name, e.sale, e.size, e.totalPrice, e.nmId, e.brand, e.status)
  }

  function ItemJSONToEntity(h: Item): E.Item
  {
    E.Item(h.chrtId, h.trackNumber, h.price, h.rid, h.name, h.sale, h.size, h.totalPrice, h.nmId, h.brand, h.status)
  }

  /** The item loop of `OrderEntityToJSON`: one JSON item per entity, in order. */
  function ItemsEntityToJSON(items: seq<E.Item>): (r: seq<Item>)
    ensures |r| == |items|
    ensures forall k :: 0 <= k < |items| ==> r[k] == ItemEntityToJSON(items[k])
  {
    if items == [] then [] else ItemsEntityToJSON(items[..|items| - 1]) + [ItemEntityToJSON(items[|items| - 1])]
  }

  /** The item loop of `OrderJSONToEntity`: one entity per JSON item, in order. */
  function ItemsJSONToEntity(items: seq<Item>): (r: seq<E.Item>)
    ensures |r| == |items|
    ensures forall k :: 0 <= k < |items| ==> r[k] == ItemJSONToEntity(items[k])
  {
    if items == [] then [] else ItemsJSONToEntity(items[..|items| - 1]) + [ItemJSONToEntity(items[|items| - 1])]
  }

  function OrderEntityToJSON(e: E.Order): Order
  {
    Order(
      e.orderUid, e.trackNumber, e.entry,
      DeliveryEntityToJSON(e.delivery), PaymentEntityToJSON(e.payment), ItemsEntityToJSON(e.items),
      e.locale, e.internalSig, e.customerId, e.deliveryService, e.shardKey, e.smId,
      e.dateCreated, e.oofShard)
  }

  function OrderJSONToEntity(h: Order): E.Order
  {
    E.Order(
      h.orderUid, h.trackNumber, h.entry, h.locale, h.internalSig, h.customerId,
      h.deliveryService, h.shardKey, h.smId, h.dateCreated, h.oofShard,
      DeliveryJSONToEntity(h.delivery), PaymentJSONToEntity(h.payment), ItemsJSONToEntity(h.items))
  }

  lemma DeliveryRoundTrips(e: E.Delivery, h: Delivery)
    ensures DeliveryJSONToEntity(DeliveryEntityToJSON(e)) == e
    ensures DeliveryEntityToJSON(DeliveryJSONToEntity(h)) == h
  {
  }

  lemma ItemRoundTrips(e: E.Item, h: Item)
    ensures ItemJSONToEntity(ItemEntityToJSON(e)) == e
    ensures ItemEntityToJSON(ItemJSONToEntity(h)) == h
  {
  }

  /** The epoch seconds of a JSON payment survive `time.Unix(x, 0).Unix()`. */
  lemma PaymentJSONRoundTrip(h: Payment)
    ensures PaymentEntityToJSON(PaymentJSONToEntity(h)) == h
  {
  }

  /**
   * An entity payment comes back with its timestamp truncated to the whole
   * second, and so comes back unchanged exactly when it had no nanoseconds.
   */
  lemma PaymentEntityRoundTrip(e: E.Payment)
    ensures PaymentJSONToEntity(PaymentEntityToJSON(e)) == e.(paymentDt := E.Instant(e.paymentDt.sec, 0))
    ensures PaymentJSONToEntity(PaymentEntityToJSON(e)) == e <==> e.paymentDt.nsec == 0
  {
  }

  /** JSON to entity and back is the identity on whole orders, items in the same order. */
  lemma OrderJSONRoundTrip(h: Order)
    ensures OrderEntityToJSON(OrderJSONToEntity(h)) == h
  {
    var back := ItemsEntityToJSON(ItemsJSONToEntity(h.items));
    forall k | 0 <= k < |h.items| ensures back[k] == h.items[k] {
      ItemRoundTrips(ItemJSONToEntity(h.items[k]), h.items[k]);
    }
    PaymentJSONRoundTrip(h.payment);
  }

  /** Entity to JSON and back changes nothing but the payment timestamp's nanoseconds. */
  lemma OrderEntityRoundTrip(e: E.Order)
    ensures OrderJSONToEntity(OrderEntityToJSON(e))
         == e.(payment := e.payment.(paymentDt := E.Instant(e.payment.paymentDt.sec, 0)))
  {
    var back := ItemsJSONToEntity(ItemsEntityToJSON(e.items));
    forall k | 0 <= k < |e.items| ensures back[k] == e.items[k] {
      ItemRoundTrips(e.items[k], ItemEntityToJSON(e.items[k]));
    }
    PaymentEntityRoundTrip(e.payment);
  }
}
