/**
 * The order aggregate as the service passes it around (internal/entities/entities.go).
 *
 * Go's `time.Time` is a point on the Unix time line: whole seconds since the
 * epoch and the nanoseconds within that second. Go's `int` is a 64-bit integer;
 * every integer field here is an unbounded `int`, and the one place where the
 * code narrows a value (to 32 bits, in the store) is written out in `Postgres`.
 */
module Entities {

  const NanosPerSecond: int := 1_000_000_000

  /** A point on the Unix time line: seconds and nanoseconds, not yet normalized. */
  datatype Instant = Instant(sec: int, nsec: int)

  /** A `time.Time`: Unix seconds and the nanoseconds within that second. */
  type Time = t: Instant | 0 <= t.nsec < NanosPerSecond witness Instant(0, 0)

  /** `time.Unix(sec, 0)`: the whole second `sec`. */
  function FromUnix(sec: int): (t: Time)
    ensures t.nsec == 0
    ensures Unix(t) == sec
  {
    Instant(sec, 0)
  }

  /** `t.Unix()`: the whole seconds of `t`, rounded towards the past. */
  function Unix(t: Time): int
  {
    t.sec
  }

  /** The zero `time.Time{}` (January 1, year 1, UTC) on the Unix time line. */
  const ZeroTime: Time := Instant(-62_135_596_800, 0)

  datatype Delivery = Delivery(
    name: string,
    phone: string,
    zip: string,
    city: string,
    address: string,
    region: string,
    email: string)

  datatype Payment = Payment(
    transaction: string,
    requestId: string,
    currency: string,
    provider: string,
    amount: int,
    paymentDt: Time,
    bank: string,
    deliveryCost: int,
    goodsTotal: int,
    customFee: int)

  datatype Item = Item(
    chrtId: int,
    trackNumber: string,
    price: int,
    rid: string,
    name: string,
    sale: int,
    size: string,
    totalPrice: int,
    nmId: int,
    brand: string,
    status: int)

  datatype Order = Order(
    orderUid: string,
    trackNumber: string,
    entry: string,
    locale: string,
    internalSig: string,
    customerId: string,
    deliveryService: string,
    shardKey: string,
    smId: int,
    dateCreated: Time,
    oofShard: string,
    delivery: Delivery,
    payment: Payment,
    items: seq<Item>)

  /** The zero value `entities.Order{}`. */
  const ZeroOrder: Order := Order(
    "", "", "", "", "", "", "", "", 0, ZeroTime, "",
    Delivery("", "", "", "", "", "", ""),
    Payment("", "", "", "", 0, ZeroTime, "", 0, 0, 0),
    [])
}
