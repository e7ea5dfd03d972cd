/** The request and response shapes of the booking routes
    (`app/schemas/booking.py`). */
module BookingSchemas {
  import opened Http

  /** `total_price` is a float in the source; nothing computes with it, and no
      bound is placed on it by either request shape. */
  type Price = real

  /** A `datetime`; the routes only compare and sort them. */
  type Timestamp = int

  /** `BookingCreate`: `user_id`, `area_id`, `scheduled_at`, `total_price` and
      `details` are required; the three references are optional and default to `None`. */
  datatype BookingCreate = BookingCreate(
    userId: int,
    areaId: int,
    packageId: Option<int>,
    serviceId: Option<int>,
    professionalId: Option<int>,
    scheduledAt: Timestamp,
    totalPrice: Price,
    details: string)

  /** A field of a partial update as `exclude_unset` sees it: either the client
      left it out, or the client sent it, possibly as an explicit `null`. */
  datatype Field<+T> = Unset | Given(value: Option<T>)

  /** `BookingUpdate`: only these four fields exist, every one optional. In
      particular `status` is any string at all. */
  datatype BookingUpdate = BookingUpdate(
    scheduledAt: Field<Timestamp>,
    status: Field<string>,
    totalPrice: Field<Price>,
    details: Field<string>)

  /** One entry of `data.dict(exclude_unset=True)`: a field the client sent, with its value. */
  datatype Assignment =
    | SetScheduledAt(at: Option<Timestamp>)
    | SetStatus(status: Option<string>)
    | SetTotalPrice(price: Option<Price>)
    | SetDetails(details: Option<string>)

  function Entry<T>(f: Field<T>, make: Option<T> -> Assignment): seq<Assignment>
  {
    match f
    case Unset => []
    case Given(v) => [make(v)]
  }

  /** `data.dict(exclude_unset=True).items()`: the fields the client sent, each
      once, in declaration order, with `null` kept as `None`. */
  function SetFields(u: BookingUpdate): (items: seq<Assignment>)
    ensures forall v :: SetScheduledAt(v) in items <==> u.scheduledAt == Given(v)
    ensures forall v :: SetStatus(v) in items <==> u.status == Given(v)
    ensures forall v :: SetTotalPrice(v) in items <==> u.totalPrice == Given(v)
    ensures forall v :: SetDetails(v) in items <==> u.details == Given(v)
    ensures u == BookingUpdate(Unset, Unset, Unset, Unset) <==> items == []
  {
    Entry(u.scheduledAt, v => SetScheduledAt(v))
    + Entry(u.status, v => SetStatus(v))
    + Entry(u.totalPrice, v => SetTotalPrice(v))
    + Entry(u.details, v => SetDetails(v))
  }

  /** `BookingOut`: what every booking route answers with, whatever else the row holds. */
  datatype BookingOut = BookingOut(
    bookingId: int,
    status: string,
    scheduledAt: Timestamp,
    totalPrice: Price,
    details: string,
    createdAt: Timestamp)
}
