/** The booking routes (`app/routers/bookings.py`) over an in-memory table:
    the shape checks made before a booking is created, the per-user queries,
    lookup, forced completion, the partial update, the status guard, and delete. */
module Bookings {
  import opened Http
  import opened BookingSchemas

  /** A row of the bookings table. The four fields a partial update may write
      are optional, because an explicit `null` in the update body is written. */
  datatype Booking = Booking(
    bookingId: int,
    userId: int,
    areaId: int,
    packageId: Option<int>,
    serviceId: Option<int>,
    professionalId: Option<int>,
    scheduledAt: Option<Timestamp>,
    totalPrice: Option<Price>,
    details: Option<string>,
    status: Option<string>,
    createdAt: Timestamp)

  /** The table keyed by `booking_id`, each row filed under its own id. */
  ghost predicate KeyedById(m: map<int, Booking>)
  {
    forall id :: id in m ==> m[id].bookingId == id
  }

  // ---------------------------------------------------------------------
  // create_booking: shape checks
  // ---------------------------------------------------------------------

  const InvalidPackage := HttpError(400, "Invalid package booking")
  const ServiceMissing := HttpError(400, "Service must be selected")
  const ProfessionalMissing := HttpError(400, "Professional must be selected")

  /** The shapes a create accepts, read with Python truthiness (an id of 0 counts
      as absent): a package and nothing else, or no package and both a service
      and a professional. */
  predicate AcceptedShape(d: BookingCreate)
  {
    || (TruthyId(d.packageId) && !TruthyId(d.serviceId) && !TruthyId(d.professionalId))
    || (!TruthyId(d.packageId) && TruthyId(d.serviceId) && TruthyId(d.professionalId))
  }

  /** The checks `create_booking` makes before handing the request to the
      booking service: `None` when it may go on, else the error it raises. With
      no package, a missing service is reported before a missing professional. */
  function ValidateCreate(d: BookingCreate): (r: Option<HttpError>)
    ensures r == None <==> AcceptedShape(d)
    ensures (TruthyId(d.packageId) && (TruthyId(d.serviceId) || TruthyId(d.professionalId)))
              ==> r == Some(InvalidPackage)
    ensures !TruthyId(d.packageId) && !TruthyId(d.serviceId) ==> r == Some(ServiceMissing)
    ensures (!TruthyId(d.packageId) && TruthyId(d.serviceId) && !TruthyId(d.professionalId))
              ==> r == Some(ProfessionalMissing)
  {
    if TruthyId(d.packageId) then
      if TruthyId(d.serviceId) || TruthyId(d.professionalId) then Some(InvalidPackage) else None
    else if !TruthyId(d.serviceId) then Some(ServiceMissing)
    else if !TruthyId(d.professionalId) then Some(ProfessionalMissing)
    else None
  }

  /** The row the booking service stores for an accepted request: every field
      of the request, plus the id, creation time and initial status the service
      chooses (the service is not part of this model, so all three are inputs). */
  function StoredBooking(d: BookingCreate, id: int, createdAt: Timestamp, initialStatus: string): (b: Booking)
    ensures b.bookingId == id && b.createdAt == createdAt && b.status == Some(initialStatus)
    ensures b.userId == d.userId && b.areaId == d.areaId
    ensures b.packageId == d.packageId && b.serviceId == d.serviceId && b.professionalId == d.professionalId
    ensures b.scheduledAt == Some(d.scheduledAt) && b.totalPrice == Some(d.totalPrice)
    ensures b.details == Some(d.details)
  {
    Booking(id, d.userId, d.areaId, d.packageId, d.serviceId, d.professionalId,
            Some(d.scheduledAt), Some(d.totalPrice), Some(d.details), Some(initialStatus), createdAt)
  }

  /** Neither request shape bounds the price: a negative price passes the checks. */
  lemma NegativePriceAccepted(d: BookingCreate)
    requires AcceptedShape(d)
    ensures ValidateCreate(d.(totalPrice := -1.0)) == None
  {
  }

  // ---------------------------------------------------------------------
  // response_model=BookingOut
  // ---------------------------------------------------------------------

  /** Whether a row can be answered as a `BookingOut`: the four fields an update
      may null out must all be present. */
  predicate Projectable(b: Booking)
  {
    b.scheduledAt.Some? && b.totalPrice.Some? && b.details.Some? && b.status.Some?
  }

  /** Serialising a row through `BookingOut`: exactly the six output fields, or the
      framework's 500 when the row no longer fits the response shape. */
  function Respond(b: Booking): (r: Result<BookingOut>)
    ensures r.Ok? <==> Projectable(b)
    ensures r.Err? ==> r.error == InternalError
    ensures r.Ok? ==> r.value.bookingId == b.bookingId && r.value.createdAt == b.createdAt
                      && Some(r.value.status) == b.status && Some(r.value.scheduledAt) == b.scheduledAt
                      && Some(r.value.totalPrice) == b.totalPrice && Some(r.value.details) == b.details
  {
    if Projectable(b) then
      Ok(BookingOut(b.bookingId, b.status.value, b.scheduledAt.value, b.totalPrice.value,
                    b.details.value, b.createdAt))
    else Err(InternalError)
  }

  /** `list[BookingOut]`: the whole answer fails if any row does not fit. */
  function RespondAll(bs: seq<Booking>): (r: Result<seq<BookingOut>>)
    ensures r.Ok? <==> forall i :: 0 <= i < |bs| ==> Projectable(bs[i])
    ensures r.Ok? ==> |r.value| == |bs| && forall i :: 0 <= i < |bs| ==> Ok(r.value[i]) == Respond(bs[i])
    ensures r.Err? ==> r.error == InternalError
  {
    if |bs| == 0 then Ok([])
    else
      match Respond(bs[0])
      case Err(e) => Err(e)
      case Ok(first) =>
        match RespondAll(bs[1..])
        case Err(e) => Err(e)
        case Ok(rest) => Ok([first] + rest)
  }

  /** A freshly created booking is answered with the request's own values. */
  lemma CreatedBookingResponds(d: BookingCreate, id: int, createdAt: Timestamp, initialStatus: string)
    ensures Respond(StoredBooking(d, id, createdAt, initialStatus))
            == Ok(BookingOut(id, initialStatus, d.scheduledAt, d.totalPrice, d.details, createdAt))
  {
  }

  // ---------------------------------------------------------------------
  // The list queries
  // ---------------------------------------------------------------------

  lemma NonEmpty(s: set<int>)
    requires s != {}
    ensures exists x :: x in s
  {
    if forall x :: x !in s {
      assert false;
    }
  }

  lemma LeastOf(s: set<int>) returns (k: int)
    requires s != {}
    ensures k in s && forall j :: j in s ==> k <= j
    decreases |s|
  {
    NonEmpty(s);
    var x :| x in s;
    var rest := s - {x};
    if rest == {} {
      k := x;
      assert s == {x};
    } else {
      var m := LeastOf(rest);
      k := if m < x then m else x;
      forall j | j in s ensures k <= j {
        if j != x { assert j in rest; }
      }
    }
  }

  lemma MinExists(s: set<int>)
    requires s != {}
    ensures exists k :: k in s && forall j :: j in s ==> k <= j
  {
    var k := LeastOf(s);
  }

  /** The smallest key of a non-empty table. */
  function Least(s: set<int>): (k: int)
    requires s != {}
    ensures k in s && forall j :: j in s ==> k <= j
  {
    MinExists(s);
    var k :| k in s && forall j :: j in s ==> k <= j;
    k
  }

  /** The keys of a table in ascending order. */
  function SortedKeys(s: set<int>): (r: seq<int>)
    ensures |r| == |s|
    ensures forall k :: k in r <==> k in s
    ensures forall i, j :: 0 <= i < j < |r| ==> r[i] < r[j]
    decreases |s|
  {
    if s == {} then []
    else
      var k := Least(s);
      [k] + SortedKeys(s - {k})
  }

  /** `db.query(Booking).all()`: every row once. SQL leaves the order open; the
      model lists rows by ascending id. */
  function AllBookings(m: map<int, Booking>): (r: seq<Booking>)
    ensures |r| == |m|
    ensures forall b :: b in r <==> b in m.Values
    ensures KeyedById(m) ==> forall i, j :: 0 <= i < j < |r| ==> r[i].bookingId < r[j].bookingId
  {
    var ks := SortedKeys(m.Keys);
    var r := RowsAt(m, ks);
    RowsAreValues(m, ks, r);
    r
  }

  /** The rows filed under the given keys, in the keys' order. */
  function RowsAt(m: map<int, Booking>, ks: seq<int>): (r: seq<Booking>)
    requires forall i :: 0 <= i < |ks| ==> ks[i] in m
    ensures |r| == |ks| && forall i :: 0 <= i < |ks| ==> r[i] == m[ks[i]]
    ensures KeyedById(m) && (forall i, j :: 0 <= i < j < |ks| ==> ks[i] < ks[j]) ==>
              forall i, j :: 0 <= i < j < |r| ==> r[i].bookingId < r[j].bookingId
  {
    seq(|ks|, i requires 0 <= i < |ks| => m[ks[i]])
  }

  lemma ValueHasKey(m: map<int, Booking>, b: Booking)
    requires b in m.Values
    ensures exists k :: k in m && m[k] == b
  {
    if forall k :: k in m ==> m[k] != b {
      assert false;
    }
  }

  lemma RowsAreValues(m: map<int, Booking>, ks: seq<int>, r: seq<Booking>)
    requires forall i :: 0 <= i < |ks| ==> ks[i] in m
    requires forall k :: k in m ==> k in ks
    requires |r| == |ks| && forall i :: 0 <= i < |ks| ==> r[i] == m[ks[i]]
    ensures forall b :: b in r <==> b in m.Values
  {
    forall b | b in r ensures b in m.Values {
      var i :| 0 <= i < |r| && r[i] == b;
      assert ks[i] in m;
    }
    forall b | b in m.Values ensures b in r {
      ValueHasKey(m, b);
      var k :| k in m && m[k] == b;
      var i :| 0 <= i < |ks| && ks[i] == k;
      assert r[i] == b;
    }
  }

  /** Which of the three per-user filters a query applies. */
  datatype PackageFilter = AnyKind | WithPackage | WithoutPackage

  /** `Booking.user_id == user_id`, plus `package_id IS NOT NULL` / `IS NULL`.
      Unlike the create checks, SQL's test is on NULL alone: a package id of 0 counts. */
  predicate Selected(b: Booking, userId: int, f: PackageFilter)
  {
    b.userId == userId
    && match f
       case AnyKind => true
       case WithPackage => b.packageId.Some?
       case WithoutPackage => b.packageId.None?
  }

  function FilterRows(s: seq<Booking>, userId: int, f: PackageFilter): (r: seq<Booking>)
    ensures forall b :: b in r <==> b in s && Selected(b, userId, f)
    ensures |r| <= |s|
    ensures forall b :: multiset(r)[b] == if Selected(b, userId, f) then multiset(s)[b] else 0
  {
    assert |s| > 0 ==> s == [s[0]] + s[1..];
    if |s| == 0 then []
    else if Selected(s[0], userId, f) then [s[0]] + FilterRows(s[1..], userId, f)
    else FilterRows(s[1..], userId, f)
  }

  /** `order_by(Booking.created_at.desc())`: newest first. */
  predicate NewestFirst(s: seq<Booking>)
  {
    forall i, j :: 0 <= i < j < |s| ==> s[i].createdAt >= s[j].createdAt
  }

  function InsertByCreated(x: Booking, s: seq<Booking>): (r: seq<Booking>)
    requires NewestFirst(s)
    ensures NewestFirst(r)
    ensures multiset(r) == multiset(s) + multiset{x}
    ensures r[0] == x || (|s| > 0 && r[0] == s[0])
  {
    if |s| == 0 || x.createdAt >= s[0].createdAt then [x] + s
    else
      assert s == [s[0]] + s[1..];
      [s[0]] + InsertByCreated(x, s[1..])
  }

  /** Sorting by `created_at`, descending; rows created at the same time keep
      their table order. */
  function SortNewestFirst(s: seq<Booking>): (r: seq<Booking>)
    ensures NewestFirst(r)
    ensures multiset(r) == multiset(s)
  {
    if |s| == 0 then []
    else
      assert s == [s[0]] + s[1..];
      InsertByCreated(s[0], SortNewestFirst(s[1..]))
  }

  /** The rows one user query returns: the selected rows, newest first. */
  function UserQuery(m: map<int, Booking>, userId: int, f: PackageFilter): (r: seq<Booking>)
    ensures NewestFirst(r)
    ensures multiset(r) == multiset(FilterRows(AllBookings(m), userId, f))
    ensures forall b :: b in r <==> b in m.Values && Selected(b, userId, f)
  {
    var r := SortNewestFirst(FilterRows(AllBookings(m), userId, f));
    assert forall b :: b in r <==> b in multiset(r);
    r
  }

  /** A list answer succeeds exactly when every row in it fits `BookingOut`. */
  lemma RespondAllOkIff(rows: seq<Booking>)
    ensures RespondAll(rows).Ok? <==> forall b :: b in rows ==> Projectable(b)
  {
    if RespondAll(rows).Err? {
      var i :| 0 <= i < |rows| && !Projectable(rows[i]);
      assert rows[i] in rows;
    }
  }

  /** Projecting a newest-first list keeps it newest first. */
  lemma RespondAllKeepsOrder(rows: seq<Booking>)
    requires NewestFirst(rows) && RespondAll(rows).Ok?
    ensures forall i, j :: 0 <= i < j < |RespondAll(rows).value| ==>
              RespondAll(rows).value[i].createdAt >= RespondAll(rows).value[j].createdAt
  {
    var out := RespondAll(rows).value;
    forall i, j | 0 <= i < j < |out| ensures out[i].createdAt >= out[j].createdAt {
      assert Ok(out[i]) == Respond(rows[i]) && Ok(out[j]) == Respond(rows[j]);
    }
  }

  /** `get_all_bookings`: every row answered as a `BookingOut`, or a 500 when some
      row has a null required field. */
  function GetAllBookings(m: map<int, Booking>): (r: Result<seq<BookingOut>>)
    ensures r.Ok? <==> forall b :: b in m.Values ==> Projectable(b)
    ensures r.Ok? ==> |r.value| == |m|
    ensures r.Ok? ==> forall i :: 0 <= i < |m| ==> Ok(r.value[i]) == Respond(AllBookings(m)[i])
    ensures r.Err? ==> r.error == InternalError
  {
    RespondAllOkIff(AllBookings(m));
    RespondAll(AllBookings(m))
  }

  /** A per-user list route: the query's rows, newest first, answered as
      `BookingOut`s, or a 500 when one of the user's selected rows has a null
      required field. */
  function UserRoute(m: map<int, Booking>, userId: int, f: PackageFilter): (r: Result<seq<BookingOut>>)
    ensures r.Ok? <==> forall b :: b in m.Values && Selected(b, userId, f) ==> Projectable(b)
    ensures r.Ok? ==> |r.value| == |UserQuery(m, userId, f)|
    ensures r.Ok? ==> forall i :: 0 <= i < |r.value| ==> Ok(r.value[i]) == Respond(UserQuery(m, userId, f)[i])
    ensures r.Ok? ==> forall i, j :: 0 <= i < j < |r.value| ==> r.value[i].createdAt >= r.value[j].createdAt
    ensures r.Err? ==> r.error == InternalError
  {
    var rows := UserQuery(m, userId, f);
    RespondAllOkIff(rows);
    if RespondAll(rows).Ok? then RespondAllKeepsOrder(rows); RespondAll(rows)
    else RespondAll(rows)
  }

  /** `get_user_bookings`: all of the user's bookings. */
  function GetUserBookings(m: map<int, Booking>, userId: int): (r: Result<seq<BookingOut>>)
    ensures r.Ok? <==> forall b :: b in m.Values && Selected(b, userId, AnyKind) ==> Projectable(b)
    ensures r.Ok? ==> |r.value| == |UserQuery(m, userId, AnyKind)|
  {
    UserRoute(m, userId, AnyKind)
  }

  /** `get_user_package_bookings`: the user's bookings whose `package_id` is not NULL. */
  function GetUserPackageBookings(m: map<int, Booking>, userId: int): (r: Result<seq<BookingOut>>)
    ensures r.Ok? <==> forall b :: b in m.Values && Selected(b, userId, WithPackage) ==> Projectable(b)
    ensures r.Ok? ==> |r.value| == |UserQuery(m, userId, WithPackage)|
  {
    UserRoute(m, userId, WithPackage)
  }

  /** `get_user_normal_bookings`: the user's bookings whose `package_id` is NULL. */
  function GetUserNormalBookings(m: map<int, Booking>, userId: int): (r: Result<seq<BookingOut>>)
    ensures r.Ok? <==> forall b :: b in m.Values && Selected(b, userId, WithoutPackage) ==> Projectable(b)
    ensures r.Ok? ==> |r.value| == |UserQuery(m, userId, WithoutPackage)|
  {
    UserRoute(m, userId, WithoutPackage)
  }

  lemma FilterPartition(s: seq<Booking>, userId: int)
    ensures multiset(FilterRows(s, userId, WithPackage)) + multiset(FilterRows(s, userId, WithoutPackage))
            == multiset(FilterRows(s, userId, AnyKind))
  {
    var p, n, a := FilterRows(s, userId, WithPackage), FilterRows(s, userId, WithoutPackage), FilterRows(s, userId, AnyKind);
    forall b
      ensures (multiset(p) + multiset(n))[b] == multiset(a)[b]
    {
      assert Selected(b, userId, AnyKind) <==> Selected(b, userId, WithPackage) || Selected(b, userId, WithoutPackage);
    }
  }

  /** The package list and the normal list of a user split that user's bookings:
      together they hold exactly the rows of the full list, and no row is in both. */
  lemma UserListsPartition(m: map<int, Booking>, userId: int)
    ensures multiset(UserQuery(m, userId, WithPackage)) + multiset(UserQuery(m, userId, WithoutPackage))
            == multiset(UserQuery(m, userId, AnyKind))
    ensures forall b :: b in UserQuery(m, userId, WithPackage) ==> b !in UserQuery(m, userId, WithoutPackage)
    ensures |UserQuery(m, userId, WithPackage)| + |UserQuery(m, userId, WithoutPackage)|
            == |UserQuery(m, userId, AnyKind)|
  {
    var s := AllBookings(m);
    FilterPartition(s, userId);
    var p, n, u := UserQuery(m, userId, WithPackage), UserQuery(m, userId, WithoutPackage), UserQuery(m, userId, AnyKind);
    assert multiset(p) + multiset(n) == multiset(u) by {
      assert multiset(p) == multiset(FilterRows(s, userId, WithPackage));
      assert multiset(n) == multiset(FilterRows(s, userId, WithoutPackage));
      assert multiset(u) == multiset(FilterRows(s, userId, AnyKind));
    }
    assert |multiset(p)| + |multiset(n)| == |multiset(u)|;
  }

  /** The two list routes together answer for exactly the rows of the full list. */
  lemma UserRoutesPartition(m: map<int, Booking>, userId: int)
    ensures GetUserBookings(m, userId).Ok? <==>
              GetUserPackageBookings(m, userId).Ok? && GetUserNormalBookings(m, userId).Ok?
    ensures GetUserBookings(m, userId).Ok? ==>
              |GetUserPackageBookings(m, userId).value| + |GetUserNormalBookings(m, userId).value|
              == |GetUserBookings(m, userId).value|
  {
    UserListsPartition(m, userId);
  }

  // ---------------------------------------------------------------------
  // get_booking, change_status
  // ---------------------------------------------------------------------

  const BookingNotFound := HttpError(404, "Booking not found")
  const JobNotFound := HttpError(404, "Job not found")

  /** `get_booking`: the row with that id answered as a `BookingOut`, or 404. */
  function GetBooking(m: map<int, Booking>, id: int): (r: Result<BookingOut>)
    ensures id !in m ==> r == Err(BookingNotFound)
    ensures r.Ok? <==> id in m && Projectable(m[id])
    ensures id in m ==> r == Respond(m[id])
    ensures r.Ok? ==> && r.value.bookingId == m[id].bookingId && r.value.createdAt == m[id].createdAt
                      && Some(r.value.status) == m[id].status && Some(r.value.scheduledAt) == m[id].scheduledAt
                      && Some(r.value.totalPrice) == m[id].totalPrice && Some(r.value.details) == m[id].details
    ensures id in m && !Projectable(m[id]) ==> r == Err(InternalError)
  {
    if id in m then Respond(m[id]) else Err(BookingNotFound)
  }

  /** The request `change_status` passes on to `update_booking_status`, which is
      not part of this model. */
  datatype StatusRequest = StatusRequest(bookingId: int, status: string)

  const InvalidStatus := HttpError(400, "Invalid status")

  /** `change_status`'s guard: only the three listed statuses, spelt exactly, reach
      the service; anything else is a 400 and reaches nothing. */
  function ChangeStatus(id: int, status: string): (r: Result<StatusRequest>)
    ensures r.Ok? <==> status in {"pending", "cancelled", "completed"}
    ensures r.Ok? ==> r.value == StatusRequest(id, status)
    ensures r.Err? ==> r.error == InvalidStatus
  {
    if status !in ["pending", "cancelled", "completed"] then Err(InvalidStatus)
    else Ok(StatusRequest(id, status))
  }

  // ---------------------------------------------------------------------
  // update_booking: setattr for each field sent
  // ---------------------------------------------------------------------

  /** `setattr(booking, key, value)` for one sent field. */
  function Assign(b: Booking, a: Assignment): (r: Booking)
    ensures r.bookingId == b.bookingId && r.userId == b.userId && r.areaId == b.areaId
    ensures r.packageId == b.packageId && r.serviceId == b.serviceId
    ensures r.professionalId == b.professionalId && r.createdAt == b.createdAt
    ensures r.scheduledAt == (if a.SetScheduledAt? then a.at else b.scheduledAt)
    ensures r.status == (if a.SetStatus? then a.status else b.status)
    ensures r.totalPrice == (if a.SetTotalPrice? then a.price else b.totalPrice)
    ensures r.details == (if a.SetDetails? then a.details else b.details)
  {
    match a
    case SetScheduledAt(v) => b.(scheduledAt := v)
    case SetStatus(v) => b.(status := v)
    case SetTotalPrice(v) => b.(totalPrice := v)
    case SetDetails(v) => b.(details := v)
  }

  /** The row after the `setattr` loop has run over `items`, in order. */
  function AssignAll(b: Booking, items: seq<Assignment>): (r: Booking)
    ensures r.bookingId == b.bookingId && r.userId == b.userId && r.areaId == b.areaId
    ensures r.packageId == b.packageId && r.serviceId == b.serviceId
    ensures r.professionalId == b.professionalId && r.createdAt == b.createdAt
  {
    if |items| == 0 then b else Assign(AssignAll(b, items[..|items| - 1]), items[|items| - 1])
  }

  /** What a partial update means, field by field: a field the client sent takes
      the sent value (an explicit `null` writes `None`), a field it left out keeps
      its value, and the fields `BookingUpdate` does not have never change. */
  function Merge(b: Booking, u: BookingUpdate): (r: Booking)
    ensures r.bookingId == b.bookingId && r.userId == b.userId && r.areaId == b.areaId
    ensures r.packageId == b.packageId && r.serviceId == b.serviceId
    ensures r.professionalId == b.professionalId && r.createdAt == b.createdAt
    ensures r.scheduledAt == (if u.scheduledAt.Given? then u.scheduledAt.value else b.scheduledAt)
    ensures r.status == (if u.status.Given? then u.status.value else b.status)
    ensures r.totalPrice == (if u.totalPrice.Given? then u.totalPrice.value else b.totalPrice)
    ensures r.details == (if u.details.Given? then u.details.value else b.details)
  {
    b.(scheduledAt := if u.scheduledAt.Given? then u.scheduledAt.value else b.scheduledAt,
       status := if u.status.Given? then u.status.value else b.status,
       totalPrice := if u.totalPrice.Given? then u.totalPrice.value else b.totalPrice,
       details := if u.details.Given? then u.details.value else b.details)
  }

  lemma {:induction false} AssignAllAppend(b: Booking, s: seq<Assignment>, t: seq<Assignment>)
    ensures AssignAll(b, s + t) == AssignAll(AssignAll(b, s), t)
  {
    if |t| > 0 {
      AssignAllAppend(b, s, t[..|t| - 1]);
      assert (s + t)[..|s + t| - 1] == s + t[..|t| - 1];
      assert (s + t)[|s + t| - 1] == t[|t| - 1];
    } else {
      assert s + t == s;
    }
  }

  /** A partial update never moves a row to another id. */
  lemma MergeKeepsKeyedById(m: map<int, Booking>, id: int, u: BookingUpdate)
    requires KeyedById(m) && id in m
    ensures KeyedById(m[id := Merge(m[id], u)])
  {
  }

  /** One more turn of the `setattr` loop. */
  lemma AssignAllStep(b: Booking, items: seq<Assignment>, i: nat)
    requires i < |items|
    ensures AssignAll(b, items[..i + 1]) == Assign(AssignAll(b, items[..i]), items[i])
  {
    assert items[..i + 1][..i] == items[..i];
    assert items[..i + 1][i] == items[i];
  }

  lemma AssignEntry<T>(b: Booking, f: Field<T>, make: Option<T> -> Assignment)
    ensures AssignAll(b, Entry(f, make)) == if f.Given? then Assign(b, make(f.value)) else b
  {
    if f.Given? {
      assert Entry(f, make)[..0] == [];
    }
  }

  /** The `setattr` loop over `data.dict(exclude_unset=True)` performs exactly the
      field-by-field merge. */
  lemma AssignSetFields(b: Booking, u: BookingUpdate)
    ensures AssignAll(b, SetFields(u)) == Merge(b, u)
  {
    var e1 := Entry(u.scheduledAt, v => SetScheduledAt(v));
    var e2 := Entry(u.status, v => SetStatus(v));
    var e3 := Entry(u.totalPrice, v => SetTotalPrice(v));
    var e4 := Entry(u.details, v => SetDetails(v));
    AssignAllAppend(b, e1 + e2 + e3, e4);
    AssignAllAppend(b, e1 + e2, e3);
    AssignAllAppend(b, e1, e2);
    AssignEntry(b, u.scheduledAt, v => SetScheduledAt(v));
    var b1 := AssignAll(b, e1);
    AssignEntry(b1, u.status, v => SetStatus(v));
    var b2 := AssignAll(b1, e2);
    AssignEntry(b2, u.totalPrice, v => SetTotalPrice(v));
    var b3 := AssignAll(b2, e3);
    AssignEntry(b3, u.details, v => SetDetails(v));
  }

  /** A status set through `update_booking` is stored as sent, even one that
      `change_status` would reject. */
  lemma UpdateStoresAnyStatus(b: Booking, s: string)
    ensures Merge(b, BookingUpdate(Unset, Given(Some(s)), Unset, Unset)).status == Some(s)
  {
  }

  /** An update that sends `"status": null` is stored, but the stored row no longer
      fits `BookingOut`: the same request is answered with a 500, and so is every
      later read of that row. */
  lemma NullStatusUpdateCannotRespond(b: Booking)
    ensures Merge(b, BookingUpdate(Unset, Given(None), Unset, Unset)).status == None
    ensures Respond(Merge(b, BookingUpdate(Unset, Given(None), Unset, Unset))) == Err(InternalError)
  {
  }

  /** The table after `complete_job` on a known id: that row's status is "completed". */
  function Completed(m: map<int, Booking>, id: int): (r: map<int, Booking>)
    requires id in m
    ensures r.Keys == m.Keys && r[id].status == Some("completed")
    ensures forall k :: k in m && k != id ==> r[k] == m[k]
    ensures r[id] == m[id].(status := Some("completed"))
  {
    m[id := m[id].(status := Some("completed"))]
  }

  /** Completing a job twice leaves the table as completing it once. */
  lemma CompleteIdempotent(m: map<int, Booking>, id: int)
    requires id in m
    ensures Completed(Completed(m, id), id) == Completed(m, id)
  {
  }

  /** Completing a job keeps every row filed under its own id. */
  lemma CompletedKeyedById(m: map<int, Booking>, id: int)
    requires KeyedById(m) && id in m
    ensures KeyedById(Completed(m, id))
  {
  }

  // ---------------------------------------------------------------------
  // The table and the routes that change it
  // ---------------------------------------------------------------------

  class BookingStore {
    var records: map<int, Booking>

    ghost predicate Valid()
      reads this
    {
      KeyedById(records)
    }

    constructor ()
      ensures Valid() && records == map[]
    {
      records := map[];
    }

    /** `create_booking_service`: stores the row for an accepted request under a
        fresh id. */
    method CreateBookingService(d: BookingCreate, newId: int, createdAt: Timestamp, initialStatus: string)
      returns (b: Booking)
      requires Valid() && newId !in records
      modifies this
      ensures Valid()
      ensures b == StoredBooking(d, newId, createdAt, initialStatus)
      ensures records == old(records)[newId := b]
    {
      b := StoredBooking(d, newId, createdAt, initialStatus);
      records := records[newId := b];
    }

    /** `create_booking`: a rejected shape changes nothing; an accepted one is
        stored by the service and answered as a `BookingOut`. */
    method CreateBooking(d: BookingCreate, newId: int, createdAt: Timestamp, initialStatus: string)
      returns (r: Result<BookingOut>)
      requires Valid() && newId !in records
      modifies this
      ensures Valid()
      ensures ValidateCreate(d).Some? ==> r == Err(ValidateCreate(d).value) && records == old(records)
      ensures ValidateCreate(d).None? ==>
                && records == old(records)[newId := StoredBooking(d, newId, createdAt, initialStatus)]
                && r == Ok(BookingOut(newId, initialStatus, d.scheduledAt, d.totalPrice, d.details, createdAt))
    {
      var invalid := ValidateCreate(d);
      if invalid.Some? {
        return Err(invalid.value);
      }
      var b := CreateBookingService(d, newId, createdAt, initialStatus);
      r := Respond(b);
    }

    /** `complete_job`: sets the status to "completed" whatever it was; nothing
        else in the row or the table changes. */
    method CompleteJob(id: int) returns (r: Result<string>)
      requires Valid()
      modifies this
      ensures Valid()
      ensures id !in old(records) ==> r == Err(JobNotFound) && records == old(records)
      ensures id in old(records) ==>
                && r == Ok("Job marked as completed")
                && records == Completed(old(records), id)
    {
      if id !in records {
        return Err(JobNotFound);
      }
      records := Completed(records, id);
      r := Ok("Job marked as completed");
    }

    /** `update_booking`: the `setattr` loop over the fields the client sent;
        the row ends up as `Merge` says and no other row changes. The answer is
        the stored row as a `BookingOut`, which fails after the commit when an
        explicit `null` was written. */
    method UpdateBooking(id: int, u: BookingUpdate) returns (r: Result<BookingOut>)
      requires Valid()
      modifies this
      ensures Valid()
      ensures id !in old(records) ==> r == Err(BookingNotFound) && records == old(records)
      ensures id in old(records) ==>
                && records == old(records)[id := Merge(old(records)[id], u)]
                && r == Respond(Merge(old(records)[id], u))
    {
      if id !in records {
        return Err(BookingNotFound);
      }
      var items := SetFields(u);
      ghost var before := records[id];
      var i := 0;
      while i < |items|
        invariant 0 <= i <= |items|
        invariant records == old(records)[id := AssignAll(before, items[..i])]
      {
        AssignAllStep(before, items, i);
        records := records[id := Assign(records[id], items[i])];
        i := i + 1;
      }
      assert items[..|items|] == items;
      AssignSetFields(before, u);
      MergeKeepsKeyedById(old(records), id, u);
      r := Respond(records[id]);
    }

    /** `delete_booking`: removes exactly that row. */
    method DeleteBooking(id: int) returns (r: Result<string>)
      requires Valid()
      modifies this
      ensures Valid()
      ensures id !in old(records) ==> r == Err(BookingNotFound) && records == old(records)
      ensures id in old(records) ==> r == Ok("Booking deleted successfully") && records == old(records) - {id}
    {
      if id !in records {
        return Err(BookingNotFound);
      }
      records := records - {id};
      r := Ok("Booking deleted successfully");
    }
  }
}
