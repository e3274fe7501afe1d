/**
 * The booking endpoints: create (which prices the trip), list (which fills in
 * a missing fare on the fly) and the status update used by drivers.  The
 * database table is a map from primary key to record.
 */
module Bookings {
  import opened Wrappers
  import opened Fare

  /** A row of the bookings table, with the optional trip fields the fare rule reads and writes. */
  datatype Booking = Booking(
    id: int,
    userId: int,
    vanId: int,
    status: string,
    pickupLocation: string,
    dropoffLocation: string,
    scheduledTime: string,
    vanSize: string,
    timeSlot: string,
    distance: Option<string>,
    durationMinutes: Option<int>,
    toll: Option<real>,
    fare: Option<real>)

  /** The body of a create request. */
  datatype BookingCreate = BookingCreate(
    userId: int,
    vanId: int,
    status: string,
    pickupLocation: string,
    dropoffLocation: string,
    scheduledTime: string,
    vanSize: string,
    timeSlot: string,
    distance: Option<string>,
    durationMinutes: Option<int>,
    toll: Option<real>)

  type Store = map<int, Booking>

  datatype HttpError = HttpError(statusCode: int, detail: string)

  const NotFound := HttpError(404, "Booking not found")

  /** The fare the service computes for a record's trip fields. */
  function FareFor(b: Booking): real
  {
    StoredFare(b.distance, b.durationMinutes, b.toll)
  }

  /**
   * `POST /bookings/`: store the request as a new row under `id`, priced by
   * the fare rule.  The table chooses `id`; all the service relies on is
   * that it is not already in use.
   */
  function Create(db: Store, req: BookingCreate, id: int): (r: (Store, Booking))
    requires id !in db
    ensures r.0.Keys == db.Keys + {id}
    ensures r.0[id] == r.1 && r.1.id == id
    ensures forall k :: k in db ==> r.0[k] == db[k]
    ensures r.1.fare == Some(StoredFare(req.distance, req.durationMinutes, req.toll))
    ensures r.1.status == req.status && r.1.distance == req.distance
    ensures r.1.durationMinutes == req.durationMinutes && r.1.toll == req.toll
    ensures r.1.userId == req.userId && r.1.vanId == req.vanId
    ensures r.1.pickupLocation == req.pickupLocation && r.1.dropoffLocation == req.dropoffLocation
    ensures r.1.scheduledTime == req.scheduledTime
    ensures r.1.vanSize == req.vanSize && r.1.timeSlot == req.timeSlot
  {
    var fare := StoredFare(req.distance, req.durationMinutes, req.toll);
    var b := Booking(id, req.userId, req.vanId, req.status, req.pickupLocation,
                     req.dropoffLocation, req.scheduledTime, req.vanSize, req.timeSlot,
                     req.distance, req.durationMinutes, req.toll, Some(fare));
    (db[id := b], b)
  }

  /** One record as `GET /bookings/` returns it. */
  function WithFare(b: Booking): (r: Booking)
    ensures r.fare.Some?
    ensures b.fare.Some? ==> r == b
    ensures b.fare.None? ==> r == b.(fare := Some(FareFor(b)))
  {
    if b.fare.None? then b.(fare := Some(FareFor(b))) else b
  }

  /**
   * `GET /bookings/` over the rows the query returned: a record without a
   * fare gets one computed on the fly; every other record is returned as
   * stored.  Nothing is committed, so the table itself is unchanged.
   */
  method ListBookings(rows: seq<Booking>) returns (out: seq<Booking>)
    ensures |out| == |rows|
    ensures forall i :: 0 <= i < |rows| ==> out[i].fare.Some?
    ensures forall i :: 0 <= i < |rows| && rows[i].fare.Some? ==> out[i] == rows[i]
    ensures forall i :: 0 <= i < |rows| && rows[i].fare.None? ==>
              out[i] == rows[i].(fare := Some(FareFor(rows[i])))
  {
    out := [];
    var i := 0;
    while i < |rows|
      invariant 0 <= i <= |rows|
      invariant |out| == i
      invariant forall j :: 0 <= j < i ==> out[j] == WithFare(rows[j])
    {
      var b := rows[i];
      if b.fare.None? {
        b := b.(fare := Some(FareFor(b)));
      }
      out := out + [b];
      i := i + 1;
    }
  }

  /**
   * `PATCH /bookings/{id}/status`: replace the record's status with any
   * string at all, or report 404 for an unknown id.
   */
  function UpdateStatus(db: Store, id: int, status: string): (r: Result<(Store, Booking), HttpError>)
    ensures r.Err? <==> id !in db
    ensures r.Err? ==> r.error == NotFound
    ensures r.Ok? ==> r.value.0.Keys == db.Keys
    ensures r.Ok? ==> r.value.0[id] == db[id].(status := status) && r.value.1 == r.value.0[id]
    ensures r.Ok? ==> forall k :: k in db && k != id ==> r.value.0[k] == db[k]
  {
    if id !in db then Err(NotFound)
    else
      var b := db[id].(status := status);
      Ok((db[id := b], b))
  }

  /** The service checks no lifecycle: every status can be written to every known record. */
  lemma UpdateAcceptsAnyStatus(db: Store, id: int, s: string)
    requires id in db
    ensures UpdateStatus(db, id, s).Ok?
    ensures UpdateStatus(db, id, s).value.1.status == s
  {
  }

  /** A second update overrides the first completely; repeating one changes nothing more. */
  lemma UpdateLastWriteWins(db: Store, id: int, s1: string, s2: string)
    requires id in db
    ensures UpdateStatus(UpdateStatus(db, id, s1).value.0, id, s2) == UpdateStatus(db, id, s2)
  {
    var once := UpdateStatus(db, id, s1).value.0;
    assert once[id := once[id].(status := s2)] == db[id := db[id].(status := s2)];
  }

  /** Updating a status leaves the fare alone, so the listed fare does not move. */
  lemma UpdateKeepsFare(db: Store, id: int, s: string)
    requires id in db
    ensures WithFare(UpdateStatus(db, id, s).value.1).fare == WithFare(db[id]).fare
  {
  }

  /**
   * A freshly created record is listed exactly as it was created, and the
   * fare it was given is the one listing would have computed had it been
   * missing: both endpoints price a trip the same way.
   */
  lemma CreateThenListAgree(db: Store, req: BookingCreate, id: int)
    requires id !in db
    ensures WithFare(Create(db, req, id).1) == Create(db, req, id).1
    ensures Create(db, req, id).1.fare == Some(FareFor(Create(db, req, id).1.(fare := None)))
  {
  }

  /** Listing is idempotent: a listed record is listed unchanged. */
  lemma WithFareIdempotent(b: Booking)
    ensures WithFare(WithFare(b)) == WithFare(b)
  {
  }

  /** A record created with a non-negative trip costs at least the base fare. */
  lemma CreatedFareAtLeastBase(db: Store, req: BookingCreate, id: int)
    requires id !in db
    requires req.durationMinutes.GetOr(0) >= 0
    requires req.toll.GetOr(0.0) >= 0.0
    ensures Distance(req.distance) >= 0.0 ==> Create(db, req, id).1.fare.value >= BaseFare
  {
    StoredFareAtLeastBase(req.distance, req.durationMinutes, req.toll);
  }
}
