/**
 * The booking routes read and write `duration_minutes`, `toll` and `fare`,
 * but the request schema declares none of them and the table has no such
 * columns.  This module models the routes against the declared fields, as
 * the files stand; the rest of the model uses the intended behaviour
 * (`Bookings.Create`, `Bookings.ListBookings`), in which the three fields
 * are optional.
 */
module SchemaGap {
  import opened Wrappers
  import Bookings

  /** The fields the create-request schema declares, in declaration order (the order of `dict()`). */
  const BookingCreateFields: seq<string> := [
    "user_id", "van_id", "status", "pickup_location", "dropoff_location",
    "scheduled_time", "van_size", "time_slot", "distance"
  ]

  /** The columns of the bookings table. */
  const BookingColumns: set<string> := {
    "id", "user_id", "van_id", "status", "pickup_location", "dropoff_location",
    "scheduled_time", "van_size", "time_slot", "distance"
  }

  /** The trip attributes `list_bookings` reads from a row without a fare, in the order it reads them. */
  const TripAttributes: seq<string> := ["distance", "duration_minutes", "toll"]

  /** What Python raises: an attribute an object lacks, or an unknown constructor keyword. */
  datatype PyError = AttributeError(owner: string, name: string) | TypeError(keyword: string)

  /** The first of `names` that is not among `known`. */
  function FirstMissing(names: seq<string>, known: set<string>): (m: Option<string>)
    ensures m.None? <==> forall i :: 0 <= i < |names| ==> names[i] in known
    ensures m.Some? ==> exists j :: 0 <= j < |names| && names[j] == m.value
                         && m.value !in known
                         && forall i :: 0 <= i < j ==> names[i] in known
  {
    if |names| == 0 then None
    else if names[0] !in known then Some(names[0])
    else
      var rest := FirstMissing(names[1..], known);
      if rest.Some? then
        var j :| 0 <= j < |names| - 1 && names[1..][j] == rest.value && rest.value !in known
                 && forall i :: 0 <= i < j ==> names[1..][i] in known;
        assert names[j + 1] == rest.value;
        assert forall i :: 0 <= i < j + 1 ==> names[i] in known by {
          forall i | 0 <= i < j + 1
            ensures names[i] in known
          {
            if i > 0 {
              assert names[i] == names[1..][i - 1];
            }
          }
        }
        rest
      else
        assert forall i :: 0 <= i < |names| ==> names[i] in known by {
          forall i | 0 <= i < |names|
            ensures names[i] in known
          {
            if i > 0 {
              assert names[i] == names[1..][i - 1];
            }
          }
        }
        rest
  }

  /** The request schema with `added` declared after the fields it already has, as a subclass's fields follow its base's in pydantic. */
  function Schema(added: seq<string>): (fields: seq<string>)
    ensures forall f :: f in fields <==> f in BookingCreateFields || f in added
  {
    BookingCreateFields + added
  }

  /**
   * `create_booking` against the request schema extended by `added` and a
   * table with `columns`.  The declared fields stay, so the distance read
   * succeeds and every request field is carried.  The duration and the toll
   * are read from the request; then every schema field and the fare are
   * passed as keywords to the table class, which rejects the first one that
   * is not a column.
   */
  function CreateWithSchema(added: seq<string>, columns: set<string>,
                            db: Bookings.Store, req: Bookings.BookingCreate, id: int): (r: Result<(Bookings.Store, Bookings.Booking), PyError>)
    requires id !in db
    ensures r.Ok? <==> "duration_minutes" in added && "toll" in added
                       && (forall f :: f in Schema(added) ==> f in columns) && "fare" in columns
    ensures r.Ok? ==> r.value == Bookings.Create(db, req, id)
    ensures "duration_minutes" !in added ==> r == Err(AttributeError("BookingCreate", "duration_minutes"))
    ensures "duration_minutes" in added && "toll" !in added ==> r == Err(AttributeError("BookingCreate", "toll"))
    ensures r.Err? && "duration_minutes" in added && "toll" in added ==>
              r.error.TypeError? && FirstMissing(Schema(added) + ["fare"], columns) == Some(r.error.keyword)
  {
    var fields := Schema(added);
    assert "duration_minutes" !in BookingCreateFields && "toll" !in BookingCreateFields;
    if "duration_minutes" !in fields then Err(AttributeError("BookingCreate", "duration_minutes"))
    else if "toll" !in fields then Err(AttributeError("BookingCreate", "toll"))
    else
      var keywords := fields + ["fare"];
      assert (forall i :: 0 <= i < |keywords| ==> keywords[i] in columns)
         <==> (forall f :: f in fields ==> f in columns) && "fare" in columns by {
        assert keywords[|fields|] == "fare";
        assert forall i :: 0 <= i < |fields| ==> keywords[i] == fields[i];
      }
      match FirstMissing(keywords, columns)
      case Some(k) => Err(TypeError(k))
      case None => Ok(Bookings.Create(db, req, id))
  }

  /** `create_booking` as the files stand. */
  function CreateAsWritten(db: Bookings.Store, req: Bookings.BookingCreate, id: int): (r: Result<(Bookings.Store, Bookings.Booking), PyError>)
    requires id !in db
    ensures r.Err?
  {
    CreateWithSchema([], BookingColumns, db, req, id)
  }

  /** Every create request fails, at the read of the duration. */
  lemma CreateAsWrittenFails(db: Bookings.Store, req: Bookings.BookingCreate, id: int)
    requires id !in db
    ensures CreateAsWritten(db, req, id) == Err(AttributeError("BookingCreate", "duration_minutes"))
  {
  }

  /** Names that are all known are skipped: the first missing name lies in what follows them. */
  lemma {:induction false} FirstMissingSkipsKnown(prefix: seq<string>, rest: seq<string>, known: set<string>)
    requires forall i :: 0 <= i < |prefix| ==> prefix[i] in known
    ensures FirstMissing(prefix + rest, known) == FirstMissing(rest, known)
  {
    if |prefix| > 0 {
      assert (prefix + rest)[0] == prefix[0];
      assert (prefix + rest)[1..] == prefix[1..] + rest;
      FirstMissingSkipsKnown(prefix[1..], rest, known);
    } else {
      assert prefix + rest == rest;
    }
  }

  /** Declaring the two request fields is not enough: the table class then rejects the duration keyword. */
  lemma CreateNeedsColumns(db: Bookings.Store, req: Bookings.BookingCreate, id: int)
    requires id !in db
    ensures CreateWithSchema(["duration_minutes", "toll"], BookingColumns + {"fare"}, db, req, id)
         == Err(TypeError("duration_minutes"))
  {
    var columns := BookingColumns + {"fare"};
    var tail := ["duration_minutes", "toll", "fare"];
    assert Schema(["duration_minutes", "toll"]) + ["fare"] == BookingCreateFields + tail;
    assert forall i :: 0 <= i < |BookingCreateFields| ==> BookingCreateFields[i] in columns;
    FirstMissingSkipsKnown(BookingCreateFields, tail, columns);
    assert FirstMissing(tail, columns) == Some("duration_minutes");
  }

  /** With the two fields declared and all three columns added, the route behaves as `Bookings.Create`. */
  lemma CreateWithDeclaredFields(db: Bookings.Store, req: Bookings.BookingCreate, id: int)
    requires id !in db
    ensures CreateWithSchema(["duration_minutes", "toll"],
                             BookingColumns + {"duration_minutes", "toll", "fare"}, db, req, id)
         == Ok(Bookings.Create(db, req, id))
  {
  }

  /**
   * `list_bookings` against a table with `columns`: each row's `fare` is
   * read, and a row without one has its trip attributes read too; a missing
   * column raises `AttributeError`, which the route does not catch.
   */
  function ListWithColumns(columns: set<string>, rows: seq<Bookings.Booking>): (r: Result<seq<Bookings.Booking>, PyError>)
    ensures r.Err? <==> |rows| > 0
                        && ("fare" !in columns
                            || ((exists i :: 0 <= i < |rows| && rows[i].fare.None?)
                                && exists j :: 0 <= j < |TripAttributes| && TripAttributes[j] !in columns))
    ensures r.Err? && |rows| > 0 && "fare" !in columns ==> r.error == AttributeError("Booking", "fare")
    ensures r.Ok? ==> |r.value| == |rows|
    ensures r.Ok? ==> forall i :: 0 <= i < |rows| ==> r.value[i] == Bookings.WithFare(rows[i])
  {
    if |rows| == 0 then Ok([])
    else if "fare" !in columns then Err(AttributeError("Booking", "fare"))
    else if (exists i :: 0 <= i < |rows| && rows[i].fare.None?) && FirstMissing(TripAttributes, columns).Some? then
      Err(AttributeError("Booking", FirstMissing(TripAttributes, columns).value))
    else Ok(seq(|rows|, i requires 0 <= i < |rows| => Bookings.WithFare(rows[i])))
  }

  /** With the fare column alone, a row that has no fare still fails, at the duration. */
  lemma ListNeedsTripColumns(b: Bookings.Booking)
    requires b.fare.None?
    ensures ListWithColumns(BookingColumns + {"fare"}, [b]) == Err(AttributeError("Booking", "duration_minutes"))
  {
    var columns := BookingColumns + {"fare"};
    assert [b][0].fare.None?;
    assert TripAttributes[0] in columns && "duration_minutes" !in columns;
    assert TripAttributes[1..][0] == "duration_minutes";
    assert FirstMissing(TripAttributes[1..], columns) == Some("duration_minutes");
    assert FirstMissing(TripAttributes, columns) == Some("duration_minutes");
  }

  /** `list_bookings` as the files stand. */
  function ListAsWritten(rows: seq<Bookings.Booking>): (r: Result<seq<Bookings.Booking>, PyError>)
    ensures |rows| == 0 ==> r == Ok([])
    ensures |rows| > 0 ==> r.Err?
  {
    ListWithColumns(BookingColumns, rows)
  }

  /** Listing succeeds only on an empty table. */
  lemma ListAsWrittenFails(rows: seq<Bookings.Booking>)
    ensures ListAsWritten(rows).Ok? <==> |rows| == 0
  {
  }

  /** With all four columns in place every listing succeeds, as `Bookings.ListBookings` does. */
  lemma ListWithAllColumns(rows: seq<Bookings.Booking>)
    ensures ListWithColumns(BookingColumns + {"duration_minutes", "toll", "fare"}, rows).Ok?
  {
  }
}
