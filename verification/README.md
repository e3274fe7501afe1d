# CargoVan Connect booking core, modelled in Dafny

CargoVan Connect lets a customer book a van between a pickup and a drop-off
address, shows both ends on a map, and gives drivers a dashboard to accept,
reject and complete bookings. This project models the system's logic in three
pieces:

1. **Fare and booking status (backend).**
   - `tokens.dfy` models the lenient distance parse: Python's `str.split()`.
   - `decimal.dfy` models a decimal subset of `float()` and `round(x, 2)`.
   - `fare.dfy` models the fallback to 0.0 and the fare formula.
   - `bookings.dfy` models the three endpoints. Create prices a trip, list fills in a missing fare, and the status update changes one record or answers 404. The table is a `map<int, Booking>`.
2. **Address-to-coordinate state machine (map panel), in `geocoding.dfy`.**
   - Pickup and drop-off each hold an address, an optional coordinate and a generation counter.
   - The counter stands for the `cancelled` flag of the effect that issued a geocode request. An answer is applied only while no newer address has replaced the one it was issued for.
   - Completions are discrete events, arriving in any order.
   - The module also models the map centre and the markers.
3. **Driver action availability (dashboard), in `dashboard.dfy`.**
   - Which buttons a booking shows, by status.
   - The lifecycle relation those buttons follow: `pending → accepted | rejected`, then `accepted → completed`.
   - The loading and error bookkeeping around a status change.

The lifecycle exists only in the dashboard. The backend stores any status string (`Bookings.UpdateAcceptsAnyStatus`). The status values used here differ from the JSDoc list in `shared/types.js`: that list has no "rejected", and it has "in-progress" and "cancelled", which the code never uses.

`schema_gap.dfy` models the create and list routes against the fields the schema actually declares (see Findings). `wrappers.dfy` holds `Option` and `Result`.

The map panel makes one geocode request per address change, and that is what is modelled.

## Model

| member | source | states |
|---|---|---|
| Tokens.Split | backend/app/routes/booking.py:20 | every word `split()` yields is non-empty and free of whitespace |
| Tokens.SplitKeepsVisible | backend/app/routes/booking.py:20 | joining the words gives exactly the non-whitespace characters, in order, so splitting only drops whitespace |
| Tokens.SplitEmptyIffAllSpace | backend/app/routes/booking.py:20-21 | there is no first word (the `IndexError` case) exactly when the text is empty or all whitespace |
| Tokens.SplitSkipsLeadingSpace | backend/app/routes/booking.py:20 | leading whitespace does not change the words |
| Tokens.SplitFirstWord | backend/app/routes/booking.py:18-20 | a word followed by whitespace is the first word, whatever follows it |
| Tokens.SplitOfWord | backend/app/routes/booking.py:20 | a lone word splits into itself |
| Decimal.ParseUnsigned | backend/app/routes/booking.py:20 | an unsigned numeral never reads as negative |
| Decimal.ParseFloat | backend/app/routes/booking.py:20 | `float()` of a word: a result needs a non-empty word, a negative result only comes from a leading '-', and a leading '-' negates the unsigned reading of the rest |
| Decimal.ParseFormatCents | backend/app/routes/booking.py:20 | `float()` of a two-decimal numeral gives back its amount (round trip with the printer) |
| Decimal.ParseNegativeCents | backend/app/routes/booking.py:20 | a leading minus negates the amount |
| Decimal.NatDigitsValue | backend/app/routes/booking.py:20 | the digits printed for `n` read back as `n` |
| Decimal.RoundCents | backend/app/routes/booking.py:30 | `round(x, 2)` is the nearest cent, within half a cent; an exact tie goes to the even cent |
| Decimal.RoundCentsMonotone | backend/app/routes/booking.py:30 | rounding never reverses the order of two amounts |
| Decimal.RoundCentsExact | backend/app/routes/booking.py:30 | an amount already in whole cents is unchanged by rounding |
| Fare.DistanceText | backend/app/routes/booking.py:19 | the text read is the distance as given when it is non-empty, and "0.0" when it is missing or empty |
| Fare.TryDistance | backend/app/routes/booking.py:20 | all-whitespace text raises `IndexError`; otherwise the result is `float()` of the first word, or `ValueError` when that word does not parse |
| Fare.Distance | backend/app/routes/booking.py:17-22 | both exceptions fall back to 0.0, and a parsed first word is used as it is |
| Fare.MissingDistanceIsZero | backend/app/routes/booking.py:19 | a missing or empty distance reads as "0.0", that is, 0 miles |
| Fare.DistanceIgnoresUnits | backend/app/routes/booking.py:18-20 | only the first word is read: "6.3 miles" costs like "6.3", and an unreadable first word gives 0 |
| Fare.DistanceSkipsLeadingSpace | backend/app/routes/booking.py:20 | whitespace before the number does not change the distance |
| Fare.BlankDistanceIsZero | backend/app/routes/booking.py:20-22 | whitespace-only text reads as 0 miles, with no error |
| Fare.UnparseableDistanceIsZero | backend/app/routes/booking.py:20-22 | an unparseable first word reads as 0 miles, with no error |
| Fare.DistanceOfFormatted | backend/app/routes/booking.py:18-20 | any two-decimal distance followed by units reads as its amount |
| Fare.DistanceExample | backend/app/routes/booking.py:18-20 | "6.3 miles" reads as 6.3 |
| Fare.Minutes | backend/app/routes/booking.py:24 | the falsy test on the duration amounts to "missing counts as 0" |
| Fare.Toll | backend/app/routes/booking.py:25 | the falsy test on the toll amounts to "missing counts as 0.0" |
| Fare.RawFare | backend/app/routes/booking.py:27 | with non-negative distance, minutes and toll the unrounded fare is at least the 20.0 base |
| Fare.MissingDurationAndTollAreZero | backend/app/routes/booking.py:24-25 | a missing duration costs the same as 0 minutes, a missing toll the same as 0.0, and with both missing only base and mileage remain |
| Fare.RawFareFormula | backend/app/routes/booking.py:27 | with duration and toll given, the fare is 20 + 2 per mile + 0.5 per minute + the toll |
| Fare.StoredFare | backend/app/routes/booking.py:27-30 | the stored fare is a whole number of cents, within half a cent of the formula's value |
| Fare.StoredFareAtLeastBase | backend/app/routes/booking.py:27-30 | with non-negative distance, duration and toll, the stored fare is at least the 20.0 base |
| Bookings.Create | backend/app/routes/booking.py:24-36 | one new row under a fresh key, the request's fields copied into it and the rounded fare stored; all other rows unchanged |
| Bookings.WithFare | backend/app/routes/booking.py:44-53 | a record with a fare is returned unchanged; a record without one gets the computed fare and nothing else changes |
| Bookings.ListBookings | backend/app/routes/booking.py:40-54 | every listed record has a fare; stored fares are kept, missing ones are computed by the same rule; order and length are preserved |
| Bookings.UpdateStatus | backend/app/routes/booking.py:58-65 | an unknown id gives 404 "Booking not found" and no change; otherwise only that record's status changes, to the given string, and the updated record is returned |
| Bookings.UpdateAcceptsAnyStatus | backend/app/routes/booking.py:62 | no transition check: any status string is accepted for any known record |
| Bookings.UpdateLastWriteWins | backend/app/routes/booking.py:62 | a second update overrides the first completely |
| Bookings.UpdateKeepsFare | backend/app/routes/booking.py:62 | a status change does not move the listed fare |
| Bookings.CreateThenListAgree | backend/app/routes/booking.py:27-53 | a created record is listed as created, and its fare is the one listing would compute: both routes price a trip the same way |
| Bookings.WithFareIdempotent | backend/app/routes/booking.py:44 | listing a listed record changes nothing |
| Bookings.CreatedFareAtLeastBase | backend/app/routes/booking.py:27-30 | a created booking with a non-negative trip costs at least the base fare |
| Geocoding.BeginGeocode | frontend/src/components/Map.js:18-21 | an empty address is answered with null without a request; any other address is fetched |
| Geocoding.SelectLocation | frontend/src/components/Map.js:20-27 | a coordinate comes back exactly when the status is "OK" and the results are non-empty, and it is the first result; any other answer or a thrown error gives null |
| Geocoding.GeocodeAddress | frontend/src/components/Map.js:17-28 | the geocode helper end to end: null for an empty address, else the selected location of the service's answer |
| Geocoding.IssuedAnswerIsHelperResult | frontend/src/components/Map.js:33-35 | when the answer to a fresh request arrives first, the role's coordinate becomes exactly what the geocode helper returns for that address |
| Geocoding.SetAddress | frontend/src/components/Map.js:30-54 | an unchanged address does nothing; a changed one supersedes earlier requests; an empty one clears the coordinate and requests nothing; a non-empty one issues one request and keeps the old coordinate meanwhile; the other end is untouched |
| Geocoding.ApplyResult | frontend/src/components/Map.js:31-35 | a superseded answer changes nothing; a current one sets the coordinate to the answer's location, null on failure; the other end is untouched |
| Geocoding.SetAddressIssuesSound | frontend/src/components/Map.js:31-35 | a request is issued current, for the address its role now holds |
| Geocoding.StepKeepsIssued | frontend/src/components/Map.js:30-54 | no event can make a request current for an address other than its own |
| Geocoding.RunKeepsIssued | frontend/src/components/Map.js:30-54 | the same, over any sequence of events |
| Geocoding.AppliedOnlyForPresentAddress | frontend/src/components/Map.js:31-40 | after any events, an answer that still changes the state is for the address the role shows now |
| Geocoding.RunGenerationsGrow | frontend/src/components/Map.js:40 | events never un-supersede a request |
| Geocoding.SupersededResultDropped | frontend/src/components/Map.js:31-41 | once the address moves on from A to B, A's answer is discarded whenever it arrives, whatever happened in between |
| Geocoding.RolesIndependent | frontend/src/components/Map.js:30-54 | events for one end never change the other end's address or coordinate |
| Geocoding.InitialWellFormed | frontend/src/components/Map.js:13-14 | the panel starts with no coordinates |
| Geocoding.SetAddressKeepsWellFormed | frontend/src/components/Map.js:33-38 | after any address change, an empty address has no coordinate |
| Geocoding.ApplyResultKeepsWellFormed | frontend/src/components/Map.js:33-35 | an answer to an issued request never gives an empty address a coordinate |
| Geocoding.ClearingEmptiesCoord | frontend/src/components/Map.js:36-38 | setting an address to empty leaves that end without a coordinate, at once |
| Geocoding.ClearedStaysCleared | frontend/src/components/Map.js:36-40 | after clearing, an answer still in flight for the old address cannot refill the coordinate |
| Geocoding.FailedLookupClears | frontend/src/components/Map.js:23-35 | a current failed lookup overwrites the previous coordinate with null rather than keeping it |
| Geocoding.Center | frontend/src/components/Map.js:56-67 | centre: the midpoint when both ends are set, the one set end otherwise, New York (40.7128, -74.0060) when neither is |
| Geocoding.CenterSymmetric | frontend/src/components/Map.js:56-67 | swapping pickup and drop-off does not move the centre |
| Geocoding.CenterBetween | frontend/src/components/Map.js:58-62 | with both ends set, the centre lies in their bounding box |
| Geocoding.Markers | frontend/src/components/Map.js:90-91 | a "P" marker is drawn iff the pickup is located, a "D" iff the drop-off is, each at its coordinate |
| Dashboard.Actions | frontend/src/components/DriverDashboard.js:53-63 | "pending" offers Accept (to "accepted") and Reject (to "rejected"); "accepted" offers Complete Trip (to "completed"); every other status offers nothing |
| Dashboard.ActionsMatchLifecycle | frontend/src/components/DriverDashboard.js:53-63 | a move is offered exactly when the lifecycle relation allows it, in both directions |
| Dashboard.OtherStatusesTerminal | frontend/src/components/DriverDashboard.js:53-63 | any status but "pending" and "accepted" is terminal: no button and no move |
| Dashboard.TransitionsAdvance | frontend/src/components/DriverDashboard.js:53-63 | every move goes forward, so the lifecycle has no cycle |
| Dashboard.Buttons | frontend/src/components/DriverDashboard.js:55-61 | one button per offered action, each disabled exactly while an update is in flight |
| Dashboard.BeginUpdate | frontend/src/components/DriverDashboard.js:26-30 | entering an update sets loading, clears the previous error and sends the PATCH for that id and status |
| Dashboard.FinishUpdate | frontend/src/components/DriverDashboard.js:29-35 | on failure the error becomes "Failed to update booking"; on success the list is fetched again; loading ends false either way |
| Dashboard.Click | frontend/src/components/DriverDashboard.js:55-61 | a disabled button does nothing; an enabled one begins the update for its target status |
| Dashboard.InFlightDisablesAll | frontend/src/components/DriverDashboard.js:27-61 | while an update is in flight every button is disabled, so no second update can start |
| Dashboard.UpdateRoundTrip | frontend/src/components/DriverDashboard.js:26-36 | an uninterrupted update ends with loading false and the error empty on success or "Failed to update booking" on failure |
| Dashboard.FetchDone | frontend/src/components/DriverDashboard.js:11-18 | a fetched list replaces the shown one; a failed fetch keeps it and reports "Could not fetch bookings" |
| Dashboard.ButtonFollowsLifecycle | frontend/src/components/DriverDashboard.js:53-63 | a button drawn from the last poll is accepted by the backend, which keeps the fare; the stored record moves one step along the lifecycle when the poll still shows its stored status |
| Dashboard.StaleViewBreaksLifecycle | frontend/src/components/DriverDashboard.js:53-58 | a booking completed since the last poll still shows Accept, and pressing it stores "accepted", a move outside the lifecycle |
| SchemaGap.FirstMissing | backend/app/routes/booking.py:32 | the first name, in order, that is not among the known ones, or none when all are known |
| SchemaGap.FirstMissingSkipsKnown | backend/app/routes/booking.py:32 | keywords that are all columns are passed without error, so the first rejected keyword lies in what follows them |
| SchemaGap.CreateWithSchema | backend/app/routes/booking.py:17-32 | for the declared request schema extended by some added fields (the declared ones stay, so the distance read at line 19 succeeds and each request field is carried), create succeeds exactly when the added fields include `duration_minutes` and `toll` and every schema field and `fare` is a column, and then it is `Bookings.Create`; otherwise the duration read, the toll read, or the table constructor (first unknown keyword, in field order with `fare` last) raises |
| SchemaGap.CreateAsWritten | backend/app/routes/booking.py:24-32 | with the declared schema, every create fails |
| SchemaGap.CreateAsWrittenFails | backend/app/routes/booking.py:24 | with the declared schema, every create raises `AttributeError` on `duration_minutes` |
| SchemaGap.CreateNeedsColumns | backend/app/routes/booking.py:32 | declaring the two request fields without adding their columns makes the constructor reject `duration_minutes` |
| SchemaGap.CreateWithDeclaredFields | backend/app/routes/booking.py:24-32 | with the two fields declared and all three columns added, create behaves as `Bookings.Create` |
| SchemaGap.ListWithColumns | backend/app/routes/booking.py:43-53 | listing fails exactly when the table is non-empty and either has no `fare` column, or has a fare-less row and lacks one of `distance`, `duration_minutes`, `toll`; otherwise every row gets its fare as `Bookings.WithFare` gives it |
| SchemaGap.ListNeedsTripColumns | backend/app/routes/booking.py:44-52 | with only the `fare` column added, a fare-less row raises `AttributeError` on `duration_minutes` |
| SchemaGap.ListAsWritten | backend/app/routes/booking.py:43-53 | with the declared columns, an empty table lists as empty and any other fails |
| SchemaGap.ListAsWrittenFails | backend/app/routes/booking.py:44 | with the declared columns, listing succeeds only on an empty table |
| SchemaGap.ListWithAllColumns | backend/app/routes/booking.py:43-53 | with all four columns in place, every listing succeeds |

## Left out

- Bookings.ListBookings and Bookings.Create: both routes answer through the `BookingOut` response model (backend/app/schemas/booking.py:17-19), which has no `fare` field. The fare they compute or store is dropped from the HTTP response, so it never reaches the dashboard or the booking form. The model states what the routes compute, before that filtering.
- SchemaGap.CreateWithSchema: only request schemas that keep every field of the declared `BookingCreate` and add fields after them are modelled. A schema without `distance` would raise an uncaught `AttributeError` at the read on backend/app/routes/booking.py:19, and one without another field would pass no value for that column; neither is a change the routes call for.
- HTTP and database plumbing is not modelled: routing, sessions, commit and refresh, CORS, table creation and the seed script. A booking table is a map. `list_bookings` takes the query's rows as a parameter and commits nothing, so the stored table is unchanged.
- Bookings.Create: the primary key is a parameter that must not already be in use. SQLite chooses it, and how it chooses is not modelled.
- Decimal.ParseFloat: only plain ASCII decimals are modelled, with an optional sign and at most one point. Python's `float()` also accepts exponents, `inf`, `nan` and digit underscores. So a first word like "1e3" reads as 0 here but as 1000.0 in Python.
- Decimal.ParseFloat: Python's `float()` also accepts any Unicode decimal digit, so full-width "６.３ miles" reads as 6.3 in Python but as 0 here.
- Decimal.ParseFloat: values are unbounded reals. A numeral too large for a double, such as 400 nines, is inf in Python but an exact integer here.
- Decimal.RoundCents: rounds the exact real value half-to-even. Python rounds the binary double, so the model and Python can differ by a cent when the decimal value is not exactly representable.
- Fare.StoredFare: the fare is an exact real, with no floating-point error in the sum.
- Fare.Minutes and Fare.Toll: duration is an integer number of minutes and toll a real. Python's falsy-value test makes 0 and missing behave the same, which is what the model says.
- Nothing guards a negative distance ("-5 miles") or a negative toll, so they lower the fare below the base. Fare.StoredFareAtLeastBase therefore requires non-negative inputs.
- Geocoding.Center: coordinates are exact reals, not JavaScript doubles. The midpoint `(a + b) / 2` is exact here, but in the browser it is rounded to the nearest double.
- Dashboard.ButtonFollowsLifecycle: the lifecycle move is promised only when the last poll still shows the stored status. With a stale poll the backend stores whatever the button asks for (Dashboard.StaleViewBreaksLifecycle).
- Geocoding: network I/O, URL encoding of the address, JSON decoding, and the Maps SDK's loading and error screens are not modelled. The service's answer is an event parameter. Component unmount, which also sets `cancelled`, is not modelled.
- Geocoding: real concurrency is not modelled. Async completions are discrete events applied one at a time, in any order.
- Rendering is not modelled: the JSX layout, map zoom, the login form and the booking form in App.js. App.js's guard on the Book button (both addresses non-empty) belongs to the form and is not modelled.
- Polling intervals for the booking list (every 5 seconds, in both views) are not modelled. Dashboard.FetchDone models a single poll's answer.
- Dashboard: the list refetch after a successful update is returned as a flag and not awaited. A poll can set its own error between BeginUpdate and FinishUpdate, so FinishUpdate on success keeps whatever error is current.
- The ad-hoc scripts at the repository root are not modelled. They call a live server or database and check nothing.

## Findings

| source | as written | input that shows it | evidently intended | confidence | as-written member | corrected member |
|---|---|---|---|---|---|---|
| backend/app/routes/booking.py:24 | `create_booking` reads `booking.duration_minutes` and `booking.toll` and stores `fare`. `BookingCreate` (backend/app/schemas/booking.py:3-15) declares none of them, and the `Booking` table (backend/app/models/booking.py:4-15) has no such columns. | any create request, e.g. the payload with `"duration_minutes": 30, "toll": 15.0`: the extra keys are dropped by the schema, then the attribute read raises `AttributeError` | duration, toll and fare are optional fields, used by the fare rule when present: declared in `BookingCreate`, mapped as columns of `Booking`, and `fare` declared in `BookingOut` so the response carries it | not executed; high for these files (pydantic v2 raises `AttributeError` for an undeclared attribute) | SchemaGap.CreateAsWrittenFails | Bookings.Create |
| backend/app/routes/booking.py:44 | `list_bookings` reads `b.fare` on each row, but the table has no `fare` column | any non-empty table | a missing fare is back-filled and a stored one is kept: `fare`, `duration_minutes` and `toll` mapped as columns, and `fare` declared in `BookingOut` so the response carries it | not executed; high for these files | SchemaGap.ListAsWrittenFails | Bookings.ListBookings |
