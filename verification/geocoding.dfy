/**
 * The map panel: each of the two trip ends (pickup, drop-off) holds an
 * address and the coordinate last geocoded for it.  Geocoding is
 * asynchronous; a per-role generation counter stands for the `cancelled`
 * flag of the effect that issued a request, so a result is applied only if
 * that role's address has not been replaced since.  Completions arrive as
 * discrete events in any order.
 */
module Geocoding {
  import opened Wrappers

  datatype Coord = Coord(lat: real, lng: real)

  /** New York City: the centre shown while neither end is located. */
  const DefaultCenter := Coord(40.7128, -74.0060)

  datatype Role = Pickup | Dropoff

  function Other(r: Role): Role
  {
    if r == Pickup then Dropoff else Pickup
  }

  /** What the geocoding web service answered, or `Thrown` when fetching or decoding it failed. */
  datatype GeocodeResponse = Response(status: string, results: seq<Coord>) | Thrown

  /** How a geocode call starts: answered at once, or by fetching for an address. */
  datatype Lookup = Immediate(coord: Option<Coord>) | Fetch(address: string)

  /** The guard at the top of the geocode helper: an empty address is answered with null, unfetched. */
  function BeginGeocode(address: string): (l: Lookup)
    ensures l.Immediate? <==> address == ""
    ensures l.Immediate? ==> l.coord == None
    ensures l.Fetch? ==> l.address == address
  {
    if address == "" then Immediate(None) else Fetch(address)
  }

  /** The coordinate a response yields: the first result's location on status "OK", null otherwise. */
  function SelectLocation(resp: GeocodeResponse): (c: Option<Coord>)
    ensures c.Some? <==> resp.Response? && resp.status == "OK" && |resp.results| > 0
    ensures c.Some? ==> c.value == resp.results[0]
  {
    match resp
    case Response(status, results) =>
      if status == "OK" && |results| > 0 then Some(results[0]) else None
    case Thrown => None
  }

  /** The geocode helper end to end, given how the service would answer each address. */
  function GeocodeAddress(address: string, service: string -> GeocodeResponse): (c: Option<Coord>)
    ensures address == "" ==> c == None
    ensures address != "" ==> c == SelectLocation(service(address))
  {
    match BeginGeocode(address)
    case Immediate(coord) => coord
    case Fetch(a) => SelectLocation(service(a))
  }

  /** One trip end: its address, its coordinate, and how many times its address has changed. */
  datatype Slot = Slot(address: string, coord: Option<Coord>, generation: nat)

  datatype MapState = MapState(pickup: Slot, dropoff: Slot) {
    function Get(r: Role): Slot
    {
      if r == Pickup then pickup else dropoff
    }

    function With(r: Role, s: Slot): MapState
    {
      if r == Pickup then this.(pickup := s) else this.(dropoff := s)
    }
  }

  /** Before any address is typed both ends are empty and unlocated. */
  const Initial := MapState(Slot("", None, 0), Slot("", None, 0))

  /** A geocode request in flight, tagged with the generation of the address it was issued for. */
  datatype Request = Request(role: Role, address: string, generation: nat)

  datatype Event =
    | AddressChanged(role: Role, address: string)
    | GeocodeDone(request: Request, response: GeocodeResponse)

  /**
   * The effect for one role's address.  The same address again does not
   * re-run it.  A different address cancels the previous run; an empty one
   * clears the coordinate at once, a non-empty one issues a request and
   * keeps the old coordinate until an answer is applied.
   */
  function SetAddress(s: MapState, role: Role, address: string): (r: (MapState, Option<Request>))
    ensures r.0.Get(Other(role)) == s.Get(Other(role))
    ensures r.0.Get(role).address == address
    ensures address == s.Get(role).address ==> r == (s, None)
    ensures address != s.Get(role).address ==> r.0.Get(role).generation > s.Get(role).generation
    ensures address == "" ==> r.1 == None
    ensures address != s.Get(role).address && address == "" ==> r.0.Get(role).coord == None
    ensures r.1.Some? ==> r.1.value.address != "" && r.1.value.role == role
    ensures address != s.Get(role).address && address != "" ==>
              r.0.Get(role).coord == s.Get(role).coord
              && r.1 == Some(Request(role, address, r.0.Get(role).generation))
  {
    var slot := s.Get(role);
    if address == slot.address then (s, None)
    else
      var g := slot.generation + 1;
      if address == "" then (s.With(role, Slot(address, None, g)), None)
      else (s.With(role, Slot(address, slot.coord, g)), Some(Request(role, address, g)))
  }

  /**
   * The effect and the geocode helper agree: when the answer to a freshly
   * issued request arrives first, the role's coordinate becomes exactly what
   * the helper returns for that address.
   */
  lemma IssuedAnswerIsHelperResult(s: MapState, role: Role, address: string, service: string -> GeocodeResponse)
    requires SetAddress(s, role, address).1.Some?
    ensures var s1 := SetAddress(s, role, address).0;
            var req := SetAddress(s, role, address).1.value;
            ApplyResult(s1, req, service(address)).Get(role).coord == GeocodeAddress(address, service)
  {
  }

  /** Whether no later address has superseded the request. */
  predicate Current(s: MapState, req: Request)
  {
    req.generation == s.Get(req.role).generation
  }

  /**
   * A geocode answer arrives.  A superseded answer is dropped; a current one
   * replaces the coordinate, with null when the lookup failed.
   */
  function ApplyResult(s: MapState, req: Request, resp: GeocodeResponse): (r: MapState)
    ensures !Current(s, req) ==> r == s
    ensures r.Get(Other(req.role)) == s.Get(Other(req.role))
    ensures r.Get(req.role).address == s.Get(req.role).address
    ensures r.Get(req.role).generation == s.Get(req.role).generation
    ensures Current(s, req) ==> r.Get(req.role).coord == SelectLocation(resp)
  {
    if Current(s, req) then
      var slot := s.Get(req.role);
      s.With(req.role, slot.(coord := SelectLocation(resp)))
    else s
  }

  function Step(s: MapState, e: Event): MapState
  {
    match e
    case AddressChanged(role, address) => SetAddress(s, role, address).0
    case GeocodeDone(req, resp) => ApplyResult(s, req, resp)
  }

  function Run(s: MapState, events: seq<Event>): MapState
    decreases |events|
  {
    if |events| == 0 then s else Run(Step(s, events[0]), events[1..])
  }

  /**
   * A request's bookkeeping is sound in `s`: it was issued at or before the
   * role's current generation, and if it is still current it is for the
   * address the role holds now.
   */
  predicate Issued(s: MapState, req: Request)
  {
    req.generation <= s.Get(req.role).generation
    && (Current(s, req) ==> req.address == s.Get(req.role).address)
  }

  /** Every request the effect issues is sound in the state it leaves. */
  lemma SetAddressIssuesSound(s: MapState, role: Role, address: string)
    ensures SetAddress(s, role, address).1.Some? ==>
              Issued(SetAddress(s, role, address).0, SetAddress(s, role, address).1.value)
  {
  }

  /** Every event keeps every request's bookkeeping sound. */
  lemma StepKeepsIssued(s: MapState, e: Event, req: Request)
    requires Issued(s, req)
    ensures Issued(Step(s, e), req)
  {
  }

  lemma {:induction false} RunKeepsIssued(s: MapState, events: seq<Event>, req: Request)
    requires Issued(s, req)
    ensures Issued(Run(s, events), req)
    decreases |events|
  {
    if |events| > 0 {
      StepKeepsIssued(s, events[0], req);
      RunKeepsIssued(Step(s, events[0]), events[1..], req);
    }
  }

  /**
   * An answer is applied only for the address the role still shows: after
   * any events at all, a request that is current is for the present address.
   */
  lemma AppliedOnlyForPresentAddress(s: MapState, role: Role, address: string, events: seq<Event>, resp: GeocodeResponse)
    requires SetAddress(s, role, address).1.Some?
    ensures var req := SetAddress(s, role, address).1.value;
            var later := Run(SetAddress(s, role, address).0, events);
            ApplyResult(later, req, resp) != later ==> later.Get(role).address == address
  {
    var req := SetAddress(s, role, address).1.value;
    SetAddressIssuesSound(s, role, address);
    RunKeepsIssued(SetAddress(s, role, address).0, events, req);
  }

  /** Events never lower a generation. */
  lemma {:induction false} RunGenerationsGrow(s: MapState, events: seq<Event>, role: Role)
    ensures Run(s, events).Get(role).generation >= s.Get(role).generation
    decreases |events|
  {
    if |events| > 0 {
      RunGenerationsGrow(Step(s, events[0]), events[1..], role);
    }
  }

  /**
   * Staleness: once the address for `role` has moved from the one a request
   * was issued for, the request's answer is dropped whenever it arrives,
   * whatever else has happened meanwhile.
   */
  lemma SupersededResultDropped(s: MapState, role: Role, a: string, b: string,
                                events: seq<Event>, resp: GeocodeResponse)
    requires SetAddress(s, role, a).1.Some?
    requires b != a
    ensures var req := SetAddress(s, role, a).1.value;
            var s1 := SetAddress(s, role, a).0;
            var later := Run(SetAddress(s1, role, b).0, events);
            ApplyResult(later, req, resp) == later
  {
    var req := SetAddress(s, role, a).1.value;
    var s1 := SetAddress(s, role, a).0;
    var s2 := SetAddress(s1, role, b).0;
    RunGenerationsGrow(s2, events, role);
  }

  /** Events for one trip end never touch the other's address or coordinate. */
  lemma {:induction false} RolesIndependent(s: MapState, events: seq<Event>, role: Role)
    requires forall i :: 0 <= i < |events| ==>
               (events[i].AddressChanged? && events[i].role == role)
               || (events[i].GeocodeDone? && events[i].request.role == role)
    ensures Run(s, events).Get(Other(role)) == s.Get(Other(role))
    decreases |events|
  {
    if |events| > 0 {
      RolesIndependent(Step(s, events[0]), events[1..], role);
    }
  }

  /** An end whose address is empty has no coordinate. */
  predicate WellFormed(s: MapState)
  {
    forall r: Role :: s.Get(r).address == "" ==> s.Get(r).coord == None
  }

  lemma InitialWellFormed()
    ensures WellFormed(Initial)
  {
  }

  /** Setting an address keeps the state well formed. */
  lemma SetAddressKeepsWellFormed(s: MapState, role: Role, address: string)
    requires WellFormed(s)
    ensures WellFormed(SetAddress(s, role, address).0)
  {
    var s' := SetAddress(s, role, address).0;
    forall r: Role | s'.Get(r).address == ""
      ensures s'.Get(r).coord == None
    {
      if r != role {
        assert r == Other(role);
      }
    }
  }

  /** Applying the answer to a request the effect issued keeps the state well formed. */
  lemma ApplyResultKeepsWellFormed(s: MapState, req: Request, resp: GeocodeResponse)
    requires WellFormed(s) && Issued(s, req) && req.address != ""
    ensures WellFormed(ApplyResult(s, req, resp))
  {
    var s' := ApplyResult(s, req, resp);
    forall r: Role | s'.Get(r).address == ""
      ensures s'.Get(r).coord == None
    {
      if r != req.role {
        assert r == Other(req.role);
      }
    }
  }

  /** Setting an empty address leaves that end without a coordinate, immediately. */
  lemma ClearingEmptiesCoord(s: MapState, role: Role)
    requires WellFormed(s)
    ensures SetAddress(s, role, "").0.Get(role).coord == None
  {
  }

  /** Clearing an address empties its coordinate, and no answer still in flight can refill it. */
  lemma ClearedStaysCleared(s: MapState, role: Role, req: Request, resp: GeocodeResponse)
    requires s.Get(role).address != ""
    requires req.role == role && Issued(s, req)
    ensures var cleared := SetAddress(s, role, "").0;
            ApplyResult(cleared, req, resp).Get(role).coord == None
  {
  }

  /** A current answer that failed replaces the previous coordinate with none, rather than keeping it. */
  lemma FailedLookupClears(s: MapState, req: Request)
    requires Current(s, req)
    ensures ApplyResult(s, req, Thrown).Get(req.role).coord == None
    ensures ApplyResult(s, req, Response("ZERO_RESULTS", [])).Get(req.role).coord == None
  {
  }

  /** Where the map is centred, from the two coordinates. */
  function Center(p: Option<Coord>, d: Option<Coord>): (c: Coord)
    ensures p.Some? && d.Some? ==>
              2.0 * c.lat == p.value.lat + d.value.lat && 2.0 * c.lng == p.value.lng + d.value.lng
    ensures p.Some? && d.None? ==> c == p.value
    ensures p.None? && d.Some? ==> c == d.value
    ensures p.None? && d.None? ==> c == DefaultCenter
  {
    if p.Some? && d.Some? then
      Coord((p.value.lat + d.value.lat) / 2.0, (p.value.lng + d.value.lng) / 2.0)
    else if p.Some? then p.value
    else if d.Some? then d.value
    else DefaultCenter
  }

  /** The centre does not depend on which end is which. */
  lemma CenterSymmetric(p: Option<Coord>, d: Option<Coord>)
    ensures Center(p, d) == Center(d, p)
  {
  }

  /** With both ends located the centre lies inside their bounding box. */
  lemma CenterBetween(p: Coord, d: Coord)
    ensures var c := Center(Some(p), Some(d));
            (p.lat <= c.lat <= d.lat || d.lat <= c.lat <= p.lat)
            && (p.lng <= c.lng <= d.lng || d.lng <= c.lng <= p.lng)
  {
  }

  datatype Marker = Marker(text: string, position: Coord)

  /** The markers drawn: "P" at the pickup and "D" at the drop-off, each only when located. */
  function Markers(s: MapState): (ms: seq<Marker>)
    ensures (exists i :: 0 <= i < |ms| && ms[i].text == "P") <==> s.pickup.coord.Some?
    ensures (exists i :: 0 <= i < |ms| && ms[i].text == "D") <==> s.dropoff.coord.Some?
    ensures forall i :: 0 <= i < |ms| && ms[i].text == "P" ==> ms[i].position == s.pickup.coord.value
    ensures forall i :: 0 <= i < |ms| && ms[i].text == "D" ==> ms[i].position == s.dropoff.coord.value
    ensures |ms| <= 2
  {
    var p := if s.pickup.coord.Some? then [Marker("P", s.pickup.coord.value)] else [];
    var d := if s.dropoff.coord.Some? then [Marker("D", s.dropoff.coord.value)] else [];
    var ms := p + d;
    assert s.pickup.coord.Some? ==> ms[0].text == "P";
    assert s.dropoff.coord.Some? ==> ms[|p|].text == "D";
    ms
  }
}
