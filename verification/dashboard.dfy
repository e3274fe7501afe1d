/**
 * The driver dashboard: which actions each booking offers, by status, and
 * the loading/error bookkeeping around a status change.  The booking
 * lifecycle exists only here; the service stores any status it is sent.
 */
module Dashboard {
  import opened Wrappers
  import Bookings

  const Pending := "pending"
  const Accepted := "accepted"
  const Rejected := "rejected"
  const Completed := "completed"

  const UpdateFailed := "Failed to update booking"
  const FetchFailed := "Could not fetch bookings"

  /** A button: its caption and the status it asks the service to set. */
  datatype Action = Action(caption: string, target: string)

  /** The lifecycle as a relation: the moves a driver can make. */
  predicate Transition(from: string, to: string)
  {
    || (from == Pending && to == Accepted)
    || (from == Pending && to == Rejected)
    || (from == Accepted && to == Completed)
  }

  /** The buttons a booking in `status` shows, in screen order. */
  function Actions(status: string): (acts: seq<Action>)
    ensures status == Pending ==> acts == [Action("Accept", Accepted), Action("Reject", Rejected)]
    ensures status == Accepted ==> acts == [Action("Complete Trip", Completed)]
    ensures status != Pending && status != Accepted ==> acts == []
  {
    if status == Pending then [Action("Accept", Accepted), Action("Reject", Rejected)]
    else if status == Accepted then [Action("Complete Trip", Completed)]
    else []
  }

  /** A move is offered on screen exactly when the lifecycle allows it. */
  lemma ActionsMatchLifecycle(from: string, to: string)
    ensures (exists a :: a in Actions(from) && a.target == to) <==> Transition(from, to)
  {
    if Transition(from, to) {
      if from == Pending && to == Accepted {
        assert Actions(from)[0].target == to;
      } else if from == Pending {
        assert Actions(from)[1].target == to;
      } else {
        assert Actions(from)[0].target == to;
      }
    }
  }

  /** Every status other than "pending" and "accepted" is terminal on the dashboard. */
  lemma OtherStatusesTerminal(status: string)
    requires status != Pending && status != Accepted
    ensures Actions(status) == []
    ensures forall to :: !Transition(status, to)
  {
  }

  /** Position in the lifecycle. */
  function Stage(status: string): nat
  {
    if status == Pending then 0 else if status == Accepted then 1 else 2
  }

  /** Every move goes forward, so the lifecycle has no cycle and ends after at most two moves. */
  lemma TransitionsAdvance(from: string, to: string)
    requires Transition(from, to)
    ensures Stage(from) < Stage(to)
  {
  }

  datatype DashboardState = DashboardState(bookings: seq<Bookings.Booking>, loading: bool, error: string)

  /** A button as rendered: it is disabled while an update is in flight. */
  datatype Button = Button(action: Action, disabled: bool)

  function Buttons(ui: DashboardState, status: string): (bs: seq<Button>)
    ensures |bs| == |Actions(status)|
    ensures forall i :: 0 <= i < |bs| ==> bs[i].action == Actions(status)[i]
    ensures forall i :: 0 <= i < |bs| ==> bs[i].disabled == ui.loading
  {
    seq(|Actions(status)|, i requires 0 <= i < |Actions(status)| => Button(Actions(status)[i], ui.loading))
  }

  /** The PATCH request a click sends. */
  datatype Patch = Patch(id: int, status: string)

  /** How the PATCH ended. */
  datatype PatchOutcome = Succeeded | Failed

  /** Entering the update: loading starts and the previous error is cleared. */
  function BeginUpdate(ui: DashboardState, id: int, status: string): (r: (DashboardState, Patch))
    ensures r.0.loading && r.0.error == "" && r.0.bookings == ui.bookings
    ensures r.1 == Patch(id, status)
  {
    (ui.(loading := true, error := ""), Patch(id, status))
  }

  /**
   * Leaving the update: a failure is reported, a success asks for the list
   * again (the returned flag), and loading ends either way.
   */
  function FinishUpdate(ui: DashboardState, outcome: PatchOutcome): (r: (DashboardState, bool))
    ensures !r.0.loading && r.0.bookings == ui.bookings
    ensures outcome == Failed ==> r.0.error == UpdateFailed && !r.1
    ensures outcome == Succeeded ==> r.0.error == ui.error && r.1
  {
    match outcome
    case Failed => (ui.(error := UpdateFailed, loading := false), false)
    case Succeeded => (ui.(loading := false), true)
  }

  /** A click: a disabled button does nothing; an enabled one begins the update. */
  function Click(ui: DashboardState, id: int, b: Button): (r: Option<(DashboardState, Patch)>)
    ensures b.disabled ==> r == None
    ensures !b.disabled ==> r == Some(BeginUpdate(ui, id, b.action.target))
  {
    if b.disabled then None else Some(BeginUpdate(ui, id, b.action.target))
  }

  /** While an update is in flight every button of every booking is disabled, so no second update starts. */
  lemma InFlightDisablesAll(ui: DashboardState, id: int, status: string, other: string)
    ensures var busy := BeginUpdate(ui, id, status).0;
            forall b :: b in Buttons(busy, other) ==> b.disabled && Click(busy, id, b) == None
  {
  }

  /** An update with nothing in between: the error ends empty on success, set on failure, and loading ends false. */
  lemma UpdateRoundTrip(ui: DashboardState, id: int, status: string, outcome: PatchOutcome)
    ensures var done := FinishUpdate(BeginUpdate(ui, id, status).0, outcome).0;
            !done.loading
            && (outcome == Succeeded ==> done.error == "")
            && (outcome == Failed ==> done.error == UpdateFailed)
            && done.bookings == ui.bookings
  {
  }

  /** The answer to a poll of the booking list: the list replaces what is shown; a failure is reported. */
  function FetchDone(ui: DashboardState, answer: Option<seq<Bookings.Booking>>): (r: DashboardState)
    ensures answer.Some? ==> r.bookings == answer.value && r.error == ui.error
    ensures answer.None? ==> r.bookings == ui.bookings && r.error == FetchFailed
    ensures r.loading == ui.loading
  {
    match answer
    case Some(bs) => ui.(bookings := bs)
    case None => ui.(error := FetchFailed)
  }

  /**
   * A button drawn for a booking in the last poll and pressed: the service
   * accepts the write and keeps the fare.  The stored record moves one step
   * along the lifecycle when the poll still shows its stored status.
   */
  lemma ButtonFollowsLifecycle(db: Bookings.Store, shown: Bookings.Booking, a: Action)
    requires shown.id in db
    requires a in Actions(shown.status)
    ensures Bookings.UpdateStatus(db, shown.id, a.target).Ok?
    ensures Bookings.UpdateStatus(db, shown.id, a.target).value.1.fare == db[shown.id].fare
    ensures db[shown.id].status == shown.status ==>
              Transition(db[shown.id].status, Bookings.UpdateStatus(db, shown.id, a.target).value.1.status)
  {
    ActionsMatchLifecycle(shown.status, a.target);
  }

  /**
   * A stale poll breaks the lifecycle: a booking completed since the last
   * poll still shows Accept, and pressing it stores "accepted".
   */
  lemma StaleViewBreaksLifecycle()
    ensures var stored := Bookings.Booking(1, 1, 1, Completed, "A", "B", "t", "small", "morning",
                                           None, None, None, Some(20.0));
            var shown := stored.(status := Pending);
            var db := map[1 := stored];
            && Action("Accept", Accepted) in Actions(shown.status)
            && Bookings.UpdateStatus(db, 1, Accepted).Ok?
            && Bookings.UpdateStatus(db, 1, Accepted).value.1.status == Accepted
            && !Transition(stored.status, Accepted)
  {
  }
}
