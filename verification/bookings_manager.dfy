/**
 The bookings table of `src/components/admin/BookingsManager.tsx`: the
 status badges, the status select of each row, and the single
 `updatingBookingId` flag that disables one row's select while its update
 is in flight.
 */
module BookingsManager {
  import opened Badge

  import opened Options

  /** The fields of a fetched booking row that the table reads or writes. */
  datatype BookingRow = BookingRow(id: string, bookingStatus: string, paymentStatus: string, numTravelers: int, totalAmount: int)

  /** The component's state: the fetched rows and the id whose update is in flight. */
  datatype Manager = Manager(bookings: seq<BookingRow>, updatingBookingId: Option<string>)

  /** How the update request ended. */
  datatype Outcome = Succeeded | Failed

  /** The four values of the status select. */
  const StatusOptions: seq<string> := ["pending", "confirmed", "completed", "cancelled"]

  /** The `variants` record of `getStatusBadge`. */
  const StatusVariants: map<string, Variant> :=
    map["pending" := Outline, "confirmed" := Default, "cancelled" := Destructive, "completed" := Secondary]

  /** `variants[status] || "default"`: a known status has its own variant, anything else falls back. */
  function StatusBadge(status: string): (v: Variant)
    ensures status == "pending" ==> v == Outline
    ensures status == "confirmed" ==> v == Default
    ensures status == "cancelled" ==> v == Destructive
    ensures status == "completed" ==> v == Secondary
    ensures status !in StatusOptions ==> v == Default
  {
    if status in StatusVariants then StatusVariants[status] else Default
  }

  /** Only `cancelled` is shown as destructive and only `pending` as outline. */
  lemma StatusBadgeDistinguishes(status: string)
    ensures StatusBadge(status) == Destructive <==> status == "cancelled"
    ensures StatusBadge(status) == Outline <==> status == "pending"
    ensures StatusBadge(status) == Secondary <==> status == "completed"
  {
  }

  /** `handleStatusChange(bookingId, newStatus)`: marks the row as updating, nothing else yet. */
  function StartStatusChange(m: Manager, bookingId: string): (r: Manager)
    ensures r.updatingBookingId == Some(bookingId)
    ensures r.bookings == m.bookings
  {
    m.(updatingBookingId := Some(bookingId))
  }

  /**
   `update({ booking_status: status }).eq("id", bookingId)`: every row with
   that id gets the new status; no other field and no other row changes.
   */
  function ApplyStatusUpdate(bookings: seq<BookingRow>, bookingId: string, status: string): (r: seq<BookingRow>)
    ensures |r| == |bookings|
    ensures forall i :: 0 <= i < |r| && bookings[i].id == bookingId ==> r[i] == bookings[i].(bookingStatus := status)
    ensures forall i :: 0 <= i < |r| && bookings[i].id != bookingId ==> r[i] == bookings[i]
  {
    if bookings == [] then []
    else
      var head := if bookings[0].id == bookingId then bookings[0].(bookingStatus := status) else bookings[0];
      [head] + ApplyStatusUpdate(bookings[1..], bookingId, status)
  }

  /**
   The mutation settles: on success the refetched rows carry the new status,
   on error the rows stay; either way the updating flag is cleared.
   */
  function Settle(m: Manager, bookingId: string, status: string, outcome: Outcome): (r: Manager)
    ensures r.updatingBookingId.None?
    ensures outcome == Failed ==> r.bookings == m.bookings
    ensures outcome == Succeeded ==> r.bookings == ApplyStatusUpdate(m.bookings, bookingId, status)
  {
    match outcome
    case Succeeded => Manager(ApplyStatusUpdate(m.bookings, bookingId, status), None)
    case Failed => m.(updatingBookingId := None)
  }

  /** `disabled={updatingBookingId === booking.id}`. */
  predicate RowDisabled(m: Manager, row: BookingRow)
  {
    m.updatingBookingId == Some(row.id)
  }

  /** While an update is in flight, exactly the rows with that id are disabled. */
  lemma StartDisablesOnlyThatRow(m: Manager, bookingId: string, row: BookingRow)
    ensures RowDisabled(StartStatusChange(m, bookingId), row) <==> row.id == bookingId
  {
  }

  /** Once the update settles, success or error, no row is disabled. */
  lemma SettleEnablesEveryRow(m: Manager, bookingId: string, status: string, outcome: Outcome, row: BookingRow)
    ensures !RowDisabled(Settle(m, bookingId, status, outcome), row)
  {
  }

  /** A full successful change: the chosen row carries the new status and every other row is untouched. */
  lemma SuccessfulChange(m: Manager, bookingId: string, status: string)
    ensures var r := Settle(StartStatusChange(m, bookingId), bookingId, status, Succeeded);
      && |r.bookings| == |m.bookings|
      && r.updatingBookingId.None?
      && (forall i :: 0 <= i < |r.bookings| && m.bookings[i].id == bookingId ==> r.bookings[i].bookingStatus == status)
      && (forall i :: 0 <= i < |r.bookings| && m.bookings[i].id != bookingId ==> r.bookings[i] == m.bookings[i])
  {
  }

  /** No transition table: every option is reachable from every current status, `completed` to `pending` included. */
  lemma AnyTransitionAccepted(b: BookingRow, status: string)
    requires status in StatusOptions
    ensures ApplyStatusUpdate([b], b.id, status) == [b.(bookingStatus := status)]
  {
  }

  /** Updating a row to the status it already has changes nothing. */
  lemma {:induction false} ApplySameStatusIsIdentity(bookings: seq<BookingRow>, bookingId: string, status: string)
    requires forall i :: 0 <= i < |bookings| && bookings[i].id == bookingId ==> bookings[i].bookingStatus == status
    ensures ApplyStatusUpdate(bookings, bookingId, status) == bookings
  {
    var r := ApplyStatusUpdate(bookings, bookingId, status);
    assert forall i :: 0 <= i < |r| ==> r[i] == bookings[i];
  }

  /** Two updates of the same row: the later status wins. */
  lemma LastUpdateWins(bookings: seq<BookingRow>, bookingId: string, first: string, second: string)
    ensures ApplyStatusUpdate(ApplyStatusUpdate(bookings, bookingId, first), bookingId, second)
         == ApplyStatusUpdate(bookings, bookingId, second)
  {
    var a := ApplyStatusUpdate(ApplyStatusUpdate(bookings, bookingId, first), bookingId, second);
    var b := ApplyStatusUpdate(bookings, bookingId, second);
    assert forall i :: 0 <= i < |a| ==> a[i] == b[i];
  }

  /**
   The flag holds one id only: when a second row's change starts before the
   first settles, the first settling re-enables the second row too.
   */
  lemma OverlappingChangesShareOneFlag(m: Manager, first: string, second: string, status: string, outcome: Outcome,
                                       row: BookingRow)
    requires row.id == second
    ensures RowDisabled(StartStatusChange(StartStatusChange(m, first), second), row)
    ensures !RowDisabled(Settle(StartStatusChange(StartStatusChange(m, first), second), first, status, outcome), row)
  {
  }
}
