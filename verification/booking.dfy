/**
 The booking form of `src/pages/Booking.tsx`: the traveller count, the
 per-traveller detail cards, the running total and the submit handler that
 builds the row inserted into the `bookings` table.
 */
module Booking {
  import opened Options

  /** One traveller card of the form. */
  datatype TravelerDetail = TravelerDetail(fullName: string, email: string, phone: string, passportNumber: string)

  /** The four inputs of a traveller card, by the key the handler writes. */
  datatype Field = FullName | Email | Phone | PassportNumber

  /** The record a new card starts with. */
  const Blank := TravelerDetail("", "", "", "")

  /** A calendar day picked in the date popover. */
  datatype Date = Date(year: int, month: int, day: int)

  datatype User = User(id: string)

  /** The fields of the fetched package row that the form reads. */
  datatype PackageData = PackageData(id: string, title: string, priceKes: int, seatsAvailable: int)

  /** The component's local state. */
  datatype Form = Form(date: Option<Date>, numTravelers: int, specialRequests: string, details: seq<TravelerDetail>)

  /** The object handed to the booking schema for validation. */
  datatype Draft = Draft(
    packageId: string,
    numTravelers: int,
    totalAmount: int,
    travelDate: Date,
    travelerDetails: seq<TravelerDetail>,
    specialRequests: Option<string>)

  /** The row inserted into the `bookings` table. */
  datatype BookingRow = BookingRow(
    userId: string,
    packageId: string,
    numTravelers: int,
    totalAmount: int,
    travelDate: Date,
    travelerDetails: seq<TravelerDetail>,
    specialRequests: Option<string>,
    bookingStatus: string,
    paymentStatus: string)

  /** How a submission ends. */
  datatype Submission =
    | LoginRequired       // toast, then navigate to the login page
    | DateRequired        // toast "Please select a travel date"
    | NoPackage           // silent return
    | Invalid(draft: Draft) // the schema rejected the draft; its first message is shown
    | Inserted(row: BookingRow)

  /** The state the page starts in: one traveller with one blank card. */
  const Initial := Form(None, 1, "", [Blank])

  /** `Array.from({ length: count })` treats a negative length as zero. */
  function ArrayLength(count: int): (n: nat)
    ensures count >= 0 ==> n == count
    ensures count < 0 ==> n == 0
  {
    if count < 0 then 0 else count
  }

  /** The form shows exactly one card per traveller. */
  ghost predicate WellFormed(f: Form)
  {
    |f.details| == ArrayLength(f.numTravelers)
  }

  function Blanks(n: nat): (r: seq<TravelerDetail>)
    ensures |r| == n
    ensures forall i :: 0 <= i < n ==> r[i] == Blank
  {
    if n == 0 then [] else [Blank] + Blanks(n - 1)
  }

  /**
   The new detail list of `handleTravelerCountChange`: existing cards are kept
   up to the new length, and new slots start blank.
   */
  function Resize(details: seq<TravelerDetail>, count: int): (r: seq<TravelerDetail>)
    ensures |r| == ArrayLength(count)
    ensures forall i :: 0 <= i < |r| && i < |details| ==> r[i] == details[i]
    ensures forall i :: |details| <= i < |r| ==> r[i] == Blank
  {
    var n := ArrayLength(count);
    if n <= |details| then details[..n] else details + Blanks(n - |details|)
  }

  /** `handleTravelerCountChange(count)`: sets the count and resizes the cards to match. */
  function ChangeTravelerCount(f: Form, count: int): (r: Form)
    ensures WellFormed(r)
    ensures r.numTravelers == count
    ensures r.date == f.date && r.specialRequests == f.specialRequests
    ensures forall i :: 0 <= i < |r.details| && i < |f.details| ==> r.details[i] == f.details[i]
  {
    f.(numTravelers := count, details := Resize(f.details, count))
  }

  /** Growing the list and then shrinking it back restores the original cards. */
  lemma ResizeGrowShrink(details: seq<TravelerDetail>, count: int)
    requires count >= |details|
    ensures Resize(Resize(details, count), |details|) == details
  {
  }

  /** Shrinking below the current length discards the dropped cards: growing back gives blanks. */
  lemma ResizeShrinkGrow(details: seq<TravelerDetail>, count: nat)
    requires count < |details|
    ensures Resize(Resize(details, count), |details|) == details[..count] + Blanks(|details| - count)
  {
    var r := Resize(Resize(details, count), |details|);
    assert r[..count] == details[..count];
  }

  /** Reading one input of a traveller card. */
  function Get(t: TravelerDetail, f: Field): string
  {
    match f
    case FullName => t.fullName
    case Email => t.email
    case Phone => t.phone
    case PassportNumber => t.passportNumber
  }

  /** `{ ...t, [field]: value }`: the named input takes the new value, the others keep theirs. */
  function Set(t: TravelerDetail, f: Field, value: string): (r: TravelerDetail)
    ensures Get(r, f) == value
    ensures forall g :: g != f ==> Get(r, g) == Get(t, g)
  {
    match f
    case FullName => t.(fullName := value)
    case Email => t.(email := value)
    case Phone => t.(phone := value)
    case PassportNumber => t.(passportNumber := value)
  }

  /**
   `handleTravelerDetailChange(index, field, value)`: one input of one card
   changes; every other card and every other input stays as it was.
   */
  function ChangeTravelerDetail(f: Form, index: int, field: Field, value: string): (r: Form)
    requires 0 <= index < |f.details|
    ensures |r.details| == |f.details|
    ensures Get(r.details[index], field) == value
    ensures forall g :: g != field ==> Get(r.details[index], g) == Get(f.details[index], g)
    ensures forall j :: 0 <= j < |f.details| && j != index ==> r.details[j] == f.details[j]
    ensures r.numTravelers == f.numTravelers && r.date == f.date && r.specialRequests == f.specialRequests
  {
    f.(details := f.details[index := Set(f.details[index], field, value)])
  }

  /** Editing a card keeps one card per traveller. */
  lemma ChangeTravelerDetailWellFormed(f: Form, index: int, field: Field, value: string)
    requires WellFormed(f) && 0 <= index < |f.details|
    ensures WellFormed(ChangeTravelerDetail(f, index, field, value))
  {
  }

  /** Typing a field's old value back into it restores the form. */
  lemma ChangeTravelerDetailUndo(f: Form, index: int, field: Field, value: string)
    requires 0 <= index < |f.details|
    ensures ChangeTravelerDetail(ChangeTravelerDetail(f, index, field, value), index, field, Get(f.details[index], field)) == f
  {
  }

  /** The value the "-" button asks for: `Math.max(1, numTravelers - 1)`. */
  function DecrementTarget(n: int): (r: int)
    ensures r >= 1
    ensures r <= n <==> n >= 1
    ensures n > 1 ==> r == n - 1
  {
    if n - 1 < 1 then 1 else n - 1
  }

  /** The value the "+" button asks for: `Math.min(seats_available, numTravelers + 1)`. */
  function IncrementTarget(n: int, seats: int): (r: int)
    ensures r <= seats
    ensures r <= n + 1
    ensures n < seats ==> r == n + 1
  {
    if seats < n + 1 then seats else n + 1
  }

  /** `disabled={numTravelers <= 1}`. */
  predicate DecrementDisabled(f: Form)
  {
    f.numTravelers <= 1
  }

  /** `disabled={numTravelers >= packageData.seats_available}`. */
  predicate IncrementDisabled(f: Form, pkg: PackageData)
  {
    f.numTravelers >= pkg.seatsAvailable
  }

  /** A click on "-": a disabled button does nothing; otherwise one traveller is removed. */
  function PressDecrement(f: Form): (r: Form)
    ensures DecrementDisabled(f) ==> r == f
    ensures !DecrementDisabled(f) ==> r.numTravelers == f.numTravelers - 1 && r.numTravelers >= 1
    ensures !DecrementDisabled(f) ==> WellFormed(r)
    ensures !DecrementDisabled(f) && WellFormed(f) ==> r.details == f.details[..f.numTravelers - 1]
  {
    if DecrementDisabled(f) then f else ChangeTravelerCount(f, DecrementTarget(f.numTravelers))
  }

  /** A click on "+": a disabled button does nothing; otherwise one traveller is added. */
  function PressIncrement(f: Form, pkg: PackageData): (r: Form)
    ensures IncrementDisabled(f, pkg) ==> r == f
    ensures !IncrementDisabled(f, pkg) ==> r.numTravelers == f.numTravelers + 1 <= pkg.seatsAvailable
    ensures !IncrementDisabled(f, pkg) ==> WellFormed(r)
    ensures !IncrementDisabled(f, pkg) && WellFormed(f) && f.numTravelers >= 0 ==> r.details == f.details + [Blank]
  {
    if IncrementDisabled(f, pkg) then f
    else ChangeTravelerCount(f, IncrementTarget(f.numTravelers, pkg.seatsAvailable))
  }

  /** Starting in range, the buttons keep the count within `[1, seats_available]`. */
  lemma ButtonsKeepCountInRange(f: Form, pkg: PackageData)
    requires WellFormed(f) && 1 <= f.numTravelers <= pkg.seatsAvailable
    ensures 1 <= PressDecrement(f).numTravelers <= pkg.seatsAvailable
    ensures 1 <= PressIncrement(f, pkg).numTravelers <= pkg.seatsAvailable
  {
  }

  /** "+" then "-" is a round trip: the count and every card come back unchanged. */
  lemma IncrementThenDecrement(f: Form, pkg: PackageData)
    requires WellFormed(f) && 1 <= f.numTravelers < pkg.seatsAvailable
    ensures PressDecrement(PressIncrement(f, pkg)) == f
  {
    assert (f.details + [Blank])[..f.numTravelers] == f.details;
  }

  /** "-" then "+" restores the count, but the removed card comes back blank. */
  lemma DecrementThenIncrement(f: Form, pkg: PackageData)
    requires WellFormed(f) && 1 < f.numTravelers <= pkg.seatsAvailable
    ensures PressIncrement(PressDecrement(f), pkg).numTravelers == f.numTravelers
    ensures PressIncrement(PressDecrement(f), pkg).details == f.details[..f.numTravelers - 1] + [Blank]
  {
  }

  /** The number input: `parseInt(value) || 1`, where `None` stands for `NaN`. Not clamped. */
  function TypedCount(parsed: Option<int>): (r: int)
    ensures r != 0
    ensures parsed.Some? && parsed.value != 0 ==> r == parsed.value
    ensures parsed.None? || parsed == Some(0) ==> r == 1
  {
    match parsed
    case None => 1
    case Some(v) => if v == 0 then 1 else v
  }

  /**
   The count-change handler stores a typed count above the seat limit in the
   form state as is; only the "+" button clamps. Whether the browser then lets
   the form be submitted is decided before `handleSubmit` and is not modelled.
   */
  lemma TypedCountIsNotClamped(f: Form, pkg: PackageData)
    requires pkg.seatsAvailable >= 0
    ensures ChangeTravelerCount(f, TypedCount(Some(pkg.seatsAvailable + 1))).numTravelers > pkg.seatsAvailable
  {
  }

  /** `price_kes * numTravelers`, used both in the summary card and in the submitted row. */
  function TotalAmount(priceKes: int, numTravelers: int): int
  {
    priceKes * numTravelers
  }

  /**
   The summary total follows the buttons: an enabled "+" adds one unit price,
   an enabled "-" takes one off, and a disabled button leaves the total alone.
   */
  lemma ButtonsMoveTotalByOnePrice(f: Form, pkg: PackageData)
    ensures !IncrementDisabled(f, pkg) ==>
      TotalAmount(pkg.priceKes, PressIncrement(f, pkg).numTravelers) == TotalAmount(pkg.priceKes, f.numTravelers) + pkg.priceKes
    ensures !DecrementDisabled(f) ==>
      TotalAmount(pkg.priceKes, PressDecrement(f).numTravelers) == TotalAmount(pkg.priceKes, f.numTravelers) - pkg.priceKes
    ensures IncrementDisabled(f, pkg) ==>
      TotalAmount(pkg.priceKes, PressIncrement(f, pkg).numTravelers) == TotalAmount(pkg.priceKes, f.numTravelers)
    ensures DecrementDisabled(f) ==>
      TotalAmount(pkg.priceKes, PressDecrement(f).numTravelers) == TotalAmount(pkg.priceKes, f.numTravelers)
  {
  }

  /** `specialRequests || undefined`, and later `|| null`: an empty text is sent as absent. */
  function OptionalText(s: string): (r: Option<string>)
    ensures r.None? <==> s == ""
    ensures r.Some? ==> r.value == s
  {
    if s == "" then None else Some(s)
  }

  /** The draft validated by the booking schema. */
  function DraftOf(packageId: string, pkg: PackageData, f: Form, date: Date): Draft
  {
    Draft(packageId, f.numTravelers, TotalAmount(pkg.priceKes, f.numTravelers), date, f.details, OptionalText(f.specialRequests))
  }

  /** The inserted row: the validated draft plus the user and two `pending` statuses. */
  function RowOf(user: User, d: Draft): (r: BookingRow)
    ensures r.bookingStatus == "pending" && r.paymentStatus == "pending"
    ensures r.userId == user.id && r.packageId == d.packageId
  {
    BookingRow(user.id, d.packageId, d.numTravelers, d.totalAmount, d.travelDate, d.travelerDetails,
               d.specialRequests, "pending", "pending")
  }

  /**
   `handleSubmit`: the checks run in the order user, date, package, schema;
   only a submission that passes all four reaches the insert. `packageId` is
   the route parameter and `accepts` stands for the booking schema.
   */
  function Submit(user: Option<User>, packageId: string, pkg: Option<PackageData>, f: Form,
                  accepts: Draft -> bool): (r: Submission)
    ensures user.None? <==> r.LoginRequired?
    ensures r.DateRequired? <==> user.Some? && f.date.None?
    ensures r.NoPackage? <==> user.Some? && f.date.Some? && pkg.None?
    ensures r.Inserted? <==>
      user.Some? && f.date.Some? && pkg.Some? && accepts(DraftOf(packageId, pkg.value, f, f.date.value))
    ensures r.Inserted? ==>
      && r.row.userId == user.value.id
      && r.row.packageId == packageId
      && r.row.bookingStatus == "pending"
      && r.row.paymentStatus == "pending"
      && r.row.numTravelers == f.numTravelers
      && r.row.totalAmount == TotalAmount(pkg.value.priceKes, f.numTravelers)
      && r.row.travelDate == f.date.value
      && r.row.travelerDetails == f.details
      && (r.row.specialRequests.None? <==> f.specialRequests == "")
      && (r.row.specialRequests.Some? ==> r.row.specialRequests.value == f.specialRequests)
  {
    if user.None? then LoginRequired
    else if f.date.None? then DateRequired
    else if pkg.None? then NoPackage
    else
      var d := DraftOf(packageId, pkg.value, f, f.date.value);
      if accepts(d) then Inserted(RowOf(user.value, d)) else Invalid(d)
  }

  /** Without a user nothing else is looked at: not even a missing date or package. */
  lemma SubmitChecksUserFirst(packageId: string, pkg: Option<PackageData>, f: Form, accepts: Draft -> bool)
    ensures Submit(None, packageId, pkg, f, accepts) == LoginRequired
  {
  }

  /** The total in the submitted row equals the total shown in the summary card. */
  lemma SubmittedTotalMatchesSummary(user: Option<User>, packageId: string, pkg: Option<PackageData>, f: Form,
                                     accepts: Draft -> bool)
    requires Submit(user, packageId, pkg, f, accepts).Inserted?
    ensures pkg.Some?
    ensures Submit(user, packageId, pkg, f, accepts).row.totalAmount == TotalAmount(pkg.value.priceKes, f.numTravelers)
  {
  }

  /** The initial form has one card per traveller. */
  lemma InitialWellFormed()
    ensures WellFormed(Initial)
  {
  }
}
