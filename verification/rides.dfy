/** Ride booking: a three-step wizard. Step 1 takes pickup and drop places
    (contains-only suggestions over the short list), step 2 offers five ride
    types priced for a simulated distance, step 3 confirms the booking and
    hands the price on to payment. The random draws of the simulation are
    parameters. */
module Rides {
  import opened Seqs
  import opened Numeric
  import opened Suggest
  import Gazetteer

  datatype RideOption = RideOption(id: string, name: string, baseFare: nat, perKm: nat)

  /** `RIDE_OPTIONS` (fares in rupees). */
  const RideOptions: seq<RideOption> := [
    RideOption("cab-mini", "Mini Cab", 50, 12),
    RideOption("cab-prime", "Prime Sedan", 70, 15),
    RideOption("cab-suv", "SUV", 100, 18),
    RideOption("auto", "Auto Rickshaw", 35, 10),
    RideOption("bike", "Bike Taxi", 25, 8)
  ]

  /** `calculatePrice`: `Math.round(baseFare + perKm * distance)`. Every
      operand is an integer, so the rounding changes nothing. */
  function Price(ride: RideOption, distance: nat): (r: nat)
    ensures r >= ride.baseFare
  {
    ride.baseFare + ride.perKm * distance
  }

  /** The price is the base fare at distance 0 and grows by the per-km rate
      with each kilometre; these two facts determine it. */
  lemma PriceGrowsPerKm(ride: RideOption, distance: nat)
    ensures Price(ride, 0) == ride.baseFare
    ensures Price(ride, distance + 1) == Price(ride, distance) + ride.perKm
  {
  }

  /** A longer ride never costs less. */
  lemma {:induction false} PriceMonotone(ride: RideOption, d1: nat, d2: nat)
    requires d1 <= d2
    ensures Price(ride, d1) <= Price(ride, d2)
    decreases d2 - d1
  {
    if d1 < d2 {
      PriceMonotone(ride, d1, d2 - 1);
      PriceGrowsPerKm(ride, d2 - 1);
    }
  }

  /** A Mini Cab over 10 km costs 170. */
  lemma MiniCabTenKm()
    ensures RideOptions[0].name == "Mini Cab" && Price(RideOptions[0], 10) == 170
  {
  }

  // ---------------------------------------------------------------------
  // The simulated search, with `Math.random()` draws as parameters.

  predicate IsDraw(u: real) {
    0.0 <= u < 1.0
  }

  /** `Math.floor(Math.random() * 17) + 3`. */
  function SimulatedDistance(u: real): (r: nat)
    requires IsDraw(u)
    ensures 3 <= r <= 19
  {
    (u * 17.0).Floor + 3
  }

  /** Every distance from 3 to 19 km can come out. */
  lemma DistanceReachable(k: nat)
    requires 3 <= k <= 19
    ensures IsDraw((k - 3) as real / 17.0) && SimulatedDistance((k - 3) as real / 17.0) == k
  {
  }

  /** `Math.floor(distance * (Math.random() * 1 + 2))`: two to three minutes
      per kilometre. */
  function SimulatedTime(distance: nat, v: real): (r: nat)
    requires IsDraw(v)
    ensures 2 * distance <= r
    ensures distance > 0 ==> r < 3 * distance
  {
    TimeBounds(distance, v);
    (distance as real * (v + 2.0)).Floor
  }

  /** Scaling by a draw never grows a non-negative quantity, and shrinks a
      positive one. */
  lemma ScaleByDraw(d: real, v: real)
    requires d >= 0.0 && IsDraw(v)
    ensures 0.0 <= d * v <= d
    ensures d > 0.0 ==> d * v < d
  {
    assert d - d * v == d * (1.0 - v);
  }

  lemma TimeBounds(distance: nat, v: real)
    requires IsDraw(v)
    ensures 2 * distance <= (distance as real * (v + 2.0)).Floor
    ensures distance > 0 ==> (distance as real * (v + 2.0)).Floor < 3 * distance
  {
    TimeLower(distance, v);
    FloorAtLeast(distance as real * (v + 2.0), 2 * distance);
    if distance > 0 {
      TimeUpper(distance, v);
      FloorBelow(distance as real * (v + 2.0), 3 * distance);
    }
  }

  lemma TimeLower(distance: nat, v: real)
    requires IsDraw(v)
    ensures (2 * distance) as real <= distance as real * (v + 2.0)
  {
    var d := distance as real;
    TimeAtLeastTwice(d, v);
    var y := d * (v + 2.0);
    assert 2.0 * d <= y;
    RealOfMultiple(2, distance);
    assert (2 * distance) as real == 2.0 * d;
  }

  lemma TimeUpper(distance: nat, v: real)
    requires IsDraw(v) && distance > 0
    ensures distance as real * (v + 2.0) < (3 * distance) as real
  {
    var d := distance as real;
    assert d >= 1.0;
    TimeBelowThrice(d, v);
    var y := d * (v + 2.0);
    assert y < 3.0 * d;
    RealOfMultiple(3, distance);
    assert (3 * distance) as real == 3.0 * d;
  }

  lemma RealOfMultiple(k: nat, n: nat)
    requires k == 2 || k == 3
    ensures (k * n) as real == k as real * n as real
  {
  }

  lemma TimeAtLeastTwice(d: real, v: real)
    requires d >= 0.0 && IsDraw(v)
    ensures 2.0 * d <= d * (v + 2.0)
  {
    ScaleByDraw(d, v);
    assert d * (v + 2.0) == d * v + 2.0 * d;
  }

  lemma TimeBelowThrice(d: real, v: real)
    requires d > 0.0 && IsDraw(v)
    ensures d * (v + 2.0) < 3.0 * d
  {
    ScaleByDraw(d, v);
    assert d * (v + 2.0) == d * v + 2.0 * d;
  }

  /** Every time from 2 to 3 minutes per kilometre (exclusive) can come out. */
  lemma TimeReachable(distance: nat, t: nat)
    requires 2 * distance <= t < 3 * distance
    ensures var v := (t - 2 * distance) as real / distance as real;
            IsDraw(v) && SimulatedTime(distance, v) == t
  {
    var v := (t - 2 * distance) as real / distance as real;
    assert distance as real * v == (t - 2 * distance) as real;
    assert distance as real * (v + 2.0) == t as real;
  }

  // ---------------------------------------------------------------------
  // The wizard.

  datatype State = State(
    fields: Fields,
    selectedRide: Option<string>,
    step: nat,
    loading: bool,
    price: int,
    distance: nat,
    time: nat)

  const Initial := State(EmptyFields, None, 1, false, 0, 0, 0)

  datatype Event =
    | Form(e: FieldEvent)
    /** "Find Rides" (step 1; disabled while loading or a place is empty). */
    | FindClicked
    /** The simulated search delay elapses, with the two random draws. */
    | RidesLoaded(u: real, v: real)
    /** A ride card (step 2). */
    | RideClicked(id: string)
    /** "Back" (step 2). */
    | BackClicked
    /** "Confirm" (step 2; disabled while no ride is selected). */
    | ConfirmClicked
    /** "Cancel Booking" (step 3). */
    | CancelClicked

  predicate ValidEvent(e: Event) {
    e.RidesLoaded? ==> IsDraw(e.u) && IsDraw(e.v)
  }

  function HasId(id: string): RideOption -> bool {
    (ride: RideOption) => ride.id == id
  }

  /** `RIDE_OPTIONS.find(option => option.id === rideId)`. */
  function FindRide(id: string): Option<RideOption> {
    FindFirst(HasId(id), RideOptions)
  }

  /** `handleSelectRide`: the selection is always stored; the price is
      recomputed only when the id names a ride option. */
  function SelectRide(s: State, id: string): (r: State)
    ensures r.selectedRide == Some(id)
    ensures FindRide(id).Some? ==> r.price == Price(FindRide(id).value, s.distance)
    ensures FindRide(id).None? ==> r.price == s.price
    ensures r.step == s.step && r.distance == s.distance && r.fields == s.fields
  {
    match FindRide(id)
    case Some(ride) => s.(selectedRide := Some(id), price := Price(ride, s.distance))
    case None => s.(selectedRide := Some(id))
  }

  /** The search result as the page handles it: distance and time are
      replaced, the step becomes 2, and the stored price is left alone. */
  function LoadAsWritten(s: State, u: real, v: real): (r: State)
    requires IsDraw(u) && IsDraw(v)
    ensures r.step == 2 && !r.loading && 3 <= r.distance <= 19
    ensures 2 * r.distance <= r.time < 3 * r.distance
    ensures r.price == s.price && r.selectedRide == s.selectedRide && r.fields == s.fields
  {
    var d := SimulatedDistance(u);
    s.(distance := d, time := SimulatedTime(d, v), loading := false, step := 2)
  }

  /** The search result as evidently intended: a ride still selected from an
      earlier search is re-priced for the new distance. */
  function Load(s: State, u: real, v: real): (r: State)
    requires IsDraw(u) && IsDraw(v)
    ensures r.step == 2 && !r.loading && 3 <= r.distance <= 19
    ensures 2 * r.distance <= r.time < 3 * r.distance
    ensures r.selectedRide == s.selectedRide && r.fields == s.fields
    ensures s.selectedRide.Some? && FindRide(s.selectedRide.value).Some? ==>
              r.price == Price(FindRide(s.selectedRide.value).value, r.distance)
    ensures s.selectedRide.None? ==> r.price == s.price
  {
    var r := LoadAsWritten(s, u, v);
    if s.selectedRide.Some? then SelectRide(r, s.selectedRide.value) else r
  }

  /** One event. `corrected` chooses the search-result handler, so the same
      wizard runs with the page's handler and with the corrected one. A click on a
      control that is not on screen, or is disabled, changes nothing. */
  function StepWith(s: State, e: Event, corrected: bool): (r: State)
    requires ValidEvent(e)
    ensures e.Form? ==> r == s.(fields := r.fields)
    ensures !e.RideClicked? ==> r.selectedRide == s.selectedRide
    ensures !e.RideClicked? && !e.RidesLoaded? ==> r.price == s.price
  {
    match e
    case Form(fe) => s.(fields := FieldsStep(s.fields, fe, ContainsOnly, Gazetteer.RideLocations))
    case FindClicked =>
      if s.step == 1 && !s.loading && s.fields.origin.text != "" && s.fields.destination.text != ""
      then s.(loading := true) else s
    case RidesLoaded(u, v) =>
      if !s.loading then s
      else if corrected then Load(s, u, v) else LoadAsWritten(s, u, v)
    case RideClicked(id) => if s.step == 2 then SelectRide(s, id) else s
    case BackClicked => if s.step == 2 then s.(step := 1) else s
    case ConfirmClicked => if s.step == 2 && Truthy(s.selectedRide) then s.(step := 3) else s
    case CancelClicked => if s.step == 3 then s.(step := 1) else s
  }

  function Step(s: State, e: Event): State
    requires ValidEvent(e)
  {
    StepWith(s, e, true)
  }

  function StepAsWritten(s: State, e: Event): State
    requires ValidEvent(e)
  {
    StepWith(s, e, false)
  }

  /** The step moves 1 to 2 only when a search with both places filled in
      finishes, 2 to 3 only on confirm with a ride selected, and back to 1
      only from "Back" on step 2 or "Cancel Booking" on step 3. */
  lemma StepTransitions(s: State, e: Event, corrected: bool)
    requires ValidEvent(e) && 1 <= s.step <= 3
    requires !s.loading || s.step == 1
    ensures var r := StepWith(s, e, corrected);
            1 <= r.step <= 3 &&
            (r.step == 2 && s.step != 2 ==> s.step == 1 && s.loading && e.RidesLoaded?) &&
            (r.step == 3 && s.step != 3 ==> s.step == 2 && e.ConfirmClicked? && Truthy(s.selectedRide)) &&
            (r.step == 1 && s.step != 1 ==> (s.step == 2 && e.BackClicked?) || (s.step == 3 && e.CancelClicked?)) &&
            (r.loading ==> r.step == 1)
  {
  }

  /** Searching is a no-op unless both places are filled in. */
  lemma FindNeedsBothPlaces(s: State)
    requires s.fields.origin.text == "" || s.fields.destination.text == ""
    ensures Step(s, FindClicked) == s && StepAsWritten(s, FindClicked) == s
  {
  }

  // ---------------------------------------------------------------------
  // The price shown for the selected ride.

  /** The stored price is the selected ride's price at the stored distance. */
  predicate PriceCurrent(s: State) {
    s.selectedRide.Some? && FindRide(s.selectedRide.value).Some? ==>
      s.price == Price(FindRide(s.selectedRide.value).value, s.distance)
  }

  /** With the corrected search handler, every event keeps the stored price
      in line with the selected ride and the current distance. */
  lemma StepKeepsPriceCurrent(s: State, e: Event)
    requires ValidEvent(e) && PriceCurrent(s)
    ensures PriceCurrent(Step(s, e))
  {
  }

  /** So the confirmation screen never shows a price that disagrees with the
      ride and distance it shows next to it, after any run of events. */
  lemma {:induction false} RunKeepsPriceCurrent(s: State, events: seq<Event>)
    requires PriceCurrent(s)
    requires forall i | 0 <= i < |events| :: ValidEvent(events[i])
    ensures PriceCurrent(Run(s, events, true))
    decreases |events|
  {
    if |events| > 0 {
      StepKeepsPriceCurrent(s, events[0]);
      RunKeepsPriceCurrent(Step(s, events[0]), events[1..]);
    }
  }

  function Run(s: State, events: seq<Event>, corrected: bool): State
    requires forall i | 0 <= i < |events| :: ValidEvent(events[i])
    decreases |events|
  {
    if |events| == 0 then s else Run(StepWith(s, events[0], corrected), events[1..], corrected)
  }

  /** A rebooking: search (5 km), pick the Mini Cab, go back, search again
      (10 km) and confirm. */
  function Rebooking(corrected: bool): State {
    var filled := StepWith(StepWith(Initial, Form(OriginPicked("Adyar")), corrected),
                           Form(DestinationPicked("Guindy")), corrected);
    var first := StepWith(StepWith(filled, FindClicked, corrected), RidesLoaded(2.0 / 17.0, 0.0), corrected);
    var picked := StepWith(first, RideClicked("cab-mini"), corrected);
    var back := StepWith(picked, BackClicked, corrected);
    var second := StepWith(StepWith(back, FindClicked, corrected), RidesLoaded(7.0 / 17.0, 0.0), corrected);
    StepWith(second, ConfirmClicked, corrected)
  }

  lemma RebookingDraws()
    ensures SimulatedDistance(2.0 / 17.0) == 5 && SimulatedDistance(7.0 / 17.0) == 10
    ensures SimulatedTime(5, 0.0) == 10 && SimulatedTime(10, 0.0) == 20
  {
    DistanceReachable(5);
    DistanceReachable(10);
  }

  lemma MiniCabFound()
    ensures FindRide("cab-mini") == Some(RideOptions[0])
  {
  }

  /** With the page's handler the confirmation shows 10 km and the Mini Cab,
      but the 5 km price of 110 instead of 170. */
  lemma StalePriceAsWritten()
    ensures var r := Rebooking(false);
            r.step == 3 && r.distance == 10 && r.selectedRide == Some("cab-mini") &&
            r.price == 110 && Price(RideOptions[0], 10) == 170
  {
    RebookingDraws();
    MiniCabFound();
  }

  /** With the corrected handler the same rebooking shows 170. */
  lemma RebookingPriceCorrected()
    ensures var r := Rebooking(true);
            r.step == 3 && r.distance == 10 && r.selectedRide == Some("cab-mini") && r.price == 170
  {
    RebookingDraws();
    MiniCabFound();
  }

  // ---------------------------------------------------------------------
  // The hand-off to payment.

  /** "Proceed to Payment" (step 3) passes the stored price on as the
      amount; on a state reachable through the page, that amount is the
      price of the ride the user chose at the distance shown. */
  function PaymentAmount(s: State): (r: Option<int>)
    ensures r.Some? <==> s.step == 3
    ensures r.Some? && HandOffOk(s) ==>
              s.selectedRide.Some? && Truthy(s.selectedRide) && FindRide(s.selectedRide.value).Some? &&
              r.value == Price(FindRide(s.selectedRide.value).value, s.distance)
  {
    if s.step == 3 then Some(s.price) else None
  }

  /** Ride cards are rendered from the ride options only, so a click names one. */
  predicate OnScreen(e: Event) {
    e.RideClicked? ==> FindRide(e.id).Some?
  }

  /** The invariant behind the hand-off: the price is current, a selection
      names a ride option, and step 3 is only reached with a ride chosen,
      as the disabled Confirm button ensures. */
  predicate HandOffOk(s: State) {
    PriceCurrent(s) &&
    (s.selectedRide.Some? ==> FindRide(s.selectedRide.value).Some?) &&
    (s.step == 3 ==> Truthy(s.selectedRide))
  }

  lemma StepKeepsHandOffOk(s: State, e: Event)
    requires ValidEvent(e) && OnScreen(e) && HandOffOk(s)
    ensures HandOffOk(Step(s, e))
  {
    StepKeepsPriceCurrent(s, e);
  }

  lemma {:induction false} RunKeepsHandOffOk(s: State, events: seq<Event>)
    requires HandOffOk(s)
    requires forall i | 0 <= i < |events| :: ValidEvent(events[i]) && OnScreen(events[i])
    ensures HandOffOk(Run(s, events, true))
    decreases |events|
  {
    if |events| > 0 {
      StepKeepsHandOffOk(s, events[0]);
      RunKeepsHandOffOk(Step(s, events[0]), events[1..]);
    }
  }

  /** After any run of clicks from the opening screen, the amount handed to
      payment is the chosen ride's price at the current distance. */
  lemma PaymentChargesChosenRide(events: seq<Event>)
    requires forall i | 0 <= i < |events| :: ValidEvent(events[i]) && OnScreen(events[i])
    ensures var s := Run(Initial, events, true);
            PaymentAmount(s).Some? ==>
              s.selectedRide.Some? && FindRide(s.selectedRide.value).Some? &&
              PaymentAmount(s) == Some(Price(FindRide(s.selectedRide.value).value, s.distance))
  {
    RunKeepsHandOffOk(Initial, events);
  }

  /** The page's handler hands 110 on for the 10 km Mini Cab rebooking; the
      corrected one hands on 170. */
  lemma RebookingPaymentAmounts()
    ensures PaymentAmount(Rebooking(false)) == Some(110)
    ensures PaymentAmount(Rebooking(true)) == Some(170)
  {
    StalePriceAsWritten();
    RebookingPriceCorrected();
  }
}
