# FLEX mock mobility app — a Dafny model of its page logic

FLEX is a Next.js front end for a Chennai ride-hailing and transit app. Every
piece of data in it is mock data, and every delay is a timer. This project
models the logic behind its pages as immutable datatypes and pure functions,
and proves what the pages promise. Each page's React state becomes a
`State` datatype, and each handler or timer callback becomes one case of a
`Step` function over an `Event` datatype.

Modules:

- `Seqs` holds the sequence toolkit: `Array.filter`, `slice(0, n)`, de-duplication through a `Set`, and `find`.
- `Text` holds the ASCII case mapping, `includes`, `startsWith`, `split(' ')`, number printing, `padStart`, and reading numbers back.
- `Numeric` holds `Math.floor` and `Math.round` over exact reals.
- `Gazetteer` holds the three Chennai location lists.
- `Suggest` holds the autocomplete filter and the dropdown handlers shared by three pages.
- `Home`, `TripPlanner`, `Rides`, `Payment`, `Tracking`, `Bookings` and `Transport` each model one page.
- `Navbar` models the shared navigation bar.

Two facts about the code worth knowing up front:

- A ride started at 0% reaches progress 100 on the 50th movement tick and is marked completed on the 51st (`Tracking.FromZeroCompletes`).
- Only the home page's list contains "SRM University" (`Gazetteer.HomeExtendsTripPlanner`, `Gazetteer.TripPlannerLacksSrm`).

## Model

| member | source | states |
|---|---|---|
| Seqs.Filter | app/page.tsx:71-73 | `Array.filter`: x is in the result iff x is in the input and passes the test |
| Seqs.FindFirst | app/trip-planner/page.tsx:366 | `Array.find`: nothing iff no element passes; otherwise an element that passes, with none before it passing |
| Seqs.Dedupe | app/page.tsx:89 | `[...new Set(xs)]`: the same members as xs, each once |
| Seqs.DedupeAppend | app/page.tsx:89 | de-duplicating a duplicate-free list followed by more names keeps that list in front and appends the new names de-duplicated, in order |
| Seqs.TakeAtMost | app/page.tsx:77 | `slice(0, n)`: the first min(n, length) elements |
| Seqs.FilterPartition | app/bookings/page.tsx:81 | a test and its negation split a list: the two lengths add up and the two multisets add up to the input's |
| Text.Lower | app/page.tsx:68 | `toLowerCase` on ASCII: same length, each character mapped |
| Text.LowerIdempotent | app/page.tsx:68 | lower-casing twice is lower-casing once |
| Text.UpperIgnoresCase | app/payment/page.tsx:77 | `toUpperCase` forgets the letter case of its input |
| Text.JoinSplit | app/page.tsx:83 | `split(' ')` loses nothing: joining the words with spaces gives back the string |
| Text.SomeWordStartsWithIff | app/page.tsx:83-85 | some word of `split(' ')` starts with p iff p has no space and occurs at the start of the string or right after a space |
| Text.ReadShowNat | app/trip-planner/page.tsx:327 | a printed number reads back as itself |
| Text.ReadDigitsLeadingZeros | app/tracking/page.tsx:81 | zeros added by `padStart` do not change the number read back |
| Text.ReadNumberShowNat | app/trip-planner/page.tsx:327-329 | reading a number off a printed number followed by a non-digit gives the number and the rest |
| Gazetteer.HomeExtendsTripPlanner | app/page.tsx:8-19 | the home page's list is the trip planner's list plus "SRM University" |
| Gazetteer.RidesArePrefix | app/rides/page.tsx:9-15 | the ride screen's list is the first 23 names of the trip planner's list |
| Gazetteer.TripPlannerLacksSrm | app/trip-planner/page.tsx:8-19 | "SRM University" is not in the trip planner's list |
| Gazetteer.RideDistinct | app/rides/page.tsx:9-15 | the ride screen's list names no place twice |
| Gazetteer.TripPlannerDistinct | app/trip-planner/page.tsx:8-19 | the trip planner's list names no place twice |
| Gazetteer.HomeDistinct | app/page.tsx:8-19 | the home page's list names no place twice |
| Suggest.TwoPassSuggestions | app/page.tsx:65-91 | an empty input gives nothing; at most 5 names; every name is from the list and contains the query or has a word starting with its first 3 characters |
| Suggest.TwoPassIsRanked | app/page.tsx:71-90 | over distinct names, the filter equals the ranking: contains-matches in list order, then (if fewer than 3) the names only pass 2 finds, cut at 5 |
| Suggest.TwoPassNoDuplicates | app/page.tsx:89 | no name is offered twice |
| Suggest.FewContainsMatchesComeFirst | app/page.tsx:76-90 | with fewer than 3 contains-matches, all of them are offered, ahead of every other name |
| Suggest.ManyContainsMatchesOnly | app/page.tsx:76-77 | with 3 or more contains-matches, the result is exactly the first min(5, count) contains-matches in list order |
| Suggest.EqualityIsInclusion | app/page.tsx:71-73 | the `=== input` test is subsumed by `includes` |
| Suggest.ContainsOnlySuggestions | app/rides/page.tsx:128-138 | an empty input gives nothing; at most 5 names; each is from the list and contains the query |
| Suggest.ContainsOnlyIsPass1 | app/rides/page.tsx:133-137 | the ride screen's filter is exactly pass 1 of the two-pass filter, cut at 5 |
| Suggest.ContainsOnlyIsPrefix | app/rides/page.tsx:128-138 | over distinct names, the ride screen's suggestions are a prefix of the two-pass suggestions |
| Suggest.ContainsOnlyComplete | app/rides/page.tsx:133-137 | when at most 5 names contain the query, each of them is offered |
| Suggest.OnlyAddedNameMatches | app/page.tsx:65-91 | a query that only an added name matches gets nothing without it and exactly that name with it |
| Suggest.SrmOnlyOnHomePage | app/trip-planner/page.tsx:8-19 | a query matching no trip-planner name but contained in "SRM University" gets that name on the home page and nothing in the trip planner |
| Suggest.SrmQueryMatchesSrm | app/page.tsx:71-73 | "srm" passes the contains test against "SRM University" |
| Suggest.HomeSuggestionsRanked | app/page.tsx:65-91 | on the home page's own list, every query gets the ranking, with no name twice |
| Suggest.TripPlannerSuggestionsRanked | app/trip-planner/page.tsx:8-19 | on the trip planner's own list, every query gets the ranking, with no name twice |
| Suggest.RideSuggestionsArePrefix | app/rides/page.tsx:128-138 | on the ride screen's own list, its suggestions are a prefix of the two-pass suggestions |
| Suggest.Edit | app/page.tsx:95-103 | the change handler stores the text, and the dropdown opens iff there are suggestions, all from the list; an empty text keeps it closed |
| Suggest.Pick | app/page.tsx:117-120 | the select handler stores the chosen name and closes the dropdown |
| Suggest.ClickOutside | app/page.tsx:48-55 | a mouse-down outside closes the dropdown and keeps the text |
| Suggest.Focus | app/page.tsx:309 | focusing reopens the dropdown iff it has suggestions |
| Suggest.FieldsStep | app/page.tsx:48-124 | each handler changes only its own field; a mouse-down closes every dropdown it missed |
| Suggest.FieldsStepKeepsOk | app/page.tsx:95-124 | an open dropdown is never empty and shows only list names, after every handler |
| Suggest.TypeThenPick | app/page.tsx:95-120 | typing then picking leaves exactly the picked name, with the dropdown closed |
| Home.CounterTick | app/page.tsx:43-45 | the counter stays below 100, counts up by one, and wraps from 99 to 0 |
| Home.CounterCountsModulo | app/page.tsx:40-45 | after k callbacks the counter is k mod 100 |
| Home.Step | app/page.tsx:127-218 | the menu button negates the menu flag; a mobile link closes it; other events leave it |
| Home.StepKeepsOk | app/page.tsx:40-129 | every event keeps the dropdowns well-formed and the counter below 100 |
| Home.ToggleTwice | app/page.tsx:127-129 | toggling the menu twice restores it |
| TripPlanner.TotalFare | app/trip-planner/page.tsx:366 | no fare iff no route has the active id; otherwise the price of a route with that id |
| TripPlanner.FareOfRoute | app/trip-planner/page.tsx:30-34 | with distinct ids, a route's id shows that route's price |
| TripPlanner.InitialFare | app/trip-planner/page.tsx:30-40 | the fastest route is active at first, and the fare shows 140 |
| TripPlanner.ClickedRouteFare | app/trip-planner/page.tsx:312-320 | clicking a route card makes the fare that route's price |
| TripPlanner.DurationParts | app/trip-planner/page.tsx:327 | hours × 60 + minutes is the duration, with minutes below 60 |
| TripPlanner.DurationLabelReadsBack | app/trip-planner/page.tsx:327 | the "Xh Ym" label reads back as hours and minutes that rebuild the duration |
| TripPlanner.TransferLabelPlural | app/trip-planner/page.tsx:329 | the label ends in "s" iff the count is not 1, and starts with the count |
| TripPlanner.Step | app/trip-planner/page.tsx:56-162 | mount copies the non-empty parameters and shows results iff both are present; a click sets the active route; a submit starts a search only with both places filled in and otherwise changes nothing; a finished search shows results |
| TripPlanner.MountShowsResultsIff | app/trip-planner/page.tsx:63-72 | results appear on mount iff both query parameters are present and non-empty |
| TripPlanner.ResultsStayShown | app/trip-planner/page.tsx:44 | once shown, the results stay shown |
| TripPlanner.SearchShowsResults | app/trip-planner/page.tsx:152-163 | a search submitted with both places filled in always ends with the results shown |
| TripPlanner.EmptySubmitIsNoOp | app/trip-planner/page.tsx:216-254 | with a `required` place field empty, submitting and waiting change nothing |
| TripPlanner.StepKeepsOk | app/trip-planner/page.tsx:91-145 | every event keeps the dropdowns well-formed |
| Numeric.FloorQuotient | app/tracking/page.tsx:79 | the floor of a quotient of naturals is integer division |
| Numeric.RoundQuotient | app/transport-map/page.tsx:296 | `Math.round(a / b)` is (2a + b) div 2b |
| Rides.Price | app/rides/page.tsx:195-197 | the price is at least the base fare |
| Rides.PriceGrowsPerKm | app/rides/page.tsx:195-197 | the price is the base fare at 0 km and grows by the per-km rate each kilometre |
| Rides.PriceMonotone | app/rides/page.tsx:195-197 | a longer ride never costs less |
| Rides.MiniCabTenKm | app/rides/page.tsx:18-31 | a Mini Cab over 10 km costs 170 |
| Rides.SimulatedDistance | app/rides/page.tsx:183 | the simulated distance lies in 3..19 km |
| Rides.DistanceReachable | app/rides/page.tsx:183 | every distance in 3..19 km can come out |
| Rides.SimulatedTime | app/rides/page.tsx:185 | the time is at least 2 and under 3 minutes per kilometre |
| Rides.TimeReachable | app/rides/page.tsx:185 | every time from 2 to under 3 minutes per kilometre can come out |
| Rides.SelectRide | app/rides/page.tsx:200-206 | the selection is always stored; the price is recomputed iff the id names a ride |
| Rides.LoadAsWritten | app/rides/page.tsx:181-191 | as written, a finished search goes to step 2 with a distance in 3..19 and a time of 2–3 minutes per km, and leaves the stored price and the selection as they were |
| Rides.Load | app/rides/page.tsx:181-191 | corrected (see ## Findings): the same step, distance and time, the selection kept, and a selected ride re-priced for the new distance |
| Rides.StepWith | app/rides/page.tsx:175-218 | only ride clicks change the selection; only ride clicks and finished searches change the price; `Rides.Step` and `Rides.StepAsWritten` are its instances with the corrected and the as-written search handler |
| Rides.StepTransitions | app/rides/page.tsx:175-210 | the step moves 1→2 only when a search finishes, 2→3 only on confirm with a ride chosen, and back to 1 only via Back or Cancel Booking |
| Rides.FindNeedsBothPlaces | app/rides/page.tsx:176 | searching with either place empty does nothing |
| Rides.StepKeepsPriceCurrent | app/rides/page.tsx:195-206 | every event keeps the stored price equal to the selected ride's price at the current distance |
| Rides.RunKeepsPriceCurrent | app/rides/page.tsx:421 | after any run of events, the confirmed fare matches the ride and distance shown next to it |
| Rides.StalePriceAsWritten | app/rides/page.tsx:181-191 | as written, a rebooking confirms 10 km with the Mini Cab at the 5 km price of 110 instead of 170 |
| Rides.RebookingPriceCorrected | app/rides/page.tsx:200-206 | with the corrected handler, the same rebooking confirms 170 |
| Rides.PaymentAmount | app/rides/page.tsx:215-218 | only step 3 hands an amount to payment; on a state keeping the hand-off invariant, a ride is chosen and the amount is its price at the shown distance |
| Rides.StepKeepsHandOffOk | app/rides/page.tsx:200-218 | every event on the page keeps the price current, a selection naming a ride option, and step 3 reachable only with a ride chosen (the Confirm guard) |
| Rides.RunKeepsHandOffOk | app/rides/page.tsx:175-218 | that invariant holds after any run of events |
| Rides.PaymentChargesChosenRide | app/rides/page.tsx:215-218 | from the opening screen, after any run of clicks, the amount handed to payment is the chosen ride's price at the current distance |
| Rides.RebookingPaymentAmounts | app/rides/page.tsx:181-191 | the rebooking hands on 110 with the page's search handler and 170 with the corrected one |
| Payment.CheckPromo | app/payment/page.tsx:75-86 | FLEX20 takes off (amount + 2) div 5, NEWUSER takes off min(50, amount), any other code is invalid; a discount never exceeds the fare |
| Payment.Flex20IsFifth | app/payment/page.tsx:78 | `Math.round(amount * 0.2)` is (amount + 2) div 5 |
| Payment.CodesIgnoreCase | app/payment/page.tsx:77-80 | the codes are recognised in any letter case |
| Payment.Apply | app/payment/page.tsx:75-86 | a valid code replaces the discount; an invalid one keeps it and raises the alert; an empty code does nothing |
| Payment.ApplyOverwrites | app/payment/page.tsx:79-82 | the discount after a valid code does not depend on the previous discount |
| Payment.Total | app/payment/page.tsx:133-136 | the "Total" and "Pay" figure lies between 0 and the fare while the discount is in range, and is the fare without a discount |
| Payment.Flex20On170 | app/payment/page.tsx:78 | FLEX20 on 170 takes off 34, leaving 136 |
| Payment.Step | app/payment/page.tsx:75-100 | no event changes the fare, and only "Apply" changes the discount |
| Payment.StepKeepsOk | app/payment/page.tsx:51-100 | the discount stays within 0..amount, so the total is never negative; processing happens exactly in step 2 |
| Payment.StepTransitions | app/payment/page.tsx:89-100 | the step only moves forward: 1→2 on Pay with a method chosen, 2→3 when processing ends |
| Payment.PayNeedsMethod | app/payment/page.tsx:90 | Pay without a method does nothing; with one, processing runs through to success |
| Tracking.PointIndex | app/tracking/page.tsx:112-115 | the target waypoint index lies in 1..n−1 |
| Tracking.PointIndexIsFloor | app/tracking/page.tsx:112-115 | the integer index equals the page's floor of p/100 × (n−1) + 1, capped at n−1 |
| Tracking.Fraction | app/tracking/page.tsx:120 | the fraction along the current leg lies in 0..1, and is 1 at full progress |
| Tracking.MoveTick | app/tracking/page.tsx:91-134 | progress never exceeds 100 and never drops; the ride is completed iff it was completed or at 100, and then sits at 100 with position and waypoint index unchanged; otherwise progress grows by 2, capped at 100, and the index is the waypoint for the new progress |
| Tracking.CompletedIsFixedPoint | app/tracking/page.tsx:94-106 | a completed ride at 100 never changes |
| Tracking.FullProgressAtLastPoint | app/tracking/page.tsx:110-125 | reaching 100 puts the driver exactly on the last waypoint |
| Tracking.TicksAdvance | app/tracking/page.tsx:110 | while below 100, each tick adds 2 and keeps the status |
| Tracking.InitialRideCompletes | app/tracking/page.tsx:20-45 | from the mock ride's 25%, progress is 99 after 37 ticks and 100 after 38, and the ride is completed on tick 39 |
| Tracking.FromZeroCompletes | app/tracking/page.tsx:94-133 | from 0%, progress is 100 after 50 ticks and the ride is completed on tick 51 |
| Tracking.SecondsLeft | app/tracking/page.tsx:66 | zero iff under a second remains; otherwise the whole seconds remaining |
| Tracking.CountdownLabelReadsBack | app/tracking/page.tsx:79-81 | the "M:SS" label reads back as minutes and under-60 seconds that rebuild the seconds left |
| Tracking.CountdownTick | app/tracking/page.tsx:63-82 | only the status can change, and only from waiting to in progress once no time is left |
| Tracking.StatusNeverGoesBack | app/tracking/page.tsx:63-134 | neither timer moves a ride back to an earlier status |
| Bookings.Visible | app/bookings/page.tsx:81 | a tab shows exactly the bookings with its status, in list order |
| Bookings.TabsPartition | app/bookings/page.tsx:77-81 | each booking shows under exactly one tab |
| Bookings.Cancel | app/bookings/page.tsx:112-114 | the same length, with each booking of that id completed and every other booking unchanged |
| Bookings.CancelChangesOnlyStatus | app/bookings/page.tsx:112-114 | cancelling changes only the status, and only of bookings with the id |
| Bookings.CancelIdempotent | app/bookings/page.tsx:112-114 | cancelling twice is cancelling once |
| Bookings.CancelLeavesUpcoming | app/bookings/page.tsx:81-114 | after a cancel, "upcoming" shows the same bookings minus those with that id |
| Bookings.CancelShowsCompleted | app/bookings/page.tsx:81-114 | a cancelled booking shows under "completed" |
| Bookings.HandleCancel | app/bookings/page.tsx:110-117 | nothing changes unless the confirmation is accepted |
| Bookings.TabActions | app/bookings/page.tsx:258-277 | every card under "upcoming" offers Cancel, and every card under "completed" offers Book Again |
| Bookings.UpcomingOfFive | app/bookings/page.tsx:8-81 | five bookings with the mock statuses show the 2nd, 3rd and 5th as upcoming; cancelling the 2nd leaves the 3rd and 5th |
| Bookings.MockUpcoming | app/bookings/page.tsx:8-81 | on the mock data, "upcoming" opens with bookings 2, 3 and 5; cancelling 2 leaves 3 and 5 |
| Transport.FilteredVehicles | app/transport-map/page.tsx:46-51 | a vehicle is listed iff its type matches ("all" or equal) and its lower-cased number or route contains the lower-cased query; order is kept |
| Transport.ShowAllByDefault | app/transport-map/page.tsx:39-51 | type "all" with an empty query lists the whole fleet |
| Transport.SearchIgnoresCase | app/transport-map/page.tsx:48-49 | the search ignores the letter case of the query |
| Transport.SelectedVehicle | app/transport-map/page.tsx:54-55 | no id, or id 0, selects nothing; otherwise a fleet vehicle with that id, or nothing iff none has it |
| Transport.SelectionOutlivesFilter | app/transport-map/page.tsx:54-55 | a vehicle hidden by the filter stays selected |
| Transport.ClickShowsVehicle | app/transport-map/page.tsx:209 | with distinct ids, clicking a vehicle selects that vehicle |
| Transport.FiltersKeepDetails | app/transport-map/page.tsx:141-185 | changing the filters never changes the details panel |
| Transport.OccupancyPercent | app/transport-map/page.tsx:296 | the percentage is (200 × current + capacity) div (2 × capacity), within 0..100 when current ≤ capacity |
| Transport.OccupancyBand | app/transport-map/page.tsx:300-306 | red iff 5 × current > 4 × capacity, yellow iff 0.5 < ratio ≤ 0.8, green iff 2 × current ≤ capacity |
| Transport.BandAgreesWithPercent | app/transport-map/page.tsx:296-306 | red shows at least 80%, yellow 50–80%, green at most 50% |
| Transport.FleetOccupancy | app/transport-map/page.tsx:11-15 | bus B205 shows 92% in red; bus B101 shows 53% in yellow |
| Transport.Step | app/transport-map/page.tsx:95-209 | only a vehicle click changes the selection; pause/play flips the simulation flag |
| Navbar.PageOfPath | components/Navbar.tsx:18-22 | a page is found iff the path is one of the five routes, and its route is the path |
| Navbar.PageOfPathOf | components/Navbar.tsx:18-22 | each page's route reads back as that page |
| Navbar.CurrentPageAsWritten | components/Navbar.tsx:17-22 | as written, any page name passed in selects the trip planner; only without one is the path read |
| Navbar.TransportMapHighlightsTripPlanner | app/transport-map/page.tsx:75 | the transport map passes its own name, yet the bar highlights the trip planner |
| Navbar.CurrentPage | components/Navbar.tsx:16 | corrected: a page name passed in is used; otherwise the page whose route is the path, or none |
| Navbar.OwnPageHighlighted | components/Navbar.tsx:16-22 | every page is highlighted on its own route, with or without passing its name |
| Navbar.AsWrittenAgreesWithoutName | components/Navbar.tsx:17-22 | the as-written and corrected bars agree iff no name is passed or the name is the trip planner |
| Navbar.MenuStep | components/Navbar.tsx:24-26 | the menu button negates the flag; every mobile link closes the menu |
| Navbar.ToggleTwice | components/Navbar.tsx:24-26 | toggling twice restores the menu |

## Left out

- Rendering, CSS classes, icons and framer-motion animation are pure presentation.
- The Leaflet maps are foreign library calls.
- Timers are not modelled as wall-clock time. Each `setInterval` or `setTimeout` callback is an explicit event: search finished, processing finished, movement tick, countdown tick, counter tick.
- `Math.random()` draws and the current time are parameters.
- The date and time inputs and `toLocaleTimeString` are left out.
- The transport map's simulation speed only changes a timer period, so it is left out.
- The router, `alert` and `window.confirm` are outside the model:
  - navigation is modelled as the value handed on (`Rides.PaymentAmount`);
  - the alert is a boolean (`Payment.Apply`);
  - the confirmation is a parameter (`Bookings.HandleCancel`).
- URL query parsing and `encodeURIComponent` are left out. The payment page's amount is a natural-number parameter, not `Number(...)` of a string.
- Floating point is idealised as exact reals in ratios, `Math.round` and interpolation. Ties and representation error are not modelled.
- Rides.SimulatedTime: the strict bound `time < 3 * distance` holds over exact reals; with doubles, a draw of 1 − 2⁻⁵² makes `v + 2` round to 3.0, so the page can produce exactly 3 × distance.
- Case mapping covers ASCII letters only. Every location name is ASCII.
- Suggest.SrmOnlyOnHomePage: takes as a hypothesis that the query matches no trip-planner name. The verifier does not evaluate concrete strings across the 43-name list, so it does not prove this for "srm" itself. `Suggest.SrmQueryMatchesSrm` proves that "srm" matches "SRM University".
- Transport.OccupancyPercent, Transport.OccupancyBand, Transport.BandAgreesWithPercent: require a positive capacity. With capacity 0 the page divides by zero; every mock vehicle has a positive capacity.
- Tracking.MoveTick: idealised as exact reals: the interpolated position uses exact real arithmetic, not doubles.
- Vehicle coordinates, speed, heading, punctuality and next stop are left out, as are the transport stops, because no logic reads them.
- The booking dates, transport icons and vehicle descriptions, the payment method cards' labels, the tracking page's driver details, and the `TRANSPORT_OPTIONS` table are left out.
- The profile page and `PageTransition` have no logic beyond rendering.
- Switching the bookings tab is just choosing the `Visible` argument, so it is not a separate event.

## Findings

| source | as written | input that shows it | evidently intended | confidence | as-written member | corrected member |
|---|---|---|---|---|---|---|
| components/Navbar.tsx:17-22 | `activePage \|\| pathname === "/trip-planner" ? "trip-planner" : ...` parses as `(activePage \|\| pathname === "/trip-planner") ? "trip-planner" : ...`, so any page name passed in selects the trip planner | the transport map passes `activePage="transport-map"` (app/transport-map/page.tsx:75) on path "/transport-map"; the bar highlights "Plan Route" | use `activePage` when given, as the comment at line 16 says, and read the path otherwise | high, not executed | Navbar.CurrentPageAsWritten, Navbar.TransportMapHighlightsTripPlanner | Navbar.CurrentPage, Navbar.OwnPageHighlighted |
| app/rides/page.tsx:181-191 | a finished search replaces the distance but not `estimatedPrice`, which only `handleSelectRide` sets; after "Back" the earlier selection survives, so Confirm is enabled | search 5 km, pick Mini Cab (110), Back, search again with 10 km, Confirm: the confirmation shows 10 km, Mini Cab and a total of 110; the card just showed 170 | re-price the selected ride whenever the distance changes | medium, not executed | Rides.LoadAsWritten, Rides.StalePriceAsWritten, Rides.RebookingPaymentAmounts | Rides.Load, Rides.StepKeepsPriceCurrent, Rides.RebookingPriceCorrected, Rides.PaymentChargesChosenRide |
