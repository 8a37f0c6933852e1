/** The trip planner: the search form over the gazetteer without
    "SRM University", three fixed route options of which one is active, and
    a results panel that a finished search, or a link carrying both places,
    reveals. */
module TripPlanner {
  import opened Seqs
  import opened Text
  import opened Suggest
  import Gazetteer

  datatype Route = Route(id: int, name: string, duration: nat, price: nat, transfers: nat)

  /** `ROUTE_OPTIONS`: durations in minutes, prices in rupees. */
  const RouteOptions: seq<Route> := [
    Route(1, "Fastest Route", 65, 140, 2),
    Route(2, "Cheapest Route", 75, 100, 3),
    Route(3, "Least Transfers", 80, 180, 1)
  ]

  const InitialRouteId: int := 1

  function HasId(id: int): Route -> bool {
    (route: Route) => route.id == id
  }

  predicate UniqueIds(routes: seq<Route>) {
    forall i, j | 0 <= i < j < |routes| :: routes[i].id != routes[j].id
  }

  /** The "Total Fare" cell: `find(route => route.id === activeRouteId)?.price`,
      absent when no route has that id. */
  function TotalFare(routes: seq<Route>, activeId: int): (r: Option<nat>)
    ensures r.None? <==> forall i | 0 <= i < |routes| :: routes[i].id != activeId
    ensures r.Some? ==> exists i | 0 <= i < |routes| :: routes[i].id == activeId && routes[i].price == r.value
  {
    match FindFirst(HasId(activeId), routes)
    case None => None
    case Some(route) => Some(route.price)
  }

  /** With distinct ids, the total fare of a route's id is that route's price. */
  lemma FareOfRoute(routes: seq<Route>, k: nat)
    requires UniqueIds(routes) && k < |routes|
    ensures TotalFare(routes, routes[k].id) == Some(routes[k].price)
  {
    var r := TotalFare(routes, routes[k].id);
    assert r.Some?;
    var i :| 0 <= i < |routes| && routes[i].id == routes[k].id && routes[i].price == r.value;
    assert i == k;
  }

  /** Before any click the fastest route is active and the fare shows 140. */
  lemma InitialFare()
    ensures TotalFare(RouteOptions, InitialRouteId) == Some(140)
  {
    FareOfRoute(RouteOptions, 0);
  }

  // ---------------------------------------------------------------------
  // Route card labels.

  /** `Math.floor(d / 60)` hours and `d % 60` minutes. */
  function DurationParts(d: nat): (r: (nat, nat))
    ensures r.0 * 60 + r.1 == d && r.1 < 60
  {
    (d / 60, d % 60)
  }

  /** `${Math.floor(d / 60)}h ${d % 60}m`. */
  function DurationLabel(d: nat): string {
    var (h, m) := DurationParts(d);
    ShowNat(h) + "h " + ShowNat(m) + "m"
  }

  /** The label reads back as hours and minutes that rebuild the duration. */
  lemma DurationLabelReadsBack(d: nat)
    ensures var (h, rest) := ReadNumber(DurationLabel(d));
            |rest| >= 2 && rest[..2] == "h " &&
            var (m, tail) := ReadNumber(rest[2..]);
            tail == "m" && m < 60 && h * 60 + m == d
  {
    var (h, m) := DurationParts(d);
    var minutes := ShowNat(m) + "m";
    assert DurationLabel(d) == ShowNat(h) + ("h " + minutes);
    ReadNumberShowNat(h, "h " + minutes);
    assert ("h " + minutes)[2..] == minutes;
    ReadNumberShowNat(m, "m");
  }

  /** `${t} transfer${t !== 1 ? "s" : ""}`. */
  function TransferLabel(t: nat): (r: string)
    ensures |r| > 0
  {
    ShowNat(t) + " transfer" + (if t != 1 then "s" else "")
  }

  /** The label is plural exactly when the count is not one, and it starts
      with the count. */
  lemma TransferLabelPlural(t: nat)
    ensures var r := TransferLabel(t);
            (r[|r| - 1] == 's' <==> t != 1) &&
            ReadNumber(r).0 == t
  {
    var suffix := " transfer" + (if t != 1 then "s" else "");
    assert TransferLabel(t) == ShowNat(t) + suffix;
    ReadNumberShowNat(t, suffix);
  }

  // ---------------------------------------------------------------------
  // The page's state machine.

  datatype State = State(fields: Fields, activeRouteId: int, loading: bool, searched: bool)

  const Initial := State(EmptyFields, InitialRouteId, false, false)

  datatype Event =
    | Form(e: FieldEvent)
    /** The mount effect, with the `origin` and `destination` query parameters. */
    | Mounted(origin: Option<string>, destination: Option<string>)
    | RouteClicked(id: int)
    /** The form is submitted ("Find Routes", disabled while loading); the
        browser blocks the submit while a `required` place field is empty. */
    | Submitted
    /** The simulated search delay elapses. */
    | SearchFinished

  /** Both place fields hold text, as their `required` attributes demand
      before the form may submit. */
  predicate Filled(s: State) {
    s.fields.origin.text != "" && s.fields.destination.text != ""
  }

  function Step(s: State, e: Event): (r: State)
    ensures e.Mounted? ==>
              r.searched == (s.searched || (Truthy(e.origin) && Truthy(e.destination))) &&
              r.fields.origin.text == (if Truthy(e.origin) then e.origin.value else s.fields.origin.text) &&
              r.fields.destination.text == (if Truthy(e.destination) then e.destination.value else s.fields.destination.text)
    ensures e.RouteClicked? ==> r.activeRouteId == e.id && r.searched == s.searched
    ensures e.Submitted? && Filled(s) ==> r.loading && r.searched == s.searched
    ensures e.Submitted? && !Filled(s) ==> r == s
    ensures e.SearchFinished? && s.loading ==> !r.loading && r.searched
    ensures !e.RouteClicked? ==> r.activeRouteId == s.activeRouteId
  {
    match e
    case Form(fe) => s.(fields := FieldsStep(s.fields, fe, TwoPass, Gazetteer.TripPlannerLocations))
    case Mounted(o, d) =>
      var origin := if Truthy(o) then s.fields.origin.(text := o.value) else s.fields.origin;
      var destination := if Truthy(d) then s.fields.destination.(text := d.value) else s.fields.destination;
      s.(fields := Fields(origin, destination), searched := s.searched || (Truthy(o) && Truthy(d)))
    case RouteClicked(id) => s.(activeRouteId := id)
    case Submitted => if s.loading || !Filled(s) then s else s.(loading := true)
    case SearchFinished => if s.loading then s.(loading := false, searched := true) else s
  }

  /** Results appear on mount exactly when both query parameters are
      present and non-empty. */
  lemma MountShowsResultsIff(o: Option<string>, d: Option<string>)
    ensures Step(Initial, Mounted(o, d)).searched <==> Truthy(o) && Truthy(d)
  {
  }

  /** Once shown, the results never disappear. */
  lemma ResultsStayShown(s: State, e: Event)
    requires s.searched
    ensures Step(s, e).searched
  {
  }

  /** Clicking a route card makes the total fare that route's price. */
  lemma ClickedRouteFare(s: State, k: nat)
    requires k < |RouteOptions|
    ensures TotalFare(RouteOptions, Step(s, RouteClicked(RouteOptions[k].id)).activeRouteId) == Some(RouteOptions[k].price)
  {
    FareOfRoute(RouteOptions, k);
  }

  /** A search submitted with both places filled in always ends with the
      results shown. */
  lemma SearchShowsResults(s: State)
    requires Filled(s)
    ensures Step(Step(s, Submitted), SearchFinished).searched
  {
  }

  /** With a place left empty, "Find Routes" does nothing and the timer
      that would show results never starts. */
  lemma EmptySubmitIsNoOp(s: State)
    requires !Filled(s) && !s.loading
    ensures Step(s, Submitted) == s
    ensures Step(Step(s, Submitted), SearchFinished) == s
  {
  }

  predicate Ok(s: State) {
    FieldsOk(s.fields, Gazetteer.TripPlannerLocations)
  }

  lemma StepKeepsOk(s: State, e: Event)
    requires Ok(s)
    ensures Ok(Step(s, e))
  {
    if e.Form? {
      FieldsStepKeepsOk(s.fields, e.e, TwoPass, Gazetteer.TripPlannerLocations);
    }
  }
}
