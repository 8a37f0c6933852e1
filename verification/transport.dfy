/** The live transport map: a fixed fleet of vehicles, a type filter and a
    case-insensitive search that narrow the list, a selected vehicle looked up
    in the whole fleet, and its occupancy shown as a rounded percentage and a
    colour band. Positions, the clock and the map itself are left out. */
module Transport {
  import opened Seqs
  import opened Text
  import opened Numeric

  /** A vehicle; `kind` is the source's `type` ("bus", "metro" or "train").
      Coordinates, speed, heading, punctuality and next stop are left out. */
  datatype Vehicle = Vehicle(id: int, kind: string, number: string, route: string, capacity: nat, current: nat)

  /** `TRANSPORT_VEHICLES`. */
  const Vehicles: seq<Vehicle> := [
    Vehicle(1, "bus", "B101", "Downtown - North Square", 75, 40),
    Vehicle(2, "bus", "B205", "Uptown Express", 60, 55),
    Vehicle(3, "metro", "M2", "Blue Line", 200, 180),
    Vehicle(4, "metro", "M5", "Green Line", 180, 120),
    Vehicle(5, "train", "T3", "Express Regional", 350, 290)
  ]

  /** The type filter that shows every vehicle. */
  const AllKinds: string := "all"

  // ---------------------------------------------------------------------
  // The list filter.

  predicate MatchesKind(v: Vehicle, kind: string) {
    kind == AllKinds || v.kind == kind
  }

  /** The lower-cased query occurs in the lower-cased number or route. */
  predicate MatchesSearch(v: Vehicle, query: string) {
    Includes(Lower(v.number), Lower(query)) || Includes(Lower(v.route), Lower(query))
  }

  function Shown(kind: string, query: string): Vehicle -> bool {
    (v: Vehicle) => MatchesKind(v, kind) && MatchesSearch(v, query)
  }

  /** `filteredVehicles`: the vehicles of the chosen type whose number or
      route contains the query, in fleet order. */
  function FilteredVehicles(vehicles: seq<Vehicle>, kind: string, query: string): (r: seq<Vehicle>)
    ensures forall v :: v in r <==> v in vehicles && MatchesKind(v, kind) && MatchesSearch(v, query)
    ensures SubseqOf(r, vehicles)
  {
    FilterIsSubseq(Shown(kind, query), vehicles);
    Filter(Shown(kind, query), vehicles)
  }

  /** The initial filter, every type and an empty query, shows the whole fleet. */
  lemma ShowAllByDefault(vehicles: seq<Vehicle>)
    ensures FilteredVehicles(vehicles, AllKinds, "") == vehicles
  {
    forall i | 0 <= i < |vehicles|
      ensures Shown(AllKinds, "")(vehicles[i])
    {
      IncludesTrivial(Lower(vehicles[i].number));
    }
    FilterAll(Shown(AllKinds, ""), vehicles);
  }

  /** The search ignores the letter case of the query. */
  lemma SearchIgnoresCase(vehicles: seq<Vehicle>, kind: string, query: string)
    ensures FilteredVehicles(vehicles, kind, Lower(query)) == FilteredVehicles(vehicles, kind, query)
  {
    LowerIdempotent(query);
    FilterCongruent(Shown(kind, Lower(query)), Shown(kind, query), vehicles);
  }

  // ---------------------------------------------------------------------
  // The selected vehicle.

  function HasId(id: int): Vehicle -> bool {
    (v: Vehicle) => v.id == id
  }

  /** `selectedVehicleId ? TRANSPORT_VEHICLES.find(v => v.id === selectedVehicleId) : null`:
      no selection, and the falsy id 0, select nothing; otherwise the first
      vehicle of the whole fleet with that id, filtered out or not. */
  function SelectedVehicle(vehicles: seq<Vehicle>, id: Option<int>): (r: Option<Vehicle>)
    ensures id.None? ==> r.None?
    ensures r.Some? ==> r.value in vehicles && id == Some(r.value.id) && r.value.id != 0
    ensures id.Some? && id.value != 0 ==> (r.None? <==> forall i | 0 <= i < |vehicles| :: vehicles[i].id != id.value)
  {
    if id.None? || id.value == 0 then None
    else FindFirst(HasId(id.value), vehicles)
  }

  /** A vehicle the filter hides stays selected: picking bus B101 and then
      the metro filter keeps B101 in the details panel while the list no
      longer shows it. */
  lemma SelectionOutlivesFilter()
    ensures SelectedVehicle(Vehicles, Some(1)) == Some(Vehicles[0])
    ensures Vehicles[0] !in FilteredVehicles(Vehicles, "metro", "")
  {
  }

  // ---------------------------------------------------------------------
  // Occupancy.

  /** `currentCapacity / capacity`. A vehicle with no capacity is left out. */
  function Ratio(current: nat, capacity: nat): real
    requires capacity > 0
  {
    current as real / capacity as real
  }

  /** `Math.round((currentCapacity / capacity) * 100)`. */
  function OccupancyPercent(current: nat, capacity: nat): (r: int)
    requires capacity > 0
    ensures r == (200 * current + capacity) / (2 * capacity)
    ensures current <= capacity ==> 0 <= r <= 100
  {
    assert Ratio(current, capacity) * 100.0 == (100 * current) as real / capacity as real;
    RoundQuotient(100 * current, capacity);
    PercentBounds(current, capacity);
    Round(Ratio(current, capacity) * 100.0)
  }

  lemma PercentBounds(current: nat, capacity: nat)
    requires capacity > 0
    ensures 0 <= (200 * current + capacity) / (2 * capacity)
    ensures current <= capacity ==> (200 * current + capacity) / (2 * capacity) <= 100
  {
    if current <= capacity {
      assert 200 * current + capacity < 101 * (2 * capacity);
    }
  }

  /** `ratio > t` for a rational threshold `t = num / den` is `current * den > num * capacity`. */
  lemma RatioAbove(current: nat, capacity: nat, num: nat, den: nat)
    requires capacity > 0 && den > 0
    ensures Ratio(current, capacity) > num as real / den as real <==> current * den > num * capacity
  {
    var x, t := Ratio(current, capacity), num as real / den as real;
    var C, D := capacity as real, den as real;
    assert x * C == current as real;
    assert t * D == num as real;
    assert (current * den) as real == x * C * D;
    assert (num * capacity) as real == t * D * C;
    if x > t {
      assert x * (C * D) > t * (C * D);
    } else {
      assert x * (C * D) <= t * (C * D);
    }
  }

  datatype Band = Red | Yellow | Green

  /** The occupancy bar's colour: red above 0.8, yellow above 0.5, green otherwise. */
  function OccupancyBand(current: nat, capacity: nat): (r: Band)
    requires capacity > 0
    ensures r == Red <==> 5 * current > 4 * capacity
    ensures r == Yellow <==> 2 * current > capacity && 5 * current <= 4 * capacity
    ensures r == Green <==> 2 * current <= capacity
  {
    RatioAbove(current, capacity, 4, 5);
    RatioAbove(current, capacity, 1, 2);
    assert 0.8 == 4 as real / 5 as real;
    assert 0.5 == 1 as real / 2 as real;
    var ratio := Ratio(current, capacity);
    if ratio > 0.8 then Red else if ratio > 0.5 then Yellow else Green
  }

  /** The colour agrees with the percentage printed beside it: red shows at
      least 80, yellow 50 to 80, green at most 50. */
  lemma BandAgreesWithPercent(current: nat, capacity: nat)
    requires capacity > 0
    ensures OccupancyBand(current, capacity) == Red ==> OccupancyPercent(current, capacity) >= 80
    ensures OccupancyBand(current, capacity) == Yellow ==> 50 <= OccupancyPercent(current, capacity) <= 80
    ensures OccupancyBand(current, capacity) == Green ==> OccupancyPercent(current, capacity) <= 50
  {
    var p := OccupancyPercent(current, capacity);
    var n, d := 200 * current + capacity, 2 * capacity;
    if 5 * current > 4 * capacity {
      assert n >= 80 * d;
      QuotientAtLeast(n, d, 80);
    }
    if 2 * current > capacity {
      assert n >= 50 * d;
      QuotientAtLeast(n, d, 50);
    }
    if 5 * current <= 4 * capacity {
      assert n < 81 * d;
      QuotientBelow(n, d, 81);
    }
    if 2 * current <= capacity {
      assert n < 51 * d;
      QuotientBelow(n, d, 51);
    }
  }

  lemma QuotientAtLeast(n: nat, d: nat, k: nat)
    requires d > 0 && n >= k * d
    ensures n / d >= k
  {
    var q := n / d;
    assert n == q * d + n % d;
    if q < k {
      MulMonotone(q + 1, k, d);
      assert false;
    }
  }

  lemma QuotientBelow(n: nat, d: nat, k: nat)
    requires d > 0 && n < k * d
    ensures n / d < k
  {
    var q := n / d;
    assert n == q * d + n % d;
    if q >= k {
      MulMonotone(k, q, d);
      assert false;
    }
  }

  lemma MulMonotone(a: nat, b: nat, d: nat)
    requires a <= b
    ensures a * d <= b * d
  {
    assert b * d == a * d + (b - a) * d;
  }

  /** Bus B205, 55 riders in 60 seats, shows 92% in red; bus B101, 40 in 75,
      shows 53% in yellow. */
  lemma FleetOccupancy()
    ensures OccupancyPercent(55, 60) == 92 && OccupancyBand(55, 60) == Red
    ensures OccupancyPercent(40, 75) == 53 && OccupancyBand(40, 75) == Yellow
  {
  }

  // ---------------------------------------------------------------------
  // The page's state machine.

  datatype State = State(selectedId: Option<int>, kind: string, query: string, simulating: bool)

  const Initial := State(None, AllKinds, "", true)

  datatype Event =
    | SearchTyped(query: string)
    /** One of the "All", "Bus", "Metro" and "Train" buttons. */
    | KindClicked(kind: string)
    /** A list entry or a map marker. */
    | VehicleClicked(id: int)
    /** The pause/play button. */
    | SimulationToggled

  function Step(s: State, e: Event): (r: State)
    ensures !e.VehicleClicked? ==> r.selectedId == s.selectedId
    ensures e.VehicleClicked? ==> r.selectedId == Some(e.id) && r.kind == s.kind && r.query == s.query
    ensures e.SimulationToggled? ==> r.simulating != s.simulating
  {
    match e
    case SearchTyped(q) => s.(query := q)
    case KindClicked(k) => s.(kind := k)
    case VehicleClicked(id) => s.(selectedId := Some(id))
    case SimulationToggled => s.(simulating := !s.simulating)
  }

  function Details(s: State): Option<Vehicle> {
    SelectedVehicle(Vehicles, s.selectedId)
  }

  /** Changing the filters never changes the details panel. */
  lemma FiltersKeepDetails(s: State, e: Event)
    requires e.SearchTyped? || e.KindClicked? || e.SimulationToggled?
    ensures Details(Step(s, e)) == Details(s)
  {
  }

  predicate UniqueIds(vehicles: seq<Vehicle>) {
    forall i, j | 0 <= i < j < |vehicles| :: vehicles[i].id != vehicles[j].id
  }

  /** Clicking a listed vehicle with a non-zero id shows that vehicle's
      details, when ids are distinct. */
  lemma ClickShowsVehicle(vehicles: seq<Vehicle>, k: nat)
    requires UniqueIds(vehicles) && k < |vehicles| && vehicles[k].id != 0
    ensures SelectedVehicle(vehicles, Some(vehicles[k].id)) == Some(vehicles[k])
  {
    var r := SelectedVehicle(vehicles, Some(vehicles[k].id));
    assert r.Some?;
    var i :| 0 <= i < |vehicles| && vehicles[i] == r.value;
    assert vehicles[i].id == vehicles[k].id;
    assert i == k;
  }
}
