/** Ride tracking: a countdown to the pickup time that flips a waiting
    ride to in progress, and a once-a-second movement tick that advances the
    driver along the route's waypoints until the ride completes. The clock is
    a parameter; positions are exact reals. */
module Tracking {
  import opened Text
  import opened Numeric

  datatype Status = Waiting | InProgress | Completed

  /** Statuses in the order a ride goes through them. */
  function Rank(s: Status): nat {
    match s
    case Waiting => 0
    case InProgress => 1
    case Completed => 2
  }

  datatype Point = Point(lat: real, lng: real)

  /** The route's waypoints: Chennai Central, Anna Nagar, a midpoint, Mount Road. */
  const Waypoints: seq<Point> := [
    Point(13.0827, 80.2707),
    Point(13.0569, 80.2425),
    Point(13.0543, 80.2650),
    Point(13.0660, 80.2611)
  ]

  /** Progress is a percentage; each movement tick adds this much. */
  const FullProgress: nat := 100
  const ProgressStep: nat := 2

  datatype Ride = Ride(status: Status, progress: nat, index: nat, position: Point)

  /** The mock ride: in progress, a quarter of the way, at Anna Nagar. */
  const Initial := Ride(InProgress, 25, 1, Point(13.0569, 80.2425))

  // ---------------------------------------------------------------------
  // Where along the route a progress value lies.

  /** `Math.min(n - 1, Math.floor(p / 100 * (n - 1) + 1))`: the waypoint
      the driver is heading for. */
  function PointIndex(p: nat, n: nat): (r: nat)
    requires n >= 2 && p <= FullProgress
    ensures 1 <= r <= n - 1
  {
    Min(n - 1, p * (n - 1) / 100 + 1)
  }

  /** `p / 100 * (n - 1)`: how many legs of the route are behind. */
  function Legs(p: nat, n: nat): real {
    p as real / 100.0 * (n - 1) as real
  }

  /** The integer index agrees with the page's floating-point formula. */
  lemma PointIndexIsFloor(p: nat, n: nat)
    requires n >= 2 && p <= FullProgress
    ensures PointIndex(p, n) == Min(n - 1, (Legs(p, n) + 1.0).Floor)
  {
    LegsIsQuotient(p, n);
    FloorQuotient(p * (n - 1), 100);
    FloorIs(Legs(p, n) + 1.0, p * (n - 1) / 100 + 1);
  }

  lemma LegsIsQuotient(p: nat, n: nat)
    requires n >= 2
    ensures Legs(p, n) == (p * (n - 1)) as real / 100 as real
    ensures 0.0 <= Legs(p, n)
    ensures p <= FullProgress ==> Legs(p, n) <= (n - 1) as real
  {
    assert (p * (n - 1)) as real == p as real * (n - 1) as real;
    if p <= FullProgress {
      assert p as real / 100.0 <= 1.0;
    }
  }

  /** `p / 100 * (n - 1) - (pointIndex - 1)`: how far along the current
      leg the driver is. */
  function Fraction(p: nat, n: nat): (r: real)
    requires n >= 2 && p <= FullProgress
    ensures 0.0 <= r <= 1.0
    ensures p == FullProgress ==> r == 1.0
  {
    FractionBounds(p, n);
    Legs(p, n) - (PointIndex(p, n) - 1) as real
  }

  lemma FractionBounds(p: nat, n: nat)
    requires n >= 2 && p <= FullProgress
    ensures 0.0 <= Legs(p, n) - (PointIndex(p, n) - 1) as real <= 1.0
    ensures p == FullProgress ==> Legs(p, n) - (PointIndex(p, n) - 1) as real == 1.0
  {
    var q := p * (n - 1) / 100;
    LegsIsQuotient(p, n);
    FloorQuotient(p * (n - 1), 100);
    var x := Legs(p, n);
    assert q as real <= x < (q + 1) as real;
    if p == FullProgress {
      assert x == (n - 1) as real;
    }
  }

  /** The point a fraction `f` of the way from `a` to `b`. */
  function Lerp(a: Point, b: Point, f: real): Point {
    Point(a.lat + (b.lat - a.lat) * f, a.lng + (b.lng - a.lng) * f)
  }

  // ---------------------------------------------------------------------
  // The movement tick.

  /** One tick of the driver simulation. A ride at full progress, or
      already completed, is marked completed at 100; otherwise progress grows
      by 2 (capped at 100) and the position is interpolated on the current
      leg. The status is not consulted otherwise: a waiting driver moves too. */
  function MoveTick(r: Ride, points: seq<Point>): (r': Ride)
    requires |points| >= 2
    ensures r'.progress <= FullProgress
    ensures r.progress <= FullProgress ==> r.progress <= r'.progress
    ensures r'.status == Completed <==> r.status == Completed || r.progress >= FullProgress
    ensures r'.status != Completed ==> r'.status == r.status && r'.progress == Min(FullProgress, r.progress + ProgressStep)
    ensures Rank(r.status) <= Rank(r'.status)
    ensures r'.status == Completed ==>
              r'.progress == FullProgress && r'.position == r.position && r'.index == r.index
    ensures r'.status != Completed ==> r'.index == PointIndex(r'.progress, |points|)
  {
    if r.progress >= FullProgress || r.status == Completed then
      r.(status := Completed, progress := FullProgress)
    else
      var n := |points|;
      var p := Min(FullProgress, r.progress + ProgressStep);
      var i := PointIndex(p, n);
      var leg := Lerp(points[i - 1], points[Min(n - 1, i)], Fraction(p, n));
      r.(position := leg, index := i, progress := p)
  }

  /** A completed ride at full progress never changes again. */
  lemma CompletedIsFixedPoint(r: Ride, points: seq<Point>)
    requires |points| >= 2
    requires r.status == Completed && r.progress == FullProgress
    ensures MoveTick(r, points) == r
  {
  }

  /** Reaching full progress puts the driver exactly on the last waypoint. */
  lemma FullProgressAtLastPoint(r: Ride, points: seq<Point>)
    requires |points| >= 2
    requires r.status != Completed && FullProgress - ProgressStep <= r.progress < FullProgress
    ensures MoveTick(r, points).progress == FullProgress
    ensures MoveTick(r, points).position == points[|points| - 1]
  {
    var n := |points|;
    assert PointIndex(FullProgress, n) == n - 1;
  }

  /** The ride after `k` ticks. */
  function Ticks(r: Ride, points: seq<Point>, k: nat): Ride
    requires |points| >= 2
  {
    if k == 0 then r else MoveTick(Ticks(r, points, k - 1), points)
  }

  /** While progress stays below 100 before each tick, every tick adds 2
      and the status does not change. */
  lemma {:induction false} TicksAdvance(r: Ride, points: seq<Point>, k: nat)
    requires |points| >= 2
    requires r.status != Completed && r.progress <= FullProgress
    requires k > 0 ==> r.progress + ProgressStep * (k - 1) < FullProgress
    ensures Ticks(r, points, k).status == r.status
    ensures Ticks(r, points, k).progress == Min(FullProgress, r.progress + ProgressStep * k)
  {
    if k > 0 {
      TicksAdvance(r, points, k - 1);
      var before := Ticks(r, points, k - 1);
      assert before.progress == r.progress + ProgressStep * (k - 1) < FullProgress;
      assert before.progress + ProgressStep == r.progress + ProgressStep * k;
    }
  }

  /** From the mock ride, progress reaches 100 on tick 38, but the ride is
      marked completed only on tick 39. */
  lemma InitialRideCompletes()
    ensures Ticks(Initial, Waypoints, 37).progress == 99
    ensures Ticks(Initial, Waypoints, 38).progress == FullProgress
    ensures Ticks(Initial, Waypoints, 38).status == InProgress
    ensures Ticks(Initial, Waypoints, 39).status == Completed
  {
    TicksAdvance(Initial, Waypoints, 37);
    TicksAdvance(Initial, Waypoints, 38);
  }

  /** Started from zero progress, the ride reaches 100 on tick 50 and is
      marked completed on tick 51. */
  lemma FromZeroCompletes(r: Ride, points: seq<Point>)
    requires |points| >= 2 && r.status != Completed && r.progress == 0
    ensures Ticks(r, points, 49).progress == 98
    ensures Ticks(r, points, 50).progress == FullProgress && Ticks(r, points, 50).status != Completed
    ensures Ticks(r, points, 51).status == Completed
  {
    TicksAdvance(r, points, 49);
    TicksAdvance(r, points, 50);
  }

  // ---------------------------------------------------------------------
  // The countdown.

  /** `Math.max(0, Math.floor((pickup - now) / 1000))`, times in milliseconds. */
  function SecondsLeft(pickupMs: int, nowMs: int): (r: nat)
    ensures r == 0 <==> pickupMs - nowMs < 1000
    ensures r > 0 ==> r * 1000 <= pickupMs - nowMs < (r + 1) * 1000
  {
    var d := (pickupMs - nowMs) / 1000;
    if d < 0 then 0 else d
  }

  /** `${minutes}:${seconds.toString().padStart(2, '0')}`. */
  function CountdownLabel(diff: nat): string {
    ShowNat(diff / 60) + ":" + PadStart(ShowNat(diff % 60), 2, '0')
  }

  /** The label reads back as minutes, a colon and two digits of seconds
      that rebuild the number of seconds left. */
  lemma CountdownLabelReadsBack(diff: nat)
    ensures var (m, rest) := ReadNumber(CountdownLabel(diff));
            |rest| == 3 && rest[0] == ':' &&
            var (s, tail) := ReadNumber(rest[1..]);
            tail == "" && s < 60 && m * 60 + s == diff
  {
    var m, s := diff / 60, diff % 60;
    var shown := ShowNat(s);
    ShowNatBelow100(s);
    var padded := PadStart(shown, 2, '0');
    var zeros := padded[..|padded| - |shown|];
    assert padded == zeros + shown;
    ReadDigitsLeadingZeros(zeros, shown);
    ReadShowNat(s);
    assert CountdownLabel(diff) == ShowNat(m) + (":" + padded);
    ReadNumberShowNat(m, ":" + padded);
    assert (":" + padded)[1..] == padded;
    DigitPrefixOfDigits(padded, "");
    assert padded + "" == padded;
    assert padded[..2] == padded;
  }

  lemma ShowNatBelow100(n: nat)
    requires n < 100
    ensures |ShowNat(n)| <= 2
  {
    if n >= 10 {
      assert ShowNat(n) == ShowNat(n / 10) + [DigitChar(n % 10)];
    }
  }

  /** One countdown tick: a waiting ride whose pickup time has come starts;
      the label shows the time left. */
  function CountdownTick(r: Ride, pickupMs: int, nowMs: int): (res: (Ride, string))
    ensures res.0 == r.(status := res.0.status)
    ensures res.0.status != r.status <==> r.status == Waiting && SecondsLeft(pickupMs, nowMs) == 0
    ensures res.0.status != r.status ==> res.0.status == InProgress
  {
    var diff := SecondsLeft(pickupMs, nowMs);
    var status := if diff <= 0 && r.status == Waiting then InProgress else r.status;
    (r.(status := status), CountdownLabel(diff))
  }

  /** Neither timer ever moves a ride back to an earlier status. */
  lemma StatusNeverGoesBack(r: Ride, points: seq<Point>, pickupMs: int, nowMs: int)
    requires |points| >= 2
    ensures Rank(r.status) <= Rank(MoveTick(r, points).status)
    ensures Rank(r.status) <= Rank(CountdownTick(r, pickupMs, nowMs).0.status)
  {
  }
}
