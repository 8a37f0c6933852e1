/** The place-name lists the autocomplete fields search. Each screen carries
    its own copy: the home page has 44 names, the trip planner the same list
    without "SRM University", and the ride-booking screen only the first 23. */
module Gazetteer {
  import opened Seqs

  /** `CHENNAI_LOCATIONS` of the home page. */
  const HomeLocations: seq<string> := [
    "T Nagar", "Anna Nagar", "Adyar", "Velachery", "Tambaram",
    "Porur", "Nungambakkam", "Guindy", "Egmore", "Mylapore",
    "Besant Nagar", "Chromepet", "Chennai Central", "Koyambedu",
    "Vadapalani", "Chennai Airport", "Mount Road", "Perambur",
    "Ambattur", "Sholinganallur", "OMR", "ECR", "Pallavaram",
    "Perungudi", "Thiruvanmiyur", "Kilpauk", "Choolaimedu",
    "Royapettah", "Chetpet", "Kodambakkam", "West Mambalam",
    "Saidapet", "Madipakkam", "Thoraipakkam", "Pallikaranai",
    "Meenambakkam", "Nanganallur", "Ashok Nagar", "KK Nagar",
    "Valasaravakkam", "Mogappair", "Marina Beach", "Poonamallee", "SRM University"
  ]

  /** `CHENNAI_LOCATIONS` of the trip planner. */
  const TripPlannerLocations: seq<string> := [
    "T Nagar", "Anna Nagar", "Adyar", "Velachery", "Tambaram",
    "Porur", "Nungambakkam", "Guindy", "Egmore", "Mylapore",
    "Besant Nagar", "Chromepet", "Chennai Central", "Koyambedu",
    "Vadapalani", "Chennai Airport", "Mount Road", "Perambur",
    "Ambattur", "Sholinganallur", "OMR", "ECR", "Pallavaram",
    "Perungudi", "Thiruvanmiyur", "Kilpauk", "Choolaimedu",
    "Royapettah", "Chetpet", "Kodambakkam", "West Mambalam",
    "Saidapet", "Madipakkam", "Thoraipakkam", "Pallikaranai",
    "Meenambakkam", "Nanganallur", "Ashok Nagar", "KK Nagar",
    "Valasaravakkam", "Mogappair", "Marina Beach", "Poonamallee"
  ]

  /** `CHENNAI_LOCATIONS` of the ride-booking screen. */
  const RideLocations: seq<string> := [
    "T Nagar", "Anna Nagar", "Adyar", "Velachery", "Tambaram",
    "Porur", "Nungambakkam", "Guindy", "Egmore", "Mylapore",
    "Besant Nagar", "Chromepet", "Chennai Central", "Koyambedu",
    "Vadapalani", "Chennai Airport", "Mount Road", "Perambur",
    "Ambattur", "Sholinganallur", "OMR", "ECR", "Pallavaram"
  ]

  /** The home page list is the trip planner's plus "SRM University". */
  lemma HomeExtendsTripPlanner()
    ensures HomeLocations == TripPlannerLocations + ["SRM University"]
  {
  }

  /** The ride-booking list is the first 23 names of the trip planner's. */
  lemma RidesArePrefix()
    ensures RideLocations == TripPlannerLocations[..23]
  {
  }

  lemma TripPlannerLacksSrm()
    ensures "SRM University" !in TripPlannerLocations
  {
  }

  // ---------------------------------------------------------------------
  // No list names a place twice. The trip planner's list is checked in
  // chunks: the ride-booking names, then the 20 names after them.

  lemma RideDistinct()
    ensures NoDup(RideLocations)
  {
  }

  lemma LaterNamesDistinct()
    ensures NoDup(TripPlannerLocations[23..])
  {
  }

  lemma EarlyRideNamesNotLater()
    ensures Disjoint(RideLocations[..12], TripPlannerLocations[23..])
  {
  }

  lemma LateRideNamesNotLater()
    ensures Disjoint(RideLocations[12..], TripPlannerLocations[23..])
  {
  }

  lemma TripPlannerDistinct()
    ensures NoDup(TripPlannerLocations)
  {
    var a, b := TripPlannerLocations[..23], TripPlannerLocations[23..];
    RidesArePrefix();
    RideDistinct();
    LaterNamesDistinct();
    EarlyRideNamesNotLater();
    LateRideNamesNotLater();
    assert Disjoint(a, b) by {
      forall i, j | 0 <= i < |a| && 0 <= j < |b|
        ensures a[i] != b[j]
      {
        if i < 12 {
          assert a[i] == RideLocations[..12][i];
        } else {
          assert a[i] == RideLocations[12..][i - 12];
        }
      }
    }
    NoDupAppend(a, b);
    assert a + b == TripPlannerLocations;
  }

  lemma HomeDistinct()
    ensures NoDup(HomeLocations)
  {
    HomeExtendsTripPlanner();
    TripPlannerLacksSrm();
    TripPlannerDistinct();
    NoDupAppend(TripPlannerLocations, ["SRM University"]);
  }
}
