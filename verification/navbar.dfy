/** The navigation bar: which of the five pages it highlights, derived from
    an optional page name passed by the page and the current path, and the
    mobile menu's open flag. */
module Navbar {
  import opened Seqs

  datatype Page = TripPlannerPage | TransportMapPage | RidesPage | BookingsPage | ProfilePage

  /** The route each page lives at. */
  function PathOf(p: Page): string {
    match p
    case TripPlannerPage => "/trip-planner"
    case TransportMapPage => "/transport-map"
    case RidesPage => "/rides"
    case BookingsPage => "/bookings"
    case ProfilePage => "/profile"
  }

  /** The chain of `pathname === ...` tests: the page whose route is the
      path, or nothing for any other path. */
  function PageOfPath(path: string): (r: Option<Page>)
    ensures r.Some? ==> PathOf(r.value) == path
    ensures r.None? <==> forall p: Page :: PathOf(p) != path
  {
    if path == "/trip-planner" then Some(TripPlannerPage)
    else if path == "/transport-map" then Some(TransportMapPage)
    else if path == "/rides" then Some(RidesPage)
    else if path == "/bookings" then Some(BookingsPage)
    else if path == "/profile" then Some(ProfilePage)
    else None
  }

  /** Reading a page's own route gives the page back. */
  lemma PageOfPathOf(p: Page)
    ensures PageOfPath(PathOf(p)) == Some(p)
  {
  }

  /** `activePage || pathname === "/trip-planner" ? "trip-planner" : ...`
      as JavaScript parses it: `||` binds tighter than `?:`, so any page
      name passed in, and the trip planner's route, select the trip planner;
      only without a name does the rest of the chain read the path. */
  function CurrentPageAsWritten(active: Option<Page>, path: string): (r: Option<Page>)
    ensures active.Some? ==> r == Some(TripPlannerPage)
    ensures active.None? ==> r == PageOfPath(path)
  {
    if active.Some? || path == "/trip-planner" then Some(TripPlannerPage)
    else PageOfPath(path)
  }

  /** The transport map passes its own name and sits at its own route, yet
      the bar as written highlights the trip planner. */
  lemma TransportMapHighlightsTripPlanner()
    ensures CurrentPageAsWritten(Some(TransportMapPage), PathOf(TransportMapPage)) == Some(TripPlannerPage)
  {
  }

  /** The derivation the comment above it describes: the page name when one
      is passed, otherwise the page read from the path. */
  function CurrentPage(active: Option<Page>, path: string): (r: Option<Page>)
    ensures active.Some? ==> r == active
    ensures active.None? && r.Some? ==> PathOf(r.value) == path
    ensures active.None? && r.None? ==> forall p: Page :: PathOf(p) != path
  {
    if active.Some? then active else PageOfPath(path)
  }

  /** Every page is highlighted on its own route, whether or not it passes
      its name. */
  lemma OwnPageHighlighted(p: Page)
    ensures CurrentPage(Some(p), PathOf(p)) == Some(p)
    ensures CurrentPage(None, PathOf(p)) == Some(p)
  {
    PageOfPathOf(p);
  }

  /** Pages that pass no name see the same highlight either way; only the
      pages that pass a name other than the trip planner's are affected. */
  lemma AsWrittenAgreesWithoutName(active: Option<Page>, path: string)
    ensures (CurrentPageAsWritten(active, path) == CurrentPage(active, path)) <==> (active.None? || active == Some(TripPlannerPage))
  {
  }

  // ---------------------------------------------------------------------
  // The mobile menu.

  datatype Event =
    /** The hamburger button. */
    | MenuToggled
    /** One of the five links in the open mobile menu. */
    | LinkClicked(p: Page)

  /** `toggleMobileMenu` negates the flag; every mobile link closes the menu. */
  function MenuStep(open: bool, e: Event): (r: bool)
    ensures e.LinkClicked? ==> !r
    ensures e.MenuToggled? ==> r != open
  {
    match e
    case MenuToggled => !open
    case LinkClicked(_) => false
  }

  /** Toggling twice restores the menu. */
  lemma ToggleTwice(open: bool)
    ensures MenuStep(MenuStep(open, MenuToggled), MenuToggled) == open
  {
  }
}
