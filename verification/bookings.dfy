/** The bookings list: mock bookings shown under an "upcoming" or a
    "completed" tab, and a cancel action that, once confirmed, marks every
    booking with the given id completed. */
module Bookings {
  import opened Seqs

  datatype Status = Upcoming | Completed

  /** A booking. Dates, times and transport icons are left out. */
  datatype Booking = Booking(id: int, from: string, to: string, status: Status, price: nat, driver: string)

  /** `MOCK_BOOKINGS`. */
  const MockBookings: seq<Booking> := [
    Booking(1, "Anna Nagar", "Mount Road", Completed, 350, "Rahul S."),
    Booking(2, "T Nagar", "Chennai Airport", Upcoming, 420, "Priya M."),
    Booking(3, "Velachery", "Central Station", Upcoming, 280, "Karthik R."),
    Booking(4, "Adyar", "Besant Nagar", Completed, 150, "Vikram S."),
    Booking(5, "Egmore", "Marina Beach", Upcoming, 200, "Kumar P.")
  ]

  /** The page opens on the "upcoming" tab. */
  const InitialTab: Status := Upcoming

  function HasStatus(tab: Status): Booking -> bool {
    (b: Booking) => b.status == tab
  }

  /** `bookings.filter(booking => booking.status === activeTab)`. */
  function Visible(bookings: seq<Booking>, tab: Status): (r: seq<Booking>)
    ensures forall b :: b in r <==> b in bookings && b.status == tab
    ensures SubseqOf(r, bookings)
  {
    FilterIsSubseq(HasStatus(tab), bookings);
    Filter(HasStatus(tab), bookings)
  }

  /** The two tabs split the list: every booking is shown under exactly one. */
  lemma TabsPartition(bookings: seq<Booking>)
    ensures |Visible(bookings, Upcoming)| + |Visible(bookings, Completed)| == |bookings|
    ensures multiset(Visible(bookings, Upcoming)) + multiset(Visible(bookings, Completed)) == multiset(bookings)
  {
    var up := HasStatus(Upcoming);
    FilterPartition(up, bookings);
    forall i | 0 <= i < |bookings|
      ensures Not(up)(bookings[i]) == HasStatus(Completed)(bookings[i])
    {
    }
    FilterCongruent(Not(up), HasStatus(Completed), bookings);
  }

  /** Completing one booking if it carries `id`. */
  function CancelOne(b: Booking, id: int): Booking {
    if b.id == id then b.(status := Completed) else b
  }

  /** `bookings.map(booking => booking.id === id ? {...booking, status: "completed"} : booking)`. */
  function Cancel(bookings: seq<Booking>, id: int): (r: seq<Booking>)
    ensures |r| == |bookings|
    ensures forall i | 0 <= i < |r| :: r[i] == CancelOne(bookings[i], id)
    decreases |bookings|
  {
    if |bookings| == 0 then []
    else [CancelOne(bookings[0], id)] + Cancel(bookings[1..], id)
  }

  /** Cancelling changes only the status of the bookings with that id: every
      other field, every other booking, the length and the order stay. */
  lemma CancelChangesOnlyStatus(bookings: seq<Booking>, id: int)
    ensures var r := Cancel(bookings, id);
            forall i | 0 <= i < |r| ::
              r[i].(status := bookings[i].status) == bookings[i] &&
              (bookings[i].id != id ==> r[i] == bookings[i]) &&
              (bookings[i].id == id ==> r[i].status == Completed)
  {
  }

  /** Cancelling twice is cancelling once. */
  lemma CancelIdempotent(bookings: seq<Booking>, id: int)
    ensures Cancel(Cancel(bookings, id), id) == Cancel(bookings, id)
  {
  }

  function HasOtherId(id: int): Booking -> bool {
    (b: Booking) => b.id != id
  }

  /** After a cancel the "upcoming" tab shows the same bookings minus those
      with the cancelled id. */
  lemma {:induction false} CancelLeavesUpcoming(bookings: seq<Booking>, id: int)
    ensures Visible(Cancel(bookings, id), Upcoming) == Filter(HasOtherId(id), Visible(bookings, Upcoming))
    decreases |bookings|
  {
    if |bookings| > 0 {
      var b, rest := bookings[0], bookings[1..];
      CancelLeavesUpcoming(rest, id);
      assert Cancel(bookings, id) == [CancelOne(b, id)] + Cancel(rest, id);
      FilterAppend(HasStatus(Upcoming), [CancelOne(b, id)], Cancel(rest, id));
      assert bookings == [b] + rest;
      FilterAppend(HasStatus(Upcoming), [b], rest);
      FilterAppend(HasOtherId(id), Filter(HasStatus(Upcoming), [b]), Filter(HasStatus(Upcoming), rest));
    }
  }

  /** The cancelled bookings show up under "completed". */
  lemma CancelShowsCompleted(bookings: seq<Booking>, id: int, i: nat)
    requires i < |bookings| && bookings[i].id == id
    ensures bookings[i].(status := Completed) in Visible(Cancel(bookings, id), Completed)
  {
    assert Cancel(bookings, id)[i] == bookings[i].(status := Completed);
  }

  /** `handleCancelRide`: nothing happens unless the confirmation is accepted. */
  function HandleCancel(bookings: seq<Booking>, id: int, confirmed: bool): (r: seq<Booking>)
    ensures !confirmed ==> r == bookings
    ensures confirmed ==> r == Cancel(bookings, id)
  {
    if confirmed then Cancel(bookings, id) else bookings
  }

  /** A card offers "Cancel" for an upcoming booking and "Book Again" for
      a completed one. These transcribe the markup's status tests; the
      lemma below relates them to the tab filter, not to an independent
      definition. */
  predicate OffersCancel(b: Booking) {
    b.status == Upcoming
  }

  predicate OffersBookAgain(b: Booking) {
    b.status == Completed
  }

  /** Under "upcoming" every card offers cancelling and none offers booking
      again; under "completed" it is the other way round. */
  lemma TabActions(bookings: seq<Booking>)
    ensures forall b | b in Visible(bookings, Upcoming) :: OffersCancel(b) && !OffersBookAgain(b)
    ensures forall b | b in Visible(bookings, Completed) :: OffersBookAgain(b) && !OffersCancel(b)
  {
  }

  /** Five bookings with the mock data's statuses (completed, then two
      upcoming, then completed, then upcoming): the "upcoming" tab shows the
      2nd, 3rd and 5th, and cancelling the 2nd's id leaves the 3rd and 5th. */
  lemma UpcomingOfFive(s: seq<Booking>)
    requires |s| == 5
    requires s[0].status == Completed && s[1].status == Upcoming && s[2].status == Upcoming
    requires s[3].status == Completed && s[4].status == Upcoming
    requires s[2].id != s[1].id && s[4].id != s[1].id
    ensures Visible(s, Upcoming) == [s[1], s[2], s[4]]
    ensures Visible(HandleCancel(s, s[1].id, true), Upcoming) == [s[2], s[4]]
  {
    VisibleOfFive(s);
    var v := Visible(s, Upcoming);
    CancelLeavesUpcoming(s, s[1].id);
    FilterUnroll(HasOtherId(s[1].id), v);
    assert v[1..] == [s[2], s[4]];
    FilterAll(HasOtherId(s[1].id), v[1..]);
  }

  lemma VisibleOfFive(s: seq<Booking>)
    requires |s| == 5
    requires s[0].status == Completed && s[1].status == Upcoming && s[2].status == Upcoming
    requires s[3].status == Completed && s[4].status == Upcoming
    ensures Visible(s, Upcoming) == [s[1], s[2], s[4]]
  {
    var up := HasStatus(Upcoming);
    FilterUnroll(up, s[4..]);
    assert s[4..][1..] == [];
    FilterUnroll(up, s[3..]);
    assert s[3..][1..] == s[4..];
    FilterUnroll(up, s[2..]);
    assert s[2..][1..] == s[3..];
    FilterUnroll(up, s[1..]);
    assert s[1..][1..] == s[2..];
    FilterUnroll(up, s);
  }

  /** On the mock data the page opens showing bookings 2, 3 and 5;
      cancelling booking 2 leaves 3 and 5. */
  lemma MockUpcoming()
    ensures Visible(MockBookings, InitialTab) == [MockBookings[1], MockBookings[2], MockBookings[4]]
    ensures Visible(HandleCancel(MockBookings, 2, true), Upcoming) == [MockBookings[2], MockBookings[4]]
  {
    UpcomingOfFive(MockBookings);
  }

  lemma FilterUnroll<T(!new)>(f: T -> bool, s: seq<T>)
    requires |s| > 0
    ensures Filter(f, s) == (if f(s[0]) then [s[0]] else []) + Filter(f, s[1..])
  {
  }
}
