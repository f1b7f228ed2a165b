/** The registration list: all bookings with a search box, a status selection and a date
    selection, the status buttons and the summary counts. */
module RegistrationList {
  import opened Entities
  import opened Seqs
  import opened BookingStatus

  /** The three filter inputs; an empty date input is `None`. */
  datatype ListFilters = ListFilters(searchTerm: string, statusFilter: string, dateFilter: Option<Day>)

  const NoFilters := ListFilters("", "", None)

  /** `if (dateFilter)`: an empty date keeps every booking, otherwise the date must be that day. */
  predicate PassesDate(v: BookingView, date: Option<Day>)
  {
    date.None? || v.row.bookingDate == date.value
  }

  /** A booking the list keeps under the given filters. */
  predicate Kept(v: BookingView, f: ListFilters)
  {
    PassesSearch(v, f.searchTerm) && PassesStatus(v, f.statusFilter) && PassesDate(v, f.dateFilter)
  }

  /** The list `filterBookings` stores: the bookings every filter keeps, in their order. */
  function Filtered(bookings: seq<BookingView>, f: ListFilters): seq<BookingView>
  {
    Filter(bookings, (v: BookingView) => Kept(v, f))
  }

  /** `filterBookings`: each filter that is set narrows the list in turn. */
  method FilterBookings(bookings: seq<BookingView>, f: ListFilters) returns (filtered: seq<BookingView>)
    ensures filtered == Filtered(bookings, f)
  {
    filtered := bookings;
    if f.searchTerm != "" {
      filtered := Filter(filtered, (v: BookingView) => MatchesSearch(v, f.searchTerm));
    }
    FilterIfFirst(bookings, f.searchTerm != "", (v: BookingView) => MatchesSearch(v, f.searchTerm),
                  (v: BookingView) => PassesSearch(v, f.searchTerm));
    if f.statusFilter != "" {
      filtered := Filter(filtered, HasStatus(f.statusFilter));
    }
    FilterIfNext(bookings, f.statusFilter != "", (v: BookingView) => PassesSearch(v, f.searchTerm), HasStatus(f.statusFilter),
                 (v: BookingView) => PassesSearch(v, f.searchTerm) && PassesStatus(v, f.statusFilter));
    var day := if f.dateFilter.Some? then f.dateFilter.value else 0;
    if f.dateFilter.Some? {
      filtered := Filter(filtered, (v: BookingView) => v.row.bookingDate == day);
    }
    FilterIfNext(bookings, f.dateFilter.Some?, (v: BookingView) => PassesSearch(v, f.searchTerm) && PassesStatus(v, f.statusFilter),
                 (v: BookingView) => v.row.bookingDate == day, (v: BookingView) => Kept(v, f));
  }

  /** The filtered list keeps the bookings' order, is never longer than the full list, and keeps
      a booking exactly when the search, the status and the date all let it through. */
  lemma FilteredExact(bookings: seq<BookingView>, f: ListFilters)
    ensures IsSubseq(Filtered(bookings, f), bookings)
    ensures |Filtered(bookings, f)| <= |bookings|
    ensures forall v :: v in Filtered(bookings, f) <==>
      v in bookings &&
      (f.searchTerm == "" || MatchesSearch(v, f.searchTerm)) &&
      (f.statusFilter == "" || v.row.status == f.statusFilter) &&
      (f.dateFilter.None? || v.row.bookingDate == f.dateFilter.value)
  {
    var keep := (v: BookingView) => Kept(v, f);
    FilterIsSubseq(bookings, keep);
    forall v ensures v in Filtered(bookings, f) <==> v in bookings && keep(v) {
      if v in bookings && keep(v) {
        var k :| 0 <= k < |bookings| && bookings[k] == v;
      }
      if v in Filtered(bookings, f) {
        var k :| 0 <= k < |Filtered(bookings, f)| && Filtered(bookings, f)[k] == v;
      }
    }
  }

  /** With every filter empty the whole list is shown. */
  lemma NoFiltersShowAll(bookings: seq<BookingView>)
    ensures Filtered(bookings, NoFilters) == bookings
  {
    FilterAll(bookings, (v: BookingView) => Kept(v, NoFilters));
  }

  /** The four summary cards. */
  datatype Summary = Summary(pending: nat, confirmed: nat, completed: nat, cancelled: nat)

  function BookingSummary(bookings: seq<BookingView>): (s: Summary)
    ensures s.pending == CountStatus(bookings, Pending) && s.confirmed == CountStatus(bookings, Confirmed)
    ensures s.completed == CountStatus(bookings, Completed) && s.cancelled == CountStatus(bookings, Cancelled)
    ensures s.pending + s.confirmed + s.completed + s.cancelled <= |bookings|
  {
    StatusCountsBounded(bookings);
    Summary(CountStatus(bookings, Pending), CountStatus(bookings, Confirmed),
            CountStatus(bookings, Completed), CountStatus(bookings, Cancelled))
  }

  /** The page: the `bookings` table (kept in the order the list query returns it), the rows it
      embeds, the loaded list, the filters and the filtered list. */
  class RegistrationPage {
    var table: seq<Booking>
    const patients: seq<Patient>
    const doctors: seq<Doctor>
    var bookings: seq<BookingView>
    var filters: ListFilters
    var filtered: seq<BookingView>

    /** The effect on `[bookings, searchTerm, statusFilter, dateFilter]` keeps the filtered list
        current. */
    predicate Valid()
      reads this
    {
      filtered == Filtered(bookings, filters)
    }

    /** The "Showing x of y" line never shows more than the total. */
    lemma ShownAtMostTotal()
      requires Valid()
      ensures |filtered| <= |bookings|
    {
      FilteredExact(bookings, filters);
    }

    constructor (table0: seq<Booking>, patients0: seq<Patient>, doctors0: seq<Doctor>, fetchFails: bool)
      ensures Valid()
      ensures table == table0 && patients == patients0 && doctors == doctors0 && filters == NoFilters
      ensures bookings == if fetchFails then [] else Embed(table0, patients0, doctors0)
      ensures filtered == bookings
    {
      table, patients, doctors := table0, patients0, doctors0;
      bookings := if fetchFails then [] else Embed(table0, patients0, doctors0);
      filters := NoFilters;
      new;
      NoFiltersShowAll(bookings);
      filtered := bookings;
    }

    /** A change of the search box, the status selection or the date. */
    method SetFilters(f: ListFilters)
      modifies this`filters, this`filtered
      ensures Valid() && filters == f
    {
      filters := f;
      filtered := FilterBookings(bookings, f);
    }

    /** `updateBookingStatus` from a button of the list: only an offered transition is requested;
        on success the list is refetched and refiltered. */
    method UpdateBookingStatus(booking: BookingView, newStatus: string, updateFails: bool, refetchFails: bool)
      requires Valid()
      requires newStatus in OfferedStatuses(booking.row.status)
      modifies this`table, this`bookings, this`filtered
      ensures Valid()
      ensures LegalTransition(booking.row.status, newStatus)
      ensures table == if updateFails then old(table) else SetStatus(old(table), booking.row.id, newStatus)
      ensures bookings == if updateFails || refetchFails then old(bookings) else Embed(table, patients, doctors)
      ensures !updateFails && !refetchFails && old(bookings) == Embed(old(table), patients, doctors) ==>
        bookings == UpdateStatus(old(bookings), booking.row.id, newStatus)
    {
      OfferedAreLegal(booking.row.status, newStatus);
      if !updateFails {
        EmbedSetStatus(table, patients, doctors, booking.row.id, newStatus);
        table := SetStatus(table, booking.row.id, newStatus);
        if !refetchFails {
          bookings := Embed(table, patients, doctors);
          filtered := FilterBookings(bookings, filters);
        }
      }
    }
  }
}
