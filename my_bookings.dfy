/** "My Bookings": the signed-in patient's active and cancelled bookings, their counters and the
    status badge. */
module MyBookings {
  import opened Entities
  import opened Seqs
  import opened BookingStatus

  // ---------------------------------------------------------------------------
  // The two queries

  /** `.eq('patients.email', email)` as written, without `!inner`: the filter applies to the
      embedded patient only, so every booking comes back and the patient is null on those of
      other patients. */
  function BookingsQueryAsWritten(rows: seq<BookingView>, email: string): (r: seq<BookingView>)
    ensures |r| == |rows|
    ensures forall i :: 0 <= i < |rows| ==> r[i].row == rows[i].row
  {
    seq(|rows|, i requires 0 <= i < |rows| =>
      rows[i].(patient := if rows[i].patient.Some? && rows[i].patient.value.email == email then rows[i].patient else None))
  }

  /** The query as written lists another patient's booking to this user. */
  lemma BookingsQueryAsWrittenListsOthers()
    ensures
      var other := Patient("p2", "Ravi", 40, "male", "98765", "ravi@clinic.in");
      var rows := [BookingView(Booking("b1", "p2", "d1", 19000, "10:00", "", Pending), Some(other), None)];
      var r := BookingsQueryAsWritten(rows, "ana@clinic.in");
      |r| == 1 && r[0].row.patientId == "p2" && other.email != "ana@clinic.in"
  {
  }

  predicate OwnedBy(v: BookingView, email: string)
  {
    v.patient.Some? && v.patient.value.email == email
  }

  /** The evidently intended query: only the bookings whose patient has this e-mail, in order. */
  function BookingsQuery(rows: seq<BookingView>, email: string): (r: seq<BookingView>)
    ensures forall i :: 0 <= i < |r| ==> r[i] in rows && OwnedBy(r[i], email)
    ensures forall i :: 0 <= i < |rows| && OwnedBy(rows[i], email) ==> rows[i] in r
  {
    Filter(rows, (v: BookingView) => OwnedBy(v, email))
  }

  /** The intended query keeps the order, and on the rows it keeps the written query returns the
      same booking with the same embedded patient. */
  lemma BookingsQueryRelation(rows: seq<BookingView>, email: string)
    ensures IsSubseq(BookingsQuery(rows, email), rows)
    ensures forall i :: 0 <= i < |rows| && OwnedBy(rows[i], email) ==> BookingsQueryAsWritten(rows, email)[i] == rows[i]
    ensures forall i :: 0 <= i < |rows| && !OwnedBy(rows[i], email) ==> BookingsQueryAsWritten(rows, email)[i].patient.None?
  {
    FilterIsSubseq(rows, (v: BookingView) => OwnedBy(v, email));
  }

  // ---------------------------------------------------------------------------
  // Loading

  datatype PageState = PageState(bookings: seq<BookingView>, cancelledBookings: seq<BookingView>, loading: bool)

  /** `fetchUserBookings`: without an e-mail nothing is fetched and loading ends; otherwise the two
      lists are replaced only when both queries succeed. `activeRows` and `cancelledRows` are the
      embedded selects of `bookings` and `cancelled_bookings`. */
  function FetchUserBookings(s: PageState, email: string, activeRows: seq<BookingView>, cancelledRows: seq<BookingView>,
                             activeFails: bool, cancelledFails: bool): (t: PageState)
    ensures !t.loading
    ensures email == "" ==> t == s.(loading := false)
    ensures email != "" && !activeFails && !cancelledFails ==>
      t.bookings == BookingsQuery(activeRows, email) && t.cancelledBookings == BookingsQuery(cancelledRows, email)
    ensures activeFails || cancelledFails ==> t.bookings == s.bookings && t.cancelledBookings == s.cancelledBookings
  {
    if email == "" then s.(loading := false)
    else if activeFails || cancelledFails then s.(loading := false)
    else PageState(BookingsQuery(activeRows, email), BookingsQuery(cancelledRows, email), false)
  }

  // ---------------------------------------------------------------------------
  // Counters

  /** `new Date(b.booking_date) >= new Date()`: the booking's date, at midnight UTC, is not before
      the current instant `nowMs` (milliseconds since 1970-01-01 UTC). */
  function Upcoming(nowMs: int): BookingView -> bool
  {
    (v: BookingView) => v.row.bookingDate * MillisPerDay >= nowMs
  }

  function Past(nowMs: int): BookingView -> bool
  {
    (v: BookingView) => v.row.bookingDate * MillisPerDay < nowMs
  }

  datatype Counters = Counters(total: nat, upcoming: nat, completed: nat)

  /** The three counters: all bookings including cancelled ones, the upcoming active ones and the
      completed active ones. */
  function GetCounters(bookings: seq<BookingView>, cancelledBookings: seq<BookingView>, nowMs: int): (c: Counters)
    ensures c.total == |bookings| + |cancelledBookings|
    ensures c.upcoming == Count(bookings, Upcoming(nowMs)) && c.upcoming <= |bookings|
    ensures c.completed == CountStatus(bookings, Completed) && c.completed <= |bookings|
    ensures c.upcoming + Count(bookings, Past(nowMs)) == |bookings|
  {
    CountComplement(bookings, Upcoming(nowMs), Past(nowMs));
    Counters(|bookings| + |cancelledBookings|, Count(bookings, Upcoming(nowMs)), CountStatus(bookings, Completed))
  }

  /** A booking for today stops counting as upcoming as soon as the day has begun (in UTC), and a
      booking for a later day counts. */
  lemma UpcomingByDay(v: BookingView, nowMs: int)
    requires v.row.bookingDate * MillisPerDay < nowMs < (v.row.bookingDate + 1) * MillisPerDay
    ensures !Upcoming(nowMs)(v)
    ensures Upcoming(nowMs)(v.(row := v.row.(bookingDate := v.row.bookingDate + 1)))
  {
  }
}
