/** The past-record page: the bookings with a search box, a status selection and a date range,
    the status drop-down and the patient statistics. */
module PastRecord {
  import opened Entities
  import opened Seqs
  import opened BookingStatus

  /** The two date inputs; an empty input is `None`. */
  datatype DateRange = DateRange(start: Option<Day>, end: Option<Day>)

  datatype RecordFilters = RecordFilters(searchTerm: string, statusFilter: string, range: DateRange)

  /** `if (dateRange.start && dateRange.end)`: the range applies only when both ends are set, and
      then both ends are included. */
  predicate PassesRange(v: BookingView, r: DateRange)
  {
    r.start.None? || r.end.None? || (r.start.value <= v.row.bookingDate && v.row.bookingDate <= r.end.value)
  }

  predicate KeptRecord(v: BookingView, f: RecordFilters)
  {
    PassesSearch(v, f.searchTerm) && PassesStatus(v, f.statusFilter) && PassesRange(v, f.range)
  }

  /** `filterBookings`: the chain of filters, each applied only when its input is set. */
  function FilterRecords(bookings: seq<BookingView>, f: RecordFilters): (r: seq<BookingView>)
    ensures r == Filter(bookings, (v: BookingView) => KeptRecord(v, f))
  {
    var afterSearch := if f.searchTerm != "" then Filter(bookings, (v: BookingView) => MatchesSearch(v, f.searchTerm)) else bookings;
    var afterStatus := if f.statusFilter != "" then Filter(afterSearch, HasStatus(f.statusFilter)) else afterSearch;
    var both := f.range.start.Some? && f.range.end.Some?;
    var lo := if f.range.start.Some? then f.range.start.value else 0;
    var hi := if f.range.end.Some? then f.range.end.value else 0;
    var r := if both then Filter(afterStatus, (v: BookingView) => lo <= v.row.bookingDate && v.row.bookingDate <= hi) else afterStatus;
    FilterIfFirst(bookings, f.searchTerm != "", (v: BookingView) => MatchesSearch(v, f.searchTerm),
                  (v: BookingView) => PassesSearch(v, f.searchTerm));
    FilterIfNext(bookings, f.statusFilter != "", (v: BookingView) => PassesSearch(v, f.searchTerm), HasStatus(f.statusFilter),
                 (v: BookingView) => PassesSearch(v, f.searchTerm) && PassesStatus(v, f.statusFilter));
    FilterIfNext(bookings, both, (v: BookingView) => PassesSearch(v, f.searchTerm) && PassesStatus(v, f.statusFilter),
                 (v: BookingView) => lo <= v.row.bookingDate && v.row.bookingDate <= hi, (v: BookingView) => KeptRecord(v, f));
    r
  }

  /** The records keep the bookings' order and are exactly the bookings that pass the search,
      the status and, when both ends are set, the inclusive date range. */
  lemma FilterRecordsExact(bookings: seq<BookingView>, f: RecordFilters)
    ensures IsSubseq(FilterRecords(bookings, f), bookings)
    ensures forall v :: v in FilterRecords(bookings, f) <==>
      v in bookings && PassesSearch(v, f.searchTerm) && PassesStatus(v, f.statusFilter) &&
      (f.range.start.Some? && f.range.end.Some? ==> f.range.start.value <= v.row.bookingDate <= f.range.end.value)
  {
    var keep := (v: BookingView) => KeptRecord(v, f);
    FilterIsSubseq(bookings, keep);
    forall v ensures v in FilterRecords(bookings, f) <==> v in bookings && keep(v) {
      if v in bookings && keep(v) {
        var k :| 0 <= k < |bookings| && bookings[k] == v;
      }
    }
  }

  /** With only one end of the range set, the range has no effect. */
  lemma HalfRangeIgnored(bookings: seq<BookingView>, search: string, status: string, range: DateRange)
    requires range.start.None? || range.end.None?
    ensures FilterRecords(bookings, RecordFilters(search, status, range)) ==
            FilterRecords(bookings, RecordFilters(search, status, DateRange(None, None)))
  {
    FilterCongruent(bookings, (v: BookingView) => KeptRecord(v, RecordFilters(search, status, range)),
                    (v: BookingView) => KeptRecord(v, RecordFilters(search, status, DateRange(None, None))));
  }

  /** The statistics cards. */
  datatype PatientStats = PatientStats(totalBookings: nat, completedBookings: nat, cancelledBookings: nat, uniquePatients: nat)

  /** `getPatientStats`: `uniquePatients` is the number of distinct patient ids, never more than
      the number of bookings, and completed plus cancelled is at most the number of bookings. */
  function GetPatientStats(bookings: seq<BookingView>): (s: PatientStats)
    ensures s.totalBookings == |bookings|
    ensures s.completedBookings == CountStatus(bookings, Completed)
    ensures s.cancelledBookings == CountStatus(bookings, Cancelled)
    ensures s.uniquePatients == |set i | 0 <= i < |bookings| :: bookings[i].row.patientId|
    ensures s.uniquePatients <= s.totalBookings
    ensures s.completedBookings + s.cancelledBookings <= s.totalBookings
  {
    var ids := seq(|bookings|, i requires 0 <= i < |bookings| => bookings[i].row.patientId);
    assert forall j :: 0 <= j < |bookings| ==> ids[j] == bookings[j].row.patientId;
    DedupSize(ids);
    assert SetOf(ids) == set i | 0 <= i < |bookings| :: bookings[i].row.patientId;
    StatusCountsBounded(bookings);
    PatientStats(|bookings|, CountStatus(bookings, Completed), CountStatus(bookings, Cancelled), |Dedup(ids)|)
  }
}
