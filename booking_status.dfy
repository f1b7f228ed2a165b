/** Booking logic shared by the admin dashboard, the registration list, the past-record page and
    "My Bookings": the status badge, the status buttons offered, the status update, the search
    and status filters, the status drop-down and the per-status counts. */
module BookingStatus {
  import opened Entities
  import opened Seqs
  import opened Text

  const Pending: string := "pending"
  const Confirmed: string := "confirmed"
  const Cancelled: string := "cancelled"
  const Completed: string := "completed"

  predicate IsKnownStatus(status: string)
  {
    status == Pending || status == Confirmed || status == Cancelled || status == Completed
  }

  // ---------------------------------------------------------------------------
  // Status badge

  /** One entry of `statusConfig`: the badge colour and the fixed text "My Bookings" shows. */
  datatype BadgeConfig = BadgeConfig(color: string, text: string)

  /** A rendered badge: its colour classes and the words on it. */
  datatype Badge = Badge(color: string, caption: string)

  const PendingConfig := BadgeConfig("bg-yellow-100 text-yellow-800", "Pending")
  const ConfirmedConfig := BadgeConfig("bg-green-100 text-green-800", "Confirmed")
  const CancelledConfig := BadgeConfig("bg-red-100 text-red-800", "Cancelled")
  const CompletedConfig := BadgeConfig("bg-blue-100 text-blue-800", "Completed")

  /** `statusConfig[status] || statusConfig.pending`, read as a lookup in the four own entries. */
  function StatusConfig(status: string): (c: BadgeConfig)
    ensures status == Pending || !IsKnownStatus(status) ==> c == PendingConfig
    ensures status == Confirmed ==> c == ConfirmedConfig
    ensures status == Cancelled ==> c == CancelledConfig
    ensures status == Completed ==> c == CompletedConfig
  {
    if status == Confirmed then ConfirmedConfig
    else if status == Cancelled then CancelledConfig
    else if status == Completed then CompletedConfig
    else PendingConfig
  }

  /** The badge of the admin dashboard, the registration list and the past-record page: the
      configured colour and the status with its first character upper-cased. */
  function StatusBadge(status: string): (b: Badge)
    ensures b.color == StatusConfig(status).color
    ensures |b.caption| == |status|
    ensures status != [] ==> b.caption[0] == UpperChar(status[0]) && b.caption[1..] == status[1..]
  {
    Badge(StatusConfig(status).color, Capitalize(status))
  }

  /** The badge of "My Bookings": colour and text both come from the configuration. */
  function MyBookingsBadge(status: string): (b: Badge)
    ensures !IsKnownStatus(status) ==> b == Badge(PendingConfig.color, "Pending")
  {
    Badge(StatusConfig(status).color, StatusConfig(status).text)
  }

  /** For the four statuses the two badges agree; an unknown status keeps its own (capitalised)
      name on the first kind and reads "Pending" on the second, both in the pending colour. */
  lemma BadgesAgreeOnKnownStatuses(status: string)
    ensures IsKnownStatus(status) ==> StatusBadge(status) == MyBookingsBadge(status)
    ensures !IsKnownStatus(status) ==>
      StatusBadge(status).color == MyBookingsBadge(status).color == PendingConfig.color
  {
    if IsKnownStatus(status) {
      assert Capitalize(status) == StatusConfig(status).text by {
        assert UpperChar(status[0]) == StatusConfig(status).text[0];
        assert status[1..] == StatusConfig(status).text[1..];
      }
    }
  }

  /** The names that every JavaScript object inherits from `Object.prototype`. */
  const InheritedKeys: set<string> := {
    "constructor", "__proto__", "__defineGetter__", "__defineSetter__", "__lookupGetter__",
    "__lookupSetter__", "hasOwnProperty", "isPrototypeOf", "propertyIsEnumerable",
    "toLocaleString", "toString", "valueOf" }

  /** What `statusConfig[status]` yields in JavaScript: an own entry, an inherited member (a
      function, which is truthy, so the `|| statusConfig.pending` fallback is skipped), or nothing. */
  datatype ConfigLookup = OwnEntry(config: BadgeConfig) | InheritedMember | NoEntry

  function StatusConfigLookupAsWritten(status: string): (r: ConfigLookup)
    ensures IsKnownStatus(status) ==> r == OwnEntry(StatusConfig(status))
    ensures !IsKnownStatus(status) && status !in InheritedKeys ==> r == NoEntry
  {
    if IsKnownStatus(status) then OwnEntry(StatusConfig(status))
    else if status in InheritedKeys then InheritedMember
    else NoEntry
  }

  /** `statusConfig[status] || statusConfig.pending` as written: `None` when the result is an
      inherited function, whose `color`, `icon` and `text` are all undefined. */
  function StatusConfigAsWritten(status: string): (r: Option<BadgeConfig>)
  {
    match StatusConfigLookupAsWritten(status)
    case OwnEntry(c) => Some(c)
    case InheritedMember => None
    case NoEntry => Some(PendingConfig)
  }

  /** The fallback misses exactly the inherited names: a status such as "toString" gets no
      configuration at all, while every other status gets the one `StatusConfig` gives. */
  lemma StatusConfigAsWrittenMissesInheritedKeys(status: string)
    ensures StatusConfigAsWritten(status).None? <==> status in InheritedKeys
    ensures status !in InheritedKeys ==> StatusConfigAsWritten(status) == Some(StatusConfig(status))
    ensures StatusConfigAsWritten("toString") == None
  {
    assert !IsKnownStatus("toString");
    assert forall k :: k in InheritedKeys ==> !IsKnownStatus(k);
  }

  // ---------------------------------------------------------------------------
  // Status transitions

  /** The status buttons shown for a booking: Confirm and Cancel while pending, Complete while
      confirmed, nothing otherwise. */
  function OfferedStatuses(status: string): (r: seq<string>)
    ensures status == Completed ==> r == []
    ensures status == Cancelled ==> r == []
    ensures forall i :: 0 <= i < |r| ==> IsKnownStatus(r[i]) && r[i] != Pending
  {
    if status == Pending then [Confirmed, Cancelled]
    else if status == Confirmed then [Completed]
    else []
  }

  /** The booking lifecycle: pending to confirmed, pending to cancelled, confirmed to completed. */
  predicate LegalTransition(from: string, to: string)
  {
    (from == Pending && to == Confirmed) ||
    (from == Pending && to == Cancelled) ||
    (from == Confirmed && to == Completed)
  }

  /** The buttons offer exactly the legal transitions. */
  lemma OfferedAreLegal(from: string, to: string)
    ensures to in OfferedStatuses(from) <==> LegalTransition(from, to)
  {
  }

  function Rank(status: string): nat
  {
    if status == Confirmed then 1
    else if status == Completed || status == Cancelled then 2
    else 0
  }

  /** A sequence of statuses a booking goes through by pressing offered buttons. */
  predicate OfferedPath(path: seq<string>)
  {
    forall i :: 0 <= i < |path| - 1 ==> LegalTransition(path[i], path[i + 1])
  }

  lemma {:induction false} OfferedPathRanks(path: seq<string>)
    requires OfferedPath(path) && |path| > 0
    ensures forall k :: 0 <= k < |path| ==> Rank(path[k]) >= k + Rank(path[0])
    ensures forall i, j :: 0 <= i < j < |path| ==> Rank(path[i]) < Rank(path[j])
  {
    if |path| > 1 {
      var tail := path[1..];
      assert OfferedPath(tail) by {
        forall i | 0 <= i < |tail| - 1 ensures LegalTransition(tail[i], tail[i + 1]) {
          assert tail[i] == path[i + 1] && tail[i + 1] == path[i + 2];
        }
      }
      OfferedPathRanks(tail);
      assert LegalTransition(path[0], path[1]);
      forall k | 1 <= k < |path| ensures Rank(path[k]) >= k + Rank(path[0]) {
        assert path[k] == tail[k - 1];
      }
      forall i, j | 0 <= i < j < |path| ensures Rank(path[i]) < Rank(path[j]) {
        if i > 0 {
          assert path[i] == tail[i - 1] && path[j] == tail[j - 1];
        }
      }
    }
  }

  /** The lifecycle has no cycles: following offered buttons a booking changes status at most
      twice and never returns to a status it had. */
  lemma OfferedPathIsShort(path: seq<string>)
    requires OfferedPath(path) && |path| > 0
    ensures |path| <= 3
    ensures NoDuplicates(path)
  {
    OfferedPathRanks(path);
    assert Rank(path[|path| - 1]) >= |path| - 1;
  }

  // ---------------------------------------------------------------------------
  // Status update

  /** `update({ status })` on the booking with that id: the row keeps every other field, and
      every other row is untouched. */
  function UpdateStatus(views: seq<BookingView>, id: Id, newStatus: string): (r: seq<BookingView>)
    ensures |r| == |views|
    ensures forall i :: 0 <= i < |views| && views[i].row.id == id ==>
      r[i].row.status == newStatus && r[i] == views[i].(row := views[i].row.(status := newStatus))
    ensures forall i :: 0 <= i < |views| && views[i].row.id != id ==> r[i] == views[i]
  {
    seq(|views|, i requires 0 <= i < |views| =>
      if views[i].row.id == id then views[i].(row := views[i].row.(status := newStatus)) else views[i])
  }

  /** The same update on the rows of the `bookings` table. */
  function SetStatus(rows: seq<Booking>, id: Id, newStatus: string): (r: seq<Booking>)
    ensures |r| == |rows|
    ensures forall i :: 0 <= i < |rows| && rows[i].id == id ==> r[i] == rows[i].(status := newStatus)
    ensures forall i :: 0 <= i < |rows| && rows[i].id != id ==> r[i] == rows[i]
  {
    seq(|rows|, i requires 0 <= i < |rows| => if rows[i].id == id then rows[i].(status := newStatus) else rows[i])
  }

  /** Refetching after the table update shows the update applied to the list on screen: the
      embedded patient and doctor of every booking stay as they were. */
  lemma EmbedSetStatus(rows: seq<Booking>, patients: seq<Patient>, doctors: seq<Doctor>, id: Id, newStatus: string)
    ensures Embed(SetStatus(rows, id, newStatus), patients, doctors) == UpdateStatus(Embed(rows, patients, doctors), id, newStatus)
  {
    var lhs := Embed(SetStatus(rows, id, newStatus), patients, doctors);
    var rhs := UpdateStatus(Embed(rows, patients, doctors), id, newStatus);
    forall i | 0 <= i < |rows| ensures lhs[i] == rhs[i] {
      assert SetStatus(rows, id, newStatus)[i].patientId == rows[i].patientId;
      assert SetStatus(rows, id, newStatus)[i].doctorId == rows[i].doctorId;
    }
  }

  /** Repeating an update changes nothing more. */
  lemma UpdateStatusIdempotent(views: seq<BookingView>, id: Id, newStatus: string)
    ensures UpdateStatus(UpdateStatus(views, id, newStatus), id, newStatus) == UpdateStatus(views, id, newStatus)
  {
  }

  // ---------------------------------------------------------------------------
  // Filters, options and counts

  /** The search box: the patient's or the doctor's name contains the term, ignoring case, or the
      patient's phone contains it verbatim. A missing embedded row matches nothing. */
  predicate MatchesSearch(v: BookingView, term: string)
  {
    (v.patient.Some? && Contains(Lower(v.patient.value.name), Lower(term))) ||
    (v.doctor.Some? && Contains(Lower(v.doctor.value.name), Lower(term))) ||
    (v.patient.Some? && Contains(v.patient.value.phone, term))
  }

  /** `if (searchTerm)`: an empty search box keeps every booking. */
  predicate PassesSearch(v: BookingView, term: string)
  {
    term == "" || MatchesSearch(v, term)
  }

  /** `if (statusFilter)`: an empty status selection keeps every booking. */
  predicate PassesStatus(v: BookingView, status: string)
  {
    status == "" || v.row.status == status
  }

  /** The status drop-down: `[...new Set(bookings.map(b => b.status))]`. */
  function StatusOptions(views: seq<BookingView>): (r: seq<string>)
    ensures NoDuplicates(r)
    ensures forall i :: 0 <= i < |r| ==> exists j :: 0 <= j < |views| && views[j].row.status == r[i]
    ensures forall j :: 0 <= j < |views| ==> views[j].row.status in r
  {
    var statuses := seq(|views|, i requires 0 <= i < |views| => views[i].row.status);
    assert forall j :: 0 <= j < |views| ==> statuses[j] == views[j].row.status;
    var r := Dedup(statuses);
    assert forall i :: 0 <= i < |r| ==> r[i] in statuses;
    r
  }

  function HasStatus(status: string): BookingView -> bool
  {
    (v: BookingView) => v.row.status == status
  }

  /** `bookings.filter(b => b.status === status).length` */
  function CountStatus(views: seq<BookingView>, status: string): (n: nat)
    ensures n <= |views|
  {
    Count(views, HasStatus(status))
  }

  /** The four per-status counts never add up to more than the number of bookings. */
  lemma StatusCountsBounded(views: seq<BookingView>)
    ensures CountStatus(views, Pending) + CountStatus(views, Confirmed) +
            CountStatus(views, Completed) + CountStatus(views, Cancelled) <= |views|
  {
    CountExclusive4(views, HasStatus(Pending), HasStatus(Confirmed), HasStatus(Completed), HasStatus(Cancelled));
  }
}
