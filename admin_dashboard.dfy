/** The admin dashboard: the statistics cards, the recent-bookings and schedule summaries, the
    booking status buttons, the message actions, the guarded doctor deletion and the CSV export. */
module AdminDashboard {
  import opened Entities
  import opened Seqs
  import opened BookingStatus

  // ---------------------------------------------------------------------------
  // Statistics

  datatype Stats = Stats(
    totalDoctors: nat, totalPatients: nat, totalBookings: nat, pendingBookings: nat,
    completedBookings: nat, cancelledBookings: nat, totalMessages: nat, unreadMessages: nat)

  function Unread(): ContactMessage -> bool
  {
    (m: ContactMessage) => !m.read
  }

  /** `getStats`: every count is at most its collection's size, the pending, completed and
      cancelled counts together are at most the number of bookings, and the unread messages are
      at most all messages. */
  function GetStats(doctors: seq<Doctor>, patients: seq<Patient>, bookings: seq<BookingView>, messages: seq<ContactMessage>): (s: Stats)
    ensures s.totalDoctors == |doctors| && s.totalPatients == |patients|
    ensures s.totalBookings == |bookings| && s.totalMessages == |messages|
    ensures s.pendingBookings == CountStatus(bookings, Pending)
    ensures s.completedBookings == CountStatus(bookings, Completed)
    ensures s.cancelledBookings == CountStatus(bookings, Cancelled)
    ensures s.unreadMessages == Count(messages, Unread())
    ensures s.pendingBookings + s.completedBookings + s.cancelledBookings <= s.totalBookings
    ensures s.unreadMessages <= s.totalMessages
  {
    StatusCountsBounded(bookings);
    Stats(|doctors|, |patients|, |bookings|, CountStatus(bookings, Pending), CountStatus(bookings, Completed),
          CountStatus(bookings, Cancelled), |messages|, Count(messages, Unread()))
  }

  // ---------------------------------------------------------------------------
  // Overview summaries

  /** `bookings.slice(0, 5)`: the first five bookings, or all when there are fewer. */
  function RecentBookings(bookings: seq<BookingView>): (r: seq<BookingView>)
    ensures |r| == if |bookings| < 5 then |bookings| else 5
    ensures forall i :: 0 <= i < |r| ==> r[i] == bookings[i]
  {
    Take(bookings, 5)
  }

  /** What the doctors table shows for a doctor's active schedule rows: "No schedule set", or up to
      two rows followed by "+N more" when N further rows exist (`more` is 0 when that line is
      absent). */
  datatype ScheduleSummary = NoSchedule | Summary(shown: seq<ScheduleRow>, more: nat)

  function ScheduleDisplay(rows: seq<ScheduleRow>): (r: ScheduleSummary)
    ensures r.NoSchedule? <==> rows == []
    ensures r.Summary? ==> |r.shown| == (if |rows| < 2 then |rows| else 2) && r.shown <= rows && |r.shown| + r.more == |rows|
    ensures r.Summary? ==> (r.more > 0 <==> |rows| > 2)
  {
    if rows == [] then NoSchedule else Summary(Take(rows, 2), if |rows| > 2 then |rows| - 2 else 0)
  }

  // ---------------------------------------------------------------------------
  // Messages

  /** `update({ read: true })` on the message with that id. */
  function MarkRead(messages: seq<ContactMessage>, id: Id): (r: seq<ContactMessage>)
    ensures |r| == |messages|
    ensures forall i :: 0 <= i < |messages| && messages[i].id == id ==> r[i] == messages[i].(read := true)
    ensures forall i :: 0 <= i < |messages| && messages[i].id != id ==> r[i] == messages[i]
  {
    seq(|messages|, i requires 0 <= i < |messages| =>
      if messages[i].id == id then messages[i].(read := true) else messages[i])
  }

  /** Marking a message read a second time changes nothing. */
  lemma MarkReadIdempotent(messages: seq<ContactMessage>, id: Id)
    ensures MarkRead(MarkRead(messages, id), id) == MarkRead(messages, id)
  {
  }

  /** After marking, the unread messages are exactly the unread ones with another id, so the
      unread count drops by the number of unread messages that had this id. */
  lemma {:induction false} MarkReadUnreadCount(messages: seq<ContactMessage>, id: Id)
    ensures Count(MarkRead(messages, id), Unread()) == Count(messages, (m: ContactMessage) => !m.read && m.id != id)
  {
    if messages != [] {
      MarkReadUnreadCount(messages[1..], id);
      assert MarkRead(messages, id)[1..] == MarkRead(messages[1..], id);
    }
  }

  /** `delete().eq('id', id)` on the messages. */
  function WithoutMessage(messages: seq<ContactMessage>, id: Id): (r: seq<ContactMessage>)
    ensures forall i :: 0 <= i < |r| ==> r[i].id != id && r[i] in messages
    ensures forall i :: 0 <= i < |messages| && messages[i].id != id ==> messages[i] in r
  {
    Filter(messages, (m: ContactMessage) => m.id != id)
  }

  // ---------------------------------------------------------------------------
  // Deleting a doctor

  /** The guard as written: the rows of the check query are destructured without its error, so a
      failed query (no rows) lets the deletion go ahead. */
  predicate DeleteDoctorProceedsAsWritten(bookings: seq<Booking>, id: Id, queryFails: bool)
  {
    var found := if queryFails then None else Some(Filter(bookings, (b: Booking) => b.doctorId == id));
    !(found.Some? && |found.value| > 0)
  }

  /** A failed check query lets a doctor with a booking be deleted. */
  lemma DeleteGuardAsWrittenIgnoresQueryError()
    ensures var bookings := [Booking("b1", "p1", "d1", 19000, "10:00", "", Pending)];
      DeleteDoctorProceedsAsWritten(bookings, "d1", true) && bookings[0].doctorId == "d1"
  {
  }

  /** The guard as intended: go ahead only when the check query succeeded and found no booking. */
  predicate DeleteDoctorProceeds(bookings: seq<Booking>, id: Id, queryFails: bool)
  {
    !queryFails && |Filter(bookings, (b: Booking) => b.doctorId == id)| == 0
  }

  /** The intended guard lets a deletion through exactly when no booking references the doctor
      and the check itself succeeded; when the check succeeds the written guard agrees with it. */
  lemma DeleteGuardExact(bookings: seq<Booking>, id: Id, queryFails: bool)
    ensures DeleteDoctorProceeds(bookings, id, queryFails) <==>
      !queryFails && forall i :: 0 <= i < |bookings| ==> bookings[i].doctorId != id
    ensures !queryFails ==>
      (DeleteDoctorProceedsAsWritten(bookings, id, queryFails) <==> DeleteDoctorProceeds(bookings, id, queryFails))
  {
    var found := Filter(bookings, (b: Booking) => b.doctorId == id);
    if exists i :: 0 <= i < |bookings| && bookings[i].doctorId == id {
      var i :| 0 <= i < |bookings| && bookings[i].doctorId == id;
      assert bookings[i] in found;
    }
    if |found| > 0 {
      var k :| 0 <= k < |bookings| && bookings[k] == found[0];
      assert bookings[k].doctorId == id;
    }
  }

  function WithoutDoctor(doctors: seq<Doctor>, id: Id): (r: seq<Doctor>)
    ensures forall i :: 0 <= i < |r| ==> r[i].id != id && r[i] in doctors
    ensures forall i :: 0 <= i < |doctors| && doctors[i].id != id ==> doctors[i] in r
  {
    Filter(doctors, (d: Doctor) => d.id != id)
  }

  datatype DeleteDoctorOutcome = NotConfirmed | CheckFailed | HasBookings | DeleteFailed | Deleted

  // ---------------------------------------------------------------------------
  // CSV export

  /** A record as `Object.keys` / `Object.values` see it: its fields in order, each value already
      rendered as the text `join` produces for it. */
  datatype Field = Field(key: string, value: string)
  type CsvRecord = seq<Field>

  function Keys(r: CsvRecord): seq<string>
  {
    seq(|r|, i requires 0 <= i < |r| => r[i].key)
  }

  function Values(r: CsvRecord): seq<string>
  {
    seq(|r|, i requires 0 <= i < |r| => r[i].value)
  }

  /** `Object.keys(data[0] || {}).join(',')` */
  function HeaderLine(data: seq<CsvRecord>): string
  {
    if data == [] then "" else Join(Keys(data[0]), ',')
  }

  /** `data.map(row => Object.values(row).join(','))` */
  function ValueLines(data: seq<CsvRecord>): seq<string>
  {
    seq(|data|, i requires 0 <= i < |data| => Join(Values(data[i]), ','))
  }

  /** `[headers, ...lines].join('\n')`; nothing is quoted or escaped. */
  function Csv(data: seq<CsvRecord>): string
  {
    Join([HeaderLine(data)] + ValueLines(data), '\n')
  }

  predicate NoNewline(data: seq<CsvRecord>)
  {
    forall i, j :: 0 <= i < |data| && 0 <= j < |data[i]| ==> '\n' !in data[i][j].key && '\n' !in data[i][j].value
  }

  /** When no key or value holds a line break, the file reads back as one header line (the first
      record's keys) followed by one line per record. */
  lemma CsvLines(data: seq<CsvRecord>)
    requires NoNewline(data)
    ensures Split(Csv(data), '\n') == [HeaderLine(data)] + ValueLines(data)
    ensures |Split(Csv(data), '\n')| == |data| + 1
  {
    var lines := [HeaderLine(data)] + ValueLines(data);
    if data != [] {
      JoinNoSep(Keys(data[0]), ',', '\n');
    }
    forall i | 0 <= i < |data| ensures '\n' !in ValueLines(data)[i] {
      JoinNoSep(Values(data[i]), ',', '\n');
    }
    assert forall i :: 0 <= i < |lines| ==> '\n' !in lines[i] by {
      forall i | 0 <= i < |lines| ensures '\n' !in lines[i] {
        if i > 0 {
          assert lines[i] == ValueLines(data)[i - 1];
        }
      }
    }
    SplitJoin(lines, '\n');
  }

  predicate NoComma(data: seq<CsvRecord>)
  {
    forall i, j :: 0 <= i < |data| && 0 <= j < |data[i]| ==> ',' !in data[i][j].key && ',' !in data[i][j].value
  }

  /** When no key or value holds a comma or a line break, the file reads back field by field: the
      first line is the first record's keys and line `i + 1` is record `i`'s values. */
  lemma CsvFields(data: seq<CsvRecord>, i: nat)
    requires NoNewline(data) && NoComma(data)
    requires i < |data| && forall k :: 0 <= k < |data| ==> |data[k]| >= 1
    ensures Split(Split(Csv(data), '\n')[0], ',') == Keys(data[0])
    ensures |Split(Csv(data), '\n')| == |data| + 1 && Split(Split(Csv(data), '\n')[i + 1], ',') == Values(data[i])
  {
    CsvLines(data);
    assert Split(Csv(data), '\n')[i + 1] == Join(Values(data[i]), ',');
    SplitJoin(Keys(data[0]), ',');
    SplitJoin(Values(data[i]), ',');
  }

  datatype ExportFile = ExportFile(filename: string, content: string)

  /** `exportData(type)`: the table chosen by its name, or nothing for any other name. */
  function ExportData(kind: string, doctors: seq<CsvRecord>, patients: seq<CsvRecord>, bookings: seq<CsvRecord>,
                      cancelled: seq<CsvRecord>, messages: seq<CsvRecord>): (r: Option<ExportFile>)
    ensures r.None? <==> kind !in {"doctors", "patients", "bookings", "cancelled_bookings", "messages"}
    ensures r.Some? ==> r.value.filename == kind + ".csv"
    ensures kind == "doctors" ==> r == Some(ExportFile("doctors.csv", Csv(doctors)))
    ensures kind == "patients" ==> r == Some(ExportFile("patients.csv", Csv(patients)))
    ensures kind == "bookings" ==> r == Some(ExportFile("bookings.csv", Csv(bookings)))
    ensures kind == "cancelled_bookings" ==> r == Some(ExportFile("cancelled_bookings.csv", Csv(cancelled)))
    ensures kind == "messages" ==> r == Some(ExportFile("messages.csv", Csv(messages)))
  {
    match kind
    case "doctors" => Some(ExportFile("doctors.csv", Csv(doctors)))
    case "patients" => Some(ExportFile("patients.csv", Csv(patients)))
    case "bookings" => Some(ExportFile("bookings.csv", Csv(bookings)))
    case "cancelled_bookings" => Some(ExportFile("cancelled_bookings.csv", Csv(cancelled)))
    case "messages" => Some(ExportFile("messages.csv", Csv(messages)))
    case _ => None
  }

  // ---------------------------------------------------------------------------
  // The dashboard's actions on the tables

  /** The tables the dashboard reads and writes. After every successful change the dashboard
      refetches, so what it shows is these tables. */
  class Dashboard {
    var doctors: seq<Doctor>
    var patients: seq<Patient>
    var bookings: seq<Booking>
    var messages: seq<ContactMessage>

    constructor (doctors0: seq<Doctor>, patients0: seq<Patient>, bookings0: seq<Booking>, messages0: seq<ContactMessage>)
      ensures doctors == doctors0 && patients == patients0 && bookings == bookings0 && messages == messages0
    {
      doctors, patients, bookings, messages := doctors0, patients0, bookings0, messages0;
    }

    /** The bookings as the bookings tab lists them. */
    function Shown(): seq<BookingView>
      reads this
    {
      Embed(bookings, patients, doctors)
    }

    /** `updateBookingStatus` from a button of the bookings tab: only an offered, hence legal,
        transition is requested, and only that booking's status changes. */
    method UpdateBookingStatus(booking: Booking, newStatus: string, updateFails: bool)
      requires newStatus in OfferedStatuses(booking.status)
      modifies this`bookings
      ensures LegalTransition(booking.status, newStatus)
      ensures bookings == if updateFails then old(bookings) else SetStatus(old(bookings), booking.id, newStatus)
      ensures !updateFails ==> Shown() == UpdateStatus(old(Shown()), booking.id, newStatus)
    {
      OfferedAreLegal(booking.status, newStatus);
      if !updateFails {
        EmbedSetStatus(bookings, patients, doctors, booking.id, newStatus);
        bookings := SetStatus(bookings, booking.id, newStatus);
      }
    }

    /** `markMessageAsRead`, offered only for an unread message. */
    method MarkMessageAsRead(message: ContactMessage, updateFails: bool)
      requires !message.read
      modifies this`messages
      ensures messages == if updateFails then old(messages) else MarkRead(old(messages), message.id)
    {
      if !updateFails {
        messages := MarkRead(messages, message.id);
      }
    }

    /** `deleteMessage`: nothing happens unless the confirmation is accepted. */
    method DeleteMessage(id: Id, confirmed: bool, deleteFails: bool)
      modifies this`messages
      ensures messages == if confirmed && !deleteFails then WithoutMessage(old(messages), id) else old(messages)
    {
      if confirmed && !deleteFails {
        messages := WithoutMessage(messages, id);
      }
    }

    /** `handleDeleteDoctor` with the intended guard: a doctor referenced by a booking, or whose
        check query failed, is never deleted. */
    method DeleteDoctor(id: Id, confirmed: bool, checkFails: bool, deleteFails: bool) returns (outcome: DeleteDoctorOutcome)
      modifies this`doctors
      ensures outcome == NotConfirmed <==> !confirmed
      ensures outcome == CheckFailed <==> confirmed && checkFails
      ensures outcome == HasBookings <==>
        confirmed && !checkFails && exists i :: 0 <= i < |bookings| && bookings[i].doctorId == id
      ensures outcome == Deleted <==> confirmed && DeleteDoctorProceeds(bookings, id, checkFails) && !deleteFails
      ensures outcome == Deleted ==> forall i :: 0 <= i < |bookings| ==> bookings[i].doctorId != id
      ensures doctors == if outcome == Deleted then WithoutDoctor(old(doctors), id) else old(doctors)
    {
      if !confirmed {
        return NotConfirmed;
      }
      DeleteGuardExact(bookings, id, checkFails);
      if checkFails {
        return CheckFailed;
      }
      if !DeleteDoctorProceeds(bookings, id, checkFails) {
        return HasBookings;
      }
      if deleteFails {
        return DeleteFailed;
      }
      doctors := WithoutDoctor(doctors, id);
      return Deleted;
    }
  }
}
