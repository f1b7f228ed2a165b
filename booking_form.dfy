/** The patient booking form: its field rules, the computation of the free time slots for a doctor
    and a date, and the submission that creates a patient and then a pending booking. */
module BookingForm {
  import opened Entities
  import opened Seqs
  import opened Text
  import BookingStatus

  // ---------------------------------------------------------------------------
  // Field rules

  /** `patient_name`: required, at least 2 characters. */
  predicate ValidPatientName(name: string) { |name| >= 2 }

  /** `age`: required, between 1 and 120 inclusive (`None` is an empty field). */
  predicate ValidAge(age: Option<int>) { age.Some? && 1 <= age.value <= 120 }

  /** `phone`: required, `/^[0-9+\-\s()]+$/`. */
  predicate ValidPhone(phone: string)
  {
    |phone| >= 1 && forall i :: 0 <= i < |phone| ==> IsPhoneChar(phone[i])
  }

  /** `email`: optional; when filled in it must have the e-mail shape. */
  predicate ValidOptionalEmail(email: string) { email == "" || EmailShape(email) }

  /** The form's values. `patientId` is read on submit but no field registers it; `notes` is
      `None` when the field is undefined. */
  datatype BookingDraft = BookingDraft(
    doctorId: Id, patientId: Option<Id>, patientName: string, age: Option<int>, gender: string,
    phone: string, email: string, bookingDate: Option<Day>, bookingTime: string, notes: Option<string>)

  const EmptyDraft := BookingDraft("", None, "", None, "", "", "", None, "", None)

  /** `booking_date`: required, and not before the input's `min`, today's UTC date; the browser
      refuses to submit the form otherwise. */
  predicate ValidBookingDate(date: Option<Day>, today: Day) { date.Some? && date.value >= today }

  /** `handleSubmit` calls `onSubmit` only when every rule holds. */
  predicate ValidDraft(d: BookingDraft, today: Day)
  {
    d.doctorId != "" && ValidPatientName(d.patientName) && ValidAge(d.age) && d.gender != "" &&
    ValidPhone(d.phone) && ValidOptionalEmail(d.email) && ValidBookingDate(d.bookingDate, today) && d.bookingTime != ""
  }

  /** The untouched form is refused, and so is a draft dated before today that passes every other
      rule; the same draft dated today is accepted. */
  lemma ValidDraftExamples(today: Day)
    ensures !ValidDraft(EmptyDraft, today)
    ensures var d := BookingDraft("d1", None, "Ana", Some(30), "female", "98765", "", Some(today), "10:00", None);
      ValidDraft(d, today) && !ValidDraft(d.(bookingDate := Some(today - 1)), today)
  {
    var d := BookingDraft("d1", None, "Ana", Some(30), "female", "98765", "", Some(today), "10:00", None);
    assert ValidPhone(d.phone) by {
      assert forall i :: 0 <= i < 5 ==> IsPhoneChar("98765"[i]);
    }
  }

  /** Examples of the phone rule: brackets, dashes and spaces pass, a letter does not. */
  lemma PhoneRuleExamples()
    ensures ValidPhone("+91 (987) 43-10")
    ensures !ValidPhone("98765x")
  {
    assert !IsPhoneChar("98765x"[5]);
  }

  /** Examples of the e-mail rule: an empty field passes, and so does a complete address; a
      one-letter top-level domain does not. */
  lemma EmailRuleExamples()
    ensures ValidOptionalEmail("")
    ensures ValidOptionalEmail("ana@clinic.in")
    ensures !ValidOptionalEmail("ana@clinic.i")
  {
    assert EmailPartsAt("ana@clinic.in", 3, 10);
    var s := "ana@clinic.i";
    forall at, dot | 0 < at < dot < |s| ensures !EmailPartsAt(s, at, dot) {
      if dot + 2 < |s| {
        assert s[dot] != '.' by {
          assert forall k | 0 <= k < 10 :: s[k] != '.';
        }
      }
    }
  }

  // ---------------------------------------------------------------------------
  // Free time slots

  /** `fetchTimeSlots`: the active rows of `time_slots`, in the order the table returns them
      (ordered by `slot_time`). */
  function ActiveCatalogue(table: seq<TimeSlot>): (r: seq<TimeSlot>)
    ensures forall i :: 0 <= i < |r| ==> r[i].isActive && r[i] in table
    ensures forall i :: 0 <= i < |table| && table[i].isActive ==> table[i] in r
  {
    Filter(table, (s: TimeSlot) => s.isActive)
  }

  /** The rows the schedule query selects: this doctor, this weekday, active. */
  function ScheduleRowsFor(rows: seq<ScheduleRow>, doctorId: Id, weekday: int): seq<ScheduleRow>
  {
    Filter(rows, (r: ScheduleRow) => r.doctorId == doctorId && r.dayOfWeek == weekday && r.isActive)
  }

  /** The schedule query ends in `.single()`: it yields a row only when exactly one row matches;
      none, several, or a failed request is an error. */
  function DaySchedule(rows: seq<ScheduleRow>, doctorId: Id, weekday: int, fetchFails: bool): (r: Option<ScheduleRow>)
    ensures r.Some? ==> !fetchFails && ScheduleRowsFor(rows, doctorId, weekday) == [r.value]
    ensures r.Some? ==> r.value in rows && r.value.doctorId == doctorId && r.value.dayOfWeek == weekday && r.value.isActive
    ensures r.None? ==> fetchFails || |ScheduleRowsFor(rows, doctorId, weekday)| != 1
  {
    var matching := ScheduleRowsFor(rows, doctorId, weekday);
    if fetchFails || |matching| != 1 then None else Some(matching[0])
  }

  /** `bookedSlots.map(slot => slot.booking_time)` for this doctor on this date. */
  function BookedTimes(bookings: seq<Booking>, doctorId: Id, date: Day): (r: seq<string>)
    ensures forall t :: t in r <==> exists b :: b in bookings && b.doctorId == doctorId && b.bookingDate == date && b.bookingTime == t
  {
    var taken := Filter(bookings, (b: Booking) => b.doctorId == doctorId && b.bookingDate == date);
    var r := seq(|taken|, i requires 0 <= i < |taken| => taken[i].bookingTime);
    assert forall b :: b in bookings && b.doctorId == doctorId && b.bookingDate == date ==> b.bookingTime in r by {
      forall b | b in bookings && b.doctorId == doctorId && b.bookingDate == date ensures b.bookingTime in r {
        var k :| 0 <= k < |bookings| && bookings[k] == b;
        assert b in taken;
        var j :| 0 <= j < |taken| && taken[j] == b;
        assert r[j] == b.bookingTime;
      }
    }
    r
  }

  /** Inside the working window, both ends included, and not yet booked. */
  predicate SlotOpen(slot: TimeSlot, schedule: ScheduleRow, booked: seq<string>)
  {
    StrLe(schedule.startTime, slot.slotTime) && StrLe(slot.slotTime, schedule.endTime) && slot.slotTime !in booked
  }

  /** `availableSlots` after the effect on the watched doctor and date has run. `catalogue` is the
      `timeSlots` state, `weekday` what `new Date(date).getDay()` returned in the browser. */
  function AvailableSlots(
    catalogue: seq<TimeSlot>, schedules: seq<ScheduleRow>, bookings: seq<Booking>,
    doctorId: Id, date: Option<Day>, weekday: int, scheduleFetchFails: bool, bookingsFetchFails: bool): (r: seq<TimeSlot>)
    ensures doctorId == "" || date.None? ==> r == []
    ensures DaySchedule(schedules, doctorId, weekday, scheduleFetchFails).None? ==> r == []
    ensures bookingsFetchFails ==> r == []
  {
    if doctorId == "" || date.None? then []
    else
      match DaySchedule(schedules, doctorId, weekday, scheduleFetchFails)
      case None => []
      case Some(schedule) =>
        if bookingsFetchFails then []
        else
          var booked := BookedTimes(bookings, doctorId, date.value);
          Filter(catalogue, (slot: TimeSlot) => SlotOpen(slot, schedule, booked))
  }

  /** When the doctor and the date are set and both queries succeed, a slot is offered exactly when
      it is in the catalogue, lies in the window `[start_time, end_time]` and no booking of that
      doctor on that date has its time; the offered slots keep the catalogue's order. */
  lemma AvailableSlotsExact(
    catalogue: seq<TimeSlot>, schedules: seq<ScheduleRow>, bookings: seq<Booking>,
    doctorId: Id, date: Day, weekday: int, schedule: ScheduleRow)
    requires doctorId != ""
    requires DaySchedule(schedules, doctorId, weekday, false) == Some(schedule)
    ensures var r := AvailableSlots(catalogue, schedules, bookings, doctorId, Some(date), weekday, false, false);
      IsSubseq(r, catalogue) &&
      forall slot :: slot in r <==>
        slot in catalogue &&
        StrLe(schedule.startTime, slot.slotTime) && StrLe(slot.slotTime, schedule.endTime) &&
        forall b :: b in bookings && b.doctorId == doctorId && b.bookingDate == date ==> b.bookingTime != slot.slotTime
  {
    var booked := BookedTimes(bookings, doctorId, date);
    var open := (slot: TimeSlot) => SlotOpen(slot, schedule, booked);
    var r := Filter(catalogue, open);
    assert AvailableSlots(catalogue, schedules, bookings, doctorId, Some(date), weekday, false, false) == r;
    FilterIsSubseq(catalogue, open);
    forall slot ensures slot in r <==> slot in catalogue && open(slot) {
      if slot in catalogue && open(slot) {
        var k :| 0 <= k < |catalogue| && catalogue[k] == slot;
      }
      if slot in r {
        var k :| 0 <= k < |r| && r[k] == slot;
      }
    }
  }

  /** When the catalogue is in strictly ascending time order, so are the offered slots. */
  lemma AvailableSlotsAscending(
    catalogue: seq<TimeSlot>, schedules: seq<ScheduleRow>, bookings: seq<Booking>,
    doctorId: Id, date: Option<Day>, weekday: int, scheduleFetchFails: bool, bookingsFetchFails: bool)
    requires forall i, j :: 0 <= i < j < |catalogue| ==> StrLt(catalogue[i].slotTime, catalogue[j].slotTime)
    ensures var r := AvailableSlots(catalogue, schedules, bookings, doctorId, date, weekday, scheduleFetchFails, bookingsFetchFails);
      forall i, j :: 0 <= i < j < |r| ==> StrLt(r[i].slotTime, r[j].slotTime)
  {
    var r := AvailableSlots(catalogue, schedules, bookings, doctorId, date, weekday, scheduleFetchFails, bookingsFetchFails);
    var le := (a: TimeSlot, b: TimeSlot) => StrLt(a.slotTime, b.slotTime);
    if r != [] {
      var schedule := DaySchedule(schedules, doctorId, weekday, scheduleFetchFails).value;
      var open := (slot: TimeSlot) => SlotOpen(slot, schedule, BookedTimes(bookings, doctorId, date.value));
      assert r == Filter(catalogue, open);
      FilterIsSubseq(catalogue, open);
      SubseqKeepsSorted(r, catalogue, le);
    }
  }

  /** The worked example: an hourly catalogue from 08:00 to 13:00, a doctor working 09:00 to 12:00
      on Mondays (weekday 1) and one booking at 10:00 on Monday 2022-01-10 (day 19002). */
  const ExampleSlots := [TimeSlot("s1", "08:00", true), TimeSlot("s2", "09:00", true), TimeSlot("s3", "10:00", true),
                         TimeSlot("s4", "11:00", true), TimeSlot("s5", "12:00", true), TimeSlot("s6", "13:00", true)]
  const ExampleSchedules := [ScheduleRow("r1", "d1", 1, "09:00", "12:00", true)]
  const ExampleBookings := [Booking("b1", "p1", "d1", 19002, "10:00", "", "pending")]

  /** On that Monday 09:00, 11:00 and 12:00 are offered: both ends of the window are included, the
      booked 10:00 and the times outside the window are not. On the Tuesday after, which has no
      schedule row, nothing is offered. */
  lemma MondayExample()
    ensures AvailableSlots(ExampleSlots, ExampleSchedules, ExampleBookings, "d1", Some(19002), 1, false, false) ==
      [ExampleSlots[1], ExampleSlots[3], ExampleSlots[4]]
    ensures AvailableSlots(ExampleSlots, ExampleSchedules, ExampleBookings, "d1", Some(19003), 2, false, false) == []
  {
    var schedule := ExampleSchedules[0];
    assert ScheduleRowsFor(ExampleSchedules, "d1", 1) == [schedule];
    assert ScheduleRowsFor(ExampleSchedules, "d1", 2) == [];
    ExampleBookedTimes();
    ExampleWindow(schedule, ["10:00"]);
  }

  /** Day 19002 is 2022-01-10, a Monday, and day 19003 the Tuesday after. */
  lemma ExampleWeekdays()
    ensures UtcWeekday(19002) == 1 && UtcWeekday(19003) == 2
  {
  }

  lemma ExampleBookedTimes()
    ensures BookedTimes(ExampleBookings, "d1", 19002) == ["10:00"]
  {
    assert Filter(ExampleBookings, (b: Booking) => b.doctorId == "d1" && b.bookingDate == 19002) == ExampleBookings;
  }

  lemma ExampleWindow(schedule: ScheduleRow, booked: seq<string>)
    requires schedule.startTime == "09:00" && schedule.endTime == "12:00" && booked == ["10:00"]
    ensures Filter(ExampleSlots, (slot: TimeSlot) => SlotOpen(slot, schedule, booked)) ==
      [ExampleSlots[1], ExampleSlots[3], ExampleSlots[4]]
  {
    ExampleOpen(schedule, booked);
    FilterOfSix(ExampleSlots, (slot: TimeSlot) => SlotOpen(slot, schedule, booked));
  }

  lemma FilterOfSix(s: seq<TimeSlot>, open: TimeSlot -> bool)
    requires |s| == 6
    requires !open(s[0]) && open(s[1]) && !open(s[2]) && open(s[3]) && open(s[4]) && !open(s[5])
    ensures Filter(s, open) == [s[1], s[3], s[4]]
  {
    assert Filter(s[6..], open) == [] by { assert s[6..] == []; }
    assert Filter(s[5..], open) == [] by { FilterStep(s, 5, open); }
    assert Filter(s[4..], open) == [s[4]] by { FilterStep(s, 4, open); }
    assert Filter(s[3..], open) == [s[3], s[4]] by { FilterStep(s, 3, open); }
    assert Filter(s[2..], open) == [s[3], s[4]] by { FilterStep(s, 2, open); }
    assert Filter(s[1..], open) == [s[1], s[3], s[4]] by { FilterStep(s, 1, open); }
    assert Filter(s[0..], open) == [s[1], s[3], s[4]] by { FilterStep(s, 0, open); }
    assert s[0..] == s;
  }

  lemma ExampleOpen(schedule: ScheduleRow, booked: seq<string>)
    requires schedule.startTime == "09:00" && schedule.endTime == "12:00" && booked == ["10:00"]
    ensures !SlotOpen(ExampleSlots[0], schedule, booked) && SlotOpen(ExampleSlots[1], schedule, booked)
    ensures !SlotOpen(ExampleSlots[2], schedule, booked) && SlotOpen(ExampleSlots[3], schedule, booked)
    ensures SlotOpen(ExampleSlots[4], schedule, booked) && !SlotOpen(ExampleSlots[5], schedule, booked)
  {
    assert StrLt("08:00", "09:00") by { assert StrLt("8:00", "9:00"); }
    assert !StrLt("09:00", "09:00") by { StrLtIrreflexive("09:00"); }
    assert !StrLt("12:00", "12:00") by { StrLtIrreflexive("12:00"); }
    assert !StrLt("11:00", "09:00") && !StrLt("12:00", "11:00");
    assert StrLt("12:00", "13:00") by { assert StrLt("2:00", "3:00"); }
  }

  // ---------------------------------------------------------------------------
  // Submission

  /** `!patientId`: no patient id was supplied, so a patient row is created first. */
  predicate NeedsNewPatient(d: BookingDraft) { d.patientId.None? || d.patientId.value == "" }

  function PatientFor(d: BookingDraft, id: Id): Patient
    requires d.age.Some?
  {
    Patient(id, d.patientName, d.age.value, d.gender, d.phone, d.email)
  }

  /** The booking row `onSubmit` inserts. */
  function BookingFor(d: BookingDraft, id: Id, newPatientId: Id): (b: Booking)
    requires d.bookingDate.Some?
    ensures b.id == id && b.status == BookingStatus.Pending
    ensures b.notes == if d.notes.Some? then d.notes.value else ""
    ensures b.patientId == if NeedsNewPatient(d) then newPatientId else d.patientId.value
    ensures b.doctorId == d.doctorId && b.bookingDate == d.bookingDate.value && b.bookingTime == d.bookingTime
  {
    var patientId := if NeedsNewPatient(d) then newPatientId else d.patientId.value;
    Booking(id, patientId, d.doctorId, d.bookingDate.value, d.bookingTime,
            if d.notes.Some? then d.notes.value else "", BookingStatus.Pending)
  }

  datatype SubmitOutcome = Invalid | PatientInsertFailed | BookingInsertFailed | Booked

  /** The form with the two tables it writes to. */
  class BookingFormState {
    var patients: seq<Patient>
    var bookings: seq<Booking>
    var draft: BookingDraft
    var loading: bool

    constructor (patients0: seq<Patient>, bookings0: seq<Booking>)
      ensures patients == patients0 && bookings == bookings0
      ensures draft == EmptyDraft && !loading
    {
      patients, bookings := patients0, bookings0;
      draft, loading := EmptyDraft, false;
    }

    /** A field change. */
    method Edit(d: BookingDraft)
      modifies this`draft
      ensures draft == d
    {
      draft := d;
    }

    /** `handleSubmit(onSubmit)` on the day `today`. The new rows' ids are the ones the database
        assigns; each insert may fail. A patient inserted before a failed booking insert stays. */
    method Submit(today: Day, newPatientId: Id, newBookingId: Id, patientInsertFails: bool, bookingInsertFails: bool)
      returns (outcome: SubmitOutcome)
      requires !loading
      requires newPatientId != ""
      modifies this
      ensures !loading
      ensures outcome == Invalid <==> !ValidDraft(old(draft), today)
      ensures outcome == PatientInsertFailed <==>
        ValidDraft(old(draft), today) && NeedsNewPatient(old(draft)) && patientInsertFails
      ensures outcome == Booked <==>
        ValidDraft(old(draft), today) && !(NeedsNewPatient(old(draft)) && patientInsertFails) && !bookingInsertFails
      ensures outcome in {Invalid, PatientInsertFailed} ==> patients == old(patients)
      ensures outcome in {BookingInsertFailed, Booked} ==>
        patients == old(patients) + if NeedsNewPatient(old(draft)) then [PatientFor(old(draft), newPatientId)] else []
      ensures outcome == Booked ==> bookings == old(bookings) + [BookingFor(old(draft), newBookingId, newPatientId)]
      ensures outcome != Booked ==> bookings == old(bookings)
      ensures draft == if outcome == Booked then EmptyDraft else old(draft)
    {
      if !ValidDraft(draft, today) {
        return Invalid;
      }
      loading := true;
      var d := draft;
      var patientId := if d.patientId.Some? then d.patientId.value else "";
      if patientId == "" {
        if patientInsertFails {
          loading := false;
          return PatientInsertFailed;
        }
        patients := patients + [PatientFor(d, newPatientId)];
        patientId := newPatientId;
      }
      if bookingInsertFails {
        loading := false;
        return BookingInsertFailed;
      }
      var booking := Booking(newBookingId, patientId, d.doctorId, d.bookingDate.value, d.bookingTime,
                             if d.notes.Some? then d.notes.value else "", BookingStatus.Pending);
      assert booking == BookingFor(d, newBookingId, newPatientId);
      bookings := bookings + [booking];
      draft := EmptyDraft;
      loading := false;
      return Booked;
    }
  }
}
