/** The rows of the clinic's remote tables, as the components receive them. */
module Entities {

  datatype Option<T> = None | Some(value: T)

  /** Row identifiers are strings; an empty string stands for a missing (falsy) id. */
  type Id = string

  /** A calendar date (`booking_date`, a date input) as the number of days since 1970-01-01 (UTC).
      `new Date("YYYY-MM-DD")` is midnight UTC of that day, so comparing two such `Date`s
      compares the day numbers. */
  type Day = int

  const MillisPerDay: int := 86400000

  /** `new Date().toISOString().split('T')[0]`: the UTC date of the instant `nowMs` (milliseconds
      since 1970-01-01 UTC). Dafny's `/` rounds down here, as the calendar does before 1970. */
  function UtcDay(nowMs: int): (d: Day)
    ensures d * MillisPerDay <= nowMs < (d + 1) * MillisPerDay
  {
    nowMs / MillisPerDay
  }

  /** `getDay()` of a date's midnight in a UTC time zone (0 = Sunday); 1970-01-01 was a Thursday. */
  function UtcWeekday(day: Day): (w: int)
    ensures 0 <= w <= 6
  {
    (day + 4) % 7
  }

  datatype Doctor = Doctor(id: Id, name: string, speciality: string, experience: int, registrationNo: string)

  datatype Patient = Patient(id: Id, name: string, age: int, gender: string, phone: string, email: string)

  /** A row of `time_slots`: one bookable clock time such as "09:30:00". */
  datatype TimeSlot = TimeSlot(id: Id, slotTime: string, isActive: bool)

  /** A row of `doctor_schedules`: a doctor's working window on one weekday (0 = Sunday). */
  datatype ScheduleRow = ScheduleRow(
    id: Id, doctorId: Id, dayOfWeek: int, startTime: string, endTime: string, isActive: bool)

  /** A row of `bookings` (and of `cancelled_bookings`). */
  datatype Booking = Booking(
    id: Id, patientId: Id, doctorId: Id, bookingDate: Day, bookingTime: string, notes: string, status: string)

  /** A booking as a select with embedded `patients (...)` and `doctors (...)` returns it: an
      embedded resource is null when no row matches. */
  datatype BookingView = BookingView(row: Booking, patient: Option<Patient>, doctor: Option<Doctor>)

  /** A row of `contact_messages`. */
  datatype ContactMessage = ContactMessage(id: Id, name: string, email: string, message: string, read: bool)

  /** The first row whose id is `id`, as an embedded resource finds the row a foreign key names. */
  function FindById<T>(rows: seq<T>, idOf: T -> Id, id: Id): (r: Option<T>)
    ensures r.Some? ==> r.value in rows && idOf(r.value) == id
    ensures r.None? <==> forall i :: 0 <= i < |rows| ==> idOf(rows[i]) != id
  {
    if rows == [] then None
    else if idOf(rows[0]) == id then Some(rows[0])
    else FindById(rows[1..], idOf, id)
  }

  function PatientId(p: Patient): Id { p.id }

  function DoctorId(d: Doctor): Id { d.id }

  /** `select('*, patients (...), doctors (...)')` on a bookings table: every row, in order, with the
      patient and doctor it references embedded. */
  function Embed(rows: seq<Booking>, patients: seq<Patient>, doctors: seq<Doctor>): (r: seq<BookingView>)
    ensures |r| == |rows|
    ensures forall i :: 0 <= i < |rows| ==> r[i].row == rows[i]
    ensures forall i :: 0 <= i < |rows| && r[i].patient.Some? ==> r[i].patient.value.id == rows[i].patientId
    ensures forall i :: 0 <= i < |rows| && r[i].doctor.Some? ==> r[i].doctor.value.id == rows[i].doctorId
    ensures forall i :: 0 <= i < |rows| ==> (r[i].patient.Some? <==> exists p :: p in patients && p.id == rows[i].patientId)
    ensures forall i :: 0 <= i < |rows| ==> (r[i].doctor.Some? <==> exists d :: d in doctors && d.id == rows[i].doctorId)
  {
    var r := seq(|rows|, i requires 0 <= i < |rows| =>
      BookingView(rows[i], FindById(patients, PatientId, rows[i].patientId), FindById(doctors, DoctorId, rows[i].doctorId)));
    forall i | 0 <= i < |rows|
      ensures r[i].patient.Some? <==> exists p :: p in patients && p.id == rows[i].patientId
      ensures r[i].doctor.Some? <==> exists d :: d in doctors && d.id == rows[i].doctorId
    {
      if exists p :: p in patients && p.id == rows[i].patientId {
        var p :| p in patients && p.id == rows[i].patientId;
        var k :| 0 <= k < |patients| && patients[k] == p;
        assert PatientId(patients[k]) == rows[i].patientId;
      }
      if exists d :: d in doctors && d.id == rows[i].doctorId {
        var d :| d in doctors && d.id == rows[i].doctorId;
        var k :| 0 <= k < |doctors| && doctors[k] == d;
        assert DoctorId(doctors[k]) == rows[i].doctorId;
      }
    }
    r
  }
}
