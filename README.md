# Clinic booking front end — verified model

This project models the in-memory logic of a React clinic booking site whose data lives in remote
tables (`doctors`, `patients`, `bookings`, `cancelled_bookings`, `time_slots`, `doctor_schedules`,
`contact_messages`). The following parts are modelled:

- the patient booking form: the field rules, the computation of free time slots for a doctor and
  a date, and the submission, which creates a patient and then a pending booking;
- the admin's weekly schedule editor: the add guards, the default draft, the toggle, the delete
  and the refetch ordered by weekday;
- the booking status lifecycle shared by the admin dashboard and the registration list: the
  buttons offered, the status update, the badges and the per-status counts;
- the admin dashboard: the statistics, the recent bookings, the schedule summary, the message
  actions, the guarded doctor deletion and the CSV export;
- the list pages: the registration list, past records, the doctor directory and "My Bookings",
  with their filter chains, drop-down options and counters;
- the contact form: its rules and its `loading` / `formSubmitted` flags.

Each remote table is a sequence of rows. Each request is a step that either succeeds or fails,
and a boolean parameter says which. Values the browser or the database supplies are also
parameters: new row ids, the weekday of a date, the current time and the answer to a
confirmation dialog.

Other representation choices:

- Dates are day numbers (`Entities.Day`).
- Clock times are the strings the tables hold, compared with JavaScript's string `<`
  (`Text.StrLt`, proved a strict total order).
- State the source changes step by step is a `class` whose methods state the whole new state.
- The filter chains, counters and lookups are functions, with lemmas that relate them to an
  independent reference definition.

Worked example (`BookingForm.MondayExample`):

- The catalogue is hourly from 08:00 to 13:00.
- The doctor works Mondays from 09:00 to 12:00.
- One booking exists at 10:00 on Monday 2022-01-10 (day 19002).
- On that Monday, 09:00, 11:00 and 12:00 are offered. Both ends of the window count, and the
  booked 10:00 is not offered.
- On the Tuesday after (day 19003), which has no schedule row, nothing is offered.

## Model

| member | source | states |
|---|---|---|
| BookingForm.ActiveCatalogue | FRONTEND/src/components/BookingForm.jsx:66-79 | the catalogue holds every active `time_slots` row and nothing else |
| BookingForm.DaySchedule | FRONTEND/src/components/BookingForm.jsx:84-97 | a schedule exists only if the query succeeded and exactly one active row matches the doctor and weekday (`.single()`); otherwise there is none |
| BookingForm.BookedTimes | FRONTEND/src/components/BookingForm.jsx:100-108 | a time is booked iff some booking of that doctor on that date has it, whatever the booking's status |
| BookingForm.AvailableSlots | FRONTEND/src/components/BookingForm.jsx:81-123 | nothing is offered without a doctor or a date, without a schedule, or when the booked-times query fails |
| BookingForm.AvailableSlotsExact | FRONTEND/src/components/BookingForm.jsx:108-118 | with a schedule, a slot is offered iff it is in the catalogue, start <= time <= end (both ends included) and no booking of that doctor on that date has its time; the result is a subsequence of the catalogue |
| BookingForm.AvailableSlotsAscending | FRONTEND/src/components/BookingForm.jsx:111-116 | a catalogue in strictly ascending time order yields offered slots in strictly ascending order |
| BookingForm.MondayExample | FRONTEND/src/components/BookingForm.jsx:111-116 | the worked example above |
| BookingForm.ExampleWeekdays | FRONTEND/src/components/BookingForm.jsx:84 | day 19002 is a Monday and day 19003 a Tuesday under `getDay()` in UTC |
| Entities.UtcWeekday | FRONTEND/src/components/BookingForm.jsx:84 | `getDay()` of a date's midnight in a UTC time zone is a weekday number 0..6 |
| Entities.UtcDay | FRONTEND/src/components/BookingForm.jsx:334 | today's UTC date is the day whose midnight-to-midnight span holds the current instant |
| BookingForm.ValidPatientName | FRONTEND/src/components/BookingForm.jsx:231-233 | the name rule: at least 2 characters |
| BookingForm.ValidAge | FRONTEND/src/components/BookingForm.jsx:249-252 | the age rule: present and from 1 to 120 inclusive |
| BookingForm.ValidPhone | FRONTEND/src/components/BookingForm.jsx:287-292 | the phone rule: non-empty, only digits, `+`, `-`, white space and brackets |
| BookingForm.ValidOptionalEmail | FRONTEND/src/components/BookingForm.jsx:309-313 | the e-mail rule: empty, or matching the e-mail pattern |
| BookingForm.ValidBookingDate | FRONTEND/src/components/BookingForm.jsx:332-334 | the date rule: present and not before today's UTC date (the input's `min`) |
| BookingForm.ValidDraft | FRONTEND/src/components/BookingForm.jsx:207-348 | `onSubmit` runs only when doctor, gender and time are chosen and every field rule holds |
| BookingForm.ValidDraftExamples | FRONTEND/src/components/BookingForm.jsx:332-334 | the untouched form is refused; a filled-in draft dated today is accepted and the same draft dated yesterday is refused |
| BookingForm.PhoneRuleExamples | FRONTEND/src/components/BookingForm.jsx:287-292 | digits, `+`, `-`, spaces and brackets pass the phone rule; a letter fails it |
| BookingForm.EmailRuleExamples | FRONTEND/src/components/BookingForm.jsx:309-313 | an empty e-mail passes; a full address passes; a one-letter top-level domain fails |
| BookingForm.BookingFor | FRONTEND/src/components/BookingForm.jsx:163-175 | the booking row has the new id and is `pending`; its notes are "" when none are given; its patient is the new patient when no id was supplied; doctor, date and time are as entered |
| BookingForm.BookingFormState.Submit | FRONTEND/src/components/BookingForm.jsx:138-190 | an invalid draft (including one dated before today) changes nothing; the booking is made iff the draft is valid, the patient insert (when one is needed) succeeds and the booking insert succeeds; the patient row is inserted first, then the booking; a failed booking insert keeps the new patient row; success appends exactly those rows and clears the form; `loading` ends false |
| ScheduleManager.DaysOfWeekAreTheWeekdays | FRONTEND/src/components/DoctorScheduleManager.jsx:16-24 | the day selector offers the values 0..6 in order |
| ScheduleManager.DayName | FRONTEND/src/components/DoctorScheduleManager.jsx:217 | a row has a day name iff its weekday is 0..6 |
| ScheduleManager.SortByDay | FRONTEND/src/components/DoctorScheduleManager.jsx:34-38 | the rows come back ordered by weekday and as a permutation of the selected rows |
| ScheduleManager.Shown | FRONTEND/src/components/DoctorScheduleManager.jsx:32-46 | the list holds exactly this doctor's rows, ordered by weekday |
| ScheduleManager.AddCheck | FRONTEND/src/components/DoctorScheduleManager.jsx:48-64 | a missing time, then `start >= end`, then an existing row for the weekday is rejected, in that order; the draft passes iff both times are set, start < end and no row has its weekday |
| ScheduleManager.DefaultDraftAccepted | FRONTEND/src/components/DoctorScheduleManager.jsx:9-14 | the default draft (Monday, 09:00 to 17:00, active) passes the guards for a doctor without rows |
| ScheduleManager.AddKeepsDaysUnique | FRONTEND/src/components/DoctorScheduleManager.jsx:59-64 | when the list reflects the table, an add that passes the guards keeps the doctor's weekdays unique |
| ScheduleManager.AddedRowHasWindow | FRONTEND/src/components/DoctorScheduleManager.jsx:54-57 | every added row has non-empty times with start strictly before end |
| ScheduleManager.SetActive | FRONTEND/src/components/DoctorScheduleManager.jsx:96-102 | only `is_active` of the rows with that id changes |
| ScheduleManager.ToggleTwiceRestores | FRONTEND/src/components/DoctorScheduleManager.jsx:138-140 | toggling twice, each time from the flag shown, restores the table |
| ScheduleManager.WithoutRow | FRONTEND/src/components/DoctorScheduleManager.jsx:121-124 | the delete removes exactly the rows with that id |
| ScheduleManager.Editor.constructor | FRONTEND/src/components/DoctorScheduleManager.jsx:6-30 | the editor opens with the default draft and this doctor's rows, or an empty list if the fetch fails |
| ScheduleManager.Editor.Refetch | FRONTEND/src/components/DoctorScheduleManager.jsx:32-46 | a successful fetch shows `Shown(table)`; a failed one keeps the list |
| ScheduleManager.Editor.EditDraft | FRONTEND/src/components/DoctorScheduleManager.jsx:163-189 | the inputs replace the draft; the weekday is one the selector offers and `is_active` stays true |
| ScheduleManager.Editor.AddSchedule | FRONTEND/src/components/DoctorScheduleManager.jsx:48-94 | a rejected or failed add changes nothing; a successful add appends exactly the doctor's id and the entered day, times and flag, refetches and resets the draft to the default |
| ScheduleManager.Editor.ToggleScheduleStatus | FRONTEND/src/components/DoctorScheduleManager.jsx:96-114 | the update writes the negation of the flag shown, to that row only, then refetches |
| ScheduleManager.Editor.DeleteSchedule | FRONTEND/src/components/DoctorScheduleManager.jsx:116-136 | nothing happens without confirmation; otherwise the row is deleted and the list refetched |
| BookingStatus.StatusConfig | FRONTEND/src/pages/AdminDashboard.jsx:34-42 | pending, confirmed, cancelled and completed each get their own entry; any other status gets the pending entry |
| BookingStatus.StatusBadge | FRONTEND/src/pages/AdminDashboard.jsx:34-49 | the badge has the configured colour and shows the status with its first character upper-cased |
| BookingStatus.MyBookingsBadge | FRONTEND/src/pages/MyBookings.jsx:67-84 | an unknown status shows the pending colour and the text "Pending" |
| BookingStatus.BadgesAgreeOnKnownStatuses | FRONTEND/src/pages/MyBookings.jsx:75 | for the four statuses the two badges are identical; for others both use the pending colour |
| BookingStatus.StatusConfigAsWritten | FRONTEND/src/pages/AdminDashboard.jsx:42 | `statusConfig[status] \|\| statusConfig.pending` as written: an own entry, else no configuration for an inherited member, else the pending entry |
| BookingStatus.StatusConfigLookupAsWritten | FRONTEND/src/pages/AdminDashboard.jsx:42 | property lookup on the config object: own entry, inherited member, or nothing |
| BookingStatus.StatusConfigAsWrittenMissesInheritedKeys | FRONTEND/src/pages/RegistrationList.jsx:115 | the written fallback gives no configuration exactly for the inherited names (e.g. "toString") and agrees with `StatusConfig` elsewhere |
| BookingStatus.OfferedStatuses | FRONTEND/src/pages/AdminDashboard.jsx:1023-1049 | completed and cancelled bookings get no buttons; the buttons only lead to known, non-pending statuses |
| BookingStatus.OfferedAreLegal | FRONTEND/src/pages/RegistrationList.jsx:318-341 | a status is offered iff the change is pending→confirmed, pending→cancelled or confirmed→completed |
| BookingStatus.OfferedPathRanks | FRONTEND/src/pages/AdminDashboard.jsx:1023-1049 | each offered step strictly increases the lifecycle rank |
| BookingStatus.OfferedPathIsShort | FRONTEND/src/pages/AdminDashboard.jsx:1023-1049 | by pressing buttons a booking passes through at most three statuses and never returns to one |
| BookingStatus.MatchesSearch | FRONTEND/src/pages/RegistrationList.jsx:69-75 | the search: the patient's or the doctor's name contains the term ignoring case, or the patient's phone contains it verbatim; a missing patient or doctor does not match |
| BookingStatus.UpdateStatus | FRONTEND/src/pages/AdminDashboard.jsx:215-220 | only the status of the bookings with that id changes; everything else stays |
| BookingStatus.SetStatus | FRONTEND/src/pages/RegistrationList.jsx:90-95 | the same update on the table rows |
| BookingStatus.EmbedSetStatus | FRONTEND/src/pages/RegistrationList.jsx:90-105 | refetching after the table update equals the update applied to the embedded list |
| BookingStatus.UpdateStatusIdempotent | FRONTEND/src/pages/AdminDashboard.jsx:215-220 | repeating an update changes nothing |
| BookingStatus.StatusOptions | FRONTEND/src/pages/RegistrationList.jsx:126-129 | the options have no duplicates; each option is some booking's status; every booking's status is an option |
| BookingStatus.CountStatus | FRONTEND/src/pages/RegistrationList.jsx:362-384 | a per-status count is at most the number of bookings |
| BookingStatus.StatusCountsBounded | FRONTEND/src/pages/RegistrationList.jsx:362-384 | pending + confirmed + completed + cancelled is at most the number of bookings |
| AdminDashboard.GetStats | FRONTEND/src/pages/AdminDashboard.jsx:118-138 | totals are the collection sizes; pending + completed + cancelled <= total bookings; unread <= total messages |
| AdminDashboard.RecentBookings | FRONTEND/src/pages/AdminDashboard.jsx:532 | the first min(5, n) bookings, in order |
| AdminDashboard.ScheduleDisplay | FRONTEND/src/pages/AdminDashboard.jsx:640-647 | no rows shows "No schedule set"; otherwise the first min(k, 2) rows show, plus "+N more" exactly when N = k - 2 > 0 |
| AdminDashboard.MarkRead | FRONTEND/src/pages/AdminDashboard.jsx:232-237 | only `read` of the messages with that id changes, to true |
| AdminDashboard.MarkReadIdempotent | FRONTEND/src/pages/AdminDashboard.jsx:232-247 | marking twice is marking once |
| AdminDashboard.MarkReadUnreadCount | FRONTEND/src/pages/AdminDashboard.jsx:126 | after marking, the unread count is the number of unread messages with another id |
| AdminDashboard.WithoutMessage | FRONTEND/src/pages/AdminDashboard.jsx:249-266 | the delete removes exactly the messages with that id |
| AdminDashboard.DeleteDoctorProceedsAsWritten | FRONTEND/src/pages/AdminDashboard.jsx:181-189 | the guard as written: the delete goes ahead unless the check succeeded and found a booking |
| AdminDashboard.DeleteDoctorProceeds | FRONTEND/src/pages/AdminDashboard.jsx:181-189 | the corrected guard: the delete goes ahead only when the check succeeded and found no booking |
| AdminDashboard.DeleteGuardAsWrittenIgnoresQueryError | FRONTEND/src/pages/AdminDashboard.jsx:181-189 | as written, a failed check query lets a doctor with a booking be deleted |
| AdminDashboard.DeleteGuardExact | FRONTEND/src/pages/AdminDashboard.jsx:176-204 | the intended guard lets a deletion through iff the check succeeded and no booking references the doctor; it agrees with the written guard whenever the check succeeds |
| AdminDashboard.WithoutDoctor | FRONTEND/src/pages/AdminDashboard.jsx:191-194 | the delete removes exactly the doctors with that id |
| AdminDashboard.HeaderLine | FRONTEND/src/pages/AdminDashboard.jsx:299 | the header: the first record's keys joined by `,`, or "" without records |
| AdminDashboard.ValueLines | FRONTEND/src/pages/AdminDashboard.jsx:300 | one line per record: its values joined by `,` |
| AdminDashboard.Csv | FRONTEND/src/pages/AdminDashboard.jsx:299-300 | the header and the value lines joined by line breaks, nothing quoted |
| AdminDashboard.CsvFields | FRONTEND/src/pages/AdminDashboard.jsx:299-300 | without commas or line breaks in the data, line 0 of the file splits back into the first record's keys and line i + 1 into record i's values |
| AdminDashboard.CsvLines | FRONTEND/src/pages/AdminDashboard.jsx:299-300 | without line breaks in the data, the file splits into the header (the first record's keys) and one line per record: n + 1 lines |
| AdminDashboard.ExportData | FRONTEND/src/pages/AdminDashboard.jsx:268-316 | each of the five table names exports that table's CSV as `<name>.csv`; any other name produces nothing |
| AdminDashboard.Dashboard.UpdateBookingStatus | FRONTEND/src/pages/AdminDashboard.jsx:215-230 | only an offered, legal transition is requested; only that booking's status changes, in the table and on screen |
| AdminDashboard.Dashboard.MarkMessageAsRead | FRONTEND/src/pages/AdminDashboard.jsx:232-247 | offered only for an unread message; the table becomes `MarkRead` of it |
| AdminDashboard.Dashboard.DeleteMessage | FRONTEND/src/pages/AdminDashboard.jsx:249-266 | nothing happens without confirmation or on failure; otherwise that message is removed |
| AdminDashboard.Dashboard.DeleteDoctor | FRONTEND/src/pages/AdminDashboard.jsx:176-204 | with the corrected guard (see Findings): a doctor is deleted only after confirmation, a successful check that finds no booking for them, and a successful delete; a failed check and a found booking are reported as separate outcomes |
| RegistrationList.FilterBookings | FRONTEND/src/pages/RegistrationList.jsx:65-88 | the successive filters give exactly the bookings that every set filter keeps |
| RegistrationList.FilteredExact | FRONTEND/src/pages/RegistrationList.jsx:69-85 | the result is a subsequence of the bookings; a booking is kept iff the search (lower-cased names, verbatim phone), the exact status and the exact date all let it through |
| RegistrationList.NoFiltersShowAll | FRONTEND/src/pages/RegistrationList.jsx:65-88 | with all filters empty the list is all bookings |
| RegistrationList.BookingSummary | FRONTEND/src/pages/RegistrationList.jsx:362-384 | the four summary counts add up to at most the number of bookings |
| RegistrationList.RegistrationPage.ShownAtMostTotal | FRONTEND/src/pages/RegistrationList.jsx:223 | "Showing x of y" has x <= y |
| RegistrationList.RegistrationPage.constructor | FRONTEND/src/pages/RegistrationList.jsx:27-63 | the page loads the embedded bookings, or none if the fetch fails, with no filter set |
| RegistrationList.RegistrationPage.SetFilters | FRONTEND/src/pages/RegistrationList.jsx:31-33 | a filter change recomputes the filtered list |
| RegistrationList.RegistrationPage.UpdateBookingStatus | FRONTEND/src/pages/RegistrationList.jsx:90-105 | only an offered transition is requested; the table changes only that booking's status; the refetched list is the updated one and is refiltered |
| PastRecord.PassesRange | FRONTEND/src/pages/PastRecord.jsx:82-89 | the range keeps a booking when either end is empty, or when start <= date <= end |
| PastRecord.FilterRecords | FRONTEND/src/pages/PastRecord.jsx:64-92 | the filter chain equals one filter by search, status and date range |
| PastRecord.FilterRecordsExact | FRONTEND/src/pages/PastRecord.jsx:64-91 | a subsequence of the bookings; a booking is kept iff it passes the search and the status, and, when both ends are set, start <= date <= end |
| PastRecord.HalfRangeIgnored | FRONTEND/src/pages/PastRecord.jsx:82 | with only one end of the range set, the range has no effect |
| PastRecord.GetPatientStats | FRONTEND/src/pages/PastRecord.jsx:118-130 | unique patients is the number of distinct patient ids and at most the total; completed + cancelled <= total |
| DoctorDirectory.FilterDoctors | FRONTEND/src/pages/Doctor.jsx:43-62 | the filter chain equals one filter by search and speciality |
| DoctorDirectory.FilterDoctorsExact | FRONTEND/src/pages/Doctor.jsx:43-62 | a subsequence of the doctors; all of them when both inputs are empty; a doctor is kept iff its lower-cased name or speciality contains the lower-cased term and the speciality matches exactly |
| DoctorDirectory.SpecialityOptions | FRONTEND/src/pages/Doctor.jsx:64 | every speciality appears exactly once and nothing else appears |
| DoctorDirectory.CountNoun | FRONTEND/src/pages/Doctor.jsx:151 | "doctor" exactly when the count is 1, "doctors" otherwise |
| MyBookings.BookingsQueryAsWritten | FRONTEND/src/pages/MyBookings.jsx:32-40 | every booking is returned, in order; the embedded patient is kept only where the e-mail matches |
| MyBookings.BookingsQueryAsWrittenListsOthers | FRONTEND/src/pages/MyBookings.jsx:39 | another patient's booking is listed to the user |
| MyBookings.BookingsQuery | FRONTEND/src/pages/MyBookings.jsx:32-55 | exactly the bookings whose patient has the user's e-mail |
| MyBookings.BookingsQueryRelation | FRONTEND/src/pages/MyBookings.jsx:39 | the intended result keeps the order; on the user's rows the written query agrees with it, and elsewhere its patient is null |
| MyBookings.FetchUserBookings | FRONTEND/src/pages/MyBookings.jsx:23-65 | with the corrected query (see Findings): without an e-mail nothing is fetched and loading ends; when both queries succeed the lists are the user's own active and cancelled bookings; otherwise they stay; loading always ends |
| MyBookings.GetCounters | FRONTEND/src/pages/MyBookings.jsx:130-132 | total = active + cancelled; upcoming and completed are each at most the active count; upcoming + past = active |
| MyBookings.UpcomingByDay | FRONTEND/src/pages/MyBookings.jsx:131 | a booking for today stops being upcoming once the day (UTC) has begun; one for tomorrow is upcoming |
| Contact.ValidName | FRONTEND/src/pages/Contact.jsx:185-187 | the name rule: at least 2 characters |
| Contact.ValidEmail | FRONTEND/src/pages/Contact.jsx:203-209 | the e-mail rule: required and matching the e-mail pattern |
| Contact.ValidMessage | FRONTEND/src/pages/Contact.jsx:224-226 | the message rule: at least 10 characters |
| Contact.ValidContact | FRONTEND/src/pages/Contact.jsx:177 | `onSubmit` runs only when all three rules hold |
| Contact.EmailRequired | FRONTEND/src/pages/Contact.jsx:203-209 | an empty e-mail is rejected; a complete message passes |
| Contact.ContactPage.constructor | FRONTEND/src/pages/Contact.jsx:16-17 | the page starts with an empty form and both flags false |
| Contact.ContactPage.Submit | FRONTEND/src/pages/Contact.jsx:26-50 | an invalid form changes nothing; a successful insert appends the message, sets `formSubmitted` and clears the form; a failed insert leaves `formSubmitted` false; `loading` ends false |
| Contact.ContactPage.SendAnother | FRONTEND/src/pages/Contact.jsx:107 | "Send Another Message" sets `formSubmitted` to false |
| Entities.Embed | FRONTEND/src/pages/RegistrationList.jsx:37-53 | every booking row is kept in order; a patient (doctor) is embedded iff a row with the referenced id exists, and it is that row |
| Text.StrLeIsOrder | FRONTEND/src/components/BookingForm.jsx:113 | JavaScript's string `<=` is reflexive and antisymmetric, and `<=` means `==` or `<` |
| Text.EmailShapeIff | FRONTEND/src/pages/Contact.jsx:206 | the e-mail pattern matches iff the string, split at its first `@` and its last `.`, has valid parts |
| Text.Capitalize | FRONTEND/src/pages/AdminDashboard.jsx:46 | the first character is upper-cased and the rest is kept |
| Text.Lower | FRONTEND/src/pages/Doctor.jsx:49 | every character is lower-cased, and the length is kept |
| Seqs.Dedup | FRONTEND/src/pages/Doctor.jsx:64 | `[...new Set(xs)]` has no duplicates and the same members as `xs` |
| Seqs.DedupSize | FRONTEND/src/pages/PastRecord.jsx:122 | the size of the Set is the number of distinct values, at most the length |
| Seqs.FilterFuse | FRONTEND/src/pages/RegistrationList.jsx:65-88 | two successive filters are one filter by the conjunction |
| Seqs.SplitJoin | FRONTEND/src/pages/AdminDashboard.jsx:300 | splitting a join restores the pieces when no piece contains the separator |

## Left out

- All network requests are left out. Each table is a sequence; each request is a step whose
  failure is a boolean parameter; database-generated ids are parameters.
- Supabase ordering of rows (by name, `created_at` or `booking_date`) is not modelled. Each table
  is held in the order its query returns it. The only modelled sort is the schedule editor's
  `.order('day_of_week')`, and the order of rows that share a weekday is not specified there.
- `new Date(date).getDay()` depends on the time zone. The weekday is an input to
  `BookingForm.AvailableSlots`.
- `new Date()` is the parameter `nowMs`. Dates are day numbers, where the source has
  `YYYY-MM-DD` strings.
- AdminDashboard.Dashboard: every change is followed by a successful `fetchAllData`, so the
  dashboard shows its tables. The `|| []` fallback of a failed refetch is not modelled.
- AdminDashboard.ExportData: values arrive already rendered as text, where JavaScript's `join`
  renders `null` as "" and embedded rows as "[object Object]". The Blob download is not
  modelled.
- Text.Lower: lower-cases ASCII letters only. JavaScript `toLowerCase` covers all of Unicode.
- Text.Capitalize: upper-cases ASCII letters only and keeps the length. JavaScript `toUpperCase`
  covers all of Unicode and can lengthen a string ('ß' becomes "SS"). The same holds for
  BookingStatus.StatusBadge, which uses it.
- BookingForm.ValidOptionalEmail and Contact.ValidEmail: the browser's own check of
  `type="email"` is not modelled. It refuses some addresses the pattern accepts, such as
  `ana@x..co` or `ana@-x.co`, so the model accepts more than the page submits. The date input's
  `min` is modelled (BookingForm.ValidBookingDate); `type="number"` on the age is covered by the
  age being an integer.
- AdminDashboard.Dashboard.DeleteDoctor: uses the corrected guard. As written, a failed check
  query lets the delete through (see Findings); that behaviour is modelled only by
  AdminDashboard.DeleteDoctorProceedsAsWritten.
- MyBookings.FetchUserBookings: uses the corrected query. As written, every booking is listed,
  with a null patient on other patients' rows (see Findings); that behaviour is modelled only by
  MyBookings.BookingsQueryAsWritten.
- Lengths count Dafny characters, where JavaScript `minLength` counts UTF-16 code units. The two
  differ only for characters outside the Basic Multilingual Plane.
- BookingForm.BookingFormState.Submit: the age is an integer or absent. `parseInt` of a
  fractional or malformed field is not modelled.
- BookingForm.BookingFormState.Submit: the chosen time is not re-checked against bookings made
  meanwhile. The source does not check it either, and the race is concurrency.
- Contact.ContactPage.Submit: the new message is unread. The insert does not set `read`, so this
  relies on the column's default.
- Display-only code is left out:
  - time formatting (`toLocaleTimeString`, `date-fns`) and the weekday abbreviations of the
    schedule summary;
  - toasts, modals, tabs and icons.
- Sign-in is left out: the identity provider, the admin password check with its timer, and the
  `localStorage` flag.
- The callbacks `onBookingComplete` and `onScheduleUpdated` are left out.
- Adding and editing doctors are not part of this model.
- ScheduleManager.Editor.ToggleScheduleStatus: `updateSchedule` takes any partial row, but its
  only caller passes `{ is_active }`, so only that update is modelled.
- `fetchSchedules`, `fetchAllData` and the other refetches are not awaited. Each is modelled as
  completing before the next action.

## Findings

| source | as written | input that shows it | evidently intended | confidence | as-written member | corrected member |
|---|---|---|---|---|---|---|
| FRONTEND/src/pages/MyBookings.jsx:39 | `.eq('patients.email', email)` without `!inner` filters the embedded patient, not the bookings | user `ana@clinic.in`; a booking of patient `ravi@clinic.in`: it is listed to her, with a null patient | only the user's own bookings are listed and counted | medium, not executed; rests on PostgREST's rule for filters on embedded resources | MyBookings.BookingsQueryAsWrittenListsOthers | MyBookings.BookingsQuery |
| FRONTEND/src/pages/AdminDashboard.jsx:181-189 | the check query's error is dropped (`const { data: bookings }`), so a failed check reads as "no bookings" | the check query fails while booking `b1` references doctor `d1`: the delete of `d1` is sent | never delete a doctor unless the check succeeded and found no booking | medium, not executed; a foreign key in the database, if present, would still reject the delete | AdminDashboard.DeleteGuardAsWrittenIgnoresQueryError | AdminDashboard.DeleteGuardExact |
| FRONTEND/src/pages/AdminDashboard.jsx:42 | `statusConfig[status] \|\| statusConfig.pending` reads inherited members of a plain object | status `"toString"`: the lookup yields a function, whose `color` and `icon` are undefined. The admin badge gets no colour and no icon. In MyBookings.jsx:76-80, PastRecord.jsx:103-107 and RegistrationList.jsx:116-120, `<Icon/>` with `Icon` undefined makes React throw during render | unknown statuses get the pending style | low, not executed; needs a status value outside the four the application writes | BookingStatus.StatusConfigAsWrittenMissesInheritedKeys | BookingStatus.StatusConfig |
