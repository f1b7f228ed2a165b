/** The admin's schedule editor for one doctor: the weekly rows of `doctor_schedules`, the draft of
    a new row, and the add, toggle and delete actions. */
module ScheduleManager {
  import opened Entities
  import opened Seqs
  import opened Text

  /** The "Add New Schedule" inputs. */
  datatype ScheduleDraft = ScheduleDraft(dayOfWeek: int, startTime: string, endTime: string, isActive: bool)

  /** The draft the editor opens with and returns to after a successful add: Monday, 09:00 to 17:00,
      active. */
  const DefaultDraft := ScheduleDraft(1, "09:00", "17:00", true)

  /** One option of the day selector. */
  datatype DayOption = DayOption(value: int, name: string)

  const DaysOfWeek := [
    DayOption(0, "Sunday"), DayOption(1, "Monday"), DayOption(2, "Tuesday"), DayOption(3, "Wednesday"),
    DayOption(4, "Thursday"), DayOption(5, "Friday"), DayOption(6, "Saturday")]

  /** The selector offers the weekdays 0 (Sunday) to 6 (Saturday), each once, in order. */
  lemma DaysOfWeekAreTheWeekdays()
    ensures |DaysOfWeek| == 7
    ensures forall i :: 0 <= i < |DaysOfWeek| ==> DaysOfWeek[i].value == i
  {
  }

  /** `daysOfWeek.find(d => d.value === day)?.label`: the name shown for a row. */
  function DayName(day: int): (r: Option<string>)
    ensures r.Some? <==> 0 <= day <= 6
    ensures r.Some? ==> r.value == DaysOfWeek[day].name
  {
    if 0 <= day < |DaysOfWeek| then Some(DaysOfWeek[day].name) else None
  }

  // ---------------------------------------------------------------------------
  // The rows the editor shows

  predicate SortedByDay(s: seq<ScheduleRow>)
  {
    forall i, j :: 0 <= i < j < |s| ==> s[i].dayOfWeek <= s[j].dayOfWeek
  }

  function InsertByDay(x: ScheduleRow, s: seq<ScheduleRow>): (r: seq<ScheduleRow>)
    requires SortedByDay(s)
    ensures forall k :: 0 <= k < |r| ==> r[k] == x || r[k] in s
    ensures SortedByDay(r)
    ensures multiset(r) == multiset(s) + multiset{x}
  {
    if s == [] then [x]
    else if x.dayOfWeek <= s[0].dayOfWeek then
      SortedHeadIsLeast(s);
      ConsSorted(x, s);
      [x] + s
    else
      assert s == [s[0]] + s[1..];
      var rest := InsertByDay(x, s[1..]);
      SortedHeadIsLeast(s);
      ConsSorted(s[0], rest);
      [s[0]] + rest
  }

  lemma SortedHeadIsLeast(s: seq<ScheduleRow>)
    requires SortedByDay(s) && s != []
    ensures SortedByDay(s[1..])
    ensures forall y :: y in s ==> s[0].dayOfWeek <= y.dayOfWeek
  {
    forall y | y in s ensures s[0].dayOfWeek <= y.dayOfWeek {
      var k :| 0 <= k < |s| && s[k] == y;
    }
  }

  lemma ConsSorted(h: ScheduleRow, rest: seq<ScheduleRow>)
    requires SortedByDay(rest)
    requires forall k :: 0 <= k < |rest| ==> h.dayOfWeek <= rest[k].dayOfWeek
    ensures SortedByDay([h] + rest)
  {
    var r := [h] + rest;
    forall i, j | 0 <= i < j < |r| ensures r[i].dayOfWeek <= r[j].dayOfWeek {
      assert r[j] == rest[j - 1];
      if i > 0 {
        assert r[i] == rest[i - 1];
      }
    }
  }

  /** `.order('day_of_week')`: the rows ordered by weekday. */
  function SortByDay(s: seq<ScheduleRow>): (r: seq<ScheduleRow>)
    ensures SortedByDay(r)
    ensures multiset(r) == multiset(s)
  {
    if s == [] then []
    else
      assert s == [s[0]] + s[1..];
      InsertByDay(s[0], SortByDay(s[1..]))
  }

  function ForDoctor(doctorId: Id): ScheduleRow -> bool
  {
    (r: ScheduleRow) => r.doctorId == doctorId
  }

  /** `fetchSchedules`: this doctor's rows of the table, ordered by weekday. */
  function Shown(table: seq<ScheduleRow>, doctorId: Id): (r: seq<ScheduleRow>)
    ensures SortedByDay(r)
    ensures forall x :: x in r <==> x in table && x.doctorId == doctorId
  {
    var mine := Filter(table, ForDoctor(doctorId));
    var r := SortByDay(mine);
    assert forall x :: x in r <==> x in mine by {
      forall x ensures x in r <==> x in mine {
        assert x in r <==> x in multiset(r);
      }
    }
    assert forall x :: x in mine <==> x in table && x.doctorId == doctorId by {
      forall x ensures x in mine <==> x in table && x.doctorId == doctorId {
        if x in table && x.doctorId == doctorId {
          var k :| 0 <= k < |table| && table[k] == x;
        }
        if x in mine {
          var k :| 0 <= k < |mine| && mine[k] == x;
        }
      }
    }
    r
  }

  /** No two rows share a weekday. */
  predicate DaysUnique(s: seq<ScheduleRow>)
  {
    forall i, j :: 0 <= i < j < |s| ==> s[i].dayOfWeek != s[j].dayOfWeek
  }

  // ---------------------------------------------------------------------------
  // Adding a row

  datatype AddOutcome = MissingTime | EndNotAfterStart | DayTaken | InsertFailed | Added

  /** The three guards of `addSchedule`, in their order, against the rows on screen: `None` when the
      draft passes them all. A time is compared as the string the time input holds. */
  function AddCheck(shown: seq<ScheduleRow>, d: ScheduleDraft): (r: Option<AddOutcome>)
    ensures r == Some(MissingTime) <==> d.startTime == "" || d.endTime == ""
    ensures r == Some(EndNotAfterStart) <==> d.startTime != "" && d.endTime != "" && StrLe(d.endTime, d.startTime)
    ensures r.None? <==>
      d.startTime != "" && d.endTime != "" && StrLt(d.startTime, d.endTime) &&
      forall i :: 0 <= i < |shown| ==> shown[i].dayOfWeek != d.dayOfWeek
    ensures r.Some? ==> r.value == MissingTime || r.value == EndNotAfterStart || r.value == DayTaken
  {
    if d.startTime == "" || d.endTime == "" then Some(MissingTime)
    else if !StrLt(d.startTime, d.endTime) then Some(EndNotAfterStart)
    else if exists i :: 0 <= i < |shown| && shown[i].dayOfWeek == d.dayOfWeek then Some(DayTaken)
    else None
  }

  /** The default draft passes the guards on a doctor without rows. */
  lemma DefaultDraftAccepted()
    ensures AddCheck([], DefaultDraft).None?
  {
    assert StrLt("09:00", "17:00") by {
      assert "09:00"[0] < "17:00"[0];
    }
  }

  /** The row the insert sends: this doctor's id and exactly the entered day, times and flag. */
  function NewRow(doctorId: Id, d: ScheduleDraft, id: Id): ScheduleRow
  {
    ScheduleRow(id, doctorId, d.dayOfWeek, d.startTime, d.endTime, d.isActive)
  }

  /** Adding through the guards keeps a doctor's weekdays unique, as long as the rows on screen are
      the doctor's current rows. */
  lemma AddKeepsDaysUnique(table: seq<ScheduleRow>, doctorId: Id, d: ScheduleDraft, id: Id)
    requires DaysUnique(Filter(table, ForDoctor(doctorId)))
    requires AddCheck(Shown(table, doctorId), d).None?
    ensures DaysUnique(Filter(table + [NewRow(doctorId, d, id)], ForDoctor(doctorId)))
  {
    var row := NewRow(doctorId, d, id);
    var mine := Filter(table, ForDoctor(doctorId));
    FilterAppend(table, [row], ForDoctor(doctorId));
    assert Filter([row], ForDoctor(doctorId)) == [row];
    var after := Filter(table + [row], ForDoctor(doctorId));
    assert after == mine + [row];
    var shown := Shown(table, doctorId);
    forall i | 0 <= i < |mine| ensures mine[i].dayOfWeek != row.dayOfWeek {
      assert mine[i] in table && mine[i].doctorId == doctorId;
      assert mine[i] in shown;
      var k :| 0 <= k < |shown| && shown[k] == mine[i];
    }
    forall i, j | 0 <= i < j < |after| ensures after[i].dayOfWeek != after[j].dayOfWeek {
      if j < |mine| {
        assert after[i] == mine[i] && after[j] == mine[j];
      } else {
        assert after[i] == mine[i] && after[j] == row;
      }
    }
  }

  /** Every row added through the guards has a start strictly before its end. */
  lemma AddedRowHasWindow(shown: seq<ScheduleRow>, doctorId: Id, d: ScheduleDraft, id: Id)
    requires AddCheck(shown, d).None?
    ensures var row := NewRow(doctorId, d, id);
      row.startTime != "" && row.endTime != "" && StrLt(row.startTime, row.endTime) && !StrLe(row.endTime, row.startTime)
  {
  }

  // ---------------------------------------------------------------------------
  // Updating and deleting rows

  /** `update({ is_active })` on the row with that id; every other row and field is untouched. */
  function SetActive(table: seq<ScheduleRow>, id: Id, active: bool): (r: seq<ScheduleRow>)
    ensures |r| == |table|
    ensures forall i :: 0 <= i < |table| && table[i].id == id ==> r[i] == table[i].(isActive := active)
    ensures forall i :: 0 <= i < |table| && table[i].id != id ==> r[i] == table[i]
  {
    seq(|table|, i requires 0 <= i < |table| => if table[i].id == id then table[i].(isActive := active) else table[i])
  }

  /** Toggling a row twice, each time from the flag on screen, restores the table. */
  lemma ToggleTwiceRestores(table: seq<ScheduleRow>, row: ScheduleRow)
    requires forall i :: 0 <= i < |table| && table[i].id == row.id ==> table[i].isActive == row.isActive
    ensures SetActive(SetActive(table, row.id, !row.isActive), row.id, row.isActive) == table
  {
  }

  /** `delete().eq('id', id)`: every row with another id, in order. */
  function WithoutRow(table: seq<ScheduleRow>, id: Id): (r: seq<ScheduleRow>)
    ensures forall x :: x in r <==> x in table && x.id != id
  {
    var r := Filter(table, (x: ScheduleRow) => x.id != id);
    assert forall x :: x in table && x.id != id ==> x in r by {
      forall x | x in table && x.id != id ensures x in r {
        var k :| 0 <= k < |table| && table[k] == x;
      }
    }
    r
  }

  // ---------------------------------------------------------------------------
  // The editor

  /** The editor open on one doctor. `table` is the whole `doctor_schedules` table and `schedules`
      the rows of the last successful fetch. */
  class Editor {
    const doctorId: Id
    var table: seq<ScheduleRow>
    var schedules: seq<ScheduleRow>
    var draft: ScheduleDraft
    var loading: bool

    /** Opening the editor fetches the doctor's rows; a failed fetch leaves the list empty. */
    constructor (doctorId0: Id, table0: seq<ScheduleRow>, fetchFails: bool)
      ensures doctorId == doctorId0 && table == table0
      ensures schedules == if fetchFails then [] else Shown(table0, doctorId0)
      ensures draft == DefaultDraft && !loading
    {
      doctorId, table := doctorId0, table0;
      schedules := if fetchFails then [] else Shown(table0, doctorId0);
      draft, loading := DefaultDraft, false;
    }

    /** `fetchSchedules`: on failure the list on screen stays as it was. */
    method Refetch(fails: bool)
      modifies this`schedules
      ensures schedules == if fails then old(schedules) else Shown(table, doctorId)
    {
      if !fails {
        schedules := Shown(table, doctorId);
      }
    }

    /** A change of the draft through the day, start and end inputs: the day selector only offers
        0 to 6, and no input changes `is_active`, which keeps the default's true. */
    method EditDraft(d: ScheduleDraft)
      requires 0 <= d.dayOfWeek <= 6 && d.isActive
      modifies this`draft
      ensures draft == d
    {
      draft := d;
    }

    /** `addSchedule`: the guards, the insert, then a refetch and the reset of the draft. The Add
        button is disabled while a request is running. */
    method AddSchedule(newId: Id, insertFails: bool, refetchFails: bool) returns (outcome: AddOutcome)
      requires !loading
      modifies this
      ensures !loading
      ensures AddCheck(old(schedules), old(draft)).Some? ==> outcome == AddCheck(old(schedules), old(draft)).value
      ensures outcome == Added <==> AddCheck(old(schedules), old(draft)).None? && !insertFails
      ensures outcome == InsertFailed <==> AddCheck(old(schedules), old(draft)).None? && insertFails
      ensures outcome != Added ==> table == old(table) && schedules == old(schedules) && draft == old(draft)
      ensures outcome == Added ==>
        table == old(table) + [NewRow(doctorId, old(draft), newId)] && draft == DefaultDraft &&
        schedules == if refetchFails then old(schedules) else Shown(table, doctorId)
    {
      var rejection := AddCheck(schedules, draft);
      if rejection.Some? {
        return rejection.value;
      }
      loading := true;
      if insertFails {
        loading := false;
        return InsertFailed;
      }
      table := table + [NewRow(doctorId, draft, newId)];
      Refetch(refetchFails);
      draft := DefaultDraft;
      loading := false;
      return Added;
    }

    /** `toggleScheduleStatus(row)` through `updateSchedule`: the flag written is the negation of
        the one on screen. */
    method ToggleScheduleStatus(row: ScheduleRow, updateFails: bool, refetchFails: bool)
      modifies this
      ensures !loading && draft == old(draft)
      ensures table == if updateFails then old(table) else SetActive(old(table), row.id, !row.isActive)
      ensures schedules == if updateFails || refetchFails then old(schedules) else Shown(table, doctorId)
    {
      loading := true;
      if !updateFails {
        table := SetActive(table, row.id, !row.isActive);
        Refetch(refetchFails);
      }
      loading := false;
    }

    /** `deleteSchedule(id)`: nothing happens unless the confirmation is accepted. */
    method DeleteSchedule(id: Id, confirmed: bool, deleteFails: bool, refetchFails: bool)
      modifies this
      ensures draft == old(draft)
      ensures confirmed ==> !loading
      ensures !confirmed ==> loading == old(loading)
      ensures table == if confirmed && !deleteFails then WithoutRow(old(table), id) else old(table)
      ensures schedules == if confirmed && !deleteFails && !refetchFails then Shown(table, doctorId) else old(schedules)
    {
      if !confirmed {
        return;
      }
      loading := true;
      if !deleteFails {
        table := WithoutRow(table, id);
        Refetch(refetchFails);
      }
      loading := false;
    }
  }
}
