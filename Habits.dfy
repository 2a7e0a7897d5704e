/**
 * The habit tracker (HabitTracker.tsx): toggling today's check-in with its
 * streak rule, adding and deleting habits, the streak progress bar, and the
 * month calendar. `Date.now()` is the `now` parameter; the month's length, the
 * weekday of its first day and today's day (when the shown month is the
 * current one) are parameters as well.
 */
module Habits {
  import opened Common

  datatype Habit = Habit(id: int, name: string, description: string, streak: int, totalDays: int,
                         completedToday: bool, reminder: bool, category: string)

  /** The habit the toggle produces: checking adds a day to the streak and the total, unchecking takes one off the streak only. */
  function Toggled(h: Habit): (r: Habit)
    ensures r.completedToday == !h.completedToday
    ensures r.completedToday ==> r.streak == h.streak + 1 && r.totalDays == h.totalDays + 1
    ensures !r.completedToday ==> r.streak == Max(0, h.streak - 1) && r.totalDays == h.totalDays
    ensures h.streak >= 0 ==> r.streak >= 0
    ensures r.id == h.id && r.name == h.name && r.description == h.description
      && r.reminder == h.reminder && r.category == h.category
  {
    var completedToday := !h.completedToday;
    var streak := if completedToday then h.streak + 1 else Max(0, h.streak - 1);
    var totalDays := if completedToday then h.totalDays + 1 else h.totalDays;
    h.(completedToday := completedToday, streak := streak, totalDays := totalDays)
  }

  /** `toggleHabit`: only habits with the id change; length and order are kept. */
  function ToggleHabit(habits: seq<Habit>, id: int): (r: seq<Habit>)
    ensures |r| == |habits|
    ensures forall i :: 0 <= i < |habits| ==> r[i] == if habits[i].id == id then Toggled(habits[i]) else habits[i]
  {
    Update(habits, (h: Habit) => h.id == id, Toggled)
  }

  /**
   * Checking an unchecked habit and then unchecking it restores the check-in
   * and the streak, but the total keeps the extra day.
   */
  lemma CheckThenUncheck(h: Habit)
    requires !h.completedToday && h.streak >= 0
    ensures Toggled(Toggled(h)) == h.(totalDays := h.totalDays + 1)
  {
  }

  /** Streaks stay non-negative under any sequence of toggles. */
  lemma {:induction false} StreaksStayNonNegative(habits: seq<Habit>, ids: seq<int>)
    requires forall i :: 0 <= i < |habits| ==> habits[i].streak >= 0
    ensures var r := ToggleAll(habits, ids);
      |r| == |habits| && forall i :: 0 <= i < |r| ==> r[i].streak >= 0 && r[i].id == habits[i].id
    decreases |ids|
  {
    if ids != [] {
      var before := ToggleAll(habits, ids[..|ids| - 1]);
      StreaksStayNonNegative(habits, ids[..|ids| - 1]);
      assert ToggleAll(habits, ids) == ToggleHabit(before, ids[|ids| - 1]);
    }
  }

  /** The toggles of `ids`, applied in order. */
  function ToggleAll(habits: seq<Habit>, ids: seq<int>): seq<Habit>
    decreases |ids|
  {
    if ids == [] then habits else ToggleHabit(ToggleAll(habits, ids[..|ids| - 1]), ids[|ids| - 1])
  }

  datatype HabitForm = HabitForm(name: string, description: string, category: string, reminder: bool)

  const EmptyHabitForm: HabitForm := HabitForm("", "", "health", false)

  /**
   * `addHabit`: a blank name changes nothing; otherwise a fresh habit with the
   * trimmed name and description, no streak and no days, is appended and the
   * form reset.
   */
  function AddHabit(habits: seq<Habit>, form: HabitForm, now: int): (r: (seq<Habit>, HabitForm))
    ensures IsBlank(form.name) ==> r == (habits, form)
    ensures !IsBlank(form.name) ==>
      && r.1 == EmptyHabitForm
      && |r.0| == |habits| + 1 && r.0[..|habits|] == habits
      && r.0[|habits|] == Habit(now, Trim(form.name), Trim(form.description), 0, 0, false, form.reminder, form.category)
      && r.0[|habits|].name != []
  {
    if Trim(form.name) != [] then
      (habits + [Habit(now, Trim(form.name), Trim(form.description), 0, 0, false, form.reminder, form.category)],
       EmptyHabitForm)
    else (habits, form)
  }

  /** `deleteHabit`: drop every habit with the id, keep the rest in order. */
  function DeleteHabit(habits: seq<Habit>, id: int): (r: seq<Habit>)
    ensures forall i :: 0 <= i < |r| ==> r[i].id != id
    ensures forall i :: 0 <= i < |habits| && habits[i].id != id ==> habits[i] in r
    ensures forall h :: h in r ==> h in habits
    ensures (forall i :: 0 <= i < |habits| ==> habits[i].id != id) ==> r == habits
  {
    Filter(habits, (h: Habit) => h.id != id)
  }

  lemma DeleteHabitKeepsOrder(a: seq<Habit>, b: seq<Habit>, id: int)
    ensures DeleteHabit(a + b, id) == DeleteHabit(a, id) + DeleteHabit(b, id)
  {
    FilterAppend(a, b, (h: Habit) => h.id != id);
  }

  /** `getProgressPercentage`: `min(100, streak / 30 * 100)`, exact. */
  function Progress(streak: nat): (r: real)
    ensures 0.0 <= r <= 100.0
    ensures r == 100.0 <==> streak >= 30
    ensures streak < 30 ==> r * 30.0 == streak as real * 100.0
  {
    var p := streak as real / 30.0 * 100.0;
    if p <= 100.0 then p else 100.0
  }

  /** A longer streak never shows less progress. */
  lemma ProgressMonotone(a: nat, b: nat)
    requires a <= b
    ensures Progress(a) <= Progress(b)
  {
  }

  // ---------------------------------------------------------------------
  // The month calendar
  // ---------------------------------------------------------------------

  datatype Cell = Blank | Day(day: nat, isToday: bool)

  /** The calendar the month should show: `firstDay` blanks, then the days in order. */
  predicate IsCalendar(cells: seq<Cell>, daysInMonth: nat, firstDay: nat, today: Option<nat>) {
    && |cells| == firstDay + daysInMonth
    && (forall i :: 0 <= i < firstDay ==> cells[i] == Blank)
    && (forall i :: firstDay <= i < |cells| ==> cells[i] == Day(i - firstDay + 1, today == Some(i - firstDay + 1)))
  }

  /**
   * `generateCalendarDays`: two `for` loops, blanks before the first weekday,
   * then one cell per day; a day is marked when it is today.
   */
  method GenerateCalendarDays(daysInMonth: nat, firstDay: nat, today: Option<nat>) returns (cells: seq<Cell>)
    ensures IsCalendar(cells, daysInMonth, firstDay, today)
  {
    cells := [];
    var i := 0;
    while i < firstDay
      invariant 0 <= i <= firstDay && |cells| == i
      invariant forall j :: 0 <= j < i ==> cells[j] == Blank
    {
      cells := cells + [Blank];
      i := i + 1;
    }
    var day := 1;
    while day <= daysInMonth
      invariant 1 <= day <= daysInMonth + 1 && |cells| == firstDay + day - 1
      invariant forall j :: 0 <= j < firstDay ==> cells[j] == Blank
      invariant forall i :: firstDay <= i < |cells| ==> cells[i] == Day(i - firstDay + 1, today == Some(i - firstDay + 1))
    {
      cells := cells + [Day(day, today == Some(day))];
      day := day + 1;
    }
  }

  /** The calendar's days run 1..daysInMonth, strictly increasing, and at most one is today. */
  lemma CalendarDays(cells: seq<Cell>, daysInMonth: nat, firstDay: nat, today: Option<nat>)
    requires IsCalendar(cells, daysInMonth, firstDay, today)
    ensures forall i, j :: 0 <= i < j < |cells| && cells[i].Day? && cells[j].Day? ==> cells[i].day < cells[j].day
    ensures forall i :: 0 <= i < |cells| && cells[i].Day? ==> 1 <= cells[i].day <= daysInMonth && i == firstDay + cells[i].day - 1
    ensures forall i, j :: 0 <= i < j < |cells| && cells[i].Day? && cells[j].Day? ==> !(cells[i].isToday && cells[j].isToday)
  {
  }
}
