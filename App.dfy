/**
 * The dashboard shell's achievement check (App.tsx): every check reads the
 * session ledger and the to-do list, totals today's and the week's pomodoro
 * minutes and the completed to-dos, and appends a notice for each goal that
 * is met and not yet announced. `Date.now()` is the `now` parameter, the ISO
 * dates of today and of a week ago are `today` and `weekAgo`.
 *
 * Whether a goal counts as "already announced" is decided, as in the source,
 * by searching the existing messages for a fixed phrase. `NewAchievements`
 * models that guard as written; the lemmas in the last section show that the
 * phrases do not match the messages that are generated, so a goal can be
 * announced again on every check, and `NewAchievementsOnce` is the guard by
 * achievement type that the messages evidently intend.
 */
module App {
  import opened Common
  import opened Pomodoro
  import opened FocusHistory
  import opened Todos

  datatype Notice = Notice(id: int, message: string, kind: AchievementKind, icon: string)

  /** What one check reads off storage. */
  datatype Tallies = Tallies(todayMinutes: nat, weekMinutes: nat, completedTodos: nat)

  /**
   * Today's pomodoro minutes, the pomodoro minutes dated on or after `weekAgo`,
   * and the number of completed to-dos.
   */
  function Measure(ledger: seq<Session>, todos: seq<Todo>, today: string, weekAgo: string): (r: Tallies)
    ensures r.completedTodos <= |todos|
    ensures StrAtLeast(today, weekAgo) ==> r.todayMinutes <= r.weekMinutes
    ensures ledger == [] ==> r.todayMinutes == 0 && r.weekMinutes == 0
  {
    assert StrAtLeast(today, weekAgo) ==> MinutesOn(ledger, today) <= MinutesSince(ledger, weekAgo) by {
      if StrAtLeast(today, weekAgo) { TodayWithinWeek(ledger, today, weekAgo); }
    }
    Tallies(MinutesOn(ledger, today), MinutesSince(ledger, weekAgo), |CompletedTodos(todos)|)
  }

  const DailyIcon: string := "\U{1F3AF}"
  const WeeklyIcon: string := "\U{1F3C6}"
  const MilestoneIcon: string := "\U{2705}"

  /** The phrases the source searches for before announcing a goal again. */
  const DailyPhrase: string := "50 focused minutes"
  const WeeklyPhrase: string := "weekly goal"
  const TasksPhrase: string := "completed 10 tasks"

  function TasksMessage(completed: nat): string {
    "Congratulations! You've completed " + NatToDecimal(completed) + " tasks!"
  }

  /** Some existing message contains the phrase (`achievements.find(a => a.message.includes(phrase))`). */
  predicate Announced(list: seq<Notice>, phrase: string) {
    exists a :: a in list && Contains(a.message, phrase)
  }

  predicate HasKind(list: seq<Notice>, k: AchievementKind) {
    exists a :: a in list && a.kind == k
  }

  /** The notice each goal produces when it is announced. */
  function DailyMet(t: Tallies, now: int): Notice {
    Notice(now, DailyMetMessage(t.todayMinutes), Daily, DailyIcon)
  }

  function WeeklyMet(t: Tallies, now: int): Notice {
    Notice(now + 1, WeeklyMetMessage(PomodoroCount(t.weekMinutes)), Weekly, WeeklyIcon)
  }

  function MilestoneMet(t: Tallies, now: int): Notice {
    Notice(now + 2, TasksMessage(t.completedTodos), Milestone, MilestoneIcon)
  }

  /** The three guards of the source: goal met and phrase not found. */
  predicate DailyDue(current: seq<Notice>, t: Tallies) {
    t.todayMinutes >= DailyGoal && !Announced(current, DailyPhrase)
  }

  predicate WeeklyDue(current: seq<Notice>, t: Tallies) {
    t.weekMinutes >= WeeklyGoal && !Announced(current, WeeklyPhrase)
  }

  predicate MilestoneDue(current: seq<Notice>, t: Tallies) {
    t.completedTodos >= 10 && !Announced(current, TasksPhrase)
  }

  function Rank(k: AchievementKind): nat {
    match k
    case Daily => 0
    case Weekly => 1
    case Milestone => 2
  }

  /** The notices one check creates, guarded by phrase search as in the source. */
  function NewAchievements(current: seq<Notice>, t: Tallies, now: int): seq<Notice> {
    (if DailyDue(current, t) then [DailyMet(t, now)] else [])
    + (if WeeklyDue(current, t) then [WeeklyMet(t, now)] else [])
    + (if MilestoneDue(current, t) then [MilestoneMet(t, now)] else [])
  }

  /** The list after one check: the existing notices, then the new ones. */
  function Checked(current: seq<Notice>, t: Tallies, now: int): seq<Notice> {
    current + NewAchievements(current, t, now)
  }

  /**
   * What one check creates: exactly the notices of the goals whose guard
   * passes, with the source's message, icon and id.
   */
  lemma NewAchievementsContents(current: seq<Notice>, t: Tallies, now: int)
    ensures var r := NewAchievements(current, t, now);
      && |r| <= 3
      && (forall a :: a in r <==>
            || (a == DailyMet(t, now) && DailyDue(current, t))
            || (a == WeeklyMet(t, now) && WeeklyDue(current, t))
            || (a == MilestoneMet(t, now) && MilestoneDue(current, t)))
      && (HasKind(r, Daily) <==> DailyDue(current, t))
      && (HasKind(r, Weekly) <==> WeeklyDue(current, t))
      && (HasKind(r, Milestone) <==> MilestoneDue(current, t))
  {
    var r := NewAchievements(current, t, now);
    assert DailyDue(current, t) ==> DailyMet(t, now) in r;
    assert WeeklyDue(current, t) ==> WeeklyMet(t, now) in r;
    assert MilestoneDue(current, t) ==> MilestoneMet(t, now) in r;
  }

  /**
   * New notices come in the order daily, weekly, milestone, and their ids
   * `now`, `now + 1`, `now + 2` are increasing, hence pairwise distinct.
   */
  lemma NewAchievementsOrdered(current: seq<Notice>, t: Tallies, now: int)
    ensures var r := NewAchievements(current, t, now);
      && (forall i :: 0 <= i < |r| ==> r[i].id == now + Rank(r[i].kind))
      && (forall i, j :: 0 <= i < j < |r| ==> Rank(r[i].kind) < Rank(r[j].kind) && r[i].id < r[j].id)
  {
    var d := if DailyDue(current, t) then [DailyMet(t, now)] else [];
    var w := if WeeklyDue(current, t) then [WeeklyMet(t, now)] else [];
    var m := if MilestoneDue(current, t) then [MilestoneMet(t, now)] else [];
    var r := d + w + m;
    assert r == NewAchievements(current, t, now);
    assert forall i :: 0 <= i < |r| ==>
      (i < |d| ==> r[i] == d[i]) && (|d| <= i < |d| + |w| ==> r[i] == w[i - |d|]) && (|d| + |w| <= i ==> r[i] == m[i - |d| - |w|]);
    assert forall i :: 0 <= i < |r| ==> Rank(r[i].kind) == (if i < |d| then 0 else if i < |d| + |w| then 1 else 2);
  }

  /** Creating nothing leaves the list unchanged (the `newAchievements.length > 0` test). */
  lemma NothingNewUnchanged(current: seq<Notice>, t: Tallies, now: int)
    requires !DailyDue(current, t) && !WeeklyDue(current, t) && !MilestoneDue(current, t)
    ensures Checked(current, t, now) == current
  {
  }

  /** `prev.filter(a => a.id !== id)`: close one notice. */
  function WithoutNotice(list: seq<Notice>, id: int): (r: seq<Notice>)
    ensures forall i :: 0 <= i < |r| ==> r[i].id != id
    ensures forall i :: 0 <= i < |list| && list[i].id != id ==> list[i] in r
    ensures forall a :: a in r ==> a in list
    ensures (forall i :: 0 <= i < |list| ==> list[i].id != id) ==> r == list
  {
    Filter(list, (a: Notice) => a.id != id)
  }

  /** Closing keeps the other notices in their order: it distributes over any split. */
  lemma WithoutNoticeKeepsOrder(a: seq<Notice>, b: seq<Notice>, id: int)
    ensures WithoutNotice(a + b, id) == WithoutNotice(a, id) + WithoutNotice(b, id)
  {
    FilterAppend(a, b, (n: Notice) => n.id != id);
  }

  /** The shell's achievement list. */
  class AchievementCenter {
    var achievements: seq<Notice>

    constructor ()
      ensures achievements == []
    {
      achievements := [];
    }

    /** `checkAchievements`: push the new notices one by one, then append them all. */
    method CheckAchievements(ledger: seq<Session>, todos: seq<Todo>, today: string, weekAgo: string, now: int)
      modifies this
      ensures achievements == Checked(old(achievements), Measure(ledger, todos, today, weekAgo), now)
    {
      var t := Measure(ledger, todos, today, weekAgo);
      var created: seq<Notice> := [];
      if DailyDue(achievements, t) {
        created := created + [DailyMet(t, now)];
      }
      if WeeklyDue(achievements, t) {
        created := created + [WeeklyMet(t, now)];
      }
      if MilestoneDue(achievements, t) {
        created := created + [MilestoneMet(t, now)];
      }
      if |created| > 0 {
        achievements := achievements + created;
      }
    }

    /** The `onClose` handler passed to the notification panel. */
    method Close(id: int)
      modifies this
      ensures achievements == WithoutNotice(old(achievements), id)
    {
      achievements := Filter(achievements, (a: Notice) => a.id != id);
    }
  }

  // ---------------------------------------------------------------------
  // The phrase guards do not match the generated messages
  // ---------------------------------------------------------------------

  lemma DigitsLack(s: string, c: char)
    requires AllDigits(s) && !IsDigit(c)
    ensures c !in s
  {
  }

  /**
   * A message made of fixed text around a number cannot contain a phrase when
   * one of the phrase's characters is in neither piece of text nor in the
   * number's digits.
   */
  lemma TemplateLacksPhrase(before: string, n: nat, after: string, phrase: string, k: nat)
    requires k < |phrase| && phrase[k] !in before && phrase[k] !in after
    requires !IsDigit(phrase[k]) || phrase[k] !in NatToDecimal(n)
    ensures !Contains(before + NatToDecimal(n) + after, phrase)
  {
    if !IsDigit(phrase[k]) { DigitsLack(NatToDecimal(n), phrase[k]); }
    MissingCharNotContained(before + NatToDecimal(n) + after, phrase, k);
  }

  lemma DailyLacksWeeklyPhrase(minutes: nat)
    ensures !Contains(DailyMetMessage(minutes), WeeklyPhrase)
  {
    TemplateLacksPhrase("You've logged ", minutes, " focused minutes today. Great job!", WeeklyPhrase, 0);
  }

  lemma WeeklyLacksWeeklyPhrase(pomodoros: nat)
    ensures !Contains(WeeklyMetMessage(pomodoros), WeeklyPhrase)
  {
    TemplateLacksPhrase("Amazing! You've completed ", pomodoros, " pomodoros this week!", WeeklyPhrase, 5);
  }

  lemma TasksLacksWeeklyPhrase(completed: nat)
    ensures !Contains(TasksMessage(completed), WeeklyPhrase)
  {
    TemplateLacksPhrase("Congratulations! You've completed ", completed, " tasks!", WeeklyPhrase, 0);
  }

  lemma DailyLacksDailyPhrase(minutes: nat)
    requires '0' !in NatToDecimal(minutes)
    ensures !Contains(DailyMetMessage(minutes), DailyPhrase)
  {
    TemplateLacksPhrase("You've logged ", minutes, " focused minutes today. Great job!", DailyPhrase, 1);
  }

  lemma WeeklyLacksDailyPhrase(pomodoros: nat)
    ensures !Contains(WeeklyMetMessage(pomodoros), DailyPhrase)
  {
    TemplateLacksPhrase("Amazing! You've completed ", pomodoros, " pomodoros this week!", DailyPhrase, 3);
  }

  lemma TasksLacksDailyPhrase(completed: nat)
    ensures !Contains(TasksMessage(completed), DailyPhrase)
  {
    TemplateLacksPhrase("Congratulations! You've completed ", completed, " tasks!", DailyPhrase, 3);
  }

  lemma DailyLacksTasksPhrase(minutes: nat)
    ensures !Contains(DailyMetMessage(minutes), TasksPhrase)
  {
    TemplateLacksPhrase("You've logged ", minutes, " focused minutes today. Great job!", TasksPhrase, 16);
  }

  lemma TasksLacksTasksPhrase(completed: nat)
    requires '0' !in NatToDecimal(completed)
    ensures !Contains(TasksMessage(completed), TasksPhrase)
  {
    TemplateLacksPhrase("Congratulations! You've completed ", completed, " tasks!", TasksPhrase, 11);
  }

  /** No generated message contains the weekly phrase: the daily and task texts lack its 'w', the weekly text its 'y'. */
  lemma NoMessageMentionsWeeklyGoal(minutes: nat, pomodoros: nat, completed: nat)
    ensures !Contains(DailyMetMessage(minutes), WeeklyPhrase)
    ensures !Contains(WeeklyMetMessage(pomodoros), WeeklyPhrase)
    ensures !Contains(TasksMessage(completed), WeeklyPhrase)
  {
    DailyLacksWeeklyPhrase(minutes);
    WeeklyLacksWeeklyPhrase(pomodoros);
    TasksLacksWeeklyPhrase(completed);
  }

  /** The weekly guard never suppresses anything: no check ever produces a message it matches. */
  lemma WeeklyGuardNeverCloses(current: seq<Notice>, t: Tallies, now: int)
    requires !Announced(current, WeeklyPhrase)
    ensures !Announced(Checked(current, t, now), WeeklyPhrase)
    ensures WeeklyDue(current, t) <==> t.weekMinutes >= WeeklyGoal
  {
    NoMessageMentionsWeeklyGoal(t.todayMinutes, PomodoroCount(t.weekMinutes), t.completedTodos);
    NewAchievementsContents(current, t, now);
  }

  /** `k` consecutive checks with the same tallies, ids advancing by three per check. */
  function Repeat(current: seq<Notice>, t: Tallies, now: int, k: nat): seq<Notice>
    decreases k
  {
    if k == 0 then current else Checked(Repeat(current, t, now, k - 1), t, now + 3 * (k - 1))
  }

  function WeeklyCount(list: seq<Notice>): nat {
    |Filter(list, (a: Notice) => a.kind == Weekly)|
  }

  lemma CheckedAddsOneWeekly(current: seq<Notice>, t: Tallies, now: int)
    requires WeeklyDue(current, t)
    ensures WeeklyCount(Checked(current, t, now)) == WeeklyCount(current) + 1
  {
    var p := (a: Notice) => a.kind == Weekly;
    var d := if DailyDue(current, t) then [DailyMet(t, now)] else [];
    var w := [WeeklyMet(t, now)];
    var m := if MilestoneDue(current, t) then [MilestoneMet(t, now)] else [];
    assert NewAchievements(current, t, now) == d + w + m;
    FilterAppend(current, d + w + m, p);
    FilterAppend(d + w, m, p);
    FilterAppend(d, w, p);
    assert Filter(d, p) == [] && Filter(m, p) == [] && Filter(w, p) == w;
  }

  /**
   * Announced as written, the weekly goal is announced again on every check
   * once it is met: `k` checks from an empty list hold `k` weekly notices.
   */
  lemma {:induction false} WeeklyAnnouncedEveryCheck(t: Tallies, now: int, k: nat)
    requires t.weekMinutes >= WeeklyGoal
    ensures WeeklyCount(Repeat([], t, now, k)) == k
    ensures !Announced(Repeat([], t, now, k), WeeklyPhrase)
    decreases k
  {
    if k > 0 {
      WeeklyAnnouncedEveryCheck(t, now, k - 1);
      WeeklyStep(Repeat([], t, now, k - 1), t, now + 3 * (k - 1));
    }
  }

  /** One check of a list without a matching message adds a weekly notice and still has none. */
  lemma WeeklyStep(prev: seq<Notice>, t: Tallies, now: int)
    requires t.weekMinutes >= WeeklyGoal && !Announced(prev, WeeklyPhrase)
    ensures WeeklyCount(Checked(prev, t, now)) == WeeklyCount(prev) + 1
    ensures !Announced(Checked(prev, t, now), WeeklyPhrase)
  {
    WeeklyGuardNeverCloses(prev, t, now);
    CheckedAddsOneWeekly(prev, t, now);
  }

  /** With 75 minutes logged today, the next check announces the daily goal a second time. */
  lemma DailyAnnouncedTwiceAt75(t: Tallies, now: int, later: int)
    requires t.todayMinutes == 75
    ensures var first := Checked([], t, now);
      DailyMet(t, now) in first && DailyMet(t, later) in NewAchievements(first, t, later)
  {
    var first := Checked([], t, now);
    assert first == NewAchievements([], t, now);
    NewAchievementsContents([], t, now);
    assert NatToDecimal(75) == "75";
    DailyLacksDailyPhrase(75);
    WeeklyLacksDailyPhrase(PomodoroCount(t.weekMinutes));
    TasksLacksDailyPhrase(t.completedTodos);
    assert !Announced(first, DailyPhrase);
    NewAchievementsContents(first, t, later);
  }

  /** With 11 completed to-dos and the weekly goal not met, the next check announces the milestone again. */
  lemma MilestoneAnnouncedTwiceAt11(t: Tallies, now: int, later: int)
    requires t.completedTodos == 11 && t.weekMinutes < WeeklyGoal
    ensures var first := Checked([], t, now);
      MilestoneMet(t, now) in first && MilestoneMet(t, later) in NewAchievements(first, t, later)
  {
    var first := Checked([], t, now);
    assert first == NewAchievements([], t, now);
    NewAchievementsContents([], t, now);
    assert NatToDecimal(11) == "11";
    DailyLacksTasksPhrase(t.todayMinutes);
    TasksLacksTasksPhrase(11);
    assert !Announced(first, TasksPhrase);
    NewAchievementsContents(first, t, later);
  }

  // ---------------------------------------------------------------------
  // The intended guard: one notice per achievement type
  // ---------------------------------------------------------------------

  /** The notices one check creates when "already announced" means "a notice of this type exists". */
  function NewAchievementsOnce(current: seq<Notice>, t: Tallies, now: int): seq<Notice> {
    (if t.todayMinutes >= DailyGoal && !HasKind(current, Daily) then [DailyMet(t, now)] else [])
    + (if t.weekMinutes >= WeeklyGoal && !HasKind(current, Weekly) then [WeeklyMet(t, now)] else [])
    + (if t.completedTodos >= 10 && !HasKind(current, Milestone) then [MilestoneMet(t, now)] else [])
  }

  function CheckedOnce(current: seq<Notice>, t: Tallies, now: int): seq<Notice> {
    current + NewAchievementsOnce(current, t, now)
  }

  /**
   * With the type guard, every met goal has a notice after one check, and
   * checking again with the same tallies adds nothing.
   */
  lemma CheckedOnceIdempotent(current: seq<Notice>, t: Tallies, now: int, later: int)
    ensures var first := CheckedOnce(current, t, now);
      && (t.todayMinutes >= DailyGoal ==> HasKind(first, Daily))
      && (t.weekMinutes >= WeeklyGoal ==> HasKind(first, Weekly))
      && (t.completedTodos >= 10 ==> HasKind(first, Milestone))
      && CheckedOnce(first, t, later) == first
  {
    var first := CheckedOnce(current, t, now);
    var n := NewAchievementsOnce(current, t, now);
    assert t.todayMinutes >= DailyGoal && !HasKind(current, Daily) ==> DailyMet(t, now) in n;
    assert t.weekMinutes >= WeeklyGoal && !HasKind(current, Weekly) ==> WeeklyMet(t, now) in n;
    assert t.completedTodos >= 10 && !HasKind(current, Milestone) ==> MilestoneMet(t, now) in n;
    assert forall a :: a in current ==> a in first;
    assert forall a :: a in n ==> a in first;
  }

  predicate DistinctKinds(list: seq<Notice>) {
    forall i, j :: 0 <= i < j < |list| ==> list[i].kind != list[j].kind
  }

  /** Appending notices of kinds distinct among themselves and absent from the list keeps kinds distinct. */
  lemma AppendDistinctKinds(a: seq<Notice>, b: seq<Notice>)
    requires DistinctKinds(a) && DistinctKinds(b)
    requires forall x :: x in b ==> !HasKind(a, x.kind)
    ensures DistinctKinds(a + b)
  {
    var r := a + b;
    forall i, j | 0 <= i < j < |r| ensures r[i].kind != r[j].kind {
      if j >= |a| {
        assert r[j] == b[j - |a|] && r[j] in b;
        if i < |a| {
          assert r[i] == a[i] && a[i] in a;
        } else {
          assert r[i] == b[i - |a|];
        }
      }
    }
  }

  /** The notices the type guard creates have distinct kinds, none already present. */
  lemma NewOnceKinds(current: seq<Notice>, t: Tallies, now: int)
    ensures DistinctKinds(NewAchievementsOnce(current, t, now))
    ensures forall x :: x in NewAchievementsOnce(current, t, now) ==> !HasKind(current, x.kind)
  {
    var d := if t.todayMinutes >= DailyGoal && !HasKind(current, Daily) then [DailyMet(t, now)] else [];
    var w := if t.weekMinutes >= WeeklyGoal && !HasKind(current, Weekly) then [WeeklyMet(t, now)] else [];
    var m := if t.completedTodos >= 10 && !HasKind(current, Milestone) then [MilestoneMet(t, now)] else [];
    assert NewAchievementsOnce(current, t, now) == d + w + m;
    AppendDistinctKinds(d, w);
    assert forall x :: x in m ==> !HasKind(d + w, x.kind);
    AppendDistinctKinds(d + w, m);
  }

  /** Each type appears at most once under the type guard, provided it did before. */
  lemma CheckedOnceAtMostOnce(current: seq<Notice>, t: Tallies, now: int)
    requires DistinctKinds(current)
    ensures DistinctKinds(CheckedOnce(current, t, now))
  {
    NewOnceKinds(current, t, now);
    AppendDistinctKinds(current, NewAchievementsOnce(current, t, now));
  }

  /** On a list with no notices yet, the type guard and the phrase guard agree. */
  lemma OnceAgreesOnFreshList(t: Tallies, now: int)
    ensures NewAchievementsOnce([], t, now) == NewAchievements([], t, now)
  {
  }
}
