/**
 * The focus-history page (FocusHistoryPage.tsx): statistics folded over the
 * session ledger, the achievement cards derived from them, the per-day chart
 * buckets, and the "Recent Focus Sessions" list.
 *
 * Dates are ISO "YYYY-MM-DD" strings supplied by the caller (today, the date a
 * week ago, and the date `i` days ago for the chart), and compare as strings,
 * as the source's `>=` on strings does.
 */
module FocusHistory {
  import opened Common
  import opened Pomodoro

  // ---------------------------------------------------------------------
  // Sums and string order
  // ---------------------------------------------------------------------

  /** `sessions.reduce((sum, s) => sum + s.duration, 0)`. */
  function SumDurations(sessions: seq<Session>): nat {
    if sessions == [] then 0 else sessions[0].duration + SumDurations(sessions[1..])
  }

  lemma {:induction false} SumDurationsAppend(a: seq<Session>, b: seq<Session>)
    ensures SumDurations(a + b) == SumDurations(a) + SumDurations(b)
  {
    if a != [] {
      assert (a + b)[1..] == a[1..] + b;
      SumDurationsAppend(a[1..], b);
    } else {
      assert a + b == b;
    }
  }

  /** JavaScript's `a < b` on strings: lexicographic by character code. */
  predicate StrLess(a: string, b: string) {
    if a == [] then b != []
    else if b == [] then false
    else if a[0] != b[0] then a[0] < b[0]
    else StrLess(a[1..], b[1..])
  }

  /** JavaScript's `a >= b` on strings. */
  predicate StrAtLeast(a: string, b: string) { !StrLess(a, b) }

  predicate IsFocus(s: Session) { s.kind == Focus }

  /** Focus sessions dated `day`. */
  function FocusOn(ledger: seq<Session>, day: string): seq<Session> {
    Filter(ledger, (s: Session) => s.date == day && s.kind == Focus)
  }

  /** Focus sessions dated on or after `from`. */
  function FocusSince(ledger: seq<Session>, from: string): seq<Session> {
    Filter(ledger, (s: Session) => StrAtLeast(s.date, from) && s.kind == Focus)
  }

  /** Minutes of focus logged on `day`; break sessions never count. */
  function MinutesOn(ledger: seq<Session>, day: string): nat { SumDurations(FocusOn(ledger, day)) }

  /** Minutes of focus logged on or after `from`. */
  function MinutesSince(ledger: seq<Session>, from: string): nat { SumDurations(FocusSince(ledger, from)) }

  /**
   * Appending one record to the ledger adds its duration to the day's minutes
   * exactly when it is a focus session of that day, and to the week's minutes
   * exactly when it is a focus session dated on or after the week's start.
   */
  lemma {:induction false} MinutesAppend(ledger: seq<Session>, s: Session, day: string, from: string)
    ensures MinutesOn(ledger + [s], day) == MinutesOn(ledger, day) + (if s.kind == Focus && s.date == day then s.duration else 0)
    ensures MinutesSince(ledger + [s], from)
         == MinutesSince(ledger, from) + (if s.kind == Focus && StrAtLeast(s.date, from) then s.duration else 0)
  {
    FilterAppend(ledger, [s], (x: Session) => x.date == day && x.kind == Focus);
    SumDurationsAppend(FocusOn(ledger, day), FocusOn([s], day));
    FilterAppend(ledger, [s], (x: Session) => StrAtLeast(x.date, from) && x.kind == Focus);
    SumDurationsAppend(FocusSince(ledger, from), FocusSince([s], from));
  }

  /** Filtering with a weaker predicate never lowers the sum of durations. */
  lemma {:induction false} SumFilterMonotone(ledger: seq<Session>, p: Session -> bool, q: Session -> bool)
    requires forall s :: p(s) ==> q(s)
    ensures SumDurations(Filter(ledger, p)) <= SumDurations(Filter(ledger, q))
  {
    if ledger != [] {
      SumFilterMonotone(ledger[1..], p, q);
    }
  }

  /** When today is not before the week's start, the day's minutes never exceed the week's. */
  lemma TodayWithinWeek(ledger: seq<Session>, today: string, weekAgo: string)
    requires StrAtLeast(today, weekAgo)
    ensures MinutesOn(ledger, today) <= MinutesSince(ledger, weekAgo)
  {
    SumFilterMonotone(ledger, (s: Session) => s.date == today && s.kind == Focus,
                              (s: Session) => StrAtLeast(s.date, weekAgo) && s.kind == Focus);
  }

  // ---------------------------------------------------------------------
  // calculateStats
  // ---------------------------------------------------------------------

  datatype Stats = Stats(todayMinutes: nat, weekMinutes: nat, totalSessions: nat, completedSessions: nat, completionRate: nat)

  function FocusSessions(ledger: seq<Session>): seq<Session> {
    Filter(ledger, (s: Session) => s.kind == Focus)
  }

  function CompletedFocusSessions(ledger: seq<Session>): seq<Session> {
    Filter(ledger, (s: Session) => s.kind == Focus && s.completed)
  }

  /** `calculateStats`, with today's and the week-ago date passed in. */
  function CalculateStats(ledger: seq<Session>, today: string, weekAgo: string): (r: Stats)
    ensures r.todayMinutes == MinutesOn(ledger, today) && r.weekMinutes == MinutesSince(ledger, weekAgo)
    ensures r.totalSessions == |FocusSessions(ledger)|
    ensures r.completedSessions == |CompletedFocusSessions(ledger)| <= r.totalSessions
    ensures r.completionRate == Percent(r.completedSessions, r.totalSessions)
    ensures r.totalSessions > 0 ==>
      2 * r.totalSessions * r.completionRate <= 200 * r.completedSessions + r.totalSessions
                                              < 2 * r.totalSessions * r.completionRate + 2 * r.totalSessions
    ensures r.completionRate <= 100
    ensures r.totalSessions == 0 ==> r.completionRate == 0
    ensures r.completedSessions == r.totalSessions > 0 ==> r.completionRate == 100
    ensures StrAtLeast(today, weekAgo) ==> r.todayMinutes <= r.weekMinutes
  {
    var focus := FocusSessions(ledger);
    var completed := CompletedFocusSessions(ledger);
    FilterSubset(ledger, (s: Session) => s.kind == Focus && s.completed, (s: Session) => s.kind == Focus);
    assert StrAtLeast(today, weekAgo) ==> MinutesOn(ledger, today) <= MinutesSince(ledger, weekAgo) by {
      if StrAtLeast(today, weekAgo) { TodayWithinWeek(ledger, today, weekAgo); }
    }
    Stats(MinutesOn(ledger, today), MinutesSince(ledger, weekAgo), |focus|, |completed|,
          Percent(|completed|, |focus|))
  }

  /** Filtering with a stronger predicate never keeps more elements. */
  lemma {:induction false} FilterSubset<T>(s: seq<T>, p: T -> bool, q: T -> bool)
    requires forall x :: p(x) ==> q(x)
    ensures |Filter(s, p)| <= |Filter(s, q)|
  {
    if s != [] {
      FilterSubset(s[1..], p, q);
    }
  }

  // ---------------------------------------------------------------------
  // generateAchievements
  // ---------------------------------------------------------------------

  datatype AchievementKind = Daily | Weekly | Milestone

  datatype Card = Card(id: int, message: string, kind: AchievementKind, achieved: bool,
                       progress: Option<nat>, target: Option<nat>)

  const DailyGoal: nat := 50
  const WeeklyGoal: nat := 1000

  function DailyMetMessage(minutes: nat): string {
    "You've logged " + NatToDecimal(minutes) + " focused minutes today. Great job!"
  }

  function DailyGapMessage(gap: nat): string {
    "You're " + NatToDecimal(gap) + " minutes away from your daily goal!"
  }

  function WeeklyMetMessage(pomodoros: nat): string {
    "Amazing! You've completed " + NatToDecimal(pomodoros) + " pomodoros this week!"
  }

  function WeeklyGapMessage(remaining: nat): string {
    "You're " + NatToDecimal(remaining) + " pomodoros away from your weekly goal!"
  }

  /** `Math.round(weekMinutes / 25)`: the week's minutes as a count of 25-minute pomodoros. */
  function PomodoroCount(weekMinutes: nat): nat { RoundDiv(weekMinutes, 25) }

  /** `Math.ceil((1000 - weekMinutes) / 25)` below the goal: the fewest pomodoros that close the gap. */
  function PomodorosToGo(weekMinutes: nat): (r: nat)
    requires weekMinutes < WeeklyGoal
    ensures r >= 1
    ensures 25 * r >= WeeklyGoal - weekMinutes > 25 * (r - 1)
  {
    (WeeklyGoal - weekMinutes + 24) / 25
  }

  function DailyCard(todayMinutes: nat): Card {
    if todayMinutes >= DailyGoal then
      Card(1, DailyMetMessage(todayMinutes), Daily, true, None, None)
    else
      Card(1, DailyGapMessage(DailyGoal - todayMinutes), Daily, false, Some(todayMinutes), Some(DailyGoal))
  }

  function WeeklyCard(weekMinutes: nat): Card {
    if weekMinutes >= WeeklyGoal then
      Card(2, WeeklyMetMessage(PomodoroCount(weekMinutes)), Weekly, true, None, None)
    else
      Card(2, WeeklyGapMessage(PomodorosToGo(weekMinutes)), Weekly, false, Some(weekMinutes), Some(WeeklyGoal))
  }

  function SessionsCard(totalSessions: nat): Card {
    Card(3, "Milestone reached! You've completed " + NatToDecimal(totalSessions) + " focus sessions!", Milestone, true, None, None)
  }

  function ConsistencyCard(rate: nat): Card {
    Card(4, "Excellent consistency! " + NatToDecimal(rate) + "% completion rate!", Milestone, true, None, None)
  }

  predicate HasId(cards: seq<Card>, id: int) {
    exists i :: 0 <= i < |cards| && cards[i].id == id
  }

  /** The milestone cards: 100 sessions, then a completion rate of 90. */
  function MilestoneCards(stats: Stats): seq<Card> {
    (if stats.totalSessions >= 100 then [SessionsCard(stats.totalSessions)] else [])
    + (if stats.completionRate >= 90 then [ConsistencyCard(stats.completionRate)] else [])
  }

  /** `generateAchievements`: the cards shown for a set of statistics. */
  function GenerateAchievements(stats: Stats): seq<Card> {
    [DailyCard(stats.todayMinutes), WeeklyCard(stats.weekMinutes)] + MilestoneCards(stats)
  }

  lemma MilestoneIds(stats: Stats)
    ensures var m := MilestoneCards(stats);
      && |m| <= 2
      && (forall i :: 0 <= i < |m| ==> m[i].id == 3 || m[i].id == 4)
      && (HasId(m, 3) <==> stats.totalSessions >= 100)
      && (HasId(m, 4) <==> stats.completionRate >= 90)
  {
    var m := MilestoneCards(stats);
    if stats.totalSessions >= 100 {
      assert m[0].id == 3;
    }
    if stats.completionRate >= 90 {
      assert m[|m| - 1].id == 4;
    }
  }

  /**
   * The daily card (id 1) and the weekly card (id 2) are always first; the
   * daily one is achieved iff 50 minutes were logged today and otherwise shows
   * the gap with progress and target; the weekly one is achieved iff 1000
   * minutes were logged this week and otherwise shows at least one pomodoro to
   * go; id 3 is present iff there are 100 focus sessions and id 4 iff the
   * completion rate is at least 90; so there are two to four cards.
   */
  lemma AchievementCards(stats: Stats)
    ensures var cards := GenerateAchievements(stats);
      && 2 <= |cards| <= 4
      && cards[0].id == 1 && cards[0].kind == Daily
      && cards[1].id == 2 && cards[1].kind == Weekly
      && (cards[0].achieved <==> stats.todayMinutes >= 50)
      && (!cards[0].achieved ==>
            cards[0].progress == Some(stats.todayMinutes) && cards[0].target == Some(50)
            && cards[0].message == DailyGapMessage(50 - stats.todayMinutes))
      && (cards[1].achieved <==> stats.weekMinutes >= 1000)
      && (!cards[1].achieved ==>
            exists remaining: nat :: remaining >= 1 && 25 * remaining >= 1000 - stats.weekMinutes > 25 * (remaining - 1)
              && cards[1].message == WeeklyGapMessage(remaining))
      && (HasId(cards, 3) <==> stats.totalSessions >= 100)
      && (HasId(cards, 4) <==> stats.completionRate >= 90)
  {
    var cards := GenerateAchievements(stats);
    var m := MilestoneCards(stats);
    DailyCardMeaning(stats.todayMinutes);
    WeeklyCardMeaning(stats.weekMinutes);
    assert cards[0] == DailyCard(stats.todayMinutes) && cards[1] == WeeklyCard(stats.weekMinutes);
    MilestoneIds(stats);
    assert forall i :: 2 <= i < |cards| ==> cards[i] == m[i - 2];
    assert HasId(cards, 3) <==> HasId(m, 3) by {
      if HasId(m, 3) {
        var i :| 0 <= i < |m| && m[i].id == 3;
        assert cards[i + 2] == m[i];
      }
    }
    assert HasId(cards, 4) <==> HasId(m, 4) by {
      if HasId(m, 4) {
        var i :| 0 <= i < |m| && m[i].id == 4;
        assert cards[i + 2] == m[i];
      }
    }
  }

  /** The daily card's fields, with the minutes still to go below the goal. */
  lemma DailyCardMeaning(todayMinutes: nat)
    ensures var c := DailyCard(todayMinutes);
      && c.id == 1 && c.kind == Daily
      && (c.achieved <==> todayMinutes >= 50)
      && (!c.achieved ==>
            c.progress == Some(todayMinutes) && c.target == Some(50) && c.message == DailyGapMessage(50 - todayMinutes))
  {
  }

  /** The weekly card's fields, and the pomodoros still to go below the goal. */
  lemma WeeklyCardMeaning(weekMinutes: nat)
    ensures var c := WeeklyCard(weekMinutes);
      && c.id == 2 && c.kind == Weekly
      && (c.achieved <==> weekMinutes >= 1000)
      && (!c.achieved ==>
            exists remaining: nat :: remaining >= 1 && 25 * remaining >= 1000 - weekMinutes > 25 * (remaining - 1)
              && c.message == WeeklyGapMessage(remaining))
  {
    if weekMinutes < 1000 {
      var remaining := PomodorosToGo(weekMinutes);
      assert WeeklyCard(weekMinutes).message == WeeklyGapMessage(remaining);
    }
  }

  // ---------------------------------------------------------------------
  // getChartData
  // ---------------------------------------------------------------------

  datatype Period = Day | Week | Month

  function PeriodDays(period: Period): nat {
    match period
    case Day => 1
    case Week => 7
    case Month => 30
  }

  /** One chart point; the locale label of the date is not modelled. */
  datatype Bucket = Bucket(dateStr: string, minutes: nat, sessions: nat, completed: nat)

  /**
   * The chart point of one date, accumulated over the ledger: focus minutes,
   * focus sessions, and the completed ones among them.
   */
  function DayBucket(ledger: seq<Session>, dateStr: string): (r: Bucket)
    ensures r.dateStr == dateStr && r.completed <= r.sessions
    decreases |ledger|
  {
    if ledger == [] then Bucket(dateStr, 0, 0, 0)
    else
      var b := DayBucket(ledger[..|ledger| - 1], dateStr);
      var s := ledger[|ledger| - 1];
      if s.date == dateStr && s.kind == Focus then
        Bucket(dateStr, b.minutes + s.duration, b.sessions + 1, b.completed + if s.completed then 1 else 0)
      else b
  }

  lemma FocusOnSnoc(front: seq<Session>, s: Session, day: string)
    ensures FocusOn(front + [s], day) == FocusOn(front, day) + FocusOn([s], day)
    ensures FocusOn([s], day) == if s.date == day && s.kind == Focus then [s] else []
  {
    FilterAppend(front, [s], (x: Session) => x.date == day && x.kind == Focus);
  }

  function CompletedOn(ledger: seq<Session>, day: string): seq<Session> {
    Filter(FocusOn(ledger, day), (s: Session) => s.completed)
  }

  lemma CompletedOnSnoc(front: seq<Session>, s: Session, day: string)
    ensures |CompletedOn(front + [s], day)| == |CompletedOn(front, day)| + if s.date == day && s.kind == Focus && s.completed then 1 else 0
  {
    FocusOnSnoc(front, s, day);
    FilterAppend(FocusOn(front, day), FocusOn([s], day), (x: Session) => x.completed);
  }

  lemma {:induction false} MinutesFigure(ledger: seq<Session>, dateStr: string)
    ensures DayBucket(ledger, dateStr).minutes == MinutesOn(ledger, dateStr)
    decreases |ledger|
  {
    if ledger != [] {
      var front, s := ledger[..|ledger| - 1], ledger[|ledger| - 1];
      MinutesFigure(front, dateStr);
      assert ledger == front + [s];
      MinutesAppend(front, s, dateStr, dateStr);
    }
  }

  lemma {:induction false} SessionsFigure(ledger: seq<Session>, dateStr: string)
    ensures DayBucket(ledger, dateStr).sessions == |FocusOn(ledger, dateStr)|
    decreases |ledger|
  {
    if ledger != [] {
      var front, s := ledger[..|ledger| - 1], ledger[|ledger| - 1];
      SessionsFigure(front, dateStr);
      assert ledger == front + [s];
      FocusOnSnoc(front, s, dateStr);
    }
  }

  lemma {:induction false} CompletedFigure(ledger: seq<Session>, dateStr: string)
    ensures DayBucket(ledger, dateStr).completed == |CompletedOn(ledger, dateStr)|
    decreases |ledger|
  {
    if ledger != [] {
      var front, s := ledger[..|ledger| - 1], ledger[|ledger| - 1];
      CompletedFigure(front, dateStr);
      assert ledger == front + [s];
      CompletedOnSnoc(front, s, dateStr);
    }
  }

  /**
   * The accumulated point agrees with the page's filter-and-sum: the minutes
   * and number of the date's focus sessions, and how many of those completed.
   */
  lemma DayBucketFigures(ledger: seq<Session>, dateStr: string)
    ensures DayBucket(ledger, dateStr).minutes == MinutesOn(ledger, dateStr)
    ensures DayBucket(ledger, dateStr).sessions == |FocusOn(ledger, dateStr)|
    ensures DayBucket(ledger, dateStr).completed == |CompletedOn(ledger, dateStr)|
  {
    MinutesFigure(ledger, dateStr);
    SessionsFigure(ledger, dateStr);
    CompletedFigure(ledger, dateStr);
  }

  /**
   * `getChartData`: one bucket per day of the period, oldest first. `daysAgo(i)`
   * is the ISO date `i` days before today.
   */
  method GetChartData(ledger: seq<Session>, period: Period, daysAgo: nat -> string) returns (data: seq<Bucket>)
    ensures |data| == PeriodDays(period)
    ensures forall k {:trigger data[k]} :: 0 <= k < |data| ==> data[k] == DayBucket(ledger, daysAgo(|data| - 1 - k))
    ensures forall k :: 0 <= k < |data| ==> data[k].completed <= data[k].sessions
  {
    var days := PeriodDays(period);
    data := [];
    var i: int := days - 1;
    while i >= 0
      invariant -1 <= i < days
      invariant |data| == days - 1 - i
      invariant forall k {:trigger data[k]} :: 0 <= k < |data| ==> data[k] == DayBucket(ledger, daysAgo(days - 1 - k))
    {
      var b := DayBucket(ledger, daysAgo(i));
      assert days - 1 - |data| == i;
      data := data + [b];
      i := i - 1;
    }
  }

  // ---------------------------------------------------------------------
  // The recent-sessions list
  // ---------------------------------------------------------------------

  /**
   * The list under "Recent Focus Sessions" as written:
   * `focusSessions.filter(s => s.type === 'pomodoro').slice(0, 5)`. At most
   * five focus sessions, the FIRST ones of the ledger, in ledger order.
   */
  function RecentSessionsAsWritten(ledger: seq<Session>): (r: seq<Session>)
    ensures |r| <= 5
    ensures forall i :: 0 <= i < |r| ==> r[i].kind == Focus
    ensures |r| == Min(5, |FocusSessions(ledger)|)
    ensures r == FocusSessions(ledger)[..|r|]
  {
    Take(FocusSessions(ledger), 5)
  }

  /**
   * Since the ledger is appended to, its first focus sessions are its oldest:
   * with six focus sessions, the newest one is not in the "recent" list.
   */
  lemma RecentSessionsOmitsNewest(stamp: Stamp)
    ensures var ledger := seq(6, i => Session(i, stamp.today, 25, Focus, true));
      ledger[5] !in RecentSessionsAsWritten(ledger)
  {
    var ledger := seq(6, i => Session(i, stamp.today, 25, Focus, true));
    assert FocusSessions(ledger) == ledger;
    var r := RecentSessionsAsWritten(ledger);
    assert r == ledger[..5];
    assert forall i :: 0 <= i < 5 ==> r[i].id == i;
  }

  /**
   * The list as its heading and comment say: the last (most recent) five focus
   * sessions, in ledger order.
   */
  function RecentSessions(ledger: seq<Session>): (r: seq<Session>)
    ensures |r| == Min(5, |FocusSessions(ledger)|)
    ensures forall i :: 0 <= i < |r| ==> r[i].kind == Focus
    ensures r == FocusSessions(ledger)[|FocusSessions(ledger)| - |r|..]
  {
    var focus := FocusSessions(ledger);
    focus[|focus| - Min(5, |focus|)..]
  }

  /** The newest focus session is always listed, and appending a focus session lists it last. */
  lemma RecentSessionsShowNewest(ledger: seq<Session>, s: Session)
    requires s.kind == Focus
    ensures var r := RecentSessions(ledger + [s]); r != [] && r[|r| - 1] == s
  {
    FilterAppend(ledger, [s], (x: Session) => x.kind == Focus);
    assert FocusSessions(ledger + [s]) == FocusSessions(ledger) + [s];
  }
}
