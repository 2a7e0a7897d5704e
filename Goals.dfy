/**
 * The daily goals card (DailyGoals.tsx): adding, toggling and deleting goals,
 * the priority colour and the progress line. `Date.now()` is `now`.
 */
module Goals {
  import opened Common

  datatype Priority = High | Medium | Low

  datatype Goal = Goal(id: int, text: string, completed: bool, priority: Priority)

  /** The input text and the priority selector. */
  datatype GoalForm = GoalForm(text: string, priority: Priority)

  const ResetForm: GoalForm := GoalForm("", Medium)

  /**
   * `addGoal`: blank text changes nothing; otherwise an open goal with the
   * trimmed text and the chosen priority is appended, the input is cleared and
   * the priority returns to medium.
   */
  function AddGoal(goals: seq<Goal>, form: GoalForm, now: int): (r: (seq<Goal>, GoalForm))
    ensures IsBlank(form.text) ==> r == (goals, form)
    ensures !IsBlank(form.text) ==>
      && r.1 == ResetForm
      && |r.0| == |goals| + 1 && r.0[..|goals|] == goals
      && r.0[|goals|] == Goal(now, Trim(form.text), false, form.priority)
      && r.0[|goals|].text != []
  {
    if Trim(form.text) != [] then (goals + [Goal(now, Trim(form.text), false, form.priority)], ResetForm)
    else (goals, form)
  }

  /** `toggleGoal`: flip `completed` on the goals with the id, nothing else. */
  function ToggleGoal(goals: seq<Goal>, id: int): (r: seq<Goal>)
    ensures |r| == |goals|
    ensures forall i :: 0 <= i < |goals| ==>
      r[i] == if goals[i].id == id then goals[i].(completed := !goals[i].completed) else goals[i]
  {
    Update(goals, (g: Goal) => g.id == id, (g: Goal) => g.(completed := !g.completed))
  }

  lemma ToggleGoalTwice(goals: seq<Goal>, id: int)
    ensures ToggleGoal(ToggleGoal(goals, id), id) == goals
  {
    var twice := ToggleGoal(ToggleGoal(goals, id), id);
    assert forall i :: 0 <= i < |goals| ==> twice[i] == goals[i];
  }

  /** `deleteGoal`: drop the goals with the id, keep the rest in order. */
  function DeleteGoal(goals: seq<Goal>, id: int): (r: seq<Goal>)
    ensures forall i :: 0 <= i < |r| ==> r[i].id != id
    ensures forall i :: 0 <= i < |goals| && goals[i].id != id ==> goals[i] in r
    ensures forall g :: g in r ==> g in goals
    ensures (forall i :: 0 <= i < |goals| ==> goals[i].id != id) ==> r == goals
  {
    Filter(goals, (g: Goal) => g.id != id)
  }

  lemma DeleteGoalKeepsOrder(a: seq<Goal>, b: seq<Goal>, id: int)
    ensures DeleteGoal(a + b, id) == DeleteGoal(a, id) + DeleteGoal(b, id)
  {
    FilterAppend(a, b, (g: Goal) => g.id != id);
  }

  function PriorityName(p: Priority): string {
    match p
    case High => "high"
    case Medium => "medium"
    case Low => "low"
  }

  /** `getPriorityColor`: the `switch` over the priority string, grey for anything else. */
  function PriorityColor(priority: string): (r: string)
    ensures priority == "high" ==> r == "text-red-500"
    ensures priority == "medium" ==> r == "text-yellow-500"
    ensures priority == "low" ==> r == "text-green-500"
    ensures priority !in {"high", "medium", "low"} ==> r == "text-gray-500"
  {
    if priority == "high" then "text-red-500"
    else if priority == "medium" then "text-yellow-500"
    else if priority == "low" then "text-green-500"
    else "text-gray-500"
  }

  /** Each of the three priorities gets its own colour, and none of them is the fallback grey. */
  lemma PriorityColorsDistinct(p: Priority, q: Priority)
    ensures p != q ==> PriorityColor(PriorityName(p)) != PriorityColor(PriorityName(q))
    ensures PriorityColor(PriorityName(p)) != "text-gray-500"
  {
  }

  /** The progress line: "Completed: c / n goals", or "No goals set for today" for an empty list. */
  datatype ProgressLine = NoGoals | Completed(done: nat, total: nat)

  function GoalProgress(goals: seq<Goal>): (r: ProgressLine)
    ensures r == NoGoals <==> goals == []
    ensures r.Completed? ==> r.total == |goals| && r.done <= r.total
  {
    if |goals| > 0 then Completed(DoneCount(goals), |goals|) else NoGoals
  }

  /** The number of completed goals. */
  function DoneCount(goals: seq<Goal>): nat {
    |Filter(goals, (g: Goal) => g.completed)|
  }

  lemma DoneCountCons(goals: seq<Goal>)
    requires goals != []
    ensures DoneCount(goals) == (if goals[0].completed then 1 else 0) + DoneCount(goals[1..])
  {
  }

  lemma ToggleCons(goals: seq<Goal>, id: int)
    requires goals != []
    ensures ToggleGoal(goals, id)[1..] == ToggleGoal(goals[1..], id)
    ensures ToggleGoal(goals, id)[0].completed == (goals[0].completed != (goals[0].id == id))
  {
    assert forall i :: 0 <= i < |goals[1..]| ==> goals[1..][i] == goals[i + 1];
  }

  lemma DistinctTail(goals: seq<Goal>)
    requires goals != [] && forall i, j :: 0 <= i < j < |goals| ==> goals[i].id != goals[j].id
    ensures forall i, j :: 0 <= i < j < |goals[1..]| ==> goals[1..][i].id != goals[1..][j].id
    ensures forall i :: 0 <= i < |goals[1..]| ==> goals[1..][i].id != goals[0].id
  {
    assert forall i :: 0 <= i < |goals[1..]| ==> goals[1..][i] == goals[i + 1];
  }

  lemma ToggleAbsent(goals: seq<Goal>, id: int)
    requires forall i :: 0 <= i < |goals| ==> goals[i].id != id
    ensures ToggleGoal(goals, id) == goals
  {
  }

  /** Toggling one goal moves the completed count by at most one. */
  lemma {:induction false} ToggleMovesCountByOne(goals: seq<Goal>, id: int)
    requires forall i, j :: 0 <= i < j < |goals| ==> goals[i].id != goals[j].id
    ensures DoneCount(goals) - 1 <= DoneCount(ToggleGoal(goals, id)) <= DoneCount(goals) + 1
    decreases |goals|
  {
    if goals != [] {
      var t := ToggleGoal(goals, id);
      DistinctTail(goals);
      ToggleMovesCountByOne(goals[1..], id);
      ToggleCons(goals, id);
      DoneCountCons(goals);
      DoneCountCons(t);
      if goals[0].id == id {
        ToggleAbsent(goals[1..], id);
      }
    }
  }
}
