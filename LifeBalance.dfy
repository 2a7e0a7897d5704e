/**
 * The life balance wheel (LifeBalanceWheelPage.tsx): changing one area's
 * rating, saving a week's ratings as a map from area id to value, loading them
 * back with the page's falsy fallback, and the message for a balance score.
 *
 * Browser storage is a map from storage key to the saved id-to-value map; the
 * JSON text in between is not modelled. The week key is a parameter.
 */
module LifeBalance {
  import opened Common

  datatype LifeArea = LifeArea(id: string, name: string, value: int, color: string,
                               description: string, icon: string)

  /** `handleValueChange`'s new areas: the matching area takes the value, nothing else changes. */
  function ChangeValue(areas: seq<LifeArea>, areaId: string, newValue: int): (r: seq<LifeArea>)
    ensures |r| == |areas|
    ensures forall i :: 0 <= i < |areas| ==>
      r[i] == if areas[i].id == areaId then areas[i].(value := newValue) else areas[i]
  {
    Update(areas, (a: LifeArea) => a.id == areaId, (a: LifeArea) => a.(value := newValue))
  }

  // ---------------------------------------------------------------------
  // saveWeekData
  // ---------------------------------------------------------------------

  function StorageKey(weekKey: string): string { "lifeBalance_" + weekKey }

  /** Different weeks are stored under different keys. */
  lemma StorageKeyInjective(w1: string, w2: string)
    requires StorageKey(w1) == StorageKey(w2)
    ensures w1 == w2
  {
    var p := "lifeBalance_";
    assert w1 == StorageKey(w1)[|p|..];
    assert w2 == StorageKey(w2)[|p|..];
  }

  /** The saved record: each id mapped to its area's value, a later area overwriting an earlier one. */
  function WeekData(areas: seq<LifeArea>): map<string, int>
    decreases |areas|
  {
    if areas == [] then map[]
    else
      var last := areas[|areas| - 1];
      WeekData(areas[..|areas| - 1])[last.id := last.value]
  }

  /** The record holds exactly the areas' ids, each with the value of its last area. */
  lemma {:induction false} WeekDataContents(areas: seq<LifeArea>)
    ensures forall k :: k in WeekData(areas) <==> exists i :: 0 <= i < |areas| && areas[i].id == k
    ensures forall i :: 0 <= i < |areas| && (forall j :: i < j < |areas| ==> areas[j].id != areas[i].id) ==>
      WeekData(areas)[areas[i].id] == areas[i].value
    decreases |areas|
  {
    if areas != [] {
      var front := areas[..|areas| - 1];
      WeekDataContents(front);
      assert forall i :: 0 <= i < |front| ==> front[i] == areas[i];
    }
  }

  /** `saveWeekData`: the `reduce` that fills the record one area at a time, and its storage key. */
  method SaveWeekData(weekKey: string, areas: seq<LifeArea>) returns (key: string, data: map<string, int>)
    ensures key == StorageKey(weekKey)
    ensures data == WeekData(areas)
  {
    data := map[];
    var i := 0;
    while i < |areas|
      invariant 0 <= i <= |areas|
      invariant data == WeekData(areas[..i])
    {
      assert areas[..i + 1][..i] == areas[..i];
      data := data[areas[i].id := areas[i].value];
      i := i + 1;
    }
    assert areas[..|areas|] == areas;
    key := "lifeBalance_" + weekKey;
  }

  type Storage = map<string, map<string, int>>

  function Save(storage: Storage, weekKey: string, areas: seq<LifeArea>): Storage {
    storage[StorageKey(weekKey) := WeekData(areas)]
  }

  // ---------------------------------------------------------------------
  // loadWeekData
  // ---------------------------------------------------------------------

  /** `savedAreas[area.id] || area.value`: a missing or zero saved value keeps the current one. */
  function Restored(saved: map<string, int>, area: LifeArea): (r: LifeArea)
    ensures area.id in saved && saved[area.id] != 0 ==> r == area.(value := saved[area.id])
    ensures area.id !in saved || saved[area.id] == 0 ==> r == area
  {
    if area.id in saved && saved[area.id] != 0 then area.(value := saved[area.id]) else area
  }

  /** `loadWeekData`: nothing saved for the week leaves the areas; otherwise each area is restored. */
  function LoadWeekData(storage: Storage, weekKey: string, areas: seq<LifeArea>): (r: seq<LifeArea>)
    ensures StorageKey(weekKey) !in storage ==> r == areas
    ensures |r| == |areas|
    ensures StorageKey(weekKey) in storage ==>
      forall i :: 0 <= i < |areas| ==> r[i] == Restored(storage[StorageKey(weekKey)], areas[i])
  {
    if StorageKey(weekKey) in storage then
      Update(areas, (a: LifeArea) => true, (a: LifeArea) => Restored(storage[StorageKey(weekKey)], a))
    else areas
  }

  /** The same areas, differing in their values at most. */
  predicate SameAreas(a: seq<LifeArea>, b: seq<LifeArea>) {
    |a| == |b| && forall i :: 0 <= i < |a| ==> a[i] == b[i].(value := a[i].value)
  }

  predicate DistinctIds(areas: seq<LifeArea>) {
    forall i, j :: 0 <= i < j < |areas| ==> areas[i].id != areas[j].id
  }

  /**
   * Saving a week and loading it again into the same areas restores every
   * value, whatever values they show before the load, as long as the ids are
   * distinct and the saved values are ratings 1..10 (which are never falsy).
   */
  lemma SaveLoadRoundTrip(storage: Storage, weekKey: string, areas: seq<LifeArea>, shown: seq<LifeArea>)
    requires DistinctIds(areas) && SameAreas(shown, areas)
    requires forall i :: 0 <= i < |areas| ==> 1 <= areas[i].value <= 10
    ensures LoadWeekData(Save(storage, weekKey, areas), weekKey, shown) == areas
  {
    WeekDataContents(areas);
    var r := LoadWeekData(Save(storage, weekKey, areas), weekKey, shown);
    forall i | 0 <= i < |areas| ensures r[i] == areas[i] {
      assert shown[i].id == areas[i].id;
    }
  }

  /** Saving one week leaves what another week loads untouched. */
  lemma SaveOtherWeek(storage: Storage, w: string, other: string, areas: seq<LifeArea>, shown: seq<LifeArea>)
    requires w != other
    ensures LoadWeekData(Save(storage, w, areas), other, shown) == LoadWeekData(storage, other, shown)
  {
    if StorageKey(w) == StorageKey(other) {
      StorageKeyInjective(w, other);
    }
  }

  /**
   * `handleValueChange`: change one area and save the whole week at once, so
   * loading the week afterwards shows the change.
   */
  function HandleValueChange(storage: Storage, weekKey: string, areas: seq<LifeArea>,
                             areaId: string, newValue: int): (r: (seq<LifeArea>, Storage))
    ensures r.0 == ChangeValue(areas, areaId, newValue)
    ensures StorageKey(weekKey) in r.1 && r.1[StorageKey(weekKey)] == WeekData(r.0)
    ensures forall k :: k in storage && k != StorageKey(weekKey) ==> k in r.1 && r.1[k] == storage[k]
  {
    var updated := ChangeValue(areas, areaId, newValue);
    (updated, Save(storage, weekKey, updated))
  }

  lemma ChangeThenLoad(storage: Storage, weekKey: string, areas: seq<LifeArea>, areaId: string, newValue: int)
    requires DistinctIds(areas) && 1 <= newValue <= 10
    requires forall i :: 0 <= i < |areas| ==> 1 <= areas[i].value <= 10
    ensures var (updated, stored) := HandleValueChange(storage, weekKey, areas, areaId, newValue);
      LoadWeekData(stored, weekKey, areas) == updated
  {
    var updated := ChangeValue(areas, areaId, newValue);
    assert DistinctIds(updated) by {
      assert forall i :: 0 <= i < |areas| ==> updated[i].id == areas[i].id;
    }
    assert SameAreas(areas, updated);
    SaveLoadRoundTrip(storage, weekKey, updated, areas);
  }

  // ---------------------------------------------------------------------
  // getBalanceMessage
  // ---------------------------------------------------------------------

  const Excellent: string := "Excellent balance! You're thriving in all areas."
  const Good: string := "Good balance! Consider focusing on lower-rated areas."
  const Moderate: string := "Moderate balance. Try to bring up areas below 6."
  const Unbalanced: string := "Unbalanced. Focus on improving areas below 5 for better life satisfaction."

  /** The message for a balance score: excellent from 80, good from 60, moderate from 40. */
  function BalanceMessage(score: int): (r: string)
    ensures r == Excellent <==> score >= 80
    ensures r == Good <==> 60 <= score < 80
    ensures r == Moderate <==> 40 <= score < 60
    ensures r == Unbalanced <==> score < 40
  {
    if score >= 80 then Excellent
    else if score >= 60 then Good
    else if score >= 40 then Moderate
    else Unbalanced
  }

  /** How good a message is: 3 for excellent down to 0 for unbalanced. */
  function MessageLevel(m: string): nat {
    if m == Excellent then 3 else if m == Good then 2 else if m == Moderate then 1 else 0
  }

  /** A higher score never gets a worse message. */
  lemma BalanceMessageMonotone(a: int, b: int)
    requires a <= b
    ensures MessageLevel(BalanceMessage(a)) <= MessageLevel(BalanceMessage(b))
  {
  }
}
