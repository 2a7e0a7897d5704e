/**
 * The daily planner (DailyPlanner.tsx): adding and deleting events, and the
 * list shown in time order. Sorting works on a copy, so the stored events keep
 * their order; the time strings are compared character by character.
 */
module Planner {
  import opened Common
  import opened FocusHistory

  datatype Event = Event(id: int, title: string, time: string, description: string)

  datatype EventForm = EventForm(title: string, time: string, description: string)

  const EmptyEventForm: EventForm := EventForm("", "", "")

  /**
   * `addEvent`: needs a non-blank title and a time. The event takes the form's
   * fields exactly as typed (the title is not trimmed), and the form is cleared.
   */
  function AddEvent(events: seq<Event>, form: EventForm, now: int): (r: (seq<Event>, EventForm))
    ensures IsBlank(form.title) || form.time == [] ==> r == (events, form)
    ensures !IsBlank(form.title) && form.time != [] ==>
      && r.1 == EmptyEventForm
      && |r.0| == |events| + 1 && r.0[..|events|] == events
      && r.0[|events|] == Event(now, form.title, form.time, form.description)
  {
    if Trim(form.title) != [] && form.time != [] then
      (events + [Event(now, form.title, form.time, form.description)], EmptyEventForm)
    else (events, form)
  }

  /** `deleteEvent`: drop the events with the id, keep the rest in order. */
  function DeleteEvent(events: seq<Event>, id: int): (r: seq<Event>)
    ensures forall i :: 0 <= i < |r| ==> r[i].id != id
    ensures forall i :: 0 <= i < |events| && events[i].id != id ==> events[i] in r
    ensures forall e :: e in r ==> e in events
    ensures (forall i :: 0 <= i < |events| ==> events[i].id != id) ==> r == events
  {
    Filter(events, (e: Event) => e.id != id)
  }

  lemma DeleteEventKeepsOrder(a: seq<Event>, b: seq<Event>, id: int)
    ensures DeleteEvent(a + b, id) == DeleteEvent(a, id) + DeleteEvent(b, id)
  {
    FilterAppend(a, b, (e: Event) => e.id != id);
  }

  // ---------------------------------------------------------------------
  // sortedEvents
  // ---------------------------------------------------------------------

  /** `a.time` does not come after `b.time`. */
  predicate TimeLe(a: Event, b: Event) { !StrLess(b.time, a.time) }

  predicate SortedByTime(s: seq<Event>) {
    forall i, j :: 0 <= i < j < |s| ==> TimeLe(s[i], s[j])
  }

  /** "Not later than" is transitive. */
  lemma {:induction false} TimeLeTrans(a: Event, b: Event, c: Event)
    requires TimeLe(a, b) && TimeLe(b, c)
    ensures TimeLe(a, c)
  {
    StrLeTrans(a.time, b.time, c.time);
  }

  lemma {:induction false} StrLeTrans(a: string, b: string, c: string)
    requires !StrLess(b, a) && !StrLess(c, b)
    ensures !StrLess(c, a)
    decreases |a|
  {
    if a != [] && b != [] && c != [] && a[0] == b[0] && b[0] == c[0] {
      StrLeTrans(a[1..], b[1..], c[1..]);
    }
  }

  lemma {:induction false} StrLessIrreflexiveAntisym(a: string, b: string)
    ensures !(StrLess(a, b) && StrLess(b, a))
    decreases |a|
  {
    if a != [] && b != [] && a[0] == b[0] {
      StrLessIrreflexiveAntisym(a[1..], b[1..]);
    }
  }

  lemma SortedTail(s: seq<Event>)
    requires SortedByTime(s) && s != []
    ensures SortedByTime(s[1..])
    ensures forall x :: x in s[1..] ==> TimeLe(s[0], x)
  {
    assert forall i :: 0 <= i < |s[1..]| ==> s[1..][i] == s[i + 1];
  }

  lemma ConsSorted(h: Event, t: seq<Event>)
    requires SortedByTime(t) && forall x :: x in t ==> TimeLe(h, x)
    ensures SortedByTime([h] + t)
  {
    var r := [h] + t;
    assert forall i :: 1 <= i < |r| ==> r[i] == t[i - 1] && r[i] in t;
  }

  /** An event strictly earlier than the head of a sorted list is not later than any of it. */
  lemma EarlierThanAll(e: Event, s: seq<Event>)
    requires SortedByTime(s) && s != [] && StrLess(e.time, s[0].time)
    ensures forall x :: x in s ==> TimeLe(e, x)
  {
    StrLessIrreflexiveAntisym(e.time, s[0].time);
    SortedTail(s);
    forall x | x in s ensures TimeLe(e, x) {
      if x != s[0] {
        assert x in s[1..] by { assert s == [s[0]] + s[1..]; }
        TimeLeTrans(e, s[0], x);
      }
    }
  }

  /** Insert `e` after every event whose time is not later, before the first later one. */
  function Insert(e: Event, s: seq<Event>): (r: seq<Event>)
    requires SortedByTime(s)
    ensures SortedByTime(r)
    ensures multiset(r) == multiset(s) + multiset{e}
    ensures forall x :: x in r ==> x == e || x in s
    decreases |s|
  {
    if s == [] then [e]
    else if StrLess(e.time, s[0].time) then
      EarlierThanAll(e, s);
      ConsSorted(e, s);
      [e] + s
    else
      SortedTail(s);
      var rest := Insert(e, s[1..]);
      assert TimeLe(s[0], e);
      ConsSorted(s[0], rest);
      assert s == [s[0]] + s[1..];
      [s[0]] + rest
  }

  /** `[...events].sort((a, b) => a.time.localeCompare(b.time))`, as an insertion sort. */
  function SortEvents(events: seq<Event>): (r: seq<Event>)
    ensures SortedByTime(r)
    ensures multiset(r) == multiset(events)
    ensures |r| == |events|
    decreases |events|
  {
    if events == [] then []
    else
      assert events == events[..|events| - 1] + [events[|events| - 1]];
      var r := Insert(events[|events| - 1], SortEvents(events[..|events| - 1]));
      assert |r| == |multiset(r)| == |multiset(events)| == |events|;
      r
  }

  /** Sorting an already time-ordered list leaves it alone. */
  lemma {:induction false} SortSortedIsIdentity(events: seq<Event>)
    requires SortedByTime(events)
    ensures SortEvents(events) == events
    decreases |events|
  {
    if events != [] {
      var front, e := events[..|events| - 1], events[|events| - 1];
      assert SortedByTime(front);
      SortSortedIsIdentity(front);
      InsertAtEnd(e, front);
    }
  }

  lemma {:induction false} InsertAtEnd(e: Event, s: seq<Event>)
    requires SortedByTime(s + [e])
    ensures SortedByTime(s) && Insert(e, s) == s + [e]
    decreases |s|
  {
    assert forall i :: 0 <= i < |s| ==> (s + [e])[i] == s[i];
    if s != [] {
      assert TimeLe(s[0], e) by { assert (s + [e])[0] == s[0] && (s + [e])[|s|] == e; }
      assert s[1..] + [e] == (s + [e])[1..];
      InsertAtEnd(e, s[1..]);
    }
  }
}
