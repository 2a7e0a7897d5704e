/**
 * The statistics page (StatsPage.tsx): to-do totals, the completion rate, the
 * per-category tally built with a `Map` in insertion order, the quick to-do
 * count and the productivity score.
 */
module Stats {
  import opened Common
  import opened Todos

  datatype TodoTotals = TodoTotals(total: nat, completed: nat, pending: int, rate: nat, quick: nat)

  /** The headline numbers of `calculateStats`. */
  function Totals(todos: seq<Todo>): (r: TodoTotals)
    ensures r.total == |todos|
    ensures r.completed == |CompletedTodos(todos)| && r.quick == |QuickTodos(todos)|
    ensures r.completed + r.pending == r.total && 0 <= r.pending
    ensures r.completed <= r.total && r.quick <= r.total
    ensures r.rate == Percent(r.completed, r.total)
    ensures r.total > 0 ==> 2 * r.total * r.rate <= 200 * r.completed + r.total < 2 * r.total * r.rate + 2 * r.total
    ensures r.rate <= 100
    ensures r.total == 0 ==> r.rate == 0
    ensures r.pending == 0 && r.total > 0 ==> r.rate == 100
    ensures r.completed == 0 ==> r.rate == 0
  {
    var completed := |CompletedTodos(todos)|;
    TodoTotals(|todos|, completed, |todos| - completed, Percent(completed, |todos|),
               |QuickTodos(todos)|)
  }

  // ---------------------------------------------------------------------
  // Categories, tallied in first-occurrence order
  // ---------------------------------------------------------------------

  /** An association list standing for a JavaScript `Map`, which iterates in insertion order. */
  type Tally = seq<(string, nat)>

  predicate HasKey(e: Tally, k: string) {
    exists i :: 0 <= i < |e| && e[i].0 == k
  }

  predicate DistinctKeys(e: Tally) {
    forall i, j :: 0 <= i < j < |e| ==> e[i].0 != e[j].0
  }

  /** `map.set(k, (map.get(k) || 0) + 1)`: bump an existing key in place, or append a new one. */
  function Bump(e: Tally, k: string): (r: Tally)
    ensures HasKey(e, k) ==> |r| == |e|
    ensures !HasKey(e, k) ==> |r| == |e| + 1 && r[|e|] == (k, 1)
    ensures forall i :: 0 <= i < |e| ==> r[i].0 == e[i].0
    ensures forall i :: 0 <= i < |e| ==> r[i].1 == if e[i].0 == k then e[i].1 + 1 else e[i].1
  {
    if HasKey(e, k) then
      seq(|e|, i requires 0 <= i < |e| => if e[i].0 == k then (k, e[i].1 + 1) else e[i])
    else e + [(k, 1)]
  }

  function Categories(todos: seq<Todo>): (r: seq<string>)
    ensures |r| == |todos| && forall i :: 0 <= i < |todos| ==> r[i] == todos[i].category
  {
    seq(|todos|, i requires 0 <= i < |todos| => todos[i].category)
  }

  /** The tally after visiting `cats` in order (the `forEach`), peeling the last visit. */
  function TallyOf(cats: seq<string>): Tally
    decreases |cats|
  {
    if cats == [] then [] else Bump(TallyOf(cats[..|cats| - 1]), cats[|cats| - 1])
  }

  /** How often `k` occurs in `cats`. */
  function Occurrences(cats: seq<string>, k: string): nat
    decreases |cats|
  {
    if cats == [] then 0
    else Occurrences(cats[..|cats| - 1], k) + (if cats[|cats| - 1] == k then 1 else 0)
  }

  /** The index of the first occurrence of `k`. */
  function FirstIndex(cats: seq<string>, k: string): (r: nat)
    requires k in cats
    ensures r < |cats| && cats[r] == k && k !in cats[..r]
  {
    if cats[0] == k then 0 else
      assert k in cats[1..];
      var r := FirstIndex(cats[1..], k);
      assert cats[..r + 1] == [cats[0]] + cats[1..][..r];
      r + 1
  }

  lemma {:induction false} FirstIndexExtend(cats: seq<string>, c: string, k: string)
    requires k in cats
    ensures FirstIndex(cats + [c], k) == FirstIndex(cats, k)
    decreases |cats|
  {
    if cats[0] != k {
      assert (cats + [c])[1..] == cats[1..] + [c];
      assert k in cats[1..];
      FirstIndexExtend(cats[1..], c, k);
    }
  }

  lemma {:induction false} OccurrencesAbsent(cats: seq<string>, k: string)
    requires k !in cats
    ensures Occurrences(cats, k) == 0
    decreases |cats|
  {
    if cats != [] {
      assert forall x :: x in cats[..|cats| - 1] ==> x in cats;
      OccurrencesAbsent(cats[..|cats| - 1], k);
    }
  }

  /** What the tally says about the categories it has seen. */
  ghost predicate TallyFacts(cats: seq<string>, e: Tally) {
    && DistinctKeys(e)
    && (forall k :: HasKey(e, k) <==> k in cats)
    && (forall i :: 0 <= i < |e| ==> e[i].1 == Occurrences(cats, e[i].0))
    && (forall i, j :: 0 <= i < j < |e| ==> e[i].0 in cats && e[j].0 in cats && FirstIndex(cats, e[i].0) < FirstIndex(cats, e[j].0))
  }

  lemma BumpKeys(front: seq<string>, c: string, e: Tally)
    requires DistinctKeys(e) && forall k :: HasKey(e, k) <==> k in front
    ensures DistinctKeys(Bump(e, c))
    ensures forall k :: HasKey(Bump(e, c), k) <==> k in front + [c]
  {
    var r := Bump(e, c);
    forall k ensures HasKey(r, k) <==> k in front + [c] {
      if HasKey(e, k) {
        var i :| 0 <= i < |e| && e[i].0 == k;
        assert r[i].0 == k;
      }
      if HasKey(r, k) && !HasKey(e, k) {
        var i :| 0 <= i < |r| && r[i].0 == k;
        assert i == |e|;
      }
      if !HasKey(e, c) {
        assert r[|e|].0 == c;
      }
    }
  }

  lemma BumpCounts(front: seq<string>, c: string, e: Tally)
    requires forall k :: HasKey(e, k) <==> k in front
    requires forall i :: 0 <= i < |e| ==> e[i].1 == Occurrences(front, e[i].0)
    ensures var r := Bump(e, c);
      forall i :: 0 <= i < |r| ==> r[i].1 == Occurrences(front + [c], r[i].0)
  {
    var cats := front + [c];
    assert cats[..|cats| - 1] == front;
    if !HasKey(e, c) {
      OccurrencesAbsent(front, c);
    }
  }

  lemma BumpOrder(front: seq<string>, c: string, e: Tally)
    requires forall k :: HasKey(e, k) <==> k in front
    requires forall i, j :: 0 <= i < j < |e| ==> e[i].0 in front && e[j].0 in front && FirstIndex(front, e[i].0) < FirstIndex(front, e[j].0)
    ensures var r := Bump(e, c);
      forall i, j :: 0 <= i < j < |r| ==>
        r[i].0 in front + [c] && r[j].0 in front + [c] && FirstIndex(front + [c], r[i].0) < FirstIndex(front + [c], r[j].0)
  {
    var cats := front + [c];
    var r := Bump(e, c);
    forall k | k in front ensures FirstIndex(cats, k) == FirstIndex(front, k) {
      FirstIndexExtend(front, c, k);
    }
    assert forall i :: 0 <= i < |e| ==> HasKey(e, e[i].0);
    if !HasKey(e, c) {
      assert c !in front;
      assert forall j :: 0 <= j < |front| ==> cats[j] == front[j] && cats[j] != c;
      assert FirstIndex(cats, c) == |front|;
    }
  }

  lemma {:induction false} TallyCorrect(cats: seq<string>)
    ensures TallyFacts(cats, TallyOf(cats))
    decreases |cats|
  {
    if cats != [] {
      var front, c := cats[..|cats| - 1], cats[|cats| - 1];
      assert cats == front + [c];
      TallyCorrect(front);
      var e := TallyOf(front);
      BumpKeys(front, c, e);
      BumpCounts(front, c, e);
      BumpOrder(front, c, e);
    }
  }

  /** The counts in a tally add up. */
  function CountSum(e: Tally): nat
    decreases |e|
  {
    if e == [] then 0 else CountSum(e[..|e| - 1]) + e[|e| - 1].1
  }

  lemma {:induction false} CountSumSame(e: Tally, r: Tally)
    requires |r| == |e| && forall j :: 0 <= j < |e| ==> r[j].1 == e[j].1
    ensures CountSum(r) == CountSum(e)
    decreases |e|
  {
    if e != [] {
      CountSumSame(e[..|e| - 1], r[..|r| - 1]);
    }
  }

  lemma {:induction false} CountSumIncrement(e: Tally, r: Tally, i: nat)
    requires |r| == |e| && i < |e| && r[i].1 == e[i].1 + 1
    requires forall j :: 0 <= j < |e| && j != i ==> r[j].1 == e[j].1
    ensures CountSum(r) == CountSum(e) + 1
    decreases |e|
  {
    var n := |e| - 1;
    if i < n {
      CountSumIncrement(e[..n], r[..n], i);
    } else {
      CountSumSame(e[..n], r[..n]);
    }
  }

  /** Every visit adds exactly one to the total count. */
  lemma BumpAddsOne(e: Tally, k: string)
    requires DistinctKeys(e)
    ensures CountSum(Bump(e, k)) == CountSum(e) + 1
  {
    var r := Bump(e, k);
    if HasKey(e, k) {
      var i :| 0 <= i < |e| && e[i].0 == k;
      CountSumIncrement(e, r, i);
    } else {
      assert r[..|e|] == e;
    }
  }

  /** The counts of the tally add up to the number of visits: `totalTodos`. */
  lemma {:induction false} TallyCountsSum(cats: seq<string>)
    ensures CountSum(TallyOf(cats)) == |cats|
    decreases |cats|
  {
    if cats != [] {
      var front := cats[..|cats| - 1];
      TallyCountsSum(front);
      TallyCorrect(front);
      BumpAddsOne(TallyOf(front), cats[|cats| - 1]);
    }
  }

  /** `categoryMap`, built by the source's `forEach` over the to-dos. */
  method TallyCategories(todos: seq<Todo>) returns (e: Tally)
    ensures e == TallyOf(Categories(todos))
  {
    e := [];
    var i := 0;
    while i < |todos|
      invariant 0 <= i <= |todos|
      invariant e == TallyOf(Categories(todos)[..i])
    {
      assert Categories(todos)[..i + 1][..i] == Categories(todos)[..i];
      e := Bump(e, todos[i].category);
      i := i + 1;
    }
    assert Categories(todos)[..i] == Categories(todos);
  }

  /**
   * The category tally of a to-do list: each category once, in order of first
   * appearance, with its number of to-dos, the counts adding up to the total.
   */
  lemma CategoryTally(todos: seq<Todo>)
    ensures var e := TallyOf(Categories(todos));
      && DistinctKeys(e)
      && (forall k :: HasKey(e, k) <==> exists t :: t in todos && t.category == k)
      && (forall i :: 0 <= i < |e| ==> e[i].1 == Occurrences(Categories(todos), e[i].0) && e[i].1 >= 1)
      && (forall i, j :: 0 <= i < j < |e| ==>
            && e[i].0 in Categories(todos) && e[j].0 in Categories(todos)
            && FirstIndex(Categories(todos), e[i].0) < FirstIndex(Categories(todos), e[j].0))
      && CountSum(e) == |todos|
  {
    var cats := Categories(todos);
    TallyCorrect(cats);
    TallyCountsSum(cats);
    var e := TallyOf(cats);
    forall k ensures k in cats <==> exists t :: t in todos && t.category == k {
      if k in cats {
        var i :| 0 <= i < |cats| && cats[i] == k;
        assert todos[i] in todos;
      }
      if exists t :: t in todos && t.category == k {
        var t :| t in todos && t.category == k;
        var i :| 0 <= i < |todos| && todos[i] == t;
        assert cats[i] == k;
      }
    }
    forall i | 0 <= i < |e| ensures e[i].1 >= 1 {
      assert HasKey(e, e[i].0);
      OccurrencesPresent(cats, e[i].0);
    }
  }

  lemma {:induction false} OccurrencesPresent(cats: seq<string>, k: string)
    requires k in cats
    ensures Occurrences(cats, k) >= 1
    decreases |cats|
  {
    var front := cats[..|cats| - 1];
    if cats[|cats| - 1] != k {
      assert cats == front + [cats[|cats| - 1]];
      assert k in front;
      OccurrencesPresent(front, k);
    }
  }

  /** ASCII `toUpperCase` of one character. */
  function UpperChar(c: char): (r: char)
    ensures !('a' <= r <= 'z')
    ensures !('a' <= c <= 'z') ==> r == c
  {
    if 'a' <= c <= 'z' then (c as int - 32) as char else c
  }

  /** `name.charAt(0).toUpperCase() + name.slice(1)`. */
  function Capitalize(name: string): (r: string)
    ensures |r| == |name|
    ensures name != [] ==> r[0] == UpperChar(name[0]) && r[1..] == name[1..]
  {
    if name == [] then [] else [UpperChar(name[0])] + name[1..]
  }

  /** Capitalising twice is capitalising once; only the first character can change. */
  lemma CapitalizeIdempotent(name: string)
    ensures Capitalize(Capitalize(name)) == Capitalize(name)
    ensures forall i :: 1 <= i < |name| ==> Capitalize(name)[i] == name[i]
  {
    if name != [] {
      assert Capitalize(name)[1..][0..] == name[1..];
    }
  }

  /** `todosByCategory`: the tally with display names. */
  function CategoryChart(e: Tally): (r: seq<(string, nat)>)
    ensures |r| == |e|
    ensures forall i :: 0 <= i < |e| ==> r[i] == (Capitalize(e[i].0), e[i].1)
  {
    seq(|e|, i requires 0 <= i < |e| => (Capitalize(e[i].0), e[i].1))
  }

  /** The productivity score: `min(100, round((rate + 5 * stickyNotes + 3 * quickTodos) / 3))`. */
  function ProductivityScore(rate: nat, stickyNotes: nat, quickTodos: nat): (r: nat)
    ensures r <= 100
    ensures r == 100 <==> 2 * (rate + 5 * stickyNotes + 3 * quickTodos) >= 597
    ensures r < 100 ==>
      6 * r <= 2 * (rate + 5 * stickyNotes + 3 * quickTodos) + 3 < 6 * r + 6
  {
    Min(100, RoundDiv(rate + 5 * stickyNotes + 3 * quickTodos, 3))
  }

  /** The score never falls when the rate, the sticky-note count or the quick to-do count grows. */
  lemma ScoreMonotone(rate: nat, notes: nat, quick: nat, rate': nat, notes': nat, quick': nat)
    requires rate <= rate' && notes <= notes' && quick <= quick'
    ensures ProductivityScore(rate, notes, quick) <= ProductivityScore(rate', notes', quick')
  {
    var p, p' := rate + 5 * notes + 3 * quick, rate' + 5 * notes' + 3 * quick';
    assert RoundDiv(p, 3) <= RoundDiv(p', 3);
  }

  /** The score reaches 100 once the three inputs sum to at least 298.5 (so 299, as they are whole numbers), e.g. a full rate and 40 sticky notes. */
  lemma ScoreSaturates(rate: nat, stickyNotes: nat, quickTodos: nat)
    requires 2 * (rate + 5 * stickyNotes + 3 * quickTodos) >= 597
    ensures ProductivityScore(rate, stickyNotes, quickTodos) == 100
  {
  }

  datatype StatsData = StatsData(totals: TodoTotals, byCategory: seq<(string, nat)>, stickyNotes: nat)

  /** `calculateStats` without the random per-day chart; `stickyNotes` is the stored note count. */
  method CalculateStats(todos: seq<Todo>, stickyNotes: nat) returns (r: StatsData)
    ensures r.totals == Totals(todos) && r.stickyNotes == stickyNotes
    ensures r.byCategory == CategoryChart(TallyOf(Categories(todos)))
  {
    var tally := TallyCategories(todos);
    r := StatsData(Totals(todos), CategoryChart(tally), stickyNotes);
  }
}
