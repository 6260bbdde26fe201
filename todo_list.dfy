/**
 * The todo list of `App`: its entities, the pure effect of each handler on
 * the list and on the selection, the derived view `filteredTodos` and the
 * statistics shown above it.
 */
module TodoList {
  import opened Text
  import opened Sequences

  datatype Priority = Urgente | Moyenne | Basse

  /** `editing` is the transient inline-edit flag; hydration resets it. */
  datatype Todo = Todo(id: int, text: string, priority: Priority, completed: bool, editing: bool)

  /** The active filter: one priority, or `"Tous"` for all of them. */
  datatype PriorityFilter = Tous | Only(priority: Priority)

  datatype SortDirection = Asc | Desc

  /** Every id that occurs in the list. */
  ghost function Ids(todos: seq<Todo>): set<int> {
    set t | t in todos :: t.id
  }

  /** No two todos share an id. */
  ghost predicate UniqueIds(todos: seq<Todo>) {
    forall i, j :: 0 <= i < j < |todos| ==> todos[i].id != todos[j].id
  }

  /**
   * The state the handlers keep consistent: ids are unique, only ids of
   * listed todos are selected, and no completed todo is selected.
   */
  ghost predicate Consistent(todos: seq<Todo>, selected: set<int>) {
    && UniqueIds(todos)
    && selected <= Ids(todos)
    && forall t :: t in todos && t.completed ==> t.id !in selected
  }

  /** `a` and `b` agree on everything but `completed`. */
  predicate SameButCompletion(a: Todo, b: Todo) {
    a.id == b.id && a.text == b.text && a.priority == b.priority && a.editing == b.editing
  }

  // ---------------------------------------------------------------------
  // Handlers, as functions of the list and the selection
  // ---------------------------------------------------------------------

  /** `addTodo`: a blank input changes nothing; otherwise one new todo is put in front. */
  function Added(todos: seq<Todo>, input: string, priority: Priority, id: int): (r: seq<Todo>)
    ensures IsBlank(input) ==> r == todos
    ensures !IsBlank(input) ==> |r| == |todos| + 1 && r[1..] == todos
    ensures !IsBlank(input) ==> r[0] == Todo(id, Trim(input), priority, false, false) && r[0].text != []
  {
    if IsBlank(input) then todos
    else [Todo(id, Trim(input), priority, false, false)] + todos
  }

  /** `deleteTodo`'s list update: every todo with another id stays, in order. */
  function Deleted(todos: seq<Todo>, id: int): (r: seq<Todo>)
    ensures forall t :: t in r <==> t in todos && t.id != id
    ensures IsSubsequence(r, todos)
    ensures id !in Ids(todos) ==> r == todos
    ensures Ids(r) == Ids(todos) - {id}
    ensures forall x :: multiset(r)[x] == if x.id != id then multiset(todos)[x] else 0
  {
    var keep := (t: Todo) => t.id != id;
    FilterIsSubsequence(todos, keep);
    forall x ensures multiset(Filter(todos, keep))[x] == if x.id != id then multiset(todos)[x] else 0 {
      FilterMultiset(todos, keep, x);
    }
    assert id !in Ids(todos) ==> Filter(todos, keep) == todos by {
      if id !in Ids(todos) { FilterAll(todos, keep); }
    }
    Filter(todos, keep)
  }

  /** `toggleTodo`'s list update: exactly the todos with that id change, and only their `completed` flag. */
  function Toggled(todos: seq<Todo>, id: int): (r: seq<Todo>)
    ensures |r| == |todos|
    ensures forall i :: 0 <= i < |todos| ==> SameButCompletion(r[i], todos[i])
    ensures forall i :: 0 <= i < |todos| ==> (r[i].completed != todos[i].completed <==> todos[i].id == id)
  {
    Map(todos, (t: Todo) => if t.id == id then t.(completed := !t.completed) else t)
  }

  /** `bulkDelete`'s list update: exactly the todos whose id is not selected stay, in order. */
  function BulkDeleted(todos: seq<Todo>, selected: set<int>): (r: seq<Todo>)
    ensures forall t :: t in r <==> t in todos && t.id !in selected
    ensures IsSubsequence(r, todos)
    ensures Ids(r) == Ids(todos) - selected
    ensures forall x :: multiset(r)[x] == if x.id !in selected then multiset(todos)[x] else 0
  {
    var keep := (t: Todo) => t.id !in selected;
    FilterIsSubsequence(todos, keep);
    forall x ensures multiset(Filter(todos, keep))[x] == if x.id !in selected then multiset(todos)[x] else 0 {
      FilterMultiset(todos, keep, x);
    }
    Filter(todos, keep)
  }

  /** `bulkComplete`'s list update: selected todos become completed, all others stay as they were. */
  function BulkCompleted(todos: seq<Todo>, selected: set<int>): (r: seq<Todo>)
    ensures |r| == |todos|
    ensures forall i :: 0 <= i < |todos| ==> SameButCompletion(r[i], todos[i])
    ensures forall i :: 0 <= i < |todos| ==> (todos[i].id in selected ==> r[i].completed)
    ensures forall i :: 0 <= i < |todos| ==> (todos[i].id !in selected ==> r[i] == todos[i])
  {
    Map(todos, (t: Todo) => if t.id in selected then t.(completed := true) else t)
  }

  /** `toggleSelect`'s selection update: membership of `id` flips, nothing else changes. */
  function ToggledSelection(selected: set<int>, id: int): (r: set<int>)
    ensures id in r <==> id !in selected
    ensures forall x :: x != id ==> (x in r <==> x in selected)
  {
    if id in selected then selected - {id} else selected + {id}
  }

  /** The hydration map: every todo read back is not being edited, and is otherwise as stored. */
  function Hydrated(stored: seq<Todo>): (r: seq<Todo>)
    ensures |r| == |stored|
    ensures forall i :: 0 <= i < |stored| ==> !r[i].editing && r[i] == stored[i].(editing := false)
  {
    Map(stored, (t: Todo) => t.(editing := false))
  }

  // ---------------------------------------------------------------------
  // Properties of the handlers
  // ---------------------------------------------------------------------

  /** Toggling the same id twice restores the list. */
  lemma ToggledTwice(todos: seq<Todo>, id: int)
    ensures Toggled(Toggled(todos, id), id) == todos
  {
    var r := Toggled(Toggled(todos, id), id);
    assert forall i :: 0 <= i < |todos| ==> r[i] == todos[i];
  }

  /** Toggling an id that no todo carries leaves the list unchanged. */
  lemma ToggledAbsent(todos: seq<Todo>, id: int)
    requires id !in Ids(todos)
    ensures Toggled(todos, id) == todos
  {
    var r := Toggled(todos, id);
    forall i | 0 <= i < |todos| ensures r[i] == todos[i] {
      assert todos[i] in todos;
    }
  }

  /** Toggling the selection of the same id twice restores the selection. */
  lemma ToggledSelectionTwice(selected: set<int>, id: int)
    ensures ToggledSelection(ToggledSelection(selected, id), id) == selected
  {
  }

  /** Filtering never makes ids collide. */
  lemma {:induction false} FilterKeepsIdsUnique(todos: seq<Todo>, keep: Todo -> bool)
    requires UniqueIds(todos)
    ensures UniqueIds(Filter(todos, keep))
  {
    if todos != [] {
      FilterKeepsIdsUnique(todos[1..], keep);
      var rest := Filter(todos[1..], keep);
      if keep(todos[0]) {
        var r := Filter(todos, keep);
        assert r == [todos[0]] + rest;
        forall j | 0 < j < |r| ensures r[0].id != r[j].id {
          assert r[j] in rest;
          var k :| 0 <= k < |todos[1..]| && todos[1..][k] == r[j];
          assert todos[k + 1] == r[j];
        }
      }
    }
  }

  /** Adding a todo under an id not yet in use keeps the state consistent. */
  lemma AddKeepsConsistent(todos: seq<Todo>, selected: set<int>, input: string, priority: Priority, id: int)
    requires Consistent(todos, selected)
    requires id !in Ids(todos)
    ensures Consistent(Added(todos, input, priority, id), selected)
  {
    var r := Added(todos, input, priority, id);
    if !IsBlank(input) {
      assert r == [r[0]] + todos;
      forall i, j | 0 <= i < j < |r| ensures r[i].id != r[j].id {
        if i == 0 {
          assert r[j] == todos[j - 1] && todos[j - 1] in todos;
        } else {
          assert r[i] == todos[i - 1] && r[j] == todos[j - 1];
        }
      }
      forall x | x in Ids(todos) ensures x in Ids(r) {
        var t :| t in todos && t.id == x;
        assert t in r;
      }
    }
  }

  /** `deleteTodo` keeps the state consistent. */
  lemma DeleteKeepsConsistent(todos: seq<Todo>, selected: set<int>, id: int)
    requires Consistent(todos, selected)
    ensures Consistent(Deleted(todos, id), selected - {id})
  {
    FilterKeepsIdsUnique(todos, (t: Todo) => t.id != id);
  }

  /** `toggleTodo` keeps the state consistent: the toggled id leaves the selection. */
  lemma ToggleKeepsConsistent(todos: seq<Todo>, selected: set<int>, id: int)
    requires Consistent(todos, selected)
    ensures Consistent(Toggled(todos, id), selected - {id})
  {
    var r := Toggled(todos, id);
    forall x | x in Ids(todos) ensures x in Ids(r) {
      var i :| 0 <= i < |todos| && todos[i].id == x;
      assert r[i] in r;
    }
    forall t | t in r && t.completed ensures t.id !in selected - {id} {
      var i :| 0 <= i < |r| && r[i] == t;
      assert todos[i] in todos;
    }
  }

  /** `toggleSelect` from the row of a listed, not completed todo keeps the state consistent. */
  lemma ToggleSelectKeepsConsistent(todos: seq<Todo>, selected: set<int>, i: int)
    requires Consistent(todos, selected)
    requires 0 <= i < |todos| && !todos[i].completed
    ensures Consistent(todos, ToggledSelection(selected, todos[i].id))
  {
    forall t | t in todos && t.completed ensures t.id != todos[i].id {
      var j :| 0 <= j < |todos| && todos[j] == t;
      assert i != j;
    }
  }

  /** `bulkDelete` leaves a consistent state whenever the ids were unique. */
  lemma BulkDeleteKeepsConsistent(todos: seq<Todo>, selected: set<int>)
    requires UniqueIds(todos)
    ensures Consistent(BulkDeleted(todos, selected), {})
  {
    FilterKeepsIdsUnique(todos, (t: Todo) => t.id !in selected);
  }

  /** `bulkComplete` leaves a consistent state whenever the ids were unique. */
  lemma BulkCompleteKeepsConsistent(todos: seq<Todo>, selected: set<int>)
    requires UniqueIds(todos)
    ensures Consistent(BulkCompleted(todos, selected), {})
  {
  }

  /** A hydrated list starts consistent, with an empty selection, whenever the stored ids were unique. */
  lemma HydratedConsistent(stored: seq<Todo>)
    requires UniqueIds(stored)
    ensures Consistent(Hydrated(stored), {})
  {
  }

  // ---------------------------------------------------------------------
  // The derived view `filteredTodos`
  // ---------------------------------------------------------------------

  /** `prioOrder`: Urgente 3, Moyenne 2, Basse 1. */
  function Rank(p: Priority): int {
    match p
    case Urgente => 3
    case Moyenne => 2
    case Basse => 1
  }

  /** The comparator handed to `sort`: negative when `a` goes before `b`. */
  function Compare(dir: SortDirection, a: Todo, b: Todo): int {
    if dir == Asc then Rank(a.priority) - Rank(b.priority) else Rank(b.priority) - Rank(a.priority)
  }

  /** No pair of elements is out of order for the comparator. */
  ghost predicate SortedBy(r: seq<Todo>, dir: SortDirection) {
    forall i, j :: 0 <= i < j < |r| ==> Compare(dir, r[i], r[j]) <= 0
  }

  /** The todos of one priority, in list order. */
  function OfPriority(s: seq<Todo>, p: Priority): (r: seq<Todo>)
    ensures forall t :: t in r <==> t in s && t.priority == p
  {
    Filter(s, (t: Todo) => t.priority == p)
  }

  /** Where a priority's todos go in the sorted list: 0 first, 2 last. */
  function Position(dir: SortDirection, p: Priority): int {
    if dir == Asc then Rank(p) - 1 else 3 - Rank(p)
  }

  /** The priorities in the order the comparator puts them. */
  function BucketOrder(dir: SortDirection): (o: seq<Priority>)
    ensures |o| == 3
    ensures forall k :: 0 <= k < 3 ==> Position(dir, o[k]) == k
    ensures forall p :: 0 <= Position(dir, p) < 3 && o[Position(dir, p)] == p
  {
    if dir == Asc then [Basse, Moyenne, Urgente] else [Urgente, Moyenne, Basse]
  }

  /**
   * The result of the stable `sort` by priority: the todos of each priority,
   * in list order, one priority after the other in comparator order.
   */
  function SortByPriority(s: seq<Todo>, dir: SortDirection): seq<Todo> {
    var o := BucketOrder(dir);
    OfPriority(s, o[0]) + OfPriority(s, o[1]) + OfPriority(s, o[2])
  }

  /** Taking one priority from the todos of a priority. */
  lemma OfPriorityTwice(s: seq<Todo>, p: Priority, q: Priority)
    ensures OfPriority(OfPriority(s, q), p) == if p == q then OfPriority(s, p) else []
  {
    var r := OfPriority(OfPriority(s, q), p);
    if p == q {
      FilterAll(OfPriority(s, q), (t: Todo) => t.priority == p);
    } else {
      FilterNone(OfPriority(s, q), (t: Todo) => t.priority == p);
    }
  }

  /** The todos of a priority in a list that starts with `x`. */
  lemma OfPriorityCons(x: Todo, rest: seq<Todo>, p: Priority)
    ensures OfPriority([x] + rest, p) == (if x.priority == p then [x] else []) + OfPriority(rest, p)
  {
    assert ([x] + rest)[1..] == rest;
  }

  /** The sort by priority is sorted for the comparator. */
  lemma SortByPrioritySorted(s: seq<Todo>, dir: SortDirection)
    ensures SortedBy(SortByPriority(s, dir), dir)
  {
    var o := BucketOrder(dir);
    var a, b, c := OfPriority(s, o[0]), OfPriority(s, o[1]), OfPriority(s, o[2]);
    var r := SortByPriority(s, dir);
    forall i | 0 <= i < |r|
      ensures Position(dir, r[i].priority) == if i < |a| then 0 else if i < |a| + |b| then 1 else 2
    {
      if i < |a| {
        assert r[i] == a[i] && a[i] in a;
      } else if i < |a| + |b| {
        assert r[i] == b[i - |a|] && b[i - |a|] in b;
      } else {
        assert r[i] == c[i - |a| - |b|] && c[i - |a| - |b|] in c;
      }
    }
  }

  /** The sort by priority is a permutation. */
  lemma SortByPriorityPermutes(s: seq<Todo>, dir: SortDirection)
    ensures multiset(SortByPriority(s, dir)) == multiset(s)
  {
    var o := BucketOrder(dir);
    forall x ensures multiset(SortByPriority(s, dir))[x] == multiset(s)[x] {
      FilterMultiset(s, (t: Todo) => t.priority == o[0], x);
      FilterMultiset(s, (t: Todo) => t.priority == o[1], x);
      FilterMultiset(s, (t: Todo) => t.priority == o[2], x);
    }
  }

  /** The sort by priority is stable: the todos of each priority keep their list order. */
  lemma SortByPriorityStable(s: seq<Todo>, dir: SortDirection)
    ensures forall p :: OfPriority(SortByPriority(s, dir), p) == OfPriority(s, p)
  {
    forall p ensures OfPriority(SortByPriority(s, dir), p) == OfPriority(s, p) {
      BucketKeepsOrder(s, dir, p);
    }
  }

  /** Taking priority `p` from the sort by priority finds `p`'s own bucket and nothing from the others. */
  lemma BucketKeepsOrder(s: seq<Todo>, dir: SortDirection, p: Priority)
    ensures OfPriority(SortByPriority(s, dir), p) == OfPriority(s, p)
  {
    var o := BucketOrder(dir);
    var a, b, c := OfPriority(s, o[0]), OfPriority(s, o[1]), OfPriority(s, o[2]);
    FilterConcat(a + b, c, (t: Todo) => t.priority == p);
    FilterConcat(a, b, (t: Todo) => t.priority == p);
    OfPriorityTwice(s, p, o[0]);
    OfPriorityTwice(s, p, o[1]);
    OfPriorityTwice(s, p, o[2]);
    var k := Position(dir, p);
    assert o[k] == p;
    assert forall j :: 0 <= j < 3 && j != k ==> o[j] != p;
  }

  /** In a sorted list, nothing after the head belongs to a bucket that comes before the head's. */
  lemma SortedTail(r: seq<Todo>, dir: SortDirection)
    requires SortedBy(r, dir) && r != []
    ensures SortedBy(r[1..], dir)
    ensures forall k :: 0 <= k < Position(dir, r[0].priority) ==> OfPriority(r[1..], BucketOrder(dir)[k]) == []
  {
    var rest := r[1..];
    forall y | y in rest ensures Position(dir, r[0].priority) <= Position(dir, y.priority) {
      var m :| 0 <= m < |rest| && rest[m] == y;
      assert Compare(dir, r[0], r[m + 1]) <= 0;
    }
    forall k | 0 <= k < Position(dir, r[0].priority) ensures OfPriority(rest, BucketOrder(dir)[k]) == [] {
      FilterNone(rest, (t: Todo) => t.priority == BucketOrder(dir)[k]);
    }
  }

  /** Putting a todo in front of a list whose earlier buckets are empty keeps the list its own sort by priority. */
  lemma BucketsCons(x: Todo, rest: seq<Todo>, dir: SortDirection)
    requires rest == SortByPriority(rest, dir)
    requires forall k :: 0 <= k < Position(dir, x.priority) ==> OfPriority(rest, BucketOrder(dir)[k]) == []
    ensures [x] + rest == SortByPriority([x] + rest, dir)
  {
    var o := BucketOrder(dir);
    var a, b, c := OfPriority(rest, o[0]), OfPriority(rest, o[1]), OfPriority(rest, o[2]);
    OfPriorityCons(x, rest, o[0]);
    OfPriorityCons(x, rest, o[1]);
    OfPriorityCons(x, rest, o[2]);
    var r := [x] + rest;
    var k := Position(dir, x.priority);
    assert x.priority == o[k];
    if k == 1 {
      assert a == [];
    } else if k == 2 {
      assert a == [] && b == [];
    }
    ConsIntoParts(x, a, b, c, OfPriority(r, o[0]), OfPriority(r, o[1]), OfPriority(r, o[2]));
  }

  /** A sequence already sorted by the comparator is its own sort by priority. */
  lemma {:induction false} SortedIsBuckets(r: seq<Todo>, dir: SortDirection)
    requires SortedBy(r, dir)
    ensures r == SortByPriority(r, dir)
  {
    if r != [] {
      SortedTail(r, dir);
      SortedIsBuckets(r[1..], dir);
      BucketsCons(r[0], r[1..], dir);
      assert r == [r[0]] + r[1..];
    }
  }

  /**
   * The stable sort is determined by its specification: any sequence sorted
   * by the comparator that keeps each priority's todos in the order of `s`
   * is the sort by priority of `s`.
   */
  lemma StableSortUnique(s: seq<Todo>, r: seq<Todo>, dir: SortDirection)
    requires SortedBy(r, dir)
    requires forall p :: OfPriority(r, p) == OfPriority(s, p)
    ensures r == SortByPriority(s, dir)
  {
    SortedIsBuckets(r, dir);
  }

  /** The priority filter: everything passes `"Tous"`. */
  predicate PassesPriority(filter: PriorityFilter, t: Todo) {
    filter.Tous? || t.priority == filter.priority
  }

  /** The search filter: the lower-cased term occurs in the lower-cased text. */
  predicate MatchesSearch(term: string, t: Todo) {
    Includes(Lower(t.text), Lower(term))
  }

  /** The two filters of `filteredTodos`, in list order, before sorting. */
  function Shown(todos: seq<Todo>, filter: PriorityFilter, term: string): seq<Todo> {
    Filter(Filter(todos, (t: Todo) => PassesPriority(filter, t)), (t: Todo) => MatchesSearch(term, t))
  }

  /** `filteredTodos`: filter by priority, then by search term, then sort by priority. */
  function FilteredTodos(todos: seq<Todo>, filter: PriorityFilter, term: string, dir: SortDirection): seq<Todo> {
    SortByPriority(Shown(todos, filter, term), dir)
  }

  /** `filteredTodos` shows exactly the listed todos that pass both the priority filter and the search. */
  lemma FilteredTodosMembers(todos: seq<Todo>, filter: PriorityFilter, term: string, dir: SortDirection)
    ensures forall t :: t in FilteredTodos(todos, filter, term, dir) <==>
      t in todos && PassesPriority(filter, t) && MatchesSearch(term, t)
  {
    var shown := Shown(todos, filter, term);
    SortByPriorityPermutes(shown, dir);
    forall t ensures t in FilteredTodos(todos, filter, term, dir) <==> t in shown {
      assert multiset(FilteredTodos(todos, filter, term, dir))[t] == multiset(shown)[t];
    }
  }

  /**
   * `filteredTodos` is the filtered list in list order, rearranged: sorted by
   * the comparator, with the todos of each priority in their list order.
   */
  lemma FilteredTodosOrder(todos: seq<Todo>, filter: PriorityFilter, term: string, dir: SortDirection)
    ensures IsSubsequence(Shown(todos, filter, term), todos)
    ensures SortedBy(FilteredTodos(todos, filter, term, dir), dir)
    ensures multiset(FilteredTodos(todos, filter, term, dir)) == multiset(Shown(todos, filter, term))
    ensures forall p :: OfPriority(FilteredTodos(todos, filter, term, dir), p) == OfPriority(Shown(todos, filter, term), p)
  {
    var byPriority := Filter(todos, (t: Todo) => PassesPriority(filter, t));
    var shown := Shown(todos, filter, term);
    SortByPrioritySorted(shown, dir);
    SortByPriorityPermutes(shown, dir);
    SortByPriorityStable(shown, dir);
    FilterIsSubsequence(todos, (t: Todo) => PassesPriority(filter, t));
    FilterIsSubsequence(byPriority, (t: Todo) => MatchesSearch(term, t));
    SubsequenceTransitive(shown, byPriority, todos);
  }

  /** Applying the search before the priority filter shows the same todos in the same order. */
  lemma FiltersCommute(todos: seq<Todo>, filter: PriorityFilter, term: string)
    ensures Shown(todos, filter, term) ==
      Filter(Filter(todos, (t: Todo) => MatchesSearch(term, t)), (t: Todo) => PassesPriority(filter, t))
  {
    FilterCommutes(todos, (t: Todo) => PassesPriority(filter, t), (t: Todo) => MatchesSearch(term, t));
  }

  /** With `"Tous"` and an empty search every todo is shown, sorted by priority. */
  lemma UnfilteredShowsAll(todos: seq<Todo>, dir: SortDirection)
    ensures FilteredTodos(todos, Tous, [], dir) == SortByPriority(todos, dir)
    ensures multiset(FilteredTodos(todos, Tous, [], dir)) == multiset(todos)
  {
    FilterAll(todos, (t: Todo) => PassesPriority(Tous, t));
    forall t: Todo ensures MatchesSearch([], t) {
      assert Lower([]) == [];
      EmptyIncluded(Lower(t.text));
    }
    FilterAll(todos, (t: Todo) => MatchesSearch([], t));
    SortByPriorityPermutes(todos, dir);
  }

  // ---------------------------------------------------------------------
  // Statistics
  // ---------------------------------------------------------------------

  datatype Stats = Stats(
    urgentCount: nat, moyCount: nat, basseCount: nat,
    totalCount: nat, completedCount: nat, progress: nat)

  /**
   * `Math.round(completed / total * 100)`, or 0 for an empty list: the
   * integer nearest to the exact percentage, halves rounded up.
   */
  function Progress(completed: nat, total: nat): (r: nat)
    ensures total == 0 ==> r == 0
    ensures total > 0 ==> 2 * total * r <= 200 * completed + total < 2 * total * r + 2 * total
    ensures completed <= total ==> r <= 100
  {
    if total > 0 then
      var r := (200 * completed + total) / (2 * total);
      DivisionBounds(200 * completed + total, 2 * total);
      assert completed <= total ==> r <= 100 by {
        if completed <= total { QuotientBelow(200 * completed + total, 2 * total, 101); }
      }
      r
    else 0
  }

  /** Euclidean division brackets the dividend. */
  lemma DivisionBounds(n: nat, d: nat)
    requires d > 0
    ensures d * (n / d) <= n < d * (n / d) + d
  {
  }

  /** A dividend below `d * m` has a quotient below `m`. */
  lemma QuotientBelow(n: nat, d: nat, m: nat)
    requires d > 0 && n < d * m
    ensures n / d < m
  {
    DivisionBounds(n, d);
  }

  /** The worked examples: one of three is 33 percent, one of four 25, an empty list 0. */
  lemma ProgressExamples()
    ensures Progress(1, 3) == 33 && Progress(1, 4) == 25 && Progress(1, 2) == 50 && Progress(0, 0) == 0
  {
  }

  /** The three priority buckets partition the list. */
  lemma {:induction false} PriorityCountsSum(todos: seq<Todo>)
    ensures |OfPriority(todos, Urgente)| + |OfPriority(todos, Moyenne)| + |OfPriority(todos, Basse)| == |todos|
  {
    if todos != [] {
      PriorityCountsSum(todos[1..]);
    }
  }

  /** The counters and the progress bar, computed from the whole list. */
  function Statistics(todos: seq<Todo>): (s: Stats)
    ensures s.totalCount == |todos|
    ensures s.urgentCount + s.moyCount + s.basseCount == s.totalCount
    ensures s.completedCount <= s.totalCount
    ensures s.progress == Progress(s.completedCount, s.totalCount) && s.progress <= 100
  {
    PriorityCountsSum(todos);
    var completed := |Filter(todos, (t: Todo) => t.completed)|;
    Stats(
      |OfPriority(todos, Urgente)|, |OfPriority(todos, Moyenne)|, |OfPriority(todos, Basse)|,
      |todos|, completed, Progress(completed, |todos|))
  }

  /** The count printed on a filter button: the total for `"Tous"`, a priority's counter otherwise. */
  function ButtonCount(s: Stats, filter: PriorityFilter): nat {
    match filter
    case Tous => s.totalCount
    case Only(Urgente) => s.urgentCount
    case Only(Moyenne) => s.moyCount
    case Only(Basse) => s.basseCount
  }

  /** The count on each filter button is the number of rows that button shows while the search is empty. */
  lemma FilterButtonCount(todos: seq<Todo>, filter: PriorityFilter, dir: SortDirection)
    ensures ButtonCount(Statistics(todos), filter) == |FilteredTodos(todos, filter, [], dir)|
  {
    var byPriority := Filter(todos, (t: Todo) => PassesPriority(filter, t));
    if filter.Tous? {
      FilterAll(todos, (t: Todo) => PassesPriority(filter, t));
    } else {
      FilterExt(todos, (t: Todo) => PassesPriority(filter, t), (t: Todo) => t.priority == filter.priority);
    }
    forall t: Todo ensures MatchesSearch([], t) {
      assert Lower([]) == [];
      EmptyIncluded(Lower(t.text));
    }
    FilterAll(byPriority, (t: Todo) => MatchesSearch([], t));
    SortByPriorityPermutes(byPriority, dir);
    assert |multiset(FilteredTodos(todos, filter, [], dir))| == |multiset(byPriority)|;
  }
}
