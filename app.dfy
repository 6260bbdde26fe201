/**
 * The `App` component: its state fields and the handlers that update them,
 * each handler one atomic transition of the current state, and the wiring
 * of each row's callbacks to those handlers.
 */
module TodoApp {
  import opened Text
  import opened Sequences
  import opened TodoList
  import opened TodoItem

  datatype Option<T> = None | Some(value: T)

  /** The effect of a row's callback on the list and the selection, as the parent binds it to the row's todo. */
  function AfterCallback(todos: seq<Todo>, selected: set<int>, rowId: int, c: Callback): (seq<Todo>, set<int>) {
    match c
    case OnDelete => (Deleted(todos, rowId), selected - {rowId})
    case OnToggleComplete => (Toggled(todos, rowId), selected - {rowId})
    case OnToggleSelect(id) => (todos, ToggledSelection(selected, id))
  }

  /**
   * A change of a row's checkbox always flips what that checkbox shows:
   * a todo that is not completed is selected or deselected, a completed
   * one becomes not completed and is not selected.
   */
  lemma CheckboxChangeFlipsChecked(todos: seq<Todo>, selected: set<int>, i: int)
    requires 0 <= i < |todos|
    ensures var after := AfterCallback(todos, selected, todos[i].id, CheckboxCallback(todos[i]));
      |after.0| == |todos| &&
      Checked(after.0[i], after.0[i].id in after.1) == !Checked(todos[i], todos[i].id in selected)
    ensures var after := AfterCallback(todos, selected, todos[i].id, CheckboxCallback(todos[i]));
      after.0[i].completed == false
  {
  }

  /** Whatever the checkbox of a listed todo fires keeps the state consistent. */
  lemma CheckboxChangeKeepsConsistent(todos: seq<Todo>, selected: set<int>, i: int)
    requires Consistent(todos, selected)
    requires 0 <= i < |todos|
    ensures var after := AfterCallback(todos, selected, todos[i].id, CheckboxCallback(todos[i]));
      Consistent(after.0, after.1)
  {
    if todos[i].completed {
      ToggleKeepsConsistent(todos, selected, todos[i].id);
    } else {
      ToggleSelectKeepsConsistent(todos, selected, i);
    }
  }

  class App {
    var input: string
    var priority: Priority
    var searchTerm: string
    var sortByPriority: SortDirection
    var todos: seq<Todo>
    var filter: PriorityFilter
    var selectedTodos: set<int>

    /** The list and the selection are consistent. */
    ghost predicate Valid()
      reads this
    {
      Consistent(todos, selectedTodos)
    }

    /**
     * Mounting: the list is the stored one with every `editing` flag reset,
     * or empty when nothing is stored; every other field has its default.
     */
    constructor (saved: Option<seq<Todo>>)
      ensures todos == if saved.Some? then Hydrated(saved.value) else []
      ensures input == "" && priority == Moyenne && searchTerm == "" && sortByPriority == Asc
      ensures filter == Tous && selectedTodos == {}
      ensures saved.None? || UniqueIds(saved.value) ==> Valid()
    {
      input := "";
      priority := Moyenne;
      searchTerm := "";
      sortByPriority := Asc;
      todos := if saved.Some? then Hydrated(saved.value) else [];
      filter := Tous;
      selectedTodos := {};
      if saved.Some? && UniqueIds(saved.value) {
        HydratedConsistent(saved.value);
      }
    }

    /** `filteredTodos`, recomputed from the current state. */
    function VisibleTodos(): seq<Todo>
      reads this
    {
      FilteredTodos(todos, filter, searchTerm, sortByPriority)
    }

    /** The counters and the progress, recomputed from the current list. */
    function CurrentStats(): Stats
      reads this
    {
      Statistics(todos)
    }

    /**
     * `addTodo`, with `now` the clock reading used as the new id: a blank
     * input changes nothing; otherwise the trimmed input is put in front as
     * a new todo, and the input and priority are reset.
     */
    method AddTodo(now: int)
      modifies this
      ensures todos == Added(old(todos), old(input), old(priority), now)
      ensures IsBlank(old(input)) ==> input == old(input) && priority == old(priority)
      ensures !IsBlank(old(input)) ==> input == "" && priority == Moyenne
      ensures selectedTodos == old(selectedTodos) && filter == old(filter)
      ensures searchTerm == old(searchTerm) && sortByPriority == old(sortByPriority)
      ensures old(Valid()) && now !in Ids(old(todos)) ==> Valid()
    {
      if Valid() && now !in Ids(todos) {
        AddKeepsConsistent(todos, selectedTodos, input, priority, now);
      }
      if !IsBlank(input) {
        todos := Added(todos, input, priority, now);
        input := "";
        priority := Moyenne;
      }
    }

    /** `deleteTodo`: drops the todos with that id and deselects the id. */
    method DeleteTodo(id: int)
      modifies this
      ensures todos == Deleted(old(todos), id)
      ensures selectedTodos == old(selectedTodos) - {id}
      ensures input == old(input) && priority == old(priority) && filter == old(filter)
      ensures searchTerm == old(searchTerm) && sortByPriority == old(sortByPriority)
      ensures old(Valid()) ==> Valid()
    {
      if Valid() {
        DeleteKeepsConsistent(todos, selectedTodos, id);
      }
      todos := Deleted(todos, id);
      var newSet := selectedTodos;
      newSet := newSet - {id};
      selectedTodos := newSet;
    }

    /** `toggleTodo`: flips completion of the todos with that id and deselects the id. */
    method ToggleTodo(id: int)
      modifies this
      ensures todos == Toggled(old(todos), id)
      ensures selectedTodos == old(selectedTodos) - {id}
      ensures id !in selectedTodos
      ensures input == old(input) && priority == old(priority) && filter == old(filter)
      ensures searchTerm == old(searchTerm) && sortByPriority == old(sortByPriority)
      ensures old(Valid()) ==> Valid()
    {
      if Valid() {
        ToggleKeepsConsistent(todos, selectedTodos, id);
      }
      todos := Toggled(todos, id);
      var newSet := selectedTodos;
      newSet := newSet - {id};
      selectedTodos := newSet;
    }

    /**
     * `toggleSelect`: flips the membership of `id` in the selection; the
     * list is untouched. The state stays consistent when the id is that of
     * a listed todo that is not completed, as the row's checkbox ensures.
     */
    method ToggleSelect(id: int)
      modifies this
      ensures selectedTodos == ToggledSelection(old(selectedTodos), id)
      ensures todos == old(todos)
      ensures input == old(input) && priority == old(priority) && filter == old(filter)
      ensures searchTerm == old(searchTerm) && sortByPriority == old(sortByPriority)
      ensures old(Valid()) && (exists i :: 0 <= i < |todos| && todos[i].id == id && !todos[i].completed) ==> Valid()
    {
      if Valid() && exists i :: 0 <= i < |todos| && todos[i].id == id && !todos[i].completed {
        var i :| 0 <= i < |todos| && todos[i].id == id && !todos[i].completed;
        ToggleSelectKeepsConsistent(todos, selectedTodos, i);
      }
      var newSet := selectedTodos;
      if id in newSet {
        newSet := newSet - {id};
      } else {
        newSet := newSet + {id};
      }
      selectedTodos := newSet;
    }

    /** `bulkDelete`: drops every selected todo and empties the selection. */
    method BulkDelete()
      modifies this
      ensures todos == BulkDeleted(old(todos), old(selectedTodos))
      ensures selectedTodos == {}
      ensures input == old(input) && priority == old(priority) && filter == old(filter)
      ensures searchTerm == old(searchTerm) && sortByPriority == old(sortByPriority)
      ensures UniqueIds(old(todos)) ==> Valid()
    {
      if UniqueIds(todos) {
        BulkDeleteKeepsConsistent(todos, selectedTodos);
      }
      todos := BulkDeleted(todos, selectedTodos);
      selectedTodos := {};
    }

    /** `bulkComplete`: completes every selected todo and empties the selection. */
    method BulkComplete()
      modifies this
      ensures todos == BulkCompleted(old(todos), old(selectedTodos))
      ensures selectedTodos == {}
      ensures input == old(input) && priority == old(priority) && filter == old(filter)
      ensures searchTerm == old(searchTerm) && sortByPriority == old(sortByPriority)
      ensures UniqueIds(old(todos)) ==> Valid()
    {
      if UniqueIds(todos) {
        BulkCompleteKeepsConsistent(todos, selectedTodos);
      }
      todos := BulkCompleted(todos, selectedTodos);
      selectedTodos := {};
    }

    /** `clearSearch`: empties the search term, after which the search hides nothing. */
    method ClearSearch()
      modifies this
      ensures searchTerm == ""
      ensures todos == old(todos) && selectedTodos == old(selectedTodos) && input == old(input)
      ensures priority == old(priority) && filter == old(filter) && sortByPriority == old(sortByPriority)
      ensures var f := filter; VisibleTodos() == SortByPriority(Filter(todos, (t: Todo) => PassesPriority(f, t)), sortByPriority)
    {
      searchTerm := "";
      var f := filter;
      var byPriority := Filter(todos, (t: Todo) => PassesPriority(f, t));
      forall t: Todo ensures MatchesSearch([], t) {
        assert Lower([]) == [];
        EmptyIncluded(Lower(t.text));
      }
      FilterAll(byPriority, (t: Todo) => MatchesSearch([], t));
    }

    /** The sort-direction button: ascending becomes descending and back. */
    method ToggleSortDirection()
      modifies this
      ensures sortByPriority == if old(sortByPriority) == Asc then Desc else Asc
      ensures todos == old(todos) && selectedTodos == old(selectedTodos) && input == old(input)
      ensures priority == old(priority) && filter == old(filter) && searchTerm == old(searchTerm)
    {
      sortByPriority := if sortByPriority == Asc then Desc else Asc;
    }

    /** Typing in the add field. */
    method SetInput(value: string)
      modifies this
      ensures input == value
      ensures todos == old(todos) && selectedTodos == old(selectedTodos) && priority == old(priority)
      ensures filter == old(filter) && searchTerm == old(searchTerm) && sortByPriority == old(sortByPriority)
    {
      input := value;
    }

    /** Choosing the priority of the next todo. */
    method SetPriority(p: Priority)
      modifies this
      ensures priority == p
      ensures todos == old(todos) && selectedTodos == old(selectedTodos) && input == old(input)
      ensures filter == old(filter) && searchTerm == old(searchTerm) && sortByPriority == old(sortByPriority)
    {
      priority := p;
    }

    /** Typing in the search field. */
    method SetSearchTerm(term: string)
      modifies this
      ensures searchTerm == term
      ensures todos == old(todos) && selectedTodos == old(selectedTodos) && input == old(input)
      ensures priority == old(priority) && filter == old(filter) && sortByPriority == old(sortByPriority)
    {
      searchTerm := term;
    }

    /** One of the four filter buttons. */
    method SetFilter(f: PriorityFilter)
      modifies this
      ensures filter == f
      ensures todos == old(todos) && selectedTodos == old(selectedTodos) && input == old(input)
      ensures priority == old(priority) && searchTerm == old(searchTerm) && sortByPriority == old(sortByPriority)
    {
      filter := f;
    }

    /** A callback fired by the row of the todo with id `rowId`, bound as the parent binds it. */
    method RowCallback(rowId: int, c: Callback)
      modifies this
      ensures (todos, selectedTodos) == AfterCallback(old(todos), old(selectedTodos), rowId, c)
      ensures input == old(input) && priority == old(priority) && filter == old(filter)
      ensures searchTerm == old(searchTerm) && sortByPriority == old(sortByPriority)
    {
      match c
      case OnDelete => DeleteTodo(rowId);
      case OnToggleComplete => ToggleTodo(rowId);
      case OnToggleSelect(id) => ToggleSelect(id);
    }
  }
}
