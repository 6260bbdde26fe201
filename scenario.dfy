/**
 * A complete session on a fresh list: two additions, a priority filter,
 * a completion and a search, with what the view and the counters show
 * after each step.
 */
module TodoScenario {
  import opened Text
  import opened Sequences
  import opened TodoList
  import opened TodoApp

  /** "book" does not occur in "buy milk": the scan fails at each of its five starting points. */
  lemma BookNotInBuyMilk()
    ensures !Includes("buy milk", "book")
  {
    var h := "buy milk";
    assert h[4..][..4] != "book" by { assert h[4..][..4][0] == 'm'; }
    assert h[4..][1..] == h[5..];
    assert !Includes(h[4..], "book");
    assert h[3..][..4] != "book" by { assert h[3..][..4][0] == ' '; }
    assert h[3..][1..] == h[4..];
    assert !Includes(h[3..], "book");
    assert h[2..][..4] != "book" by { assert h[2..][..4][0] == 'y'; }
    assert h[2..][1..] == h[3..];
    assert !Includes(h[2..], "book");
    assert h[1..][..4] != "book" by { assert h[1..][..4][0] == 'u'; }
    assert h[1..][1..] == h[2..];
    assert !Includes(h[1..], "book");
    assert h[..4] != "book" by { assert h[..4][1] == 'u'; }
  }

  /** The urgent filter with no search shows the urgent todo alone. */
  lemma UrgentView(read: Todo, buy: Todo, dir: SortDirection)
    requires read.priority == Basse && buy.priority == Urgente
    ensures FilteredTodos([read, buy], Only(Urgente), [], dir) == [buy]
  {
    EmptyIncluded(Lower(buy.text));
    assert Filter([read, buy], (t: Todo) => PassesPriority(Only(Urgente), t)) == [buy];
    assert Filter([buy], (t: Todo) => MatchesSearch([], t)) == [buy];
  }

  /** One completed todo out of two. */
  lemma HalfDone(read: Todo, done: Todo)
    requires !read.completed && done.completed
    ensures Statistics([read, done]).completedCount == 1
    ensures Statistics([read, done]).progress == 50
  {
    assert Filter([read, done], (t: Todo) => t.completed) == [done];
    assert Progress(1, 2) == 50;
  }

  /** "Read book" matches the search "book". */
  lemma ReadBookMatches(t: Todo)
    requires t.text == "Read book"
    ensures MatchesSearch("book", t)
  {
    assert Lower("Read book") == "read book";
    assert Lower("book") == "book";
    assert OccursAt("read book", "book", 5);
    IncludesIff("read book", "book");
  }

  /** "Buy milk" does not match the search "book". */
  lemma BuyMilkMisses(t: Todo)
    requires t.text == "Buy milk"
    ensures !MatchesSearch("book", t)
  {
    assert Lower("Buy milk") == "buy milk";
    assert Lower("book") == "book";
    BookNotInBuyMilk();
  }

  /** A search that matches the first todo's text and not the second's shows the first alone. */
  lemma SearchView(read: Todo, done: Todo, term: string, dir: SortDirection)
    requires MatchesSearch(term, read) && !MatchesSearch(term, done)
    ensures FilteredTodos([read, done], Tous, term, dir) == [read]
  {
    FilterAll([read, done], (t: Todo) => PassesPriority(Tous, t));
    var byPriority := Filter([read, done], (t: Todo) => PassesPriority(Tous, t));
    assert [read, done][1..] == [done];
    assert Filter(byPriority, (t: Todo) => MatchesSearch(term, t)) == [read];
  }

  /** The texts of the session below: both are their own trim, and "book" finds the second and not the first. */
  lemma SessionTexts(buy: Todo, read: Todo)
    requires buy.text == "Buy milk" && read.text == "Read book"
    ensures Trim(buy.text) == buy.text && Trim(read.text) == read.text
    ensures MatchesSearch("book", read) && !MatchesSearch("book", buy)
  {
    TrimKeeps(buy.text);
    TrimKeeps(read.text);
    ReadBookMatches(read);
    BuyMilkMisses(buy);
  }

  /**
   * Starting from nothing stored: add a first text as urgent, then a second
   * as low; the newest is listed first. The urgent filter shows only the
   * first todo; completing it gives one of two done, 50 percent; back to
   * every priority and searching a term found only in the second text
   * shows only the second todo. `SessionTexts` shows that "Buy milk",
   * "Read book" and "book" meet the requirements.
   */
  method Session(first: int, second: int, buyText: string, readText: string, term: string)
    returns (afterAdds: seq<Todo>, urgentView: seq<Todo>, stats: Stats, searchView: seq<Todo>)
    requires first != second
    requires buyText != [] && Trim(buyText) == buyText && readText != [] && Trim(readText) == readText
    requires Includes(Lower(readText), Lower(term)) && !Includes(Lower(buyText), Lower(term))
    ensures |afterAdds| == 2 && afterAdds[0].text == readText && afterAdds[1].text == buyText
    ensures urgentView == [Todo(first, buyText, Urgente, false, false)]
    ensures stats.totalCount == 2 && stats.completedCount == 1 && stats.progress == 50
    ensures searchView == [Todo(second, readText, Basse, false, false)]
  {
    var buy := Todo(first, buyText, Urgente, false, false);
    var read := Todo(second, readText, Basse, false, false);
    var app := AddBoth(first, second, buyText, readText);
    afterAdds := app.todos;

    app.SetFilter(Only(Urgente));
    UrgentView(read, buy, app.sortByPriority);
    urgentView := app.VisibleTodos();

    stats, searchView := CompleteThenSearch(app, read, buy, term);
  }

  /** The second half of the session: completing the urgent todo, then searching with every priority shown. */
  method CompleteThenSearch(app: App, read: Todo, buy: Todo, term: string) returns (stats: Stats, searchView: seq<Todo>)
    requires app.todos == [read, buy] && read.id != buy.id && !read.completed && !buy.completed
    requires MatchesSearch(term, read) && !MatchesSearch(term, buy.(completed := true))
    modifies app
    ensures stats.totalCount == 2 && stats.completedCount == 1 && stats.progress == 50
    ensures searchView == [read]
  {
    app.ToggleTodo(buy.id);
    var done := buy.(completed := true);
    assert app.todos == [read, done];
    HalfDone(read, done);
    stats := app.CurrentStats();

    app.SetFilter(Tous);
    app.SetSearchTerm(term);
    SearchView(read, done, term, app.sortByPriority);
    searchView := app.VisibleTodos();
  }

  /** The two additions on a fresh list: the second text is listed first. */
  method AddBoth(first: int, second: int, buyText: string, readText: string) returns (app: App)
    requires buyText != [] && Trim(buyText) == buyText && readText != [] && Trim(readText) == readText
    ensures fresh(app)
    ensures app.todos == [Todo(second, readText, Basse, false, false), Todo(first, buyText, Urgente, false, false)]
    ensures app.searchTerm == []
  {
    app := new App(None);
    TypeAndAdd(app, buyText, Urgente, first);
    TypeAndAdd(app, readText, Basse, second);
  }

  /** Typing an already trimmed text, choosing a priority and adding: the new todo is put in front. */
  method TypeAndAdd(app: App, text: string, p: Priority, id: int)
    requires text != [] && Trim(text) == text
    modifies app
    ensures app.todos == [Todo(id, text, p, false, false)] + old(app.todos)
    ensures app.searchTerm == old(app.searchTerm)
  {
    app.SetInput(text);
    app.SetPriority(p);
    app.AddTodo(id);
  }
}
