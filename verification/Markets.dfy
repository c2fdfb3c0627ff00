/** The sequential market: one book a symbol, and the calls handled on them one after another. */
module Markets {
  import opened BookModel
  import opened BookInvariants
  import opened Runs

  datatype Task = AddBook(symbol: nat) | Operate(symbol: nat, op: Op)

  /**
   What the market asks of a caller: a new symbol for a new book, a known symbol and an allowed
   operation otherwise.
   */
  ghost predicate Permits(books: map<nat, Book>, t: Task) {
    match t
    case AddBook(symbol) => symbol !in books
    case Operate(symbol, op) =>
      symbol in books && Struct(books[symbol]) && Allowed(books[symbol], op) && (op.Add? ==> op.order.symbol == symbol)
  }

  ghost function Handle(books: map<nat, Book>, t: Task): map<nat, Book>
    requires Permits(books, t)
  {
    match t
    case AddBook(symbol) => books[symbol := EmptyBook]
    case Operate(symbol, op) => books[symbol := Apply(books[symbol], op)]
  }

  /** Tasks that can be handled in turn, from a market without symbols on. */
  ghost predicate Permitted(tasks: seq<Task>)
    decreases |tasks|, 0
  {
    tasks == [] || var n := |tasks| - 1; Permitted(tasks[..n]) && Permits(Final(tasks[..n]), tasks[n])
  }

  /** The books after handling some tasks in turn. */
  ghost function Final(tasks: seq<Task>): map<nat, Book>
    requires Permitted(tasks)
    decreases |tasks|, 1
  {
    if tasks == [] then map[] else var n := |tasks| - 1; Handle(Final(tasks[..n]), tasks[n])
  }

  lemma PermittedAppend(tasks: seq<Task>, t: Task)
    requires Permitted(tasks)
    ensures Permitted(tasks + [t]) <==> Permits(Final(tasks), t)
    ensures Permitted(tasks + [t]) ==> Final(tasks + [t]) == Handle(Final(tasks), t)
  {
    assert (tasks + [t])[..|tasks|] == tasks;
  }

  lemma {:induction false} PermittedPrefix(tasks: seq<Task>, k: nat)
    requires Permitted(tasks) && k <= |tasks|
    ensures Permitted(tasks[..k])
    decreases |tasks|
  {
    if k < |tasks| {
      var n := |tasks| - 1;
      PermittedPrefix(tasks[..n], k);
      assert tasks[..n][..k] == tasks[..k];
    } else {
      assert tasks[..k] == tasks;
    }
  }

  /** In a market that is only used as it asks to be, every book is always steady. */
  lemma {:induction false} BooksSteady(tasks: seq<Task>)
    requires Permitted(tasks)
    ensures forall symbol :: symbol in Final(tasks) ==> Steady(Final(tasks)[symbol])
    decreases |tasks|
  {
    if tasks != [] {
      var n := |tasks| - 1;
      BooksSteady(tasks[..n]);
      match tasks[n]
      case AddBook(_) => EmptyIsSteady();
      case Operate(symbol, op) => ApplySteady(Final(tasks[..n])[symbol], op);
    }
  }

  /** Those tasks that concern one symbol. */
  function OfSymbol(tasks: seq<Task>, symbol: nat): seq<Task> {
    if tasks == [] then [] else
      var n := |tasks| - 1;
      if tasks[n].symbol == symbol then OfSymbol(tasks[..n], symbol) + [tasks[n]] else OfSymbol(tasks[..n], symbol)
  }

  predicate SameBook(books: map<nat, Book>, others: map<nat, Book>, symbol: nat) {
    (symbol in books <==> symbol in others) && (symbol in books ==> books[symbol] == others[symbol])
  }

  /** A task looks at and changes its own symbol's book only. */
  lemma HandleIsLocal(books: map<nat, Book>, others: map<nat, Book>, t: Task)
    requires SameBook(books, others, t.symbol)
    ensures Permits(books, t) <==> Permits(others, t)
    ensures Permits(books, t) ==> SameBook(Handle(books, t), Handle(others, t), t.symbol)
    ensures Permits(books, t) ==> Handle(books, t).Keys == books.Keys + {t.symbol}
    ensures Permits(books, t) ==> forall s :: s != t.symbol ==> SameBook(Handle(books, t), books, s)
  {
    hide Struct, Allowed, Apply;
  }

  /** A symbol's book depends on that symbol's own tasks alone. */
  lemma {:induction false} BookIsOwnTasks(tasks: seq<Task>, symbol: nat)
    requires Permitted(tasks)
    ensures Permitted(OfSymbol(tasks, symbol))
    ensures SameBook(Final(OfSymbol(tasks, symbol)), Final(tasks), symbol)
    ensures Final(OfSymbol(tasks, symbol)).Keys <= {symbol}
    decreases |tasks|
  {
    hide Permits, Handle;
    if tasks != [] {
      var n := |tasks| - 1;
      BookIsOwnTasks(tasks[..n], symbol);
      HandleIsLocal(Final(tasks[..n]), Final(tasks[..n]), tasks[n]);
      if tasks[n].symbol == symbol {
        var own := OfSymbol(tasks[..n], symbol);
        HandleIsLocal(Final(tasks[..n]), Final(own), tasks[n]);
        HandleIsLocal(Final(own), Final(own), tasks[n]);
        PermittedAppend(own, tasks[n]);
      } else {
        assert SameBook(Final(tasks), Final(tasks[..n]), symbol);
      }
    }
  }

  /** A symbol without a book has had no task. */
  lemma {:induction false} NoBookNoTask(tasks: seq<Task>, symbol: nat)
    requires Permitted(tasks) && symbol !in Final(tasks)
    ensures OfSymbol(tasks, symbol) == []
    decreases |tasks|
  {
    hide Permits, Handle;
    if tasks != [] {
      var n := |tasks| - 1;
      HandleIsLocal(Final(tasks[..n]), Final(tasks[..n]), tasks[n]);
      NoBookNoTask(tasks[..n], symbol);
    }
  }

  /** The operations among some tasks. */
  function Ops(tasks: seq<Task>): seq<Op> {
    if tasks == [] then [] else
      var n := |tasks| - 1;
      match tasks[n]
      case AddBook(_) => Ops(tasks[..n])
      case Operate(_, op) => Ops(tasks[..n]) + [op]
  }

  lemma OpsAppend(tasks: seq<Task>, t: Task)
    ensures Ops(tasks + [t]) == Ops(tasks) + match t case AddBook(_) => [] case Operate(_, op) => [op]
  {
    assert (tasks + [t])[..|tasks|] == tasks;
  }

  /** A symbol's book is what its operations, in the order in which they were called, make of an empty one. */
  lemma {:induction false} BookIsItsOperations(tasks: seq<Task>, symbol: nat)
    requires Permitted(tasks) && symbol in Final(tasks)
    ensures Reaches(EmptyBook, Ops(OfSymbol(tasks, symbol)), Final(tasks)[symbol])
    decreases |tasks|
  {
    hide Steady, Struct, Allowed, Apply, Reaches, Ops;
    var n := |tasks| - 1;
    var front, t := tasks[..n], tasks[n];
    if t.symbol != symbol {
      BookIsItsOperations(front, symbol);
    } else {
      OpsAppend(OfSymbol(front, symbol), t);
      match t
      case AddBook(_) =>
        NoBookNoTask(front, symbol);
        NothingDone(EmptyBook);
      case Operate(_, op) =>
        var b := Final(front)[symbol];
        BookIsItsOperations(front, symbol);
        BooksSteady(front);
        OneStep(b, op);
        RunOn(EmptyBook, Ops(OfSymbol(front, symbol)), b, [op], Apply(b, op));
    }
  }

  lemma NothingDone(b: Book)
    ensures Reaches(b, [], b) && Ops([]) == []
  {
  }
}
