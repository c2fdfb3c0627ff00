/** The books of a market, or of one worker of a concurrent market, as objects. */
module BookHandlers {
  import opened BookModel
  import opened BookInvariants
  import opened Runs
  import opened Markets
  import opened Accounts
  import M = MapOrderBook
  import opened Words
  import C = Cascade

  class OrderBookHandler {
    var books: map<nat, M.MapOrderBook>
    ghost var repr: set<object>

    ghost predicate Keeps(s: nat)
      requires s in books
      reads this, repr
    {
      books[s] in repr && books[s].repr <= repr && books[s].Valid() && Steady(books[s].model)
    }

    ghost predicate Apart()
      reads this, books.Values
    {
      forall s, t :: s in books && t in books && s != t ==> books[s] != books[t] && books[s].repr !! books[t].repr
    }

    ghost predicate Valid()
      reads this, repr
    {
      && this !in repr
      && (forall s :: s in books ==> books[s] in repr)
      && (forall s :: s in books ==> Keeps(s))
      && Apart()
    }

    ghost function Models(): map<nat, Book>
      requires Valid()
      reads this, repr
    {
      map s | s in books :: books[s].model
    }

    constructor ()
      ensures Valid() && repr == {} && Models() == map[]
    {
      books, repr := map[], {};
    }

    /** Puts an empty book beside the others. */
    method NewBook(symbol: nat)
      requires Valid() && symbol !in books
      modifies this
      ensures Valid() && fresh(repr - old(repr)) && books.Keys == old(books).Keys + {symbol}
      ensures books[symbol].model == EmptyBook
      ensures forall s :: s in old(books) ==> books[s] == old(books)[s] && books[s].model == old(books[s].model)
    {
      hide M.MapOrderBook.Valid, Steady;
      var book := new M.MapOrderBook();
      EmptyIsSteady();
      books := books[symbol := book];
      repr := repr + {book} + book.repr;
      forall s | s in books && s != symbol ensures Keeps(s) && books[s] in old(repr) && books[s].repr <= old(repr) {
        assert old(Keeps(s));
      }
      assert Keeps(symbol);
    }

    method AddOrderBook(symbol: nat)
      requires Valid() && Permits(Models(), AddBook(symbol))
      modifies this
      ensures Valid() && fresh(repr - old(repr)) && Models() == Handle(old(Models()), AddBook(symbol))
    {
      hide Valid;
      NewBook(symbol);
    }

    /** Changes one book; the others stay as they are. */
    method Update(symbol: nat, op: Op)
      requires Valid() && symbol in books && Allowed(books[symbol].model, op)
      modifies this, repr
      ensures Valid() && fresh(repr - old(repr)) && books == old(books)
      ensures books[symbol].model == Apply(old(books[symbol].model), op)
      ensures forall s :: s in books && s != symbol ==> books[s].model == old(books[s].model)
    {
      hide M.MapOrderBook.Valid, Steady, Allowed, Apply;
      var book := books[symbol];
      assert Keeps(symbol);
      PassOn(book, op);
      repr := repr + book.repr;
      forall s | s in books && s != symbol
        ensures Keeps(s) && books[s].model == old(books[s].model) && books[s].repr == old(books[s].repr)
      {
        assert old(Keeps(s));
      }
      assert Apart();
    }

    /** Looks a book up and passes an operation on to it, as each of the handler's six calls does. */
    method Perform(symbol: nat, op: Op)
      requires Valid() && Permits(Models(), Operate(symbol, op))
      modifies this, repr
      ensures Valid() && fresh(repr - old(repr)) && Models() == Handle(old(Models()), Operate(symbol, op))
      ensures symbol in Models() && symbol in old(Models())
        && Reaches(old(Models())[symbol], [op], Models()[symbol])
    {
      hide Valid, Struct, Allowed, Apply;
      Update(symbol, op);
    }

    /** What a task submitted to a worker does with the handler it is bound to. */
    method Execute(t: Task)
      requires Valid() && Permits(Models(), t)
      modifies this, repr
      ensures Valid() && fresh(repr - old(repr)) && Models() == Handle(old(Models()), t)
    {
      hide Valid, Models, Permits, Handle;
      match t
      case AddBook(symbol) => AddOrderBook(symbol);
      case Operate(symbol, op) => Perform(symbol, op);
    }
  }

  /** Passes an operation on to a book. */
  method PassOn(book: M.MapOrderBook, op: Op)
    requires book.Valid() && Steady(book.model) && Allowed(book.model, op)
    modifies book, book.repr
    ensures book.Valid() && Steady(book.model) && fresh(book.repr - old(book.repr))
    ensures book.model == Apply(old(book.model), op)
  {
    hide M.MapOrderBook.Valid, Steady, Started, Struct, Allowed, Apply, Ready;
    Prepared(book.model, op);
    match op
    case Add(order) => book.AddOrder(order);
    case ExecuteAtPrice(id, quantity, price) => book.ExecuteOrderAt(id, quantity, price);
    case ExecuteOwn(id, quantity) => book.ExecuteOrder(id, quantity);
    case Cancel(id, quantity) => book.CancelOrder(id, quantity);
    case Remove(id) => book.DeleteOrder(id);
    case Replace(id, newId, newPrice) => book.ReplaceOrder(id, newId, newPrice);
  }

  /** What an allowed operation on a steady book needs and leads to. */
  lemma Prepared(b: Book, op: Op)
    requires Steady(b) && Allowed(b, op)
    ensures Started(b) && Steady(Apply(b, op))
    ensures
      match op
      case Add(o) => Ready(b, o) && Apply(b, op) == AddOrder(b, o)
      case ExecuteAtPrice(id, quantity, price) =>
        id in b.orders && price <= MAX64 && Apply(b, op) == ExecuteAt(b, id, quantity, price)
      case ExecuteOwn(id, quantity) => id in b.orders && Apply(b, op) == Execute(b, id, quantity)
      case Cancel(id, quantity) => id in b.orders && quantity <= MAX64 && Apply(b, op) == CancelOrder(b, id, quantity)
      case Remove(id) => id in b.orders && Apply(b, op) == DeleteOrder(b, id)
      case Replace(id, newId, newPrice) =>
        id in b.orders && newPrice <= MAX64 && (newId == id || newId !in b.orders)
        && Apply(b, op) == ReplaceOrder(b, id, newId, newPrice)
  {
    hide C.Quiet, C.Banded, Rebuilds, AddOrder, ExecuteAt, Execute, CancelOrder, DeleteOrder, ReplaceOrder;
    ApplySteady(b, op);
  }
}
