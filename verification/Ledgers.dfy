/** What every run keeps account of: quantities in total, and each order's own. */
module Ledgers {
  import opened Orders
  import opened Queues
  import opened BookModel
  import opened BookInvariants
  import opened Accounts
  import opened Runs
  import opened Words
  import C = Cascade

  // ------------------------------------------------------------ one operation

  /**
   Adding an order, its cascade included: both sides trade the same total, and
   what is not open any more was either traded or discarded. One order enters,
   none is cut back.
   */
  lemma AddOrderLedger(b: Book, o: Order)
    requires Steady(b) && Ready(b, o)
    ensures
      var r := AddOrder(b, o);
      var bought, sold := Traded(r.log, Bid) - Traded(b.log, Bid), Traded(r.log, Ask) - Traded(b.log, Ask);
      && bought == sold
      && Resting(r) == Resting(b) + o.open - 2 * bought - (Discarded(r.log) - Discarded(b.log))
      && (forall id :: Cancelled(r.log, id) == Cancelled(b.log, id))
      && (forall id :: Entered(r.log, id) == Entered(b.log, id) + if id == o.id then 1 else 0)
      && b.log <= r.log
  {
    hide Sound, Rebuilds, C.Quiet, C.Banded, Resting, Traded, Discarded;
    hide Cancelled, Entered, Fired, Firings, Submit, BookModel.Cascade;
    var c, d := b.Emit(Added(o)), Submit(b, o);
    SubmitSound(b, o);
    SubmitAccounts(b, o);
    CascadeAccounts(d);
    ConservedChain(c, Some(o), d, None, BookModel.Cascade(d), None);
    RestingFrame(b, c);
    LedgerEmit(b.log, Added(o));
    forall id
      ensures Cancelled(c.log, id) == Cancelled(b.log, id)
      ensures Entered(c.log, id) == Entered(b.log, id) + if id == o.id then 1 else 0
    {
      OrderEmit(b.log, Added(o), id);
    }
  }

  lemma AmendResting(b: Book, o: Order)
    requires Struct(b) && o.id in b.orders && Requoted(b.orders[o.id], o)
    ensures Resting(Amend(b, o)) + b.orders[o.id].open == Resting(b) + o.open
  {
    hide Placed, Indexed, Requoted, BinOf, Put, Resting;
    RequotedPlace(b.orders[o.id], o);
    var k := BinOf(o);
    var s := Put(b.Queue(k), o);
    FindResting(b, o.id);
    PutVolume(b.Queue(k), o);
    RestingWith(b, k, s);
    RestingFrame(b.With(k, s), Amend(b, o));
  }

  lemma DropResting(b: Book, o: Order)
    requires Struct(b) && o.id in b.orders && b.orders[o.id] == o
    ensures Resting(Drop(b, o)) + o.open == Resting(b)
  {
    hide Placed, Indexed, Without, Resting, Traded, Discarded, Counts;
    DropConserved(b, o);
  }

  lemma DropLog(b: Book, o: Order)
    ensures Drop(b, o).log == b.log
  {
  }

  lemma AmendLog(b: Book, o: Order)
    ensures Amend(b, o).log == b.log
  {
  }

  /** The events of a change to a resting order: the one that tells of it, and a deletion if nothing is left open. */
  lemma ReviseLog(b: Book, o: Order, last: nat, e: Event)
    requires Struct(b) && o.id in b.orders && Requoted(b.orders[o.id], o)
    ensures Revise(b, o, last, e).log == if o.IsFilled() then b.log + [e] + [Deleted(o)] else b.log + [e]
  {
    hide Placed, Indexed, Requoted, Drop, Amend, Revise;
    ReviseForm(b, o, last, e);
    DropLog(b, b.orders[o.id]);
    AmendLog(b, o);
  }

  lemma ShrinkLedger(b: Book, id: nat, quantity: nat)
    requires Started(b) && id in b.orders && quantity <= MAX64
    ensures b.orders[id].id == id
    ensures
      var c, cut := Shrink(b, id, quantity), b.orders[id].open - b.orders[id].SetQuantity(quantity).open;
      && Resting(c) == Resting(b) - cut && b.log <= c.log
      && (forall side :: Traded(c.log, side) == Traded(b.log, side)) && Discarded(c.log) == Discarded(b.log)
      && (forall x :: Cancelled(c.log, x) == Cancelled(b.log, x) + if x == id then cut else 0)
      && (forall x :: Entered(c.log, x) == Entered(b.log, x))
  {
    hide Started, Resting, Traded, Discarded, Cancelled, Entered, Shrink, Order.SetQuantity;
    StartedIndexed(b, id);
    ShrinkResting(b, id, quantity);
    ShrinkLog(b, id, quantity);
    ShrinkTotals(b.log, b.orders[id].SetQuantity(quantity));
    forall x
      ensures
        Cancelled(Shrink(b, id, quantity).log, x)
        == Cancelled(b.log, x) + if x == id then b.orders[id].open - b.orders[id].SetQuantity(quantity).open else 0
      ensures Entered(Shrink(b, id, quantity).log, x) == Entered(b.log, x)
    {
      ShrinkCounts(b, id, quantity, x);
    }
  }

  lemma StartedIndexed(b: Book, id: nat)
    requires Started(b) && id in b.orders
    ensures b.orders[id].id == id && Struct(b)
  {
    hide Live, Uncrossed, C.Banded, Rebuilds, Placed;
  }

  lemma ShrinkLog(b: Book, id: nat, quantity: nat)
    requires Started(b) && id in b.orders
    ensures
      var o := b.orders[id].SetQuantity(quantity);
      Shrink(b, id, quantity).log == if o.open == 0 then b.log + [Updated(o)] + [Deleted(o)] else b.log + [Updated(o)]
  {
    hide Placed, Indexed, Live, Uncrossed, C.Banded, Rebuilds, Revise;
    StartedIndexed(b, id);
    var o := b.orders[id].SetQuantity(quantity);
    ReviseLog(b, o, b.last, Updated(o));
  }

  lemma ShrinkResting(b: Book, id: nat, quantity: nat)
    requires Started(b) && id in b.orders
    ensures
      Resting(Shrink(b, id, quantity)) == Resting(b) - b.orders[id].open + b.orders[id].SetQuantity(quantity).open
  {
    hide Placed, Indexed, Live, Uncrossed, C.Banded, Rebuilds, Resting, Drop, Amend, Revise;
    StartedIndexed(b, id);
    var p := b.orders[id];
    var o := p.SetQuantity(quantity);
    ReviseForm(b, o, b.last, Updated(o));
    if o.IsFilled() {
      DropResting(b, p);
      RestingFrame(Drop(b, p), Shrink(b, id, quantity));
    } else {
      AmendResting(b, o);
      RestingFrame(Amend(b, o), Shrink(b, id, quantity));
    }
  }

  /** A cancel trades nothing, and what it deletes has nothing left to discard. */
  lemma ShrinkTotals(log: seq<Event>, o: Order)
    ensures
      var told := log + [Updated(o)];
      && (forall side :: Traded(told, side) == Traded(log, side)) && Discarded(told) == Discarded(log)
      && (o.open == 0 ==>
        (forall side :: Traded(told + [Deleted(o)], side) == Traded(log, side))
        && Discarded(told + [Deleted(o)]) == Discarded(log))
  {
    hide Traded, Discarded, Firings;
    LedgerEmit(log, Updated(o));
    LedgerEmit(log + [Updated(o)], Deleted(o));
  }

  lemma ShrinkCounts(b: Book, id: nat, quantity: nat, x: nat)
    requires Started(b) && id in b.orders && quantity <= MAX64 && b.orders[id].id == id
    ensures
      var c, cut := Shrink(b, id, quantity), b.orders[id].open - b.orders[id].SetQuantity(quantity).open;
      && Cancelled(c.log, x) == Cancelled(b.log, x) + (if x == id then cut else 0)
      && Entered(c.log, x) == Entered(b.log, x)
  {
    hide Started, Cancelled, Entered, TakenOff, Shrink, Fired, Fires;
    var o := b.orders[id].SetQuantity(quantity);
    ShrinkTold(b, id, quantity);
    ShrinkLog(b, id, quantity);
    OrderEmit(b.log, Updated(o), x);
    OrderEmit(b.log + [Updated(o)], Deleted(o), x);
    TakenOffOwn(Replay(b.log), Updated(o), x);
    TakenOffOwn(Replay(b.log + [Updated(o)]), Deleted(o), x);
  }

  lemma TakenOffOwn(m: Option<map<nat, Order>>, e: Event, id: nat)
    ensures id != e.order.id || !e.Updated? ==> TakenOff(m, e, id) == 0
  {
  }

  /** What the event of a cancel says: exactly what the order lost. */
  lemma ShrinkTold(b: Book, id: nat, quantity: nat)
    requires Started(b) && id in b.orders && quantity <= MAX64
    ensures b.orders[id].id == id
    ensures
      var o := b.orders[id].SetQuantity(quantity);
      TakenOff(Replay(b.log), Updated(o), id) == b.orders[id].open - o.open
  {
    hide Placed, Live, Uncrossed, C.Banded, Rebuilds;
    CancelTakesTheMinimumIff(b.orders[id], quantity) by { assert Fit(b.orders[id]) by { LiveFit(b, id); } }
    UpdateReplays(b.log, b.orders, b.orders[id].SetQuantity(quantity));
  }

  lemma LiveFit(b: Book, id: nat)
    requires Live(b) && id in b.orders
    ensures Fit(b.orders[id])
  {
  }

  /**
   A cancel, its cascade included, cuts its own order back and no other; what its cascade trades and
   discards balances.
   */
  lemma CancelOrderLedger(b: Book, id: nat, quantity: nat)
    requires Steady(b) && id in b.orders && quantity <= MAX64
    ensures b.orders[id].id == id
    ensures
      var r, cut := CancelOrder(b, id, quantity), b.orders[id].open - b.orders[id].SetQuantity(quantity).open;
      var bought, sold := Traded(r.log, Bid) - Traded(b.log, Bid), Traded(r.log, Ask) - Traded(b.log, Ask);
      && bought == sold
      && Resting(r) == Resting(b) - cut - 2 * bought - (Discarded(r.log) - Discarded(b.log))
      && (forall x :: Cancelled(r.log, x) == Cancelled(b.log, x) + if x == id then cut else 0)
      && (forall x :: Entered(r.log, x) == Entered(b.log, x))
      && b.log <= r.log
  {
    hide Placed, Indexed, Live, Uncrossed, Rebuilds, Resting, Traded;
    hide Discarded, Cancelled, Entered, Fired, Firings, Revise;
    ShrinkLedger(b, id, quantity);
    ShrinkStarted(b, id, quantity);
    CascadeAccounts(Shrink(b, id, quantity));
  }

  lemma HitSilent(b: Book, id: nat, quantity: nat, price: nat)
    requires Started(b) && id in b.orders && b.orders[id].id == id
    ensures Silent(b.log, Hit(b, id, quantity, price).log)
  {
    hide Placed, Indexed, Live, Uncrossed, C.Banded, Rebuilds, Silent, Revise;
    var o := b.orders[id].Execute(price, Min(quantity, b.orders[id].open));
    ReviseLog(b, o, price, Executed(o));
    SilentEmit(b.log, Executed(o));
    SilentEmit(b.log + [Executed(o)], Deleted(o));
    SilentChain(b.log, b.log + [Executed(o)], b.log + [Executed(o)] + [Deleted(o)]);
  }

  lemma DeleteSilent(b: Book, id: nat)
    requires id in b.orders
    ensures Silent(b.log, Delete(b, id).log)
  {
    hide Silent, Drop;
    SilentEmit(b.log, Deleted(b.orders[id]));
    DropLog(b.Emit(Deleted(b.orders[id])), b.orders[id]);
  }

  /** What one operation takes off the order with the given id. */
  function Cut(b: Book, op: Op, id: nat): int {
    if op.Cancel? && op.id == id && id in b.orders then
      b.orders[id].open - b.orders[id].SetQuantity(op.quantity).open
    else 0
  }

  /** The order one operation adds, if it adds one. */
  function Newcomer(op: Op): Option<nat> {
    match op
    case Add(o) => Some(o.id)
    case Replace(_, newId, _) => Some(newId)
    case _ => None
  }

  /** The log after one operation, order by order. */
  ghost predicate Entries(b: Book, op: Op, r: Book) {
    && b.log <= r.log
    && (forall id: nat :: Cancelled(r.log, id) == Cancelled(b.log, id) + Cut(b, op, id))
    && (forall id: nat :: Entered(r.log, id) == Entered(b.log, id) + if Newcomer(op) == Some(id) then 1 else 0)
  }

  /** Events that cut nothing back, and the cascade after them. */
  lemma SilentThenCascade(b: Book, c: Book)
    requires Silent(b.log, c.log) && Started(c)
    ensures
      var r := BookModel.Cascade(c);
      && b.log <= r.log
      && (forall id :: Cancelled(r.log, id) == Cancelled(b.log, id))
      && (forall id :: Entered(r.log, id) == Entered(b.log, id))
  {
    hide Sound, Rebuilds, C.Banded, Cancelled, Entered, Fired, Firings, BookModel.Cascade, Quantities;
    CascadeAccounts(c);
  }

  /**
   No operation but a cancel cuts an order back, a cancel cuts back its own order only; only add and
   replace bring one in.
   */
  lemma OnlyCancelsCutBack(b: Book, op: Op)
    requires Steady(b) && Allowed(b, op)
    ensures Entries(b, op, Apply(b, op))
  {
    hide C.Quiet, C.Banded, Rebuilds, Cancelled, Entered, Silent, Hit;
    hide Delete, Shrink, BookModel.Cascade, AddOrder, Placed, Uncrossed;
    match op
    case Add(o) => AddOrderLedger(b, o);
    case ExecuteAtPrice(id, quantity, price) =>
      HitStarted(b, id, quantity, price);
      HitSilent(b, id, quantity, price);
      SilentThenCascade(b, Hit(b, id, quantity, price));
    case ExecuteOwn(id, quantity) =>
      LiveFit(b, id);
      HitStarted(b, id, quantity, b.orders[id].price);
      HitSilent(b, id, quantity, b.orders[id].price);
      SilentThenCascade(b, Hit(b, id, quantity, b.orders[id].price));
    case Cancel(id, quantity) => CancelOrderLedger(b, id, quantity);
    case Remove(id) =>
      DeleteStarted(b, id);
      DeleteSilent(b, id);
      SilentThenCascade(b, Delete(b, id));
    case Replace(id, newId, newPrice) =>
      ReplaceIsDeleteThenAdd(b, id, newId, newPrice);
      DeleteSteady(b, id);
      DeleteSilent(b, id);
      var o := b.orders[id].(id := newId, price := newPrice);
      ReplacementReady(b, id, newId, newPrice);
      AddOrderLedger(Delete(b, id), o);
      SilentFirst(b.log, Delete(b, id).log, AddOrder(Delete(b, id), o).log);
  }

  lemma SilentFirst(a: seq<Event>, b: seq<Event>, c: seq<Event>)
    requires Silent(a, b) && b <= c
    ensures a <= c
    ensures (forall id :: Cancelled(b, id) == Cancelled(a, id)) && (forall id :: Entered(b, id) == Entered(a, id))
  {
  }

  /**
   Through any operation, an order that stays keeps its open and executed quantity together, but for
   its own cancel.
   */
  lemma OperationKeepsAccounts(b: Book, op: Op, id: nat)
    requires Steady(b) && Allowed(b, op) && id in b.orders && id in Apply(b, op).orders && Newcomer(op) != Some(id)
    ensures
      var o, n := b.orders[id], Apply(b, op).orders[id];
      (n.open + n.executed) % WORD64 == (o.open + o.executed - Cut(b, op, id)) % WORD64
  {
    hide C.Quiet, C.Banded, Struct, Live, Uncrossed, Apply, Rebuilds, Allowed, Cancelled, Entered, Balance, Cut;
    var r := Apply(b, op);
    ApplySteady(b, op);
    OnlyCancelsCutBack(b, op);
    RestingIsBalance(b, id);
    RestingIsBalance(r, id);
    BalanceMoves(b.log, r.log, id);
    var o := b.orders[id];
    SameRemainder(o.open + o.executed, Balance(b.log, id), Cut(b, op, id));
  }

  lemma RestingIsBalance(b: Book, id: nat)
    requires Rebuilds(b.log, b.orders) && id in b.orders
    ensures (b.orders[id].open + b.orders[id].executed) % WORD64 == Balance(b.log, id) % WORD64
  {
    hide Balance;
    AccountIsBalance(b.log, id);
    assert Told(Replay(b.log).value[id]) == Told(b.orders[id]);
  }

  // ------------------------------------------------------------ every run

  /**
   At every return of every run, each resting order's open and executed quantity together are what
   it brought when it was added, less what cancels of this very order have taken off since.
   */
  lemma OpenPlusExecuted(ops: seq<Op>, b: Book)
    requires Reaches(EmptyBook, ops, b)
    ensures forall id :: id in b.orders ==>
      (b.orders[id].open + b.orders[id].executed) % WORD64 == Balance(b.log, id) % WORD64
  {
    hide Sound, Rebuilds, C.Quiet, C.Banded, Balance;
    EmptyIsSteady();
    RunSteady(EmptyBook, ops, b);
    forall id | id in b.orders
      ensures (b.orders[id].open + b.orders[id].executed) % WORD64 == Balance(b.log, id) % WORD64
    {
      RestingIsBalance(b, id);
    }
  }

  /** In every run, an order is deleted as often as it was added, or once less while it rests, and never fired twice. */
  lemma EachOrderAccountedFor(ops: seq<Op>, b: Book, id: nat)
    requires Reaches(EmptyBook, ops, b)
    ensures Entered(b.log, id) == Left(b.log, id) + if id in b.orders then 1 else 0
    ensures Fired(b.log, id) + Waiting(b, None, id) <= Entered(b.log, id)
  {
    hide Steady, Entered, Left, Fired, Waiting;
    EmptyIsSteady();
    RunSteady(EmptyBook, ops, b);
    ReplayTells(b, id);
    EnteredLessLeft(b.log, id);
    FiredAtMostOnce(b.log, id);
  }

  /** What the replayed events say of an id: whether it rests, and whether it waits. */
  lemma ReplayTells(b: Book, id: nat)
    requires Steady(b)
    ensures Replay(b.log).Some? && (id in Replay(b.log).value <==> id in b.orders)
    ensures
      Waiting(b, None, id) == if id in Replay(b.log).value && Waits(Replay(b.log).value[id]) then 1 else 0
  {
    hide Sound, C.Quiet, C.Banded, Replay;
    if id in b.orders {
      assert Told(Replay(b.log).value[id]) == Told(b.orders[id]);
    }
  }

  /** A cascade fires each stop order that no longer waits exactly once, and no other. */
  lemma CascadeFiresOnce(b: Book)
    requires Sound(b) && Rebuilds(b.log, b.orders)
    ensures
      var r := BookModel.Cascade(b);
      && (forall id :: Fired(r.log, id) - Fired(b.log, id) == Waiting(b, None, id) - Waiting(r, None, id) <= 1)
      && Firings(r.log) - Firings(b.log) == StopCount(b) - StopCount(r)
  {
    hide Sound, Rebuilds, Fired, Firings, StopCount, Quantities, BookModel.Cascade, Entered, Cancelled;
    CascadeAccounts(b);
  }
}
