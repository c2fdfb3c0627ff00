/** Whole runs of public operations, from an empty book on. */
module Runs {
  import opened Orders
  import opened Queues
  import opened BookModel
  import opened BookInvariants
  import opened Accounts
  import C = Cascade
  import opened Words

  datatype Op =
    | Add(order: Order)
    | ExecuteAtPrice(id: nat, quantity: nat, price: nat)
    | ExecuteOwn(id: nat, quantity: nat)
    | Cancel(id: nat, quantity: nat)
    | Remove(id: nat)
    | Replace(id: nat, newId: nat, newPrice: nat)

  /** What the interface asks of its callers. */
  ghost predicate Allowed(b: Book, op: Op) {
    match op
    case Add(o) => o.Admissible() && o.id !in b.orders
    case ExecuteAtPrice(id, _, price) => id in b.orders && price <= MAX64
    case ExecuteOwn(id, _) => id in b.orders
    case Cancel(id, quantity) => id in b.orders && quantity <= MAX64
    case Remove(id) => id in b.orders
    case Replace(id, newId, newPrice) => id in b.orders && (newId == id || newId !in b.orders) && 0 < newPrice <= MAX64
  }

  function Apply(b: Book, op: Op): Book
    requires Struct(b) && Allowed(b, op)
  {
    match op
    case Add(o) => AddOrder(b, o)
    case ExecuteAtPrice(id, quantity, price) => ExecuteAt(b, id, quantity, price)
    case ExecuteOwn(id, quantity) => Execute(b, id, quantity)
    case Cancel(id, quantity) => CancelOrder(b, id, quantity)
    case Remove(id) => DeleteOrder(b, id)
    case Replace(id, newId, newPrice) => ReplaceOrder(b, id, newId, newPrice)
  }

  /** Markers stand at the last price once there is one. */
  ghost predicate Aligned(b: Book) {
    b.last != 0 ==> b.bidMarker == b.last && b.askMarker == b.last
  }

  /** All that holds of a book whenever no operation is under way. */
  ghost predicate Steady(b: Book) {
    Sound(b) && C.Quiet(b) && C.Banded(b) && Aligned(b) && Rebuilds(b.log, b.orders)
  }

  /** What has to hold for a cascade to lead back to a steady book. */
  ghost predicate Started(b: Book) {
    Sound(b) && C.Banded(b) && Rebuilds(b.log, b.orders)
  }

  lemma CascadeSteadies(b: Book)
    requires Started(b)
    ensures Steady(BookModel.Cascade(b)) && BookModel.Cascade(b).orders.Keys <= b.orders.Keys
  {
    C.CascadeSound(b);
    C.CascadeEndsQuiet(b);
    C.CascadeBanded(b);
    CascadeAccounts(b);
  }

  lemma EmptyIsSteady()
    ensures Steady(EmptyBook)
  {
    EmptyIsSound();
  }

  // ------------------------------------------------------------ submitting

  lemma SubmitSound(b: Book, o: Order)
    requires Ready(b, o)
    ensures Sound(Submit(b, o)) && Submit(b, o).orders.Keys <= b.orders.Keys + {o.id}
  {
    var c := b.Emit(Added(o));
    StructOnly(b, c);
    match o.kind
    case Limit => AddLimitSound(c, o);
    case Market => AddMarketSound(c, o);
    case _ => AddStopSound(c, o);
  }

  lemma BandedFrame(b: Book, c: Book)
    requires C.Banded(b) && SameStops(b, c)
    ensures C.Banded(c)
  {
  }

  /** A trailing stop enters at the edge of its band. */
  lemma RestBanded(b: Book, o: Order)
    requires C.Banded(b) && o.kind != Limit && o.kind != Market && Sorted(BinOf(o), b.Queue(BinOf(o)))
    requires o.IsTrailing() ==>
      b.askMarker == b.last && b.bidMarker == b.last && 0 < b.last && o.stop == TrailedStop(o, b.last)
    ensures C.Banded(Rest(b, o))
  {
    InsertSorted(BinOf(o), b.Queue(BinOf(o)), o);
  }

  lemma SubmitBanded(b: Book, o: Order)
    requires Steady(b) && Ready(b, o)
    ensures C.Banded(Submit(b, o))
  {
    var c := b.Emit(Added(o));
    if o.kind == Limit || o.kind == Market {
      BandedFrame(b, Submit(b, o));
    } else {
      var o' := if o.IsTrailing() then Restopped(o, b.last) else o;
      if Reached(o.side, o'.stop, MarketPrice(c, o.side)) {
        BandedFrame(b, Submit(b, o));
      } else {
        assert Placed(b, BinOf(o'));
        RestBanded(c, o');
      }
    }
  }

  lemma AddSteady(b: Book, o: Order)
    requires Steady(b) && Ready(b, o)
    ensures Steady(AddOrder(b, o)) && AddOrder(b, o).orders.Keys <= b.orders.Keys + {o.id}
  {
    SubmitSound(b, o);
    SubmitBanded(b, o);
    SubmitAccounts(b, o);
    CascadeSteadies(Submit(b, o));
  }

  // ------------------------------------------------------------ changing and deleting a resting order

  lemma DropBanded(b: Book, o: Order)
    requires C.Banded(b) && Struct(b)
    ensures C.Banded(Drop(b, o))
  {
    assert Placed(b, BinOf(o));
    WithoutSorted(BinOf(o), b.Queue(BinOf(o)), o.id);
  }

  lemma DropEmit(b: Book, o: Order, e: Event)
    ensures Drop(b.Emit(e), o) == Drop(b, o).Emit(e)
  {
  }

  lemma DeleteStarted(b: Book, id: nat)
    requires Started(b) && id in b.orders
    ensures Started(Delete(b, id))
    ensures Delete(b, id).orders == b.orders - {id} && Delete(b, id).last == b.last
  {
    hide Placed, Uncrossed, C.Banded, Rebuilds, Without, BinOf;
    var o := b.orders[id];
    var d := Drop(b, o);
    DropEmit(b, o, Deleted(o));
    assert Delete(b, id) == d.Emit(Deleted(o));
    DropHand(b, o);
    DropBanded(b, o);
    BandedFrame(d, d.Emit(Deleted(o)));
    SoundFrame(d, d.Emit(Deleted(o)));
    ClosingReplays(d.log, d.orders, o);
    assert d.orders - {o.id} == d.orders;
  }

  /** The same order with other quantities. */
  predicate Requoted(o: Order, o': Order) {
    o' == o.(quantity := o'.quantity, executed := o'.executed, open := o'.open,
             lastPrice := o'.lastPrice, lastQuantity := o'.lastQuantity)
  }

  lemma PutThenWithout(s: seq<Order>, o: Order)
    requires DistinctIds(s)
    ensures Without(Put(s, o), o.id) == Without(s, o.id)
  {
    var i := Find(s, o.id);
    if i < |s| {
      assert Put(s, o) == s[..i] + [o] + s[i + 1..];
      FindInSplit(s[..i], o, s[i + 1..]);
    }
  }

  lemma RequotedPlace(o: Order, o': Order)
    requires Requoted(o, o')
    ensures BinOf(o') == BinOf(o) && Key(o') == Key(o) && o'.id == o.id && o'.kind == o.kind && o'.price == o.price
    ensures forall last :: TrailedStop(o', last) == TrailedStop(o, last)
    ensures o'.stop == o.stop && o'.side == o.side
  {
  }

  lemma EditTwice(b: Book, k: Bin, s: seq<Order>, m: map<nat, Order>, t: seq<Order>, n: map<nat, Order>)
    ensures b.With(k, s).(orders := m).With(k, t).(orders := n) == b.With(k, t).(orders := n)
  {
  }

  /** Filling an order where it stands and deleting it is taking it out. */
  lemma AmendThenDrop(b: Book, o: Order)
    requires Struct(b) && o.id in b.orders && Requoted(b.orders[o.id], o)
    ensures Drop(Amend(b, o), o) == Drop(b, b.orders[o.id])
  {
    hide Requoted, BinOf, Sorted, DistinctIds, Put, Without;
    RequotedPlace(b.orders[o.id], o);
    var k := BinOf(o);
    var s := b.Queue(k);
    assert Placed(b, k);
    PutThenWithout(s, o);
    assert b.orders[o.id := o] - {o.id} == b.orders - {o.id};
    EditTwice(b, k, Put(s, o), b.orders[o.id := o], Without(s, o.id), b.orders - {o.id});
  }

  lemma ReviseForm(b: Book, o: Order, last: nat, e: Event)
    requires Struct(b) && o.id in b.orders && Requoted(b.orders[o.id], o)
    ensures Revise(b, o, last, e) ==
      if o.IsFilled() then Drop(b, b.orders[o.id]).(last := last).Emit(e).Emit(Deleted(o))
      else Amend(b, o).(last := last).Emit(e)
  {
    hide Placed, Indexed, Requoted, Put, Without, BinOf;
    AmendThenDrop(b, o);
  }

  lemma AmendPlaces(b: Book, o: Order)
    requires Struct(b) && o.id in b.orders && Requoted(b.orders[o.id], o)
    ensures forall k: Bin, x: Order :: x in Amend(b, o).Queue(k) ==>
      x in b.Queue(k) || (x == o && b.orders[o.id] in b.Queue(k))
  {
    hide Requoted, BinOf, Sorted, DistinctIds, Put, Indexed;
    RequotedPlace(b.orders[o.id], o);
    assert Placed(b, BinOf(o));
    FindResting(b, o.id);
    assert b.orders[o.id] in b.Queue(BinOf(o));
    PutSorted(BinOf(o), b.Queue(BinOf(o)), o);
    forall k, x | x in Amend(b, o).Queue(k) ensures x in b.Queue(k) || (x == o && b.orders[o.id] in b.Queue(k)) {
      assert k != BinOf(o) ==> Amend(b, o).Queue(k) == b.Queue(k);
    }
  }

  lemma AmendUncrossed(b: Book, o: Order)
    requires Struct(b) && Uncrossed(b) && o.id in b.orders && Requoted(b.orders[o.id], o)
    ensures Uncrossed(Amend(b, o))
  {
    RequotedPlace(b.orders[o.id], o);
    AmendPlaces(b, o);
    var c := Amend(b, o);
    assert Within(b, c.askLimits, AskLimits) by { assert Placed(b, AskLimits) && c.askLimits == c.Queue(AskLimits); }
    assert Within(b, c.bidLimits, BidLimits) by { assert Placed(b, BidLimits) && c.bidLimits == c.Queue(BidLimits); }
    HeadsStayApart(b, c);
  }

  lemma AmendBanded(b: Book, o: Order)
    requires C.Banded(b) && Struct(b) && o.id in b.orders && Requoted(b.orders[o.id], o)
    ensures C.Banded(Amend(b, o))
  {
    hide Placed, Indexed, Requoted, TrailedStop, Put;
    RequotedPlace(b.orders[o.id], o);
    AmendPlaces(b, o);
    var c := Amend(b, o);
    assert c.askTrails == c.Queue(AskTrails) && c.bidTrails == c.Queue(BidTrails);
  }

  lemma AmendSound(b: Book, o: Order)
    requires Sound(b) && o.id in b.orders && Requoted(b.orders[o.id], o) && Fit(o)
    ensures Sound(Amend(b, o))
  {
    AmendStruct(b, o);
    AmendUncrossed(b, o);
  }

  /** Prices, markers and the log are no part of where the orders stand. */
  lemma SoundFrame(b: Book, c: Book)
    requires Sound(b) && c == b.(last := c.last, log := c.log) && c.last <= MAX64
    ensures Sound(c)
  {
    StructOnly(b, c);
  }

  lemma ReviseStarted(b: Book, o: Order, last: nat, e: Event)
    requires Started(b) && o.id in b.orders && Requoted(b.orders[o.id], o) && (Fit(o) || o.IsFilled())
    requires last <= MAX64 && Rebuilds(b.log + [e], b.orders[o.id := o])
    ensures Started(Revise(b, o, last, e))
  {
    ReviseForm(b, o, last, e);
    if o.IsFilled() {
      var d := Drop(b, b.orders[o.id]);
      DropSound(b, b.orders[o.id]);
      DropBanded(b, b.orders[o.id]);
      SoundFrame(d, d.(last := last).Emit(e).Emit(Deleted(o)));
      BandedFrame(d, d.(last := last).Emit(e).Emit(Deleted(o)));
      ClosingReplays(b.log + [e], b.orders, o);
    } else {
      var a := Amend(b, o);
      AmendSound(b, o);
      AmendBanded(b, o);
      SoundFrame(a, a.(last := last).Emit(e));
      BandedFrame(a, a.(last := last).Emit(e));
    }
  }

  lemma HitStarted(b: Book, id: nat, quantity: nat, price: nat)
    requires Started(b) && id in b.orders && price <= MAX64
    ensures Started(Hit(b, id, quantity, price))
  {
    hide Placed, Uncrossed, C.Banded, Revise, Rebuilds;
    var p := b.orders[id];
    assert Fit(p);
    ExecutionReplays(b.log, b.orders, p, price, Min(quantity, p.open));
    var o := p.Execute(price, Min(quantity, p.open));
    ReviseStarted(b, o, price, Executed(o));
  }

  lemma ShrinkStarted(b: Book, id: nat, quantity: nat)
    requires Started(b) && id in b.orders && quantity <= MAX64
    ensures Started(Shrink(b, id, quantity))
  {
    hide Placed, Uncrossed, C.Banded, Revise, Rebuilds;
    var p := b.orders[id];
    assert Fit(p);
    var o := p.SetQuantity(quantity);
    CancelTakesTheMinimumIff(p, quantity);
    UpdateReplays(b.log, b.orders, o);
    ReviseStarted(b, o, b.last, Updated(o));
  }

  // ------------------------------------------------------------ every operation

  /** In replace, the cascade after the inner add finds nothing to do. */
  lemma ReplaceIsDeleteThenAdd(b: Book, id: nat, newId: nat, newPrice: nat)
    requires Steady(b) && Allowed(b, Replace(id, newId, newPrice))
    ensures
      var o := b.orders[id].(id := newId, price := newPrice);
      && ReplaceOrder(b, id, newId, newPrice) == AddOrder(Delete(b, id), o)
      && Steady(AddOrder(Delete(b, id), o))
  {
    var o := b.orders[id].(id := newId, price := newPrice);
    assert Fit(b.orders[id]);
    DeleteSteady(b, id);
    var d := Delete(b, id);
    AddSteady(d, o);
    C.CascadeEndsQuiet(Submit(d, o)) by { SubmitSound(d, o); }
    C.CascadeAtRest(AddOrder(d, o));
  }

  lemma ReplacementReady(b: Book, id: nat, newId: nat, newPrice: nat)
    requires Started(b) && Allowed(b, Replace(id, newId, newPrice))
    ensures Ready(Delete(b, id), b.orders[id].(id := newId, price := newPrice))
  {
    DeleteStarted(b, id);
    assert Fit(b.orders[id]);
  }

  lemma DeleteSteady(b: Book, id: nat)
    requires Steady(b) && id in b.orders
    ensures Steady(Delete(b, id))
  {
    DeleteStarted(b, id);
    DeletePlaces(b, id);
    QuietSubset(b, Delete(b, id));
  }

  lemma DeletePlaces(b: Book, id: nat)
    requires Struct(b) && id in b.orders
    ensures forall k: Bin, x: Order :: x in Delete(b, id).Queue(k) ==> x in b.Queue(k)
  {
    hide BinOf, Sorted, DistinctIds, Without;
    var o := b.orders[id];
    assert Placed(b, BinOf(o));
    WithoutSorted(BinOf(o), b.Queue(BinOf(o)), id);
    forall k, x | x in Delete(b, id).Queue(k) ensures x in b.Queue(k) {
      assert k != BinOf(o) ==> Delete(b, id).Queue(k) == b.Queue(k);
    }
  }

  lemma QuietSubset(b: Book, c: Book)
    requires C.Quiet(b) && c.last == b.last
    requires forall k: Bin, o: Order :: o in c.Queue(k) ==> o in b.Queue(k)
    ensures C.Quiet(c)
  {
  }

  /** Every public operation leads from a steady book to a steady book. */
  lemma ApplySteady(b: Book, op: Op)
    requires Steady(b) && Allowed(b, op)
    ensures Steady(Apply(b, op))
  {
    match op
    case Add(o) => AddSteady(b, o);
    case ExecuteAtPrice(id, quantity, price) =>
      HitStarted(b, id, quantity, price);
      CascadeSteadies(Hit(b, id, quantity, price));
    case ExecuteOwn(id, quantity) =>
      assert Fit(b.orders[id]);
      HitStarted(b, id, quantity, b.orders[id].price);
      CascadeSteadies(Hit(b, id, quantity, b.orders[id].price));
    case Cancel(id, quantity) =>
      ShrinkStarted(b, id, quantity);
      CascadeSteadies(Shrink(b, id, quantity));
    case Remove(id) =>
      DeleteStarted(b, id);
      CascadeSteadies(Delete(b, id));
    case Replace(id, newId, newPrice) =>
      ReplaceIsDeleteThenAdd(b, id, newId, newPrice);
  }

  /** A book reached from the empty one by allowed operations. */
  ghost predicate Reaches(b: Book, ops: seq<Op>, c: Book)
    decreases |ops|
  {
    if ops == [] then c == b
    else Struct(b) && Allowed(b, ops[0]) && Reaches(Apply(b, ops[0]), ops[1..], c)
  }

  /** Safety over every run. */
  lemma {:induction false} RunSteady(b: Book, ops: seq<Op>, c: Book)
    requires Steady(b) && Reaches(b, ops, c)
    ensures Steady(c)
    decreases |ops|
  {
    if ops != [] {
      ApplySteady(b, ops[0]);
      RunSteady(Apply(b, ops[0]), ops[1..], c);
    }
  }

  lemma OneStep(b: Book, op: Op)
    requires Steady(b) && Allowed(b, op)
    ensures Reaches(b, [op], Apply(b, op)) && Steady(Apply(b, op))
  {
    hide C.Quiet, C.Banded, Rebuilds, Allowed, Apply;
    ApplySteady(b, op);
    assert [op][1..] == [];
  }

  lemma {:induction false} RunOn(a: Book, ops: seq<Op>, b: Book, more: seq<Op>, c: Book)
    requires Reaches(a, ops, b) && Reaches(b, more, c)
    ensures Reaches(a, ops + more, c)
    decreases |ops|
  {
    hide Struct, Allowed, Apply;
    if ops == [] {
      assert ops + more == more;
    } else {
      RunOn(Apply(a, ops[0]), ops[1..], b, more, c);
      assert (ops + more)[1..] == ops[1..] + more;
    }
  }

  lemma StopSides(b: Book)
    requires Steady(b)
    ensures forall o :: o in b.askStops || o in b.askTrails ==> Key(o) == o.stop && o.side == Ask && Fit(o)
    ensures forall o :: o in b.bidStops || o in b.bidTrails ==> Key(o) == o.stop && o.side == Bid && Fit(o)
  {
    hide Sorted, DistinctIds, Uncrossed, Fit, Rebuilds;
    forall k, o | !LimitBin(k) && o in b.Queue(k) ensures Key(o) == o.stop && o.side == SideOf(k) && Fit(o) {
      assert Placed(b, k);
    }
    assert b.Queue(AskStops) == b.askStops && b.Queue(AskTrails) == b.askTrails;
    assert b.Queue(BidStops) == b.bidStops && b.Queue(BidTrails) == b.bidTrails;
  }

  /** In any run, every stop order waits beyond the market, a trailing one within its trail amount. */
  lemma StopsWaitInTheirBand(ops: seq<Op>, b: Book)
    requires Reaches(EmptyBook, ops, b)
    ensures forall o :: o in b.askStops ==> o.stop < b.last
    ensures forall o :: o in b.bidStops ==> b.last < o.stop
    ensures forall o :: o in b.askTrails ==> b.last <= o.stop + o.trail && o.stop < b.last
    ensures forall o :: o in b.bidTrails ==> b.last < o.stop <= MAX64 && o.stop <= b.last + o.trail
    ensures b.last == 0 ==> StopCount(b) == 0
  {
    EmptyIsSteady();
    RunSteady(EmptyBook, ops, b);
    StopSides(b);
    AskStopsWait(b);
    BidStopsWait(b);
    if b.last == 0 { C.QuietAtZero(b); }
  }

  lemma AskStopsWait(b: Book)
    requires C.NoneReached(b, AskStops) && C.NoneReached(b, AskTrails) && C.Banded(b) && Aligned(b)
    requires forall o :: o in b.askStops || o in b.askTrails ==> Key(o) == o.stop && o.side == Ask
    ensures forall o :: o in b.askStops ==> o.stop < b.last
    ensures forall o :: o in b.askTrails ==> b.last <= o.stop + o.trail && o.stop < b.last
  {
    assert forall o :: o in b.askStops ==> o in b.Queue(AskStops);
    assert forall o :: o in b.askTrails ==> o in b.Queue(AskTrails);
  }

  lemma BidStopsWait(b: Book)
    requires C.NoneReached(b, BidStops) && C.NoneReached(b, BidTrails) && C.Banded(b) && Aligned(b)
    requires forall o :: o in b.bidStops || o in b.bidTrails ==> Key(o) == o.stop && o.side == Bid && o.Admissible()
    ensures forall o :: o in b.bidStops ==> b.last < o.stop
    ensures forall o :: o in b.bidTrails ==> b.last < o.stop <= MAX64 && o.stop <= b.last + o.trail
  {
    assert forall o :: o in b.bidStops ==> o in b.Queue(BidStops);
    assert forall o :: o in b.bidTrails ==> o in b.Queue(BidTrails);
  }

  /** In any run, the book is uncrossed, holds nothing filled, and the event stream rebuilds its index. */
  lemma BookIsWhatTheEventsSay(ops: seq<Op>, b: Book)
    requires Reaches(EmptyBook, ops, b)
    ensures b.askLimits != [] && b.bidLimits != [] ==> b.bidLimits[0].price < b.askLimits[0].price
    ensures forall id :: id in b.orders ==> 0 < b.orders[id].open && b.orders[id].kind != Market
    ensures Replay(b.log).Some? && Replay(b.log).value.Keys == b.orders.Keys
    ensures forall id :: id in b.orders ==> Told(Replay(b.log).value[id]) == Told(b.orders[id])
  {
    EmptyIsSteady();
    RunSteady(EmptyBook, ops, b);
    assert forall id :: id in b.orders ==> Fit(b.orders[id]);
  }
}
