/**
 What becomes of a resting order that is executed from outside, cancelled, deleted or replaced, told without the
 functions of the book; and what is told of trailing stops that are aligned anew.
 */
module Changes {
  import opened Orders
  import opened Queues
  import opened BookModel
  import opened BookInvariants
  import opened Rekeying
  import opened Accounts
  import opened Runs
  import opened Outcomes
  import opened StopOrders
  import opened Words
  import C = Cascade

  // ------------------------------------------------------------ executed from outside

  /** Right after a trade reported for an order: told, told deleted if that was all, and nothing else has happened. */
  ghost predicate Reported(b: Book, o: Order, quantity: nat, price: nat, c: Book) {
    var n := Dealt(o, price, Least(quantity, o.open));
    && c.log == b.log + [Executed(n)] + (if o.open <= quantity then [Deleted(n)] else [])
    && c.orders == (if o.open <= quantity then b.orders - {o.id} else b.orders[o.id := n])
    && c.last == price && Struct(c)
  }

  /**
   After the call: that, and what the cascade adds; no more than that where no stop order waits.
   */
  ghost predicate Executes(b: Book, id: nat, quantity: nat, price: nat, r: Book)
    requires id in b.orders
  {
    exists c: Book :: Reported(b, b.orders[id], quantity, price, c) && c.log <= r.log && (StopCount(b) == 0 ==>
      r.log == c.log && r.orders == c.orders && r.last == price && Struct(r))
  }

  lemma HitReported(b: Book, id: nat, quantity: nat, price: nat)
    requires Started(b) && id in b.orders && b.orders[id].id == id && price <= MAX64
    ensures Reported(b, b.orders[id], quantity, price, Hit(b, id, quantity, price))
    ensures StopCount(b) == 0 ==> StopCount(Hit(b, id, quantity, price)) == 0
  {
    hide Placed, Indexed, Live, Uncrossed, C.Banded, Rebuilds, Revise, Drop, Amend;
    var p := b.orders[id];
    var o := p.Execute(price, Least(quantity, p.open));
    assert 0 < p.open by { RestingFit(b, id); }
    HitStarted(b, id, quantity, price);
    ReviseForm(b, o, price, Executed(o));
    DropIndex(b, p);
    AmendIndex(b, o);
    assert b.log + [Executed(o)] + [] == b.log + [Executed(o)];
  }

  lemma DropIndex(b: Book, o: Order)
    ensures Drop(b, o).orders == b.orders - {o.id} && Drop(b, o).log == b.log && Drop(b, o).last == b.last
    ensures StopCount(b) == 0 ==> StopCount(Drop(b, o)) == 0
  {
  }

  lemma AmendIndex(b: Book, o: Order)
    ensures Amend(b, o).orders == b.orders[o.id := o] && Amend(b, o).log == b.log && Amend(b, o).last == b.last
    ensures StopCount(b) == 0 ==> StopCount(Amend(b, o)) == 0
  {
  }

  /**
   Executing at a given price: as much as is asked for and open, at that price; the order is deleted exactly when
   that is all it had.
   */
  lemma ExecuteAtOutcome(b: Book, id: nat, quantity: nat, price: nat)
    requires Steady(b) && id in b.orders && b.orders[id].id == id && price <= MAX64
    ensures Executes(b, id, quantity, price, ExecuteAt(b, id, quantity, price))
  {
    hide C.Quiet, C.Banded, Rebuilds, Struct, Live, Uncrossed, Hit, BookModel.Cascade, Reported, Quantities;
    hide Entered, Cancelled, Fired, Firings, Waiting;
    var c, r := Hit(b, id, quantity, price), ExecuteAt(b, id, quantity, price);
    HitStarted(b, id, quantity, price);
    HitReported(b, id, quantity, price);
    CascadeAccounts(c);
    ReportedLast(b, b.orders[id], quantity, price, c);
    if StopCount(b) == 0 {
      C.NoStopsCascade(c);
      SameStruct(c, r);
    }
    assert Reported(b, b.orders[id], quantity, price, c) && c.log <= r.log;
  }

  lemma ReportedLast(b: Book, o: Order, quantity: nat, price: nat, c: Book)
    requires Reported(b, o, quantity, price, c)
    ensures c.last == price && Struct(c)
  {
    hide Struct;
  }

  /** Executing without a price is executing at the order's own, which is 0 for a stop without a limit. */
  lemma ExecuteOwnOutcome(b: Book, id: nat, quantity: nat)
    requires Steady(b) && id in b.orders && b.orders[id].id == id
    ensures Executes(b, id, quantity, b.orders[id].price, Execute(b, id, quantity))
  {
    hide C.Quiet, C.Banded, Rebuilds, Struct, Uncrossed, ExecuteAt, Executes;
    RestingFit(b, id);
    ExecuteAtOutcome(b, id, quantity, b.orders[id].price);
  }

  // ------------------------------------------------------------ cancelled and deleted

  lemma RestingFit(b: Book, id: nat)
    requires Sound(b) && id in b.orders
    ensures Fit(b.orders[id])
  {
  }

  /** A change that moves no price and brings no stop order leaves the cascade nothing to do but to set the markers. */
  lemma IdleCascade(b: Book, c: Book)
    requires Aligned(b) && Sound(c) && C.Quiet(c)
    requires c.last == b.last && c.bidMarker == b.bidMarker && c.askMarker == b.askMarker
    ensures
      var r := BookModel.Cascade(c);
      r == c.(bidMarker := r.bidMarker, askMarker := r.askMarker)
  {
    hide C.Quiet, Placed, Indexed, Live, Uncrossed, BookModel.Cascade;
    if b.last == 0 {
      C.QuietAtZero(c);
      C.NoStopsCascade(c);
    } else {
      C.CascadeAtRest(c);
    }
  }

  lemma RevisePrices(b: Book, o: Order, e: Event)
    requires Struct(b) && o.id in b.orders && Requoted(b.orders[o.id], o)
    ensures
      var c := Revise(b, o, b.last, e);
      c.last == b.last && c.bidMarker == b.bidMarker && c.askMarker == b.askMarker
  {
    hide Placed, Indexed, Requoted, Revise, Put, Without;
    ReviseForm(b, o, b.last, e);
  }

  lemma ReviseQuiet(b: Book, o: Order, e: Event)
    requires Struct(b) && C.Quiet(b) && o.id in b.orders && Requoted(b.orders[o.id], o)
    ensures C.Quiet(Revise(b, o, b.last, e))
  {
    hide Placed, Indexed, Requoted, Revise, Drop, Amend, Key, Reached, MarketPrice;
    var p, c := b.orders[o.id], Revise(b, o, b.last, e);
    RevisePrices(b, o, e);
    SameMarket(b, c);
    RequotedPlace(p, o);
    ReviseForm(b, o, b.last, e);
    AmendPlaces(b, o);
    DropPlaces(b, p);
    forall k: Bin, x: Order | !LimitBin(k) && x in c.Queue(k)
      ensures !Reached(SideOf(k), Key(x), MarketPrice(c, SideOf(k)))
    {
      assert C.NoneReached(b, k);
      assert x in b.Queue(k) || (x == o && p in b.Queue(k));
    }
  }

  lemma DropPlaces(b: Book, o: Order)
    requires Struct(b) && o.id in b.orders && b.orders[o.id] == o
    ensures forall k: Bin, x: Order :: x in Drop(b, o).Queue(k) ==> x in b.Queue(k)
    ensures Drop(b, o).last == b.last && Amend(b, o).last == b.last
  {
    hide BinOf, Sorted, DistinctIds, Without;
    assert Placed(b, BinOf(o));
    WithoutSorted(BinOf(o), b.Queue(BinOf(o)), o.id);
    forall k, x | x in Drop(b, o).Queue(k) ensures x in b.Queue(k) {
      assert k != BinOf(o) ==> Drop(b, o).Queue(k) == b.Queue(k);
    }
  }

  /** The order after a cancel: the difference in 64 bits is open, and what was asked for, or had, is its quantity. */
  function Shrunk(o: Order, quantity: nat): Order
    requires quantity <= MAX64
  {
    o.(quantity := Least(quantity, o.open),
       open := if quantity <= o.open then o.open - quantity else o.open + 0x1_0000_0000_0000_0000 - quantity)
  }

  lemma ShrunkIs(o: Order, quantity: nat)
    requires o.open <= MAX64 && quantity <= MAX64
    ensures o.SetQuantity(quantity) == Shrunk(o, quantity)
  {
    if o.open < quantity {
      assert (o.open - quantity) % WORD64 == o.open - quantity + WORD64;
    }
  }

  /** A cancel changes its order as said and nothing else, and deletes it exactly when nothing is left open. */
  lemma CancelOutcome(b: Book, id: nat, quantity: nat)
    requires Steady(b) && id in b.orders && b.orders[id].id == id && quantity <= MAX64
    ensures
      var n, r := Shrunk(b.orders[id], quantity), CancelOrder(b, id, quantity);
      && r.log == b.log + [Updated(n)] + (if n.open == 0 then [Deleted(n)] else [])
      && r.orders == (if n.open == 0 then b.orders - {id} else b.orders[id := n])
      && r.last == b.last
  {
    hide C.Quiet, C.Banded, Placed, Indexed, Uncrossed, Rebuilds, Revise, BookModel.Cascade, Drop, Amend, Shrunk;
    var p := b.orders[id];
    var o := p.SetQuantity(quantity);
    RestingFit(b, id);
    ShrunkIs(p, quantity);
    ReviseForm(b, o, b.last, Updated(o));
    DropIndex(b, p);
    AmendIndex(b, o);
    ShrinkStarted(b, id, quantity);
    RevisePrices(b, o, Updated(o));
    ReviseQuiet(b, o, Updated(o));
    IdleCascade(b, Shrink(b, id, quantity));
    assert b.log + [Updated(o)] + [] == b.log + [Updated(o)];
  }

  /** A cancel removes its order exactly when it asks for all that is open; asking for more does not. */
  lemma CancelRemovesIff(b: Book, id: nat, quantity: nat)
    requires Steady(b) && id in b.orders && b.orders[id].id == id && quantity <= MAX64
    ensures id !in CancelOrder(b, id, quantity).orders <==> quantity == b.orders[id].open
    ensures id in CancelOrder(b, id, quantity).orders ==>
      CancelOrder(b, id, quantity).orders[id] == b.orders[id].SetQuantity(quantity)
  {
    hide Placed, Indexed, C.Quiet, C.Banded, Rebuilds, Uncrossed, CancelOrder;
    RestingFit(b, id);
    ShrunkIs(b.orders[id], quantity);
    CancelOutcome(b, id, quantity);
  }

  /** Deleting an order deletes it, tells of it, and does nothing else. */
  lemma DeleteOutcome(b: Book, id: nat)
    requires Steady(b) && id in b.orders
    ensures
      var r := DeleteOrder(b, id);
      && r.orders == b.orders - {id} && r.log == b.log + [Deleted(b.orders[id])] && r.last == b.last
  {
    hide C.Quiet, C.Banded, Placed, Live, Uncrossed, Rebuilds, BookModel.Cascade, Drop;
    var o := b.orders[id];
    DeleteSteady(b, id);
    DropIndex(b.Emit(Deleted(o)), o);
    DropMarkers(b.Emit(Deleted(o)), o);
    IdleCascade(b, Delete(b, id));
  }

  lemma DropMarkers(b: Book, o: Order)
    ensures Drop(b, o).bidMarker == b.bidMarker && Drop(b, o).askMarker == b.askMarker
  {
  }

  /** A replacement is told of as a deletion and an addition, the same order by the new id and price. */
  lemma ReplaceOutcome(b: Book, id: nat, newId: nat, newPrice: nat)
    requires Steady(b) && Allowed(b, Replace(id, newId, newPrice))
    ensures
      var o, r := b.orders[id], ReplaceOrder(b, id, newId, newPrice);
      && b.log + [Deleted(o)] + [Added(o.(id := newId, price := newPrice))] <= r.log
      && (newId != id ==> id !in r.orders)
  {
    hide C.Quiet, C.Banded, Placed, Live, Uncrossed, Rebuilds, BookModel.Cascade, Drop, Submit, Quantities;
    hide Entered, Cancelled, Fired, Firings, Waiting;
    var o := b.orders[id];
    var n, d := o.(id := newId, price := newPrice), Delete(b, id);
    ReplaceIsDeleteThenAdd(b, id, newId, newPrice);
    DeleteSteady(b, id);
    ReplacementReady(b, id, newId, newPrice);
    DropIndex(b.Emit(Deleted(o)), o);
    SubmitAccounts(d, n);
    SubmitSound(d, n);
    CascadeAccounts(Submit(d, n));
    AddSteady(d, n);
  }

  // ------------------------------------------------------------ what is told of aligned stops

  /** What the last update about an id says. */
  function LastUpdate(log: seq<Event>, id: nat): Option<Order> {
    if log == [] then None
    else
      var e := log[|log| - 1];
      if e.Updated? && e.order.id == id then Some(e.order) else LastUpdate(log[..|log| - 1], id)
  }

  lemma LastUpdateEmit(log: seq<Event>, e: Event, id: nat)
    ensures LastUpdate(log + [e], id) == if e.Updated? && e.order.id == id then Some(e.order) else LastUpdate(log, id)
  {
    assert (log + [e])[..|log|] == log;
  }

  lemma {:induction false} UpdatesTell(log: seq<Event>, news: seq<Order>, id: nat)
    requires DistinctIds(news)
    ensures forall n :: n in news ==> LastUpdate(log + Updates(news), n.id) == Some(n)
    ensures (forall n :: n in news ==> n.id != id) ==> LastUpdate(log + Updates(news), id) == LastUpdate(log, id)
    decreases |news|
  {
    if news == [] {
      assert log + [] == log;
    } else {
      hide LastUpdate;
      var n, rest := news[0], news[1..];
      var told := log + [Updated(n)];
      assert log + ([Updated(n)] + Updates(rest)) == told + Updates(rest);
      assert DistinctIds(rest) && forall x :: x in rest ==> x.id != n.id;
      UpdatesTell(told, rest, n.id);
      UpdatesTell(told, rest, id);
      LastUpdateEmit(log, Updated(n), n.id);
      LastUpdateEmit(log, Updated(n), id);
      assert forall x :: x in news ==> x == n || x in rest;
    }
  }

  /** The last update about each re-keyed order carries it as it now stands, new stop price included. */
  lemma RekeyTells(b: Book, k: Bin)
    requires Struct(b) && !LimitBin(k)
    ensures
      var r := Rekey(b, k);
      forall n :: n in r.Queue(k) ==>
        LastUpdate(r.log, n.id) == Some(n) && n.stop == TrailedStop(n, b.last) && n.id in b.orders
        && n == b.orders[n.id].(stop := n.stop)
  {
    hide Indexed, Visit, Trailed, InsertAll, Reindexed, Updates, LastUpdate, TrailedStop;
    var s := b.Queue(k);
    var news := Trailed(Visit(s), b.last);
    assert Placed(b, k);
    NewsContents(b.orders, s, b.last);
    FreshList(k, news);
    UpdatesTell(b.log, news, 0);
    SameTrail(b.last);
  }

  lemma SameTrail(last: nat)
    ensures forall o :: TrailedStop(Restopped(o, last), last) == TrailedStop(o, last)
  {
  }

  /** Each of these orders stands where the last price puts it, and its last update says so. */
  ghost predicate Aligning(b: Book, s: seq<Order>, log: seq<Event>) {
    forall n :: n in s ==>
      LastUpdate(log, n.id) == Some(n) && n.stop == StopPrice(n, b.last)
      && n.id in b.orders && n == b.orders[n.id].(stop := n.stop)
  }

  /**
   Trailing asks are aligned anew exactly when the last price has risen above the marker, which then stands at the
   last price; otherwise nothing but the marker changes.
   */
  lemma AsksAligned(b: Book)
    requires Sound(b)
    ensures
      var r := UpdateAsks(b);
      && r.bidMarker == b.last && |r.askTrails| == |b.askTrails|
      && if b.bidMarker < b.last then Aligning(b, r.askTrails, r.log) else r == b.(bidMarker := b.last)
  {
    hide Indexed, Uncrossed, Rekey, Aligning;
    if b.bidMarker < b.last {
      RekeyTells(b, AskTrails);
      NewsAligned(b, AskTrails);
      if b.askTrails == [] {
        NoneAligned(b);
      }
    }
  }

  /** The mirror: trailing bids are aligned anew exactly when the price has fallen below the marker. */
  lemma BidsAligned(b: Book)
    requires Sound(b)
    ensures
      var r := UpdateBids(b);
      && r.askMarker == b.last && |r.bidTrails| == |b.bidTrails|
      && if MarketNow(Bid, b.last) < b.askMarker then Aligning(b, r.bidTrails, r.log) else r == b.(askMarker := b.last)
  {
    hide Indexed, Uncrossed, Rekey, Aligning;
    if MarketNow(Bid, b.last) < b.askMarker {
      RekeyTells(b, BidTrails);
      NewsAligned(b, BidTrails);
      if b.bidTrails == [] {
        NoneAligned(b);
      }
    }
  }

  lemma NoneAligned(b: Book)
    ensures Aligning(b, [], b.log)
  {
  }

  lemma NewsAligned(b: Book, k: Bin)
    requires Sound(b) && (k == AskTrails || k == BidTrails)
    ensures Aligning(b, Rekey(b, k).Queue(k), Rekey(b, k).log)
  {
    hide Indexed, Uncrossed, Rekey, LastUpdate, TrailedStop;
    var r := Rekey(b, k);
    RekeyTells(b, k);
    RekeySound(b, k);
    forall n | n in r.Queue(k) ensures n.stop == StopPrice(n, b.last) {
      assert Placed(r, k) && Fit(r.orders[n.id]);
      StopPriceIs(n, b.last);
    }
  }

  // ------------------------------------------------------------ one round of the cascade

  lemma {:induction false} UpdatesIds(news: seq<Order>)
    ensures UpdatedIds(Updates(news)) == Ids(news)
  {
    if news != [] {
      UpdatesIds(news[1..]);
      UpdatedConcat([Updated(news[0])], Updates(news[1..]));
      UpdatedNone();
      UpdatedEmit([], Updated(news[0]));
      assert [] + [Updated(news[0])] == [Updated(news[0])];
    }
  }

  /** A re-keying tells of the orders it moves, and of no other. */
  lemma RekeyUpdates(b: Book, k: Bin) returns (moved: seq<nat>)
    requires Struct(b) && !LimitBin(k)
    ensures UpdatedIds(Rekey(b, k).log) == UpdatedIds(b.log) + moved
    ensures forall id :: id in moved <==> id in Ids(b.Queue(k))
  {
    hide Indexed, Visit, Trailed, InsertAll, Reindexed, Updates, UpdatedIds, Ids;
    var s := b.Queue(k);
    var v := Visit(s);
    var news := Trailed(v, b.last);
    moved := Ids(news);
    UpdatesIds(news);
    UpdatedConcat(b.log, Updates(news));
    VisitSameOrders(s);
    forall id ensures id in moved <==> id in Ids(s) {
      SameIds(s, v, news, id);
    }
  }

  lemma SameIds(s: seq<Order>, v: seq<Order>, news: seq<Order>, id: nat)
    requires |v| == |news| == |s| && (forall o :: o in v <==> o in s)
    requires forall i :: 0 <= i < |v| ==> news[i].id == v[i].id
    ensures id in Ids(news) <==> id in Ids(s)
  {
    hide Ids;
    if id in Ids(news) {
      var i :| 0 <= i < |news| && Ids(news)[i] == id;
      assert v[i] in s;
      var j :| 0 <= j < |s| && s[j] == v[i];
      assert Ids(s)[j] == id;
    }
    if id in Ids(s) {
      var j :| 0 <= j < |s| && Ids(s)[j] == id;
      assert s[j] in v;
      var i :| 0 <= i < |v| && v[i] == s[j];
      assert Ids(news)[i] == id;
    }
  }

  /**
   A round tells of the bids it fires, plain ones first; of the trailing asks it aligns; of the asks it fires, plain
   ones first; and of the trailing bids it aligns.
   */
  lemma RoundInOrder(b: Book)
    returns (n: nat, m: nat, asks: seq<nat>, n': nat, trails: seq<Order>, m': nat, bids: seq<nat>)
    requires Sound(b)
    ensures n <= |b.bidStops| && m <= |b.bidTrails| && n' <= |b.askStops| && m' <= |trails|
    ensures UpdatedIds(Round(b).log) == UpdatedIds(b.log)
      + (Ids(b.bidStops[..n]) + Ids(b.bidTrails[..m])) + asks
      + (Ids(b.askStops[..n']) + Ids(trails[..m'])) + bids
    ensures |trails| == |b.askTrails| && (forall id :: id in asks ==> id in Ids(b.askTrails))
    ensures forall id :: id in bids ==> id in Ids(b.bidTrails[m..])
  {
    hide Sound, Pass, UpdatedIds, Ids, AtStop, ActivateBids, ActivateAsks, UpdateAsks, UpdateBids;
    var c: Book;
    n, c, m := BidsInOrder(b);
    var b1 := ActivateBids(b);
    ActivateSound(b);
    ActivateKeeps(b);
    asks := AskUpdates(b1);
    var b2 := UpdateAsks(b1);
    UpdateAsksSound(b1);
    UpdatesKeep(b1);
    n', c, m' := AsksInOrder(b2);
    trails := b2.askTrails;
    var b3 := ActivateAsks(b2);
    ActivateSound(b2);
    ActivateKeeps(b2);
    bids := BidUpdates(b3);
    assert Round(b) == UpdateBids(b3);
  }

  lemma ActivateKeeps(b: Book)
    ensures ActivateBids(b).askStops == b.askStops && ActivateBids(b).askTrails == b.askTrails
    ensures ActivateAsks(b).bidStops == b.bidStops && ActivateAsks(b).bidTrails == b.bidTrails
  {
    hide Drain;
  }

  lemma UpdatesKeep(b: Book)
    ensures UpdateAsks(b).askStops == b.askStops && UpdateAsks(b).bidTrails == b.bidTrails
    ensures |UpdateAsks(b).askTrails| == |b.askTrails|
  {
    hide Rekey;
  }

  lemma AskUpdates(b: Book) returns (moved: seq<nat>)
    requires Sound(b)
    ensures UpdatedIds(UpdateAsks(b).log) == UpdatedIds(b.log) + moved
    ensures forall id :: id in moved ==> id in Ids(b.askTrails)
  {
    hide Placed, Indexed, Live, Uncrossed, Rekey, UpdatedIds, Ids;
    moved := [];
    if b.bidMarker < b.LastBid() && b.askTrails != [] {
      moved := RekeyUpdates(b, AskTrails);
    }
  }

  lemma BidUpdates(b: Book) returns (moved: seq<nat>)
    requires Sound(b)
    ensures UpdatedIds(UpdateBids(b).log) == UpdatedIds(b.log) + moved
    ensures forall id :: id in moved ==> id in Ids(b.bidTrails)
  {
    hide Placed, Indexed, Live, Uncrossed, Rekey, UpdatedIds, Ids;
    moved := [];
    if b.LastAsk() < b.askMarker && b.bidTrails != [] {
      moved := RekeyUpdates(b, BidTrails);
    }
  }
}
