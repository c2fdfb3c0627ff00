/** Concrete runs, from an empty book on, in which the code does what its callers may not expect. */
module Witnesses {
  import opened Orders
  import opened Queues
  import opened BookModel
  import opened BookInvariants
  import opened Accounts
  import opened Runs
  import opened StopOrders
  import opened Changes
  import opened Words
  import C = Cascade

  // ------------------------------------------------------------ one resting ask, trailing stops, and a price

  /** A steady book with one limit order, trailing stops only, and the last price. */
  ghost predicate Scene(b: Book, m: Order, asks: seq<Order>, bids: seq<Order>, price: nat) {
    && Steady(b) && b.last == price
    && b.askLimits == [m] && b.bidLimits == [] && b.askStops == [] && b.bidStops == []
    && b.askTrails == asks && b.bidTrails == bids
  }

  lemma SceneOrders(b: Book, m: Order, asks: seq<Order>, bids: seq<Order>, price: nat)
    requires Scene(b, m, asks, bids, price)
    ensures forall o :: o in [m] + asks + bids ==> o.id in b.orders && b.orders[o.id] == o && Fit(o)
    ensures BinOf(m) == AskLimits && Struct(b)
    ensures forall o :: o in asks ==> BinOf(o) == AskTrails && Key(o) == o.stop
    ensures forall o :: o in bids ==> BinOf(o) == BidTrails && Key(o) == o.stop
  {
    hide Indexed, Sorted, DistinctIds, Uncrossed, C.Quiet, C.Banded, Rebuilds, Fit;
    assert Placed(b, AskLimits) && Placed(b, AskTrails) && Placed(b, BidTrails);
    assert b.Queue(AskLimits) == [m] && b.Queue(AskTrails) == asks && b.Queue(BidTrails) == bids;
  }

  /** A trailing stop list after a re-keying. */
  function Realigned(k: Bin, s: seq<Order>, last: nat): seq<Order> {
    InsertAll(k, [], Trailed(Visit(s), last))
  }

  /** The first order, an ask, comes to rest. */
  lemma SceneStart(m: Order)
    requires m.Admissible() && m.kind == Limit && m.side == Ask && m.tif == Gtc
    ensures Scene(AddOrder(EmptyBook, m), m, [], [], 0)
    ensures Reaches(EmptyBook, [Add(m)], AddOrder(EmptyBook, m))
  {
    EmptyIsSteady();
    OneStep(EmptyBook, Add(m));
    C.NoStopsCascade(Submit(EmptyBook, m));
    FirstRests(m);
  }

  lemma FirstRests(m: Order)
    requires m.Admissible() && m.kind == Limit && m.side == Ask && m.tif == Gtc
    ensures
      var c := Submit(EmptyBook, m);
      c == EmptyBook.(askLimits := [m], orders := map[m.id := m], log := [Added(m)])
  {
    assert Insert(AskLimits, [], m) == [m];
    assert [] + [Added(m)] == [Added(m)];
  }

  /** A trade reported on the resting ask moves the price; nothing is fired, and the stops on one side follow. */
  lemma SceneHit(b: Book, m: Order, asks: seq<Order>, bids: seq<Order>, price: nat, price': nat)
    requires Scene(b, m, asks, bids, price) && 1 < m.open && 0 < price' < MAX64
    requires price == 0 ==> asks == [] && bids == []
    requires (forall o :: o in asks ==> o.stop < price') && (forall o :: o in bids ==> price' < o.stop)
    ensures
      var asks' := if price < price' then Realigned(AskTrails, asks, price') else asks;
      var bids' := if price' < price then Realigned(BidTrails, bids, price') else bids;
      && Allowed(b, ExecuteAtPrice(m.id, 1, price'))
      && Scene(ExecuteAt(b, m.id, 1, price'), m.Execute(price', 1), asks', bids', price')
      && Reaches(b, [ExecuteAtPrice(m.id, 1, price')], ExecuteAt(b, m.id, 1, price'))
  {
    hide Placed, Indexed, Live, Uncrossed, C.Banded, Rebuilds, Hit, BookModel.Cascade, Rekey, Execute;
    SceneOrders(b, m, asks, bids, price);
    OneStep(b, ExecuteAtPrice(m.id, 1, price'));
    HitStarted(b, m.id, 1, price');
    HitOnly(b, m, price');
    var c := Hit(b, m.id, 1, price');
    MovedQuiet(c, asks, bids, price');
    AlignedAsks(c, asks, price);
    C.QuietCascade(c);
    AlignedBids(UpdateAsks(c), bids, price);
  }

  /** What the reported trade itself changes. */
  lemma HitOnly(b: Book, m: Order, price: nat)
    requires Struct(b) && b.askLimits == [m] && BinOf(m) == AskLimits
    requires m.id in b.orders && b.orders[m.id] == m && 1 < m.open
    ensures
      var c, m' := Hit(b, m.id, 1, price), m.Execute(price, 1);
      c == b.(askLimits := [m'], orders := b.orders[m.id := m'], last := price, log := b.log + [Executed(m')])
  {
    hide Placed, Indexed;
    var m' := m.Execute(price, 1);
    assert Put([m], m') == [m'];
  }

  lemma MovedQuiet(c: Book, asks: seq<Order>, bids: seq<Order>, price: nat)
    requires c.askStops == [] && c.bidStops == [] && c.askTrails == asks
    requires c.bidTrails == bids && c.last == price && price != 0
    requires forall o :: o in asks ==> Key(o) < price
    requires forall o :: o in bids ==> price < Key(o)
    ensures C.Quiet(c)
  {
  }

  lemma AlignedAsks(c: Book, asks: seq<Order>, marker: nat)
    requires Sound(c) && C.Quiet(c) && c.askTrails == asks && 0 < c.last && (asks != [] ==> c.bidMarker == marker)
    ensures C.NoneReached(UpdateAsks(c), AskTrails)
    ensures UpdateAsks(c).askTrails == if marker < c.last then Realigned(AskTrails, asks, c.last) else asks
    ensures UpdateAsks(c) == c.(askTrails := UpdateAsks(c).askTrails, orders := UpdateAsks(c).orders,
                                bidMarker := c.last, log := UpdateAsks(c).log)
  {
    hide Placed, Indexed, Live, Uncrossed;
    C.RekeyedAsksNotReached(c);
    assert Realigned(AskTrails, [], c.last) == [];
    RekeyForm(c, AskTrails);
  }

  lemma AlignedBids(c: Book, bids: seq<Order>, marker: nat)
    requires c.bidTrails == bids && 0 < c.last && (bids != [] ==> c.askMarker == marker)
    ensures UpdateBids(c).bidTrails == if c.last < marker then Realigned(BidTrails, bids, c.last) else bids
    ensures UpdateBids(c) == c.(bidTrails := UpdateBids(c).bidTrails, orders := UpdateBids(c).orders,
                                askMarker := c.last, log := UpdateBids(c).log)
  {
    assert Realigned(BidTrails, [], c.last) == [];
    RekeyForm(c, BidTrails);
  }

  lemma RekeyForm(c: Book, k: Bin)
    requires k == AskTrails || k == BidTrails
    ensures
      var r := Rekey(c, k);
      r == c.With(k, Realigned(k, c.Queue(k), c.last)).(orders := r.orders, log := r.log)
  {
    hide InsertAll, Trailed, Visit, Reindexed, Updates;
  }

  /** A trailing stop order comes to rest beside the others. */
  lemma SceneTrail(b: Book, m: Order, asks: seq<Order>, bids: seq<Order>, price: nat, o: Order)
    requires Scene(b, m, asks, bids, price) && 0 < price < MAX64
    requires o.Admissible() && o.kind == TrailingStop && 0 < o.trail
    requires o.id !in b.orders && price + o.trail < MAX64
    ensures
      var o' := Restopped(o, price);
      var asks' := if o.side == Ask then Insert(AskTrails, asks, o') else asks;
      var bids' := if o.side == Bid then Insert(BidTrails, bids, o') else bids;
      && Scene(AddOrder(b, o), m, asks', bids', price)
      && Reaches(b, [Add(o)], AddOrder(b, o))
  {
    hide Placed, Indexed, Live, Uncrossed, C.Banded, Rebuilds, BookModel.Cascade, Insert;
    OneStep(b, Add(o));
    var o', c := Restopped(o, price), Submit(b, o);
    TrailRests(b, o);
    SubmitSound(b, o);
    NewStopQuiet(b, c, o');
    C.CascadeAtRest(c);
  }

  lemma TrailRests(b: Book, o: Order)
    requires 0 < b.last && o.kind == TrailingStop && 0 < o.trail && b.last + o.trail < MAX64
    ensures !Reached(o.side, Restopped(o, b.last).stop, MarketPrice(b, o.side))
    ensures Submit(b, o) == Rest(b.Emit(Added(o)), Restopped(o, b.last))
  {
    hide Insert;
  }

  // ------------------------------------------------------------ longer runs

  /** A run that ends with the scene set. */
  ghost predicate Leads(a: Book, ops: seq<Op>, b: Book, m: Order, asks: seq<Order>, bids: seq<Order>, price: nat) {
    Reaches(a, ops, b) && Scene(b, m, asks, bids, price)
  }

  lemma Start(m: Order) returns (b: Book)
    requires m.Admissible() && m.kind == Limit && m.side == Ask && m.tif == Gtc
    ensures Leads(EmptyBook, [Add(m)], b, m, [], [], 0)
  {
    SceneStart(m);
    b := AddOrder(EmptyBook, m);
  }

  lemma ThenHit(a: Book, ops: seq<Op>, b: Book, m: Order, asks: seq<Order>, bids: seq<Order>, price: nat, price': nat)
    returns (c: Book)
    requires Leads(a, ops, b, m, asks, bids, price) && 1 < m.open && 0 < price' < MAX64
    requires price == 0 ==> asks == [] && bids == []
    requires (forall o :: o in asks ==> o.stop < price') && (forall o :: o in bids ==> price' < o.stop)
    ensures
      var asks' := if price < price' then Realigned(AskTrails, asks, price') else asks;
      var bids' := if price' < price then Realigned(BidTrails, bids, price') else bids;
      Leads(a, ops + [ExecuteAtPrice(m.id, 1, price')], c, m.Execute(price', 1), asks', bids', price')
  {
    hide Scene, Realigned, Reaches;
    SceneOwn(b, m, asks, bids, price);
    SceneHit(b, m, asks, bids, price, price');
    c := ExecuteAt(b, m.id, 1, price');
    RunOn(a, ops, b, [ExecuteAtPrice(m.id, 1, price')], c);
  }

  lemma SceneOwn(b: Book, m: Order, asks: seq<Order>, bids: seq<Order>, price: nat)
    requires Scene(b, m, asks, bids, price)
    ensures m.id in b.orders && b.orders[m.id].id == m.id
  {
    hide Scene, Fit;
    SceneOrders(b, m, asks, bids, price);
    assert m in [m] + asks + bids;
  }

  lemma ThenTrail(a: Book, ops: seq<Op>, b: Book, m: Order, asks: seq<Order>, bids: seq<Order>, price: nat, o: Order)
    returns (c: Book)
    requires Leads(a, ops, b, m, asks, bids, price) && 0 < price < MAX64 && o.Admissible() && o.kind == TrailingStop
    requires 0 < o.trail && price + o.trail < MAX64 && forall x :: x in [m] + asks + bids ==> x.id != o.id
    ensures
      var o' := Restopped(o, price);
      var asks' := if o.side == Ask then Insert(AskTrails, asks, o') else asks;
      var bids' := if o.side == Bid then Insert(BidTrails, bids, o') else bids;
      Leads(a, ops + [Add(o)], c, m, asks', bids', price)
  {
    hide Scene, Insert, Reaches;
    SceneNew(b, m, asks, bids, price, o.id);
    SceneTrail(b, m, asks, bids, price, o);
    c := AddOrder(b, o);
    RunOn(a, ops, b, [Add(o)], c);
  }

  lemma SceneHolds(b: Book, m: Order, asks: seq<Order>, bids: seq<Order>, price: nat, id: nat)
    requires Scene(b, m, asks, bids, price) && id in b.orders
    ensures b.orders[id] in [m] + asks + bids && b.orders[id].id == id
  {
    hide Live, Uncrossed, C.Quiet, C.Banded, Rebuilds, Sorted, DistinctIds;
    var o := b.orders[id];
    assert o in b.Queue(BinOf(o));
    assert o in [m] || o in asks || o in bids;
  }

  lemma SceneNew(b: Book, m: Order, asks: seq<Order>, bids: seq<Order>, price: nat, id: nat)
    requires Scene(b, m, asks, bids, price) && forall x :: x in [m] + asks + bids ==> x.id != id
    ensures id !in b.orders
  {
    hide Scene;
    if id in b.orders {
      SceneHolds(b, m, asks, bids, price, id);
    }
  }

  /** The run so far as the start of another. */
  lemma From(b: Book, m: Order, asks: seq<Order>, bids: seq<Order>, price: nat)
    requires Scene(b, m, asks, bids, price)
    ensures Leads(b, [], b, m, asks, bids, price)
  {
  }

  lemma RestsInScene(b: Book, m: Order, asks: seq<Order>, bids: seq<Order>, price: nat, o: Order)
    requires Scene(b, m, asks, bids, price) && (o in asks || o in bids)
    ensures o.id in b.orders && b.orders[o.id] == o
  {
    hide Scene, Fit;
    SceneOrders(b, m, asks, bids, price);
    assert o in [m] + asks + bids;
  }

  // ------------------------------------------------------------ trailing stops move back

  const MAKER := Order(Limit, Ask, Gtc, 1, 5000, 0, 0, 1, 100, 0, 100, 0, 0)

  function Trail(side: Side, id: nat): Order { Order(TrailingStop, side, Ioc, 1, 0, 0, 20, id, 10, 0, 10, 0, 0) }

  lemma RealignedOne(k: Bin, o: Order, last: nat)
    ensures Realigned(k, [o], last) == [Restopped(o, last)] && Insert(k, [], o) == [o]
  {
    hide Restopped;
    var n := Restopped(o, last);
    assert Lowest([o]) == 0 && [o][1..] == [];
    assert Visit([o]) == [o] + Visit([]);
    assert Trailed([o], last) == [n] + Trailed([], last);
    assert InsertAll(k, [], [n]) == InsertAll(k, Insert(k, [], n), []);
  }

  /**
   Trail 20 from price 1720 on, then 1710, then 1715: the ask stop falls from 1700 to 1695,
   although the price has never been below 1710 nor above 1720.
   */
  lemma AskTrailFalls() returns (b: Book, c: Book)
    ensures Reaches(EmptyBook, [Add(MAKER), ExecuteAtPrice(1, 1, 1720), Add(Trail(Ask, 2))], b)
    ensures Reaches(b, [ExecuteAtPrice(1, 1, 1710), ExecuteAtPrice(1, 1, 1715)], c)
    ensures 2 in b.orders && b.orders[2].stop == 1700 && 2 in c.orders && c.orders[2].stop == 1695
  {
    hide Scene, Realigned, Insert, Reaches;
    var o := Restopped(Trail(Ask, 2), 1720);
    b := Start(MAKER);
    b := ThenHit(EmptyBook, [Add(MAKER)], b, MAKER, [], [], 0, 1720);
    NothingRealigned(1720);
    var m := MAKER.Execute(1720, 1);
    b := ThenTrail(EmptyBook, [Add(MAKER)] + [ExecuteAtPrice(1, 1, 1720)], b, m, [], [], 1720, Trail(Ask, 2));
    RealignedOne(AskTrails, o, 1715);
    assert [Add(MAKER)] + [ExecuteAtPrice(1, 1, 1720)] + [Add(Trail(Ask, 2))]
        == [Add(MAKER), ExecuteAtPrice(1, 1, 1720), Add(Trail(Ask, 2))];
    RestsInScene(b, m, [o], [], 1720, o);
    From(b, m, [o], [], 1720);
    c := ThenHit(b, [], b, m, [o], [], 1720, 1710);
    NothingRealigned(1710);
    var m' := m.Execute(1710, 1);
    c := ThenHit(b, [] + [ExecuteAtPrice(1, 1, 1710)], c, m', [o], [], 1710, 1715);
    assert [] + [ExecuteAtPrice(1, 1, 1710)] + [ExecuteAtPrice(1, 1, 1715)]
        == [ExecuteAtPrice(1, 1, 1710), ExecuteAtPrice(1, 1, 1715)];
    RestsInScene(c, m'.Execute(1715, 1), [Restopped(o, 1715)], [], 1715, Restopped(o, 1715));
  }

  lemma NothingRealigned(last: nat)
    ensures Realigned(AskTrails, [], last) == [] && Realigned(BidTrails, [], last) == []
  {
  }

  /** The mirror: trail 20 from price 1720 on, then 1730, then 1725: the bid stop rises from 1740 to 1745. */
  lemma BidTrailRises() returns (b: Book, c: Book)
    ensures Reaches(EmptyBook, [Add(MAKER), ExecuteAtPrice(1, 1, 1720), Add(Trail(Bid, 2))], b)
    ensures Reaches(b, [ExecuteAtPrice(1, 1, 1730), ExecuteAtPrice(1, 1, 1725)], c)
    ensures 2 in b.orders && b.orders[2].stop == 1740 && 2 in c.orders && c.orders[2].stop == 1745
  {
    hide Scene, Realigned, Insert, Reaches;
    var o := Restopped(Trail(Bid, 2), 1720);
    b := Start(MAKER);
    b := ThenHit(EmptyBook, [Add(MAKER)], b, MAKER, [], [], 0, 1720);
    NothingRealigned(1720);
    var m := MAKER.Execute(1720, 1);
    b := ThenTrail(EmptyBook, [Add(MAKER)] + [ExecuteAtPrice(1, 1, 1720)], b, m, [], [], 1720, Trail(Bid, 2));
    RealignedOne(BidTrails, o, 1725);
    assert [Add(MAKER)] + [ExecuteAtPrice(1, 1, 1720)] + [Add(Trail(Bid, 2))]
        == [Add(MAKER), ExecuteAtPrice(1, 1, 1720), Add(Trail(Bid, 2))];
    RestsInScene(b, m, [], [o], 1720, o);
    From(b, m, [], [o], 1720);
    c := ThenHit(b, [], b, m, [], [o], 1720, 1730);
    NothingRealigned(1730);
    var m' := m.Execute(1730, 1);
    c := ThenHit(b, [] + [ExecuteAtPrice(1, 1, 1730)], c, m', [], [o], 1730, 1725);
    assert [] + [ExecuteAtPrice(1, 1, 1730)] + [ExecuteAtPrice(1, 1, 1725)]
        == [ExecuteAtPrice(1, 1, 1730), ExecuteAtPrice(1, 1, 1725)];
    RestsInScene(c, m'.Execute(1725, 1), [], [Restopped(o, 1725)], 1725, Restopped(o, 1725));
  }

  // ------------------------------------------------------------ trailing asks change places

  /** Two asks of equal trail amount at two prices meet at one price, the second one first. */
  lemma RealignedTwo(x: Order, y: Order, last: nat)
    requires x.kind == TrailingStop && y.kind == TrailingStop && x.side == Ask && y.side == Ask
    requires x.trail == y.trail && y.stop < x.stop
    ensures Realigned(AskTrails, [x, y], last) == [Restopped(y, last), Restopped(x, last)]
    ensures Insert(AskTrails, [x], y) == [x, y]
  {
    hide Visit, Trailed, InsertAll;
    VisitedTwo(x, y);
    TrailedTwo(y, x, last);
    RealignedPair(Restopped(x, last), Restopped(y, last));
  }

  /** The lower stop price is visited first. */
  lemma VisitedTwo(x: Order, y: Order)
    requires Key(y) < Key(x)
    ensures Visit([x, y]) == [y, x]
  {
    hide Key;
    LowestOfTwo(x, y);
    assert [x, y][..1] + [x, y][2..] == [x];
    assert [x][..0] + [x][1..] == [];
    assert Visit([x]) == [x] + Visit([]);
  }

  lemma LowestOfTwo(x: Order, y: Order)
    requires Key(y) < Key(x)
    ensures Lowest([x, y]) == 1 && Lowest([x]) == 0
  {
    hide Key;
    assert [x, y][1..] == [y] && [y][1..] == [] && [x][1..] == [];
  }

  lemma TrailedTwo(x: Order, y: Order, last: nat)
    ensures Trailed([x, y], last) == [Restopped(x, last), Restopped(y, last)]
  {
    hide Restopped;
    assert [x, y][1..] == [y] && [y][1..] == [];
    assert Trailed([y], last) == [Restopped(y, last)] + Trailed([], last);
    assert Trailed([x, y], last) == [Restopped(x, last)] + Trailed([y], last);
  }

  lemma RealignedPair(v: Order, w: Order)
    requires Key(v) == Key(w)
    ensures InsertAll(AskTrails, [], [w, v]) == [w, v]
  {
    hide Key;
    assert [w, v][1..] == [v] && [v][1..] == [] && [w][1..] == [];
    assert Insert(AskTrails, [], w) == [w] && Insert(AskTrails, [w], v) == [w, v];
    assert InsertAll(AskTrails, [], [w, v]) == InsertAll(AskTrails, [w], [v]);
    assert InsertAll(AskTrails, [w], [v]) == InsertAll(AskTrails, [w, v], []);
  }

  /**
   Order 2 trails from price 100 (stop 80), order 3 by the same amount from price 90 (stop 70) and
   stands behind it; when the price rises to 110 both stand at 90, order 3 first.
   */
  lemma AsksChangePlaces() returns (b: Book, c: Book)
    ensures Reaches(EmptyBook,
      [Add(MAKER), ExecuteAtPrice(1, 1, 100), Add(Trail(Ask, 2)), ExecuteAtPrice(1, 1, 90), Add(Trail(Ask, 3))], b)
    ensures Reaches(b, [ExecuteAtPrice(1, 1, 110)], c)
    ensures |b.askTrails| == 2 && b.askTrails[0].id == 2 && b.askTrails[0].stop == 80
    ensures b.askTrails[1].id == 3 && b.askTrails[1].stop == 70
    ensures |c.askTrails| == 2 && c.askTrails[0].id == 3 && c.askTrails[1].id == 2
    ensures c.askTrails[0].stop == 90 && c.askTrails[1].stop == 90
  {
    hide Realigned, Insert, Reaches, Steady;
    var x, y := Restopped(Trail(Ask, 2), 100), Restopped(Trail(Ask, 3), 90);
    var hit, trail := [ExecuteAtPrice(1, 1, 100)], [Add(Trail(Ask, 2))];
    b := Start(MAKER);
    b := ThenHit(EmptyBook, [Add(MAKER)], b, MAKER, [], [], 0, 100);
    NothingRealigned(100);
    var m := MAKER.Execute(100, 1);
    b := ThenTrail(EmptyBook, [Add(MAKER)] + hit, b, m, [], [], 100, Trail(Ask, 2));
    RealignedOne(AskTrails, x, 100);
    b := ThenHit(EmptyBook, [Add(MAKER)] + hit + trail, b, m, [x], [], 100, 90);
    NothingRealigned(90);
    m := m.Execute(90, 1);
    var before := [Add(MAKER)] + hit + trail + [ExecuteAtPrice(1, 1, 90)];
    b := ThenTrail(EmptyBook, before, b, m, [x], [], 90, Trail(Ask, 3));
    RealignedTwo(x, y, 110);
    assert [Add(MAKER)] + hit + trail + [ExecuteAtPrice(1, 1, 90)] + [Add(Trail(Ask, 3))]
        == [Add(MAKER), ExecuteAtPrice(1, 1, 100), Add(Trail(Ask, 2)), ExecuteAtPrice(1, 1, 90), Add(Trail(Ask, 3))];
    From(b, m, [x, y], [], 90);
    c := ThenHit(b, [], b, m, [x, y], [], 90, 110);
    NothingRealigned(110);
    assert [] + [ExecuteAtPrice(1, 1, 110)] == [ExecuteAtPrice(1, 1, 110)];
  }

  // ------------------------------------------------------------ cancelling too much

  const FIVE := Order(Limit, Ask, Gtc, 1, 10, 0, 0, 1, 5, 0, 5, 0, 0)

  /** Five lots rest and eight are cancelled: the order stays, with all but three of the 2^64 lots open. */
  lemma OverCancelStays() returns (c: Book)
    ensures Reaches(EmptyBook, [Add(FIVE), Cancel(1, 8)], c)
    ensures 1 in c.orders && c.orders[1].open == MAX64 - 2
  {
    hide Reaches, Steady, CancelOrder, C.Quiet;
    var b := Start(FIVE);
    SceneOwn(b, FIVE, [], [], 0);
    OnlyOrder(b, FIVE, 0);
    OneStep(b, Cancel(1, 8));
    CancelRemovesIff(b, 1, 8);
    c := CancelOrder(b, 1, 8);
    RunOn(EmptyBook, [Add(FIVE)], b, [Cancel(1, 8)], c);
    assert [Add(FIVE)] + [Cancel(1, 8)] == [Add(FIVE), Cancel(1, 8)];
  }

  /**
   Five lots rest, two are executed one by one, then one is cancelled: that one is now the order's quantity, and
   its debug check fails.
   */
  lemma CancelAfterTradesFails() returns (c: Book)
    ensures FIVE.Validates()
    ensures Reaches(EmptyBook, [Add(FIVE), ExecuteAtPrice(1, 1, 10), ExecuteAtPrice(1, 1, 10), Cancel(1, 1)], c)
    ensures 1 in c.orders && c.orders[1].quantity == 1 && c.orders[1].executed == 2 && !c.orders[1].Validates()
  {
    hide Reaches, Steady, CancelOrder, C.Quiet, Realigned;
    var hit := [ExecuteAtPrice(1, 1, 10)];
    NothingRealigned(10);
    var b := Start(FIVE);
    b := ThenHit(EmptyBook, [Add(FIVE)], b, FIVE, [], [], 0, 10);
    var m := FIVE.Execute(10, 1);
    b := ThenHit(EmptyBook, [Add(FIVE)] + hit, b, m, [], [], 10, 10);
    m := m.Execute(10, 1);
    var ops := [Add(FIVE)] + hit + hit;
    SceneOwn(b, m, [], [], 10);
    OnlyOrder(b, m, 10);
    OneStep(b, Cancel(1, 1));
    CancelRemovesIff(b, 1, 1);
    c := CancelOrder(b, 1, 1);
    RunOn(EmptyBook, ops, b, [Cancel(1, 1)], c);
    assert ops + [Cancel(1, 1)] == [Add(FIVE), ExecuteAtPrice(1, 1, 10), ExecuteAtPrice(1, 1, 10), Cancel(1, 1)];
  }

  lemma OnlyOrder(b: Book, m: Order, price: nat)
    requires Scene(b, m, [], [], price)
    ensures m.id in b.orders && b.orders[m.id] == m
  {
    hide Scene, Fit;
    SceneOrders(b, m, [], [], price);
    assert m in [m] + [] + [];
  }

  // ------------------------------------------------------------ fill or kill fills in part

  const EIGHT := Order(Limit, Bid, Fok, 1, 10, 0, 0, 2, 8, 0, 8, 0, 0)

  lemma FirstBook(m: Order)
    requires m.Admissible() && m.kind == Limit && m.side == Ask && m.tif == Gtc
    ensures AddOrder(EmptyBook, m) == Book([m], [], [], [], [], [], map[m.id := m], 0, 0, 0, [Added(m)])
  {
    FirstRests(m);
    C.NoStopsCascade(Submit(EmptyBook, m));
  }

  /** What is left of the taker, and the events told of it. */
  lemma TakerAtFive()
    ensures
      var b := Book([FIVE], [], [], [], [], [], map[1 := FIVE], 0, 0, 0, [Added(FIVE)]);
      var t, m := EIGHT.Execute(10, 5), FIVE.Execute(10, 5);
      Submit(b, EIGHT) == Book([], [], [], [], [], [], map[], 10, 0, 0,
        [Added(FIVE)] + [Added(EIGHT)] + [Executed(t)] + [Executed(m)] + [Deleted(m)] + [Deleted(t)])
  {
    var b := Book([FIVE], [], [], [], [], [], map[1 := FIVE], 0, 0, 0, [Added(FIVE)]);
    var c := b.Emit(Added(EIGHT));
    var t, m := EIGHT.Execute(10, 5), FIVE.Execute(10, 5);
    var d := Book([], [], [], [], [], [], map[], 10, 0, 0,
      [Added(FIVE)] + [Added(EIGHT)] + [Executed(t)] + [Executed(m)] + [Deleted(m)]);
    assert Executions(t, m) + [Deleted(m)] == [Executed(t)] + [Executed(m)] + [Deleted(m)];
    assert [FIVE][1..] == [] && map[1 := FIVE] - {1} == map[];
    assert c.log + ([Executed(t)] + [Executed(m)] + [Deleted(m)]) == d.log;
    assert Settle(c, AskLimits, m) == c.(askLimits := [], orders := map[]);
    assert Trade(c, EIGHT) == (d, t);
    assert Sweep(c, EIGHT) == Sweep(d, t);
    assert Sweep(d, t) == (d, t);
  }

  lemma EventsOfFive()
    ensures
      var t, m := EIGHT.Execute(10, 5), FIVE.Execute(10, 5);
      var log := [Added(FIVE)] + [Added(EIGHT)] + [Executed(t)] + [Executed(m)] + [Deleted(m)] + [Deleted(t)];
      Traded(log, Bid) == 5 && Traded(log, Ask) == 5 && Discarded(log) == 3
  {
    hide Traded, Discarded, Firings;
    var t, m := EIGHT.Execute(10, 5), FIVE.Execute(10, 5);
    NoEvents();
    assert [] + [Added(FIVE)] == [Added(FIVE)];
    LedgerEmit([], Added(FIVE));
    LedgerEmit([Added(FIVE)], Added(EIGHT));
    LedgerEmit([Added(FIVE)] + [Added(EIGHT)], Executed(t));
    LedgerEmit([Added(FIVE)] + [Added(EIGHT)] + [Executed(t)], Executed(m));
    LedgerEmit([Added(FIVE)] + [Added(EIGHT)] + [Executed(t)] + [Executed(m)], Deleted(m));
    LedgerEmit([Added(FIVE)] + [Added(EIGHT)] + [Executed(t)] + [Executed(m)] + [Deleted(m)], Deleted(t));
  }

  lemma NoEvents()
    ensures Traded([], Bid) == 0 && Traded([], Ask) == 0 && Discarded([]) == 0
  {
  }

  /** Five lots rest, eight are wanted or none: five are traded, and the other three are killed. */
  lemma FillOrKillTradesFive() returns (c: Book)
    ensures Reaches(EmptyBook, [Add(FIVE), Add(EIGHT)], c)
    ensures Traded(c.log, Bid) == 5 && Traded(c.log, Ask) == 5 && Discarded(c.log) == 3 && c.orders == map[]
  {
    hide Reaches, Steady, Allowed, Apply, AddOrder, Struct, Traded, Discarded;
    FirstBook(FIVE);
    c := ThenTaker();
    SteadyScene(AddOrder(EmptyBook, FIVE));
    var first := AddOrder(EmptyBook, FIVE);
    MayAdd(first, EIGHT);
    OneStep(first, Add(EIGHT));
    RunOn(EmptyBook, [Add(FIVE)], first, [Add(EIGHT)], c);
    assert [Add(FIVE)] + [Add(EIGHT)] == [Add(FIVE), Add(EIGHT)];
  }

  lemma ThenTaker() returns (c: Book)
    ensures c == AddOrder(AddOrder(EmptyBook, FIVE), EIGHT) && c.orders == map[]
    ensures Traded(c.log, Bid) == 5 && Traded(c.log, Ask) == 5 && Discarded(c.log) == 3
  {
    hide Submit, Traded, Discarded, BookModel.Cascade;
    FirstBook(FIVE);
    TakerAtFive();
    EventsOfFive();
    var b := Book([FIVE], [], [], [], [], [], map[1 := FIVE], 0, 0, 0, [Added(FIVE)]);
    C.NoStopsCascade(Submit(b, EIGHT));
    c := AddOrder(b, EIGHT);
  }

  lemma MayAdd(b: Book, o: Order)
    requires Struct(b) && o.Admissible() && o.id !in b.orders
    ensures Allowed(b, Add(o)) && Apply(b, Add(o)) == AddOrder(b, o)
  {
  }

  lemma SteadyScene(b: Book)
    requires b == AddOrder(EmptyBook, FIVE)
    ensures Steady(b) && Struct(b) && Reaches(EmptyBook, [Add(FIVE)], b)
  {
    hide Placed, Indexed, Live, Uncrossed, C.Quiet, C.Banded, Rebuilds, Reaches, AddOrder;
    SceneStart(FIVE);
  }
}
