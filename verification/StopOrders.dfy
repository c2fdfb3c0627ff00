/** Stop orders: where they wait, when they are fired, and in which order. */
module StopOrders {
  import opened Orders
  import opened Queues
  import opened BookModel
  import opened BookInvariants
  import opened Accounts
  import opened Runs
  import opened Outcomes
  import opened Words
  import C = Cascade

  // ------------------------------------------------------------ on arrival

  /** The stop price an order is given: a trailing one keeps its distance from the market, within 64 bits. */
  function StopPrice(o: Order, last: nat): nat {
    if o.kind != TrailingStop && o.kind != TrailingStopLimit then o.stop
    else
      match o.side
      case Ask => if o.trail < last then last - o.trail else 0
      case Bid => if last == 0 then MAX64 else Least(MAX64, last + o.trail)
  }

  predicate AtStop(side: Side, stop: nat, market: nat) {
    match side
    case Ask => market <= stop
    case Bid => stop <= market
  }

  /** What a stop order compares its price with: without any trade, the price farthest off. */
  function MarketNow(side: Side, last: nat): nat {
    match side
    case Ask => last
    case Bid => if last == 0 then MAX64 else last
  }

  function StopList(b: Book, o: Order): seq<Order> {
    match o.kind
    case TrailingStop => if o.side == Ask then b.askTrails else b.bidTrails
    case TrailingStopLimit => if o.side == Ask then b.askTrails else b.bidTrails
    case _ => if o.side == Ask then b.askStops else b.bidStops
  }

  function WithStopList(b: Book, o: Order, s: seq<Order>): Book {
    match o.kind
    case TrailingStop => if o.side == Ask then b.(askTrails := s) else b.(bidTrails := s)
    case TrailingStopLimit => if o.side == Ask then b.(askTrails := s) else b.(bidTrails := s)
    case _ => if o.side == Ask then b.(askStops := s) else b.(bidStops := s)
  }

  /** The order waits at its stop price, behind those that are no worse, and nothing else has happened. */
  ghost predicate PutToWait(b: Book, o: Order, d: Book) {
    var n := o.(stop := StopPrice(o, b.last));
    && JoinsBack(StopList(b, o), n, StopList(d, o))
    && d == WithStopList(b, o, StopList(d, o)).(orders := b.orders[o.id := n], log := b.log + [Added(o)])
  }

  /** A stop order waits exactly when the last price has not reached its stop price, and is fired at once otherwise. */
  lemma SubmitStop(b: Book, o: Order)
    requires Ready(b, o) && Waits(o)
    ensures
      if AtStop(o.side, StopPrice(o, b.last), MarketNow(o.side, b.last))
      then FiredInto(b.(log := b.log + [Added(o)]), o, Submit(b, o))
      else PutToWait(b, o, Submit(b, o))
  {
    hide Struct, Uncrossed, Fire, ToMarket, Rest, JoinsBack;
    var c := b.Emit(Added(o));
    var o' := if o.IsTrailing() then Restopped(o, b.last) else o;
    assert o' == o.(stop := StopPrice(o, b.last)) by { StopPriceIs(o, b.last); }
    TrailedStopInRange(o, b.last);
    ReadyEmit(b, o, o', Added(o));
    if AtStop(o.side, o'.stop, MarketNow(o.side, b.last)) {
      FireServes(c, o');
      SameFired(c, o', o, Fire(c, o'));
    } else {
      StopJoins(c, o');
      RestedStop(b, o, o');
    }
  }

  lemma StopPriceIs(o: Order, last: nat)
    requires o.trail <= MAX64 && last <= MAX64
    ensures StopPrice(o, last) == if o.IsTrailing() then TrailedStop(o, last) else o.stop
  {
  }

  lemma SameFired(b: Book, x: Order, y: Order, d: Book)
    requires x == y.(stop := x.stop) && FiredInto(b, x, d)
    ensures FiredInto(b, y, d)
  {
    hide ToMarket;
  }

  lemma StopJoins(b: Book, n: Order)
    requires Struct(b) && Waits(n)
    ensures JoinsBack(StopList(b, n), n, StopList(Rest(b, n), n))
  {
    hide Indexed, Insert, JoinsBack, Sorted, DistinctIds;
    var k := BinOf(n);
    assert Placed(b, k) && b.Queue(k) == StopList(b, n) && Rest(b, n).Queue(k) == StopList(Rest(b, n), n);
    InsertJoins(k, b.Queue(k), n);
  }

  lemma RestedStop(b: Book, o: Order, n: Order)
    requires Waits(o) && n == o.(stop := n.stop)
    ensures
      var c := b.(log := b.log + [Added(o)]);
      var d := Rest(c, n);
      && d == WithStopList(b, o, StopList(d, o)).(orders := b.orders[o.id := n], log := c.log)
      && StopList(c, n) == StopList(b, o) && StopList(d, n) == StopList(d, o)
  {
    hide Insert;
  }

  // ------------------------------------------------------------ with the cascade

  /** In a book at rest a stop order that is not at its price is all that is added. */
  lemma AddStopWaits(b: Book, o: Order)
    requires Steady(b) && Ready(b, o) && Waits(o) && !AtStop(o.side, StopPrice(o, b.last), MarketNow(o.side, b.last))
    ensures PutToWait(b, o, AddOrder(b, o))
  {
    hide Placed, Indexed, Uncrossed, C.Banded, Rebuilds, BookModel.Cascade, Insert, JoinsBack, StopList, WithStopList;
    var n := o.(stop := StopPrice(o, b.last));
    SubmitStop(b, o);
    SubmitSound(b, o);
    SubmitRests(b, o, n);
    NewStopQuiet(b, Submit(b, o), n);
    C.CascadeAtRest(Submit(b, o));
  }

  lemma SubmitRests(b: Book, o: Order, n: Order)
    requires Waits(o) && o.trail <= MAX64 && b.last <= MAX64
    requires n == o.(stop := StopPrice(o, b.last)) && !AtStop(o.side, n.stop, MarketNow(o.side, b.last))
    ensures 0 < b.last || MAX64 < n.stop
    ensures Submit(b, o) == Rest(b.Emit(Added(o)), n) && !Reached(n.side, n.stop, MarketPrice(b, n.side))
    ensures Submit(b, o) == Rest(b, n).(log := Submit(b, o).log)
  {
    hide Insert;
    StopPriceIs(o, b.last);
  }

  lemma NewStopQuiet(b: Book, c: Book, o: Order)
    requires C.Quiet(b) && Waits(o) && !Reached(o.side, o.stop, MarketPrice(b, o.side))
    requires c == Rest(b, o).(log := c.log)
    ensures C.Quiet(c)
  {
    hide Reached, Slot, MarketPrice;
    assert SideOf(BinOf(o)) == o.side && Key(o) == o.stop;
    assert MarketPrice(c, Ask) == MarketPrice(b, Ask) && MarketPrice(c, Bid) == MarketPrice(b, Bid) by {
      SameMarket(b, c);
    }
    InsertMembers(b.Queue(BinOf(o)), o, Slot(BinOf(o), b.Queue(BinOf(o)), o));
  }

  lemma SameMarket(b: Book, c: Book)
    requires c.last == b.last
    ensures forall side :: MarketPrice(c, side) == MarketPrice(b, side)
  {
  }

  /** Where no stop order waits, an order that trades or is fired at once has just that outcome. */
  lemma AddOrderServes(b: Book, o: Order)
    requires Ready(b, o) && StopCount(b) == 0
    ensures
      var c := b.(log := b.log + [Added(o)]);
      if !Waits(o) then ToMarket(c, o, AddOrder(b, o))
      else AtStop(o.side, StopPrice(o, b.last), MarketNow(o.side, b.last)) ==> FiredInto(c, o, AddOrder(b, o))
  {
    hide Struct, Live, Uncrossed, ToMarket, Submit, BookModel.Cascade, PutToWait;
    var d := Submit(b, o);
    if !Waits(o) {
      SubmitServes(b, o);
      ServedStops(b.(log := b.log + [Added(o)]), o, d);
      C.NoStopsCascade(d);
      ServedMarkers(b.(log := b.log + [Added(o)]), o, d, AddOrder(b, o));
    } else if AtStop(o.side, StopPrice(o, b.last), MarketNow(o.side, b.last)) {
      SubmitStop(b, o);
      var t := o.(kind := Into(o.kind), stop := 0, trail := 0);
      var c := b.(log := b.log + [Added(o)] + [Updated(t)]);
      ServedStops(c, t, d);
      C.NoStopsCascade(d);
      ServedMarkers(c, t, d, AddOrder(b, o));
    }
  }

  lemma ServedStops(b: Book, o: Order, d: Book)
    requires ToMarket(b, o, d)
    ensures StopCount(d) == StopCount(b)
  {
    hide Struct, Tape, Untaken, LastPaid, JoinsBack;
  }

  lemma ServedMarkers(b: Book, o: Order, d: Book, r: Book)
    requires ToMarket(b, o, d) && r == d.(bidMarker := r.bidMarker, askMarker := r.askMarker)
    ensures ToMarket(b, o, r)
  {
    hide Struct, Tape, Untaken, LastPaid, JoinsBack, OnOffer, Volume;
    if o.kind == OrderType.Market {
      var p: nat :| Served(b, o.(price := p), Least(o.open, Volume(Opposite(b, o.side))), false, d);
      SameStruct(d, r);
      assert Served(b, o.(price := p), Least(o.open, Volume(Opposite(b, o.side))), false, r);
    } else {
      SameStruct(d, r);
    }
  }

  lemma SameStruct(b: Book, c: Book)
    requires c.orders == b.orders && forall k :: c.Queue(k) == b.Queue(k)
    ensures Struct(b) ==> Struct(c)
  {
    if Struct(b) { StructOnly(b, c); }
  }

  // ------------------------------------------------------------ passes over a stop list

  /** The market price has reached the stop prices of the first n orders, and no others. */
  ghost predicate Reaching(side: Side, s: seq<Order>, market: nat, n: nat) {
    n <= |s| && forall i :: 0 <= i < |s| ==> (i < n <==> AtStop(side, s[i].stop, market))
  }

  /** The first n orders of a stop list are taken out and fired, one after the other. */
  ghost predicate Pass(b: Book, k: Bin, n: nat, c: Book)
    decreases n
  {
    if n == 0 then c == b
    else b.Queue(k) != [] && exists d: Book :: HeadFired(b, k, d) && Pass(d, k, n - 1, c)
  }

  /** The first order of a stop list leaves the book and is fired. */
  ghost predicate HeadFired(b: Book, k: Bin, d: Book)
    requires b.Queue(k) != []
  {
    var o, rest := b.Queue(k)[0], b.Queue(k)[1..];
    FiredInto(b.With(k, rest).(orders := b.orders - {o.id}), o, d) && d.Queue(k) == rest
  }

  /** A pass takes out just those at the head of the list that the given price has reached, whatever they trade. */
  lemma {:induction false} PassServes(b: Book, k: Bin, market: nat) returns (n: nat)
    requires Sound(b) && !LimitBin(k)
    ensures Reaching(SideOf(k), b.Queue(k), market, n) && Pass(b, k, n, Drain(b, k, market))
    ensures Drain(b, k, market).Queue(k) == b.Queue(k)[n..]
    decreases |b.Queue(k)|
  {
    hide Sound, HeadFired, FireHead, Key, Reaching, Pass;
    var s := b.Queue(k);
    if s != [] && Reached(SideOf(k), Key(s[0]), market) {
      assert Drain(b, k, market) == Drain(FireHead(b, k), k, market);
      hide Drain;
      FireHeadSound(b, k);
      HeadServed(b, k);
      var d := FireHead(b, k);
      var m := PassServes(d, k, market);
      n := m + 1;
      HeadKey(b, k, 0);
      OneFurther(SideOf(k), s, market, m);
      PassOneMore(b, k, n, d, Drain(d, k, market));
    } else {
      n := 0;
      assert s[0..] == s;
      NoPass(b, k);
      NobodyReached(b, k, market);
    }
  }

  lemma PassOneMore(b: Book, k: Bin, n: nat, d: Book, c: Book)
    requires 0 < n && b.Queue(k) != [] && HeadFired(b, k, d) && Pass(d, k, n - 1, c)
    ensures Pass(b, k, n, c)
  {
    hide HeadFired;
  }

  lemma NoPass(b: Book, k: Bin)
    ensures Pass(b, k, 0, b)
  {
  }

  lemma OneFurther(side: Side, s: seq<Order>, market: nat, m: nat)
    requires s != [] && AtStop(side, s[0].stop, market) && Reaching(side, s[1..], market, m)
    ensures Reaching(side, s, market, m + 1) && s[m + 1..] == s[1..][m..]
  {
    hide AtStop;
    assert forall i :: 0 < i < |s| ==> s[i] == s[1..][i - 1];
  }

  lemma NobodyReached(b: Book, k: Bin, market: nat)
    requires Sound(b) && !LimitBin(k)
    requires b.Queue(k) != [] ==> !Reached(SideOf(k), Key(b.Queue(k)[0]), market)
    ensures Reaching(SideOf(k), b.Queue(k), market, 0)
  {
    hide Placed, Indexed, Live, Uncrossed, Key;
    C.NoneReachedAfter(b, k, 0, market);
    forall i | 0 <= i < |b.Queue(k)| ensures !AtStop(SideOf(k), b.Queue(k)[i].stop, market) {
      HeadKey(b, k, i);
      assert b.Queue(k)[i] in b.Queue(k)[0..];
    }
  }

  lemma HeadKey(b: Book, k: Bin, i: nat)
    requires Sound(b) && !LimitBin(k) && i < |b.Queue(k)|
    ensures Key(b.Queue(k)[i]) == b.Queue(k)[i].stop
  {
    hide Placed, Indexed, Live, Uncrossed;
    StopKeys(b, k);
  }

  lemma StopKeys(b: Book, k: Bin)
    requires Struct(b) && !LimitBin(k)
    ensures forall i :: 0 <= i < |b.Queue(k)| ==> Key(b.Queue(k)[i]) == b.Queue(k)[i].stop && Waits(b.Queue(k)[i])
  {
    hide Indexed, Sorted, DistinctIds;
    assert Placed(b, k);
    forall i | 0 <= i < |b.Queue(k)| ensures Key(b.Queue(k)[i]) == b.Queue(k)[i].stop && Waits(b.Queue(k)[i]) {
      assert b.Queue(k)[i] in b.Queue(k);
    }
  }

  lemma HeadServed(b: Book, k: Bin)
    requires Sound(b) && !LimitBin(k) && b.Queue(k) != []
    ensures HeadFired(b, k, FireHead(b, k)) && FireHead(b, k).Queue(k) == b.Queue(k)[1..]
  {
    hide Placed, Indexed, Live, Uncrossed, Fire, FiredInto;
    var o := b.Queue(k)[0];
    FireHeadIsFire(b, k);
    HeadIndexed(b, k);
    StopKeys(b, k);
    DropSound(b, o);
    HeadEdits(b.Queue(k), o);
    FireServes(Drop(b, o), o);
  }

  // ------------------------------------------------------------ the order of firing

  /** The ids told of in updates, in order. */
  function UpdatedIds(log: seq<Event>): seq<nat> {
    if log == [] then []
    else
      var e := log[|log| - 1];
      UpdatedIds(log[..|log| - 1]) + if e.Updated? then [e.order.id] else []
  }

  lemma UpdatedEmit(log: seq<Event>, e: Event)
    ensures UpdatedIds(log + [e]) == UpdatedIds(log) + if e.Updated? then [e.order.id] else []
  {
    assert (log + [e])[..|log|] == log;
  }

  lemma {:induction false} UpdatedConcat(log: seq<Event>, more: seq<Event>)
    ensures UpdatedIds(log + more) == UpdatedIds(log) + UpdatedIds(more)
    decreases |more|
  {
    if more == [] {
      assert log + [] == log;
    } else {
      var m := |more| - 1;
      UpdatedConcat(log, more[..m]);
      UpdatedEmit(log + more[..m], more[m]);
      assert log + more[..m] + [more[m]] == log + more;
    }
  }

  lemma {:induction false} TapeUpdates(t: Order, s: seq<Order>, q: nat)
    requires q <= t.open
    ensures UpdatedIds(Tape(t, s, q)) == []
    decreases |s|
  {
    if s != [] && q != 0 {
      hide UpdatedIds, Tape;
      var n := Least(s[0].open, q);
      var t', m := Dealt(t, s[0].price, n), Dealt(s[0], s[0].price, n);
      FirstLots(t, s, q);
      TapeUpdates(t', s[1..], q - n);
      var told := Pair(t, t', m) + if m.open == 0 then [Deleted(m)] else [];
      UpdatedConcat(told, Tape(t', s[1..], q - n));
      PairUpdates(t, t', m);
    }
  }

  lemma PairUpdates(t: Order, t': Order, m: Order)
    ensures UpdatedIds(Pair(t, t', m) + if m.open == 0 then [Deleted(m)] else []) == []
  {
    hide UpdatedIds;
    var e := Pair(t, t', m);
    UpdatedNone();
    UpdatedEmit([], e[0]);
    UpdatedEmit([e[0]], e[1]);
    UpdatedEmit([e[0]] + [e[1]], Deleted(m));
    assert [] + [e[0]] == [e[0]];
    assert e + [Deleted(m)] == [e[0]] + [e[1]] + [Deleted(m)] && e + [] == [e[0]] + [e[1]];
  }

  lemma UpdatedNone()
    ensures UpdatedIds([]) == []
  {
  }

  lemma ServedUpdates(b: Book, t: Order, q: nat, rests: bool, d: Book)
    requires q <= t.open && Served(b, t, q, rests, d)
    ensures UpdatedIds(d.log) == UpdatedIds(b.log)
  {
    hide UpdatedIds, Tape, Struct, JoinsBack, Untaken, LastPaid, Spent;
    var s := Opposite(b, t.side);
    TapeUpdates(t, s, q);
    UpdatedConcat(b.log, Tape(t, s, q));
    UpdatedEmit(b.log + Tape(t, s, q), Deleted(Spent(t, s, q)));
    assert b.log + Tape(t, s, q) + [] == b.log + Tape(t, s, q);
  }

  /** A firing is told of in one update. */
  lemma FiredUpdates(b: Book, o: Order, d: Book)
    requires FiredInto(b, o, d)
    ensures UpdatedIds(d.log) == UpdatedIds(b.log) + [o.id]
  {
    hide UpdatedIds, Served;
    var t := o.(kind := Into(o.kind), stop := 0, trail := 0);
    var c := b.(log := b.log + [Updated(t)]);
    UpdatedEmit(b.log, Updated(t));
    if t.kind == OrderType.Market {
      var p: nat :| Served(c, t.(price := p), Least(t.open, Volume(Opposite(c, t.side))), false, d);
      ServedUpdates(c, t.(price := p), Least(t.open, Volume(Opposite(c, t.side))), false, d);
    } else {
      var q := Least(t.open, OnOffer(t.side, t.price, Opposite(c, t.side)));
      ServedUpdates(c, t, q, t.tif == Gtc && q < t.open, d);
    }
  }

  /** A pass tells of those it fires in the order of the list. */
  lemma {:induction false} PassUpdates(b: Book, k: Bin, n: nat, c: Book)
    requires n <= |b.Queue(k)| && Pass(b, k, n, c)
    ensures UpdatedIds(c.log) == UpdatedIds(b.log) + Ids(b.Queue(k)[..n])
    decreases n
  {
    hide UpdatedIds, HeadFired, Ids;
    if n == 0 {
      assert Ids(b.Queue(k)[..0]) == [];
    } else {
      var d: Book :| HeadFired(b, k, d) && Pass(d, k, n - 1, c);
      hide Pass;
      HeadUpdates(b, k, d);
      PassUpdates(d, k, n - 1, c);
      HeadIds(b.Queue(k), n);
      SameSum(UpdatedIds(b.log), [b.Queue(k)[0].id], Ids(d.Queue(k)[..n - 1]));
    }
  }

  lemma SameSum(a: seq<nat>, b: seq<nat>, c: seq<nat>)
    ensures a + b + c == a + (b + c)
  {
  }

  lemma HeadUpdates(b: Book, k: Bin, d: Book)
    requires b.Queue(k) != [] && HeadFired(b, k, d)
    ensures UpdatedIds(d.log) == UpdatedIds(b.log) + [b.Queue(k)[0].id] && d.Queue(k) == b.Queue(k)[1..]
  {
    hide UpdatedIds, FiredInto;
    var o := b.Queue(k)[0];
    FiredUpdates(b.With(k, b.Queue(k)[1..]).(orders := b.orders - {o.id}), o, d);
  }

  lemma HeadIds(s: seq<Order>, n: nat)
    requires 0 < n <= |s|
    ensures Ids(s[..n]) == [s[0].id] + Ids(s[1..][..n - 1])
  {
    assert s[..n][1..] == s[1..][..n - 1];
  }

  /**
   On the bid side, plain stops that the last price has reached go first; the price they leave decides which
   trailing stops follow.
   */
  lemma BidsInOrder(b: Book) returns (n: nat, c: Book, m: nat)
    requires Sound(b)
    ensures c.bidTrails == b.bidTrails
    ensures Reaching(Bid, b.bidStops, MarketNow(Bid, b.last), n) && Pass(b, BidStops, n, c)
    ensures Reaching(Bid, b.bidTrails, MarketNow(Bid, c.last), m) && Pass(c, BidTrails, m, ActivateBids(b))
    ensures ActivateBids(b).bidTrails == b.bidTrails[m..]
    ensures UpdatedIds(ActivateBids(b).log) ==
      UpdatedIds(b.log) + Ids(b.bidStops[..n]) + Ids(b.bidTrails[..m])
  {
    hide Placed, Indexed, Live, Uncrossed, Drain, Pass, UpdatedIds, Ids;
    n := PassServes(b, BidStops, b.LastAsk());
    c := Drain(b, BidStops, b.LastAsk());
    DrainSound(b, BidStops, b.LastAsk());
    m := PassServes(c, BidTrails, c.LastAsk());
    PassUpdates(b, BidStops, n, c);
    PassUpdates(c, BidTrails, m, ActivateBids(b));
  }

  /** The same on the ask side. */
  lemma AsksInOrder(b: Book) returns (n: nat, c: Book, m: nat)
    requires Sound(b)
    ensures c.askTrails == b.askTrails
    ensures Reaching(Ask, b.askStops, MarketNow(Ask, b.last), n) && Pass(b, AskStops, n, c)
    ensures Reaching(Ask, b.askTrails, MarketNow(Ask, c.last), m) && Pass(c, AskTrails, m, ActivateAsks(b))
    ensures ActivateAsks(b).askTrails == b.askTrails[m..]
    ensures UpdatedIds(ActivateAsks(b).log) ==
      UpdatedIds(b.log) + Ids(b.askStops[..n]) + Ids(b.askTrails[..m])
  {
    hide Placed, Indexed, Live, Uncrossed, Drain, Pass, UpdatedIds, Ids;
    n := PassServes(b, AskStops, b.LastBid());
    c := Drain(b, AskStops, b.LastBid());
    DrainSound(b, AskStops, b.LastBid());
    m := PassServes(c, AskTrails, c.LastBid());
    PassUpdates(b, AskStops, n, c);
    PassUpdates(c, AskTrails, m, ActivateAsks(b));
  }
}
