/** First come, first served: orders at one price stand in the order in which they became what they are. */
module Priority {
  import opened Orders
  import opened Queues
  import opened BookModel
  import opened BookInvariants
  import opened Accounts
  import opened LevelMaps
  import opened Rekeying
  import opened Runs
  import opened Words
  import L = Ledgers
  import Regrouping
  import C = Cascade

  /**
   When an order came: the place in the log at which it was last added, or fired and so made a limit or
   market order.
   */
  function Arrival(log: seq<Event>, id: nat): (r: nat)
    ensures r <= |log|
  {
    if log == [] then 0
    else
      var front, e := log[..|log| - 1], log[|log| - 1];
      if e.order.id == id && (e.Added? || Fires(Replay(front), e)) then |log| else Arrival(front, id)
  }

  /** Orders in the order of their arrival. */
  ghost predicate Rising(log: seq<Event>, a: seq<Order>) {
    forall i, j :: 0 <= i < j < |a| ==> Arrival(log, a[i].id) < Arrival(log, a[j].id)
  }

  predicate TrailBin(k: Bin) { k == AskTrails || k == BidTrails }

  /** At every price of the limit and stop maps, whoever came first stands first. */
  ghost predicate InTime(b: Book) {
    forall q: Place :: !TrailBin(q.bin) ==> Rising(b.log, Standing(b, q))
  }

  /** The order in hand came after all that rest. */
  ghost predicate Newest(b: Book, o: Order) {
    forall id :: id in b.orders ==> Arrival(b.log, id) < Arrival(b.log, o.id)
  }

  // ------------------------------------------------------------ logs

  ghost predicate SameArrivals(log: seq<Event>, later: seq<Event>) {
    forall id: nat :: Arrival(later, id) == Arrival(log, id)
  }

  /** Only additions and firings are arrivals. */
  lemma {:induction false} ArrivalStays(log: seq<Event>, later: seq<Event>, id: nat)
    requires log <= later && Entered(later, id) == Entered(log, id) && Fired(later, id) == Fired(log, id)
    ensures Arrival(later, id) == Arrival(log, id)
    decreases |later|
  {
    if log != later {
      var front := later[..|later| - 1];
      EnteredGrows(log, front, id);
      FiredGrows(log, front, id);
      ArrivalStays(log, front, id);
    }
  }

  lemma {:induction false} FiredGrows(log: seq<Event>, later: seq<Event>, id: nat)
    requires log <= later
    ensures Fired(log, id) <= Fired(later, id)
    decreases |later|
  {
    if log != later {
      FiredGrows(log, later[..|later| - 1], id);
    }
  }

  lemma SilentArrivals(log: seq<Event>, later: seq<Event>)
    requires Silent(log, later)
    ensures SameArrivals(log, later)
  {
    hide Entered, Fired, Cancelled, Firings, Arrival;
    forall id: nat ensures Arrival(later, id) == Arrival(log, id) {
      ArrivalStays(log, later, id);
    }
  }

  /** What has just been added or fired is newest, and nothing else has moved. */
  lemma ArrivesLast(log: seq<Event>, e: Event, id: nat)
    requires e.Added? || Fires(Replay(log), e)
    ensures Arrival(log + [e], id) == if id == e.order.id then |log| + 1 else Arrival(log, id)
  {
    assert (log + [e])[..|log|] == log;
  }

  lemma ArrivedNewest(b: Book, e: Event)
    requires InTime(b) && Struct(b) && e.order.id !in b.orders && (e.Added? || Fires(Replay(b.log), e))
    ensures InTime(b.Emit(e)) && Newest(b.Emit(e), e.order)
  {
    hide Arrival, Placed, Indexed, Fires, Standing;
    forall id ensures Arrival(b.Emit(e).log, id) == if id == e.order.id then |b.log| + 1 else Arrival(b.log, id) {
      ArrivesLast(b.log, e, id);
    }
    forall q: Place | !TrailBin(q.bin) ensures Rising(b.Emit(e).log, Standing(b.Emit(e), q)) {
      SameStanding(b, b.Emit(e), q);
      StandingIndexed(b, q);
      RisingLog(b.log, b.Emit(e).log, Standing(b, q));
    }
  }

  lemma RisingLog(log: seq<Event>, later: seq<Event>, a: seq<Order>)
    requires Rising(log, a) && forall o :: o in a ==> Arrival(later, o.id) == Arrival(log, o.id)
    ensures Rising(later, a)
  {
    hide Arrival;
    forall i, j | 0 <= i < j < |a| ensures Arrival(later, a[i].id) < Arrival(later, a[j].id) {
      assert a[i] in a && a[j] in a;
    }
  }

  lemma SameStanding(b: Book, c: Book, q: Place)
    requires c.Queue(q.bin) == b.Queue(q.bin)
    ensures Standing(c, q) == Standing(b, q)
  {
  }

  /** The limit and stop lists are the same, and so are the arrivals. */
  lemma FrameInTime(b: Book, c: Book)
    requires InTime(b) && SameArrivals(b.log, c.log) && forall k :: !TrailBin(k) ==> c.Queue(k) == b.Queue(k)
    ensures InTime(c)
  {
    hide Arrival, Standing;
    forall q: Place | !TrailBin(q.bin) ensures Rising(c.log, Standing(c, q)) {
      SameStanding(b, c, q);
      RisingLog(b.log, c.log, Standing(b, q));
    }
  }

  lemma FrameNewest(b: Book, o: Order, c: Book, o': Order)
    requires Newest(b, o) && SameArrivals(b.log, c.log) && c.orders.Keys <= b.orders.Keys && o'.id == o.id
    ensures Newest(c, o')
  {
    hide Arrival;
  }

  // ------------------------------------------------------------ single orders

  lemma RestInTime(b: Book, o: Order)
    requires Struct(b) && InTime(b) && Newest(b, o)
    ensures InTime(Rest(b, o))
  {
    hide Arrival, Standing, Placed, Indexed, Rest;
    RestStanding(b, o);
    RestLog(b, o);
    forall q: Place | !TrailBin(q.bin) ensures Rising(Rest(b, o).log, Standing(Rest(b, o), q)) {
      if q == PlaceOf(o) {
        StandingIndexed(b, q);
        RisingAppend(b.log, Standing(b, q), o);
      }
    }
  }

  lemma RestLog(b: Book, o: Order)
    ensures Rest(b, o).log == b.log
  {
  }

  lemma RisingAppend(log: seq<Event>, a: seq<Order>, o: Order)
    requires Rising(log, a) && forall x :: x in a ==> Arrival(log, x.id) < Arrival(log, o.id)
    ensures Rising(log, a + [o])
  {
    hide Arrival;
    forall i, j | 0 <= i < j < |a + [o]| ensures Arrival(log, (a + [o])[i].id) < Arrival(log, (a + [o])[j].id) {
      assert a[i] in a;
    }
  }

  lemma DropInTime(b: Book, o: Order)
    requires Struct(b) && InTime(b) && o.id in b.orders && b.orders[o.id] == o
    ensures InTime(Drop(b, o))
  {
    hide Arrival, Standing, Placed, Indexed, Drop;
    DropStanding(b, o);
    L.DropLog(b, o);
    forall q: Place | !TrailBin(q.bin) ensures Rising(Drop(b, o).log, Standing(Drop(b, o), q)) {
      RisingWithout(b.log, Standing(b, q), o.id);
    }
  }

  lemma RisingWithout(log: seq<Event>, a: seq<Order>, id: nat)
    requires Rising(log, a)
    ensures Rising(log, Without(a, id))
  {
    hide Arrival;
    var i := Find(a, id);
    if i < |a| {
      var r := a[..i] + a[i + 1..];
      assert forall j :: 0 <= j < |r| ==> r[j] == if j < i then a[j] else a[j + 1];
    }
  }

  lemma AmendInTime(b: Book, o: Order, o': Order)
    requires Struct(b) && InTime(b) && o.id in b.orders && b.orders[o.id] == o
    requires o'.id == o.id && PlaceOf(o') == PlaceOf(o)
    ensures InTime(Amend(b, o'))
  {
    hide Arrival, Standing, Placed, Indexed, Amend;
    AmendStanding(b, o, o');
    L.AmendLog(b, o');
    forall q: Place | !TrailBin(q.bin) ensures Rising(Amend(b, o').log, Standing(Amend(b, o'), q)) {
      RisingPut(b.log, Standing(b, q), o');
    }
  }

  lemma RisingPut(log: seq<Event>, a: seq<Order>, o: Order)
    requires Rising(log, a)
    ensures Rising(log, Put(a, o))
  {
    hide Arrival;
    var r := Put(a, o);
    assert forall j :: 0 <= j < |a| ==> r[j].id == a[j].id;
  }

  // ------------------------------------------------------------ matching

  lemma SettleInTime(b: Book, k: Bin, m: Order)
    requires Struct(b) && InTime(b) && b.Queue(k) != [] && m.kind != Market
    requires m.id == b.Queue(k)[0].id && BinOf(m) == k && Key(m) == Key(b.Queue(k)[0])
    ensures InTime(Settle(b, k, m)) && Settle(b, k, m).log == b.log
  {
    hide Arrival, Placed, Indexed, InTime, Amend, Drop, Key, BinOf;
    SettleAsEdits(b, k, m);
    HeadIndexed(b, k);
    AmendInTime(b, b.Queue(k)[0], m);
    AmendStruct(b, m);
    AmendedOrder(b, m);
    L.AmendLog(b, m);
    if m.IsFilled() {
      DropInTime(Amend(b, m), m);
      L.DropLog(Amend(b, m), m);
    }
  }

  lemma AmendedOrder(b: Book, o: Order)
    ensures o.id in Amend(b, o).orders && Amend(b, o).orders[o.id] == o
  {
  }

  lemma TradeInTime(b: Book, taker: Order)
    requires InHand(b, taker) && InTime(b) && Newest(b, taker) && CanTrade(b, taker)
    requires taker.kind == Limit || taker.kind == Market
    ensures InTime(Trade(b, taker).0) && Newest(Trade(b, taker).0, Trade(b, taker).1)
  {
    hide Arrival, Placed, Indexed, Live, Uncrossed, Rebuilds, InTime, Newest, Silent, Settle, BinOf, Key;
    var k := Makers(taker);
    var m := b.Queue(k)[0];
    HeadIndexed(b, k);
    MakersAreLimits(taker, m);
    var m' := m.Execute(m.price, Min(m.open, taker.open));
    ExecutedPlace(m, m.price, Min(m.open, taker.open));
    SettleInTime(b, k, m');
    TradeLogged(b.log, Trade(b, taker).1, m', Min(m.open, taker.open));
    SilentArrivals(b.log, Trade(b, taker).0.log);
    FrameInTime(Settle(b, k, m'), Trade(b, taker).0);
    TradeStruct(b, taker);
    FrameNewest(b, taker, Trade(b, taker).0, Trade(b, taker).1);
  }

  lemma ExecutedPlace(o: Order, price: nat, q: nat)
    requires q <= o.open
    ensures BinOf(o.Execute(price, q)) == BinOf(o) && Key(o.Execute(price, q)) == Key(o)
    ensures o.Execute(price, q).id == o.id && o.Execute(price, q).kind == o.kind && o.Execute(price, q).side == o.side
    ensures o.Execute(price, q).lastQuantity == q
  {
  }

  lemma {:induction false} SweepInTime(b: Book, o: Order)
    requires InHand(b, o) && InTime(b) && Newest(b, o) && (o.kind == Limit || o.kind == Market)
    ensures InTime(Sweep(b, o).0) && Newest(Sweep(b, o).0, Sweep(b, o).1)
    decreases |b.Queue(Makers(o))|, o.open
  {
    hide InHand, InTime, Newest;
    if CanTrade(b, o) {
      TradeInTime(b, o);
      TradeInHand(b, o) by { InHandSound(b, o); }
      SweepInTime(Trade(b, o).0, Trade(b, o).1);
    }
  }

  lemma InHandSound(b: Book, o: Order)
    requires InHand(b, o)
    ensures Sound(b) && Struct(b) && o.id !in b.orders
  {
  }

  lemma DeletedInTime(b: Book, e: Event)
    requires InTime(b) && (e.Deleted? || e.Executed?)
    ensures InTime(b.Emit(e))
  {
    hide Arrival, InTime, Silent;
    SilentEmit(b.log, e);
    SilentArrivals(b.log, b.log + [e]);
    FrameInTime(b, b.Emit(e));
  }

  lemma AddLimitInTime(b: Book, o: Order)
    requires InHand(b, o) && InTime(b) && Newest(b, o) && o.kind == Limit
    ensures InTime(AddLimit(b, o))
  {
    hide InHand, InTime, Newest, Sound, Sweep, Rest, CanMatch;
    SweepInTime(b, o);
    SweepAccounts(b, o);
    var (c, o') := Match(b, o);
    if !o'.IsFilled() && o.tif == Gtc {
      InHandSound(c, o');
      RestInTime(c, o');
    } else {
      DeletedInTime(c, Deleted(o'));
    }
  }

  lemma AddMarketInTime(b: Book, o: Order)
    requires InHand(b, o) && InTime(b) && Newest(b, o) && o.kind == Market
    ensures InTime(AddMarket(b, o))
  {
    hide InTime, Sound, Sweep, CanMatch, Arrival, Rebuilds;
    var p := o.(price := if o.IsAsk() then 0 else MAX64);
    PricedInHand(b, o, p);
    SweepInTime(b, p);
    var (c, o') := Match(b, p);
    DeletedInTime(c, Deleted(o'));
  }

  lemma PricedInHand(b: Book, o: Order, p: Order)
    requires InHand(b, o) && o.kind == Market && p == o.(price := p.price)
    ensures InHand(b, p)
  {
    hide Sound;
    assert Told(p) == Told(o);
  }

  // ------------------------------------------------------------ stop orders

  lemma FireInTime(b: Book, o: Order)
    requires InHand(b, o) && InTime(b) && o.kind != Limit && o.kind != Market
    ensures InTime(Fire(b, o))
  {
    hide InTime, Newest, Arrival, Placed, Indexed, Rebuilds, Conserved, AddLimit, AddMarket, Fires, TakenOff;
    var t := o.Triggered();
    UpdateReplays(b.log, b.orders[o.id := o], t);
    ArrivedNewest(b, Updated(t));
    TellHand(b, o, t);
    if t.kind == Market { AddMarketInTime(b.Emit(Updated(t)), t); } else { AddLimitInTime(b.Emit(Updated(t)), t); }
  }

  lemma AddStopInTime(b: Book, o: Order)
    requires InHand(b, o) && InTime(b) && Newest(b, o) && o.kind != Limit && o.kind != Market
    ensures InTime(AddStop(b, o))
  {
    hide InTime, Arrival, Sound, Rebuilds, Fire, Rest, TrailedStop;
    var o' := if o.IsTrailing() then Restopped(o, b.last) else o;
    StoppedInHand(b, o, o');
    if Reached(o.side, o'.stop, MarketPrice(b, o.side)) {
      FireInTime(b, o');
    } else {
      InHandSound(b, o');
      RestInTime(b, o');
    }
  }

  lemma StoppedInHand(b: Book, o: Order, p: Order)
    requires InHand(b, o) && p == o.(stop := p.stop) && (o.IsTrailing() || p == o)
    ensures InHand(b, p)
  {
    hide Sound;
    assert Told(p) == Told(o);
  }

  lemma SubmitInTime(b: Book, o: Order)
    requires Ready(b, o) && Rebuilds(b.log, b.orders) && InTime(b)
    ensures InTime(Submit(b, o))
  {
    hide InTime, Newest, Arrival, Placed, Indexed, AddLimit, AddMarket, AddStop;
    var c := b.Emit(Added(o));
    ArrivedNewest(b, Added(o));
    ReplayEmit(b.log, Added(o));
    StructOnly(b, c);
    match o.kind
    case Limit => AddLimitInTime(c, o);
    case Market => AddMarketInTime(c, o);
    case _ => AddStopInTime(c, o);
  }

  // ------------------------------------------------------------ the cascade

  /** A sound book whose events replay and whose orders stand in time. */
  ghost predicate Timed(b: Book) {
    Sound(b) && Rebuilds(b.log, b.orders) && InTime(b)
  }

  lemma FireHeadTimed(b: Book, k: Bin)
    requires Timed(b) && !LimitBin(k) && b.Queue(k) != []
    ensures Timed(FireHead(b, k))
  {
    hide InTime, Placed, Indexed, Live, Uncrossed, Rebuilds, InHand, Fire, FireHead, Drop, Conserved;
    FireHeadIsFire(b, k);
    HeadIndexed(b, k);
    HeadWaits(b, k);
    var o := b.Queue(k)[0];
    DropHand(b, o);
    DropInTime(b, o);
    FireInTime(Drop(b, o), o);
    FireHeadSound(b, k);
    FireHeadAccounts(b, k);
  }

  lemma HeadWaits(b: Book, k: Bin)
    requires Struct(b) && !LimitBin(k) && b.Queue(k) != []
    ensures b.Queue(k)[0].kind != Limit && b.Queue(k)[0].kind != Market
  {
    HeadIndexed(b, k);
  }

  lemma {:induction false} DrainTimed(b: Book, k: Bin, market: nat)
    requires Timed(b) && !LimitBin(k)
    ensures Timed(Drain(b, k, market))
    decreases |b.Queue(k)|
  {
    hide Timed, FireHead;
    if b.Queue(k) != [] && Reached(SideOf(k), Key(b.Queue(k)[0]), market) {
      FireHeadTimed(b, k);
      DrainTimed(FireHead(b, k), k, market);
    }
  }

  lemma RekeyTimed(b: Book, k: Bin)
    requires Timed(b) && TrailBin(k)
    ensures Timed(Rekey(b, k))
  {
    hide InTime, Placed, Indexed, Live, Uncrossed, Rebuilds, Rekey, Silent;
    RekeySound(b, k);
    RekeyReplays(b, k);
    SilentArrivals(b.log, Rekey(b, k).log);
    Regrouping.RekeyFrame(b, k);
    FrameInTime(b, Rekey(b, k));
  }

  lemma MarkedTimed(b: Book, c: Book)
    requires Timed(b) && c == b.(bidMarker := c.bidMarker, askMarker := c.askMarker) && Sound(c)
    ensures Timed(c)
  {
    hide InTime, Sound, Rebuilds;
    FrameInTime(b, c);
  }

  lemma UpdatesTimed(b: Book)
    requires Timed(b)
    ensures Timed(UpdateBids(b)) && Timed(UpdateAsks(b))
  {
    hide InTime, Sound, Rebuilds, Rekey;
    UpdateBidsSound(b);
    UpdateAsksSound(b);
    RekeyTimed(b, BidTrails);
    RekeyTimed(b, AskTrails);
    MarkedTimed(if b.askMarker <= b.LastAsk() || b.bidTrails == [] then b else Rekey(b, BidTrails), UpdateBids(b));
    MarkedTimed(if b.bidMarker >= b.LastBid() || b.askTrails == [] then b else Rekey(b, AskTrails), UpdateAsks(b));
  }

  lemma RoundTimed(b: Book)
    requires Timed(b)
    ensures Timed(Round(b))
  {
    hide Timed, Drain, UpdateBids, UpdateAsks;
    DrainTimed(b, BidStops, b.LastAsk());
    var a := Drain(b, BidStops, b.LastAsk());
    DrainTimed(a, BidTrails, a.LastAsk());
    UpdatesTimed(ActivateBids(b));
    var c := UpdateAsks(ActivateBids(b));
    DrainTimed(c, AskStops, c.LastBid());
    var d := Drain(c, AskStops, c.LastBid());
    DrainTimed(d, AskTrails, d.LastBid());
    UpdatesTimed(ActivateAsks(c));
  }

  lemma {:induction false} CascadeTimed(b: Book)
    requires Timed(b)
    ensures Timed(BookModel.Cascade(b))
    decreases StopCount(b)
  {
    hide Timed, Round, StopCount;
    RoundTimed(b);
    if StopCount(Round(b)) < StopCount(b) {
      CascadeTimed(Round(b));
    }
  }

  // ------------------------------------------------------------ every operation, every run

  /** A change of a resting order's quantities keeps its place. */
  lemma ReviseInTime(b: Book, o: Order, last: nat, e: Event)
    requires Struct(b) && InTime(b) && o.id in b.orders && Requoted(b.orders[o.id], o)
    requires e.order == o && !e.Added? && !Fires(Replay(b.log), e)
    ensures InTime(Revise(b, o, last, e))
  {
    hide InTime, Arrival, Placed, Indexed, Requoted, BinOf, Key, Drop, Amend, Revise, Fires;
    var p := b.orders[o.id];
    RequotedPlace(p, o);
    ReviseForm(b, o, last, e);
    L.ReviseLog(b, o, last, e);
    SilentTold(b.log, e);
    L.DropLog(b, p);
    L.AmendLog(b, o);
    if o.IsFilled() {
      DropInTime(b, p);
      ArrivalsDeleted(b.log + [e], Deleted(o));
      FrameInTime(Drop(b, p), Revise(b, o, last, e));
    } else {
      AmendInTime(b, p, o);
      FrameInTime(Amend(b, o), Revise(b, o, last, e));
    }
  }

  lemma SilentTold(log: seq<Event>, e: Event)
    requires !e.Added? && !Fires(Replay(log), e)
    ensures SameArrivals(log, log + [e])
  {
    assert (log + [e])[..|log|] == log;
  }

  lemma ArrivalsDeleted(log: seq<Event>, e: Event)
    requires e.Deleted?
    ensures SameArrivals(log, log + [e])
  {
    SilentTold(log, e);
  }

  lemma DeleteTimed(b: Book, id: nat)
    requires Timed(b) && Started(b) && id in b.orders && b.orders[id].id == id
    ensures Timed(Delete(b, id))
  {
    hide InTime, Placed, Indexed, Live, Uncrossed, Rebuilds, C.Banded, Drop;
    var o := b.orders[id];
    DeleteStarted(b, id);
    DropEmit(b, o, Deleted(o));
    DropInTime(b, o);
    DeletedInTime(Drop(b, o), Deleted(o));
  }

  lemma AddTimed(b: Book, o: Order)
    requires Timed(b) && Ready(b, o)
    ensures Timed(AddOrder(b, o))
  {
    hide InTime, Sound, Rebuilds, Submit, BookModel.Cascade, Conserved;
    SubmitSound(b, o);
    SubmitAccounts(b, o);
    SubmitInTime(b, o);
    CascadeTimed(Submit(b, o));
  }

  lemma HitTimed(b: Book, id: nat, quantity: nat, price: nat)
    requires Timed(b) && Started(b) && id in b.orders && b.orders[id].id == id && price <= MAX64
    ensures Timed(Hit(b, id, quantity, price))
  {
    hide InTime, Placed, Indexed, Live, Uncrossed, Rebuilds, C.Banded, Revise;
    HitStarted(b, id, quantity, price);
    var o := b.orders[id].Execute(price, Min(quantity, b.orders[id].open));
    ReviseInTime(b, o, price, Executed(o));
  }

  lemma ShrinkTimed(b: Book, id: nat, quantity: nat)
    requires Timed(b) && Started(b) && id in b.orders && b.orders[id].id == id && quantity <= MAX64
    ensures Timed(Shrink(b, id, quantity))
  {
    hide InTime, Placed, Indexed, Live, Uncrossed, C.Banded, Revise;
    ShrinkStarted(b, id, quantity);
    var o := b.orders[id].SetQuantity(quantity);
    assert Told(Replay(b.log).value[id]) == Told(b.orders[id]);
    ReviseInTime(b, o, b.last, Updated(o));
  }

  /** Every public operation keeps the order of arrival. */
  lemma ApplyTimed(b: Book, op: Op)
    requires Steady(b) && Allowed(b, op) && InTime(b)
    ensures InTime(Apply(b, op))
  {
    hide InTime, C.Quiet, C.Banded, Rebuilds, AddOrder, Hit, Shrink, Delete, BookModel.Cascade;
    match op
    case Add(o) => AddTimed(b, o);
    case ExecuteAtPrice(id, quantity, price) =>
      HitTimed(b, id, quantity, price);
      CascadeTimed(Hit(b, id, quantity, price));
    case ExecuteOwn(id, quantity) =>
      L.LiveFit(b, id);
      HitTimed(b, id, quantity, b.orders[id].price);
      CascadeTimed(Hit(b, id, quantity, b.orders[id].price));
    case Cancel(id, quantity) =>
      ShrinkTimed(b, id, quantity);
      CascadeTimed(Shrink(b, id, quantity));
    case Remove(id) =>
      DeleteTimed(b, id);
      CascadeTimed(Delete(b, id));
    case Replace(id, newId, newPrice) =>
      ReplaceIsDeleteThenAdd(b, id, newId, newPrice);
      DeleteTimed(b, id);
      ReplacementReady(b, id, newId, newPrice);
      AddTimed(Delete(b, id), b.orders[id].(id := newId, price := newPrice));
  }

  lemma {:induction false} RunTimed(b: Book, ops: seq<Op>, c: Book)
    requires Steady(b) && InTime(b) && Reaches(b, ops, c)
    ensures InTime(c)
    decreases |ops|
  {
    hide Steady, InTime, Allowed, Apply;
    if ops != [] {
      ApplySteady(b, ops[0]);
      ApplyTimed(b, ops[0]);
      RunTimed(Apply(b, ops[0]), ops[1..], c);
    }
  }

  /** At every return of every run, limit and stop orders at one price stand in the order of their arrival. */
  lemma FirstComeFirstServed(ops: seq<Op>, b: Book, k: Bin, i: nat, j: nat)
    requires Reaches(EmptyBook, ops, b) && !TrailBin(k)
    requires i < j < |b.Queue(k)| && Key(b.Queue(k)[i]) == Key(b.Queue(k)[j])
    ensures Arrival(b.log, b.Queue(k)[i].id) < Arrival(b.log, b.Queue(k)[j].id)
  {
    hide Steady, Arrival, Key;
    EmptyIsSteady();
    assert InTime(EmptyBook) by { NothingInTime(); }
    RunTimed(EmptyBook, ops, b);
    var s := b.Queue(k);
    assert Rising(b.log, Standing(b, Place(k, Key(s[i]))));
    RisingInList(b.log, s, Key(s[i]), i, j);
  }

  lemma NothingInTime()
    ensures InTime(EmptyBook)
  {
    NothingStands();
  }

  /** What stands in order at a price stands in that order in the whole list. */
  lemma {:induction false} RisingInList(log: seq<Event>, s: seq<Order>, p: nat, i: nat, j: nat)
    requires i < j < |s| && Key(s[i]) == p && Key(s[j]) == p && Rising(log, AtLevel(s, p))
    ensures Arrival(log, s[i].id) < Arrival(log, s[j].id)
    decreases |s|
  {
    hide Arrival, Key;
    var a := AtLevel(s[1..], p);
    if i == 0 {
      assert s[1..][j - 1] == s[j] && s[j] in a;
      var l :| 0 <= l < |a| && a[l] == s[j];
      assert AtLevel(s, p)[0] == s[0] && AtLevel(s, p)[l + 1] == s[j];
    } else {
      RisingTail(log, s, p);
      RisingInList(log, s[1..], p, i - 1, j - 1);
    }
  }

  lemma RisingTail(log: seq<Event>, s: seq<Order>, p: nat)
    requires s != [] && Rising(log, AtLevel(s, p))
    ensures Rising(log, AtLevel(s[1..], p))
  {
    hide Arrival, Key;
    var a := AtLevel(s[1..], p);
    if Key(s[0]) == p {
      assert forall i :: 0 <= i < |a| ==> AtLevel(s, p)[i + 1] == a[i];
    }
  }
}
