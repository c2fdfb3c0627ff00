/**
 What each operation of the order book computes, on flat priority lists.
 The class in MapOrderBook.dfy is proved to compute exactly this.
 */
module BookModel {
  import opened Orders
  import opened Queues
  import opened Words

  datatype Book = Book(
    askLimits: seq<Order>, bidLimits: seq<Order>,
    askStops: seq<Order>, bidStops: seq<Order>,
    askTrails: seq<Order>, bidTrails: seq<Order>,
    orders: map<nat, Order>,       // the index by order id
    last: nat,                     // last traded price, 0 before any trade
    bidMarker: nat, askMarker: nat, // prices the trailing stops were last aligned to
    log: seq<Event>)
  {
    function Queue(k: Bin): seq<Order> {
      match k
      case AskLimits => askLimits
      case BidLimits => bidLimits
      case AskStops => askStops
      case BidStops => bidStops
      case AskTrails => askTrails
      case BidTrails => bidTrails
    }

    function With(k: Bin, s: seq<Order>): (b: Book)
      ensures forall j :: b.Queue(j) == if j == k then s else Queue(j)
      ensures b.orders == orders && b.last == last && b.log == log
      ensures b.bidMarker == bidMarker && b.askMarker == askMarker
    {
      match k
      case AskLimits => this.(askLimits := s)
      case BidLimits => this.(bidLimits := s)
      case AskStops => this.(askStops := s)
      case BidStops => this.(bidStops := s)
      case AskTrails => this.(askTrails := s)
      case BidTrails => this.(bidTrails := s)
    }

    function Emit(e: Event): Book { this.(log := log + [e]) }

    function LastAsk(): nat { if last == 0 then MAX64 else last }

    function LastBid(): nat { last }
  }

  const EmptyBook := Book([], [], [], [], [], [], map[], 0, 0, MAX64, [])

  /** Nothing but the two limit lists, the index, the last price and the log may differ. */
  predicate SameStops(b: Book, c: Book) {
    && b.askStops == c.askStops && b.bidStops == c.bidStops
    && b.askTrails == c.askTrails && b.bidTrails == c.bidTrails
    && b.bidMarker == c.bidMarker && b.askMarker == c.askMarker
  }

  // ------------------------------------------------------------ single orders

  /** Puts an order to rest at the back of its level. */
  function Rest(b: Book, o: Order): Book {
    b.With(BinOf(o), Insert(BinOf(o), b.Queue(BinOf(o)), o)).(orders := b.orders[o.id := o])
  }

  /** Takes an order out of the book. */
  function Drop(b: Book, o: Order): Book {
    b.With(BinOf(o), Without(b.Queue(BinOf(o)), o.id)).(orders := b.orders - {o.id})
  }

  /** Changes a resting order where it stands. */
  function Amend(b: Book, o: Order): Book {
    b.With(BinOf(o), Put(b.Queue(BinOf(o)), o)).(orders := b.orders[o.id := o])
  }

  function Delete(b: Book, id: nat): Book
    requires id in b.orders
  {
    Drop(b.Emit(Deleted(b.orders[id])), b.orders[id])
  }

  // ------------------------------------------------------------ matching

  /** The list a taker is matched against. */
  function Makers(taker: Order): Bin { if taker.IsAsk() then BidLimits else AskLimits }

  predicate Crosses(taker: Order, price: nat) {
    if taker.IsAsk() then price >= taker.price else price <= taker.price
  }

  function Executions(taker: Order, maker: Order): seq<Event> {
    if taker.IsAsk() then [Executed(maker), Executed(taker)] else [Executed(taker), Executed(maker)]
  }

  /** A traded maker replaces itself at the head of its list, or leaves once filled. */
  function Settle(b: Book, k: Bin, maker: Order): (r: Book)
    requires b.Queue(k) != []
    ensures LimitBin(k) ==> SameStops(b, r)
  {
    if maker.IsFilled() then
      b.With(k, b.Queue(k)[1..]).(orders := b.orders - {maker.id})
    else
      b.With(k, [maker] + b.Queue(k)[1..]).(orders := b.orders[maker.id := maker])
  }

  /** One trade with the first maker, at the maker's price. */
  function Trade(b: Book, taker: Order): (r: (Book, Order))
    requires b.Queue(Makers(taker)) != []
    ensures SameStops(b, r.0)
  {
    var maker := b.Queue(Makers(taker))[0];
    var price, q := maker.price, Min(maker.open, taker.open);
    var maker', taker' := maker.Execute(price, q), taker.Execute(price, q);
    var events := Executions(taker', maker') + (if maker'.IsFilled() then [Deleted(maker')] else []);
    (Settle(b, Makers(taker), maker').(last := price, log := b.log + events), taker')
  }

  predicate CanTrade(b: Book, taker: Order) {
    var makers := b.Queue(Makers(taker));
    makers != [] && Crosses(taker, makers[0].price) && !taker.IsFilled()
  }

  function Sweep(b: Book, taker: Order): (r: (Book, Order))
    ensures SameStops(b, r.0)
    decreases |b.Queue(Makers(taker))|, taker.open
  {
    if CanTrade(b, taker) then
      var (b', taker') := Trade(b, taker);
      Sweep(b', taker')
    else
      (b, taker)
  }

  /** The fill-or-kill test as the code has it: some level crosses. */
  predicate CanMatch(b: Book, o: Order) {
    var makers := b.Queue(Makers(o));
    makers != [] && Crosses(o, makers[0].price)
  }

  function Match(b: Book, o: Order): (r: (Book, Order))
    ensures SameStops(b, r.0)
  {
    if o.tif == Fok && !CanMatch(b, o) then (b, o) else Sweep(b, o)
  }

  function AddLimit(b: Book, o: Order): (r: Book)
    ensures o.kind == Limit ==> SameStops(b, r)
  {
    var (b', o') := Match(b, o);
    if !o'.IsFilled() && o.tif == Gtc then
      assert o'.kind == o.kind by { SweepKeepsTaker(b, o); }
      Rest(b', o')
    else b'.Emit(Deleted(o'))
  }

  function AddMarket(b: Book, o: Order): (r: Book)
    ensures SameStops(b, r)
  {
    var (b', o') := Match(b, o.(price := if o.IsAsk() then 0 else MAX64));
    b'.Emit(Deleted(o'))
  }

  /** What an order keeps while it is matched. */
  predicate SameTerms(o: Order, o': Order) {
    o' == o.(executed := o'.executed, open := o'.open, lastPrice := o'.lastPrice, lastQuantity := o'.lastQuantity)
  }

  lemma SweepKeepsTaker(b: Book, o: Order)
    ensures SameTerms(o, Sweep(b, o).1)
    ensures Sweep(b, o).1.open <= o.open
    decreases |b.Queue(Makers(o))|, o.open
  {
    if CanTrade(b, o) {
      var (b', o') := Trade(b, o);
      SweepKeepsTaker(b', o');
    }
  }

  // ------------------------------------------------------------ stop orders

  /** A trailing stop price: the market price less or plus the trail amount, saturating. */
  function TrailedStop(o: Order, last: nat): nat {
    if o.IsAsk() then
      if last > o.trail then last - o.trail else 0
    else
      var market := if last == 0 then MAX64 else last;
      if market < MAX64 - o.trail then market + o.trail else MAX64
  }

  /** Turns a stop order into the order it stands for and submits that. */
  function Fire(b: Book, o: Order): (r: Book)
    ensures SameStops(b, r)
  {
    var t := o.Triggered();
    var b' := b.Emit(Updated(t));
    if t.kind == Market then AddMarket(b', t) else AddLimit(b', t)
  }

  /** A stop price the market price has reached. */
  predicate Reached(side: Side, stop: nat, market: nat) {
    if side == Ask then stop >= market else stop <= market
  }

  function MarketPrice(b: Book, side: Side): nat {
    if side == Ask then b.LastBid() else b.LastAsk()
  }

  function AddStop(b: Book, o: Order): Book {
    var o' := if o.IsTrailing() then Restopped(o, b.last) else o;
    if Reached(o.side, o'.stop, MarketPrice(b, o.side)) then Fire(b, o') else Rest(b, o')
  }

  /** Takes the first order out of a stop list and fires it. */
  function FireHead(b: Book, k: Bin): (r: Book)
    requires b.Queue(k) != []
    requires !LimitBin(k)
    ensures SameStops(b.With(k, b.Queue(k)[1..]), r)
  {
    var o := b.Queue(k)[0];
    Fire(b.With(k, b.Queue(k)[1..]).(orders := b.orders - {o.id}), o)
  }

  /** Fires the orders whose stop price the given market price has reached. */
  function Drain(b: Book, k: Bin, market: nat): (r: Book)
    requires !LimitBin(k)
    ensures SameStops(b.With(k, r.Queue(k)), r)
    ensures |r.Queue(k)| <= |b.Queue(k)|
    decreases |b.Queue(k)|
  {
    if b.Queue(k) != [] && Reached(SideOf(k), Key(b.Queue(k)[0]), market) then
      Drain(FireHead(b, k), k, market)
    else b
  }

  function StopCount(b: Book): nat {
    |b.askStops| + |b.bidStops| + |b.askTrails| + |b.bidTrails|
  }

  function ActivateBids(b: Book): (r: Book)
    ensures StopCount(r) <= StopCount(b)
  {
    var b' := Drain(b, BidStops, b.LastAsk());
    Drain(b', BidTrails, b'.LastAsk())
  }

  function ActivateAsks(b: Book): (r: Book)
    ensures StopCount(r) <= StopCount(b)
  {
    var b' := Drain(b, AskStops, b.LastBid());
    Drain(b', AskTrails, b'.LastBid())
  }

  // ------------------------------------------------------------ trailing stops

  /** The first order at the lowest price: where `begin()` leads. */
  function Lowest(s: seq<Order>): (r: nat)
    requires s != []
    ensures r < |s|
    ensures forall i :: 0 <= i < |s| ==> Key(s[r]) <= Key(s[i])
    ensures forall i :: 0 <= i < r ==> Key(s[r]) < Key(s[i])
  {
    if |s| == 1 then 0
    else
      var j := 1 + Lowest(s[1..]);
      if Key(s[0]) <= Key(s[j]) then 0 else j
  }

  /** Levels from the lowest price up, each emptied from its front. */
  function Visit(s: seq<Order>): (r: seq<Order>)
    ensures |r| == |s|
  {
    if s == [] then []
    else
      var i := Lowest(s);
      [s[i]] + Visit(s[..i] + s[i + 1..])
  }

  function Restopped(o: Order, last: nat): Order {
    o.(stop := TrailedStop(o, last))
  }

  /** The visited orders at their new stop prices. */
  function Trailed(s: seq<Order>, last: nat): (r: seq<Order>)
    ensures |r| == |s|
    ensures forall i :: 0 <= i < |s| ==> r[i] == Restopped(s[i], last)
  {
    if s == [] then [] else [Restopped(s[0], last)] + Trailed(s[1..], last)
  }

  function InsertAll(k: Bin, s: seq<Order>, news: seq<Order>): (r: seq<Order>)
    ensures |r| == |s| + |news|
    decreases |news|
  {
    if news == [] then s else InsertAll(k, Insert(k, s, news[0]), news[1..])
  }

  function Reindexed(m: map<nat, Order>, news: seq<Order>): map<nat, Order>
    decreases |news|
  {
    if news == [] then m else Reindexed(m[news[0].id := news[0]], news[1..])
  }

  function Updates(news: seq<Order>): seq<Event> {
    if news == [] then [] else [Updated(news[0])] + Updates(news[1..])
  }

  function Rekey(b: Book, k: Bin): (r: Book)
    requires !LimitBin(k)
    ensures SameStops(b.With(k, r.Queue(k)), r) && |r.Queue(k)| == |b.Queue(k)|
    ensures r.askLimits == b.askLimits && r.bidLimits == b.bidLimits && r.last == b.last
    ensures StopCount(r) == StopCount(b)
  {
    var news := Trailed(Visit(b.Queue(k)), b.last);
    b.With(k, InsertAll(k, [], news)).(orders := Reindexed(b.orders, news), log := b.log + Updates(news))
  }

  function UpdateBids(b: Book): (r: Book)
    ensures StopCount(r) == StopCount(b)
  {
    var b' := if b.askMarker <= b.LastAsk() || b.bidTrails == [] then b else Rekey(b, BidTrails);
    b'.(askMarker := b.last)
  }

  function UpdateAsks(b: Book): (r: Book)
    ensures StopCount(r) == StopCount(b)
  {
    var b' := if b.bidMarker >= b.LastBid() || b.askTrails == [] then b else Rekey(b, AskTrails);
    b'.(bidMarker := b.last)
  }

  // ------------------------------------------------------------ the cascade

  /** One round of activation; it fired something exactly when fewer stop orders rest. */
  function Round(b: Book): (r: Book)
    ensures StopCount(r) <= StopCount(b)
  {
    UpdateBids(ActivateAsks(UpdateAsks(ActivateBids(b))))
  }

  function Cascade(b: Book): Book
    decreases StopCount(b)
  {
    var b' := Round(b);
    if StopCount(b') < StopCount(b) then Cascade(b') else b'
  }

  // ------------------------------------------------------------ public operations

  /** An order on arrival, before the cascade it may set off. */
  function Submit(b: Book, o: Order): Book {
    var b' := b.Emit(Added(o));
    match o.kind
    case Limit => AddLimit(b', o)
    case Market => AddMarket(b', o)
    case _ => AddStop(b', o)
  }

  function AddOrder(b: Book, o: Order): Book {
    Cascade(Submit(b, o))
  }

  /** Changes a resting order in quantity, and deletes it if nothing is left open. */
  function Revise(b: Book, o: Order, last: nat, e: Event): Book {
    var b' := Amend(b, o).(last := last).Emit(e);
    if o.IsFilled() then Delete(b', o.id) else b'
  }

  /** A trade reported from outside, on one resting order. */
  function Hit(b: Book, id: nat, quantity: nat, price: nat): Book
    requires id in b.orders && b.orders[id].id == id
  {
    var o := b.orders[id].Execute(price, Min(quantity, b.orders[id].open));
    Revise(b, o, price, Executed(o))
  }

  function ExecuteAt(b: Book, id: nat, quantity: nat, price: nat): Book
    requires id in b.orders && b.orders[id].id == id
  {
    Cascade(Hit(b, id, quantity, price))
  }

  function Execute(b: Book, id: nat, quantity: nat): Book
    requires id in b.orders && b.orders[id].id == id
  {
    ExecuteAt(b, id, quantity, b.orders[id].price)
  }

  function Shrink(b: Book, id: nat, quantity: nat): Book
    requires id in b.orders && b.orders[id].id == id
  {
    var o := b.orders[id].SetQuantity(quantity);
    Revise(b, o, b.last, Updated(o))
  }

  function CancelOrder(b: Book, id: nat, quantity: nat): Book
    requires id in b.orders && b.orders[id].id == id
  {
    Cascade(Shrink(b, id, quantity))
  }

  function DeleteOrder(b: Book, id: nat): Book
    requires id in b.orders
  {
    Cascade(Delete(b, id))
  }

  function ReplaceOrder(b: Book, id: nat, newId: nat, newPrice: nat): Book
    requires id in b.orders
  {
    Cascade(AddOrder(Delete(b, id), b.orders[id].(id := newId, price := newPrice)))
  }
}
