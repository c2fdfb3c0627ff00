/**
 The event stream as an account of the book: replaying it rebuilds the resting
 orders, and every unit of open quantity that leaves the book shows in it.
 */
module Accounts {
  import opened Orders
  import opened Queues
  import opened BookModel
  import opened BookInvariants
  import opened Rekeying
  import opened Words

  // ------------------------------------------------------------ replay

  /** An execution takes its quantity from open to executed and changes no term of the order. */
  predicate ExecutionOf(o: Order, e: Order) {
    && e.lastQuantity <= o.open && e.open == o.open - e.lastQuantity
    && e.executed == (o.executed + e.lastQuantity) % WORD64
    && e.side == o.side && e.kind == o.kind
  }

  /** A cancel of no more than is open, or one of more, after which the open quantity has wrapped around. */
  predicate CancelOf(o: Order, n: Order) {
    n.kind == o.kind && (n.open + n.quantity == o.open || (n.quantity == o.open && o.open < n.open))
  }

  /** A stop order of any kind, waiting to be fired. */
  predicate Waits(o: Order) { o.kind != Limit && o.kind != Market }

  /** Stop and trailing stop orders turn into market orders, the two with a limit into limit orders. */
  function Into(kind: OrderType): OrderType {
    match kind
    case Stop => Market
    case TrailingStop => Market
    case StopLimit => Limit
    case TrailingStopLimit => Limit
    case Limit => Limit
    case Market => Market
  }

  /**
   An update leaves side and executed quantity alone, and the other quantities too
   unless it is a cancel; it changes the kind only when it fires a stop order.
   */
  predicate UpdateOf(o: Order, n: Order) {
    && n.side == o.side && n.executed == o.executed
    && ((n.open == o.open && n.quantity == o.quantity) || CancelOf(o, n))
    && (n.kind == o.kind || (Waits(o) && n.kind == Into(o.kind)))
  }

  /** What a listener keeps; `None` for an event that makes no sense at this point. */
  function Next(m: map<nat, Order>, e: Event): Option<map<nat, Order>> {
    match e
    case Added(o) => if o.id in m then None else Some(m[o.id := o])
    case Updated(o) => if o.id in m && UpdateOf(m[o.id], o) then Some(m[o.id := o]) else None
    case Executed(o) => if o.id in m && ExecutionOf(m[o.id], o) then Some(m[o.id := o]) else None
    case Deleted(o) =>
      if o.id in m && m[o.id].open == o.open && m[o.id].executed == o.executed then Some(m - {o.id}) else None
  }

  function Replay(log: seq<Event>): Option<map<nat, Order>> {
    if log == [] then Some(map[])
    else match Replay(log[..|log| - 1])
      case None => None
      case Some(m) => Next(m, log[|log| - 1])
  }

  /**
   The fields events carry: the stop price of a resting trailing stop and the price set on a market
   order are not told.
   */
  function Told(o: Order): Order {
    if o.IsTrailing() then o.(stop := 0) else if o.kind == Market then o.(price := 0) else o
  }

  ghost predicate Agree(m: map<nat, Order>, n: map<nat, Order>) {
    m.Keys == n.Keys && forall id :: id in m ==> Told(m[id]) == Told(n[id])
  }

  /** Replaying the log rebuilds exactly these orders. */
  ghost predicate Rebuilds(log: seq<Event>, orders: map<nat, Order>) {
    Replay(log).Some? && Agree(Replay(log).value, orders)
  }

  lemma ReplayEmit(log: seq<Event>, e: Event)
    ensures Replay(log + [e]) == match Replay(log) case None => None case Some(m) => Next(m, e)
  {
    assert (log + [e])[..|log|] == log;
  }

  // ------------------------------------------------------------ the ledger

  /** Quantity executed on one side. */
  function Traded(log: seq<Event>, side: Side): nat {
    if log == [] then 0
    else Traded(log[..|log| - 1], side) + match log[|log| - 1]
      case Executed(o) => if o.side == side then o.lastQuantity else 0
      case _ => 0
  }

  /** Quantity still open on orders when they were deleted. */
  function Discarded(log: seq<Event>): nat {
    if log == [] then 0
    else Discarded(log[..|log| - 1]) + match log[|log| - 1]
      case Deleted(o) => o.open
      case _ => 0
  }

  function Resting(b: Book): nat {
    Volume(b.askLimits) + Volume(b.bidLimits) + Volume(b.askStops) + Volume(b.bidStops)
    + Volume(b.askTrails) + Volume(b.bidTrails)
  }

  /** Open quantity in the book together with everything that ever left it. */
  function Ledger(b: Book): nat {
    Resting(b) + Traded(b.log, Bid) + Traded(b.log, Ask) + Discarded(b.log)
  }

  function Imbalance(b: Book): int {
    Traded(b.log, Bid) - Traded(b.log, Ask)
  }

  // ------------------------------------------------------------ what the events say of one order

  /** How often an id was added. */
  function Entered(log: seq<Event>, id: nat): nat {
    if log == [] then 0
    else
      var e := log[|log| - 1];
      Entered(log[..|log| - 1], id) + if e.Added? && e.order.id == id then 1 else 0
  }

  /** How often an id was deleted. */
  function Left(log: seq<Event>, id: nat): nat {
    if log == [] then 0
    else
      var e := log[|log| - 1];
      Left(log[..|log| - 1], id) + if e.Deleted? && e.order.id == id then 1 else 0
  }

  /** The order an event is about, as it was known before. */
  function Known(m: Option<map<nat, Order>>, e: Event): Option<Order> {
    if m.Some? && e.order.id in m.value then Some(m.value[e.order.id]) else None
  }

  /** Open quantity taken off an order by cancels. */
  function Cancelled(log: seq<Event>, id: nat): int {
    if log == [] then 0
    else Cancelled(log[..|log| - 1], id) + TakenOff(Replay(log[..|log| - 1]), log[|log| - 1], id)
  }

  function TakenOff(m: Option<map<nat, Order>>, e: Event, id: nat): int {
    if e.Updated? && e.order.id == id && Known(m, e).Some? then Known(m, e).value.open - e.order.open else 0
  }

  /** An event that turns a stop order into a limit or market order. */
  predicate Fires(m: Option<map<nat, Order>>, e: Event) {
    e.Updated? && Known(m, e).Some? && Waits(Known(m, e).value) && !Waits(e.order)
  }

  /** How often an order was fired. */
  function Fired(log: seq<Event>, id: nat): nat {
    if log == [] then 0
    else
      var e := log[|log| - 1];
      Fired(log[..|log| - 1], id) + if e.order.id == id && Fires(Replay(log[..|log| - 1]), e) then 1 else 0
  }

  /** How often any order was fired. */
  function Firings(log: seq<Event>): nat {
    if log == [] then 0
    else Firings(log[..|log| - 1]) + if Fires(Replay(log[..|log| - 1]), log[|log| - 1]) then 1 else 0
  }

  /** What an order brought when it was last added, open and executed, less what cancels have taken off since. */
  function Balance(log: seq<Event>, id: nat): int {
    if log == [] then 0
    else
      var e := log[|log| - 1];
      if e.Added? && e.order.id == id then e.order.open + e.order.executed
      else Balance(log[..|log| - 1], id) - TakenOff(Replay(log[..|log| - 1]), e, id)
  }

  /** Added less deleted events: one for an order at hand, none otherwise. */
  lemma {:induction false} EnteredLessLeft(log: seq<Event>, id: nat)
    requires Replay(log).Some?
    ensures Entered(log, id) == Left(log, id) + if id in Replay(log).value then 1 else 0
    decreases |log|
  {
    if log != [] {
      EnteredLessLeft(log[..|log| - 1], id);
    }
  }

  /** An order is fired at most once each time it is added, and not while it waits. */
  lemma {:induction false} FiredAtMostOnce(log: seq<Event>, id: nat)
    requires Replay(log).Some?
    ensures
      var m := Replay(log).value;
      Fired(log, id) + (if id in m && Waits(m[id]) then 1 else 0) <= Entered(log, id)
    decreases |log|
  {
    if log != [] {
      FiredAtMostOnce(log[..|log| - 1], id);
    }
  }

  /** Open and executed quantity of an order change only as its balance does: by cancels of this order. */
  lemma {:induction false} AccountIsBalance(log: seq<Event>, id: nat)
    requires Replay(log).Some? && id in Replay(log).value
    ensures
      var o := Replay(log).value[id];
      (o.open + o.executed) % WORD64 == Balance(log, id) % WORD64
    decreases |log|
  {
    hide ExecutionOf, UpdateOf;
    var front, e := log[..|log| - 1], log[|log| - 1];
    if !(e.Added? && e.order.id == id) {
      AccountIsBalance(front, id);
      if e.order.id == id {
        EventMovesAccount(Replay(front).value[id], e);
        var o := Replay(front).value[id];
        SameRemainder(o.open + o.executed, Balance(front, id), TakenOff(Replay(front), e, id));
      }
    }
  }

  lemma EventMovesAccount(o: Order, e: Event)
    requires (e.Updated? && UpdateOf(o, e.order)) || (e.Executed? && ExecutionOf(o, e.order))
    ensures
      var taken := if e.Updated? then o.open - e.order.open else 0;
      (e.order.open + e.order.executed) % WORD64 == (o.open + o.executed - taken) % WORD64
  {
    if e.Executed? {
      RemainderInside(e.order.open, o.executed + e.order.lastQuantity);
    }
  }

  lemma RemainderInside(a: nat, b: nat)
    ensures (a + b % WORD64) % WORD64 == (a + b) % WORD64
  {
    var k := b / WORD64;
    assert b == k * WORD64 + b % WORD64;
    MultipleDropped(a + b % WORD64, k);
  }

  lemma {:induction false} MultipleDropped(a: int, k: nat)
    ensures (a + k * WORD64) % WORD64 == a % WORD64
  {
    if k > 0 {
      MultipleDropped(a, k - 1);
      assert a + k * WORD64 == a + (k - 1) * WORD64 + WORD64;
    }
  }

  lemma SameRemainder(a: int, b: int, c: int)
    requires a % WORD64 == b % WORD64
    ensures (a - c) % WORD64 == (b - c) % WORD64
  {
    var i, j := a / WORD64, b / WORD64;
    var r := a % WORD64;
    assert a == i * WORD64 + r && b == j * WORD64 + r;
    if i >= j {
      MultipleDropped(b - c, i - j);
      assert a - c == b - c + (i - j) * WORD64;
    } else {
      MultipleDropped(a - c, j - i);
      assert b - c == a - c + (j - i) * WORD64;
    }
  }

  /** While an order is not added anew, its balance falls by exactly what is cancelled. */
  lemma {:induction false} BalanceMoves(log: seq<Event>, later: seq<Event>, id: nat)
    requires log <= later && Entered(later, id) == Entered(log, id)
    ensures Balance(later, id) - Balance(log, id) == Cancelled(log, id) - Cancelled(later, id)
    decreases |later|
  {
    if log != later {
      var front := later[..|later| - 1];
      assert log <= front;
      EnteredGrows(log, front, id);
      BalanceMoves(log, front, id);
    }
  }

  lemma {:induction false} EnteredGrows(log: seq<Event>, later: seq<Event>, id: nat)
    requires log <= later
    ensures Entered(log, id) <= Entered(later, id)
    decreases |later|
  {
    if log != later {
      EnteredGrows(log, later[..|later| - 1], id);
    }
  }

  /** One event more. */
  lemma LedgerEmit(log: seq<Event>, e: Event)
    ensures forall side ::
      Traded(log + [e], side)
      == Traded(log, side) + if e.Executed? && e.order.side == side then e.order.lastQuantity else 0
    ensures Discarded(log + [e]) == Discarded(log) + (if e.Deleted? then e.order.open else 0)
    ensures Firings(log + [e]) == Firings(log) + if Fires(Replay(log), e) then 1 else 0
  {
    assert (log + [e])[..|log|] == log;
  }

  lemma OrderEmit(log: seq<Event>, e: Event, id: nat)
    ensures Entered(log + [e], id) == Entered(log, id) + if e.Added? && e.order.id == id then 1 else 0
    ensures Cancelled(log + [e], id) == Cancelled(log, id) + TakenOff(Replay(log), e, id)
    ensures Fired(log + [e], id) == Fired(log, id) + if e.order.id == id && Fires(Replay(log), e) then 1 else 0
  {
    assert (log + [e])[..|log|] == log;
  }

  /** The events in between add, cancel and fire nothing. */
  ghost predicate Silent(log: seq<Event>, later: seq<Event>) {
    && log <= later && Firings(later) == Firings(log)
    && (forall id :: Entered(later, id) == Entered(log, id))
    && (forall id :: Cancelled(later, id) == Cancelled(log, id))
    && (forall id :: Fired(later, id) == Fired(log, id))
  }

  lemma SilentEmit(log: seq<Event>, e: Event)
    requires e.Executed? || e.Deleted?
    ensures Silent(log, log + [e])
  {
    hide Entered, Cancelled, Fired, Firings;
    LedgerEmit(log, e);
    forall id
      ensures Entered(log + [e], id) == Entered(log, id) && Cancelled(log + [e], id) == Cancelled(log, id)
      ensures Fired(log + [e], id) == Fired(log, id)
    {
      OrderEmit(log, e, id);
    }
  }

  lemma SilentChain(a: seq<Event>, b: seq<Event>, c: seq<Event>)
    requires Silent(a, b) && Silent(b, c)
    ensures Silent(a, c)
  {
  }

  lemma RestingWith(b: Book, k: Bin, s: seq<Order>)
    ensures Resting(b.With(k, s)) + Volume(b.Queue(k)) == Resting(b) + Volume(s)
  {
  }

  /** Open quantity at rest depends on the lists alone. */
  lemma RestingFrame(b: Book, c: Book)
    requires forall k :: b.Queue(k) == c.Queue(k)
    ensures Resting(b) == Resting(c)
  {
    assert b.Queue(AskLimits) == c.Queue(AskLimits) && b.Queue(BidLimits) == c.Queue(BidLimits);
    assert b.Queue(AskStops) == c.Queue(AskStops) && b.Queue(BidStops) == c.Queue(BidStops);
    assert b.Queue(AskTrails) == c.Queue(AskTrails) && b.Queue(BidTrails) == c.Queue(BidTrails);
  }

  // ------------------------------------------------------------ an order in hand

  /** The books are in order while o is being processed and does not rest. */
  ghost predicate InHand(b: Book, o: Order) {
    Sound(b) && o.id !in b.orders && Rebuilds(b.log, b.orders[o.id := o])
  }

  function OpenOf(h: Option<Order>): nat { if h.Some? then h.value.open else 0 }

  function WaitOf(h: Option<Order>): nat { if h.Some? && Waits(h.value) then 1 else 0 }

  /** One for a stop order that waits, at rest or in hand. */
  function Waiting(b: Book, h: Option<Order>, id: nat): nat {
    (if id in b.orders && Waits(b.orders[id]) then 1 else 0) + (if h.Some? && h.value.id == id then WaitOf(h) else 0)
  }

  /** Nothing is lost: the order in hand went from h to h' while the book went from b to c. */
  ghost predicate Quantities(b: Book, h: Option<Order>, c: Book, h': Option<Order>) {
    Ledger(c) + OpenOf(h') == Ledger(b) + OpenOf(h) && Imbalance(c) == Imbalance(b)
  }

  /** Nothing is added or cancelled, and exactly the stop orders that no longer wait have been fired, once each. */
  ghost predicate Counts(b: Book, h: Option<Order>, c: Book, h': Option<Order>) {
    && b.log <= c.log
    && (forall id :: Entered(c.log, id) == Entered(b.log, id))
    && (forall id :: Cancelled(c.log, id) == Cancelled(b.log, id))
    && (forall id :: Fired(c.log, id) + Waiting(c, h', id) == Fired(b.log, id) + Waiting(b, h, id))
    && Firings(c.log) + StopCount(c) + WaitOf(h') == Firings(b.log) + StopCount(b) + WaitOf(h)
  }

  ghost predicate Conserved(b: Book, h: Option<Order>, c: Book, h': Option<Order>) {
    Quantities(b, h, c, h') && Counts(b, h, c, h')
  }

  lemma ConservedChain(a: Book, h: Option<Order>, b: Book, h': Option<Order>, c: Book, h'': Option<Order>)
    requires Conserved(a, h, b, h') && Conserved(b, h', c, h'')
    ensures Conserved(a, h, c, h'')
  {
    hide Ledger, Imbalance, Entered, Cancelled, Fired, Firings, Waiting;
  }

  /** Silent events while no stop order comes or goes. */
  lemma SilentCounts(b: Book, h: Option<Order>, c: Book, h': Option<Order>)
    requires Silent(b.log, c.log) && StopCount(c) == StopCount(b) && WaitOf(h) == WaitOf(h')
    requires forall id :: Waiting(c, h', id) == Waiting(b, h, id)
    ensures Counts(b, h, c, h')
  {
    hide Entered, Cancelled, Fired, Firings, Waiting;
  }

  lemma ClosingReplays(log: seq<Event>, orders: map<nat, Order>, o: Order)
    requires Rebuilds(log, orders[o.id := o])
    ensures Rebuilds(log + [Deleted(o)], orders - {o.id})
  {
    ReplayEmit(log, Deleted(o));
    assert Told(Replay(log).value[o.id]) == Told(o);
    assert orders[o.id := o] - {o.id} == orders - {o.id};
  }

  lemma ExecutionReplays(log: seq<Event>, orders: map<nat, Order>, p: Order, price: nat, q: nat)
    requires Rebuilds(log, orders) && p.id in orders && orders[p.id] == p && q <= p.open
    ensures Rebuilds(log + [Executed(p.Execute(price, q))], orders[p.id := p.Execute(price, q)])
  {
    ReplayEmit(log, Executed(p.Execute(price, q)));
    assert Told(Replay(log).value[p.id]) == Told(p);
  }

  /** The three or four events of a trade replay to its outcome. */
  lemma TradeReplays(log: seq<Event>, orders: map<nat, Order>, taker: Order, maker: Order, q: nat, price: nat)
    requires taker.id != maker.id && q <= taker.open && q <= maker.open && 0 < maker.open
    requires maker.id in orders && orders[maker.id] == maker && Rebuilds(log, orders[taker.id := taker])
    requires (taker.kind == Limit || taker.kind == Market) && maker.kind == Limit
    ensures
      var m', t' := maker.Execute(price, q), taker.Execute(price, q);
      var log' := log + Executions(t', m');
      && Rebuilds(log', orders[m'.id := m'][t'.id := t'])
      && (m'.IsFilled() ==> Rebuilds(log' + [Deleted(m')], (orders - {m'.id})[t'.id := t']))
  {
    hide Rebuilds;
    var m', t' := maker.Execute(price, q), taker.Execute(price, q);
    var was, now := orders[taker.id := taker], orders[m'.id := m'][t'.id := t'];
    var e := Executions(t', m');
    assert log + e == log + [e[0]] + [e[1]];
    if taker.IsAsk() {
      ExecutionReplays(log, was, maker, price, q);
      ExecutionReplays(log + [e[0]], was[maker.id := m'], taker, price, q);
      assert was[maker.id := m'][taker.id := t'] == now;
    } else {
      ExecutionReplays(log, was, taker, price, q);
      ExecutionReplays(log + [e[0]], was[taker.id := t'], maker, price, q);
      assert was[taker.id := t'][maker.id := m'] == now;
    }
    assert now[m'.id := m'] == now && now - {m'.id} == (orders - {m'.id})[t'.id := t'];
    ClosingReplays(log + e, now, m');
  }

  /** A trade shows once on each side. */
  lemma TradeLogged(log: seq<Event>, taker: Order, maker: Order, q: nat)
    requires taker.side != maker.side && taker.lastQuantity == q && maker.lastQuantity == q
    ensures
      var log' := log + (Executions(taker, maker) + if maker.IsFilled() then [Deleted(maker)] else []);
      && Traded(log', Bid) == Traded(log, Bid) + q && Traded(log', Ask) == Traded(log, Ask) + q
      && Discarded(log') == Discarded(log) && Silent(log, log')
  {
    hide Traded, Discarded, Silent, Firings;
    var e := Executions(taker, maker);
    LedgerEmit(log, e[0]);
    LedgerEmit(log + [e[0]], e[1]);
    LedgerEmit(log + [e[0]] + [e[1]], Deleted(maker));
    SilentEmit(log, e[0]);
    SilentEmit(log + [e[0]], e[1]);
    SilentEmit(log + [e[0]] + [e[1]], Deleted(maker));
    SilentChain(log, log + [e[0]], log + [e[0]] + [e[1]]);
    SilentChain(log, log + [e[0]] + [e[1]], log + [e[0]] + [e[1]] + [Deleted(maker)]);
    assert log + (e + [Deleted(maker)]) == log + [e[0]] + [e[1]] + [Deleted(maker)];
    assert log + (e + []) == log + [e[0]] + [e[1]];
  }

  lemma TradeConserved(b: Book, taker: Order)
    requires Sound(b) && b.Queue(Makers(taker)) != [] && taker.id !in b.orders
    ensures Conserved(b, Some(taker), Trade(b, taker).0, Some(Trade(b, taker).1))
  {
    hide Placed, Indexed, Traded, Discarded, Resting, Silent, Counts, StopCount, Waiting, BinOf;
    var k := Makers(taker);
    var s := b.Queue(k);
    var q := Min(s[0].open, taker.open);
    var m', t' := s[0].Execute(s[0].price, q), taker.Execute(s[0].price, q);
    HeadIndexed(b, k);
    MakersAreLimits(taker, s[0]);
    RestingWith(b, k, s[1..]);
    RestingWith(b, k, [m'] + s[1..]);
    TradeLogged(b.log, t', m', q);
    RestingFrame(b.With(k, if m'.IsFilled() then s[1..] else [m'] + s[1..]), Trade(b, taker).0);
    TradeWaiting(b, taker);
    SilentCounts(b, Some(taker), Trade(b, taker).0, Some(Trade(b, taker).1));
  }

  /** No stop order takes part in a trade. */
  lemma TradeWaiting(b: Book, taker: Order)
    requires b.Queue(Makers(taker)) != []
    requires
      var m := b.Queue(Makers(taker))[0];
      m.kind == Limit && m.id in b.orders && b.orders[m.id] == m
    ensures StopCount(Trade(b, taker).0) == StopCount(b)
    ensures WaitOf(Some(Trade(b, taker).1)) == WaitOf(Some(taker))
    ensures forall id :: Waiting(Trade(b, taker).0, Some(Trade(b, taker).1), id) == Waiting(b, Some(taker), id)
  {
  }

  lemma TradeInHand(b: Book, taker: Order)
    requires InHand(b, taker) && CanTrade(b, taker) && (taker.kind == Limit || taker.kind == Market)
    ensures InHand(Trade(b, taker).0, Trade(b, taker).1)
  {
    hide Placed, Indexed, Uncrossed, Rebuilds, Trade, BinOf, Makers;
    var m := b.Queue(Makers(taker))[0];
    HeadIndexed(b, Makers(taker));
    assert Fit(b.orders[m.id]);
    MakersAreLimits(taker, m);
    TradeSound(b, taker);
    TradeRebuilds(b, taker, m, Min(m.open, taker.open));
  }

  lemma MakersAreLimits(taker: Order, m: Order)
    requires BinOf(m) == Makers(taker) && m.kind != Market
    ensures m.kind == Limit && m.side != taker.side
  {
  }

  lemma TradeRebuilds(b: Book, taker: Order, m: Order, q: nat)
    requires b.Queue(Makers(taker)) != [] && m == b.Queue(Makers(taker))[0] && q == Min(m.open, taker.open)
    requires m.id in b.orders && b.orders[m.id] == m && m.kind == Limit && 0 < m.open
    requires taker.id !in b.orders && (taker.kind == Limit || taker.kind == Market)
    requires Rebuilds(b.log, b.orders[taker.id := taker])
    ensures Rebuilds(Trade(b, taker).0.log, Trade(b, taker).0.orders[taker.id := Trade(b, taker).1])
    ensures Trade(b, taker).1.id == taker.id
  {
    TradeReplays(b.log, b.orders, taker, m, q, m.price);
    var m', t' := m.Execute(m.price, q), taker.Execute(m.price, q);
    var e := Executions(t', m');
    assert b.log + (e + [Deleted(m')]) == b.log + e + [Deleted(m')];
    assert b.log + (e + []) == b.log + e;
  }

  lemma NothingMoves(b: Book, h: Option<Order>)
    ensures Conserved(b, h, b, h)
  {
  }

  lemma {:induction false} SweepAccounts(b: Book, o: Order)
    requires InHand(b, o) && (o.kind == Limit || o.kind == Market)
    ensures InHand(Sweep(b, o).0, Sweep(b, o).1)
    ensures Conserved(b, Some(o), Sweep(b, o).0, Some(Sweep(b, o).1))
    decreases |b.Queue(Makers(o))|, o.open
  {
    if CanTrade(b, o) {
      TradeInHand(b, o);
      TradeConserved(b, o);
      SweepAccounts(Trade(b, o).0, Trade(b, o).1);
      ConservedChain(b, Some(o), Trade(b, o).0, Some(Trade(b, o).1), Sweep(b, o).0, Some(Sweep(b, o).1));
    } else {
      NothingMoves(b, Some(o));
    }
  }

  /** Deleting the order in hand closes its account. */
  lemma DiscardAccounts(b: Book, o: Order)
    requires InHand(b, o) && !Waits(o)
    ensures Sound(b.Emit(Deleted(o))) && Rebuilds(b.Emit(Deleted(o)).log, b.orders)
    ensures Conserved(b, Some(o), b.Emit(Deleted(o)), None)
  {
    hide Placed, Indexed, Traded, Discarded, Volume, Silent, Counts;
    ReplayEmit(b.log, Deleted(o));
    LedgerEmit(b.log, Deleted(o));
    StructOnly(b, b.Emit(Deleted(o)));
    var r := Replay(b.log).value;
    assert Told(r[o.id]) == Told(o);
    assert b.orders[o.id := o] - {o.id} == b.orders;
    SilentEmit(b.log, Deleted(o));
    SilentCounts(b, Some(o), b.Emit(Deleted(o)), None);
  }

  lemma InsertVolume(k: Bin, s: seq<Order>, o: Order)
    ensures Volume(Insert(k, s, o)) == Volume(s) + o.open
  {
    var i := Slot(k, s, o);
    assert s == s[..i] + s[i..];
    VolumeConcat(s[..i], s[i..]);
    VolumeConcat(s[..i] + [o], s[i..]);
    VolumeConcat(s[..i], [o]);
  }

  lemma RestConserved(b: Book, o: Order)
    requires o.id !in b.orders
    ensures Conserved(b, Some(o), Rest(b, o), None)
  {
    hide Traded, Discarded, Entered, Cancelled, Fired, Firings, Insert, Waiting, StopCount, Resting, Rest;
    RestVolume(b, o);
    RestWaiting(b, o);
    RestStops(b, o);
  }

  lemma RestVolume(b: Book, o: Order)
    ensures Resting(Rest(b, o)) == Resting(b) + o.open && Rest(b, o).log == b.log
  {
    hide Insert, Resting, BinOf, Volume;
    var k := BinOf(o);
    var s := Insert(k, b.Queue(k), o);
    InsertVolume(k, b.Queue(k), o);
    RestingWith(b, k, s);
    RestingFrame(b.With(k, s), Rest(b, o));
  }

  /** Put to rest, a stop order waits in the book instead of in hand. */
  lemma RestWaiting(b: Book, o: Order)
    requires o.id !in b.orders
    ensures forall id :: Waiting(Rest(b, o), None, id) == Waiting(b, Some(o), id)
  {
    hide Insert;
    assert Rest(b, o).orders == b.orders[o.id := o];
  }

  lemma RestStops(b: Book, o: Order)
    ensures StopCount(Rest(b, o)) == StopCount(b) + WaitOf(Some(o))
  {
    hide Insert;
    InsertLength(BinOf(o), b.Queue(BinOf(o)), o);
  }

  lemma InsertLength(k: Bin, s: seq<Order>, o: Order)
    ensures |Insert(k, s, o)| == |s| + 1
  {
  }

  lemma AddLimitAccounts(b: Book, o: Order)
    requires InHand(b, o) && o.Admissible() && o.kind == Limit
    ensures Rebuilds(AddLimit(b, o).log, AddLimit(b, o).orders)
    ensures Conserved(b, Some(o), AddLimit(b, o), None)
  {
    hide Conserved, Rebuilds, Sound, Rest, Sweep, CanMatch;
    SweepAccounts(b, o);
    SweepKeepsTaker(b, o);
    NothingMoves(b, Some(o));
    var (c, o') := Match(b, o);
    if !o'.IsFilled() && o.tif == Gtc {
      RestConserved(c, o');
      RestRebuilds(c, o');
    } else {
      DiscardAccounts(c, o');
    }
    ConservedChain(b, Some(o), c, Some(o'), AddLimit(b, o), None);
  }

  lemma RestRebuilds(b: Book, o: Order)
    requires InHand(b, o)
    ensures Rebuilds(Rest(b, o).log, Rest(b, o).orders)
  {
  }

  lemma AddMarketAccounts(b: Book, o: Order)
    requires InHand(b, o) && o.Admissible() && o.kind == Market
    ensures Rebuilds(AddMarket(b, o).log, AddMarket(b, o).orders)
    ensures Conserved(b, Some(o), AddMarket(b, o), None)
  {
    hide Conserved, Sound, Sweep, CanMatch;
    var p := o.(price := if o.IsAsk() then 0 else MAX64);
    SweepAccounts(b, p);
    SweepKeepsTaker(b, p);
    NothingMoves(b, Some(p));
    var (c, o') := Match(b, p);
    DiscardAccounts(c, o');
    ConservedChain(b, Some(p), c, Some(o'), AddMarket(b, o), None);
    PricedAlike(b, o, p, AddMarket(b, o));
  }

  /** The price of the order in hand is no part of the account. */
  lemma PricedAlike(b: Book, o: Order, p: Order, c: Book)
    requires Conserved(b, Some(p), c, None) && p == o.(price := p.price)
    ensures Conserved(b, Some(o), c, None)
  {
    hide Entered, Cancelled, Fired, Firings, Ledger, Imbalance;
    assert forall id :: Waiting(b, Some(o), id) == Waiting(b, Some(p), id);
  }

  lemma UpdateReplays(log: seq<Event>, m: map<nat, Order>, n: Order)
    requires Rebuilds(log, m) && n.id in m && UpdateOf(m[n.id], n)
    ensures Rebuilds(log + [Updated(n)], m[n.id := n])
    ensures TakenOff(Replay(log), Updated(n), n.id) == m[n.id].open - n.open
    ensures Fires(Replay(log), Updated(n)) <==> Waits(m[n.id]) && !Waits(n)
  {
    hide UpdateOf, Told;
    ReplayEmit(log, Updated(n));
    ToldAlike(Replay(log).value[n.id], m[n.id], n);
  }

  /** What events leave untold has no part in what an update may do. */
  lemma ToldAlike(x: Order, y: Order, n: Order)
    requires Told(x) == Told(y)
    ensures (UpdateOf(x, n) <==> UpdateOf(y, n)) && x.open == y.open && x.kind == y.kind
  {
  }

  predicate SameQuantities(o: Order, n: Order) {
    n.side == o.side && n.open == o.open && n.executed == o.executed && n.quantity == o.quantity
  }

  /** Telling of the firing of the order in hand moves no quantity. */
  lemma TellHand(b: Book, o: Order, n: Order)
    requires InHand(b, o) && n.id == o.id && SameQuantities(o, n) && Waits(o) && n.kind == Into(o.kind)
    ensures InHand(b.Emit(Updated(n)), n) && Conserved(b, Some(o), b.Emit(Updated(n)), Some(n))
  {
    hide Placed, Indexed, Rebuilds, Traded, Discarded, Counts, TakenOff, Fires, Resting;
    UpdateReplays(b.log, b.orders[o.id := o], n);
    assert b.orders[o.id := o][n.id := n] == b.orders[n.id := n];
    LedgerEmit(b.log, Updated(n));
    StructOnly(b, b.Emit(Updated(n)));
    RestingFrame(b, b.Emit(Updated(n)));
    TellCounts(b, o, n);
  }

  lemma TellCounts(b: Book, o: Order, n: Order)
    requires n.id == o.id && o.id !in b.orders && Waits(o) && !Waits(n) && Fires(Replay(b.log), Updated(n))
    requires TakenOff(Replay(b.log), Updated(n), n.id) == 0
    ensures Counts(b, Some(o), b.Emit(Updated(n)), Some(n))
  {
    hide Entered, Cancelled, Fired, Firings, Fires;
    LedgerEmit(b.log, Updated(n));
    var c := b.Emit(Updated(n));
    forall id
      ensures Entered(c.log, id) == Entered(b.log, id) && Cancelled(c.log, id) == Cancelled(b.log, id)
      ensures Fired(c.log, id) + Waiting(c, Some(n), id) == Fired(b.log, id) + Waiting(b, Some(o), id)
    {
      OrderEmit(b.log, Updated(n), id);
    }
  }

  lemma FireAccounts(b: Book, o: Order)
    requires InHand(b, o) && o.Admissible() && o.kind != Limit && o.kind != Market
    ensures Rebuilds(Fire(b, o).log, Fire(b, o).orders)
    ensures Conserved(b, Some(o), Fire(b, o), None)
  {
    hide InHand, Rebuilds, Conserved, AddMarket, AddLimit;
    var t := o.Triggered();
    var c := b.Emit(Updated(t));
    TellHand(b, o, t);
    if t.kind == Market { AddMarketAccounts(c, t); } else { AddLimitAccounts(c, t); }
    ConservedChain(b, Some(o), c, Some(t), Fire(b, o), None);
  }

  lemma AddStopAccounts(b: Book, o: Order)
    requires InHand(b, o) && o.Admissible() && o.kind != Limit && o.kind != Market
    ensures Rebuilds(AddStop(b, o).log, AddStop(b, o).orders)
    ensures Conserved(b, Some(o), AddStop(b, o), None)
  {
    hide Placed, Indexed, Uncrossed, Fire, Rest, Conserved, TrailedStop;
    TrailedStopInRange(o, b.last);
    var o' := if o.IsTrailing() then Restopped(o, b.last) else o;
    assert Told(o') == Told(o);
    if Reached(o.side, o'.stop, MarketPrice(b, o.side)) {
      FireAccounts(b, o');
    } else {
      RestConserved(b, o');
      RestRebuilds(b, o');
    }
    StoppedAlike(b, o, o', AddStop(b, o));
  }

  /** The stop price of the order in hand is no part of the account. */
  lemma StoppedAlike(b: Book, o: Order, p: Order, c: Book)
    requires Conserved(b, Some(p), c, None) && p == o.(stop := p.stop)
    ensures Conserved(b, Some(o), c, None)
  {
    hide Entered, Cancelled, Fired, Firings, Ledger, Imbalance;
    assert forall id :: Waiting(b, Some(o), id) == Waiting(b, Some(p), id);
  }

  /** Once it is added, submitting an order enters its open quantity, and nothing else. */
  lemma SubmitAccounts(b: Book, o: Order)
    requires Ready(b, o) && Rebuilds(b.log, b.orders)
    ensures Rebuilds(Submit(b, o).log, Submit(b, o).orders)
    ensures Conserved(b.Emit(Added(o)), Some(o), Submit(b, o), None)
  {
    hide Placed, Indexed, Conserved, Volume, AddMarket, AddLimit, AddStop;
    var c := b.Emit(Added(o));
    ReplayEmit(b.log, Added(o));
    StructOnly(b, c);
    match o.kind
    case Limit => AddLimitAccounts(c, o);
    case Market => AddMarketAccounts(c, o);
    case _ => AddStopAccounts(c, o);
  }

  // ------------------------------------------------------------ the cascade

  lemma DropHand(b: Book, o: Order)
    requires Sound(b) && Rebuilds(b.log, b.orders) && o.id in b.orders && b.orders[o.id] == o
    ensures InHand(Drop(b, o), o)
  {
    hide Placed, Indexed, Live, Uncrossed, Rebuilds;
    DropSound(b, o);
    assert (b.orders - {o.id})[o.id := o] == b.orders;
  }

  lemma DropConserved(b: Book, o: Order)
    requires Struct(b) && o.id in b.orders && b.orders[o.id] == o
    ensures Conserved(b, None, Drop(b, o), Some(o))
  {
    hide Placed, Indexed, Without, Traded, Discarded, Entered, Cancelled, Fired, Firings, Resting, StopCount;
    FindResting(b, o.id);
    WithoutVolume(b.Queue(BinOf(o)), o.id);
    RestingWith(b, BinOf(o), Without(b.Queue(BinOf(o)), o.id));
    RestingFrame(b.With(BinOf(o), Without(b.Queue(BinOf(o)), o.id)), Drop(b, o));
    DropStopCount(b, o);
    forall id ensures Waiting(Drop(b, o), Some(o), id) == Waiting(b, None, id) {
      assert id != o.id ==> (id in Drop(b, o).orders <==> id in b.orders);
    }
  }

  lemma DropStopCount(b: Book, o: Order)
    requires Find(b.Queue(BinOf(o)), o.id) < |b.Queue(BinOf(o))|
    ensures StopCount(Drop(b, o)) + WaitOf(Some(o)) == StopCount(b)
  {
    var s := b.Queue(BinOf(o));
    assert |Without(s, o.id)| == |s| - 1;
  }

  lemma FireHeadAccounts(b: Book, k: Bin)
    requires Sound(b) && Rebuilds(b.log, b.orders) && !LimitBin(k) && b.Queue(k) != []
    ensures Rebuilds(FireHead(b, k).log, FireHead(b, k).orders) && Conserved(b, None, FireHead(b, k), None)
  {
    hide Placed, Indexed, Uncrossed, Conserved, Rebuilds, Fire, FireHead, Drop, InHand;
    FireHeadIsFire(b, k);
    HeadIndexed(b, k);
    var o := b.Queue(k)[0];
    DropHand(b, o);
    DropConserved(b, o);
    assert Fit(o);
    FireAccounts(Drop(b, o), o);
    ConservedChain(b, None, Drop(b, o), Some(o), FireHead(b, k), None);
  }

  lemma {:induction false} DrainAccounts(b: Book, k: Bin, market: nat)
    requires Sound(b) && Rebuilds(b.log, b.orders) && !LimitBin(k)
    ensures Rebuilds(Drain(b, k, market).log, Drain(b, k, market).orders)
    ensures Conserved(b, None, Drain(b, k, market), None)
    decreases |b.Queue(k)|
  {
    hide Sound, Rebuilds, Conserved, FireHead;
    if b.Queue(k) != [] && Reached(SideOf(k), Key(b.Queue(k)[0]), market) {
      FireHeadAccounts(b, k);
      FireHeadSound(b, k);
      DrainAccounts(FireHead(b, k), k, market);
      ConservedChain(b, None, FireHead(b, k), None, Drain(b, k, market), None);
    } else {
      NothingMoves(b, None);
    }
  }

  lemma SilentUpdate(log: seq<Event>, n: Order)
    requires TakenOff(Replay(log), Updated(n), n.id) == 0 && !Fires(Replay(log), Updated(n))
    ensures Silent(log, log + [Updated(n)])
  {
    hide Entered, Cancelled, Fired, Firings, Fires;
    var e := Updated(n);
    LedgerEmit(log, e);
    forall id
      ensures Entered(log + [e], id) == Entered(log, id) && Cancelled(log + [e], id) == Cancelled(log, id)
      ensures Fired(log + [e], id) == Fired(log, id)
    {
      OrderEmit(log, e, id);
    }
  }

  lemma {:induction false} UpdatesReplay(log: seq<Event>, m: map<nat, Order>, news: seq<Order>)
    requires Rebuilds(log, m)
    requires forall n :: n in news ==> n.id in m && SameQuantities(m[n.id], n) && n.kind == m[n.id].kind
    ensures Rebuilds(log + Updates(news), Reindexed(m, news))
    ensures Silent(log, log + Updates(news))
    decreases |news|
  {
    if news == [] {
      assert log + [] == log;
    } else {
      hide Rebuilds, Silent, TakenOff, Fires;
      assert news[0] in news;
      UpdateReplays(log, m, news[0]);
      SilentUpdate(log, news[0]);
      var log', m' := log + [Updated(news[0])], m[news[0].id := news[0]];
      UpdatesReplay(log', m', news[1..]);
      UpdatesSplit(log, news);
      SilentChain(log, log', log + Updates(news));
      assert Reindexed(m, news) == Reindexed(m', news[1..]);
    }
  }

  lemma UpdatesSplit(log: seq<Event>, news: seq<Order>)
    requires news != []
    ensures log + Updates(news) == log + [Updated(news[0])] + Updates(news[1..])
  {
  }

  lemma {:induction false} UpdatesLedger(log: seq<Event>, news: seq<Order>)
    ensures forall s :: Traded(log + Updates(news), s) == Traded(log, s)
    ensures Discarded(log + Updates(news)) == Discarded(log)
    decreases |news|
  {
    if news == [] {
      assert log + [] == log;
    } else {
      hide Traded, Discarded;
      LedgerEmit(log, Updated(news[0]));
      UpdatesLedger(log + [Updated(news[0])], news[1..]);
      UpdatesSplit(log, news);
    }
  }

  lemma {:induction false} VisitVolume(s: seq<Order>, last: nat)
    ensures Volume(Trailed(Visit(s), last)) == Volume(s)
    decreases |s|
  {
    if s != [] {
      var i := Lowest(s);
      VolumeSplit(s, i);
      VolumeConcat(s[..i], s[i + 1..]);
      VisitVolume(s[..i] + s[i + 1..], last);
      assert Visit(s)[1..] == Visit(s[..i] + s[i + 1..]);
      assert Trailed(Visit(s), last)[1..] == Trailed(Visit(s)[1..], last);
    }
  }

  lemma {:induction false} InsertAllVolume(k: Bin, s: seq<Order>, news: seq<Order>)
    ensures Volume(InsertAll(k, s, news)) == Volume(s) + Volume(news)
    decreases |news|
  {
    if news != [] {
      InsertVolume(k, s, news[0]);
      InsertAllVolume(k, Insert(k, s, news[0]), news[1..]);
    }
  }

  lemma RekeyReplays(b: Book, k: Bin)
    requires Struct(b) && Rebuilds(b.log, b.orders) && !LimitBin(k)
    ensures Rebuilds(Rekey(b, k).log, Rekey(b, k).orders) && Silent(b.log, Rekey(b, k).log)
  {
    hide Indexed, Visit, Trailed, InsertAll, Reindexed, Updates, Silent, Sorted;
    var s := b.Queue(k);
    assert Placed(b, k);
    var news := Trailed(Visit(s), b.last);
    NewsContents(b.orders, s, b.last);
    UpdatesReplay(b.log, b.orders, news);
  }

  lemma RekeyResting(b: Book, k: Bin)
    requires !LimitBin(k)
    ensures Resting(Rekey(b, k)) == Resting(b)
    ensures Discarded(Rekey(b, k).log) == Discarded(b.log)
    ensures forall side :: Traded(Rekey(b, k).log, side) == Traded(b.log, side)
  {
    hide Visit, Trailed, InsertAll, Reindexed, Updates, Resting, Traded, Discarded;
    var s := b.Queue(k);
    var news := Trailed(Visit(s), b.last);
    UpdatesLedger(b.log, news);
    VisitVolume(s, b.last);
    InsertAllVolume(k, [], news);
    assert Volume([]) == 0;
    RestingWith(b, k, InsertAll(k, [], news));
    RestingFrame(b.With(k, InsertAll(k, [], news)), Rekey(b, k));
  }

  lemma RekeyAccounts(b: Book, k: Bin)
    requires Sound(b) && Rebuilds(b.log, b.orders) && !LimitBin(k)
    ensures Rebuilds(Rekey(b, k).log, Rekey(b, k).orders) && Conserved(b, None, Rekey(b, k), None)
  {
    hide Placed, Indexed, Live, Uncrossed, Rekey, Rebuilds, Resting, Traded, Discarded, Silent, StopCount, Counts;
    RekeyReplays(b, k);
    RekeyResting(b, k);
    RekeyContents(b, k);
    assert forall id :: Waiting(Rekey(b, k), None, id) == Waiting(b, None, id);
    SilentCounts(b, None, Rekey(b, k), None);
  }

  ghost predicate Kept(b: Book, c: Book) {
    Sound(c) && Rebuilds(c.log, c.orders) && Conserved(b, None, c, None)
  }

  lemma KeptChain(a: Book, b: Book, c: Book)
    requires Kept(a, b) && Kept(b, c)
    ensures Kept(a, c)
  {
    hide Sound, Rebuilds, Conserved;
    ConservedChain(a, None, b, None, c, None);
  }

  lemma DrainKept(b: Book, k: Bin, market: nat)
    requires Sound(b) && Rebuilds(b.log, b.orders) && !LimitBin(k)
    ensures Kept(b, Drain(b, k, market))
  {
    hide Sound, Rebuilds, Conserved, Drain;
    DrainSound(b, k, market);
    DrainAccounts(b, k, market);
  }

  lemma ActivateAccounts(b: Book)
    requires Sound(b) && Rebuilds(b.log, b.orders)
    ensures Kept(b, ActivateBids(b)) && Kept(b, ActivateAsks(b))
  {
    hide Sound, Rebuilds, Conserved, Drain;
    var c := Drain(b, BidStops, b.LastAsk());
    DrainKept(b, BidStops, b.LastAsk());
    DrainKept(c, BidTrails, c.LastAsk());
    KeptChain(b, c, ActivateBids(b));
    var d := Drain(b, AskStops, b.LastBid());
    DrainKept(b, AskStops, b.LastBid());
    DrainKept(d, AskTrails, d.LastBid());
    KeptChain(b, d, ActivateAsks(b));
  }

  lemma UpdateBidsAccounts(b: Book)
    requires Sound(b) && Rebuilds(b.log, b.orders)
    ensures Kept(b, UpdateBids(b))
  {
    hide Sound, Rebuilds, Conserved, Rekey;
    UpdateBidsSound(b);
    RekeyAccounts(b, BidTrails);
    NothingMoves(b, None);
    var c := if b.askMarker <= b.LastAsk() || b.bidTrails == [] then b else Rekey(b, BidTrails);
    MarkerAccounts(b, c, c.(askMarker := b.last));
  }

  lemma UpdateAsksAccounts(b: Book)
    requires Sound(b) && Rebuilds(b.log, b.orders)
    ensures Kept(b, UpdateAsks(b))
  {
    hide Sound, Rebuilds, Conserved, Rekey;
    UpdateAsksSound(b);
    RekeyAccounts(b, AskTrails);
    NothingMoves(b, None);
    var c := if b.bidMarker >= b.LastBid() || b.askTrails == [] then b else Rekey(b, AskTrails);
    MarkerAccounts(b, c, c.(bidMarker := b.last));
  }

  lemma MarkerAccounts(b: Book, c: Book, d: Book)
    requires Conserved(b, None, c, None) && d == c.(bidMarker := d.bidMarker, askMarker := d.askMarker)
    ensures Conserved(b, None, d, None)
  {
    hide Entered, Cancelled, Fired, Firings, Traded, Discarded;
    assert forall id :: Waiting(d, None, id) == Waiting(c, None, id);
  }

  lemma RoundAccounts(b: Book)
    requires Sound(b) && Rebuilds(b.log, b.orders)
    ensures Kept(b, Round(b))
  {
    hide Sound, Rebuilds, Conserved, ActivateBids, ActivateAsks, UpdateBids, UpdateAsks;
    var b1 := ActivateBids(b);
    ActivateAccounts(b);
    var b2 := UpdateAsks(b1);
    UpdateAsksAccounts(b1);
    var b3 := ActivateAsks(b2);
    ActivateAccounts(b2);
    UpdateBidsAccounts(b3);
    KeptChain(b, b1, b2);
    KeptChain(b, b2, b3);
    KeptChain(b, b3, UpdateBids(b3));
  }

  /**
   A cascade trades between resting orders only: nothing enters, nothing is lost, no order is
   cut back, both sides trade the same, and the stop orders that no longer wait are fired, once each.
   */
  lemma {:induction false} CascadeAccounts(b: Book)
    requires Sound(b) && Rebuilds(b.log, b.orders)
    ensures
      var r := BookModel.Cascade(b);
      Rebuilds(r.log, r.orders) && Conserved(b, None, r, None)
    decreases StopCount(b)
  {
    hide Sound, Rebuilds, Conserved, Round, StopCount;
    RoundAccounts(b);
    if StopCount(Round(b)) < StopCount(b) {
      CascadeAccounts(Round(b));
      ConservedChain(b, None, Round(b), None, BookModel.Cascade(b), None);
    }
  }
}
