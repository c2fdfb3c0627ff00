/**
 What becomes of an order, told without the functions of the book: which lots it takes from the opposite list,
 which events tell of it, and whether it rests.
 */
module Outcomes {
  import opened Orders
  import opened Queues
  import opened BookModel
  import opened BookInvariants
  import opened Matching
  import opened Accounts
  import opened Words

  // ------------------------------------------------------------ taking lots from the front of a list

  function Opposite(b: Book, side: Side): seq<Order> {
    match side
    case Bid => b.askLimits
    case Ask => b.bidLimits
  }

  function Own(b: Book, side: Side): seq<Order> {
    match side
    case Bid => b.bidLimits
    case Ask => b.askLimits
  }

  predicate Acceptable(side: Side, limit: nat, price: nat) {
    match side
    case Bid => price <= limit
    case Ask => limit <= price
  }

  /** All that is open at acceptable prices, wherever it stands in the list. */
  function OnOffer(side: Side, limit: nat, s: seq<Order>): nat {
    if s == [] then 0
    else (if Acceptable(side, limit, s[0].price) then s[0].open else 0) + OnOffer(side, limit, s[1..])
  }

  /** An order after an execution. */
  function Dealt(o: Order, price: nat, q: nat): Order
    requires q <= o.open
  {
    o.(open := o.open - q, executed := (o.executed + q) % 0x1_0000_0000_0000_0000,
       lastPrice := price % 0x1_0000_0000, lastQuantity := q)
  }

  /** The list with q lots taken from its front. */
  function Untaken(s: seq<Order>, q: nat): seq<Order> {
    if s == [] || q == 0 then s
    else if s[0].open <= q then Untaken(s[1..], q - s[0].open)
    else [Dealt(s[0], s[0].price, q)] + s[1..]
  }

  /** The taker of these q lots afterwards. */
  function Spent(t: Order, s: seq<Order>, q: nat): Order
    requires q <= t.open
    decreases |s|
  {
    if s == [] || q == 0 then t
    else
      var n := if s[0].open < q then s[0].open else q;
      Spent(Dealt(t, s[0].price, n), s[1..], q - n)
  }

  /** An execution told for both orders, the bid's first. */
  function Pair(t: Order, t': Order, m: Order): seq<Event> {
    if t.side == Bid then [Executed(t'), Executed(m)] else [Executed(m), Executed(t')]
  }

  /** What is told of it: each execution for both orders, the bid's first, and each maker that is used up. */
  function Tape(t: Order, s: seq<Order>, q: nat): seq<Event>
    requires q <= t.open
    decreases |s|
  {
    if s == [] || q == 0 then []
    else
      var n := if s[0].open < q then s[0].open else q;
      var t', m := Dealt(t, s[0].price, n), Dealt(s[0], s[0].price, n);
      Pair(t, t', m) + (if m.open == 0 then [Deleted(m)] else []) + Tape(t', s[1..], q - n)
  }

  /** The price of the last of the q lots. */
  function LastPaid(s: seq<Order>, q: nat, last: nat): nat {
    if s == [] || q == 0 then last
    else LastPaid(s[1..], if s[0].open < q then q - s[0].open else 0, s[0].price)
  }

  /** Order x stands behind order n for its price. */
  predicate Worse(x: Order, n: Order) {
    match n.kind
    case Limit => if n.side == Ask then x.price > n.price else x.price < n.price
    case Market => if n.side == Ask then x.price > n.price else x.price < n.price
    case _ => if n.side == Ask then x.stop < n.stop else x.stop > n.stop
  }

  /** List r is s with n behind all that are no worse and before all that are. */
  ghost predicate JoinsBack(s: seq<Order>, n: Order, r: seq<Order>) {
    exists i :: 0 <= i <= |s| && r == s[..i] + [n] + s[i..]
      && (forall x :: x in s[..i] ==> !Worse(x, n)) && (forall x :: x in s[i..] ==> Worse(x, n))
  }

  predicate SameStopLists(b: Book, d: Book) {
    && d.askStops == b.askStops && d.bidStops == b.bidStops
    && d.askTrails == b.askTrails && d.bidTrails == b.bidTrails
  }

  /** Order t has taken q lots, and what was left of it rests or is deleted; nothing else has happened. */
  ghost predicate Served(b: Book, t: Order, q: nat, rests: bool, d: Book)
    requires q <= t.open
  {
    var s := Opposite(b, t.side);
    var n := Spent(t, s, q);
    && d.log == b.log + Tape(t, s, q) + (if rests then [] else [Deleted(n)])
    && Opposite(d, t.side) == Untaken(s, q) && d.last == LastPaid(s, q, b.last)
    && (if rests then JoinsBack(Own(b, t.side), n, Own(d, t.side)) else Own(d, t.side) == Own(b, t.side))
    && (t.id in d.orders <==> rests) && (rests ==> d.orders[t.id] == n)
    && SameStopLists(b, d) && Struct(d)
  }

  function Least(x: nat, y: nat): nat { if x < y then x else y }

  /**
   A market order takes what it wants from the whole opposite list, at whatever prices, and never rests. A limit
   order takes what it wants of what is acceptable; the rest of it rests exactly when it is good till cancelled.
   */
  ghost predicate ToMarket(b: Book, o: Order, d: Book) {
    match o.kind
    case Market =>
      exists p: nat :: Served(b, o.(price := p), Least(o.open, Volume(Opposite(b, o.side))), false, d)
    case Limit =>
      var q := Least(o.open, OnOffer(o.side, o.price, Opposite(b, o.side)));
      Served(b, o, q, o.tif == Gtc && q < o.open, d)
    case _ => false
  }

  /** A fired stop order is told of as what it turns into, and goes to market as that. */
  ghost predicate FiredInto(b: Book, o: Order, d: Book) {
    var t := o.(kind := Into(o.kind), stop := 0, trail := 0);
    ToMarket(b.(log := b.log + [Updated(t)]), t, d)
  }

  // ------------------------------------------------------------ what this means in numbers

  /** The taker's open quantity falls by q, its executed quantity rises by as much; its terms stay. */
  lemma {:induction false} SpentTotals(t: Order, s: seq<Order>, q: nat)
    requires q <= t.open && q <= Volume(s)
    ensures
      var n := Spent(t, s, q);
      && n.open == t.open - q && n.executed % WORD64 == (t.executed + q) % WORD64
      && n == t.(open := n.open, executed := n.executed, lastPrice := n.lastPrice, lastQuantity := n.lastQuantity)
    decreases |s|
  {
    if s != [] && q != 0 {
      var n := if s[0].open < q then s[0].open else q;
      var t' := Dealt(t, s[0].price, n);
      SpentTotals(t', s[1..], q - n);
      SumRemainder(t.executed, n, q - n);
    }
  }

  lemma SumRemainder(x: nat, y: nat, z: nat)
    ensures ((x + y) % WORD64 + z) % WORD64 == (x + (y + z)) % WORD64
  {
    var k := (x + y) / WORD64;
    assert x + y == k * WORD64 + (x + y) % WORD64;
    RemainderShift((x + y) % WORD64 + z, k);
  }

  lemma RemainderShift(a: nat, k: nat)
    ensures (a + k * WORD64) % WORD64 == a % WORD64
  {
  }

  /** Both sides trade just q. */
  lemma {:induction false} TapeTrades(log: seq<Event>, t: Order, s: seq<Order>, q: nat, side: Side)
    requires q <= t.open && q <= Volume(s) && forall m :: m in s ==> m.side != t.side
    ensures Traded(log + Tape(t, s, q), side) == Traded(log, side) + q
    decreases |s|
  {
    hide Traded, Pair;
    if s == [] || q == 0 {
      assert log + [] == log;
    } else {
      var n := Least(s[0].open, q);
      var t', m := Dealt(t, s[0].price, n), Dealt(s[0], s[0].price, n);
      var told := Pair(t, t', m) + if m.open == 0 then [Deleted(m)] else [];
      assert s[0] in s && forall x :: x in s[1..] ==> x in s;
      PairTrades(log, t, t', m, side);
      TapeTrades(log + told, t', s[1..], q - n, side);
      FirstLots(t, s, q);
      hide Tape;
      Reassociate(log, told, Tape(t', s[1..], q - n));
    }
  }

  lemma PairTrades(log: seq<Event>, t: Order, t': Order, m: Order, side: Side)
    requires t'.side == t.side != m.side && t'.lastQuantity == m.lastQuantity
    ensures Traded(log + (Pair(t, t', m) + if m.open == 0 then [Deleted(m)] else []), side)
      == Traded(log, side) + m.lastQuantity
  {
    hide Traded, Discarded, Firings;
    var e := Pair(t, t', m);
    LedgerEmit(log, e[0]);
    LedgerEmit(log + [e[0]], e[1]);
    LedgerEmit(log + [e[0]] + [e[1]], Deleted(m));
    assert log + (e + [Deleted(m)]) == log + [e[0]] + [e[1]] + [Deleted(m)];
    assert log + (e + []) == log + [e[0]] + [e[1]];
  }

  /** No maker is met at a price the taker does not accept. */
  lemma {:induction false} TapeWithin(t: Order, s: seq<Order>, q: nat, side: Side, limit: nat)
    requires q <= t.open && q <= OnOffer(side, limit, s)
    requires forall i, j :: 0 <= i < j < |s| && Acceptable(side, limit, s[j].price) ==>
      Acceptable(side, limit, s[i].price)
    ensures forall e :: e in Tape(t, s, q) && e.order.id != t.id ==> Acceptable(side, limit, e.order.price)
    decreases |s|
  {
    if s != [] && q != 0 {
      var n := if s[0].open < q then s[0].open else q;
      if !Acceptable(side, limit, s[0].price) {
        NoneOnOffer(side, limit, s);
      }
      TapeWithin(Dealt(t, s[0].price, n), s[1..], q - n, side, limit);
    }
  }

  lemma {:induction false} NoneOnOffer(side: Side, limit: nat, s: seq<Order>)
    requires forall i :: 0 <= i < |s| ==> !Acceptable(side, limit, s[i].price)
    ensures OnOffer(side, limit, s) == 0
  {
    if s != [] {
      assert forall i :: 0 <= i < |s[1..]| ==> s[1..][i] == s[i + 1];
      NoneOnOffer(side, limit, s[1..]);
    }
  }

  /** Not more is on offer than is open. */
  lemma {:induction false} OfferFits(side: Side, limit: nat, s: seq<Order>)
    ensures OnOffer(side, limit, s) <= Volume(s)
  {
    if s != [] {
      OfferFits(side, limit, s[1..]);
    }
  }

  // ------------------------------------------------------------ matching takes lots from the front

  lemma {:induction false} OfferIsAvailable(k: Bin, t: Order, s: seq<Order>)
    requires k == Makers(t) && Sorted(k, s) && forall m :: m in s ==> Key(m) == m.price
    ensures Available(t, s) == OnOffer(t.side, t.price, s)
  {
    if s != [] {
      assert s[0] in s;
      if Crosses(t, s[0].price) {
        assert forall i :: 0 <= i < |s[1..]| ==> s[1..][i] == s[i + 1];
        OfferIsAvailable(k, t, s[1..]);
      } else {
        forall i | 0 <= i < |s| ensures !Acceptable(t.side, t.price, s[i].price) {
          assert s[i] in s && (i > 0 ==> !Ahead(k, Key(s[i]), Key(s[0])));
        }
        NoneOnOffer(t.side, t.price, s);
      }
    }
  }

  /** Book c and taker t' are what is left after t has taken q lots. */
  ghost predicate Swept(b: Book, t: Order, q: nat, c: Book, t': Order)
    requires q <= t.open
  {
    var s := Opposite(b, t.side);
    && c.log == b.log + Tape(t, s, q) && t' == Spent(t, s, q)
    && Opposite(c, t.side) == Untaken(s, q) && Own(c, t.side) == Own(b, t.side)
    && c.last == LastPaid(s, q, b.last)
  }

  lemma {:induction false} SweepTakes(b: Book, t: Order)
    requires Sound(b)
    ensures Swept(b, t, Least(t.open, Available(t, Opposite(b, t.side))), Sweep(b, t).0, Sweep(b, t).1)
    decreases |b.Queue(Makers(t))|, t.open
  {
    hide Placed, Indexed, Live, Uncrossed, Trade, Swept;
    if CanTrade(b, t) {
      var (b', t') := Trade(b, t);
      TradeSound(b, t);
      TakerKeeps(b, t);
      HeadIndexed(b, Makers(t));
      assert 0 < Opposite(b, t.side)[0].open by { assert Fit(b.Queue(Makers(t))[0]) by { HeadFit(b, Makers(t)); } }
      SweepTakes(b', t');
      SweptStep(b, t, Sweep(b, t).0, Sweep(b, t).1);
    } else {
      SweptNothing(b, t);
    }
  }

  lemma HeadFit(b: Book, k: Bin)
    requires Struct(b) && Live(b) && b.Queue(k) != []
    ensures Fit(b.Queue(k)[0])
  {
    HeadIndexed(b, k);
  }

  lemma SweptNothing(b: Book, t: Order)
    requires !CanTrade(b, t)
    ensures Swept(b, t, Least(t.open, Available(t, Opposite(b, t.side))), b, t)
  {
    assert Least(t.open, Available(t, Opposite(b, t.side))) == 0;
    assert b.log + [] == b.log;
  }

  lemma SweptStep(b: Book, t: Order, c: Book, u: Order)
    requires CanTrade(b, t) && 0 < Opposite(b, t.side)[0].open
    requires
      var (b', t') := Trade(b, t);
      Swept(b', t', Least(t'.open, Available(t', Opposite(b', t'.side))), c, u)
    ensures Swept(b, t, Least(t.open, Available(t, Opposite(b, t.side))), c, u)
  {
    var (b', t') := Trade(b, t);
    hide Available, Tape, Spent, Untaken, LastPaid, Trade, Dealt, Pair, Crosses, CanTrade, Opposite, Own, Least;
    TradeLots(b, t);
    var s, s' := Opposite(b, t.side), Opposite(b', t.side);
    var n := Least(s[0].open, t.open);
    var m := Dealt(s[0], s[0].price, n);
    DealtOpen(s[0], s[0].price, n);
    DealtOpen(t, s[0].price, n);
    AvailableSameTaker(t, t', s');
    LotsStep(t, t', s, s');
    var e := Pair(t, t', m) + if m.open == 0 then [Deleted(m)] else [];
    Reassociate(b.log, e, Tape(t', s', Least(t'.open, Available(t, s'))));
  }

  lemma Reassociate(a: seq<Event>, b: seq<Event>, c: seq<Event>)
    ensures a + (b + c) == a + b + c
  {
  }

  lemma DealtOpen(o: Order, price: nat, q: nat)
    requires q <= o.open
    ensures Dealt(o, price, q).open == o.open - q && Dealt(o, price, q).side == o.side
    ensures Dealt(o, price, q).price == o.price
  {
  }

  /** One trade, as lots. */
  lemma TradeLots(b: Book, t: Order)
    requires CanTrade(b, t)
    ensures Opposite(b, t.side) != [] && Crosses(t, Opposite(b, t.side)[0].price) && 0 < t.open
    ensures
      var (b', t') := Trade(b, t);
      var s := Opposite(b, t.side);
      var q := Least(s[0].open, t.open);
      var m := Dealt(s[0], s[0].price, q);
      && t' == Dealt(t, s[0].price, q) && b'.last == s[0].price
      && b'.log == b.log
        + (Pair(t, t', m) + if m.open == 0 then [Deleted(m)] else [])
      && Opposite(b', t.side) == (if m.open == 0 then s[1..] else [m] + s[1..])
      && Own(b', t.side) == Own(b, t.side)
  {
  }

  /** The first maker met, and the rest. */
  lemma FirstLots(t: Order, s: seq<Order>, q: nat)
    requires s != [] && 0 < q <= t.open
    ensures
      var n := Least(s[0].open, q);
      var t', m := Dealt(t, s[0].price, n), Dealt(s[0], s[0].price, n);
      && Tape(t, s, q) == Pair(t, t', m) + (if m.open == 0 then [Deleted(m)] else []) + Tape(t', s[1..], q - n)
      && Spent(t, s, q) == Spent(t', s[1..], q - n)
      && Untaken(s, q) == (if m.open == 0 then Untaken(s[1..], q - n) else [m] + s[1..])
      && forall last :: LastPaid(s, q, last) == LastPaid(s[1..], q - n, s[0].price)
  {
  }

  lemma NoLots(t: Order, s: seq<Order>)
    ensures Tape(t, s, 0) == [] && Spent(t, s, 0) == t && Untaken(s, 0) == s
    ensures forall last :: LastPaid(s, 0, last) == last
  {
  }

  lemma LotsNumbers(t: Order, t': Order, s: seq<Order>, s': seq<Order>)
    requires s != [] && Crosses(t, s[0].price) && 0 < t.open && 0 < s[0].open
    requires
      var n := Least(s[0].open, t.open);
      t'.open == t.open - n && (s[0].open == n ==> s' == s[1..])
    ensures
      var n := Least(s[0].open, t.open);
      var q, q' := Least(t.open, Available(t, s)), Least(t'.open, Available(t, s'));
      && 0 < q && n == Least(s[0].open, q) && q' == q - n && (n < s[0].open ==> q' == 0)
  {
    assert Available(t, s) == s[0].open + Available(t, s[1..]);
  }

  lemma LotsStep(t: Order, t': Order, s: seq<Order>, s': seq<Order>)
    requires s != [] && Crosses(t, s[0].price) && 0 < t.open && 0 < s[0].open
    requires
      var n := Least(s[0].open, t.open);
      t' == Dealt(t, s[0].price, n)
      && s' == if s[0].open == n then s[1..] else [Dealt(s[0], s[0].price, n)] + s[1..]
    ensures
      var n := Least(s[0].open, t.open);
      var q, q' := Least(t.open, Available(t, s)), Least(t'.open, Available(t, s'));
      var m := Dealt(s[0], s[0].price, n);
      && Tape(t, s, q) == Pair(t, t', m) + (if m.open == 0 then [Deleted(m)] else []) + Tape(t', s', q')
      && Spent(t, s, q) == Spent(t', s', q') && Untaken(s, q) == Untaken(s', q')
      && forall last :: LastPaid(s, q, last) == LastPaid(s', q', s[0].price)
  {
    hide Pair, Available, Tape, Spent, Untaken, LastPaid;
    LotsNumbers(t, t', s, s');
    FirstLots(t, s, Least(t.open, Available(t, s)));
    if Least(s[0].open, t.open) < s[0].open {
      NoLots(t', s');
      NoLots(t', s[1..]);
    }
  }

  // ------------------------------------------------------------ submitting

  /** The lists in question are sorted by price and hold limit orders of their side. */
  lemma LimitLists(b: Book, side: Side)
    requires Sound(b)
    ensures
      var k := if side == Ask then BidLimits else AskLimits;
      && Sorted(k, Opposite(b, side)) && b.Queue(k) == Opposite(b, side)
      && forall m :: m in Opposite(b, side) ==>
        Key(m) == m.price && m.side != side && m.price <= MAX64 && BinOf(m) == k && 0 < m.open
  {
    hide Indexed, Uncrossed, Sorted, DistinctIds;
    var k := if side == Ask then BidLimits else AskLimits;
    assert Placed(b, k) && b.Queue(k) == Opposite(b, side);
    forall m | m in Opposite(b, side)
      ensures Key(m) == m.price && m.side != side && m.price <= MAX64 && BinOf(m) == k && 0 < m.open
    {
      assert Fit(b.orders[m.id]);
    }
  }

  /** Fill-or-kill leaves off only where there is nothing to take. */
  lemma MatchTakes(b: Book, o: Order)
    requires Sound(b)
    ensures Swept(b, o, Least(o.open, Available(o, Opposite(b, o.side))), Match(b, o).0, Match(b, o).1)
  {
    hide Sound, Swept, Sweep;
    SweepTakes(b, o);
    if o.tif == Fok && !CanMatch(b, o) {
      SweptNothing(b, o);
    }
  }

  lemma {:induction false} AllAvailable(t: Order, s: seq<Order>)
    requires t.price == if t.side == Ask then 0 else MAX64
    requires forall m :: m in s ==> m.price <= MAX64
    ensures Available(t, s) == Volume(s)
  {
    if s != [] {
      assert s[0] in s && forall m :: m in s[1..] ==> m in s;
      AllAvailable(t, s[1..]);
    }
  }

  lemma AddMarketServes(b: Book, o: Order)
    requires Ready(b, o) && o.kind == Market
    ensures ToMarket(b, o, AddMarket(b, o))
  {
    hide Sound, Struct, Swept, Match, Volume, Available, Tape, Spent, Untaken, LastPaid;
    var t := o.(price := if o.IsAsk() then 0 else MAX64);
    LimitLists(b, o.side);
    AllAvailable(t, Opposite(b, o.side));
    MatchTakes(b, t);
    MatchSound(b, t);
    AddMarketSound(b, o);
    SoundStruct(AddMarket(b, o));
    ServedDeleted(b, t, Least(o.open, Volume(Opposite(b, o.side))), Match(b, t).0, Match(b, t).1);
    assert AddMarket(b, o) == Match(b, t).0.Emit(Deleted(Match(b, t).1));
    assert Served(b, o.(price := t.price), Least(o.open, Volume(Opposite(b, o.side))), false, AddMarket(b, o));
  }

  lemma SoundStruct(b: Book)
    requires Sound(b)
    ensures Struct(b)
  {
  }

  lemma ServedDeleted(b: Book, t: Order, q: nat, c: Book, u: Order)
    requires q <= t.open && Swept(b, t, q, c, u) && SameStops(b, c) && Struct(c.Emit(Deleted(u))) && t.id !in c.orders
    ensures Served(b, t, q, false, c.Emit(Deleted(u)))
  {
    hide Struct, Tape, Spent, Untaken, LastPaid;
  }

  lemma AddLimitServes(b: Book, o: Order)
    requires Ready(b, o) && o.kind == Limit
    ensures ToMarket(b, o, AddLimit(b, o))
  {
    hide Sound, Struct, Swept, Match, Volume, Available, Tape, Spent, Untaken, LastPaid, Rest, JoinsBack, Served;
    var s := Opposite(b, o.side);
    var q := Least(o.open, OnOffer(o.side, o.price, s));
    LimitLists(b, o.side);
    OfferIsAvailable(Makers(o), o, s);
    OfferFits(o.side, o.price, s);
    MatchTakes(b, o);
    MatchSound(b, o);
    var (c, n) := Match(b, o);
    AddLimitSound(b, o);
    SoundStruct(AddLimit(b, o));
    SpentTotals(o, s, q);
    SweptTaker(b, o, q, c, n);
    if !n.IsFilled() && o.tif == Gtc {
      RestJoins(c, n);
      ServedResting(b, o, q, c, n);
    } else {
      ServedDeleted(b, o, q, c, n);
    }
  }

  lemma SweptTaker(b: Book, t: Order, q: nat, c: Book, u: Order)
    requires q <= t.open && Swept(b, t, q, c, u)
    ensures u == Spent(t, Opposite(b, t.side), q)
  {
    hide Tape, Spent, Untaken, LastPaid;
  }

  lemma ServedResting(b: Book, t: Order, q: nat, c: Book, n: Order)
    requires q <= t.open && Swept(b, t, q, c, n) && SameStops(b, c) && Struct(Rest(c, n))
    requires t.kind == Limit && n.kind == Limit && n.side == t.side && n.id == t.id
    requires JoinsBack(Own(c, n.side), n, Own(Rest(c, n), n.side))
    ensures Served(b, t, q, true, Rest(c, n))
  {
    hide Struct, Tape, Spent, Untaken, LastPaid, JoinsBack, Insert;
    assert b.log + Tape(t, Opposite(b, t.side), q) + [] == b.log + Tape(t, Opposite(b, t.side), q);
  }

  /** An order put to rest joins its level at the back. */
  lemma RestJoins(b: Book, n: Order)
    requires Sound(b) && n.kind == Limit
    ensures JoinsBack(Own(b, n.side), n, Own(Rest(b, n), n.side))
  {
    hide Indexed, Live, Uncrossed, Insert, JoinsBack, Sorted, DistinctIds;
    var k := BinOf(n);
    assert Placed(b, k) && b.Queue(k) == Own(b, n.side) && Rest(b, n).Queue(k) == Own(Rest(b, n), n.side);
    InsertJoins(k, b.Queue(k), n);
  }

  lemma InsertJoins(k: Bin, s: seq<Order>, n: Order)
    requires k == BinOf(n) && Sorted(k, s) && forall x :: x in s ==> BinOf(x) == k
    ensures JoinsBack(s, n, Insert(k, s, n))
  {
    hide Slot, Sorted;
    var i := Slot(k, s, n);
    forall x | x in s[..i] ensures !Worse(x, n) {
      var j :| 0 <= j < i && s[j] == x;
      WorseIsBehind(k, x, n);
    }
    forall x | x in s[i..] ensures Worse(x, n) {
      var j :| i <= j < |s| && s[j] == x;
      BehindSlot(k, s, n, i, j);
      assert x in s;
      WorseIsBehind(k, x, n);
    }
  }

  lemma BehindSlot(k: Bin, s: seq<Order>, n: Order, i: nat, j: nat)
    requires Sorted(k, s) && i <= j < |s| && Ahead(k, Key(n), Key(s[i]))
    ensures Ahead(k, Key(n), Key(s[j]))
  {
    hide Key;
    assert i < j ==> !Ahead(k, Key(s[j]), Key(s[i]));
  }

  lemma WorseIsBehind(k: Bin, x: Order, n: Order)
    requires BinOf(x) == k && BinOf(n) == k
    ensures Worse(x, n) <==> Ahead(k, Key(n), Key(x))
  {
  }

  lemma FireServes(b: Book, o: Order)
    requires Ready(b, o) && Waits(o)
    ensures FiredInto(b, o, Fire(b, o))
  {
    hide Struct, Live, Uncrossed, AddMarket, AddLimit, ToMarket;
    var t := o.(kind := Into(o.kind), stop := 0, trail := 0);
    assert t == o.Triggered();
    var c := b.Emit(Updated(t));
    ReadyEmit(b, o, t, Updated(t));
    if t.kind == Market {
      AddMarketServes(c, t);
    } else {
      AddLimitServes(c, t);
    }
  }

  lemma ReadyEmit(b: Book, o: Order, t: Order, e: Event)
    requires Ready(b, o) && t.id == o.id && t.open == o.open
    requires t.price == o.price && t.stop <= MAX64 && t.trail <= MAX64
    requires t.kind == Limit || t.kind == StopLimit || t.kind == TrailingStopLimit ==> 0 < o.price
    ensures Ready(b.Emit(e), t)
  {
    hide Placed, Indexed;
    StructOnly(b, b.Emit(e));
  }

  /** A limit or market order on arrival: told of, then brought to market. */
  lemma SubmitServes(b: Book, o: Order)
    requires Ready(b, o) && (o.kind == Limit || o.kind == Market)
    ensures ToMarket(b.(log := b.log + [Added(o)]), o, Submit(b, o))
  {
    hide Struct, Live, Uncrossed, AddMarket, AddLimit, ToMarket;
    ReadyEmit(b, o, o, Added(o));
    if o.kind == Market {
      AddMarketServes(b.Emit(Added(o)), o);
    } else {
      AddLimitServes(b.Emit(Added(o)), o);
    }
  }

  // ------------------------------------------------------------ the outcomes in numbers

  /** The last thing told is that this order is deleted, with so much left open. */
  predicate EndsDeleted(log: seq<Event>, id: nat, open: nat) {
    log != [] && var e := log[|log| - 1]; e.Deleted? && e.order.id == id && e.order.open == open
  }

  /** What the order becomes apart from what is executed. */
  predicate Keeps(t: Order, n: Order, q: nat) {
    && n.open + q == t.open && n.executed % WORD64 == (t.executed + q) % WORD64
    && n == t.(open := n.open, executed := n.executed, lastPrice := n.lastPrice, lastQuantity := n.lastQuantity)
  }

  lemma ServedNumbers(b: Book, t: Order, q: nat, rests: bool, d: Book)
    requires Sound(b) && q <= t.open && q <= Volume(Opposite(b, t.side)) && Served(b, t, q, rests, d)
    ensures forall side :: Traded(d.log, side) == Traded(b.log, side) + q
    ensures rests ==> t.id in d.orders && Keeps(t, d.orders[t.id], q)
    ensures !rests ==> t.id !in d.orders && EndsDeleted(d.log, t.id, t.open - q)
  {
    hide Sound, Tape, Spent, Untaken, LastPaid, JoinsBack, Struct, Volume, Traded, Firings;
    var s := Opposite(b, t.side);
    LimitLists(b, t.side);
    SpentTotals(t, s, q);
    forall side ensures Traded(d.log, side) == Traded(b.log, side) + q {
      TapeTrades(b.log, t, s, q, side);
      LedgerEmit(b.log + Tape(t, s, q), Deleted(Spent(t, s, q)));
      assert b.log + Tape(t, s, q) + [] == b.log + Tape(t, s, q);
    }
  }

  /** Makers are met at acceptable prices only. */
  ghost predicate Within(b: Book, d: Book, id: nat, side: Side, limit: nat) {
    forall i :: |b.log| <= i < |d.log| && d.log[i].order.id != id ==> Acceptable(side, limit, d.log[i].order.price)
  }

  lemma ServedWithin(b: Book, t: Order, q: nat, rests: bool, d: Book)
    requires Sound(b) && q <= t.open && q <= OnOffer(t.side, t.price, Opposite(b, t.side)) && Served(b, t, q, rests, d)
    ensures Within(b, d, t.id, t.side, t.price)
  {
    hide Sound, Tape, Spent, Untaken, LastPaid, JoinsBack, Struct, OnOffer, Acceptable;
    var s := Opposite(b, t.side);
    LimitLists(b, t.side);
    SortedAcceptable(b, t);
    OfferFits(t.side, t.price, s);
    SpentTotals(t, s, q);
    TapeWithin(t, s, q, t.side, t.price);
    forall i | |b.log| <= i < |d.log| && d.log[i].order.id != t.id
      ensures Acceptable(t.side, t.price, d.log[i].order.price)
    {
      if i < |b.log| + |Tape(t, s, q)| {
        assert d.log[i] == Tape(t, s, q)[i - |b.log|];
      }
    }
  }

  lemma SortedAcceptable(b: Book, t: Order)
    requires Sound(b)
    ensures
      var s := Opposite(b, t.side);
      forall i, j :: 0 <= i < j < |s| && Acceptable(t.side, t.price, s[j].price) ==>
        Acceptable(t.side, t.price, s[i].price)
  {
    hide Sound;
    LimitLists(b, t.side);
    var s := Opposite(b, t.side);
    forall i, j | 0 <= i < j < |s| && Acceptable(t.side, t.price, s[j].price)
      ensures Acceptable(t.side, t.price, s[i].price)
    {
      assert s[i] in s && s[j] in s;
    }
  }

  /**
   A market order trades as much as it wants and the whole opposite list has; the rest of it is deleted, and it
   leaves the opposite list with just these lots taken from the front.
   */
  lemma MarketOrderTrades(b: Book, o: Order)
    requires Ready(b, o) && o.kind == Market
    ensures
      var d, s := Submit(b, o), Opposite(b, o.side);
      var q := Least(o.open, Volume(s));
      && (forall side :: Traded(d.log, side) == Traded(b.log, side) + q)
      && o.id !in d.orders && EndsDeleted(d.log, o.id, o.open - q)
      && Opposite(d, o.side) == Untaken(s, q)
  {
    hide Struct, Live, Uncrossed, Served, Submit, Untaken, Traded, Volume, Firings;
    var c, q := b.(log := b.log + [Added(o)]), Least(o.open, Volume(Opposite(b, o.side)));
    SubmitServes(b, o);
    ReadyEmit(b, o, o, Added(o));
    LedgerEmit(b.log, Added(o));
    var p: nat :| Served(c, o.(price := p), Least(o.open, Volume(Opposite(c, o.side))), false, Submit(b, o));
    ServedNumbers(c, o.(price := p), q, false, Submit(b, o));
    ServedList(c, o.(price := p), q, false, Submit(b, o));
  }

  lemma ServedList(b: Book, t: Order, q: nat, rests: bool, d: Book)
    requires q <= t.open && Served(b, t, q, rests, d)
    ensures Opposite(d, t.side) == Untaken(Opposite(b, t.side), q)
  {
    hide Tape, Spent, Untaken, LastPaid, JoinsBack, Struct;
  }

  /**
   A limit order trades as much as it wants and is on offer at acceptable prices, at such prices only. The rest of
   it rests exactly when there is some and the order is good till cancelled; otherwise it is deleted.
   */
  lemma LimitOrderRests(b: Book, o: Order)
    requires Ready(b, o) && o.kind == Limit
    ensures
      var d := Submit(b, o);
      var offer := OnOffer(o.side, o.price, Opposite(b, o.side));
      var q := Least(o.open, offer);
      && (forall side :: Traded(d.log, side) == Traded(b.log, side) + q)
      && Within(b.Emit(Added(o)), d, o.id, o.side, o.price)
      && (o.id in d.orders <==> o.tif == Gtc && offer < o.open)
      && (o.id in d.orders ==> Keeps(o, d.orders[o.id], offer))
      && (o.id !in d.orders ==> EndsDeleted(d.log, o.id, o.open - q))
      && Opposite(d, o.side) == Untaken(Opposite(b, o.side), q)
  {
    hide Struct, Live, Uncrossed, Served, Submit, Untaken, Traded, Volume, OnOffer, Firings, Within, Keeps;
    var c, q := b.(log := b.log + [Added(o)]), Least(o.open, OnOffer(o.side, o.price, Opposite(b, o.side)));
    SubmitServes(b, o);
    ReadyEmit(b, o, o, Added(o));
    LedgerEmit(b.log, Added(o));
    OfferFits(o.side, o.price, Opposite(b, o.side));
    ServedNumbers(c, o, q, o.tif == Gtc && q < o.open, Submit(b, o));
    ServedWithin(c, o, q, o.tif == Gtc && q < o.open, Submit(b, o));
    ServedList(c, o, q, o.tif == Gtc && q < o.open, Submit(b, o));
  }

  /**
   What a fired stop order does: without a limit it trades as much as the whole opposite list has and never rests;
   with one it stays within it, and a good-till-cancelled remainder rests as a limit order.
   */
  lemma FiredOrderTrades(b: Book, o: Order, d: Book)
    requires Ready(b, o) && Waits(o) && FiredInto(b, o, d)
    ensures
      var s := Opposite(b, o.side);
      if o.kind == Stop || o.kind == TrailingStop then Takes(b, o, Volume(s), d) && o.id !in d.orders
      else
        var offer := OnOffer(o.side, o.price, s);
        && Takes(b, o, offer, d)
        && Within(b, d, o.id, o.side, o.price)
        && (o.id in d.orders <==> o.tif == Gtc && offer < o.open)
        && (o.id in d.orders ==> Keeps(o.(kind := Limit, stop := 0, trail := 0), d.orders[o.id], offer))
  {
    hide Struct, Live, Uncrossed, Served, Traded, Volume, OnOffer, Firings, Keeps, Acceptable, Within;
    var t := o.(kind := Into(o.kind), stop := 0, trail := 0);
    var c := b.(log := b.log + [Updated(t)]);
    LedgerEmit(b.log, Updated(t));
    ReadyEmit(b, o, t, Updated(t));
    if t.kind == Market {
      var p: nat :| Served(c, t.(price := p), Least(t.open, Volume(Opposite(c, t.side))), false, d);
      ServedNumbers(c, t.(price := p), Least(t.open, Volume(Opposite(c, t.side))), false, d);
    } else {
      var q := Least(t.open, OnOffer(t.side, t.price, Opposite(c, t.side)));
      OfferFits(t.side, t.price, Opposite(b, t.side));
      ServedNumbers(c, t, q, t.tif == Gtc && q < t.open, d);
      ServedWithin(c, t, q, t.tif == Gtc && q < t.open, d);
      ServedLog(c, t, q, t.tif == Gtc && q < t.open, d);
      WithinSince(b, Updated(t), d, t.id, t.side, t.price);
    }
  }

  lemma ServedLog(b: Book, t: Order, q: nat, rests: bool, d: Book)
    requires q <= t.open && Served(b, t, q, rests, d)
    ensures b.log <= d.log
  {
    hide Tape, Spent, Untaken, LastPaid, JoinsBack, Struct;
  }

  /** An event of the order itself more or less. */
  lemma WithinSince(b: Book, e: Event, d: Book, id: nat, side: Side, limit: nat)
    requires Within(b.Emit(e), d, id, side, limit) && e.order.id == id && b.log + [e] <= d.log
    ensures Within(b, d, id, side, limit)
  {
    hide Acceptable;
  }

  /** Both sides trade the smaller of what the order wants and what there is; what does not rest is deleted. */
  ghost predicate Takes(b: Book, o: Order, there: nat, d: Book) {
    var q := Least(o.open, there);
    && (forall side :: Traded(d.log, side) == Traded(b.log, side) + q)
    && (o.id !in d.orders ==> EndsDeleted(d.log, o.id, o.open - q))
  }
}
