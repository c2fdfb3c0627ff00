/** The book's own debug checks, and that every operation keeps them. */
module BookInvariants {
  import opened Orders
  import opened Queues
  import opened BookModel
  import opened Words

  /** Each list is in price order and holds only orders of its own kind, as the index has them. */
  ghost predicate Placed(b: Book, k: Bin) {
    var s := b.Queue(k);
    && Sorted(k, s) && DistinctIds(s)
    && forall o :: o in s ==> o.id in b.orders && b.orders[o.id] == o && BinOf(o) == k && o.kind != Market
  }

  /** Each indexed order rests in the list its kind and side select. */
  ghost predicate Indexed(b: Book) {
    forall id :: id in b.orders ==>
      && b.orders[id].id == id && b.orders[id].kind != Market
      && b.orders[id] in b.Queue(BinOf(b.orders[id]))
  }

  ghost predicate Struct(b: Book) {
    (forall k :: Placed(b, k)) && Indexed(b)
  }

  /** What may be said of any resting order: unfilled, and no leftover of an immediate order. */
  ghost predicate Fit(o: Order) {
    && o.Admissible()
    && (o.kind == Limit ==> o.tif == Gtc)
    && (o.IsTrailing() ==> 0 < o.trail)
  }

  ghost predicate Live(b: Book) {
    && (forall id :: id in b.orders ==> Fit(b.orders[id]))
    && b.last <= MAX64 && b.bidMarker <= MAX64 && b.askMarker <= MAX64
  }

  ghost predicate Uncrossed(b: Book) {
    b.askLimits != [] && b.bidLimits != [] ==> b.bidLimits[0].price < b.askLimits[0].price
  }

  ghost predicate Sound(b: Book) {
    Struct(b) && Live(b) && Uncrossed(b)
  }

  // ------------------------------------------------------------ single orders

  /** An edit of one list at one id: the other lists and the other ids stay as they are. */
  ghost predicate EditAt(b: Book, c: Book, k: Bin, id: nat) {
    && (forall j :: j != k ==> c.Queue(j) == b.Queue(j))
    && (forall x :: x != id ==> (x in c.orders <==> x in b.orders))
    && (forall x :: x != id && x in b.orders ==> c.orders[x] == b.orders[x])
    && (forall o: Order :: o.id != id ==> (o in c.Queue(k) <==> o in b.Queue(k)))
    && (forall o :: o in c.Queue(k) && o.id == id ==> id in c.orders && c.orders[id] == o)
    && (id in b.orders ==> BinOf(b.orders[id]) == k)
    && (id in c.orders ==>
      BinOf(c.orders[id]) == k && c.orders[id].id == id && c.orders[id].kind != Market && c.orders[id] in c.Queue(k))
  }

  lemma EditOthers(b: Book, c: Book, k: Bin, id: nat, j: Bin)
    requires Struct(b) && EditAt(b, c, k, id) && j != k
    ensures Placed(c, j)
  {
    assert Placed(b, j);
    forall o | o in c.Queue(j) ensures o.id in c.orders && c.orders[o.id] == o {
      assert o.id != id;
    }
  }

  lemma EditStruct(b: Book, c: Book, k: Bin, id: nat)
    requires Struct(b) && EditAt(b, c, k, id)
    requires Sorted(k, c.Queue(k)) && DistinctIds(c.Queue(k))
    ensures Struct(c)
  {
    assert Placed(b, k);
    forall j ensures Placed(c, j) {
      if j != k {
        EditOthers(b, c, k, id, j);
      }
    }
    forall x | x in c.orders && x != id
      ensures c.orders[x].id == x && c.orders[x].kind != Market && c.orders[x] in c.Queue(BinOf(c.orders[x]))
    {
      assert x in b.orders;
    }
  }

  lemma RestStruct(b: Book, o: Order)
    requires Struct(b) && o.id !in b.orders && o.kind != Market
    ensures Struct(Rest(b, o))
  {
    var k := BinOf(o);
    assert Placed(b, k);
    InsertSorted(k, b.Queue(k), o);
    InsertDistinct(k, b.Queue(k), o);
    JoinStruct(b, o, Insert(k, b.Queue(k), o));
  }

  lemma JoinStruct(b: Book, o: Order, s: seq<Order>)
    requires Struct(b) && o.id !in b.orders && o.kind != Market
    requires Sorted(BinOf(o), s) && DistinctIds(s)
    requires forall x :: x in s <==> x == o || x in b.Queue(BinOf(o))
    ensures Struct(b.With(BinOf(o), s).(orders := b.orders[o.id := o]))
  {
    hide Sorted, DistinctIds, Indexed, BinOf, EditAt;
    var c := b.With(BinOf(o), s).(orders := b.orders[o.id := o]);
    assert Placed(b, BinOf(o));
    SetQueues(b, BinOf(o), s, c.orders);
    SetIsEdit(b, c, o);
    EditStruct(b, c, BinOf(o), o.id);
  }

  /** The lists of a book whose list k and index have been set. */
  lemma SetQueues(b: Book, k: Bin, s: seq<Order>, m: map<nat, Order>)
    ensures forall j :: b.With(k, s).(orders := m).Queue(j) == if j == k then s else b.Queue(j)
  {
  }

  /** Setting one order in the index and in the list of its bin is an edit at that order. */
  lemma SetIsEdit(b: Book, c: Book, o: Order)
    requires Struct(b) && o.kind != Market && (o.id in b.orders ==> BinOf(b.orders[o.id]) == BinOf(o))
    requires c.orders == b.orders[o.id := o]
    requires forall j :: j != BinOf(o) ==> c.Queue(j) == b.Queue(j)
    requires forall x :: x in c.Queue(BinOf(o)) <==> (x in b.Queue(BinOf(o)) && x.id != o.id) || x == o
    ensures EditAt(b, c, BinOf(o), o.id)
  {
    hide Placed, BinOf, Book.Queue;
  }

  lemma DropStruct(b: Book, o: Order)
    requires Struct(b) && o.id in b.orders && b.orders[o.id] == o
    ensures Struct(Drop(b, o))
  {
    hide Sorted, DistinctIds, Indexed, Without;
    var k, c := BinOf(o), Drop(b, o);
    assert Placed(b, k);
    WithoutSorted(k, b.Queue(k), o.id);
    EditStruct(b, c, k, o.id);
  }

  lemma FindResting(b: Book, id: nat)
    requires Struct(b) && id in b.orders
    ensures
      var s := b.Queue(BinOf(b.orders[id]));
      Find(s, id) < |s| && s[Find(s, id)] == b.orders[id]
  {
    var k := BinOf(b.orders[id]);
    assert Placed(b, k);
    var s := b.Queue(k);
    var j :| 0 <= j < |s| && s[j] == b.orders[id];
    assert s[Find(s, id)] in s;
  }

  lemma AmendStruct(b: Book, o: Order)
    requires Struct(b) && o.id in b.orders
    requires BinOf(o) == BinOf(b.orders[o.id]) && Key(o) == Key(b.orders[o.id]) && o.kind != Market
    ensures Struct(Amend(b, o))
  {
    hide Indexed, Sorted, DistinctIds, Put, BinOf, Key, EditAt;
    var k, c := BinOf(o), Amend(b, o);
    assert Placed(b, k);
    FindResting(b, o.id);
    PutSorted(k, b.Queue(k), o);
    SetQueues(b, k, Put(b.Queue(k), o), c.orders);
    SetIsEdit(b, c, o);
    EditStruct(b, c, k, o.id);
  }

  // ------------------------------------------------------------ matching

  lemma HeadEdits(s: seq<Order>, m: Order)
    requires s != [] && s[0].id == m.id
    ensures Put(s, m) == [m] + s[1..] && Without([m] + s[1..], m.id) == s[1..] && Without(s, m.id) == s[1..]
  {
  }

  lemma WithTwice(b: Book, k: Bin, s: seq<Order>, t: seq<Order>)
    ensures b.With(k, s).With(k, t) == b.With(k, t)
  {
  }

  lemma HeadIndexed(b: Book, k: Bin)
    requires Struct(b) && b.Queue(k) != []
    ensures
      var m := b.Queue(k)[0];
      m.id in b.orders && b.orders[m.id] == m && BinOf(m) == k && m.kind != Market
  {
    assert Placed(b, k) && b.Queue(k)[0] in b.Queue(k);
  }

  /** Settling the first maker is an edit of that order where it stands, then its removal if filled. */
  lemma SettleAsEdits(b: Book, k: Bin, m: Order)
    requires Struct(b) && b.Queue(k) != [] && m.id == b.Queue(k)[0].id && BinOf(m) == k
    ensures Settle(b, k, m) == if m.IsFilled() then Drop(Amend(b, m), m) else Amend(b, m)
  {
    var s := b.Queue(k);
    HeadEdits(s, m);
    if m.IsFilled() {
      assert b.orders[m.id := m] - {m.id} == b.orders - {m.id};
      WithTwice(b.(orders := b.orders[m.id := m]), k, [m] + s[1..], s[1..]);
    }
  }

  lemma SettleStruct(b: Book, k: Bin, m: Order)
    requires Struct(b) && b.Queue(k) != [] && m.kind != Market
    requires m.id == b.Queue(k)[0].id && BinOf(m) == k && Key(m) == Key(b.Queue(k)[0])
    ensures Struct(Settle(b, k, m)) && Settle(b, k, m).orders.Keys <= b.orders.Keys
  {
    SettleAsEdits(b, k, m);
    HeadIndexed(b, k);
    AmendStruct(b, m);
    if m.IsFilled() {
      DropStruct(Amend(b, m), m);
    }
  }

  lemma TradeStruct(b: Book, taker: Order)
    requires Struct(b) && b.Queue(Makers(taker)) != []
    ensures Struct(Trade(b, taker).0)
    ensures Trade(b, taker).0.orders.Keys <= b.orders.Keys
  {
    hide Placed, Indexed;
    var k := Makers(taker);
    var m := b.Queue(k)[0];
    HeadIndexed(b, k);
    var m' := m.Execute(m.price, Min(m.open, taker.open));
    SettleStruct(b, k, m');
    StructOnly(Settle(b, k, m'), Trade(b, taker).0);
  }

  /** The structure does not depend on prices traded, markers or the log. */
  lemma StructOnly(b: Book, c: Book)
    requires Struct(b) && b.orders == c.orders && forall k :: b.Queue(k) == c.Queue(k)
    ensures Struct(c)
  {
    forall k ensures Placed(c, k) {
      assert Placed(b, k);
    }
  }

  /** Sound apart from the order in hand. */
  ghost predicate Ready(b: Book, o: Order) {
    Sound(b) && o.id !in b.orders && o.Admissible()
  }

  lemma TradeSound(b: Book, taker: Order)
    requires Sound(b) && b.Queue(Makers(taker)) != []
    ensures Sound(Trade(b, taker).0)
    ensures Trade(b, taker).0.orders.Keys <= b.orders.Keys
  {
    hide Placed, Indexed, Live, Trade;
    TradeStruct(b, taker);
    TradeLive(b, taker);
    TradeUncrossed(b, taker);
  }

  /** A trade only takes from the head of a list, so the next best order stands further off. */
  lemma TradeUncrossed(b: Book, taker: Order)
    requires Struct(b) && Uncrossed(b) && b.Queue(Makers(taker)) != []
    ensures Uncrossed(Trade(b, taker).0)
  {
    hide Indexed;
    var k := Makers(taker);
    var s := b.Queue(k);
    assert Placed(b, k) && s[0] in s;
    if |s| > 1 {
      assert !Ahead(k, Key(s[1]), Key(s[0])) && s[1] in s;
    }
  }

  lemma TradeLive(b: Book, taker: Order)
    requires Sound(b) && b.Queue(Makers(taker)) != []
    ensures Live(Trade(b, taker).0)
  {
    var k := Makers(taker);
    var m := b.Queue(k)[0];
    assert Placed(b, k) && m in b.Queue(k);
  }

  /** Matching keeps the book sound, and stops only when nothing is left to trade. */
  lemma SweepSound(b: Book, o: Order)
    requires Sound(b)
    ensures Sound(Sweep(b, o).0) && !CanTrade(Sweep(b, o).0, Sweep(b, o).1)
    ensures Sweep(b, o).0.orders.Keys <= b.orders.Keys
    decreases |b.Queue(Makers(o))|, o.open
  {
    if CanTrade(b, o) {
      var (b', o') := Trade(b, o);
      TradeSound(b, o);
      SweepSound(b', o');
    }
  }

  lemma MatchSound(b: Book, o: Order)
    requires Ready(b, o)
    ensures Sound(Match(b, o).0) && Match(b, o).0.orders.Keys <= b.orders.Keys
    ensures SameTerms(o, Match(b, o).1) && Match(b, o).1.open <= o.open
    ensures o.tif != Fok ==> !CanTrade(Match(b, o).0, Match(b, o).1)
  {
    SweepSound(b, o);
    SweepKeepsTaker(b, o);
  }

  /** A remainder that trades with nothing can rest without crossing. */
  lemma RestUncrossed(b: Book, o: Order)
    requires Sound(b) && o.kind == Limit && o.id !in b.orders && Fit(o) && !CanTrade(b, o)
    ensures Sound(Rest(b, o))
  {
    RestStruct(b, o);
    var k := BinOf(o);
    var s, r := b.Queue(k), Insert(k, b.Queue(k), o);
    assert r[0] == o || (s != [] && r[0] == s[0]);
    RestUncrossedAt(b, o, r);
  }

  lemma RestUncrossedAt(b: Book, o: Order, r: seq<Order>)
    requires Sound(b) && o.kind == Limit && Fit(o) && !CanTrade(b, o)
    requires r != [] && (r[0] == o || (b.Queue(BinOf(o)) != [] && r[0] == b.Queue(BinOf(o))[0]))
    ensures Uncrossed(b.With(BinOf(o), r).(orders := b.orders[o.id := o]))
  {
  }

  lemma AddLimitSound(b: Book, o: Order)
    requires Ready(b, o) && o.kind == Limit
    ensures Sound(AddLimit(b, o)) && AddLimit(b, o).orders.Keys <= b.orders.Keys + {o.id}
  {
    MatchSound(b, o);
    var (b', o') := Match(b, o);
    if !o'.IsFilled() && o.tif == Gtc {
      RestUncrossed(b', o');
    } else {
      StructOnly(b', b'.Emit(Deleted(o')));
    }
  }

  lemma AddMarketSound(b: Book, o: Order)
    requires Ready(b, o) && o.kind == Market
    ensures Sound(AddMarket(b, o)) && AddMarket(b, o).orders.Keys <= b.orders.Keys + {o.id}
  {
    var p := o.(price := if o.IsAsk() then 0 else MAX64);
    MatchSound(b, p);
    var (b', o') := Match(b, p);
    StructOnly(b', b'.Emit(Deleted(o')));
  }

  lemma DropSound(b: Book, o: Order)
    requires Sound(b) && o.id in b.orders && b.orders[o.id] == o
    ensures Sound(Drop(b, o)) && Ready(Drop(b, o), o)
  {
    DropStruct(b, o);
    assert Fit(o);
    assert Placed(b, BinOf(o)) && Placed(b, AskLimits) && Placed(b, BidLimits);
    WithoutSorted(BinOf(o), b.Queue(BinOf(o)), o.id);
    HeadsStayApart(b, Drop(b, o));
  }

  /** A limit list that only loses orders cannot come to cross. */
  lemma HeadsStayApart(b: Book, c: Book)
    requires Struct(b) && Uncrossed(b)
    requires Within(b, c.askLimits, AskLimits) && Within(b, c.bidLimits, BidLimits)
    ensures Uncrossed(c)
  {
    if c.askLimits != [] && c.bidLimits != [] {
      assert c.askLimits[0] in c.askLimits && c.bidLimits[0] in c.bidLimits;
      PricesApart(b, b.orders[c.askLimits[0].id], b.orders[c.bidLimits[0].id]);
    }
  }

  /** Orders standing in list k of book b, at the same price. */
  ghost predicate Within(b: Book, s: seq<Order>, k: Bin) {
    forall o :: o in s ==> o.id in b.orders && b.orders[o.id] in b.Queue(k) && b.orders[o.id].price == o.price
  }

  lemma PricesApart(b: Book, a: Order, x: Order)
    requires Struct(b) && Uncrossed(b) && a in b.askLimits && x in b.bidLimits
    ensures x.price < a.price
  {
    assert Placed(b, AskLimits) && Placed(b, BidLimits);
    HeadIsBest(AskLimits, b.askLimits, a);
    HeadIsBest(BidLimits, b.bidLimits, x);
    HeadIndexed(b, AskLimits);
    HeadIndexed(b, BidLimits);
  }

  lemma HeadIsBest(k: Bin, s: seq<Order>, o: Order)
    requires Sorted(k, s) && o in s
    ensures !Ahead(k, Key(o), Key(s[0]))
  {
    var i :| 0 <= i < |s| && s[i] == o;
  }

  // ------------------------------------------------------------ stop orders

  lemma FireSound(b: Book, o: Order)
    requires Ready(b, o) && o.kind != Limit && o.kind != Market
    ensures Sound(Fire(b, o)) && Fire(b, o).orders.Keys <= b.orders.Keys + {o.id}
  {
    var t := o.Triggered();
    var b' := b.Emit(Updated(t));
    StructOnly(b, b');
    if t.kind == Market { AddMarketSound(b', t); } else { AddLimitSound(b', t); }
  }

  lemma TrailedStopInRange(o: Order, last: nat)
    requires o.trail <= MAX64 && last <= MAX64
    ensures TrailedStop(o, last) <= MAX64
  {
  }

  /** A trailing stop without a distance is reached at once. */
  lemma NoTrailIsReached(b: Book, o: Order)
    requires o.trail == 0 && b.last <= MAX64
    ensures Reached(o.side, TrailedStop(o, b.last), MarketPrice(b, o.side))
  {
  }

  lemma RestStopSound(b: Book, o: Order)
    requires Ready(b, o) && o.kind != Limit && o.kind != Market && (o.IsTrailing() ==> 0 < o.trail)
    ensures Sound(Rest(b, o)) && Rest(b, o).orders.Keys == b.orders.Keys + {o.id}
  {
    hide Placed, Indexed, Insert;
    RestStruct(b, o);
  }

  lemma AddStopSound(b: Book, o: Order)
    requires Ready(b, o) && o.kind != Limit && o.kind != Market
    ensures Sound(AddStop(b, o)) && AddStop(b, o).orders.Keys <= b.orders.Keys + {o.id}
  {
    hide Struct, Uncrossed, Fire, Rest, TrailedStop;
    TrailedStopInRange(o, b.last);
    var o' := if o.IsTrailing() then Restopped(o, b.last) else o;
    if Reached(o.side, o'.stop, MarketPrice(b, o.side)) {
      FireSound(b, o');
    } else {
      if o.trail == 0 {
        NoTrailIsReached(b, o);
      }
      RestStopSound(b, o');
    }
  }

  /** Taking the first stop order out is erasing it from the book. */
  lemma FireHeadIsFire(b: Book, k: Bin)
    requires Struct(b) && !LimitBin(k) && b.Queue(k) != []
    ensures FireHead(b, k) == Fire(Drop(b, b.Queue(k)[0]), b.Queue(k)[0])
    ensures FireHead(b, k).Queue(k) == b.Queue(k)[1..]
  {
    hide Placed, Indexed, Fire;
    HeadIndexed(b, k);
    HeadEdits(b.Queue(k), b.Queue(k)[0]);
  }

  lemma FireHeadSound(b: Book, k: Bin)
    requires Sound(b) && !LimitBin(k) && b.Queue(k) != []
    ensures Sound(FireHead(b, k)) && FireHead(b, k).orders.Keys <= b.orders.Keys
  {
    hide Placed, Indexed, Live, Uncrossed, Fire, FireHead;
    HeadIndexed(b, k);
    FireHeadIsFire(b, k);
    var o := b.Queue(k)[0];
    DropSound(b, o);
    FireSound(Drop(b, o), o);
  }

  lemma DrainSound(b: Book, k: Bin, market: nat)
    requires Sound(b) && !LimitBin(k)
    ensures Sound(Drain(b, k, market)) && Drain(b, k, market).orders.Keys <= b.orders.Keys
    decreases |b.Queue(k)|
  {
    if b.Queue(k) != [] && Reached(SideOf(k), Key(b.Queue(k)[0]), market) {
      FireHeadSound(b, k);
      DrainSound(FireHead(b, k), k, market);
    }
  }

  lemma ActivateSound(b: Book)
    requires Sound(b)
    ensures Sound(ActivateBids(b)) && ActivateBids(b).orders.Keys <= b.orders.Keys
    ensures Sound(ActivateAsks(b)) && ActivateAsks(b).orders.Keys <= b.orders.Keys
  {
    DrainSound(b, BidStops, b.LastAsk());
    var b' := Drain(b, BidStops, b.LastAsk());
    DrainSound(b', BidTrails, b'.LastAsk());
    DrainSound(b, AskStops, b.LastBid());
    var c' := Drain(b, AskStops, b.LastBid());
    DrainSound(c', AskTrails, c'.LastBid());
  }

  lemma EmptyIsSound()
    ensures Sound(EmptyBook)
  {
    forall k ensures Placed(EmptyBook, k) {
      assert EmptyBook.Queue(k) == [];
    }
  }
}
