/** Matching against a price-time list, and what fill-or-kill gets from it. */
module Matching {
  import opened Orders
  import opened Queues
  import opened BookModel
  import opened BookInvariants
  import opened Words

  datatype Fill = Fill(maker: nat, price: nat, quantity: nat)

  /** The matcher in its simplest form: one maker after the other, first in the list first served. */
  function Fills(taker: Order, open: nat, makers: seq<Order>): seq<Fill> {
    if makers == [] || open == 0 || !Crosses(taker, makers[0].price) then []
    else
      var q := Min(makers[0].open, open);
      [Fill(makers[0].id, makers[0].price, q)] + Fills(taker, open - q, makers[1..])
  }

  function Filled(fills: seq<Fill>): nat {
    if fills == [] then 0 else fills[0].quantity + Filled(fills[1..])
  }

  /** Open quantity at prices the taker accepts: what fill-or-kill should look at. */
  function Available(taker: Order, makers: seq<Order>): nat {
    if makers == [] || !Crosses(taker, makers[0].price) then 0
    else makers[0].open + Available(taker, makers[1..])
  }

  // ------------------------------------------------------------ properties of the simple matcher

  /** Fill i is with maker i, at that maker's price, within the taker's limit; prices only get worse for the taker. */
  lemma {:induction false} FillsFollowTheList(k: Bin, taker: Order, open: nat, makers: seq<Order>)
    requires k == Makers(taker) && Sorted(k, makers) && forall m :: m in makers ==> Key(m) == m.price
    ensures
      var f := Fills(taker, open, makers);
      && |f| <= |makers|
      && (forall i :: 0 <= i < |f| ==> f[i].maker == makers[i].id && f[i].price == makers[i].price)
      && (forall i :: 0 <= i < |f| ==> Crosses(taker, f[i].price))
      && (forall i, j :: 0 <= i < j < |f| ==> !Ahead(k, f[j].price, f[i].price))
  {
    if makers != [] && open != 0 && Crosses(taker, makers[0].price) {
      var q := Min(makers[0].open, open);
      FillsFollowTheList(k, taker, open - q, makers[1..]);
      var f, rest := Fills(taker, open, makers), Fills(taker, open - q, makers[1..]);
      forall i | 0 <= i < |f|
        ensures f[i].maker == makers[i].id && f[i].price == makers[i].price && Crosses(taker, f[i].price)
      {
        if i > 0 { assert f[i] == rest[i - 1] && makers[1..][i - 1] == makers[i]; }
      }
      forall i, j | 0 <= i < j < |f| ensures !Ahead(k, f[j].price, f[i].price) {
        assert makers[i] in makers && makers[j] in makers;
      }
    }
  }

  /** Exactly as much is filled as both the taker and the acceptable makers have open. */
  lemma {:induction false} FillsExhaust(taker: Order, open: nat, makers: seq<Order>)
    ensures Filled(Fills(taker, open, makers)) == Min(open, Available(taker, makers))
  {
    if makers != [] && open != 0 && Crosses(taker, makers[0].price) {
      var q := Min(makers[0].open, open);
      FillsExhaust(taker, open - q, makers[1..]);
      assert Fills(taker, open, makers)[1..] == Fills(taker, open - q, makers[1..]);
      if q < makers[0].open { assert Fills(taker, 0, makers[1..]) == []; }
    }
  }

  /** Every maker but the last is filled completely. */
  lemma {:induction false} FillsConsumeAPrefix(taker: Order, open: nat, makers: seq<Order>)
    ensures
      var f := Fills(taker, open, makers);
      |f| <= |makers| && forall i :: 0 <= i < |f| - 1 ==> f[i].quantity == makers[i].open
  {
    if makers != [] && open != 0 && Crosses(taker, makers[0].price) {
      var q := Min(makers[0].open, open);
      FillsConsumeAPrefix(taker, open - q, makers[1..]);
      var f, rest := Fills(taker, open, makers), Fills(taker, open - q, makers[1..]);
      forall i | 0 <= i < |f| - 1 ensures f[i].quantity == makers[i].open {
        if i > 0 { assert f[i] == rest[i - 1] && makers[1..][i - 1] == makers[i]; }
      }
    }
  }

  // ------------------------------------------------------------ the book does just that

  /** The makers left over: the filled ones gone, the last one reduced. */
  function Remaining(makers: seq<Order>, fills: seq<Fill>): seq<Order>
    requires |fills| <= |makers|
    requires forall i :: 0 <= i < |fills| ==> fills[i].quantity <= makers[i].open
  {
    if fills == [] then makers
    else
      var m := makers[0].Execute(fills[0].price, fills[0].quantity);
      if m.IsFilled() then Remaining(makers[1..], fills[1..]) else [m] + makers[1..]
  }

  /** What the log says one execution did, told by the maker's record. */
  function FillsLogged(log: seq<Event>, taker: nat): seq<Fill> {
    if log == [] then []
    else FillsLogged(log[..|log| - 1], taker) + match log[|log| - 1]
      case Executed(o) => if o.id == taker then [] else [Fill(o.id, o.price, o.lastQuantity)]
      case _ => []
  }

  lemma FillsLoggedEmit(log: seq<Event>, e: Event, taker: nat)
    ensures FillsLogged(log + [e], taker) == FillsLogged(log, taker) +
      (if e.Executed? && e.order.id != taker then [Fill(e.order.id, e.order.price, e.order.lastQuantity)] else [])
  {
    assert (log + [e])[..|log|] == log;
  }

  lemma TradeLogsFill(b: Book, taker: Order)
    requires Sound(b) && b.Queue(Makers(taker)) != [] && taker.id !in b.orders
    ensures
      var m := b.Queue(Makers(taker))[0];
      FillsLogged(Trade(b, taker).0.log, taker.id)
        == FillsLogged(b.log, taker.id) + [Fill(m.id, m.price, Min(m.open, taker.open))]
  {
    var m := b.Queue(Makers(taker))[0];
    HeadIndexed(b, Makers(taker));
    var q := Min(m.open, taker.open);
    ExecutionsLogFill(b.log, taker.Execute(m.price, q), m.Execute(m.price, q));
  }

  lemma ExecutionsLogFill(log: seq<Event>, t: Order, m: Order)
    requires m.id != t.id
    ensures FillsLogged(log + (Executions(t, m) + (if m.IsFilled() then [Deleted(m)] else [])), t.id)
      == FillsLogged(log, t.id) + [Fill(m.id, m.price, m.lastQuantity)]
  {
    hide FillsLogged;
    var e := Executions(t, m);
    FillsLoggedEmit(log, e[0], t.id);
    FillsLoggedEmit(log + [e[0]], e[1], t.id);
    FillsLoggedEmit(log + [e[0]] + [e[1]], Deleted(m), t.id);
    assert log + (e + [Deleted(m)]) == log + [e[0]] + [e[1]] + [Deleted(m)];
    assert log + (e + []) == log + [e[0]] + [e[1]];
  }

  /** Book c and taker t are what the simple matcher makes of book b and the taker. */
  ghost predicate Flat(b: Book, taker: Order, c: Book, t: Order) {
    var s := b.Queue(Makers(taker));
    var f := Fills(taker, taker.open, s);
    && FillsLogged(c.log, taker.id) == FillsLogged(b.log, taker.id) + f
    && t.open == taker.open - Min(taker.open, Available(taker, s))
    && FillsFit(s, f) && c.Queue(Makers(taker)) == Remaining(s, f)
    && c.last == if f == [] then b.last else f[|f| - 1].price
  }

  /**
   Sweeping the book is the simple matcher on the opposite list: same fills, same remainders, last
   price that of the last fill.
   */
  lemma {:induction false} SweepIsFlatMatching(b: Book, taker: Order)
    requires Sound(b) && taker.id !in b.orders
    ensures Flat(b, taker, Sweep(b, taker).0, Sweep(b, taker).1)
    decreases |b.Queue(Makers(taker))|, taker.open
  {
    hide Placed, Indexed, Live, Uncrossed, Trade, Flat;
    if CanTrade(b, taker) {
      var (b', t') := Trade(b, taker);
      TradeSound(b, taker);
      TakerKeeps(b, taker);
      SweepIsFlatMatching(b', t');
      FlatStep(b, taker, Sweep(b, taker).0, Sweep(b, taker).1);
    } else {
      FlatNothing(b, taker);
    }
  }

  lemma TakerKeeps(b: Book, taker: Order)
    requires CanTrade(b, taker)
    ensures
      var t := Trade(b, taker).1;
      t.side == taker.side && t.price == taker.price && t.id == taker.id && Makers(t) == Makers(taker)
      && t.open == taker.open - Min(b.Queue(Makers(taker))[0].open, taker.open)
    ensures Trade(b, taker).0.last == b.Queue(Makers(taker))[0].price
    ensures
      var left, was := |Trade(b, taker).0.Queue(Makers(taker))|, |b.Queue(Makers(taker))|;
      left < was || (left == was && Trade(b, taker).1.open < taker.open)
  {
  }

  lemma FlatNothing(b: Book, taker: Order)
    requires !CanTrade(b, taker)
    ensures Flat(b, taker, b, taker)
  {
    var s := b.Queue(Makers(taker));
    assert Fills(taker, taker.open, s) == [];
    assert FillsLogged(b.log, taker.id) + [] == FillsLogged(b.log, taker.id);
  }

  lemma FlatStep(b: Book, taker: Order, c: Book, t: Order)
    requires Sound(b) && taker.id !in b.orders && CanTrade(b, taker)
    requires Flat(Trade(b, taker).0, Trade(b, taker).1, c, t)
    ensures Flat(b, taker, c, t)
  {
    hide Placed, Indexed, Live, Uncrossed, Trade, Fills, FillsLogged, FillsFit, Available, Remaining, Makers;
    var (b', t') := Trade(b, taker);
    TradeLogsFill(b, taker);
    TakerKeeps(b, taker);
    TradeStep(b, taker);
    FillsSameTaker(taker, t', t'.open, b'.Queue(Makers(taker)));
    AvailableSameTaker(taker, t', b'.Queue(Makers(taker)));
  }

  /** No fill takes more than its maker has. */
  predicate FillsFit(makers: seq<Order>, fills: seq<Fill>) {
    |fills| <= |makers| && forall i :: 0 <= i < |fills| ==> fills[i].quantity <= makers[i].open
  }

  lemma {:induction false} FillsSameTaker(x: Order, y: Order, open: nat, makers: seq<Order>)
    requires x.side == y.side && x.price == y.price
    ensures Fills(x, open, makers) == Fills(y, open, makers)
  {
    if makers != [] && open != 0 && Crosses(x, makers[0].price) {
      FillsSameTaker(x, y, open - Min(makers[0].open, open), makers[1..]);
    }
  }

  lemma {:induction false} AvailableSameTaker(x: Order, y: Order, makers: seq<Order>)
    requires x.side == y.side && x.price == y.price
    ensures Available(x, makers) == Available(y, makers)
  {
    if makers != [] && Crosses(x, makers[0].price) {
      AvailableSameTaker(x, y, makers[1..]);
    }
  }

  lemma TradeStep(b: Book, taker: Order)
    requires Sound(b) && CanTrade(b, taker)
    ensures
      var s := b.Queue(Makers(taker));
      var s' := Trade(b, taker).0.Queue(Makers(taker));
      var q := Min(s[0].open, taker.open);
      var f, f' := Fills(taker, taker.open, s), Fills(taker, taker.open - q, s');
      && f == [Fill(s[0].id, s[0].price, q)] + f'
      && taker.open - Min(taker.open, Available(taker, s)) == taker.open - q - Min(taker.open - q, Available(taker, s'))
      && (FillsFit(s', f') ==> FillsFit(s, f) && Remaining(s, f) == Remaining(s', f'))
  {
    var s := b.Queue(Makers(taker));
    var s' := Trade(b, taker).0.Queue(Makers(taker));
    var q := Min(s[0].open, taker.open);
    var f, f' := Fills(taker, taker.open, s), Fills(taker, taker.open - q, s');
    if q == s[0].open {
      assert s' == s[1..];
      assert f[1..] == f';
    } else {
      assert Fills(taker, 0, s[1..]) == [] && f' == [];
    }
  }

  // ------------------------------------------------------------ fill or kill

  /** Executed in its entirety, or not at all. */
  predicate AllOrNothing(o: Order, o': Order) {
    o'.open == 0 || o'.open == o.open
  }

  /** The test as the code has it lets an order through as soon as one level crosses. */
  lemma FillOrKillIff(b: Book, o: Order)
    requires Ready(b, o) && o.tif == Fok
    ensures AllOrNothing(o, Match(b, o).1) <==>
      Available(o, b.Queue(Makers(o))) == 0 || o.open <= Available(o, b.Queue(Makers(o)))
    ensures Match(b, o).1.open == o.open - Min(o.open, Available(o, b.Queue(Makers(o))))
  {
    SweepIsFlatMatching(b, o);
  }

  /** The test with a walk over the levels that advances. */
  predicate CanFill(b: Book, o: Order) {
    o.open <= Available(o, b.Queue(Makers(o)))
  }

  /** With that test fill-or-kill keeps its promise, whatever the book. */
  lemma IntendedFillOrKill(b: Book, o: Order)
    requires Ready(b, o)
    ensures CanFill(b, o) <==> Sweep(b, o).1.open == 0
    ensures AllOrNothing(o, if CanFill(b, o) then Sweep(b, o).1 else o)
  {
    SweepIsFlatMatching(b, o);
  }
}
