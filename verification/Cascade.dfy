/** The stop-order cascade: it keeps the book sound, ends quiescent and keeps trailing stops in their band. */
module Cascade {
  import opened Orders
  import opened Queues
  import opened BookModel
  import opened BookInvariants
  import opened Rekeying
  import opened Words

  lemma RoundSound(b: Book)
    requires Sound(b)
    ensures Sound(Round(b)) && Round(b).orders.Keys <= b.orders.Keys
  {
    ActivateSound(b);
    var b1 := ActivateBids(b);
    UpdateAsksSound(b1);
    var b2 := UpdateAsks(b1);
    ActivateSound(b2);
    UpdateBidsSound(ActivateAsks(b2));
  }

  lemma {:induction false} CascadeSound(b: Book)
    requires Sound(b)
    ensures Sound(BookModel.Cascade(b)) && BookModel.Cascade(b).orders.Keys <= b.orders.Keys
    decreases StopCount(b)
  {
    hide Sound, Round, StopCount;
    RoundSound(b);
    if StopCount(Round(b)) < StopCount(b) {
      CascadeSound(Round(b));
    }
  }

  /** Rounds run, the idle one at the end included. */
  function Rounds(b: Book): nat
    decreases StopCount(b)
  {
    if StopCount(Round(b)) < StopCount(b) then 1 + Rounds(Round(b)) else 1
  }

  /** Every repeating round fires a stop order for good, so rounds are bounded by the stop orders resting. */
  lemma {:induction false} RoundsBounded(b: Book)
    ensures Rounds(b) + StopCount(BookModel.Cascade(b)) <= StopCount(b) + 1
    decreases StopCount(b)
  {
    if StopCount(Round(b)) < StopCount(b) {
      RoundsBounded(Round(b));
    }
  }

  // ------------------------------------------------------------ one activation pass

  /** How many orders at the head of a stop list have been reached. */
  function ReachedCount(k: Bin, s: seq<Order>, market: nat): (n: nat)
    ensures n <= |s|
    ensures forall i :: 0 <= i < n ==> Reached(SideOf(k), Key(s[i]), market)
    ensures n < |s| ==> !Reached(SideOf(k), Key(s[n]), market)
  {
    if s == [] || !Reached(SideOf(k), Key(s[0]), market) then 0 else 1 + ReachedCount(k, s[1..], market)
  }

  /** Takes the listed orders out of the book one by one, firing each. */
  function FireAll(b: Book, firing: seq<Order>): Book
    decreases |firing|
  {
    if firing == [] then b
    else FireAll(Fire(Drop(b, firing[0]), firing[0]), firing[1..])
  }

  lemma {:induction false} PassFires(b: Book, k: Bin, market: nat)
    requires Sound(b) && !LimitBin(k)
    ensures Drain(b, k, market) == FireAll(b, b.Queue(k)[..ReachedCount(k, b.Queue(k), market)])
    ensures Drain(b, k, market).Queue(k) == b.Queue(k)[ReachedCount(k, b.Queue(k), market)..]
    decreases |b.Queue(k)|
  {
    hide Placed, Indexed, Live, Uncrossed, Fire, Drop, FireHead;
    var s := b.Queue(k);
    var n := ReachedCount(k, s, market);
    if n == 0 {
      assert s[0..] == s && s[..0] == [];
    } else {
      var c := FireHead(b, k);
      FireHeadSound(b, k);
      FireHeadIsFire(b, k);
      PassFires(c, k, market);
      FireAllStep(b, s, n);
      assert ReachedCount(k, s[1..], market) == n - 1;
    }
  }

  /**
   A pass fires exactly the orders reached by the price it began with, in
   price-then-arrival order, whatever those orders trade on the way.
   */
  lemma PassFiresTheReached(b: Book, k: Bin, market: nat)
    requires Sound(b) && !LimitBin(k)
    ensures
      var s := b.Queue(k);
      var n := ReachedCount(k, s, market);
      && Drain(b, k, market) == FireAll(b, s[..n])
      && Drain(b, k, market).Queue(k) == s[n..]
      && (forall o :: o in s[n..] ==> !Reached(SideOf(k), Key(o), market))
  {
    PassFires(b, k, market);
    NoneReachedAfter(b, k, ReachedCount(k, b.Queue(k), market), market);
  }

  lemma FireAllStep(b: Book, s: seq<Order>, n: nat)
    requires 0 < n <= |s|
    ensures FireAll(b, s[..n]) == FireAll(Fire(Drop(b, s[0]), s[0]), s[1..][..n - 1])
    ensures s[1..][n - 1..] == s[n..]
  {
    assert s[..n][1..] == s[1..][..n - 1];
  }

  lemma NoneReachedAfter(b: Book, k: Bin, n: nat, market: nat)
    requires Struct(b) && !LimitBin(k) && n <= |b.Queue(k)|
    requires n < |b.Queue(k)| ==> !Reached(SideOf(k), Key(b.Queue(k)[n]), market)
    ensures forall o :: o in b.Queue(k)[n..] ==> !Reached(SideOf(k), Key(o), market)
  {
    hide Indexed;
    assert Placed(b, k);
    SortedNoneReached(k, b.Queue(k), n, market);
  }

  lemma SortedNoneReached(k: Bin, s: seq<Order>, n: nat, market: nat)
    requires Sorted(k, s) && !LimitBin(k) && n <= |s| && (n < |s| ==> !Reached(SideOf(k), Key(s[n]), market))
    ensures forall o :: o in s[n..] ==> !Reached(SideOf(k), Key(o), market)
  {
    hide Key;
    forall o | o in s[n..] ensures !Reached(SideOf(k), Key(o), market) {
      var i :| n <= i < |s| && s[i] == o;
      assert i > n ==> !Ahead(k, Key(s[i]), Key(s[n]));
    }
  }

  /** An idle pass leaves the book as it was, and nothing in its list is reached. */
  lemma IdlePass(b: Book, k: Bin, market: nat)
    requires Sound(b) && !LimitBin(k) && |Drain(b, k, market).Queue(k)| == |b.Queue(k)|
    ensures Drain(b, k, market) == b
    ensures forall o :: o in b.Queue(k) ==> !Reached(SideOf(k), Key(o), market)
  {
    PassFiresTheReached(b, k, market);
    assert b.Queue(k)[0..] == b.Queue(k);
  }

  // ------------------------------------------------------------ quiescence

  ghost predicate NoneReached(b: Book, k: Bin) {
    forall o :: o in b.Queue(k) ==> !Reached(SideOf(k), Key(o), MarketPrice(b, SideOf(k)))
  }

  /** No resting stop order's price has been reached. */
  ghost predicate Quiet(b: Book) {
    NoneReached(b, AskStops) && NoneReached(b, AskTrails) && NoneReached(b, BidStops) && NoneReached(b, BidTrails)
  }

  lemma IdleBids(b: Book)
    requires Sound(b) && StopCount(ActivateBids(b)) == StopCount(b)
    ensures ActivateBids(b) == b && NoneReached(b, BidStops) && NoneReached(b, BidTrails)
  {
    hide Placed, Indexed, Live, Uncrossed, Fire, Drop;
    IdlePass(b, BidStops, b.LastAsk());
    IdlePass(b, BidTrails, b.LastAsk());
  }

  lemma IdleAsks(b: Book)
    requires Sound(b) && StopCount(ActivateAsks(b)) == StopCount(b)
    ensures ActivateAsks(b) == b && NoneReached(b, AskStops) && NoneReached(b, AskTrails)
  {
    hide Placed, Indexed, Live, Uncrossed, Fire, Drop;
    IdlePass(b, AskStops, b.LastBid());
    IdlePass(b, AskTrails, b.LastBid());
  }

  /** A re-keyed bid stop lies above the market: the marker was above it, so there is room. */
  lemma RekeyedBidsNotReached(b: Book)
    requires Sound(b) && b.LastAsk() < MAX64
    ensures NoneReached(Rekey(b, BidTrails), BidTrails)
  {
    hide Placed, Indexed, Uncrossed, Rekey, Fit, Restopped;
    RekeyContents(b, BidTrails);
    var r := Rekey(b, BidTrails);
    forall o | o in r.Queue(BidTrails) ensures !Reached(Bid, Key(o), r.LastAsk()) {
      assert Placed(b, BidTrails);
      RekeyedBidAbove(b, b.orders[o.id]);
    }
  }

  /** A re-keyed ask stop lies below the market: its trail amount is positive. */
  lemma RekeyedAsksNotReached(b: Book)
    requires Sound(b) && 0 < b.last
    ensures NoneReached(Rekey(b, AskTrails), AskTrails)
  {
    hide Placed, Indexed, Uncrossed, Rekey, Fit, Restopped;
    RekeyContents(b, AskTrails);
    var r := Rekey(b, AskTrails);
    forall o | o in r.Queue(AskTrails) ensures !Reached(Ask, Key(o), r.last) {
      assert Placed(b, AskTrails);
      RekeyedAskBelow(b, b.orders[o.id]);
    }
  }

  lemma RekeyedAskBelow(b: Book, o: Order)
    requires Placed(b, AskTrails) && o in b.Queue(AskTrails) && Fit(o) && 0 < b.last
    ensures !Reached(Ask, Key(Restopped(o, b.last)), b.last)
  {
    hide Sorted, DistinctIds;
    assert BinOf(o) == AskTrails;
  }

  lemma RekeyedBidAbove(b: Book, o: Order)
    requires Placed(b, BidTrails) && o in b.Queue(BidTrails) && Fit(o) && b.LastAsk() < MAX64
    ensures !Reached(Bid, Key(Restopped(o, b.last)), b.LastAsk())
  {
    hide Sorted, DistinctIds;
    assert BinOf(o) == BidTrails;
  }

  lemma {:induction false} IdleRound(b: Book)
    requires Sound(b) && StopCount(Round(b)) == StopCount(b)
    ensures Round(b) == UpdateBids(UpdateAsks(b)) && Quiet(Round(b))
  {
    IdleCounts(b);
    IdleBids(b);
    UpdateAsksSound(b);
    UpdateAsksKeepsBids(b);
    IdleAsks(UpdateAsks(b));
    UpdateBidsQuiet(UpdateAsks(b));
  }

  lemma IdleCounts(b: Book)
    requires StopCount(Round(b)) == StopCount(b)
    ensures StopCount(ActivateBids(b)) == StopCount(b)
    ensures StopCount(ActivateAsks(UpdateAsks(ActivateBids(b)))) == StopCount(UpdateAsks(ActivateBids(b)))
  {
  }

  /** Aligning the asks moves no bid stop. */
  lemma UpdateAsksKeepsBids(b: Book)
    ensures UpdateAsks(b).last == b.last && UpdateAsks(b).bidTrails == b.bidTrails
    ensures NoneReached(b, BidStops) ==> NoneReached(UpdateAsks(b), BidStops)
    ensures NoneReached(b, BidTrails) ==> NoneReached(UpdateAsks(b), BidTrails)
  {
  }

  lemma UpdateBidsQuiet(c: Book)
    requires Sound(c) && Quiet(c)
    ensures Quiet(UpdateBids(c))
  {
    hide Placed, Indexed, Uncrossed, Rekey, Fit;
    if c.askMarker > c.LastAsk() && c.bidTrails != [] && c.LastAsk() < MAX64 {
      RekeyedBidsNotReached(c);
      var r := Rekey(c, BidTrails);
      assert NoneReached(r, AskStops) && NoneReached(r, AskTrails) && NoneReached(r, BidStops);
    }
  }

  lemma UpdatesAlign(b: Book)
    ensures
      var r := UpdateBids(UpdateAsks(b));
      r.last == b.last && r.bidMarker == b.last && r.askMarker == b.last
  {
    hide Rekey;
  }

  /** However the cascade went, it ends with no stop order left to fire and both markers at the last price. */
  lemma {:induction false} CascadeEndsQuiet(b: Book)
    requires Sound(b)
    ensures
      var r := BookModel.Cascade(b);
      Quiet(r) && r.bidMarker == r.last && r.askMarker == r.last
    decreases StopCount(b)
  {
    hide Sound, Quiet, Round, UpdateBids, UpdateAsks, StopCount;
    RoundSound(b);
    if StopCount(Round(b)) < StopCount(b) {
      CascadeEndsQuiet(Round(b));
    } else {
      IdleRound(b);
      UpdatesAlign(b);
    }
  }

  /** Before any trade, and after a trade at price zero, no stop order rests at all. */
  lemma QuietAtZero(b: Book)
    requires Sound(b) && Quiet(b) && b.last == 0
    ensures StopCount(b) == 0
  {
    QuietIsEmptyAtZero(b, AskStops);
    QuietIsEmptyAtZero(b, AskTrails);
    QuietIsEmptyAtZero(b, BidStops);
    QuietIsEmptyAtZero(b, BidTrails);
  }

  lemma QuietIsEmptyAtZero(b: Book, k: Bin)
    requires Sound(b) && !LimitBin(k) && NoneReached(b, k) && b.last == 0
    ensures b.Queue(k) == []
  {
    if b.Queue(k) != [] {
      HeadIndexed(b, k);
      assert false;
    }
  }

  lemma IdleDrain(b: Book, k: Bin)
    requires !LimitBin(k) && NoneReached(b, k)
    ensures Drain(b, k, MarketPrice(b, SideOf(k))) == b
  {
  }

  /** A cascade that finds nothing to fire only aligns the trailing stops, asks first. */
  lemma QuietCascade(b: Book)
    requires Quiet(b) && NoneReached(UpdateAsks(b), AskTrails)
    ensures BookModel.Cascade(b) == UpdateBids(UpdateAsks(b))
  {
    hide Rekey, Drain;
    IdleDrain(b, BidStops);
    IdleDrain(b, BidTrails);
    var c := UpdateAsks(b);
    IdleDrain(c, AskStops) by { assert c.Queue(AskStops) == b.Queue(AskStops) && c.last == b.last; }
    IdleDrain(c, AskTrails);
  }

  /** Without stop orders a cascade only moves the markers. */
  lemma NoStopsCascade(b: Book)
    requires StopCount(b) == 0
    ensures BookModel.Cascade(b) == b.(bidMarker := b.last, askMarker := b.last)
  {
    hide Round, StopCount;
    NoStopsRound(b);
  }

  lemma NoStopsRound(b: Book)
    requires StopCount(b) == 0
    ensures Round(b) == b.(bidMarker := b.last, askMarker := b.last)
  {
    hide Rekey, Drain, Reached;
    NothingToDrain(b, BidStops, b.LastAsk());
    NothingToDrain(b, BidTrails, b.LastAsk());
    var c := UpdateAsks(b);
    NothingToDrain(c, AskStops, c.LastBid());
    NothingToDrain(c, AskTrails, c.LastBid());
  }

  lemma NothingToDrain(b: Book, k: Bin, market: nat)
    requires !LimitBin(k) && b.Queue(k) == []
    ensures Drain(b, k, market) == b
  {
  }

  /** Running the cascade again on a book at rest changes nothing. */
  lemma CascadeAtRest(b: Book)
    requires Sound(b) && Quiet(b) && b.bidMarker == b.last && b.askMarker == b.last
    ensures BookModel.Cascade(b) == b
  {
    IdleDrain(b, BidStops);
    IdleDrain(b, BidTrails);
    IdleDrain(b, AskStops);
    IdleDrain(b, AskTrails);
  }

  // ------------------------------------------------------------ the trailing band

  /** Each trailing stop is no further from its marker price than its trail amount. */
  ghost predicate Banded(b: Book) {
    && (forall o :: o in b.askTrails ==> TrailedStop(o, b.bidMarker) <= o.stop)
    && (forall o :: o in b.bidTrails ==> 0 < b.askMarker && o.stop <= TrailedStop(o, b.askMarker))
  }

  lemma DrainBanded(b: Book, k: Bin, market: nat)
    requires Sound(b) && Banded(b) && !LimitBin(k)
    ensures Banded(Drain(b, k, market))
  {
    hide Placed, Indexed, Live, Uncrossed, FireAll, Drain;
    PassFiresTheReached(b, k, market);
  }

  /** Trades are at resting limit prices, which are positive: the last price never falls back to zero. */
  lemma {:induction false} SweepKeepsPrice(b: Book, o: Order)
    requires Sound(b) && b.last != 0
    ensures Sweep(b, o).0.last != 0
    decreases |b.Queue(Makers(o))|, o.open
  {
    if CanTrade(b, o) {
      HeadIndexed(b, Makers(o));
      assert Fit(b.Queue(Makers(o))[0]);
      TradeSound(b, o);
      SweepKeepsPrice(Trade(b, o).0, Trade(b, o).1);
    }
  }

  lemma FireKeepsPrice(b: Book, o: Order)
    requires Ready(b, o) && b.last != 0
    ensures Fire(b, o).last != 0
  {
    var t := o.Triggered();
    var c := b.Emit(Updated(t));
    StructOnly(b, c);
    SweepKeepsPrice(c, t);
    SweepKeepsPrice(c, t.(price := if t.IsAsk() then 0 else MAX64));
  }

  lemma {:induction false} DrainKeepsPrice(b: Book, k: Bin, market: nat)
    requires Sound(b) && !LimitBin(k) && b.last != 0
    ensures Drain(b, k, market).last != 0
    decreases |b.Queue(k)|
  {
    if b.Queue(k) != [] && Reached(SideOf(k), Key(b.Queue(k)[0]), market) {
      FireHeadIsFire(b, k);
      HeadIndexed(b, k);
      var o := b.Queue(k)[0];
      DropSound(b, o);
      FireKeepsPrice(Drop(b, o), o);
      FireHeadSound(b, k);
      DrainKeepsPrice(FireHead(b, k), k, market);
    }
  }

  lemma ActivateKeepsPrice(b: Book)
    requires Sound(b) && b.last != 0
    ensures ActivateBids(b).last != 0 && ActivateAsks(b).last != 0
  {
    DrainKeepsPrice(b, BidStops, b.LastAsk());
    DrainSound(b, BidStops, b.LastAsk());
    var c := Drain(b, BidStops, b.LastAsk());
    DrainKeepsPrice(c, BidTrails, c.LastAsk());
    DrainKeepsPrice(b, AskStops, b.LastBid());
    DrainSound(b, AskStops, b.LastBid());
    var d := Drain(b, AskStops, b.LastBid());
    DrainKeepsPrice(d, AskTrails, d.LastBid());
  }

  /** With no price the bound is the greatest one: every trailing bid is reached. */
  lemma DrainAllTrails(b: Book)
    requires Sound(b)
    ensures Drain(b, BidTrails, MAX64).bidTrails == []
  {
    hide Indexed, Uncrossed, Drain, FireAll, Sorted, DistinctIds;
    var s := b.Queue(BidTrails);
    assert Placed(b, BidTrails);
    forall i | 0 <= i < |s| ensures Reached(SideOf(BidTrails), Key(s[i]), MAX64) {
      assert s[i] in s && Fit(b.orders[s[i].id]);
    }
    PassFiresTheReached(b, BidTrails, MAX64);
    var n := ReachedCount(BidTrails, s, MAX64);
    assert n == |s| && Drain(b, BidTrails, MAX64).Queue(BidTrails) == s[n..];
  }

  /** If a round is still at price zero once the asks are done, the bid pass had found every trailing bid reached. */
  lemma NoTrailsAtZero(b: Book)
    requires Sound(b)
    ensures ActivateAsks(UpdateAsks(ActivateBids(b))).last == 0 ==> ActivateBids(b).bidTrails == []
  {
    var b1 := Drain(b, BidStops, b.LastAsk());
    DrainSound(b, BidStops, b.LastAsk());
    var b2 := ActivateBids(b);
    ActivateSound(b);
    var b3 := UpdateAsks(b2);
    UpdateAsksSound(b2);
    UpdateAsksKeepsBids(b2);
    if b3.last != 0 {
      ActivateKeepsPrice(b3);
    } else if b1.last != 0 {
      DrainKeepsPrice(b1, BidTrails, b1.LastAsk());
    } else {
      DrainAllTrails(b1);
    }
  }

  lemma RekeyedOnTheBand(b: Book, k: Bin)
    requires Struct(b) && !LimitBin(k)
    ensures forall o :: o in Rekey(b, k).Queue(k) ==> o.stop == TrailedStop(o, b.last)
  {
    hide Placed, Indexed, Rekey;
    RekeyContents(b, k);
  }

  lemma UpdateAsksBanded(b: Book)
    requires Sound(b) && Banded(b)
    ensures Banded(UpdateAsks(b))
  {
    hide Indexed, Live, Uncrossed, Rekey, Sorted, DistinctIds;
    assert forall o :: o in b.askTrails ==> o.side == Ask by { assert Placed(b, AskTrails); }
    hide Placed;
    RekeyedOnTheBand(b, AskTrails);
    var r := Rekey(b, AskTrails);
    assert r.bidTrails == b.bidTrails && r.Queue(AskTrails) == r.askTrails;
  }

  lemma UpdateBidsBanded(b: Book)
    requires Sound(b) && Banded(b) && (b.last == 0 ==> b.bidTrails == [])
    ensures Banded(UpdateBids(b))
  {
    hide Indexed, Live, Uncrossed, Rekey, Sorted, DistinctIds;
    RekeyedOnTheBand(b, BidTrails);
    var r := Rekey(b, BidTrails);
    assert r.askTrails == b.askTrails;
    assert forall o :: o in b.bidTrails ==> o.side == Bid by { assert Placed(b, BidTrails); }
    hide Placed;
    if b.askMarker <= b.LastAsk() || b.bidTrails == [] {
      assert forall o :: o in b.bidTrails ==> o.stop <= TrailedStop(o, b.last);
    }
  }

  lemma RoundBanded(b: Book)
    requires Sound(b) && Banded(b)
    ensures Banded(Round(b))
  {
    hide Placed, Indexed, Live, Uncrossed, Banded, Drain, Rekey;
    NoTrailsAtZero(b);
    ActivateSound(b);
    var b1 := ActivateBids(b);
    DrainSound(b, BidStops, b.LastAsk());
    DrainBanded(b, BidStops, b.LastAsk());
    DrainBanded(Drain(b, BidStops, b.LastAsk()), BidTrails, Drain(b, BidStops, b.LastAsk()).LastAsk());
    UpdateAsksSound(b1);
    UpdateAsksBanded(b1);
    var b2 := UpdateAsks(b1);
    ActivateSound(b2);
    DrainSound(b2, AskStops, b2.LastBid());
    DrainBanded(b2, AskStops, b2.LastBid());
    DrainBanded(Drain(b2, AskStops, b2.LastBid()), AskTrails, Drain(b2, AskStops, b2.LastBid()).LastBid());
    var b3 := ActivateAsks(b2);
    UpdateBidsBanded(b3);
  }

  lemma {:induction false} CascadeBanded(b: Book)
    requires Sound(b) && Banded(b)
    ensures Banded(BookModel.Cascade(b))
    decreases StopCount(b)
  {
    RoundSound(b);
    RoundBanded(b);
    if StopCount(Round(b)) < StopCount(b) {
      CascadeBanded(Round(b));
    }
  }
}
