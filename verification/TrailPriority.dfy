/** Trailing bids of one trail amount stay in the order of their arrival. */
module TrailPriority {
  import opened Orders
  import opened Queues
  import opened BookModel
  import opened BookInvariants
  import opened Rekeying
  import opened Accounts
  import opened Runs
  import opened Priority
  import opened Words
  import L = Ledgers
  import C = Cascade

  function Group(b: Book, t: nat): seq<Order> { ByTrail(b.bidTrails, t) }

  /** Among the trailing bids of each trail amount, whoever came first stands first. */
  ghost predicate BidsInTime(b: Book) {
    forall t: nat :: Rising(b.log, Group(b, t))
  }

  // ------------------------------------------------------------ lists

  lemma {:induction false} ByTrailConcat(a: seq<Order>, b: seq<Order>, t: nat)
    ensures ByTrail(a + b, t) == ByTrail(a, t) + ByTrail(b, t)
  {
    if a == [] {
      assert a + b == b;
    } else {
      assert (a + b)[1..] == a[1..] + b;
      ByTrailConcat(a[1..], b, t);
    }
  }

  /** A newcomer that all of its trail amount are ahead of or level with joins them at the back. */
  lemma InsertBehind(s: seq<Order>, o: Order, t: nat)
    requires Sorted(BidTrails, s)
    requires forall x :: x in s && x.trail == o.trail ==> !Ahead(BidTrails, Key(o), Key(x))
    ensures ByTrail(Insert(BidTrails, s, o), t) == ByTrail(s, t) + if t == o.trail then [o] else []
  {
    hide Key, Slot, ByTrail, Ahead, Sorted;
    var i := Slot(BidTrails, s, o);
    NoneBehind(s, o, i);
    assert s == s[..i] + s[i..];
    ByTrailConcat(s[..i], s[i..], t);
    ByTrailConcat(s[..i] + [o], s[i..], t);
    ByTrailConcat(s[..i], [o], t);
    ByTrailOne(o, t);
    if t == o.trail {
      NoneOfTrail(s[i..], t);
    }
  }

  lemma ByTrailOne(o: Order, t: nat)
    ensures ByTrail([o], t) == if t == o.trail then [o] else []
  {
  }

  /** Those behind the newcomer's slot have another trail amount. */
  lemma NoneBehind(s: seq<Order>, o: Order, i: nat)
    requires Sorted(BidTrails, s) && i <= |s| && (i < |s| ==> Ahead(BidTrails, Key(o), Key(s[i])))
    requires forall x :: x in s && x.trail == o.trail ==> !Ahead(BidTrails, Key(o), Key(x))
    ensures forall x :: x in s[i..] ==> x.trail != o.trail
  {
    hide Key;
    forall x | x in s[i..] ensures x.trail != o.trail {
      var j :| i <= j < |s| && s[j] == x;
      assert i < j ==> !Ahead(BidTrails, Key(s[j]), Key(s[i]));
    }
  }

  lemma {:induction false} ByTrailWithout(s: seq<Order>, id: nat, t: nat)
    requires DistinctIds(s)
    ensures ByTrail(Without(s, id), t) == Without(ByTrail(s, t), id)
  {
    if s != [] {
      var rest := s[1..];
      if s[0].id == id {
        assert Without(s, id) == rest;
        NotThere(ByTrail(rest, t), id);
        if s[0].trail == t {
          assert ByTrail(s, t)[1..] == ByTrail(rest, t);
        }
      } else {
        ByTrailWithout(rest, id, t);
        WithoutLater(s, id);
        if s[0].trail == t {
          WithoutLater(ByTrail(s, t), id);
          assert ByTrail(s, t)[1..] == ByTrail(rest, t);
        }
        assert ([s[0]] + Without(rest, id))[1..] == Without(rest, id);
      }
    }
  }

  lemma NotThere(s: seq<Order>, id: nat)
    requires forall o :: o in s ==> o.id != id
    ensures Without(s, id) == s
  {
  }

  /** A change of an order's quantities in place. */
  lemma {:induction false} ByTrailPut(s: seq<Order>, o: Order, t: nat)
    requires forall x :: x in s && x.id == o.id ==> x.trail == o.trail
    ensures Ids(ByTrail(Put(s, o), t)) == Ids(ByTrail(s, t))
  {
    if s != [] {
      var rest := s[1..];
      if s[0].id == o.id {
        assert Put(s, o) == [o] + rest && ([o] + rest)[1..] == rest;
      } else {
        PutLater(s, o);
        hide Put;
        ByTrailPut(rest, o, t);
        assert ([s[0]] + Put(rest, o))[1..] == Put(rest, o);
      }
    }
  }

  lemma PutLater(s: seq<Order>, o: Order)
    requires s != [] && s[0].id != o.id
    ensures Put(s, o) == [s[0]] + Put(s[1..], o)
  {
    var i := Find(s[1..], o.id);
    if i < |s[1..]| {
      assert s[i + 1 := o] == [s[0]] + s[1..][i := o];
    }
  }

  lemma RisingByIds(log: seq<Event>, a: seq<Order>, later: seq<Event>, c: seq<Order>)
    requires Rising(log, a) && EndsWith(Ids(a), Ids(c))
    requires forall id :: id in Ids(c) ==> Arrival(later, id) == Arrival(log, id)
    ensures Rising(later, c)
  {
    hide Arrival, Ids;
    assert |Ids(c)| <= |Ids(a)|;
    hide EndsWith;
    var n := |a| - |c|;
    forall i, j | 0 <= i < j < |c| ensures Arrival(later, c[i].id) < Arrival(later, c[j].id) {
      SameAtEnd(a, c, n, i);
      SameAtEnd(a, c, n, j);
      assert Arrival(log, a[n + i].id) < Arrival(log, a[n + j].id);
    }
  }

  lemma SameAtEnd(a: seq<Order>, c: seq<Order>, n: nat, i: nat)
    requires |a| == n + |c| && EndsWith(Ids(a), Ids(c)) && i < |c|
    ensures a[n + i].id == c[i].id && c[i].id in Ids(c)
  {
    hide Ids, EndsWith;
    var p, q := Ids(a), Ids(c);
    EndsAt(p, q, n, i);
    assert q[i] in q;
  }

  lemma EndsAt(p: seq<nat>, q: seq<nat>, n: nat, i: nat)
    requires |p| == n + |q| && EndsWith(p, q) && i < |q|
    ensures q[i] == p[n + i]
  {
  }

  // ------------------------------------------------------------ the cascade

  predicate EndsWith(a: seq<nat>, c: seq<nat>) {
    |c| <= |a| && c == a[|a| - |c|..]
  }

  lemma EndsChain(a: seq<nat>, b: seq<nat>, c: seq<nat>)
    requires EndsWith(a, b) && EndsWith(b, c)
    ensures EndsWith(a, c)
  {
  }

  lemma EndsWithSelf(a: seq<nat>)
    ensures EndsWith(a, a)
  {
  }

  lemma HeadOff(s: seq<Order>, t: nat)
    requires s != []
    ensures EndsWith(Ids(ByTrail(s, t)), Ids(ByTrail(s[1..], t)))
  {
    if s[0].trail == t {
      assert Ids(ByTrail(s, t))[1..] == Ids(ByTrail(s[1..], t));
    }
  }

  /** What an activation pass leaves of a group is the end of it. */
  lemma {:induction false} DrainGroup(b: Book, k: Bin, market: nat, t: nat)
    requires !LimitBin(k)
    ensures EndsWith(Ids(Group(b, t)), Ids(Group(Drain(b, k, market), t)))
    decreases |b.Queue(k)|
  {
    hide FireHead, Reached, Ids, ByTrail, EndsWith;
    EndsWithSelf(Ids(Group(b, t)));
    if b.Queue(k) != [] && Reached(SideOf(k), Key(b.Queue(k)[0]), market) {
      var c := FireHead(b, k);
      DrainGroup(c, k, market, t);
      if k == BidTrails {
        HeadOff(b.bidTrails, t);
        EndsChain(Ids(Group(b, t)), Ids(Group(c, t)), Ids(Group(Drain(b, k, market), t)));
      }
    }
  }

  lemma RoundGroup(b: Book, t: nat)
    requires Sound(b)
    ensures EndsWith(Ids(Group(b, t)), Ids(Group(Round(b), t)))
  {
    hide Drain, Rekey, Ids, EndsWith, ByTrail, Placed, Indexed, Live, Uncrossed;
    var b1 := Drain(b, BidStops, b.LastAsk());
    var b2 := Drain(b1, BidTrails, b1.LastAsk());
    var c := UpdateAsks(b2);
    var c1 := Drain(c, AskStops, c.LastBid());
    var c2 := Drain(c1, AskTrails, c1.LastBid());
    DrainGroup(b1, BidTrails, b1.LastAsk(), t);
    ActivateSound(b);
    UpdateAsksSound(b2);
    ActivateSound(c);
    RekeyKeepsBidPriority(c2, t);
    assert c2.bidTrails == b2.bidTrails && b1.bidTrails == b.bidTrails;
  }

  lemma {:induction false} CascadeGroup(b: Book, t: nat)
    requires Sound(b)
    ensures EndsWith(Ids(Group(b, t)), Ids(Group(BookModel.Cascade(b), t)))
    decreases StopCount(b)
  {
    hide Round, StopCount, Ids, EndsWith, Group, Sound;
    RoundGroup(b, t);
    if StopCount(Round(b)) < StopCount(b) {
      C.RoundSound(b);
      CascadeGroup(Round(b), t);
      EndsChain(Ids(Group(b, t)), Ids(Group(Round(b), t)), Ids(Group(BookModel.Cascade(b), t)));
    }
  }

  /** Whoever stands in a group waits. */
  lemma GroupWaits(b: Book, t: nat, id: nat)
    requires Struct(b) && id in Ids(Group(b, t))
    ensures id in b.orders && Waiting(b, None, id) == 1
  {
    hide Indexed, Sorted, DistinctIds, ByTrail, Ids, Waiting;
    assert Placed(b, BidTrails);
    var i :| 0 <= i < |Ids(Group(b, t))| && Ids(Group(b, t))[i] == id;
    var o := Group(b, t)[i];
    assert o in Group(b, t) && o in b.Queue(BidTrails) && o.id == id;
    TrailWaits(b, o);
  }

  lemma TrailWaits(b: Book, o: Order)
    requires BinOf(o) == BidTrails && o.id in b.orders && b.orders[o.id] == o
    ensures Waiting(b, None, o.id) == 1
  {
  }

  /** What waits on both sides of a silent or conserving change arrived when it did. */
  lemma StillWaits(b: Book, h: Option<Order>, c: Book, h': Option<Order>, id: nat)
    requires Counts(b, h, c, h') && Waiting(b, h, id) == Waiting(c, h', id)
    ensures Arrival(c.log, id) == Arrival(b.log, id)
  {
    hide Waiting, Entered, Fired, Cancelled, Firings, Arrival;
    ArrivalStays(b.log, c.log, id);
  }

  /**
   Through any cascade, trailing bids of one trail amount keep their order, and those that fire are the
   first of them.
   */
  lemma CascadeKeepsBids(b: Book)
    requires Started(b) && BidsInTime(b)
    ensures BidsInTime(BookModel.Cascade(b))
  {
    hide Placed, Indexed, Live, Uncrossed, C.Banded, C.Quiet, Rebuilds, BookModel.Cascade, Group, Counts, Quantities;
    hide Rising, Arrival, Waiting;
    var c := BookModel.Cascade(b);
    CascadeAccounts(b);
    CascadeSteadies(b);
    forall t: nat ensures Rising(c.log, Group(c, t)) {
      CascadeGroup(b, t);
      forall id | id in Ids(Group(c, t)) ensures Arrival(c.log, id) == Arrival(b.log, id) {
        GroupWaits(c, t, id);
        assert id in Ids(Group(b, t));
        GroupWaits(b, t, id);
        StillWaits(b, None, c, None, id);
      }
      RisingByIds(b.log, Group(b, t), c.log, Group(c, t));
    }
  }

  // ------------------------------------------------------------ every operation

  /** In a steady book a new trailing bid stops at or above every other of its trail amount. */
  lemma NewcomerIsLast(b: Book, o: Order, x: Order)
    requires Steady(b) && o.side == Bid && x in b.bidTrails && x.trail == o.trail
    ensures Key(x) <= Restopped(o, b.last).stop
  {
    hide Indexed, Uncrossed, Rebuilds, Sorted, DistinctIds;
    assert Placed(b, BidTrails);
    if b.last == 0 {
      C.QuietAtZero(b);
    }
  }

  lemma SubmitGroups(b: Book, o: Order, t: nat)
    requires Steady(b) && Ready(b, o)
    ensures
      var d := Submit(b, o);
      || Ids(Group(d, t)) == Ids(Group(b, t))
      || (Waits(o) && Ids(Group(d, t)) == Ids(Group(b, t)) + [o.id])
  {
    hide Steady, Ready, AddLimit, AddMarket, Fire, Rest, Insert, Reached, ByTrail, TrailedStop, BinOf;
    var c := b.Emit(Added(o));
    if Waits(o) {
      var o' := if o.IsTrailing() then Restopped(o, b.last) else o;
      if !Reached(o.side, o'.stop, MarketPrice(c, o.side)) {
        RestGroup(b, c, o, o', t);
      }
    }
  }

  lemma RestGroup(b: Book, c: Book, o: Order, o': Order, t: nat)
    requires Steady(b) && c.bidTrails == b.bidTrails && o' == if o.IsTrailing() then Restopped(o, b.last) else o
    ensures
      var d := Rest(c, o');
      || Ids(Group(d, t)) == Ids(Group(b, t))
      || Ids(Group(d, t)) == Ids(Group(b, t)) + [o.id]
  {
    hide Steady, Insert, ByTrail, TrailedStop;
    if BinOf(o') == BidTrails {
      PlacedSorted(b);
      forall x | x in b.bidTrails && x.trail == o'.trail ensures !Ahead(BidTrails, Key(o'), Key(x)) {
        NewcomerIsLast(b, o, x);
      }
      InsertBehind(b.bidTrails, o', t);
      if t == o'.trail {
        assert Ids(Group(b, t) + [o']) == Ids(Group(b, t)) + [o.id];
      }
    }
  }

  lemma PlacedSorted(b: Book)
    requires Steady(b)
    ensures Sorted(BidTrails, b.bidTrails)
  {
    assert Placed(b, BidTrails);
  }

  /** The order put to rest is the newest of its group. */
  lemma SubmitKeepsBids(b: Book, o: Order)
    requires Steady(b) && Ready(b, o) && BidsInTime(b)
    ensures BidsInTime(Submit(b, o))
  {
    hide Placed, Indexed, Live, Uncrossed, C.Banded, C.Quiet, Aligned, Rebuilds, Submit, Group, Counts, Quantities;
    hide Rising, Arrival, Waiting, Waits;
    var d := Submit(b, o);
    SubmitSound(b, o);
    SubmitAccounts(b, o);
    forall t: nat ensures Rising(d.log, Group(d, t)) {
      SubmitGroups(b, o, t);
      forall id | id in Ids(Group(b, t)) ensures Arrival(d.log, id) == Arrival(b.log, id) < |b.log| + 1 {
        assert id in Ids(Group(d, t));
        GroupWaits(b, t, id);
        GroupWaits(d, t, id);
        OthersArrived(b, o, id);
      }
      if Ids(Group(d, t)) == Ids(Group(b, t)) {
        EndsWithSelf(Ids(Group(b, t)));
        RisingByIds(b.log, Group(b, t), d.log, Group(d, t));
      } else {
        assert Ids(Group(d, t))[|Group(b, t)|] == o.id;
        GroupWaits(d, t, o.id);
        NewcomerArrived(b, o);
        RisingNewcomer(b.log, Group(b, t), d.log, Group(d, t), o.id);
      }
    }
  }

  lemma OthersArrived(b: Book, o: Order, id: nat)
    requires Ready(b, o) && Rebuilds(b.log, b.orders) && id in b.orders && Waiting(b, None, id) == 1
    requires Waiting(Submit(b, o), None, id) == 1
    ensures Arrival(Submit(b, o).log, id) == Arrival(b.log, id) < |b.log| + 1
  {
    hide Placed, Indexed, Live, Uncrossed, Rebuilds, Submit, Counts, Quantities, Arrival;
    SubmitAccounts(b, o);
    ArrivesLast(b.log, Added(o), id);
    StillWaits(b.Emit(Added(o)), Some(o), Submit(b, o), None, id);
  }

  lemma NewcomerArrived(b: Book, o: Order)
    requires Ready(b, o) && Rebuilds(b.log, b.orders) && Waits(o) && Waiting(Submit(b, o), None, o.id) == 1
    ensures Arrival(Submit(b, o).log, o.id) == |b.log| + 1
  {
    hide Placed, Indexed, Live, Uncrossed, Rebuilds, Submit, Counts, Quantities, Arrival;
    SubmitAccounts(b, o);
    ArrivesLast(b.log, Added(o), o.id);
    StillWaits(b.Emit(Added(o)), Some(o), Submit(b, o), None, o.id);
  }

  lemma RisingNewcomer(log: seq<Event>, a: seq<Order>, later: seq<Event>, c: seq<Order>, id: nat)
    requires Rising(log, a) && Ids(c) == Ids(a) + [id]
    requires forall x :: x in Ids(a) ==> Arrival(later, x) == Arrival(log, x) < Arrival(later, id)
    ensures Rising(later, c)
  {
    hide Arrival, Ids;
    forall i, j | 0 <= i < j < |c| ensures Arrival(later, c[i].id) < Arrival(later, c[j].id) {
      assert c[i].id == Ids(c)[i] == Ids(a)[i] == a[i].id && Ids(a)[i] in Ids(a);
      if j < |a| {
        assert c[j].id == Ids(c)[j] == Ids(a)[j] == a[j].id && Ids(a)[j] in Ids(a);
      } else {
        assert c[j].id == Ids(c)[j] == id;
      }
    }
  }

  lemma DropKeepsBids(b: Book, o: Order)
    requires Struct(b) && BidsInTime(b)
    ensures BidsInTime(Drop(b, o))
  {
    hide Arrival, Indexed;
    assert Placed(b, BidTrails);
    forall t: nat ensures Rising(b.log, Group(Drop(b, o), t)) {
      ByTrailWithout(b.bidTrails, o.id, t);
      RisingWithout(b.log, Group(b, t), o.id);
    }
  }

  lemma AmendKeepsBids(b: Book, o: Order)
    requires Struct(b) && o.id in b.orders && Requoted(b.orders[o.id], o) && BidsInTime(b)
    ensures BidsInTime(Amend(b, o))
  {
    hide Arrival, Rising;
    assert Placed(b, BidTrails);
    forall t: nat ensures Rising(b.log, Group(Amend(b, o), t)) {
      ByTrailPut(b.bidTrails, o, t);
      EndsWithSelf(Ids(Group(b, t)));
      RisingByIds(b.log, Group(b, t), b.log, ByTrail(Put(b.bidTrails, o), t));
    }
  }

  /** The trailing bids are the same, and so are the arrivals. */
  lemma FrameBids(b: Book, c: Book)
    requires BidsInTime(b) && c.bidTrails == b.bidTrails && SameArrivals(b.log, c.log)
    ensures BidsInTime(c)
  {
    hide Arrival;
    forall t: nat ensures Rising(c.log, Group(c, t)) {
      RisingLog(b.log, c.log, Group(b, t));
    }
  }

  lemma ReviseKeepsBids(b: Book, o: Order, last: nat, e: Event)
    requires Struct(b) && BidsInTime(b) && o.id in b.orders && Requoted(b.orders[o.id], o)
    requires e.order == o && !e.Added? && !Fires(Replay(b.log), e)
    ensures BidsInTime(Revise(b, o, last, e))
  {
    hide BidsInTime, Arrival, Placed, Indexed, Requoted, Drop, Amend, Revise, Fires;
    var p := b.orders[o.id];
    ReviseForm(b, o, last, e);
    L.ReviseLog(b, o, last, e);
    SilentTold(b.log, e);
    L.DropLog(b, p);
    L.AmendLog(b, o);
    if o.IsFilled() {
      DropKeepsBids(b, p);
      ArrivalsDeleted(b.log + [e], Deleted(o));
      FrameBids(Drop(b, p), Revise(b, o, last, e));
    } else {
      AmendKeepsBids(b, o);
      FrameBids(Amend(b, o), Revise(b, o, last, e));
    }
  }

  lemma DeleteKeepsBids(b: Book, id: nat)
    requires Struct(b) && BidsInTime(b) && id in b.orders
    ensures BidsInTime(Delete(b, id))
  {
    hide BidsInTime, Placed, Indexed, Drop, Arrival;
    var o := b.orders[id];
    DropEmit(b, o, Deleted(o));
    DropKeepsBids(b, o);
    L.DropLog(b, o);
    ArrivalsDeleted(b.log, Deleted(o));
    FrameBids(Drop(b, o), Delete(b, id));
  }

  lemma AddKeepsBids(b: Book, o: Order)
    requires Steady(b) && Ready(b, o) && BidsInTime(b)
    ensures BidsInTime(AddOrder(b, o))
  {
    hide BidsInTime, Sound, C.Quiet, C.Banded, Aligned, Rebuilds, Submit, BookModel.Cascade, Conserved;
    SubmitKeepsBids(b, o);
    SubmitSound(b, o);
    SubmitBanded(b, o);
    SubmitAccounts(b, o);
    CascadeKeepsBids(Submit(b, o));
  }

  lemma HitKeepsBids(b: Book, id: nat, quantity: nat, price: nat)
    requires Started(b) && BidsInTime(b) && id in b.orders && b.orders[id].id == id && price <= MAX64
    ensures BidsInTime(BookModel.Cascade(Hit(b, id, quantity, price)))
  {
    hide BidsInTime, Placed, Indexed, Live, Uncrossed, Rebuilds, C.Banded, Revise, BookModel.Cascade;
    HitStarted(b, id, quantity, price);
    var o := b.orders[id].Execute(price, Min(quantity, b.orders[id].open));
    ReviseKeepsBids(b, o, price, Executed(o));
    CascadeKeepsBids(Hit(b, id, quantity, price));
  }

  lemma ShrinkKeepsBids(b: Book, id: nat, quantity: nat)
    requires Started(b) && BidsInTime(b) && id in b.orders && b.orders[id].id == id && quantity <= MAX64
    ensures BidsInTime(BookModel.Cascade(Shrink(b, id, quantity)))
  {
    hide BidsInTime, Placed, Indexed, Live, Uncrossed, C.Banded, Revise, BookModel.Cascade;
    ShrinkStarted(b, id, quantity);
    var o := b.orders[id].SetQuantity(quantity);
    assert Told(Replay(b.log).value[id]) == Told(b.orders[id]);
    ReviseKeepsBids(b, o, b.last, Updated(o));
    CascadeKeepsBids(Shrink(b, id, quantity));
  }

  /** Every public operation keeps trailing bids of one trail amount in the order of arrival. */
  lemma ApplyKeepsBids(b: Book, op: Op)
    requires Steady(b) && Allowed(b, op) && BidsInTime(b)
    ensures BidsInTime(Apply(b, op))
  {
    hide BidsInTime, C.Quiet, C.Banded, Rebuilds, AddOrder, Hit, Shrink, Delete, BookModel.Cascade, Placed, Uncrossed;
    match op
    case Add(o) => AddKeepsBids(b, o);
    case ExecuteAtPrice(id, quantity, price) => HitKeepsBids(b, id, quantity, price);
    case ExecuteOwn(id, quantity) =>
      L.LiveFit(b, id);
      HitKeepsBids(b, id, quantity, b.orders[id].price);
    case Cancel(id, quantity) => ShrinkKeepsBids(b, id, quantity);
    case Remove(id) =>
      DeleteStarted(b, id);
      DeleteKeepsBids(b, id);
      CascadeKeepsBids(Delete(b, id));
    case Replace(id, newId, newPrice) =>
      ReplaceIsDeleteThenAdd(b, id, newId, newPrice);
      DeleteSteady(b, id);
      DeleteKeepsBids(b, id);
      ReplacementReady(b, id, newId, newPrice);
      AddKeepsBids(Delete(b, id), b.orders[id].(id := newId, price := newPrice));
  }

  lemma {:induction false} RunKeepsBids(b: Book, ops: seq<Op>, c: Book)
    requires Steady(b) && BidsInTime(b) && Reaches(b, ops, c)
    ensures BidsInTime(c)
    decreases |ops|
  {
    hide Steady, BidsInTime, Allowed, Apply;
    if ops != [] {
      ApplySteady(b, ops[0]);
      ApplyKeepsBids(b, ops[0]);
      RunKeepsBids(Apply(b, ops[0]), ops[1..], c);
    }
  }

  /** At every return of every run, trailing bids of one trail amount stand in the order of their arrival. */
  lemma TrailingBidsFirstCome(ops: seq<Op>, b: Book, i: nat, j: nat)
    requires Reaches(EmptyBook, ops, b)
    requires i < j < |b.bidTrails| && b.bidTrails[i].trail == b.bidTrails[j].trail
    ensures Arrival(b.log, b.bidTrails[i].id) < Arrival(b.log, b.bidTrails[j].id)
  {
    hide Steady, Arrival, ByTrail;
    EmptyIsSteady();
    assert BidsInTime(EmptyBook) by { NoBids(); }
    RunKeepsBids(EmptyBook, ops, b);
    var t := b.bidTrails[i].trail;
    assert Rising(b.log, Group(b, t));
    RisingInGroup(b.log, b.bidTrails, t, i, j);
  }

  lemma NoBids()
    ensures BidsInTime(EmptyBook)
  {
  }

  lemma {:induction false} RisingInGroup(log: seq<Event>, s: seq<Order>, t: nat, i: nat, j: nat)
    requires i < j < |s| && s[i].trail == t && s[j].trail == t && Rising(log, ByTrail(s, t))
    ensures Arrival(log, s[i].id) < Arrival(log, s[j].id)
    decreases |s|
  {
    var a := ByTrail(s[1..], t);
    assert ByTrail(s, t) == if s[0].trail == t then [s[0]] + a else a;
    hide Arrival, ByTrail;
    if i == 0 {
      assert s[1..][j - 1] == s[j] && s[j] in a;
      var l :| 0 <= l < |a| && a[l] == s[j];
      assert ([s[0]] + a)[0] == s[0] && ([s[0]] + a)[l + 1] == a[l];
    } else {
      if s[0].trail == t {
        RisingRest(log, s[0], a);
      }
      RisingInGroup(log, s[1..], t, i - 1, j - 1);
    }
  }

  lemma RisingRest(log: seq<Event>, o: Order, a: seq<Order>)
    requires Rising(log, [o] + a)
    ensures Rising(log, a)
  {
    hide Arrival;
    forall i, j | 0 <= i < j < |a| ensures Arrival(log, a[i].id) < Arrival(log, a[j].id) {
      assert a[i] == ([o] + a)[i + 1] && a[j] == ([o] + a)[j + 1];
    }
  }
}
