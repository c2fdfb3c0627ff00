/** Aligning trailing stops with a new market price: a stable regrouping of the same orders. */
module Rekeying {
  import opened Orders
  import opened Queues
  import opened BookModel
  import opened BookInvariants
  import opened Words

  lemma {:induction false} VisitSameOrders(s: seq<Order>)
    ensures forall o :: o in Visit(s) <==> o in s
    ensures DistinctIds(s) ==> DistinctIds(Visit(s))
    decreases |s|
  {
    hide DistinctIds;
    if s != [] {
      var i := Lowest(s);
      var t := s[..i] + s[i + 1..];
      VisitSameOrders(t);
      TakeOut(s, i);
      if DistinctIds(s) {
        Prepend(s[i], Visit(t));
      }
    }
  }

  lemma Prepend(o: Order, s: seq<Order>)
    requires DistinctIds(s) && forall x :: x in s ==> x.id != o.id
    ensures DistinctIds([o] + s)
  {
  }

  lemma TakeOut(s: seq<Order>, i: nat)
    requires i < |s|
    ensures forall o :: o in s <==> o == s[i] || o in s[..i] + s[i + 1..]
    ensures DistinctIds(s) ==>
      DistinctIds(s[..i] + s[i + 1..]) && forall o :: o in s[..i] + s[i + 1..] ==> o.id != s[i].id
  {
    assert s == s[..i] + [s[i]] + s[i + 1..];
  }

  /** Levels are visited from the lowest price up, ... */
  lemma {:induction false} VisitAscends(s: seq<Order>)
    ensures Sorted(BidTrails, Visit(s))
    decreases |s|
  {
    if s != [] {
      hide Sorted;
      var i := Lowest(s);
      var t := s[..i] + s[i + 1..];
      VisitAscends(t);
      VisitSameOrders(t);
      TakeOut(s, i);
      LeastFirst(s[i], Visit(t));
    }
  }

  lemma LeastFirst(o: Order, s: seq<Order>)
    requires Sorted(BidTrails, s) && forall x :: x in s ==> Key(o) <= Key(x)
    ensures Sorted(BidTrails, [o] + s)
  {
    hide Key;
  }

  /** ... and each level from its front to its back. */
  lemma {:induction false} VisitStable(s: seq<Order>, p: nat)
    ensures AtLevel(Visit(s), p) == AtLevel(s, p)
    decreases |s|
  {
    if s != [] {
      var i := Lowest(s);
      var t := s[..i] + s[i + 1..];
      VisitStable(t, p);
      assert s == s[..i] + [s[i]] + s[i + 1..];
      TakeFirst(s[..i], s[i], s[i + 1..], p);
    }
  }

  lemma TakeFirst(a: seq<Order>, o: Order, b: seq<Order>, p: nat)
    requires forall x :: x in a ==> Key(x) != Key(o)
    ensures AtLevel(a + [o] + b, p) == (if Key(o) == p then [o] else []) + AtLevel(a + b, p)
  {
    AtLevelConcat(a + [o], b, p);
    AtLevelConcat(a, [o], p);
    AtLevelConcat(a, b, p);
    if Key(o) == p {
      AtLevelEmpty(a, p);
    }
  }

  lemma {:induction false} VisitBids(s: seq<Order>)
    requires Sorted(BidTrails, s)
    ensures Visit(s) == s
    decreases |s|
  {
    if s != [] {
      assert Lowest(s) == 0;
      VisitBids(s[1..]);
    }
  }

  lemma {:induction false} InsertAllOrders(k: Bin, s: seq<Order>, news: seq<Order>)
    requires Sorted(k, s)
    ensures Sorted(k, InsertAll(k, s, news))
    ensures forall o :: o in InsertAll(k, s, news) <==> o in s || o in news
    decreases |news|
  {
    hide Insert, Sorted, Ahead;
    if news != [] {
      InsertSorted(k, s, news[0]);
      InsertAllOrders(k, Insert(k, s, news[0]), news[1..]);
    }
  }

  lemma {:induction false} InsertAllDistinct(k: Bin, s: seq<Order>, news: seq<Order>)
    requires Sorted(k, s) && DistinctIds(s) && DistinctIds(news)
    requires forall x, y :: x in s && y in news ==> x.id != y.id
    ensures DistinctIds(InsertAll(k, s, news))
    decreases |news|
  {
    if news != [] {
      InsertSorted(k, s, news[0]);
      assert news[0] in news;
      InsertDistinct(k, s, news[0]);
      InsertAllDistinct(k, Insert(k, s, news[0]), news[1..]);
    }
  }

  lemma AtLevelHead(s: seq<Order>, p: nat)
    requires s != []
    ensures AtLevel(s, p) == (if Key(s[0]) == p then [s[0]] else []) + AtLevel(s[1..], p)
  {
  }

  lemma Regrouped<T>(a: seq<T>, b: seq<T>, c: seq<T>)
    ensures (a + b) + c == a + (b + c)
  {
  }

  /** Orders meeting at one price are queued in the order they were inserted. */
  lemma {:induction false} InsertAllAtLevel(k: Bin, s: seq<Order>, news: seq<Order>, p: nat)
    requires Sorted(k, s)
    ensures AtLevel(InsertAll(k, s, news), p) == AtLevel(s, p) + AtLevel(news, p)
    decreases |news|
  {
    if news != [] {
      hide Insert, Sorted, Ahead, Key, AtLevel;
      var o, rest := news[0], news[1..];
      InsertSorted(k, s, o);
      InsertAtLevel(k, s, o, p);
      InsertAllAtLevel(k, Insert(k, s, o), rest, p);
      AtLevelHead(news, p);
      Regrouped(AtLevel(s, p), if Key(o) == p then [o] else [], AtLevel(rest, p));
    }
  }

  lemma {:induction false} ReindexedLookup(m: map<nat, Order>, news: seq<Order>)
    requires DistinctIds(news)
    ensures forall i :: 0 <= i < |news| ==>
      news[i].id in Reindexed(m, news) && Reindexed(m, news)[news[i].id] == news[i]
    ensures forall id :: (forall i :: 0 <= i < |news| ==> news[i].id != id) ==>
      (id in Reindexed(m, news) <==> id in m) && (id in m ==> Reindexed(m, news)[id] == m[id])
    decreases |news|
  {
    if news != [] {
      var m' := m[news[0].id := news[0]];
      ReindexedLookup(m', news[1..]);
      forall i | 0 <= i < |news|
        ensures news[i].id in Reindexed(m, news) && Reindexed(m, news)[news[i].id] == news[i]
      {
        if i > 0 { assert news[i] == news[1..][i - 1]; }
      }
    }
  }

  lemma {:induction false} TrailedDistinct(s: seq<Order>, last: nat)
    requires DistinctIds(s)
    ensures DistinctIds(Trailed(s, last))
  {
  }

  /** The visited orders, seen through an index that holds the old ones. */
  lemma NewsContents(m: map<nat, Order>, s: seq<Order>, last: nat)
    requires DistinctIds(s) && forall o :: o in s ==> o.id in m && m[o.id] == o
    ensures
      var news := Trailed(Visit(s), last);
      && DistinctIds(news)
      && (forall o :: o in s ==> Restopped(o, last) in news)
      && (forall n :: n in news ==> n.id in m && m[n.id] in s && n == Restopped(m[n.id], last))
  {
    var v := Visit(s);
    VisitSameOrders(s);
    var news := Trailed(v, last);
    TrailedDistinct(v, last);
    forall n | n in news ensures n.id in m && m[n.id] in s && n == Restopped(m[n.id], last) {
      var i :| 0 <= i < |news| && news[i] == n;
      assert v[i] in v;
    }
    forall o | o in s ensures Restopped(o, last) in news {
      assert o in v;
      var i :| 0 <= i < |v| && v[i] == o;
      assert news[i] in news;
    }
  }

  lemma NewsIndex(m: map<nat, Order>, s: seq<Order>, last: nat)
    requires DistinctIds(s) && forall o :: o in s ==> o.id in m && m[o.id] == o
    requires forall id :: id in m ==> m[id].id == id
    ensures
      var r := Reindexed(m, Trailed(Visit(s), last));
      && r.Keys == m.Keys
      && forall id :: id in m ==> r[id] == if m[id] in s then Restopped(m[id], last) else m[id]
  {
    var news := Trailed(Visit(s), last);
    NewsContents(m, s, last);
    ReindexedLookup(m, news);
    var r := Reindexed(m, news);
    forall id ensures id in r <==> id in m
      ensures id in m ==> r[id] == if m[id] in s then Restopped(m[id], last) else m[id]
    {
      if id in m && m[id] in s {
        assert Restopped(m[id], last) in news;
        var i :| 0 <= i < |news| && news[i] == Restopped(m[id], last);
        assert news[i].id == id;
      } else {
        assert forall i :: 0 <= i < |news| ==> news[i] in news && news[i].id != id;
      }
    }
  }

  /** The re-keyed list: the same orders, each at its new stop price, and the index follows. */
  lemma RekeyContents(b: Book, k: Bin)
    requires Struct(b) && !LimitBin(k)
    ensures
      var r := Rekey(b, k);
      && Sorted(k, r.Queue(k)) && DistinctIds(r.Queue(k))
      && (forall o :: o in b.Queue(k) ==> Restopped(o, b.last) in r.Queue(k))
      && (forall n :: n in r.Queue(k) ==>
           n.id in b.orders && b.orders[n.id] in b.Queue(k) && n == Restopped(b.orders[n.id], b.last))
      && r.orders.Keys == b.orders.Keys
      && (forall id :: id in b.orders ==>
           r.orders[id] == if b.orders[id] in b.Queue(k) then Restopped(b.orders[id], b.last) else b.orders[id])
  {
    hide Visit, Trailed, Reindexed, InsertAll, Sorted, DistinctIds, BinOf, Restopped;
    var s := b.Queue(k);
    assert Placed(b, k);
    NewsContents(b.orders, s, b.last);
    NewsIndex(b.orders, s, b.last);
    FreshList(k, Trailed(Visit(s), b.last));
  }

  /** A list built from nothing but the news holds just them, in order. */
  lemma FreshList(k: Bin, news: seq<Order>)
    requires DistinctIds(news)
    ensures Sorted(k, InsertAll(k, [], news)) && DistinctIds(InsertAll(k, [], news))
    ensures forall o :: o in InsertAll(k, [], news) <==> o in news
  {
    InsertAllOrders(k, [], news);
    InsertAllDistinct(k, [], news);
  }

  lemma RekeyStruct(b: Book, k: Bin)
    requires Struct(b) && (k == AskTrails || k == BidTrails)
    ensures Struct(Rekey(b, k))
  {
    RekeyContents(b, k);
    assert Placed(b, k);
    RegroupStruct(b, Rekey(b, k), k, b.last);
  }

  lemma RegroupStruct(b: Book, r: Book, k: Bin, last: nat)
    requires Struct(b) && (k == AskTrails || k == BidTrails)
    requires Sorted(k, r.Queue(k)) && DistinctIds(r.Queue(k)) && forall j :: j != k ==> r.Queue(j) == b.Queue(j)
    requires forall o :: o in b.Queue(k) ==> Restopped(o, last) in r.Queue(k)
    requires forall n :: n in r.Queue(k) ==>
      n.id in b.orders && b.orders[n.id] in b.Queue(k) && n == Restopped(b.orders[n.id], last)
    requires r.orders.Keys == b.orders.Keys
    requires forall id :: id in b.orders ==>
      r.orders[id] == if b.orders[id] in b.Queue(k) then Restopped(b.orders[id], last) else b.orders[id]
    ensures Struct(r)
  {
    hide Sorted, DistinctIds, Restopped, BinOf;
    assert Placed(b, k);
    forall j ensures Placed(r, j) {
      if j != k {
        RegroupOthers(b, r, k, last, j);
      } else {
        forall n | n in r.Queue(k)
          ensures n.id in r.orders && r.orders[n.id] == n && BinOf(n) == k && n.kind != Market
        {
          RestoppedStays(b.orders[n.id], last);
        }
      }
    }
    forall id | id in r.orders
      ensures r.orders[id].id == id && r.orders[id].kind != Market && r.orders[id] in r.Queue(BinOf(r.orders[id]))
    {
      assert id in b.orders;
      RestoppedStays(b.orders[id], last);
    }
  }

  lemma RestoppedStays(o: Order, last: nat)
    ensures Restopped(o, last).id == o.id && BinOf(Restopped(o, last)) == BinOf(o) && Restopped(o, last).kind == o.kind
  {
  }

  lemma RegroupOthers(b: Book, r: Book, k: Bin, last: nat, j: Bin)
    requires Struct(b) && j != k && r.Queue(j) == b.Queue(j)
    requires r.orders.Keys == b.orders.Keys
    requires forall id :: id in b.orders && b.orders[id] !in b.Queue(k) ==> r.orders[id] == b.orders[id]
    ensures Placed(r, j)
  {
    assert Placed(b, j) && Placed(b, k);
  }

  lemma RekeySound(b: Book, k: Bin)
    requires Sound(b) && (k == AskTrails || k == BidTrails)
    ensures Sound(Rekey(b, k)) && Rekey(b, k).orders.Keys == b.orders.Keys
  {
    hide Placed, Indexed, Rekey, Fit;
    var r := Rekey(b, k);
    RekeyStruct(b, k);
    RekeyContents(b, k);
    forall id | id in r.orders ensures Fit(r.orders[id]) {
      RestoppedFit(b.orders[id], b.last);
    }
  }

  lemma RestoppedFit(o: Order, last: nat)
    requires Fit(o) && last <= MAX64
    ensures Fit(Restopped(o, last))
  {
    TrailedStopInRange(o, last);
  }

  lemma UpdateBidsSound(b: Book)
    requires Sound(b)
    ensures Sound(UpdateBids(b)) && UpdateBids(b).orders.Keys == b.orders.Keys
  {
    hide Placed, Indexed, Rekey, Fit;
    RekeySound(b, BidTrails);
    var c := if b.askMarker <= b.LastAsk() || b.bidTrails == [] then b else Rekey(b, BidTrails);
    StructOnly(c, c.(askMarker := b.last));
  }

  lemma UpdateAsksSound(b: Book)
    requires Sound(b)
    ensures Sound(UpdateAsks(b)) && UpdateAsks(b).orders.Keys == b.orders.Keys
  {
    hide Placed, Indexed, Rekey, Fit;
    RekeySound(b, AskTrails);
    var c := if b.bidMarker >= b.LastBid() || b.askTrails == [] then b else Rekey(b, AskTrails);
    StructOnly(c, c.(bidMarker := b.last));
  }

  // ------------------------------------------------------------ who goes first afterwards

  /** The orders of one trail amount, in priority order. */
  function ByTrail(s: seq<Order>, t: nat): (r: seq<Order>)
    ensures forall o :: o in r <==> o in s && o.trail == t
  {
    if s == [] then []
    else if s[0].trail == t then [s[0]] + ByTrail(s[1..], t)
    else ByTrail(s[1..], t)
  }

  lemma {:induction false} ByTrailAtOneLevel(s: seq<Order>, t: nat, p: nat)
    requires forall o :: o in s && o.trail == t ==> Key(o) == p
    ensures ByTrail(s, t) == ByTrail(AtLevel(s, p), t)
  {
    if s != [] {
      assert s[0] in s && forall o :: o in s[1..] ==> o in s;
      ByTrailAtOneLevel(s[1..], t, p);
      var a := AtLevel(s[1..], p);
      if Key(s[0]) == p { assert ([s[0]] + a)[1..] == a; }
    }
  }

  lemma {:induction false} ByTrailIds(s: seq<Order>, last: nat, t: nat)
    ensures Ids(ByTrail(Trailed(s, last), t)) == Ids(ByTrail(s, t))
  {
    if s != [] {
      ByTrailIds(s[1..], last, t);
      var n := Trailed(s, last);
      assert n[1..] == Trailed(s[1..], last);
    }
  }

  /** The new stop price depends on the side and the trail amount only. */
  lemma SameTrailSamePrice(x: Order, y: Order, last: nat)
    requires x.kind != Limit && x.kind != Market && y.kind != Limit && y.kind != Market
    requires BinOf(x) == BinOf(y) && x.trail == y.trail
    ensures Key(Restopped(x, last)) == Key(Restopped(y, last))
  {
  }

  lemma NewsOneLevel(m: map<nat, Order>, s: seq<Order>, k: Bin, last: nat, x: Order, y: Order)
    requires DistinctIds(s) && forall o :: o in s ==> o.id in m && m[o.id] == o && BinOf(o) == k && o.kind != Market
    requires !LimitBin(k)
    requires x in Trailed(Visit(s), last) && y in Trailed(Visit(s), last) && x.trail == y.trail
    ensures Key(x) == Key(y)
  {
    NewsContents(m, s, last);
    SameTrailSamePrice(m[x.id], m[y.id], last);
  }

  /** Re-keying queues the orders of one trail amount exactly as they were visited. */
  lemma RekeyKeepsVisitOrder(b: Book, k: Bin, t: nat)
    requires Struct(b) && (k == AskTrails || k == BidTrails)
    ensures Ids(ByTrail(Rekey(b, k).Queue(k), t)) == Ids(ByTrail(Visit(b.Queue(k)), t))
  {
    assert Placed(b, k);
    VisitOrderKept(b.orders, b.Queue(k), k, b.last, t);
    assert Rekey(b, k).Queue(k) == InsertAll(k, [], Trailed(Visit(b.Queue(k)), b.last));
  }

  lemma VisitOrderKept(m: map<nat, Order>, s: seq<Order>, k: Bin, last: nat, t: nat)
    requires DistinctIds(s) && forall o :: o in s ==> o.id in m && m[o.id] == o && BinOf(o) == k && o.kind != Market
    requires !LimitBin(k)
    ensures Ids(ByTrail(InsertAll(k, [], Trailed(Visit(s), last)), t)) == Ids(ByTrail(Visit(s), t))
  {
    var news := Trailed(Visit(s), last);
    forall x, y | x in news && y in news && x.trail == t && y.trail == t ensures Key(x) == Key(y) {
      NewsOneLevel(m, s, k, last, x, y);
    }
    InsertKeepsTrail(k, news, t);
    ByTrailIds(Visit(s), last, t);
  }

  lemma InsertKeepsTrail(k: Bin, news: seq<Order>, t: nat)
    requires forall x, y :: x in news && y in news && x.trail == t && y.trail == t ==> Key(x) == Key(y)
    ensures ByTrail(InsertAll(k, [], news), t) == ByTrail(news, t)
  {
    if n :| n in news && n.trail == t {
      InsertKeepsOneLevel(k, news, t, Key(n));
    } else {
      InsertAllOrders(k, [], news);
      NoneOfTrail(news, t);
      NoneOfTrail(InsertAll(k, [], news), t);
    }
  }

  lemma NoneOfTrail(s: seq<Order>, t: nat)
    requires forall o :: o in s ==> o.trail != t
    ensures ByTrail(s, t) == []
  {
  }

  lemma InsertKeepsOneLevel(k: Bin, news: seq<Order>, t: nat, p: nat)
    requires forall o :: o in news && o.trail == t ==> Key(o) == p
    ensures ByTrail(InsertAll(k, [], news), t) == ByTrail(news, t)
  {
    var q := InsertAll(k, [], news);
    InsertAllOrders(k, [], news);
    ByTrailAtOneLevel(q, t, p);
    ByTrailAtOneLevel(news, t, p);
    InsertAllAtLevel(k, [], news, p);
    assert AtLevel(q, p) == AtLevel(news, p);
  }

  /** Bids: orders of equal trail amount keep their priority among themselves. */
  lemma RekeyKeepsBidPriority(b: Book, t: nat)
    requires Struct(b)
    ensures Ids(ByTrail(Rekey(b, BidTrails).bidTrails, t)) == Ids(ByTrail(b.bidTrails, t))
  {
    assert Placed(b, BidTrails);
    RekeyKeepsVisitOrder(b, BidTrails, t);
    VisitBids(b.bidTrails);
  }

  ghost predicate OneStopPrice(s: seq<Order>, t: nat) {
    forall x, y :: x in s && y in s && x.trail == t && y.trail == t ==> x.stop == y.stop
  }

  /**
   Asks are visited from their last level up, so equal trail amounts keep their priority exactly when
   they share a level.
   */
  lemma RekeyKeepsAskPriorityIff(b: Book, t: nat)
    requires Struct(b)
    ensures Ids(ByTrail(Rekey(b, AskTrails).askTrails, t)) == Ids(ByTrail(b.askTrails, t)) <==>
      OneStopPrice(b.askTrails, t)
  {
    hide Visit, Sorted, DistinctIds, Rekey, Indexed, OneStopPrice, ByTrail, Ids;
    assert Placed(b, AskTrails);
    RekeyKeepsVisitOrder(b, AskTrails, t);
    VisitKeepsPriorityIff(b.askTrails, t);
  }

  lemma VisitKeepsPriorityIff(s: seq<Order>, t: nat)
    requires Sorted(AskTrails, s) && DistinctIds(s) && forall o :: o in s ==> BinOf(o) == AskTrails
    ensures Ids(ByTrail(Visit(s), t)) == Ids(ByTrail(s, t)) <==> OneStopPrice(s, t)
  {
    hide Visit, Sorted, DistinctIds, OneStopPrice, ByTrail, Ids;
    if OneStopPrice(s, t) {
      OneLevelIsKept(s, t);
    } else {
      TwoLevelsAreSwapped(s, t);
    }
  }

  lemma OneLevelIsKept(s: seq<Order>, t: nat)
    requires OneStopPrice(s, t) && forall o :: o in s ==> Key(o) == o.stop
    ensures ByTrail(Visit(s), t) == ByTrail(s, t)
  {
    VisitSameOrders(s);
    if x :| x in s && x.trail == t {
      VisitStable(s, x.stop);
      ByTrailAtOneLevel(s, t, x.stop);
      ByTrailAtOneLevel(Visit(s), t, x.stop);
    } else {
      NoneOfTrail(s, t);
      NoneOfTrail(Visit(s), t);
    }
  }

  lemma TwoLevelsAreSwapped(s: seq<Order>, t: nat)
    requires Sorted(AskTrails, s) && DistinctIds(s) && !OneStopPrice(s, t) && forall o :: o in s ==> Key(o) == o.stop
    ensures Ids(ByTrail(Visit(s), t)) != Ids(ByTrail(s, t))
  {
    hide Visit, DistinctIds;
    var x, y :| x in s && y in s && x.trail == t && y.trail == t && x.stop != y.stop;
    VisitSameOrders(s);
    VisitAscends(s);
    var was, now := ByTrail(s, t), ByTrail(Visit(s), t);
    assert x in was && x in now && y in was && y in now;
    ByTrailHead(AskTrails, s, t);
    ByTrailHead(BidTrails, Visit(s), t);
    assert now[0] in now && was[0] in was;
    assert now[0] != was[0];
    SameIdSameOrder(s, now[0], was[0]);
    assert Ids(now)[0] != Ids(was)[0];
  }

  lemma SameIdSameOrder(s: seq<Order>, x: Order, y: Order)
    requires DistinctIds(s) && x in s && y in s && x != y
    ensures x.id != y.id
  {
    var i :| 0 <= i < |s| && s[i] == x;
    var j :| 0 <= j < |s| && s[j] == y;
  }

  /** The first order of a trail amount is the best priced of them. */
  lemma {:induction false} ByTrailHead(k: Bin, s: seq<Order>, t: nat)
    requires Sorted(k, s) && ByTrail(s, t) != []
    ensures forall o :: o in s && o.trail == t ==> !Ahead(k, Key(o), Key(ByTrail(s, t)[0]))
  {
    if s[0].trail != t {
      ByTrailHead(k, s[1..], t);
      assert forall o :: o in s && o.trail == t ==> o in s[1..];
    } else {
      forall o | o in s ensures !Ahead(k, Key(o), Key(s[0])) {
        var j :| 0 <= j < |s| && s[j] == o;
      }
    }
  }

  /**
   A trailing ask stop is no ratchet: set while the price stood at p, it falls at the
   next update exactly when the price has risen since the last update, but not back to p.
   */
  lemma AskTrailFallsIff(b: Book, o: Order, p: nat)
    requires Struct(b) && o in b.askTrails && o.IsAsk() && o.stop == TrailedStop(o, p)
    ensures o.id in UpdateAsks(b).orders
    ensures UpdateAsks(b).orders[o.id].stop < o.stop <==> b.bidMarker < b.last < p && o.trail < p
  {
    assert o in b.Queue(AskTrails) && Placed(b, AskTrails);
    RekeyContents(b, AskTrails);
  }

  /**
   The same of a trailing bid stop, which rises when the price has fallen since the last update, but
   not back to p.
   */
  lemma BidTrailRisesIff(b: Book, o: Order, p: nat)
    requires Struct(b) && o in b.bidTrails && !o.IsAsk() && 0 < p <= MAX64 && o.stop == TrailedStop(o, p)
    requires b.last != 0 && b.last <= MAX64 && o.trail <= MAX64
    ensures o.id in UpdateBids(b).orders
    ensures UpdateBids(b).orders[o.id].stop > o.stop <==> p < b.last < b.askMarker && p < MAX64 - o.trail
  {
    assert o in b.Queue(BidTrails) && Placed(b, BidTrails);
    RekeyContents(b, BidTrails);
  }
}
