/** The re-keying loops on levels: orders move one by one from the old map into a new one. */
module Regrouping {
  import opened Orders
  import opened Queues
  import opened BookModel
  import opened BookInvariants
  import opened Rekeying
  import opened Levels
  import opened LevelMaps

  /** The map being emptied: at bin k its levels contain what is left of the list, possibly nothing. */
  ghost predicate Emptying(before: map<Place, Content>, view: map<Place, Content>, k: Bin, left: seq<Order>) {
    && view.Keys == before.Keys
    && forall q :: q in view ==> view[q] == if q.bin == k then ContentOf(AtLevel(left, q.price)) else before[q]
  }

  /** The map being filled: exactly the levels of the orders moved so far. */
  ghost predicate Filling(view: map<Place, Content>, k: Bin, moved: seq<Order>) {
    && (forall q :: q in view <==> q.bin == k && AtLevel(moved, q.price) != [])
    && forall q :: q in view ==> view[q] == ContentOf(AtLevel(moved, q.price))
  }

  /** Orders moved point into the new map; the others are as they were. */
  ghost predicate Repointed(before: map<nat, OrderWrapper>, index: map<nat, OrderWrapper>,
                            moved: seq<Order>, news: map<Place, Level>) {
    && index.Keys == before.Keys
    && (forall n :: n in moved ==> PlaceOf(n) in news)
    && (forall n :: n in moved ==> n.id in index && index[n.id] == OrderWrapper(n, news[PlaceOf(n)]))
    && forall id :: id in index && (forall n :: n in moved ==> n.id != id) ==> index[id] == before[id]
  }

  /** The orders left and moved are the orders there were. */
  ghost predicate Split(before: map<nat, OrderWrapper>, k: Bin, left: seq<Order>, moved: seq<Order>) {
    && DistinctIds(left) && DistinctIds(moved) && Sorted(k, moved)
    && (forall o, n :: o in left && n in moved ==> o.id != n.id)
    && (forall o :: o in left ==> o.id in before && before[o.id].order == o && BinOf(o) == k)
    && (forall n :: n in moved ==> BinOf(n) == k)
  }

  /** What is still to come leads to the re-keyed book. */
  ghost predicate Heading(b: Book, k: Bin, left: seq<Order>, moved: seq<Order>, events: seq<Event>)
    requires !LimitBin(k)
  {
    && InsertAll(k, moved, Trailed(Visit(left), b.last)) == Rekey(b, k).Queue(k)
    && events + Updates(Trailed(Visit(left), b.last)) == Rekey(b, k).log
  }

  lemma Departure(f: Fields, b: Book, k: Bin)
    requires Represents(f, b) && !LimitBin(k)
    ensures Emptying(f.view, f.view, k, b.Queue(k)) && Filling(map[], k, [])
    ensures Repointed(f.index, f.index, [], map[]) && Split(f.index, k, b.Queue(k), [])
    ensures Heading(b, k, b.Queue(k), [], f.events)
  {
    hide Struct, Links, Points, Heading, Emptying, Split;
    DepartureHeading(b, k);
    DepartureViews(b, f.view, k);
    DepartureSplit(f, b, k);
  }

  lemma DepartureHeading(b: Book, k: Bin)
    requires !LimitBin(k)
    ensures Heading(b, k, b.Queue(k), [], b.log)
  {
  }

  lemma DepartureViews(b: Book, view: map<Place, Content>, k: Bin)
    requires Links(b, view)
    ensures Emptying(view, view, k, b.Queue(k))
  {
    hide ContentOf;
  }

  lemma DepartureSplit(f: Fields, b: Book, k: Bin)
    requires Struct(b) && Points(f.index, b.orders, f.levels)
    ensures Split(f.index, k, b.Queue(k), [])
  {
    hide Indexed;
    assert Placed(b, k);
  }

  /** What is left when the next order has moved: the one at the front of the lowest level that is not empty. */
  function AfterLowest(s: seq<Order>): seq<Order>
    requires s != []
  {
    s[..Lowest(s)] + s[Lowest(s) + 1..]
  }

  lemma LowestTaken(s: seq<Order>)
    requires s != []
    ensures
      var o := s[Lowest(s)];
      forall q :: AtLevel(s, q) == (if Key(o) == q then [o] else []) + AtLevel(AfterLowest(s), q)
    ensures |AfterLowest(s)| == |s| - 1 && forall o :: o in s <==> o == s[Lowest(s)] || o in AfterLowest(s)
  {
    var i := Lowest(s);
    assert s == s[..i] + [s[i]] + s[i + 1..];
    forall q ensures AtLevel(s, q) == (if Key(s[i]) == q then [s[i]] else []) + AtLevel(AfterLowest(s), q) {
      TakeFirst(s[..i], s[i], s[i + 1..], q);
    }
  }

  lemma LowestIsFront(s: seq<Order>, p: nat)
    requires s != [] && AtLevel(s, p) != [] && forall o :: o in s ==> p <= Key(o)
    ensures Key(s[Lowest(s)]) == p && s[Lowest(s)] == AtLevel(s, p)[0]
    ensures forall q :: AtLevel(AfterLowest(s), q) == if q == p then AtLevel(s, q)[1..] else AtLevel(s, q)
  {
    hide AfterLowest, AtLevel;
    var x := AtLevel(s, p)[0];
    assert x in AtLevel(s, p);
    var j :| 0 <= j < |s| && s[j] == x;
    assert s[Lowest(s)] in s;
    LowestTaken(s);
  }

  lemma RestDistinct(s: seq<Order>)
    requires s != [] && DistinctIds(s)
    ensures DistinctIds(AfterLowest(s)) && forall x :: x in AfterLowest(s) ==> x in s && x.id != s[Lowest(s)].id
  {
  }

  lemma SplitStep(before: map<nat, OrderWrapper>, k: Bin, left: seq<Order>, moved: seq<Order>, last: nat)
    requires Split(before, k, left, moved) && left != [] && !LimitBin(k)
    ensures Split(before, k, AfterLowest(left), Insert(k, moved, Restopped(left[Lowest(left)], last)))
  {
    hide Insert, AfterLowest, Sorted, DistinctIds;
    var o := left[Lowest(left)];
    assert o in left;
    RestDistinct(left);
    InsertSorted(k, moved, Restopped(o, last));
    InsertDistinct(k, moved, Restopped(o, last));
  }

  lemma NewsStep(s: seq<Order>, last: nat)
    requires s != []
    ensures Trailed(Visit(s), last) == [Restopped(s[Lowest(s)], last)] + Trailed(Visit(AfterLowest(s)), last)
  {
    assert Visit(s) == [s[Lowest(s)]] + Visit(AfterLowest(s));
  }

  lemma InsertAllStep(k: Bin, moved: seq<Order>, n: Order, rest: seq<Order>)
    ensures InsertAll(k, moved, [n] + rest) == InsertAll(k, Insert(k, moved, n), rest)
    ensures Updates([n] + rest) == [Updated(n)] + Updates(rest)
  {
    assert ([n] + rest)[1..] == rest;
  }

  lemma HeadingStep(b: Book, k: Bin, left: seq<Order>, moved: seq<Order>, events: seq<Event>)
    requires !LimitBin(k) && Heading(b, k, left, moved, events) && left != []
    ensures
      var n := Restopped(left[Lowest(left)], b.last);
      Heading(b, k, AfterLowest(left), Insert(k, moved, n), events + [Updated(n)])
  {
    hide Rekey, Visit, Trailed, InsertAll, Updates, Insert;
    var n, rest := Restopped(left[Lowest(left)], b.last), Trailed(Visit(AfterLowest(left)), b.last);
    NewsStep(left, b.last);
    InsertAllStep(k, moved, n, rest);
    assert events + ([Updated(n)] + Updates(rest)) == events + [Updated(n)] + Updates(rest);
  }

  lemma EmptyingFront(before: map<Place, Content>, view: map<Place, Content>, k: Bin, left: seq<Order>, p: Place)
    requires Emptying(before, view, k, left) && p in view && p.bin == k && left != []
    requires AtLevel(left, p.price) != [] && forall o :: o in left ==> p.price <= Key(o)
    ensures
      var o := left[Lowest(left)];
      && view[p].orders != [] && view[p].orders[0] == o.id && o.open <= view[p].volume
      && Content(view[p].volume - o.open, view[p].orders[1..]) == ContentOf(AtLevel(left, p.price)[1..])
  {
    LowestIsFront(left, p.price);
    var a := AtLevel(left, p.price);
    assert Ids(a)[1..] == Ids(a[1..]);
  }

  lemma EmptyingStep(before: map<Place, Content>, view: map<Place, Content>, k: Bin, left: seq<Order>, p: Place)
    requires Emptying(before, view, k, left) && p in view && p.bin == k && left != []
    requires AtLevel(left, p.price) != [] && forall o :: o in left ==> p.price <= Key(o)
    ensures
      var o := left[Lowest(left)];
      && view[p].orders != [] && view[p].orders[0] == o.id && o.open <= view[p].volume
      && Emptying(before, view[p := Content(view[p].volume - o.open, view[p].orders[1..])], k, AfterLowest(left))
  {
    hide AtLevel, AfterLowest, ContentOf;
    EmptyingFront(before, view, k, left, p);
    LowestIsFront(left, p.price);
  }

  lemma FillingStep(view: map<Place, Content>, k: Bin, moved: seq<Order>, n: Order)
    requires Filling(view, k, moved) && Sorted(k, moved) && BinOf(n) == k
    ensures Filling(Appended(view, n), k, Insert(k, moved, n))
  {
    var t := Insert(k, moved, n);
    forall q ensures AtLevel(t, q) == AtLevel(moved, q) + (if Key(n) == q then [n] else []) {
      InsertAtLevel(k, moved, n, q);
    }
    ContentAppend(AtLevel(moved, Key(n)), n);
    FillingAppend(view, k, moved, t, n);
  }

  lemma FillingAppend(view: map<Place, Content>, k: Bin, moved: seq<Order>, t: seq<Order>, n: Order)
    requires Filling(view, k, moved) && BinOf(n) == k
    requires forall q :: q != Key(n) ==> AtLevel(t, q) == AtLevel(moved, q)
    requires AtLevel(t, Key(n)) == AtLevel(moved, Key(n)) + [n]
    requires ContentOf(AtLevel(t, Key(n))) ==
      Content(ContentOf(AtLevel(moved, Key(n))).volume + n.open, ContentOf(AtLevel(moved, Key(n))).orders + [n.id])
    ensures Filling(Appended(view, n), k, t)
  {
  }

  lemma RepointedStep(before: map<nat, OrderWrapper>, index: map<nat, OrderWrapper>, k: Bin, moved: seq<Order>,
                      news: map<Place, Level>, news': map<Place, Level>, n: Order)
    requires Repointed(before, index, moved, news) && n.id in before && Sorted(k, moved)
    requires forall x :: x in moved ==> x.id != n.id
    requires PlaceOf(n) in news' && forall q :: q in news ==> q in news' && news'[q] == news[q]
    ensures Repointed(before, index[n.id := OrderWrapper(n, news'[PlaceOf(n)])], Insert(k, moved, n), news')
  {
    InsertSorted(k, moved, n);
    RepointedJoin(before, index, moved, Insert(k, moved, n), news, news', n);
  }

  lemma RepointedJoin(before: map<nat, OrderWrapper>, index: map<nat, OrderWrapper>, moved: seq<Order>, t: seq<Order>,
                      news: map<Place, Level>, news': map<Place, Level>, n: Order)
    requires Repointed(before, index, moved, news) && n.id in before
    requires forall x :: x in moved ==> x.id != n.id
    requires forall x :: x in t <==> x == n || x in moved
    requires PlaceOf(n) in news' && forall q :: q in news ==> q in news' && news'[q] == news[q]
    ensures Repointed(before, index[n.id := OrderWrapper(n, news'[PlaceOf(n)])], t, news')
  {
  }

  /** Once every order has moved and the maps are swapped, the fields represent the re-keyed book. */
  lemma AllArrived(f: Fields, b: Book, k: Bin, moved: seq<Order>, g: Fields,
                view: map<Place, Content>, news: map<Place, Level>, newView: map<Place, Content>)
    requires Represents(f, b) && (k == AskTrails || k == BidTrails)
    requires Emptying(f.view, view, k, []) && Filling(newView, k, moved) && news.Keys == newView.Keys
    requires Repointed(f.index, g.index, moved, news)
    requires Heading(b, k, [], moved, g.events)
    requires forall q :: q in g.levels <==> (q in f.levels && q.bin != k) || q in news
    requires forall q :: q in g.levels ==> g.levels[q] == if q.bin == k then news[q] else f.levels[q]
    requires g.view.Keys == g.levels.Keys
    requires forall q :: q in g.view ==> g.view[q] == if q.bin == k then newView[q] else view[q]
    requires forall q :: q in news ==> q.bin == k
    requires g.last == f.last && g.bidMarker == f.bidMarker && g.askMarker == f.askMarker
    ensures Represents(g, Rekey(b, k))
  {
    hide Rekey, Struct, Links, Points, Emptying, Filling, Repointed;
    var r := Rekey(b, k);
    RekeyStruct(b, k);
    RekeyFrame(b, k);
    assert g.events + [] == g.events;
    RekeyContents(b, k);
    ArrivalPoints(f, b, k, moved, g, news, r);
    ArrivalLinks(f, b, k, moved, g, view, newView, r);
  }

  lemma RekeyFrame(b: Book, k: Bin)
    requires !LimitBin(k)
    ensures
      var r := Rekey(b, k);
      && r.last == b.last && r.bidMarker == b.bidMarker && r.askMarker == b.askMarker
      && forall j :: j != k ==> r.Queue(j) == b.Queue(j)
  {
  }

  lemma ArrivalLinks(f: Fields, b: Book, k: Bin, moved: seq<Order>, g: Fields,
                     view: map<Place, Content>, newView: map<Place, Content>, r: Book)
    requires Links(b, f.view) && f.view.Keys == f.levels.Keys
    requires Emptying(f.view, view, k, []) && Filling(newView, k, moved)
    requires moved == r.Queue(k) && forall j :: j != k ==> r.Queue(j) == b.Queue(j)
    requires forall q :: q in g.view <==> (q in f.levels && q.bin != k) || q in newView
    requires forall q :: q in g.view ==> g.view[q] == if q.bin == k then newView[q] else view[q]
    ensures Links(r, g.view)
  {
    hide ContentOf, AtLevel;
    forall q ensures Standing(r, q) == if q.bin == k then AtLevel(moved, q.price) else Standing(b, q) {
    }
  }

  lemma ArrivalPoints(f: Fields, b: Book, k: Bin, moved: seq<Order>, g: Fields, news: map<Place, Level>, r: Book)
    requires Struct(b) && Points(f.index, b.orders, f.levels) && Struct(r)
    requires moved == r.Queue(k) && r.orders.Keys == b.orders.Keys
    requires forall id :: id in b.orders ==>
      r.orders[id] == if b.orders[id] in b.Queue(k) then Restopped(b.orders[id], b.last) else b.orders[id]
    requires Repointed(f.index, g.index, moved, news)
    requires k == AskTrails || k == BidTrails
    requires forall q :: q in news ==> q.bin == k
    requires forall q :: q in g.levels <==> (q in f.levels && q.bin != k) || q in news
    requires forall q :: q in g.levels ==> g.levels[q] == if q.bin == k then news[q] else f.levels[q]
    ensures Points(g.index, r.orders, g.levels)
  {
    hide Placed, PlaceOf, BinOf, Restopped, Repointed;
    assert g.index.Keys == b.orders.Keys by { SameKeys(f.index, g.index, moved, news); }
    forall id | id in g.index
      ensures g.index[id].order == r.orders[id] && PlaceOf(r.orders[id]) in g.levels
        && g.index[id].level == g.levels[PlaceOf(r.orders[id])]
    {
      var o := r.orders[id];
      if o in moved {
        MovedPoints(f.index, g.index, moved, news, o);
      } else {
        NotMoved(b, r, k, id);
        KeptPoints(f.index, g.index, moved, news, id);
        PlaceOfBin(o);
      }
    }
  }

  lemma SameKeys(before: map<nat, OrderWrapper>, index: map<nat, OrderWrapper>,
                 moved: seq<Order>, news: map<Place, Level>)
    requires Repointed(before, index, moved, news)
    ensures index.Keys == before.Keys
  {
  }

  lemma MovedPoints(before: map<nat, OrderWrapper>, index: map<nat, OrderWrapper>, moved: seq<Order>,
                    news: map<Place, Level>, o: Order)
    requires Repointed(before, index, moved, news) && o in moved
    ensures PlaceOf(o) in news && o.id in index && index[o.id] == OrderWrapper(o, news[PlaceOf(o)])
  {
  }

  lemma KeptPoints(before: map<nat, OrderWrapper>, index: map<nat, OrderWrapper>, moved: seq<Order>,
                   news: map<Place, Level>, id: nat)
    requires Repointed(before, index, moved, news) && id in index && forall n :: n in moved ==> n.id != id
    ensures id in before && index[id] == before[id]
  {
  }

  lemma PlaceOfBin(o: Order)
    ensures PlaceOf(o).bin == BinOf(o)
  {
  }

  /** An order that is not in the re-keyed list has not changed. */
  lemma NotMoved(b: Book, r: Book, k: Bin, id: nat)
    requires Struct(r) && Struct(b) && id in b.orders && id in r.orders && r.orders[id] !in r.Queue(k)
    requires r.orders[id] == if b.orders[id] in b.Queue(k) then Restopped(b.orders[id], b.last) else b.orders[id]
    ensures r.orders[id] == b.orders[id] && BinOf(r.orders[id]) != k
    ensures forall n :: n in r.Queue(k) ==> n.id != id
  {
    hide Sorted, DistinctIds, BinOf, Restopped;
    assert Placed(r, k) && Placed(b, k);
    RestoppedStays(b.orders[id], b.last);
  }
}
