/** How the maps of levels represent the flat lists of the model. */
module LevelMaps {
  import opened Orders
  import opened Queues
  import opened BookModel
  import opened BookInvariants
  import opened Levels

  /** An indexed order and the level it is linked into. */
  datatype OrderWrapper = OrderWrapper(order: Order, level: Level)

  /** One entry of one of the six maps: which map, and the price. */
  datatype Place = Place(bin: Bin, price: nat)

  function PlaceOf(o: Order): Place { Place(BinOf(o), Key(o)) }

  /** The orders of the model that belong in one level. */
  function Standing(b: Book, q: Place): seq<Order> { AtLevel(b.Queue(q.bin), q.price) }

  lemma NothingStands()
    ensures forall q: Place :: Standing(EmptyBook, q) == []
  {
    forall q: Place ensures Standing(EmptyBook, q) == [] {
      assert EmptyBook.Queue(q.bin) == [];
    }
  }

  /** The mutable part of a level. */
  datatype Content = Content(volume: nat, orders: seq<nat>)

  ghost function View(m: map<Place, Level>): map<Place, Content>
    reads m.Values
  {
    map q | q in m :: Content(m[q].volume, m[q].orders)
  }

  lemma ViewKeys(m: map<Place, Level>)
    ensures View(m).Keys == m.Keys
  {
  }

  lemma ViewAt(m: map<Place, Level>, p: Place)
    requires p in m
    ensures p in View(m) && View(m)[p] == Content(m[p].volume, m[p].orders)
  {
  }

  /** A level for the orders of a list: their links in order, their open quantity as volume. */
  function ContentOf(a: seq<Order>): Content { Content(Volume(a), Ids(a)) }

  /** Exactly the prices at which something stands have a level, and it links what stands there. */
  ghost predicate Links(b: Book, view: map<Place, Content>) {
    && (forall q :: q in view <==> Standing(b, q) != [])
    && forall q :: q in view ==> view[q] == ContentOf(Standing(b, q))
  }

  /** The index holds the given orders, each pointing at the level of its price. */
  ghost predicate Points(index: map<nat, OrderWrapper>, orders: map<nat, Order>, levels: map<Place, Level>) {
    && index.Keys == orders.Keys
    && forall id :: id in index ==>
         && index[id].order == orders[id]
         && PlaceOf(orders[id]) in levels && index[id].level == levels[PlaceOf(orders[id])]
  }

  /** All that the program keeps: the fields of the book, and what its levels contain. */
  datatype Fields = Fields(
    index: map<nat, OrderWrapper>, levels: map<Place, Level>, view: map<Place, Content>,
    last: nat, bidMarker: nat, askMarker: nat, events: seq<Event>)

  /** The fields represent a book. */
  ghost predicate Represents(f: Fields, b: Book) {
    && Struct(b) && Points(f.index, b.orders, f.levels) && f.view.Keys == f.levels.Keys && Links(b, f.view)
    && f.last == b.last && f.bidMarker == b.bidMarker && f.askMarker == b.askMarker && f.events == b.log
  }

  lemma StandingIndexed(b: Book, q: Place)
    requires Struct(b)
    ensures forall o :: o in Standing(b, q) ==> o.id in b.orders && b.orders[o.id] == o && PlaceOf(o) == q
    ensures DistinctIds(Standing(b, q)) && DistinctIds(b.Queue(q.bin)) && Sorted(q.bin, b.Queue(q.bin))
  {
    assert Placed(b, q.bin);
    AtLevelDistinct(b.Queue(q.bin), q.price);
  }

  lemma StandsSomewhere(b: Book, id: nat)
    requires Struct(b) && id in b.orders
    ensures
      var a := Standing(b, PlaceOf(b.orders[id]));
      Find(a, id) < |a| && a[Find(a, id)] == b.orders[id]
  {
    StandingIndexed(b, PlaceOf(b.orders[id]));
    FindKnown(Standing(b, PlaceOf(b.orders[id])), b.orders[id]);
  }

  lemma FindKnown(s: seq<Order>, o: Order)
    requires DistinctIds(s) && o in s
    ensures Find(s, o.id) < |s| && s[Find(s, o.id)] == o
  {
    var i :| 0 <= i < |s| && s[i] == o;
    assert s[Find(s, o.id)].id == o.id;
  }

  // ------------------------------------------------------------ one level

  lemma ContentAppend(a: seq<Order>, o: Order)
    ensures ContentOf(a + [o]) == Content(ContentOf(a).volume + o.open, ContentOf(a).orders + [o.id])
  {
    VolumeConcat(a, [o]);
  }

  lemma IdsStep(x: Order, a: seq<Order>)
    ensures Ids([x] + a) == [x.id] + Ids(a)
  {
    assert ([x] + a)[1..] == a;
  }

  lemma {:induction false} UnlinkIds(a: seq<Order>, id: nat)
    ensures Ids(Without(a, id)) == Unlink(Ids(a), id)
  {
    if a != [] {
      hide Ids;
      var rest := a[1..];
      assert a == [a[0]] + rest;
      IdsStep(a[0], rest);
      if a[0].id == id {
        assert Find(a, id) == 0 && Without(a, id) == rest;
      } else {
        UnlinkIds(rest, id);
        WithoutLater(a, id);
        IdsStep(a[0], Without(rest, id));
      }
    }
  }

  lemma ContentWithout(a: seq<Order>, o: Order)
    requires Find(a, o.id) < |a| && a[Find(a, o.id)] == o
    ensures o.open <= Volume(a)
    ensures ContentOf(Without(a, o.id)) == Content(Volume(a) - o.open, Unlink(Ids(a), o.id))
  {
    WithoutVolume(a, o.id);
    UnlinkIds(a, o.id);
  }

  lemma ContentPut(a: seq<Order>, o: Order, o': Order)
    requires Find(a, o.id) < |a| && a[Find(a, o.id)] == o && o'.id == o.id
    ensures o.open <= Volume(a)
    ensures ContentOf(Put(a, o')) == Content(Volume(a) - o.open + o'.open, Ids(a))
  {
    WithoutVolume(a, o.id);
    PutVolume(a, o');
  }

  // ------------------------------------------------------------ the three edits of a book

  /** An edit at one place: the other levels stay as they are. */
  lemma LinksEdit(b: Book, c: Book, view: map<Place, Content>, p: Place, content: Content)
    requires Links(b, view)
    requires forall q :: q != p ==> Standing(c, q) == Standing(b, q)
    requires content == ContentOf(Standing(c, p))
    ensures Links(c, if content.orders == [] then view - {p} else view[p := content])
  {
  }

  /** What the level of a place contains; nothing if there is none. */
  lemma ContentAt(b: Book, view: map<Place, Content>, p: Place)
    requires Links(b, view)
    ensures p in view <==> Standing(b, p) != []
    ensures (if p in view then view[p] else Content(0, [])) == ContentOf(Standing(b, p))
  {
  }

  lemma RestStanding(b: Book, o: Order)
    requires Struct(b)
    ensures forall q :: q != PlaceOf(o) ==> Standing(Rest(b, o), q) == Standing(b, q)
    ensures Standing(Rest(b, o), PlaceOf(o)) == Standing(b, PlaceOf(o)) + [o]
  {
    var k := BinOf(o);
    assert Placed(b, k);
    var t := Insert(k, b.Queue(k), o);
    var c := Rest(b, o);
    assert c.Queue(k) == t && forall j :: j != k ==> c.Queue(j) == b.Queue(j);
    forall q ensures Standing(c, q) == if q == PlaceOf(o) then Standing(b, q) + [o] else Standing(b, q) {
      if q.bin == k {
        InsertAtLevel(k, b.Queue(k), o, q.price);
      }
    }
  }

  /** The levels after an order joined the back of the one at its place. */
  function Appended(view: map<Place, Content>, o: Order): map<Place, Content> {
    var c := if PlaceOf(o) in view then view[PlaceOf(o)] else Content(0, []);
    view[PlaceOf(o) := Content(c.volume + o.open, c.orders + [o.id])]
  }

  /** A level found or made, then extended. */
  lemma AppendedBySteps(view: map<Place, Content>, mid: map<Place, Content>, o: Order)
    requires mid == if PlaceOf(o) in view then view else view[PlaceOf(o) := Content(0, [])]
    ensures
      var c := mid[PlaceOf(o)];
      mid[PlaceOf(o) := Content(c.volume + o.open, c.orders + [o.id])] == Appended(view, o)
  {
  }

  /** Resting an order adds its link and its open quantity to its level. */
  lemma LinkRest(b: Book, view: map<Place, Content>, o: Order)
    requires Struct(b) && Links(b, view)
    ensures Links(Rest(b, o), Appended(view, o))
  {
    hide Struct, Links, Rest, Standing, PlaceOf, ContentOf;
    var a := Standing(b, PlaceOf(o));
    var c := ContentOf(a);
    ContentAt(b, view, PlaceOf(o));
    RestStanding(b, o);
    ContentAppend(a, o);
    LinksEdit(b, Rest(b, o), view, PlaceOf(o), Content(c.volume + o.open, c.orders + [o.id]));
  }

  lemma WithoutLevels(s: seq<Order>, o: Order)
    requires DistinctIds(s) && Find(s, o.id) < |s| && s[Find(s, o.id)] == o
    ensures forall q :: q != Key(o) ==> AtLevel(Without(s, o.id), q) == AtLevel(s, q)
    ensures AtLevel(Without(s, o.id), Key(o)) == Without(AtLevel(s, Key(o)), o.id)
  {
    forall q
      ensures AtLevel(Without(s, o.id), q) == if Key(o) == q then Without(AtLevel(s, q), o.id) else AtLevel(s, q)
    {
      WithoutAtLevel(s, o.id, q);
    }
  }

  lemma DropStanding(b: Book, o: Order)
    requires Struct(b) && o.id in b.orders && b.orders[o.id] == o
    ensures forall q :: q != PlaceOf(o) ==> Standing(Drop(b, o), q) == Standing(b, q)
    ensures Standing(Drop(b, o), PlaceOf(o)) == Without(Standing(b, PlaceOf(o)), o.id)
  {
    var k := BinOf(o);
    assert Placed(b, k);
    FindResting(b, o.id);
    WithoutLevels(b.Queue(k), o);
    var c, t := Drop(b, o), Without(b.Queue(k), o.id);
    assert c.Queue(k) == t && forall j :: j != k ==> c.Queue(j) == b.Queue(j);
  }

  /** Dropping an order takes its link and its open quantity out of its level, and the level out if it was the last. */
  lemma LinkDrop(b: Book, view: map<Place, Content>, o: Order)
    requires Struct(b) && Links(b, view) && o.id in b.orders && b.orders[o.id] == o
    ensures PlaceOf(o) in view && o.open <= view[PlaceOf(o)].volume
    ensures Links(Drop(b, o), Unlinked(view, o))
  {
    StandsSomewhere(b, o.id);
    DropStanding(b, o);
    LinkErase(b, Drop(b, o), view, o);
  }

  lemma LinkErase(b: Book, c: Book, view: map<Place, Content>, o: Order)
    requires Links(b, view)
    requires
      var a := Standing(b, PlaceOf(o));
      Find(a, o.id) < |a| && a[Find(a, o.id)] == o && Standing(c, PlaceOf(o)) == Without(a, o.id)
    requires forall q :: q != PlaceOf(o) ==> Standing(c, q) == Standing(b, q)
    ensures PlaceOf(o) in view && o.open <= view[PlaceOf(o)].volume
    ensures Links(c, Unlinked(view, o))
  {
    hide Links, Standing, PlaceOf, Volume, Ids, Without;
    var p := PlaceOf(o);
    ContentAt(b, view, p);
    ContentWithout(Standing(b, p), o);
    LinksEdit(b, c, view, p, Content(view[p].volume - o.open, Unlink(view[p].orders, o.id)));
  }

  function Unlinked(view: map<Place, Content>, o: Order): map<Place, Content>
    requires PlaceOf(o) in view && o.open <= view[PlaceOf(o)].volume
  {
    var c := Content(view[PlaceOf(o)].volume - o.open, Unlink(view[PlaceOf(o)].orders, o.id));
    if c.orders == [] then view - {PlaceOf(o)} else view[PlaceOf(o) := c]
  }

  lemma PutLevels(s: seq<Order>, o: Order, o': Order)
    requires DistinctIds(s) && Find(s, o.id) < |s| && s[Find(s, o.id)] == o && o'.id == o.id && Key(o') == Key(o)
    ensures forall q :: q != Key(o) ==> AtLevel(Put(s, o'), q) == AtLevel(s, q)
    ensures AtLevel(Put(s, o'), Key(o)) == Put(AtLevel(s, Key(o)), o')
  {
    forall q ensures AtLevel(Put(s, o'), q) == if Key(o) == q then Put(AtLevel(s, q), o') else AtLevel(s, q) {
      PutAtLevel(s, o', q);
    }
  }

  lemma AmendStanding(b: Book, o: Order, o': Order)
    requires Struct(b) && o.id in b.orders && b.orders[o.id] == o && o'.id == o.id && PlaceOf(o') == PlaceOf(o)
    ensures forall q :: q != PlaceOf(o) ==> Standing(Amend(b, o'), q) == Standing(b, q)
    ensures Standing(Amend(b, o'), PlaceOf(o)) == Put(Standing(b, PlaceOf(o)), o')
  {
    var k := BinOf(o);
    assert Placed(b, k);
    FindResting(b, o.id);
    PutLevels(b.Queue(k), o, o');
    var c, t := Amend(b, o'), Put(b.Queue(k), o');
    assert c.Queue(k) == t && forall j :: j != k ==> c.Queue(j) == b.Queue(j);
  }

  /** Changing an order's quantities where it stands changes only its level's volume. */
  lemma LinkAmend(b: Book, view: map<Place, Content>, o: Order, o': Order)
    requires Struct(b) && Links(b, view) && o.id in b.orders && b.orders[o.id] == o
    requires o'.id == o.id && PlaceOf(o') == PlaceOf(o)
    ensures PlaceOf(o) in view && o.open <= view[PlaceOf(o)].volume
    ensures
      var p := PlaceOf(o);
      Links(Amend(b, o'), view[p := Content(view[p].volume - o.open + o'.open, view[p].orders)])
  {
    hide Struct, Links, Amend, Standing, PlaceOf, Volume, Ids, Put;
    var p := PlaceOf(o);
    StandsSomewhere(b, o.id);
    ContentAt(b, view, p);
    ContentPut(Standing(b, p), o, o');
    AmendStanding(b, o, o');
    LinksEdit(b, Amend(b, o'), view, p, ContentOf(Put(Standing(b, p), o')));
  }

  // ------------------------------------------------------------ the edits seen by the fields

  /** The fields after an order was linked at the back of its level. */
  ghost predicate Linked(f: Fields, g: Fields, o: Order) {
    var p := PlaceOf(o);
    && p in g.levels && (forall q :: q in f.levels ==> q in g.levels && g.levels[q] == f.levels[q])
    && g.levels.Keys == f.levels.Keys + {p}
    && g == f.(index := f.index[o.id := OrderWrapper(o, g.levels[p])], levels := g.levels, view := Appended(f.view, o))
  }

  lemma RestFields(b: Book, o: Order)
    ensures
      var r := Rest(b, o);
      r.orders == b.orders[o.id := o]
      && r.last == b.last && r.bidMarker == b.bidMarker && r.askMarker == b.askMarker && r.log == b.log
  {
  }

  lemma RepresentsRest(f: Fields, g: Fields, b: Book, o: Order)
    requires Represents(f, b) && o.id !in b.orders && o.kind != Market && Linked(f, g, o)
    ensures Represents(g, Rest(b, o))
  {
    hide Struct, Links, Rest;
    RestStruct(b, o);
    RestFields(b, o);
    LinkRest(b, f.view, o);
  }

  /** The fields after an order was unlinked. */
  ghost predicate Detached(f: Fields, g: Fields, o: Order)
    requires PlaceOf(o) in f.view && o.open <= f.view[PlaceOf(o)].volume
  {
    && (forall q :: q in g.levels ==> q in f.levels && g.levels[q] == f.levels[q])
    && g.levels.Keys == Unlinked(f.view, o).Keys
    && g == f.(index := f.index - {o.id}, levels := g.levels, view := Unlinked(f.view, o))
  }

  lemma DropFields(b: Book, o: Order)
    ensures
      var r := Drop(b, o);
      r.orders == b.orders - {o.id}
      && r.last == b.last && r.bidMarker == b.bidMarker && r.askMarker == b.askMarker && r.log == b.log
  {
  }

  /** An indexed order is where its wrapper points, and its level has its quantity. */
  lemma RepresentsOrder(f: Fields, b: Book, id: nat)
    requires Represents(f, b) && id in b.orders
    ensures id in f.index && f.index[id].order == b.orders[id] && b.orders[id].id == id && b.orders[id].kind != Market
    ensures
      var p := PlaceOf(b.orders[id]);
      p in f.levels && p in f.view && f.index[id].level == f.levels[p] && b.orders[id].open <= f.view[p].volume
  {
    LinkDrop(b, f.view, b.orders[id]);
  }

  lemma RepresentsDrop(f: Fields, g: Fields, b: Book, o: Order)
    requires Represents(f, b) && o.id in b.orders && b.orders[o.id] == o
    requires PlaceOf(o) in f.view && o.open <= f.view[PlaceOf(o)].volume && Detached(f, g, o)
    ensures Represents(g, Drop(b, o))
  {
    DropStruct(b, o);
    DropFields(b, o);
    LinkDrop(b, f.view, o);
    PointsDrop(f, g, b, o);
  }

  lemma PointsDrop(f: Fields, g: Fields, b: Book, o: Order)
    requires Struct(b) && Points(f.index, b.orders, f.levels)
    requires g.index == f.index - {o.id} && forall q :: q in g.levels ==> q in f.levels && g.levels[q] == f.levels[q]
    requires Links(Drop(b, o), g.view) && g.levels.Keys == g.view.Keys && Struct(Drop(b, o))
    ensures Points(g.index, b.orders - {o.id}, g.levels)
  {
    DropFields(b, o);
    var d := Drop(b, o);
    forall id | id in g.index ensures PlaceOf(b.orders[id]) in g.levels {
      StandsSomewhere(d, id);
    }
  }

  /** The fields after an order's quantities changed where it stands. */
  ghost predicate LevelRequoted(f: Fields, g: Fields, o: Order, o': Order)
    requires o.id in f.index && PlaceOf(o) in f.view && o.open <= f.view[PlaceOf(o)].volume
  {
    var c := f.view[PlaceOf(o)];
    g == f.(index := f.index[o.id := f.index[o.id].(order := o')],
            view := f.view[PlaceOf(o) := Content(c.volume - o.open + o'.open, c.orders)])
  }

  lemma AmendFields(b: Book, o: Order)
    ensures
      var r := Amend(b, o);
      r.orders == b.orders[o.id := o]
      && r.last == b.last && r.bidMarker == b.bidMarker && r.askMarker == b.askMarker && r.log == b.log
  {
  }

  lemma RepresentsAmend(f: Fields, g: Fields, b: Book, o: Order, o': Order)
    requires Represents(f, b) && o.id in b.orders && b.orders[o.id] == o
    requires o'.id == o.id && PlaceOf(o') == PlaceOf(o) && o'.kind != Market
    requires o.id in f.index && PlaceOf(o) in f.view
    requires o.open <= f.view[PlaceOf(o)].volume && LevelRequoted(f, g, o, o')
    ensures Represents(g, Amend(b, o'))
  {
    hide Struct, Links, Amend;
    AmendStruct(b, o');
    AmendFields(b, o');
    LinkAmend(b, f.view, o, o');
  }

  lemma LinkedBySteps(f: Fields, mid: Fields, g: Fields, o: Order)
    requires
      var p := PlaceOf(o);
      && mid.levels.Keys == f.levels.Keys + {p} && (forall q :: q in f.levels ==> mid.levels[q] == f.levels[q])
      && f.view.Keys == f.levels.Keys
      && mid == f.(levels := mid.levels, view := if p in f.levels then f.view else f.view[p := Content(0, [])])
      && g == mid.(index := f.index[o.id := OrderWrapper(o, mid.levels[p])],
                   view := mid.view[p := Content(mid.view[p].volume + o.open, mid.view[p].orders + [o.id])])
    ensures Linked(f, g, o)
  {
    AppendedBySteps(f.view, mid.view, o);
  }

  lemma RepresentsEmit(f: Fields, b: Book, e: Event)
    requires Represents(f, b)
    ensures Represents(f.(events := f.events + [e]), b.Emit(e))
  {
    StructOnly(b, b.Emit(e));
    assert forall q: Place :: Standing(b.Emit(e), q) == Standing(b, q);
  }

  /** Prices are kept beside the orders. */
  lemma RepresentsPrices(f: Fields, b: Book, last: nat, bidMarker: nat, askMarker: nat)
    requires Represents(f, b)
    ensures Represents(f.(last := last, bidMarker := bidMarker, askMarker := askMarker),
                       b.(last := last, bidMarker := bidMarker, askMarker := askMarker))
  {
    var c := b.(last := last, bidMarker := bidMarker, askMarker := askMarker);
    StructOnly(b, c);
    assert forall q: Place :: Standing(c, q) == Standing(b, q);
  }

  /** No level of the map is consumed before this one. */
  predicate IsFirst(places: set<Place>, k: Bin, p: Place) {
    p in places && p.bin == k && forall q :: q in places && q.bin == k ==> !Ahead(k, q.price, p.price)
  }

  lemma FirstIsUnique(places: set<Place>, k: Bin, p: Place, q: Place)
    requires IsFirst(places, k, p) && IsFirst(places, k, q)
    ensures p == q
  {
  }

  /** The best level of a map is where the first order of its list stands, at the front. */
  lemma RepresentsFirst(f: Fields, b: Book, k: Bin)
    requires Represents(f, b) && b.Queue(k) != []
    ensures
      var o := b.Queue(k)[0];
      var p := PlaceOf(o);
      && p.bin == k && p in f.view && f.view[p].orders != [] && f.view[p].orders[0] == o.id
      && o.open <= f.view[p].volume && o.id in b.orders && b.orders[o.id] == o
    ensures IsFirst(f.view.Keys, k, PlaceOf(b.Queue(k)[0]))
  {
    HeadIndexed(b, k);
    var s := b.Queue(k);
    var a := Standing(b, PlaceOf(s[0]));
    assert a[0] == s[0];
    assert Placed(b, k);
    forall q | q in f.view && q.bin == k ensures !Ahead(k, q.price, Key(s[0])) {
      assert Standing(b, q)[0] in s;
      var i :| 0 <= i < |s| && s[i] == Standing(b, q)[0];
    }
  }

  lemma RepresentsNone(f: Fields, b: Book, k: Bin)
    requires Represents(f, b) && b.Queue(k) == []
    ensures forall q :: !IsFirst(f.view.Keys, k, q)
  {
  }
}
