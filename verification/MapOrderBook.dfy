/** The order book as the program keeps it: maps of levels, an index by id, and prices. */
module MapOrderBook {
  import opened Orders
  import opened Queues
  import opened BookModel
  import opened BookInvariants
  import opened Levels
  import opened LevelMaps
  import opened Rekeying
  import C = Cascade
  import Runs
  import opened Accounts
  import opened Regrouping
  import opened Words

  class MapOrderBook {
    var index: map<nat, OrderWrapper>
    var levels: map<Place, Level>  // the six maps from price to level, told apart by the first part of the key
    var last: nat
    var bidMarker: nat
    var askMarker: nat
    var events: seq<Event>         // what the event handler was told
    ghost var model: Book
    ghost var repr: set<Level>

    /** Every level sits in the maps under its own price. */
    ghost predicate Shaped()
      reads `levels, `repr
    {
      forall q :: q in levels ==>
        levels[q] in repr && levels[q].price == q.price && levels[q].bin == q.bin && levels[q].side == SideOf(q.bin)
    }

    ghost function Fields(): (f: Fields)
      requires Shaped()
      reads `index, `levels, `last, `bidMarker, `askMarker, `events, `repr, repr
      ensures f.index == index && f.levels == levels && f.view.Keys == levels.Keys
      ensures f.last == last && f.bidMarker == bidMarker && f.askMarker == askMarker && f.events == events
    {
      LevelMaps.Fields(index, levels, View(levels), last, bidMarker, askMarker, events)
    }

    /** The fields represent the model. */
    ghost predicate Valid()
      reads this, repr
    {
      Shaped() && Represents(Fields(), model)
    }

    constructor ()
      ensures Valid() && fresh(repr) && model == EmptyBook
      ensures index == map[] && levels == map[] && events == []
      ensures last == 0 && bidMarker == 0 && askMarker == MAX64
    {
      index, levels := map[], map[];
      last, bidMarker, askMarker := 0, 0, MAX64;
      events := [];
      model := EmptyBook;
      repr := {};
      new;
      EmptyIsSound();
      NothingStands();
    }

    // ---------------------------------------------------------- single orders

    /** The level of a place, created empty if there is none. */
    method Emplace(p: Place) returns (level: Level)
      requires Shaped()
      modifies `levels, `repr
      ensures Shaped() && fresh(repr - old(repr)) && old(repr) <= repr
      ensures p in levels && level == levels[p]
      ensures levels.Keys == old(levels).Keys + {p} && forall q :: q in old(levels) ==> levels[q] == old(levels)[q]
      ensures Fields() == old(Fields()).(levels := levels,
        view := if p in old(levels) then old(Fields()).view else old(Fields()).view[p := Content(0, [])])
    {
      if p in levels {
        level := levels[p];
      } else {
        level := new Level(p.price, SideOf(p.bin), p.bin);
        levels := levels[p := level];
        repr := repr + {level};
      }
    }

    /** Enters an order in the index and appends it to its level. */
    method Append(level: Level, o: Order)
      requires Shaped() && PlaceOf(o) in levels && level == levels[PlaceOf(o)]
      modifies `index, level
      ensures Shaped()
      ensures
        var f, p := old(Fields()), PlaceOf(o);
        Fields() == f.(index := f.index[o.id := OrderWrapper(o, level)],
                       view := f.view[p := Content(f.view[p].volume + o.open, f.view[p].orders + [o.id])])
    {
      index := index[o.id := OrderWrapper(o, level)];
      level.AddOrder(o);
    }

    /** Links a new order at the back of its level, creating the level if there is none. */
    method InsertOrder(o: Order)
      requires Valid() && o.id !in model.orders && o.kind != Market
      modifies this, repr
      ensures Valid() && fresh(repr - old(repr))
      ensures model == Rest(old(model), o)
    {
      hide Shaped, Fields, Represents, Rest, PlaceOf;
      ghost var f := Fields();
      var level := Emplace(PlaceOf(o));
      ghost var mid := Fields();
      Append(level, o);
      LinkedBySteps(f, mid, Fields(), o);
      RepresentsRest(f, Fields(), model, o);
      model := Rest(model, o);
    }

    /** Unlinks an order from its level, and takes the level out of its map if that was the last order there. */
    method Detach(level: Level, o: Order)
      requires Shaped() && PlaceOf(o) in levels && level == levels[PlaceOf(o)] && o.open <= level.volume
      modifies `levels, level
      ensures Shaped() && Fields() == old(Fields()).(levels := levels, view := Unlinked(old(Fields()).view, o))
      ensures levels.Keys <= old(levels).Keys && forall q :: q in levels ==> levels[q] == old(levels)[q]
    {
      hide PlaceOf;
      level.DeleteOrder(o);
      if level.orders == [] {
        levels := levels - {PlaceOf(o)};
      }
    }

    method Forget(id: nat)
      requires Shaped()
      modifies `index
      ensures Fields() == old(Fields()).(index := old(index) - {id})
    {
      index := index - {id};
    }

    /** Tells the event handler. */
    method Notify(e: Event)
      requires Valid()
      modifies `events, `model
      ensures Valid() && model == old(model).Emit(e)
    {
      hide Represents;
      RepresentsEmit(Fields(), model, e);
      events := events + [e];
      model := model.Emit(e);
    }

    /** Takes an order out of the book, telling the event handler or not. */
    method EraseOrder(id: nat, notification: bool)
      requires Valid() && id in model.orders
      modifies this, repr
      ensures Valid() && repr == old(repr)
      ensures model == if notification then Delete(old(model), id) else Drop(old(model), old(model).orders[id])
    {
      hide Shaped, Fields, Represents, Drop, PlaceOf, Unlinked;
      OrderAt(id);
      var o := index[id].order;
      if notification {
        Notify(Deleted(o));
        OrderAt(id);
      }
      ghost var f := Fields();
      Detach(index[id].level, o);
      Forget(id);
      RepresentsDrop(f, Fields(), model, o);
      model := Drop(model, o);
    }

    /** An indexed order is where its wrapper points, and its level has its quantity. */
    lemma OrderAt(id: nat)
      requires Valid() && id in model.orders
      ensures id in index && index[id].order == model.orders[id]
      ensures model.orders[id].id == id && model.orders[id].kind != Market
      ensures
        var p := PlaceOf(model.orders[id]);
        && p in levels && p in Fields().view && index[id].level == levels[p]
        && index[id].level in repr
        && Fields().view[p].volume == levels[p].volume && model.orders[id].open <= levels[p].volume
    {
      RepresentsOrder(Fields(), model, id);
    }

    method SetOrder(id: nat, o: Order)
      requires Shaped() && id in index
      modifies `index
      ensures Fields() == old(Fields()).(index := old(index)[id := old(index)[id].(order := o)])
    {
      index := index[id := index[id].(order := o)];
    }

    method ReduceLevel(level: Level, ghost p: Place, amount: int)
      requires Shaped() && p in levels && level == levels[p] && amount <= level.volume
      modifies level
      ensures Shaped()
      ensures
        var f := old(Fields());
        Fields() == f.(view := f.view[p := Content(f.view[p].volume - amount, f.view[p].orders)])
    {
      level.ReduceVolume(amount);
    }

    /** Gives a resting order new quantities and adjusts the cached volume of its level. */
    method Requote(id: nat, o: Order)
      requires Valid() && id in model.orders && o.id == id && Runs.Requoted(model.orders[id], o)
      modifies this, repr
      ensures Valid() && repr == old(repr)
      ensures model == Amend(old(model), o)
    {
      hide Shaped, Fields, Represents, Amend;
      OrderAt(id);
      ghost var f := Fields();
      var was := index[id].order;
      SetOrder(id, o);
      ReduceLevel(index[id].level, PlaceOf(was), was.open - o.open);
      RepresentsAmend(f, Fields(), model, was, o);
      model := Amend(model, o);
    }

    lemma ScalarsAgree()
      requires Valid()
      ensures last == model.last && bidMarker == model.bidMarker && askMarker == model.askMarker && events == model.log
    {
    }

    method SetPrices(last: nat, bidMarker: nat, askMarker: nat)
      requires Valid()
      modifies `last, `bidMarker, `askMarker, `model
      ensures Valid() && model == old(model).(last := last, bidMarker := bidMarker, askMarker := askMarker)
    {
      hide Represents;
      RepresentsPrices(Fields(), model, last, bidMarker, askMarker);
      this.last, this.bidMarker, this.askMarker := last, bidMarker, askMarker;
      model := model.(last := last, bidMarker := bidMarker, askMarker := askMarker);
    }

    /** `begin()` or `rbegin()` of one of the maps: the level consumed first, if there is any. */
    method First(k: Bin) returns (first: Option<Place>)
      requires Valid()
      ensures first.Some? <==> model.Queue(k) != []
      ensures first.Some? ==>
        var o := model.Queue(k)[0];
        && first.value == PlaceOf(o) && first.value.bin == k && first.value in levels && levels[first.value] in repr
        && levels[first.value].orders != [] && levels[first.value].orders[0] == o.id
        && o.open <= levels[first.value].volume
        && o.id in index && index[o.id].order == o && o.id in model.orders && model.orders[o.id] == o
    {
      hide Represents, PlaceOf, IsFirst;
      if model.Queue(k) == [] {
        RepresentsNone(Fields(), model, k);
      } else {
        RepresentsFirst(Fields(), model, k);
        OrderAt(model.Queue(k)[0].id);
      }
      if p :| p in levels && IsFirst(levels.Keys, k, p) {
        first := Some(p);
        if model.Queue(k) != [] {
          FirstIsUnique(levels.Keys, k, p, PlaceOf(model.Queue(k)[0]));
        }
      } else {
        first := None;
      }
    }

    // ---------------------------------------------------------- matching

    /**
     The fill-or-kill test. The level it looks at never advances, so it keeps
     counting the same volume until the order's quantity is reached.
     */
    method CanMatchOrder(o: Order) returns (r: bool)
      requires Valid() && Sound(model) && 0 < o.open
      ensures r == CanMatch(model, o)
    {
      hide Valid, Sound;
      var required, available := o.open, 0;
      var first := First(Makers(o));
      HeadPrice(model, Makers(o));
      while first.Some? && Crosses(o, first.value.price)
        invariant available < required
        decreases required - available
      {
        var needed := required - available;
        available := available + Min(levels[first.value].volume, needed);
        if available >= required {
          return true;
        }
      }
      r := false;
    }

    /** One trade: both orders execute, the price is recorded, the maker leaves if it is filled. */
    method TradeWith(maker: Order, taker: Order) returns (o: Order)
      requires Valid() && Struct(model) && model.Queue(Makers(taker)) != [] && maker == model.Queue(Makers(taker))[0]
      requires maker.id in model.orders
      modifies this, repr
      ensures Valid() && repr == old(repr)
      ensures (model, o) == Trade(old(model), taker)
    {
      hide Valid, Struct, Represents, Makers, Drop, Amend, Trade;
      TradeAsSteps(model, taker);
      var q := Min(maker.open, taker.open);
      var maker' := maker.Execute(maker.price, q);
      o := taker.Execute(maker.price, q);
      Requote(maker.id, maker');
      ScalarsAgree();
      SetPrices(maker.price, bidMarker, askMarker);
      var executions := Executions(o, maker');
      Notify(executions[0]);
      Notify(executions[1]);
      if maker'.IsFilled() {
        EraseOrder(maker.id, true);
      }
    }

    /** Matches an order against the opposite levels, best first. */
    method Match(order: Order) returns (o: Order)
      requires Valid() && Ready(model, order)
      modifies this, repr
      ensures Valid() && repr == old(repr)
      ensures (model, o) == BookModel.Match(old(model), order)
    {
      hide Valid, Sound, Struct, Live, Uncrossed, Trade;
      o := order;
      if o.tif == Fok {
        var can := CanMatchOrder(o);
        if !can {
          return;
        }
      }
      var first := First(Makers(o));
      HeadPrice(model, Makers(o));
      while first.Some? && Crosses(o, first.value.price) && !o.IsFilled()
        invariant Valid() && Sound(model) && repr == old(repr)
        invariant SameTerms(order, o)
        invariant Sweep(model, o) == Sweep(old(model), order)
        invariant first.Some? <==> model.Queue(Makers(o)) != []
        invariant first.Some? ==>
          var m := model.Queue(Makers(o))[0];
          && first.value.price == m.price && first.value in levels
          && levels[first.value].orders != [] && levels[first.value].orders[0] == m.id
          && m.id in index && index[m.id].order == m && m.id in model.orders
        decreases |model.Queue(Makers(o))|, o.open
      {
        var maker := index[levels[first.value].orders[0]].order;
        SoundStruct(model);
        TradeSound(model, o);
        TradeShrinks(model, o);
        o := TradeWith(maker, o);
        first := First(Makers(o));
        HeadPrice(model, Makers(o));
      }
    }

    /** Submits a limit order; a remainder rests if the order is good till cancel. */
    method AddLimitOrder(order: Order)
      requires Valid() && Ready(model, order) && order.kind == Limit
      modifies this, repr
      ensures Valid() && fresh(repr - old(repr))
      ensures model == AddLimit(old(model), order)
    {
      hide Valid, Sound, BookModel.Match, Rest;
      MatchSound(model, order);
      var o := Match(order);
      if !o.IsFilled() && o.tif == Gtc {
        InsertOrder(o);
      } else {
        Notify(Deleted(o));
      }
    }

    method AddMarketOrder(order: Order)
      requires Valid() && Ready(model, order) && order.kind == Market
      modifies this, repr
      ensures Valid() && repr == old(repr)
      ensures model == AddMarket(old(model), order)
    {
      hide Valid, Sound, BookModel.Match;
      var o := Match(order.(price := if order.IsAsk() then 0 else MAX64));
      Notify(Deleted(o));
    }

    /** Submits the market or limit order a stop order has become. */
    method SubmitTriggered(order: Order)
      requires Valid() && Ready(model, order) && order.kind != Limit && order.kind != Market
      modifies this, repr
      ensures Valid() && fresh(repr - old(repr))
      ensures model == Fire(old(model), order)
    {
      hide Valid, Sound, AddLimit, AddMarket;
      var o := order.Triggered();
      EmitSound(model, Updated(o));
      Notify(Updated(o));
      if o.kind == Market {
        AddMarketOrder(o);
      } else {
        AddLimitOrder(o);
      }
    }

    /** Submits a stop order, which triggers at once if its stop price has been reached. */
    method AddStopOrder(order: Order)
      requires Valid() && Ready(model, order) && order.kind != Limit && order.kind != Market
      modifies this, repr
      ensures Valid() && fresh(repr - old(repr))
      ensures model == AddStop(old(model), order)
    {
      hide Valid, Sound, Fire, Rest;
      ScalarsAgree();
      TrailedStopInRange(order, last) by { SoundPrices(model); }
      var o := if order.IsTrailing() then Restopped(order, last) else order;
      var market := if o.IsAsk() then last else if last == 0 then MAX64 else last;
      if Reached(o.side, o.stop, market) {
        SubmitTriggered(o);
      } else {
        InsertOrder(o);
      }
    }

    /** Takes a stop order out of the book and submits what it has become. */
    method ActivateStopOrder(o: Order)
      requires Valid() && Sound(model) && o.id in model.orders && model.orders[o.id] == o && !LimitBin(BinOf(o))
      modifies this, repr
      ensures Valid() && fresh(repr - old(repr))
      ensures model == Fire(Drop(old(model), o), o)
    {
      hide Valid, Sound, Fire, Drop;
      DropSound(model, o);
      EraseOrder(o.id, false);
      SubmitTriggered(o);
    }

    // ---------------------------------------------------------- activation

    /** Fires the orders of one stop map that the given market price has reached. */
    method ActivatePass(k: Bin, market: nat) returns (activated: bool)
      requires Valid() && Sound(model) && !LimitBin(k)
      modifies this, repr
      ensures Valid() && Sound(model) && fresh(repr - old(repr))
      ensures model == Drain(old(model), k, market)
      ensures activated <==> |model.Queue(k)| < |old(model).Queue(k)|
    {
      hide Valid, Sound, Fire, FireHead, Struct, Drain, BinOf, SideOf;
      activated := false;
      var first := First(k);
      StopHead(model, k);
      while first.Some? && Reached(SideOf(k), first.value.price, market)
        invariant Valid() && Sound(model) && fresh(repr - old(repr))
        invariant Drain(model, k, market) == Drain(old(model), k, market)
        invariant |model.Queue(k)| <= |old(model).Queue(k)|
        invariant activated <==> |model.Queue(k)| < |old(model).Queue(k)|
        invariant first.Some? <==> model.Queue(k) != []
        invariant first.Some? ==>
          var o := model.Queue(k)[0];
          && first.value.price == Key(o) && first.value in levels
          && levels[first.value].orders != [] && levels[first.value].orders[0] == o.id
          && o.id in index && index[o.id].order == o && o.id in model.orders && model.orders[o.id] == o && BinOf(o) == k
        decreases |model.Queue(k)|
      {
        activated := true;
        var o := index[levels[first.value].orders[0]].order;
        FireHeadSound(model, k);
        FireHeadIsFire(model, k) by { SoundStruct(model); }
        DrainStep(model, k, market);
        ActivateStopOrder(o);
        first := First(k);
        StopHead(model, k);
      }
      DrainEnds(model, k, market);
    }

    // ---------------------------------------------------------- trailing stops

    /** Levels of a map under construction, none of them in use yet. */
    ghost predicate Loose(news: map<Place, Level>)
      reads `levels, `repr
    {
      && (forall q :: q in news ==>
           news[q] in repr && news[q].price == q.price && news[q].bin == q.bin && news[q].side == SideOf(q.bin))
      && forall q, r :: q in news && r in levels ==> news[q] != levels[r]
    }

    /** The level of a place in a map under construction, created empty if there is none. */
    method EmplaceLoose(news: map<Place, Level>, p: Place) returns (news': map<Place, Level>, level: Level)
      requires Shaped() && Loose(news)
      modifies `repr
      ensures Shaped() && Loose(news') && fresh(repr - old(repr)) && old(repr) <= repr
      ensures p in news' && level == news'[p] && news'.Keys == news.Keys + {p}
      ensures forall q :: q in news ==> news'[q] == news[q]
      ensures View(levels) == old(View(levels))
      ensures View(news') == if p in news then old(View(news)) else old(View(news))[p := Content(0, [])]
    {
      news' := news;
      if p in news {
        level := news[p];
      } else {
        level := new Level(p.price, SideOf(p.bin), p.bin);
        news' := news[p := level];
        repr := repr + {level};
      }
    }

    method PopLevel(p: Place, o: Order, ghost news: map<Place, Level>)
      requires Shaped() && Loose(news) && p in levels
      requires levels[p].orders != [] && levels[p].orders[0] == o.id && o.open <= levels[p].volume
      modifies levels[p]
      ensures Shaped() && Loose(news) && View(news) == old(View(news))
      ensures
        var view := old(View(levels));
        View(levels) == view[p := Content(view[p].volume - o.open, view[p].orders[1..])]
    {
      levels[p].PopFront(o);
    }

    method AppendLoose(news: map<Place, Level>, o: Order)
      requires Shaped() && Loose(news) && PlaceOf(o) in news
      modifies news[PlaceOf(o)]
      ensures Shaped() && Loose(news) && View(levels) == old(View(levels))
      ensures
        var view, p := old(View(news)), PlaceOf(o);
        View(news) == view[p := Content(view[p].volume + o.open, view[p].orders + [o.id])]
    {
      news[PlaceOf(o)].AddOrder(o);
    }

    lemma Reachable(p: Place, news: map<Place, Level>, q: Place)
      requires Shaped() && Loose(news) && p in levels && q in news
      ensures levels[p] in repr && news[q] in repr
    {
    }

    /** How far the re-keying has come. */
    ghost predicate Midway(f: Fields, b: Book, k: Bin, left: seq<Order>, moved: seq<Order>, news: map<Place, Level>)
      requires !LimitBin(k)
      reads this, repr, news.Values
    {
      && Shaped() && Loose(news)
      && levels == f.levels && last == f.last && bidMarker == f.bidMarker && askMarker == f.askMarker
      && Emptying(f.view, View(levels), k, left) && Filling(View(news), k, moved)
      && Repointed(f.index, index, moved, news) && Split(f.index, k, left, moved)
      && Heading(b, k, left, moved, events)
    }

    /** Pops an order off its old level and appends it to its new one. */
    method Relink(p: Place, o: Order, n: Order, news: map<Place, Level>)
      requires Shaped() && Loose(news) && p in levels && PlaceOf(n) in news
      requires levels[p].orders != [] && levels[p].orders[0] == o.id && o.open <= levels[p].volume
      modifies levels[p], news[PlaceOf(n)]
      ensures Shaped() && Loose(news)
      ensures
        var view := old(View(levels));
        View(levels) == view[p := Content(view[p].volume - o.open, view[p].orders[1..])]
      ensures
        var view, q := old(View(news)), PlaceOf(n);
        View(news) == view[q := Content(view[q].volume + n.open, view[q].orders + [n.id])]
    {
      hide Shaped, Loose, View, PlaceOf;
      PopLevel(p, o, news);
      AppendLoose(news, n);
    }

    /** Points an index entry at a level of the new map and tells the event handler. */
    method Repoint(n: Order, level: Level, ghost news: map<Place, Level>)
      modifies `index, `events
      ensures index == old(index)[n.id := OrderWrapper(n, level)] && events == old(events) + [Updated(n)]
      ensures View(levels) == old(View(levels)) && View(news) == old(View(news))
    {
      index := index[n.id := OrderWrapper(n, level)];
      events := events + [Updated(n)];
    }

    /** Moves one order, at its new stop price, from the front of its level to the back of one in the new map. */
    method Transfer(p: Place, o: Order, n: Order, news: map<Place, Level>) returns (news': map<Place, Level>)
      requires Shaped() && Loose(news) && p in levels && n.id == o.id
      requires levels[p].orders != [] && levels[p].orders[0] == o.id && o.open <= levels[p].volume
      modifies `index, `events, `repr, repr
      ensures Shaped() && Loose(news') && fresh(repr - old(repr))
      ensures PlaceOf(n) in news' && forall q :: q in news ==> q in news' && news'[q] == news[q]
      ensures index == old(index)[n.id := OrderWrapper(n, news'[PlaceOf(n)])] && events == old(events) + [Updated(n)]
      ensures
        var view := old(View(levels));
        View(levels) == view[p := Content(view[p].volume - o.open, view[p].orders[1..])]
      ensures View(news') == Appended(old(View(news)), n)
    {
      hide Shaped, Loose, View, PlaceOf;
      var level;
      ghost var view, was := View(news), View(levels);
      ViewAt(levels, p);
      ViewKeys(news);
      news', level := EmplaceLoose(news, PlaceOf(n));
      AppendedBySteps(view, View(news'), n);
      Reachable(p, news', PlaceOf(n));
      Repoint(n, level, news');
      ghost var r, e := repr, events;
      assert View(levels) == was;
      Relink(p, o, n, news');
      assert repr == r && events == e;
      assert View(levels) == was[p := Content(was[p].volume - o.open, was[p].orders[1..])];
    }

    /** Moves the first order of the lowest level that is not empty. */
    method MoveFront(p: Place, news: map<Place, Level>,
                     ghost f: Fields, ghost b: Book, ghost left: seq<Order>, ghost moved: seq<Order>)
      returns (news': map<Place, Level>)
      requires p.bin == AskTrails || p.bin == BidTrails
      requires Midway(f, b, p.bin, left, moved, news) && f.last == b.last && left != []
      requires p in levels && AtLevel(left, p.price) != [] && forall o :: o in left ==> p.price <= Key(o)
      modifies `index, `events, `repr, repr
      ensures fresh(repr - old(repr))
      ensures Midway(f, b, p.bin, AfterLowest(left), Insert(p.bin, moved, Restopped(left[Lowest(left)], b.last)), news')
    {
      hide Shaped, Loose, View, Emptying, Filling, Repointed, Split;
      hide Heading, AfterLowest, Insert, Restopped, PlaceOf, Appended;
      ghost var k := p.bin;
      ViewAt(levels, p);
      ViewKeys(levels);
      EmptyingStep(f.view, View(levels), k, left, p);
      SplitStep(f.index, k, left, moved, b.last);
      HeadingStep(b, k, left, moved, events);
      NextToMove(f.index, index, k, left, moved, news, b.last);
      var o := index[levels[p].orders[0]].order;
      var n := Restopped(o, last);
      FillingStep(View(news), k, moved, n);
      ghost var was := index;
      news' := Transfer(p, o, n, news);
      RepointedStep(f.index, was, k, moved, news, news', n);
    }

    lemma Start(k: Bin)
      requires Valid() && (k == AskTrails || k == BidTrails)
      ensures Midway(Fields(), model, k, model.Queue(k), [], map[]) && Fields().last == model.last
      ensures Pending((set q | q in levels && q.bin == k), levels, k, model.Queue(k))
    {
      hide Emptying, Filling, Repointed, Heading, Split, Pending, Struct, Links, Points;
      Departure(Fields(), model, k);
      PendingAtStart(Fields(), model, k);
    }

    /** A level is empty exactly when nothing is left at its price. */
    lemma FrontAgrees(f: Fields, b: Book, k: Bin, left: seq<Order>, moved: seq<Order>,
                      news: map<Place, Level>, p: Place)
      requires !LimitBin(k) && Midway(f, b, k, left, moved, news) && p in levels && p.bin == k
      ensures levels[p].orders != [] <==> AtLevel(left, p.price) != []
    {
      ViewAt(levels, p);
    }

    /** Replaces one of the maps by the one under construction. */
    method Swap(k: Bin, news: map<Place, Level>)
      requires Shaped() && Loose(news) && forall q :: q in news ==> q.bin == k
      modifies `levels
      ensures Shaped()
      ensures forall q :: q in levels <==> (q in old(levels) && q.bin != k) || q in news
      ensures forall q :: q in levels ==> levels[q] == if q.bin == k then news[q] else old(levels)[q]
    {
      levels := (map q | q in levels && q.bin != k :: levels[q]) + news;
    }

    lemma SwapView(was: map<Place, Level>, k: Bin, news: map<Place, Level>)
      requires forall q :: q in levels ==>
        if q.bin == k then q in news && levels[q] == news[q] else q in was && levels[q] == was[q]
      ensures View(levels).Keys == levels.Keys
      ensures forall q :: q in levels && q.bin == k ==> q in View(news) && View(levels)[q] == View(news)[q]
      ensures forall q :: q in levels && q.bin != k ==> q in View(was) && View(levels)[q] == View(was)[q]
    {
    }

    method Finish(ghost f: Fields, ghost b: Book, k: Bin, ghost moved: seq<Order>, news: map<Place, Level>)
      requires (k == AskTrails || k == BidTrails) && Midway(f, b, k, [], moved, news) && Represents(f, b)
      modifies `levels, `model
      ensures Valid() && model == Rekey(b, k)
    {
      hide Shaped, Loose, View, Represents, Emptying, Filling, Repointed, Heading, Rekey;
      ghost var view, newView, was := View(levels), View(news), levels;
      ViewKeys(news);
      FillingBin(newView, k, moved);
      Swap(k, news);
      SwapView(was, k, news);
      assert View(was) == view && View(news) == newView;
      AllArrived(f, b, k, moved, Fields(), view, news, newView);
      model := Rekey(b, k);
    }

    /** Moves every order of the lowest level that is not empty. */
    method EmptyLevel(p: Place, pending: set<Place>, news: map<Place, Level>,
                      ghost f: Fields, ghost b: Book, ghost before: seq<Order>, ghost begun: seq<Order>)
      returns (news': map<Place, Level>, ghost left: seq<Order>, ghost moved: seq<Order>)
      requires p.bin == AskTrails || p.bin == BidTrails
      requires Midway(f, b, p.bin, before, begun, news) && f.last == b.last
      requires Pending(pending, levels, p.bin, before) && p in pending
      requires forall q :: q in pending ==> p.price <= q.price
      modifies `index, `events, `repr, repr
      ensures Midway(f, b, p.bin, left, moved, news') && fresh(repr - old(repr))
      ensures Pending(pending - {p}, levels, p.bin, left)
    {
      hide Shaped, Fields, Loose, View, Emptying, Filling, Repointed, Split;
      hide Heading, Insert, AfterLowest, Restopped, Lowest, Rekey, LevelMaps.Represents;
      news', left, moved := news, before, begun;
      PendingBounds(pending, levels, p.bin, left, p);
      FrontAgrees(f, b, p.bin, left, moved, news, p);
      while levels[p].orders != []
        invariant Midway(f, b, p.bin, left, moved, news') && p in levels
        invariant levels[p].orders != [] <==> AtLevel(left, p.price) != []
        invariant forall o :: o in left ==> p.price <= Key(o)
        invariant forall q :: q in pending && q != p ==> q in levels && q.bin == p.bin && AtLevel(left, q.price) != []
        invariant forall o :: o in left ==> Place(p.bin, Key(o)) in pending
        invariant fresh(repr - old(repr))
        decreases |left|
      {
        NotEmptied(left, p.price);
        LowestIsFront(left, p.price);
        LowestTaken(left);
        news' := MoveFront(p, news', f, b, left, moved);
        left, moved := AfterLowest(left), Insert(p.bin, moved, Restopped(left[Lowest(left)], b.last));
        FrontAgrees(f, b, p.bin, left, moved, news', p);
      }
      PendingDone(pending, levels, p.bin, left, p);
    }

    /** Re-keys one map of trailing stops: its levels are emptied from the lowest price up into a new map. */
    method RekeyTrails(k: Bin)
      requires Valid() && (k == AskTrails || k == BidTrails)
      modifies this, repr
      ensures Valid() && fresh(repr - old(repr))
      ensures model == Rekey(old(model), k)
    {
      hide Shaped, Fields, Loose, View, Represents, Emptying, Filling, Repointed, Split, Heading;
      hide Insert, AfterLowest, Rekey, Pending, Midway;
      ghost var f, b, left, moved := Fields(), model, model.Queue(k), [];
      var news: map<Place, Level> := map[];
      Start(k);
      var pending := set q | q in levels && q.bin == k;
      while pending != {}
        invariant Midway(f, b, k, left, moved, news) && f.last == b.last
        invariant Pending(pending, levels, k, left)
        invariant model == b && fresh(repr - old(repr))
        decreases |pending|
      {
        SomethingPending(pending, levels, k, left);
        var p :| p in pending && forall q :: q in pending ==> p.price <= q.price;
        PendingBin(pending, levels, k, left, p);
        news, left, moved := EmptyLevel(p, pending, news, f, b, left, moved);
        pending := pending - {p};
      }
      if left != [] {
        StillPending(pending, levels, k, left);
      }
      Finish(f, b, k, moved, news);
    }

    /**
     Aligns the trailing bid stops when the market has fallen below their marker; the marker follows the
     market either way.
     */
    method UpdateBidStopOrders()
      requires Valid()
      modifies this, repr
      ensures Valid() && fresh(repr - old(repr))
      ensures model == UpdateBids(old(model))
    {
      hide Valid, Rekey;
      ScalarsAgree();
      var first := First(BidTrails);
      if !(askMarker <= (if last == 0 then MAX64 else last) || first.None?) {
        RekeyTrails(BidTrails);
        ScalarsAgree();
      }
      SetPrices(last, bidMarker, last);
    }

    /** Aligns the trailing ask stops when the market has risen above their marker. */
    method UpdateAskStopOrders()
      requires Valid()
      modifies this, repr
      ensures Valid() && fresh(repr - old(repr))
      ensures model == UpdateAsks(old(model))
    {
      hide Valid, Rekey;
      ScalarsAgree();
      var first := First(AskTrails);
      if !(bidMarker >= last || first.None?) {
        RekeyTrails(AskTrails);
        ScalarsAgree();
      }
      SetPrices(last, last, askMarker);
    }

    method ActivateBidStopOrders() returns (activated: bool)
      requires Valid() && Sound(model)
      modifies this, repr
      ensures Valid() && Sound(model) && fresh(repr - old(repr))
      ensures model == ActivateBids(old(model))
      ensures activated <==> StopCount(model) < StopCount(old(model))
    {
      hide Valid, Sound, Drain;
      ScalarsAgree();
      activated := ActivatePass(BidStops, if last == 0 then MAX64 else last);
      ScalarsAgree();
      DrainKeepsOthers(old(model), BidStops, old(model).LastAsk());
      DrainKeepsOthers(model, BidTrails, model.LastAsk());
      var trailing := ActivatePass(BidTrails, if last == 0 then MAX64 else last);
      activated := activated || trailing;
    }

    method ActivateAskStopOrders() returns (activated: bool)
      requires Valid() && Sound(model)
      modifies this, repr
      ensures Valid() && Sound(model) && fresh(repr - old(repr))
      ensures model == ActivateAsks(old(model))
      ensures activated <==> StopCount(model) < StopCount(old(model))
    {
      hide Valid, Sound, Drain;
      ScalarsAgree();
      activated := ActivatePass(AskStops, last);
      ScalarsAgree();
      DrainKeepsOthers(old(model), AskStops, old(model).LastBid());
      DrainKeepsOthers(model, AskTrails, model.LastBid());
      var trailing := ActivatePass(AskTrails, last);
      activated := activated || trailing;
    }

    /** Activates stop orders round after round until a round activates none. */
    method ActivateStopOrders()
      requires Valid() && Sound(model)
      modifies this, repr
      ensures Valid() && Sound(model) && fresh(repr - old(repr))
      ensures model == BookModel.Cascade(old(model))
    {
      hide Valid, Sound, ActivateBids, ActivateAsks, UpdateBids, UpdateAsks, StopCount;
      var activate := true;
      while activate
        invariant Valid() && Sound(model) && fresh(repr - old(repr))
        invariant BookModel.Cascade(old(model)) == if activate then BookModel.Cascade(model) else model
        decreases if activate then 1 + StopCount(model) else 0
      {
        ghost var b := model;
        activate := ActivateBidStopOrders();
        UpdateAsksSound(model);
        UpdateAskStopOrders();
        var asks := ActivateAskStopOrders();
        activate := asks || activate;
        UpdateBidsSound(model);
        UpdateBidStopOrders();
      }
    }

    // ---------------------------------------------------------- public operations

    method AddOrder(order: Order)
      requires Valid() && Ready(model, order)
      modifies this, repr
      ensures Valid() && Sound(model) && fresh(repr - old(repr))
      ensures model == BookModel.AddOrder(old(model), order)
    {
      hide Valid, Sound, AddLimit, AddMarket, AddStop, BookModel.Cascade;
      Runs.SubmitSound(model, order);
      EmitSound(model, Added(order));
      Notify(Added(order));
      match order.kind {
        case Limit => AddLimitOrder(order);
        case Market => AddMarketOrder(order);
        case _ => AddStopOrder(order);
      }
      ActivateStopOrders();
    }

    /** Executes a resting order at a given price, as reported from outside. */
    method ExecuteOrderAt(id: nat, quantity: nat, price: nat)
      requires Valid() && Runs.Started(model) && id in model.orders && price <= MAX64
      modifies this, repr
      ensures Valid() && Sound(model) && fresh(repr - old(repr))
      ensures model == ExecuteAt(old(model), id, quantity, price)
    {
      hide Valid, Sound, Drop, Amend, BookModel.Cascade, Rebuilds;
      Runs.HitStarted(model, id, quantity, price);
      OrderInIndex(id);
      var order := index[id].order;
      var o := order.Execute(price, Min(quantity, order.open));
      AmendFields(model, o);
      Requote(id, o);
      ScalarsAgree();
      SetPrices(price, bidMarker, askMarker);
      Notify(Executed(o));
      if o.IsFilled() {
        EraseOrder(id, true);
      }
      ActivateStopOrders();
    }

    method ExecuteOrder(id: nat, quantity: nat)
      requires Valid() && Runs.Started(model) && id in model.orders
      modifies this, repr
      ensures Valid() && Sound(model) && fresh(repr - old(repr))
      ensures model == Execute(old(model), id, quantity)
    {
      OrderInIndex(id);
      assert Fit(model.orders[id]);
      ExecuteOrderAt(id, quantity, index[id].order.price);
    }

    method CancelOrder(id: nat, quantity: nat)
      requires Valid() && Runs.Started(model) && id in model.orders && quantity <= MAX64
      modifies this, repr
      ensures Valid() && Sound(model) && fresh(repr - old(repr))
      ensures model == BookModel.CancelOrder(old(model), id, quantity)
    {
      hide Valid, Sound, Drop, Amend, BookModel.Cascade, Rebuilds;
      Runs.ShrinkStarted(model, id, quantity);
      OrderInIndex(id);
      var o := index[id].order.SetQuantity(quantity);
      AmendFields(model, o);
      Requote(id, o);
      Notify(Updated(o));
      if o.IsFilled() {
        EraseOrder(id, true);
      }
      ActivateStopOrders();
    }

    method DeleteOrder(id: nat)
      requires Valid() && Runs.Started(model) && id in model.orders
      modifies this, repr
      ensures Valid() && Sound(model) && fresh(repr - old(repr))
      ensures model == BookModel.DeleteOrder(old(model), id)
    {
      hide Valid, Sound, Drop, BookModel.Cascade, Rebuilds;
      Runs.DeleteStarted(model, id);
      EraseOrder(id, true);
      ActivateStopOrders();
    }

    /** Replaces a resting order by one with another id and price, submitted anew. */
    method ReplaceOrder(id: nat, newId: nat, newPrice: nat)
      requires Valid() && Runs.Steady(model) && Runs.Allowed(model, Runs.Replace(id, newId, newPrice))
      modifies this, repr
      ensures Valid() && Sound(model) && fresh(repr - old(repr))
      ensures model == BookModel.ReplaceOrder(old(model), id, newId, newPrice)
    {
      hide Valid, Sound, Drop, BookModel.AddOrder, BookModel.Cascade, Rebuilds, C.Quiet, C.Banded;
      Runs.DeleteStarted(model, id);
      OrderInIndex(id);
      var order := index[id].order.(id := newId, price := newPrice);
      Runs.ReplacementReady(model, id, newId, newPrice);
      EraseOrder(id, true);
      AddOrder(order);
      ActivateStopOrders();
    }

    lemma OrderInIndex(id: nat)
      requires Valid() && id in model.orders
      ensures id in index && index[id].order == model.orders[id] && model.orders[id].id == id
    {
      OrderAt(id);
    }

    predicate HasOrder(id: nat): (r: bool)
      requires Valid()
      reads this, repr
      ensures r <==> id in model.orders
    {
      id in index
    }

    method BestBid() returns (price: nat)
      requires Valid() && Sound(model)
      ensures price == if model.bidLimits == [] then 0 else model.bidLimits[0].price
    {
      hide Valid, Sound;
      var first := First(BidLimits);
      HeadPrice(model, BidLimits);
      price := if first.None? then 0 else first.value.price;
    }

    method BestAsk() returns (price: nat)
      requires Valid() && Sound(model)
      ensures price == if model.askLimits == [] then MAX64 else model.askLimits[0].price
    {
      hide Valid, Sound;
      var first := First(AskLimits);
      HeadPrice(model, AskLimits);
      price := if first.None? then MAX64 else first.value.price;
    }
  }

  lemma DrainStep(b: Book, k: Bin, market: nat)
    requires !LimitBin(k) && b.Queue(k) != [] && Reached(SideOf(k), Key(b.Queue(k)[0]), market)
    ensures Drain(b, k, market) == Drain(FireHead(b, k), k, market)
  {
    hide FireHead;
  }

  lemma DrainEnds(b: Book, k: Bin, market: nat)
    requires !LimitBin(k) && (b.Queue(k) != [] ==> !Reached(SideOf(k), Key(b.Queue(k)[0]), market))
    ensures Drain(b, k, market) == b
  {
  }

  lemma DrainKeepsOthers(b: Book, k: Bin, market: nat)
    requires !LimitBin(k)
    ensures StopCount(Drain(b, k, market)) + |b.Queue(k)| == StopCount(b) + |Drain(b, k, market).Queue(k)|
    ensures forall j :: !LimitBin(j) && j != k ==> Drain(b, k, market).Queue(j) == b.Queue(j)
  {
  }

  // ------------------------------------------------------------ levels still to be visited

  /** The places at which something is left, all of them in the old map. */
  ghost predicate Pending(pending: set<Place>, levels: map<Place, Level>, k: Bin, left: seq<Order>) {
    && (forall q :: q in pending ==> q in levels && q.bin == k && AtLevel(left, q.price) != [])
    && (forall o :: o in left ==> Place(k, Key(o)) in pending)
  }

  lemma PendingAtStart(f: Fields, b: Book, k: Bin)
    requires Represents(f, b)
    ensures Pending((set q | q in f.levels && q.bin == k), f.levels, k, b.Queue(k))
  {
    hide Struct, Points;
    forall o | o in b.Queue(k) ensures Place(k, Key(o)) in f.levels {
      assert o in Standing(b, Place(k, Key(o)));
    }
  }

  lemma StillPending(pending: set<Place>, levels: map<Place, Level>, k: Bin, left: seq<Order>)
    requires Pending(pending, levels, k, left) && left != []
    ensures pending != {}
  {
    assert left[0] in left;
  }

  lemma FillingBin(view: map<Place, Content>, k: Bin, moved: seq<Order>)
    requires Filling(view, k, moved)
    ensures forall q :: q in view ==> q.bin == k
  {
  }

  lemma SomethingPending(pending: set<Place>, levels: map<Place, Level>, k: Bin, left: seq<Order>)
    requires Pending(pending, levels, k, left) && pending != {}
    ensures exists p :: p in pending && forall q :: q in pending ==> p.price <= q.price
  {
    var x :| x in pending;
    NotEmptied(left, x.price);
    var o := left[Lowest(left)];
    var p := Place(k, Key(o));
    assert o in left && p in pending;
    forall q | q in pending ensures p.price <= q.price {
      assert AtLevel(left, q.price)[0] in left;
    }
  }

  lemma PendingBounds(pending: set<Place>, levels: map<Place, Level>, k: Bin, left: seq<Order>, p: Place)
    requires Pending(pending, levels, k, left) && p in pending && forall q :: q in pending ==> p.price <= q.price
    ensures forall o :: o in left ==> p.price <= Key(o)
  {
    forall o | o in left ensures p.price <= Key(o) {
      assert Place(k, Key(o)) in pending;
    }
  }

  lemma PendingBin(pending: set<Place>, levels: map<Place, Level>, k: Bin, left: seq<Order>, p: Place)
    requires Pending(pending, levels, k, left) && p in pending
    ensures p.bin == k
  {
  }

  lemma PendingDone(pending: set<Place>, levels: map<Place, Level>, k: Bin, left: seq<Order>, p: Place)
    requires p.bin == k && AtLevel(left, p.price) == []
    requires forall q :: q in pending && q != p ==> q in levels && q.bin == k && AtLevel(left, q.price) != []
    requires forall o :: o in left ==> Place(k, Key(o)) in pending
    ensures Pending(pending - {p}, levels, k, left)
  {
    forall o | o in left ensures Place(k, Key(o)) in pending - {p} {
      assert o in AtLevel(left, Key(o));
    }
  }

  lemma NotEmptied(left: seq<Order>, p: nat)
    requires AtLevel(left, p) != []
    ensures left != []
  {
  }

  /** The next order to move is indexed as it was, and belongs to the list its new price is looked up in. */
  lemma NextToMove(before: map<nat, OrderWrapper>, index: map<nat, OrderWrapper>, k: Bin,
                   left: seq<Order>, moved: seq<Order>,
                   news: map<Place, Level>, last: nat)
    requires Split(before, k, left, moved) && Repointed(before, index, moved, news) && left != [] && !LimitBin(k)
    ensures
      var o := left[Lowest(left)];
      && o.id in index && o.id in before && index[o.id].order == o
      && BinOf(Restopped(o, last)) == k && Restopped(o, last).id == o.id && Restopped(o, last).side == o.side
      && (forall x :: x in moved ==> x.id != o.id) && Sorted(k, moved)
  {
    assert left[Lowest(left)] in left;
  }

  lemma SoundPrices(b: Book)
    requires Sound(b)
    ensures b.last <= MAX64 && b.bidMarker <= MAX64 && b.askMarker <= MAX64
  {
  }

  lemma SoundStruct(b: Book)
    requires Sound(b)
    ensures Struct(b)
  {
  }

  lemma EmitSound(b: Book, e: Event)
    requires Sound(b)
    ensures Sound(b.Emit(e))
  {
    StructOnly(b, b.Emit(e));
  }

  lemma StopHead(b: Book, k: Bin)
    requires Sound(b)
    ensures b.Queue(k) != [] ==> PlaceOf(b.Queue(k)[0]) == Place(k, Key(b.Queue(k)[0])) && BinOf(b.Queue(k)[0]) == k
  {
    if b.Queue(k) != [] {
      HeadIndexed(b, k);
    }
  }

  /** A trade takes a maker off the list or leaves the taker filled. */
  lemma TradeShrinks(b: Book, taker: Order)
    requires Sound(b) && CanTrade(b, taker)
    ensures
      var (c, t) := Trade(b, taker);
      var k := Makers(taker);
      && SameTerms(taker, t)
      && (|c.Queue(k)| < |b.Queue(k)| || (|c.Queue(k)| == |b.Queue(k)| && t.open < taker.open))
      && b.Queue(k)[0].id in b.orders
  {
    HeadIndexed(b, Makers(taker));
    assert Fit(b.orders[b.Queue(Makers(taker))[0].id]);
  }

  lemma HeadPrice(b: Book, k: Bin)
    requires Sound(b) && LimitBin(k)
    ensures b.Queue(k) != [] ==> PlaceOf(b.Queue(k)[0]).price == b.Queue(k)[0].price && 0 < b.Queue(k)[0].open
  {
    if b.Queue(k) != [] {
      HeadIndexed(b, k);
      assert Fit(b.orders[b.Queue(k)[0].id]);
    }
  }

  /** A trade in the steps the program takes. */
  lemma TradeAsSteps(b: Book, taker: Order)
    requires Struct(b) && b.Queue(Makers(taker)) != []
    ensures
      var m := b.Queue(Makers(taker))[0];
      var q := Min(m.open, taker.open);
      var m', t' := m.Execute(m.price, q), taker.Execute(m.price, q);
      var c := Amend(b, m').(last := m.price).Emit(Executions(t', m')[0]).Emit(Executions(t', m')[1]);
      && m.id in b.orders && b.orders[m.id] == m && Runs.Requoted(m, m') && m'.id in c.orders && c.orders[m'.id] == m'
      && Trade(b, taker) == (if m'.IsFilled() then Delete(c, m.id) else c, t')
  {
    hide Struct, Amend, Drop, Settle;
    var k := Makers(taker);
    var m := b.Queue(k)[0];
    HeadIndexed(b, k);
    var q := Min(m.open, taker.open);
    var m', t' := m.Execute(m.price, q), taker.Execute(m.price, q);
    SettleAsEdits(b, k, m');
    AmendFields(b, m');
    var e := Executions(t', m');
    assert b.log + (e + []) == b.log + [e[0]] + [e[1]];
    assert b.log + (e + [Deleted(m')]) == b.log + [e[0]] + [e[1]] + [Deleted(m')];
    DropFrame(Amend(b, m'), m', m.price, b.log + [e[0]] + [e[1]] + [Deleted(m')]);
  }

  /** Dropping an order does not look at prices or the log. */
  lemma DropFrame(b: Book, o: Order, last: nat, log: seq<Event>)
    ensures Drop(b.(last := last, log := log), o) == Drop(b, o).(last := last, log := log)
  {
  }
}
