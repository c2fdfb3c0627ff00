/**
 The six price-ordered collections of the book, seen flat: each is one list in
 the order its first level is consumed, price first and arrival second.
 */
module Queues {
  import opened Orders

  datatype Bin = AskLimits | BidLimits | AskStops | BidStops | AskTrails | BidTrails

  /** The map an order rests in. Market orders never rest; they share the limit maps to keep the function total. */
  function BinOf(o: Order): Bin {
    match o.kind
    case Limit => if o.IsAsk() then AskLimits else BidLimits
    case Market => if o.IsAsk() then AskLimits else BidLimits
    case Stop => if o.IsAsk() then AskStops else BidStops
    case StopLimit => if o.IsAsk() then AskStops else BidStops
    case TrailingStop => if o.IsAsk() then AskTrails else BidTrails
    case TrailingStopLimit => if o.IsAsk() then AskTrails else BidTrails
  }

  predicate LimitBin(k: Bin) { k == AskLimits || k == BidLimits }

  function SideOf(k: Bin): Side {
    if k == AskLimits || k == AskStops || k == AskTrails then Ask else Bid
  }

  /** Maps consumed from `begin()`; the others are consumed from `rbegin()`. */
  predicate Ascending(k: Bin) { k == AskLimits || k == BidStops || k == BidTrails }

  /** The price an order's level is keyed by. */
  function Key(o: Order): nat {
    if o.kind == Limit || o.kind == Market then o.price else o.stop
  }

  /** Price p is consumed strictly before price q. */
  predicate Ahead(k: Bin, p: nat, q: nat) {
    if Ascending(k) then p < q else p > q
  }

  ghost predicate Sorted(k: Bin, s: seq<Order>) {
    forall i, j :: 0 <= i < j < |s| ==> !Ahead(k, Key(s[j]), Key(s[i]))
  }

  ghost predicate DistinctIds(s: seq<Order>) {
    forall i, j :: 0 <= i < j < |s| ==> s[i].id != s[j].id
  }

  /** Where a newcomer goes: behind everything at its own price or better. */
  function Slot(k: Bin, s: seq<Order>, o: Order): (r: nat)
    ensures r <= |s|
    ensures forall j :: 0 <= j < r ==> !Ahead(k, Key(o), Key(s[j]))
    ensures r < |s| ==> Ahead(k, Key(o), Key(s[r]))
  {
    if s == [] || Ahead(k, Key(o), Key(s[0])) then 0 else 1 + Slot(k, s[1..], o)
  }

  function Insert(k: Bin, s: seq<Order>, o: Order): seq<Order> {
    var i := Slot(k, s, o);
    s[..i] + [o] + s[i..]
  }

  /** Position of an id, or the length when absent. */
  function Find(s: seq<Order>, id: nat): (r: nat)
    ensures r <= |s|
    ensures forall j :: 0 <= j < r ==> s[j].id != id
    ensures r < |s| ==> s[r].id == id
  {
    if s == [] || s[0].id == id then 0 else 1 + Find(s[1..], id)
  }

  function Without(s: seq<Order>, id: nat): seq<Order> {
    var i := Find(s, id);
    if i < |s| then s[..i] + s[i + 1..] else s
  }

  function Put(s: seq<Order>, o: Order): seq<Order> {
    var i := Find(s, o.id);
    if i < |s| then s[i := o] else s
  }

  /** The orders resting at one price, in order: the contents of a level. */
  function AtLevel(s: seq<Order>, p: nat): (r: seq<Order>)
    ensures forall o :: o in r <==> o in s && Key(o) == p
  {
    if s == [] then []
    else if Key(s[0]) == p then [s[0]] + AtLevel(s[1..], p)
    else AtLevel(s[1..], p)
  }

  function Ids(s: seq<Order>): (r: seq<nat>)
    ensures |r| == |s| && forall i :: 0 <= i < |s| ==> r[i] == s[i].id
  {
    if s == [] then [] else [s[0].id] + Ids(s[1..])
  }

  /** Total open quantity. */
  function Volume(s: seq<Order>): nat {
    if s == [] then 0 else s[0].open + Volume(s[1..])
  }

  // ------------------------------------------------------------ insertion

  lemma InsertSorted(k: Bin, s: seq<Order>, o: Order)
    requires Sorted(k, s)
    ensures Sorted(k, Insert(k, s, o))
    ensures forall x :: x in Insert(k, s, o) <==> x == o || x in s
  {
    InsertOrdered(k, s, o, Slot(k, s, o));
    InsertMembers(s, o, Slot(k, s, o));
  }

  lemma InsertOrdered(k: Bin, s: seq<Order>, o: Order, i: nat)
    requires Sorted(k, s) && i <= |s|
    requires forall j :: 0 <= j < i ==> !Ahead(k, Key(o), Key(s[j]))
    requires i < |s| ==> Ahead(k, Key(o), Key(s[i]))
    ensures Sorted(k, s[..i] + [o] + s[i..])
  {
    hide Key;
    var r := s[..i] + [o] + s[i..];
    forall a, b | 0 <= a < b < |r| ensures !Ahead(k, Key(r[b]), Key(r[a])) {
      assert r[a] == if a < i then s[a] else if a == i then o else s[a - 1];
      assert r[b] == if b < i then s[b] else if b == i then o else s[b - 1];
      if a == i && b - 1 > i {
        assert !Ahead(k, Key(s[b - 1]), Key(s[i]));
      }
    }
  }

  lemma InsertMembers(s: seq<Order>, o: Order, i: nat)
    requires i <= |s|
    ensures forall x :: x in s[..i] + [o] + s[i..] <==> x == o || x in s
  {
    var r := s[..i] + [o] + s[i..];
    assert r[i] == o;
    forall x | x in s ensures x in r {
      var j :| 0 <= j < |s| && s[j] == x;
      assert r[if j < i then j else j + 1] == x;
    }
  }

  lemma InsertDistinct(k: Bin, s: seq<Order>, o: Order)
    requires DistinctIds(s) && forall x :: x in s ==> x.id != o.id
    ensures DistinctIds(Insert(k, s, o))
  {
  }

  lemma AtLevelConcat(s: seq<Order>, t: seq<Order>, p: nat)
    ensures AtLevel(s + t, p) == AtLevel(s, p) + AtLevel(t, p)
  {
    if s == [] {
      assert s + t == t;
    } else {
      assert (s + t)[1..] == s[1..] + t;
    }
  }

  lemma AtLevelEmpty(s: seq<Order>, p: nat)
    requires forall o :: o in s ==> Key(o) != p
    ensures AtLevel(s, p) == []
  {
  }

  lemma VolumeConcat(s: seq<Order>, t: seq<Order>)
    ensures Volume(s + t) == Volume(s) + Volume(t)
  {
    if s == [] {
      assert s + t == t;
    } else {
      assert (s + t)[1..] == s[1..] + t;
    }
  }

  /** A newcomer joins the back of its own level and no other level changes. */
  lemma InsertAtLevel(k: Bin, s: seq<Order>, o: Order, p: nat)
    requires Sorted(k, s)
    ensures AtLevel(Insert(k, s, o), p) == AtLevel(s, p) + (if Key(o) == p then [o] else [])
  {
    hide AtLevel, Sorted, Ahead, Key;
    var i := Slot(k, s, o);
    var a, c := s[..i], s[i..];
    assert s == a + c && Insert(k, s, o) == a + [o] + c;
    AtLevelConcat(a, c, p);
    AtLevelConcat(a + [o], c, p);
    AtLevelConcat(a, [o], p);
    AtLevelOne(o, p);
    if Key(o) == p {
      NoneAtOrBehind(k, s, i, p);
    }
  }

  lemma AtLevelOne(o: Order, p: nat)
    ensures AtLevel([o], p) == if Key(o) == p then [o] else []
  {
  }

  lemma NoneAtOrBehind(k: Bin, s: seq<Order>, i: nat, p: nat)
    requires Sorted(k, s) && i <= |s| && (i < |s| ==> Ahead(k, p, Key(s[i])))
    ensures AtLevel(s[i..], p) == []
  {
    forall x | x in s[i..] ensures Key(x) != p {
      var j :| i <= j < |s| && s[j] == x;
      assert j > i ==> !Ahead(k, Key(s[j]), Key(s[i]));
    }
    AtLevelEmpty(s[i..], p);
  }

  // ------------------------------------------------------------ removal and replacement

  lemma WithoutLater(s: seq<Order>, id: nat)
    requires s != [] && s[0].id != id
    ensures Without(s, id) == [s[0]] + Without(s[1..], id)
  {
    var i := Find(s[1..], id);
    assert Find(s, id) == i + 1;
    if i < |s| - 1 {
      assert s[..i + 1] == [s[0]] + s[1..][..i];
    }
  }

  lemma WithoutSorted(k: Bin, s: seq<Order>, id: nat)
    requires Sorted(k, s) && DistinctIds(s)
    ensures Sorted(k, Without(s, id)) && DistinctIds(Without(s, id))
    ensures forall x :: x in Without(s, id) <==> x in s && x.id != id
  {
    hide Sorted, DistinctIds;
    if Find(s, id) < |s| {
      WithoutMembers(s, Find(s, id));
      WithoutOrdered(k, s, Find(s, id));
    }
  }

  lemma WithoutOrdered(k: Bin, s: seq<Order>, i: nat)
    requires Sorted(k, s) && DistinctIds(s) && i < |s|
    ensures Sorted(k, s[..i] + s[i + 1..]) && DistinctIds(s[..i] + s[i + 1..])
  {
    hide Key, Ahead;
  }

  lemma WithoutMembers(s: seq<Order>, i: nat)
    requires DistinctIds(s) && i < |s|
    ensures forall x :: x in s[..i] + s[i + 1..] <==> x in s && x.id != s[i].id
  {
    var r := s[..i] + s[i + 1..];
    forall x | x in s && x.id != s[i].id ensures x in r {
      var j :| 0 <= j < |s| && s[j] == x;
      assert r[if j < i then j else j - 1] == x;
    }
  }

  lemma PutSorted(k: Bin, s: seq<Order>, o: Order)
    requires Sorted(k, s) && DistinctIds(s)
    requires forall x :: x in s && x.id == o.id ==> Key(x) == Key(o)
    ensures Sorted(k, Put(s, o)) && DistinctIds(Put(s, o))
    ensures forall x :: x in Put(s, o) <==> (x in s && x.id != o.id) || (x == o && Find(s, o.id) < |s|)
  {
    var i := Find(s, o.id);
    if i < |s| {
      var r := Put(s, o);
      assert r[i] == o && s[i] in s;
      forall x | x in s && x.id != o.id ensures x in r {
        var j :| 0 <= j < |s| && s[j] == x;
        assert r[j] == x;
      }
    }
  }

  /** How a level splits around one of its orders. */
  lemma AtLevelSplit(s: seq<Order>, i: nat, p: nat)
    requires i < |s|
    ensures AtLevel(s, p) == AtLevel(s[..i], p) + (if Key(s[i]) == p then [s[i]] else []) + AtLevel(s[i + 1..], p)
  {
    hide AtLevel, Key;
    assert s == s[..i] + [s[i]] + s[i + 1..];
    AtLevelConcat(s[..i] + [s[i]], s[i + 1..], p);
    AtLevelConcat(s[..i], [s[i]], p);
    AtLevelOne(s[i], p);
  }

  lemma FindInSplit(a: seq<Order>, o: Order, b: seq<Order>)
    requires forall x :: x in a ==> x.id != o.id
    ensures Find(a + [o] + b, o.id) == |a|
  {
    var s := a + [o] + b;
    assert s[|a|] == o;
    assert forall j :: 0 <= j < |a| ==> s[j] == a[j] && a[j] in a;
  }

  lemma WithoutInSplit(a: seq<Order>, o: Order, b: seq<Order>)
    requires forall x :: x in a ==> x.id != o.id
    ensures Without(a + [o] + b, o.id) == a + b
  {
    FindInSplit(a, o, b);
  }

  /** Erasing an order from the flat list erases it from its level only. */
  lemma WithoutAtLevel(s: seq<Order>, id: nat, p: nat)
    requires DistinctIds(s) && Find(s, id) < |s|
    ensures
      var o := s[Find(s, id)];
      AtLevel(Without(s, id), p) == if Key(o) == p then Without(AtLevel(s, p), id) else AtLevel(s, p)
  {
    hide AtLevel, Key, DistinctIds;
    var i := Find(s, id);
    var o := s[i];
    AtLevelSplit(s, i, p);
    AtLevelConcat(s[..i], s[i + 1..], p);
    if Key(o) == p {
      WithoutInSplit(AtLevel(s[..i], p), o, AtLevel(s[i + 1..], p));
    }
  }

  lemma PutInSplit(a: seq<Order>, x: Order, b: seq<Order>, o: Order)
    requires x.id == o.id && forall y :: y in a ==> y.id != o.id
    ensures Put(a + [x] + b, o) == a + [o] + b
  {
    FindInSplit(a, x, b);
  }

  /** Replacing an order in the flat list replaces it in its level only. */
  lemma PutAtLevel(s: seq<Order>, o: Order, p: nat)
    requires DistinctIds(s) && Find(s, o.id) < |s| && Key(s[Find(s, o.id)]) == Key(o)
    ensures AtLevel(Put(s, o), p) == if Key(o) == p then Put(AtLevel(s, p), o) else AtLevel(s, p)
  {
    hide AtLevel, Key, DistinctIds;
    var i := Find(s, o.id);
    var r := Put(s, o);
    assert r[..i] == s[..i] && r[i + 1..] == s[i + 1..] && r[i] == o;
    AtLevelSplit(s, i, p);
    AtLevelSplit(r, i, p);
    if Key(o) == p {
      PutInSplit(AtLevel(s[..i], p), s[i], AtLevel(s[i + 1..], p), o);
    }
  }

  lemma AtLevelDistinct(s: seq<Order>, p: nat)
    requires DistinctIds(s)
    ensures DistinctIds(AtLevel(s, p))
  {
    if s != [] {
      AtLevelDistinct(s[1..], p);
      forall x | x in AtLevel(s[1..], p) ensures x.id != s[0].id {
        var j :| 0 <= j < |s| - 1 && s[1..][j] == x;
        assert s[j + 1] == x;
      }
    }
  }

  lemma VolumeOne(o: Order)
    ensures Volume([o]) == o.open
  {
  }

  lemma VolumeSplit(s: seq<Order>, i: nat)
    requires i < |s|
    ensures Volume(s) == Volume(s[..i]) + s[i].open + Volume(s[i + 1..])
  {
    hide Volume;
    assert s == s[..i] + ([s[i]] + s[i + 1..]);
    VolumeConcat(s[..i], [s[i]] + s[i + 1..]);
    VolumeConcat([s[i]], s[i + 1..]);
    VolumeOne(s[i]);
  }

  lemma WithoutVolume(s: seq<Order>, id: nat)
    requires Find(s, id) < |s|
    ensures Volume(s) == Volume(Without(s, id)) + s[Find(s, id)].open
  {
    var i := Find(s, id);
    VolumeSplit(s, i);
    VolumeConcat(s[..i], s[i + 1..]);
  }

  lemma PutVolume(s: seq<Order>, o: Order)
    requires Find(s, o.id) < |s|
    ensures Volume(Put(s, o)) + s[Find(s, o.id)].open == Volume(s) + o.open
  {
    var i := Find(s, o.id);
    VolumeSplit(s, i);
    var r := Put(s, o);
    VolumeSplit(r, i);
    assert r[..i] == s[..i] && r[i + 1..] == s[i + 1..];
  }
}
