/**
 The Robin Hood hash table behind the order index, on sequences: how slots,
 info bytes and homes fit together, and what insertion and removal keep.
 */
module RobinHood {
  import opened Words

  datatype Slot<+K, +V> = Vacant | Node(key: K, value: V)

  const SIZE_MAX: nat := MAX64

  /** The elements a table of this size may hold: a load of 80 per cent, rounded differently when large. */
  function Allowed(size: nat): nat {
    if size <= SIZE_MAX / 100 then size * 80 / 100 else size / 100 * 80
  }

  /** A table twice the size may hold at least as many elements, and more of them from two slots on. */
  lemma DoublingAllows(size: nat)
    ensures Allowed(size) <= Allowed(2 * size)
    ensures 2 <= size ==> 0 < Allowed(size) < Allowed(2 * size)
  {
  }

  /** The slots a table of this size has: room for the last homes to overflow. */
  function Slots(size: nat): nat {
    size + Min(Allowed(size), 0xFF)
  }

  /**
   A table: one info byte a slot (plus sentinel and padding), the nodes, and
   what the hash makes of a key: its home slot and its few info bits.
   */
  datatype Tab<!K, V> = Tab(info: seq<nat>, nodes: seq<Slot<K, V>>, size: nat, inc: nat, home: K -> nat, bits: K -> nat)
  {
    /** The info byte of a key that stands d slots behind its home. */
    function Probe(k: K, d: nat): (r: nat)
      ensures inc <= r
    {
      if d == 0 then inc + bits(k) else Probe(k, d - 1) + inc
    }

    /** The parts fit together. */
    ghost predicate Sized(k: K) {
      home(k) < size && bits(k) < inc
    }
  }

  ghost predicate Framed<K(!new), V>(t: Tab<K, V>) {
    && 2 <= t.inc <= 32 && 0 < t.size && |t.nodes| == Slots(t.size) && |t.info| == |t.nodes| + 8
    && (forall k :: t.Sized(k))
    && t.info[|t.nodes|] <= 1
    && forall i :: |t.nodes| < i < |t.info| ==> t.info[i] == 0
  }

  /** A slot is free exactly when its info byte is zero; otherwise the byte tells the distance from home. */
  ghost predicate Marked<K(!new), V>(t: Tab<K, V>)
    requires Framed(t)
  {
    forall i :: 0 <= i < |t.nodes| ==>
      if t.nodes[i].Vacant? then t.info[i] == 0
      else t.home(t.nodes[i].key) <= i && t.info[i] == t.Probe(t.nodes[i].key, i - t.home(t.nodes[i].key))
  }

  /** Cluster order: homes ascend, info bits of one home descend, and no gap parts a node from its home. */
  ghost predicate Ordered<K(!new), V>(t: Tab<K, V>)
    requires Framed(t)
  {
    forall i :: 0 < i < |t.nodes| ==> t.info[i] < 2 * t.inc || t.info[i] <= t.info[i - 1] + t.inc
  }

  /** Where each key stands, the ghost counterpart of the contents. */
  ghost predicate Lists<K(!new), V>(t: Tab<K, V>, slot: map<K, nat>, contents: map<K, V>) {
    && slot.Keys == contents.Keys
    && (forall k :: k in slot ==> slot[k] < |t.nodes| && t.nodes[slot[k]] == Node(k, contents[k]))
    && (forall i :: 0 <= i < |t.nodes| && t.nodes[i].Node? ==> t.nodes[i].key in slot && slot[t.nodes[i].key] == i)
  }

  /** All info bytes fit, with room for one more step if the table may still take elements. */
  ghost predicate Fitting<K, V>(t: Tab<K, V>, margin: nat) {
    forall i :: 0 <= i < |t.info| ==> t.info[i] + margin <= 0xFF
  }

  ghost predicate WellFormed<K(!new), V>(t: Tab<K, V>, slot: map<K, nat>, contents: map<K, V>) {
    Framed(t) && Marked(t) && Ordered(t) && Lists(t, slot, contents) && Fitting(t, 0) && |contents| <= Allowed(t.size)
  }

  // ------------------------------------------------------------ cluster order

  /** The order told without bytes: a node away from home follows a node; homes ascend, bits of one home descend. */
  ghost predicate Clustered<K(!new), V>(t: Tab<K, V>) {
    forall i :: 0 < i < |t.nodes| && t.nodes[i].Node? ==>
      && (t.home(t.nodes[i].key) < i ==> t.nodes[i - 1].Node?)
      && (t.nodes[i - 1].Node? ==> Follows(t, t.nodes[i - 1].key, t.nodes[i].key))
  }

  predicate Follows<K, V>(t: Tab<K, V>, x: K, y: K) {
    t.home(x) < t.home(y) || (t.home(x) == t.home(y) && t.bits(y) <= t.bits(x))
  }

  /** Bytes compare first by distance from home, then by info bits. */
  lemma {:induction false} ProbeCompare<K, V>(t: Tab<K, V>, x: K, y: K, d: nat, e: nat)
    requires t.Sized(x) && t.Sized(y)
    ensures t.Probe(x, d) <= t.Probe(y, e) <==> d < e || (d == e && t.bits(x) <= t.bits(y))
    decreases d
  {
    if d > 0 && e > 0 {
      ProbeCompare(t, x, y, d - 1, e - 1);
    }
  }

  /** The order the bytes are kept in is exactly the cluster order. */
  lemma OrderedIffClustered<K(!new), V>(t: Tab<K, V>)
    requires Framed(t) && Marked(t)
    ensures Ordered(t) <==> Clustered(t)
  {
    hide Marked;
    forall i | 0 < i < |t.nodes|
      ensures (t.info[i] < 2 * t.inc || t.info[i] <= t.info[i - 1] + t.inc) <==> (t.nodes[i].Node? ==>
        && (t.home(t.nodes[i].key) < i ==> t.nodes[i - 1].Node?)
        && (t.nodes[i - 1].Node? ==> Follows(t, t.nodes[i - 1].key, t.nodes[i].key)))
    {
      VacantByte(t, i);
      VacantByte(t, i - 1);
      if t.nodes[i].Node? {
        PairOrdered(t, i);
      }
    }
  }

  lemma PairOrdered<K(!new), V>(t: Tab<K, V>, i: nat)
    requires Framed(t) && Marked(t) && 0 < i < |t.nodes| && t.nodes[i].Node?
    ensures (t.info[i] < 2 * t.inc || t.info[i] <= t.info[i - 1] + t.inc) <==>
      && (t.home(t.nodes[i].key) < i ==> t.nodes[i - 1].Node?)
      && (t.nodes[i - 1].Node? ==> Follows(t, t.nodes[i - 1].key, t.nodes[i].key))
  {
    hide Marked;
    var y := t.nodes[i].key;
    HomeBefore(t, i);
    VacantByte(t, i - 1);
    assert t.Sized(y);
    if t.home(y) < i {
      ProbeStep(t, y, i - 1 - t.home(y));
      if t.nodes[i - 1].Node? {
        var x := t.nodes[i - 1].key;
        HomeBefore(t, i - 1);
        assert t.Sized(x);
        ProbeCompare(t, y, x, i - 1 - t.home(y), i - 1 - t.home(x));
      }
    } else if t.nodes[i - 1].Node? {
      HomeBefore(t, i - 1);
    }
  }

  // ------------------------------------------------------------ searching

  /** On the way from its home to a key, every slot's byte is at least what the search expects there. */
  lemma {:induction false} ProbesOnTheWay<K(!new), V>(t: Tab<K, V>, i: nat, d: nat)
    requires Framed(t) && Marked(t) && Ordered(t)
    requires i < |t.nodes| && t.nodes[i].Node? && d <= i - t.home(t.nodes[i].key)
    ensures t.Probe(t.nodes[i].key, d) <= t.info[t.home(t.nodes[i].key) + d]
    decreases i - t.home(t.nodes[i].key) - d
  {
    var k := t.nodes[i].key;
    var h := t.home(k);
    if h + d < i {
      ProbesOnTheWay(t, i, d + 1);
      assert t.info[h + d + 1] < 2 * t.inc || t.info[h + d + 1] <= t.info[h + d] + t.inc;
    }
  }

  /** A search that meets a smaller byte than it expects can give up: the key stands nowhere. */
  lemma SearchMayStop<K(!new), V>(t: Tab<K, V>, slot: map<K, nat>, contents: map<K, V>, k: K, d: nat)
    requires Framed(t) && Marked(t) && Ordered(t) && Lists(t, slot, contents)
    requires t.home(k) + d < |t.info| && t.info[t.home(k) + d] < t.Probe(k, d)
    requires forall i :: t.home(k) <= i < t.home(k) + d && i < |t.nodes| ==> t.nodes[i].Vacant? || t.nodes[i].key != k
    ensures k !in contents
  {
    hide Ordered, Marked;
    if k in contents {
      var i := slot[k];
      assert t.nodes[i].key == k;
      HomeBefore(t, i);
      if t.home(k) + d <= i {
        ProbesOnTheWay(t, i, d);
      }
    }
  }

  lemma HomeBefore<K(!new), V>(t: Tab<K, V>, i: nat)
    requires Framed(t) && Marked(t) && i < |t.nodes| && t.nodes[i].Node?
    ensures t.home(t.nodes[i].key) <= i && t.info[i] == t.Probe(t.nodes[i].key, i - t.home(t.nodes[i].key))
  {
  }

  /** A key stands only where the byte is exactly what the search expects there. */
  lemma ByteTells<K(!new), V>(t: Tab<K, V>, k: K, d: nat)
    requires Framed(t) && Marked(t)
    requires t.home(k) + d < |t.nodes| && t.nodes[t.home(k) + d].Node? && t.nodes[t.home(k) + d].key == k
    ensures t.info[t.home(k) + d] == t.Probe(k, d)
  {
  }

  // ------------------------------------------------------------ a free slot

  lemma {:induction false} ProbeGrows<K, V>(t: Tab<K, V>, k: K, d: nat)
    requires 2 <= t.inc
    ensures 2 * (d + 1) <= t.Probe(k, d)
  {
    if d > 0 {
      ProbeGrows(t, k, d - 1);
    }
  }

  ghost function Range(a: nat, b: nat): (r: set<nat>)
    requires a <= b
    ensures |r| == b - a && forall i :: i in r <==> a <= i < b
    decreases b - a
  {
    if a == b then {} else {a} + Range(a + 1, b)
  }

  lemma {:induction false} ValuesSize<K, V>(m: map<K, V>)
    ensures |m.Values| <= |m|
    decreases |m|
  {
    if m.Keys == {} {
      assert m.Values == {};
    } else {
      var k :| k in m.Keys;
      var n := m - {k};
      ValuesSize(n);
      assert m.Values == n.Values + {m[k]} by {
        forall v | v in m.Values ensures v in n.Values + {m[k]} {
          var j :| j in m && m[j] == v;
          if j != k { assert n[j] == v; }
        }
      }
      assert n.Keys == m.Keys - {k};
    }
  }

  lemma SubsetSize<T>(a: set<T>, b: set<T>)
    requires a <= b
    ensures |a| <= |b|
  {
    assert b == a + (b - a);
  }

  lemma SameSize<K, V, W>(m: map<K, V>, n: map<K, W>)
    requires m.Keys == n.Keys
    ensures |m| == |n|
  {
    assert |m| == |m.Keys| && |n| == |n.Keys|;
  }

  /** The slots behind a home cannot all be taken: there are too few elements, or a byte would have overflowed. */
  lemma FreeSlotAhead<K(!new), V>(t: Tab<K, V>, slot: map<K, nat>, contents: map<K, V>, h: nat)
    requires WellFormed(t, slot, contents) && h < t.size
    ensures exists e :: h <= e < |t.nodes| && t.nodes[e].Vacant?
  {
    if forall e :: h <= e < |t.nodes| ==> t.nodes[e].Node? {
      var n := |t.nodes|;
      var k := t.nodes[n - 1].key;
      ProbeGrows(t, k, n - 1 - t.home(k));
      assert t.Sized(k) && t.info[n - 1] <= 0xFF;
      assert Allowed(t.size) < 0xFF;
      ValuesSize(slot);
      SameSize(slot, contents);
      forall i | i in Range(h, n) ensures i in slot.Values {
        assert slot[t.nodes[i].key] == i;
      }
      SubsetSize(Range(h, n), slot.Values);
    }
  }

  ghost predicate Injective<K, V>(m: map<K, V>) {
    forall x, y :: x in m && y in m && m[x] == m[y] ==> x == y
  }

  lemma {:induction false} DistinctValues<K, V>(m: map<K, V>)
    requires Injective(m)
    ensures |m.Values| == |m|
    decreases |m|
  {
    if m.Keys == {} {
      assert m.Values == {};
    } else {
      var k :| k in m.Keys;
      var n := m - {k};
      DistinctValues(n);
      assert m.Values == n.Values + {m[k]} by {
        forall v | v in m.Values ensures v in n.Values + {m[k]} {
          var j :| j in m && m[j] == v;
          if j != k { assert n[j] == v; }
        }
      }
      assert m[k] !in n.Values;
      assert n.Keys == m.Keys - {k};
    }
  }

  // ------------------------------------------------------------ insertion

  function RaisedByte<K, V>(t: Tab<K, V>, at: nat, free: nat, byte: nat, i: nat): nat
    requires i < |t.info|
  {
    if i == at then byte else if at < i <= free then t.info[i - 1] + t.inc else t.info[i]
  }

  function RaisedNode<K, V>(t: Tab<K, V>, at: nat, free: nat, node: Slot<K, V>, i: nat): Slot<K, V>
    requires i < |t.nodes|
  {
    if i == at then node else if at < i <= free then t.nodes[i - 1] else t.nodes[i]
  }

  /** The outcome of an insertion: the nodes from the insertion slot to the free one move up by one slot. */
  ghost predicate Raised<K, V>(t: Tab<K, V>, u: Tab<K, V>, at: nat, free: nat, byte: nat, node: Slot<K, V>)
    requires at <= free < |t.nodes| <= |t.info|
  {
    && u == t.(info := u.info, nodes := u.nodes) && |u.info| == |t.info| && |u.nodes| == |t.nodes|
    && (forall i :: 0 <= i < |t.info| ==> u.info[i] == RaisedByte(t, at, free, byte, i))
    && (forall i :: 0 <= i < |t.nodes| ==> u.nodes[i] == RaisedNode(t, at, free, node, i))
  }

  /** The insertion slot is the first whose byte is smaller than the search expects. */
  ghost predicate InsertionPoint<K, V>(t: Tab<K, V>, k: K, d: nat) {
    && t.home(k) + d < |t.nodes| <= |t.info| && t.info[t.home(k) + d] < t.Probe(k, d)
    && (d > 0 ==> t.Probe(k, d - 1) <= t.info[t.home(k) + d - 1])
  }

  lemma ProbeStep<K, V>(t: Tab<K, V>, k: K, d: nat)
    ensures t.Probe(k, d + 1) == t.Probe(k, d) + t.inc
  {
  }

  lemma RaisedMarked<K(!new), V>(t: Tab<K, V>, u: Tab<K, V>, k: K, v: V, d: nat, free: nat)
    requires Framed(t) && Marked(t)
    requires InsertionPoint(t, k, d) && t.home(k) + d <= free < |t.nodes| && t.nodes[free].Vacant?
    requires forall i :: t.home(k) + d <= i < free ==> t.nodes[i].Node?
    requires Raised(t, u, t.home(k) + d, free, t.Probe(k, d), Node(k, v))
    ensures Framed(u) && Marked(u)
  {
    hide Marked;
    RaisedFramed(t, u, t.home(k) + d, free, t.Probe(k, d), Node(k, v));
    forall i | 0 <= i < |u.nodes|
      ensures
        if u.nodes[i].Vacant? then u.info[i] == 0
        else u.home(u.nodes[i].key) <= i && u.info[i] == u.Probe(u.nodes[i].key, i - u.home(u.nodes[i].key))
    {
      RaisedMark(t, u, k, v, d, free, i);
    }
    MarkedIntro(u);
  }

  lemma MarkedIntro<K(!new), V>(u: Tab<K, V>)
    requires Framed(u)
    requires forall i :: 0 <= i < |u.nodes| ==>
      if u.nodes[i].Vacant? then u.info[i] == 0
      else u.home(u.nodes[i].key) <= i && u.info[i] == u.Probe(u.nodes[i].key, i - u.home(u.nodes[i].key))
    ensures Marked(u)
  {
  }

  lemma RaisedFramed<K(!new), V>(t: Tab<K, V>, u: Tab<K, V>, at: nat, free: nat, byte: nat, node: Slot<K, V>)
    requires Framed(t) && at <= free < |t.nodes| && Raised(t, u, at, free, byte, node)
    ensures Framed(u)
  {
    assert forall x :: t.Sized(x) ==> u.Sized(x);
  }

  lemma RaisedMark<K(!new), V>(t: Tab<K, V>, u: Tab<K, V>, k: K, v: V, d: nat, free: nat, i: nat)
    requires Framed(t) && Marked(t)
    requires InsertionPoint(t, k, d) && t.home(k) + d <= free < |t.nodes| && t.nodes[free].Vacant?
    requires forall i :: t.home(k) + d <= i < free ==> t.nodes[i].Node?
    requires Raised(t, u, t.home(k) + d, free, t.Probe(k, d), Node(k, v))
    requires i < |u.nodes|
    ensures
      if u.nodes[i].Vacant? then u.info[i] == 0
      else u.home(u.nodes[i].key) <= i && u.info[i] == u.Probe(u.nodes[i].key, i - u.home(u.nodes[i].key))
  {
    hide Marked;
    var at := t.home(k) + d;
    RaisedAt(t, u, at, free, t.Probe(k, d), Node(k, v), i);
    if i == at {
      ProbeSame(t, u, k, d);
    } else {
      MovedMark(t, u, if at < i <= free then i - 1 else i, i);
    }
  }

  lemma RaisedAt<K, V>(t: Tab<K, V>, u: Tab<K, V>, at: nat, free: nat, byte: nat, node: Slot<K, V>, i: nat)
    requires at <= free < |t.nodes| <= |t.info| && Raised(t, u, at, free, byte, node) && i < |u.nodes|
    ensures u.info[i] == RaisedByte(t, at, free, byte, i) && u.nodes[i] == RaisedNode(t, at, free, node, i)
    ensures u.home == t.home && u.bits == t.bits && u.inc == t.inc
  {
  }

  lemma RaisedLength<K, V>(t: Tab<K, V>, u: Tab<K, V>, at: nat, free: nat, byte: nat, node: Slot<K, V>)
    requires at <= free < |t.nodes| <= |t.info| && Raised(t, u, at, free, byte, node)
    ensures |u.nodes| == |t.nodes|
  {
  }

  /** A node keeps its mark when it stays, or moves up by one with its byte a step higher. */
  lemma MovedMark<K(!new), V>(t: Tab<K, V>, u: Tab<K, V>, j: nat, i: nat)
    requires Framed(t) && Marked(t) && j < |t.nodes| && i < |u.nodes| <= |u.info| && u.nodes[i] == t.nodes[j]
    requires u.home == t.home && u.bits == t.bits && u.inc == t.inc
    requires (i == j && u.info[i] == t.info[j]) || (i == j + 1 && t.nodes[j].Node? && u.info[i] == t.info[j] + t.inc)
    ensures
      if u.nodes[i].Vacant? then u.info[i] == 0
      else u.home(u.nodes[i].key) <= i && u.info[i] == u.Probe(u.nodes[i].key, i - u.home(u.nodes[i].key))
  {
    hide Marked;
    VacantByte(t, j);
    if t.nodes[j].Node? {
      var x := t.nodes[j].key;
      HomeBefore(t, j);
      ProbeStep(t, x, j - t.home(x));
      ProbeSame(t, u, x, i - t.home(x));
    }
  }

  lemma VacantByte<K(!new), V>(t: Tab<K, V>, i: nat)
    requires Framed(t) && Marked(t) && i < |t.nodes|
    ensures t.nodes[i].Vacant? <==> t.info[i] == 0
  {
  }

  lemma {:induction false} ProbeSame<K, V>(t: Tab<K, V>, u: Tab<K, V>, k: K, d: nat)
    requires u.inc == t.inc && u.bits == t.bits
    ensures u.Probe(k, d) == t.Probe(k, d)
  {
    if d > 0 {
      ProbeSame(t, u, k, d - 1);
    }
  }

  lemma RaisedOrdered<K(!new), V>(t: Tab<K, V>, u: Tab<K, V>, k: K, v: V, d: nat, free: nat)
    requires Framed(t) && Marked(t) && Ordered(t) && Framed(u)
    requires InsertionPoint(t, k, d) && t.home(k) + d <= free < |t.nodes| && t.nodes[free].Vacant?
    requires forall i :: t.home(k) + d <= i < free ==> t.nodes[i].Node?
    requires Raised(t, u, t.home(k) + d, free, t.Probe(k, d), Node(k, v))
    ensures Ordered(u)
  {
    hide Marked;
    var at := t.home(k) + d;
    assert t.Sized(k);
    forall i | 0 < i < |u.nodes| ensures u.info[i] < 2 * u.inc || u.info[i] <= u.info[i - 1] + u.inc {
      if at + 1 < i <= free {
        HomeBefore(t, i - 2);
      } else if i == free + 1 {
        VacantByte(t, free);
      }
    }
  }

  /** Where the keys stand after an insertion. */
  ghost function SlotsRaised<K>(slot: map<K, nat>, k: K, at: nat, free: nat): map<K, nat> {
    (map x | x in slot :: if at <= slot[x] < free then slot[x] + 1 else slot[x])[k := at]
  }

  lemma RaisedLists<K(!new), V>(t: Tab<K, V>, u: Tab<K, V>, slot: map<K, nat>, contents: map<K, V>,
      k: K, v: V, at: nat, free: nat, byte: nat)
    requires Lists(t, slot, contents) && k !in contents && at <= free < |t.nodes| <= |t.info| && t.nodes[free].Vacant?
    requires Raised(t, u, at, free, byte, Node(k, v))
    ensures Lists(u, SlotsRaised(slot, k, at, free), contents[k := v])
  {
    hide Raised;
    RaisedLength(t, u, at, free, byte, Node(k, v));
    var s := SlotsRaised(slot, k, at, free);
    forall x | x in s ensures s[x] < |u.nodes| && u.nodes[s[x]] == Node(x, contents[k := v][x]) {
      RaisedAt(t, u, at, free, byte, Node(k, v), s[x]);
    }
    forall i | 0 <= i < |u.nodes| && u.nodes[i].Node? ensures u.nodes[i].key in s && s[u.nodes[i].key] == i {
      RaisedAt(t, u, at, free, byte, Node(k, v), i);
      if at < i <= free {
        assert t.nodes[i - 1].Node?;
      }
    }
  }

  /** Insertion keeps the table sound and adds exactly the new pair. */
  lemma InsertionSound<K(!new), V>(t: Tab<K, V>, u: Tab<K, V>, slot: map<K, nat>, contents: map<K, V>,
      k: K, v: V, d: nat, free: nat)
    requires WellFormed(t, slot, contents) && k !in contents && |contents| < Allowed(t.size)
    requires InsertionPoint(t, k, d) && t.home(k) + d <= free < |t.nodes| && t.nodes[free].Vacant?
    requires forall i :: t.home(k) + d <= i < free ==> t.nodes[i].Node?
    requires Raised(t, u, t.home(k) + d, free, t.Probe(k, d), Node(k, v))
    requires Fitting(t, t.inc)
    ensures WellFormed(u, SlotsRaised(slot, k, t.home(k) + d, free), contents[k := v])
  {
    hide Framed, Marked, Ordered, Lists, SlotsRaised, Raised, Fitting;
    RaisedMarked(t, u, k, v, d, free);
    RaisedOrdered(t, u, k, v, d, free);
    RaisedLists(t, u, slot, contents, k, v, t.home(k) + d, free, t.Probe(k, d));
    ByteFits(t, k, d);
    RaisedFits(t, u, t.home(k) + d, free, t.Probe(k, d), Node(k, v));
    Counted(contents, k, v);
  }

  lemma Counted<K, V>(m: map<K, V>, k: K, v: V)
    requires k !in m
    ensures |m[k := v]| == |m| + 1
  {
    assert m[k := v] - {k} == m;
  }

  lemma RaisedFits<K, V>(t: Tab<K, V>, u: Tab<K, V>, at: nat, free: nat, byte: nat, node: Slot<K, V>)
    requires at <= free < |t.nodes| <= |t.info| && Raised(t, u, at, free, byte, node)
    requires Fitting(t, t.inc) && byte <= 0xFF
    ensures Fitting(u, 0) && u.size == t.size
  {
    forall i | 0 <= i < |u.info| ensures u.info[i] <= 0xFF {
      assert u.info[i] == RaisedByte(t, at, free, byte, i);
    }
  }

  /** The byte of a new node fits: it is at most one step above its neighbour's. */
  lemma ByteFits<K(!new), V>(t: Tab<K, V>, k: K, d: nat)
    requires Framed(t) && Fitting(t, t.inc) && InsertionPoint(t, k, d)
    ensures t.Probe(k, d) <= 0xFF
  {
    assert t.Sized(k);
  }

  // ------------------------------------------------------------ removal

  function LoweredByte<K, V>(t: Tab<K, V>, at: nat, last: nat, i: nat): int
    requires i < |t.info| && last + 1 < |t.info|
  {
    if at <= i < last then t.info[i + 1] - t.inc else if i == last then 0 else t.info[i]
  }

  function LoweredNode<K, V>(t: Tab<K, V>, at: nat, last: nat, i: nat): Slot<K, V>
    requires i < |t.nodes| && last < |t.nodes|
  {
    if at <= i < last then t.nodes[i + 1] else if i == last then Vacant else t.nodes[i]
  }

  /** The outcome of a removal: the nodes behind, up to one that is at home, move down by one slot. */
  ghost predicate Lowered<K, V>(t: Tab<K, V>, u: Tab<K, V>, at: nat, last: nat)
    requires at <= last < |t.nodes| < |t.info|
  {
    && u == t.(info := u.info, nodes := u.nodes) && |u.info| == |t.info| && |u.nodes| == |t.nodes|
    && (forall i :: 0 <= i < |t.info| ==> u.info[i] == LoweredByte(t, at, last, i))
    && (forall i :: 0 <= i < |t.nodes| ==> u.nodes[i] == LoweredNode(t, at, last, i))
  }

  /** The nodes that move: all those away from home directly behind the removed one. */
  ghost predicate Movable<K, V>(t: Tab<K, V>, at: nat, last: nat)
    requires at <= last < |t.nodes| < |t.info|
  {
    && t.nodes[at].Node? && t.info[last + 1] < 2 * t.inc
    && forall i :: at < i <= last ==> 2 * t.inc <= t.info[i]
  }

  lemma LoweredFramed<K(!new), V>(t: Tab<K, V>, u: Tab<K, V>, at: nat, last: nat)
    requires Framed(t) && at <= last < |t.nodes| && Lowered(t, u, at, last)
    ensures Framed(u)
  {
    assert forall x :: t.Sized(x) ==> u.Sized(x);
  }

  lemma AwayFromHome<K(!new), V>(t: Tab<K, V>, i: nat)
    requires Framed(t) && Marked(t) && i < |t.nodes| && 2 * t.inc <= t.info[i]
    ensures t.nodes[i].Node?
    ensures
      var k := t.nodes[i].key;
      && t.home(k) < i && t.info[i] == t.Probe(k, i - t.home(k))
      && t.Probe(k, i - t.home(k)) == t.Probe(k, i - 1 - t.home(k)) + t.inc
  {
    VacantByte(t, i);
    HomeBefore(t, i);
    assert t.Sized(t.nodes[i].key);
    if t.home(t.nodes[i].key) < i {
      ProbeStep(t, t.nodes[i].key, i - 1 - t.home(t.nodes[i].key));
    }
  }

  lemma LoweredMarked<K(!new), V>(t: Tab<K, V>, u: Tab<K, V>, at: nat, last: nat)
    requires Framed(t) && Marked(t) && at <= last < |t.nodes| && Movable(t, at, last) && Lowered(t, u, at, last)
    ensures Framed(u) && Marked(u)
  {
    hide Marked;
    LoweredFramed(t, u, at, last);
    forall i | 0 <= i < |u.nodes|
      ensures
        if u.nodes[i].Vacant? then u.info[i] == 0
        else u.home(u.nodes[i].key) <= i && u.info[i] == u.Probe(u.nodes[i].key, i - u.home(u.nodes[i].key))
    {
      if at <= i < last {
        AwayFromHome(t, i + 1);
        ProbeSame(t, u, u.nodes[i].key, i - t.home(u.nodes[i].key));
      } else if i != last {
        VacantByte(t, i);
        if t.nodes[i].Node? {
          HomeBefore(t, i);
          ProbeSame(t, u, u.nodes[i].key, i - t.home(u.nodes[i].key));
        }
      }
    }
    MarkedIntro(u);
  }

  lemma LoweredOrdered<K(!new), V>(t: Tab<K, V>, u: Tab<K, V>, at: nat, last: nat)
    requires Framed(t) && Ordered(t) && Framed(u) && at <= last < |t.nodes|
    requires Movable(t, at, last) && Lowered(t, u, at, last)
    ensures Ordered(u)
  {
    forall i | 0 < i < |u.nodes| ensures u.info[i] < 2 * u.inc || u.info[i] <= u.info[i - 1] + u.inc {
      assert t.info[i] < 2 * t.inc || t.info[i] <= t.info[i - 1] + t.inc;
      if at <= i < last {
        assert t.info[i + 1] <= t.info[i] + t.inc;
      }
    }
  }

  ghost function SlotsLowered<K>(slot: map<K, nat>, k: K, at: nat, last: nat): map<K, nat> {
    map x | x in slot && x != k :: if at < slot[x] <= last then slot[x] - 1 else slot[x]
  }

  lemma LoweredLists<K(!new), V>(t: Tab<K, V>, u: Tab<K, V>, slot: map<K, nat>, contents: map<K, V>, k: K, last: nat)
    requires Lists(t, slot, contents) && k in slot
    requires slot[k] <= last < |t.nodes| < |t.info| && Lowered(t, u, slot[k], last)
    ensures Lists(u, SlotsLowered(slot, k, slot[k], last), contents - {k})
  {
    var at, s := slot[k], SlotsLowered(slot, k, slot[k], last);
    forall i | 0 <= i < |u.nodes| && u.nodes[i].Node? ensures u.nodes[i].key in s && s[u.nodes[i].key] == i {
      if at <= i < last {
        assert t.nodes[i + 1].Node?;
      }
    }
    forall x | x in s ensures s[x] < |u.nodes| && u.nodes[s[x]] == Node(x, contents[x]) {
      assert slot[x] != at;
    }
  }

  /** Removal keeps the table sound, takes out exactly the one pair, and lets no byte grow. */
  lemma RemovalSound<K(!new), V>(t: Tab<K, V>, u: Tab<K, V>, slot: map<K, nat>, contents: map<K, V>,
      k: K, last: nat, margin: nat)
    requires WellFormed(t, slot, contents) && k in slot && slot[k] <= last < |t.nodes| && Fitting(t, margin)
    requires Movable(t, slot[k], last) && Lowered(t, u, slot[k], last)
    ensures WellFormed(u, SlotsLowered(slot, k, slot[k], last), contents - {k}) && Fitting(u, margin)
    ensures |contents - {k}| == |contents| - 1
  {
    hide Marked, Ordered, Lists;
    LoweredMarked(t, u, slot[k], last);
    LoweredOrdered(t, u, slot[k], last);
    LoweredLists(t, u, slot, contents, k, last);
    ListsKey(t, slot, contents, k);
    assert (contents - {k}).Keys == contents.Keys - {k};
    assert |contents.Keys| == |contents| && |(contents - {k}).Keys| == |contents - {k}|;
    LoweredFits(t, u, slot[k], last, margin);
    LoweredFits(t, u, slot[k], last, 0);
  }

  lemma LoweredFits<K, V>(t: Tab<K, V>, u: Tab<K, V>, at: nat, last: nat, margin: nat)
    requires Fitting(t, margin) && at <= last < |t.nodes| < |t.info| && Movable(t, at, last) && Lowered(t, u, at, last)
    requires forall i :: 0 <= i < |t.info| ==> t.info[i] + margin <= 0xFF
    ensures Fitting(u, margin)
  {
    forall i | 0 <= i < |u.info| ensures u.info[i] + margin <= 0xFF {
      assert u.info[i] == LoweredByte(t, at, last, i) && t.info[last + 1] + margin <= 0xFF;
    }
  }

  lemma ListsKey<K(!new), V>(t: Tab<K, V>, slot: map<K, nat>, contents: map<K, V>, k: K)
    requires Lists(t, slot, contents) && k in slot
    ensures k in contents && slot[k] < |t.nodes| && t.nodes[slot[k]] == Node(k, contents[k])
  {
  }

  // ------------------------------------------------------------ one hash bit less

  /** All bytes halved, the step halved, one bit of each key's info bits dropped. */
  ghost predicate Halved<K(!new), V>(t: Tab<K, V>, u: Tab<K, V>)
    requires |t.nodes| < |t.info|
  {
    && u == t.(info := u.info, inc := t.inc / 2, bits := u.bits) && |u.info| == |t.info|
    && (forall i :: 0 <= i < |t.info| ==> u.info[i] == if i == |t.nodes| then 1 else t.info[i] / 2)
    && forall k :: u.bits(k) == t.bits(k) / 2
  }

  lemma {:induction false} ProbeHalved<K(!new), V>(t: Tab<K, V>, u: Tab<K, V>, k: K, d: nat)
    requires |t.nodes| < |t.info| && Halved(t, u) && t.inc % 2 == 0
    ensures u.Probe(k, d) == t.Probe(k, d) / 2
  {
    if d > 0 {
      ProbeHalved(t, u, k, d - 1);
    }
  }

  /** Halving changes no home, no node and no order: the same table with room in every byte. */
  lemma HalvingSound<K(!new), V>(t: Tab<K, V>, u: Tab<K, V>, slot: map<K, nat>, contents: map<K, V>)
    requires WellFormed(t, slot, contents) && Halved(t, u) && t.inc % 2 == 0 && 2 < t.inc
    ensures WellFormed(u, slot, contents) && Fitting(u, u.inc)
  {
    hide Marked, Lists;
    assert forall k :: t.Sized(k) ==> u.Sized(k);
    forall i | 0 <= i < |u.nodes|
      ensures
        if u.nodes[i].Vacant? then u.info[i] == 0
        else u.home(u.nodes[i].key) <= i && u.info[i] == u.Probe(u.nodes[i].key, i - u.home(u.nodes[i].key))
    {
      VacantByte(t, i);
      if t.nodes[i].Node? {
        HomeBefore(t, i);
        ProbeHalved(t, u, t.nodes[i].key, i - t.home(t.nodes[i].key));
      }
    }
    MarkedIntro(u);
    HalvedOrdered(t, u);
    HalvedLists(t, u, slot, contents);
  }

  lemma HalvedOrdered<K(!new), V>(t: Tab<K, V>, u: Tab<K, V>)
    requires Framed(t) && Framed(u) && Ordered(t) && Halved(t, u) && t.inc % 2 == 0
    ensures Ordered(u)
  {
    forall i | 0 < i < |u.nodes| ensures u.info[i] < 2 * u.inc || u.info[i] <= u.info[i - 1] + u.inc {
      assert t.info[i] < 2 * t.inc || t.info[i] <= t.info[i - 1] + t.inc;
    }
  }

  lemma HalvedLists<K(!new), V>(t: Tab<K, V>, u: Tab<K, V>, slot: map<K, nat>, contents: map<K, V>)
    requires Lists(t, slot, contents) && u.nodes == t.nodes
    ensures Lists(u, slot, contents)
  {
  }

  // ------------------------------------------------------------ eight bytes at a time

  /** Eight bytes loaded as one word, the first byte lowest. */
  function Word(bytes: seq<nat>): nat {
    if bytes == [] then 0 else bytes[0] + 0x100 * Word(bytes[1..])
  }

  function Bytes(word: nat, n: nat): (r: seq<nat>)
    ensures |r| == n
  {
    if n == 0 then [] else [word % 0x100] + Bytes(word / 0x100, n - 1)
  }

  /** Bitwise and with 0x7f in each of the lowest n bytes. */
  function Masked(word: nat, n: nat): nat {
    if n == 0 then 0 else word % 0x100 % 0x80 + 0x100 * Masked(word / 0x100, n - 1)
  }

  /** Shifting the word right by one and masking out what crossed over halves every byte. */
  lemma {:induction false} WordHalving(bytes: seq<nat>, n: nat)
    requires |bytes| == n && forall i :: 0 <= i < n ==> bytes[i] <= 0xFF
    ensures
      var r := Bytes(Masked(Word(bytes) / 2, n), n);
      forall i :: 0 <= i < n ==> r[i] == bytes[i] / 2
  {
    if n > 0 {
      WordHalving(bytes[1..], n - 1);
      LowByteHalved(bytes[0], Word(bytes[1..]), n);
    }
  }

  lemma LowByteHalved(b: nat, w: nat, n: nat)
    requires b <= 0xFF && 0 < n
    ensures Masked((b + 0x100 * w) / 2, n) % 0x100 == b / 2
    ensures Masked((b + 0x100 * w) / 2, n) / 0x100 == Masked(w / 2, n - 1)
  {
    hide Masked;
    HalfWord(b, w);
    MaskedStep((b + 0x100 * w) / 2, n);
    LowByte(b / 2, Masked(w / 2, n - 1));
  }

  lemma MaskedStep(word: nat, n: nat)
    requires 0 < n
    ensures Masked(word, n) == word % 0x100 % 0x80 + 0x100 * Masked(word / 0x100, n - 1)
  {
  }

  lemma LowByte(a: nat, m: nat)
    requires a < 0x100
    ensures (a + 0x100 * m) % 0x100 == a && (a + 0x100 * m) / 0x100 == m
  {
  }

  /** Halving a word halves its low byte, but for the bit that crosses over from above. */
  lemma HalfWord(b: nat, w: nat)
    requires b <= 0xFF
    ensures
      var half := (b + 0x100 * w) / 2;
      half % 0x100 % 0x80 == b / 2 && half / 0x100 == w / 2
  {
    var half := (b + 0x100 * w) / 2;
    var crossing := b / 2 + 0x80 * (w % 2);
    assert half == crossing + 0x100 * (w / 2);
    LowByte(crossing, w / 2);
  }

  const BYTE_MASK: bv64 := 0x7f7f_7f7f_7f7f_7f7f

  /** The same on the machine word itself: each of the eight bytes is shifted right by one, and nothing crosses over. */
  lemma BitwiseHalving(w: bv64)
    ensures
      var h := (w >> 1) & BYTE_MASK;
      && h & 0xff == (w & 0xff) >> 1
      && (h >> 8) & 0xff == ((w >> 8) & 0xff) >> 1
      && (h >> 16) & 0xff == ((w >> 16) & 0xff) >> 1
      && (h >> 24) & 0xff == ((w >> 24) & 0xff) >> 1
      && (h >> 32) & 0xff == ((w >> 32) & 0xff) >> 1
      && (h >> 40) & 0xff == ((w >> 40) & 0xff) >> 1
      && (h >> 48) & 0xff == ((w >> 48) & 0xff) >> 1
      && (h >> 56) & 0xff == ((w >> 56) & 0xff) >> 1
  {
  }

  // ------------------------------------------------------------ an empty table

  lemma EmptySound<K(!new), V>(t: Tab<K, V>)
    requires Framed(t) && (forall i :: 0 <= i < |t.nodes| ==> t.nodes[i] == Vacant && t.info[i] == 0)
    ensures WellFormed(t, map[], map[]) && Fitting(t, t.inc)
  {
  }
}
