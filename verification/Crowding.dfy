/** When a table has no room left in its bytes, told by the homes of its keys alone. */
module Crowding {
  import opened RobinHood

  /** The keys whose homes lie between two slots. */
  ghost function Between<K, V>(home: K -> nat, m: map<K, V>, a: nat, b: nat): set<K> {
    set k | k in m && a <= home(k) <= b
  }

  /** Some stretch of slots is the home of so many keys that the last of them stands 126 slots off. */
  ghost predicate Crowded<K, V>(home: K -> nat, m: map<K, V>) {
    exists a: nat, b: nat :: a <= b && 127 + b - a <= |Between(home, m, a, b)|
  }

  // ------------------------------------------------------------ how many keys one stretch can be home to

  /** No node stands further than this from its home. */
  ghost predicate Near<K(!new), V>(t: Tab<K, V>, far: nat) {
    forall i :: 0 <= i < |t.nodes| && t.nodes[i].Node? ==> i - t.home(t.nodes[i].key) <= far
  }

  lemma StretchHolds<K(!new), V>(t: Tab<K, V>, slot: map<K, nat>, m: map<K, V>, a: nat, b: nat, far: nat)
    requires WellFormed(t, slot, m) && Near(t, far) && a <= b
    ensures |Between(t.home, m, a, b)| <= far + 1 + b - a
  {
    hide Marked, Ordered, Fitting;
    var s := map k | k in Between(t.home, m, a, b) :: slot[k];
    assert s.Keys == Between(t.home, m, a, b);
    forall i | i in s.Values ensures i in Range(a, b + far + 1) {
      var k :| k in s && s[k] == i;
      assert t.nodes[i] == Node(k, m[k]);
      StandsBehindHome(t, i);
    }
    SubsetSize(s.Values, Range(a, b + far + 1));
    DistinctValues(s);
    assert |s| == |s.Keys|;
  }

  lemma StandsBehindHome<K(!new), V>(t: Tab<K, V>, i: nat)
    requires Framed(t) && Marked(t) && i < |t.nodes| && t.nodes[i].Node?
    ensures t.home(t.nodes[i].key) <= i
  {
  }

  /** The distance from home grows with the byte, a step a slot. */
  lemma {:induction false} ProbeIs<K, V>(t: Tab<K, V>, k: K, d: nat)
    ensures t.Probe(k, d) == t.inc * (d + 1) + t.bits(k)
  {
    if d > 0 {
      ProbeIs(t, k, d - 1);
    }
  }

  lemma BytesBoundDistance<K(!new), V>(t: Tab<K, V>, margin: nat, far: nat)
    requires Framed(t) && Marked(t) && Fitting(t, margin) && 0xFF < t.inc * (far + 2) + margin
    ensures Near(t, far)
  {
    hide Marked;
    forall i | 0 <= i < |t.nodes| && t.nodes[i].Node? ensures i - t.home(t.nodes[i].key) <= far {
      var k := t.nodes[i].key;
      HomeBefore(t, i);
      var d := i - t.home(k);
      ProbeIs(t, k, d);
      if far < d {
        TimesGrows(t.inc, far + 2, d + 1);
      }
    }
  }

  lemma TimesGrows(x: nat, m: nat, n: nat)
    requires m <= n
    ensures x * m <= x * n
  {
    assert x * n == x * m + x * (n - m);
  }

  /** What any table holds: at most 126 keys more than slots with homes in one stretch. */
  lemma StretchBound<K(!new), V>(t: Tab<K, V>, slot: map<K, nat>, m: map<K, V>, a: nat, b: nat)
    requires WellFormed(t, slot, m) && a <= b
    ensures |Between(t.home, m, a, b)| <= 127 + b - a
  {
    hide Marked, Ordered, Lists;
    assert 256 <= t.inc * 128;
    BytesBoundDistance(t, 0, 126);
    StretchHolds(t, slot, m, a, b, 126);
  }

  /** A table with room in its bytes, or with more than one hash bit left, is not crowded. */
  lemma RoomIsUncrowded<K(!new), V>(t: Tab<K, V>, slot: map<K, nat>, m: map<K, V>)
    requires WellFormed(t, slot, m) && (Fitting(t, t.inc) || 3 <= t.inc)
    ensures !Crowded(t.home, m)
  {
    hide Marked, Ordered, Lists, Fitting;
    if 3 <= t.inc {
      assert 256 <= t.inc * 127;
      BytesBoundDistance(t, 0, 125);
    } else {
      BytesBoundDistance(t, t.inc, 125);
    }
    forall a: nat, b: nat | a <= b ensures |Between(t.home, m, a, b)| < 127 + b - a {
      StretchHolds(t, slot, m, a, b, 125);
    }
  }

  // ------------------------------------------------------------ a full byte means a crowd

  /** Where the cluster of slot i begins: from there on all is taken, by keys at home between there and i's own home. */
  lemma {:induction false} ClusterStart<K(!new), V>(t: Tab<K, V>, i: nat) returns (a: nat)
    requires Framed(t) && Marked(t) && Ordered(t) && i < |t.nodes| && t.nodes[i].Node?
    ensures a <= t.home(t.nodes[i].key)
    ensures forall j :: a <= j <= i ==>
      t.nodes[j].Node? && a <= t.home(t.nodes[j].key) <= t.home(t.nodes[i].key)
  {
    hide Marked, Ordered;
    StandsBehindHome(t, i);
    if t.home(t.nodes[i].key) == i {
      a := i;
    } else {
      OrderedIffClustered(t);
      assert t.nodes[i - 1].Node?;
      assert Follows(t, t.nodes[i - 1].key, t.nodes[i].key);
      a := ClusterStart(t, i - 1);
    }
  }

  lemma FarIsCrowded<K(!new), V>(t: Tab<K, V>, slot: map<K, nat>, m: map<K, V>, i: nat)
    requires WellFormed(t, slot, m) && i < |t.nodes| && t.nodes[i].Node? && 126 <= i - t.home(t.nodes[i].key)
    ensures Crowded(t.home, m)
  {
    hide Marked, Ordered, Fitting;
    var a := ClusterStart(t, i);
    var b := t.home(t.nodes[i].key);
    var s := map k | k in Between(t.home, m, a, b) :: slot[k];
    assert s.Keys == Between(t.home, m, a, b);
    forall j | j in Range(a, i + 1) ensures j in s.Values {
      assert t.nodes[j].key in s && s[t.nodes[j].key] == j;
    }
    SubsetSize(Range(a, i + 1), s.Values);
    ValuesSize(s);
    assert |s| == |s.Keys|;
  }

  /** With one hash bit left, a byte is full exactly when the homes crowd somewhere. */
  lemma FullIffCrowded<K(!new), V>(t: Tab<K, V>, slot: map<K, nat>, m: map<K, V>)
    requires WellFormed(t, slot, m) && t.inc == 2
    ensures !Fitting(t, t.inc) <==> Crowded(t.home, m)
  {
    hide Marked, Ordered, Lists;
    if Fitting(t, t.inc) {
      RoomIsUncrowded(t, slot, m);
    } else {
      var i :| 0 <= i < |t.info| && t.info[i] + t.inc > 0xFF;
      assert i < |t.nodes|;
      VacantByte(t, i);
      HomeBefore(t, i);
      var k := t.nodes[i].key;
      assert t.Sized(k);
      ProbeIs(t, k, i - t.home(k));
      FarIsCrowded(t, slot, m, i);
    }
  }

  /** Along the slots homes ascend. */
  lemma {:induction false} HomesAscend<K(!new), V>(t: Tab<K, V>, i: nat, j: nat)
    requires Framed(t) && Marked(t) && Ordered(t)
    requires i < j < |t.nodes| && t.nodes[i].Node? && t.nodes[j].Node?
    ensures t.home(t.nodes[i].key) <= t.home(t.nodes[j].key)
  {
    hide Marked, Ordered;
    StandsBehindHome(t, i);
    StandsBehindHome(t, j);
    if t.home(t.nodes[j].key) < j {
      OrderedIffClustered(t);
      assert t.nodes[j - 1].Node?;
      assert Follows(t, t.nodes[j - 1].key, t.nodes[j].key);
      if i < j - 1 {
        HomesAscend(t, i, j - 1);
      }
    }
  }

  // ------------------------------------------------------------ crowds and numbers

  /** A crowd takes 127 keys. */
  lemma FewAreUncrowded<K, V>(home: K -> nat, m: map<K, V>)
    requires |m| <= 126
    ensures !Crowded(home, m)
  {
    forall a: nat, b: nat | a <= b ensures |Between(home, m, a, b)| < 127 + b - a {
      SubsetSize(Between(home, m, a, b), m.Keys);
      assert |m| == |m.Keys|;
    }
  }

  /** 127 keys with one home are one. */
  lemma CollidersCrowd<K, V>(home: K -> nat, m: map<K, V>, keys: set<K>, h: nat)
    requires keys <= m.Keys && 127 <= |keys| && forall k :: k in keys ==> home(k) == h
    ensures Crowded(home, m)
  {
    assert keys <= Between(home, m, h, h);
    SubsetSize(keys, Between(home, m, h, h));
  }

  /** More keys, no smaller crowd. */
  lemma MoreCrowd<K, V>(home: K -> nat, m: map<K, V>, n: map<K, V>)
    requires m.Keys <= n.Keys && Crowded(home, m)
    ensures Crowded(home, n)
  {
    var a: nat, b: nat :| a <= b && 127 + b - a <= |Between(home, m, a, b)|;
    SubsetSize(Between(home, m, a, b), Between(home, n, a, b));
  }
}
