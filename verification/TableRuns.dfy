/** Runs of insertions into an empty table that meet the limits of its bytes. */
module TableRuns {
  import opened RobinHood
  import opened Crowding
  import opened Mixing
  import opened HashTable

  /** Exactly the keys below n. */
  ghost predicate KeysBelow(m: map<nat, nat>, n: nat) {
    |m| == n && forall l: nat :: l in m <==> l < n
  }

  lemma NoKeys()
    ensures KeysBelow(map[], 0)
  {
  }

  lemma OneKeyMore(m: map<nat, nat>, n: nat, v: nat)
    requires KeysBelow(m, n)
    ensures n !in m && |m| == n && KeysBelow(m[n := v], n + 1)
  {
    Counted(m, n, v);
  }

  /** The keys from a on: the numbers from a up to n. */
  lemma KeysFrom(m: map<nat, nat>, a: nat, n: nat)
    requires KeysBelow(m, n) && a <= n
    ensures Range(a, n) <= m.Keys
  {
  }

  // ------------------------------------------------------------ one hash for all

  /** The worst of hashes. */
  function OneHash(key: nat): nat { 0 }

  /** Mixing makes nothing of 0. */
  lemma ZeroMixed(multiplier: nat)
    ensures Mixed(0, multiplier) == 0
  {
    assert Times(0, multiplier) == 0;
    NothingDropped(33);
  }

  lemma AllAtZero(multiplier: nat, size: nat)
    requires 0 < size
    ensures forall k: nat :: Homes(Mixer(OneHash), multiplier, size)(k) == 0
  {
    hide Mixed;
    ZeroMixed(multiplier);
    forall k: nat ensures Homes(Mixer(OneHash), multiplier, size)(k) == 0 {
      assert Mixer(OneHash)(k, multiplier) == Mixed(OneHash(k), multiplier) == 0;
    }
  }

  /** A table in which all keys have one home holds at most 127 of them. */
  lemma AtMost127(table: Table<nat, nat>)
    requires table.Valid() && table.mix == Mixer(OneHash)
    ensures |table.contents| <= 127
  {
    hide WellFormed, Homes;
    var home := table.Layout().home;
    AllAtZero(table.multiplier, table.mask + 1);
    StretchBound(table.Layout(), table.slot, table.contents, 0, 0);
    assert Between(home, table.contents, 0, 0) == table.contents.Keys;
    assert |table.contents| == |table.contents.Keys|;
  }

  /** Keys of one hash: 127 of them go in, one after the other, and the next one is refused. */
  method CollidingKeysOverflow() returns (table: Table<nat, nat>, state: InsertionState)
    ensures fresh(table) && table.Valid() && state == OverflowError && KeysBelow(table.contents, 127)
  {
    hide KeysBelow, Table.Valid, Table.Expandable, Table.Rehashable, Table.Full, PartOf, Lost, Allowed;
    table := new Table<nat, nat>(OneHash);
    assert KeysBelow(map[], 0) by { NoKeys(); }
    for k := 0 to 127
      invariant fresh(table) && table.Valid() && fresh(table.info) && fresh(table.nodes)
      invariant KeysBelow(table.contents, k) && table.mix == Mixer(OneHash)
    {
      OneKeyMore(table.contents, k, k);
      state := table.TryEmplace(k, k);
    }
    OneKeyMore(table.contents, 127, 127);
    ghost var filled := table.contents[127 := 127];
    OneKeyMore(filled, 128, 128);
    state := table.TryEmplace(127, 127);
    AtMost127(table);
  }

  // ------------------------------------------------------------ a rehash that loses a pair

  /** Under the first multiplier, key 0 is mixed to 32 and has home 1; all other keys have hash 0. */
  function Lopsided(key: nat): nat {
    if key == 0 then 0x96965f025266fb60 else 0
  }

  lemma OddOneMixed()
    ensures Mixed(0x96965f025266fb60, INITIAL_MULTIPLIER) == 32
  {
    assert Times(0x96965f025266fb60, INITIAL_MULTIPLIER) == 32;
    DropBoth(32, 6, 27);
    NothingDropped(27);
  }

  lemma {:induction false} NothingDropped(n: nat)
    ensures DropBits(0, n) == 0
  {
    if n > 0 {
      NothingDropped(n - 1);
    }
  }

  lemma LopsidedHomes(multiplier: nat, size: nat)
    requires 0 < size
    ensures forall k: nat :: 0 < k ==> Homes(Mixer(Lopsided), multiplier, size)(k) == 0
    ensures multiplier == INITIAL_MULTIPLIER && 1 < size ==> Homes(Mixer(Lopsided), multiplier, size)(0) == 1
  {
    hide Mixed;
    ZeroMixed(multiplier);
    OddOneMixed();
    forall k: nat | 0 < k ensures Homes(Mixer(Lopsided), multiplier, size)(k) == 0 {
      assert Mixer(Lopsided)(k, multiplier) == Mixed(Lopsided(k), multiplier) == 0;
    }
    assert Mixer(Lopsided)(0, multiplier) == Mixed(Lopsided(0), multiplier);
  }

  /** With 126 of the others, key 0 makes no crowd. */
  lemma ApartIsUncrowded(m: map<nat, nat>, n: nat, size: nat)
    requires KeysBelow(m, n) && n <= 127 && 1 < size
    ensures !Crowded(Homes(Mixer(Lopsided), INITIAL_MULTIPLIER, size), m)
  {
    hide Homes;
    var home := Homes(Mixer(Lopsided), INITIAL_MULTIPLIER, size);
    LopsidedHomes(INITIAL_MULTIPLIER, size);
    forall a: nat, b: nat | a <= b ensures |Between(home, m, a, b)| < 127 + b - a {
      var s := Between(home, m, a, b);
      if a == b {
        var k := if a == 0 then 0 else 1;
        if n > 0 {
          if a == 0 {
            assert s <= m.Keys - {0};
            SubsetSize(s, m.Keys - {0});
            assert |m| == |m.Keys|;
          } else {
            assert s <= {0};
            SubsetSize(s, {0});
          }
        } else {
          assert s == {};
        }
      } else {
        SubsetSize(s, m.Keys);
        assert |m| == |m.Keys|;
      }
    }
  }

  /** While key 0 has at most 126 others beside it, the table goes on with its first multiplier. */
  lemma GoesOn(table: Table<nat, nat>, n: nat)
    requires table.Valid() && table.Allowing() && KeysBelow(table.contents, n) && n <= 127
    requires table.mix == Mixer(Lopsided) && table.multiplier == INITIAL_MULTIPLIER
    requires table.Full() && !table.Expandable()
    ensures table.NextMultiplier() == INITIAL_MULTIPLIER && table.Rehashable()
    ensures !Crowded(table.NextHomes(), table.contents)
  {
    hide WellFormed, Crowded, Homes, Fitting, KeysBelow, MovesAll;
    ApartIsUncrowded(table.contents, n, table.mask + 1);
    ApartIsUncrowded(table.contents, n, table.NextSize());
    table.HomesNow();
    table.ExhaustedIffCrowded();
    table.DistinctSlots();
    FewMove(table.NextHomes(), table.slot, table.contents) by { OneKeyMore(table.contents, n, n); }
  }

  /** Key 0 stands behind all others. */
  lemma OddOneLast(table: Table<nat, nat>, k: nat)
    requires table.Valid() && table.mix == Mixer(Lopsided) && table.multiplier == INITIAL_MULTIPLIER
    requires 0 in table.contents && k in table.contents && 0 < k
    ensures 0 in table.slot && k in table.slot && table.slot[k] < table.slot[0]
  {
    hide Homes, Marked, Ordered, Fitting;
    LopsidedHomes(INITIAL_MULTIPLIER, table.mask + 1);
    var t := table.Layout();
    var i, j := table.slot[0], table.slot[k];
    assert t.nodes[i].key == 0 && t.nodes[j].key == k;
    if i < j {
      HomesAscend(t, i, j);
    }
  }

  /** 127 others crowd, and leave no room for a further pair. */
  lemma OthersCrowd(table: Table<nat, nat>)
    requires table.Valid() && KeysBelow(table.contents, 128)
    requires table.mix == Mixer(Lopsided) && table.multiplier == INITIAL_MULTIPLIER
    ensures table.Full() && !table.Expandable()
  {
    hide Homes, Crowded, WellFormed, Fitting;
    KeysFrom(table.contents, 1, 128);
    assert 0 in table.contents;
    LopsidedHomes(table.multiplier, table.mask + 1);
    CollidersCrowd(table.Layout().home, table.contents, Range(1, 128), 0);
    table.CrowdedIsExhausted();
  }

  /** The rehash this takes moves the others first. */
  lemma OddOneIsLost(table: Table<nat, nat>)
    requires table.Valid() && KeysBelow(table.contents, 128)
    requires table.mix == Mixer(Lopsided) && table.multiplier == INITIAL_MULTIPLIER
    ensures !table.Rehashable()
  {
    hide Table.Valid, Homes, Crowded, Moved;
    assert 0 in table.contents && 1 in table.contents;
    LopsidedHomes(table.NextMultiplier(), table.NextSize());
    OddOneLast(table, 1);
    var moved := Moved(table.slot, table.contents, table.slot[0]);
    OthersFirst(table);
    CollidersCrowd(table.NextHomes(), moved, Range(1, 128), 0);
  }

  lemma OthersFirst(table: Table<nat, nat>)
    requires table.Valid() && KeysBelow(table.contents, 128)
    requires table.mix == Mixer(Lopsided) && table.multiplier == INITIAL_MULTIPLIER
    ensures 0 in table.slot && Range(1, 128) <= Moved(table.slot, table.contents, table.slot[0]).Keys
  {
    hide Table.Valid, Moved, Range;
    KeysFrom(table.contents, 1, 128);
    assert 0 in table.contents && 1 in table.contents;
    OddOneLast(table, 1);
    hide KeysBelow;
    forall k | k in Range(1, 128) ensures k in Moved(table.slot, table.contents, table.slot[0]) {
      OddOneLast(table, k);
      BeforeSlot(table.slot, table.contents, k, table.slot[0]);
    }
  }

  lemma BeforeSlot(slot: map<nat, nat>, m: map<nat, nat>, k: nat, i: nat)
    requires k in m && k in slot && slot[k] < i
    ensures k in Moved(slot, m, i)
  {
  }

  /** 127 keys of one hash and one more key, all put in; the rehash that the next insertion takes loses a pair. */
  method EmplaceLosesPairs() returns (table: Table<nat, nat>, state: InsertionState, ghost before: map<nat, nat>)
    ensures fresh(table) && table.Valid() && state == OverflowError
    ensures KeysBelow(before, 128) && Lost(table.contents, before)
  {
    hide KeysBelow, Table.Valid, Table.Expandable, Table.Rehashable, Table.Full, Table.Allowing, Table.NextHomes;
    hide Table.NextMultiplier, Lost, PartOf, Crowded;
    table := new Table<nat, nat>(Lopsided);
    assert KeysBelow(map[], 0) by { NoKeys(); }
    for k := 0 to 128
      invariant fresh(table) && table.Valid() && fresh(table.info) && fresh(table.nodes)
      invariant KeysBelow(table.contents, k) && table.Allowing()
      invariant table.mix == Mixer(Lopsided) && table.multiplier == INITIAL_MULTIPLIER
    {
      OneKeyMore(table.contents, k, k);
      if table.Full() && !table.Expandable() {
        GoesOn(table, k);
      }
      state := table.TryEmplace(k, k);
    }
    before := table.contents;
    OneKeyMore(before, 128, 128);
    OthersCrowd(table);
    OddOneIsLost(table);
    state := table.TryEmplace(128, 128);
  }
}
