/** The hash table as the program keeps it: arrays of info bytes and nodes, updated in place. */
module HashTable {
  import opened RobinHood
  import opened Crowding
  import opened Mixing
  import opened Words

  lemma {:induction false} DropOneMore(h: nat, shift: nat)
    ensures DropBits(h, shift + 1) == DropBits(h, shift) / 2
  {
    if shift > 0 {
      DropOneMore(h / 2, shift - 1);
    }
  }

  lemma {:induction false} BitsBelowStep(h: nat, n: nat, shift: nat)
    requires h < n && n % 2 == 0 && (shift > 0 ==> DropBits(n, shift - 1) % 2 == 0)
    requires forall s: nat :: s < shift ==> DropBits(n, s) % 2 == 0
    ensures DropBits(h, shift) < DropBits(n, shift)
  {
    if shift > 0 {
      BitsBelowStep(h, n, shift - 1);
      DropOneMore(h, shift - 1);
      DropOneMore(n, shift - 1);
    }
  }

  const INITIAL_SIZE: nat := 8
  const INFO_BITS: nat := 0x20        // five low bits of the hash go into the info byte
  const INITIAL_MULTIPLIER: nat := 0xc4ceb9fe1a85ec53
  const MULTIPLIER_STEP: nat := 0xc4ceb9fe1a85ec54

  /** The home slot: the hash without its five low bits, reduced to the table size. */
  function Homes<K>(mix: (K, nat) -> nat, multiplier: nat, size: nat): K -> nat
    requires 0 < size
  {
    k => mix(k, multiplier) / INFO_BITS % size
  }

  /** The info bits of a key: the five low bits of its hash, less those dropped so far. */
  function InfoBits<K>(mix: (K, nat) -> nat, multiplier: nat, shift: nat): K -> nat {
    k => DropBits(mix(k, multiplier) % INFO_BITS, shift)
  }

  /** The size and the step of a table fit its hash functions. */
  lemma AllSized<K, V>(t: Tab<K, V>, mix: (K, nat) -> nat, multiplier: nat, shift: nat, k: K)
    requires 0 < t.size && shift <= 4 && t.inc == DropBits(0x20, shift)
    requires t.home == Homes(mix, multiplier, t.size) && t.bits == InfoBits(mix, multiplier, shift)
    ensures t.Sized(k) && 2 <= t.inc <= 32
  {
    assert DropBits(32, 1) == 16 && DropBits(32, 2) == 8 && DropBits(32, 3) == 4 && DropBits(32, 4) == 2;
    BitsBelowStep(mix(k, multiplier) % INFO_BITS, 32, shift);
  }

  datatype InsertionState = OverflowError | KeyFound | NewNode

  class Table<K(==, !new), V> {
    const mix: (K, nat) -> nat  // the mixed hash of a key under a multiplier
    var multiplier: nat
    var info: array<nat>
    var nodes: array<Slot<K, V>>
    var numElements: nat
    var mask: nat
    var maxAllowed: nat
    var inc: nat
    var shift: nat
    ghost var slot: map<K, nat>
    ghost var contents: map<K, V>

    ghost function Layout(): Tab<K, V>
      reads this, info, nodes
    {
      Tab(info[..], nodes[..], mask + 1, inc, Homes(mix, multiplier, mask + 1), InfoBits(mix, multiplier, shift))
    }

    ghost predicate Stepped()
      reads this
    {
      shift <= 4 && inc == DropBits(0x20, shift)
    }

    /** A table that may still take elements has room for one more step in every byte. */
    ghost predicate Valid()
      reads this, info, nodes
    {
      && WellFormed(Layout(), slot, contents) && Stepped()
      && numElements == |contents|
      && (maxAllowed == 0 || (maxAllowed == Allowed(mask + 1) && Fitting(Layout(), inc)))
      && (mask == 0 ==> contents == map[])
      && multiplier % 2 == 1
    }

    constructor (hash: K -> nat)
      ensures Valid() && contents == map[] && fresh(info) && fresh(nodes)
      ensures mix == Mixer(hash) && multiplier == INITIAL_MULTIPLIER && mask == 0 && Allowing()
    {
      mix := Mixer(hash);
      multiplier, mask, numElements, maxAllowed := INITIAL_MULTIPLIER, 0, 0, 0;
      inc, shift := 0x20, 0;
      info := new nat[9](_ => 0);
      nodes := new Slot<K, V>[1](_ => Vacant);
      slot, contents := map[], map[];
      new;
      forall k ensures Layout().Sized(k) {
        AllSized(Layout(), mix, multiplier, shift, k);
      }
      EmptySound(Layout());
    }

    /** The home slot of a key and its info byte there. */
    method KeyToIdx(key: K) returns (idx: nat, byte: nat)
      requires Valid()
      ensures idx == Layout().home(key) && byte == Layout().Probe(key, 0)
      ensures idx < mask + 1 <= nodes.Length
    {
      hide Marked, Ordered, Lists;
      var h := mix(key, multiplier);
      byte := inc + DropBits(h % INFO_BITS, shift);
      idx := h / INFO_BITS % (mask + 1);
      assert Layout().Sized(key);
    }

    /** The test of one slot: the byte the search expects, then the key. */
    method IsAt(key: K, idx: nat, byte: nat, ghost d: nat) returns (found: bool)
      requires Valid() && Searching(key, idx, byte, d)
      ensures found <==> idx < nodes.Length && nodes[idx].Node? && nodes[idx].key == key
      ensures found ==> key in contents && nodes[idx] == Node(key, contents[key]) && slot[key] == idx
    {
      hide Ordered, Homes, InfoBits;
      ghost var t := Layout();
      assert 2 <= t.inc <= byte;
      if idx < nodes.Length && t.nodes[idx].Node? && t.nodes[idx].key == key {
        ByteTells(t, key, d);
      }
      found := byte == info[idx] && nodes[idx].Node? && nodes[idx].key == key;
    }

    /** What a search knows at slot idx, d slots behind the key's home. */
    ghost predicate Searching(key: K, idx: nat, byte: nat, d: nat)
      reads this, info, nodes
    {
      && idx == Layout().home(key) + d < info.Length && byte == Layout().Probe(key, d)
      && forall i :: Layout().home(key) <= i < idx && i < nodes.Length ==> nodes[i].Vacant? || nodes[i].key != key
    }

    lemma SearchStep(key: K, idx: nat, byte: nat, d: nat)
      requires Valid() && Searching(key, idx, byte, d) && idx + 1 < info.Length
      requires idx < nodes.Length ==> nodes[idx].Vacant? || nodes[idx].key != key
      ensures Searching(key, idx + 1, byte + inc, d + 1)
    {
      hide Marked, Ordered, Lists, Homes, InfoBits;
      ProbeStep(Layout(), key, d);
    }

    lemma SearchGoesOn(key: K, idx: nat, byte: nat, d: nat)
      requires Valid() && Searching(key, idx, byte, d) && byte <= info[idx]
      ensures idx < nodes.Length && nodes.Length + 8 == info.Length
    {
      hide Marked, Ordered, Lists, Homes, InfoBits;
      assert Layout().info[idx] == info[idx] && 2 <= Layout().inc <= byte;
    }

    lemma SearchFails(key: K, idx: nat, byte: nat, d: nat)
      requires Valid() && Searching(key, idx, byte, d) && info[idx] < byte
      ensures key !in contents
    {
      hide Marked, Ordered, Lists, Homes, InfoBits;
      SearchMayStop(Layout(), slot, contents, key, d);
    }

    /** The slot of a key, or one past the last slot (0 in a table never used) when it is not there. */
    method FindIdx(key: K) returns (idx: nat)
      requires Valid()
      ensures key in contents ==> idx < nodes.Length && nodes[idx] == Node(key, contents[key])
      ensures key !in contents ==> idx == if mask == 0 then 0 else nodes.Length
    {
      hide Valid, Layout;
      var byte: nat;
      idx, byte := KeyToIdx(key);
      ghost var d := 0;
      SearchStarts(key, idx, byte);
      while true
        invariant Searching(key, idx, byte, d) && idx < nodes.Length
        decreases nodes.Length - idx
      {
        var found := IsAt(key, idx, byte, d);
        if found {
          return;
        }
        SearchStep(key, idx, byte, d);
        idx, byte, d := idx + 1, byte + inc, d + 1;
        found := IsAt(key, idx, byte, d);
        if found {
          return;
        }
        SearchStep(key, idx, byte, d);
        idx, byte, d := idx + 1, byte + inc, d + 1;
        if !(byte <= info[idx]) {
          break;
        }
        SearchGoesOn(key, idx, byte, d);
      }
      SearchFails(key, idx, byte, d);
      idx := if mask == 0 then 0 else nodes.Length;
    }

    lemma SearchStarts(key: K, idx: nat, byte: nat)
      requires Valid() && idx == Layout().home(key) && byte == Layout().Probe(key, 0)
      ensures Searching(key, idx, byte, 0) && idx < nodes.Length && nodes.Length + 8 == info.Length
    {
      assert Layout().Sized(key);
    }

    /** Looks a key up. */
    method Find(key: K) returns (found: bool, idx: nat)
      requires Valid()
      ensures found <==> key in contents
      ensures found ==> idx < nodes.Length && nodes[idx] == Node(key, contents[key])
    {
      hide Layout;
      idx := FindIdx(key);
      found := mask != 0 && idx != nodes.Length;
    }

    // ---------------------------------------------------------- insertion

    /** Moves the nodes from the insertion slot to the free slot up by one, and their bytes one step up. */
    method ShiftUp(free: nat, at: nat)
      requires at < free < nodes.Length < info.Length
      requires forall i :: at <= i < free ==> info[i] + inc <= 0xFF
      modifies `maxAllowed, info, nodes
      ensures forall i :: 0 <= i < nodes.Length ==>
        nodes[i] == if at < i <= free then old(nodes[i - 1]) else old(nodes[i])
      ensures forall i :: 0 <= i < info.Length ==>
        info[i] == if at < i <= free then old(info[i - 1]) + inc else old(info[i])
      ensures maxAllowed == 0 || (maxAllowed == old(maxAllowed) && forall i :: at < i <= free ==> info[i] + inc <= 0xFF)
      ensures maxAllowed == 0 ==> old(maxAllowed) == 0 || exists i :: at < i <= free && info[i] + inc > 0xFF
    {
      ShiftNodesUp(free, at);
      ShiftInfoUp(free, at);
    }

    method ShiftNodesUp(free: nat, at: nat)
      requires at < free < nodes.Length
      modifies nodes
      ensures forall i :: 0 <= i < nodes.Length ==>
        nodes[i] == if at < i <= free then old(nodes[i - 1]) else old(nodes[i])
    {
      var idx := free;
      while idx != at
        invariant at <= idx <= free
        invariant forall i :: 0 <= i < nodes.Length ==>
          nodes[i] == if idx < i <= free then old(nodes[i - 1]) else old(nodes[i])
      {
        nodes[idx] := nodes[idx - 1];
        idx := idx - 1;
      }
    }

    method ShiftInfoUp(free: nat, at: nat)
      requires at < free < info.Length
      requires forall i :: at <= i < free ==> info[i] + inc <= 0xFF
      modifies `maxAllowed, info
      ensures forall i :: 0 <= i < info.Length ==>
        info[i] == if at < i <= free then old(info[i - 1]) + inc else old(info[i])
      ensures maxAllowed == 0 || (maxAllowed == old(maxAllowed) && forall i :: at < i <= free ==> info[i] + inc <= 0xFF)
      ensures maxAllowed == 0 ==> old(maxAllowed) == 0 || exists i :: at < i <= free && info[i] + inc > 0xFF
    {
      var idx := free;
      ghost var full := 0;
      while idx != at
        invariant at <= idx <= free
        invariant forall i :: 0 <= i < info.Length ==>
          info[i] == if idx < i <= free then old(info[i - 1]) + inc else old(info[i])
        invariant maxAllowed == 0 || maxAllowed == old(maxAllowed)
        invariant maxAllowed == 0 || forall i :: idx < i <= free ==> info[i] + inc <= 0xFF
        invariant maxAllowed == 0 ==> old(maxAllowed) == 0 || (idx < full <= free && info[full] + inc > 0xFF)
      {
        info[idx] := (info[idx - 1] + inc) % 0x100;
        if info[idx] + inc > 0xFF {
          maxAllowed, full := 0, idx;
        }
        idx := idx - 1;
      }
    }

    /** A search that has met only taken slots, each with at least the byte expected there. */
    ghost predicate Approaching(key: K, idx: nat, byte: nat, d: nat)
      requires info.Length >= nodes.Length
      reads this, info, nodes
    {
      && Searching(key, idx, byte, d) && idx <= nodes.Length
      && (forall i :: Layout().home(key) <= i < idx ==> nodes[i].Node?)
      && (d > 0 ==> Layout().Probe(key, d - 1) <= info[idx - 1])
    }

    lemma ApproachStarts(key: K, idx: nat, byte: nat)
      requires Valid() && idx == Layout().home(key) && byte == Layout().Probe(key, 0)
      ensures Approaching(key, idx, byte, 0) && nodes.Length + 8 == info.Length
    {
      SearchStarts(key, idx, byte);
    }

    /** One slot further, past a taken slot that does not hold the key. */
    lemma ApproachStep(key: K, idx: nat, byte: nat, d: nat)
      requires Valid() && Approaching(key, idx, byte, d) && byte <= info[idx]
      requires idx < nodes.Length && nodes[idx].Node? ==> nodes[idx].key != key
      ensures Approaching(key, idx + 1, byte + inc, d + 1)
    {
      hide Ordered, Lists, Homes, InfoBits;
      SearchGoesOn(key, idx, byte, d);
      SearchStep(key, idx, byte, d);
      VacantByte(Layout(), idx);
    }

    /** A byte other than the expected one: the key is not in this slot. */
    lemma OtherByte(key: K, idx: nat, byte: nat, d: nat)
      requires Valid() && Searching(key, idx, byte, d) && byte != info[idx]
      ensures idx < nodes.Length && nodes[idx].Node? ==> nodes[idx].key != key
    {
      hide Marked, Ordered, Lists, Homes, InfoBits;
      if idx < nodes.Length && nodes[idx].Node? && nodes[idx].key == key {
        ByteTells(Layout(), key, d);
      }
    }

    /** After a slot with exactly the expected byte, no greater one than expected follows. */
    lemma NextByte(idx: nat, byte: nat)
      requires Valid() && idx < nodes.Length && byte == info[idx] && inc <= byte
      ensures nodes.Length + 8 == info.Length && info[idx + 1] <= byte + inc
    {
      hide Marked, Lists, Homes, InfoBits;
      assert Layout().info[idx + 1] == info[idx + 1];
    }

    /** The first free slot from the insertion slot on. */
    method FreeSlot(key: K, at: nat, ghost d: nat) returns (free: nat)
      requires Valid() && at == Layout().home(key) + d
      requires forall i :: Layout().home(key) <= i < at ==> i < nodes.Length && nodes[i].Node?
      ensures at <= free < nodes.Length && nodes[free].Vacant? && forall i :: at <= i < free ==> nodes[i].Node?
    {
      hide Ordered, Lists, Homes, InfoBits;
      ghost var t := Layout();
      assert t.Sized(key);
      FreeSlotAhead(t, slot, contents, t.home(key));
      ghost var e :| t.home(key) <= e < |t.nodes| && t.nodes[e].Vacant?;
      free := at;
      while info[free] != 0
        invariant at <= free <= e
        invariant forall i :: at <= i < free ==> nodes[i].Node?
        decreases e - free
      {
        VacantByte(t, free);
        VacantByte(t, e);
        free := free + 1;
      }
      VacantByte(t, free);
    }

    /** Makes room at the insertion slot and writes the new node and its byte there. */
    method PlaceNode(node: Slot<K, V>, at: nat, free: nat, byte: nat)
      requires at <= free < nodes.Length < info.Length && Fitting(Layout(), inc) && byte <= 0xFF
      modifies `maxAllowed, info, nodes
      ensures Raised(old(Layout()), Layout(), at, free, byte, node)
      ensures maxAllowed == 0 || (maxAllowed == old(maxAllowed) && Fitting(Layout(), inc))
      ensures maxAllowed == 0 ==> old(maxAllowed) == 0 || !Fitting(Layout(), inc)
    {
      hide Raised;
      ghost var t := Layout();
      RoomToRaise(t, at, free);
      ghost var full := at;  // a byte without room, if there is one
      if byte + inc > 0xFF {
        maxAllowed := 0;
      }
      if free != at {
        ghost var open := maxAllowed != 0;
        ShiftUp(free, at);
        if open && maxAllowed == 0 {
          full :| at < full <= free && info[full] + inc > 0xFF;
        }
      }
      info[at] := byte;
      nodes[at] := node;
      HasRaised(t, at, free, byte, node);
      if maxAllowed == 0 && old(maxAllowed) != 0 {
        NotFitting(full);
      }
    }

    lemma NotFitting(i: nat)
      requires i < info.Length && info[i] + inc > 0xFF
      ensures !Fitting(Layout(), inc)
    {
      assert Layout().info[i] == info[i];
    }

    /** The arrays after a shift up, as the tables t before and Layout() now. */
    lemma HasRaised(t: Tab<K, V>, at: nat, free: nat, byte: nat, node: Slot<K, V>)
      requires t == Layout().(info := t.info, nodes := t.nodes) && |t.info| == info.Length && |t.nodes| == nodes.Length
      requires at <= free < nodes.Length < info.Length
      requires forall i :: 0 <= i < info.Length ==> info[i] == RaisedByte(t, at, free, byte, i)
      requires forall i :: 0 <= i < nodes.Length ==> nodes[i] == RaisedNode(t, at, free, node, i)
      ensures Raised(t, Layout(), at, free, byte, node)
    {
      assert forall i :: 0 <= i < info.Length ==> Layout().info[i] == RaisedByte(t, at, free, byte, i);
      assert forall i :: 0 <= i < nodes.Length ==> Layout().nodes[i] == RaisedNode(t, at, free, node, i);
    }

    /** The new pair joins the table. */
    method InsertAt(key: K, value: V, at: nat, byte: nat, ghost d: nat)
      requires Valid() && Approaching(key, at, byte, d) && info[at] < byte
      requires key !in contents && |contents| < Allowed(mask + 1) && Fitting(Layout(), inc)
      modifies this, info, nodes
      ensures Valid() && contents == old(contents)[key := value]
      ensures maxAllowed == 0 ==> old(maxAllowed) == 0 || !Fitting(Layout(), inc)
      ensures unchanged(`multiplier, `info, `nodes, `mask, `inc, `shift)
    {
      hide WellFormed, Fitting, Homes, InfoBits, Raised, SlotsRaised;
      ghost var t, s := Layout(), slot;
      var free := FreeSlot(key, at, d);
      InsertionHere(key, at, byte, d, free);
      PlaceNode(Node(key, value), at, free, byte);
      InsertionSound(t, Layout(), s, contents, key, value, d, free);
      Counted(contents, key, value);
      numElements := numElements + 1;
      slot, contents := SlotsRaised(slot, key, at, free), contents[key := value];
    }

    lemma InsertionHere(key: K, at: nat, byte: nat, d: nat, free: nat)
      requires Valid() && Approaching(key, at, byte, d) && info[at] < byte
      requires at <= free < nodes.Length && Fitting(Layout(), inc)
      ensures Framed(Layout()) && InsertionPoint(Layout(), key, d) && Layout().Probe(key, d) == byte <= 0xFF
      ensures nodes.Length < info.Length
    {
      hide Marked, Ordered, Lists, Homes, InfoBits;
      ByteFits(Layout(), key, d);
    }

    // ---------------------------------------------------------- one hash bit less

    /** Halves the eight bytes from i on, as one word. */
    method HalveWord(i: nat)
      requires i + 8 <= info.Length && forall j :: i <= j < i + 8 ==> info[j] <= 0xFF
      modifies info
      ensures forall j :: 0 <= j < info.Length ==> info[j] == if i <= j < i + 8 then old(info[j]) / 2 else old(info[j])
    {
      var bytes := info[i..i + 8];
      WordHalving(bytes, 8);
      var halved := Bytes(Masked(Word(bytes) / 2, 8), 8);
      forall j | 0 <= j < 8 {
        info[i + j] := halved[j];
      }
    }

    method HalveInfo()
      requires nodes.Length + 8 == info.Length && forall j :: 0 <= j < info.Length ==> info[j] <= 0xFF
      requires forall j :: nodes.Length < j < info.Length ==> info[j] == 0
      modifies info
      ensures forall j :: 0 <= j < info.Length ==> info[j] == if j == nodes.Length then 1 else old(info[j]) / 2
    {
      var i := 0;
      while i < nodes.Length
        invariant i <= nodes.Length + 7
        invariant forall j :: 0 <= j < info.Length ==> info[j] == if j < i then old(info[j]) / 2 else old(info[j])
      {
        HalveWord(i);
        i := i + 8;
      }
      info[nodes.Length] := 1;
    }

    /** The step and every info byte halved, one more hash bit dropped. */
    method DropHashBit()
      requires nodes.Length + 8 == info.Length && forall j :: 0 <= j < info.Length ==> info[j] <= 0xFF
      requires forall j :: nodes.Length < j < info.Length ==> info[j] == 0
      modifies `inc, `shift, info
      ensures Halved(old(Layout()), Layout()) && inc == old(inc) / 2 && shift == old(shift) + 1
    {
      ghost var t := Layout();
      inc, shift := inc / 2, shift + 1;
      HalveInfo();
      assert forall j :: 0 <= j < info.Length ==> Layout().info[j] == info[j];
      forall k ensures Layout().bits(k) == t.bits(k) / 2 {
        DropOneMore(mix(k, multiplier) % INFO_BITS, shift - 1);
      }
    }

    lemma BytesInside()
      requires Valid()
      ensures nodes.Length + 8 == info.Length && (forall j :: 0 <= j < info.Length ==> info[j] <= 0xFF)
      ensures forall j :: nodes.Length < j < info.Length ==> info[j] == 0
    {
      assert forall j :: 0 <= j < info.Length ==> Layout().info[j] == info[j];
    }

    /** Makes room in the info bytes by dropping one hash bit, if there is one to drop. */
    method TryIncreaseInfo() returns (ok: bool)
      requires Valid() && mask != 0
      modifies `inc, `shift, `maxAllowed, info
      ensures Valid() && (ok <==> 2 < old(inc))
      ensures if ok then maxAllowed == Allowed(mask + 1)
        else maxAllowed == old(maxAllowed) && inc == old(inc) && Layout() == old(Layout())
    {
      hide WellFormed, Homes, InfoBits, Halved, Fitting, DropBits;
      if inc <= 2 {
        return false;
      }
      ghost var t := Layout();
      StepIsEven(shift);
      BytesInside();
      DropHashBit();
      HalvingSound(t, Layout(), slot, contents);
      maxAllowed := Allowed(mask + 1);
      ok := true;
    }

    // ---------------------------------------------------------- growing

    /** A table of the given size with nothing in it. */
    method InitData(size: nat)
      requires 1 < size && multiplier % 2 == 1
      modifies this
      ensures Valid() && contents == map[] && mask == size - 1
      ensures maxAllowed == Allowed(size) && multiplier == old(multiplier)
      ensures fresh(info) && fresh(nodes)
    {
      hide WellFormed, Fitting, Layout, Allowed;
      numElements, mask, maxAllowed := 0, size - 1, Allowed(size);
      nodes := new Slot<K, V>[Slots(size)](_ => Vacant);
      info := new nat[Slots(size) + 8](i => if i == Slots(size) then 1 else 0);
      inc, shift := 0x20, 0;
      slot, contents := map[], map[];
      JustCreated(size);
    }

    lemma JustCreated(size: nat)
      requires 1 < size && mask == size - 1 && inc == 0x20 && shift == 0
      requires nodes.Length == Slots(size) && info.Length == nodes.Length + 8
      requires forall i :: 0 <= i < nodes.Length ==> nodes[i] == Vacant
      requires forall i :: 0 <= i < info.Length ==> info[i] == if i == nodes.Length then 1 else 0
      ensures WellFormed(Layout(), map[], map[]) && Fitting(Layout(), inc)
    {
      forall k ensures Layout().Sized(k) {
        AllSized(Layout(), mix, multiplier, shift, k);
      }
      EmptySound(Layout());
    }

    /** Where a key known to be new is to be inserted. */
    method Locate(key: K) returns (idx: nat, byte: nat, ghost d: nat)
      requires Valid() && key !in contents
      ensures nodes.Length + 8 == info.Length && Approaching(key, idx, byte, d) && info[idx] < byte
    {
      hide Marked, Ordered, Lists, Homes, InfoBits, Layout, Valid;
      idx, byte := KeyToIdx(key);
      d := 0;
      ApproachStarts(key, idx, byte);
      while byte <= info[idx]
        invariant nodes.Length + 8 == info.Length && Approaching(key, idx, byte, d)
        decreases nodes.Length - idx
      {
        SearchGoesOn(key, idx, byte, d);
        NotHeld(key, idx);
        ApproachStep(key, idx, byte, d);
        idx, byte, d := idx + 1, byte + inc, d + 1;
      }
    }

    /** Some byte has no room for a step and no info bit is left to drop. */
    ghost predicate Exhausted()
      reads this
    {
      maxAllowed == 0 && inc <= 2
    }

    /** The allowance is withdrawn only while some byte is full; erasing may leave it withdrawn. */
    ghost predicate Allowing()
      reads this, info, nodes
    {
      mask != 0 && maxAllowed == 0 ==> !Fitting(Layout(), inc)
    }

    /** A table is exhausted exactly when the homes of its keys crowd somewhere. */
    lemma ExhaustedIffCrowded()
      requires Valid() && mask != 0 && Allowing()
      ensures Exhausted() <==> Crowded(Layout().home, contents)
    {
      CrowdedIsExhausted();
      if Exhausted() {
        assert Layout().inc == 2;
        FullIffCrowded(Layout(), slot, contents);
      }
    }

    lemma CrowdedIsExhausted()
      requires Valid() && mask != 0
      ensures Crowded(Layout().home, contents) ==> Exhausted()
    {
      if maxAllowed != 0 || 2 < inc {
        RoomIsUncrowded(Layout(), slot, contents);
      }
    }

    /** Inserts a pair whose key is known to be new; fails if the bytes have no room left. */
    method InsertMove(key: K, value: V) returns (ok: bool)
      requires Valid() && mask != 0 && key !in contents && |contents| < Allowed(mask + 1)
      modifies this, info, nodes
      ensures Valid() && contents == if ok then old(contents)[key := value] else old(contents)
      ensures ok <==> old(maxAllowed) != 0 || 2 < old(inc)
      ensures ok || old(Allowing()) ==> Allowing()
      ensures !ok ==> Exhausted() && Layout() == old(Layout()) && inc == old(inc) && maxAllowed == old(maxAllowed)
      ensures unchanged(`multiplier, `info, `nodes, `mask)
    {
      hide WellFormed, Layout, Fitting, Approaching;
      DoublingAllows(mask + 1);
      if maxAllowed == 0 {
        var increased := TryIncreaseInfo();
        if !increased {
          return false;
        }
      }
      var idx, byte;
      ghost var d;
      idx, byte, d := Locate(key);
      InsertAt(key, value, idx, byte, d);
      ok := true;
    }

    lemma NotHeld(key: K, idx: nat)
      requires Valid() && key !in contents
      ensures idx < nodes.Length && nodes[idx].Node? ==> nodes[idx].key != key
    {
    }

    /**
     Moves every pair into a fresh table of the given size, hashed with the given
     multiplier. Fails when some byte runs out of room, which is when the pairs moved so far
     crowd; they stay, the others are lost.
     */
    method RehashPowerOfTwo(size: nat, nextMultiplier: nat) returns (ok: bool)
      requires Valid() && mask != 0 && 1 < size && |contents| <= Allowed(size) && nextMultiplier % 2 == 1
      modifies this, info, nodes
      ensures Valid() && mask == size - 1 && fresh(info) && fresh(nodes)
      ensures multiplier == nextMultiplier
      ensures ok <==> MovesAll(Homes(mix, nextMultiplier, size), old(slot), old(contents))
      ensures if ok then contents == old(contents) else Lost(contents, old(contents))
      ensures Allowing()
    {
      hide WellFormed, Layout, Fitting, Moved, Lost, Crowded, Homes, MovesAll, MovesBelow, Allowing, Injective, Valid;
      ghost var t, s, m := Layout(), slot, contents;
      ghost var home := Homes(mix, nextMultiplier, size);
      var oldInfo, oldNodes := info, nodes;
      OldTable();
      multiplier := nextMultiplier;
      InitData(size);
      var i := 0;
      NothingMoved(home, s, m);
      JustAllowing();
      while i < oldNodes.Length
        invariant i <= oldNodes.Length && Valid() && mask == size - 1
        invariant fresh(info) && fresh(nodes)
        invariant contents == Moved(s, m, i) && multiplier == nextMultiplier
        invariant Allowing()
        invariant MovesBelow(home, s, m, i)
        invariant oldInfo[..] == t.info && oldNodes[..] == t.nodes
      {
        OldSlot(t, s, m, i);
        if oldInfo[i] != 0 {
          var node := oldNodes[i];
          var moved := MoveNode(node.key, node.value, home, s, m, i);
          if !moved {
            return false;
          }
        } else {
          NoMore(t, s, m, i);
          NoMove(home, t, s, m, i);
        }
        i := i + 1;
      }
      AllMoved(t, s, m);
      AllMove(home, t, s, m);
      ok := true;
    }

    /** Inserts the pair of slot i of the old table into the new one. */
    method MoveNode(key: K, value: V, ghost home: K -> nat, ghost s: map<K, nat>, ghost m: map<K, V>, ghost i: nat)
      returns (ok: bool)
      requires Valid() && mask != 0 && Allowing() && home == Homes(mix, multiplier, mask + 1)
      requires contents == Moved(s, m, i) && MovesBelow(home, s, m, i) && |m| <= Allowed(mask + 1)
      requires Injective(s) && key in m && key in s && s[key] == i && m[key] == value
      modifies this, info, nodes
      ensures Valid() && Allowing() && unchanged(`multiplier, `info, `nodes, `mask)
      ensures if ok then contents == Moved(s, m, i + 1) && MovesBelow(home, s, m, i + 1)
        else !MovesAll(home, s, m) && Lost(contents, m)
    {
      hide Valid, Moved, Lost, Homes, MovesAll, MovesBelow, Allowing, Injective, Allowed, Layout;
      BeforeMove(home, s, m, key, i);
      ok := InsertMove(key, value);
    }

    /** A pair can be moved unless the table is exhausted, which decides the rehash. */
    lemma BeforeMove(home: K -> nat, s: map<K, nat>, m: map<K, V>, k: K, i: nat)
      requires Valid() && mask != 0 && Allowing() && home == Homes(mix, multiplier, mask + 1)
      requires contents == Moved(s, m, i) && MovesBelow(home, s, m, i)
      requires Injective(s) && k in m && k in s && s[k] == i
      ensures k !in contents && |contents| < |m| && Moved(s, m, i + 1) == contents[k := m[k]]
      ensures if Exhausted() then !MovesAll(home, s, m) && Lost(contents, m) else MovesBelow(home, s, m, i + 1)
    {
      hide WellFormed, Layout, Fitting, Moved, Lost, Crowded, Homes, MovesAll, MovesBelow, Injective, Allowing;
      HomesNow();
      ExhaustedIffCrowded();
      OneMore(s, m, k, i);
      NextMove(home, s, m, k, i);
      SomeMoved(s, m, k, i);
    }

    lemma JustAllowing()
      requires maxAllowed != 0
      ensures Allowing()
    {
    }

    lemma HomesNow()
      ensures Layout().home == Homes(mix, multiplier, mask + 1)
    {
    }

    lemma OldTable()
      requires Valid()
      ensures WellFormed(Layout(), slot, contents) && nodes.Length + 8 == info.Length
      ensures info[..] == Layout().info && nodes[..] == Layout().nodes
    {
    }

    /** Room can be made without a rehash: nothing is allocated yet, or there are free slots and an info bit to drop. */
    predicate Expandable()
      reads this
    {
      mask == 0 || (numElements < Allowed(mask + 1) && 2 < inc)
    }

    /** Whether a rehash keeps the size: so full a byte in a table so empty speaks of a bad multiplier. */
    predicate Sparse()
      reads this
    {
      numElements * 2 < Allowed(mask + 1)
    }

    /** The homes after the next rehash: another multiplier, or twice the size. */
    ghost function NextHomes(): K -> nat
      reads this
    {
      Homes(mix, NextMultiplier(), NextSize())
    }

    function NextMultiplier(): nat
      reads this
    {
      if Sparse() then (multiplier + MULTIPLIER_STEP) % WORD64 else multiplier
    }

    function NextSize(): nat
      reads this
      ensures 0 < NextSize()
    {
      if Sparse() then mask + 1 else (mask + 1) * 2
    }

    /** The next rehash goes through. */
    ghost predicate Rehashable()
      reads this
    {
      MovesAll(NextHomes(), slot, contents)
    }

    /** Makes room for another element, in the bytes or in slots; fails exactly when the rehash it starts does. */
    method IncreaseSize() returns (ok: bool)
      requires Valid()
      modifies this, info, nodes
      ensures Valid() && (info == old(info) || fresh(info)) && (nodes == old(nodes) || fresh(nodes))
      ensures ok <==> old(Expandable() || Rehashable())
      ensures if ok then contents == old(contents) else Lost(contents, old(contents))
      ensures Allowing()
      ensures mask + 1 == if old(mask) == 0 then INITIAL_SIZE else old(if Expandable() then mask + 1 else NextSize())
      ensures multiplier == old(if Expandable() then multiplier else NextMultiplier())
      ensures old(Expandable()) ==> numElements < maxAllowed
      ensures ok && !old(Expandable()) ==>
        (numElements < maxAllowed || Expandable() <==> !Crowded(old(NextHomes()), contents))
    {
      hide WellFormed, Layout, Fitting, Lost, Allowed, Slots, Homes, Crowded, MovesAll;
      if mask == 0 {
        DoublingAllows(INITIAL_SIZE);
        InitData(INITIAL_SIZE);
        return true;
      }
      DoublingAllows(mask + 1);
      if numElements < Allowed(mask + 1) {
        var increased := TryIncreaseInfo();
        if increased {
          return true;
        }
      }
      WithinCapacity();
      if numElements * 2 < Allowed(mask + 1) {
        // badly distributed: try another hash multiplier
        ok := RehashPowerOfTwo(mask + 1, (multiplier + MULTIPLIER_STEP) % WORD64);
      } else {
        ok := RehashPowerOfTwo((mask + 1) * 2, multiplier);
      }
      HomesNow();
      ExhaustedIffCrowded();
    }

    lemma WithinCapacity()
      requires Valid()
      ensures |contents| <= Allowed(mask + 1)
    {
    }

    /** Where a key is, or where it is to be inserted. */
    method Search(key: K) returns (found: bool, idx: nat, byte: nat, ghost d: nat)
      requires Valid()
      ensures nodes.Length + 8 == info.Length
      ensures found <==> key in contents
      ensures found ==> idx < nodes.Length && nodes[idx] == Node(key, contents[key])
      ensures !found ==> Approaching(key, idx, byte, d) && info[idx] < byte
    {
      hide WellFormed, Layout, Fitting, Valid, Approaching, Searching;
      idx, byte := KeyToIdx(key);
      d := 0;
      ApproachStarts(key, idx, byte);
      while byte < info[idx]
        invariant nodes.Length + 8 == info.Length && idx < info.Length && Approaching(key, idx, byte, d)
        decreases nodes.Length - idx
      {
        PassSlot(key, idx, byte, d);
        idx, byte, d := idx + 1, byte + inc, d + 1;
      }
      while byte == info[idx]
        invariant nodes.Length + 8 == info.Length && idx < info.Length
        invariant Approaching(key, idx, byte, d) && info[idx] <= byte
        decreases nodes.Length - idx
      {
        found := ApproachedAt(key, idx, byte, d);
        if found {
          return;
        }
        idx, byte, d := idx + 1, byte + inc, d + 1;
      }
      ApproachFails(key, idx, byte, d);
      found := false;
    }

    /** A slot with a greater byte than expected does not hold the key and is passed by. */
    lemma PassSlot(key: K, idx: nat, byte: nat, d: nat)
      requires Valid() && info.Length >= nodes.Length && Approaching(key, idx, byte, d) && byte < info[idx]
      ensures idx < nodes.Length && nodes.Length + 8 == info.Length && Approaching(key, idx + 1, byte + inc, d + 1)
    {
      hide Marked, Ordered, Lists;
      OtherByte(key, idx, byte, d);
      SearchGoesOn(key, idx, byte, d);
      ApproachStep(key, idx, byte, d);
    }

    /** The test of a slot with exactly the expected byte. */
    method ApproachedAt(key: K, idx: nat, byte: nat, ghost d: nat) returns (found: bool)
      requires Valid() && info.Length >= nodes.Length && Approaching(key, idx, byte, d) && byte == info[idx]
      ensures idx < nodes.Length && nodes.Length + 8 == info.Length
      ensures found ==> key in contents && nodes[idx] == Node(key, contents[key])
      ensures !found ==> Approaching(key, idx + 1, byte + inc, d + 1) && info[idx + 1] <= byte + inc
    {
      hide Marked, Ordered, Lists;
      SearchGoesOn(key, idx, byte, d);
      found := IsAt(key, idx, byte, d);
      if !found {
        NextByte(idx, byte);
        ApproachStep(key, idx, byte, d);
      }
    }

    lemma ApproachFails(key: K, idx: nat, byte: nat, d: nat)
      requires Valid() && info.Length >= nodes.Length && Approaching(key, idx, byte, d) && info[idx] < byte
      ensures key !in contents
    {
      SearchFails(key, idx, byte, d);
    }

    /** Too full for another element as it is. */
    predicate Full()
      reads this
    {
      maxAllowed <= numElements
    }

    /**
     Inserts a pair unless the key is there already. A full table grows first. If the rehash that
     takes fails, so does the insertion, and pairs are lost; if it goes through and leaves no crowd,
     the pair goes in; a crowd it leaves makes the table grow again, up to 256 times.
     */
    method TryEmplace(key: K, value: V) returns (state: InsertionState)
      requires Valid()
      modifies this, info, nodes
      ensures Valid()
      ensures state == KeyFound <==> key in old(contents)
      ensures state == KeyFound ==> contents == old(contents)
      ensures state == NewNode ==> contents == old(contents)[key := value] && Allowing()
      ensures state == OverflowError ==> PartOf(contents, old(contents))
      ensures state == OverflowError ==>
        old(Full() && !Expandable() && (Rehashable() ==> Crowded(NextHomes(), contents)))
      ensures key !in old(contents) && old(Full() && !Expandable() && !Rehashable()) ==>
        state == OverflowError && Lost(contents, old(contents))
      ensures |old(contents)| <= 126 ==> state != OverflowError
      ensures |old(contents)| <= 127 && state == OverflowError ==> contents == old(contents)
      ensures state == NewNode && old(Full() && !Expandable() ==> !Crowded(NextHomes(), contents)) ==>
        multiplier == old(if Full() && !Expandable() then NextMultiplier() else multiplier)
      ensures (info == old(info) || fresh(info)) && (nodes == old(nodes) || fresh(nodes))
    {
      hide WellFormed, Layout, Fitting, Approaching, NextHomes, Crowded, MovesAll, Allowed;
      ghost var expandable, rehashable, crowded := Expandable(), Rehashable(), Crowded(NextHomes(), contents);
      ghost var next := NextMultiplier();
      if |contents| <= 126 {
        FewAreUncrowded(NextHomes(), contents);
      }
      for i := 0 to 256
        invariant i == 0 ==> unchanged(this)
        invariant i > 0 ==> old(Full()) && key !in contents && (expandable || rehashable)
        invariant i == 1 && expandable ==> numElements < maxAllowed && multiplier == old(multiplier)
        invariant i == 1 && !expandable ==>
          multiplier == next && (numElements < maxAllowed || Expandable() <==> !crowded)
        invariant i == 2 ==> !expandable && (!crowded ==> numElements < maxAllowed && multiplier == next)
        invariant i > 2 ==> !expandable && crowded
        invariant Valid() && contents == old(contents)
        invariant (info == old(info) || fresh(info)) && (nodes == old(nodes) || fresh(nodes))
      {
        var found, idx, byte;
        ghost var d;
        found, idx, byte, d := Search(key);
        if found {
          return KeyFound;
        }
        if numElements >= maxAllowed {
          if |contents| <= 127 {
            DistinctSlots();
            FewMove(NextHomes(), slot, contents);
          }
          var increased := IncreaseSize();
          if !increased {
            return OverflowError;
          }
        } else {
          InsertAt(key, value, idx, byte, d);
          return NewNode;
        }
      }
      state := OverflowError;
    }

    // ---------------------------------------------------------- removal

    /** Moves the nodes behind a removed one down, up to one that is empty or at home. */
    method ShiftDown(at: nat) returns (ghost last: nat)
      requires at < nodes.Length < info.Length && info[nodes.Length] < 2 * inc
      requires forall i :: 0 <= i < info.Length ==> info[i] <= 0xFF
      modifies info, nodes
      ensures at <= last < nodes.Length && old(info[last + 1]) < 2 * inc
      ensures forall i :: at < i <= last ==> 2 * inc <= old(info[i])
      ensures forall i :: 0 <= i < info.Length ==>
        info[i] == if at <= i < last then old(info[i + 1]) - inc else if i == last then 0 else old(info[i])
      ensures forall i :: 0 <= i < nodes.Length ==>
        nodes[i] == if at <= i < last then old(nodes[i + 1]) else if i == last then Vacant else old(nodes[i])
    {
      var idx := at;
      while info[idx + 1] >= 2 * inc
        invariant at <= idx < nodes.Length
        invariant forall i :: at < i <= idx ==> 2 * inc <= old(info[i])
        invariant forall i :: 0 <= i < info.Length ==>
          info[i] == if at <= i < idx then old(info[i + 1]) - inc else old(info[i])
        invariant forall i :: 0 <= i < nodes.Length ==>
          nodes[i] == if at <= i < idx then old(nodes[i + 1]) else old(nodes[i])
        decreases nodes.Length - idx
      {
        assert info[idx + 1] == old(info[idx + 1]);
        assert 0 <= info[idx + 1] - inc < 0x100;
        info[idx] := (info[idx + 1] - inc) % 0x100;
        nodes[idx] := nodes[idx + 1];
        idx := idx + 1;
      }
      info[idx] := 0;
      nodes[idx] := Vacant;
      last := idx;
    }

    /** Removes the element in a slot. */
    method RemoveAt(key: K, idx: nat)
      requires Valid() && key in contents && key in slot && slot[key] == idx
      modifies this, info, nodes
      ensures Valid() && contents == old(contents) - {key}
      ensures unchanged(`multiplier, `info, `nodes, `mask, `maxAllowed, `inc, `shift)
    {
      hide WellFormed, Fitting, Homes, InfoBits, Movable, Lowered, SlotsLowered;
      ghost var t, s, m := Layout(), slot, contents;
      ghost var margin := if maxAllowed == 0 then 0 else inc;
      MayRemove(key, idx);
      ghost var last := ShiftDown(idx);
      numElements := numElements - 1;
      HasLowered(t, idx, last);
      RemovalSound(t, Layout(), s, m, key, last, margin);
      slot, contents := SlotsLowered(s, key, idx, last), m - {key};
    }

    lemma MayRemove(key: K, idx: nat)
      requires Valid() && key in contents && key in slot && slot[key] == idx
      ensures idx < nodes.Length < info.Length && nodes[idx].Node? && info[nodes.Length] < 2 * inc
      ensures (forall i :: 0 <= i < info.Length ==> info[i] <= 0xFF) && 0 < |contents|
      ensures Fitting(Layout(), if maxAllowed == 0 then 0 else inc)
    {
      BytesInside();
      assert Layout().info[nodes.Length] == info[nodes.Length];
    }

    /** The arrays after a shift down, as the tables t before and Layout() now. */
    lemma HasLowered(t: Tab<K, V>, at: nat, last: nat)
      requires t == Layout().(info := t.info, nodes := t.nodes) && |t.info| == info.Length && |t.nodes| == nodes.Length
      requires at <= last < nodes.Length < info.Length && t.nodes[at].Node?
      requires t.info[last + 1] < 2 * t.inc && forall i :: at < i <= last ==> 2 * inc <= t.info[i]
      requires forall i :: 0 <= i < info.Length ==> info[i] == LoweredByte(t, at, last, i)
      requires forall i :: 0 <= i < nodes.Length ==> nodes[i] == LoweredNode(t, at, last, i)
      ensures Movable(t, at, last) && Lowered(t, Layout(), at, last)
    {
      assert forall i :: 0 <= i < info.Length ==> Layout().info[i] == LoweredByte(t, at, last, i);
      assert forall i :: 0 <= i < nodes.Length ==> Layout().nodes[i] == LoweredNode(t, at, last, i);
    }

    /** Removes a key, if it is there; the number of elements removed. */
    method Erase(key: K) returns (removed: nat)
      requires Valid()
      modifies this, info, nodes
      ensures Valid() && contents == old(contents) - {key}
      ensures removed == if key in old(contents) then 1 else 0
    {
      hide Valid, Layout, Searching;
      var idx: nat, byte: nat;
      idx, byte := KeyToIdx(key);
      ghost var d := 0;
      SearchStarts(key, idx, byte);
      while true
        invariant Searching(key, idx, byte, d) && idx < nodes.Length && nodes.Length + 8 == info.Length
        modifies {}
        decreases nodes.Length - idx
      {
        var found := IsAt(key, idx, byte, d);
        if found {
          break;
        }
        SearchStep(key, idx, byte, d);
        idx, byte, d := idx + 1, byte + inc, d + 1;
        if !(byte <= info[idx]) {
          SearchFails(key, idx, byte, d);
          assert contents - {key} == contents;
          return 0;
        }
        SearchGoesOn(key, idx, byte, d);
      }
      assert key in slot by { SlotsKept(); }
      RemoveAt(key, idx);
      removed := 1;
    }

    lemma DistinctSlots()
      requires Valid()
      ensures Injective(slot)
    {
      hide Marked, Ordered, Fitting;
    }

    lemma SlotsKept()
      requires Valid()
      ensures slot.Keys == contents.Keys
    {
    }
  }

  /** Fewer pairs than there were. */
  ghost predicate Lost<K, V>(m: map<K, V>, n: map<K, V>) {
    PartOf(m, n) && m != n
  }

  ghost predicate PartOf<K, V>(m: map<K, V>, n: map<K, V>) {
    m.Keys <= n.Keys && forall k :: k in m ==> m[k] == n[k]
  }

  /** The pairs standing before slot i. */
  ghost function Moved<K, V>(slot: map<K, nat>, contents: map<K, V>, i: nat): map<K, V> {
    map k | k in contents && k in slot && slot[k] < i :: contents[k]
  }

  /** No pair is moved to a table that crowds already. */
  ghost predicate MovesAll<K, V>(home: K -> nat, slot: map<K, nat>, contents: map<K, V>) {
    forall k :: k in contents && k in slot ==> !Crowded(home, Moved(slot, contents, slot[k]))
  }

  ghost predicate MovesBelow<K, V>(home: K -> nat, slot: map<K, nat>, contents: map<K, V>, i: nat) {
    forall k :: k in contents && k in slot && slot[k] < i ==> !Crowded(home, Moved(slot, contents, slot[k]))
  }

  lemma NextMove<K, V>(home: K -> nat, slot: map<K, nat>, contents: map<K, V>, k: K, i: nat)
    requires Injective(slot) && k in contents && k in slot && slot[k] == i && MovesBelow(home, slot, contents, i)
    ensures !Crowded(home, Moved(slot, contents, i)) ==> MovesBelow(home, slot, contents, i + 1)
    ensures Crowded(home, Moved(slot, contents, i)) ==> !MovesAll(home, slot, contents)
  {
    hide Crowded, Moved;
  }

  lemma NoMove<K(!new), V>(home: K -> nat, t: Tab<K, V>, slot: map<K, nat>, contents: map<K, V>, i: nat)
    requires WellFormed(t, slot, contents) && i < |t.nodes| && t.nodes[i].Vacant?
    requires MovesBelow(home, slot, contents, i)
    ensures MovesBelow(home, slot, contents, i + 1)
  {
    hide Marked, Ordered, Fitting, Crowded, Moved;
  }

  lemma AllMove<K(!new), V>(home: K -> nat, t: Tab<K, V>, slot: map<K, nat>, contents: map<K, V>)
    requires WellFormed(t, slot, contents) && MovesBelow(home, slot, contents, |t.nodes|)
    ensures MovesAll(home, slot, contents)
  {
    hide Marked, Ordered, Fitting, Crowded, Moved;
  }

  /** Up to 127 pairs can always be moved. */
  lemma FewMove<K, V>(home: K -> nat, slot: map<K, nat>, contents: map<K, V>)
    requires |contents| <= 127 && Injective(slot)
    ensures MovesAll(home, slot, contents)
  {
    hide Crowded;
    forall k | k in contents && k in slot ensures !Crowded(home, Moved(slot, contents, slot[k])) {
      OneMore(slot, contents, k, slot[k]);
      FewAreUncrowded(home, Moved(slot, contents, slot[k]));
    }
  }

  /** The pair in the last slot decides: a rehash goes through unless the others crowd in the new table. */
  lemma LastMoveDecides<K, V>(home: K -> nat, slot: map<K, nat>, contents: map<K, V>, k: K)
    requires Injective(slot) && slot.Keys == contents.Keys && k in contents
    requires forall l :: l in contents ==> slot[l] <= slot[k]
    ensures MovesAll(home, slot, contents) <==> !Crowded(home, contents - {k})
  {
    hide Crowded;
    assert Moved(slot, contents, slot[k]) == contents - {k};
    if l :| l in contents && Crowded(home, Moved(slot, contents, slot[l])) {
      MoreCrowd(home, Moved(slot, contents, slot[l]), contents - {k});
    }
  }

  lemma NothingMoved<K, V>(home: K -> nat, slot: map<K, nat>, contents: map<K, V>)
    ensures Moved(slot, contents, 0) == map[] && MovesBelow(home, slot, contents, 0)
  {
  }

  lemma SomeMoved<K, V>(slot: map<K, nat>, contents: map<K, V>, k: K, i: nat)
    requires k in contents && k !in Moved(slot, contents, i)
    ensures Lost(Moved(slot, contents, i), contents)
  {
  }

  lemma OldSlot<K(!new), V>(t: Tab<K, V>, slot: map<K, nat>, contents: map<K, V>, i: nat)
    requires WellFormed(t, slot, contents) && i < |t.nodes|
    ensures i < |t.info| && (t.info[i] != 0 <==> t.nodes[i].Node?)
    ensures t.nodes[i].Node? ==>
      var k := t.nodes[i].key;
      k in contents && k in slot && slot[k] == i && t.nodes[i].value == contents[k]
    ensures Injective(slot)
  {
    VacantByte(t, i);
  }

  lemma OneMore<K, V>(slot: map<K, nat>, contents: map<K, V>, k: K, i: nat)
    requires Injective(slot) && k in contents && k in slot && slot[k] == i
    ensures k !in Moved(slot, contents, i) && Moved(slot, contents, i + 1) == Moved(slot, contents, i)[k := contents[k]]
    ensures |Moved(slot, contents, i)| < |contents|
  {
    var m := Moved(slot, contents, i);
    assert m.Keys <= contents.Keys - {k};
    SubsetSize(m.Keys, contents.Keys - {k});
    assert |m| == |m.Keys| && |contents| == |contents.Keys|;
  }

  lemma NoMore<K(!new), V>(t: Tab<K, V>, slot: map<K, nat>, contents: map<K, V>, i: nat)
    requires WellFormed(t, slot, contents) && i < |t.nodes| && t.nodes[i].Vacant?
    ensures Moved(slot, contents, i + 1) == Moved(slot, contents, i)
  {
    hide Marked, Ordered, Fitting, Allowed;
  }

  lemma AllMoved<K(!new), V>(t: Tab<K, V>, slot: map<K, nat>, contents: map<K, V>)
    requires WellFormed(t, slot, contents)
    ensures Moved(slot, contents, |t.nodes|) == contents
  {
  }

  lemma StepIsEven(shift: nat)
    requires shift <= 4
    ensures
      var step := DropBits(0x20, shift);
      step == 2 || (shift < 4 && step % 2 == 0 && DropBits(0x20, shift + 1) == step / 2)
  {
    assert DropBits(32, 1) == 16 && DropBits(32, 2) == 8 && DropBits(32, 3) == 4 && DropBits(32, 4) == 2;
    DropOneMore(0x20, shift);
  }

  lemma RoomToRaise<K, V>(t: Tab<K, V>, at: nat, free: nat)
    requires Fitting(t, t.inc) && free < |t.info|
    ensures forall i :: at <= i < free ==> t.info[i] + t.inc <= 0xFF
  {
  }
}
