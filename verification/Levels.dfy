/** Price levels. */
module Levels {
  import opened Orders
  import opened Queues

  /** A list of links without the given one. */
  function Unlink(ids: seq<nat>, id: nat): seq<nat> {
    if ids == [] then []
    else if ids[0] == id then ids[1..]
    else [ids[0]] + Unlink(ids[1..], id)
  }

  /** The orders at one price, linked by id in arrival order, and their cached open quantity. */
  class Level {
    const price: nat
    const side: Side
    ghost const bin: Bin  // the map it is an element of
    var volume: nat
    var orders: seq<nat>

    constructor (price: nat, side: Side, ghost bin: Bin)
      ensures this.price == price && this.side == side && this.bin == bin
      ensures volume == 0 && orders == []
    {
      this.price, this.side, this.bin := price, side, bin;
      volume, orders := 0, [];
    }

    method AddOrder(o: Order)
      requires o.side == side
      modifies this
      ensures orders == old(orders) + [o.id] && volume == old(volume) + o.open
    {
      volume := volume + o.open;
      orders := orders + [o.id];
    }

    /** Unlinks the first order, which the caller has in hand. */
    method PopFront(o: Order)
      requires orders != [] && orders[0] == o.id && o.open <= volume
      modifies this
      ensures orders == old(orders)[1..] && volume == old(volume) - o.open
    {
      volume := volume - o.open;
      orders := orders[1..];
    }

    /** Unlinks an order, wherever it stands in the list. */
    method DeleteOrder(o: Order)
      requires o.open <= volume
      modifies this
      ensures orders == Unlink(old(orders), o.id) && volume == old(volume) - o.open
    {
      volume := volume - o.open;
      orders := Unlink(orders, o.id);
    }

    /** The amount is negative when an over-large cancel has raised the open quantity. */
    method ReduceVolume(amount: int)
      requires amount <= volume
      modifies this`volume
      ensures volume == old(volume) - amount
    {
      volume := volume - amount;
    }
  }
}
