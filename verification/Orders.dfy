/** Orders and the records the book emits about them. */
module Orders {
  import opened Words

  datatype OrderType = Limit | Market | Stop | StopLimit | TrailingStop | TrailingStopLimit

  datatype TimeInForce = Gtc | Fok | Ioc

  datatype Side = Bid | Ask

  datatype Order = Order(
    kind: OrderType, side: Side, tif: TimeInForce, symbol: nat,
    price: nat, stop: nat, trail: nat, id: nat,
    quantity: nat, executed: nat, open: nat,
    lastPrice: nat, lastQuantity: nat)
  {
    predicate IsAsk() { side == Ask }

    predicate IsFilled() { open == 0 }

    predicate IsTrailing() { kind == TrailingStop || kind == TrailingStopLimit }

    /** Stop and trailing stop orders become market orders, the others limit orders. */
    predicate BecomesMarket() { kind == Stop || kind == TrailingStop }

    /** The recorded price is truncated: the parameter is 32 bits wide. */
    function Execute(p: nat, q: nat): Order
      requires q <= open
    {
      this.(open := open - q, executed := (executed + q) % WORD64, lastPrice := p % WORD32, lastQuantity := q)
    }

    /** Subtracts without clamping, in 64-bit arithmetic, and keeps the cancelled amount as the quantity. */
    function SetQuantity(q: nat): Order {
      this.(quantity := Min(q, open), open := if q <= open then open - q else (open - q) % WORD64)
    }

    /** The order a stop order turns into once its stop price is reached. */
    function Triggered(): Order {
      this.(kind := if BecomesMarket() then Market else Limit, stop := 0, trail := 0)
    }

    /** What the factories check and `validateOrder` asserts, as far as it bears on matching. */
    predicate Admissible() {
      && 0 < open <= MAX64
      && price <= MAX64 && stop <= MAX64 && trail <= MAX64
      && (kind == Limit || kind == StopLimit || kind == TrailingStopLimit ==> 0 < price)
    }

    /** The debug check of the order itself. */
    predicate Validates() {
      && (kind == Limit || kind == StopLimit || kind == TrailingStopLimit ==> 0 < price)
      && (kind == Market || kind == Stop || kind == TrailingStop ==> tif != Gtc)
      && 0 < quantity && lastQuantity <= quantity && executed <= quantity && 0 < id
    }
  }

  datatype Event = Added(order: Order) | Updated(order: Order) | Executed(order: Order) | Deleted(order: Order)

  /** Cancelling is documented to take min(q, open) off the open quantity; the code does so exactly when q <= open. */
  lemma CancelTakesTheMinimumIff(o: Order, q: nat)
    requires 0 < o.open <= MAX64 && q <= MAX64
    ensures o.SetQuantity(q).open == o.open - Min(q, o.open) <==> q <= o.open
    ensures o.SetQuantity(q).open <= MAX64
    ensures o.SetQuantity(q).IsFilled() <==> q == o.open
  {
    if o.open < q {
      assert (o.open - q) % WORD64 == o.open - q + WORD64;
    }
  }

  /** A cancel keeps the order's own debug check exactly when no more than the cancelled amount was executed before. */
  lemma CancelKeepsValidatesIff(o: Order, q: nat)
    requires o.Validates() && 0 < o.open
    ensures o.SetQuantity(q).Validates() <==>
      0 < q && o.executed <= Min(q, o.open) && o.lastQuantity <= Min(q, o.open)
  {
  }

  /** Twice-touched orders show the failure: 100 lots, 60 executed, then 10 cancelled. */
  lemma CancelBreaksValidates()
    ensures
      var o := Order(Limit, Bid, Gtc, 1, 5, 0, 0, 7, 100, 60, 40, 5, 60);
      o.Validates() && !o.SetQuantity(10).Validates()
  {
  }
}
