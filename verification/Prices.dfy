/** Zero prices: only an amend can bring one into the book, and this is exactly when it does. */
module Prices {
  import opened Types
  import opened Queues
  import opened BookViews
  import opened Matching
  import opened Sweeping
  import opened Shadows
  import opened Runs
  import opened Risk
  import opened StaleRoutes
  import opened Codec
  import opened Inbound

  lemma RemovePositive(b: BookView, side: Side, i: nat)
    requires PricesPositive(b) && i < |Queue(b, side)|
    ensures PricesPositive(Remove(b, side, i))
  {
  }

  lemma SetQtyPositive(b: BookView, side: Side, i: nat, qty: Qty)
    requires PricesPositive(b) && i < |Queue(b, side)|
    ensures PricesPositive(SetQty(b, side, i, qty))
  {
  }

  lemma RestPositive(b: BookView, side: Side, o: Order)
    requires PricesPositive(b)
    ensures PricesPositive(Rest(b, side, o)) <==> o.price > 0
  {
    var q := Queue(b, side);
    var at := JoinAt(side, q, o.price);
    assert With(q, at, o)[at] == o;
  }

  lemma {:induction false} SweepPositive(b: BookView, t: Taker, qty: Qty)
    requires PricesPositive(b)
    ensures PricesPositive(Sweep(b, t, qty).book)
    decreases |Queue(b, Opposite(t.side))|, qty
  {
    hide PricesPositive, Remove, SetQty;
    if !Stops(b, t, qty) {
      var opp := Opposite(t.side);
      var maker := Queue(b, opp)[0];
      TradedPositive(b, Some(maker.price));
      RemovePositive(b, opp, 0);
      RemovePositive(b.(lastTrade := Some(maker.price)), opp, 0);
      if qty < maker.qty {
        SetQtyPositive(b.(lastTrade := Some(maker.price)), opp, 0, maker.qty - qty);
      }
      SweepPositive(Hit(b, t, qty).book, t, Hit(b, t, qty).remaining);
    }
  }

  lemma TradedPositive(b: BookView, last: Option<Price>)
    requires PricesPositive(b)
    ensures PricesPositive(b.(lastTrade := last))
  {
  }

  lemma {:induction false} StpClearPositive(b: BookView, t: Taker)
    requires PricesPositive(b)
    ensures PricesPositive(StpClear(b, t).book)
    decreases |Queue(b, Opposite(t.side))|
  {
    hide PricesPositive;
    var opp := Opposite(t.side);
    var q := Queue(b, opp);
    if q != [] && Crosses(t.side, t.limit, q[0].price) && q[0].key.account == t.key.account {
      RemovePositive(b, opp, 0);
      StpClearPositive(Remove(b, opp, 0), t);
    }
  }

  lemma {:induction false} CancelEachPositive(b: BookView, a: AccountId, ids: seq<OrderId>)
    requires PricesPositive(b)
    ensures PricesPositive(CancelEach(b, a, ids).book)
    decreases |ids|
  {
    hide PricesPositive, Remove;
    if ids != [] {
      var k := OrderKey(a, ids[0]);
      if Rests(b, k) {
        RemovePositive(b, SideOf(b, k), Find(Queue(b, SideOf(b, k)), k));
        CancelEachPositive(Delete(b, k), a, ids[1..]);
      } else {
        CancelEachPositive(b, a, ids[1..]);
      }
    }
  }

  /** An amend to price zero that leaves something to rest: any buy, or a sell beyond the foreign bid depth. */
  predicate RestsAtZero(b: BookView, c: Command) {
    && c.CancelReplace? && c.newPrice == 0 && c.newQty > 0 && Rests(b, c.key)
    && (SideOf(b, c.key).Buy? || c.newQty > ForeignDepth(b.bids, Taker(c.key, Sell, 0)))
  }

  lemma NoDepthBelowZero(q: seq<Order>, k: OrderKey)
    requires PositiveQueue(q)
    ensures ForeignDepth(q, Taker(k, Buy, 0)) == 0
  {
  }

  lemma ModifyZeroIff(b: BookView, c: Command)
    requires PricesPositive(b) && c.CancelReplace?
    ensures PricesPositive(Modify(b, c.key, c.newPrice, c.newQty).book) <==> !RestsAtZero(b, c)
  {
    hide PricesPositive, PositiveQueue, Sweep, Rest, Remove, SetQty, ForeignDepth;
    var k := c.key;
    if c.newQty != 0 && Rests(b, k) {
      var side := SideOf(b, k);
      var i := Find(Queue(b, side), k);
      PriceAt(b, side, i);
      if c.newPrice == OrderOf(b, k).price && c.newQty <= OrderOf(b, k).qty {
        SetQtyPositive(b, side, i, c.newQty);
      } else {
        var t := Taker(k, side, c.newPrice);
        var b1 := Delete(b, k);
        var r := Sweep(b1, t, c.newQty);
        RemovePositive(b, side, i);
        SweepPositive(b1, t, c.newQty);
        SweepRemaining(b1, t, c.newQty);
        RemoveKeepsOpposite(b, side, i);
        QueuesPositive(b);
        NoDepthBelowZero(b.asks, k);
        RestPositive(r.book, side, Order(k, c.newPrice, r.remaining));
      }
    }
  }

  lemma QueuesPositive(b: BookView)
    requires PricesPositive(b)
    ensures PositiveQueue(b.bids) && PositiveQueue(b.asks)
  {
  }

  lemma PriceAt(b: BookView, side: Side, i: nat)
    requires PricesPositive(b) && i < |Queue(b, side)|
    ensures Queue(b, side)[i].price > 0
  {
  }

  lemma NewOrderPositive(b: BookView, c: Command)
    requires PricesPositive(b) && c.NewOrder? && WellFormed(c)
    ensures PricesPositive(Dispatch(b, c).book)
  {
    hide PricesPositive, Sweep, StpClear, Rest, Fillable, Rests;
    var t := Taker(c.key, c.side, if c.kind.Market? then MarketLimit(c.side) else c.price);
    SweepPositive(b, t, c.qty);
    StpClearPositive(b, t);
    RestPositive(Sweep(b, t, c.qty).book, c.side, Order(c.key, c.price, Sweep(b, t, c.qty).remaining));
    RestPositive(StpClear(b, t).book, c.side, Order(c.key, c.price, c.qty));
  }

  /** From a book of positive prices, a command leaves one if and only if it is not such an amend. */
  lemma ZeroPriceIff(b: BookView, c: Command)
    requires PricesPositive(b) && WellFormed(c)
    ensures PricesPositive(Apply(b, c).book) <==> !RestsAtZero(b, c)
  {
    hide PricesPositive, Modify, CancelEach, Remove, SubmitGtc, SubmitIoc, SubmitFok, SubmitPostOnly, SubmitMarket;
    hide SnapshotEvents, TopOfBook, ForeignDepth, Rests;
    match c {
      case NewOrder(_, _, _, _, _, _, _) => NewOrderPositive(b, c);
      case CancelOrder(k) =>
        if Rests(b, k) {
          RemovePositive(b, SideOf(b, k), Find(Queue(b, SideOf(b, k)), k));
        }
      case CancelReplace(_, _, _) => ModifyZeroIff(b, c);
      case MassCancel(a) => CancelEachPositive(b, a, OpenOrders(b, a));
      case KillSwitch(_) =>
      case Snapshot =>
    }
  }

  /** A run whose amends all name a positive price never rests an order at price zero. */
  lemma {:induction false} RunPricesPositive(config: RiskConfig, s: System, cs: seq<Command>)
    requires PricesPositive(s.book) && AllWellFormed(cs)
    requires forall i :: 0 <= i < |cs| ==> cs[i].CancelReplace? ==> cs[i].newPrice > 0
    ensures PricesPositive(Run(config, s, cs).system.book)
    decreases |cs|
  {
    hide PricesPositive, Apply, PreApplyCheck;
    if cs != [] {
      ZeroPriceIff(s.book, cs[0]);
      RunPricesPositive(config, Process(config, s, cs[0]).system, cs[1..]);
    }
  }

  /** A concrete instance: repricing a resting offer to zero passes the decoder and the gate and rests at zero. */
  lemma ZeroPriceExample()
    ensures PricesPositive(OFFERED)
    ensures var c := CancelReplace(OrderKey(1, 1), 0, 2); DecodeCommand(CommandBytes(c)) == Decoded(c)
    ensures var p := Process(DEFAULT_CONFIG, System(OFFERED, false, 1), CancelReplace(OrderKey(1, 1), 0, 2));
            !PricesPositive(p.system.book)
  {
    var c := CancelReplace(OrderKey(1, 1), 0, 2);
    hide DecodeCommand, CommandBytes;
    DecodeEncoded(c);
    OfferedRests(OrderKey(1, 1));
    assert RestsAtZero(OFFERED, c);
    ZeroPriceIff(OFFERED, c);
  }

  /** Such a run never stops its thread. */
  lemma {:induction false} RunNeverStalls(config: RiskConfig, s: System, cs: seq<Command>)
    requires PricesPositive(s.book) && AllWellFormed(cs)
    requires forall i :: 0 <= i < |cs| ==> cs[i].CancelReplace? ==> cs[i].newPrice > 0
    ensures !Stalled(config, s, cs)
    decreases |cs|
  {
    hide PricesPositive, Apply, PreApplyCheck;
    if cs != [] {
      ZeroPriceIff(s.book, cs[0]);
      RunNeverStalls(config, Process(config, s, cs[0]).system, cs[1..]);
    }
  }

  /** From positive prices, an amend that rests at zero followed by a snapshot stops the thread, and nothing else does. */
  lemma StallIff(config: RiskConfig, s: System, c: Command)
    requires PricesPositive(s.book) && WellFormed(c)
    ensures Stalled(config, s, [c, Snapshot]) <==> PreApplyCheck(config, s.killed, c, s.book).None? && RestsAtZero(s.book, c)
  {
    ZeroPriceIff(s.book, c);
    RejectIsRejected(config, s.killed, c, s.book);
    hide PricesPositive, Apply, PreApplyCheck, RestsAtZero;
    var p := Process(config, s, c);
    assert [c, Snapshot][1..] == [Snapshot] && [Snapshot][1..] == [];
    assert Stalled(config, p.system, [Snapshot]) <==> Stalls(p.system.book, Snapshot) by {
      assert !Stalled(config, Process(config, p.system, Snapshot).system, []);
    }
  }
}
