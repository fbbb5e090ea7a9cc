/** Concrete runs from an empty book, under the default limits, that reach the states the exact conditions shut out. */
module Examples {
  import opened Types
  import opened Queues
  import opened BookViews
  import opened Matching
  import opened Risk
  import opened Runs
  import opened StaleRoutes
  import opened Shadows
  import opened Gate
  import opened Caps
  import opened Widths

  const SELL: Command := NewOrder(OrderKey(1, 1), Sell, 100, 2, Limit, Gtc, 0)

  // ---- Steps that trade nothing ----

  lemma Enters(s: System, c: Command)
    requires c.NewOrder? && c.kind.Limit? && c.tif.Gtc? && c.qty > 0 && !Rests(s.book, c.key)
    requires PreApplyCheck(DEFAULT_CONFIG, s.killed, c, s.book).None? && Stops(s.book, Taker(c.key, c.side, c.price), c.qty)
    ensures Process(DEFAULT_CONFIG, s, c).system
            == System(Rest(s.book, c.side, Order(c.key, c.price, c.qty)), s.killed, s.seqNo + 1)
  {
    hide PreApplyCheck, Rests, TopOfBook, Rest, Stops;
  }

  lemma Moves(s: System, c: Command)
    requires c.CancelReplace? && !s.killed && c.newQty > 0 && Rests(s.book, c.key)
    requires c.newPrice != OrderOf(s.book, c.key).price && Queue(s.book, Opposite(SideOf(s.book, c.key))) == []
    ensures Process(DEFAULT_CONFIG, s, c).system
            == System(Rest(Delete(s.book, c.key), SideOf(s.book, c.key), Order(c.key, c.newPrice, c.newQty)), false, s.seqNo + 1)
  {
    hide Rests, TopOfBook, Rest, Remove;
    var side := SideOf(s.book, c.key);
    RemoveKeepsOpposite(s.book, side, Find(Queue(s.book, side), c.key));
    assert Stops(Delete(s.book, c.key), Taker(c.key, side, c.newPrice), c.newQty);
  }

  /** A first order of an account, on a book with an empty side, meets only the notional check. */
  lemma Admitted(b: BookView, c: Command)
    requires c.NewOrder? && c.kind.Limit? && b.lastTrade.None? && (b.bids == [] || b.asks == [])
    requires OpenOrders(b, c.key.account) == [] && AccountNotional(b, c.key.account) == 0 && c.price * c.qty <= 100_000_000
    ensures PreApplyCheck(DEFAULT_CONFIG, false, c, b).None?
  {
    hide AccountNotional, OpenOrders;
  }

  /** One sell order into an empty book gives the book the other examples start from. */
  lemma OfferedReachable()
    ensures Run(DEFAULT_CONFIG, START, [SELL]).system == System(OFFERED, false, 1)
  {
    Admitted(EMPTY, SELL);
    Enters(START, SELL);
    var none: seq<OrderId> := [];
    assert none + [1] == [1] && With([], 0, OFFER) == [OFFER];
    assert Rest(EMPTY, Sell, OFFER) == OFFERED;
    hide Process;
    assert [SELL][1..] == [];
  }

  lemma OneMore(cs: seq<Command>, s: System, c: Command, s': System)
    requires Run(DEFAULT_CONFIG, START, cs).system == s && Process(DEFAULT_CONFIG, s, c).system == s'
    ensures Run(DEFAULT_CONFIG, START, cs + [c]).system == s'
  {
    hide Process;
    RunConcat(DEFAULT_CONFIG, START, cs, [c]);
    assert [c][1..] == [];
  }

  // ---- A level total past 64 bits ----

  const LOT: Order := Order(OrderKey(2, 1), 100, 1)
  const SELL_ONE: Command := NewOrder(LOT.key, Sell, 100, 1, Limit, Gtc, 0)
  const PAIR: BookView := BookView([], [OFFER, LOT], map[1 := [1], 2 := [1]], None)
  const GROW: Command := CancelReplace(OrderKey(1, 1), 100, 0xFFFF_FFFF_FFFF_FFFF)

  lemma PairIs()
    ensures !Rests(OFFERED, LOT.key) && OpenOrders(OFFERED, 2) == [] && AccountNotional(OFFERED, 2) == 0
    ensures Rest(OFFERED, Sell, LOT) == PAIR
  {
    OfferedRests(LOT.key);
    assert OFFERED.asks[1..] == [];
    assert JoinAt(Sell, OFFERED.asks, 100) == 1;
    assert With(OFFERED.asks, 1, LOT) == [OFFER, LOT];
    var none: seq<OrderId> := [];
    assert none + [1] == [1];
  }

  lemma PairReachable()
    ensures Run(DEFAULT_CONFIG, START, [SELL, SELL_ONE]).system == System(PAIR, false, 2)
  {
    hide Process, Run, Rest, Rests, AccountNotional, PreApplyCheck;
    OfferedReachable();
    PairIs();
    Admitted(OFFERED, SELL_ONE);
    Enters(System(OFFERED, false, 1), SELL_ONE);
    OneMore([SELL], System(OFFERED, false, 1), SELL_ONE, System(PAIR, false, 2));
    assert [SELL] + [SELL_ONE] == [SELL, SELL_ONE];
  }

  /** With two small offers at one price, one amend the gate admits takes the level's total past 64 bits. */
  lemma TotalCanOverflow()
    ensures var s := Run(DEFAULT_CONFIG, START, [SELL, SELL_ONE]).system;
            && LevelsFit(s.book)
            && PreApplyCheck(DEFAULT_CONFIG, s.killed, GROW, s.book).None?
            && !LevelsFit(Process(DEFAULT_CONFIG, s, GROW).system.book)
  {
    hide Wf, LevelsFit, Overflows, Process, Run;
    PairReachable();
    PairGrows();
    EmptyWf();
    assert AllWellFormed([SELL, SELL_ONE]);
    RunWf(DEFAULT_CONFIG, START, [SELL, SELL_ONE]);
    TotalsFitIff(DEFAULT_CONFIG, System(PAIR, false, 2), GROW);
  }

  lemma PairGrows()
    ensures LevelsFit(PAIR) && Overflows(PAIR, GROW)
  {
    forall p: Price
      ensures Sum(PAIR.bids, QtyAt(p)) == 0 && Sum(PAIR.asks, QtyAt(p)) == if p == 100 then 3 else 0
    {
      assert PAIR.asks[1..] == [LOT] && [LOT][1..] == [];
      assert Sum([LOT], QtyAt(p)) == QtyAt(p)(LOT) + Sum([], QtyAt(p));
    }
    assert PAIR.asks[0].key == OrderKey(1, 1) && HasKey(PAIR.asks, OrderKey(1, 1));
    assert SideOf(PAIR, OrderKey(1, 1)) == Sell && OrderOf(PAIR, OrderKey(1, 1)) == OFFER;
  }

  // ---- A mid past 64 bits ----

  const FAR: Order := Order(OrderKey(1, 1), 0xFFFF_FFFF_FFFF_FFFF, 2)
  const NEAR: Order := Order(OrderKey(2, 1), 200, 1)
  const REPRICE: Command := CancelReplace(OrderKey(1, 1), 0xFFFF_FFFF_FFFF_FFFF, 2)
  const BUY: Command := NewOrder(NEAR.key, Buy, 200, 1, Limit, Gtc, 0)
  const BUY_LOW: Command := NewOrder(OrderKey(3, 1), Buy, 99, 1, Limit, Gtc, 0)
  const LONE: BookView := BookView([], [FAR], map[1 := [1]], None)
  const WIDE: BookView := BookView([NEAR], [FAR], map[1 := [1], 2 := [1]], None)

  lemma LoneIs()
    ensures Rests(OFFERED, OrderKey(1, 1)) && SideOf(OFFERED, OrderKey(1, 1)) == Sell && OrderOf(OFFERED, OrderKey(1, 1)) == OFFER
    ensures Delete(OFFERED, OrderKey(1, 1)) == BookView([], [], map[1 := []], None)
    ensures Rest(BookView([], [], map[1 := []], None), Sell, FAR) == LONE
  {
    var k := OrderKey(1, 1);
    OfferedRests(k);
    assert SideOf(OFFERED, k) == Sell && Find(OFFERED.asks, k) == 0;
    assert Without(OFFERED.asks, 0) == [];
    assert Dismiss([1], 1) == [];
    var none: seq<OrderId> := [];
    assert none + [1] == [1] && With([], 0, FAR) == [FAR];
  }

  lemma LoneReachable()
    ensures Run(DEFAULT_CONFIG, START, [SELL, REPRICE]).system == System(LONE, false, 2)
  {
    hide Process, Run, Rest, Delete, Rests, SideOf, OrderOf;
    OfferedReachable();
    LoneIs();
    Moves(System(OFFERED, false, 1), REPRICE);
    OneMore([SELL], System(OFFERED, false, 1), REPRICE, System(LONE, false, 2));
    assert [SELL] + [REPRICE] == [SELL, REPRICE];
  }

  lemma WideIs()
    ensures !Rests(LONE, NEAR.key) && OpenOrders(LONE, 2) == [] && AccountNotional(LONE, 2) == 0
    ensures Rest(LONE, Buy, NEAR) == WIDE && Stops(LONE, Taker(NEAR.key, Buy, 200), 1)
  {
    assert LONE.asks[1..] == [];
    var none: seq<OrderId> := [];
    assert none + [1] == [1] && With([], 0, NEAR) == [NEAR];
  }

  lemma WideReachable()
    ensures Run(DEFAULT_CONFIG, START, [SELL, REPRICE, BUY]).system == System(WIDE, false, 3)
  {
    hide Process, Run, Rest, Rests, AccountNotional, PreApplyCheck;
    LoneReachable();
    WideIs();
    Admitted(LONE, BUY);
    Enters(System(LONE, false, 2), BUY);
    OneMore([SELL, REPRICE], System(LONE, false, 2), BUY, System(WIDE, false, 3));
    assert [SELL, REPRICE] + [BUY] == [SELL, REPRICE, BUY];
  }

  lemma WideGate()
    ensures BandReference(WIDE) == Some(99) && OpenOrders(WIDE, 3) == [] && AccountNotional(WIDE, 3) == 0
    ensures InBand(DEFAULT_CONFIG, 99, 99) && !InBand(DEFAULT_CONFIG, (NEAR.price + FAR.price) / 2, 99)
  {
    assert WIDE.bids[1..] == [] && WIDE.asks[1..] == [];
    assert Sum(WIDE.bids, NotionalOf(3)) == NotionalOf(3)(NEAR) + Sum([], NotionalOf(3));
    assert Sum(WIDE.asks, NotionalOf(3)) == NotionalOf(3)(FAR) + Sum([], NotionalOf(3));
  }

  /** After three admitted commands the mid wraps to 99: a bid the true mid would refuse is let through. */
  lemma MidCanWrap()
    ensures var b := Run(DEFAULT_CONFIG, START, [SELL, REPRICE, BUY]).system.book;
            && b.bids == [NEAR] && b.asks == [FAR]
            && BandReference(b) == Some(99)
            && PreApplyCheck(DEFAULT_CONFIG, false, BUY_LOW, b).None?
            && !InBand(DEFAULT_CONFIG, (NEAR.price + FAR.price) / 2, BUY_LOW.price)
  {
    hide Run, BandReference, AccountNotional, OpenOrders, InBand;
    WideReachable();
    WideGate();
  }

  // ---- A notional past 128 bits ----

  const VAST: Order := Order(OrderKey(1, 1), 0xFFFF_FFFF_FFFF_FFFF, 0xFFFF_FFFF_FFFF_FFFF)
  const SWELL: Command := CancelReplace(OrderKey(1, 1), 0xFFFF_FFFF_FFFF_FFFF, 0xFFFF_FFFF_FFFF_FFFF)
  const HUGE: BookView := BookView([], [VAST], map[1 := [1]], None)
  const SLIP: Command := NewOrder(OrderKey(1, 2), Sell, 0x2_0000_0000, 0x1_0000_0000, Limit, Gtc, 0)

  lemma HugeIs()
    ensures Rest(BookView([], [], map[1 := []], None), Sell, VAST) == HUGE
    ensures OpenOrders(HUGE, 1) == [1] && AccountNotional(HUGE, 1) == VAST.price * VAST.qty && BandReference(HUGE).None?
    ensures !Rests(HUGE, SLIP.key)
  {
    var none: seq<OrderId> := [];
    assert none + [1] == [1] && With([], 0, VAST) == [VAST];
    assert HUGE.asks[1..] == [];
    assert Sum(HUGE.asks, NotionalOf(1)) == NotionalOf(1)(VAST) + Sum([], NotionalOf(1));
  }

  lemma HugeReachable()
    ensures Run(DEFAULT_CONFIG, START, [SELL, SWELL]).system == System(HUGE, false, 2)
  {
    hide Process, Run, Rest, Delete, Rests, SideOf, OrderOf, AccountNotional, OpenOrders, BandReference;
    OfferedReachable();
    LoneIs();
    HugeIs();
    Moves(System(OFFERED, false, 1), SWELL);
    OneMore([SELL], System(OFFERED, false, 1), SWELL, System(HUGE, false, 2));
    assert [SELL] + [SWELL] == [SELL, SWELL];
  }

  /** After two admitted commands the gate's sum wraps to 1: an order of notional 2^65 passes a cap of 100 000 000. */
  lemma SumCanWrap()
    ensures var b := Run(DEFAULT_CONFIG, START, [SELL, SWELL]).system.book;
            && AccountNotional(b, 1) < W128
            && SLIP.price * SLIP.qty > DEFAULT_CONFIG.maxNotional
            && AccountNotional(b, 1) + SLIP.price * SLIP.qty == W128 + 1
            && GateSum(AccountNotional(b, 1), SLIP.price * SLIP.qty) == 1
            && PreApplyCheck(DEFAULT_CONFIG, false, SLIP, b).None?
  {
    hide Run, AccountNotional, BandReference, OpenOrders, Rest;
    HugeReachable();
    HugeIs();
  }

  /** A cap so wide that the gate's sum can wrap within it. */
  const WIDEST: RiskConfig := RiskLimits(50, 0xFFFF_FFFF_FFFF_FFFF_FFFF_FFFF_FFFF_FFFF, 10)

  lemma SlipExceeds()
    ensures Exceeds(WIDEST.maxNotional, HUGE, SLIP) && PreApplyCheck(WIDEST, false, SLIP, HUGE).None?
  {
    HugeIs();
    hide AccountNotional, BandReference, OpenOrders, Rests, Rest;
  }

  lemma HugeWithin()
    ensures Within(WIDEST.maxNotional, HUGE)
  {
    forall a
      ensures AccountNotional(HUGE, a) <= WIDEST.maxNotional
    {
      assert HUGE.asks[1..] == [];
      assert Sum(HUGE.asks, NotionalOf(a)) == NotionalOf(a)(VAST) + Sum([], NotionalOf(a));
    }
  }

  /** Under such a cap a new order, with no amend involved, takes its account past it. */
  lemma WideCapCanFail()
    ensures !CapFits(WIDEST) && Wf(HUGE) && NotionalCapped(WIDEST, HUGE)
    ensures !NotionalCapped(WIDEST, Process(WIDEST, System(HUGE, false, 2), SLIP).system.book)
  {
    EmptyWf();
    HugeReachable();
    assert AllWellFormed([SELL, SWELL]);
    hide Wf, Process, Run, Exceeds, PreApplyCheck, AccountNotional;
    RunWf(DEFAULT_CONFIG, START, [SELL, SWELL]);
    HugeWithin();
    SlipExceeds();
    NotionalWithinIff(WIDEST, WIDEST.maxNotional, System(HUGE, false, 2), SLIP);
  }
}
