/** Per-account limits hold over every run, and when an amend can break the notional one. */
module Caps {
  import opened Types
  import opened Queues
  import opened BookViews
  import opened Matching
  import opened Sweeping
  import opened BookStore
  import opened Risk
  import opened Runs
  import opened Shadows
  import opened Totals
  import opened SnapshotTotals
  import opened StaleRoutes

  /** No account has more open orders or more notional than before. */
  ghost predicate NoMore(b': BookView, b: BookView) {
    forall a {:trigger OpenOrders(b', a)} {:trigger AccountNotional(b', a)} ::
      |OpenOrders(b', a)| <= |OpenOrders(b, a)| && AccountNotional(b', a) <= AccountNotional(b, a)
  }

  lemma NoMoreTrans(a: BookView, b: BookView, c: BookView)
    requires NoMore(a, b) && NoMore(b, c)
    ensures NoMore(a, c)
  {
    forall x
      ensures |OpenOrders(a, x)| <= |OpenOrders(c, x)| && AccountNotional(a, x) <= AccountNotional(c, x)
    {
      assert |OpenOrders(a, x)| <= |OpenOrders(b, x)| && |OpenOrders(b, x)| <= |OpenOrders(c, x)|;
    }
  }

  lemma RemoveNoMore(b: BookView, side: Side, i: nat)
    requires i < |Queue(b, side)|
    ensures NoMore(Remove(b, side, i), b)
  {
    forall a
      ensures AccountNotional(Remove(b, side, i), a) <= AccountNotional(b, a)
    {
      RemoveNotional(b, side, i, a);
    }
  }

  lemma SetQtyNoMore(b: BookView, side: Side, i: nat, qty: Qty)
    requires i < |Queue(b, side)| && qty <= Queue(b, side)[i].qty
    ensures NoMore(SetQty(b, side, i, qty), b)
  {
    var o := Queue(b, side)[i];
    assert o.price * qty <= o.price * o.qty;
    forall a
      ensures AccountNotional(SetQty(b, side, i, qty), a) <= AccountNotional(b, a)
    {
      SumUpdate(Queue(b, side), i, o.(qty := qty), NotionalOf(a));
    }
  }

  lemma TradedNoMore(b: BookView, last: Option<Price>)
    ensures NoMore(b.(lastTrade := last), b)
  {
  }

  lemma HitNoMore(b: BookView, t: Taker, qty: Qty)
    requires !Stops(b, t, qty)
    ensures NoMore(Hit(b, t, qty).book, b)
  {
    hide NoMore, Remove, SetQty;
    var opp := Opposite(t.side);
    var maker := Queue(b, opp)[0];
    var traded := b.(lastTrade := Some(maker.price));
    RemoveNoMore(b, opp, 0);
    RemoveNoMore(traded, opp, 0);
    TradedNoMore(b, Some(maker.price));
    if qty < maker.qty {
      SetQtyNoMore(traded, opp, 0, maker.qty - qty);
    }
    NoMoreTrans(Remove(traded, opp, 0), traded, b);
    if qty < maker.qty {
      NoMoreTrans(SetQty(traded, opp, 0, maker.qty - qty), traded, b);
    }
  }

  lemma {:induction false} SweepNoMore(b: BookView, t: Taker, qty: Qty)
    ensures NoMore(Sweep(b, t, qty).book, b) && Sweep(b, t, qty).remaining <= qty
    decreases |Queue(b, Opposite(t.side))|, qty
  {
    if !Stops(b, t, qty) {
      var h := Hit(b, t, qty);
      HitNoMore(b, t, qty);
      SweepNoMore(h.book, t, h.remaining);
      NoMoreTrans(Sweep(h.book, t, h.remaining).book, h.book, b);
    }
  }

  lemma {:induction false} StpClearNoMore(b: BookView, t: Taker)
    ensures NoMore(StpClear(b, t).book, b)
    decreases |Queue(b, Opposite(t.side))|
  {
    var opp := Opposite(t.side);
    var q := Queue(b, opp);
    if q != [] && Crosses(t.side, t.limit, q[0].price) && q[0].key.account == t.key.account {
      RemoveNoMore(b, opp, 0);
      StpClearNoMore(Remove(b, opp, 0), t);
      hide Remove;
      NoMoreTrans(StpClear(Remove(b, opp, 0), t).book, Remove(b, opp, 0), b);
    }
  }

  lemma {:induction false} CancelEachNoMore(b: BookView, a: AccountId, ids: seq<OrderId>)
    ensures NoMore(CancelEach(b, a, ids).book, b)
    decreases |ids|
  {
    if ids != [] {
      var k := OrderKey(a, ids[0]);
      if Rests(b, k) {
        RemoveNoMore(b, SideOf(b, k), Find(Queue(b, SideOf(b, k)), k));
        CancelEachNoMore(Delete(b, k), a, ids[1..]);
        hide Remove;
        NoMoreTrans(CancelEach(Delete(b, k), a, ids[1..]).book, Delete(b, k), b);
      } else {
        CancelEachNoMore(b, a, ids[1..]);
      }
    }
  }

  // ---- The limits ----

  ghost predicate OpenCapped(config: RiskConfig, b: BookView) {
    forall a :: |OpenOrders(b, a)| <= config.maxOpenOrders
  }

  ghost predicate NotionalCapped(config: RiskConfig, b: BookView) {
    forall a :: AccountNotional(b, a) <= config.maxNotional
  }

  lemma NoMoreCapped(config: RiskConfig, b': BookView, b: BookView)
    requires NoMore(b', b)
    ensures OpenCapped(config, b) ==> OpenCapped(config, b')
    ensures NotionalCapped(config, b) ==> NotionalCapped(config, b')
  {
    forall a
      ensures |OpenOrders(b', a)| <= |OpenOrders(b, a)| && AccountNotional(b', a) <= AccountNotional(b, a)
    {
    }
  }

  lemma RestOpenCapped(config: RiskConfig, b: BookView, side: Side, o: Order)
    requires OpenCapped(config, b) && |OpenOrders(b, o.key.account)| < config.maxOpenOrders
    ensures OpenCapped(config, Rest(b, side, o))
  {
    forall a
      ensures |OpenOrders(Rest(b, side, o), a)| <= config.maxOpenOrders
    {
      assert |OpenOrders(b, a)| <= config.maxOpenOrders;
    }
  }

  lemma NewOrderOpenCapped(config: RiskConfig, b: BookView, c: Command)
    requires c.NewOrder? && NewOrderCheck(config, c, b).None? && OpenCapped(config, b)
    ensures OpenCapped(config, Dispatch(b, c).book)
  {
    hide Sweep, StpClear, Rest, NoMore, Fillable, Rests;
    var t := Taker(c.key, c.side, if c.kind.Market? then MarketLimit(c.side) else c.price);
    var r, d := Sweep(b, t, c.qty), StpClear(b, t);
    SweepNoMore(b, t, c.qty);
    StpClearNoMore(b, t);
    NoMoreCapped(config, r.book, b);
    NoMoreCapped(config, d.book, b);
    NoMoreOf(r.book, b, c.key.account);
    NoMoreOf(d.book, b, c.key.account);
    hide OpenCapped;
    if CanRest(c.kind, c.tif) {
      RestOpenCapped(config, r.book, c.side, Order(c.key, c.price, r.remaining));
      RestOpenCapped(config, d.book, c.side, Order(c.key, c.price, c.qty));
    }
  }

  lemma NoMoreOf(b': BookView, b: BookView, a: AccountId)
    requires NoMore(b', b)
    ensures |OpenOrders(b', a)| <= |OpenOrders(b, a)| && AccountNotional(b', a) <= AccountNotional(b, a)
  {
  }

  /** The gate adds this order's notional to its account's without wrapping. */
  ghost predicate SumFits(b: BookView, c: Command) {
    c.NewOrder? && c.kind.Limit? ==> AccountNotional(b, c.key.account) + c.price * c.qty < W128
  }

  lemma NewOrderNotionalCapped(config: RiskConfig, b: BookView, c: Command)
    requires c.NewOrder? && NewOrderCheck(config, c, b).None? && NotionalCapped(config, b) && SumFits(b, c)
    ensures NotionalCapped(config, Dispatch(b, c).book)
  {
    hide Sweep, StpClear, Rest, NoMore, Fillable, Rests, NotionalCapped, AccountNotional, OpenOrders, BandReference;
    var t := Taker(c.key, c.side, if c.kind.Market? then MarketLimit(c.side) else c.price);
    var r, d := Sweep(b, t, c.qty), StpClear(b, t);
    SweepNoMore(b, t, c.qty);
    StpClearNoMore(b, t);
    NoMoreCapped(config, r.book, b);
    NoMoreCapped(config, d.book, b);
    if CanRest(c.kind, c.tif) {
      SmallSum(AccountNotional(b, c.key.account), c.price * c.qty);
      assert AccountNotional(b, c.key.account) + c.price * c.qty <= config.maxNotional;
      RestedWithin(config, r.book, b, c.side, Order(c.key, c.price, r.remaining), c.qty);
      RestedWithin(config, d.book, b, c.side, Order(c.key, c.price, c.qty), c.qty);
    }
  }

  lemma SmallSum(held: nat, incoming: nat)
    requires held + incoming < W128
    ensures GateSum(held, incoming) == held + incoming
  {
  }

  lemma RestedWithin(config: RiskConfig, b': BookView, b: BookView, side: Side, o: Order, qty: Qty)
    requires NoMore(b', b) && NotionalCapped(config, b') && o.qty <= qty
    requires AccountNotional(b, o.key.account) + o.price * qty <= config.maxNotional
    ensures NotionalCapped(config, Rest(b', side, o))
  {
    hide AccountNotional, NotionalCapped;
    assert o.price * o.qty <= o.price * qty;
    NoMoreOf(b', b, o.key.account);
    RestNotionalCapped(config, b', side, o);
  }

  lemma RestNotionalCapped(config: RiskConfig, b: BookView, side: Side, o: Order)
    requires NotionalCapped(config, b) && AccountNotional(b, o.key.account) + o.price * o.qty <= config.maxNotional
    ensures NotionalCapped(config, Rest(b, side, o))
  {
    forall a
      ensures AccountNotional(Rest(b, side, o), a) == AccountNotional(b, a) + NotionalOf(a)(o)
    {
      RestNotional(b, side, o, a);
    }
  }

  // ---- Amends ----

  lemma DeleteOpen(b: BookView, k: OrderKey)
    requires Wf(b) && Rests(b, k)
    ensures NoMore(Delete(b, k), b)
    ensures |OpenOrders(Delete(b, k), k.account)| == |OpenOrders(b, k.account)| - 1
    ensures AccountNotional(Delete(b, k), k.account) == AccountNotional(b, k.account) - OrderOf(b, k).price * OrderOf(b, k).qty
  {
    var side := SideOf(b, k);
    var i := Find(Queue(b, side), k);
    RemoveNoMore(b, side, i);
    RemoveNotional(b, side, i, k.account);
    assert RosterExact(b, k.account);
    assert Queue(b, side)[i].key == k;
    hide QueuesWf;
    DismissSpec(OpenOrders(b, k.account), k.order);
  }

  lemma ModifyOpenCapped(config: RiskConfig, b: BookView, k: OrderKey, newPrice: Price, newQty: Qty)
    requires Wf(b) && OpenCapped(config, b)
    ensures OpenCapped(config, Modify(b, k, newPrice, newQty).book)
  {
    hide Wf, Sweep, Rest, NoMore, Rests, Delete;
    if newQty != 0 && Rests(b, k) {
      var side := SideOf(b, k);
      if newPrice == OrderOf(b, k).price && newQty <= OrderOf(b, k).qty {
        SetQtyNoMore(b, side, Find(Queue(b, side), k), newQty);
        NoMoreCapped(config, SetQty(b, side, Find(Queue(b, side), k), newQty), b);
      } else {
        var b1 := Delete(b, k);
        var r := Sweep(b1, Taker(k, side, newPrice), newQty);
        DeleteOpen(b, k);
        SweepNoMore(b1, Taker(k, side, newPrice), newQty);
        NoMoreCapped(config, b1, b);
        NoMoreCapped(config, r.book, b1);
        NoMoreOf(r.book, b1, k.account);
        RestOpenCapped(config, r.book, side, Order(k, newPrice, r.remaining));
      }
    }
  }

  /** Notional of the taker's own orders a sweep would reach and cancel. */
  function OwnReached(q: seq<Order>, t: Taker, qty: Qty): nat {
    if q == [] || qty == 0 || !Crosses(t.side, t.limit, q[0].price) then 0
    else if q[0].key.account == t.key.account then q[0].price * q[0].qty + OwnReached(q[1..], t, qty)
    else OwnReached(q[1..], t, Monus(qty, q[0].qty))
  }

  lemma HitNotional(b: BookView, t: Taker, qty: Qty)
    requires !Stops(b, t, qty)
    ensures var q := Queue(b, Opposite(t.side));
            var own := if q[0].key.account == t.key.account then q[0].price * q[0].qty else 0;
            AccountNotional(Hit(b, t, qty).book, t.key.account) == AccountNotional(b, t.key.account) - own
  {
    var opp := Opposite(t.side);
    var maker := Queue(b, opp)[0];
    var traded := b.(lastTrade := Some(maker.price));
    RemoveNotional(b, opp, 0, t.key.account);
    RemoveNotional(traded, opp, 0, t.key.account);
    if maker.key.account != t.key.account && qty < maker.qty {
      SumUpdate(Queue(b, opp), 0, maker.(qty := maker.qty - qty), NotionalOf(t.key.account));
    }
  }

  /** A sweep takes from its own account's notional exactly the own orders it reaches. */
  lemma {:induction false} SweepNotional(b: BookView, t: Taker, qty: Qty)
    ensures AccountNotional(Sweep(b, t, qty).book, t.key.account)
            == AccountNotional(b, t.key.account) - OwnReached(Queue(b, Opposite(t.side)), t, qty)
    decreases |Queue(b, Opposite(t.side))|, qty
  {
    hide Hit, AccountNotional;
    if !Stops(b, t, qty) {
      var h := Hit(b, t, qty);
      HitNotional(b, t, qty);
      HitQueue(b, t, qty);
      SweepNotional(h.book, t, h.remaining);
    }
  }

  /** An account's notional after an amend that re-enters, from the book before it. */
  ghost function AmendedNotional(b: BookView, k: OrderKey, newPrice: Price, newQty: Qty): int
    requires Rests(b, k)
  {
    var o, side := OrderOf(b, k), SideOf(b, k);
    var q, t := Queue(b, Opposite(side)), Taker(k, side, newPrice);
    AccountNotional(b, k.account) - o.price * o.qty - OwnReached(q, t, newQty)
    + newPrice * Monus(newQty, ForeignDepth(q, t))
  }

  /**
   * The notional cap is checked only for new orders. From a book within it, an amend that reprices or grows
   * leaves the book within it if and only if the owner's notional, less the old order and the own orders it
   * runs into, plus the part that will rest at the new price, is within it.
   */
  lemma AmendCapIff(config: RiskConfig, b: BookView, k: OrderKey, newPrice: Price, newQty: Qty)
    requires Wf(b) && Rests(b, k) && newQty > 0 && NotionalCapped(config, b)
    requires newPrice != OrderOf(b, k).price || newQty > OrderOf(b, k).qty
    ensures NotionalCapped(config, Modify(b, k, newPrice, newQty).book)
            <==> AmendedNotional(b, k, newPrice, newQty) <= config.maxNotional
  {
    hide Wf, Sweep, Rest, NoMore, Rests, AccountNotional, ForeignDepth, OwnReached, Remove;
    var side := SideOf(b, k);
    var t := Taker(k, side, newPrice);
    var b1 := Delete(b, k);
    var r := Sweep(b1, t, newQty);
    DeleteOpen(b, k);
    RemoveKeepsOpposite(b, side, Find(Queue(b, side), k));
    SweepNoMore(b1, t, newQty);
    NoMoreTrans(r.book, b1, b);
    NoMoreCapped(config, r.book, b);
    SweepNotional(b1, t, newQty);
    SweepRemaining(b1, t, newQty);
    RemainderNotional(config, r.book, t, r.remaining);
  }

  lemma RemainderNotional(config: RiskConfig, b: BookView, t: Taker, remaining: Qty)
    requires NotionalCapped(config, b)
    ensures NotionalCapped(config, RestRemainder(b, t, remaining))
            <==> AccountNotional(b, t.key.account) + t.limit * remaining <= config.maxNotional
  {
    var o := Order(t.key, t.limit, remaining);
    if remaining > 0 {
      forall a
        ensures AccountNotional(Rest(b, t.side, o), a) == AccountNotional(b, a) + NotionalOf(a)(o)
      {
        RestNotional(b, t.side, o, a);
      }
      hide AccountNotional, Rest;
      if NotionalCapped(config, Rest(b, t.side, o)) {
        assert AccountNotional(Rest(b, t.side, o), t.key.account) <= config.maxNotional;
      }
    } else {
      assert t.limit * remaining == 0;
    }
  }

  /** A concrete instance: growing a 2-lot offer at 100 to two million lots passes the gate and breaks the cap. */
  lemma AmendCanExceedCap()
    ensures Wf(OFFERED) && NotionalCapped(DEFAULT_CONFIG, OFFERED)
    ensures var p := Process(DEFAULT_CONFIG, System(OFFERED, false, 1), CancelReplace(OrderKey(1, 1), 100, 2_000_000));
            !NotionalCapped(DEFAULT_CONFIG, p.system.book)
  {
    var k := OrderKey(1, 1);
    OfferedWf();
    OfferedRests(k);
    assert OFFERED.asks[1..] == [];
    forall a
      ensures AccountNotional(OFFERED, a) == if a == 1 then 200 else 0
    {
      assert Sum(OFFERED.asks, NotionalOf(a)) == NotionalOf(a)(OFFER) + Sum([], NotionalOf(a));
    }
    assert OrderOf(OFFERED, k) == OFFER && SideOf(OFFERED, k) == Sell;
    hide AccountNotional, Sum, Modify;
    AmendCapIff(DEFAULT_CONFIG, OFFERED, k, 100, 2_000_000);
  }

  /** An amend that does not raise the order's own notional. */
  ghost predicate Calm(b: BookView, c: Command) {
    c.CancelReplace? && Rests(b, c.key) ==> c.newPrice * c.newQty <= OrderOf(b, c.key).price * OrderOf(b, c.key).qty
  }

  lemma ScaleUp(p: nat, m: nat, n: nat)
    requires m <= n
    ensures p * m <= p * n
  {
  }

  lemma ModifyNotionalCapped(config: RiskConfig, b: BookView, c: Command)
    requires Wf(b) && NotionalCapped(config, b) && c.CancelReplace? && Calm(b, c)
    ensures NotionalCapped(config, Modify(b, c.key, c.newPrice, c.newQty).book)
  {
    hide Wf, Sweep, Rest, NoMore, Rests, AccountNotional, ForeignDepth, OwnReached, Delete;
    var k := c.key;
    if c.newQty != 0 && Rests(b, k) {
      var side := SideOf(b, k);
      if c.newPrice == OrderOf(b, k).price && c.newQty <= OrderOf(b, k).qty {
        SetQtyNoMore(b, side, Find(Queue(b, side), k), c.newQty);
        NoMoreCapped(config, SetQty(b, side, Find(Queue(b, side), k), c.newQty), b);
      } else {
        AmendCapIff(config, b, k, c.newPrice, c.newQty);
        var rests := Monus(c.newQty, ForeignDepth(Queue(b, Opposite(side)), Taker(k, side, c.newPrice)));
        ScaleUp(c.newPrice, rests, c.newQty);
        assert AccountNotional(b, k.account) <= config.maxNotional;
      }
    }
  }

  // ---- Runs ----

  lemma ProcessOpenCapped(config: RiskConfig, s: System, c: Command)
    requires Wf(s.book) && OpenCapped(config, s.book)
    ensures OpenCapped(config, Process(config, s, c).system.book)
  {
    hide Wf, OpenCapped, Modify, CancelEach, Remove, SubmitGtc, SubmitIoc, SubmitFok, SubmitPostOnly, SubmitMarket;
    hide SnapshotEvents, TopOfBook, NewOrderCheck, KillSwitchCheck, NoMore;
    if PreApplyCheck(config, s.killed, c, s.book).None? {
      match c {
        case NewOrder(_, _, _, _, _, _, _) => NewOrderOpenCapped(config, s.book, c);
        case CancelOrder(k) =>
          if Rests(s.book, k) {
            RemoveNoMore(s.book, SideOf(s.book, k), Find(Queue(s.book, SideOf(s.book, k)), k));
            NoMoreCapped(config, Delete(s.book, k), s.book);
          }
        case CancelReplace(k, newPrice, newQty) => ModifyOpenCapped(config, s.book, k, newPrice, newQty);
        case MassCancel(a) =>
          CancelEachNoMore(s.book, a, OpenOrders(s.book, a));
          NoMoreCapped(config, CancelAll(s.book, a).book, s.book);
        case KillSwitch(_) =>
        case Snapshot =>
      }
    }
  }

  /** In every run no account ever has more than the permitted number of open orders. */
  lemma {:induction false} RunOpenCapped(config: RiskConfig, s: System, cs: seq<Command>)
    requires Wf(s.book) && AllWellFormed(cs) && OpenCapped(config, s.book)
    ensures OpenCapped(config, Run(config, s, cs).system.book)
    decreases |cs|
  {
    hide Wf, OpenCapped, Process;
    if cs != [] {
      ProcessWf(config, s, cs[0]);
      ProcessOpenCapped(config, s, cs[0]);
      RunOpenCapped(config, Process(config, s, cs[0]).system, cs[1..]);
    }
  }

  lemma ProcessNotionalCapped(config: RiskConfig, s: System, c: Command)
    requires Wf(s.book) && NotionalCapped(config, s.book) && Calm(s.book, c) && SumFits(s.book, c)
    ensures NotionalCapped(config, Process(config, s, c).system.book)
  {
    hide Wf, NotionalCapped, Calm, Modify, CancelEach, Remove, SubmitGtc, SubmitIoc, SubmitFok, SubmitPostOnly, SubmitMarket;
    hide SnapshotEvents, TopOfBook, NewOrderCheck, KillSwitchCheck, NoMore, SumFits;
    if PreApplyCheck(config, s.killed, c, s.book).None? {
      match c {
        case NewOrder(_, _, _, _, _, _, _) => NewOrderNotionalCapped(config, s.book, c);
        case CancelOrder(k) =>
          if Rests(s.book, k) {
            RemoveNoMore(s.book, SideOf(s.book, k), Find(Queue(s.book, SideOf(s.book, k)), k));
            NoMoreCapped(config, Delete(s.book, k), s.book);
          }
        case CancelReplace(k, newPrice, newQty) => ModifyNotionalCapped(config, s.book, c);
        case MassCancel(a) =>
          CancelEachNoMore(s.book, a, OpenOrders(s.book, a));
          NoMoreCapped(config, CancelAll(s.book, a).book, s.book);
        case KillSwitch(_) =>
        case Snapshot =>
      }
    }
  }

  /** No amend of the run raises its own order's notional. */
  ghost predicate CalmRun(config: RiskConfig, s: System, cs: seq<Command>)
    decreases |cs|
  {
    cs == [] || (Calm(s.book, cs[0]) && CalmRun(config, Process(config, s, cs[0]).system, cs[1..]))
  }

  /** A cap that leaves 128 bits room for the largest order: from a book within it the gate's sum cannot wrap. */
  predicate CapFits(config: RiskConfig) {
    config.maxNotional + U64_MAX * U64_MAX < W128
  }

  lemma CappedSumFits(config: RiskConfig, b: BookView, c: Command)
    requires NotionalCapped(config, b) && CapFits(config) && (c.NewOrder? ==> c.qty <= U64_MAX)
    ensures SumFits(b, c)
  {
    hide AccountNotional;
    if c.NewOrder? {
      assert AccountNotional(b, c.key.account) <= config.maxNotional;
      ScaleUp(c.price, c.qty, U64_MAX);
      ScaleUp(U64_MAX, c.price, U64_MAX);
    }
  }

  /**
   * In every run without exposure-raising amends no account's gross notional exceeds the limit, for every limit
   * that leaves the gate's 128-bit sum room for one more order of any size.
   */
  lemma {:induction false} RunNotionalCapped(config: RiskConfig, s: System, cs: seq<Command>)
    requires Wf(s.book) && AllWellFormed(cs) && Sized(cs) && CapFits(config)
    requires NotionalCapped(config, s.book) && CalmRun(config, s, cs)
    ensures NotionalCapped(config, Run(config, s, cs).system.book)
    decreases |cs|
  {
    hide Wf, NotionalCapped, Process, Calm, SumFits, CapFits;
    if cs != [] {
      CappedSumFits(config, s.book, cs[0]);
      ProcessWf(config, s, cs[0]);
      ProcessNotionalCapped(config, s, cs[0]);
      RunNotionalCapped(config, Process(config, s, cs[0]).system, cs[1..]);
    }
  }

  // ---- What the notional cap buys: cached 64-bit totals cannot overflow ----

  lemma {:induction false} PartsWithin(config: RiskConfig, b: BookView, accounts: seq<AccountId>)
    requires NotionalCapped(config, b)
    ensures PartTotals(b.bids, Notional(), AccountOf(), accounts) + PartTotals(b.asks, Notional(), AccountOf(), accounts)
            <= |accounts| * config.maxNotional
  {
    if accounts != [] {
      PartsWithin(config, b, accounts[1..]);
      NotionalIsPart(b.bids, accounts[0]);
      NotionalIsPart(b.asks, accounts[0]);
      assert AccountNotional(b, accounts[0]) <= config.maxNotional;
      assert |accounts| * config.maxNotional == config.maxNotional + (|accounts| - 1) * config.maxNotional;
    }
  }

  /** With prices at least one, every level's total is at most the number of accounts times the cap. */
  lemma LevelTotalBounded(config: RiskConfig, b: BookView, side: Side, p: Price)
    requires Wf(b) && NotionalCapped(config, b)
    requires forall s, i :: 0 <= i < |Queue(b, s)| ==> Queue(b, s)[i].price > 0
    ensures Sum(Queue(b, side), QtyAt(p)) <= |AccountsMet(b)| * config.maxNotional
  {
    AccountsMetExact(b);
    hide Wf, AccountsMet, NotionalCapped;
    var accounts := AccountsMet(b);
    var q := Queue(b, side);
    PartsWithin(config, b, accounts);
    Partition(b.bids, Notional(), AccountOf(), accounts);
    Partition(b.asks, Notional(), AccountOf(), accounts);
    QtyWithinNotional(q);
    QtyAtWithin(q, p);
  }

  /** Under the default limits a 64-bit level total is safe for up to 184 467 440 737 resting accounts. */
  lemma DefaultTotalsFit(b: BookView, side: Side, p: Price)
    requires Wf(b) && NotionalCapped(DEFAULT_CONFIG, b) && |AccountsMet(b)| <= 184_467_440_737
    requires forall s, i :: 0 <= i < |Queue(b, s)| ==> Queue(b, s)[i].price > 0
    ensures Sum(Queue(b, side), QtyAt(p)) <= U64_MAX
  {
    LevelTotalBounded(DEFAULT_CONFIG, b, side, p);
  }
}
