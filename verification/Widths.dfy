/** The fixed-width sums the program keeps: exactly when a level's 64-bit total overflows, and runs in which none does. */
module Widths {
  import opened Types
  import opened Queues
  import opened BookViews
  import opened Matching
  import opened Sweeping
  import opened OrderTypes
  import opened BookStore
  import opened Arenas
  import opened Risk
  import opened Runs
  import opened Drain
  import opened Caps
  import opened Prices
  import opened Room

  /** Every level total of a queue fits 64 bits. */
  ghost predicate QueueFits(q: seq<Order>) {
    forall p: Price :: Sum(q, QtyAt(p)) <= U64_MAX
  }

  ghost predicate LevelsFit(b: BookView) {
    QueueFits(b.bids) && QueueFits(b.asks)
  }

  // ---- What only shrinks keeps fitting ----

  lemma {:induction false} ShrunkSum(r: seq<Order>, q: seq<Order>, p: Price)
    requires Shrunk(r, q)
    ensures Sum(r, QtyAt(p)) <= Sum(q, QtyAt(p))
    decreases |q|
  {
    if r != [] {
      if Shrinks(r[0], q[0]) && Shrunk(r[1..], q[1..]) {
        ShrunkSum(r[1..], q[1..], p);
      } else {
        ShrunkSum(r, q[1..], p);
      }
    }
  }

  lemma ShrunkFits(r: seq<Order>, q: seq<Order>)
    requires Shrunk(r, q) && QueueFits(q)
    ensures QueueFits(r)
  {
    forall p: Price
      ensures Sum(r, QtyAt(p)) <= U64_MAX
    {
      ShrunkSum(r, q, p);
    }
  }

  lemma DrainedFits(b': BookView, b: BookView)
    requires Drained(b', b) && LevelsFit(b)
    ensures LevelsFit(b')
  {
    hide QueueFits, Shrunk;
    ShrunkFits(b'.bids, b.bids);
    ShrunkFits(b'.asks, b.asks);
  }

  lemma {:induction false} ShrunkSuffix(q: seq<Order>, n: nat)
    requires n <= |q|
    ensures Shrunk(q[n..], q)
  {
    if n == 0 {
      assert q[0..] == q;
      ShrunkRefl(q);
    } else {
      ShrunkSuffix(q[1..], n - 1);
      assert q[n..] == q[1..][n - 1..];
    }
  }

  lemma {:induction false} SweepShrinks(b: BookView, t: Taker, qty: Qty)
    ensures Shrunk(Queue(Sweep(b, t, qty).book, Opposite(t.side)), Queue(b, Opposite(t.side)))
    decreases |Queue(b, Opposite(t.side))|, qty
  {
    hide Hit, Shrunk;
    var q := Queue(b, Opposite(t.side));
    ShrunkRefl(q);
    if !Stops(b, t, qty) {
      HitQueue(b, t, qty);
      var h := Hit(b, t, qty);
      HeadShrinks(q, Queue(h.book, Opposite(t.side)), qty);
      SweepShrinks(h.book, t, h.remaining);
      ShrunkTrans(Queue(Sweep(b, t, qty).book, Opposite(t.side)), Queue(h.book, Opposite(t.side)), q);
    }
  }

  lemma HeadShrinks(q: seq<Order>, r: seq<Order>, qty: Qty)
    requires q != []
    requires r == q[1..] || (q[0].qty > qty && r == [q[0].(qty := q[0].qty - qty)] + q[1..])
    ensures Shrunk(r, q)
  {
    if r == q[1..] {
      ShrunkSuffix(q, 1);
    } else {
      ShrunkUpdate(q, 0, q[0].qty - qty);
      assert r == q[0 := q[0].(qty := q[0].qty - qty)];
    }
  }

  // ---- What comes to rest ----

  /** An order joining a fitting queue leaves it fitting exactly when its own level can take it. */
  lemma JoinFitsIff(q: seq<Order>, at: nat, o: Order)
    requires QueueFits(q) && at <= |q|
    ensures QueueFits(With(q, at, o)) <==> Sum(q, QtyAt(o.price)) + o.qty <= U64_MAX
  {
    hide Sum, With;
    forall p: Price
      ensures Sum(With(q, at, o), QtyAt(p)) == Sum(q, QtyAt(p)) + QtyAt(p)(o)
    {
      SumWith(q, at, o, QtyAt(p));
    }
    if QueueFits(With(q, at, o)) {
      assert Sum(With(q, at, o), QtyAt(o.price)) <= U64_MAX;
    }
    if Sum(q, QtyAt(o.price)) + o.qty <= U64_MAX {
      forall p: Price
        ensures Sum(With(q, at, o), QtyAt(p)) <= U64_MAX
      {
        assert Sum(q, QtyAt(p)) <= U64_MAX;
      }
    }
  }

  lemma RestFitsIff(b: BookView, side: Side, o: Order)
    requires LevelsFit(b)
    ensures LevelsFit(Rest(b, side, o)) <==> Sum(Queue(b, side), QtyAt(o.price)) + o.qty <= U64_MAX
  {
    hide QueueFits, Sum, With, JoinAt;
    JoinFitsIff(Queue(b, side), JoinAt(side, Queue(b, side), o.price), o);
  }

  lemma RemainderFitsIff(b: BookView, t: Taker, remaining: Qty)
    requires LevelsFit(b)
    ensures LevelsFit(RestRemainder(b, t, remaining)) <==> Sum(Queue(b, t.side), QtyAt(t.limit)) + remaining <= U64_MAX
  {
    hide Sum, Rest;
    RestFitsIff(b, t.side, Order(t.key, t.limit, remaining));
    if remaining == 0 {
      FitsAt(b, t.side, t.limit);
    }
  }

  lemma FitsAt(b: BookView, side: Side, p: Price)
    requires LevelsFit(b)
    ensures Sum(Queue(b, side), QtyAt(p)) <= U64_MAX
  {
  }

  /** The swept book, and then what rests of the taker. */
  lemma SweptFitsIff(b: BookView, t: Taker, qty: Qty)
    requires LevelsFit(b)
    ensures var r := Sweep(b, t, qty);
            && LevelsFit(r.book)
            && (LevelsFit(RestRemainder(r.book, t, r.remaining)) <==>
                  Sum(Queue(b, t.side), QtyAt(t.limit)) + Monus(qty, ForeignDepth(Queue(b, Opposite(t.side)), t)) <= U64_MAX)
  {
    hide QueueFits, Sweep, ForeignDepth, Shrunk, Sum, RestRemainder;
    var r := Sweep(b, t, qty);
    SweepShrinks(b, t, qty);
    SweepFrame(b, t, qty);
    ShrunkFits(Queue(r.book, Opposite(t.side)), Queue(b, Opposite(t.side)));
    SweepRemaining(b, t, qty);
    RemainderFitsIff(r.book, t, r.remaining);
  }

  /** A post-only order is blocked exactly when there is foreign crossing depth. */
  lemma BlockedIffDepth(b: BookView, t: Taker)
    requires Wf(b)
    ensures StpClear(b, t).blocked <==> ForeignDepth(Queue(b, Opposite(t.side)), t) > 0
  {
    hide Rostered, Sorted, Unique, Disjoint, Uncrossed, StpClear, OwnPrefix, Cancels;
    var q := Queue(b, Opposite(t.side));
    var n := OwnPrefix(q, t);
    PostOnlyWalk(b, t);
    OwnPrefixDepth(q, t);
    PrefixEnds(q, t);
    assert n < |q| ==> q[n..][0] == q[n] && q[n].qty > 0;
  }

  lemma PrefixEnds(q: seq<Order>, t: Taker)
    ensures var n := OwnPrefix(q, t);
            n <= |q| && (n < |q| && Crosses(t.side, t.limit, q[n].price) ==> q[n].key.account != t.key.account)
  {
  }

  lemma PostOnlyFitsIff(b: BookView, t: Taker, qty: Qty)
    requires Wf(b) && LevelsFit(b) && !Rests(b, t.key)
    ensures LevelsFit(SubmitPostOnly(b, t, qty).book) <==>
            (ForeignDepth(Queue(b, Opposite(t.side)), t) == 0 ==> Sum(Queue(b, t.side), QtyAt(t.limit)) + qty <= U64_MAX)
  {
    hide Wf, QueueFits, StpClear, ForeignDepth, Shrunk, Sum, Rest, OwnPrefix, Rests, Cancels;
    var c := StpClear(b, t);
    var q := Queue(b, Opposite(t.side));
    PostOnlyWalk(b, t);
    BlockedIffDepth(b, t);
    PrefixEnds(q, t);
    ShrunkSuffix(q, OwnPrefix(q, t));
    ShrunkFits(Queue(c.book, Opposite(t.side)), q);
    RestFitsIff(c.book, t.side, Order(t.key, t.limit, qty));
  }

  // ---- One command ----

  /** What a command would bring to rest at its level overflows the level's total. */
  ghost predicate Overflows(b: BookView, c: Command) {
    match c
    case NewOrder(k, side, price, qty, kind, tif, _) =>
      var depth := ForeignDepth(Queue(b, Opposite(side)), Taker(k, side, price));
      && CanRest(kind, tif) && !Rests(b, k) && (tif.PostOnly? ==> depth == 0)
      && Sum(Queue(b, side), QtyAt(price)) + Monus(qty, depth) > U64_MAX
    case CancelReplace(k, newPrice, newQty) =>
      && Rests(b, k) && newQty > 0
      && var o, side := OrderOf(b, k), SideOf(b, k);
         var own := if newPrice == o.price then o.qty else 0;
         && (newPrice != o.price || newQty > o.qty)
         && Sum(Queue(b, side), QtyAt(newPrice)) - own
            + Monus(newQty, ForeignDepth(Queue(b, Opposite(side)), Taker(k, side, newPrice))) > U64_MAX
    case _ => false
  }

  lemma NewOrderFitsIff(b: BookView, c: Command)
    requires Wf(b) && LevelsFit(b) && c.NewOrder?
    ensures LevelsFit(Dispatch(b, c).book) <==> !Overflows(b, c)
  {
    hide Wf, LevelsFit, Sweep, ForeignDepth, Sum, RestRemainder, SubmitPostOnly, Rests;
    var t := Taker(c.key, c.side, if c.kind.Market? then MarketLimit(c.side) else c.price);
    SweptFitsIff(b, t, c.qty);
    if !Rests(b, c.key) && c.kind.Limit? && c.tif.PostOnly? {
      PostOnlyFitsIff(b, t, c.qty);
    } else if Rests(b, c.key) && c.kind.Limit? && c.tif.PostOnly? {
      PostOnlyDuplicate(b, t, c.qty);
    }
  }

  lemma PostOnlyDuplicate(b: BookView, t: Taker, qty: Qty)
    requires Rests(b, t.key)
    ensures SubmitPostOnly(b, t, qty).book == b
  {
  }

  lemma DeleteQty(b: BookView, k: OrderKey, p: Price)
    requires Rests(b, k)
    ensures var side, o := SideOf(b, k), OrderOf(b, k);
            && Sum(Queue(Delete(b, k), side), QtyAt(p)) == Sum(Queue(b, side), QtyAt(p)) - (if o.price == p then o.qty else 0)
            && Queue(Delete(b, k), Opposite(side)) == Queue(b, Opposite(side))
  {
    hide Sum, Dismiss;
    var side := SideOf(b, k);
    SumWithout(Queue(b, side), Find(Queue(b, side), k), QtyAt(p));
  }

  lemma ModifyFitsIff(b: BookView, c: Command)
    requires LevelsFit(b) && c.CancelReplace?
    ensures LevelsFit(Modify(b, c.key, c.newPrice, c.newQty).book) <==> !Overflows(b, c)
  {
    var k := c.key;
    if c.newQty != 0 && Rests(b, k) {
      hide LevelsFit, Sweep, ForeignDepth, Sum, RestRemainder, Rests, Delete, Drained;
      if c.newPrice == OrderOf(b, k).price && c.newQty <= OrderOf(b, k).qty {
        AmendDrains(b, k, c.newPrice, c.newQty);
        DrainedFits(Modify(b, k, c.newPrice, c.newQty).book, b);
      } else {
        DeleteDrains(b, k);
        DrainedFits(Delete(b, k), b);
        DeleteQty(b, k, c.newPrice);
        SweptFitsIff(Delete(b, k), Taker(k, SideOf(b, k), c.newPrice), c.newQty);
      }
    }
  }

  lemma DispatchFitsIff(b: BookView, c: Command)
    requires Wf(b) && LevelsFit(b)
    ensures LevelsFit(Dispatch(b, c).book) <==> !Overflows(b, c)
  {
    if c.NewOrder? {
      NewOrderFitsIff(b, c);
    } else if c.CancelReplace? {
      ModifyFitsIff(b, c);
    } else {
      hide LevelsFit, CancelEach, SnapshotEvents, Rests, Delete, Drained;
      match c {
        case CancelOrder(k) =>
          if Rests(b, k) {
            DeleteDrains(b, k);
            DrainedFits(Delete(b, k), b);
          }
        case MassCancel(a) =>
          CancelEachDrains(b, a, OpenOrders(b, a));
          DrainedFits(CancelAll(b, a).book, b);
        case KillSwitch(_) =>
        case Snapshot =>
      }
    }
  }

  /**
   * From fitting level totals, a command leaves them fitting if and only if it is refused or what it would bring to
   * rest, added to its level's total, is within 64 bits. The condition reads the book before the command only.
   */
  lemma TotalsFitIff(config: RiskConfig, s: System, c: Command)
    requires Wf(s.book) && LevelsFit(s.book)
    ensures LevelsFit(Process(config, s, c).system.book)
            <==> PreApplyCheck(config, s.killed, c, s.book).Some? || !Overflows(s.book, c)
  {
    hide Wf, LevelsFit, Overflows, PreApplyCheck, Dispatch, TopOfBook;
    DispatchFitsIff(s.book, c);
  }

  // ---- Notionals ----

  /** Every account's notional is within the given bound. */
  ghost predicate Within(cap: nat, b: BookView) {
    forall a :: AccountNotional(b, a) <= cap
  }

  /** The owner's notional after an order of this command has entered, from the book before it. */
  ghost function EnteredNotional(b: BookView, t: Taker, qty: Qty): int {
    var q := Queue(b, Opposite(t.side));
    AccountNotional(b, t.key.account) - OwnReached(q, t, qty) + t.limit * Monus(qty, ForeignDepth(q, t))
  }

  /** What a command brings to rest takes its owner's notional past the bound. */
  ghost predicate Exceeds(cap: nat, b: BookView, c: Command) {
    match c
    case NewOrder(k, side, price, qty, kind, tif, _) =>
      var t := Taker(k, side, price);
      && CanRest(kind, tif) && !Rests(b, k)
      && (tif.PostOnly? ==> ForeignDepth(Queue(b, Opposite(side)), t) == 0)
      && EnteredNotional(b, t, qty) > cap
    case CancelReplace(k, newPrice, newQty) =>
      && Rests(b, k) && newQty > 0 && (newPrice != OrderOf(b, k).price || newQty > OrderOf(b, k).qty)
      && AmendedNotional(b, k, newPrice, newQty) > cap
    case _ => false
  }

  function CapOnly(cap: nat): RiskConfig
    requires cap < W128
  {
    RiskLimits(0, cap, 0)
  }

  lemma WithinIsCapped(cap: nat, b: BookView)
    requires cap < W128
    ensures Within(cap, b) <==> NotionalCapped(CapOnly(cap), b)
  {
    hide AccountNotional;
  }

  lemma NoMoreWithin(cap: nat, b': BookView, b: BookView)
    requires NoMore(b', b) && Within(cap, b)
    ensures Within(cap, b')
  {
    hide NoMore, AccountNotional, OpenOrders;
    forall a
      ensures AccountNotional(b', a) <= cap
    {
      NoMoreOf(b', b, a);
    }
  }

  lemma GtcWithinIff(cap: nat, b: BookView, t: Taker, qty: Qty)
    requires cap < W128 && Within(cap, b)
    ensures var r := Sweep(b, t, qty);
            && Within(cap, r.book)
            && (Within(cap, RestRemainder(r.book, t, r.remaining)) <==> EnteredNotional(b, t, qty) <= cap)
  {
    hide Sweep, NoMore, Within, AccountNotional, ForeignDepth, OwnReached, RestRemainder, NotionalCapped;
    var r := Sweep(b, t, qty);
    SweepNoMore(b, t, qty);
    NoMoreWithin(cap, r.book, b);
    SweepNotional(b, t, qty);
    SweepRemaining(b, t, qty);
    WithinIsCapped(cap, r.book);
    WithinIsCapped(cap, RestRemainder(r.book, t, r.remaining));
    RemainderNotional(CapOnly(cap), r.book, t, r.remaining);
  }

  lemma PostOnlyWithinIff(cap: nat, b: BookView, t: Taker, qty: Qty)
    requires cap < W128 && Wf(b) && Within(cap, b) && !Rests(b, t.key) && qty > 0
    ensures Within(cap, SubmitPostOnly(b, t, qty).book) <==>
            (ForeignDepth(Queue(b, Opposite(t.side)), t) == 0 ==> EnteredNotional(b, t, qty) <= cap)
  {
    hide Wf, Sweep, StpClear, NoMore, Within, EnteredNotional, ForeignDepth, RestRemainder, Rests, Rest;
    PostOnlyIsGtcIff(b, t, qty);
    GtcWithinIff(cap, b, t, qty);
    BlockedIffDepth(b, t);
    StpClearNoMore(b, t);
    NoMoreWithin(cap, StpClear(b, t).book, b);
  }

  lemma NewOrderWithinIff(cap: nat, b: BookView, c: Command)
    requires cap < W128 && Wf(b) && Within(cap, b) && c.NewOrder? && c.qty > 0
    ensures Within(cap, Dispatch(b, c).book) <==> !Exceeds(cap, b, c)
  {
    hide Wf, Within, Sweep, ForeignDepth, EnteredNotional, RestRemainder, SubmitPostOnly, Rests;
    var t := Taker(c.key, c.side, if c.kind.Market? then MarketLimit(c.side) else c.price);
    GtcWithinIff(cap, b, t, c.qty);
    if c.kind.Limit? && c.tif.PostOnly? {
      if Rests(b, c.key) {
        PostOnlyDuplicate(b, t, c.qty);
      } else {
        PostOnlyWithinIff(cap, b, t, c.qty);
      }
    }
  }

  lemma ModifyWithinIff(cap: nat, b: BookView, c: Command)
    requires cap < W128 && Wf(b) && Within(cap, b) && c.CancelReplace?
    ensures Within(cap, Modify(b, c.key, c.newPrice, c.newQty).book) <==> !Exceeds(cap, b, c)
  {
    hide Wf, Within, NotionalCapped, AmendedNotional, Sweep, Rests, Delete, RestRemainder, NoMore;
    var k, r := c.key, Modify(b, c.key, c.newPrice, c.newQty);
    if c.newQty != 0 && Rests(b, k) {
      if c.newPrice == OrderOf(b, k).price && c.newQty <= OrderOf(b, k).qty {
        SetQtyNoMore(b, SideOf(b, k), Find(Queue(b, SideOf(b, k)), k), c.newQty);
        NoMoreWithin(cap, r.book, b);
      } else {
        WithinIsCapped(cap, b);
        WithinIsCapped(cap, r.book);
        AmendCapIff(CapOnly(cap), b, k, c.newPrice, c.newQty);
      }
    }
  }

  /**
   * From a book whose notionals are within a bound, a command leaves them within it if and only if it is refused or
   * what it would bring to rest keeps its owner within it. With the gate's cap as bound this is when the cap holds;
   * with the largest 128-bit value it is when the stored notionals are the true ones.
   */
  lemma NotionalWithinIff(config: RiskConfig, cap: nat, s: System, c: Command)
    requires cap < W128 && Wf(s.book) && Within(cap, s.book) && WellFormed(c)
    ensures Within(cap, Process(config, s, c).system.book)
            <==> PreApplyCheck(config, s.killed, c, s.book).Some? || !Exceeds(cap, s.book, c)
  {
    hide Wf, Within, Modify, CancelEach, Remove, SubmitGtc, SubmitIoc, SubmitFok, SubmitPostOnly, SubmitMarket;
    hide SnapshotEvents, TopOfBook, PreApplyCheck, NoMore, EnteredNotional, AmendedNotional;
    match c {
      case NewOrder(_, _, _, _, _, _, _) => NewOrderWithinIff(cap, s.book, c);
      case CancelOrder(k) =>
        if Rests(s.book, k) {
          RemoveNoMore(s.book, SideOf(s.book, k), Find(Queue(s.book, SideOf(s.book, k)), k));
          NoMoreWithin(cap, Delete(s.book, k), s.book);
        }
      case CancelReplace(_, _, _) => ModifyWithinIff(cap, s.book, c);
      case MassCancel(a) =>
        CancelEachNoMore(s.book, a, OpenOrders(s.book, a));
        NoMoreWithin(cap, CancelAll(s.book, a).book, s.book);
      case KillSwitch(_) =>
      case Snapshot =>
    }
  }

  // ---- Runs ----

  /** With its notional capped, every resting price is within the cap. */
  lemma PricesWithinCap(config: RiskConfig, b: BookView, side: Side, i: nat)
    requires Wf(b) && NotionalCapped(config, b) && i < |Queue(b, side)|
    ensures Queue(b, side)[i].price <= config.maxNotional
  {
    hide Rostered, Sorted, Unique, Disjoint, Uncrossed, AccountNotional;
    var o := Queue(b, side)[i];
    NotionalCovers(b, side, i);
    assert AccountNotional(b, o.key.account) <= config.maxNotional;
    assert o.qty > 0;
    ScaleUp(o.price, 1, o.qty);
  }

  /**
   * Nothing the program adds up on this book overflows: level totals and the band's mid in 64 bits, an account's
   * notional plus that of the largest order a client can send in 128.
   */
  ghost predicate Fitting(b: BookView) {
    && LevelsFit(b)
    && (b.bids != [] && b.asks != [] ==> b.bids[0].price + b.asks[0].price <= U64_MAX)
    && (forall a :: AccountNotional(b, a) + U64_MAX * U64_MAX < W128)
  }

  lemma CappedFits(config: RiskConfig, accounts: set<AccountId>, b: BookView)
    requires Wf(b) && NotionalCapped(config, b) && PricesPositive(b) && Confined(accounts, b)
    requires |accounts| * config.maxNotional <= U64_MAX && 2 * config.maxNotional <= U64_MAX
    ensures Fitting(b)
  {
    hide Wf, Confined, AccountNotional, Sum, AccountsMet;
    MetWithin(accounts, b);
    Scaled(|AccountsMet(b)|, |accounts|, config.maxNotional);
    forall side, p: Price
      ensures Sum(Queue(b, side), QtyAt(p)) <= U64_MAX
    {
      LevelTotalBounded(config, b, side, p);
    }
    assert Queue(b, Buy) == b.bids && Queue(b, Sell) == b.asks;
    if b.bids != [] && b.asks != [] {
      PricesWithinCap(config, b, Buy, 0);
      PricesWithinCap(config, b, Sell, 0);
    }
    forall a
      ensures AccountNotional(b, a) + U64_MAX * U64_MAX < W128
    {
      assert AccountNotional(b, a) <= config.maxNotional;
    }
  }

  /**
   * From an empty book, every run whose amends name positive prices and raise no order's own notional, entered by
   * accounts whose caps add up within 64 bits: no level total, no mid and no sum in the gate ever overflows.
   */
  lemma RunFits(config: RiskConfig, accounts: set<AccountId>, cs: seq<Command>)
    requires AllWellFormed(cs) && Sized(cs) && EntersFrom(accounts, cs) && CalmRun(config, START, cs)
    requires forall i :: 0 <= i < |cs| && cs[i].CancelReplace? ==> cs[i].newPrice > 0
    requires |accounts| * config.maxNotional <= U64_MAX && 2 * config.maxNotional <= U64_MAX
    ensures Fitting(Run(config, START, cs).system.book)
  {
    EmptyWf();
    StartCapped(config, accounts);
    hide Wf, NotionalCapped, PricesPositive, Confined, Fitting, CalmRun, Run;
    RunWf(config, START, cs);
    RunNotionalCapped(config, START, cs);
    RunPricesPositive(config, START, cs);
    RunConfined(config, accounts, START, cs);
    CappedFits(config, accounts, Run(config, START, cs).system.book);
  }

  lemma StartCapped(config: RiskConfig, accounts: set<AccountId>)
    ensures NotionalCapped(config, START.book) && PricesPositive(START.book) && Confined(accounts, START.book)
  {
  }

  /** Under the default limits that is up to 184 467 440 737 accounts. */
  lemma DefaultRunFits(accounts: set<AccountId>, cs: seq<Command>)
    requires AllWellFormed(cs) && Sized(cs) && EntersFrom(accounts, cs) && CalmRun(DEFAULT_CONFIG, START, cs)
    requires forall i :: 0 <= i < |cs| && cs[i].CancelReplace? ==> cs[i].newPrice > 0
    requires |accounts| <= 184_467_440_737
    ensures Fitting(Run(DEFAULT_CONFIG, START, cs).system.book)
  {
    hide Fitting, CalmRun, Run;
    RunFits(DEFAULT_CONFIG, accounts, cs);
  }

  lemma {:induction false} CalmPrefix(config: RiskConfig, s: System, cs: seq<Command>, k: nat)
    requires CalmRun(config, s, cs) && k <= |cs|
    ensures CalmRun(config, s, cs[..k])
    decreases |cs|
  {
    hide Process, Calm;
    if k > 0 {
      CalmPrefix(config, Process(config, s, cs[0]).system, cs[1..], k - 1);
      assert cs[..k][1..] == cs[1..][..k - 1] && cs[..k][0] == cs[0];
    }
  }

  /**
   * In such a run nothing stops the thread or falsifies what it keeps: a slot is always to be had, no check of a
   * snapshot fails, and before and after every command no sum overflows.
   */
  lemma RunStaysSound(config: RiskConfig, accounts: set<AccountId>, cs: seq<Command>)
    requires AllWellFormed(cs) && Sized(cs) && EntersFrom(accounts, cs) && CalmRun(config, START, cs)
    requires forall i :: 0 <= i < |cs| && cs[i].CancelReplace? ==> cs[i].newPrice > 0
    requires |accounts| * config.maxNotional <= U64_MAX && 2 * config.maxNotional <= U64_MAX
    requires |accounts| * config.maxOpenOrders < NULL
    ensures Roomy(config, START, cs) && !Stalled(config, START, cs)
    ensures forall k :: 0 <= k <= |cs| ==> Fitting(Run(config, START, cs[..k]).system.book)
  {
    StartCapped(config, accounts);
    hide Fitting, CalmRun, Run, Roomy, Stalled, PricesPositive;
    RunRoomy(config, accounts, cs);
    RunNeverStalls(config, START, cs);
    forall k | 0 <= k <= |cs|
      ensures Fitting(Run(config, START, cs[..k]).system.book)
    {
      CalmPrefix(config, START, cs, k);
      RunFits(config, accounts, cs[..k]);
    }
  }
}
