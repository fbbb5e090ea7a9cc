/** How many orders can rest at once: open-order limits times the accounts that trade, whatever the run's length. */
module Room {
  import opened Types
  import opened Queues
  import opened BookViews
  import opened Matching
  import opened Arenas
  import opened Risk
  import opened Runs
  import opened Totals
  import opened SnapshotTotals
  import opened Caps

  /** Only the given accounts have open orders. */
  ghost predicate Confined(accounts: set<AccountId>, b: BookView) {
    forall a :: OpenOrders(b, a) != [] ==> a in accounts
  }

  /** Only the given accounts submit orders. */
  predicate EntersFrom(accounts: set<AccountId>, cs: seq<Command>) {
    forall i :: 0 <= i < |cs| && cs[i].NewOrder? ==> cs[i].key.account in accounts
  }

  lemma NoMoreConfined(accounts: set<AccountId>, b': BookView, b: BookView)
    requires NoMore(b', b) && Confined(accounts, b)
    ensures Confined(accounts, b')
  {
    forall a | OpenOrders(b', a) != []
      ensures a in accounts
    {
      NoMoreOf(b', b, a);
    }
  }

  lemma RestConfined(accounts: set<AccountId>, b: BookView, side: Side, o: Order)
    requires Confined(accounts, b) && o.key.account in accounts
    ensures Confined(accounts, Rest(b, side, o))
  {
    forall a | OpenOrders(Rest(b, side, o), a) != []
      ensures a in accounts
    {
      assert a != o.key.account ==> OpenOrders(b, a) != [];
    }
  }

  lemma NewOrderConfined(accounts: set<AccountId>, b: BookView, c: Command)
    requires c.NewOrder? && c.key.account in accounts && Confined(accounts, b)
    ensures Confined(accounts, Dispatch(b, c).book)
  {
    hide Sweep, StpClear, Rest, NoMore, Fillable, Rests, Confined;
    var t := Taker(c.key, c.side, if c.kind.Market? then MarketLimit(c.side) else c.price);
    var r, d := Sweep(b, t, c.qty), StpClear(b, t);
    SweepNoMore(b, t, c.qty);
    StpClearNoMore(b, t);
    NoMoreConfined(accounts, r.book, b);
    NoMoreConfined(accounts, d.book, b);
    RestConfined(accounts, r.book, c.side, Order(c.key, c.price, r.remaining));
    RestConfined(accounts, d.book, c.side, Order(c.key, c.price, c.qty));
  }

  lemma OwnerConfined(accounts: set<AccountId>, b: BookView, k: OrderKey)
    requires Wf(b) && Rests(b, k) && Confined(accounts, b)
    ensures k.account in accounts
  {
    var side, i := RestsWhere(b, k);
    assert Listed(Queue(b, side), b.roster);
    assert Queue(b, side)[i].key.order in OpenOrders(b, k.account);
  }

  lemma ModifyConfined(accounts: set<AccountId>, b: BookView, k: OrderKey, newPrice: Price, newQty: Qty)
    requires Wf(b) && Confined(accounts, b)
    ensures Confined(accounts, Modify(b, k, newPrice, newQty).book)
  {
    hide Wf, Sweep, Rest, NoMore, Rests, Delete, Confined;
    if newQty != 0 && Rests(b, k) {
      var side := SideOf(b, k);
      if newPrice == OrderOf(b, k).price && newQty <= OrderOf(b, k).qty {
        SetQtyNoMore(b, side, Find(Queue(b, side), k), newQty);
        NoMoreConfined(accounts, SetQty(b, side, Find(Queue(b, side), k), newQty), b);
      } else {
        var b1 := Delete(b, k);
        var r := Sweep(b1, Taker(k, side, newPrice), newQty);
        OwnerConfined(accounts, b, k);
        DeleteOpen(b, k);
        SweepNoMore(b1, Taker(k, side, newPrice), newQty);
        NoMoreConfined(accounts, b1, b);
        NoMoreConfined(accounts, r.book, b1);
        RestConfined(accounts, r.book, side, Order(k, newPrice, r.remaining));
      }
    }
  }

  lemma ProcessConfined(config: RiskConfig, accounts: set<AccountId>, s: System, c: Command)
    requires Wf(s.book) && Confined(accounts, s.book) && (c.NewOrder? ==> c.key.account in accounts)
    ensures Confined(accounts, Process(config, s, c).system.book)
  {
    hide Wf, Confined, Modify, CancelEach, Remove, SubmitGtc, SubmitIoc, SubmitFok, SubmitPostOnly, SubmitMarket;
    hide SnapshotEvents, TopOfBook, NewOrderCheck, KillSwitchCheck, NoMore;
    if PreApplyCheck(config, s.killed, c, s.book).None? {
      match c {
        case NewOrder(_, _, _, _, _, _, _) => NewOrderConfined(accounts, s.book, c);
        case CancelOrder(k) =>
          if Rests(s.book, k) {
            RemoveNoMore(s.book, SideOf(s.book, k), Find(Queue(s.book, SideOf(s.book, k)), k));
            NoMoreConfined(accounts, Delete(s.book, k), s.book);
          }
        case CancelReplace(k, newPrice, newQty) => ModifyConfined(accounts, s.book, k, newPrice, newQty);
        case MassCancel(a) =>
          CancelEachNoMore(s.book, a, OpenOrders(s.book, a));
          NoMoreConfined(accounts, CancelAll(s.book, a).book, s.book);
        case KillSwitch(_) =>
        case Snapshot =>
      }
    }
  }

  lemma {:induction false} RunConfined(config: RiskConfig, accounts: set<AccountId>, s: System, cs: seq<Command>)
    requires Wf(s.book) && AllWellFormed(cs) && Confined(accounts, s.book) && EntersFrom(accounts, cs)
    ensures Confined(accounts, Run(config, s, cs).system.book)
    decreases |cs|
  {
    hide Wf, Confined, Process;
    if cs != [] {
      ProcessWf(config, s, cs[0]);
      ProcessConfined(config, accounts, s, cs[0]);
      RunConfined(config, accounts, Process(config, s, cs[0]).system, cs[1..]);
    }
  }

  // ---- From accounts to orders ----

  lemma {:induction false} DistinctWithin(xs: seq<nat>, within: set<nat>)
    requires NoRepeats(xs) && forall i :: 0 <= i < |xs| ==> xs[i] in within
    ensures |xs| <= |within|
    decreases |xs|
  {
    if xs != [] {
      DistinctWithin(xs[1..], within - {xs[0]});
    }
  }

  lemma MetWithin(accounts: set<AccountId>, b: BookView)
    requires Wf(b) && Confined(accounts, b)
    ensures |AccountsMet(b)| <= |accounts|
  {
    hide Wf, AccountsMet;
    AccountsMetExact(b);
    DistinctWithin(AccountsMet(b), accounts);
  }

  lemma {:induction false} CountsWithin(config: RiskConfig, b: BookView, accounts: seq<AccountId>)
    requires Rostered(b) && OpenCapped(config, b)
    ensures PartTotals(b.bids, One(), AccountOf(), accounts) + PartTotals(b.asks, One(), AccountOf(), accounts)
            <= |accounts| * config.maxOpenOrders
  {
    hide Listed;
    if accounts != [] {
      CountsWithin(config, b, accounts[1..]);
      assert RosterExact(b, accounts[0]);
      CountIsPart(b.bids, accounts[0]);
      CountIsPart(b.asks, accounts[0]);
      assert |OpenOrders(b, accounts[0])| <= config.maxOpenOrders;
      assert |accounts| * config.maxOpenOrders == config.maxOpenOrders + (|accounts| - 1) * config.maxOpenOrders;
    }
  }

  /** No more orders rest than the open-order limit allows the accounts that have any. */
  lemma RestingWithin(config: RiskConfig, accounts: set<AccountId>, b: BookView)
    requires Wf(b) && OpenCapped(config, b) && Confined(accounts, b)
    ensures Resting(b) <= |accounts| * config.maxOpenOrders
  {
    AccountsMetExact(b);
    MetWithin(accounts, b);
    hide QueuesWf, AccountsMet, OpenCapped, Confined, RosterExact;
    var met := AccountsMet(b);
    CountsWithin(config, b, met);
    Partition(b.bids, One(), AccountOf(), met);
    Partition(b.asks, One(), AccountOf(), met);
    SumOne(b.bids);
    SumOne(b.asks);
    Scaled(|met|, |accounts|, config.maxOpenOrders);
  }

  lemma Scaled(m: nat, n: nat, k: nat)
    requires m <= n
    ensures m * k <= n * k
  {
  }

  lemma {:induction false} StaysRoomy(config: RiskConfig, accounts: set<AccountId>, s: System, cs: seq<Command>)
    requires Wf(s.book) && OpenCapped(config, s.book) && Confined(accounts, s.book)
    requires AllWellFormed(cs) && EntersFrom(accounts, cs) && |accounts| * config.maxOpenOrders < NULL
    ensures Roomy(config, s, cs)
    decreases |cs|
  {
    hide Wf, OpenCapped, Confined, Process, Resting;
    if cs != [] {
      RestingWithin(config, accounts, s.book);
      ProcessWf(config, s, cs[0]);
      ProcessOpenCapped(config, s, cs[0]);
      ProcessConfined(config, accounts, s, cs[0]);
      StaysRoomy(config, accounts, Process(config, s, cs[0]).system, cs[1..]);
    }
  }

  /**
   * Every run, of any length, in which only so many accounts submit that their open-order limits stay below the
   * number of slots: a slot is always to be had. Under the default limit that is 85 899 345 accounts.
   */
  lemma RunRoomy(config: RiskConfig, accounts: set<AccountId>, cs: seq<Command>)
    requires AllWellFormed(cs) && EntersFrom(accounts, cs) && |accounts| * config.maxOpenOrders < NULL
    ensures Roomy(config, START, cs)
  {
    EmptyWf();
    StaysRoomy(config, accounts, START, cs);
  }

  lemma DefaultRunRoomy(accounts: set<AccountId>, cs: seq<Command>)
    requires AllWellFormed(cs) && EntersFrom(accounts, cs) && |accounts| <= 85_899_345
    ensures Roomy(DEFAULT_CONFIG, START, cs)
  {
    RunRoomy(DEFAULT_CONFIG, accounts, cs);
  }
}
