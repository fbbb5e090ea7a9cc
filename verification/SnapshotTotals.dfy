/** The snapshot is double-entry: its level rows and its account rows describe the same book. */
module SnapshotTotals {
  import opened Types
  import opened Queues
  import opened BookViews
  import opened Matching
  import opened SortedKeys
  import opened LevelWalks
  import opened Shadows
  import opened Totals

  function RowSum(events: seq<Event>, f: Event -> nat): nat {
    if events == [] then 0 else f(events[0]) + RowSum(events[1..], f)
  }

  function LevelNotionalRow(): Event -> nat { (e: Event) => if e.SnapshotLevel? then e.price * e.qty else 0 }
  function LevelCountRow(): Event -> nat { (e: Event) => if e.SnapshotLevel? then e.orderCount else 0 }
  function LevelRow(): Event -> nat { (e: Event) => if e.SnapshotLevel? then 1 else 0 }
  function AccountNotionalRow(): Event -> nat { (e: Event) => if e.SnapshotAccount? then e.notional else 0 }
  function AccountCountRow(): Event -> nat { (e: Event) => if e.SnapshotAccount? then e.openOrders else 0 }
  function AccountRow(): Event -> nat { (e: Event) => if e.SnapshotAccount? then 1 else 0 }

  lemma {:induction false} RowSumConcat(a: seq<Event>, b: seq<Event>, f: Event -> nat)
    ensures RowSum(a + b, f) == RowSum(a, f) + RowSum(b, f)
  {
    if a == [] {
      assert a + b == b;
    } else {
      assert (a + b)[1..] == a[1..] + b;
      RowSumConcat(a[1..], b, f);
    }
  }

  lemma {:induction false} RowSumZero(events: seq<Event>, f: Event -> nat)
    requires forall i :: 0 <= i < |events| ==> f(events[i]) == 0
    ensures RowSum(events, f) == 0
  {
    if events != [] {
      assert forall i :: 0 <= i < |events[1..]| ==> events[1..][i] == events[i + 1];
      RowSumZero(events[1..], f);
    }
  }

  // ---- Level rows ----

  lemma {:induction false} LevelRows(side: Side, q: seq<Order>, prices: seq<Price>)
    ensures RowSum(LevelEvents(side, q, prices), LevelNotionalRow()) == PartTotals(q, Notional(), PriceOf(), prices)
    ensures RowSum(LevelEvents(side, q, prices), LevelCountRow()) == PartTotals(q, One(), PriceOf(), prices)
    ensures RowSum(LevelEvents(side, q, prices), LevelRow()) == |prices|
  {
    if prices != [] {
      LevelRows(side, q, prices[1..]);
      LevelNotional(q, prices[0]);
      CountAtIsPart(q, prices[0]);
      var es := LevelEvents(side, q, prices);
      assert es[1..] == LevelEvents(side, q, prices[1..]);
    }
  }

  lemma PricesCover(side: Side, q: seq<Order>)
    requires Sorted(side, q)
    ensures NoRepeats(AscendingPrices(side, q))
    ensures forall i :: 0 <= i < |q| ==> q[i].price in AscendingPrices(side, q)
  {
    LevelPricesExact(side, q);
    ReverseAt(LevelPrices(q));
    forall i | 0 <= i < |q|
      ensures q[i].price in AscendingPrices(side, q)
    {
      ReverseMembers(LevelPrices(q), q[i].price);
    }
  }

  /** One side's level rows account for the side's whole notional and order count. */
  lemma SideRows(side: Side, q: seq<Order>)
    requires Sorted(side, q)
    ensures var es := LevelEvents(side, q, AscendingPrices(side, q));
            && RowSum(es, LevelNotionalRow()) == Sum(q, Notional())
            && RowSum(es, LevelCountRow()) == |q|
            && RowSum(es, LevelRow()) == |AscendingPrices(side, q)|
            && RowSum(es, AccountNotionalRow()) == RowSum(es, AccountCountRow()) == RowSum(es, AccountRow()) == 0
  {
    var prices := AscendingPrices(side, q);
    PricesCover(side, q);
    LevelRows(side, q, prices);
    Partition(q, Notional(), PriceOf(), prices);
    Partition(q, One(), PriceOf(), prices);
    SumOne(q);
    LevelEventsSilent(side, q, prices);
    var es := LevelEvents(side, q, prices);
    RowSumZero(es, AccountNotionalRow());
    RowSumZero(es, AccountCountRow());
    RowSumZero(es, AccountRow());
  }

  // ---- Account rows ----

  lemma {:induction false} AccountRows(b: BookView, accounts: seq<AccountId>)
    requires Rostered(b)
    ensures var es := AccountEvents(b, accounts);
            && RowSum(es, AccountNotionalRow())
               == PartTotals(b.bids, Notional(), AccountOf(), accounts) + PartTotals(b.asks, Notional(), AccountOf(), accounts)
            && RowSum(es, AccountCountRow())
               == PartTotals(b.bids, One(), AccountOf(), accounts) + PartTotals(b.asks, One(), AccountOf(), accounts)
            && RowSum(es, AccountRow()) == |accounts|
  {
    if accounts != [] {
      var a := accounts[0];
      AccountRows(b, accounts[1..]);
      assert RosterExact(b, a);
      NotionalIsPart(b.bids, a);
      NotionalIsPart(b.asks, a);
      CountIsPart(b.bids, a);
      CountIsPart(b.asks, a);
      assert AccountEvents(b, accounts)[1..] == AccountEvents(b, accounts[1..]);
    }
  }

  // ---- The accounts listed ----

  lemma {:induction false} MeetSpec(seen: seq<AccountId>, orders: seq<Order>)
    requires NoRepeats(seen)
    ensures NoRepeats(Meet(seen, orders)) && seen <= Meet(seen, orders)
    ensures forall a :: a in Meet(seen, orders) <==> a in seen || exists i :: 0 <= i < |orders| && orders[i].key.account == a
    decreases |orders|
  {
    if orders != [] {
      var x := orders[0].key.account;
      var seen' := if x in seen then seen else seen + [x];
      MeetSpec(seen', orders[1..]);
      forall a
        ensures a in Meet(seen, orders) <==> a in seen || exists i :: 0 <= i < |orders| && orders[i].key.account == a
      {
        if i :| 0 <= i < |orders| && orders[i].key.account == a {
          assert i > 0 ==> orders[1..][i - 1].key.account == a;
          assert x in seen' by { if x !in seen { assert seen'[|seen|] == x; } }
        }
        if i :| 0 <= i < |orders[1..]| && orders[1..][i].key.account == a {
          assert orders[i + 1].key.account == a;
        }
        assert a in seen' <==> a in seen || a == x;
        assert orders[0].key.account == x;
      }
    }
  }

  /** Whose orders are met walking the given levels. */
  ghost predicate MetAt(q: seq<Order>, prices: seq<Price>, a: AccountId) {
    exists i :: 0 <= i < |q| && q[i].key.account == a && q[i].price in prices
  }

  lemma {:induction false} LevelAtMembers(q: seq<Order>, p: Price, a: AccountId)
    ensures (exists i :: 0 <= i < |LevelAt(q, p)| && LevelAt(q, p)[i].key.account == a)
            <==> exists i :: 0 <= i < |q| && q[i].key.account == a && q[i].price == p
  {
    if q != [] {
      LevelAtMembers(q[1..], p, a);
      var l, t := LevelAt(q, p), LevelAt(q[1..], p);
      var h := |l| - |t|;
      assert forall i :: 0 <= i < |t| ==> l[i + h] == t[i];
      if i :| 0 <= i < |l| && l[i].key.account == a {
        if i >= h {
          assert t[i - h].key.account == a;
          var j :| 0 <= j < |q[1..]| && q[1..][j].key.account == a && q[1..][j].price == p;
          assert q[j + 1].key.account == a && q[j + 1].price == p;
        } else {
          assert q[0].key.account == a && q[0].price == p;
        }
      }
      if i :| 0 <= i < |q| && q[i].key.account == a && q[i].price == p {
        if i == 0 {
          assert l[0].key.account == a;
        } else {
          assert q[1..][i - 1].key.account == a && q[1..][i - 1].price == p;
          var j :| 0 <= j < |t| && t[j].key.account == a;
          assert l[j + h].key.account == a;
        }
      }
    }
  }

  lemma {:induction false} MeetLevelsSpec(seen: seq<AccountId>, q: seq<Order>, prices: seq<Price>)
    requires NoRepeats(seen)
    ensures NoRepeats(MeetLevels(seen, q, prices)) && seen <= MeetLevels(seen, q, prices)
    ensures forall a :: a in MeetLevels(seen, q, prices) <==> a in seen || MetAt(q, prices, a)
    decreases |prices|
  {
    if prices != [] {
      var p := prices[0];
      var seen' := Meet(seen, LevelAt(q, p));
      MeetSpec(seen, LevelAt(q, p));
      MeetLevelsSpec(seen', q, prices[1..]);
      forall a
        ensures a in MeetLevels(seen, q, prices) <==> a in seen || MetAt(q, prices, a)
      {
        LevelAtMembers(q, p, a);
        MetCons(q, prices, a);
      }
    }
  }

  lemma MetCons(q: seq<Order>, prices: seq<Price>, a: AccountId)
    requires prices != []
    ensures MetAt(q, prices, a) <==> MetAt(q, prices[1..], a) || exists i :: 0 <= i < |q| && q[i].key.account == a && q[i].price == prices[0]
  {
    assert prices == [prices[0]] + prices[1..];
    assert forall p :: p in prices <==> p == prices[0] || p in prices[1..];
  }

  /** The account rows list every account with a resting order, each once. */
  lemma AccountsMetExact(b: BookView)
    requires Wf(b)
    ensures NoRepeats(AccountsMet(b))
    ensures forall a :: a in AccountsMet(b) <==> OpenOrders(b, a) != []
    ensures forall i :: 0 <= i < |b.bids| ==> b.bids[i].key.account in AccountsMet(b)
    ensures forall i :: 0 <= i < |b.asks| ==> b.asks[i].key.account in AccountsMet(b)
  {
    hide AscendingPrices, MeetLevels, Rostered, Unique, Disjoint, Positive, Uncrossed, Sorted;
    var bp, ap := AscendingPrices(Buy, b.bids), AscendingPrices(Sell, b.asks);
    PricesCover(Buy, b.bids);
    PricesCover(Sell, b.asks);
    MeetLevelsSpec([], b.bids, bp);
    MeetLevelsSpec(MeetLevels([], b.bids, bp), b.asks, ap);
    forall i | 0 <= i < |b.bids|
      ensures b.bids[i].key.account in AccountsMet(b)
    {
      assert MetAt(b.bids, bp, b.bids[i].key.account);
    }
    forall i | 0 <= i < |b.asks|
      ensures b.asks[i].key.account in AccountsMet(b)
    {
      assert MetAt(b.asks, ap, b.asks[i].key.account);
    }
    forall a
      ensures a in AccountsMet(b) <==> OpenOrders(b, a) != []
    {
      assert a in AccountsMet(b) <==> MetAt(b.bids, bp, a) || MetAt(b.asks, ap, a);
      MetIffOpen(b, a, bp, ap);
    }
  }

  lemma MetIffOpen(b: BookView, a: AccountId, bp: seq<Price>, ap: seq<Price>)
    requires Wf(b)
    requires forall i :: 0 <= i < |b.bids| ==> b.bids[i].price in bp
    requires forall i :: 0 <= i < |b.asks| ==> b.asks[i].price in ap
    ensures (MetAt(b.bids, bp, a) || MetAt(b.asks, ap, a)) <==> OpenOrders(b, a) != []
  {
    assert RosterExact(b, a);
    hide QueuesWf, RosterExact;
    if OpenOrders(b, a) != [] {
      assert RosterExact(b, a);
      var k := OrderKey(a, OpenOrders(b, a)[0]);
      FirstOpenRests(b, a);
      var side, i := RestsWhere(b, k);
      assert side.Buy? ==> MetAt(b.bids, bp, a);
      assert side.Sell? ==> MetAt(b.asks, ap, a);
    }
  }

  lemma FirstOpenRests(b: BookView, a: AccountId)
    requires RosterExact(b, a) && OpenOrders(b, a) != []
    ensures Rests(b, OrderKey(a, OpenOrders(b, a)[0]))
  {
    assert OpenOrders(b, a)[0] in OpenOrders(b, a);
  }

  // ---- Double entry ----

  lemma SnapshotRows(b: BookView, f: Event -> nat)
    ensures var es := SnapshotEvents(b);
            RowSum(es, f)
            == RowSum(LevelEvents(Buy, b.bids, AscendingPrices(Buy, b.bids)), f)
               + RowSum(LevelEvents(Sell, b.asks, AscendingPrices(Sell, b.asks)), f)
               + RowSum(AccountEvents(b, AccountsMet(b)), f) + f(es[|es| - 1])
  {
    var x := LevelEvents(Buy, b.bids, AscendingPrices(Buy, b.bids));
    var y := LevelEvents(Sell, b.asks, AscendingPrices(Sell, b.asks));
    var z := AccountEvents(b, AccountsMet(b));
    var es := SnapshotEvents(b);
    var w := es[|es| - 1];
    assert es == x + y + z + [w];
    RowSumConcat(x + y + z, [w], f);
    RowSumConcat(x + y, z, f);
    RowSumConcat(x, y, f);
    assert RowSum([w], f) == f(w) + RowSum([w][1..], f);
  }

  lemma AccountRowsExact(b: BookView)
    requires Wf(b)
    ensures var es := AccountEvents(b, AccountsMet(b));
            && RowSum(es, AccountNotionalRow()) == Sum(b.bids, Notional()) + Sum(b.asks, Notional())
            && RowSum(es, AccountCountRow()) == |b.bids| + |b.asks|
            && RowSum(es, AccountRow()) == |AccountsMet(b)|
            && RowSum(es, LevelNotionalRow()) == RowSum(es, LevelCountRow()) == RowSum(es, LevelRow()) == 0
  {
    AccountsMetExact(b);
    hide QueuesWf, AccountsMet, RosterExact;
    var accounts := AccountsMet(b);
    AccountRows(b, accounts);
    Partition(b.bids, Notional(), AccountOf(), accounts);
    Partition(b.asks, Notional(), AccountOf(), accounts);
    Partition(b.bids, One(), AccountOf(), accounts);
    Partition(b.asks, One(), AccountOf(), accounts);
    SumOne(b.bids);
    SumOne(b.asks);
    AccountEventsSilent(b, accounts);
    var es := AccountEvents(b, accounts);
    RowSumZero(es, LevelNotionalRow());
    RowSumZero(es, LevelCountRow());
    RowSumZero(es, LevelRow());
  }

  lemma WfSorted(b: BookView)
    requires Wf(b)
    ensures Sorted(Buy, b.bids) && Sorted(Sell, b.asks)
  {
  }

  lemma ZeroLeads(side: Side, q: seq<Order>)
    requires Sorted(side, q) && !PositiveQueue(q)
    ensures var ps := AscendingPrices(side, q); ps != [] && ps[0] == 0 && [ZeroRow(side, q)] <= LevelEvents(side, q, ps)
  {
    var keys := set i | 0 <= i < |q| :: q[i].price;
    assert forall p: Price :: p in keys <==> exists i :: 0 <= i < |q| && q[i].price == p;
    KeysAscending(side, keys, q);
    var i :| 0 <= i < |q| && q[i].price == 0;
    hide AscendingPrices;
    assert q[i].price in keys;
    ZeroFirst(keys);
  }

  /** A snapshot that stops the thread has emitted a proper beginning of what it would have emitted. */
  lemma StallRowsBegin(b: BookView)
    requires Wf(b) && Stalls(b, Snapshot)
    ensures StallRows(b) < SnapshotEvents(b)
  {
    hide Rostered, AscendingPrices, LevelEvents, AccountEvents, AccountsMet, TopOfBook, ZeroRow, PositiveQueue, Sorted;
    if !PositiveQueue(b.bids) {
      ZeroLeads(Buy, b.bids);
    } else {
      ZeroLeads(Sell, b.asks);
    }
  }

  /**
   * Price times quantity over the level rows equals notional over the account rows; order counts over the
   * level rows equal open orders over the account rows, and both are the number of resting orders; the
   * trailer's counts are the numbers of rows that precede it.
   */
  lemma SnapshotDoubleEntry(b: BookView)
    requires Wf(b)
    ensures var es := SnapshotEvents(b);
            && RowSum(es, LevelNotionalRow()) == RowSum(es, AccountNotionalRow())
            && RowSum(es, LevelCountRow()) == RowSum(es, AccountCountRow()) == |b.bids| + |b.asks|
            && var trailer := es[|es| - 1];
               trailer.SnapshotSummary? && trailer.levelCount == RowSum(es, LevelRow())
               && trailer.accountCount == RowSum(es, AccountRow())
               && (trailer.bestBid, trailer.bestAsk) == TopOfBook(b) && trailer.lastTrade == b.lastTrade
  {
    hide Wf, Sorted, AccountsMet, AscendingPrices, LevelEvents, AccountEvents, Sum, RowSum, TopOfBook;
    WfSorted(b);
    SideRows(Buy, b.bids);
    SideRows(Sell, b.asks);
    AccountRowsExact(b);
    SnapshotRows(b, LevelNotionalRow());
    SnapshotRows(b, AccountNotionalRow());
    SnapshotRows(b, LevelCountRow());
    SnapshotRows(b, AccountCountRow());
    SnapshotRows(b, LevelRow());
    SnapshotRows(b, AccountRow());
  }
}
