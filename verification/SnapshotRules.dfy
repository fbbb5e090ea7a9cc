/** A snapshot, row by row. */
module SnapshotRules {
  import opened Types
  import opened Queues
  import opened SortedKeys
  import opened BookViews
  import opened Matching
  import opened LevelWalks
  import opened Risk
  import opened Runs
  import opened Shadows
  import opened SnapshotTotals
  import opened Admission
  import opened Rules
  import opened Touches

  /** The occupied prices of a side, each once, ascending. */
  ghost predicate IsLadder(prices: seq<Price>, q: seq<Order>) {
    && (forall i, j :: 0 <= i < j < |prices| ==> prices[i] < prices[j])
    && (forall p :: p in prices <==> exists i :: 0 <= i < |q| && q[i].price == p)
  }

  lemma PricesAreLadder(side: Side, q: seq<Order>)
    requires Sorted(side, q)
    ensures IsLadder(AscendingPrices(side, q), q)
  {
    var keys := set i | 0 <= i < |q| :: q[i].price;
    assert forall p: Price :: p in keys <==> exists i :: 0 <= i < |q| && q[i].price == p;
    KeysAscending(side, keys, q);
    hide AscendingPrices;
    assert forall p: Price :: p in AscendingPrices(side, q) <==> p in keys;
  }

  lemma {:induction false} LevelRow(side: Side, q: seq<Order>, prices: seq<Price>, i: nat)
    requires i < |prices|
    ensures |LevelEvents(side, q, prices)| == |prices|
    ensures LevelEvents(side, q, prices)[i] == SnapshotLevel(side, prices[i], Sum(q, QtyAt(prices[i])), Sum(q, CountAt(prices[i])))
    decreases |prices|
  {
    hide Sum;
    if |prices| > 1 {
      LevelRow(side, q, prices[1..], if i > 0 then i - 1 else 0);
    }
  }

  lemma LevelRowsAre(side: Side, q: seq<Order>, prices: seq<Price>)
    ensures |LevelEvents(side, q, prices)| == |prices|
    ensures forall i :: 0 <= i < |prices| ==>
              LevelEvents(side, q, prices)[i] == SnapshotLevel(side, prices[i], Sum(q, QtyAt(prices[i])), Sum(q, CountAt(prices[i])))
  {
    hide Sum;
    forall i | 0 <= i < |prices|
      ensures |LevelEvents(side, q, prices)| == |prices|
      ensures LevelEvents(side, q, prices)[i] == SnapshotLevel(side, prices[i], Sum(q, QtyAt(prices[i])), Sum(q, CountAt(prices[i])))
    {
      LevelRow(side, q, prices, i);
    }
  }

  lemma {:induction false} AccountRowsAre(b: BookView, accounts: seq<AccountId>)
    requires Wf(b)
    ensures |AccountEvents(b, accounts)| == |accounts|
    ensures forall i :: 0 <= i < |accounts| ==>
              AccountEvents(b, accounts)[i] == SnapshotAccount(accounts[i], Held(b, accounts[i]), Exposure(b, accounts[i]))
    decreases |accounts|
  {
    hide Wf, OpenOrders, AccountNotional, Held, Exposure;
    if accounts != [] {
      HeldIs(b, accounts[0]);
      AccountRowsAre(b, accounts[1..]);
    }
  }

  lemma AccountsRest(b: BookView, a: AccountId)
    requires Wf(b)
    ensures a in AccountsMet(b) <==> exists side, i :: 0 <= i < |Queue(b, side)| && Queue(b, side)[i].key.account == a
  {
    AccountsMetExact(b);
    WfRosterExact(b, a);
    hide QueuesWf, Rostered, AccountsMet;
    if a in AccountsMet(b) {
      var side, i := RestsWhere(b, OrderKey(a, OpenOrders(b, a)[0]));
      assert Queue(b, side)[i].key.account == a;
    }
    if side, i :| 0 <= i < |Queue(b, side)| && Queue(b, side)[i].key.account == a {
      assert side.Buy? ==> Queue(b, side) == b.bids;
    }
  }

  /**
   * A snapshot of positive prices changes nothing but the sequence number. It lists the bid levels and then the ask
   * levels by ascending price, each with all that rests there; then each account with a resting order, once, with
   * its count and notional; then a trailer with both touches, the last trade and the numbers of rows before it.
   */
  lemma SnapshotRule(config: RiskConfig, s: System) returns (bp: seq<Price>, ap: seq<Price>, accounts: seq<AccountId>)
    requires Wf(s.book) && !Stalls(s.book, Snapshot)
    ensures IsLadder(bp, s.book.bids) && IsLadder(ap, s.book.asks) && NoRepeats(accounts)
    ensures forall a :: a in accounts <==> exists side, i :: 0 <= i < |Queue(s.book, side)| && Queue(s.book, side)[i].key.account == a
    ensures Process(config, s, Snapshot).system == s.(seqNo := s.seqNo + 1)
    ensures var es, b := Process(config, s, Snapshot).events, s.book;
            && |es| == |bp| + |ap| + |accounts| + 1
            && (forall i :: 0 <= i < |bp| ==> es[i] == SnapshotLevel(Buy, bp[i], Sum(b.bids, QtyAt(bp[i])), Sum(b.bids, CountAt(bp[i]))))
            && (forall i :: 0 <= i < |ap| ==>
                  es[|bp| + i] == SnapshotLevel(Sell, ap[i], Sum(b.asks, QtyAt(ap[i])), Sum(b.asks, CountAt(ap[i]))))
            && (forall i :: 0 <= i < |accounts| ==>
                  es[|bp| + |ap| + i] == SnapshotAccount(accounts[i], Held(b, accounts[i]), Exposure(b, accounts[i])))
            && var trailer := es[|bp| + |ap| + |accounts|];
               && trailer.SnapshotSummary? && IsTouch(trailer.bestBid, Buy, b.bids) && IsTouch(trailer.bestAsk, Sell, b.asks)
               && trailer.lastTrade == b.lastTrade && trailer.levelCount == |bp| + |ap| && trailer.accountCount == |accounts|
  {
    hide Wf, Process, TopOfBook, LevelEvents, AccountEvents, AccountsMet, AscendingPrices, IsTouch, IsLadder, Held, Exposure, Sum, PricesPositive;
    var b := s.book;
    bp, ap, accounts := AscendingPrices(Buy, b.bids), AscendingPrices(Sell, b.asks), AccountsMet(b);
    WfSorted(b);
    PricesAreLadder(Buy, b.bids);
    PricesAreLadder(Sell, b.asks);
    AccountsMetExact(b);
    forall a
      ensures a in accounts <==> exists side, i :: 0 <= i < |Queue(b, side)| && Queue(b, side)[i].key.account == a
    {
      AccountsRest(b, a);
    }
    LevelRowsAre(Buy, b.bids, bp);
    LevelRowsAre(Sell, b.asks, ap);
    AccountRowsAre(b, accounts);
    TopIsTouch(b);
    SnapshotStep(config, s);
    var top := TopOfBook(b);
    var last := SnapshotSummary(top.0, top.1, b.lastTrade, |bp| + |ap|, |accounts|);
    FourParts(LevelEvents(Buy, b.bids, bp), LevelEvents(Sell, b.asks, ap), AccountEvents(b, accounts), last);
  }

  lemma SnapshotStep(config: RiskConfig, s: System)
    ensures Process(config, s, Snapshot) == Step(s.(seqNo := s.seqNo + 1), SnapshotEvents(s.book))
  {
    hide SnapshotEvents, TopOfBook;
  }

  lemma FourParts(xs: seq<Event>, ys: seq<Event>, zs: seq<Event>, last: Event)
    ensures var es := xs + ys + zs + [last];
            && |es| == |xs| + |ys| + |zs| + 1
            && (forall i :: 0 <= i < |xs| ==> es[i] == xs[i])
            && (forall i :: 0 <= i < |ys| ==> es[|xs| + i] == ys[i])
            && (forall i :: 0 <= i < |zs| ==> es[|xs| + |ys| + i] == zs[i])
            && es[|xs| + |ys| + |zs|] == last
  {
  }
}
