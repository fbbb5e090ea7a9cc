/** What a trade is: always with a resting maker, at the maker's own price, inside the taker's limit. */
module Trades {
  import opened Types
  import opened Queues
  import opened BookViews
  import opened Matching
  import opened Sweeping
  import opened Risk
  import opened Runs
  import opened Shadows
  import opened MarketData

  /** The print at `i` is a deal of the taker `t` with the order at position `j` of the opposite queue. */
  ghost predicate DealAt(q: seq<Order>, t: Taker, es: seq<Event>, i: nat, j: nat)
    requires i < |es| && es[i].Trade?
  {
    && 2 <= i && j < |q| && q[j].key.account != t.key.account && WithinLimit(t, q[j].price)
    && 0 < es[i].qty <= q[j].qty
    && exists left: nat {:trigger Deal(t, q[j], es[i].qty, left)} :: es[i - 2..i + 1] == Deal(t, q[j], es[i].qty, left)
  }

  ghost predicate AllDeals(q: seq<Order>, t: Taker, es: seq<Event>) {
    forall i :: 0 <= i < |es| && es[i].Trade? ==> exists j: nat :: DealAt(q, t, es, i, j)
  }

  lemma DealsConcat(q: seq<Order>, t: Taker, xs: seq<Event>, ys: seq<Event>)
    requires AllDeals(q, t, xs) && AllDeals(q, t, ys)
    ensures AllDeals(q, t, xs + ys)
  {
    hide Deal;
    var es := xs + ys;
    forall i | 0 <= i < |es| && es[i].Trade?
      ensures exists j: nat :: DealAt(q, t, es, i, j)
    {
      if i < |xs| {
        var j: nat :| DealAt(q, t, xs, i, j);
        assert es[i - 2..i + 1] == xs[i - 2..i + 1];
        assert DealAt(q, t, es, i, j);
      } else {
        var j: nat :| DealAt(q, t, ys, i - |xs|, j);
        assert es[i - 2..i + 1] == ys[i - |xs| - 2..i - |xs| + 1];
        assert DealAt(q, t, es, i, j);
      }
    }
  }

  lemma DealsShift(q: seq<Order>, t: Taker, es: seq<Event>)
    requires q != [] && AllDeals(q[1..], t, es)
    ensures AllDeals(q, t, es)
  {
    hide Deal;
    forall i | 0 <= i < |es| && es[i].Trade?
      ensures exists j: nat :: DealAt(q, t, es, i, j)
    {
      var j: nat :| DealAt(q[1..], t, es, i, j);
      assert q[1..][j] == q[j + 1];
      assert DealAt(q, t, es, i, j + 1);
    }
  }

  lemma HitDeals(b: BookView, t: Taker, qty: Qty)
    requires !Stops(b, t, qty) && Positive(Queue(b, Opposite(t.side)))
    ensures AllDeals(Queue(b, Opposite(t.side)), t, Hit(b, t, qty).events)
  {
    HitQueue(b, t, qty);
    var q := Queue(b, Opposite(t.side));
    AheadStep(q, t, 0);
    hide Hit, Ahead;
    var es := Hit(b, t, qty).events;
    if q[0].key.account != t.key.account {
      var n := Min(q[0].qty, qty);
      assert es == Deal(t, q[0], n, qty - n);
      assert es[0..3] == es;
      assert DealAt(q, t, es, 2, 0);
    }
  }

  /** Every print of a sweep is a deal with an order of the queue as it was before the sweep. */
  lemma {:induction false} SweepDeals(b: BookView, t: Taker, qty: Qty)
    requires Positive(Queue(b, Opposite(t.side)))
    ensures AllDeals(Queue(b, Opposite(t.side)), t, Sweep(b, t, qty).events)
    decreases |Queue(b, Opposite(t.side))|, qty
  {
    hide AllDeals, Hit;
    var q := Queue(b, Opposite(t.side));
    if Stops(b, t, qty) {
      NoDeals(q, t, []);
    } else {
      var h := Hit(b, t, qty);
      HitDeals(b, t, qty);
      HitQueue(b, t, qty);
      if h.remaining == 0 {
        NoDeals(q, t, []);
        assert Sweep(h.book, t, h.remaining).events == [];
      } else {
        assert Queue(h.book, Opposite(t.side)) == q[1..];
        SweepDeals(h.book, t, h.remaining);
        DealsShift(q, t, Sweep(h.book, t, h.remaining).events);
      }
      DealsConcat(q, t, h.events, Sweep(h.book, t, h.remaining).events);
    }
  }

  lemma NoDeals(q: seq<Order>, t: Taker, es: seq<Event>)
    requires forall i :: 0 <= i < |es| ==> !es[i].Trade?
    ensures AllDeals(q, t, es)
  {
  }

  // ---- Each reached order, by its place in the queue ----

  lemma TurnsIndex(q: seq<Order>, t: Taker, qty: Qty, k: nat, i: nat) returns (n: nat)
    requires i < k <= |q| && forall j :: 0 <= j < k ==> Ahead(q, t, j) <= qty
    ensures n + |Turn(q, t, qty, i)| <= |Turns(q, t, qty, k)|
    ensures Turns(q, t, qty, k)[n..n + |Turn(q, t, qty, i)|] == Turn(q, t, qty, i)
    decreases k
  {
    hide Turn, Ahead;
    if i == k - 1 {
      n := |Turns(q, t, qty, k - 1)|;
    } else {
      n := TurnsIndex(q, t, qty, k - 1, i);
      assert Turns(q, t, qty, k)[n..n + |Turn(q, t, qty, i)|] == Turns(q, t, qty, k - 1)[n..n + |Turn(q, t, qty, i)|];
    }
  }

  /**
   * Every crossing order with less than the taker's quantity of foreign orders ahead of it gets its turn: an own one
   * is cancelled, a foreign one is dealt with at its own price, for what is left or all it has.
   */
  lemma ReachedOrdersTrade(b: BookView, t: Taker, qty: Qty, i: nat) returns (n: nat)
    requires var q := Queue(b, Opposite(t.side)); i < CrossLen(q, t) && Ahead(q, t, i) < qty
    ensures var q, es := Queue(b, Opposite(t.side)), Sweep(b, t, qty).events;
            if q[i].key.account == t.key.account then n < |es| && es[n] == Cancelled(q[i].key)
            else
              var taken := Min(q[i].qty, qty - Ahead(q, t, i));
              n + 3 <= |es| && es[n..n + 3] == Deal(t, q[i], taken, qty - Ahead(q, t, i) - taken)
  {
    hide Sweep, CrossLen, Ahead, StopsAt, Turns, SweepEvents, Leftover;
    var q, es := Queue(b, Opposite(t.side)), Sweep(b, t, qty).events;
    var k := SweepClosedForm(b, t, qty);
    n := TurnPlace(q, t, qty, k, i);
    var turn := Turn(q, t, qty, i);
    assert es[n..n + |turn|] == turn;
    assert turn != [] && es[n] == es[n..n + |turn|][0];
  }

  lemma TurnPlace(q: seq<Order>, t: Taker, qty: Qty, k: nat, i: nat) returns (n: nat)
    requires StopsAt(q, t, qty, k) && i < CrossLen(q, t) && Ahead(q, t, i) < qty
    ensures n + |Turn(q, t, qty, i)| <= |SweepEvents(q, t, qty, k)|
    ensures SweepEvents(q, t, qty, k)[n..n + |Turn(q, t, qty, i)|] == Turn(q, t, qty, i)
  {
    hide CrossLen, Ahead, Turn, Turns;
    ReachedBefore(q, t, qty, k, i);
    var es, ts := SweepEvents(q, t, qty, k), Turns(q, t, qty, k);
    if i < k {
      n := TurnsIndex(q, t, qty, k, i);
      assert es[n..n + |Turn(q, t, qty, i)|] == ts[n..n + |Turn(q, t, qty, i)|];
    } else {
      n := |ts|;
      assert es[n..] == Turn(q, t, qty, i);
    }
  }

  lemma ReachedBefore(q: seq<Order>, t: Taker, qty: Qty, k: nat, i: nat)
    requires StopsAt(q, t, qty, k) && i < CrossLen(q, t) && Ahead(q, t, i) < qty
    ensures i < k || (i == k && SplitsMaker(q, t, qty, k))
  {
    hide CrossLen, Ahead;
    if i >= k {
      AheadGrows(q, t, k, i);
    }
    if i > k {
      AheadGrows(q, t, k + 1, i);
    }
  }

  lemma {:induction false} AheadGrows(q: seq<Order>, t: Taker, i: nat, j: nat)
    requires i <= j <= |q|
    ensures Ahead(q, t, i) <= Ahead(q, t, j)
    decreases j - i
  {
    hide Ahead;
    if i < j {
      AheadStep(q, t, j - 1);
      AheadGrows(q, t, i, j - 1);
    }
  }

  // ---- Commands ----

  lemma PlaceOf(b: BookView, side: Side, j: nat)
    requires QueuesWf(b) && j < |Queue(b, side)|
    ensures var k := Queue(b, side)[j].key; Rests(b, k) && SideOf(b, k) == side && OrderOf(b, k) == Queue(b, side)[j]
  {
    hide Sorted, Positive, Uncrossed;
    var k := Queue(b, side)[j].key;
    RestsAt(b, side, j);
    assert HasKey(Queue(b, side), k) && Find(Queue(b, side), k) == j;
    assert side.Sell? ==> !HasKey(b.bids, k);
  }

  /** The taker a command sends into the book, with its limit; a market order accepts any price. */
  ghost predicate IsTaker(b: BookView, c: Command, t: Taker) {
    match c
    case NewOrder(k, side, price, _, kind, _, _) => t.key == k && t.side == side && (kind.Limit? ==> t.limit == price)
    case CancelReplace(k, newPrice, _) => t.key == k && Rests(b, k) && t.side == SideOf(b, k) && t.limit == newPrice
    case _ => false
  }

  /**
   * The print at `i` of a command's events: its two fills just before it name the command's own order and an order
   * that rested on the other side before the command, and all three carry that order's resting price.
   */
  ghost predicate MakerPrint(b: BookView, c: Command, es: seq<Event>, i: nat)
    requires i < |es| && es[i].Trade?
  {
    && 2 <= i && es[i - 1].Filled? && Rests(b, es[i - 1].key)
    && var maker := OrderOf(b, es[i - 1].key);
       var n := es[i].qty;
       && 0 < n <= maker.qty
       && exists t, left: nat {:trigger Deal(t, maker, n, left)} ::
            && IsTaker(b, c, t) && t.side != SideOf(b, maker.key) && maker.key.account != t.key.account
            && WithinLimit(t, maker.price)
            && es[i - 2..i + 1] == Deal(t, maker, n, left)
  }

  ghost predicate MakersPrice(b: BookView, c: Command, es: seq<Event>) {
    forall i :: 0 <= i < |es| && es[i].Trade? ==> MakerPrint(b, c, es, i)
  }

  lemma DealsArePrints(b: BookView, c: Command, t: Taker, q: seq<Order>, es: seq<Event>)
    requires AllDeals(q, t, es) && IsTaker(b, c, t)
    requires forall j :: 0 <= j < |q| ==> Rests(b, q[j].key) && OrderOf(b, q[j].key) == q[j] && SideOf(b, q[j].key) != t.side
    ensures MakersPrice(b, c, es)
  {
    hide IsTaker, Rests, SideOf, OrderOf;
    forall i | 0 <= i < |es| && es[i].Trade?
      ensures MakerPrint(b, c, es, i)
    {
      var j: nat :| DealAt(q, t, es, i, j);
      var left: nat :| es[i - 2..i + 1] == Deal(t, q[j], es[i].qty, left);
      assert es[i - 1] == es[i - 2..i + 1][1];
    }
  }

  lemma PrintMoved(b: BookView, c: Command, es: seq<Event>, i: nat, fs: seq<Event>, j: nat)
    requires i < |es| && es[i].Trade? && MakerPrint(b, c, es, i)
    requires j < |fs| && fs[j] == es[i] && i <= j && fs[j - i..j + 1] == es[..i + 1]
    ensures MakerPrint(b, c, fs, j)
  {
    hide IsTaker, Rests, SideOf, OrderOf, Deal;
    assert fs[j - 2..j + 1] == fs[j - i..j + 1][i - 2..];
    assert es[i - 2..i + 1] == es[..i + 1][i - 2..];
    assert fs[j - 1] == es[i - 1];
  }

  lemma MakersPriceLast(b: BookView, c: Command, es: seq<Event>, e: Event)
    requires MakersPrice(b, c, es) && !e.Trade?
    ensures MakersPrice(b, c, es + [e])
  {
    hide MakerPrint;
    forall i | 0 <= i < |es + [e]| && (es + [e])[i].Trade?
      ensures MakerPrint(b, c, es + [e], i)
    {
      assert MakerPrint(b, c, es, i);
      PrintMoved(b, c, es, i, es + [e], i);
    }
  }

  lemma MakersPriceFirst(b: BookView, c: Command, e: Event, es: seq<Event>)
    requires MakersPrice(b, c, es)
    requires !e.Trade?
    ensures MakersPrice(b, c, [e] + es)
  {
    hide MakerPrint;
    forall i | 0 <= i < |[e] + es| && ([e] + es)[i].Trade?
      ensures MakerPrint(b, c, [e] + es, i)
    {
      assert MakerPrint(b, c, es, i - 1);
      PrintMoved(b, c, es, i - 1, [e] + es, i);
    }
  }

  lemma NoMakers(b: BookView, c: Command, es: seq<Event>)
    requires forall i :: 0 <= i < |es| ==> !es[i].Trade?
    ensures MakersPrice(b, c, es)
  {
  }

  lemma SweepMakers(b: BookView, c: Command, t: Taker, qty: Qty)
    requires QueuesWf(b) && IsTaker(b, c, t)
    ensures MakersPrice(b, c, Sweep(b, t, qty).events)
  {
    hide Sorted, Unique, Disjoint, Uncrossed, IsTaker, AllDeals, MakersPrice, Sweep, Rests, SideOf, OrderOf;
    var q := Queue(b, Opposite(t.side));
    SweepDeals(b, t, qty);
    forall j | 0 <= j < |q|
      ensures Rests(b, q[j].key) && OrderOf(b, q[j].key) == q[j] && SideOf(b, q[j].key) != t.side
    {
      PlaceOf(b, Opposite(t.side), j);
    }
    DealsArePrints(b, c, t, q, Sweep(b, t, qty).events);
  }

  lemma NewOrderMakers(b: BookView, c: Command)
    requires QueuesWf(b) && c.NewOrder?
    ensures MakersPrice(b, c, Dispatch(b, c).events)
  {
    hide QueuesWf, MakersPrice, Sweep, Rests, Fillable, SubmitPostOnly;
    var t := Taker(c.key, c.side, if c.kind.Market? then MarketLimit(c.side) else c.price);
    var es := Sweep(b, t, c.qty).events;
    SweepMakers(b, c, t, c.qty);
    MakersPriceLast(b, c, es, Accepted(c.key, Sweep(b, t, c.qty).remaining));
    MakersPriceLast(b, c, es, Accepted(c.key, 0));
    NoMakers(b, c, [Rejected(c.key, DuplicateOrderId)]);
    NoMakers(b, c, [Rejected(c.key, NotFullyFillable)]);
    PostOnlyMakers(b, c, t);
  }

  lemma PostOnlyMakers(b: BookView, c: Command, t: Taker)
    requires c.NewOrder?
    ensures MakersPrice(b, c, SubmitPostOnly(b, t, c.qty).events)
  {
    hide StpClear, Rest, Rests;
    StpClearPrivate(b, t);
    NoMakers(b, c, SubmitPostOnly(b, t, c.qty).events);
  }

  /** The order of a queue after taking out the amended one is an order of the book before. */
  lemma DeletedPlace(b: BookView, k: OrderKey, j: nat)
    requires QueuesWf(b) && Rests(b, k)
    ensures var opp := Opposite(SideOf(b, k));
            && Queue(Delete(b, k), opp) == Queue(b, opp)
            && (j < |Queue(b, opp)| ==>
                  Rests(b, Queue(b, opp)[j].key) && OrderOf(b, Queue(b, opp)[j].key) == Queue(b, opp)[j]
                  && SideOf(b, Queue(b, opp)[j].key) == opp)
  {
    hide QueuesWf, Remove, Rests;
    var side := SideOf(b, k);
    RemoveKeepsOpposite(b, side, Find(Queue(b, side), k));
    if j < |Queue(b, Opposite(side))| {
      PlaceOf(b, Opposite(side), j);
    }
  }

  lemma ModifyMakers(b: BookView, c: Command)
    requires QueuesWf(b) && c.CancelReplace?
    ensures MakersPrice(b, c, Modify(b, c.key, c.newPrice, c.newQty).events)
  {
    var k := c.key;
    if c.newQty == 0 || !Rests(b, k) || (c.newPrice == OrderOf(b, k).price && c.newQty <= OrderOf(b, k).qty) {
      NoMakers(b, c, Modify(b, k, c.newPrice, c.newQty).events);
    } else {
      ReenterMakers(b, c, Taker(k, SideOf(b, k), c.newPrice));
    }
  }

  lemma ReenterMakers(b: BookView, c: Command, t: Taker)
    requires QueuesWf(b) && c.CancelReplace? && Rests(b, c.key) && t == Taker(c.key, SideOf(b, c.key), c.newPrice)
    ensures MakersPrice(b, c, [Replaced(c.key, c.newQty, false)] + Sweep(Delete(b, c.key), t, c.newQty).events)
  {
    hide Sorted, Unique, Disjoint, Uncrossed, MakersPrice, AllDeals, Sweep, Delete, Rests;
    var b1, q := Delete(b, c.key), Queue(b, Opposite(t.side));
    DeletedPlace(b, c.key, 0);
    SweepDeals(b1, t, c.newQty);
    forall j | 0 <= j < |q|
      ensures Rests(b, q[j].key) && OrderOf(b, q[j].key) == q[j] && SideOf(b, q[j].key) != t.side
    {
      DeletedPlace(b, c.key, j);
    }
    DealsArePrints(b, c, t, q, Sweep(b1, t, c.newQty).events);
    MakersPriceFirst(b, c, Replaced(c.key, c.newQty, false), Sweep(b1, t, c.newQty).events);
  }

  lemma OthersPrintNone(b: BookView, c: Command)
    requires !c.NewOrder? && !c.CancelReplace?
    ensures forall i :: 0 <= i < |Dispatch(b, c).events| ==> !Dispatch(b, c).events[i].Trade?
  {
    hide CancelEach, SnapshotEvents, Delete, Rests;
    match c {
      case CancelOrder(_) =>
      case MassCancel(a) => CancelEachPrivate(b, a, OpenOrders(b, a));
      case KillSwitch(_) =>
      case Snapshot => SnapshotSilent(b);
    }
  }

  /** Whatever one command prints, it prints at the price of an order that rested before the command. */
  lemma ProcessMakersPrice(config: RiskConfig, s: System, c: Command)
    requires Wf(s.book)
    ensures MakersPrice(s.book, c, Process(config, s, c).events)
  {
    RejectIsRejected(config, s.killed, c, s.book);
    hide QueuesWf, Rostered, MakersPrice, PreApplyCheck, Dispatch, TopOfBook;
    var reject := PreApplyCheck(config, s.killed, c, s.book);
    if reject.Some? {
      NoMakers(s.book, c, [reject.value]);
    } else {
      var r, top := Dispatch(s.book, c), TopOfBook(Dispatch(s.book, c).book);
      DispatchMakers(s.book, c);
      MakersPriceLast(s.book, c, r.events, BookUpdate(top.0, top.1));
    }
  }

  lemma DispatchMakers(b: BookView, c: Command)
    requires QueuesWf(b)
    ensures MakersPrice(b, c, Dispatch(b, c).events)
  {
    if c.NewOrder? {
      NewOrderMakers(b, c);
    } else if c.CancelReplace? {
      ModifyMakers(b, c);
    } else {
      OthersPrintNone(b, c);
      NoMakers(b, c, Dispatch(b, c).events);
    }
  }

  /** The last trade after a command is the last maker's resting price, or what it was if nothing traded. */
  lemma LastTradeIsMakers(config: RiskConfig, s: System, c: Command)
    requires Wf(s.book)
    ensures var p := Process(config, s, c);
            if exists i :: 0 <= i < |p.events| && p.events[i].Trade? then
              exists i :: 0 <= i < |p.events| && p.events[i].Trade? && MakerPrint(s.book, c, p.events, i)
                          && (forall j :: i < j < |p.events| ==> !p.events[j].Trade?)
                          && p.system.book.lastTrade == Some(OrderOf(s.book, p.events[i - 1].key).price)
            else p.system.book.lastTrade == s.book.lastTrade
  {
    hide Wf, Process, MakerPrint, TopOfBook;
    ProcessMakersPrice(config, s, c);
    ProcessCurrent(config, s, c);
    var es := Process(config, s, c).events;
    LatestIsLast(s.book.lastTrade, es);
    if i :| 0 <= i < |es| && es[i].Trade? && (forall j :: i < j < |es| ==> !es[j].Trade?)
            && LatestTrade(s.book.lastTrade, es) == Some(es[i].price) {
      PrintPrice(s.book, c, es, i);
    }
  }

  lemma PrintPrice(b: BookView, c: Command, es: seq<Event>, i: nat)
    requires i < |es| && es[i].Trade? && MakerPrint(b, c, es, i)
    ensures 2 <= i && es[i - 1].Filled? && Rests(b, es[i - 1].key) && es[i].price == OrderOf(b, es[i - 1].key).price
  {
    hide IsTaker, Rests, SideOf, OrderOf;
    assert es[i] == es[i - 2..i + 1][2];
  }

  lemma {:induction false} LatestIsLast(before: Option<Price>, es: seq<Event>)
    ensures if exists i :: 0 <= i < |es| && es[i].Trade?
            then exists i :: 0 <= i < |es| && es[i].Trade? && (forall j :: i < j < |es| ==> !es[j].Trade?)
                             && LatestTrade(before, es) == Some(es[i].price)
            else LatestTrade(before, es) == before
    decreases |es|
  {
    if es != [] && !es[|es| - 1].Trade? {
      var n := |es| - 1;
      LatestIsLast(before, es[..n]);
      if i :| 0 <= i < n && es[..n][i].Trade? && (forall j :: i < j < n ==> !es[..n][j].Trade?)
              && LatestTrade(before, es[..n]) == Some(es[..n][i].price) {
        assert es[i].Trade? && LatestTrade(before, es) == Some(es[i].price);
        forall j | i < j < |es|
          ensures !es[j].Trade?
        {
          assert j < n ==> es[..n][j] == es[j];
        }
      }
      if i :| 0 <= i < |es| && es[i].Trade? {
        assert es[..n][i].Trade?;
      }
    }
  }

  /** For every run: each print of each command carries the price its maker rested at just before that command. */
  lemma RunMakersPrice(config: RiskConfig, cs: seq<Command>, n: nat)
    requires AllWellFormed(cs) && n < |cs|
    ensures var s := Run(config, START, cs[..n]).system;
            MakersPrice(s.book, cs[n], Process(config, s, cs[n]).events)
  {
    hide Wf, Run, MakersPrice, Process;
    EmptyWf();
    RunWf(config, START, cs[..n]);
    ProcessMakersPrice(config, Run(config, START, cs[..n]).system, cs[n]);
  }
}
