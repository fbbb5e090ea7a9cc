/** What market-data subscribers can rely on: prints match fills, the touch and the last trade are never behind. */
module MarketData {
  import opened Types
  import opened Queues
  import opened BookViews
  import opened Matching
  import opened Sweeping
  import opened OrderTypes
  import opened Risk
  import opened Runs
  import opened Shadows

  // ---- Every print follows its two fills ----

  /** The event at `i` is a print of the two fills just before it. */
  predicate PrintsFills(es: seq<Event>, i: nat)
    requires i < |es| && es[i].Trade?
  {
    && i >= 2 && es[i - 2].Filled? && es[i - 1].Filled?
    && es[i - 2].key.account != es[i - 1].key.account
    && es[i - 2].side == es[i].takerSide && es[i - 1].side == Opposite(es[i].takerSide)
    && es[i - 2].price == es[i - 1].price == es[i].price
    && es[i - 2].qty == es[i - 1].qty == es[i].qty
  }

  ghost predicate AllPrinted(es: seq<Event>) {
    forall i :: 0 <= i < |es| && es[i].Trade? ==> PrintsFills(es, i)
  }

  lemma AllPrintedConcat(xs: seq<Event>, ys: seq<Event>)
    requires AllPrinted(xs) && AllPrinted(ys)
    ensures AllPrinted(xs + ys)
  {
    var es := xs + ys;
    forall i | 0 <= i < |es| && es[i].Trade?
      ensures PrintsFills(es, i)
    {
      if i < |xs| {
        assert PrintsFills(xs, i);
      } else {
        assert PrintsFills(ys, i - |xs|);
      }
    }
  }

  lemma NoPrints(es: seq<Event>)
    requires forall i :: 0 <= i < |es| ==> !es[i].Trade?
    ensures AllPrinted(es)
  {
  }

  lemma {:induction false} SweepPrinted(b: BookView, t: Taker, qty: Qty)
    ensures AllPrinted(Sweep(b, t, qty).events)
    decreases |Queue(b, Opposite(t.side))|, qty
  {
    hide Remove, SetQty;
    if !Stops(b, t, qty) {
      var h := Hit(b, t, qty);
      assert AllPrinted(h.events);
      hide AllPrinted;
      SweepPrinted(h.book, t, h.remaining);
      AllPrintedConcat(h.events, Sweep(h.book, t, h.remaining).events);
    }
  }

  // ---- One command ----

  /** The latest announced touch, or `before` if none was announced. */
  function LatestTouch(before: (Touch, Touch), es: seq<Event>): (Touch, Touch) {
    if es == [] then before
    else if es[|es| - 1].BookUpdate? then (es[|es| - 1].bestBid, es[|es| - 1].bestAsk)
    else LatestTouch(before, es[..|es| - 1])
  }

  lemma {:induction false} LatestTouchConcat(before: (Touch, Touch), xs: seq<Event>, ys: seq<Event>)
    ensures LatestTouch(before, xs + ys) == LatestTouch(LatestTouch(before, xs), ys)
  {
    if ys == [] {
      assert xs + ys == xs;
    } else {
      assert (xs + ys)[..|xs + ys| - 1] == xs + ys[..|ys| - 1];
      LatestTouchConcat(before, xs, ys[..|ys| - 1]);
    }
  }

  /** Neither a print nor a touch announcement. */
  predicate Private(e: Event) {
    !e.Trade? && !e.BookUpdate?
  }

  lemma {:induction false} PrivateKeeps(touch: (Touch, Touch), last: Option<Price>, es: seq<Event>)
    requires forall i :: 0 <= i < |es| ==> Private(es[i])
    ensures LatestTouch(touch, es) == touch && LatestTrade(last, es) == last && AllPrinted(es)
  {
    if es != [] {
      PrivateKeeps(touch, last, es[..|es| - 1]);
    }
  }

  lemma {:induction false} NoTouch(touch: (Touch, Touch), es: seq<Event>)
    requires forall i :: 0 <= i < |es| ==> !es[i].BookUpdate?
    ensures LatestTouch(touch, es) == touch
  {
    if es != [] {
      NoTouch(touch, es[..|es| - 1]);
    }
  }

  /** A dispatch announces no touch; its prints follow their fills and end at the book's last trade. */
  ghost predicate Tells(b: BookView, r: Outcome) {
    && (forall i :: 0 <= i < |r.events| ==> !r.events[i].BookUpdate?)
    && AllPrinted(r.events)
    && r.book.lastTrade == LatestTrade(b.lastTrade, r.events)
  }

  lemma PrivateTells(b: BookView, r: Outcome)
    requires (forall i :: 0 <= i < |r.events| ==> Private(r.events[i])) && r.book.lastTrade == b.lastTrade
    ensures Tells(b, r)
  {
    PrivateKeeps(TopOfBook(b), b.lastTrade, r.events);
  }

  lemma {:induction false} SweepKinds(b: BookView, t: Taker, qty: Qty)
    ensures forall i :: 0 <= i < |Sweep(b, t, qty).events| ==> !Sweep(b, t, qty).events[i].BookUpdate?
    decreases |Queue(b, Opposite(t.side))|, qty
  {
    hide Remove, SetQty;
    if !Stops(b, t, qty) {
      SweepKinds(Hit(b, t, qty).book, t, Hit(b, t, qty).remaining);
    }
  }

  lemma SweepTells(b: BookView, t: Taker, qty: Qty)
    ensures Tells(b, Outcome(Sweep(b, t, qty).book, Sweep(b, t, qty).events))
  {
    hide Sweep, AllPrinted, LatestTrade;
    SweepKinds(b, t, qty);
    SweepPrinted(b, t, qty);
    SweepLastTrade(b, t, qty);
  }

  /** Private events before or after change nothing, as long as the last trade stays. */
  lemma TellsAround(b: BookView, r: Outcome, pre: seq<Event>, post: seq<Event>, book: BookView)
    requires Tells(b, r) && book.lastTrade == r.book.lastTrade
    requires (forall i :: 0 <= i < |pre| ==> Private(pre[i])) && forall i :: 0 <= i < |post| ==> Private(post[i])
    ensures Tells(b, Outcome(book, pre + r.events + post))
  {
    PrivateKeeps(TopOfBook(b), b.lastTrade, pre);
    PrivateKeeps(TopOfBook(b), r.book.lastTrade, post);
    hide AllPrinted, LatestTrade;
    AllPrintedConcat(pre, r.events);
    AllPrintedConcat(pre + r.events, post);
    LatestTradeConcat(b.lastTrade, pre, r.events);
    LatestTradeConcat(b.lastTrade, pre + r.events, post);
  }

  lemma {:induction false} StpClearPrivate(b: BookView, t: Taker)
    ensures forall i :: 0 <= i < |StpClear(b, t).events| ==> Private(StpClear(b, t).events[i])
    ensures StpClear(b, t).book.lastTrade == b.lastTrade
    decreases |Queue(b, Opposite(t.side))|
  {
    var opp := Opposite(t.side);
    var q := Queue(b, opp);
    if q != [] && Crosses(t.side, t.limit, q[0].price) && q[0].key.account == t.key.account {
      StpClearPrivate(Remove(b, opp, 0), t);
    }
  }

  lemma {:induction false} CancelEachPrivate(b: BookView, a: AccountId, ids: seq<OrderId>)
    ensures forall i :: 0 <= i < |CancelEach(b, a, ids).events| ==> Private(CancelEach(b, a, ids).events[i])
    ensures CancelEach(b, a, ids).book.lastTrade == b.lastTrade
    decreases |ids|
  {
    hide Rests, Delete;
    if ids != [] {
      var k := OrderKey(a, ids[0]);
      if Rests(b, k) {
        DeleteLastTrade(b, k);
      }
      CancelEachPrivate(if Rests(b, k) then Delete(b, k) else b, a, ids[1..]);
    }
  }

  lemma NewOrderTells(b: BookView, c: Command)
    requires c.NewOrder?
    ensures Tells(b, Dispatch(b, c))
  {
    hide Sweep, StpClear, Tells, Fillable, Rests, With, JoinAt;
    var t := Taker(c.key, c.side, if c.kind.Market? then MarketLimit(c.side) else c.price);
    var r := Sweep(b, t, c.qty);
    PrivateTells(b, Outcome(b, [Rejected(c.key, DuplicateOrderId)]));
    PrivateTells(b, Outcome(b, [Rejected(c.key, NotFullyFillable)]));
    SweepTells(b, t, c.qty);
    StpClearPrivate(b, t);
    PrivateTells(b, SubmitPostOnly(b, t, c.qty));
    TellsAround(b, Outcome(r.book, r.events), [], [Accepted(c.key, r.remaining)], RestRemainder(r.book, t, r.remaining));
    TellsAround(b, Outcome(r.book, r.events), [], [Accepted(c.key, 0)], r.book);
    assert [] + r.events == r.events;
  }

  lemma ModifyTells(b: BookView, k: OrderKey, newPrice: Price, newQty: Qty)
    ensures Tells(b, Modify(b, k, newPrice, newQty))
  {
    hide Sweep, Tells, Rests, With, JoinAt;
    PrivateTells(b, Outcome(b, [Rejected(k, ZeroQuantity)]));
    PrivateTells(b, Outcome(b, [Rejected(k, UnknownOrderId)]));
    if Rests(b, k) && newQty > 0 {
      var side := SideOf(b, k);
      PrivateTells(b, Outcome(SetQty(b, side, Find(Queue(b, side), k), newQty), [Replaced(k, newQty, true)]));
      var b1, t := Delete(b, k), Taker(k, side, newPrice);
      var r := Sweep(b1, t, newQty);
      SweepTells(b1, t, newQty);
      TellsFrom(b1, b, Outcome(r.book, r.events));
      TellsAround(b, Outcome(r.book, r.events), [Replaced(k, newQty, false)], [], RestRemainder(r.book, t, r.remaining));
      assert [Replaced(k, newQty, false)] + r.events + [] == [Replaced(k, newQty, false)] + r.events;
    }
  }

  lemma TellsFrom(b1: BookView, b: BookView, r: Outcome)
    requires Tells(b1, r) && b1.lastTrade == b.lastTrade
    ensures Tells(b, r)
  {
  }

  lemma DispatchTells(b: BookView, c: Command)
    ensures Tells(b, Dispatch(b, c))
  {
    hide Tells, SubmitGtc, SubmitIoc, SubmitFok, SubmitPostOnly, SubmitMarket, Modify, CancelEach, SnapshotEvents, Rests;
    match c {
      case NewOrder(_, _, _, _, _, _, _) => NewOrderTells(b, c);
      case CancelOrder(k) => PrivateTells(b, Cancel(b, k));
      case CancelReplace(k, newPrice, newQty) => ModifyTells(b, k, newPrice, newQty);
      case MassCancel(a) =>
        CancelEachPrivate(b, a, OpenOrders(b, a));
        PrivateTells(b, CancelAll(b, a));
      case KillSwitch(_) => PrivateTells(b, Outcome(b, []));
      case Snapshot =>
        SnapshotSilent(b);
        PrivateTells(b, Outcome(b, SnapshotEvents(b)));
    }
  }

  /** A subscriber's picture of touch and last trade is the book's, and every print was filled. */
  ghost predicate Current(b: BookView, touch: (Touch, Touch), last: Option<Price>) {
    touch == TopOfBook(b) && last == b.lastTrade
  }

  lemma ProcessCurrent(config: RiskConfig, s: System, c: Command)
    ensures var p := Process(config, s, c);
            && Current(p.system.book, LatestTouch(TopOfBook(s.book), p.events), LatestTrade(s.book.lastTrade, p.events))
            && AllPrinted(p.events)
  {
    RejectIsRejected(config, s.killed, c, s.book);
    hide Dispatch, PreApplyCheck, TopOfBook;
    var reject := PreApplyCheck(config, s.killed, c, s.book);
    if reject.Some? {
      PrivateKeeps(TopOfBook(s.book), s.book.lastTrade, [reject.value]);
    } else {
      var r := Dispatch(s.book, c);
      var top := TopOfBook(r.book);
      var e := BookUpdate(top.0, top.1);
      DispatchTells(s.book, c);
      NoTouch(TopOfBook(s.book), r.events);
      LatestTouchConcat(TopOfBook(s.book), r.events, [e]);
      LatestTradeConcat(s.book.lastTrade, r.events, [e]);
      AllPrintedConcat(r.events, [e]);
    }
  }

  lemma {:induction false} RunCurrent(config: RiskConfig, s: System, cs: seq<Command>)
    ensures var r := Run(config, s, cs);
            && Current(r.system.book, LatestTouch(TopOfBook(s.book), r.events), LatestTrade(s.book.lastTrade, r.events))
            && AllPrinted(r.events)
    decreases |cs|
  {
    hide Process, TopOfBook, AllPrinted;
    NoPrints([]);
    if cs != [] {
      var p := Process(config, s, cs[0]);
      ProcessCurrent(config, s, cs[0]);
      RunCurrent(config, p.system, cs[1..]);
      var rest := Run(config, p.system, cs[1..]).events;
      LatestTouchConcat(TopOfBook(s.book), p.events, rest);
      LatestTradeConcat(s.book.lastTrade, p.events, rest);
      AllPrintedConcat(p.events, rest);
    }
  }

  /**
   * After every command of every run from an empty book, the latest announced touch (both sides empty if none
   * was) is the top of book, the latest print is the last trade, and every print directly follows the fills of
   * its taker and its maker: different accounts, opposite sides, same price and quantity.
   */
  lemma SubscribersStayCurrent(config: RiskConfig, cs: seq<Command>)
    ensures var r := Run(config, START, cs);
            && LatestTouch((None, None), r.events) == TopOfBook(r.system.book)
            && LatestTrade(None, r.events) == r.system.book.lastTrade
            && AllPrinted(r.events)
  {
    RunCurrent(config, START, cs);
  }
}
