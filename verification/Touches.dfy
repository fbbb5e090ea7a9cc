/** The announced touch, by what it means: best price of a side and all that rests there. */
module Touches {
  import opened Types
  import opened Queues
  import opened BookViews
  import opened Matching
  import opened Risk
  import opened Runs
  import opened Shadows
  import opened MarketData
  import opened Rules

  /** Nothing on an empty side; otherwise a resting price no other is better than, with the whole quantity resting at it. */
  ghost predicate IsTouch(touch: Touch, side: Side, q: seq<Order>) {
    if q == [] then touch.None?
    else
      && touch.Some?
      && (exists i :: 0 <= i < |q| && q[i].price == touch.value.0)
      && (forall i :: 0 <= i < |q| ==> if side.Buy? then q[i].price <= touch.value.0 else q[i].price >= touch.value.0)
      && touch.value.1 == Sum(q, QtyAt(touch.value.0))
  }

  /** A side has one touch. */
  lemma TouchUnique(t: Touch, u: Touch, side: Side, q: seq<Order>)
    requires IsTouch(t, side, q) && IsTouch(u, side, q)
    ensures t == u
  {
  }

  lemma TopIsTouch(b: BookView)
    requires Wf(b)
    ensures IsTouch(TopOfBook(b).0, Buy, b.bids) && IsTouch(TopOfBook(b).1, Sell, b.asks)
  {
    hide Rostered, Unique, Disjoint, Positive, Uncrossed, Sum;
    forall i | 0 < i < |b.bids|
      ensures b.bids[i].price <= b.bids[0].price
    {
      assert !Better(Buy, b.bids[i].price, b.bids[0].price);
    }
    forall i | 0 < i < |b.asks|
      ensures b.asks[i].price >= b.asks[0].price
    {
      assert !Better(Sell, b.asks[i].price, b.asks[0].price);
    }
  }

  /**
   * After every run the latest announcement, or silence, tells each side's touch: empty exactly when nothing rests
   * there, otherwise the extreme price and the total quantity of all orders at it.
   */
  lemma RunAnnouncesTouch(config: RiskConfig, cs: seq<Command>)
    requires AllWellFormed(cs)
    ensures var r := Run(config, START, cs);
            var told := LatestTouch((None, None), r.events);
            IsTouch(told.0, Buy, r.system.book.bids) && IsTouch(told.1, Sell, r.system.book.asks)
  {
    hide Wf, Run, IsTouch, AllPrinted, TopOfBook;
    EmptyWf();
    RunWf(config, START, cs);
    SubscribersStayCurrent(config, cs);
    TopIsTouch(Run(config, START, cs).system.book);
  }

  lemma TopDiffers(b: BookView, b': BookView, bid: Touch, ask: Touch, bid': Touch, ask': Touch)
    requires Wf(b) && Wf(b')
    requires IsTouch(bid, Buy, b.bids) && IsTouch(ask, Sell, b.asks)
    requires IsTouch(bid', Buy, b'.bids) && IsTouch(ask', Sell, b'.asks)
    ensures TopOfBook(b) == (bid, ask) && TopOfBook(b') == (bid', ask')
  {
    hide Wf, TopOfBook, IsTouch;
    TopIsTouch(b);
    TopIsTouch(b');
    TouchUnique(TopOfBook(b).0, bid, Buy, b.bids);
    TouchUnique(TopOfBook(b).1, ask, Sell, b.asks);
    TouchUnique(TopOfBook(b').0, bid', Buy, b'.bids);
    TouchUnique(TopOfBook(b').1, ask', Sell, b'.asks);
  }

  /** A command announces the touch exactly when it moved it, once and last. */
  lemma AnnouncedIffMoved(config: RiskConfig, s: System, c: Command, bid: Touch, ask: Touch, bid': Touch, ask': Touch)
    requires Wf(s.book) && WellFormed(c)
    requires IsTouch(bid, Buy, s.book.bids) && IsTouch(ask, Sell, s.book.asks)
    requires var b := Process(config, s, c).system.book; IsTouch(bid', Buy, b.bids) && IsTouch(ask', Sell, b.asks)
    ensures var es := Process(config, s, c).events;
            && es == Own(es) + (if (bid, ask) == (bid', ask') then [] else [BookUpdate(bid', ask')])
            && forall i :: 0 <= i < |Own(es)| ==> !Own(es)[i].BookUpdate?
  {
    RejectIsRejected(config, s.killed, c, s.book);
    hide Wf, PreApplyCheck, Dispatch, TopOfBook, IsTouch, AllPrinted;
    ProcessWf(config, s, c);
    var p := Process(config, s, c);
    TopDiffers(s.book, p.system.book, bid, ask, bid', ask');
    if PreApplyCheck(config, s.killed, c, s.book).None? {
      DispatchTells(s.book, c);
      OwnIs(config, s, c);
    } else {
      OwnSame(p.events);
    }
  }
}
