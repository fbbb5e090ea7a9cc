/**
 * What each command does, stated about the whole step and in terms of the book before it: positions in its queues,
 * written-out events, and the closed form of matching.
 */
module Rules {
  import opened Types
  import opened Queues
  import opened BookViews
  import opened Matching
  import opened Sweeping
  import opened OrderTypes
  import opened Risk
  import opened Runs
  import opened Shadows
  import opened MarketData
  import opened Widths

  /** A command's events without the touch announcement that may end them. */
  function Own(events: seq<Event>): seq<Event> {
    if events != [] && events[|events| - 1].BookUpdate? then events[..|events| - 1] else events
  }

  lemma OwnIs(config: RiskConfig, s: System, c: Command)
    requires PreApplyCheck(config, s.killed, c, s.book).None?
    ensures var p, r := Process(config, s, c), Dispatch(s.book, c);
            Own(p.events) == r.events && p.system.book == r.book
  {
    hide Dispatch, PreApplyCheck, TopOfBook, AllPrinted;
    DispatchTells(s.book, c);
    var r, top := Dispatch(s.book, c), TopOfBook(Dispatch(s.book, c).book);
    var es := r.events + [BookUpdate(top.0, top.1)];
    assert es[..|es| - 1] == r.events;
  }

  lemma OwnSame(events: seq<Event>)
    requires forall i :: 0 <= i < |events| ==> !events[i].BookUpdate?
    ensures Own(events) == events
  {
  }

  /** `r` is `q` without the order `k`. */
  ghost predicate Lacks(r: seq<Order>, q: seq<Order>, k: OrderKey) {
    && (forall j :: 0 <= j < |r| ==> r[j].key != k)
    && if HasKey(q, k) then exists i {:trigger q[i]} :: 0 <= i < |q| && q[i].key == k && r == q[..i] + q[i + 1..]
       else r == q
  }

  lemma DeleteLacks(b: BookView, k: OrderKey, side: Side)
    requires Wf(b) && Rests(b, k)
    ensures Lacks(Queue(Delete(b, k), side), Queue(b, side), k)
  {
    hide Wf, Delete, Rests;
    DeleteQueue(b, k, side);
    var q, r := Queue(b, side), Queue(Delete(b, k), side);
    if HasKey(q, k) {
      var i := Find(q, k);
      FindIs(q, k);
      assert Without(q, i) == q[..i] + q[i + 1..];
    }
  }

  lemma FindIs(q: seq<Order>, k: OrderKey)
    requires HasKey(q, k)
    ensures Find(q, k) < |q| && q[Find(q, k)].key == k
  {
  }

  lemma GateIgnores(config: RiskConfig, killed: bool, c: Command, b: BookView)
    requires !c.NewOrder? && !c.CancelReplace?
    ensures PreApplyCheck(config, killed, c, b).None?
  {
  }

  // ---- Cancel ----

  /**
   * A cancel is never refused by the gate. It takes exactly its order out, reports that, and moves nothing else; for
   * an order that does not rest it reports that and moves nothing.
   */
  lemma CancelRule(config: RiskConfig, s: System, k: OrderKey)
    requires Wf(s.book)
    ensures var p := Process(config, s, CancelOrder(k));
            if Rests(s.book, k) then
              && Own(p.events) == [Cancelled(k)]
              && !Rests(p.system.book, k)
              && (forall side :: Lacks(Queue(p.system.book, side), Queue(s.book, side), k))
              && p.system.book.lastTrade == s.book.lastTrade && p.system.killed == s.killed
            else p.system == s.(seqNo := s.seqNo + 1) && p.events == [Rejected(k, UnknownOrderId)]
  {
    hide Wf, Rests, Delete, Lacks, PreApplyCheck, TopOfBook;
    GateIgnores(config, s.killed, CancelOrder(k), s.book);
    OwnIs(config, s, CancelOrder(k));
    if Rests(s.book, k) {
      DeleteWf(s.book, k);
      DeleteLastTrade(s.book, k);
      forall side
        ensures Lacks(Queue(Delete(s.book, k), side), Queue(s.book, side), k)
      {
        DeleteLacks(s.book, k, side);
      }
    }
  }

  // ---- Mass cancel, kill switch ----

  /** A mass cancel reports and removes every order of its account, whatever the switch says, and moves no other. */
  lemma MassCancelRule(config: RiskConfig, s: System, a: AccountId)
    requires Wf(s.book)
    ensures var p := Process(config, s, MassCancel(a));
            && |Own(p.events)| == |OpenOrders(s.book, a)|
            && (forall i :: 0 <= i < |OpenOrders(s.book, a)| ==> Own(p.events)[i] == Cancelled(OrderKey(a, OpenOrders(s.book, a)[i])))
            && (forall k :: Rests(p.system.book, k) <==> Rests(s.book, k) && k.account != a)
            && (forall side :: Queue(p.system.book, side) == Others(Queue(s.book, side), a))
            && p.system.book.lastTrade == s.book.lastTrade && p.system.killed == s.killed
  {
    hide Wf, CancelEach, PreApplyCheck, TopOfBook, Others, OpenOrders, Rests;
    GateIgnores(config, s.killed, MassCancel(a), s.book);
    OwnIs(config, s, MassCancel(a));
    MassCancelEffect(s.book, a);
    forall k
      ensures Rests(Process(config, s, MassCancel(a)).system.book, k) <==> Rests(s.book, k) && k.account != a
    {
      OthersRest(s.book, Process(config, s, MassCancel(a)).system.book, a, k);
    }
  }

  lemma {:induction false} OthersHas(q: seq<Order>, a: AccountId, k: OrderKey)
    ensures HasKey(Others(q, a), k) <==> HasKey(q, k) && k.account != a
  {
    if q != [] {
      OthersHas(q[1..], a, k);
      var head: seq<Order> := if q[0].key.account == a then [] else [q[0]];
      HasSplit(head, Others(q[1..], a), k);
      assert q == [q[0]] + q[1..];
      HasSplit([q[0]], q[1..], k);
      assert HasKey([q[0]], k) <==> q[0].key == k by { assert [q[0]][0] == q[0]; }
    }
  }

  lemma HasSplit(xs: seq<Order>, ys: seq<Order>, k: OrderKey)
    ensures HasKey(xs + ys, k) <==> HasKey(xs, k) || HasKey(ys, k)
  {
    if HasKey(xs, k) {
      var i :| 0 <= i < |xs| && xs[i].key == k;
      assert (xs + ys)[i].key == k;
    }
    if HasKey(ys, k) {
      var i :| 0 <= i < |ys| && ys[i].key == k;
      assert (xs + ys)[|xs| + i].key == k;
    }
  }

  lemma OthersRest(b: BookView, b': BookView, a: AccountId, k: OrderKey)
    requires b'.bids == Others(b.bids, a) && b'.asks == Others(b.asks, a)
    ensures Rests(b', k) <==> Rests(b, k) && k.account != a
  {
    hide Others;
    OthersHas(b.bids, a, k);
    OthersHas(b.asks, a, k);
    RestsIsHas(b, k);
    RestsIsHas(b', k);
  }

  lemma RestsIsHas(b: BookView, k: OrderKey)
    ensures Rests(b, k) <==> HasKey(b.bids, k) || HasKey(b.asks, k)
  {
    if Rests(b, k) {
      var side, i := RestsWhere(b, k);
      assert HasKey(Queue(b, side), k);
    }
  }

  /** A kill-switch command sets the switch, is never refused and does nothing else; no other command sets it. */
  lemma KillSwitchRule(config: RiskConfig, s: System, c: Command)
    ensures var p := Process(config, s, c);
            if c.KillSwitch? then p.events == [] && p.system == System(s.book, c.engaged, s.seqNo + 1)
            else p.system.killed == s.killed && p.system.seqNo == s.seqNo + 1
  {
    hide PreApplyCheck, Dispatch, TopOfBook;
    if c.KillSwitch? {
      GateIgnores(config, s.killed, c, s.book);
      KillSwitchInert(s.book, c);
    }
  }

  lemma KillSwitchInert(b: BookView, c: Command)
    requires c.KillSwitch?
    ensures Dispatch(b, c) == Outcome(b, [])
  {
  }

  // ---- New orders ----

  /** Where an order of price `p` joins a side: behind every price as good, ahead of every worse one. */
  predicate JoinsHere(side: Side, q: seq<Order>, p: Price, at: nat) {
    && at <= |q|
    && (forall i :: 0 <= i < at ==> if side.Buy? then q[i].price >= p else q[i].price <= p)
    && (forall i :: at <= i < |q| ==> if side.Buy? then q[i].price < p else q[i].price > p)
  }

  /** `r` is `q` with `o` joined at the back of its price, or `q` itself if there is nothing to join. */
  ghost predicate Joins(r: seq<Order>, side: Side, q: seq<Order>, o: Order) {
    if o.qty == 0 then r == q
    else exists at: nat {:trigger q[..at]} :: JoinsHere(side, q, o.price, at) && r == q[..at] + [o] + q[at..]
  }

  /**
   * The taker met the other side of `b` in price-time order and stopped: what is left of that side and the reports are
   * those of the closed form, and `left` is what foreign crossing depth did not cover.
   */
  ghost predicate Met(b: BookView, b': BookView, t: Taker, qty: Qty, left: Qty, reports: seq<Event>) {
    var q := Queue(b, Opposite(t.side));
    && left == Monus(qty, Ahead(q, t, CrossLen(q, t)))
    && exists k :: StopsAt(q, t, qty, k) && Queue(b', Opposite(t.side)) == Leftover(q, t, qty, k)
                   && reports == SweepEvents(q, t, qty, k)
  }

  lemma SweepMeets(b: BookView, t: Taker, qty: Qty)
    ensures var r := Sweep(b, t, qty);
            Met(b, r.book, t, qty, r.remaining, r.events) && Queue(r.book, t.side) == Queue(b, t.side)
  {
    hide Sweep, StopsAt, Leftover, SweepEvents, Ahead, CrossLen, ForeignDepth;
    var k := SweepClosedForm(b, t, qty);
    SweepRemaining(b, t, qty);
    DepthIsAhead(Queue(b, Opposite(t.side)), t);
    SweepFrame(b, t, qty);
  }

  lemma RestJoins(b: BookView, side: Side, o: Order)
    requires Sorted(side, Queue(b, side)) && o.qty > 0
    ensures Joins(Queue(Rest(b, side, o), side), side, Queue(b, side), o)
    ensures Queue(Rest(b, side, o), Opposite(side)) == Queue(b, Opposite(side))
  {
    hide Dismiss;
    var q := Queue(b, side);
    var at := JoinAt(side, q, o.price);
    JoinPlace(side, q, o.price);
    hide JoinAt, Sorted;
    assert With(q, at, o) == q[..at] + [o] + q[at..];
  }

  lemma JoinPlace(side: Side, q: seq<Order>, p: Price)
    requires Sorted(side, q)
    ensures JoinsHere(side, q, p, JoinAt(side, q, p))
  {
    var at := JoinAt(side, q, p);
    forall i | at <= i < |q|
      ensures if side.Buy? then q[i].price < p else q[i].price > p
    {
      assert i == at || !Better(side, q[i].price, q[at].price);
    }
  }

  lemma RemainderJoins(b: BookView, t: Taker, left: Qty)
    requires Sorted(t.side, Queue(b, t.side))
    ensures var b' := RestRemainder(b, t, left);
            && Joins(Queue(b', t.side), t.side, Queue(b, t.side), Order(t.key, t.limit, left))
            && Queue(b', Opposite(t.side)) == Queue(b, Opposite(t.side))
            && b'.lastTrade == b.lastTrade
  {
    hide Joins, Sorted;
    if left > 0 {
      RestJoins(b, t.side, Order(t.key, t.limit, left));
    } else {
      NothingJoins(t.side, Queue(b, t.side), Order(t.key, t.limit, left));
    }
  }

  lemma NothingJoins(side: Side, q: seq<Order>, o: Order)
    requires o.qty == 0
    ensures Joins(q, side, q, o)
  {
  }

  /** The taker met the other side, and what may rest of it joined its own. */
  ghost predicate Entered(b: BookView, b': BookView, t: Taker, qty: Qty, rests: bool, own: seq<Event>) {
    exists left: nat, reports ::
      && Met(b, b', t, qty, left, reports)
      && Joins(Queue(b', t.side), t.side, Queue(b, t.side), Order(t.key, t.limit, if rests then left else 0))
      && own == reports + [Accepted(t.key, if rests then left else 0)]
  }

  lemma GtcEnters(b: BookView, t: Taker, qty: Qty)
    requires Wf(b) && !Rests(b, t.key)
    ensures var r := SubmitGtc(b, t, qty); Entered(b, r.book, t, qty, true, r.events)
  {
    hide Rostered, Unique, Disjoint, Positive, Uncrossed, Sorted, Rests, Sweep, RestRemainder, Joins;
    var r := Sweep(b, t, qty);
    SweepMeets(b, t, qty);
    RemainderJoins(r.book, t, r.remaining);
    var b' := RestRemainder(r.book, t, r.remaining);
    MetElsewhere(b, r.book, b', t, qty, r.remaining, r.events);
  }

  lemma MetElsewhere(b: BookView, b1: BookView, b': BookView, t: Taker, qty: Qty, left: Qty, reports: seq<Event>)
    requires Met(b, b1, t, qty, left, reports) && Queue(b', Opposite(t.side)) == Queue(b1, Opposite(t.side))
    ensures Met(b, b', t, qty, left, reports)
  {
    hide StopsAt, Leftover, SweepEvents, Ahead, CrossLen;
  }

  lemma IocEnters(b: BookView, t: Taker, qty: Qty)
    ensures var r := Sweep(b, t, qty); Entered(b, r.book, t, qty, false, r.events + [Accepted(t.key, 0)])
  {
    hide Sweep, Met, Joins;
    SweepMeets(b, t, qty);
    NothingJoins(t.side, Queue(b, t.side), Order(t.key, t.limit, 0));
  }

  /** A new order the gate admits under an id that already rests changes nothing but the sequence number. */
  lemma DuplicateRule(config: RiskConfig, s: System, c: Command)
    requires c.NewOrder? && PreApplyCheck(config, s.killed, c, s.book).None? && Rests(s.book, c.key)
    ensures var p := Process(config, s, c);
            p.system == s.(seqNo := s.seqNo + 1) && p.events == [Rejected(c.key, DuplicateOrderId)]
  {
    hide PreApplyCheck, TopOfBook, Rests, Sweep, StpClear, Fillable;
  }

  /** Good till cancelled: it meets the other side, and the rest of it joins the back of its own price. */
  lemma GtcRule(config: RiskConfig, s: System, c: Command)
    requires Wf(s.book) && c.NewOrder? && c.kind.Limit? && c.tif.Gtc?
    requires PreApplyCheck(config, s.killed, c, s.book).None? && !Rests(s.book, c.key)
    ensures var p := Process(config, s, c);
            Entered(s.book, p.system.book, Taker(c.key, c.side, c.price), c.qty, true, Own(p.events))
  {
    hide Wf, PreApplyCheck, Rests, SubmitGtc, Entered, TopOfBook;
    OwnIs(config, s, c);
    GtcEnters(s.book, Taker(c.key, c.side, c.price), c.qty);
  }

  /** Immediate or cancel: it meets the other side, and the rest of it is dropped. */
  lemma IocRule(config: RiskConfig, s: System, c: Command)
    requires c.NewOrder? && c.kind.Limit? && c.tif.Ioc?
    requires PreApplyCheck(config, s.killed, c, s.book).None? && !Rests(s.book, c.key)
    ensures var p := Process(config, s, c);
            Entered(s.book, p.system.book, Taker(c.key, c.side, c.price), c.qty, false, Own(p.events))
  {
    hide PreApplyCheck, Rests, Sweep, Entered, TopOfBook;
    OwnIs(config, s, c);
    IocEnters(s.book, Taker(c.key, c.side, c.price), c.qty);
  }

  /** Market: as immediate or cancel, with a limit that every price is within. */
  lemma MarketRule(config: RiskConfig, s: System, c: Command) returns (t: Taker)
    requires c.NewOrder? && c.kind.Market?
    requires PreApplyCheck(config, s.killed, c, s.book).None? && !Rests(s.book, c.key)
    ensures t.key == c.key && t.side == c.side && forall p: Price :: WithinLimit(t, p)
    ensures var p := Process(config, s, c); Entered(s.book, p.system.book, t, c.qty, false, Own(p.events))
  {
    hide PreApplyCheck, Rests, Sweep, Entered, TopOfBook;
    t := Taker(c.key, c.side, MarketLimit(c.side));
    OwnIs(config, s, c);
    IocEnters(s.book, t, c.qty);
  }

  /** Fill or kill: all of it trades when foreign crossing depth covers it, otherwise nothing happens. */
  lemma FokRule(config: RiskConfig, s: System, c: Command)
    requires Wf(s.book) && c.NewOrder? && c.kind.Limit? && c.tif.Fok?
    requires PreApplyCheck(config, s.killed, c, s.book).None? && !Rests(s.book, c.key)
    ensures var p, t := Process(config, s, c), Taker(c.key, c.side, c.price);
            var q := Queue(s.book, Opposite(c.side));
            if Ahead(q, t, CrossLen(q, t)) >= c.qty then
              Entered(s.book, p.system.book, t, c.qty, false, Own(p.events)) && FilledQty(p.events, c.key) == c.qty
            else p.system == s.(seqNo := s.seqNo + 1) && p.events == [Rejected(c.key, NotFullyFillable)]
  {
    hide Wf, PreApplyCheck, Rests, Sweep, Entered, TopOfBook, ForeignDepth, Ahead, CrossLen, FilledQty;
    var t := Taker(c.key, c.side, c.price);
    OwnIs(config, s, c);
    IocEnters(s.book, t, c.qty);
    DepthIsAhead(Queue(s.book, Opposite(c.side)), t);
    FokAllOrNothing(s.book, t, c.qty);
    OwnFills(Process(config, s, c).events, c.key);
  }

  lemma OwnFills(events: seq<Event>, k: OrderKey)
    ensures FilledQty(events, k) == FilledQty(Own(events), k)
  {
    if Own(events) != events {
      var n := |events| - 1;
      assert events == events[..n] + [events[n]];
      FilledQtyConcat(events[..n], [events[n]], k);
      assert [events[n]][1..] == [];
    }
  }

  /**
   * Post only: with no foreign order in reach all of it rests, own orders in reach cancelled; otherwise it is refused,
   * and the own orders ahead of the first foreign one are cancelled all the same.
   */
  lemma PostOnlyRule(config: RiskConfig, s: System, c: Command)
    requires Wf(s.book) && c.NewOrder? && c.kind.Limit? && c.tif.PostOnly? && c.qty > 0
    requires PreApplyCheck(config, s.killed, c, s.book).None? && !Rests(s.book, c.key)
    ensures var p, t := Process(config, s, c), Taker(c.key, c.side, c.price);
            var q := Queue(s.book, Opposite(c.side));
            var n := OwnPrefix(q, t);
            if Ahead(q, t, CrossLen(q, t)) == 0 then Entered(s.book, p.system.book, t, c.qty, true, Own(p.events))
            else
              && |Own(p.events)| == n + 1 && Own(p.events)[n] == Rejected(c.key, WouldCross)
              && (forall i :: 0 <= i < n ==> Own(p.events)[i] == Cancelled(q[i].key))
              && Queue(p.system.book, Opposite(c.side)) == q[n..] && Queue(p.system.book, c.side) == Queue(s.book, c.side)
              && p.system.book.lastTrade == s.book.lastTrade
  {
    hide Wf, PreApplyCheck, Rests, Sweep, Entered, TopOfBook, ForeignDepth, Ahead, CrossLen, StpClear, RestRemainder, Rest;
    var t := Taker(c.key, c.side, c.price);
    var q := Queue(s.book, Opposite(c.side));
    OwnIs(config, s, c);
    DepthIsAhead(q, t);
    PostOnlyIsGtcIff(s.book, t, c.qty);
    GtcEnters(s.book, t, c.qty);
    PostOnlyWalk(s.book, t);
    BlockedIffDepth(s.book, t);
    WalkKeepsTrade(s.book, t);
    PrefixEnds(q, t);
    CancelsAre(q[..OwnPrefix(q, t)]);
  }

  lemma CancelsAre(q: seq<Order>)
    ensures |Cancels(q)| == |q| && forall i :: 0 <= i < |q| ==> Cancels(q)[i] == Cancelled(q[i].key)
  {
  }

  lemma {:induction false} WalkKeepsTrade(b: BookView, t: Taker)
    ensures StpClear(b, t).book.lastTrade == b.lastTrade
    decreases |Queue(b, Opposite(t.side))|
  {
    hide Crosses;
    var opp := Opposite(t.side);
    var q := Queue(b, opp);
    if q != [] && Crosses(t.side, t.limit, q[0].price) && q[0].key.account == t.key.account {
      WalkKeepsTrade(Remove(b, opp, 0), t);
    }
  }

  // ---- Amend ----

  /** Taken out of the book, the order met the other side under its new terms and what was left joined its own. */
  ghost predicate Reentered(b: BookView, b': BookView, t: Taker, qty: Qty, own: seq<Event>) {
    exists b1, left: nat, reports ::
      && (forall side :: Lacks(Queue(b1, side), Queue(b, side), t.key))
      && Met(b1, b', t, qty, left, reports)
      && Joins(Queue(b', t.side), t.side, Queue(b1, t.side), Order(t.key, t.limit, left))
      && own == [Replaced(t.key, qty, false)] + reports
  }

  lemma ReenterEnters(b: BookView, k: OrderKey, newPrice: Price, newQty: Qty)
    requires Wf(b) && Rests(b, k) && newQty > 0 && (newPrice != OrderOf(b, k).price || newQty > OrderOf(b, k).qty)
    ensures var r := Modify(b, k, newPrice, newQty); Reentered(b, r.book, Taker(k, SideOf(b, k), newPrice), newQty, r.events)
  {
    hide Rostered, Unique, Disjoint, Positive, Uncrossed, Sorted, Rests, Sweep, RestRemainder, Joins, Delete, Lacks;
    var b1, t := Delete(b, k), Taker(k, SideOf(b, k), newPrice);
    var r := Sweep(b1, t, newQty);
    DeleteWf(b, k);
    SweepMeets(b1, t, newQty);
    RemainderJoins(r.book, t, r.remaining);
    var b' := RestRemainder(r.book, t, r.remaining);
    MetElsewhere(b1, r.book, b', t, newQty, r.remaining, r.events);
    forall side
      ensures Lacks(Queue(b1, side), Queue(b, side), k)
    {
      DeleteLacks(b, k, side);
    }
  }

  /**
   * An amend the gate admits: quantity zero and unknown orders are refused; a decrease at the same price changes that
   * quantity in place; anything else goes through the market again and loses its place.
   */
  lemma AmendRule(config: RiskConfig, s: System, c: Command)
    requires Wf(s.book) && c.CancelReplace? && PreApplyCheck(config, s.killed, c, s.book).None?
    ensures var p, k := Process(config, s, c), c.key;
            if c.newQty == 0 then p.system == s.(seqNo := s.seqNo + 1) && p.events == [Rejected(k, ZeroQuantity)]
            else if !Rests(s.book, k) then p.system == s.(seqNo := s.seqNo + 1) && p.events == [Rejected(k, UnknownOrderId)]
            else
              var side, o := SideOf(s.book, k), OrderOf(s.book, k);
              if c.newPrice == o.price && c.newQty <= o.qty then
                && Own(p.events) == [Replaced(k, c.newQty, true)]
                && Queue(p.system.book, Opposite(side)) == Queue(s.book, Opposite(side))
                && p.system.book.lastTrade == s.book.lastTrade
                && exists i {:trigger Queue(s.book, side)[i]} :: 0 <= i < |Queue(s.book, side)| && Queue(s.book, side)[i] == o
                     && Queue(p.system.book, side) == Queue(s.book, side)[i := Order(k, o.price, c.newQty)]
              else Reentered(s.book, p.system.book, Taker(k, side, c.newPrice), c.newQty, Own(p.events))
  {
    hide Wf, PreApplyCheck, Rests, Sweep, Reentered, TopOfBook, Delete, RestRemainder;
    var k := c.key;
    OwnIs(config, s, c);
    if c.newQty == 0 || !Rests(s.book, k) {
    } else if c.newPrice == OrderOf(s.book, k).price && c.newQty <= OrderOf(s.book, k).qty {
      ShrinkKeepsPlace(s.book, k, c.newQty);
      var side := SideOf(s.book, k);
      var q, i := Queue(s.book, side), Find(Queue(s.book, side), k);
      assert q[i] == OrderOf(s.book, k);
      assert Queue(Process(config, s, c).system.book, side) == q[i := Order(k, q[i].price, c.newQty)];
    } else {
      ReenterEnters(s.book, k, c.newPrice, c.newQty);
    }
  }
}
