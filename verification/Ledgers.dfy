/** Quantity conservation over every run: nothing is lost, and only immediate orders may discard. */
module Ledgers {
  import opened Types
  import opened Queues
  import opened BookViews
  import opened Matching
  import opened Risk
  import opened Runs
  import opened Shadows
  import opened Sweeping

  /**
   * Running totals read off the events of each command. `own` is what the command's own order has filled so
   * far; a match is booked once in `filled`, on its maker's report.
   */
  datatype Ledger = Ledger(submitted: nat, filled: nat, cancelled: nat, discarded: nat, own: nat, shadow: Shadow)

  const BLANK: Ledger := Ledger(0, 0, 0, 0, 0, map[])

  predicate IsOwn(c: Command, k: OrderKey) {
    (c.NewOrder? || c.CancelReplace?) && c.key == k
  }

  /** Orders whose unfilled part does not rest. A fill-or-kill order has none: it fills in full or is refused. */
  predicate MayDiscard(c: Command) {
    c.NewOrder? && (c.kind.Market? || c.tif.Ioc?)
  }

  /** Book one event of command `c`. */
  function Post(l: Ledger, c: Command, e: Event): Ledger {
    var l' := l.(shadow := Note(l.shadow, e));
    match e
    case Cancelled(k) => l'.(cancelled := l.cancelled + Look(l.shadow, k))
    case Filled(k, _, _, qty, _, _) => if IsOwn(c, k) then l'.(own := l.own + qty) else l'.(filled := l.filled + qty)
    case Accepted(_, resting) =>
      if c.NewOrder? then
        l'.(submitted := l.submitted + c.qty,
            discarded := l.discarded + if MayDiscard(c) then Monus(c.qty, l.own + resting) else 0)
      else l'
    case Replaced(k, newQty, _) =>
      l'.(submitted := l.submitted + Monus(newQty, Look(l.shadow, k)),
          cancelled := l.cancelled + Monus(Look(l.shadow, k), newQty))
    case _ => l'
  }

  function PostAll(l: Ledger, c: Command, events: seq<Event>): Ledger
    decreases |events|
  {
    if events == [] then l else PostAll(Post(l, c, events[0]), c, events[1..])
  }

  /** Book one command: its own fills start from zero. */
  function PostCommand(l: Ledger, c: Command, events: seq<Event>): Ledger {
    PostAll(l.(own := 0), c, events)
  }

  /** The books balance with `inflight` quantity out of the book and `own` of it already traded. */
  ghost predicate Balanced(l: Ledger, b: BookView, inflight: nat) {
    l.submitted + l.own == 2 * l.filled + TotalResting(b) + l.cancelled + l.discarded + inflight
  }

  lemma {:induction false} PostAllConcat(l: Ledger, c: Command, xs: seq<Event>, ys: seq<Event>)
    ensures PostAll(l, c, xs + ys) == PostAll(PostAll(l, c, xs), c, ys)
    decreases |xs|
  {
    if xs == [] {
      assert xs + ys == ys;
    } else {
      assert (xs + ys)[1..] == xs[1..] + ys;
      PostAllConcat(Post(l, c, xs[0]), c, xs[1..], ys);
    }
  }

  lemma {:induction false} PostAllShadow(l: Ledger, c: Command, events: seq<Event>)
    ensures PostAll(l, c, events).shadow == Rebuild(l.shadow, events)
    decreases |events|
  {
    if events != [] {
      PostAllShadow(Post(l, c, events[0]), c, events[1..]);
    }
  }

  lemma PostOne(l: Ledger, c: Command, e: Event)
    ensures PostAll(l, c, [e]) == Post(l, c, e)
  {
    assert [e][1..] == [];
  }

  // ---- Total resting quantity across the three steps ----

  lemma RemoveTotal(b: BookView, side: Side, i: nat)
    requires i < |Queue(b, side)|
    ensures TotalResting(Remove(b, side, i)) == TotalResting(b) - Queue(b, side)[i].qty
  {
    SumWithout(Queue(b, side), i, Quantity());
  }

  lemma SetQtyTotal(b: BookView, side: Side, i: nat, qty: Qty)
    requires i < |Queue(b, side)|
    ensures TotalResting(SetQty(b, side, i, qty)) == TotalResting(b) - Queue(b, side)[i].qty + qty
  {
    SumUpdate(Queue(b, side), i, Queue(b, side)[i].(qty := qty), Quantity());
  }

  lemma RestTotal(b: BookView, side: Side, o: Order)
    ensures TotalResting(Rest(b, side, o)) == TotalResting(b) + o.qty
  {
    SumWith(Queue(b, side), JoinAt(side, Queue(b, side), o.price), o, Quantity());
  }

  // ---- Sweeps ----

  lemma HitOwnBalances(l: Ledger, c: Command, b: BookView, t: Taker, qty: Qty, inflight: nat)
    requires Wf(b) && !Stops(b, t, qty) && MirrorsBut(l.shadow, b, t.key) && !Rests(b, t.key)
    requires Queue(b, Opposite(t.side))[0].key.account == t.key.account && Balanced(l, b, inflight)
    ensures var h := Hit(b, t, qty);
            var l' := PostAll(l, c, h.events);
            Balanced(l', h.book, inflight) && l'.own == l.own && h.remaining == qty
  {
    var maker := Queue(b, Opposite(t.side))[0];
    PostOne(l, c, Cancelled(maker.key));
    RestsAt(b, Opposite(t.side), 0);
    QtyAtPosition(b, Opposite(t.side), 0);
    RemoveTotal(b, Opposite(t.side), 0);
  }

  lemma HitFillBalances(l: Ledger, c: Command, b: BookView, t: Taker, qty: Qty, inflight: nat)
    requires !Stops(b, t, qty) && IsOwn(c, t.key)
    requires Queue(b, Opposite(t.side))[0].key.account != t.key.account && Balanced(l, b, inflight)
    ensures var h := Hit(b, t, qty);
            var l' := PostAll(l, c, h.events);
            Balanced(l', h.book, inflight) && h.remaining <= qty && l'.own == l.own + qty - h.remaining
  {
    hide PostAll, Remove, SetQty;
    var opp := Opposite(t.side);
    var maker := Queue(b, opp)[0];
    var h := Hit(b, t, qty);
    var e := h.events;
    assert e == [e[0]] + ([e[1]] + [e[2]]);
    PostAllConcat(l, c, [e[0]], [e[1]] + [e[2]]);
    PostAllConcat(Post(l, c, e[0]), c, [e[1]], [e[2]]);
    PostOne(l, c, e[0]);
    PostOne(Post(l, c, e[0]), c, e[1]);
    PostOne(Post(Post(l, c, e[0]), c, e[1]), c, e[2]);
    var traded := b.(lastTrade := Some(maker.price));
    RemoveTotal(traded, opp, 0);
    if qty < maker.qty {
      SetQtyTotal(traded, opp, 0, maker.qty - qty);
    }
  }

  lemma {:induction false} SweepBalances(l: Ledger, c: Command, b: BookView, t: Taker, qty: Qty, inflight: nat)
    requires Wf(b) && !Rests(b, t.key) && MirrorsBut(l.shadow, b, t.key) && Balanced(l, b, inflight) && IsOwn(c, t.key)
    ensures var r := Sweep(b, t, qty);
            var l' := PostAll(l, c, r.events);
            Balanced(l', r.book, inflight) && r.remaining <= qty && l'.own == l.own + qty - r.remaining
    decreases |Queue(b, Opposite(t.side))|, qty
  {
    hide Wf, Rests, MirrorsBut, Hit, Balanced, Rebuild, Post;
    if !Stops(b, t, qty) {
      var h := Hit(b, t, qty);
      if Queue(b, Opposite(t.side))[0].key.account == t.key.account {
        HitOwnBalances(l, c, b, t, qty, inflight);
      } else {
        HitFillBalances(l, c, b, t, qty, inflight);
      }
      HitMirrors(l.shadow, b, t, qty);
      PostAllShadow(l, c, h.events);
      HitWf(b, t, qty);
      WfQueues(b);
      HitRests(b, t, qty, t.key);
      SweepBalances(PostAll(l, c, h.events), c, h.book, t, h.remaining, inflight);
      PostAllConcat(l, c, h.events, Sweep(h.book, t, h.remaining).events);
    }
  }

  // ---- Whole commands ----

  lemma RemainderTotal(b: BookView, t: Taker, remaining: Qty)
    ensures TotalResting(RestRemainder(b, t, remaining)) == TotalResting(b) + remaining
  {
    if remaining > 0 {
      RestTotal(b, t.side, Order(t.key, t.limit, remaining));
    }
  }

  /** A new order: what it fills, rests and discards is what it submitted. */
  lemma SubmitBalances(l: Ledger, c: Command, b: BookView, t: Taker, rests: bool)
    requires Wf(b) && !Rests(b, t.key) && MirrorsBut(l.shadow, b, t.key) && Balanced(l, b, 0) && l.own == 0
    requires c.NewOrder? && c.key == t.key && (rests || MayDiscard(c) || Sweep(b, t, c.qty).remaining == 0)
    ensures var r := Sweep(b, t, c.qty);
            var left := if rests then r.remaining else 0;
            var l' := PostAll(l, c, r.events + [Accepted(t.key, left)]);
            l'.submitted == 2 * l'.filled + TotalResting(RestRemainder(r.book, t, left)) + l'.cancelled + l'.discarded
  {
    hide Wf, Rests, MirrorsBut, Sweep, PostAll, RestRemainder, TotalResting;
    var r := Sweep(b, t, c.qty);
    var left := if rests then r.remaining else 0;
    SweepBalances(l, c, b, t, c.qty, 0);
    PostAllConcat(l, c, r.events, [Accepted(t.key, left)]);
    PostOne(PostAll(l, c, r.events), c, Accepted(t.key, left));
    RemainderTotal(r.book, t, left);
  }

  lemma {:induction false} StpClearBalances(l: Ledger, c: Command, b: BookView, t: Taker)
    requires Wf(b) && Mirrors(l.shadow, b) && Balanced(l, b, 0)
    ensures var r := StpClear(b, t);
            var l' := PostAll(l, c, r.events);
            Balanced(l', r.book, 0) && l'.own == l.own
    decreases |Queue(b, Opposite(t.side))|
  {
    hide Wf, Mirrors, Rebuild;
    var opp := Opposite(t.side);
    var q := Queue(b, opp);
    if q == [] || !Crosses(t.side, t.limit, q[0].price) {
    } else if q[0].key.account == t.key.account {
      var l1 := PostAll(l, c, [Cancelled(q[0].key)]);
      WfQueues(b);
      CancelBalances(l, c, b, opp, 0, 0);
      CancelMirrors(l.shadow, b, opp, 0);
      PostAllShadow(l, c, [Cancelled(q[0].key)]);
      RemoveWf(b, opp, 0);
      hide QueuesWf, Balanced, Post;
      StpClearBalances(l1, c, Remove(b, opp, 0), t);
      PostAllConcat(l, c, [Cancelled(q[0].key)], StpClear(Remove(b, opp, 0), t).events);
    }
  }

  lemma CancelBalances(l: Ledger, c: Command, b: BookView, side: Side, i: nat, inflight: nat)
    requires QueuesWf(b) && i < |Queue(b, side)| && Mirrors(l.shadow, b) && Balanced(l, b, inflight)
    ensures var l' := PostAll(l, c, [Cancelled(Queue(b, side)[i].key)]);
            Balanced(l', Remove(b, side, i), inflight) && l'.own == l.own
  {
    hide QueuesWf, PostAll, Remove, RestingQty, TotalResting, Rests;
    PostOne(l, c, Cancelled(Queue(b, side)[i].key));
    QtyAtPosition(b, side, i);
    RemoveTotal(b, side, i);
  }

  lemma PostOnlyBalances(l: Ledger, c: Command, b: BookView, t: Taker)
    requires Wf(b) && Mirrors(l.shadow, b) && Balanced(l, b, 0) && l.own == 0 && c.NewOrder? && c.key == t.key
    ensures var r := SubmitPostOnly(b, t, c.qty);
            var l' := PostAll(l, c, r.events);
            l'.submitted == 2 * l'.filled + TotalResting(r.book) + l'.cancelled + l'.discarded
  {
    hide Wf, Mirrors, StpClear, PostAll, Rests, TotalResting;
    if Rests(b, t.key) {
      PostOne(l, c, Rejected(t.key, DuplicateOrderId));
    } else {
      var r := StpClear(b, t);
      var l1 := PostAll(l, c, r.events);
      StpClearBalances(l, c, b, t);
      PostAllConcat(l, c, r.events, [Rejected(t.key, WouldCross)]);
      PostAllConcat(l, c, r.events, [Accepted(t.key, c.qty)]);
      PostOne(l1, c, Rejected(t.key, WouldCross));
      PostOne(l1, c, Accepted(t.key, c.qty));
      RestTotal(r.book, t.side, Order(t.key, t.limit, c.qty));
    }
  }

  /** An amend books its increase as submitted or its decrease as cancelled; the re-entry trades the rest. */
  lemma ModifyBalances(l: Ledger, c: Command, b: BookView)
    requires Wf(b) && Mirrors(l.shadow, b) && Balanced(l, b, 0) && l.own == 0 && c.CancelReplace?
    ensures var r := Modify(b, c.key, c.newPrice, c.newQty);
            var l' := PostAll(l, c, r.events);
            l'.submitted == 2 * l'.filled + TotalResting(r.book) + l'.cancelled + l'.discarded
  {
    hide Wf, Mirrors, PostAll, Rests, Sweep, Remove, SetQty, TotalResting;
    var k := c.key;
    if c.newQty == 0 {
      PostOne(l, c, Rejected(k, ZeroQuantity));
    } else if !Rests(b, k) {
      PostOne(l, c, Rejected(k, UnknownOrderId));
    } else {
      var side := SideOf(b, k);
      var i := Find(Queue(b, side), k);
      LookResting(l.shadow, b, k);
      RemoveTotal(b, side, i);
      if c.newPrice == OrderOf(b, k).price && c.newQty <= OrderOf(b, k).qty {
        PostOne(l, c, Replaced(k, c.newQty, true));
        SetQtyTotal(b, side, i, c.newQty);
      } else {
        ReenterBalances(l, c, b, side);
      }
    }
  }

  lemma LookResting(m: Shadow, b: BookView, k: OrderKey)
    requires Wf(b) && Mirrors(m, b) && Rests(b, k)
    ensures Look(m, k) == OrderOf(b, k).qty
  {
    hide Rostered, Sorted, Positive, Uncrossed;
    var side := SideOf(b, k);
    QtyAtPosition(b, side, Find(Queue(b, side), k));
  }

  lemma ReenterBalances(l: Ledger, c: Command, b: BookView, side: Side)
    requires Wf(b) && Mirrors(l.shadow, b) && Balanced(l, b, 0) && l.own == 0 && c.CancelReplace? && Rests(b, c.key)
    ensures var t := Taker(c.key, side, c.newPrice);
            var r := Sweep(Delete(b, c.key), t, c.newQty);
            var l' := PostAll(l, c, [Replaced(c.key, c.newQty, false)] + r.events);
            l'.submitted == 2 * l'.filled + TotalResting(RestRemainder(r.book, t, r.remaining)) + l'.cancelled + l'.discarded
  {
    hide Wf, Mirrors, MirrorsBut, PostAll, Rests, Sweep, Remove, TotalResting, RestRemainder;
    var k := c.key;
    var t := Taker(k, side, c.newPrice);
    var b1 := Delete(b, k);
    var l1 := Post(l, c, Replaced(k, c.newQty, false));
    LookResting(l.shadow, b, k);
    RemoveTotal(b, SideOf(b, k), Find(Queue(b, SideOf(b, k)), k));
    PostOne(l, c, Replaced(k, c.newQty, false));
    DeleteWf(b, k);
    RemovedMirrorsBut(l.shadow, b, k);
    PutMirrorsBut(l.shadow, b1, k, c.newQty);
    assert Balanced(l1, b1, c.newQty);
    SweepBalances(l1, c, b1, t, c.newQty, c.newQty);
    var r := Sweep(b1, t, c.newQty);
    PostAllConcat(l, c, [Replaced(k, c.newQty, false)], r.events);
    RemainderTotal(r.book, t, r.remaining);
  }

  lemma {:induction false} CancelEachBalances(l: Ledger, c: Command, b: BookView, a: AccountId, ids: seq<OrderId>)
    requires Wf(b) && Mirrors(l.shadow, b) && Balanced(l, b, 0)
    ensures var r := CancelEach(b, a, ids);
            var l' := PostAll(l, c, r.events);
            Balanced(l', r.book, 0) && l'.own == l.own
    decreases |ids|
  {
    hide Wf, Mirrors, Rests, Rebuild, Remove, Balanced, Post;
    if ids != [] {
      var k := OrderKey(a, ids[0]);
      var b' := if Rests(b, k) then Delete(b, k) else b;
      var l1 := PostAll(l, c, [Cancelled(k)]);
      PostAllShadow(l, c, [Cancelled(k)]);
      WfQueues(b);
      if Rests(b, k) {
        DeleteWf(b, k);
        DeleteMirrors(l.shadow, b, k);
        CancelBalances(l, c, b, SideOf(b, k), Find(Queue(b, SideOf(b, k)), k), 0);
      } else {
        AbsentMirrors(l.shadow, b, k);
        AbsentBalances(l, c, b, k);
      }
      CancelEachBalances(l1, c, b', a, ids[1..]);
      PostAllConcat(l, c, [Cancelled(k)], CancelEach(b', a, ids[1..]).events);
    }
  }

  lemma AbsentBalances(l: Ledger, c: Command, b: BookView, k: OrderKey)
    requires Wf(b) && Mirrors(l.shadow, b) && !Rests(b, k) && Balanced(l, b, 0)
    ensures var l' := PostAll(l, c, [Cancelled(k)]); Balanced(l', b, 0) && l'.own == l.own
  {
    hide Rostered, Sorted, Unique, Disjoint, Uncrossed;
    PostOne(l, c, Cancelled(k));
    NotRestingQty(b, k);
  }

  lemma {:induction false} PostSilent(l: Ledger, c: Command, events: seq<Event>)
    requires forall i :: 0 <= i < |events| ==> Silent(events[i])
    ensures PostAll(l, c, events) == l
    decreases |events|
  {
    if events != [] {
      assert Post(l, c, events[0]) == l;
      PostSilent(l, c, events[1..]);
    }
  }

  /** The conservation equation, with the shadow exact. */
  ghost predicate Conserved(l: Ledger, b: BookView) {
    && l.submitted == 2 * l.filled + TotalResting(b) + l.cancelled + l.discarded
    && Mirrors(l.shadow, b)
  }

  lemma NewOrderBalances(l: Ledger, c: Command, b: BookView)
    requires Wf(b) && Mirrors(l.shadow, b) && Balanced(l, b, 0) && l.own == 0 && c.NewOrder?
    ensures var r := Dispatch(b, c);
            var l' := PostAll(l, c, r.events);
            l'.submitted == 2 * l'.filled + TotalResting(r.book) + l'.cancelled + l'.discarded
  {
    hide Wf, Mirrors, PostAll, Rests, Sweep, Fillable, SubmitPostOnly, TotalResting, MirrorsBut;
    var t := Taker(c.key, c.side, if c.kind.Market? then MarketLimit(c.side) else c.price);
    PostOne(l, c, Rejected(c.key, DuplicateOrderId));
    PostOne(l, c, Rejected(c.key, NotFullyFillable));
    PostOnlyBalances(l, c, b, t);
    MirrorsIsBut(l.shadow, b, c.key);
    FillableSweepsToZero(b, t, c.qty);
    if !Rests(b, c.key) && c.kind.Limit? && c.tif.Gtc? {
      SubmitBalances(l, c, b, t, true);
    } else if !Rests(b, c.key) && (MayDiscard(c) || Fillable(b, t, c.qty)) {
      SubmitBalances(l, c, b, t, false);
    }
  }

  lemma DispatchBalances(l: Ledger, c: Command, b: BookView)
    requires Wf(b) && Mirrors(l.shadow, b) && Balanced(l, b, 0) && l.own == 0
    ensures var r := Dispatch(b, c);
            var l' := PostAll(l, c, r.events);
            l'.submitted == 2 * l'.filled + TotalResting(r.book) + l'.cancelled + l'.discarded
  {
    hide Wf, Mirrors, Modify, CancelEach, SnapshotEvents, Rests, Delete, PostAll, TotalResting;
    hide SubmitGtc, SubmitIoc, SubmitFok, SubmitPostOnly, SubmitMarket, QueuesWf;
    if c.NewOrder? {
      NewOrderBalances(l, c, b);
    } else {
      match c {
        case CancelOrder(k) =>
          PostOne(l, c, Rejected(k, UnknownOrderId));
          if Rests(b, k) {
            WfQueues(b);
            CancelBalancesKey(l, c, b, k);
          }
        case CancelReplace(_, _, _) => ModifyBalances(l, c, b);
        case MassCancel(a) => CancelEachBalances(l, c, b, a, OpenOrders(b, a));
        case KillSwitch(_) => PostSilent(l, c, []);
        case Snapshot =>
          SnapshotSilent(b);
          PostSilent(l, c, SnapshotEvents(b));
      }
    }
  }

  lemma CancelBalancesKey(l: Ledger, c: Command, b: BookView, k: OrderKey)
    requires QueuesWf(b) && Rests(b, k) && Mirrors(l.shadow, b) && Balanced(l, b, 0)
    ensures var l' := PostAll(l, c, [Cancelled(k)]); Balanced(l', Delete(b, k), 0) && l'.own == l.own
  {
    hide QueuesWf, Mirrors, Balanced, PostAll, Remove;
    CancelBalances(l, c, b, SideOf(b, k), Find(Queue(b, SideOf(b, k)), k), 0);
  }

  lemma ProcessConserves(config: RiskConfig, l: Ledger, s: System, c: Command)
    requires Wf(s.book) && WellFormed(c) && Conserved(l, s.book)
    ensures var p := Process(config, s, c);
            Conserved(PostCommand(l, c, p.events), p.system.book)
  {
    RejectIsRejected(config, s.killed, c, s.book);
    hide Wf, Mirrors, Dispatch, Rebuild, PreApplyCheck, TopOfBook, PostAll, TotalResting;
    var l0 := l.(own := 0);
    var p := Process(config, s, c);
    ProcessMirrors(config, l.shadow, s, c);
    PostAllShadow(l0, c, p.events);
    var reject := PreApplyCheck(config, s.killed, c, s.book);
    if reject.Some? {
      PostOne(l0, c, reject.value);
    } else {
      DispatchBalances(l0, c, s.book);
      var r, top := Dispatch(s.book, c), TopOfBook(Dispatch(s.book, c).book);
      PostAllConcat(l0, c, r.events, [BookUpdate(top.0, top.1)]);
      PostOne(PostAll(l0, c, r.events), c, BookUpdate(top.0, top.1));
    }
  }

  // ---- What is discarded ----

  lemma {:induction false} OnlyAcceptanceDiscards(l: Ledger, c: Command, events: seq<Event>)
    requires !MayDiscard(c) || forall i :: 0 <= i < |events| ==> !events[i].Accepted?
    ensures PostAll(l, c, events).discarded == l.discarded
    decreases |events|
  {
    hide Note, Look;
    if events != [] {
      OnlyAcceptanceDiscards(Post(l, c, events[0]), c, events[1..]);
    }
  }

  lemma {:induction false} SweepAcceptsNone(b: BookView, t: Taker, qty: Qty)
    ensures forall i :: 0 <= i < |Sweep(b, t, qty).events| ==> !Sweep(b, t, qty).events[i].Accepted?
    decreases |Queue(b, Opposite(t.side))|, qty
  {
    hide Remove, SetQty;
    if !Stops(b, t, qty) {
      SweepAcceptsNone(Hit(b, t, qty).book, t, Hit(b, t, qty).remaining);
    }
  }

  lemma ImmediateDiscards(l: Ledger, c: Command, b: BookView, t: Taker)
    requires Wf(b) && !Rests(b, t.key) && MirrorsBut(l.shadow, b, t.key) && Balanced(l, b, 0) && l.own == 0
    requires MayDiscard(c) && c.key == t.key
    ensures var r := Sweep(b, t, c.qty);
            PostAll(l, c, r.events + [Accepted(t.key, 0)]).discarded
            == l.discarded + Monus(c.qty, ForeignDepth(Queue(b, Opposite(t.side)), t))
  {
    hide Wf, Rests, MirrorsBut, Sweep, PostAll, ForeignDepth, TotalResting;
    var r := Sweep(b, t, c.qty);
    SweepBalances(l, c, b, t, c.qty, 0);
    SweepRemaining(b, t, c.qty);
    SweepAcceptsNone(b, t, c.qty);
    OnlyAcceptanceDiscards(l, c, r.events);
    PostAllConcat(l, c, r.events, [Accepted(t.key, 0)]);
    PostOne(PostAll(l, c, r.events), c, Accepted(t.key, 0));
  }

  /** What one command discards: for an admitted immediate order, what foreign crossing depth does not cover. */
  function Discards(config: RiskConfig, s: System, c: Command): nat {
    if !MayDiscard(c) || PreApplyCheck(config, s.killed, c, s.book).Some? || Rests(s.book, c.key) then 0
    else
      var t := Taker(c.key, c.side, if c.kind.Market? then MarketLimit(c.side) else c.price);
      Monus(c.qty, ForeignDepth(Queue(s.book, Opposite(c.side)), t))
  }

  lemma ProcessDiscards(config: RiskConfig, l: Ledger, s: System, c: Command)
    requires Wf(s.book) && Conserved(l, s.book)
    ensures PostCommand(l, c, Process(config, s, c).events).discarded == l.discarded + Discards(config, s, c)
  {
    RejectIsRejected(config, s.killed, c, s.book);
    hide Wf, Mirrors, MirrorsBut, Rebuild, PreApplyCheck, TopOfBook, PostAll, TotalResting, Sweep, ForeignDepth, Rests;
    var l0 := l.(own := 0);
    var p := Process(config, s, c);
    if !MayDiscard(c) {
      OnlyAcceptanceDiscards(l0, c, p.events);
    } else if PreApplyCheck(config, s.killed, c, s.book).Some? {
      OnlyAcceptanceDiscards(l0, c, p.events);
    } else {
      var r, top := Dispatch(s.book, c), TopOfBook(Dispatch(s.book, c).book);
      var t := Taker(c.key, c.side, if c.kind.Market? then MarketLimit(c.side) else c.price);
      PostAllConcat(l0, c, r.events, [BookUpdate(top.0, top.1)]);
      PostOne(PostAll(l0, c, r.events), c, BookUpdate(top.0, top.1));
      if Rests(s.book, c.key) {
        OnlyAcceptanceDiscards(l0, c, r.events);
      } else {
        MirrorsIsBut(l.shadow, s.book, c.key);
        ImmediateDiscards(l0, c, s.book, t);
      }
    }
  }

  /** The total of a run's discards, read off the books before its commands. */
  function DiscardsAll(config: RiskConfig, s: System, cs: seq<Command>): nat
    decreases |cs|
  {
    if cs == [] then 0 else Discards(config, s, cs[0]) + DiscardsAll(config, Process(config, s, cs[0]).system, cs[1..])
  }

  /** The ledger after a whole run. */
  function Audit(config: RiskConfig, l: Ledger, s: System, cs: seq<Command>): Ledger
    decreases |cs|
  {
    if cs == [] then l
    else
      var p := Process(config, s, cs[0]);
      Audit(config, PostCommand(l, cs[0], p.events), p.system, cs[1..])
  }

  lemma {:induction false} RunConserves(config: RiskConfig, l: Ledger, s: System, cs: seq<Command>)
    requires Wf(s.book) && AllWellFormed(cs) && Conserved(l, s.book)
    ensures Conserved(Audit(config, l, s, cs), Run(config, s, cs).system.book)
    ensures Audit(config, l, s, cs).discarded == l.discarded + DiscardsAll(config, s, cs)
    decreases |cs|
  {
    hide Wf, Conserved, Process, PostCommand, Discards;
    if cs != [] {
      var p := Process(config, s, cs[0]);
      ProcessWf(config, s, cs[0]);
      ProcessConserves(config, l, s, cs[0]);
      ProcessDiscards(config, l, s, cs[0]);
      RunConserves(config, PostCommand(l, cs[0], p.events), p.system, cs[1..]);
    }
  }

  /**
   * For every run: submitted == 2 * filled + resting + cancelled + discarded, where what is discarded is exactly the
   * part of immediate and market orders that foreign crossing depth did not cover. Orders that can rest lose nothing.
   */
  lemma QuantityConserved(config: RiskConfig, cs: seq<Command>)
    requires AllWellFormed(cs)
    ensures var l := Audit(config, BLANK, START, cs);
            && l.submitted == 2 * l.filled + TotalResting(Run(config, START, cs).system.book) + l.cancelled + l.discarded
            && l.discarded == DiscardsAll(config, START, cs)
  {
    hide Wf, Audit, Run, DiscardsAll, Conserved, TotalResting;
    EmptyWf();
    BlankConserved();
    RunConserves(config, BLANK, START, cs);
    ConservedMeans(Audit(config, BLANK, START, cs), Run(config, START, cs).system.book);
  }

  lemma BlankConserved()
    ensures Conserved(BLANK, START.book)
  {
  }

  lemma ConservedMeans(l: Ledger, b: BookView)
    requires Conserved(l, b)
    ensures l.submitted == 2 * l.filled + TotalResting(b) + l.cancelled + l.discarded
  {
    hide Mirrors, TotalResting;
  }
}
