/** What each book operation does to the plain book, and the events it emits, in emission order. */
module Matching {
  import opened Types
  import opened Queues
  import opened BookViews

  /** An order on its way in: limited at `limit`, matching against the opposite queue. */
  datatype Taker = Taker(key: OrderKey, side: Side, limit: Price)

  datatype Swept = Swept(book: BookView, remaining: Qty, events: seq<Event>)

  datatype Cleared = Cleared(book: BookView, events: seq<Event>, blocked: bool)

  datatype Outcome = Outcome(book: BookView, events: seq<Event>)

  function StateOf(resting: Qty): FillState {
    if resting == 0 then FullyFilled else PartiallyFilled
  }

  /** The three events of one match: taker fill, maker fill, public print. */
  function FillEvents(t: Taker, maker: Order, taken: Qty, left: Qty): seq<Event>
    requires taken <= maker.qty
  {
    [ Filled(t.key, t.side, maker.price, taken, left, StateOf(left)),
      Filled(maker.key, Opposite(t.side), maker.price, taken, maker.qty - taken, StateOf(maker.qty - taken)),
      Trade(maker.price, taken, t.side) ]
  }

  /** Nothing left to match: the quantity ran out or the best opposite price no longer crosses. */
  predicate Stops(b: BookView, t: Taker, qty: Qty) {
    var q := Queue(b, Opposite(t.side));
    qty == 0 || q == [] || !Crosses(t.side, t.limit, q[0].price)
  }

  /** One turn of the matching loop: cancel the taker's own order, or trade with the oldest best maker. */
  function Hit(b: BookView, t: Taker, qty: Qty): (r: Swept)
    requires !Stops(b, t, qty)
    ensures |Queue(r.book, Opposite(t.side))| < |Queue(b, Opposite(t.side))|
            || (r.remaining == 0 && |Queue(r.book, Opposite(t.side))| == |Queue(b, Opposite(t.side))|)
  {
    var opp := Opposite(t.side);
    var maker := Queue(b, opp)[0];
    if maker.key.account == t.key.account then
      Swept(Remove(b, opp, 0), qty, [Cancelled(maker.key)])
    else
      var traded := b.(lastTrade := Some(maker.price));
      var taken := Min(qty, maker.qty);
      Swept(
        if taken == maker.qty then Remove(traded, opp, 0) else SetQty(traded, opp, 0, maker.qty - taken),
        qty - taken,
        FillEvents(t, maker, taken, qty - taken))
  }

  function Sweep(b: BookView, t: Taker, qty: Qty): Swept
    decreases |Queue(b, Opposite(t.side))|, qty
  {
    if Stops(b, t, qty) then Swept(b, qty, [])
    else
      var h := Hit(b, t, qty);
      var r := Sweep(h.book, t, h.remaining);
      Swept(r.book, r.remaining, h.events + r.events)
  }

  function StpClear(b: BookView, t: Taker): Cleared
    decreases |Queue(b, Opposite(t.side))|
  {
    var opp := Opposite(t.side);
    var q := Queue(b, opp);
    if q == [] || !Crosses(t.side, t.limit, q[0].price) then
      Cleared(b, [], false)
    else if q[0].key.account == t.key.account then
      var r := StpClear(Remove(b, opp, 0), t);
      r.(events := [Cancelled(q[0].key)] + r.events)
    else
      Cleared(b, [], true)
  }

  /** Foreign quantity an order would meet, counting only what crosses. */
  function ForeignDepth(q: seq<Order>, t: Taker): Qty {
    if q == [] || !Crosses(t.side, t.limit, q[0].price) then 0
    else ForeignTo(t.key.account)(q[0]) + ForeignDepth(q[1..], t)
  }

  predicate Fillable(b: BookView, t: Taker, qty: Qty) {
    ForeignDepth(Queue(b, Opposite(t.side)), t) >= qty
  }

  function RestRemainder(b: BookView, t: Taker, remaining: Qty): BookView {
    if remaining > 0 then Rest(b, t.side, Order(t.key, t.limit, remaining)) else b
  }

  function SubmitGtc(b: BookView, t: Taker, qty: Qty): Outcome {
    if Rests(b, t.key) then Outcome(b, [Rejected(t.key, DuplicateOrderId)])
    else
      var r := Sweep(b, t, qty);
      Outcome(RestRemainder(r.book, t, r.remaining), r.events + [Accepted(t.key, r.remaining)])
  }

  function SubmitIoc(b: BookView, t: Taker, qty: Qty): Outcome {
    if Rests(b, t.key) then Outcome(b, [Rejected(t.key, DuplicateOrderId)])
    else
      var r := Sweep(b, t, qty);
      Outcome(r.book, r.events + [Accepted(t.key, 0)])
  }

  function SubmitFok(b: BookView, t: Taker, qty: Qty): Outcome {
    if Rests(b, t.key) then Outcome(b, [Rejected(t.key, DuplicateOrderId)])
    else if !Fillable(b, t, qty) then Outcome(b, [Rejected(t.key, NotFullyFillable)])
    else
      var r := Sweep(b, t, qty);
      Outcome(r.book, r.events + [Accepted(t.key, 0)])
  }

  function MarketLimit(side: Side): Price {
    match side
    case Buy => 0xFFFF_FFFF_FFFF_FFFF
    case Sell => 0
  }

  function SubmitMarket(b: BookView, k: OrderKey, side: Side, qty: Qty): Outcome {
    SubmitIoc(b, Taker(k, side, MarketLimit(side)), qty)
  }

  function SubmitPostOnly(b: BookView, t: Taker, qty: Qty): Outcome {
    if Rests(b, t.key) then Outcome(b, [Rejected(t.key, DuplicateOrderId)])
    else
      var c := StpClear(b, t);
      if c.blocked then Outcome(c.book, c.events + [Rejected(t.key, WouldCross)])
      else Outcome(Rest(c.book, t.side, Order(t.key, t.limit, qty)), c.events + [Accepted(t.key, qty)])
  }

  function SideOf(b: BookView, k: OrderKey): (side: Side)
    ensures Rests(b, k) ==> Find(Queue(b, side), k) < |Queue(b, side)|
  {
    if Find(b.bids, k) < |b.bids| then Buy else Sell
  }

  function OrderOf(b: BookView, k: OrderKey): (o: Order)
    requires Rests(b, k)
    ensures o.key == k
  {
    Queue(b, SideOf(b, k))[Find(Queue(b, SideOf(b, k)), k)]
  }

  function Delete(b: BookView, k: OrderKey): BookView
    requires Rests(b, k)
  {
    Remove(b, SideOf(b, k), Find(Queue(b, SideOf(b, k)), k))
  }

  function Modify(b: BookView, k: OrderKey, newPrice: Price, newQty: Qty): Outcome {
    if newQty == 0 then Outcome(b, [Rejected(k, ZeroQuantity)])
    else if !Rests(b, k) then Outcome(b, [Rejected(k, UnknownOrderId)])
    else
      var side := SideOf(b, k);
      var o := OrderOf(b, k);
      if newPrice == o.price && newQty <= o.qty then
        Outcome(SetQty(b, side, Find(Queue(b, side), k), newQty), [Replaced(k, newQty, true)])
      else
        var t := Taker(k, side, newPrice);
        var r := Sweep(Delete(b, k), t, newQty);
        Outcome(RestRemainder(r.book, t, r.remaining), [Replaced(k, newQty, false)] + r.events)
  }

  function Cancel(b: BookView, k: OrderKey): Outcome {
    if Rests(b, k) then Outcome(Delete(b, k), [Cancelled(k)])
    else Outcome(b, [Rejected(k, UnknownOrderId)])
  }

  /** Cancel the listed orders one after the other; ids that do not rest are skipped. */
  function CancelEach(b: BookView, a: AccountId, ids: seq<OrderId>): Outcome
    decreases |ids|
  {
    if ids == [] then Outcome(b, [])
    else
      var k := OrderKey(a, ids[0]);
      var r := CancelEach(if Rests(b, k) then Delete(b, k) else b, a, ids[1..]);
      Outcome(r.book, [Cancelled(k)] + r.events)
  }

  function CancelAll(b: BookView, a: AccountId): Outcome {
    CancelEach(b, a, OpenOrders(b, a))
  }

  // ---- Top of book and snapshot ----

  function TouchOf(q: seq<Order>): Touch {
    if q == [] then None else Some((q[0].price, Sum(q, QtyAt(q[0].price))))
  }

  function TopOfBook(b: BookView): (Touch, Touch) {
    (TouchOf(b.bids), TouchOf(b.asks))
  }

  /** The occupied prices of a queue, best first. */
  function LevelPrices(q: seq<Order>): seq<Price> {
    if q == [] then []
    else if |q| > 1 && q[1].price == q[0].price then LevelPrices(q[1..])
    else [q[0].price] + LevelPrices(q[1..])
  }

  function Reverse<T>(s: seq<T>): seq<T> {
    if s == [] then [] else Reverse(s[1..]) + [s[0]]
  }

  /** The occupied prices of a side, ascending. */
  function AscendingPrices(side: Side, q: seq<Order>): seq<Price> {
    if side.Buy? then Reverse(LevelPrices(q)) else LevelPrices(q)
  }

  /** The orders of one level, oldest first. */
  function LevelAt(q: seq<Order>, p: Price): seq<Order> {
    if q == [] then [] else LevelAtHead(q[0], p) + LevelAt(q[1..], p)
  }

  function LevelAtHead(o: Order, p: Price): seq<Order> {
    if o.price == p then [o] else []
  }

  function LevelEvents(side: Side, q: seq<Order>, prices: seq<Price>): seq<Event> {
    if prices == [] then []
    else [SnapshotLevel(side, prices[0], Sum(q, QtyAt(prices[0])), Sum(q, CountAt(prices[0])))]
         + LevelEvents(side, q, prices[1..])
  }

  /** Add the accounts of `orders` to `seen`, each at its first appearance. */
  function Meet(seen: seq<AccountId>, orders: seq<Order>): seq<AccountId>
    decreases |orders|
  {
    if orders == [] then seen
    else
      var a := orders[0].key.account;
      Meet(if a in seen then seen else seen + [a], orders[1..])
  }

  function MeetLevels(seen: seq<AccountId>, q: seq<Order>, prices: seq<Price>): seq<AccountId>
    decreases |prices|
  {
    if prices == [] then seen
    else MeetLevels(Meet(seen, LevelAt(q, prices[0])), q, prices[1..])
  }

  function AccountsMet(b: BookView): seq<AccountId> {
    MeetLevels(MeetLevels([], b.bids, AscendingPrices(Buy, b.bids)), b.asks, AscendingPrices(Sell, b.asks))
  }

  function AccountEvents(b: BookView, accounts: seq<AccountId>): seq<Event> {
    if accounts == [] then []
    else [SnapshotAccount(accounts[0], |OpenOrders(b, accounts[0])|, AccountNotional(b, accounts[0]))]
         + AccountEvents(b, accounts[1..])
  }

  function SnapshotEvents(b: BookView): seq<Event> {
    var bidPrices := AscendingPrices(Buy, b.bids);
    var askPrices := AscendingPrices(Sell, b.asks);
    var top := TopOfBook(b);
    LevelEvents(Buy, b.bids, bidPrices) + LevelEvents(Sell, b.asks, askPrices)
    + AccountEvents(b, AccountsMet(b))
    + [SnapshotSummary(top.0, top.1, b.lastTrade, |bidPrices| + |askPrices|, |AccountsMet(b)|)]
  }

  /** The snapshot walk asserts that no resting price is zero, so this command stops the thread that runs it. */
  ghost predicate Stalls(b: BookView, c: Command) {
    c.Snapshot? && !PricesPositive(b)
  }

  /** The row of a side's level at price zero, the least there can be. */
  function ZeroRow(side: Side, q: seq<Order>): Event {
    SnapshotLevel(side, 0, Sum(q, QtyAt(0)), Sum(q, CountAt(0)))
  }

  /** The rows such a snapshot emits first: a level's row precedes the walk that stops at it. */
  ghost function StallRows(b: BookView): seq<Event> {
    if !PositiveQueue(b.bids) then [ZeroRow(Buy, b.bids)]
    else LevelEvents(Buy, b.bids, AscendingPrices(Buy, b.bids)) + [ZeroRow(Sell, b.asks)]
  }

  // ---- The engine's dispatch ----

  function Dispatch(b: BookView, c: Command): Outcome {
    match c
    case NewOrder(k, side, price, qty, kind, tif, _) =>
      var t := Taker(k, side, price);
      if kind.Market? then SubmitMarket(b, k, side, qty)
      else (match tif
        case Gtc => SubmitGtc(b, t, qty)
        case Ioc => SubmitIoc(b, t, qty)
        case Fok => SubmitFok(b, t, qty)
        case PostOnly => SubmitPostOnly(b, t, qty))
    case CancelOrder(k) => Cancel(b, k)
    case CancelReplace(k, newPrice, newQty) => Modify(b, k, newPrice, newQty)
    case MassCancel(a) => CancelAll(b, a)
    case Snapshot => Outcome(b, SnapshotEvents(b))
    case KillSwitch(_) => Outcome(b, [])
  }

  /** Dispatch, then announce the touch if the command moved it. */
  function Apply(b: BookView, c: Command): Outcome {
    var r := Dispatch(b, c);
    var top := TopOfBook(r.book);
    if top == TopOfBook(b) then r
    else Outcome(r.book, r.events + [BookUpdate(top.0, top.1)])
  }

  // ---- Every command keeps the book well formed ----

  lemma SortedNoneCross(b: BookView, t: Taker)
    requires QueuesWf(b)
    requires var q := Queue(b, Opposite(t.side)); q == [] || !Crosses(t.side, t.limit, q[0].price)
    ensures NoneCross(t.side, t.limit, Queue(b, Opposite(t.side)))
  {
  }

  lemma TradedWf(b: BookView, last: Option<Price>)
    requires Wf(b)
    ensures Wf(b.(lastTrade := last))
  {
    forall a
      ensures RosterExact(b.(lastTrade := last), a)
    {
      assert RosterExact(b, a);
    }
  }

  lemma HitWf(b: BookView, t: Taker, qty: Qty)
    requires Wf(b) && !Stops(b, t, qty)
    ensures Wf(Hit(b, t, qty).book)
  {
    var opp := Opposite(t.side);
    var maker := Queue(b, opp)[0];
    if maker.key.account == t.key.account {
      RemoveWf(b, opp, 0);
    } else {
      TradedWf(b, Some(maker.price));
      if Min(qty, maker.qty) == maker.qty {
        RemoveWf(b.(lastTrade := Some(maker.price)), opp, 0);
      } else {
        SetQtyWf(b.(lastTrade := Some(maker.price)), opp, 0, maker.qty - qty);
      }
    }
  }

  /** A sweep leaves nothing crossing while quantity remains. */
  lemma {:induction false} SweepWf(b: BookView, t: Taker, qty: Qty)
    requires Wf(b)
    ensures Wf(Sweep(b, t, qty).book)
    ensures var r := Sweep(b, t, qty);
            r.remaining > 0 ==> NoneCross(t.side, t.limit, Queue(r.book, Opposite(t.side)))
    decreases |Queue(b, Opposite(t.side))|, qty
  {
    if !Stops(b, t, qty) {
      HitWf(b, t, qty);
      SweepWf(Hit(b, t, qty).book, t, Hit(b, t, qty).remaining);
    } else if qty > 0 {
      SortedNoneCross(b, t);
    }
  }

  /** A sweep touches opposite orders only. */
  lemma {:induction false} SweepFrame(b: BookView, t: Taker, qty: Qty)
    ensures Sweep(b, t, qty).remaining <= qty
    ensures Queue(Sweep(b, t, qty).book, t.side) == Queue(b, t.side)
    decreases |Queue(b, Opposite(t.side))|, qty
  {
    if !Stops(b, t, qty) {
      SweepFrame(Hit(b, t, qty).book, t, Hit(b, t, qty).remaining);
    }
  }

  lemma HitRests(b: BookView, t: Taker, qty: Qty, k: OrderKey)
    requires QueuesWf(b) && !Stops(b, t, qty)
    ensures Rests(Hit(b, t, qty).book, k) ==> Rests(b, k)
  {
    var opp := Opposite(t.side);
    var maker := Queue(b, opp)[0];
    var traded := b.(lastTrade := Some(maker.price));
    RemoveRests(b, opp, 0, k);
    RemoveRests(traded, opp, 0, k);
    if maker.key.account != t.key.account && Min(qty, maker.qty) != maker.qty {
      SetQtyRests(traded, opp, 0, maker.qty - qty, k);
    }
  }

  /** A sweep brings no order in. */
  lemma {:induction false} SweepRests(b: BookView, t: Taker, qty: Qty, k: OrderKey)
    requires Wf(b)
    ensures Rests(Sweep(b, t, qty).book, k) ==> Rests(b, k)
    decreases |Queue(b, Opposite(t.side))|, qty
  {
    if !Stops(b, t, qty) {
      HitWf(b, t, qty);
      HitRests(b, t, qty, k);
      SweepRests(Hit(b, t, qty).book, t, Hit(b, t, qty).remaining, k);
    }
  }

  lemma {:induction false} StpClearWf(b: BookView, t: Taker)
    requires Wf(b)
    ensures var c := StpClear(b, t);
            && Wf(c.book)
            && Queue(c.book, t.side) == Queue(b, t.side)
            && (!c.blocked ==> NoneCross(t.side, t.limit, Queue(c.book, Opposite(t.side))))
    decreases |Queue(b, Opposite(t.side))|
  {
    var opp := Opposite(t.side);
    var q := Queue(b, opp);
    if q == [] || !Crosses(t.side, t.limit, q[0].price) {
      SortedNoneCross(b, t);
    } else if q[0].key.account == t.key.account {
      RemoveWf(b, opp, 0);
      StpClearWf(Remove(b, opp, 0), t);
    }
  }

  lemma {:induction false} StpClearRests(b: BookView, t: Taker, k: OrderKey)
    requires Wf(b)
    ensures Rests(StpClear(b, t).book, k) ==> Rests(b, k)
    decreases |Queue(b, Opposite(t.side))|
  {
    var opp := Opposite(t.side);
    var q := Queue(b, opp);
    if q == [] || !Crosses(t.side, t.limit, q[0].price) {
    } else if q[0].key.account == t.key.account {
      RemoveWf(b, opp, 0);
      RemoveRests(b, opp, 0, k);
      StpClearRests(Remove(b, opp, 0), t, k);
    }
  }

  lemma RestRemainderWf(b: BookView, t: Taker, qty: Qty)
    requires Wf(b) && !Rests(b, t.key)
    ensures Wf(RestRemainder(Sweep(b, t, qty).book, t, Sweep(b, t, qty).remaining))
  {
    var r := Sweep(b, t, qty);
    SweepWf(b, t, qty);
    SweepRests(b, t, qty, t.key);
    if r.remaining > 0 {
      RestWf(r.book, t.side, Order(t.key, t.limit, r.remaining));
    }
  }

  lemma DeleteWf(b: BookView, k: OrderKey)
    requires Wf(b) && Rests(b, k)
    ensures Wf(Delete(b, k)) && !Rests(Delete(b, k), k)
    ensures forall x :: Rests(Delete(b, k), x) <==> Rests(b, x) && x != k
  {
    var side := SideOf(b, k);
    var i := Find(Queue(b, side), k);
    RemoveWf(b, side, i);
    forall x
      ensures Rests(Delete(b, k), x) <==> Rests(b, x) && x != k
    {
      RemoveRests(b, side, i, x);
    }
  }

  lemma ModifyWf(b: BookView, k: OrderKey, newPrice: Price, newQty: Qty)
    requires Wf(b)
    ensures Wf(Modify(b, k, newPrice, newQty).book)
  {
    if newQty != 0 && Rests(b, k) {
      var side := SideOf(b, k);
      if newPrice == OrderOf(b, k).price && newQty <= OrderOf(b, k).qty {
        SetQtyWf(b, side, Find(Queue(b, side), k), newQty);
      } else {
        DeleteWf(b, k);
        RestRemainderWf(Delete(b, k), Taker(k, side, newPrice), newQty);
      }
    }
  }

  lemma {:induction false} CancelEachWf(b: BookView, a: AccountId, ids: seq<OrderId>)
    requires Wf(b)
    ensures Wf(CancelEach(b, a, ids).book)
    decreases |ids|
  {
    if ids != [] {
      var k := OrderKey(a, ids[0]);
      if Rests(b, k) {
        DeleteWf(b, k);
        CancelEachWf(Delete(b, k), a, ids[1..]);
      } else {
        CancelEachWf(b, a, ids[1..]);
      }
    }
  }

  lemma SubmitPostOnlyWf(b: BookView, t: Taker, qty: Qty)
    requires Wf(b) && qty > 0
    ensures Wf(SubmitPostOnly(b, t, qty).book)
  {
    if !Rests(b, t.key) {
      StpClearWf(b, t);
      StpClearRests(b, t, t.key);
      var c := StpClear(b, t);
      if !c.blocked {
        RestWf(c.book, t.side, Order(t.key, t.limit, qty));
      }
    }
  }

  lemma DispatchWf(b: BookView, c: Command)
    requires Wf(b) && WellFormed(c)
    ensures Wf(Dispatch(b, c).book)
  {
    hide Wf, Rests, Sweep, RestRemainder, SubmitPostOnly, Modify, Delete, CancelEach, SnapshotEvents, Fillable;
    match c {
      case NewOrder(k, side, price, qty, kind, tif, _) =>
        var t := Taker(k, side, if kind.Market? then MarketLimit(side) else price);
        SweepWf(b, t, qty);
        if kind.Limit? && !Rests(b, k) {
          RestRemainderWf(b, t, qty);
        }
        if kind.Limit? && tif.PostOnly? {
          SubmitPostOnlyWf(b, t, qty);
        }
      case CancelOrder(k) =>
        if Rests(b, k) { DeleteWf(b, k); }
      case CancelReplace(k, newPrice, newQty) =>
        ModifyWf(b, k, newPrice, newQty);
      case MassCancel(a) =>
        CancelEachWf(b, a, OpenOrders(b, a));
      case KillSwitch(_) =>
      case Snapshot =>
    }
  }

  lemma ApplyWf(b: BookView, c: Command)
    requires Wf(b) && WellFormed(c)
    ensures Wf(Apply(b, c).book)
  {
    DispatchWf(b, c);
  }

  lemma EmptyWf()
    ensures Wf(EMPTY)
  {
    forall a
      ensures RosterExact(EMPTY, a)
    {
    }
  }
}
