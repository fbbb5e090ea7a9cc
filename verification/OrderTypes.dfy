/** What each order type and amend promises its sender, over every well-formed book. */
module OrderTypes {
  import opened Types
  import opened Queues
  import opened BookViews
  import opened Matching
  import opened Sweeping

  // ---- Fill-or-kill ----

  /** Total quantity filled for one order in an event sequence. */
  function FilledQty(events: seq<Event>, k: OrderKey): nat {
    if events == [] then 0
    else (if events[0].Filled? && events[0].key == k then events[0].qty else 0) + FilledQty(events[1..], k)
  }

  lemma {:induction false} FilledQtyConcat(a: seq<Event>, b: seq<Event>, k: OrderKey)
    ensures FilledQty(a + b, k) == FilledQty(a, k) + FilledQty(b, k)
  {
    if a == [] {
      assert a + b == b;
    } else {
      assert (a + b)[1..] == a[1..] + b;
      FilledQtyConcat(a[1..], b, k);
    }
  }

  lemma HitFills(b: BookView, t: Taker, qty: Qty)
    requires !Stops(b, t, qty)
    ensures FilledQty(Hit(b, t, qty).events, t.key) == qty - Hit(b, t, qty).remaining
  {
    var maker := Queue(b, Opposite(t.side))[0];
    if maker.key.account == t.key.account {
      assert FilledQty([Cancelled(maker.key)], t.key) == 0;
    } else {
      var taken := Min(qty, maker.qty);
      var es := FillEvents(t, maker, taken, qty - taken);
      assert es[1..][1..] == [es[2]] && es[1..][0] == es[1];
      assert FilledQty([es[2]], t.key) == 0;
      assert FilledQty(es[1..], t.key) == 0;
    }
  }

  /** A taker's fills add up to what it no longer has. */
  lemma {:induction false} SweepFills(b: BookView, t: Taker, qty: Qty)
    ensures FilledQty(Sweep(b, t, qty).events, t.key) == qty - Sweep(b, t, qty).remaining
    decreases |Queue(b, Opposite(t.side))|, qty
  {
    if !Stops(b, t, qty) {
      var h := Hit(b, t, qty);
      HitFills(b, t, qty);
      SweepFills(h.book, t, h.remaining);
      FilledQtyConcat(h.events, Sweep(h.book, t, h.remaining).events, t.key);
    }
  }

  /** All or nothing: filled in full exactly when foreign crossing depth covers it, otherwise nothing happens. */
  lemma FokAllOrNothing(b: BookView, t: Taker, qty: Qty)
    requires !Rests(b, t.key)
    ensures var r := SubmitFok(b, t, qty);
            if ForeignDepth(Queue(b, Opposite(t.side)), t) >= qty
            then FilledQty(r.events, t.key) == qty && r.events[|r.events| - 1] == Accepted(t.key, 0)
            else r == Outcome(b, [Rejected(t.key, NotFullyFillable)])
  {
    SweepRemaining(b, t, qty);
    SweepFills(b, t, qty);
    FilledQtyConcat(Sweep(b, t, qty).events, [Accepted(t.key, 0)], t.key);
    assert FilledQty([Accepted(t.key, 0)], t.key) == 0;
  }

  // ---- Post-only ----

  /** Length of the maximal same-account prefix of the crossing queue. */
  function OwnPrefix(q: seq<Order>, t: Taker): (n: nat)
    ensures n <= |q|
    ensures forall i :: 0 <= i < n ==> q[i].key.account == t.key.account && Crosses(t.side, t.limit, q[i].price)
    ensures n < |q| ==> q[n].key.account != t.key.account || !Crosses(t.side, t.limit, q[n].price)
  {
    if q == [] || !Crosses(t.side, t.limit, q[0].price) || q[0].key.account != t.key.account then 0
    else 1 + OwnPrefix(q[1..], t)
  }

  function Cancels(orders: seq<Order>): seq<Event> {
    seq(|orders|, i requires 0 <= i < |orders| => Cancelled(orders[i].key))
  }

  lemma CancelsCons(q: seq<Order>, n: nat)
    requires 0 < n <= |q|
    ensures Cancels(q[..n]) == [Cancelled(q[0].key)] + Cancels(q[1..][..n - 1])
  {
  }

  lemma RemoveHead(b: BookView, side: Side)
    requires Queue(b, side) != []
    ensures Queue(Remove(b, side, 0), side) == Queue(b, side)[1..]
    ensures Queue(Remove(b, side, 0), Opposite(side)) == Queue(b, Opposite(side))
  {
    hide Dismiss;
    assert Without(Queue(b, side), 0) == Queue(b, side)[1..];
  }

  lemma {:induction false} OwnPrefixDepth(q: seq<Order>, t: Taker)
    ensures ForeignDepth(q[OwnPrefix(q, t)..], t) == ForeignDepth(q, t)
    ensures Sum(q[OwnPrefix(q, t)..], ForeignTo(t.key.account)) == Sum(q, ForeignTo(t.key.account))
  {
    var n := OwnPrefix(q, t);
    if n == 0 {
      assert q[0..] == q;
    } else {
      OwnPrefixDepth(q[1..], t);
      assert q[1..][n - 1..] == q[n..];
    }
  }

  /**
   * The walk cancels exactly the maximal own prefix of the crossing queue, in price-time order, touches no
   * foreign order, and blocks the order exactly when a foreign order then crosses at the front.
   */
  lemma {:induction false} PostOnlyWalk(b: BookView, t: Taker)
    ensures var q, c := Queue(b, Opposite(t.side)), StpClear(b, t);
            var n := OwnPrefix(q, t);
            && Queue(c.book, Opposite(t.side)) == q[n..]
            && Queue(c.book, t.side) == Queue(b, t.side)
            && c.events == Cancels(q[..n])
            && (c.blocked <==> n < |q| && Crosses(t.side, t.limit, q[n].price))
    decreases |Queue(b, Opposite(t.side))|
  {
    hide Remove, Cancels, Crosses;
    var opp := Opposite(t.side);
    var q := Queue(b, opp);
    var n := OwnPrefix(q, t);
    if n == 0 {
      assert q[0..] == q && q[..0] == [];
      CancelsNone();
    } else {
      RemoveHead(b, opp);
      PostOnlyWalk(Remove(b, opp, 0), t);
      assert q[1..][n - 1..] == q[n..];
      CancelsCons(q, n);
    }
  }

  lemma CancelsNone()
    ensures Cancels([]) == []
  {
  }

  /** A post-only order never trades and never removes foreign quantity. */
  lemma PostOnlyTakesNothing(b: BookView, t: Taker, qty: Qty)
    ensures var r := SubmitPostOnly(b, t, qty);
            && (forall e :: e in r.events ==> !e.Filled? && !e.Trade?)
            && Sum(Queue(r.book, Opposite(t.side)), ForeignTo(t.key.account))
               == Sum(Queue(b, Opposite(t.side)), ForeignTo(t.key.account))
            && ForeignDepth(Queue(r.book, Opposite(t.side)), t) == ForeignDepth(Queue(b, Opposite(t.side)), t)
  {
    hide StpClear, Sum, ForeignDepth, OwnPrefix;
    PostOnlyWalk(b, t);
    OwnPrefixDepth(Queue(b, Opposite(t.side)), t);
  }

  /** With no foreign depth in the way, the post-only walk does what a sweep would. */
  lemma {:induction false} WalkIsSweep(b: BookView, t: Taker, qty: Qty)
    requires Wf(b) && qty > 0 && ForeignDepth(Queue(b, Opposite(t.side)), t) == 0
    ensures var c, r := StpClear(b, t), Sweep(b, t, qty);
            !c.blocked && c.book == r.book && c.events == r.events && r.remaining == qty
    decreases |Queue(b, Opposite(t.side))|
  {
    hide Rostered, Sorted, Unique, Disjoint, Uncrossed, Remove, Crosses;
    var opp := Opposite(t.side);
    var q := Queue(b, opp);
    if q != [] && Crosses(t.side, t.limit, q[0].price) {
      assert q[0].qty > 0;
      RemoveWf(b, opp, 0);
      RemoveHead(b, opp);
      WalkIsSweep(Remove(b, opp, 0), t, qty);
    }
  }

  lemma {:induction false} DepthBlocks(b: BookView, t: Taker)
    requires ForeignDepth(Queue(b, Opposite(t.side)), t) > 0
    ensures StpClear(b, t).blocked
    decreases |Queue(b, Opposite(t.side))|
  {
    hide Remove, Crosses;
    var opp := Opposite(t.side);
    if Queue(b, opp)[0].key.account == t.key.account {
      RemoveHead(b, opp);
      DepthBlocks(Remove(b, opp, 0), t);
    }
  }

  /** A post-only order is a good-till-cancelled order exactly when it would not trade, or is refused as a duplicate. */
  lemma PostOnlyIsGtcIff(b: BookView, t: Taker, qty: Qty)
    requires Wf(b) && qty > 0
    ensures SubmitPostOnly(b, t, qty) == SubmitGtc(b, t, qty)
            <==> Rests(b, t.key) || ForeignDepth(Queue(b, Opposite(t.side)), t) == 0
  {
    hide Wf, Rests, StpClear, Sweep, ForeignDepth, Rest;
    if !Rests(b, t.key) {
      var c, r := StpClear(b, t), Sweep(b, t, qty);
      if ForeignDepth(Queue(b, Opposite(t.side)), t) == 0 {
        WalkIsSweep(b, t, qty);
      } else {
        DepthBlocks(b, t);
        var p, g := c.events + [Rejected(t.key, WouldCross)], r.events + [Accepted(t.key, r.remaining)];
        assert p[|p| - 1].Rejected? && g[|g| - 1].Accepted?;
      }
    }
  }

  // ---- Amends ----

  /** Raising the quantity at an unchanged price trades nothing and goes to the back of its own level. */
  lemma SamePriceIncrease(b: BookView, k: OrderKey, newQty: Qty)
    requires Wf(b) && Rests(b, k) && newQty > OrderOf(b, k).qty
    ensures var o, side := OrderOf(b, k), SideOf(b, k);
            var r := Modify(b, k, o.price, newQty);
            var rest := Without(Queue(b, side), Find(Queue(b, side), k));
            && r.events == [Replaced(k, newQty, false)]
            && Queue(r.book, side) == With(rest, JoinAt(side, rest, o.price), Order(k, o.price, newQty))
            && Queue(r.book, Opposite(side)) == Queue(b, Opposite(side))
            && r.book.lastTrade == b.lastTrade
  {
    var o, side := OrderOf(b, k), SideOf(b, k);
    var t := Taker(k, side, o.price);
    assert Stops(Delete(b, k), t, newQty) by {
      hide Rostered, Unique, Disjoint, Positive, Sorted;
      var q := Queue(b, Opposite(side));
      var i := Find(Queue(b, side), k);
      assert q != [] ==> (if side.Buy? then b.bids[i].price < b.asks[0].price else b.bids[0].price < b.asks[i].price);
    }
  }

  /** Behind the joining place, every price is strictly worse: the joiner is last at its own price. */
  lemma JoinsAtBack(side: Side, q: seq<Order>, o: Order)
    requires Sorted(side, q)
    ensures var at := JoinAt(side, q, o.price);
            forall j :: at < j < |q| + 1 ==> Better(side, o.price, With(q, at, o)[j].price)
  {
    var at := JoinAt(side, q, o.price);
    forall j | at < j < |q| + 1
      ensures Better(side, o.price, With(q, at, o)[j].price)
    {
      assert With(q, at, o)[j] == q[j - 1];
      assert at < j - 1 ==> !Better(side, q[j - 1].price, q[at].price);
    }
  }

  /**
   * An amend that only shrinks keeps the order's place and moves nothing else: whoever comes to trade still has the
   * same foreign quantity ahead of it, so it is reached in the same cases as before.
   */
  lemma ShrinkKeepsPlace(b: BookView, k: OrderKey, newQty: Qty)
    requires Rests(b, k) && 0 < newQty <= OrderOf(b, k).qty
    ensures var side := SideOf(b, k);
            var i := Find(Queue(b, side), k);
            var r := Modify(b, k, OrderOf(b, k).price, newQty);
            && r.events == [Replaced(k, newQty, true)]
            && |Queue(r.book, side)| == |Queue(b, side)|
            && Queue(r.book, side)[i] == Order(k, OrderOf(b, k).price, newQty)
            && (forall j :: 0 <= j < |Queue(b, side)| && j != i ==> Queue(r.book, side)[j] == Queue(b, side)[j])
            && Queue(r.book, Opposite(side)) == Queue(b, Opposite(side))
            && r.book.roster == b.roster
            && (forall t: Taker, n: nat :: n <= i ==> Ahead(Queue(r.book, side), t, n) == Ahead(Queue(b, side), t, n))
  {
    var side := SideOf(b, k);
    var q, i := Queue(b, side), Find(Queue(b, side), k);
    forall t: Taker, n: nat | n <= i
      ensures Ahead(q[i := q[i].(qty := newQty)], t, n) == Ahead(q, t, n)
    {
      assert q[i := q[i].(qty := newQty)][..n] == q[..n];
    }
  }

  // ---- Mass cancel ----

  /** The orders of `q` whose key is not in `ks`, in order. */
  function Minus(q: seq<Order>, ks: set<OrderKey>): seq<Order> {
    if q == [] then [] else (if q[0].key in ks then [] else [q[0]]) + Minus(q[1..], ks)
  }

  /** The orders of `q` not owned by `a`, in order. */
  function Others(q: seq<Order>, a: AccountId): seq<Order> {
    if q == [] then [] else (if q[0].key.account == a then [] else [q[0]]) + Others(q[1..], a)
  }

  lemma {:induction false} MinusAbsent(q: seq<Order>, ks: set<OrderKey>)
    requires forall i :: 0 <= i < |q| ==> q[i].key !in ks
    ensures Minus(q, ks) == q
  {
    if q != [] {
      MinusAbsent(q[1..], ks);
    }
  }

  /** Removing a unique key first does not change what a larger filter leaves. */
  lemma {:induction false} MinusWithout(q: seq<Order>, i: nat, ks: set<OrderKey>)
    requires i < |q| && q[i].key in ks
    ensures Minus(Without(q, i), ks) == Minus(q, ks)
  {
    var r := Without(q, i);
    if i == 0 {
      assert r == q[1..];
    } else {
      MinusWithout(q[1..], i - 1, ks);
      assert r[0] == q[0] && r[1..] == Without(q[1..], i - 1);
    }
  }

  lemma {:induction false} MinusSame(q: seq<Order>, ks: set<OrderKey>, js: set<OrderKey>)
    requires forall i :: 0 <= i < |q| ==> (q[i].key in ks <==> q[i].key in js)
    ensures Minus(q, ks) == Minus(q, js)
  {
    if q != [] {
      MinusSame(q[1..], ks, js);
    }
  }

  function KeysOf(a: AccountId, ids: seq<OrderId>): set<OrderKey> {
    set id | id in ids :: OrderKey(a, id)
  }

  function IdCancels(a: AccountId, ids: seq<OrderId>): seq<Event> {
    seq(|ids|, i requires 0 <= i < |ids| => Cancelled(OrderKey(a, ids[i])))
  }

  /** Cancelling a list of distinct resting ids removes exactly those orders and emits them in list order. */
  lemma {:induction false} CancelEachEffect(b: BookView, a: AccountId, ids: seq<OrderId>)
    requires Wf(b) && NoRepeats(ids) && forall i :: 0 <= i < |ids| ==> Rests(b, OrderKey(a, ids[i]))
    ensures var r := CancelEach(b, a, ids);
            && r.events == IdCancels(a, ids)
            && r.book.bids == Minus(b.bids, KeysOf(a, ids))
            && r.book.asks == Minus(b.asks, KeysOf(a, ids))
            && r.book.lastTrade == b.lastTrade
    decreases |ids|
  {
    hide Wf, Delete, Rests, Minus, KeysOf, IdCancels;
    if ids == [] {
      CancelEachNothing(b, a);
    } else {
      var k := OrderKey(a, ids[0]);
      var b' := Delete(b, k);
      DeleteWf(b, k);
      CancelEachEffect(b', a, ids[1..]);
      IdCancelsCons(a, ids);
      DeleteMinus(b, a, ids);
      DeleteLastTrade(b, k);
    }
  }

  lemma CancelEachNothing(b: BookView, a: AccountId)
    ensures Minus(b.bids, KeysOf(a, [])) == b.bids && Minus(b.asks, KeysOf(a, [])) == b.asks && IdCancels(a, []) == []
  {
    MinusAbsent(b.bids, KeysOf(a, []));
    MinusAbsent(b.asks, KeysOf(a, []));
  }

  lemma IdCancelsCons(a: AccountId, ids: seq<OrderId>)
    requires ids != []
    ensures IdCancels(a, ids) == [Cancelled(OrderKey(a, ids[0]))] + IdCancels(a, ids[1..])
  {
  }

  lemma DeleteLastTrade(b: BookView, k: OrderKey)
    requires Rests(b, k)
    ensures Delete(b, k).lastTrade == b.lastTrade
  {
  }

  lemma DeleteMinus(b: BookView, a: AccountId, ids: seq<OrderId>)
    requires Wf(b) && ids != [] && Rests(b, OrderKey(a, ids[0]))
    ensures var b' := Delete(b, OrderKey(a, ids[0]));
            && Minus(b'.bids, KeysOf(a, ids[1..])) == Minus(b.bids, KeysOf(a, ids))
            && Minus(b'.asks, KeysOf(a, ids[1..])) == Minus(b.asks, KeysOf(a, ids))
  {
    hide Wf, Delete, Rests, Minus, KeysOf, HasKey, Without, Find;
    var k := OrderKey(a, ids[0]);
    var b' := Delete(b, k);
    KeysOfTail(a, ids);
    DeleteQueue(b, k, Buy);
    DeleteQueue(b, k, Sell);
    MinusTail(b.bids, b'.bids, k, KeysOf(a, ids[1..]), KeysOf(a, ids));
    MinusTail(b.asks, b'.asks, k, KeysOf(a, ids[1..]), KeysOf(a, ids));
  }

  lemma KeysOfTail(a: AccountId, ids: seq<OrderId>)
    requires ids != []
    ensures forall x :: x in KeysOf(a, ids) <==> x == OrderKey(a, ids[0]) || x in KeysOf(a, ids[1..])
  {
    assert ids == [ids[0]] + ids[1..];
  }

  /** Deletion takes the key's order out of the side it rests on and leaves no order with that key. */
  lemma DeleteQueue(b: BookView, k: OrderKey, side: Side)
    requires Wf(b) && Rests(b, k)
    ensures var q := Queue(b, side);
            Queue(Delete(b, k), side) == if HasKey(q, k) then Without(q, Find(q, k)) else q
    ensures !HasKey(Queue(Delete(b, k), side), k)
  {
    hide Rostered, Sorted, Positive, Uncrossed;
    var q := Queue(b, SideOf(b, k));
    HasKeyWithout(q, Find(q, k), k);
  }

  lemma MinusTail(q: seq<Order>, r: seq<Order>, k: OrderKey, js: set<OrderKey>, ks: set<OrderKey>)
    requires r == if HasKey(q, k) then Without(q, Find(q, k)) else q
    requires !HasKey(r, k) && forall x :: x in ks <==> x == k || x in js
    ensures Minus(r, js) == Minus(q, ks)
  {
    MinusSame(r, js, ks);
    if HasKey(q, k) {
      MinusWithout(q, Find(q, k), ks);
    }
  }

  lemma {:induction false} MinusIsOthers(q: seq<Order>, ks: set<OrderKey>, a: AccountId)
    requires forall i :: 0 <= i < |q| ==> (q[i].key in ks <==> q[i].key.account == a)
    ensures Minus(q, ks) == Others(q, a)
  {
    if q != [] {
      MinusIsOthers(q[1..], ks, a);
    }
  }

  lemma {:induction false} CancelEachRoster(b: BookView, a: AccountId, ids: seq<OrderId>)
    requires Wf(b)
    ensures var r := CancelEach(b, a, ids).book;
            && Wf(r)
            && (forall x :: x != a ==> OpenOrders(r, x) == OpenOrders(b, x))
    decreases |ids|
  {
    if ids != [] {
      var k := OrderKey(a, ids[0]);
      if Rests(b, k) {
        DeleteWf(b, k);
        CancelEachRoster(Delete(b, k), a, ids[1..]);
      } else {
        CancelEachRoster(b, a, ids[1..]);
      }
    }
  }

  /**
   * Mass cancel emits one cancellation per open order, in the order of the slot array before the call, leaves
   * the account with no resting order, and keeps every other account's orders, places and slot array.
   */
  lemma MassCancelEffect(b: BookView, a: AccountId)
    requires Wf(b)
    ensures var r := CancelAll(b, a);
            && r.events == IdCancels(a, OpenOrders(b, a))
            && r.book.bids == Others(b.bids, a) && r.book.asks == Others(b.asks, a)
            && OpenOrders(r.book, a) == []
            && (forall x :: x != a ==> OpenOrders(r.book, x) == OpenOrders(b, x))
            && r.book.lastTrade == b.lastTrade
  {
    var ids := OpenOrders(b, a);
    var r := CancelAll(b, a).book;
    assert RosterExact(b, a);
    CancelEachEffect(b, a, ids);
    CancelEachRoster(b, a, ids);
    ListedKeys(b, a, b.bids);
    ListedKeys(b, a, b.asks);
    MinusIsOthers(b.bids, KeysOf(a, ids), a);
    MinusIsOthers(b.asks, KeysOf(a, ids), a);
    OthersNone(b.bids, a);
    OthersNone(b.asks, a);
    assert RosterExact(r, a);
  }

  lemma ListedKeys(b: BookView, a: AccountId, q: seq<Order>)
    requires Listed(q, b.roster)
    ensures forall i :: 0 <= i < |q| ==> (q[i].key in KeysOf(a, OpenOrders(b, a)) <==> q[i].key.account == a)
  {
  }

  lemma {:induction false} OthersNone(q: seq<Order>, a: AccountId)
    ensures Sum(Others(q, a), CountOf(a)) == 0
  {
    if q != [] {
      OthersNone(q[1..], a);
      assert q[0].key.account != a ==> Others(q, a)[1..] == Others(q[1..], a);
      assert q[0].key.account == a ==> Others(q, a) == Others(q[1..], a);
    }
  }
}
