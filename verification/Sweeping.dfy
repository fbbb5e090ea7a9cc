/**
 * The matching loop in closed form. Number the opposite queue in price-time order; `Ahead(i)` is the foreign
 * quantity in front of position `i`. What happens to each order depends only on that number.
 */
module Sweeping {
  import opened Types
  import opened Queues
  import opened BookViews
  import opened Matching

  /** Length of the crossing prefix. */
  function CrossLen(q: seq<Order>, t: Taker): (n: nat)
    ensures n <= |q|
  {
    if q == [] || !WithinLimit(t, q[0].price) then 0 else 1 + CrossLen(q[1..], t)
  }

  /** Foreign quantity in front of position `i`. */
  function Ahead(q: seq<Order>, t: Taker, i: nat): nat
    requires i <= |q|
  {
    Sum(q[..i], ForeignTo(t.key.account))
  }

  /** A price the taker accepts: at its limit or better. */
  predicate WithinLimit(t: Taker, p: Price) {
    if t.side.Buy? then p <= t.limit else p >= t.limit
  }

  /** A deal of `n` with a maker, always at the maker's price: the taker's report, the maker's, the print. */
  function Deal(t: Taker, maker: Order, n: Qty, left: Qty): seq<Event>
    requires n <= maker.qty
  {
    [ Filled(t.key, t.side, maker.price, n, left, if left == 0 then FullyFilled else PartiallyFilled),
      Filled(maker.key, if t.side.Buy? then Sell else Buy, maker.price, n, maker.qty - n,
             if maker.qty == n then FullyFilled else PartiallyFilled),
      Trade(maker.price, n, t.side) ]
  }

  /** What the order at position `i` experiences: cancelled if the taker's own, otherwise traded. */
  function Turn(q: seq<Order>, t: Taker, qty: Qty, i: nat): seq<Event>
    requires i < |q| && Ahead(q, t, i) <= qty
  {
    if q[i].key.account == t.key.account then [Cancelled(q[i].key)]
    else
      var taken := Min(q[i].qty, qty - Ahead(q, t, i));
      Deal(t, q[i], taken, qty - Ahead(q, t, i) - taken)
  }

  /** The turns of the first `k` orders, in queue order. */
  function Turns(q: seq<Order>, t: Taker, qty: Qty, k: nat): seq<Event>
    requires k <= |q| && forall i :: 0 <= i < k ==> Ahead(q, t, i) <= qty
  {
    if k == 0 then [] else Turns(q, t, qty, k - 1) + Turn(q, t, qty, k - 1)
  }

  /** `k` orders are consumed whole: each is reached with quantity left, and together they take no more than `qty`. */
  ghost predicate Consumes(q: seq<Order>, t: Taker, qty: Qty, k: nat) {
    && k <= CrossLen(q, t)
    && (forall i :: 0 <= i < k ==> Ahead(q, t, i) < qty)
    && Ahead(q, t, k) <= qty
  }

  /** The order at `k` is hit with less than its quantity. */
  ghost predicate SplitsMaker(q: seq<Order>, t: Taker, qty: Qty, k: nat) {
    k < CrossLen(q, t) && Ahead(q, t, k) < qty < Ahead(q, t, k + 1)
  }

  /** `k` is where the taker stops: out of crossing depth, exactly filled, or splitting the order at `k`. */
  ghost predicate StopsAt(q: seq<Order>, t: Taker, qty: Qty, k: nat) {
    && Consumes(q, t, qty, k)
    && (k == CrossLen(q, t) || Ahead(q, t, k) == qty || SplitsMaker(q, t, qty, k))
  }

  lemma AheadStep(q: seq<Order>, t: Taker, i: nat)
    requires i < |q|
    ensures Ahead(q, t, i + 1) == ForeignTo(t.key.account)(q[0]) + Ahead(q[1..], t, i)
    ensures Ahead(q, t, i + 1) == Ahead(q, t, i) + ForeignTo(t.key.account)(q[i])
    ensures Ahead(q, t, 0) == 0
  {
    var f := ForeignTo(t.key.account);
    assert q[..i + 1][1..] == q[1..][..i];
    assert q[..i + 1] == q[..i] + [q[i]];
    SumConcat(q[..i], [q[i]], f);
    assert Sum([q[i]], f) == f(q[i]) + Sum([q[i]][1..], f);
  }

  /** What one turn of the loop leaves of the opposite queue. */
  lemma HitQueue(b: BookView, t: Taker, qty: Qty)
    requires !Stops(b, t, qty)
    ensures var q, h := Queue(b, Opposite(t.side)), Hit(b, t, qty);
            var f := ForeignTo(t.key.account)(q[0]);
            && h.remaining == Monus(qty, f)
            && (f <= qty ==> Queue(h.book, Opposite(t.side)) == q[1..])
            && (f > qty ==> Queue(h.book, Opposite(t.side)) == [q[0].(qty := f - qty)] + q[1..])
            && h.events == Turn(q, t, qty, 0)
  {
    hide Ahead, Stops, Remove, SetQty;
    StopsNot(b, t, qty);
    var opp := Opposite(t.side);
    var q := Queue(b, opp);
    AheadStep(q, t, 0);
    HeadEdits(q, Monus(q[0].qty, qty));
    RemoveIs(b, opp);
    RemoveIs(b.(lastTrade := Some(q[0].price)), opp);
    SetQtyIs(b.(lastTrade := Some(q[0].price)), opp, Monus(q[0].qty, qty));
  }

  lemma StopsNot(b: BookView, t: Taker, qty: Qty)
    requires !Stops(b, t, qty)
    ensures Queue(b, Opposite(t.side)) != [] && qty > 0
  {
  }

  lemma RemoveIs(b: BookView, side: Side)
    requires Queue(b, side) != []
    ensures Queue(Remove(b, side, 0), side) == Without(Queue(b, side), 0)
  {
  }

  lemma SetQtyIs(b: BookView, side: Side, qty: Qty)
    requires Queue(b, side) != []
    ensures var q := Queue(b, side); Queue(SetQty(b, side, 0, qty), side) == q[0 := q[0].(qty := qty)]
  {
  }

  lemma HeadEdits(q: seq<Order>, qty: Qty)
    requires q != []
    ensures Without(q, 0) == q[1..] && q[0 := q[0].(qty := qty)] == [q[0].(qty := qty)] + q[1..]
  {
  }

  lemma TurnShift(q: seq<Order>, t: Taker, qty: Qty, i: nat)
    requires i + 1 < |q| && ForeignTo(t.key.account)(q[0]) + Ahead(q[1..], t, i) <= qty
    ensures Ahead(q, t, i + 1) == ForeignTo(t.key.account)(q[0]) + Ahead(q[1..], t, i)
    ensures Turn(q, t, qty, i + 1) == Turn(q[1..], t, qty - ForeignTo(t.key.account)(q[0]), i)
  {
    hide Deal;
    AheadStep(q, t, i);
    hide Ahead;
  }

  lemma {:induction false} TurnsShift(q: seq<Order>, t: Taker, qty: Qty, k: nat)
    requires q != [] && ForeignTo(t.key.account)(q[0]) <= qty && k <= |q| - 1
    requires forall i :: 0 <= i < k ==> Ahead(q[1..], t, i) <= qty - ForeignTo(t.key.account)(q[0])
    ensures forall i :: 0 <= i < k + 1 ==> Ahead(q, t, i) <= qty
    ensures Turns(q, t, qty, k + 1) == Turn(q, t, qty, 0) + Turns(q[1..], t, qty - ForeignTo(t.key.account)(q[0]), k)
  {
    hide Ahead, Turn;
    forall i | 0 <= i < k + 1
      ensures Ahead(q, t, i) <= qty
    {
      if i > 0 {
        AheadStep(q, t, i - 1);
      } else {
        AheadStep(q, t, 0);
      }
    }
    if k > 0 {
      TurnsShift(q, t, qty, k - 1);
      AheadStep(q, t, k - 1);
      TurnShift(q, t, qty, k - 1);
    }
  }

  lemma ConsumesShift(q: seq<Order>, t: Taker, qty: Qty, k: nat)
    requires q != [] && Crosses(t.side, t.limit, q[0].price) && qty > 0
    requires ForeignTo(t.key.account)(q[0]) <= qty
    requires StopsAt(q[1..], t, qty - ForeignTo(t.key.account)(q[0]), k)
    ensures StopsAt(q, t, qty, k + 1)
    ensures SplitsMaker(q, t, qty, k + 1) <==> SplitsMaker(q[1..], t, qty - ForeignTo(t.key.account)(q[0]), k)
  {
    forall i | 0 <= i < k + 1
      ensures Ahead(q, t, i) < qty
    {
      if i > 0 {
        AheadStep(q, t, i - 1);
      } else {
        AheadStep(q, t, 0);
      }
    }
    AheadStep(q, t, k);
    if k + 1 < |q| {
      AheadStep(q, t, k + 1);
    }
  }

  /** The queue a sweep leaves when it stops at `k`. */
  ghost function Leftover(q: seq<Order>, t: Taker, qty: Qty, k: nat): seq<Order>
    requires k <= |q|
  {
    if SplitsMaker(q, t, qty, k) then [q[k].(qty := Ahead(q, t, k + 1) - qty)] + q[k + 1..] else q[k..]
  }

  /** The events of a sweep that stops at `k`. */
  ghost function SweepEvents(q: seq<Order>, t: Taker, qty: Qty, k: nat): seq<Event>
    requires StopsAt(q, t, qty, k)
  {
    Turns(q, t, qty, k) + if SplitsMaker(q, t, qty, k) then Turn(q, t, qty, k) else []
  }

  /**
   * Price-time matching: exactly the orders with less than `qty` foreign quantity ahead of them are reached,
   * own ones are cancelled, foreign ones trade oldest first at their own price, only the last may be split,
   * and everything behind the stopping place is untouched.
   */
  lemma {:induction false} SweepClosedForm(b: BookView, t: Taker, qty: Qty) returns (k: nat)
    ensures var q, r := Queue(b, Opposite(t.side)), Sweep(b, t, qty);
            && StopsAt(q, t, qty, k)
            && Queue(r.book, Opposite(t.side)) == Leftover(q, t, qty, k)
            && r.events == SweepEvents(q, t, qty, k)
    decreases |Queue(b, Opposite(t.side))|, qty
  {
    hide Hit, Turn, Turns, Ahead, CrossLen, StopsAt, SplitsMaker;
    var q := Queue(b, Opposite(t.side));
    if Stops(b, t, qty) {
      k := 0;
      StopsAtOnce(q, t, qty);
    } else {
      HitQueue(b, t, qty);
      var h := Hit(b, t, qty);
      if ForeignTo(t.key.account)(q[0]) > qty {
        k := 0;
        StopsSplitting(q, t, qty);
        assert Stops(h.book, t, h.remaining);
      } else {
        var k' := SweepClosedForm(h.book, t, h.remaining);
        k := k' + 1;
        SweepShift(q, t, qty, k');
      }
    }
  }

  lemma StopsAtOnce(q: seq<Order>, t: Taker, qty: Qty)
    requires qty == 0 || q == [] || !Crosses(t.side, t.limit, q[0].price)
    ensures StopsAt(q, t, qty, 0) && Leftover(q, t, qty, 0) == q && SweepEvents(q, t, qty, 0) == []
  {
    assert Ahead(q, t, 0) == 0;
  }

  lemma StopsSplitting(q: seq<Order>, t: Taker, qty: Qty)
    requires qty > 0 && q != [] && Crosses(t.side, t.limit, q[0].price) && ForeignTo(t.key.account)(q[0]) > qty
    ensures StopsAt(q, t, qty, 0)
    ensures Leftover(q, t, qty, 0) == [q[0].(qty := ForeignTo(t.key.account)(q[0]) - qty)] + q[1..]
    ensures Ahead(q, t, 0) <= qty && SweepEvents(q, t, qty, 0) == Turn(q, t, qty, 0)
  {
    AheadStep(q, t, 0);
  }

  lemma SweepShift(q: seq<Order>, t: Taker, qty: Qty, k: nat)
    requires q != [] && Crosses(t.side, t.limit, q[0].price) && qty > 0
    requires ForeignTo(t.key.account)(q[0]) <= qty
    requires StopsAt(q[1..], t, qty - ForeignTo(t.key.account)(q[0]), k)
    ensures StopsAt(q, t, qty, k + 1)
    ensures var left := qty - ForeignTo(t.key.account)(q[0]);
            && Leftover(q, t, qty, k + 1) == Leftover(q[1..], t, left, k)
            && SweepEvents(q, t, qty, k + 1) == Turn(q, t, qty, 0) + SweepEvents(q[1..], t, left, k)
  {
    hide Turn, Crosses;
    var left := qty - ForeignTo(t.key.account)(q[0]);
    ConsumesShift(q, t, qty, k);
    TurnsShift(q, t, qty, k);
    if SplitsMaker(q, t, qty, k + 1) {
      AheadStep(q, t, k);
      AheadStep(q, t, k + 1);
      TurnShift(q, t, qty, k);
      assert q[1..][k + 1..] == q[k + 2..];
    } else {
      assert q[1..][k..] == q[k + 1..];
    }
  }

  lemma {:induction false} DepthIsAhead(q: seq<Order>, t: Taker)
    ensures ForeignDepth(q, t) == Ahead(q, t, CrossLen(q, t))
  {
    if CrossLen(q, t) > 0 {
      DepthIsAhead(q[1..], t);
      AheadStep(q, t, CrossLen(q, t) - 1);
    }
  }

  /** The remainder is the quantity the foreign crossing depth could not cover. */
  lemma {:induction false} SweepRemaining(b: BookView, t: Taker, qty: Qty)
    ensures Sweep(b, t, qty).remaining == Monus(qty, ForeignDepth(Queue(b, Opposite(t.side)), t))
    decreases |Queue(b, Opposite(t.side))|, qty
  {
    if !Stops(b, t, qty) {
      HitQueue(b, t, qty);
      var q, h := Queue(b, Opposite(t.side)), Hit(b, t, qty);
      SweepRemaining(h.book, t, h.remaining);
    }
  }

  /** The fill-or-kill precheck passes exactly when a sweep would leave nothing over. */
  lemma FillableSweepsToZero(b: BookView, t: Taker, qty: Qty)
    ensures Fillable(b, t, qty) <==> Sweep(b, t, qty).remaining == 0
  {
    SweepRemaining(b, t, qty);
  }

  // ---- The last trade ----

  /** The price of the latest print in `events`, or `before` if there is none. */
  function LatestTrade(before: Option<Price>, events: seq<Event>): Option<Price> {
    if events == [] then before
    else if events[|events| - 1].Trade? then Some(events[|events| - 1].price)
    else LatestTrade(before, events[..|events| - 1])
  }

  lemma {:induction false} LatestTradeConcat(before: Option<Price>, a: seq<Event>, b: seq<Event>)
    ensures LatestTrade(before, a + b) == LatestTrade(LatestTrade(before, a), b)
  {
    if b == [] {
      assert a + b == a;
    } else {
      assert (a + b)[..|a + b| - 1] == a + b[..|b| - 1];
      LatestTradeConcat(before, a, b[..|b| - 1]);
    }
  }

  lemma HitLastTrade(b: BookView, t: Taker, qty: Qty)
    requires !Stops(b, t, qty)
    ensures Hit(b, t, qty).book.lastTrade == LatestTrade(b.lastTrade, Hit(b, t, qty).events)
  {
    var maker := Queue(b, Opposite(t.side))[0];
    if maker.key.account == t.key.account {
      assert [Cancelled(maker.key)][..0] == [];
    }
  }

  lemma {:induction false} SweepLastTrade(b: BookView, t: Taker, qty: Qty)
    ensures Sweep(b, t, qty).book.lastTrade == LatestTrade(b.lastTrade, Sweep(b, t, qty).events)
    decreases |Queue(b, Opposite(t.side))|, qty
  {
    if !Stops(b, t, qty) {
      var h := Hit(b, t, qty);
      HitLastTrade(b, t, qty);
      SweepLastTrade(h.book, t, h.remaining);
      LatestTradeConcat(b.lastTrade, h.events, Sweep(h.book, t, h.remaining).events);
    }
  }
}
