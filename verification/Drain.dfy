/** The kill switch drains: while it is engaged, nothing trades and nothing is added. */
module Drain {
  import opened Types
  import opened Queues
  import opened BookViews
  import opened Matching
  import opened Risk
  import opened Runs
  import opened Shadows

  predicate Shrinks(r: Order, q: Order) {
    r.key == q.key && r.price == q.price && r.qty <= q.qty
  }

  /** `r` is `q` with some orders gone and some quantities reduced: same prices, same relative order. */
  predicate Shrunk(r: seq<Order>, q: seq<Order>) {
    r == [] || (q != [] && ((Shrinks(r[0], q[0]) && Shrunk(r[1..], q[1..])) || Shrunk(r, q[1..])))
  }

  lemma {:induction false} ShrunkRefl(q: seq<Order>)
    ensures Shrunk(q, q)
  {
    if q != [] {
      ShrunkRefl(q[1..]);
    }
  }

  lemma {:induction false} ShrunkTrans(p: seq<Order>, q: seq<Order>, r: seq<Order>)
    requires Shrunk(p, q) && Shrunk(q, r)
    ensures Shrunk(p, r)
    decreases |r|
  {
    if p != [] {
      if Shrunk(q, r[1..]) {
        ShrunkTrans(p, q, r[1..]);
      } else if Shrunk(p, q[1..]) {
        ShrunkTrans(p, q[1..], r[1..]);
      } else {
        ShrunkTrans(p[1..], q[1..], r[1..]);
      }
    }
  }

  lemma {:induction false} ShrunkWithout(q: seq<Order>, i: nat)
    requires i < |q|
    ensures Shrunk(Without(q, i), q)
  {
    var r := Without(q, i);
    if i == 0 {
      assert r == q[1..];
      ShrunkRefl(r);
    } else {
      ShrunkWithout(q[1..], i - 1);
      assert r[0] == q[0] && r[1..] == Without(q[1..], i - 1);
    }
  }

  lemma {:induction false} ShrunkUpdate(q: seq<Order>, i: nat, qty: Qty)
    requires i < |q| && qty <= q[i].qty
    ensures Shrunk(q[i := q[i].(qty := qty)], q)
  {
    var r := q[i := q[i].(qty := qty)];
    if i == 0 {
      assert r[1..] == q[1..];
      ShrunkRefl(q[1..]);
    } else {
      ShrunkUpdate(q[1..], i - 1, qty);
      assert r[1..] == q[1..][i - 1 := q[1..][i - 1].(qty := qty)];
    }
  }

  /** Shrinking a side shrinks each of its price levels. */
  lemma {:induction false} ShrunkLevel(r: seq<Order>, q: seq<Order>, p: Price)
    requires Shrunk(r, q)
    ensures Shrunk(LevelAt(r, p), LevelAt(q, p))
    decreases |q|
  {
    if r != [] {
      var rs, qs := LevelAt(r, p), LevelAt(q, p);
      var tail := LevelAt(q[1..], p);
      if Shrinks(r[0], q[0]) && Shrunk(r[1..], q[1..]) {
        ShrunkLevel(r[1..], q[1..], p);
        if q[0].price == p {
          assert rs[0] == r[0] && rs[1..] == LevelAt(r[1..], p);
          assert qs[0] == q[0] && qs[1..] == tail;
        } else {
          assert rs == LevelAt(r[1..], p) && qs == tail;
        }
      } else {
        ShrunkLevel(r, q[1..], p);
        if q[0].price == p {
          assert qs[1..] == tail && qs != [];
        } else {
          assert qs == tail;
        }
      }
    }
  }

  /** Both sides shrank and the last trade did not move. */
  ghost predicate Drained(b': BookView, b: BookView) {
    Shrunk(b'.bids, b.bids) && Shrunk(b'.asks, b.asks) && b'.lastTrade == b.lastTrade
  }

  lemma DrainedRefl(b: BookView)
    ensures Drained(b, b)
  {
    ShrunkRefl(b.bids);
    ShrunkRefl(b.asks);
  }

  lemma DrainedTrans(a: BookView, b: BookView, c: BookView)
    requires Drained(a, b) && Drained(b, c)
    ensures Drained(a, c)
  {
    ShrunkTrans(a.bids, b.bids, c.bids);
    ShrunkTrans(a.asks, b.asks, c.asks);
  }

  lemma DeleteDrains(b: BookView, k: OrderKey)
    requires Rests(b, k)
    ensures Drained(Delete(b, k), b)
  {
    hide Dismiss;
    var side := SideOf(b, k);
    ShrunkWithout(Queue(b, side), Find(Queue(b, side), k));
    ShrunkRefl(Queue(b, Opposite(side)));
  }

  lemma {:induction false} CancelEachDrains(b: BookView, a: AccountId, ids: seq<OrderId>)
    ensures Drained(CancelEach(b, a, ids).book, b)
    ensures forall i :: 0 <= i < |CancelEach(b, a, ids).events| ==> CancelEach(b, a, ids).events[i].Cancelled?
    decreases |ids|
  {
    hide Drained, Rests, Delete;
    DrainedRefl(b);
    if ids != [] {
      var k := OrderKey(a, ids[0]);
      var b' := if Rests(b, k) then Delete(b, k) else b;
      if Rests(b, k) {
        DeleteDrains(b, k);
      }
      CancelEachDrains(b', a, ids[1..]);
      DrainedTrans(CancelEach(b', a, ids[1..]).book, b', b);
    }
  }

  /** No event of this kind adds or trades quantity. */
  predicate Quiet(e: Event) {
    !e.Trade? && !e.Filled? && !e.Accepted? && (e.Replaced? ==> e.priorityRetained)
  }

  lemma AmendDrains(b: BookView, k: OrderKey, newPrice: Price, newQty: Qty)
    requires Rests(b, k) ==> newPrice == OrderOf(b, k).price && newQty <= OrderOf(b, k).qty
    ensures Drained(Modify(b, k, newPrice, newQty).book, b)
    ensures forall i :: 0 <= i < |Modify(b, k, newPrice, newQty).events| ==> Quiet(Modify(b, k, newPrice, newQty).events[i])
  {
    hide Sweep, Delete;
    DrainedRefl(b);
    if newQty != 0 && Rests(b, k) {
      var side := SideOf(b, k);
      ShrunkUpdate(Queue(b, side), Find(Queue(b, side), k), newQty);
      ShrunkRefl(Queue(b, Opposite(side)));
    }
  }

  lemma DispatchDrains(b: BookView, c: Command)
    requires !c.NewOrder? && KillSwitchCheck(c, b).None?
    ensures Drained(Dispatch(b, c).book, b)
    ensures forall i :: 0 <= i < |Dispatch(b, c).events| ==> Quiet(Dispatch(b, c).events[i])
  {
    hide Drained, Modify, CancelEach, SnapshotEvents, Delete;
    DrainedRefl(b);
    match c {
      case CancelOrder(k) =>
        if Rests(b, k) {
          DeleteDrains(b, k);
        }
      case CancelReplace(k, newPrice, newQty) => AmendDrains(b, k, newPrice, newQty);
      case MassCancel(a) => CancelEachDrains(b, a, OpenOrders(b, a));
      case KillSwitch(_) =>
      case Snapshot => SnapshotSilent(b);
    }
  }

  lemma ProcessDrains(config: RiskConfig, s: System, c: Command)
    requires s.killed && c != KillSwitch(false)
    ensures var p := Process(config, s, c);
            && p.system.killed
            && Drained(p.system.book, s.book)
            && forall i :: 0 <= i < |p.events| ==> Quiet(p.events[i])
  {
    hide Drained, Dispatch, TopOfBook, NewOrderCheck;
    DrainedRefl(s.book);
    RejectIsRejected(config, s.killed, c, s.book);
    if PreApplyCheck(config, s.killed, c, s.book).None? {
      DispatchDrains(s.book, c);
    }
  }

  /**
   * While the switch stays engaged, any sequence of commands yields no trade, no fill and no acceptance, every
   * amend keeps its place, and each side of the book afterwards is the earlier one with orders gone or reduced.
   */
  lemma {:induction false} KillSwitchDrains(config: RiskConfig, s: System, cs: seq<Command>)
    requires s.killed && forall i :: 0 <= i < |cs| ==> cs[i] != KillSwitch(false)
    ensures var r := Run(config, s, cs);
            && r.system.killed
            && Drained(r.system.book, s.book)
            && forall i :: 0 <= i < |r.events| ==> Quiet(r.events[i])
    decreases |cs|
  {
    hide Drained, Process;
    DrainedRefl(s.book);
    if cs != [] {
      ProcessDrains(config, s, cs[0]);
      var p := Process(config, s, cs[0]);
      KillSwitchDrains(config, p.system, cs[1..]);
      DrainedTrans(Run(config, p.system, cs[1..]).system.book, p.system.book, s.book);
    }
  }
}
