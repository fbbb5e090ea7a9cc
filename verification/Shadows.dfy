/** The resting book rebuilt from execution events alone. */
module Shadows {
  import opened Types
  import opened Queues
  import opened BookViews
  import opened Matching
  import opened Risk
  import opened Runs

  /** An observer's picture: resting quantity by order. */
  type Shadow = map<OrderKey, nat>

  function Look(m: Shadow, k: OrderKey): nat {
    if k in m then m[k] else 0
  }

  function Put(m: Shadow, k: OrderKey, qty: Qty): Shadow {
    if qty == 0 then m - {k} else m[k := qty]
  }

  /** Read one event. Only the four execution events that change a resting quantity matter. */
  function Note(m: Shadow, e: Event): Shadow {
    match e
    case Accepted(k, resting) => Put(m, k, resting)
    case Filled(k, _, _, _, resting, _) => Put(m, k, resting)
    case Cancelled(k) => m - {k}
    case Replaced(k, newQty, _) => Put(m, k, newQty)
    case _ => m
  }

  function Rebuild(m: Shadow, events: seq<Event>): Shadow
    decreases |events|
  {
    if events == [] then m else Rebuild(Note(m, events[0]), events[1..])
  }

  function RestingQty(b: BookView, k: OrderKey): nat {
    if Find(b.bids, k) < |b.bids| then b.bids[Find(b.bids, k)].qty
    else if Find(b.asks, k) < |b.asks| then b.asks[Find(b.asks, k)].qty
    else 0
  }

  /** The picture agrees with the book on every order except possibly `but`. */
  ghost predicate MirrorsBut(m: Shadow, b: BookView, but: OrderKey) {
    && (forall k :: k in m ==> m[k] > 0)
    && (forall k :: k != but ==> Look(m, k) == RestingQty(b, k))
  }

  ghost predicate Mirrors(m: Shadow, b: BookView) {
    && (forall k :: k in m ==> m[k] > 0)
    && (forall k :: Look(m, k) == RestingQty(b, k))
  }

  // ---- Resting quantities across the three steps ----

  lemma QtyAtPosition(b: BookView, side: Side, i: nat)
    requires QueuesWf(b) && i < |Queue(b, side)|
    ensures RestingQty(b, Queue(b, side)[i].key) == Queue(b, side)[i].qty
  {
    hide Sorted, Positive, Uncrossed;
    var k := Queue(b, side)[i].key;
    assert HasKey(Queue(b, side), k);
    assert Find(Queue(b, side), k) == i;
    assert side.Sell? ==> !HasKey(b.bids, k);
  }

  lemma NotRestingQty(b: BookView, k: OrderKey)
    requires QueuesWf(b)
    ensures Rests(b, k) <==> RestingQty(b, k) > 0
  {
    hide Sorted, Unique, Disjoint, Uncrossed;
  }

  lemma RemoveQty(b: BookView, side: Side, i: nat, k: OrderKey)
    requires QueuesWf(b) && i < |Queue(b, side)|
    ensures RestingQty(Remove(b, side, i), k) == if k == Queue(b, side)[i].key then 0 else RestingQty(b, k)
  {
    var b' := Remove(b, side, i);
    RemoveQueuesWf(b, side, i);
    RemoveRests(b, side, i, k);
    NotRestingQty(b, k);
    NotRestingQty(b', k);
    if Rests(b', k) {
      var s, j := RestsWhere(b', k);
      QtyAtPosition(b', s, j);
      QtyAtPosition(b, s, if s == side && j >= i then j + 1 else j);
    }
  }

  lemma SetQtyQty(b: BookView, side: Side, i: nat, qty: Qty, k: OrderKey)
    requires QueuesWf(b) && i < |Queue(b, side)| && qty > 0
    ensures RestingQty(SetQty(b, side, i, qty), k) == if k == Queue(b, side)[i].key then qty else RestingQty(b, k)
  {
    var b' := SetQty(b, side, i, qty);
    SetQtyQueuesWf(b, side, i, qty);
    SetQtyRests(b, side, i, qty, k);
    NotRestingQty(b, k);
    NotRestingQty(b', k);
    if Rests(b', k) {
      var s, j := RestsWhere(b', k);
      QtyAtPosition(b', s, j);
      QtyAtPosition(b, s, j);
      PositionUnique(b, side, i, s, j);
    }
  }

  lemma PositionUnique(b: BookView, side: Side, i: nat, s: Side, j: nat)
    requires QueuesWf(b) && i < |Queue(b, side)| && j < |Queue(b, s)|
    ensures Queue(b, side)[i].key == Queue(b, s)[j].key <==> side == s && i == j
  {
    hide Sorted, Positive, Uncrossed;
  }

  /** Every order but the new one keeps its place up to the shift, and its quantity. */
  lemma RestQtyOther(b: BookView, side: Side, o: Order, s: Side, j: nat)
    requires QueuesWf(b) && QueuesWf(Rest(b, side, o)) && j < |Queue(Rest(b, side, o), s)|
    requires s == side ==> j != JoinAt(side, Queue(b, side), o.price)
    ensures var k := Queue(Rest(b, side, o), s)[j].key; RestingQty(Rest(b, side, o), k) == RestingQty(b, k)
  {
    hide QueuesWf, RestingQty;
    QtyAtPosition(Rest(b, side, o), s, j);
    QtyAtPosition(b, s, if s == side && j > JoinAt(side, Queue(b, side), o.price) then j - 1 else j);
  }

  lemma RestQty(b: BookView, side: Side, o: Order, k: OrderKey)
    requires QueuesWf(b) && MayRest(b, side, o)
    ensures RestingQty(Rest(b, side, o), k) == if k == o.key then o.qty else RestingQty(b, k)
  {
    hide QueuesWf, RestingQty, Rests;
    var b' := Rest(b, side, o);
    RestQueuesWf(b, side, o);
    RestRests(b, side, o, k);
    NotRestingQty(b, k);
    NotRestingQty(b', k);
    QtyAtPosition(b', side, JoinAt(side, Queue(b, side), o.price));
    if Rests(b', k) && k != o.key {
      var s, j := RestsWhere(b', k);
      RestQtyOther(b, side, o, s, j);
    }
  }

  lemma TradedQty(b: BookView, last: Option<Price>, k: OrderKey)
    ensures RestingQty(b.(lastTrade := last), k) == RestingQty(b, k)
  {
  }

  // ---- Sweeps ----

  lemma {:induction false} RebuildConcat(m: Shadow, xs: seq<Event>, ys: seq<Event>)
    ensures Rebuild(m, xs + ys) == Rebuild(Rebuild(m, xs), ys)
    decreases |xs|
  {
    if xs == [] {
      assert xs + ys == ys;
    } else {
      assert (xs + ys)[1..] == xs[1..] + ys;
      RebuildConcat(Note(m, xs[0]), xs[1..], ys);
    }
  }

  lemma RebuildOne(m: Shadow, e: Event)
    ensures Rebuild(m, [e]) == Note(m, e)
  {
    assert [e][1..] == [];
  }

  lemma RebuildThree(m: Shadow, x: Event, y: Event, z: Event)
    ensures Rebuild(m, [x, y, z]) == Note(Note(Note(m, x), y), z)
  {
    RebuildConcat(m, [x], [y, z]);
    RebuildConcat(Note(m, x), [y], [z]);
    assert [x, y, z] == [x] + [y, z] && [y, z] == [y] + [z];
    RebuildOne(m, x);
    RebuildOne(Note(m, x), y);
    RebuildOne(Note(Note(m, x), y), z);
  }

  /** After one turn the picture is exact again except at the taker, where it shows the taker's remainder. */
  lemma HitMirrors(m: Shadow, b: BookView, t: Taker, qty: Qty)
    requires Wf(b) && !Rests(b, t.key) && !Stops(b, t, qty) && MirrorsBut(m, b, t.key)
    ensures var h := Hit(b, t, qty);
            var m' := Rebuild(m, h.events);
            MirrorsBut(m', h.book, t.key) && (Look(m, t.key) == qty ==> Look(m', t.key) == h.remaining)
  {
    hide Rostered, Sorted, Unique, Disjoint, Uncrossed, Remove, SetQty, RestingQty, Rebuild;
    var opp := Opposite(t.side);
    var maker := Queue(b, opp)[0];
    var h := Hit(b, t, qty);
    RestsAt(b, opp, 0);
    QtyAtPosition(b, opp, 0);
    if maker.key.account == t.key.account {
      RebuildOne(m, Cancelled(maker.key));
      forall k
        ensures RestingQty(h.book, k) == if k == maker.key then 0 else RestingQty(b, k)
      {
        RemoveQty(b, opp, 0, k);
      }
    } else {
      HitFillMirrors(m, b, t, qty);
    }
  }

  lemma HitFillMirrors(m: Shadow, b: BookView, t: Taker, qty: Qty)
    requires Wf(b) && !Stops(b, t, qty) && MirrorsBut(m, b, t.key)
    requires Queue(b, Opposite(t.side))[0].key.account != t.key.account
    ensures var h := Hit(b, t, qty);
            var m' := Rebuild(m, h.events);
            MirrorsBut(m', h.book, t.key) && Look(m', t.key) == h.remaining
  {
    hide Rostered, Sorted, Unique, Disjoint, Uncrossed, Remove, SetQty, RestingQty, Rebuild;
    var opp := Opposite(t.side);
    var maker := Queue(b, opp)[0];
    var h := Hit(b, t, qty);
    var taken := Min(qty, maker.qty);
    var traded := b.(lastTrade := Some(maker.price));
    RebuildThree(m, h.events[0], h.events[1], h.events[2]);
    forall k
      ensures RestingQty(h.book, k) == if k == maker.key then maker.qty - taken else RestingQty(b, k)
    {
      TradedQty(b, Some(maker.price), k);
      if taken == maker.qty {
        RemoveQty(traded, opp, 0, k);
      } else {
        SetQtyQty(traded, opp, 0, maker.qty - taken, k);
      }
    }
  }

  lemma {:induction false} SweepMirrors(m: Shadow, b: BookView, t: Taker, qty: Qty)
    requires Wf(b) && !Rests(b, t.key) && MirrorsBut(m, b, t.key)
    ensures var r := Sweep(b, t, qty);
            var m' := Rebuild(m, r.events);
            MirrorsBut(m', r.book, t.key) && (Look(m, t.key) == qty ==> Look(m', t.key) == r.remaining)
    decreases |Queue(b, Opposite(t.side))|, qty
  {
    hide Wf, Rests, MirrorsBut, Hit, Look, Note;
    if !Stops(b, t, qty) {
      var h := Hit(b, t, qty);
      HitMirrors(m, b, t, qty);
      HitWf(b, t, qty);
      WfQueues(b);
      HitRests(b, t, qty, t.key);
      SweepMirrors(Rebuild(m, h.events), h.book, t, h.remaining);
      RebuildConcat(m, h.events, Sweep(h.book, t, h.remaining).events);
    }
  }

  lemma WfQueues(b: BookView)
    requires Wf(b)
    ensures QueuesWf(b)
  {
  }

  // ---- Whole commands ----

  lemma MirrorsIsBut(m: Shadow, b: BookView, k: OrderKey)
    requires Mirrors(m, b)
    ensures MirrorsBut(m, b, k) && Look(m, k) == RestingQty(b, k)
  {
  }

  /** Resting the remainder makes the picture exact once it shows that remainder. */
  lemma RemainderMirrors(m: Shadow, b: BookView, t: Taker, remaining: Qty)
    requires QueuesWf(b) && !Rests(b, t.key) && MirrorsBut(m, b, t.key) && Look(m, t.key) == remaining
    requires remaining > 0 ==> MayRest(b, t.side, Order(t.key, t.limit, remaining))
    ensures Mirrors(m, RestRemainder(b, t, remaining))
  {
    NotRestingQty(b, t.key);
    if remaining > 0 {
      var o := Order(t.key, t.limit, remaining);
      forall k
        ensures RestingQty(Rest(b, t.side, o), k) == if k == o.key then o.qty else RestingQty(b, k)
      {
        RestQty(b, t.side, o, k);
      }
    }
  }

  lemma PutMirrorsBut(m: Shadow, b: BookView, k: OrderKey, qty: Qty)
    requires MirrorsBut(m, b, k)
    ensures MirrorsBut(Put(m, k, qty), b, k) && Look(Put(m, k, qty), k) == qty
  {
  }

  /** A swept order's book, remainder and freshness, as the later steps need them. */
  lemma SweptReady(b: BookView, t: Taker, qty: Qty)
    requires Wf(b) && !Rests(b, t.key)
    ensures var r := Sweep(b, t, qty);
            && Wf(r.book) && QueuesWf(r.book) && !Rests(r.book, t.key)
            && (r.remaining > 0 ==> MayRest(r.book, t.side, Order(t.key, t.limit, r.remaining)))
  {
    hide Wf, Sweep, NoneCross;
    SweepWf(b, t, qty);
    SweepRests(b, t, qty, t.key);
    WfQueues(Sweep(b, t, qty).book);
  }

  lemma SubmitMirrors(m: Shadow, b: BookView, t: Taker, qty: Qty)
    requires Wf(b) && Mirrors(m, b) && !Rests(b, t.key)
    ensures var r := Sweep(b, t, qty);
            && Mirrors(Rebuild(m, r.events + [Accepted(t.key, r.remaining)]), RestRemainder(r.book, t, r.remaining))
            && Mirrors(Rebuild(m, r.events + [Accepted(t.key, 0)]), r.book)
  {
    hide Wf, Rests, Mirrors, MirrorsBut, Sweep, Rebuild, Look, QueuesWf;
    var r := Sweep(b, t, qty);
    var m' := Rebuild(m, r.events);
    MirrorsIsBut(m, b, t.key);
    SweepMirrors(m, b, t, qty);
    SweptReady(b, t, qty);
    RebuildConcat(m, r.events, [Accepted(t.key, r.remaining)]);
    RebuildConcat(m, r.events, [Accepted(t.key, 0)]);
    RebuildOne(m', Accepted(t.key, r.remaining));
    RebuildOne(m', Accepted(t.key, 0));
    PutMirrorsBut(m', r.book, t.key, r.remaining);
    PutMirrorsBut(m', r.book, t.key, 0);
    RemainderMirrors(Put(m', t.key, r.remaining), r.book, t, r.remaining);
    RemainderMirrors(Put(m', t.key, 0), r.book, t, 0);
  }

  lemma RejectMirrors(m: Shadow, b: BookView, k: OrderKey, reason: RejectReason)
    requires Mirrors(m, b)
    ensures Mirrors(Rebuild(m, [Rejected(k, reason)]), b)
  {
    RebuildOne(m, Rejected(k, reason));
  }

  lemma CancelMirrors(m: Shadow, b: BookView, side: Side, i: nat)
    requires QueuesWf(b) && i < |Queue(b, side)| && Mirrors(m, b)
    ensures Mirrors(Rebuild(m, [Cancelled(Queue(b, side)[i].key)]), Remove(b, side, i))
  {
    var k := Queue(b, side)[i].key;
    RebuildOne(m, Cancelled(k));
    forall x
      ensures RestingQty(Remove(b, side, i), x) == if x == k then 0 else RestingQty(b, x)
    {
      RemoveQty(b, side, i, x);
    }
  }

  lemma DeleteMirrors(m: Shadow, b: BookView, k: OrderKey)
    requires Wf(b) && Rests(b, k) && Mirrors(m, b)
    ensures Mirrors(Rebuild(m, [Cancelled(k)]), Delete(b, k))
  {
    hide Rostered, Mirrors, Rebuild, Remove;
    CancelMirrors(m, b, SideOf(b, k), Find(Queue(b, SideOf(b, k)), k));
  }

  lemma {:induction false} StpClearMirrors(m: Shadow, b: BookView, t: Taker)
    requires Wf(b) && Mirrors(m, b)
    ensures Mirrors(Rebuild(m, StpClear(b, t).events), StpClear(b, t).book)
    decreases |Queue(b, Opposite(t.side))|
  {
    hide Wf, Mirrors, Note;
    var opp := Opposite(t.side);
    var q := Queue(b, opp);
    if q == [] || !Crosses(t.side, t.limit, q[0].price) {
    } else if q[0].key.account == t.key.account {
      WfQueues(b);
      hide QueuesWf;
      CancelMirrors(m, b, opp, 0);
      RemoveWf(b, opp, 0);
      var b' := Remove(b, opp, 0);
      StpClearMirrors(Rebuild(m, [Cancelled(q[0].key)]), b', t);
      RebuildConcat(m, [Cancelled(q[0].key)], StpClear(b', t).events);
    }
  }

  lemma PostOnlyMirrors(m: Shadow, b: BookView, t: Taker, qty: Qty)
    requires Wf(b) && Mirrors(m, b) && qty > 0
    ensures Mirrors(Rebuild(m, SubmitPostOnly(b, t, qty).events), SubmitPostOnly(b, t, qty).book)
  {
    hide Wf, Mirrors, MirrorsBut, StpClear, Rebuild, Rests, QueuesWf, Look, NoneCross;
    if Rests(b, t.key) {
      RejectMirrors(m, b, t.key, DuplicateOrderId);
    } else {
      var c := StpClear(b, t);
      var m' := Rebuild(m, c.events);
      StpClearMirrors(m, b, t);
      StpClearWf(b, t);
      StpClearRests(b, t, t.key);
      WfQueues(c.book);
      if c.blocked {
        RejectMirrors(m', c.book, t.key, WouldCross);
        RebuildConcat(m, c.events, [Rejected(t.key, WouldCross)]);
      } else {
        RebuildConcat(m, c.events, [Accepted(t.key, qty)]);
        RebuildOne(m', Accepted(t.key, qty));
        MirrorsIsBut(m', c.book, t.key);
        PutMirrorsBut(m', c.book, t.key, qty);
        RemainderMirrors(Put(m', t.key, qty), c.book, t, qty);
      }
    }
  }

  lemma AmendInPlaceMirrors(m: Shadow, b: BookView, side: Side, i: nat, newQty: Qty)
    requires QueuesWf(b) && i < |Queue(b, side)| && Mirrors(m, b) && newQty > 0
    ensures Mirrors(Rebuild(m, [Replaced(Queue(b, side)[i].key, newQty, true)]), SetQty(b, side, i, newQty))
  {
    var k := Queue(b, side)[i].key;
    RebuildOne(m, Replaced(k, newQty, true));
    forall x
      ensures RestingQty(SetQty(b, side, i, newQty), x) == if x == k then newQty else RestingQty(b, x)
    {
      SetQtyQty(b, side, i, newQty, x);
    }
  }

  /** An order taken out of the book for an amend is the one place the picture may differ. */
  lemma RemovedMirrorsBut(m: Shadow, b: BookView, k: OrderKey)
    requires Wf(b) && Rests(b, k) && Mirrors(m, b)
    ensures MirrorsBut(m, Delete(b, k), k)
  {
    hide Rostered, Remove;
    forall x
      ensures x != k ==> RestingQty(Delete(b, k), x) == RestingQty(b, x)
    {
      RemoveQty(b, SideOf(b, k), Find(Queue(b, SideOf(b, k)), k), x);
    }
  }

  lemma ReenterMirrors(m: Shadow, b: BookView, k: OrderKey, side: Side, newPrice: Price, newQty: Qty)
    requires Wf(b) && Rests(b, k) && Mirrors(m, b)
    ensures var t := Taker(k, side, newPrice);
            var r := Sweep(Delete(b, k), t, newQty);
            Mirrors(Rebuild(m, [Replaced(k, newQty, false)] + r.events), RestRemainder(r.book, t, r.remaining))
  {
    hide Wf, Rests, Mirrors, MirrorsBut, Sweep, Rebuild, Look, QueuesWf, Delete;
    var t := Taker(k, side, newPrice);
    var b1 := Delete(b, k);
    var r := Sweep(b1, t, newQty);
    var m1 := Put(m, k, newQty);
    DeleteWf(b, k);
    RemovedMirrorsBut(m, b, k);
    PutMirrorsBut(m, b1, k, newQty);
    RebuildOne(m, Replaced(k, newQty, false));
    RebuildConcat(m, [Replaced(k, newQty, false)], r.events);
    SweepMirrors(m1, b1, t, newQty);
    SweptReady(b1, t, newQty);
    RemainderMirrors(Rebuild(m1, r.events), r.book, t, r.remaining);
  }

  lemma ModifyMirrors(m: Shadow, b: BookView, k: OrderKey, newPrice: Price, newQty: Qty)
    requires Wf(b) && Mirrors(m, b)
    ensures Mirrors(Rebuild(m, Modify(b, k, newPrice, newQty).events), Modify(b, k, newPrice, newQty).book)
  {
    hide Wf, Mirrors, Rebuild, Rests, QueuesWf, Sweep, SetQty;
    if newQty == 0 {
      RejectMirrors(m, b, k, ZeroQuantity);
    } else if !Rests(b, k) {
      RejectMirrors(m, b, k, UnknownOrderId);
    } else {
      var side := SideOf(b, k);
      if newPrice == OrderOf(b, k).price && newQty <= OrderOf(b, k).qty {
        WfQueues(b);
        AmendInPlaceMirrors(m, b, side, Find(Queue(b, side), k), newQty);
      } else {
        ReenterMirrors(m, b, k, side, newPrice, newQty);
      }
    }
  }

  lemma {:induction false} CancelEachMirrors(m: Shadow, b: BookView, a: AccountId, ids: seq<OrderId>)
    requires Wf(b) && Mirrors(m, b)
    ensures Mirrors(Rebuild(m, CancelEach(b, a, ids).events), CancelEach(b, a, ids).book)
    decreases |ids|
  {
    hide Wf, Mirrors, Rests, Delete;
    if ids != [] {
      var k := OrderKey(a, ids[0]);
      var b' := if Rests(b, k) then Delete(b, k) else b;
      if Rests(b, k) {
        DeleteWf(b, k);
        DeleteMirrors(m, b, k);
      } else {
        AbsentMirrors(m, b, k);
      }
      CancelEachMirrors(Rebuild(m, [Cancelled(k)]), b', a, ids[1..]);
      RebuildConcat(m, [Cancelled(k)], CancelEach(b', a, ids[1..]).events);
    }
  }

  lemma AbsentMirrors(m: Shadow, b: BookView, k: OrderKey)
    requires Wf(b) && Mirrors(m, b) && !Rests(b, k)
    ensures Mirrors(Rebuild(m, [Cancelled(k)]), b)
  {
    hide Rostered, Sorted, Unique, Disjoint, Uncrossed;
    RebuildOne(m, Cancelled(k));
    NotRestingQty(b, k);
  }

  /** Events that say nothing about a resting quantity. */
  predicate Silent(e: Event) {
    !e.Accepted? && !e.Filled? && !e.Cancelled? && !e.Replaced?
  }

  lemma {:induction false} RebuildSilent(m: Shadow, events: seq<Event>)
    requires forall i :: 0 <= i < |events| ==> Silent(events[i])
    ensures Rebuild(m, events) == m
  {
    if events != [] {
      assert Note(m, events[0]) == m;
      RebuildSilent(m, events[1..]);
    }
  }

  lemma {:induction false} LevelEventsSilent(side: Side, q: seq<Order>, prices: seq<Price>)
    ensures forall i :: 0 <= i < |LevelEvents(side, q, prices)| ==> LevelEvents(side, q, prices)[i].SnapshotLevel?
  {
    if prices != [] {
      LevelEventsSilent(side, q, prices[1..]);
    }
  }

  lemma {:induction false} AccountEventsSilent(b: BookView, accounts: seq<AccountId>)
    ensures forall i :: 0 <= i < |AccountEvents(b, accounts)| ==> AccountEvents(b, accounts)[i].SnapshotAccount?
  {
    if accounts != [] {
      AccountEventsSilent(b, accounts[1..]);
    }
  }

  lemma SnapshotSilent(b: BookView)
    ensures forall i :: 0 <= i < |SnapshotEvents(b)| ==>
              SnapshotEvents(b)[i].SnapshotLevel? || SnapshotEvents(b)[i].SnapshotAccount? || SnapshotEvents(b)[i].SnapshotSummary?
  {
    LevelEventsSilent(Buy, b.bids, AscendingPrices(Buy, b.bids));
    LevelEventsSilent(Sell, b.asks, AscendingPrices(Sell, b.asks));
    AccountEventsSilent(b, AccountsMet(b));
  }

  lemma NewOrderMirrors(m: Shadow, b: BookView, c: Command)
    requires Wf(b) && WellFormed(c) && Mirrors(m, b) && c.NewOrder?
    ensures Mirrors(Rebuild(m, Dispatch(b, c).events), Dispatch(b, c).book)
  {
    hide Wf, Mirrors, Rebuild, Rests, Sweep, RestRemainder, Fillable, SubmitPostOnly;
    var t := Taker(c.key, c.side, if c.kind.Market? then MarketLimit(c.side) else c.price);
    RejectMirrors(m, b, c.key, DuplicateOrderId);
    RejectMirrors(m, b, c.key, NotFullyFillable);
    PostOnlyMirrors(m, b, t, c.qty);
    if !Rests(b, c.key) {
      SubmitMirrors(m, b, t, c.qty);
    }
  }

  lemma DispatchMirrors(m: Shadow, b: BookView, c: Command)
    requires Wf(b) && WellFormed(c) && Mirrors(m, b)
    ensures Mirrors(Rebuild(m, Dispatch(b, c).events), Dispatch(b, c).book)
  {
    hide Wf, Mirrors, Modify, CancelEach, SnapshotEvents, Rests, Delete, Rebuild;
    hide SubmitGtc, SubmitIoc, SubmitFok, SubmitPostOnly, SubmitMarket;
    if c.NewOrder? {
      NewOrderMirrors(m, b, c);
    } else {
      match c {
        case CancelOrder(k) =>
          RejectMirrors(m, b, k, UnknownOrderId);
          if Rests(b, k) {
            DeleteMirrors(m, b, k);
          }
        case CancelReplace(k, newPrice, newQty) => ModifyMirrors(m, b, k, newPrice, newQty);
        case MassCancel(a) => CancelEachMirrors(m, b, a, OpenOrders(b, a));
        case KillSwitch(_) => RebuildSilent(m, []);
        case Snapshot =>
          SnapshotSilent(b);
          RebuildSilent(m, SnapshotEvents(b));
      }
    }
  }

  lemma ProcessMirrors(config: RiskConfig, m: Shadow, s: System, c: Command)
    requires Wf(s.book) && WellFormed(c) && Mirrors(m, s.book)
    ensures Mirrors(Rebuild(m, Process(config, s, c).events), Process(config, s, c).system.book)
  {
    RejectIsRejected(config, s.killed, c, s.book);
    hide Wf, Mirrors, Dispatch, Rebuild, PreApplyCheck, TopOfBook;
    var reject := PreApplyCheck(config, s.killed, c, s.book);
    if reject.Some? {
      RejectMirrors(m, s.book, reject.value.key, reject.value.reason);
    } else {
      DispatchMirrors(m, s.book, c);
      var r, top := Dispatch(s.book, c), TopOfBook(Dispatch(s.book, c).book);
      RebuildConcat(m, r.events, [BookUpdate(top.0, top.1)]);
      RebuildOne(Rebuild(m, r.events), BookUpdate(top.0, top.1));
    }
  }

  /** The gate only ever answers with a rejection of the command's own order. */
  lemma RejectIsRejected(config: RiskConfig, killed: bool, c: Command, b: BookView)
    ensures var r := PreApplyCheck(config, killed, c, b);
            r.Some? ==> r.value.Rejected? && (c.NewOrder? || c.CancelReplace?) && r.value.key == c.key
  {
  }

  lemma {:induction false} RunMirrors(config: RiskConfig, m: Shadow, s: System, cs: seq<Command>)
    requires Wf(s.book) && AllWellFormed(cs) && Mirrors(m, s.book)
    ensures Mirrors(Rebuild(m, Run(config, s, cs).events), Run(config, s, cs).system.book)
    decreases |cs|
  {
    hide Wf, Mirrors, Process, Note;
    if cs != [] {
      var p := Process(config, s, cs[0]);
      ProcessWf(config, s, cs[0]);
      ProcessMirrors(config, m, s, cs[0]);
      RunMirrors(config, Rebuild(m, p.events), p.system, cs[1..]);
      RebuildConcat(m, p.events, Run(config, p.system, cs[1..]).events);
    }
  }

  /**
   * For every run from an empty book, reading the Accepted, Filled, Cancelled and Replaced events alone
   * rebuilds the book's resting quantities exactly: same orders, same quantities.
   */
  lemma EventsRebuildTheBook(config: RiskConfig, cs: seq<Command>)
    requires AllWellFormed(cs)
    ensures var r := Run(config, START, cs);
            var m := Rebuild(map[], r.events);
            && (forall k :: k in m <==> Rests(r.system.book, k))
            && (forall k :: k in m ==> m[k] == OrderOf(r.system.book, k).qty)
  {
    EmptyWf();
    RunMirrors(config, map[], START, cs);
    RunWf(config, START, cs);
    var r := Run(config, START, cs);
    var m := Rebuild(map[], r.events);
    forall k
      ensures k in m <==> Rests(r.system.book, k)
    {
      assert Look(m, k) == RestingQty(r.system.book, k);
      NotRestingQty(r.system.book, k);
    }
    forall k | k in m
      ensures m[k] == OrderOf(r.system.book, k).qty
    {
      assert Look(m, k) == RestingQty(r.system.book, k);
    }
  }
}
