/** Price-time priority over runs: at one price, first come is first served for as long as both orders stay. */
module Priority {
  import opened Types
  import opened Queues
  import opened BookViews
  import opened Matching
  import opened Sweeping
  import opened OrderTypes
  import opened Risk
  import opened Runs
  import opened Shadows
  import opened Drain
  import opened Widths

  /** `k` queues ahead of `l` at the same price. */
  ghost predicate Before(q: seq<Order>, k: OrderKey, l: OrderKey) {
    exists i, j :: 0 <= i < j < |q| && q[i].key == k && q[j].key == l && q[i].price == q[j].price
  }

  /** `r` brings neither key back, and keeps them in order if it has both. */
  ghost predicate Ordered(r: seq<Order>, q: seq<Order>, k: OrderKey, l: OrderKey) {
    && (HasKey(r, k) ==> HasKey(q, k))
    && (HasKey(r, l) ==> HasKey(q, l))
    && (Before(q, k, l) && HasKey(r, k) && HasKey(r, l) ==> Before(r, k, l))
  }

  ghost predicate BookOrdered(b': BookView, b: BookView, k: OrderKey, l: OrderKey) {
    Ordered(b'.bids, b.bids, k, l) && Ordered(b'.asks, b.asks, k, l)
  }

  lemma BookOrderedTrans(a: BookView, b: BookView, c: BookView, k: OrderKey, l: OrderKey)
    requires BookOrdered(a, b, k, l) && BookOrdered(b, c, k, l)
    ensures BookOrdered(a, c, k, l)
  {
    hide Before, HasKey;
  }

  // ---- Shrinking keeps order ----

  lemma {:induction false} ShrunkMember(r: seq<Order>, q: seq<Order>, i: nat) returns (j: nat)
    requires Shrunk(r, q) && i < |r|
    ensures j < |q| && q[j].key == r[i].key && q[j].price == r[i].price
    decreases |q|
  {
    if Shrinks(r[0], q[0]) && Shrunk(r[1..], q[1..]) {
      if i == 0 {
        j := 0;
      } else {
        var n := ShrunkMember(r[1..], q[1..], i - 1);
        j := n + 1;
      }
    } else {
      var n := ShrunkMember(r, q[1..], i);
      j := n + 1;
    }
  }

  lemma ShrunkHas(r: seq<Order>, q: seq<Order>, k: OrderKey)
    requires Shrunk(r, q) && HasKey(r, k)
    ensures HasKey(q, k)
  {
    hide Shrunk;
    var i :| 0 <= i < |r| && r[i].key == k;
    var j := ShrunkMember(r, q, i);
  }

  lemma BeforeTail(q: seq<Order>, k: OrderKey, l: OrderKey)
    requires q != [] && Unique(q) && Before(q, k, l)
    ensures q[0].key != l
    ensures q[0].key != k ==> Before(q[1..], k, l)
  {
    var i, j :| 0 <= i < j < |q| && q[i].key == k && q[j].key == l && q[i].price == q[j].price;
    assert q[0].key != q[j].key;
    if q[0].key != k {
      assert q[1..][i - 1] == q[i] && q[1..][j - 1] == q[j];
    }
  }

  lemma HasTail(q: seq<Order>, k: OrderKey)
    requires q != []
    ensures HasKey(q, k) <==> q[0].key == k || HasKey(q[1..], k)
  {
    if HasKey(q, k) {
      var i :| 0 <= i < |q| && q[i].key == k;
      assert i > 0 ==> q[1..][i - 1].key == k;
    }
    if HasKey(q[1..], k) {
      var i :| 0 <= i < |q[1..]| && q[1..][i].key == k;
      assert q[i + 1].key == k;
    }
  }

  lemma BeforeCons(q: seq<Order>, k: OrderKey, l: OrderKey)
    requires q != [] && Before(q[1..], k, l)
    ensures Before(q, k, l)
  {
    var i, j :| 0 <= i < j < |q[1..]| && q[1..][i].key == k && q[1..][j].key == l && q[1..][i].price == q[1..][j].price;
    assert q[i + 1] == q[1..][i] && q[j + 1] == q[1..][j];
  }

  /** The two keys sit at the head and behind it, with the price of their orders in the larger queue. */
  lemma HeadBefore(r: seq<Order>, q: seq<Order>, k: OrderKey, l: OrderKey)
    requires Shrunk(r, q) && Unique(q) && Before(q, k, l) && r != [] && q != []
    requires r[0].key == q[0].key == k && r[0].price == q[0].price && HasKey(r, l)
    ensures Before(r, k, l)
  {
    hide Shrunk;
    var i, j :| 0 <= i < j < |q| && q[i].key == k && q[j].key == l && q[i].price == q[j].price;
    assert i == 0;
    var n :| 0 <= n < |r| && r[n].key == l;
    var m := ShrunkMember(r, q, n);
    assert m == j;
    assert n != 0;
  }

  lemma {:induction false} ShrunkBefore(r: seq<Order>, q: seq<Order>, k: OrderKey, l: OrderKey)
    requires Shrunk(r, q) && Unique(q) && Before(q, k, l) && HasKey(r, k) && HasKey(r, l)
    ensures Before(r, k, l)
    decreases |q|
  {
    hide Before, HasKey, Unique;
    NotEmpty(r, k);
    UniqueTail(q);
    BeforeTail(q, k, l);
    if Shrinks(r[0], q[0]) && Shrunk(r[1..], q[1..]) {
      if q[0].key == k {
        HeadBefore(r, q, k, l);
      } else {
        HasTail(r, k);
        HasTail(r, l);
        ShrunkBefore(r[1..], q[1..], k, l);
        BeforeCons(r, k, l);
      }
    } else {
      ShrunkHas(r, q[1..], k);
      HeadGone(q, k);
      ShrunkBefore(r, q[1..], k, l);
    }
  }

  lemma NotEmpty(r: seq<Order>, k: OrderKey)
    requires HasKey(r, k)
    ensures r != []
  {
  }

  lemma UniqueTail(q: seq<Order>)
    requires Unique(q) && q != []
    ensures Unique(q[1..])
  {
  }

  lemma HeadGone(q: seq<Order>, k: OrderKey)
    requires q != [] && Unique(q) && HasKey(q[1..], k)
    ensures q[0].key != k
  {
    var i :| 0 <= i < |q[1..]| && q[1..][i].key == k;
    assert q[i + 1].key == k;
  }

  lemma ShrunkOrdered(r: seq<Order>, q: seq<Order>, k: OrderKey, l: OrderKey)
    requires Shrunk(r, q) && Unique(q)
    ensures Ordered(r, q, k, l)
  {
    hide Shrunk, Before, HasKey, Unique;
    if HasKey(r, k) {
      ShrunkHas(r, q, k);
    }
    if HasKey(r, l) {
      ShrunkHas(r, q, l);
    }
    if Before(q, k, l) && HasKey(r, k) && HasKey(r, l) {
      ShrunkBefore(r, q, k, l);
    }
  }

  lemma DrainedOrdered(b': BookView, b: BookView, k: OrderKey, l: OrderKey)
    requires QueuesWf(b) && Drained(b', b)
    ensures BookOrdered(b', b, k, l)
  {
    hide Shrunk, Ordered, Sorted, Unique, Disjoint, Positive, Uncrossed;
    ShrunkOrdered(b'.bids, b.bids, k, l);
    ShrunkOrdered(b'.asks, b.asks, k, l);
  }

  // ---- Joining keeps order ----

  lemma JoinOrdered(q: seq<Order>, at: nat, o: Order, k: OrderKey, l: OrderKey)
    requires at <= |q| && o.key != k && o.key != l
    ensures Ordered(With(q, at, o), q, k, l)
  {
    var r := With(q, at, o);
    HasKeyWith(q, at, o, k);
    HasKeyWith(q, at, o, l);
    if Before(q, k, l) {
      var i, j :| 0 <= i < j < |q| && q[i].key == k && q[j].key == l && q[i].price == q[j].price;
      var i', j' := if i < at then i else i + 1, if j < at then j else j + 1;
      assert r[i'] == q[i] && r[j'] == q[j];
    }
  }

  lemma SameOrdered(q: seq<Order>, k: OrderKey, l: OrderKey)
    ensures Ordered(q, q, k, l)
  {
  }

  lemma RestOrdered(b: BookView, side: Side, o: Order, k: OrderKey, l: OrderKey)
    requires o.key != k && o.key != l
    ensures BookOrdered(Rest(b, side, o), b, k, l)
  {
    hide Ordered, With;
    JoinOrdered(Queue(b, side), JoinAt(side, Queue(b, side), o.price), o, k, l);
    SameOrdered(Queue(b, Opposite(side)), k, l);
  }

  lemma RemainderOrdered(b: BookView, t: Taker, remaining: Qty, k: OrderKey, l: OrderKey)
    requires t.key != k && t.key != l
    ensures BookOrdered(RestRemainder(b, t, remaining), b, k, l)
  {
    hide Ordered, Rest;
    RestOrdered(b, t.side, Order(t.key, t.limit, remaining), k, l);
    SameOrdered(b.bids, k, l);
    SameOrdered(b.asks, k, l);
  }

  lemma SidesOrdered(b': BookView, b: BookView, side: Side, k: OrderKey, l: OrderKey)
    requires QueuesWf(b) && Queue(b', side) == Queue(b, side) && Shrunk(Queue(b', Opposite(side)), Queue(b, Opposite(side)))
    ensures BookOrdered(b', b, k, l)
  {
    hide Shrunk, Ordered, Sorted, Unique, Disjoint, Positive, Uncrossed;
    SameOrdered(Queue(b, side), k, l);
    ShrunkOrdered(Queue(b', Opposite(side)), Queue(b, Opposite(side)), k, l);
  }

  lemma SweepOrdered(b: BookView, t: Taker, qty: Qty, k: OrderKey, l: OrderKey)
    requires QueuesWf(b)
    ensures BookOrdered(Sweep(b, t, qty).book, b, k, l)
  {
    hide QueuesWf, Sweep, BookOrdered, Shrunk;
    SweepFrame(b, t, qty);
    SweepShrinks(b, t, qty);
    SidesOrdered(Sweep(b, t, qty).book, b, t.side, k, l);
  }

  lemma StpClearOrdered(b: BookView, t: Taker, k: OrderKey, l: OrderKey)
    requires QueuesWf(b)
    ensures BookOrdered(StpClear(b, t).book, b, k, l)
  {
    hide QueuesWf, StpClear, BookOrdered, Shrunk, OwnPrefix, Cancels;
    var q := Queue(b, Opposite(t.side));
    PostOnlyWalk(b, t);
    PrefixEnds(q, t);
    ShrunkSuffix(q, OwnPrefix(q, t));
    SidesOrdered(StpClear(b, t).book, b, t.side, k, l);
  }

  lemma SubmitOrdered(b: BookView, t: Taker, qty: Qty, k: OrderKey, l: OrderKey)
    requires QueuesWf(b) && t.key != k && t.key != l
    ensures var r := Sweep(b, t, qty);
            BookOrdered(r.book, b, k, l) && BookOrdered(RestRemainder(r.book, t, r.remaining), b, k, l)
  {
    hide QueuesWf, Sweep, BookOrdered, RestRemainder;
    var r := Sweep(b, t, qty);
    SweepOrdered(b, t, qty, k, l);
    RemainderOrdered(r.book, t, r.remaining, k, l);
    BookOrderedTrans(RestRemainder(r.book, t, r.remaining), r.book, b, k, l);
  }

  lemma PostOnlyOrdered(b: BookView, t: Taker, qty: Qty, k: OrderKey, l: OrderKey)
    requires QueuesWf(b) && t.key != k && t.key != l
    ensures BookOrdered(SubmitPostOnly(b, t, qty).book, b, k, l)
  {
    hide QueuesWf, StpClear, BookOrdered, Rest, Rests;
    var c := StpClear(b, t);
    StpClearOrdered(b, t, k, l);
    RestOrdered(c.book, t.side, Order(t.key, t.limit, qty), k, l);
    BookOrderedTrans(Rest(c.book, t.side, Order(t.key, t.limit, qty)), c.book, b, k, l);
    BookOrderedRefl(b, k, l);
  }

  lemma BookOrderedRefl(b: BookView, k: OrderKey, l: OrderKey)
    ensures BookOrdered(b, b, k, l)
  {
    hide Ordered;
    SameOrdered(b.bids, k, l);
    SameOrdered(b.asks, k, l);
  }

  // ---- Commands ----

  /** An amend that gives up its order's place. */
  predicate Reenters(b: BookView, c: Command, k: OrderKey) {
    && c.CancelReplace? && c.key == k && Rests(b, k)
    && (c.newPrice != OrderOf(b, k).price || c.newQty > OrderOf(b, k).qty)
  }

  lemma NewOrderOrdered(b: BookView, c: Command, k: OrderKey, l: OrderKey)
    requires QueuesWf(b) && c.NewOrder? && Rests(b, k) && Rests(b, l)
    ensures BookOrdered(Dispatch(b, c).book, b, k, l)
  {
    hide QueuesWf, BookOrdered, Sweep, RestRemainder, SubmitPostOnly, Rests, Fillable;
    var t := Taker(c.key, c.side, if c.kind.Market? then MarketLimit(c.side) else c.price);
    BookOrderedRefl(b, k, l);
    if Rests(b, c.key) {
      PostOnlyDuplicate(b, t, c.qty);
    } else {
      SubmitOrdered(b, t, c.qty, k, l);
      PostOnlyOrdered(b, t, c.qty, k, l);
    }
  }

  lemma ModifyOrdered(b: BookView, c: Command, k: OrderKey, l: OrderKey)
    requires Wf(b) && c.CancelReplace? && !Reenters(b, c, k) && !Reenters(b, c, l)
    ensures BookOrdered(Modify(b, c.key, c.newPrice, c.newQty).book, b, k, l)
  {
    hide Wf, BookOrdered, Sweep, RestRemainder, Rests, Delete, Drained;
    BookOrderedRefl(b, k, l);
    if c.newQty != 0 && Rests(b, c.key) {
      WfQueues(b);
      if c.newPrice == OrderOf(b, c.key).price && c.newQty <= OrderOf(b, c.key).qty {
        AmendDrains(b, c.key, c.newPrice, c.newQty);
        DrainedOrdered(Modify(b, c.key, c.newPrice, c.newQty).book, b, k, l);
      } else {
        var b1, t := Delete(b, c.key), Taker(c.key, SideOf(b, c.key), c.newPrice);
        DeleteDrains(b, c.key);
        DrainedOrdered(b1, b, k, l);
        DeleteWf(b, c.key);
        WfQueues(b1);
        SubmitOrdered(b1, t, c.newQty, k, l);
        BookOrderedTrans(Modify(b, c.key, c.newPrice, c.newQty).book, b1, b, k, l);
      }
    }
  }

  lemma ProcessOrdered(config: RiskConfig, s: System, c: Command, k: OrderKey, l: OrderKey)
    requires Wf(s.book) && Rests(s.book, k) && Rests(s.book, l) && !Reenters(s.book, c, k) && !Reenters(s.book, c, l)
    ensures BookOrdered(Process(config, s, c).system.book, s.book, k, l)
  {
    hide Wf, QueuesWf, BookOrdered, Modify, CancelEach, SubmitGtc, SubmitIoc, SubmitFok, SubmitPostOnly, SubmitMarket;
    hide SnapshotEvents, TopOfBook, PreApplyCheck, Rests, Delete, Drained, Reenters;
    BookOrderedRefl(s.book, k, l);
    WfQueues(s.book);
    match c {
      case NewOrder(_, _, _, _, _, _, _) => NewOrderOrdered(s.book, c, k, l);
      case CancelOrder(x) =>
        if Rests(s.book, x) {
          DeleteDrains(s.book, x);
          DrainedOrdered(Delete(s.book, x), s.book, k, l);
        }
      case CancelReplace(_, _, _) => ModifyOrdered(s.book, c, k, l);
      case MassCancel(a) =>
        CancelEachDrains(s.book, a, OpenOrders(s.book, a));
        DrainedOrdered(CancelAll(s.book, a).book, s.book, k, l);
      case KillSwitch(_) =>
      case Snapshot =>
    }
  }

  lemma RestsOn(b': BookView, b: BookView, side: Side, k: OrderKey, l: OrderKey, x: OrderKey)
    requires QueuesWf(b) && BookOrdered(b', b, k, l) && (x == k || x == l) && HasKey(Queue(b, side), x) && Rests(b', x)
    ensures HasKey(Queue(b', side), x)
  {
    hide Before, HasKey, QueuesWf, Rests;
    KeyOneSide(b, side, x);
    RestsHas(b', x);
  }

  /** No key rests on both sides. */
  lemma KeyOneSide(b: BookView, side: Side, k: OrderKey)
    requires QueuesWf(b) && HasKey(Queue(b, side), k)
    ensures !HasKey(Queue(b, Opposite(side)), k)
  {
    hide Sorted, Unique, Positive, Uncrossed;
    var i :| 0 <= i < |Queue(b, side)| && Queue(b, side)[i].key == k;
  }

  lemma RestsHas(b: BookView, k: OrderKey)
    ensures Rests(b, k) <==> HasKey(b.bids, k) || HasKey(b.asks, k)
  {
    if Rests(b, k) {
      var s, i := RestsWhere(b, k);
      assert HasKey(Queue(b, s), k);
    }
  }

  lemma BeforeHas(q: seq<Order>, k: OrderKey, l: OrderKey)
    requires Before(q, k, l)
    ensures HasKey(q, k) && HasKey(q, l)
  {
  }

  lemma HasRests(b: BookView, side: Side, k: OrderKey)
    requires HasKey(Queue(b, side), k)
    ensures Rests(b, k)
  {
    var i :| 0 <= i < |Queue(b, side)| && Queue(b, side)[i].key == k;
    RestsAt(b, side, i);
  }

  /** One command keeps two orders at one price in order if both still rest and neither re-entered. */
  lemma StepKeepsPriority(config: RiskConfig, s: System, c: Command, side: Side, k: OrderKey, l: OrderKey)
    requires Wf(s.book) && Before(Queue(s.book, side), k, l) && !Reenters(s.book, c, k) && !Reenters(s.book, c, l)
    requires var b := Process(config, s, c).system.book; Rests(b, k) && Rests(b, l)
    ensures Before(Queue(Process(config, s, c).system.book, side), k, l)
  {
    hide Wf, QueuesWf, Before, HasKey, Process, Rests, Reenters;
    var b := Process(config, s, c).system.book;
    BeforeHas(Queue(s.book, side), k, l);
    HasRests(s.book, side, k);
    HasRests(s.book, side, l);
    ProcessOrdered(config, s, c, k, l);
    WfQueues(s.book);
    RestsOn(b, s.book, side, k, l, k);
    RestsOn(b, s.book, side, k, l, l);
  }

  // ---- Fills ----

  ghost predicate Fills(events: seq<Event>, k: OrderKey) {
    exists i :: 0 <= i < |events| && events[i].Filled? && events[i].key == k
  }

  lemma FillsConcat(xs: seq<Event>, ys: seq<Event>, k: OrderKey)
    ensures Fills(xs + ys, k) <==> Fills(xs, k) || Fills(ys, k)
  {
    if Fills(xs, k) {
      var i :| 0 <= i < |xs| && xs[i].Filled? && xs[i].key == k;
      assert (xs + ys)[i] == xs[i];
    }
    if Fills(ys, k) {
      var i :| 0 <= i < |ys| && ys[i].Filled? && ys[i].key == k;
      assert (xs + ys)[|xs| + i] == ys[i];
    }
    if Fills(xs + ys, k) {
      var i :| 0 <= i < |xs + ys| && (xs + ys)[i].Filled? && (xs + ys)[i].key == k;
      assert (xs + ys)[i] == if i < |xs| then xs[i] else ys[i - |xs|];
    }
  }

  /** A turn fills the taker and the head of the opposite queue, nobody else. */
  lemma HitFillsHead(b: BookView, t: Taker, qty: Qty, k: OrderKey)
    requires !Stops(b, t, qty) && Fills(Hit(b, t, qty).events, k) && k != t.key
    ensures Queue(b, Opposite(t.side))[0].key == k
  {
    hide Remove, SetQty;
  }

  lemma StoppedFillsNone(b: BookView, t: Taker, qty: Qty, k: OrderKey)
    requires Stops(b, t, qty)
    ensures !Fills(Sweep(b, t, qty).events, k)
  {
  }

  lemma GoneForGood(b: BookView, t: Taker, qty: Qty, k: OrderKey)
    requires Wf(b) && !Stops(b, t, qty) && Queue(Hit(b, t, qty).book, Opposite(t.side)) == Queue(b, Opposite(t.side))[1..]
    requires Queue(b, Opposite(t.side))[0].key == k
    ensures !Rests(Sweep(b, t, qty).book, k)
  {
    hide Rostered, Sorted, Disjoint, Positive, Uncrossed, Hit, HasKey, Rests;
    var h, opp := Hit(b, t, qty), Opposite(t.side);
    HitWf(b, t, qty);
    HitFrame(b, t, qty);
    HeadOnce(Queue(b, opp));
    KeyOneSide(b, opp, k);
    RestsHas(h.book, k);
    SweepRests(h.book, t, h.remaining, k);
  }

  lemma HeadOnce(q: seq<Order>)
    requires q != [] && Unique(q)
    ensures HasKey(q, q[0].key) && !HasKey(q[1..], q[0].key)
  {
  }

  lemma HitFrame(b: BookView, t: Taker, qty: Qty)
    requires !Stops(b, t, qty)
    ensures Queue(Hit(b, t, qty).book, t.side) == Queue(b, t.side)
  {
    hide Dismiss;
  }

  /** A sweep that fills the later of two orders at one price has passed the earlier one: it no longer rests. */
  lemma {:induction false} SweepPasses(b: BookView, t: Taker, qty: Qty, k: OrderKey, l: OrderKey)
    requires Wf(b) && Before(Queue(b, Opposite(t.side)), k, l) && l != t.key && Fills(Sweep(b, t, qty).events, l)
    ensures !Rests(Sweep(b, t, qty).book, k)
    decreases |Queue(b, Opposite(t.side))|, qty
  {
    hide Rostered, Sorted, Disjoint, Positive, Uncrossed, Unique, Before, Fills, Hit, Rests;
    var q := Queue(b, Opposite(t.side));
    if Stops(b, t, qty) {
      StoppedFillsNone(b, t, qty, l);
      assert false;
    }
    var h := Hit(b, t, qty);
    var r := Sweep(h.book, t, h.remaining);
    FillsConcat(h.events, r.events, l);
    BeforeTail(q, k, l);
    if Fills(h.events, l) {
      HitFillsHead(b, t, qty, l);
      assert false;
    }
    HitQueue(b, t, qty);
    if Stops(h.book, t, h.remaining) {
      StoppedFillsNone(h.book, t, h.remaining, l);
      assert false;
    }
    if q[0].key == k {
      GoneForGood(b, t, qty, k);
    } else {
      HitWf(b, t, qty);
      SweepPasses(h.book, t, h.remaining, k, l);
    }
  }

  /** Makers come from the opposite side. */
  lemma {:induction false} SweepFillsOpposite(b: BookView, t: Taker, qty: Qty, k: OrderKey)
    requires Fills(Sweep(b, t, qty).events, k) && k != t.key
    ensures HasKey(Queue(b, Opposite(t.side)), k)
    decreases |Queue(b, Opposite(t.side))|, qty
  {
    hide Fills, Hit;
    var q := Queue(b, Opposite(t.side));
    if Stops(b, t, qty) {
      StoppedFillsNone(b, t, qty, k);
      assert false;
    }
    var h := Hit(b, t, qty);
    FillsConcat(h.events, Sweep(h.book, t, h.remaining).events, k);
    HitQueue(b, t, qty);
    if Fills(h.events, k) {
      HitFillsHead(b, t, qty, k);
      assert q[0].key == k;
    } else {
      SweepFillsOpposite(h.book, t, h.remaining, k);
      var i :| 0 <= i < |Queue(h.book, Opposite(t.side))| && Queue(h.book, Opposite(t.side))[i].key == k;
      if Queue(h.book, Opposite(t.side)) == q[1..] {
        assert q[i + 1].key == k;
      } else {
        assert q[i].key == k;
      }
    }
  }

  lemma SweepFillsInOrder(b: BookView, t: Taker, qty: Qty, side: Side, k: OrderKey, l: OrderKey)
    requires Wf(b) && Before(Queue(b, side), k, l) && l != t.key && Fills(Sweep(b, t, qty).events, l)
    ensures side == Opposite(t.side) && !Rests(Sweep(b, t, qty).book, k)
  {
    hide QueuesWf, Before, HasKey, Fills, Sweep, Rests;
    SweepFillsOpposite(b, t, qty, l);
    BeforeHas(Queue(b, side), k, l);
    KeyOneSide(b, side, l);
    SweepPasses(b, t, qty, k, l);
  }

  lemma RemainderRests(b: BookView, t: Taker, remaining: Qty, k: OrderKey)
    requires !Rests(b, k) && k != t.key
    ensures !Rests(RestRemainder(b, t, remaining), k)
  {
    hide Rests, Rest;
    RestRests(b, t.side, Order(t.key, t.limit, remaining), k);
  }

  lemma FillsLast(xs: seq<Event>, e: Event, k: OrderKey)
    requires !e.Filled?
    ensures Fills(xs + [e], k) <==> Fills(xs, k)
  {
    FillsConcat(xs, [e], k);
  }

  lemma NewOrderFillsInOrder(b: BookView, c: Command, side: Side, k: OrderKey, l: OrderKey)
    requires Wf(b) && c.NewOrder? && Before(Queue(b, side), k, l) && Fills(Dispatch(b, c).events, l)
    ensures !Rests(Dispatch(b, c).book, k)
  {
    hide Wf, Before, Fills, Sweep, RestRemainder, SubmitPostOnly, Rests, Fillable, HasKey;
    var t := Taker(c.key, c.side, if c.kind.Market? then MarketLimit(c.side) else c.price);
    var r := Sweep(b, t, c.qty);
    BeforeHas(Queue(b, side), k, l);
    HasRests(b, side, k);
    HasRests(b, side, l);
    SingleFillsNone(Rejected(c.key, DuplicateOrderId), l);
    SingleFillsNone(Rejected(c.key, NotFullyFillable), l);
    FillsLast(r.events, Accepted(c.key, r.remaining), l);
    FillsLast(r.events, Accepted(c.key, 0), l);
    PostOnlyFillsNone(b, t, c.qty, l);
    SweepFillsInOrder(b, t, c.qty, side, k, l);
    RemainderRests(r.book, t, r.remaining, k);
  }

  lemma SingleFillsNone(e: Event, k: OrderKey)
    requires !e.Filled?
    ensures !Fills([e], k)
  {
  }

  lemma PostOnlyFillsNone(b: BookView, t: Taker, qty: Qty, k: OrderKey)
    ensures !Fills(SubmitPostOnly(b, t, qty).events, k)
  {
    hide SubmitPostOnly;
    PostOnlyTakesNothing(b, t, qty);
  }

  lemma ModifyFillsInOrder(b: BookView, c: Command, side: Side, k: OrderKey, l: OrderKey)
    requires Wf(b) && c.CancelReplace? && c.key != l && Before(Queue(b, side), k, l)
    requires Fills(Modify(b, c.key, c.newPrice, c.newQty).events, l)
    ensures !Rests(Modify(b, c.key, c.newPrice, c.newQty).book, k)
  {
    hide Wf, QueuesWf, Before, Fills, Sweep, RestRemainder, Rests, Delete, HasKey, Drained, BookOrdered;
    var x := c.key;
    SingleFillsNone(Rejected(x, ZeroQuantity), l);
    SingleFillsNone(Rejected(x, UnknownOrderId), l);
    SingleFillsNone(Replaced(x, c.newQty, true), l);
    if c.newQty != 0 && Rests(b, x) && (c.newPrice != OrderOf(b, x).price || c.newQty > OrderOf(b, x).qty) {
      var b1, t := Delete(b, x), Taker(x, SideOf(b, x), c.newPrice);
      var r := Sweep(b1, t, c.newQty);
      SingleFillsNone(Replaced(x, c.newQty, false), l);
      FillsConcat([Replaced(x, c.newQty, false)], r.events, l);
      DeleteWf(b, x);
      if x == k {
        OwnSideNotFilled(b, t, c.newQty, side, k, l);
        assert false;
      }
      BeforeHas(Queue(b, side), k, l);
      HasRests(b, side, k);
      HasRests(b, side, l);
      DeleteDrains(b, x);
      WfQueues(b);
      DrainedOrdered(b1, b, k, l);
      RestsOn(b1, b, side, k, l, k);
      RestsOn(b1, b, side, k, l, l);
      BeforeKept(b1, b, side, k, l);
      SweepFillsInOrder(b1, t, c.newQty, side, k, l);
      RemainderRests(r.book, t, r.remaining, k);
    }
  }

  lemma BeforeKept(b': BookView, b: BookView, side: Side, k: OrderKey, l: OrderKey)
    requires BookOrdered(b', b, k, l) && Before(Queue(b, side), k, l) && HasKey(Queue(b', side), k) && HasKey(Queue(b', side), l)
    ensures Before(Queue(b', side), k, l)
  {
    hide Before, HasKey;
  }

  /** An order that re-enters trades with the other side, so the order queued behind it is not filled. */
  lemma OwnSideNotFilled(b: BookView, t: Taker, qty: Qty, side: Side, k: OrderKey, l: OrderKey)
    requires Wf(b) && Rests(b, k) && t.key == k && t.side == SideOf(b, k) && k != l && Before(Queue(b, side), k, l)
    ensures !Fills(Sweep(Delete(b, k), t, qty).events, l)
  {
    hide QueuesWf, Before, HasKey, Fills, Sweep, Rests, Remove;
    var at := Find(Queue(b, t.side), k);
    BeforeHas(Queue(b, side), k, l);
    KeyOneSide(b, side, k);
    KeyOneSide(b, side, l);
    FoundHas(Queue(b, t.side), k);
    RemoveKeepsOpposite(b, t.side, at);
    if Fills(Sweep(Delete(b, k), t, qty).events, l) {
      SweepFillsOpposite(Delete(b, k), t, qty, l);
      assert false;
    }
  }

  lemma FoundHas(q: seq<Order>, k: OrderKey)
    requires Find(q, k) < |q|
    ensures HasKey(q, k)
  {
    assert q[Find(q, k)].key == k;
  }

  /** Whenever the later of two orders at one price is filled as a maker, the earlier one has left the book. */
  lemma FillsInOrder(config: RiskConfig, s: System, c: Command, side: Side, k: OrderKey, l: OrderKey)
    requires Wf(s.book) && Before(Queue(s.book, side), k, l) && (c.CancelReplace? ==> c.key != l)
    requires Fills(Process(config, s, c).events, l)
    ensures !Rests(Process(config, s, c).system.book, k)
  {
    RejectIsRejected(config, s.killed, c, s.book);
    hide Wf, Before, Fills, PreApplyCheck, Rests, Dispatch, TopOfBook;
    var reject := PreApplyCheck(config, s.killed, c, s.book);
    if reject.Some? {
      SingleFillsNone(reject.value, l);
      assert false;
    }
    var r, top := Dispatch(s.book, c), TopOfBook(Dispatch(s.book, c).book);
    FillsLast(r.events, BookUpdate(top.0, top.1), l);
    DispatchFillsInOrder(s.book, c, side, k, l);
  }

  lemma DispatchFillsInOrder(b: BookView, c: Command, side: Side, k: OrderKey, l: OrderKey)
    requires Wf(b) && Before(Queue(b, side), k, l) && (c.CancelReplace? ==> c.key != l) && Fills(Dispatch(b, c).events, l)
    ensures !Rests(Dispatch(b, c).book, k)
  {
    hide Wf, Before, Fills, Modify, CancelEach, SubmitGtc, SubmitIoc, SubmitFok, SubmitPostOnly, SubmitMarket, SnapshotEvents, Rests, Delete;
    if c.NewOrder? {
      NewOrderFillsInOrder(b, c, side, k, l);
    } else if c.CancelReplace? {
      ModifyFillsInOrder(b, c, side, k, l);
    } else {
      OthersFillNone(b, c, l);
      assert false;
    }
  }

  lemma OthersFillNone(b: BookView, c: Command, k: OrderKey)
    requires !c.NewOrder? && !c.CancelReplace?
    ensures !Fills(Dispatch(b, c).events, k)
  {
    hide CancelEach, SnapshotEvents, Delete, Rests, Drained;
    match c {
      case CancelOrder(_) =>
      case MassCancel(a) => CancelEachDrains(b, a, OpenOrders(b, a));
      case KillSwitch(_) =>
      case Snapshot => SnapshotSilent(b);
    }
  }

  // ---- Runs ----

  /** Both orders rest at every point of the run and neither gives up its place. */
  ghost predicate Steady(config: RiskConfig, s: System, cs: seq<Command>, k: OrderKey, l: OrderKey)
    decreases |cs|
  {
    && Rests(s.book, k) && Rests(s.book, l)
    && (cs != [] ==>
          && !Reenters(s.book, cs[0], k) && !Reenters(s.book, cs[0], l)
          && Steady(config, Process(config, s, cs[0]).system, cs[1..], k, l))
  }

  lemma SteadyNow(config: RiskConfig, s: System, cs: seq<Command>, k: OrderKey, l: OrderKey)
    requires Steady(config, s, cs, k, l)
    ensures Rests(s.book, k) && Rests(s.book, l)
  {
  }

  /** An amend in place, or one that is refused, fills nobody. */
  lemma InPlaceFillsNone(config: RiskConfig, s: System, c: Command, k: OrderKey)
    requires c.CancelReplace? && c.key == k && Rests(s.book, k) && !Reenters(s.book, c, k)
    ensures !Fills(Process(config, s, c).events, k)
  {
    hide Rests, TopOfBook, SetQty;
  }

  lemma StepFillsNoLater(config: RiskConfig, s: System, c: Command, side: Side, k: OrderKey, l: OrderKey)
    requires Wf(s.book) && Before(Queue(s.book, side), k, l) && Rests(s.book, l) && !Reenters(s.book, c, l)
    requires Rests(Process(config, s, c).system.book, k)
    ensures !Fills(Process(config, s, c).events, l)
  {
    hide Wf, Before, Fills, Process, Rests, Reenters;
    if c.CancelReplace? && c.key == l {
      InPlaceFillsNone(config, s, c, l);
    } else if Fills(Process(config, s, c).events, l) {
      FillsInOrder(config, s, c, side, k, l);
      assert false;
    }
  }

  /**
   * For every run, and any two orders at one price that both rest throughout without giving up their places: the
   * earlier one stays ahead, and the later one is not filled, by anybody, not in part.
   */
  lemma {:induction false} RunKeepsPriority(config: RiskConfig, s: System, cs: seq<Command>, side: Side, k: OrderKey, l: OrderKey)
    requires Wf(s.book) && AllWellFormed(cs) && Before(Queue(s.book, side), k, l) && Steady(config, s, cs, k, l)
    ensures Before(Queue(Run(config, s, cs).system.book, side), k, l)
    ensures !Fills(Run(config, s, cs).events, l)
    decreases |cs|
  {
    hide Wf, Before, Fills, Process, Rests, Reenters;
    if cs == [] {
      NothingFills(l);
    } else {
      var p := Process(config, s, cs[0]);
      SteadyNow(config, p.system, cs[1..], k, l);
      ProcessWf(config, s, cs[0]);
      StepKeepsPriority(config, s, cs[0], side, k, l);
      StepFillsNoLater(config, s, cs[0], side, k, l);
      RunKeepsPriority(config, p.system, cs[1..], side, k, l);
      FillsConcat(p.events, Run(config, p.system, cs[1..]).events, l);
    }
  }

  lemma NothingFills(k: OrderKey)
    ensures !Fills([], k)
  {
  }
}
