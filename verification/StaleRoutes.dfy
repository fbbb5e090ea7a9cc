/**
 * The routing table is not exactly the resting orders: a partly filled immediate order leaves an entry
 * behind. This states exactly when.
 */
module StaleRoutes {
  import opened Types
  import opened Queues
  import opened BookViews
  import opened Matching
  import opened Sweeping
  import opened Risk
  import opened Runs
  import opened Shadows
  import opened Routing

  /** The table lists exactly the resting orders. */
  ghost predicate Tight(table: Table, b: BookView) {
    forall k :: k in table <==> Rests(b, k)
  }

  /** Table and rebuilt book react alike to every event except an acceptance or amend that rests nothing. */
  predicate ReadAlike(e: Event) {
    (e.Accepted? ==> e.restingQty > 0) && (e.Replaced? ==> e.newQty > 0)
  }

  lemma {:induction false} RouteKeys(m: Shadow, table: Table, self: Option<OrderKey>, conn: ConnId, events: seq<Event>)
    requires m.Keys == table.Keys && forall i :: 0 <= i < |events| ==> ReadAlike(events[i])
    ensures Rebuild(m, events).Keys == RouteAll(table, self, conn, events).table.Keys
    decreases |events|
  {
    if events != [] {
      var e := events[0];
      assert Note(m, e).Keys == Route(table, self, conn, e).table.Keys;
      RouteKeys(Note(m, e), Route(table, self, conn, e).table, self, conn, events[1..]);
    }
  }

  lemma {:induction false} SweepPlain(b: BookView, t: Taker, qty: Qty)
    ensures forall i :: 0 <= i < |Sweep(b, t, qty).events| ==>
              var e := Sweep(b, t, qty).events[i]; e.Filled? || e.Cancelled? || e.Trade?
    decreases |Queue(b, Opposite(t.side))|, qty
  {
    hide Remove, SetQty;
    if !Stops(b, t, qty) {
      SweepPlain(Hit(b, t, qty).book, t, Hit(b, t, qty).remaining);
    }
  }

  /** After a sweep the picture shows the taker's remainder if it traded, and what it showed before if not. */
  lemma {:induction false} SweepLook(m: Shadow, b: BookView, t: Taker, qty: Qty)
    requires Wf(b) && !Rests(b, t.key) && MirrorsBut(m, b, t.key)
    ensures var r := Sweep(b, t, qty);
            r.remaining <= qty
            && Look(Rebuild(m, r.events), t.key) == if r.remaining < qty then r.remaining else Look(m, t.key)
    decreases |Queue(b, Opposite(t.side))|, qty
  {
    hide Wf, Rests, MirrorsBut, Hit, Look, Note;
    if !Stops(b, t, qty) {
      var h := Hit(b, t, qty);
      HitLook(m, b, t, qty);
      HitMirrors(m, b, t, qty);
      HitWf(b, t, qty);
      WfQueues(b);
      HitRests(b, t, qty, t.key);
      SweepLook(Rebuild(m, h.events), h.book, t, h.remaining);
      RebuildConcat(m, h.events, Sweep(h.book, t, h.remaining).events);
    }
  }

  lemma HitLook(m: Shadow, b: BookView, t: Taker, qty: Qty)
    requires Wf(b) && !Rests(b, t.key) && !Stops(b, t, qty) && MirrorsBut(m, b, t.key)
    ensures var h := Hit(b, t, qty);
            h.remaining <= qty && Look(Rebuild(m, h.events), t.key) == if h.remaining < qty then h.remaining else Look(m, t.key)
  {
    hide Rostered, Sorted, Unique, Disjoint, Uncrossed;
    var maker := Queue(b, Opposite(t.side))[0];
    RestsAt(b, Opposite(t.side), 0);
    if maker.key.account == t.key.account {
      RebuildOne(m, Cancelled(maker.key));
    } else {
      HitFillMirrors(m, b, t, qty);
    }
  }

  /** The picture of a tight table's book. */
  ghost function Picture(table: Table, b: BookView): Shadow {
    map k | k in table :: RestingQty(b, k)
  }

  lemma PictureMirrors(table: Table, b: BookView)
    requires Wf(b) && Tight(table, b)
    ensures Mirrors(Picture(table, b), b) && Picture(table, b).Keys == table.Keys
  {
    forall k
      ensures Rests(b, k) <==> RestingQty(b, k) > 0
    {
      NotRestingQty(b, k);
    }
  }

  lemma MirrorTight(m: Shadow, table: Table, b: BookView)
    requires Wf(b) && Mirrors(m, b) && m.Keys == table.Keys
    ensures Tight(table, b)
  {
    forall k
      ensures k in table <==> Rests(b, k)
    {
      NotRestingQty(b, k);
      assert k in m <==> k in table;
    }
  }

  /** A command none of whose events rests nothing keeps a tight table tight. */
  lemma PlainKeepsTight(table: Table, self: Option<OrderKey>, conn: ConnId, b: BookView, b': BookView, events: seq<Event>)
    requires Wf(b) && Wf(b') && Tight(table, b) && forall i :: 0 <= i < |events| ==> ReadAlike(events[i])
    requires forall m :: Mirrors(m, b) ==> Mirrors(Rebuild(m, events), b')
    ensures Tight(RouteAll(table, self, conn, events).table, b')
  {
    hide Wf, Tight, Mirrors, RouteAll, Rebuild;
    var m := Picture(table, b);
    PictureMirrors(table, b);
    RouteKeys(m, table, self, conn, events);
    MirrorTight(Rebuild(m, events), RouteAll(table, self, conn, events).table, b');
  }

  /** The last event of an immediate order: exact iff nothing of it is still in the table. */
  lemma AcceptTight(m: Shadow, table: Table, b: BookView, k: OrderKey, conn: ConnId, xs: seq<Event>, left: Qty)
    requires Wf(b) && m.Keys == table.Keys && Mirrors(Rebuild(m, xs + [Accepted(k, left)]), b)
    requires forall i :: 0 <= i < |xs| ==> ReadAlike(xs[i])
    requires left == 0 ==> !Rests(b, k)
    ensures Tight(RouteAll(table, Some(k), conn, xs + [Accepted(k, left)]).table, b)
            <==> left > 0 || k !in Rebuild(m, xs)
  {
    hide Wf, Mirrors, RouteAll, Rebuild, Rests;
    var m1 := Rebuild(m, xs);
    var h := RouteAll(table, Some(k), conn, xs);
    var table' := RouteAll(table, Some(k), conn, xs + [Accepted(k, left)]).table;
    RouteKeys(m, table, Some(k), conn, xs);
    RebuildConcat(m, xs, [Accepted(k, left)]);
    RebuildOne(m1, Accepted(k, left));
    RouteConcat(table, Some(k), conn, xs, [Accepted(k, left)]);
    RouteOne(h.table, Some(k), conn, Accepted(k, left));
    if left > 0 || k !in m1 {
      MirrorTight(Put(m1, k, left), table', b);
    } else {
      assert k in table' && !Rests(b, k);
    }
  }

  /** The order that leaves an entry behind: immediate, let through, and crossed by too little foreign depth. */
  predicate LeavesStale(config: RiskConfig, s: System, c: Command) {
    && c.NewOrder?
    && PreApplyCheck(config, s.killed, c, s.book).None?
    && !Rests(s.book, c.key)
    && (c.kind.Market? || c.tif.Ioc?)
    && var t := Taker(c.key, c.side, if c.kind.Market? then MarketLimit(c.side) else c.price);
       0 < ForeignDepth(Queue(s.book, Opposite(c.side)), t) < c.qty
  }

  lemma TakerTight(table: Table, b: BookView, t: Taker, qty: Qty, conn: ConnId, rests: bool)
    requires Wf(b) && Tight(table, b) && !Rests(b, t.key) && qty > 0
    ensures var r := Sweep(b, t, qty);
            var left := if rests then r.remaining else 0;
            var h := RouteAll(table, Some(t.key), conn, r.events + [Accepted(t.key, left)]);
            Tight(h.table, RestRemainder(r.book, t, left)) <==> rests || r.remaining == 0 || r.remaining == qty
  {
    hide Wf, Tight, Mirrors, MirrorsBut, RouteAll, Rebuild, Sweep, Rests, RestRemainder;
    var r := Sweep(b, t, qty);
    var left := if rests then r.remaining else 0;
    var m := Picture(table, b);
    PictureMirrors(table, b);
    SubmitMirrors(m, b, t, qty);
    MirrorsIsBut(m, b, t.key);
    SweepLook(m, b, t, qty);
    SweepMirrors(m, b, t, qty);
    SweepPlain(b, t, qty);
    SweptReady(b, t, qty);
    RestRemainderWf(b, t, qty);
    WfQueues(b);
    NotRestingQty(b, t.key);
    LookMember(Rebuild(m, r.events), r.book, t.key);
    RemainderNone(r.book, t);
    AcceptTight(m, table, RestRemainder(r.book, t, left), t.key, conn, r.events, left);
  }

  lemma RemainderNone(b: BookView, t: Taker)
    ensures RestRemainder(b, t, 0) == b
  {
  }

  lemma LookMember(m: Shadow, b: BookView, k: OrderKey)
    requires MirrorsBut(m, b, k)
    ensures k in m <==> Look(m, k) > 0
  {
  }

  lemma NewOrderTight(table: Table, b: BookView, c: Command, conn: ConnId)
    requires Wf(b) && Tight(table, b) && c.NewOrder? && WellFormed(c)
    ensures var r := Dispatch(b, c);
            var t := Taker(c.key, c.side, if c.kind.Market? then MarketLimit(c.side) else c.price);
            var depth := ForeignDepth(Queue(b, Opposite(c.side)), t);
            Tight(RouteAll(table, Some(c.key), conn, r.events).table, r.book)
            <==> !(!Rests(b, c.key) && (c.kind.Market? || c.tif.Ioc?) && 0 < depth < c.qty)
  {
    var t := Taker(c.key, c.side, if c.kind.Market? then MarketLimit(c.side) else c.price);
    hide Wf, Tight, Mirrors, RouteAll, Rebuild, Sweep, Rests, RestRemainder, ForeignDepth, StpClear;
    if Rests(b, c.key) || (c.kind.Limit? && c.tif.PostOnly?) || (c.kind.Limit? && c.tif.Fok? && !Fillable(b, t, c.qty)) {
      PlainOrderTight(table, b, c, conn);
    } else {
      SweepRemaining(b, t, c.qty);
      RemainderNone(Sweep(b, t, c.qty).book, t);
      TakerTight(table, b, t, c.qty, conn, c.kind.Limit? && c.tif.Gtc?);
    }
  }

  /** Rejections and post-only orders emit plain events only. */
  lemma PlainOrderTight(table: Table, b: BookView, c: Command, conn: ConnId)
    requires Wf(b) && Tight(table, b) && c.NewOrder? && WellFormed(c)
    requires Rests(b, c.key) || (c.kind.Limit? && c.tif.PostOnly?)
             || (c.kind.Limit? && c.tif.Fok? && !Fillable(b, Taker(c.key, c.side, c.price), c.qty))
    ensures Tight(RouteAll(table, Some(c.key), conn, Dispatch(b, c).events).table, Dispatch(b, c).book)
  {
    hide Wf, Tight, Mirrors, RouteAll, Rebuild, Sweep, Rests, StpClear, Fillable;
    StpClearUnclaimed(b, Taker(c.key, c.side, c.price));
    DispatchWf(b, c);
    forall m | Mirrors(m, b)
      ensures Mirrors(Rebuild(m, Dispatch(b, c).events), Dispatch(b, c).book)
    {
      DispatchMirrors(m, b, c);
    }
    PlainKeepsTight(table, Some(c.key), conn, b, Dispatch(b, c).book, Dispatch(b, c).events);
  }

  lemma {:induction false} CancelEachPlain(b: BookView, a: AccountId, ids: seq<OrderId>)
    ensures forall i :: 0 <= i < |CancelEach(b, a, ids).events| ==> CancelEach(b, a, ids).events[i].Cancelled?
    decreases |ids|
  {
    if ids != [] {
      var k := OrderKey(a, ids[0]);
      CancelEachPlain(if Rests(b, k) then Delete(b, k) else b, a, ids[1..]);
    }
  }

  lemma OtherCommandPlain(b: BookView, c: Command)
    requires !c.NewOrder?
    ensures forall i :: 0 <= i < |Dispatch(b, c).events| ==> ReadAlike(Dispatch(b, c).events[i])
  {
    hide Sweep, CancelEach, SnapshotEvents, Rests, Delete, SetQty, RestRemainder;
    match c {
      case CancelOrder(_) =>
      case CancelReplace(k, newPrice, newQty) =>
        if Rests(b, k) {
          SweepPlain(Delete(b, k), Taker(k, SideOf(b, k), newPrice), newQty);
        }
      case MassCancel(a) => CancelEachPlain(b, a, OpenOrders(b, a));
      case KillSwitch(_) =>
      case Snapshot => SnapshotSilent(b);
    }
  }

  lemma DispatchTight(table: Table, b: BookView, c: Command, conn: ConnId)
    requires Wf(b) && Tight(table, b) && WellFormed(c) && !c.NewOrder?
    ensures Tight(RouteAll(table, SelfId(c), conn, Dispatch(b, c).events).table, Dispatch(b, c).book)
  {
    hide Wf, Tight, Mirrors, RouteAll, Rebuild, Dispatch;
    DispatchWf(b, c);
    OtherCommandPlain(b, c);
    forall m | Mirrors(m, b)
      ensures Mirrors(Rebuild(m, Dispatch(b, c).events), Dispatch(b, c).book)
    {
      DispatchMirrors(m, b, c);
    }
    PlainKeepsTight(table, SelfId(c), conn, b, Dispatch(b, c).book, Dispatch(b, c).events);
  }

  lemma SilentTail(table: Table, self: Option<OrderKey>, conn: ConnId, xs: seq<Event>, e: Event)
    requires e.BookUpdate? || e.Rejected?
    ensures RouteAll(table, self, conn, xs + [e]).table == RouteAll(table, self, conn, xs).table
  {
    RouteConcat(table, self, conn, xs, [e]);
    RouteOne(RouteAll(table, self, conn, xs).table, self, conn, e);
  }

  /** From an exact table, one command leaves it exact if and only if it is not such an order. */
  lemma StaleEntryIff(config: RiskConfig, table: Table, s: System, c: Command, conn: ConnId)
    requires Wf(s.book) && WellFormed(c) && Tight(table, s.book)
    ensures var p := Process(config, s, c);
            Tight(RouteAll(table, SelfId(c), conn, p.events).table, p.system.book) <==> !LeavesStale(config, s, c)
  {
    RejectIsRejected(config, s.killed, c, s.book);
    hide Wf, Tight, RouteAll, Dispatch, PreApplyCheck, TopOfBook, Rests, ForeignDepth;
    var reject := PreApplyCheck(config, s.killed, c, s.book);
    if reject.Some? {
      SilentTail(table, SelfId(c), conn, [], reject.value);
      assert [] + [reject.value] == [reject.value];
      RouteNothing(table, SelfId(c), conn);
    } else {
      var r := Dispatch(s.book, c);
      var top := TopOfBook(r.book);
      SilentTail(table, SelfId(c), conn, r.events, BookUpdate(top.0, top.1));
      if c.NewOrder? {
        NewOrderTight(table, s.book, c, conn);
      } else {
        DispatchTight(table, s.book, c, conn);
      }
    }
  }

  // ---- Runs ----

  ghost predicate TightAfter(config: RiskConfig, g: Gateway, rs: seq<Request>, n: nat)
    requires n <= |rs|
  {
    var g' := ServeAll(config, g, rs[..n]);
    Tight(g'.table, g'.system.book)
  }

  predicate StaleAt(config: RiskConfig, g: Gateway, rs: seq<Request>, n: nat)
    requires n < |rs|
  {
    LeavesStale(config, ServeAll(config, g, rs[..n]).system, rs[n].command)
  }

  lemma ServeFirst(config: RiskConfig, g: Gateway, rs: seq<Request>, n: nat)
    requires n < |rs|
    ensures ServeAll(config, g, rs[..n + 1]) == ServeAll(config, Serve(config, g, rs[0]), rs[1..][..n])
  {
    hide Serve;
    assert rs[..n + 1][1..] == rs[1..][..n] && rs[..n + 1][0] == rs[0];
  }

  lemma ServedTight(config: RiskConfig, g: Gateway, r: Request)
    requires Wf(g.system.book) && Tight(g.table, g.system.book) && WellFormed(r.command)
    ensures var g' := Serve(config, g, r);
            Wf(g'.system.book) && (Tight(g'.table, g'.system.book) <==> !LeavesStale(config, g.system, r.command))
  {
    hide Wf, Tight, Process, LeavesStale, RouteAll;
    ProcessWf(config, g.system, r.command);
    StaleEntryIff(config, g.table, g.system, r.command, r.conn);
  }

  lemma {:induction false} TightRunIff(config: RiskConfig, g: Gateway, rs: seq<Request>)
    requires Wf(g.system.book) && Tight(g.table, g.system.book) && AllValid(rs)
    ensures (forall n :: 0 <= n <= |rs| ==> TightAfter(config, g, rs, n)) <==> forall n :: 0 <= n < |rs| ==> !StaleAt(config, g, rs, n)
    decreases |rs|
  {
    hide Wf, Tight, LeavesStale, Serve;
    assert rs[..0] == [];
    assert TightAfter(config, g, rs, 0);
    if rs != [] {
      var g' := Serve(config, g, rs[0]);
      ServedTight(config, g, rs[0]);
      ServeFirst(config, g, rs, 0);
      assert rs[1..][..0] == [];
      assert StaleAt(config, g, rs, 0) <==> LeavesStale(config, g.system, rs[0].command);
      assert TightAfter(config, g, rs, 1) <==> Tight(g'.table, g'.system.book);
      if Tight(g'.table, g'.system.book) {
        TightRunIff(config, g', rs[1..]);
        forall n | 0 <= n < |rs|
          ensures TightAfter(config, g, rs, n + 1) <==> TightAfter(config, g', rs[1..], n)
        {
          ServeFirst(config, g, rs, n);
        }
        forall n | 0 <= n < |rs| - 1
          ensures StaleAt(config, g, rs, n + 1) <==> StaleAt(config, g', rs[1..], n)
        {
          ServeFirst(config, g, rs, n);
        }
        Shifted(config, g, g', rs);
      }
    }
  }

  /** The two sides of the equivalence, moved on by one request. */
  lemma Shifted(config: RiskConfig, g: Gateway, g': Gateway, rs: seq<Request>)
    requires rs != [] && TightAfter(config, g, rs, 0) && !StaleAt(config, g, rs, 0)
    requires forall n :: 0 <= n < |rs| ==> (TightAfter(config, g, rs, n + 1) <==> TightAfter(config, g', rs[1..], n))
    requires forall n :: 0 <= n < |rs| - 1 ==> (StaleAt(config, g, rs, n + 1) <==> StaleAt(config, g', rs[1..], n))
    ensures (forall n :: 0 <= n <= |rs| ==> TightAfter(config, g, rs, n))
            <==> forall n :: 0 <= n <= |rs[1..]| ==> TightAfter(config, g', rs[1..], n)
    ensures (forall n :: 0 <= n < |rs| ==> !StaleAt(config, g, rs, n))
            <==> forall n :: 0 <= n < |rs[1..]| ==> !StaleAt(config, g', rs[1..], n)
  {
    hide TightAfter, StaleAt;
    if forall n :: 0 <= n <= |rs[1..]| ==> TightAfter(config, g', rs[1..], n) {
      forall n | 0 <= n <= |rs|
        ensures TightAfter(config, g, rs, n)
      {
        assert n > 0 ==> TightAfter(config, g', rs[1..], n - 1) && TightAfter(config, g, rs, n - 1 + 1);
      }
    }
    if forall n :: 0 <= n <= |rs| ==> TightAfter(config, g, rs, n) {
      forall n | 0 <= n <= |rs[1..]|
        ensures TightAfter(config, g', rs[1..], n)
      {
        assert TightAfter(config, g, rs, n + 1);
      }
    }
    if forall n :: 0 <= n < |rs[1..]| ==> !StaleAt(config, g', rs[1..], n) {
      forall n | 0 <= n < |rs|
        ensures !StaleAt(config, g, rs, n)
      {
        assert n > 0 ==> !StaleAt(config, g', rs[1..], n - 1) && !StaleAt(config, g, rs, n - 1 + 1);
      }
    }
    if forall n :: 0 <= n < |rs| ==> !StaleAt(config, g, rs, n) {
      forall n | 0 <= n < |rs[1..]|
        ensures !StaleAt(config, g', rs[1..], n)
      {
        assert !StaleAt(config, g, rs, n + 1);
      }
    }
  }

  /** For every run from the start: the table is exact after each prefix if and only if no command leaves an entry behind. */
  lemma StaleRunIff(config: RiskConfig, rs: seq<Request>)
    requires AllValid(rs)
    ensures (forall n :: 0 <= n <= |rs| ==> TightAfter(config, IDLE, rs, n)) <==> forall n :: 0 <= n < |rs| ==> !StaleAt(config, IDLE, rs, n)
  {
    EmptyWf();
    assert Tight(IDLE.table, IDLE.system.book);
    hide TightAfter, StaleAt, Wf, Tight;
    TightRunIff(config, IDLE, rs);
  }

  lemma RouteNothing(table: Table, self: Option<OrderKey>, conn: ConnId)
    ensures RouteAll(table, self, conn, []).table == table
  {
  }

  const OFFER: Order := Order(OrderKey(1, 1), 100, 2)
  const OFFERED: BookView := BookView([], [OFFER], map[1 := [1]], None)

  lemma OfferedWf()
    ensures Wf(OFFERED)
  {
    forall a
      ensures RosterExact(OFFERED, a)
    {
      assert OFFERED.asks[1..] == [];
      assert Sum(OFFERED.asks, CountOf(a)) == CountOf(a)(OFFER) + Sum([], CountOf(a));
      assert HasKey(OFFERED.asks, OrderKey(1, 1)) by { assert OFFERED.asks[0].key == OrderKey(1, 1); }
    }
  }

  lemma OfferedRests(k: OrderKey)
    ensures Rests(OFFERED, k) <==> k == OrderKey(1, 1)
  {
    assert OFFERED.asks[0].key == OrderKey(1, 1);
    if Rests(OFFERED, k) {
      var side, i := RestsWhere(OFFERED, k);
    }
  }

  /** A concrete instance: buy 5 immediate-or-cancel into 2 offered leaves an entry for an order that is gone. */
  lemma StaleEntryExists()
    ensures var s := System(OFFERED, false, 1);
            var c := NewOrder(OrderKey(2, 1), Buy, 100, 5, Limit, Ioc, 0);
            var table: Table := map[OrderKey(1, 1) := 7];
            var p := Process(DEFAULT_CONFIG, s, c);
            Tight(table, OFFERED) && !Tight(RouteAll(table, SelfId(c), 8, p.events).table, p.system.book)
  {
    var s := System(OFFERED, false, 1);
    var c := NewOrder(OrderKey(2, 1), Buy, 100, 5, Limit, Ioc, 0);
    var table: Table := map[OrderKey(1, 1) := 7];
    OfferedWf();
    forall k
      ensures Rests(OFFERED, k) <==> k == OrderKey(1, 1)
    {
      OfferedRests(k);
    }
    assert LeavesStale(DEFAULT_CONFIG, s, c) by {
      assert OFFERED.asks[1..] == [];
      assert Sum(OFFERED.asks, NotionalOf(2)) == NotionalOf(2)(OFFER) + Sum([], NotionalOf(2));
      assert ForeignDepth(OFFERED.asks, Taker(c.key, Buy, 100)) == 2 + ForeignDepth([], Taker(c.key, Buy, 100));
    }
    StaleEntryIff(DEFAULT_CONFIG, table, s, c, 8);
  }
}
