/**
 * The matching thread's routing table, maintained from the event stream alone, and why it never misses a
 * resting order.
 */
module Routing {
  import opened Types
  import opened Queues
  import opened BookViews
  import opened Matching
  import opened Risk
  import opened Runs
  import opened Shadows

  type ConnId = nat
  type Table = map<OrderKey, ConnId>

  /** The order a command is itself about. */
  function SelfId(c: Command): Option<OrderKey> {
    match c
    case NewOrder(k, _, _, _, _, _, _) => Some(k)
    case CancelOrder(k) => Some(k)
    case CancelReplace(k, _, _) => Some(k)
    case _ => None
  }

  /** The order an event is about; market data and snapshot rows name none. */
  function EventId(e: Event): Option<OrderKey> {
    match e
    case Accepted(k, _) => Some(k)
    case Rejected(k, _) => Some(k)
    case Filled(k, _, _, _, _, _) => Some(k)
    case Cancelled(k) => Some(k)
    case Replaced(k, _, _) => Some(k)
    case _ => None
  }

  predicate IsMarketData(e: Event) {
    e.Trade? || e.BookUpdate?
  }

  datatype Delivery = Delivery(conn: ConnId, event: Event)

  /** What routing one command's events has produced so far; `missed` records any use of the fallback. */
  datatype Hop = Hop(table: Table, out: seq<Delivery>, missed: bool)

  function UpdateTable(table: Table, id: OrderKey, route: ConnId, e: Event): Table {
    match e
    case Accepted(_, resting) => if resting > 0 then table[id := route] else table
    case Filled(_, _, _, _, resting, _) => if resting > 0 then table[id := route] else table - {id}
    case Cancelled(_) => table - {id}
    case Replaced(_, _, _) => table[id := route]
    case _ => table
  }

  function Route(table: Table, self: Option<OrderKey>, conn: ConnId, e: Event): Hop {
    if IsMarketData(e) then Hop(table, [], false)
    else
      var id := EventId(e);
      if id.None? then Hop(table, [Delivery(conn, e)], false)
      else
        var missed := id != self && id.value !in table;
        var route := if id == self || missed then conn else table[id.value];
        Hop(UpdateTable(table, id.value, route, e), [Delivery(route, e)], missed)
  }

  function RouteAll(table: Table, self: Option<OrderKey>, conn: ConnId, events: seq<Event>): Hop
    decreases |events|
  {
    if events == [] then Hop(table, [], false)
    else
      var h := Route(table, self, conn, events[0]);
      var r := RouteAll(h.table, self, conn, events[1..]);
      Hop(r.table, h.out + r.out, h.missed || r.missed)
  }

  // ---- Who owns an order ----

  /** Did the command submit or amend its own order successfully? */
  predicate Claims(c: Command, events: seq<Event>) {
    SelfId(c).Some? && exists i :: 0 <= i < |events| && (events[i].Accepted? || events[i].Replaced?) && events[i].key == SelfId(c).value
  }

  /** The connection that last submitted or successfully amended each order. */
  function OwnersAfter(owners: Table, conn: ConnId, c: Command, events: seq<Event>): Table {
    if Claims(c, events) then owners[SelfId(c).value := conn] else owners
  }

  /** Every resting order except possibly `but` is in the table, under its owner. */
  ghost predicate CoversBut(table: Table, owners: Table, b: BookView, but: OrderKey) {
    forall k :: k != but && Rests(b, k) ==> k in table && k in owners && table[k] == owners[k]
  }

  ghost predicate Covers(table: Table, owners: Table, b: BookView) {
    forall k :: Rests(b, k) ==> k in table && k in owners && table[k] == owners[k]
  }

  /** Events about the command's own order go to its sender, every other order's events to that order's owner. */
  ghost predicate Faithful(out: seq<Delivery>, owners: Table, self: Option<OrderKey>) {
    forall i :: 0 <= i < |out| && EventId(out[i].event).Some? && EventId(out[i].event) != self ==>
      EventId(out[i].event).value in owners && out[i].conn == owners[EventId(out[i].event).value]
  }

  ghost predicate SelfServed(out: seq<Delivery>, self: Option<OrderKey>, conn: ConnId) {
    forall i :: 0 <= i < |out| && (EventId(out[i].event).None? || EventId(out[i].event) == self) ==> out[i].conn == conn
  }

  /** Routing went right: no fallback, every report to the right connection. */
  ghost predicate Sound(h: Hop, owners: Table, self: Option<OrderKey>, conn: ConnId) {
    !h.missed && Faithful(h.out, owners, self) && SelfServed(h.out, self, conn)
  }

  lemma {:induction false} RouteConcat(table: Table, self: Option<OrderKey>, conn: ConnId, xs: seq<Event>, ys: seq<Event>)
    ensures var h := RouteAll(table, self, conn, xs);
            var r := RouteAll(h.table, self, conn, ys);
            RouteAll(table, self, conn, xs + ys) == Hop(r.table, h.out + r.out, h.missed || r.missed)
    decreases |xs|
  {
    hide Route;
    if xs == [] {
      assert xs + ys == ys;
    } else {
      assert (xs + ys)[1..] == xs[1..] + ys;
      RouteConcat(Route(table, self, conn, xs[0]).table, self, conn, xs[1..], ys);
    }
  }

  lemma RouteOne(table: Table, self: Option<OrderKey>, conn: ConnId, e: Event)
    ensures RouteAll(table, self, conn, [e]) == Route(table, self, conn, e)
  {
    assert [e][1..] == [];
  }

  lemma SoundConcat(h: Hop, r: Hop, owners: Table, self: Option<OrderKey>, conn: ConnId)
    requires Sound(h, owners, self, conn) && Sound(r, owners, self, conn)
    ensures Sound(Hop(r.table, h.out + r.out, h.missed || r.missed), owners, self, conn)
  {
  }

  lemma SoundNothing(table: Table, owners: Table, self: Option<OrderKey>, conn: ConnId)
    ensures Sound(RouteAll(table, self, conn, []), owners, self, conn)
  {
  }

  /** One event about a covered or own order is routed soundly. */
  lemma RouteSound(table: Table, owners: Table, self: Option<OrderKey>, conn: ConnId, e: Event)
    requires EventId(e).Some? && EventId(e) != self ==>
               var k := EventId(e).value; k in table && k in owners && table[k] == owners[k]
    ensures Sound(Route(table, self, conn, e), owners, self, conn)
  {
  }

  // ---- Sweeps ----

  lemma HitOwnRoutes(table: Table, owners: Table, b: BookView, t: Taker, qty: Qty, conn: ConnId)
    requires Wf(b) && !Rests(b, t.key) && !Stops(b, t, qty) && CoversBut(table, owners, b, t.key)
    requires Queue(b, Opposite(t.side))[0].key.account == t.key.account
    ensures var h := Hit(b, t, qty);
            var r := RouteAll(table, Some(t.key), conn, h.events);
            && Sound(r, owners, Some(t.key), conn)
            && CoversBut(r.table, owners, h.book, t.key)
            && (t.key in table ==> t.key in r.table && r.table[t.key] == table[t.key])
  {
    hide Rostered, Sorted, Unique, Disjoint, Positive, Uncrossed, Faithful, SelfServed, Rests, Remove, RouteAll;
    var maker := Queue(b, Opposite(t.side))[0];
    RestsAt(b, Opposite(t.side), 0);
    RouteOne(table, Some(t.key), conn, Cancelled(maker.key));
    RouteSound(table, owners, Some(t.key), conn, Cancelled(maker.key));
    forall k
      ensures Rests(Hit(b, t, qty).book, k) <==> Rests(b, k) && k != maker.key
    {
      RemoveRests(b, Opposite(t.side), 0, k);
    }
  }

  lemma RouteThree(table: Table, self: Option<OrderKey>, conn: ConnId, x: Event, y: Event, z: Event)
    ensures var h := Route(table, self, conn, x);
            var i := Route(h.table, self, conn, y);
            var j := Route(i.table, self, conn, z);
            RouteAll(table, self, conn, [x, y, z]) == Hop(j.table, h.out + (i.out + j.out), h.missed || (i.missed || j.missed))
  {
    hide Route;
    RouteConcat(table, self, conn, [x], [y, z]);
    RouteConcat(Route(table, self, conn, x).table, self, conn, [y], [z]);
    assert [x, y, z] == [x] + [y, z] && [y, z] == [y] + [z];
    RouteOne(table, self, conn, x);
    RouteOne(Route(table, self, conn, x).table, self, conn, y);
    RouteOne(Route(Route(table, self, conn, x).table, self, conn, y).table, self, conn, z);
  }

  /** The table after one match: the taker's entry follows its remainder, the maker's entry goes with its last lot. */
  function FillTable(table: Table, taker: OrderKey, left: Qty, maker: OrderKey, makerLeft: Qty, conn: ConnId): Table {
    var t := if left > 0 then table[taker := conn] else table - {taker};
    if makerLeft > 0 then t else t - {maker}
  }

  lemma RouteFill(table: Table, owners: Table, t: Taker, maker: Order, taken: Qty, left: Qty, conn: ConnId)
    requires maker.key != t.key && taken <= maker.qty
    requires maker.key in table && maker.key in owners && table[maker.key] == owners[maker.key]
    ensures var r := RouteAll(table, Some(t.key), conn, FillEvents(t, maker, taken, left));
            Sound(r, owners, Some(t.key), conn)
            && r.table == FillTable(table, t.key, left, maker.key, maker.qty - taken, conn)
  {
    var es := FillEvents(t, maker, taken, left);
    var self := Some(t.key);
    RouteThree(table, self, conn, es[0], es[1], es[2]);
    var r0 := Route(table, self, conn, es[0]);
    var r1 := Route(r0.table, self, conn, es[1]);
    var r2 := Route(r1.table, self, conn, es[2]);
    assert maker.key in r0.table && r0.table[maker.key] == table[maker.key];
    assert r1.table == FillTable(table, t.key, left, maker.key, maker.qty - taken, conn);
    RouteSound(table, owners, self, conn, es[0]);
    RouteSound(r0.table, owners, self, conn, es[1]);
    RouteSound(r1.table, owners, self, conn, es[2]);
    hide Sound, Route;
    SoundConcat(r1, r2, owners, self, conn);
    SoundConcat(r0, Hop(r2.table, r1.out + r2.out, r1.missed || r2.missed), owners, self, conn);
  }

  lemma HitFillRoutes(table: Table, owners: Table, b: BookView, t: Taker, qty: Qty, conn: ConnId)
    requires Wf(b) && !Stops(b, t, qty) && CoversBut(table, owners, b, t.key)
    requires Queue(b, Opposite(t.side))[0].key.account != t.key.account
    ensures var h := Hit(b, t, qty);
            var r := RouteAll(table, Some(t.key), conn, h.events);
            && Sound(r, owners, Some(t.key), conn)
            && CoversBut(r.table, owners, h.book, t.key)
            && (h.remaining > 0 ==> t.key in r.table && r.table[t.key] == conn)
  {
    hide Rostered, Sorted, Positive, Uncrossed, Sound, RouteAll;
    var opp := Opposite(t.side);
    var maker := Queue(b, opp)[0];
    RestsAt(b, opp, 0);
    var taken := Min(qty, maker.qty);
    RouteFill(table, owners, t, maker, taken, qty - taken, conn);
    HitFillRests(b, t, qty);
  }

  lemma HitFillRests(b: BookView, t: Taker, qty: Qty)
    requires QueuesWf(b) && !Stops(b, t, qty) && Queue(b, Opposite(t.side))[0].key.account != t.key.account
    ensures var maker := Queue(b, Opposite(t.side))[0];
            forall k :: Rests(Hit(b, t, qty).book, k) ==> Rests(b, k) && (k == maker.key ==> qty < maker.qty)
  {
    var opp := Opposite(t.side);
    var maker := Queue(b, opp)[0];
    forall k | Rests(Hit(b, t, qty).book, k)
      ensures Rests(b, k) && (k == maker.key ==> qty < maker.qty)
    {
      HitRests(b, t, qty, k);
      if qty >= maker.qty {
        RemoveRests(b.(lastTrade := Some(maker.price)), opp, 0, k);
      }
    }
  }

  lemma {:induction false} SweepRoutes(table: Table, owners: Table, b: BookView, t: Taker, qty: Qty, conn: ConnId)
    requires Wf(b) && !Rests(b, t.key) && CoversBut(table, owners, b, t.key)
    ensures var r := Sweep(b, t, qty);
            var h := RouteAll(table, Some(t.key), conn, r.events);
            && Sound(h, owners, Some(t.key), conn)
            && CoversBut(h.table, owners, r.book, t.key)
            && (t.key in table && table[t.key] == conn && r.remaining > 0 ==> t.key in h.table && h.table[t.key] == conn)
    decreases |Queue(b, Opposite(t.side))|, qty
  {
    hide Wf, Rests, CoversBut, Hit, Route, Sound;
    SoundNothing(table, owners, Some(t.key), conn);
    if !Stops(b, t, qty) {
      var h := Hit(b, t, qty);
      if Queue(b, Opposite(t.side))[0].key.account == t.key.account {
        HitOwnRoutes(table, owners, b, t, qty, conn);
      } else {
        HitFillRoutes(table, owners, b, t, qty, conn);
      }
      HitWf(b, t, qty);
      WfQueues(b);
      HitRests(b, t, qty, t.key);
      var r := RouteAll(table, Some(t.key), conn, h.events);
      SweepRoutes(r.table, owners, h.book, t, h.remaining, conn);
      SweepIdle(h.book, t, h.remaining);
      var rest := Sweep(h.book, t, h.remaining).events;
      RouteConcat(table, Some(t.key), conn, h.events, rest);
      SoundConcat(r, RouteAll(r.table, Some(t.key), conn, rest), owners, Some(t.key), conn);
    }
  }

  /** With nothing left to match a sweep leaves the remainder at zero. */
  lemma SweepIdle(b: BookView, t: Taker, qty: Qty)
    ensures qty == 0 ==> Sweep(b, t, qty).remaining == 0
  {
  }

  // ---- Whole commands ----

  lemma CoversIsBut(table: Table, owners: Table, b: BookView, k: OrderKey)
    requires Covers(table, owners, b)
    ensures CoversBut(table, owners, b, k)
  {
  }

  /** Routing the last event of a command after the rest went right. */
  lemma RouteLast(table: Table, owners: Table, self: Option<OrderKey>, conn: ConnId, xs: seq<Event>, e: Event)
    requires Sound(RouteAll(table, self, conn, xs), owners, self, conn)
    requires EventId(e).None? || EventId(e) == self
    ensures var h := RouteAll(table, self, conn, xs);
            var r := RouteAll(table, self, conn, xs + [e]);
            Sound(r, owners, self, conn) && r.table == Route(h.table, self, conn, e).table
  {
    hide Faithful, SelfServed;
    var h := RouteAll(table, self, conn, xs);
    RouteConcat(table, self, conn, xs, [e]);
    RouteOne(h.table, self, conn, e);
    RouteSound(h.table, owners, self, conn, e);
    SoundConcat(h, Route(h.table, self, conn, e), owners, self, conn);
  }

  /** Once the own order's entry is fresh, resting the remainder leaves the table covering the book. */
  lemma RemainderCovers(table: Table, owners: Table, b: BookView, t: Taker, remaining: Qty, conn: ConnId)
    requires CoversBut(table, owners, b, t.key) && !Rests(b, t.key)
    requires remaining > 0 ==> t.key in table && table[t.key] == conn
    ensures Covers(table, owners[t.key := conn], RestRemainder(b, t, remaining))
  {
    if remaining > 0 {
      var o := Order(t.key, t.limit, remaining);
      forall k
        ensures Rests(Rest(b, t.side, o), k) <==> Rests(b, k) || k == t.key
      {
        RestRests(b, t.side, o, k);
      }
    }
  }

  lemma UpdateOwn(table: Table, owners: Table, b: BookView, self: OrderKey, conn: ConnId, e: Event)
    requires CoversBut(table, owners, b, self) && EventId(e) == Some(self)
    ensures CoversBut(Route(table, Some(self), conn, e).table, owners, b, self)
  {
  }

  lemma SubmitRoutes(table: Table, owners: Table, b: BookView, t: Taker, qty: Qty, conn: ConnId, rests: bool)
    requires Wf(b) && !Rests(b, t.key) && Covers(table, owners, b)
    ensures var r := Sweep(b, t, qty);
            var left := if rests then r.remaining else 0;
            var h := RouteAll(table, Some(t.key), conn, r.events + [Accepted(t.key, left)]);
            Sound(h, owners, Some(t.key), conn) && Covers(h.table, owners[t.key := conn], RestRemainder(r.book, t, left))
  {
    hide Wf, Rests, CoversBut, Covers, Sweep, RouteAll, Sound, RestRemainder;
    var r := Sweep(b, t, qty);
    var left := if rests then r.remaining else 0;
    CoversIsBut(table, owners, b, t.key);
    SweepRoutes(table, owners, b, t, qty, conn);
    var h := RouteAll(table, Some(t.key), conn, r.events);
    RouteLast(table, owners, Some(t.key), conn, r.events, Accepted(t.key, left));
    UpdateOwn(h.table, owners, r.book, t.key, conn, Accepted(t.key, left));
    SweepRests(b, t, qty, t.key);
    RemainderCovers(Route(h.table, Some(t.key), conn, Accepted(t.key, left)).table, owners, r.book, t, left, conn);
  }

  lemma RejectRoutes(table: Table, owners: Table, b: BookView, k: OrderKey, reason: RejectReason, conn: ConnId)
    requires Covers(table, owners, b)
    ensures var h := RouteAll(table, Some(k), conn, [Rejected(k, reason)]);
            Sound(h, owners, Some(k), conn) && Covers(h.table, owners, b)
  {
    RouteOne(table, Some(k), conn, Rejected(k, reason));
    RouteSound(table, owners, Some(k), conn, Rejected(k, reason));
  }

  /** A cancellation, of the command's own order or of any covered one. */
  lemma CancelRoutes(table: Table, owners: Table, b: BookView, k: OrderKey, self: Option<OrderKey>, conn: ConnId)
    requires Wf(b) && Rests(b, k) && Covers(table, owners, b)
    ensures var h := RouteAll(table, self, conn, [Cancelled(k)]);
            Sound(h, owners, self, conn) && Covers(h.table, owners, Delete(b, k))
  {
    hide Wf, Rests, Delete, Sound;
    DeleteWf(b, k);
    RouteOne(table, self, conn, Cancelled(k));
    RouteSound(table, owners, self, conn, Cancelled(k));
  }

  lemma {:induction false} StpClearRoutes(table: Table, owners: Table, b: BookView, t: Taker, conn: ConnId)
    requires Wf(b) && !Rests(b, t.key) && CoversBut(table, owners, b, t.key)
    ensures var c := StpClear(b, t);
            var h := RouteAll(table, Some(t.key), conn, c.events);
            Sound(h, owners, Some(t.key), conn) && CoversBut(h.table, owners, c.book, t.key)
    decreases |Queue(b, Opposite(t.side))|
  {
    hide Wf, Rests, CoversBut, Route, Sound;
    var opp := Opposite(t.side);
    var q := Queue(b, opp);
    SoundNothing(table, owners, Some(t.key), conn);
    if q == [] || !Crosses(t.side, t.limit, q[0].price) {
    } else if q[0].key.account == t.key.account {
      HitOwnRoutes(table, owners, b, t, 1, conn);
      RemoveWf(b, opp, 0);
      WfQueues(b);
      RemoveRests(b, opp, 0, t.key);
      hide Remove, QueuesWf;
      var h := RouteAll(table, Some(t.key), conn, [Cancelled(q[0].key)]);
      var b' := Remove(b, opp, 0);
      StpClearRoutes(h.table, owners, b', t, conn);
      var rest := StpClear(b', t).events;
      RouteConcat(table, Some(t.key), conn, [Cancelled(q[0].key)], rest);
      SoundConcat(h, RouteAll(h.table, Some(t.key), conn, rest), owners, Some(t.key), conn);
    }
  }

  lemma PostOnlyRoutes(table: Table, owners: Table, b: BookView, t: Taker, qty: Qty, conn: ConnId)
    requires Wf(b) && !Rests(b, t.key) && Covers(table, owners, b) && qty > 0
    ensures var r := SubmitPostOnly(b, t, qty);
            var h := RouteAll(table, Some(t.key), conn, r.events);
            && Sound(h, owners, Some(t.key), conn)
            && Covers(h.table, if StpClear(b, t).blocked then owners else owners[t.key := conn], r.book)
  {
    hide Wf, Rests, CoversBut, Covers, StpClear, RouteAll, Sound;
    var c := StpClear(b, t);
    CoversIsBut(table, owners, b, t.key);
    StpClearRoutes(table, owners, b, t, conn);
    StpClearRests(b, t, t.key);
    var h := RouteAll(table, Some(t.key), conn, c.events);
    if c.blocked {
      RouteLast(table, owners, Some(t.key), conn, c.events, Rejected(t.key, WouldCross));
      UpdateOwn(h.table, owners, c.book, t.key, conn, Rejected(t.key, WouldCross));
      AbsentCovers(h.table, owners, c.book, t.key);
    } else {
      RouteLast(table, owners, Some(t.key), conn, c.events, Accepted(t.key, qty));
      UpdateOwn(h.table, owners, c.book, t.key, conn, Accepted(t.key, qty));
      RemainderCovers(Route(h.table, Some(t.key), conn, Accepted(t.key, qty)).table, owners, c.book, t, qty, conn);
    }
  }

  lemma AbsentCovers(table: Table, owners: Table, b: BookView, k: OrderKey)
    requires CoversBut(table, owners, b, k) && !Rests(b, k)
    ensures Covers(table, owners, b)
  {
  }

  lemma AmendRoutes(table: Table, owners: Table, b: BookView, side: Side, i: nat, newQty: Qty, conn: ConnId)
    requires i < |Queue(b, side)| && Covers(table, owners, b)
    ensures var k := Queue(b, side)[i].key;
            var h := RouteAll(table, Some(k), conn, [Replaced(k, newQty, true)]);
            Sound(h, owners, Some(k), conn) && Covers(h.table, owners[k := conn], SetQty(b, side, i, newQty))
  {
    hide SetQty, Rests, Sound;
    var k := Queue(b, side)[i].key;
    RouteOne(table, Some(k), conn, Replaced(k, newQty, true));
    RouteSound(table, owners, Some(k), conn, Replaced(k, newQty, true));
    forall x
      ensures Rests(SetQty(b, side, i, newQty), x) <==> Rests(b, x)
    {
      SetQtyRests(b, side, i, newQty, x);
    }
  }

  lemma ReenterRoutes(table: Table, owners: Table, b: BookView, k: OrderKey, side: Side, newPrice: Price, newQty: Qty, conn: ConnId)
    requires Wf(b) && Rests(b, k) && Covers(table, owners, b)
    ensures var t := Taker(k, side, newPrice);
            var r := Sweep(Delete(b, k), t, newQty);
            var h := RouteAll(table, Some(k), conn, [Replaced(k, newQty, false)] + r.events);
            Sound(h, owners, Some(k), conn) && Covers(h.table, owners[k := conn], RestRemainder(r.book, t, r.remaining))
  {
    hide Wf, Rests, Sweep, RouteAll, Sound, RestRemainder, Delete;
    var t := Taker(k, side, newPrice);
    var b1 := Delete(b, k);
    var r := Sweep(b1, t, newQty);
    var e := Replaced(k, newQty, false);
    DeleteWf(b, k);
    RouteOne(table, Some(k), conn, e);
    RouteSound(table, owners, Some(k), conn, e);
    var h := Route(table, Some(k), conn, e);
    assert CoversBut(h.table, owners, b1, k);
    hide Covers, CoversBut;
    SweepRoutes(h.table, owners, b1, t, newQty, conn);
    SweepRests(b1, t, newQty, k);
    var i := RouteAll(h.table, Some(k), conn, r.events);
    RouteConcat(table, Some(k), conn, [e], r.events);
    SoundConcat(h, i, owners, Some(k), conn);
    RemainderCovers(i.table, owners, r.book, t, r.remaining, conn);
  }

  lemma {:induction false} CancelEachRoutes(table: Table, owners: Table, b: BookView, a: AccountId, ids: seq<OrderId>, conn: ConnId)
    requires Wf(b) && Covers(table, owners, b) && NoRepeats(ids)
    requires forall i :: 0 <= i < |ids| ==> Rests(b, OrderKey(a, ids[i]))
    ensures var r := CancelEach(b, a, ids);
            var h := RouteAll(table, None, conn, r.events);
            Sound(h, owners, None, conn) && Covers(h.table, owners, r.book)
    decreases |ids|
  {
    hide Wf, Rests, Covers, Route, Sound, Delete;
    SoundNothing(table, owners, None, conn);
    if ids != [] {
      var k := OrderKey(a, ids[0]);
      DeleteWf(b, k);
      CancelRoutes(table, owners, b, k, None, conn);
      var h := RouteAll(table, None, conn, [Cancelled(k)]);
      var b' := Delete(b, k);
      CancelEachRoutes(h.table, owners, b', a, ids[1..], conn);
      var rest := CancelEach(b', a, ids[1..]).events;
      RouteConcat(table, None, conn, [Cancelled(k)], rest);
      SoundConcat(h, RouteAll(h.table, None, conn, rest), owners, None, conn);
    }
  }

  lemma {:induction false} SnapshotRoutes(table: Table, owners: Table, conn: ConnId, events: seq<Event>)
    requires forall i :: 0 <= i < |events| ==> EventId(events[i]).None? && !IsMarketData(events[i])
    ensures var h := RouteAll(table, None, conn, events);
            Sound(h, owners, None, conn) && h.table == table
    decreases |events|
  {
    if events != [] {
      SnapshotRoutes(table, owners, conn, events[1..]);
    }
  }

  // ---- Ownership per command ----

  /** The command routed soundly, and the table covers the new book under the new owners. */
  ghost predicate Served(table: Table, owners: Table, conn: ConnId, c: Command, r: Outcome) {
    var h := RouteAll(table, SelfId(c), conn, r.events);
    Sound(h, owners, SelfId(c), conn) && Covers(h.table, OwnersAfter(owners, conn, c, r.events), r.book)
  }

  lemma ClaimsLast(c: Command, xs: seq<Event>, e: Event)
    requires SelfId(c).Some? && (e.Accepted? || e.Replaced?) && e.key == SelfId(c).value
    ensures Claims(c, xs + [e]) && Claims(c, [e] + xs)
  {
    assert (xs + [e])[|xs|] == e;
    assert ([e] + xs)[0] == e;
  }

  lemma {:induction false} StpClearUnclaimed(b: BookView, t: Taker)
    ensures forall i :: 0 <= i < |StpClear(b, t).events| ==> StpClear(b, t).events[i].Cancelled?
    decreases |Queue(b, Opposite(t.side))|
  {
    var opp := Opposite(t.side);
    var q := Queue(b, opp);
    if q == [] || !Crosses(t.side, t.limit, q[0].price) {
    } else if q[0].key.account == t.key.account {
      StpClearUnclaimed(Remove(b, opp, 0), t);
    }
  }

  lemma PostOnlyServed(table: Table, owners: Table, conn: ConnId, b: BookView, c: Command)
    requires Wf(b) && Covers(table, owners, b) && c.NewOrder? && c.qty > 0
    ensures Served(table, owners, conn, c, SubmitPostOnly(b, Taker(c.key, c.side, c.price), c.qty))
  {
    hide Wf, Rests, Covers, StpClear, RouteAll, Sound;
    var t := Taker(c.key, c.side, c.price);
    if Rests(b, c.key) {
      RejectRoutes(table, owners, b, c.key, DuplicateOrderId, conn);
    } else {
      PostOnlyRoutes(table, owners, b, t, c.qty, conn);
      StpClearUnclaimed(b, t);
      ClaimsLast(c, StpClear(b, t).events, Accepted(c.key, c.qty));
    }
  }

  lemma NewOrderServed(table: Table, owners: Table, conn: ConnId, b: BookView, c: Command)
    requires Wf(b) && WellFormed(c) && Covers(table, owners, b) && c.NewOrder?
    ensures Served(table, owners, conn, c, Dispatch(b, c))
  {
    hide Wf, Rests, Covers, Sweep, RouteAll, Sound, Fillable, SubmitPostOnly, Claims;
    var t := Taker(c.key, c.side, if c.kind.Market? then MarketLimit(c.side) else c.price);
    if c.kind.Limit? && c.tif.PostOnly? {
      PostOnlyServed(table, owners, conn, b, c);
    } else {
      RejectRoutes(table, owners, b, c.key, DuplicateOrderId, conn);
      RejectRoutes(table, owners, b, c.key, NotFullyFillable, conn);
      RejectUnclaimed(c, c.key, DuplicateOrderId);
      RejectUnclaimed(c, c.key, NotFullyFillable);
      if !Rests(b, c.key) {
        var r := Sweep(b, t, c.qty);
        SubmitRoutes(table, owners, b, t, c.qty, conn, true);
        SubmitRoutes(table, owners, b, t, c.qty, conn, false);
        ClaimsLast(c, r.events, Accepted(c.key, r.remaining));
        ClaimsLast(c, r.events, Accepted(c.key, 0));
      }
    }
  }

  lemma RejectUnclaimed(c: Command, k: OrderKey, reason: RejectReason)
    ensures !Claims(c, [Rejected(k, reason)])
  {
  }

  lemma ModifyServed(table: Table, owners: Table, conn: ConnId, b: BookView, c: Command)
    requires Wf(b) && Covers(table, owners, b) && c.CancelReplace?
    ensures Served(table, owners, conn, c, Modify(b, c.key, c.newPrice, c.newQty))
  {
    hide Wf, Rests, Covers, Sweep, RouteAll, Sound, Claims, SetQty, RestRemainder, Delete;
    var k := c.key;
    RejectRoutes(table, owners, b, k, ZeroQuantity, conn);
    RejectRoutes(table, owners, b, k, UnknownOrderId, conn);
    RejectUnclaimed(c, k, ZeroQuantity);
    RejectUnclaimed(c, k, UnknownOrderId);
    if c.newQty != 0 && Rests(b, k) {
      var side := SideOf(b, k);
      if c.newPrice == OrderOf(b, k).price && c.newQty <= OrderOf(b, k).qty {
        AmendRoutes(table, owners, b, side, Find(Queue(b, side), k), c.newQty, conn);
        ClaimsLast(c, [], Replaced(k, c.newQty, true));
        assert [] + [Replaced(k, c.newQty, true)] == [Replaced(k, c.newQty, true)];
      } else {
        ReenterRoutes(table, owners, b, k, side, c.newPrice, c.newQty, conn);
        ClaimsLast(c, Sweep(Delete(b, k), Taker(k, side, c.newPrice), c.newQty).events, Replaced(k, c.newQty, false));
      }
    }
  }

  lemma MassCancelServed(table: Table, owners: Table, conn: ConnId, b: BookView, a: AccountId)
    requires Wf(b) && Covers(table, owners, b)
    ensures Served(table, owners, conn, MassCancel(a), CancelAll(b, a))
  {
    assert RosterExact(b, a);
    hide Wf, Rests, Covers, RouteAll, Sound, CancelEach;
    CancelEachRoutes(table, owners, b, a, OpenOrders(b, a), conn);
  }

  lemma SnapshotServed(table: Table, owners: Table, conn: ConnId, b: BookView)
    requires Covers(table, owners, b)
    ensures Served(table, owners, conn, Snapshot, Outcome(b, SnapshotEvents(b)))
  {
    hide Covers, RouteAll, Sound, SnapshotEvents;
    SnapshotSilent(b);
    SnapshotRoutes(table, owners, conn, SnapshotEvents(b));
  }

  lemma CancelServed(table: Table, owners: Table, conn: ConnId, b: BookView, k: OrderKey)
    requires Wf(b) && Covers(table, owners, b)
    ensures Served(table, owners, conn, CancelOrder(k), Cancel(b, k))
  {
    hide Wf, Rests, Covers, RouteAll, Sound, Delete;
    RejectRoutes(table, owners, b, k, UnknownOrderId, conn);
    if Rests(b, k) {
      CancelRoutes(table, owners, b, k, Some(k), conn);
    }
  }

  lemma DispatchServed(table: Table, owners: Table, conn: ConnId, b: BookView, c: Command)
    requires Wf(b) && WellFormed(c) && Covers(table, owners, b)
    ensures Served(table, owners, conn, c, Dispatch(b, c))
  {
    hide Wf, Covers, Served, SubmitGtc, SubmitIoc, SubmitFok, SubmitPostOnly, SubmitMarket, Modify, Cancel, CancelAll, SnapshotEvents;
    match c {
      case NewOrder(_, _, _, _, _, _, _) => NewOrderServed(table, owners, conn, b, c);
      case CancelOrder(k) => CancelServed(table, owners, conn, b, k);
      case CancelReplace(_, _, _) => ModifyServed(table, owners, conn, b, c);
      case MassCancel(a) => MassCancelServed(table, owners, conn, b, a);
      case KillSwitch(_) => NothingServed(table, owners, conn, b, c);
      case Snapshot => SnapshotServed(table, owners, conn, b);
    }
  }

  lemma NothingServed(table: Table, owners: Table, conn: ConnId, b: BookView, c: Command)
    requires Covers(table, owners, b)
    ensures Served(table, owners, conn, c, Outcome(b, []))
  {
    SoundNothing(table, owners, SelfId(c), conn);
  }

  /** A trailing touch announcement is market data: it changes neither routing nor ownership. */
  lemma UpdateServed(table: Table, owners: Table, conn: ConnId, c: Command, r: Outcome, e: Event)
    requires Served(table, owners, conn, c, r) && e.BookUpdate?
    ensures Served(table, owners, conn, c, Outcome(r.book, r.events + [e]))
  {
    hide Covers, Sound, RouteAll;
    RouteLast(table, owners, SelfId(c), conn, r.events, e);
    assert Claims(c, r.events + [e]) <==> Claims(c, r.events) by {
      if Claims(c, r.events) {
        var i :| 0 <= i < |r.events| && (r.events[i].Accepted? || r.events[i].Replaced?) && r.events[i].key == SelfId(c).value;
        assert (r.events + [e])[i] == r.events[i];
      }
    }
  }

  lemma ProcessServed(config: RiskConfig, table: Table, owners: Table, conn: ConnId, s: System, c: Command)
    requires Wf(s.book) && WellFormed(c) && Covers(table, owners, s.book)
    ensures var p := Process(config, s, c);
            Served(table, owners, conn, c, Outcome(p.system.book, p.events))
  {
    RejectIsRejected(config, s.killed, c, s.book);
    hide Wf, Covers, Dispatch, PreApplyCheck, TopOfBook, RouteAll, Sound, Claims;
    var reject := PreApplyCheck(config, s.killed, c, s.book);
    if reject.Some? {
      RejectRoutes(table, owners, s.book, c.key, reject.value.reason, conn);
      RejectUnclaimed(c, c.key, reject.value.reason);
    } else {
      hide Served;
      DispatchServed(table, owners, conn, s.book, c);
      var r := Dispatch(s.book, c);
      var top := TopOfBook(r.book);
      UpdateServed(table, owners, conn, c, r, BookUpdate(top.0, top.1));
    }
  }

  // ---- Runs ----

  datatype Request = Request(conn: ConnId, command: Command)

  function Commands(rs: seq<Request>): (cs: seq<Command>)
    ensures |cs| == |rs| && forall i :: 0 <= i < |rs| ==> cs[i] == rs[i].command
  {
    seq(|rs|, i requires 0 <= i < |rs| => rs[i].command)
  }

  /** The gateway between commands: the system, its table, and who owns what. */
  datatype Gateway = Gateway(system: System, table: Table, owners: Table)

  const IDLE: Gateway := Gateway(START, map[], map[])

  function Serve(config: RiskConfig, g: Gateway, r: Request): Gateway {
    var p := Process(config, g.system, r.command);
    Gateway(p.system, RouteAll(g.table, SelfId(r.command), r.conn, p.events).table,
            OwnersAfter(g.owners, r.conn, r.command, p.events))
  }

  function ServeAll(config: RiskConfig, g: Gateway, rs: seq<Request>): Gateway
    decreases |rs|
  {
    if rs == [] then g else ServeAll(config, Serve(config, g, rs[0]), rs[1..])
  }

  ghost predicate AllValid(rs: seq<Request>) {
    forall i :: 0 <= i < |rs| ==> WellFormed(rs[i].command)
  }

  lemma {:induction false} ServeAllCovers(config: RiskConfig, g: Gateway, rs: seq<Request>)
    requires Wf(g.system.book) && Covers(g.table, g.owners, g.system.book) && AllValid(rs)
    ensures var g' := ServeAll(config, g, rs); Wf(g'.system.book) && Covers(g'.table, g'.owners, g'.system.book)
    decreases |rs|
  {
    hide Wf, Covers, Process, Sound, RouteAll;
    if rs != [] {
      ProcessServed(config, g.table, g.owners, rs[0].conn, g.system, rs[0].command);
      ProcessWf(config, g.system, rs[0].command);
      ServeAllCovers(config, Serve(config, g, rs[0]), rs[1..]);
    }
  }

  /**
   * Over every run: the table holds every resting order under the connection that last submitted or amended
   * it, and whatever request comes next, each of its reports about another order finds its entry and goes to
   * that order's owner. The fallback is never taken.
   */
  lemma RoutingNeverMisses(config: RiskConfig, rs: seq<Request>, next: Request)
    requires AllValid(rs) && WellFormed(next.command)
    ensures var g := ServeAll(config, IDLE, rs);
            var p := Process(config, g.system, next.command);
            var h := RouteAll(g.table, SelfId(next.command), next.conn, p.events);
            && (forall k :: Rests(g.system.book, k) ==> k in g.table && k in g.owners && g.table[k] == g.owners[k])
            && Sound(h, g.owners, SelfId(next.command), next.conn)
  {
    EmptyWf();
    assert Covers(IDLE.table, IDLE.owners, IDLE.system.book);
    ServeAllCovers(config, IDLE, rs);
    var g := ServeAll(config, IDLE, rs);
    ProcessServed(config, g.table, g.owners, next.conn, g.system, next.command);
  }
}
