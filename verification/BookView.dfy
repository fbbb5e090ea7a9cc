/**
 * The plain book: two priority queues, each account's open orders in slot-array order, and the last trade.
 * Everything the arena, the linked levels and the indexes store is determined by this value, and every
 * mutation of the book is one of the three steps below: `Remove`, `Rest`, `SetQty`.
 */
module BookViews {
  import opened Types
  import opened Queues

  datatype BookView = BookView(
    bids: seq<Order>,
    asks: seq<Order>,
    /** Open orders of every account ever seen, in the order of its slot array. */
    roster: map<AccountId, seq<OrderId>>,
    lastTrade: Option<Price>)

  const EMPTY: BookView := BookView([], [], map[], None)

  function Queue(b: BookView, side: Side): seq<Order> {
    if side.Buy? then b.bids else b.asks
  }

  function SetQueue(b: BookView, side: Side, q: seq<Order>): BookView {
    if side.Buy? then b.(bids := q) else b.(asks := q)
  }

  function OpenOrders(b: BookView, a: AccountId): seq<OrderId> {
    if a in b.roster then b.roster[a] else []
  }

  predicate Rests(b: BookView, k: OrderKey) {
    Find(b.bids, k) < |b.bids| || Find(b.asks, k) < |b.asks|
  }

  /** Gross notional of an account: both sides count. */
  function AccountNotional(b: BookView, a: AccountId): nat {
    Sum(b.bids, NotionalOf(a)) + Sum(b.asks, NotionalOf(a))
  }

  function TotalResting(b: BookView): nat {
    Sum(b.bids, Quantity()) + Sum(b.asks, Quantity())
  }

  // ---- Well-formedness ----

  /** No two orders of a queue share an (account, order) key. */
  ghost predicate Unique(q: seq<Order>) {
    forall i, j :: 0 <= i < j < |q| ==> q[i].key != q[j].key
  }

  /** No key rests on both sides. */
  ghost predicate Disjoint(p: seq<Order>, q: seq<Order>) {
    forall i, j :: 0 <= i < |p| && 0 <= j < |q| ==> p[i].key != q[j].key
  }

  ghost predicate Positive(q: seq<Order>) {
    forall i :: 0 <= i < |q| ==> q[i].qty > 0
  }

  ghost predicate PositiveQueue(q: seq<Order>) {
    forall i :: 0 <= i < |q| ==> q[i].price > 0
  }

  ghost predicate PricesPositive(b: BookView) {
    PositiveQueue(b.bids) && PositiveQueue(b.asks)
  }

  /** Neither crossed nor locked: every bid is strictly below every ask. */
  ghost predicate Uncrossed(bids: seq<Order>, asks: seq<Order>) {
    forall i, j :: 0 <= i < |bids| && 0 <= j < |asks| ==> bids[i].price < asks[j].price
  }

  /** Every order of the queue is listed under its account. */
  ghost predicate Listed(q: seq<Order>, roster: map<AccountId, seq<OrderId>>) {
    forall i :: 0 <= i < |q| ==> q[i].key.account in roster && q[i].key.order in roster[q[i].key.account]
  }

  ghost predicate NoRepeats(s: seq<OrderId>) {
    forall i, j :: 0 <= i < j < |s| ==> s[i] != s[j]
  }

  /** What the roster lists for `a` rests, is listed once, and is as many as the account's orders. */
  ghost predicate RosterExact(b: BookView, a: AccountId) {
    && (forall id :: id in OpenOrders(b, a) ==> Rests(b, OrderKey(a, id)))
    && NoRepeats(OpenOrders(b, a))
    && |OpenOrders(b, a)| == Sum(b.bids, CountOf(a)) + Sum(b.asks, CountOf(a))
  }

  ghost predicate QueuesWf(b: BookView) {
    && Sorted(Buy, b.bids) && Sorted(Sell, b.asks)
    && Unique(b.bids) && Unique(b.asks) && Disjoint(b.bids, b.asks)
    && Positive(b.bids) && Positive(b.asks)
    && Uncrossed(b.bids, b.asks)
  }

  /** The roster lists exactly the resting orders of every account. */
  ghost predicate Rostered(b: BookView) {
    && Listed(b.bids, b.roster) && Listed(b.asks, b.roster)
    && forall a :: RosterExact(b, a)
  }

  ghost predicate Wf(b: BookView) {
    QueuesWf(b) && Rostered(b)
  }

  // ---- The three steps ----

  function IndexIn(s: seq<OrderId>, id: OrderId): (k: nat)
    ensures k <= |s|
    ensures k < |s| ==> s[k] == id
    ensures k == |s| ==> id !in s
  {
    if s == [] then 0 else if s[0] == id then 0 else 1 + IndexIn(s[1..], id)
  }

  /** Remove position `k` by moving the last element into it. */
  function SwapRemove<T>(s: seq<T>, k: nat): (r: seq<T>)
    requires k < |s|
    ensures |r| == |s| - 1
    ensures forall j :: 0 <= j < |r| ==> r[j] == if j == k then s[|s| - 1] else s[j]
  {
    s[k := s[|s| - 1]][..|s| - 1]
  }

  function Dismiss(s: seq<OrderId>, id: OrderId): seq<OrderId> {
    var k := IndexIn(s, id);
    if k < |s| then SwapRemove(s, k) else s
  }

  function Remove(b: BookView, side: Side, i: nat): BookView
    requires i < |Queue(b, side)|
  {
    var k := Queue(b, side)[i].key;
    SetQueue(b, side, Without(Queue(b, side), i))
    .(roster := b.roster[k.account := Dismiss(OpenOrders(b, k.account), k.order)])
  }

  function Rest(b: BookView, side: Side, o: Order): BookView {
    var q := Queue(b, side);
    SetQueue(b, side, With(q, JoinAt(side, q, o.price), o))
    .(roster := b.roster[o.key.account := OpenOrders(b, o.key.account) + [o.key.order]])
  }

  function SetQty(b: BookView, side: Side, i: nat, qty: Qty): BookView
    requires i < |Queue(b, side)|
  {
    SetQueue(b, side, Queue(b, side)[i := Queue(b, side)[i].(qty := qty)])
  }

  // ---- Each step keeps the book well formed ----

  lemma RestsAt(b: BookView, side: Side, i: nat)
    requires i < |Queue(b, side)|
    ensures Rests(b, Queue(b, side)[i].key)
  {
    assert HasKey(Queue(b, side), Queue(b, side)[i].key);
  }

  /** Positional witness for a resting key. */
  lemma RestsWhere(b: BookView, k: OrderKey) returns (side: Side, i: nat)
    requires Rests(b, k)
    ensures i < |Queue(b, side)| && Queue(b, side)[i].key == k
  {
    if Find(b.bids, k) < |b.bids| {
      side, i := Buy, Find(b.bids, k);
    } else {
      side, i := Sell, Find(b.asks, k);
    }
  }

  lemma DismissSpec(s: seq<OrderId>, id: OrderId)
    requires NoRepeats(s) && id in s
    ensures NoRepeats(Dismiss(s, id))
    ensures |Dismiss(s, id)| == |s| - 1
    ensures forall x :: x in Dismiss(s, id) <==> x in s && x != id
  {
    var k := IndexIn(s, id);
    var r := Dismiss(s, id);
    forall x | x in s && x != id
      ensures x in r
    {
      var j :| 0 <= j < |s| && s[j] == x;
      if j == |s| - 1 {
        assert r[k] == x;
      } else {
        assert r[j] == x;
      }
    }
  }

  lemma HasKeyWithout(q: seq<Order>, i: nat, k: OrderKey)
    requires Unique(q) && i < |q|
    ensures HasKey(Without(q, i), k) <==> HasKey(q, k) && k != q[i].key
  {
    var r := Without(q, i);
    if HasKey(r, k) {
      var j :| 0 <= j < |r| && r[j].key == k;
      assert q[if j < i then j else j + 1].key == k;
    }
    if HasKey(q, k) && k != q[i].key {
      var j :| 0 <= j < |q| && q[j].key == k;
      assert r[if j < i then j else j - 1].key == k;
    }
  }

  /** Which keys rest after a removal. */
  lemma RemoveRests(b: BookView, side: Side, i: nat, k: OrderKey)
    requires QueuesWf(b) && i < |Queue(b, side)|
    ensures Rests(Remove(b, side, i), k) <==> Rests(b, k) && k != Queue(b, side)[i].key
  {
    HasKeyWithout(Queue(b, side), i, k);
    if HasKey(Queue(b, Opposite(side)), k) {
      assert k != Queue(b, side)[i].key;
    }
  }

  lemma WithoutKeeps(side: Side, q: seq<Order>, i: nat)
    requires Sorted(side, q) && Unique(q) && Positive(q) && i < |q|
    ensures Sorted(side, Without(q, i)) && Unique(Without(q, i)) && Positive(Without(q, i))
  {
  }

  lemma RemoveQueuesWf(b: BookView, side: Side, i: nat)
    requires QueuesWf(b) && i < |Queue(b, side)|
    ensures QueuesWf(Remove(b, side, i))
  {
    WithoutKeeps(side, Queue(b, side), i);
  }

  lemma RemoveRosterExact(b: BookView, side: Side, i: nat, a: AccountId)
    requires Wf(b) && i < |Queue(b, side)|
    ensures RosterExact(Remove(b, side, i), a)
  {
    hide QueuesWf, Rostered, RosterExact, Remove, OpenOrders, Rests, NoRepeats, Sum;
    WfRosterExact(b, a);
    RemoveLists(b, side, i, a);
    RemoveCount(b, side, i, a);
    RosterExactOf(b, Remove(b, side, i), a, if a == Queue(b, side)[i].key.account then 1 else 0);
  }

  lemma WfRosterExact(b: BookView, a: AccountId)
    requires Rostered(b)
    ensures RosterExact(b, a)
  {
    hide RosterExact, Listed;
  }

  lemma RosterExactOf(b: BookView, b': BookView, a: AccountId, gone: nat)
    requires RosterExact(b, a) && NoRepeats(OpenOrders(b', a)) && |OpenOrders(b', a)| + gone == |OpenOrders(b, a)|
    requires forall id :: id in OpenOrders(b', a) ==> Rests(b', OrderKey(a, id))
    requires Sum(b'.bids, CountOf(a)) + Sum(b'.asks, CountOf(a)) + gone == Sum(b.bids, CountOf(a)) + Sum(b.asks, CountOf(a))
    ensures RosterExact(b', a)
  {
    hide Rests, NoRepeats, OpenOrders, Sum;
  }

  lemma RemoveLists(b: BookView, side: Side, i: nat, a: AccountId)
    requires Wf(b) && i < |Queue(b, side)|
    ensures var b', k := Remove(b, side, i), Queue(b, side)[i].key;
            && NoRepeats(OpenOrders(b', a))
            && |OpenOrders(b', a)| + (if a == k.account then 1 else 0) == |OpenOrders(b, a)|
            && forall id :: id in OpenOrders(b', a) ==> Rests(b', OrderKey(a, id))
  {
    hide QueuesWf, Rostered, Dismiss, Remove, OpenOrders, NoRepeats, Rests, Sum;
    var b', k := Remove(b, side, i), Queue(b, side)[i].key;
    RemoveRosterIs(b, side, i, a);
    WfRosterExact(b, a);
    ListedAt(b, side, i);
    if a == k.account {
      DismissSpec(OpenOrders(b, a), k.order);
    }
    forall id | id in OpenOrders(b', a)
      ensures Rests(b', OrderKey(a, id))
    {
      RemoveStillRests(b, side, i, OrderKey(a, id));
    }
  }

  lemma ListedAt(b: BookView, side: Side, i: nat)
    requires Rostered(b) && i < |Queue(b, side)|
    ensures var k := Queue(b, side)[i].key; k.order in OpenOrders(b, k.account)
  {
    hide RosterExact;
  }

  lemma RemoveRosterIs(b: BookView, side: Side, i: nat, a: AccountId)
    requires i < |Queue(b, side)|
    ensures var k := Queue(b, side)[i].key;
            OpenOrders(Remove(b, side, i), a)
            == if a == k.account then Dismiss(OpenOrders(b, a), k.order) else OpenOrders(b, a)
  {
    hide Dismiss, Without;
  }

  lemma RemoveStillRests(b: BookView, side: Side, i: nat, k: OrderKey)
    requires QueuesWf(b) && i < |Queue(b, side)| && Rests(b, k) && k != Queue(b, side)[i].key
    ensures Rests(Remove(b, side, i), k)
  {
    hide QueuesWf, Rests, Remove;
    RemoveRests(b, side, i, k);
  }

  /** One order fewer of its own account, none of any other. */
  lemma RemoveCount(b: BookView, side: Side, i: nat, a: AccountId)
    requires i < |Queue(b, side)|
    ensures var b', k := Remove(b, side, i), Queue(b, side)[i].key;
            Sum(b'.bids, CountOf(a)) + Sum(b'.asks, CountOf(a))
            == Sum(b.bids, CountOf(a)) + Sum(b.asks, CountOf(a)) - if a == k.account then 1 else 0
  {
    hide Dismiss, Without, Sum;
    SumWithout(Queue(b, side), i, CountOf(a));
  }

  lemma DismissKeepsListed(q: seq<Order>, roster: map<AccountId, seq<OrderId>>, k: OrderKey)
    requires Listed(q, roster) && k.account in roster && k.order in roster[k.account] && NoRepeats(roster[k.account])
    requires !HasKey(q, k)
    ensures Listed(q, roster[k.account := Dismiss(roster[k.account], k.order)])
  {
    DismissSpec(roster[k.account], k.order);
  }

  lemma RemoveRosterWf(b: BookView, side: Side, i: nat)
    requires Wf(b) && i < |Queue(b, side)|
    ensures Rostered(Remove(b, side, i))
  {
    var q := Queue(b, side);
    var k := q[i].key;
    assert RosterExact(b, k.account);
    HasKeyWithout(q, i, k);
    DismissKeepsListed(Without(q, i), b.roster, k);
    DismissKeepsListed(Queue(b, Opposite(side)), b.roster, k);
    forall a
      ensures RosterExact(Remove(b, side, i), a)
    {
      RemoveRosterExact(b, side, i, a);
    }
  }

  lemma RemoveKeepsOpposite(b: BookView, side: Side, i: nat)
    requires i < |Queue(b, side)|
    ensures Queue(Remove(b, side, i), Opposite(side)) == Queue(b, Opposite(side))
  {
  }

  lemma RemoveWf(b: BookView, side: Side, i: nat)
    requires Wf(b) && i < |Queue(b, side)|
    ensures Wf(Remove(b, side, i))
  {
    RemoveQueuesWf(b, side, i);
    RemoveRosterWf(b, side, i);
  }

  lemma SetQtyRests(b: BookView, side: Side, i: nat, qty: Qty, k: OrderKey)
    requires i < |Queue(b, side)|
    ensures Rests(SetQty(b, side, i, qty), k) <==> Rests(b, k)
  {
    var q := Queue(b, side);
    var r := q[i := q[i].(qty := qty)];
    if HasKey(q, k) {
      var j :| 0 <= j < |q| && q[j].key == k;
      assert r[j].key == k;
    }
    if HasKey(r, k) {
      var j :| 0 <= j < |r| && r[j].key == k;
      assert q[j].key == k;
    }
  }

  lemma SetQtyRosterExact(b: BookView, side: Side, i: nat, qty: Qty, a: AccountId)
    requires i < |Queue(b, side)| && RosterExact(b, a)
    ensures RosterExact(SetQty(b, side, i, qty), a)
  {
    forall id | id in OpenOrders(b, a)
      ensures Rests(SetQty(b, side, i, qty), OrderKey(a, id))
    {
      SetQtyRests(b, side, i, qty, OrderKey(a, id));
    }
    SumUpdate(Queue(b, side), i, Queue(b, side)[i].(qty := qty), CountOf(a));
  }

  lemma RequantifiedQueue(side: Side, q: seq<Order>, i: nat, qty: Qty)
    requires Sorted(side, q) && Unique(q) && Positive(q) && i < |q| && qty > 0
    ensures var r := q[i := q[i].(qty := qty)]; Sorted(side, r) && Unique(r) && Positive(r)
  {
    hide Better;
  }

  lemma SetQtyQueuesWf(b: BookView, side: Side, i: nat, qty: Qty)
    requires QueuesWf(b) && i < |Queue(b, side)| && qty > 0
    ensures QueuesWf(SetQty(b, side, i, qty))
  {
    hide Sorted, Unique, Positive;
    RequantifiedQueue(side, Queue(b, side), i, qty);
  }

  lemma SetQtyWf(b: BookView, side: Side, i: nat, qty: Qty)
    requires Wf(b) && i < |Queue(b, side)| && qty > 0
    ensures Wf(SetQty(b, side, i, qty))
  {
    hide QueuesWf, RosterExact;
    SetQtyQueuesWf(b, side, i, qty);
    forall a
      ensures RosterExact(SetQty(b, side, i, qty), a)
    {
      SetQtyRosterExact(b, side, i, qty, a);
    }
  }

  /** An aggressor on `side` limited at `limit` trades with an opposite order at `p`; equality crosses. */
  predicate Crosses(side: Side, limit: Price, p: Price) {
    if side.Buy? then p <= limit else p >= limit
  }

  ghost predicate NoneCross(side: Side, limit: Price, q: seq<Order>) {
    forall j :: 0 <= j < |q| ==> !Crosses(side, limit, q[j].price)
  }

  /** A fresh order that crosses nothing may rest. */
  ghost predicate MayRest(b: BookView, side: Side, o: Order) {
    && !Rests(b, o.key)
    && o.qty > 0
    && NoneCross(side, o.price, Queue(b, Opposite(side)))
  }

  lemma HasKeyWith(q: seq<Order>, at: nat, o: Order, k: OrderKey)
    requires at <= |q|
    ensures HasKey(With(q, at, o), k) <==> HasKey(q, k) || k == o.key
  {
    var r := With(q, at, o);
    assert r[at].key == o.key;
    if HasKey(r, k) {
      var j :| 0 <= j < |r| && r[j].key == k;
      assert j != at ==> q[if j < at then j else j - 1].key == k;
    }
    if HasKey(q, k) {
      var j :| 0 <= j < |q| && q[j].key == k;
      assert r[if j < at then j else j + 1].key == k;
    }
  }

  lemma RestRests(b: BookView, side: Side, o: Order, k: OrderKey)
    ensures Rests(Rest(b, side, o), k) <==> Rests(b, k) || k == o.key
  {
    HasKeyWith(Queue(b, side), JoinAt(side, Queue(b, side), o.price), o, k);
  }

  lemma JoinKeepsSorted(side: Side, q: seq<Order>, o: Order)
    requires Sorted(side, q)
    ensures Sorted(side, With(q, JoinAt(side, q, o.price), o))
  {
    var at := JoinAt(side, q, o.price);
    var r := With(q, at, o);
    forall i, j | 0 <= i < j < |r|
      ensures !Better(side, r[j].price, r[i].price)
    {
      if j > at {
        assert r[j] == q[j - 1];
        assert at < j - 1 ==> !Better(side, q[j - 1].price, q[at].price);
      }
    }
  }

  lemma WithKeepsUnique(q: seq<Order>, at: nat, o: Order)
    requires Unique(q) && !HasKey(q, o.key) && at <= |q|
    ensures Unique(With(q, at, o))
  {
  }

  lemma WithKeepsDisjoint(p: seq<Order>, q: seq<Order>, at: nat, o: Order)
    requires Disjoint(p, q) && !HasKey(p, o.key) && at <= |q|
    ensures Disjoint(p, With(q, at, o)) && Disjoint(With(q, at, o), p)
  {
  }

  lemma WithKeepsUncrossed(b: BookView, side: Side, o: Order, at: nat)
    requires Uncrossed(b.bids, b.asks) && NoneCross(side, o.price, Queue(b, Opposite(side))) && at <= |Queue(b, side)|
    ensures var q := With(Queue(b, side), at, o);
            Uncrossed(if side.Buy? then q else b.bids, if side.Buy? then b.asks else q)
  {
  }

  lemma WithKeepsPositive(q: seq<Order>, at: nat, o: Order)
    requires Positive(q) && at <= |q| && o.qty > 0
    ensures Positive(With(q, at, o))
  {
  }

  lemma DisjointSym(p: seq<Order>, q: seq<Order>)
    requires Disjoint(p, q)
    ensures Disjoint(q, p)
  {
  }

  lemma RestQueuesWf(b: BookView, side: Side, o: Order)
    requires QueuesWf(b) && MayRest(b, side, o)
    ensures QueuesWf(Rest(b, side, o))
  {
    hide JoinAt, Sorted, Unique, HasKey, Disjoint, Positive, Uncrossed, NoneCross, With;
    var q := Queue(b, side);
    var at := JoinAt(side, q, o.price);
    JoinKeepsSorted(side, q, o);
    WithKeepsUnique(q, at, o);
    DisjointSym(b.bids, b.asks);
    WithKeepsDisjoint(Queue(b, Opposite(side)), q, at, o);
    WithKeepsPositive(q, at, o);
    WithKeepsUncrossed(b, side, o, at);
  }

  lemma RestRosterExact(b: BookView, side: Side, o: Order, a: AccountId)
    requires RosterExact(b, a) && !Rests(b, o.key)
    ensures RosterExact(Rest(b, side, o), a)
  {
    var b' := Rest(b, side, o);
    forall id | id in OpenOrders(b', a)
      ensures Rests(b', OrderKey(a, id))
    {
      RestRests(b, side, o, OrderKey(a, id));
    }
    SumWith(Queue(b, side), JoinAt(side, Queue(b, side), o.price), o, CountOf(a));
  }

  lemma AppendKeepsListed(q: seq<Order>, roster: map<AccountId, seq<OrderId>>, a: AccountId, s: seq<OrderId>)
    requires Listed(q, roster)
    requires forall id :: a in roster && id in roster[a] ==> id in s
    ensures Listed(q, roster[a := s])
  {
  }

  lemma WithKeepsListed(q: seq<Order>, at: nat, o: Order, roster: map<AccountId, seq<OrderId>>)
    requires Listed(q, roster) && at <= |q|
    requires o.key.account in roster && o.key.order in roster[o.key.account]
    ensures Listed(With(q, at, o), roster)
  {
  }

  lemma RestRosterWf(b: BookView, side: Side, o: Order)
    requires Wf(b) && MayRest(b, side, o)
    ensures Rostered(Rest(b, side, o))
  {
    var a := o.key.account;
    var s := OpenOrders(b, a) + [o.key.order];
    assert s[|s| - 1] == o.key.order;
    AppendKeepsListed(b.bids, b.roster, a, s);
    AppendKeepsListed(b.asks, b.roster, a, s);
    WithKeepsListed(Queue(b, side), JoinAt(side, Queue(b, side), o.price), o, b.roster[a := s]);
    forall x
      ensures RosterExact(Rest(b, side, o), x)
    {
      RestRosterExact(b, side, o, x);
    }
  }

  lemma RestWf(b: BookView, side: Side, o: Order)
    requires Wf(b) && MayRest(b, side, o)
    ensures Wf(Rest(b, side, o))
  {
    RestQueuesWf(b, side, o);
    RestRosterWf(b, side, o);
  }
}
