/**
 * How the arena, the price levels and the indexes store a plain book: the representation invariant, and
 * why unlinking a node, appending a node and changing a quantity in place each keep it.
 *
 * `chain` lists a side's slots in priority order, parallel to the side's queue. Links are local: a node's
 * neighbours in its level are its neighbours in the chain that rest at the same price.
 */
module BookStore {
  import opened Types
  import opened Queues
  import opened BookViews
  import opened Arenas

  datatype Level = Level(head: Slot, tail: Slot, totalQty: Qty, count: nat)
  const EMPTY_LEVEL: Level := Level(NULL, NULL, 0, 0)

  datatype AccountEntry = AccountEntry(slots: seq<Slot>, notional: nat)
  const NEW_ACCOUNT: AccountEntry := AccountEntry([], 0)

  type Nodes = seq<Option<Node>>

  /** Every field of the book that the invariant ties together, plus the two ghost chains. */
  datatype Store = Store(
    nodes: Nodes,
    bids: map<Price, Level>,
    asks: map<Price, Level>,
    index: map<OrderKey, Slot>,
    accounts: map<AccountId, AccountEntry>,
    bidChain: seq<Slot>,
    askChain: seq<Slot>)

  // ---- The invariant ----

  predicate Carries(n: Node, o: Order, side: Side) {
    n.key == o.key && n.price == o.price && n.qty == o.qty && n.side == side
  }

  predicate Starts(q: seq<Order>, i: nat)
    requires i < |q|
  {
    i == 0 || q[i - 1].price != q[i].price
  }

  predicate Ends(q: seq<Order>, i: nat)
    requires i < |q|
  {
    i + 1 == |q| || q[i + 1].price != q[i].price
  }

  ghost predicate NoSlotTwice(chain: seq<Slot>) {
    forall i, j :: 0 <= i < j < |chain| ==> chain[i] != chain[j]
  }

  /** The nodes of `chain` carry the orders of `q`. */
  ghost predicate Carried(nodes: Nodes, side: Side, chain: seq<Slot>, q: seq<Order>) {
    && |chain| == |q|
    && forall i {:trigger chain[i]} :: 0 <= i < |chain| ==>
         Live(nodes, chain[i]) && Carries(At(nodes, chain[i]), q[i], side)
  }

  /** Neighbours at the same price are linked both ways; a level's first and last node end in NULL. */
  ghost predicate Linked(nodes: Nodes, chain: seq<Slot>, q: seq<Order>) {
    && |chain| == |q|
    && (forall i {:trigger chain[i]} :: 0 <= i < |chain| ==> Live(nodes, chain[i]))
    && (forall i, j {:trigger chain[i], chain[j]} :: 0 <= i < |chain| - 1 && j == i + 1 && q[i].price == q[j].price ==>
          At(nodes, chain[i]).next == chain[j] && At(nodes, chain[j]).prev == chain[i])
    && (forall i {:trigger chain[i]} :: 0 <= i < |chain| && Starts(q, i) ==> At(nodes, chain[i]).prev == NULL)
    && (forall i {:trigger chain[i]} :: 0 <= i < |chain| && Ends(q, i) ==> At(nodes, chain[i]).next == NULL)
  }

  ghost predicate Threaded(nodes: Nodes, side: Side, chain: seq<Slot>, q: seq<Order>) {
    NoSlotTwice(chain) && Carried(nodes, side, chain, q) && Linked(nodes, chain, q)
  }

  /** A level exists exactly at the occupied prices, with exact cached count and quantity. */
  ghost predicate Tallied(levels: map<Price, Level>, q: seq<Order>) {
    && (forall p :: p in levels ==> levels[p].count > 0)
    && (forall p :: p in levels ==> levels[p].count == Sum(q, CountAt(p)))
    && (forall p :: p in levels ==> levels[p].totalQty == Sum(q, QtyAt(p)))
    && (forall i :: 0 <= i < |q| ==> q[i].price in levels)
  }

  /** Heads and tails are where the levels begin and end in the chain. */
  ghost predicate Bounded(levels: map<Price, Level>, chain: seq<Slot>, q: seq<Order>) {
    && |chain| == |q|
    && (forall i {:trigger chain[i]} :: 0 <= i < |q| && Starts(q, i) ==>
          q[i].price in levels && levels[q[i].price].head == chain[i])
    && (forall i {:trigger chain[i]} :: 0 <= i < |q| && Ends(q, i) ==>
          q[i].price in levels && levels[q[i].price].tail == chain[i])
  }

  ghost predicate SideStored(nodes: Nodes, side: Side, levels: map<Price, Level>, chain: seq<Slot>, q: seq<Order>) {
    Threaded(nodes, side, chain, q) && Tallied(levels, q) && Bounded(levels, chain, q)
  }

  /** Order index and live nodes agree in both directions. */
  ghost predicate Indexed(nodes: Nodes, index: map<OrderKey, Slot>) {
    && (forall k :: k in index ==> Live(nodes, index[k]) && At(nodes, index[k]).key == k)
    && (forall s :: Live(nodes, s) ==> At(nodes, s).key in index && index[At(nodes, s).key] == s)
  }

  /** Every live node is filed on its side's chain: no orphans. */
  ghost predicate Filed(nodes: Nodes, bidChain: seq<Slot>, askChain: seq<Slot>) {
    forall s :: Live(nodes, s) ==> s in (if At(nodes, s).side.Buy? then bidChain else askChain)
  }

  /** Account slot arrays and node back-indices agree in both directions. */
  ghost predicate Enrolled(nodes: Nodes, accounts: map<AccountId, AccountEntry>) {
    && (forall a, j :: a in accounts && 0 <= j < |accounts[a].slots| ==>
          Live(nodes, accounts[a].slots[j])
          && At(nodes, accounts[a].slots[j]).key.account == a
          && At(nodes, accounts[a].slots[j]).acctIdx == j)
    && (forall s :: Live(nodes, s) ==>
          At(nodes, s).key.account in accounts
          && At(nodes, s).acctIdx < |accounts[At(nodes, s).key.account].slots|
          && accounts[At(nodes, s).key.account].slots[At(nodes, s).acctIdx] == s)
  }

  /** The roster is what the slot arrays hold, read through the nodes. */
  ghost predicate RosterStored(nodes: Nodes, accounts: map<AccountId, AccountEntry>, roster: map<AccountId, seq<OrderId>>) {
    && accounts.Keys == roster.Keys
    && (forall a :: a in accounts ==> |accounts[a].slots| == |roster[a]|)
    && (forall a, j :: a in accounts && 0 <= j < |accounts[a].slots| ==>
          Live(nodes, accounts[a].slots[j]) && At(nodes, accounts[a].slots[j]).key.order == roster[a][j])
  }

  ghost predicate NotionalsCached(accounts: map<AccountId, AccountEntry>, v: BookView) {
    forall a :: a in accounts ==> accounts[a].notional == AccountNotional(v, a)
  }

  /** The whole representation invariant of `st` with respect to the plain book `v`. */
  ghost predicate Stores(st: Store, v: BookView) {
    && |st.nodes| <= NULL
    && SideStored(st.nodes, Buy, st.bids, st.bidChain, v.bids)
    && SideStored(st.nodes, Sell, st.asks, st.askChain, v.asks)
    && Filed(st.nodes, st.bidChain, st.askChain)
    && Indexed(st.nodes, st.index)
    && |st.index| == |v.bids| + |v.asks|
    && Enrolled(st.nodes, st.accounts)
    && RosterStored(st.nodes, st.accounts, v.roster)
    && NotionalsCached(st.accounts, v)
  }

  lemma EmptyStores()
    ensures Stores(Store([], map[], map[], map[], map[], [], []), EMPTY)
  {
  }

  function Chain(st: Store, side: Side): seq<Slot> {
    if side.Buy? then st.bidChain else st.askChain
  }

  function Levels(st: Store, side: Side): map<Price, Level> {
    if side.Buy? then st.bids else st.asks
  }

  /** Links and order data are the same; only the account back-index may differ. */
  predicate SameFiling(m: Node, n: Node) {
    m.key == n.key && m.price == n.price && m.qty == n.qty && m.side == n.side && m.prev == n.prev && m.next == n.next
  }

  /** A side none of whose nodes changed filing is still threaded. */
  lemma ThreadedKept(a: Nodes, b: Nodes, side: Side, chain: seq<Slot>, q: seq<Order>)
    requires Threaded(a, side, chain, q)
    requires forall s :: s in chain ==> Live(b, s) && SameFiling(At(a, s), At(b, s))
    ensures Threaded(b, side, chain, q)
  {
  }

  // ---- Unlinking one node ----

  /** `b` is `a` with `slot` vacated, its neighbours joined, and `moved` given the vacated account index. */
  ghost predicate SplicedOut(a: Nodes, b: Nodes, slot: Slot, moved: Slot) {
    && Live(a, slot)
    && |b| == |a|
    && !Live(b, slot)
    && (forall s :: s != slot ==> (Live(b, s) <==> Live(a, s)))
    && (forall s :: Live(a, s) && s != slot ==>
          && At(b, s).key == At(a, s).key && At(b, s).price == At(a, s).price
          && At(b, s).qty == At(a, s).qty && At(b, s).side == At(a, s).side
          && At(b, s).next == (if s == At(a, slot).prev then At(a, slot).next else At(a, s).next)
          && At(b, s).prev == (if s == At(a, slot).next then At(a, slot).prev else At(a, s).prev)
          && At(b, s).acctIdx == (if s == moved then At(a, slot).acctIdx else At(a, s).acctIdx))
  }

  lemma CarriedWithout(a: Nodes, b: Nodes, side: Side, chain: seq<Slot>, q: seq<Order>, i: nat, moved: Slot)
    requires Carried(a, side, chain, q) && NoSlotTwice(chain) && i < |chain| && SplicedOut(a, b, chain[i], moved)
    ensures Carried(b, side, Without(chain, i), Without(q, i)) && NoSlotTwice(Without(chain, i))
  {
    var c := Without(chain, i);
    forall j | 0 <= j < |c|
      ensures Live(b, c[j]) && Carries(At(b, c[j]), Without(q, i)[j], side)
    {
      assert c[j] == chain[if j < i then j else j + 1];
    }
  }

  /** Dropping position `i` joins its neighbours when they share its price and changes no other link. */
  lemma LinkedWithout(a: Nodes, b: Nodes, side: Side, chain: seq<Slot>, q: seq<Order>, i: nat, moved: Slot)
    requires |a| <= NULL && Linked(a, chain, q) && NoSlotTwice(chain) && Sorted(side, q) && i < |chain|
    requires SplicedOut(a, b, chain[i], moved)
    ensures Linked(b, Without(chain, i), Without(q, i))
  {
    var c, r := Without(chain, i), Without(q, i);
    forall j | 0 <= j < |c|
      ensures Live(b, c[j])
      ensures j + 1 < |c| && r[j].price == r[j + 1].price ==> At(b, c[j]).next == c[j + 1] && At(b, c[j + 1]).prev == c[j]
      ensures Starts(r, j) ==> At(b, c[j]).prev == NULL
      ensures Ends(r, j) ==> At(b, c[j]).next == NULL
    {
      LinkWithout(a, b, side, chain, q, i, j, moved);
    }
  }

  lemma LinkWithout(a: Nodes, b: Nodes, side: Side, chain: seq<Slot>, q: seq<Order>, i: nat, j: nat, moved: Slot)
    requires |a| <= NULL && Linked(a, chain, q) && NoSlotTwice(chain) && Sorted(side, q) && i < |chain| && j < |chain| - 1
    requires SplicedOut(a, b, chain[i], moved)
    ensures var c, r := Without(chain, i), Without(q, i);
            && Live(b, c[j])
            && (j + 1 < |c| && r[j].price == r[j + 1].price ==>
                  Live(b, c[j + 1]) && At(b, c[j]).next == c[j + 1] && At(b, c[j + 1]).prev == c[j])
            && (Starts(r, j) ==> At(b, c[j]).prev == NULL)
            && (Ends(r, j) ==> At(b, c[j]).next == NULL)
  {
    var c := Without(chain, i);
    assert c[j] == chain[if j < i then j else j + 1];
    assert 0 < i ==> Live(a, chain[i - 1]);
    assert i + 1 < |chain| ==> Live(a, chain[i + 1]);
    if j + 1 < |c| {
      assert c[j + 1] == chain[if j + 1 < i then j + 1 else j + 2];
    }
    if j > 0 {
      assert c[j - 1] == chain[if j - 1 < i then j - 1 else j];
    }
  }

  /** Sortedness makes a level contiguous: another order at the same price means a neighbour at it. */
  lemma Contiguous(side: Side, q: seq<Order>, i: nat, j: nat)
    requires Sorted(side, q) && i < |q| && j < |q| && i != j && q[i].price == q[j].price
    ensures j > i ==> !Ends(q, i)
    ensures j < i ==> !Starts(q, i)
  {
  }

  function UnlinkLevel(l: Level, slot: Slot, n: Node): Level
    requires l.count > 0 && l.totalQty >= n.qty
  {
    Level(if l.head == slot then n.next else l.head, if l.tail == slot then n.prev else l.tail,
          l.totalQty - n.qty, l.count - 1)
  }

  /** The levels after one node leaves; an emptied level goes. */
  function UnlinkLevels(levels: map<Price, Level>, slot: Slot, n: Node): map<Price, Level>
    requires n.price in levels && levels[n.price].count > 0 && levels[n.price].totalQty >= n.qty
  {
    var l := UnlinkLevel(levels[n.price], slot, n);
    if l.count == 0 then levels - {n.price} else levels[n.price := l]
  }

  lemma LevelCovers(levels: map<Price, Level>, q: seq<Order>, i: nat)
    requires Tallied(levels, q) && i < |q|
    ensures q[i].price in levels && levels[q[i].price].count > 0 && levels[q[i].price].totalQty >= q[i].qty
  {
    SumCovers(q, i, QtyAt(q[i].price));
  }

  lemma TalliedWithout(levels: map<Price, Level>, q: seq<Order>, i: nat, slot: Slot, n: Node)
    requires Tallied(levels, q) && i < |q|
    requires n.price == q[i].price && n.qty == q[i].qty
    requires n.price in levels && levels[n.price].count > 0 && levels[n.price].totalQty >= n.qty
    ensures Tallied(UnlinkLevels(levels, slot, n), Without(q, i))
  {
    var ls := UnlinkLevels(levels, slot, n);
    var r := Without(q, i);
    forall p | p in ls
      ensures ls[p].count == Sum(r, CountAt(p)) && ls[p].totalQty == Sum(r, QtyAt(p))
    {
      SumWithout(q, i, CountAt(p));
      SumWithout(q, i, QtyAt(p));
    }
    forall j | 0 <= j < |r|
      ensures r[j].price in ls
    {
      SumWithout(q, i, CountAt(n.price));
      SumCovers(r, j, CountAt(r[j].price));
    }
  }

  lemma BoundedWithout(side: Side, levels: map<Price, Level>, chain: seq<Slot>, q: seq<Order>, i: nat, n: Node)
    requires Bounded(levels, chain, q) && Sorted(side, q) && i < |q|
    requires NoSlotTwice(chain)
    requires n.price == q[i].price
    requires !Ends(q, i) ==> n.next == chain[i + 1]
    requires !Starts(q, i) ==> n.prev == chain[i - 1]
    requires n.price in levels && levels[n.price].count > 0 && levels[n.price].totalQty >= n.qty
    requires forall j :: 0 <= j < |q| - 1 ==> Without(q, i)[j].price in UnlinkLevels(levels, chain[i], n)
    ensures Bounded(UnlinkLevels(levels, chain[i], n), Without(chain, i), Without(q, i))
  {
    var c, r := Without(chain, i), Without(q, i);
    var ls := UnlinkLevels(levels, chain[i], n);
    forall j | 0 <= j < |r|
      ensures Starts(r, j) ==> ls[r[j].price].head == c[j]
      ensures Ends(r, j) ==> ls[r[j].price].tail == c[j]
    {
      var j0 := if j < i then j else j + 1;
      assert r[j] == q[j0] && c[j] == chain[j0];
      assert j + 1 < |r| ==> r[j + 1] == q[if j + 1 < i then j + 1 else j + 2];
      if q[j0].price == q[i].price {
        Contiguous(side, q, i, j0);
        Contiguous(side, q, j0, i);
      }
      if Ends(r, j) {
        if j0 == i - 1 && q[j0].price == q[i].price {
          assert Ends(q, i) && !Starts(q, i);
          assert ls[r[j].price].tail == n.prev;
        } else {
          assert Ends(q, j0);
        }
      }
    }
  }

  lemma IndexedWithout(a: Nodes, b: Nodes, index: map<OrderKey, Slot>, slot: Slot, moved: Slot)
    requires Indexed(a, index) && SplicedOut(a, b, slot, moved)
    ensures Indexed(b, index - {At(a, slot).key})
    ensures |index - {At(a, slot).key}| == |index| - 1
  {
    var k := At(a, slot).key;
    assert (index - {k}).Keys == index.Keys - {k};
  }

  lemma FiledWithout(a: Nodes, b: Nodes, bids: seq<Slot>, asks: seq<Slot>, side: Side, i: nat, moved: Slot)
    requires Filed(a, bids, asks)
    requires i < |if side.Buy? then bids else asks|
    requires SplicedOut(a, b, (if side.Buy? then bids else asks)[i], moved)
    ensures Filed(b, if side.Buy? then Without(bids, i) else bids, if side.Buy? then asks else Without(asks, i))
  {
    var chain := if side.Buy? then bids else asks;
    forall s | Live(b, s)
      ensures s in (if At(b, s).side == side then Without(chain, i) else if side.Buy? then asks else bids)
    {
      if At(b, s).side == side {
        var j :| 0 <= j < |chain| && chain[j] == s;
        assert Without(chain, i)[if j < i then j else j - 1] == s;
      }
    }
  }

  /** The entry after its slot array loses position `n.acctIdx` by swap-removal. */
  function UnlinkEntry(e: AccountEntry, n: Node): AccountEntry
    requires n.acctIdx < |e.slots| && e.notional >= n.price * n.qty
  {
    AccountEntry(SwapRemove(e.slots, n.acctIdx), e.notional - n.price * n.qty)
  }

  lemma EnrolledWithout(a: Nodes, b: Nodes, accounts: map<AccountId, AccountEntry>, slot: Slot)
    requires Enrolled(a, accounts) && Live(a, slot)
    requires var e := accounts[At(a, slot).key.account];
             e.notional >= At(a, slot).price * At(a, slot).qty
             && SplicedOut(a, b, slot, e.slots[|e.slots| - 1])
    ensures Enrolled(b, accounts[At(a, slot).key.account := UnlinkEntry(accounts[At(a, slot).key.account], At(a, slot))])
  {
    var n := At(a, slot);
    var e := accounts[n.key.account];
    var after := accounts[n.key.account := UnlinkEntry(e, n)];
    forall x, j | x in after && 0 <= j < |after[x].slots|
      ensures Live(b, after[x].slots[j]) && At(b, after[x].slots[j]).key.account == x
      ensures At(b, after[x].slots[j]).acctIdx == j
    {
      var j0 := if x == n.key.account && j == n.acctIdx then |e.slots| - 1 else j;
      assert after[x].slots[j] == accounts[x].slots[j0];
    }
  }

  lemma RosterWithout(a: Nodes, b: Nodes, accounts: map<AccountId, AccountEntry>, roster: map<AccountId, seq<OrderId>>, slot: Slot, moved: Slot)
    requires Enrolled(a, accounts) && RosterStored(a, accounts, roster) && SplicedOut(a, b, slot, moved)
    requires accounts[At(a, slot).key.account].notional >= At(a, slot).price * At(a, slot).qty
    requires NoRepeats(roster[At(a, slot).key.account])
    ensures var n := At(a, slot);
            RosterStored(b, accounts[n.key.account := UnlinkEntry(accounts[n.key.account], n)],
                         roster[n.key.account := Dismiss(roster[n.key.account], n.key.order)])
  {
    var n := At(a, slot);
    var x := n.key.account;
    assert accounts[x].slots[n.acctIdx] == slot;
    assert IndexIn(roster[x], n.key.order) == n.acctIdx;
    var after := accounts[x := UnlinkEntry(accounts[x], n)];
    forall y, j | y in after && 0 <= j < |after[y].slots|
      ensures Live(b, after[y].slots[j])
    {
      var j0 := if y == x && j == n.acctIdx then |accounts[x].slots| - 1 else j;
      assert after[y].slots[j] == accounts[y].slots[j0];
      assert At(a, accounts[y].slots[j0]).acctIdx == j0;
    }
  }

  /** Removing an order takes exactly its own notional from its own account. */
  lemma RemoveNotional(v: BookView, side: Side, i: nat, a: AccountId)
    requires i < |Queue(v, side)|
    ensures AccountNotional(Remove(v, side, i), a) == AccountNotional(v, a) - NotionalOf(a)(Queue(v, side)[i])
  {
    SumWithout(Queue(v, side), i, NotionalOf(a));
  }

  lemma NotionalCovers(v: BookView, side: Side, i: nat)
    requires i < |Queue(v, side)|
    ensures Queue(v, side)[i].price * Queue(v, side)[i].qty <= AccountNotional(v, Queue(v, side)[i].key.account)
  {
    SumCovers(Queue(v, side), i, NotionalOf(Queue(v, side)[i].key.account));
  }

  /** Unlinking on one side leaves the other side's nodes as they were. */
  lemma OtherSideUntouched(a: Nodes, b: Nodes, side: Side, chain: seq<Slot>, q: seq<Order>, i: nat, moved: Slot,
                           other: seq<Slot>, otherQ: seq<Order>)
    requires |a| <= NULL && Threaded(a, side, chain, q) && i < |chain|
    requires Threaded(a, Opposite(side), other, otherQ)
    requires SplicedOut(a, b, chain[i], moved)
    ensures Threaded(b, Opposite(side), other, otherQ)
  {
    var n := At(a, chain[i]);
    assert n.prev == NULL || At(a, n.prev).side == side by {
      assert !Starts(q, i) ==> n.prev == chain[i - 1];
    }
    assert n.next == NULL || At(a, n.next).side == side by {
      assert !Ends(q, i) ==> n.next == chain[i + 1];
    }
    forall s | s in other
      ensures Live(b, s) && SameFiling(At(a, s), At(b, s))
    {
      var j :| 0 <= j < |other| && other[j] == s;
      assert At(a, s).side == Opposite(side);
    }
    ThreadedKept(a, b, Opposite(side), other, otherQ);
  }

  lemma UnlinkSide(a: Nodes, b: Nodes, side: Side, levels: map<Price, Level>, chain: seq<Slot>, q: seq<Order>, i: nat, moved: Slot)
    requires |a| <= NULL && SideStored(a, side, levels, chain, q) && Sorted(side, q) && i < |q|
    requires SplicedOut(a, b, chain[i], moved)
    ensures q[i].price in levels && levels[q[i].price].count > 0 && levels[q[i].price].totalQty >= q[i].qty
    ensures SideStored(b, side, UnlinkLevels(levels, chain[i], At(a, chain[i])), Without(chain, i), Without(q, i))
  {
    LevelCovers(levels, q, i);
    CarriedWithout(a, b, side, chain, q, i, moved);
    LinkedWithout(a, b, side, chain, q, i, moved);
    TalliedWithout(levels, q, i, chain[i], At(a, chain[i]));
    NeighboursOf(a, chain, q, i);
    BoundedWithout(side, levels, chain, q, i, At(a, chain[i]));
  }

  lemma NeighboursOf(a: Nodes, chain: seq<Slot>, q: seq<Order>, i: nat)
    requires Linked(a, chain, q) && i < |chain|
    ensures !Ends(q, i) ==> At(a, chain[i]).next == chain[i + 1]
    ensures !Starts(q, i) ==> At(a, chain[i]).prev == chain[i - 1]
    ensures Ends(q, i) ==> At(a, chain[i]).next == NULL
    ensures Starts(q, i) ==> At(a, chain[i]).prev == NULL
  {
    assert i + 1 < |chain| ==> Live(a, chain[i + 1]);
    assert 0 < i ==> Live(a, chain[i - 1]);
  }

  lemma NotionalsWithout(accounts: map<AccountId, AccountEntry>, v: BookView, side: Side, i: nat, n: Node)
    requires NotionalsCached(accounts, v) && i < |Queue(v, side)| && Carries(n, Queue(v, side)[i], side)
    requires n.key.account in accounts && n.acctIdx < |accounts[n.key.account].slots|
    ensures accounts[n.key.account].notional >= n.price * n.qty
    ensures NotionalsCached(accounts[n.key.account := UnlinkEntry(accounts[n.key.account], n)], Remove(v, side, i))
  {
    NotionalCovers(v, side, i);
    hide Remove, AccountNotional;
    var after := accounts[n.key.account := UnlinkEntry(accounts[n.key.account], n)];
    forall a | a in after
      ensures after[a].notional == AccountNotional(Remove(v, side, i), a)
    {
      RemoveNotional(v, side, i, a);
    }
  }

  /** What unlinking needs of the caches. */
  ghost predicate Unlinkable(st: Store, side: Side, i: nat) {
    && i < |Chain(st, side)| && Live(st.nodes, Chain(st, side)[i])
    && var n := At(st.nodes, Chain(st, side)[i]);
       && n.side == side
       && n.price in Levels(st, side) && Levels(st, side)[n.price].count > 0
       && Levels(st, side)[n.price].totalQty >= n.qty
       && n.key.account in st.accounts && n.acctIdx < |st.accounts[n.key.account].slots|
       && st.accounts[n.key.account].slots[n.acctIdx] == Chain(st, side)[i]
       && st.accounts[n.key.account].notional >= n.price * n.qty
       && n.key in st.index && st.index[n.key] == Chain(st, side)[i]
  }

  /** The store after unlinking position `i` of a side, given the spliced arena. */
  ghost function Unlinked(st: Store, side: Side, i: nat, nodes: Nodes): Store
    requires Unlinkable(st, side, i)
  {
    var slot := Chain(st, side)[i];
    var n := At(st.nodes, slot);
    var ls := UnlinkLevels(Levels(st, side), slot, n);
    Store(nodes,
          if side.Buy? then ls else st.bids,
          if side.Buy? then st.asks else ls,
          st.index - {n.key},
          st.accounts[n.key.account := UnlinkEntry(st.accounts[n.key.account], n)],
          if side.Buy? then Without(st.bidChain, i) else st.bidChain,
          if side.Buy? then st.askChain else Without(st.askChain, i))
  }

  lemma StoredUnlinkable(st: Store, v: BookView, side: Side, i: nat)
    requires Stores(st, v) && i < |Queue(v, side)|
    ensures |Chain(st, side)| == |Queue(v, side)|
    ensures Unlinkable(st, side, i)
    ensures Carries(At(st.nodes, Chain(st, side)[i]), Queue(v, side)[i], side)
  {
    hide Linked, Bounded, NoSlotTwice, Filed, Sum, RosterStored;
    LevelCovers(Levels(st, side), Queue(v, side), i);
    NotionalCovers(v, side, i);
    assert Live(st.nodes, Chain(st, side)[i]);
  }

  lemma RosterNoRepeats(nodes: Nodes, accounts: map<AccountId, AccountEntry>, v: BookView, a: AccountId)
    requires RosterStored(nodes, accounts, v.roster) && Rostered(v) && a in accounts
    ensures a in v.roster && NoRepeats(v.roster[a])
  {
    assert RosterExact(v, a);
  }

  /** `nodes` is the arena of `st` after vacating position `i` of a side. */
  ghost predicate Vacates(st: Store, v: BookView, side: Side, i: nat, nodes: Nodes) {
    && i < |Queue(v, side)| && Unlinkable(st, side, i)
    && Carries(At(st.nodes, Chain(st, side)[i]), Queue(v, side)[i], side)
    && var e := st.accounts[At(st.nodes, Chain(st, side)[i]).key.account];
       |nodes| == |st.nodes| && SplicedOut(st.nodes, nodes, Chain(st, side)[i], e.slots[|e.slots| - 1])
  }

  lemma UnlinkSides(st: Store, v: BookView, side: Side, i: nat, nodes: Nodes)
    requires Stores(st, v) && QueuesWf(v) && Vacates(st, v, side, i, nodes)
    ensures var st', v' := Unlinked(st, side, i, nodes), Remove(v, side, i);
            && SideStored(nodes, Buy, st'.bids, st'.bidChain, v'.bids)
            && SideStored(nodes, Sell, st'.asks, st'.askChain, v'.asks)
  {
    hide Threaded, Tallied, Bounded, Indexed, Filed, Enrolled, RosterStored, NotionalsCached, SplicedOut, UnlinkLevels;
    hide UnlinkEntry, Dismiss, Sorted;
    var e := st.accounts[At(st.nodes, Chain(st, side)[i]).key.account];
    var moved := e.slots[|e.slots| - 1];
    UnlinkSide(st.nodes, nodes, side, Levels(st, side), Chain(st, side), Queue(v, side), i, moved);
    OtherSideUntouched(st.nodes, nodes, side, Chain(st, side), Queue(v, side), i, moved,
                       Chain(st, Opposite(side)), Queue(v, Opposite(side)));
  }

  lemma UnlinkIndex(st: Store, v: BookView, side: Side, i: nat, nodes: Nodes)
    requires Stores(st, v) && Vacates(st, v, side, i, nodes)
    ensures var st', v' := Unlinked(st, side, i, nodes), Remove(v, side, i);
            && Filed(nodes, st'.bidChain, st'.askChain) && Indexed(nodes, st'.index)
            && |st'.index| == |v'.bids| + |v'.asks|
  {
    hide SideStored, Indexed, Filed, Enrolled, RosterStored, NotionalsCached, SplicedOut, UnlinkLevels, UnlinkEntry;
    hide Dismiss;
    var slot := Chain(st, side)[i];
    var e := st.accounts[At(st.nodes, slot).key.account];
    var moved := e.slots[|e.slots| - 1];
    IndexedWithout(st.nodes, nodes, st.index, slot, moved);
    FiledWithout(st.nodes, nodes, st.bidChain, st.askChain, side, i, moved);
  }

  lemma UnlinkAccounts(st: Store, v: BookView, side: Side, i: nat, nodes: Nodes)
    requires Stores(st, v) && Rostered(v) && Vacates(st, v, side, i, nodes)
    ensures var st', v' := Unlinked(st, side, i, nodes), Remove(v, side, i);
            && Enrolled(nodes, st'.accounts) && RosterStored(nodes, st'.accounts, v'.roster)
            && NotionalsCached(st'.accounts, v')
  {
    hide SideStored, Indexed, Filed, Enrolled, RosterStored, NotionalsCached, SplicedOut, UnlinkLevels, UnlinkEntry;
    hide Rostered, Dismiss, NoRepeats, Without;
    var slot := Chain(st, side)[i];
    var n := At(st.nodes, slot);
    var e := st.accounts[n.key.account];
    var moved := e.slots[|e.slots| - 1];
    EnrolledWithout(st.nodes, nodes, st.accounts, slot);
    RosterNoRepeats(st.nodes, st.accounts, v, n.key.account);
    RosterWithout(st.nodes, nodes, st.accounts, v.roster, slot, moved);
    NotionalsWithout(st.accounts, v, side, i, n);
  }

  /** Unlinking a node keeps the invariant and is removal from the plain book. */
  lemma UnlinkStores(st: Store, v: BookView, side: Side, i: nat, nodes: Nodes)
    requires Stores(st, v) && Wf(v) && Vacates(st, v, side, i, nodes)
    ensures Stores(Unlinked(st, side, i, nodes), Remove(v, side, i))
  {
    hide SideStored, Indexed, Filed, Enrolled, RosterStored, NotionalsCached, SplicedOut, UnlinkLevels, UnlinkEntry;
    hide Rostered, QueuesWf, Remove;
    UnlinkSides(st, v, side, i, nodes);
    UnlinkIndex(st, v, side, i, nodes);
    UnlinkAccounts(st, v, side, i, nodes);
  }

  // ---- Appending one node ----

  /** `b` is `a` with a new node in `slot`, linked behind `tail` unless that is NULL. */
  ghost predicate SplicedIn(a: Nodes, b: Nodes, slot: Slot, n: Node, tail: Slot) {
    && slot < NULL
    && !Live(a, slot)
    && Live(b, slot) && At(b, slot) == n
    && n.prev == tail && n.next == NULL
    && (forall s :: s != slot ==> (Live(b, s) <==> Live(a, s)))
    && (tail != NULL ==> Live(a, tail))
    && (forall s :: Live(a, s) ==> At(b, s) == if s == tail && tail != NULL then At(a, s).(next := slot) else At(a, s))
  }

  function OldTail(levels: map<Price, Level>, p: Price): Slot {
    if p in levels then levels[p].tail else NULL
  }

  /** The chain element an order joining at `at` queues behind, or NULL if it opens a level. */
  function SlotAhead(chain: seq<Slot>, q: seq<Order>, at: nat, p: Price): Slot
    requires |chain| == |q| && at <= |q|
  {
    if 0 < at && q[at - 1].price == p then chain[at - 1] else NULL
  }

  /** Nothing behind the joining place rests at the joining price. */
  lemma JoinIsLast(side: Side, q: seq<Order>, p: Price, j: nat)
    requires Sorted(side, q) && j < |q| && q[j].price == p
    ensures j < JoinAt(side, q, p) && q[JoinAt(side, q, p) - 1].price == p
  {
    var at := JoinAt(side, q, p);
    if at <= j {
      assert false;
    }
    if j < at - 1 {
      assert !Better(side, q[at - 1].price, q[j].price);
    }
  }

  /** The cached tail of the level an order joins is the chain element just ahead of its place. */
  lemma TailIsAhead(side: Side, levels: map<Price, Level>, chain: seq<Slot>, q: seq<Order>, p: Price)
    requires Tallied(levels, q) && Bounded(levels, chain, q) && Sorted(side, q)
    ensures OldTail(levels, p) == SlotAhead(chain, q, JoinAt(side, q, p), p)
  {
    if p in levels {
      var j := SumWitness(q, CountAt(p));
      JoinIsLast(side, q, p, j);
      var at := JoinAt(side, q, p);
      assert Ends(q, at - 1);
      assert levels[p].tail == chain[at - 1];
    }
  }

  lemma CarriedWith(a: Nodes, b: Nodes, side: Side, chain: seq<Slot>, q: seq<Order>, at: nat, o: Order, slot: Slot, n: Node, tail: Slot)
    requires Carried(a, side, chain, q) && NoSlotTwice(chain) && at <= |q| && Carries(n, o, side)
    requires SplicedIn(a, b, slot, n, tail)
    ensures Carried(b, side, With(chain, at, slot), With(q, at, o)) && NoSlotTwice(With(chain, at, slot))
  {
    var c := With(chain, at, slot);
    forall j | 0 <= j < |c|
      ensures Live(b, c[j]) && Carries(At(b, c[j]), With(q, at, o)[j], side)
    {
      if j != at {
        assert c[j] == chain[if j < at then j else j - 1];
      }
    }
    forall j | 0 <= j < |chain|
      ensures chain[j] != slot
    {
      assert Live(a, chain[j]);
    }
  }

  lemma LinkedWith(a: Nodes, b: Nodes, side: Side, chain: seq<Slot>, q: seq<Order>, o: Order, slot: Slot, n: Node)
    requires |a| <= NULL && Linked(a, chain, q) && NoSlotTwice(chain) && Sorted(side, q)
    requires SplicedIn(a, b, slot, n, SlotAhead(chain, q, JoinAt(side, q, o.price), o.price))
    ensures Linked(b, With(chain, JoinAt(side, q, o.price), slot), With(q, JoinAt(side, q, o.price), o))
  {
    var at := JoinAt(side, q, o.price);
    var c, r := With(chain, at, slot), With(q, at, o);
    forall j | 0 <= j < |c|
      ensures Live(b, c[j])
      ensures j + 1 < |c| && r[j].price == r[j + 1].price ==>
                Live(b, c[j + 1]) && At(b, c[j]).next == c[j + 1] && At(b, c[j + 1]).prev == c[j]
      ensures Starts(r, j) ==> At(b, c[j]).prev == NULL
      ensures Ends(r, j) ==> At(b, c[j]).next == NULL
    {
      LinkWith(a, b, side, chain, q, o, slot, n, j);
    }
  }

  lemma LinkWith(a: Nodes, b: Nodes, side: Side, chain: seq<Slot>, q: seq<Order>, o: Order, slot: Slot, n: Node, j: nat)
    requires |a| <= NULL && Linked(a, chain, q) && NoSlotTwice(chain) && Sorted(side, q) && j <= |chain|
    requires SplicedIn(a, b, slot, n, SlotAhead(chain, q, JoinAt(side, q, o.price), o.price))
    ensures var c, r := With(chain, JoinAt(side, q, o.price), slot), With(q, JoinAt(side, q, o.price), o);
            && Live(b, c[j])
            && (j + 1 < |c| && r[j].price == r[j + 1].price ==>
                  Live(b, c[j + 1]) && At(b, c[j]).next == c[j + 1] && At(b, c[j + 1]).prev == c[j])
            && (Starts(r, j) ==> At(b, c[j]).prev == NULL)
            && (Ends(r, j) ==> At(b, c[j]).next == NULL)
  {
    var at := JoinAt(side, q, o.price);
    assert at < |q| ==> q[at].price != o.price && (at > 0 ==> q[at - 1].price != q[at].price);
    hide JoinAt, Sorted;
    var c, r := With(chain, at, slot), With(q, at, o);
    if j != at {
      assert c[j] == chain[if j < at then j else j - 1];
    }
    if j + 1 < |c| && j + 1 != at {
      assert c[j + 1] == chain[if j + 1 < at then j + 1 else j];
    }
    if j > at {
      assert j - 1 != at ==> c[j - 1] == chain[j - 2];
    } else if j > 0 {
      assert c[j - 1] == chain[j - 1];
    }
  }

  function RestLevel(l: Level, slot: Slot, qty: Qty): Level {
    Level(if l.tail == NULL then slot else l.head, slot, l.totalQty + qty, l.count + 1)
  }

  function RestLevels(levels: map<Price, Level>, p: Price, slot: Slot, qty: Qty): map<Price, Level> {
    levels[p := RestLevel(if p in levels then levels[p] else EMPTY_LEVEL, slot, qty)]
  }

  lemma TalliedWith(levels: map<Price, Level>, q: seq<Order>, at: nat, o: Order, slot: Slot)
    requires Tallied(levels, q) && at <= |q|
    ensures Tallied(RestLevels(levels, o.price, slot, o.qty), With(q, at, o))
  {
    var ls := RestLevels(levels, o.price, slot, o.qty);
    var r := With(q, at, o);
    forall p | p in ls
      ensures ls[p].count == Sum(r, CountAt(p)) && ls[p].totalQty == Sum(r, QtyAt(p))
    {
      SumWith(q, at, o, CountAt(p));
      SumWith(q, at, o, QtyAt(p));
      if p !in levels {
        AbsentLevelEmpty(levels, q, p);
      }
    }
  }

  lemma AbsentLevelEmpty(levels: map<Price, Level>, q: seq<Order>, p: Price)
    requires Tallied(levels, q) && p !in levels
    ensures Sum(q, CountAt(p)) == 0 && Sum(q, QtyAt(p)) == 0
  {
    if Sum(q, CountAt(p)) > 0 {
      var i := SumWitness(q, CountAt(p));
      assert false;
    }
    if Sum(q, QtyAt(p)) > 0 {
      var i := SumWitness(q, QtyAt(p));
      assert false;
    }
  }

  lemma BoundedWith(side: Side, levels: map<Price, Level>, chain: seq<Slot>, q: seq<Order>, o: Order, slot: Slot)
    requires Bounded(levels, chain, q) && Sorted(side, q)
    requires forall i :: 0 <= i < |chain| ==> chain[i] < NULL
    requires OldTail(levels, o.price) == SlotAhead(chain, q, JoinAt(side, q, o.price), o.price)
    ensures var at := JoinAt(side, q, o.price);
            Bounded(RestLevels(levels, o.price, slot, o.qty), With(chain, at, slot), With(q, at, o))
  {
    var at := JoinAt(side, q, o.price);
    var c, r := With(chain, at, slot), With(q, at, o);
    var ls := RestLevels(levels, o.price, slot, o.qty);
    forall j | 0 <= j < |r|
      ensures Starts(r, j) ==> r[j].price in ls && ls[r[j].price].head == c[j]
      ensures Ends(r, j) ==> r[j].price in ls && ls[r[j].price].tail == c[j]
    {
      if j != at {
        BoundKept(side, levels, chain, q, o, slot, if j < at then j else j - 1);
      }
    }
  }

  /** The other ends of levels stay put: only the joined level gets a new tail. */
  lemma BoundKept(side: Side, levels: map<Price, Level>, chain: seq<Slot>, q: seq<Order>, o: Order, slot: Slot, j: nat)
    requires Bounded(levels, chain, q) && Sorted(side, q) && j < |q|
    requires forall i :: 0 <= i < |chain| ==> chain[i] < NULL
    requires OldTail(levels, o.price) == SlotAhead(chain, q, JoinAt(side, q, o.price), o.price)
    ensures var at := JoinAt(side, q, o.price);
            var r, j' := With(q, at, o), if j < at then j else j + 1;
            var ls := RestLevels(levels, o.price, slot, o.qty);
            && (Starts(r, j') ==> q[j].price in ls && ls[q[j].price].head == chain[j])
            && (Ends(r, j') ==> q[j].price in ls && ls[q[j].price].tail == chain[j])
  {
    var at := JoinAt(side, q, o.price);
    var r, j' := With(q, at, o), if j < at then j else j + 1;
    assert r[j'] == q[j];
    if q[j].price == o.price {
      JoinIsLast(side, q, o.price, j);
      if j < at - 1 {
        Contiguous(side, q, j, at - 1);
      }
    }
    assert chain[j] < NULL;
    JoinKeepsEnds(side, q, o, j);
  }

  /** A joining order starts or ends no stretch of equal prices that was not one before, but its own. */
  lemma JoinKeepsEnds(side: Side, q: seq<Order>, o: Order, j: nat)
    requires j < |q|
    ensures var at := JoinAt(side, q, o.price);
            var r, j' := With(q, at, o), if j < at then j else j + 1;
            && (Starts(r, j') ==> Starts(q, j)) && (Ends(r, j') ==> Ends(q, j))
  {
    var at := JoinAt(side, q, o.price);
    var r, j' := With(q, at, o), if j < at then j else j + 1;
    assert at < |q| ==> Better(side, o.price, q[at].price);
    assert at > 0 ==> !Better(side, o.price, q[at - 1].price);
    assert j' > 0 && j' - 1 != at ==> r[j' - 1] == q[j - 1];
    assert j' + 1 < |r| && j' + 1 != at ==> r[j' + 1] == q[j + 1];
  }

  lemma IndexedWith(a: Nodes, b: Nodes, index: map<OrderKey, Slot>, slot: Slot, n: Node, tail: Slot)
    requires Indexed(a, index) && SplicedIn(a, b, slot, n, tail) && n.key !in index
    ensures Indexed(b, index[n.key := slot])
    ensures |index[n.key := slot]| == |index| + 1
  {
  }

  lemma FiledWith(a: Nodes, b: Nodes, bids: seq<Slot>, asks: seq<Slot>, at: nat, slot: Slot, n: Node, tail: Slot)
    requires Filed(a, bids, asks) && SplicedIn(a, b, slot, n, tail)
    requires at <= |if n.side.Buy? then bids else asks|
    ensures Filed(b, if n.side.Buy? then With(bids, at, slot) else bids, if n.side.Buy? then asks else With(asks, at, slot))
  {
    var chain := if n.side.Buy? then bids else asks;
    assert With(chain, at, slot)[at] == slot;
    forall s | Live(b, s) && At(b, s).side == n.side && s != slot
      ensures s in With(chain, at, slot)
    {
      var j :| 0 <= j < |chain| && chain[j] == s;
      assert With(chain, at, slot)[if j < at then j else j + 1] == s;
    }
  }

  function EntryOf(accounts: map<AccountId, AccountEntry>, a: AccountId): AccountEntry {
    if a in accounts then accounts[a] else NEW_ACCOUNT
  }

  function RestEntry(e: AccountEntry, slot: Slot, notional: nat): AccountEntry {
    AccountEntry(e.slots + [slot], e.notional + notional)
  }

  lemma EnrolledWith(a: Nodes, b: Nodes, accounts: map<AccountId, AccountEntry>, slot: Slot, n: Node, tail: Slot)
    requires Enrolled(a, accounts) && SplicedIn(a, b, slot, n, tail)
    requires n.acctIdx == |EntryOf(accounts, n.key.account).slots|
    ensures Enrolled(b, accounts[n.key.account := RestEntry(EntryOf(accounts, n.key.account), slot, n.price * n.qty)])
  {
  }

  lemma RosterWith(a: Nodes, b: Nodes, accounts: map<AccountId, AccountEntry>, roster: map<AccountId, seq<OrderId>>, slot: Slot, n: Node, tail: Slot)
    requires RosterStored(a, accounts, roster) && SplicedIn(a, b, slot, n, tail)
    ensures var x := n.key.account;
            RosterStored(b, accounts[x := RestEntry(EntryOf(accounts, x), slot, n.price * n.qty)],
                         roster[x := (if x in roster then roster[x] else []) + [n.key.order]])
  {
  }

  /** Resting an order adds exactly its own notional to its own account. */
  lemma RestNotional(v: BookView, side: Side, o: Order, a: AccountId)
    ensures AccountNotional(Rest(v, side, o), a) == AccountNotional(v, a) + NotionalOf(a)(o)
  {
    SumWith(Queue(v, side), JoinAt(side, Queue(v, side), o.price), o, NotionalOf(a));
  }

  lemma UnlistedNotional(q: seq<Order>, roster: map<AccountId, seq<OrderId>>, a: AccountId)
    requires Listed(q, roster) && a !in roster
    ensures Sum(q, NotionalOf(a)) == 0
  {
    if Sum(q, NotionalOf(a)) > 0 {
      var i := SumWitness(q, NotionalOf(a));
      assert false;
    }
  }

  lemma UnlistedAccount(v: BookView, a: AccountId)
    requires Listed(v.bids, v.roster) && Listed(v.asks, v.roster) && a !in v.roster
    ensures AccountNotional(v, a) == 0
  {
    UnlistedNotional(v.bids, v.roster, a);
    UnlistedNotional(v.asks, v.roster, a);
  }

  lemma NotionalsWith(accounts: map<AccountId, AccountEntry>, v: BookView, side: Side, o: Order, slot: Slot)
    requires NotionalsCached(accounts, v) && accounts.Keys == v.roster.Keys
    requires Listed(v.bids, v.roster) && Listed(v.asks, v.roster)
    ensures var a := o.key.account;
            NotionalsCached(accounts[a := RestEntry(EntryOf(accounts, a), slot, o.price * o.qty)], Rest(v, side, o))
  {
    hide Rest, Listed, AccountNotional;
    var x := o.key.account;
    var after := accounts[x := RestEntry(EntryOf(accounts, x), slot, o.price * o.qty)];
    forall a | a in after
      ensures after[a].notional == AccountNotional(Rest(v, side, o), a)
    {
      RestNotional(v, side, o, a);
      if a !in accounts {
        UnlistedAccount(v, a);
      }
    }
  }

  lemma RestSide(a: Nodes, b: Nodes, side: Side, levels: map<Price, Level>, chain: seq<Slot>, q: seq<Order>, o: Order, slot: Slot, n: Node)
    requires |a| <= NULL && SideStored(a, side, levels, chain, q) && Sorted(side, q) && Carries(n, o, side)
    requires SplicedIn(a, b, slot, n, OldTail(levels, o.price))
    ensures var at := JoinAt(side, q, o.price);
            SideStored(b, side, RestLevels(levels, o.price, slot, o.qty), With(chain, at, slot), With(q, at, o))
  {
    var at := JoinAt(side, q, o.price);
    assert forall i :: 0 <= i < |chain| ==> chain[i] < NULL by {
      assert forall i :: 0 <= i < |chain| ==> Live(a, chain[i]);
    }
    hide Carried, Linked, Tallied, Bounded, Sorted, SplicedIn;
    TailIsAhead(side, levels, chain, q, o.price);
    CarriedWith(a, b, side, chain, q, at, o, slot, n, SlotAhead(chain, q, at, o.price));
    LinkedWith(a, b, side, chain, q, o, slot, n);
    TalliedWith(levels, q, at, o, slot);
    BoundedWith(side, levels, chain, q, o, slot);
  }

  lemma OtherSideUnjoined(a: Nodes, b: Nodes, side: Side, chain: seq<Slot>, q: seq<Order>, at: nat, p: Price, slot: Slot, n: Node,
                          other: seq<Slot>, otherQ: seq<Order>)
    requires |a| <= NULL && Carried(a, side, chain, q) && at <= |q|
    requires SplicedIn(a, b, slot, n, SlotAhead(chain, q, at, p))
    requires Threaded(a, Opposite(side), other, otherQ)
    ensures Threaded(b, Opposite(side), other, otherQ)
  {
    assert 0 < at ==> At(a, chain[at - 1]).side == side;
    forall s | s in other
      ensures Live(b, s) && SameFiling(At(a, s), At(b, s))
    {
      var j :| 0 <= j < |other| && other[j] == s;
      assert At(a, s).side == Opposite(side);
    }
    ThreadedKept(a, b, Opposite(side), other, otherQ);
  }

  /** The store after an order takes `slot`, given the extended arena. */
  ghost function Rested(st: Store, side: Side, at: nat, o: Order, slot: Slot, nodes: Nodes): Store
    requires at <= |Chain(st, side)|
  {
    var ls := RestLevels(Levels(st, side), o.price, slot, o.qty);
    var a := o.key.account;
    Store(nodes,
          if side.Buy? then ls else st.bids,
          if side.Buy? then st.asks else ls,
          st.index[o.key := slot],
          st.accounts[a := RestEntry(EntryOf(st.accounts, a), slot, o.price * o.qty)],
          if side.Buy? then With(st.bidChain, at, slot) else st.bidChain,
          if side.Buy? then st.askChain else With(st.askChain, at, slot))
  }

  /** A key is indexed exactly when the plain book rests it. */
  lemma IndexIsRests(st: Store, v: BookView, k: OrderKey)
    requires Stores(st, v)
    ensures k in st.index <==> Rests(v, k)
  {
    hide Linked, Tallied, Bounded, Enrolled, RosterStored, NotionalsCached, NoSlotTwice;
    assert |st.bidChain| == |v.bids| && |st.askChain| == |v.asks|;
    if k in st.index {
      var s := st.index[k];
      var side := At(st.nodes, s).side;
      assert s in Chain(st, side) && |Chain(st, side)| == |Queue(v, side)|;
      var i: nat :| i < |Chain(st, side)| && Chain(st, side)[i] == s;
      RestsAt(v, side, i);
    }
    if Rests(v, k) {
      var side, i := RestsWhere(v, k);
      assert Live(st.nodes, Chain(st, side)[i]);
    }
  }

  /** Appending a node keeps the invariant and is resting in the plain book. */
  lemma RestStores(st: Store, v: BookView, side: Side, o: Order, slot: Slot, n: Node, nodes: Nodes)
    requires Stores(st, v) && Wf(v) && !Rests(v, o.key) && Carries(n, o, side)
    requires |Chain(st, side)| == |Queue(v, side)| && st.accounts.Keys == v.roster.Keys
    requires n.acctIdx == |EntryOf(st.accounts, o.key.account).slots|
    requires |nodes| <= NULL && SplicedIn(st.nodes, nodes, slot, n, OldTail(Levels(st, side), o.price))
    ensures Stores(Rested(st, side, JoinAt(side, Queue(v, side), o.price), o, slot, nodes), Rest(v, side, o))
  {
    hide Carried, Linked, Tallied, Bounded, Indexed, Filed, Enrolled, RosterStored, NotionalsCached, SplicedIn;
    hide Sorted, Unique, Disjoint, Positive, Uncrossed, Listed, RosterExact, NoSlotTwice, Rests;
    var tail := OldTail(Levels(st, side), o.price);
    var at := JoinAt(side, Queue(v, side), o.price);
    TailIsAhead(side, Levels(st, side), Chain(st, side), Queue(v, side), o.price);
    RestSide(st.nodes, nodes, side, Levels(st, side), Chain(st, side), Queue(v, side), o, slot, n);
    OtherSideUnjoined(st.nodes, nodes, side, Chain(st, side), Queue(v, side), at, o.price, slot, n,
                      Chain(st, Opposite(side)), Queue(v, Opposite(side)));
    IndexIsRests(st, v, o.key);
    IndexedWith(st.nodes, nodes, st.index, slot, n, tail);
    FiledWith(st.nodes, nodes, st.bidChain, st.askChain, at, slot, n, tail);
    EnrolledWith(st.nodes, nodes, st.accounts, slot, n, tail);
    RosterWith(st.nodes, nodes, st.accounts, v.roster, slot, n, tail);
    NotionalsWith(st.accounts, v, side, o, slot);
  }

  // ---- Changing one quantity in place ----

  function RequantifyLevels(levels: map<Price, Level>, n: Node, qty: Qty): map<Price, Level>
    requires n.price in levels && levels[n.price].totalQty >= n.qty
  {
    levels[n.price := levels[n.price].(totalQty := levels[n.price].totalQty - n.qty + qty)]
  }

  function RequantifyEntry(e: AccountEntry, n: Node, qty: Qty): AccountEntry
    requires e.notional >= n.price * n.qty
  {
    e.(notional := e.notional - n.price * n.qty + n.price * qty)
  }

  /** The store after the order at position `i` changes quantity: node, level total and notional move together. */
  ghost function Requantified(st: Store, side: Side, i: nat, qty: Qty): Store
    requires Unlinkable(st, side, i)
  {
    var slot := Chain(st, side)[i];
    var n := At(st.nodes, slot);
    var ls := RequantifyLevels(Levels(st, side), n, qty);
    st.(nodes := st.nodes[slot := Some(n.(qty := qty))],
        bids := if side.Buy? then ls else st.bids,
        asks := if side.Buy? then st.asks else ls,
        accounts := st.accounts[n.key.account := RequantifyEntry(st.accounts[n.key.account], n, qty)])
  }

  lemma TalliedUpdate(levels: map<Price, Level>, q: seq<Order>, i: nat, n: Node, qty: Qty)
    requires Tallied(levels, q) && i < |q| && n.price == q[i].price && n.qty == q[i].qty
    requires n.price in levels && levels[n.price].totalQty >= n.qty
    ensures Tallied(RequantifyLevels(levels, n, qty), q[i := q[i].(qty := qty)])
  {
    var o := q[i].(qty := qty);
    forall p | p in levels
      ensures Sum(q[i := o], CountAt(p)) == Sum(q, CountAt(p))
      ensures Sum(q[i := o], QtyAt(p)) == Sum(q, QtyAt(p)) - QtyAt(p)(q[i]) + QtyAt(p)(o)
    {
      SumUpdate(q, i, o, CountAt(p));
      SumUpdate(q, i, o, QtyAt(p));
    }
  }

  lemma ThreadedUpdate(a: Nodes, side: Side, chain: seq<Slot>, q: seq<Order>, i: nat, qty: Qty)
    requires Threaded(a, side, chain, q) && i < |q| && Live(a, chain[i])
    ensures Threaded(a[chain[i] := Some(At(a, chain[i]).(qty := qty))], side, chain, q[i := q[i].(qty := qty)])
  {
    var b, r := a[chain[i] := Some(At(a, chain[i]).(qty := qty))], q[i := q[i].(qty := qty)];
    assert forall j :: 0 <= j < |q| ==> r[j].price == q[j].price;
    assert Carried(b, side, chain, r);
    assert Linked(b, chain, r);
  }

  lemma BoundedUpdate(levels: map<Price, Level>, chain: seq<Slot>, q: seq<Order>, i: nat, n: Node, qty: Qty)
    requires Bounded(levels, chain, q) && i < |q|
    requires n.price in levels && levels[n.price].totalQty >= n.qty
    ensures Bounded(RequantifyLevels(levels, n, qty), chain, q[i := q[i].(qty := qty)])
  {
    var ls, r := RequantifyLevels(levels, n, qty), q[i := q[i].(qty := qty)];
    forall j | 0 <= j < |q|
      ensures Starts(r, j) ==> r[j].price in ls && ls[r[j].price].head == chain[j]
      ensures Ends(r, j) ==> r[j].price in ls && ls[r[j].price].tail == chain[j]
    {
      assert Starts(r, j) == Starts(q, j) && Ends(r, j) == Ends(q, j) && r[j].price == q[j].price;
      assert chain[j] in chain;
    }
  }

  lemma OtherSideUnchanged(a: Nodes, side: Side, slot: Slot, qty: Qty, other: seq<Slot>, otherQ: seq<Order>)
    requires Live(a, slot) && At(a, slot).side == side && Threaded(a, Opposite(side), other, otherQ)
    ensures Threaded(a[slot := Some(At(a, slot).(qty := qty))], Opposite(side), other, otherQ)
  {
    var b := a[slot := Some(At(a, slot).(qty := qty))];
    forall s | s in other
      ensures Live(b, s) && SameFiling(At(a, s), At(b, s))
    {
      var j :| 0 <= j < |other| && other[j] == s;
      assert At(a, s).side == Opposite(side);
    }
    ThreadedKept(a, b, Opposite(side), other, otherQ);
  }

  lemma NotionalsUpdate(accounts: map<AccountId, AccountEntry>, v: BookView, side: Side, i: nat, n: Node, qty: Qty)
    requires NotionalsCached(accounts, v) && i < |Queue(v, side)| && Carries(n, Queue(v, side)[i], side)
    requires n.key.account in accounts && accounts[n.key.account].notional >= n.price * n.qty
    ensures NotionalsCached(accounts[n.key.account := RequantifyEntry(accounts[n.key.account], n, qty)], SetQty(v, side, i, qty))
  {
    var q := Queue(v, side);
    var after := accounts[n.key.account := RequantifyEntry(accounts[n.key.account], n, qty)];
    forall a | a in after
      ensures after[a].notional == AccountNotional(SetQty(v, side, i, qty), a)
    {
      SumUpdate(q, i, q[i].(qty := qty), NotionalOf(a));
    }
  }

  /** The same slots are live, with the same owners, sides and account positions. */
  ghost predicate SameIdentities(a: Nodes, b: Nodes) {
    forall s :: (Live(a, s) <==> Live(b, s)) && (Live(a, s) ==>
      At(b, s).key == At(a, s).key && At(b, s).side == At(a, s).side && At(b, s).acctIdx == At(a, s).acctIdx)
  }

  lemma IndexKept(a: Nodes, b: Nodes, index: map<OrderKey, Slot>, bidChain: seq<Slot>, askChain: seq<Slot>)
    requires SameIdentities(a, b) && Indexed(a, index) && Filed(a, bidChain, askChain)
    ensures Indexed(b, index) && Filed(b, bidChain, askChain)
  {
  }

  lemma AccountsKept(a: Nodes, b: Nodes, accounts: map<AccountId, AccountEntry>, x: AccountId, e: AccountEntry, roster: map<AccountId, seq<OrderId>>)
    requires SameIdentities(a, b) && Enrolled(a, accounts) && RosterStored(a, accounts, roster)
    requires x in accounts && e.slots == accounts[x].slots
    ensures Enrolled(b, accounts[x := e]) && RosterStored(b, accounts[x := e], roster)
  {
    var after := accounts[x := e];
    assert forall y :: y in after ==> after[y].slots == accounts[y].slots;
    assert Enrolled(b, after);
  }

  lemma RequantifyStores(st: Store, v: BookView, side: Side, i: nat, qty: Qty)
    requires Stores(st, v) && i < |Queue(v, side)|
    requires Unlinkable(st, side, i) && Carries(At(st.nodes, Chain(st, side)[i]), Queue(v, side)[i], side)
    ensures Stores(Requantified(st, side, i, qty), SetQty(v, side, i, qty))
  {
    hide Threaded, Tallied, Bounded, Indexed, Filed, Enrolled, RosterStored, NotionalsCached;
    var slot := Chain(st, side)[i];
    var n := At(st.nodes, slot);
    ThreadedUpdate(st.nodes, side, Chain(st, side), Queue(v, side), i, qty);
    TalliedUpdate(Levels(st, side), Queue(v, side), i, n, qty);
    BoundedUpdate(Levels(st, side), Chain(st, side), Queue(v, side), i, n, qty);
    OtherSideUnchanged(st.nodes, side, slot, qty, Chain(st, Opposite(side)), Queue(v, Opposite(side)));
    NotionalsUpdate(st.accounts, v, side, i, n, qty);
    var nodes := st.nodes[slot := Some(n.(qty := qty))];
    IndexKept(st.nodes, nodes, st.index, st.bidChain, st.askChain);
    AccountsKept(st.nodes, nodes, st.accounts, n.key.account, RequantifyEntry(st.accounts[n.key.account], n, qty), v.roster);
  }
}
