/** The order book as stored: arena, linked price levels, order index, account index. */
module OrderBooks {
  import opened Types
  import opened Queues
  import opened BookViews
  import opened Matching
  import opened Arenas
  import opened BookStore
  import opened SortedKeys
  import opened LevelWalks

  // ---- Reading the store ----

  /** The chain position of a live slot. */
  lemma Locate(st: Store, v: BookView, slot: Slot) returns (i: nat)
    requires Stores(st, v) && Live(st.nodes, slot)
    ensures var side := At(st.nodes, slot).side;
            i < |Queue(v, side)| && |Chain(st, side)| == |Queue(v, side)| && Chain(st, side)[i] == slot
            && Queue(v, side)[i].key == At(st.nodes, slot).key
  {
    hide Linked, Tallied, Bounded, Enrolled, RosterStored, NotionalsCached, NoSlotTwice, Indexed;
    var side := At(st.nodes, slot).side;
    assert |st.bidChain| == |v.bids| && |st.askChain| == |v.asks|;
    assert slot in Chain(st, side);
    i :| i < |Chain(st, side)| && Chain(st, side)[i] == slot;
  }

  /** With unique keys, deleting by key is removing at the key's position. */
  lemma DeleteIsRemove(v: BookView, side: Side, i: nat)
    requires Wf(v) && i < |Queue(v, side)|
    ensures Rests(v, Queue(v, side)[i].key)
    ensures SideOf(v, Queue(v, side)[i].key) == side && Find(Queue(v, side), Queue(v, side)[i].key) == i
    ensures Delete(v, Queue(v, side)[i].key) == Remove(v, side, i)
    ensures var v' := Remove(v, side, i);
            v'.lastTrade == v.lastTrade && |v'.bids| + |v'.asks| == |v.bids| + |v.asks| - 1
  {
    hide Sorted, Positive, Uncrossed, Rostered;
    var k := Queue(v, side)[i].key;
    RestsAt(v, side, i);
    assert Find(Queue(v, side), k) == i;
    assert side.Sell? ==> !HasKey(v.bids, k);
  }

  /** Neighbours named by a node's links are live and different from it. */
  lemma LinksLive(st: Store, v: BookView, side: Side, i: nat)
    requires Stores(st, v) && i < |Queue(v, side)| && |Chain(st, side)| == |Queue(v, side)|
    requires Live(st.nodes, Chain(st, side)[i])
    ensures var n := At(st.nodes, Chain(st, side)[i]);
            && (n.prev != NULL ==> Live(st.nodes, n.prev) && n.prev != Chain(st, side)[i])
            && (n.next != NULL ==> Live(st.nodes, n.next) && n.next != Chain(st, side)[i])
  {
    hide Tallied, Bounded, Enrolled, RosterStored, NotionalsCached, Indexed, Filed;
    NeighboursOf(st.nodes, Chain(st, side), Queue(v, side), i);
  }

  /** The neighbours of a leaving node point past it. */
  function Joined(a: Nodes, n: Node): Nodes
    requires n.prev != NULL ==> Live(a, n.prev)
    requires n.next != NULL ==> Live(a, n.next)
  {
    var b := if n.prev != NULL then a[n.prev := Some(At(a, n.prev).(next := n.next))] else a;
    if n.next != NULL then b[n.next := Some(At(b, n.next).(prev := n.prev))] else b
  }

  /** The slot moved by a swap-removal learns its new position. */
  function Reseated(a: Nodes, moved: Slot, at: nat, did: bool): Nodes
    requires Live(a, moved)
  {
    if did then a[moved := Some(At(a, moved).(acctIdx := at))] else a
  }

  lemma JoinedAt(a: Nodes, n: Node, s: Slot)
    requires |a| <= NULL && (n.prev != NULL ==> Live(a, n.prev)) && (n.next != NULL ==> Live(a, n.next))
    ensures |Joined(a, n)| == |a| && (Live(Joined(a, n), s) <==> Live(a, s))
    ensures Live(a, s) ==>
              At(Joined(a, n), s) == At(a, s).(next := if s == n.prev then n.next else At(a, s).next,
                                               prev := if s == n.next then n.prev else At(a, s).prev)
  {
  }

  lemma SplicedIs(a: Nodes, slot: Slot, moved: Slot)
    requires |a| <= NULL && Live(a, slot) && Live(a, moved)
    requires var n := At(a, slot);
             && (n.prev != NULL ==> Live(a, n.prev) && n.prev != slot)
             && (n.next != NULL ==> Live(a, n.next) && n.next != slot)
    ensures var n := At(a, slot);
            && |Joined(a, n)| == |a| && Live(Joined(a, n), slot) && Live(Joined(a, n), moved)
            && var b := Reseated(Joined(a, n), moved, n.acctIdx, moved != slot);
            && |b| == |a| && Live(b, slot)
            && SplicedOut(a, b[slot := None], slot, moved)
  {
    hide Joined;
    forall s
      ensures |Joined(a, At(a, slot))| == |a| && (Live(Joined(a, At(a, slot)), s) <==> Live(a, s))
    {
      JoinedAt(a, At(a, slot), s);
    }
    forall s | Live(a, s)
      ensures var n := At(a, slot);
              At(Joined(a, n), s) == At(a, s).(next := if s == n.prev then n.next else At(a, s).next,
                                               prev := if s == n.next then n.prev else At(a, s).prev)
    {
      JoinedAt(a, At(a, slot), s);
    }
  }

  function LinkedBehind(a: Nodes, slot: Slot, tail: Slot): Nodes
    requires Live(a, slot) && (tail != NULL ==> Live(a, tail))
  {
    if tail == NULL then a
    else
      var b := a[tail := Some(At(a, tail).(next := slot))];
      b[slot := Some(At(b, slot).(prev := tail))]
  }

  lemma LinkedBehindIs(a: Nodes, b: Nodes, slot: Slot, n: Node, tail: Slot)
    requires |a| <= NULL && slot < NULL && !Live(a, slot) && Live(b, slot) && At(b, slot) == n && n.prev == n.next == NULL
    requires forall s :: s != slot ==> (Live(b, s) <==> Live(a, s))
    requires forall s :: Live(a, s) ==> At(b, s) == At(a, s)
    requires tail != NULL ==> Live(a, tail)
    ensures |LinkedBehind(b, slot, tail)| == |b|
    ensures SplicedIn(a, LinkedBehind(b, slot, tail), slot, n.(prev := tail), tail)
  {
  }

  class Book {
    var bids: map<Price, Level>
    var asks: map<Price, Level>
    const arena: Arena
    var orderIndex: map<OrderKey, Slot>
    var accounts: map<AccountId, AccountEntry>
    var lastTrade: Option<Price>
    var massCancelScratch: seq<Slot>

    ghost var bidChain: seq<Slot>
    ghost var askChain: seq<Slot>
    /** The plain book this object stores. */
    ghost var view: BookView

    ghost function Contents(): Store
      reads this, arena
    {
      Store(arena.slots, bids, asks, orderIndex, accounts, bidChain, askChain)
    }

    ghost predicate Valid()
      reads this, arena
    {
      && arena.Valid()
      && arena.Len() == |view.bids| + |view.asks|
      && Wf(view)
      && Stores(Contents(), view)
      && lastTrade == view.lastTrade
    }

    constructor ()
      ensures Valid() && fresh(arena) && arena.slots == [] && view == EMPTY
    {
      hide Wf, Stores, FreeListExact;
      bids, asks := map[], map[];
      arena := new Arena();
      orderIndex, accounts := map[], map[];
      lastTrade := None;
      massCancelScratch := [];
      bidChain, askChain := [], [];
      view := EMPTY;
      new;
      EmptyWf();
      EmptyStores();
    }

    // -- unlink, in the three blocks of its body --

    method JoinNeighbours(node: Node)
      requires arena.Valid()
      requires node.prev != NULL ==> Live(arena.slots, node.prev)
      requires node.next != NULL ==> Live(arena.slots, node.next)
      modifies arena`slots
      ensures arena.Valid()
      ensures arena.slots == Joined(old(arena.slots), node)
    {
      if node.prev != NULL {
        arena.Overwrite(node.prev, At(arena.slots, node.prev).(next := node.next));
      }
      if node.next != NULL {
        arena.Overwrite(node.next, At(arena.slots, node.next).(prev := node.prev));
      }
    }

    method LeaveLevel(slot: Slot, node: Node)
      requires var ls := if node.side.Buy? then bids else asks;
               node.price in ls && ls[node.price].count > 0 && ls[node.price].totalQty >= node.qty
      modifies this`bids, this`asks
      ensures bids == if node.side.Buy? then UnlinkLevels(old(bids), slot, node) else old(bids)
      ensures asks == if node.side.Buy? then old(asks) else UnlinkLevels(old(asks), slot, node)
    {
      var level := (if node.side.Buy? then bids else asks)[node.price];
      if level.head == slot {
        level := level.(head := node.next);
      }
      if level.tail == slot {
        level := level.(tail := node.prev);
      }
      level := level.(count := level.count - 1, totalQty := level.totalQty - node.qty);
      if node.side.Buy? {
        bids := if level.count == 0 then bids - {node.price} else bids[node.price := level];
      } else {
        asks := if level.count == 0 then asks - {node.price} else asks[node.price := level];
      }
    }

    method LeaveAccount(node: Node)
      requires arena.Valid()
      requires node.key.account in accounts
      requires var e := accounts[node.key.account];
               && node.acctIdx < |e.slots| && e.notional >= node.price * node.qty
               && Live(arena.slots, e.slots[|e.slots| - 1])
      modifies this`accounts, arena`slots
      ensures arena.Valid()
      ensures accounts == old(accounts)[node.key.account := UnlinkEntry(old(accounts)[node.key.account], node)]
      ensures var e := old(accounts)[node.key.account];
              arena.slots == Reseated(old(arena.slots), e.slots[|e.slots| - 1], node.acctIdx, node.acctIdx < |e.slots| - 1)
    {
      var entry := accounts[node.key.account];
      var slots := SwapRemove(entry.slots, node.acctIdx);
      accounts := accounts[node.key.account := AccountEntry(slots, entry.notional - node.price * node.qty)];
      if node.acctIdx < |slots| {
        var moved := slots[node.acctIdx];
        arena.Overwrite(moved, At(arena.slots, moved).(acctIdx := node.acctIdx));
      }
    }

    /** The body of `unlink`, on the stored fields alone. */
    method Detach(slot: Slot, ghost i: nat)
      requires arena.Valid() && Live(arena.slots, slot)
      requires var n := At(arena.slots, slot);
               && Unlinkable(Contents(), n.side, i) && Chain(Contents(), n.side)[i] == slot
               && (n.prev != NULL ==> Live(arena.slots, n.prev) && n.prev != slot)
               && (n.next != NULL ==> Live(arena.slots, n.next) && n.next != slot)
               && var slots := accounts[n.key.account].slots;
                  Live(arena.slots, slots[|slots| - 1]) && (slots[|slots| - 1] == slot <==> n.acctIdx == |slots| - 1)
      modifies this`bids, this`asks, this`orderIndex, this`accounts, this`bidChain, this`askChain, arena
      ensures arena.Valid() && arena.HasRoom() && arena.Len() == old(arena.Len()) - 1
      ensures |arena.slots| == |old(arena.slots)|
      ensures var n := At(old(arena.slots), slot);
              && Contents() == Unlinked(old(Contents()), n.side, i, arena.slots)
              && var slots := old(accounts)[n.key.account].slots;
                 SplicedOut(old(arena.slots), arena.slots, slot, slots[|slots| - 1])
    {
      assert |arena.slots| <= NULL;
      hide FreeListExact, UnlinkLevels, UnlinkEntry, SplicedOut, Joined, Reseated;
      var node := At(arena.slots, slot);
      ghost var slots := accounts[node.key.account].slots;
      SplicedIs(arena.slots, slot, slots[|slots| - 1]);
      JoinNeighbours(node);
      LeaveLevel(slot, node);
      orderIndex := orderIndex - {node.key};
      LeaveAccount(node);
      arena.FreeSlot(slot);
      if node.side.Buy? {
        bidChain := Without(bidChain, i);
      } else {
        askChain := Without(askChain, i);
      }
    }

    /** Take one resting order out of the arena, its level, the order index and its account's slot array. */
    method Unlink(slot: Slot)
      requires Valid() && Live(arena.slots, slot)
      modifies this`bids, this`asks, this`orderIndex, this`accounts, this`bidChain, this`askChain, this`view, arena
      ensures Valid() && arena.HasRoom() && |arena.slots| == |old(arena.slots)|
      ensures Rests(old(view), At(old(arena.slots), slot).key)
      ensures view == Delete(old(view), At(old(arena.slots), slot).key)
      ensures forall s :: Live(old(arena.slots), s) && s != slot ==>
                Live(arena.slots, s) && At(arena.slots, s).key == At(old(arena.slots), s).key
    {
      hide Wf, Stores, FreeListExact, Remove, Delete, Rests, SplicedOut, Unlinked;
      ghost var st, v := Contents(), view;
      ghost var node := At(arena.slots, slot);
      ghost var i := Locate(st, v, slot);
      StoredUnlinkable(st, v, node.side, i);
      LinksLive(st, v, node.side, i);
      DeleteIsRemove(v, node.side, i);
      RemoveWf(v, node.side, i);
      ghost var slots := accounts[node.key.account].slots;
      SlotsLive(st, v, node.key.account, |slots| - 1, slot, node.acctIdx);
      Detach(slot, i);
      view := Delete(view, node.key);
      SplicedKeys(st.nodes, arena.slots, slot, slots[|slots| - 1]);
      UnlinkStores(st, v, node.side, i, arena.slots);
    }

    // -- rest --

    /** The account half of `rest`: the entry appears with the account's first order. */
    method JoinAccount(account: AccountId, slot: Slot, notional: nat)
      modifies this`accounts
      ensures accounts == old(accounts)[account := RestEntry(EntryOf(old(accounts), account), slot, notional)]
    {
      var entry := if account in accounts then accounts[account] else NEW_ACCOUNT;
      accounts := accounts[account := AccountEntry(entry.slots + [slot], entry.notional + notional)];
    }

    /** The level half of `rest`: append at the tail, opening the level if it is new. */
    method JoinLevel(side: Side, price: Price, qty: Qty, slot: Slot) returns (oldTail: Slot)
      modifies this`bids, this`asks
      ensures oldTail == OldTail(if side.Buy? then old(bids) else old(asks), price)
      ensures bids == if side.Buy? then RestLevels(old(bids), price, slot, qty) else old(bids)
      ensures asks == if side.Buy? then old(asks) else RestLevels(old(asks), price, slot, qty)
    {
      var levels := if side.Buy? then bids else asks;
      var level := if price in levels then levels[price] else EMPTY_LEVEL;
      oldTail := level.tail;
      level := level.(tail := slot);
      if oldTail == NULL {
        level := level.(head := slot);
      }
      level := level.(count := level.count + 1, totalQty := level.totalQty + qty);
      if side.Buy? {
        bids := bids[price := level];
      } else {
        asks := asks[price := level];
      }
    }

    method LinkBehind(slot: Slot, tail: Slot)
      requires arena.Valid() && Live(arena.slots, slot) && (tail != NULL ==> Live(arena.slots, tail))
      modifies arena`slots
      ensures arena.Valid()
      ensures arena.slots == LinkedBehind(old(arena.slots), slot, tail)
    {
      if tail != NULL {
        arena.Overwrite(tail, At(arena.slots, tail).(next := slot));
        arena.Overwrite(slot, At(arena.slots, slot).(prev := tail));
      }
    }

    /** The body of `rest`, on the stored fields alone. */
    method Attach(side: Side, o: Order, ghost at: nat) returns (slot: Slot)
      requires arena.Valid() && arena.HasRoom() && at <= |Chain(Contents(), side)|
      requires var t := OldTail(Levels(Contents(), side), o.price); t != NULL ==> Live(arena.slots, t)
      modifies this`bids, this`asks, this`orderIndex, this`accounts, this`bidChain, this`askChain, arena
      ensures arena.Valid() && arena.Len() == old(arena.Len()) + 1
      ensures |arena.slots| <= NULL && |arena.slots| <= |old(arena.slots)| + 1
      ensures Contents() == Rested(old(Contents()), side, at, o, slot, arena.slots)
      ensures var t := OldTail(Levels(old(Contents()), side), o.price);
              SplicedIn(old(arena.slots), arena.slots, slot,
                        Node(o.key, o.price, o.qty, side, t, NULL, |EntryOf(old(accounts), o.key.account).slots|), t)
    {
      hide RestLevels, RestEntry, SplicedIn, LinkedBehind;
      var acctIdx := |(if o.key.account in accounts then accounts[o.key.account] else NEW_ACCOUNT).slots|;
      var node := Node(o.key, o.price, o.qty, side, NULL, NULL, acctIdx);
      slot := arena.Insert(node);
      ghost var t := OldTail(Levels(Contents(), side), o.price);
      LinkedBehindIs(old(arena.slots), arena.slots, slot, node, t);
      hide FreeListExact;
      JoinAccount(o.key.account, slot, o.price * o.qty);
      orderIndex := orderIndex[o.key := slot];
      var oldTail := JoinLevel(side, o.price, o.qty, slot);
      LinkBehind(slot, oldTail);
      if side.Buy? {
        bidChain := With(bidChain, at, slot);
      } else {
        askChain := With(askChain, at, slot);
      }
    }

    /** Insert a fresh order at the back of its price level. */
    method RestOrder(side: Side, o: Order)
      requires Valid() && arena.HasRoom() && MayRest(view, side, o)
      modifies this`bids, this`asks, this`orderIndex, this`accounts, this`bidChain, this`askChain, this`view, arena
      ensures Valid() && |arena.slots| <= |old(arena.slots)| + 1
      ensures view == BookViews.Rest(old(view), side, o)
    {
      ghost var st, v := Contents(), view;
      ghost var at := JoinAt(side, Queue(v, side), o.price);
      hide Wf, Stores, FreeListExact, MayRest, SplicedIn, Rested, BookViews.Rest;
      StoredShape(st, v, side, o.price);
      RestWf(v, side, o);
      RestShape(v, side, o);
      ghost var t := OldTail(Levels(st, side), o.price);
      var slot := Attach(side, o, at);
      view := BookViews.Rest(view, side, o);
      RestStores(st, v, side, o, slot,
                 Node(o.key, o.price, o.qty, side, t, NULL, |EntryOf(st.accounts, o.key.account).slots|), arena.slots);
    }

    // -- quantity changes in place --

    method SetLevelQty(side: Side, price: Price, total: Qty)
      requires price in (if side.Buy? then bids else asks)
      modifies this`bids, this`asks
      ensures bids == if side.Buy? then old(bids)[price := old(bids)[price].(totalQty := total)] else old(bids)
      ensures asks == if side.Buy? then old(asks) else old(asks)[price := old(asks)[price].(totalQty := total)]
    {
      if side.Buy? {
        bids := bids[price := bids[price].(totalQty := total)];
      } else {
        asks := asks[price := asks[price].(totalQty := total)];
      }
    }

    /** A partial fill: the maker stays where it is with `fillQty` less. */
    method ReduceRestingQty(slot: Slot, side: Side, price: Price, fillQty: Qty, ghost i: nat)
      requires Valid() && i < |Queue(view, side)| && |Chain(Contents(), side)| == |Queue(view, side)|
      requires Chain(Contents(), side)[i] == slot && Queue(view, side)[i].price == price
      requires 0 < fillQty < Queue(view, side)[i].qty
      modifies this`bids, this`asks, this`accounts, this`view, arena`slots
      ensures Valid() && |arena.slots| == |old(arena.slots)|
      ensures view == SetQty(old(view), side, i, Queue(old(view), side)[i].qty - fillQty)
    {
      hide Wf, Stores, FreeListExact, SetQty;
      ghost var st, v := Contents(), view;
      ghost var qty := Queue(v, side)[i].qty - fillQty;
      StoredUnlinkable(st, v, side, i);
      SetQtyWf(v, side, i, qty);
      SetQtyShape(v, side, i, qty);
      RequantifyStores(st, v, side, i, qty);

      var node := At(arena.slots, slot);
      assert node.price * node.qty - node.price * fillQty == node.price * qty;
      arena.Overwrite(slot, node.(qty := node.qty - fillQty));
      var levels := if side.Buy? then bids else asks;
      SetLevelQty(side, price, levels[price].totalQty - fillQty);
      var entry := accounts[node.key.account];
      accounts := accounts[node.key.account := entry.(notional := entry.notional - price * fillQty)];
      view := SetQty(view, side, i, qty);
      assert Contents() == Requantified(st, side, i, qty);
    }

    /** The priority-keeping arm of an amend: a new quantity, same slot, same place. */
    method AmendInPlace(slot: Slot, newQty: Qty, ghost i: nat)
      requires Valid() && Live(arena.slots, slot) && newQty > 0
      requires var side := At(arena.slots, slot).side;
               i < |Queue(view, side)| && |Chain(Contents(), side)| == |Queue(view, side)| && Chain(Contents(), side)[i] == slot
      modifies this`bids, this`asks, this`accounts, this`view, arena`slots
      ensures Valid() && |arena.slots| == |old(arena.slots)|
      ensures view == SetQty(old(view), At(old(arena.slots), slot).side, i, newQty)
    {
      hide Wf, Stores, FreeListExact, SetQty;
      var node := At(arena.slots, slot);
      ghost var st, v := Contents(), view;
      StoredUnlinkable(st, v, node.side, i);
      SetQtyWf(v, node.side, i, newQty);
      SetQtyShape(v, node.side, i, newQty);
      RequantifyStores(st, v, node.side, i, newQty);

      var oldQty := node.qty;
      arena.Overwrite(slot, node.(qty := newQty));
      var levels := if node.side.Buy? then bids else asks;
      SetLevelQty(node.side, node.price, levels[node.price].totalQty - oldQty + newQty);
      var entry := accounts[node.key.account];
      accounts := accounts[node.key.account := entry.(notional := entry.notional - node.price * oldQty + node.price * newQty)];
      view := SetQty(view, node.side, i, newQty);
      assert Contents() == Requantified(st, node.side, i, newQty);
    }

    // -- best prices --

    /** The best price of a side: highest bid, lowest ask. */
    function Best(side: Side): (p: Option<Price>)
      requires Valid()
      reads this, arena
      ensures p == if Queue(view, side) == [] then None else Some(Queue(view, side)[0].price)
    {
      BestIsHead(Contents(), view, side);
      var keys := (if side.Buy? then bids else asks).Keys;
      if keys == {} then None
      else if side.Buy? then Some(Greatest(keys)) else Some(Least(keys))
    }

    function TopOfBook(): (top: (Touch, Touch))
      requires Valid()
      reads this, arena
      ensures top == Matching.TopOfBook(view)
    {
      BestIsHead(Contents(), view, Buy);
      BestIsHead(Contents(), view, Sell);
      (if bids.Keys == {} then None else Some((Greatest(bids.Keys), bids[Greatest(bids.Keys)].totalQty)),
       if asks.Keys == {} then None else Some((Least(asks.Keys), asks[Least(asks.Keys)].totalQty)))
    }

    function AccountOpenOrderCount(a: AccountId): (n: nat)
      requires Valid()
      reads this, arena
      ensures n == |OpenOrders(view, a)|
    {
      if a in accounts then |accounts[a].slots| else 0
    }

    function GrossNotional(a: AccountId): (n: nat)
      requires Valid()
      reads this, arena
      ensures n == AccountNotional(view, a)
    {
      NotionalIs(Contents(), view, a);
      if a in accounts then accounts[a].notional else 0
    }

    function RestingOrderSnapshot(k: OrderKey): (r: Option<(Price, Qty)>)
      requires Valid()
      reads this, arena
      ensures r == if Rests(view, k) then Some((OrderOf(view, k).price, OrderOf(view, k).qty)) else None
    {
      SnapshotIs(Contents(), view, k);
      if k in orderIndex then Some((At(arena.slots, orderIndex[k]).price, At(arena.slots, orderIndex[k]).qty)) else None
    }

    // -- matching --

    method SetLastTrade(p: Price)
      requires Valid()
      modifies this`lastTrade, this`view
      ensures Valid()
      ensures view == old(view).(lastTrade := Some(p))
    {
      hide Wf, Stores, FreeListExact;
      TradedWf(view, Some(p));
      TradedStores(Contents(), view, Some(p));
      lastTrade := Some(p);
      view := view.(lastTrade := Some(p));
    }

    /** One turn of the inner loop against the maker at the head of the best opposite level. */
    method HitHead(t: Taker, qty: Qty, makerSlot: Slot) returns (remaining: Qty, events: seq<Event>)
      requires Valid() && !Stops(view, t, qty)
      requires |Chain(Contents(), Opposite(t.side))| == |Queue(view, Opposite(t.side))|
      requires makerSlot == Chain(Contents(), Opposite(t.side))[0] && Live(arena.slots, makerSlot)
      modifies this`bids, this`asks, this`orderIndex, this`accounts, this`lastTrade, this`bidChain, this`askChain, this`view, arena
      ensures Valid() && (old(arena.HasRoom()) ==> arena.HasRoom()) && |arena.slots| == |old(arena.slots)|
      ensures var h := Hit(old(view), t, qty);
              view == h.book && remaining == h.remaining && events == h.events
    {
      hide Wf, Stores, FreeListExact, Remove, SetQty, Delete, Sum;
      ghost var opp, v := Opposite(t.side), view;
      StoredUnlinkable(Contents(), v, opp, 0);
      DeleteIsRemove(v, opp, 0);
      var maker := At(arena.slots, makerSlot);
      if maker.key.account == t.key.account {
        Unlink(makerSlot);
        return qty, [Cancelled(maker.key)];
      }
      var fillQty := Min(qty, maker.qty);
      remaining := qty - fillQty;
      var fillPrice := maker.price;
      SetLastTrade(fillPrice);
      DeleteIsRemove(view, opp, 0);
      var makerResting := maker.qty - fillQty;
      events := [ Filled(t.key, t.side, fillPrice, fillQty, remaining, StateOf(remaining)),
                  Filled(maker.key, Opposite(t.side), fillPrice, fillQty, makerResting, StateOf(makerResting)),
                  Trade(fillPrice, fillQty, t.side) ];
      if fillQty == maker.qty {
        Unlink(makerSlot);
      } else {
        ReduceRestingQty(makerSlot, Opposite(t.side), fillPrice, fillQty, 0);
      }
    }

    /** Match an aggressor against the opposite side at price-time priority, self-trades prevented. */
    method Sweep(t: Taker, qty: Qty) returns (remaining: Qty, events: seq<Event>)
      requires Valid()
      modifies this`bids, this`asks, this`orderIndex, this`accounts, this`lastTrade, this`bidChain, this`askChain, this`view, arena
      ensures Valid() && (old(arena.HasRoom()) ==> arena.HasRoom()) && |arena.slots| == |old(arena.slots)|
      ensures var r := Matching.Sweep(old(view), t, qty);
              view == r.book && remaining == r.remaining && events == r.events
    {
      hide Wf, Stores, FreeListExact, Matching.Sweep, Hit, Pending, NoBetter;
      remaining, events := qty, [];
      ghost var opp := Opposite(t.side);
      PendingStart(view, t, qty);
      label levels:
      while remaining > 0
        invariant Valid() && (old(arena.HasRoom()) ==> arena.HasRoom()) && |arena.slots| == |old(arena.slots)|
        invariant Pending(old(view), t, qty, view, remaining, events)
        decreases |Queue(view, opp)|, remaining
      {
        var best := Best(Opposite(t.side));
        if best.None? || !Crosses(t.side, t.limit, best.value) {
          break;
        }
        var levelPrice := best.value;
        ghost var size, left, entered := |Queue(view, opp)|, remaining, true;
        HeadIsBest(view, opp);
        while true
          invariant Valid() && (old(arena.HasRoom()) ==> arena.HasRoom()) && |arena.slots| == |old(arena.slots)|
          invariant Pending(old(view), t, qty, view, remaining, events)
          invariant NoBetter(opp, Queue(view, opp), levelPrice)
          invariant if entered then |Queue(view, opp)| == size && remaining == left && size > 0 && Queue(view, opp)[0].price == levelPrice
                    else |Queue(view, opp)| < size || (|Queue(view, opp)| == size && remaining < left)
          decreases |Queue(view, opp)|, remaining
        {
          if remaining == 0 {
            break levels;
          }
          var levels := if t.side.Buy? then asks else bids;
          LevelHead(Contents(), view, opp, levelPrice);
          if levelPrice !in levels || levels[levelPrice].head == NULL {
            break;
          }
          ghost var v, n := view, remaining;
          var es;
          remaining, es := HitHead(t, remaining, levels[levelPrice].head);
          PendingStep(old(view), t, qty, v, n, events);
          NoBetterKept(v, t, n, levelPrice);
          events := events + es;
          entered := false;
        }
      }
      PendingDone(old(view), t, qty, view, remaining, events);
    }

    /** The self-trade-prevention walk of a post-only order. */
    method StpClear(t: Taker) returns (blocked: bool, events: seq<Event>)
      requires Valid()
      modifies this`bids, this`asks, this`orderIndex, this`accounts, this`bidChain, this`askChain, this`view, arena
      ensures Valid() && (old(arena.HasRoom()) ==> arena.HasRoom()) && |arena.slots| == |old(arena.slots)|
      ensures var c := Matching.StpClear(old(view), t);
              view == c.book && blocked == c.blocked && events == c.events
    {
      hide Wf, Stores, FreeListExact, Remove, Delete, Matching.StpClear, NoBetter, Unlinkable;
      events := [];
      ghost var opp := Opposite(t.side);
      ClearingStart(view, t);
      while true
        invariant Valid() && (old(arena.HasRoom()) ==> arena.HasRoom()) && |arena.slots| == |old(arena.slots)|
        invariant Clearing(old(view), t, view, events)
        decreases |Queue(view, opp)|
      {
        hide Clearing;
        ClearingStep(old(view), t, view, events);
        var best := Best(Opposite(t.side));
        if best.None? || !Crosses(t.side, t.limit, best.value) {
          return false, events;
        }
        var levels := if t.side.Buy? then asks else bids;
        HeadIsBest(view, opp);
        LevelHead(Contents(), view, opp, best.value);
        StoredUnlinkable(Contents(), view, opp, 0);
        DeleteIsRemove(view, opp, 0);
        var headSlot := levels[best.value].head;
        var node := At(arena.slots, headSlot);
        if node.key.account != t.key.account {
          return true, events;
        }
        Unlink(headSlot);
        events := events + [Cancelled(node.key)];
      }
    }

    // -- read-only walks --

    /**
     * Walk one level's chain, subtracting foreign quantity from `needed`; stop the instant it reaches zero.
     * The level is `q[i..j]` of its side's queue.
     */
    method LevelForeignQty(level: Level, account: AccountId, needed: Qty, ghost side: Side, ghost i: nat, ghost j: nat)
      returns (found: bool, left: Qty)
      requires Valid() && IsLevel(Queue(view, side), i, j) && level.head == Chain(Contents(), side)[i]
      ensures left == Monus(needed, Sum(Queue(view, side)[i..j], ForeignTo(account)))
      ensures found ==> left == 0
      ensures needed > 0 && left == 0 ==> found
    {
      hide Wf, Stores, FreeListExact, Sum;
      ghost var q, chain := Queue(view, side), Chain(Contents(), side);
      ChainLink(Contents(), view, side, i, j, i);
      var cursor := level.head;
      ghost var k := i;
      left := needed;
      SumNone(ForeignTo(account));
      assert q[i..i] == [];
      while cursor != NULL
        invariant i <= k <= j
        invariant cursor == if k < j then chain[k] else NULL
        invariant left == Monus(needed, Sum(q[i..k], ForeignTo(account)))
        invariant needed > 0 ==> left > 0
        decreases j - k
      {
        ChainLink(Contents(), view, side, i, j, k);
        var node := At(arena.slots, cursor);
        SumSnoc(q, i, k, ForeignTo(account));
        if node.key.account != account {
          left := left - Min(left, node.qty);
          if left == 0 {
            SumPrefix(q, i, k + 1, j, ForeignTo(account));
            return true, 0;
          }
        }
        cursor := node.next;
        k := k + 1;
      }
      if k < j {
        ChainLink(Contents(), view, side, i, j, k);
      }
      return false, left;
    }

    /** Is there enough foreign crossing depth to fill `qty` in full? */
    method IsFillable(t: Taker, qty: Qty) returns (ok: bool)
      requires Valid()
      ensures ok <==> Fillable(view, t, qty)
    {
      hide Wf, Stores, FreeListExact, Sum, LevelPrices, Ascending, Reverse, ForeignDepth, IsLevel, Scanned;
      ghost var opp := Opposite(t.side);
      ghost var q := Queue(view, opp);
      var levels := if t.side.Buy? then asks else bids;
      var keys := if t.side.Buy? then Ascending(asks.Keys) else Reverse(Ascending(bids.Keys));
      KeysBestFirst(Contents(), view, opp);
      ScannedStart(q, t, qty);
      var needed, m := qty, 0;
      ghost var i: nat := 0;
      assert keys[0..] == keys;
      while m < |keys|
        invariant m <= |keys| && Scanned(q, t, qty, keys[m..], i, needed)
      {
        ScannedHead(q, t, qty, keys[m..], i, needed);
        if !Crosses(t.side, t.limit, keys[m]) {
          break;
        }
        ghost var j := LevelFrom(Contents(), view, opp, i);
        var found, left := LevelForeignQty(levels[keys[m]], t.key.account, needed, opp, i, j);
        ScannedStep(q, t, qty, keys[m..], i, needed, j);
        assert keys[m + 1..] == keys[m..][1..];
        if found {
          ScannedEnough(q, t, qty, keys[m + 1..], j);
          return true;
        }
        needed, m, i := left, m + 1, j;
      }
      ScannedEnd(q, t, qty, keys[m..], i, needed);
      return needed == 0;
    }

    /**
     * The slots of one level, oldest first, with every check the walk makes on the way. `intact` is false where a
     * check fails and the source panics: only the check for a zero price can.
     */
    method WalkLevel(side: Side, price: Price, level: Level, ghost i: nat, ghost j: nat) returns (intact: bool, slots: seq<Slot>)
      requires Valid() && IsLevel(Queue(view, side), i, j) && Queue(view, side)[i].price == price
      requires price in Levels(Contents(), side) && level == Levels(Contents(), side)[price]
      ensures intact <==> price > 0
      ensures intact ==> |slots| == j - i
      ensures forall k :: 0 <= k < |slots| ==>
                Live(arena.slots, slots[k]) && i + k < j && At(arena.slots, slots[k]).key == Queue(view, side)[i + k].key
    {
      hide Wf, Stores, FreeListExact, Sum;
      ghost var q, chain := Queue(view, side), Chain(Contents(), side);
      LevelCaches(Contents(), view, side, price, i, j);
      var total, prevSlot, cursor := 0, NULL, level.head;
      slots := [];
      SumNone(Quantity());
      assert q[i..i] == [];
      while cursor != NULL
        invariant |slots| <= j - i && (slots != [] ==> price > 0)
        invariant cursor == if i + |slots| < j then chain[i + |slots|] else NULL
        invariant prevSlot == if slots == [] then NULL else chain[i + |slots| - 1]
        invariant total == Sum(q[i..i + |slots|], Quantity())
        invariant forall k :: 0 <= k < |slots| ==> Live(arena.slots, slots[k]) && At(arena.slots, slots[k]).key == q[i + k].key
        decreases j - i - |slots|
      {
        ChainLink(Contents(), view, side, i, j, i + |slots|);
        ChainBack(Contents(), view, side, i, j, i + |slots|);
        var node := At(arena.slots, cursor);
        if node.prev != prevSlot || node.price != price || node.side != side || node.qty == 0 || node.price == 0 {
          return false, slots;
        }
        SumSnoc(q, i, i + |slots|, Quantity());
        slots := slots + [cursor];
        total := total + node.qty;
        prevSlot := cursor;
        cursor := node.next;
      }
      if |slots| < j - i {
        ChainLink(Contents(), view, side, i, j, i + |slots|);
      }
      intact := prevSlot == level.tail && |slots| == level.count && total == level.totalQty;
    }

    // -- order entry --

    method SubmitGtc(t: Taker, qty: Qty) returns (events: seq<Event>)
      requires Valid() && arena.HasRoom()
      modifies this`bids, this`asks, this`orderIndex, this`accounts, this`lastTrade, this`bidChain, this`askChain, this`view, arena
      ensures Valid() && |arena.slots| <= |old(arena.slots)| + 1
      ensures Outcome(view, events) == Matching.SubmitGtc(old(view), t, qty)
    {
      hide Wf, Stores, FreeListExact, Rests, BookViews.Rest, Matching.Sweep;
      IndexIsRests(Contents(), view, t.key);
      if t.key in orderIndex {
        return [Rejected(t.key, DuplicateOrderId)];
      }
      RemainderMayRest(view, t, qty);
      var remaining, es := Sweep(t, qty);
      if remaining > 0 {
        RestOrder(t.side, Order(t.key, t.limit, remaining));
      }
      events := es + [Accepted(t.key, remaining)];
    }

    method SubmitIoc(t: Taker, qty: Qty) returns (events: seq<Event>)
      requires Valid()
      modifies this`bids, this`asks, this`orderIndex, this`accounts, this`lastTrade, this`bidChain, this`askChain, this`view, arena
      ensures Valid() && (old(arena.HasRoom()) ==> arena.HasRoom()) && |arena.slots| == |old(arena.slots)|
      ensures Outcome(view, events) == Matching.SubmitIoc(old(view), t, qty)
    {
      hide Wf, Stores, FreeListExact, Rests, Matching.Sweep;
      IndexIsRests(Contents(), view, t.key);
      if t.key in orderIndex {
        return [Rejected(t.key, DuplicateOrderId)];
      }
      var _, es := Sweep(t, qty);
      events := es + [Accepted(t.key, 0)];
    }

    method SubmitFok(t: Taker, qty: Qty) returns (events: seq<Event>)
      requires Valid()
      modifies this`bids, this`asks, this`orderIndex, this`accounts, this`lastTrade, this`bidChain, this`askChain, this`view, arena
      ensures Valid() && |arena.slots| <= |old(arena.slots)| + 1
      ensures Outcome(view, events) == Matching.SubmitFok(old(view), t, qty)
    {
      hide Wf, Stores, FreeListExact, Rests, Matching.Sweep, Fillable;
      IndexIsRests(Contents(), view, t.key);
      if t.key in orderIndex {
        return [Rejected(t.key, DuplicateOrderId)];
      }
      var fillable := IsFillable(t, qty);
      if !fillable {
        return [Rejected(t.key, NotFullyFillable)];
      }
      var _, es := Sweep(t, qty);
      events := es + [Accepted(t.key, 0)];
    }

    method SubmitMarket(k: OrderKey, side: Side, qty: Qty) returns (events: seq<Event>)
      requires Valid()
      modifies this`bids, this`asks, this`orderIndex, this`accounts, this`lastTrade, this`bidChain, this`askChain, this`view, arena
      ensures Valid() && |arena.slots| <= |old(arena.slots)| + 1
      ensures Outcome(view, events) == Matching.SubmitMarket(old(view), k, side, qty)
    {
      hide Wf, Stores, FreeListExact, Matching.SubmitIoc;
      events := SubmitIoc(Taker(k, side, MarketLimit(side)), qty);
    }

    method SubmitPostOnly(t: Taker, qty: Qty) returns (events: seq<Event>)
      requires Valid() && arena.HasRoom() && qty > 0
      modifies this`bids, this`asks, this`orderIndex, this`accounts, this`lastTrade, this`bidChain, this`askChain, this`view, arena
      ensures Valid() && |arena.slots| <= |old(arena.slots)| + 1
      ensures Outcome(view, events) == Matching.SubmitPostOnly(old(view), t, qty)
    {
      hide Wf, Stores, FreeListExact, Rests, BookViews.Rest, Matching.StpClear;
      IndexIsRests(Contents(), view, t.key);
      if t.key in orderIndex {
        return [Rejected(t.key, DuplicateOrderId)];
      }
      ClearedMayRest(view, t, qty);
      var blocked, es := StpClear(t);
      if blocked {
        return es + [Rejected(t.key, WouldCross)];
      }
      RestOrder(t.side, Order(t.key, t.limit, qty));
      events := es + [Accepted(t.key, qty)];
    }

    /** Amend a resting order: in place when only shrinking, otherwise unlink and re-enter as an aggressor. */
    method Modify(k: OrderKey, newPrice: Price, newQty: Qty) returns (events: seq<Event>)
      requires Valid()
      modifies this`bids, this`asks, this`orderIndex, this`accounts, this`lastTrade, this`bidChain, this`askChain, this`view, arena
      ensures Valid() && |arena.slots| <= |old(arena.slots)| + 1
      ensures Outcome(view, events) == Matching.Modify(old(view), k, newPrice, newQty)
    {
      hide Wf, Stores, FreeListExact, Rests, BookViews.Rest, Matching.Sweep, Remove, SetQty;
      if newQty == 0 {
        return [Rejected(k, ZeroQuantity)];
      }
      SnapshotIs(Contents(), view, k);
      if k !in orderIndex {
        return [Rejected(k, UnknownOrderId)];
      }
      var slot := orderIndex[k];
      var node := At(arena.slots, slot);
      if newPrice == node.price && newQty <= node.qty {
        AmendInPlace(slot, newQty, Find(Queue(view, node.side), k));
        return [Replaced(k, newQty, true)];
      }
      DeleteWf(view, k);
      Unlink(slot);
      var t := Taker(k, node.side, newPrice);
      RemainderMayRest(view, t, newQty);
      var remaining, es := Sweep(t, newQty);
      if remaining > 0 {
        RestOrder(node.side, Order(k, newPrice, remaining));
      }
      events := [Replaced(k, newQty, false)] + es;
    }

    method Cancel(k: OrderKey) returns (events: seq<Event>)
      requires Valid()
      modifies this`bids, this`asks, this`orderIndex, this`accounts, this`lastTrade, this`bidChain, this`askChain, this`view, arena
      ensures Valid() && |arena.slots| <= |old(arena.slots)| + 1
      ensures Outcome(view, events) == Matching.Cancel(old(view), k)
    {
      hide Wf, Stores, FreeListExact, Rests, Delete;
      SnapshotIs(Contents(), view, k);
      if k !in orderIndex {
        return [Rejected(k, UnknownOrderId)];
      }
      Unlink(orderIndex[k]);
      events := [Cancelled(k)];
    }

    /** Cancel every order of one account, driven by a snapshot of its slot array. */
    method MassCancelAccount(account: AccountId) returns (events: seq<Event>)
      requires Valid()
      modifies this`massCancelScratch, this`bids, this`asks, this`orderIndex, this`accounts, this`lastTrade, this`bidChain, this`askChain, this`view, arena
      ensures Valid() && |arena.slots| == |old(arena.slots)|
      ensures Outcome(view, events) == CancelAll(old(view), account)
    {
      hide Wf, Stores, FreeListExact, Rests, Delete, CancelEach, Cancelling;
      RosterIs(Contents(), view, account);
      if account !in accounts {
        CancelNone(view, account);
        return [];
      }
      massCancelScratch := accounts[account].slots;
      ghost var ids := OpenOrders(view, account);
      events := [];
      var i := 0;
      CancellingStart(view, account, ids);
      while i < |massCancelScratch|
        invariant i <= |massCancelScratch| == |ids|
        invariant Valid() && |arena.slots| == |old(arena.slots)|
        invariant massCancelScratch == old(accounts)[account].slots
        invariant forall j :: i <= j < |ids| ==>
                    Live(arena.slots, massCancelScratch[j]) && At(arena.slots, massCancelScratch[j]).key == OrderKey(account, ids[j])
        invariant Cancelling(old(view), account, ids, view, i, events)
      {
        var slot := massCancelScratch[i];
        var k := At(arena.slots, slot).key;
        CancellingStep(old(view), account, ids, view, i, events);
        Unlink(slot);
        events := events + [Cancelled(k)];
        i := i + 1;
      }
      CancellingDone(old(view), account, ids, view, events);
    }

    /** A fresh slot is to be had exactly while fewer than NULL orders rest: vacated slots are used again. */
    lemma RoomIff()
      requires Valid()
      ensures arena.HasRoom() <==> |view.bids| + |view.asks| < NULL
    {
      hide Wf, Stores;
    }

    // -- snapshot --

    /** Note every account of one level's walk at its first appearance. */
    method MeetLevel(slots: seq<Slot>, seen: set<AccountId>, order: seq<AccountId>, ghost orders: seq<Order>)
      returns (seen': set<AccountId>, order': seq<AccountId>)
      requires |slots| == |orders| && seen == Members(order)
      requires forall k :: 0 <= k < |slots| ==> Live(arena.slots, slots[k]) && At(arena.slots, slots[k]).key == orders[k].key
      ensures order' == Meet(order, orders) && seen' == Members(order')
    {
      seen', order' := seen, order;
      var k := 0;
      assert orders[0..] == orders;
      while k < |slots|
        invariant k <= |slots| && seen' == Members(order')
        invariant Meet(order, orders) == Meet(order', orders[k..])
      {
        var account := At(arena.slots, slots[k]).key.account;
        assert orders[k..][1..] == orders[k + 1..];
        if account !in seen' {
          MembersSnoc(order', account);
          seen' := seen' + {account};
          order' := order' + [account];
        }
        k := k + 1;
      }
    }

    /** One level of a snapshot: its row, and the accounts resting there noted in first-seen order. */
    method ListLevel(side: Side, price: Price, seen: set<AccountId>, order: seq<AccountId>)
      returns (intact: bool, row: Event, seen': set<AccountId>, order': seq<AccountId>)
      requires Valid() && seen == Members(order) && price in Ascending(Levels(Contents(), side).Keys)
      ensures intact <==> price > 0
      ensures var q := Queue(view, side);
              && row == SnapshotLevel(side, price, Sum(q, QtyAt(price)), Sum(q, CountAt(price)))
              && (!intact ==> row == ZeroRow(side, q))
              && (intact ==> order' == Meet(order, LevelAt(q, price)) && seen' == Members(order'))
    {
      hide Wf, Stores, FreeListExact, Ascending, Members, Meet, Sum, LevelAt, Queue, Chain;
      LevelStored(Contents(), view, side, price);
      var levels := if side.Buy? then bids else asks;
      var level := levels[price];
      row := SnapshotLevel(side, price, level.totalQty, level.count);
      ghost var i, j := LevelSpan(Contents(), view, side, price);
      var slots;
      intact, slots := WalkLevel(side, price, level, i, j);
      seen', order' := seen, order;
      if intact {
        seen', order' := MeetLevel(slots, seen, order, Queue(view, side)[i..j]);
      }
    }

    /** One side's levels in ascending price, and the accounts met on the way. */
    method SnapshotSide(side: Side, seen: set<AccountId>, order: seq<AccountId>)
      returns (intact: bool, events: seq<Event>, seen': set<AccountId>, order': seq<AccountId>, levelCount: nat)
      requires Valid() && seen == Members(order)
      ensures intact <==> PositiveQueue(Queue(view, side))
      ensures !intact ==> events == [ZeroRow(side, Queue(view, side))]
      ensures var q := Queue(view, side);
              intact ==> && events == LevelEvents(side, q, AscendingPrices(side, q))
                         && order' == MeetLevels(order, q, AscendingPrices(side, q)) && seen' == Members(order')
                         && levelCount == |AscendingPrices(side, q)|
    {
      hide Wf, Stores, FreeListExact, AscendingPrices, Ascending, Members, Meet, Listing, LevelEvents, MeetLevels, PositiveQueue;
      hide ZeroRow, Sum, LevelAt, LevelPrices, Reverse;
      ghost var q := Queue(view, side);
      var levels := if side.Buy? then bids else asks;
      KeysLadder(Contents(), view, side);
      var keys := Ascending(levels.Keys);
      KeysPositive(Contents(), view, side, keys);
      events, seen', order' := [], seen, order;
      levelCount := 0;
      ListingStart(side, q, keys, order);
      while levelCount < |keys|
        invariant levelCount <= |keys| && seen' == Members(order')
        invariant Listing(side, q, keys, order, levelCount, events, order')
        invariant forall m :: 0 <= m < levelCount ==> keys[m] > 0
        invariant levelCount == 0 ==> events == []
      {
        var price := keys[levelCount];
        ListingStep(side, q, keys, order, levelCount, events, order');
        if levelCount > 0 {
          ZeroIsFirst(levels.Keys, levelCount);
        }
        var row;
        intact, row, seen', order' := ListLevel(side, price, seen', order');
        events := events + [row];
        levelCount := levelCount + 1;
        if !intact {
          return;
        }
      }
      ListingDone(side, q, keys, order, events, order');
      intact := true;
    }

    /** Dump the book: levels, accounts in first-seen order, then the trailer. Not intact exactly if a price is zero. */
    method SnapshotBook() returns (intact: bool, events: seq<Event>)
      requires Valid()
      ensures intact <==> PricesPositive(view)
      ensures events == if intact then SnapshotEvents(view) else StallRows(view)
    {
      hide Wf, Stores, FreeListExact, AscendingPrices, Members, LevelEvents, MeetLevels, Reporting, PositiveQueue;
      MembersNone();
      var bidEvents, seen, order, bidLevels;
      intact, bidEvents, seen, order, bidLevels := SnapshotSide(Buy, {}, []);
      if !intact {
        return false, bidEvents;
      }
      var askEvents, askLevels;
      intact, askEvents, seen, order, askLevels := SnapshotSide(Sell, seen, order);
      if !intact {
        return false, bidEvents + askEvents;
      }
      var accountEvents, i := [], 0;
      ReportingStart(view, order);
      while i < |order|
        invariant i <= |order| && Reporting(view, order, i, accountEvents)
      {
        ReportingStep(view, order, i, accountEvents);
        accountEvents := accountEvents
          + [SnapshotAccount(order[i], AccountOpenOrderCount(order[i]), GrossNotional(order[i]))];
        i := i + 1;
      }
      ReportingDone(view, order, accountEvents);
      var top := TopOfBook();
      events := bidEvents + askEvents + accountEvents
        + [SnapshotSummary(top.0, top.1, lastTrade, bidLevels + askLevels, |order|)];
    }
  }

  function Members(order: seq<AccountId>): set<AccountId> {
    set a | a in order
  }

  lemma MembersNone()
    ensures Members([]) == {}
  {
  }

  lemma MembersSnoc(order: seq<AccountId>, a: AccountId)
    ensures Members(order + [a]) == Members(order) + {a}
  {
  }

  /** The checks of a level's walk: head, tail, count and total are those of its stretch of the queue. */
  lemma LevelCaches(st: Store, v: BookView, side: Side, p: Price, i: nat, j: nat)
    requires Stores(st, v) && Wf(v) && IsLevel(Queue(v, side), i, j) && Queue(v, side)[i].price == p && p in Levels(st, side)
    ensures |Chain(st, side)| == |Queue(v, side)|
    ensures var level := Levels(st, side)[p];
            && level.head == Chain(st, side)[i] && level.tail == Chain(st, side)[j - 1] && Chain(st, side)[i] != NULL
            && level.count == j - i && level.totalQty == Sum(Queue(v, side)[i..j], Quantity())
  {
    hide Rostered, Unique, Disjoint, Positive, Uncrossed, Enrolled, RosterStored, NotionalsCached, Indexed, Filed;
    hide NoSlotTwice, Linked, Sum, LevelAt;
    var q := Queue(v, side);
    assert Live(st.nodes, Chain(st, side)[i]) && Live(st.nodes, Chain(st, side)[j - 1]);
    LevelAtSlice(side, q, i, j);
    LevelAtSums(q, p);
  }

  lemma ChainBack(st: Store, v: BookView, side: Side, i: nat, j: nat, k: nat)
    requires Stores(st, v) && Wf(v) && IsLevel(Queue(v, side), i, j) && i <= k < j && |Chain(st, side)| == |Queue(v, side)|
    requires Live(st.nodes, Chain(st, side)[k])
    ensures At(st.nodes, Chain(st, side)[k]).prev == if k == i then NULL else Chain(st, side)[k - 1]
    ensures Queue(v, side)[k].qty > 0 && Queue(v, side)[k].price == Queue(v, side)[i].price
  {
    hide Tallied, Bounded, Enrolled, RosterStored, NotionalsCached, Indexed, Filed, Rostered, Sorted, Unique, Disjoint, Uncrossed;
    NeighboursOf(st.nodes, Chain(st, side), Queue(v, side), k);
  }

  /** A side's stored prices are positive exactly when its orders' prices are. */
  lemma KeysPositive(st: Store, v: BookView, side: Side, keys: seq<Price>)
    requires Stores(st, v) && Wf(v) && keys == Ascending(Levels(st, side).Keys)
    ensures (forall m :: 0 <= m < |keys| ==> keys[m] > 0) <==> PositiveQueue(Queue(v, side))
  {
    hide Threaded, Bounded, Enrolled, RosterStored, NotionalsCached, Indexed, Filed, Wf;
    TalliedKeys(Levels(st, side), Queue(v, side));
    var q := Queue(v, side);
    if forall m :: 0 <= m < |keys| ==> keys[m] > 0 {
      forall i | 0 <= i < |q|
        ensures q[i].price > 0
      {
        assert q[i].price in keys;
      }
    }
    if PositiveQueue(q) {
      forall m | 0 <= m < |keys|
        ensures keys[m] > 0
      {
        assert keys[m] in Levels(st, side);
      }
    }
  }

  /** A level's caches are the sums over its queue. */
  lemma LevelStored(st: Store, v: BookView, side: Side, p: Price)
    requires Stores(st, v) && Wf(v) && p in Ascending(Levels(st, side).Keys)
    ensures p in Levels(st, side)
    ensures Levels(st, side)[p].totalQty == Sum(Queue(v, side), QtyAt(p))
    ensures Levels(st, side)[p].count == Sum(Queue(v, side), CountAt(p))
  {
    hide Threaded, Bounded, Enrolled, RosterStored, NotionalsCached, Indexed, Filed, Wf;
  }

  /** Where a stored level sits in the queue, with its head and its orders. */
  lemma LevelSpan(st: Store, v: BookView, side: Side, p: Price) returns (i: nat, j: nat)
    requires Stores(st, v) && Wf(v) && p in Levels(st, side)
    ensures IsLevel(Queue(v, side), i, j) && |Chain(st, side)| == |Queue(v, side)| && Queue(v, side)[i].price == p
    ensures LevelAt(Queue(v, side), p) == Queue(v, side)[i..j]
  {
    var q := Queue(v, side);
    i, j := LevelRange(st, v, side, p);
    assert Starts(q, i);
    hide Wf, Stores;
    var _ := LevelFrom(st, v, side, i);
  }

  lemma LevelRange(st: Store, v: BookView, side: Side, p: Price) returns (i: nat, j: nat)
    requires Stores(st, v) && Wf(v) && p in Levels(st, side)
    ensures IsLevel(Queue(v, side), i, j) && Queue(v, side)[i].price == p
    ensures LevelAt(Queue(v, side), p) == Queue(v, side)[i..j]
  {
    hide Threaded, Bounded, Enrolled, RosterStored, NotionalsCached, Indexed, Filed, Rostered;
    hide Unique, Disjoint, Positive, Uncrossed;
    TalliedKeys(Levels(st, side), Queue(v, side));
    i, j := LevelOf(side, Queue(v, side), p);
    LevelAtSlice(side, Queue(v, side), i, j);
  }

  /** What is left of one side's listing after `n` levels. */
  ghost predicate Listing(side: Side, q: seq<Order>, keys: seq<Price>, order0: seq<AccountId>, n: nat, events: seq<Event>, order: seq<AccountId>) {
    && n <= |keys|
    && LevelEvents(side, q, keys) == events + LevelEvents(side, q, keys[n..])
    && MeetLevels(order0, q, keys) == MeetLevels(order, q, keys[n..])
  }

  lemma ListingStart(side: Side, q: seq<Order>, keys: seq<Price>, order: seq<AccountId>)
    ensures Listing(side, q, keys, order, 0, [], order)
  {
    assert keys[0..] == keys;
  }

  lemma ListingStep(side: Side, q: seq<Order>, keys: seq<Price>, order0: seq<AccountId>, n: nat, events: seq<Event>, order: seq<AccountId>)
    requires Listing(side, q, keys, order0, n, events, order) && n < |keys|
    ensures Listing(side, q, keys, order0, n + 1,
                    events + [SnapshotLevel(side, keys[n], Sum(q, QtyAt(keys[n])), Sum(q, CountAt(keys[n])))],
                    Meet(order, LevelAt(q, keys[n])))
  {
    assert keys[n..][1..] == keys[n + 1..];
  }

  lemma ListingDone(side: Side, q: seq<Order>, keys: seq<Price>, order0: seq<AccountId>, events: seq<Event>, order: seq<AccountId>)
    requires Listing(side, q, keys, order0, |keys|, events, order)
    ensures events == LevelEvents(side, q, keys) && order == MeetLevels(order0, q, keys)
  {
    assert keys[|keys|..] == [];
  }

  /** What is left of the account section after `n` accounts. */
  ghost predicate Reporting(v: BookView, order: seq<AccountId>, n: nat, events: seq<Event>) {
    n <= |order| && AccountEvents(v, order) == events + AccountEvents(v, order[n..])
  }

  lemma ReportingStart(v: BookView, order: seq<AccountId>)
    ensures Reporting(v, order, 0, [])
  {
    assert order[0..] == order;
  }

  lemma ReportingStep(v: BookView, order: seq<AccountId>, n: nat, events: seq<Event>)
    requires Reporting(v, order, n, events) && n < |order|
    ensures Reporting(v, order, n + 1, events + [SnapshotAccount(order[n], |OpenOrders(v, order[n])|, AccountNotional(v, order[n]))])
  {
    assert order[n..][1..] == order[n + 1..];
  }

  lemma ReportingDone(v: BookView, order: seq<AccountId>, events: seq<Event>)
    requires Reporting(v, order, |order|, events)
    ensures events == AccountEvents(v, order)
  {
    assert order[|order|..] == [];
  }

  /** What `rest` needs holds of the remainder of a sweep. */
  lemma RemainderMayRest(v: BookView, t: Taker, qty: Qty)
    requires Wf(v) && !Rests(v, t.key)
    ensures var r := Matching.Sweep(v, t, qty);
            r.remaining > 0 ==> MayRest(r.book, t.side, Order(t.key, t.limit, r.remaining))
  {
    hide Wf, Matching.Sweep, NoneCross;
    SweepWf(v, t, qty);
    SweepRests(v, t, qty, t.key);
  }

  lemma ClearedMayRest(v: BookView, t: Taker, qty: Qty)
    requires Wf(v) && !Rests(v, t.key) && qty > 0
    ensures var c := Matching.StpClear(v, t);
            !c.blocked ==> MayRest(c.book, t.side, Order(t.key, t.limit, qty))
  {
    hide Wf, Matching.StpClear, NoneCross;
    StpClearWf(v, t);
    StpClearRests(v, t, t.key);
  }

  /** An account's slot array read through the nodes is its roster, and no slot repeats. */
  lemma RosterIs(st: Store, v: BookView, a: AccountId)
    requires Stores(st, v) && Wf(v)
    ensures a in st.accounts <==> a in v.roster
    ensures a in st.accounts ==>
              var slots := st.accounts[a].slots;
              && |slots| == |v.roster[a]|
              && (forall j :: 0 <= j < |slots| ==> Live(st.nodes, slots[j]) && At(st.nodes, slots[j]).key == OrderKey(a, v.roster[a][j]))
              && (forall i, j :: 0 <= i < j < |slots| ==> slots[i] != slots[j])
  {
    hide Threaded, Tallied, Bounded, NotionalsCached, Indexed, Filed, Wf;
  }

  /** What is left of a mass cancel: `events` so far, then the ids from `i` on. */
  ghost predicate Cancelling(v0: BookView, a: AccountId, ids: seq<OrderId>, v: BookView, i: nat, events: seq<Event>) {
    && i <= |ids|
    && var r0, r := CancelEach(v0, a, ids), CancelEach(v, a, ids[i..]);
       r0.book == r.book && r0.events == events + r.events
  }

  lemma CancelNone(v: BookView, a: AccountId)
    requires a !in v.roster
    ensures CancelAll(v, a) == Outcome(v, [])
  {
  }

  lemma CancellingStart(v: BookView, a: AccountId, ids: seq<OrderId>)
    ensures Cancelling(v, a, ids, v, 0, [])
  {
    assert ids[0..] == ids;
  }

  lemma CancellingStep(v0: BookView, a: AccountId, ids: seq<OrderId>, v: BookView, i: nat, events: seq<Event>)
    requires Cancelling(v0, a, ids, v, i, events) && i < |ids|
    ensures Rests(v, OrderKey(a, ids[i])) ==>
              Cancelling(v0, a, ids, Delete(v, OrderKey(a, ids[i])), i + 1, events + [Cancelled(OrderKey(a, ids[i]))])
  {
    assert ids[i..][1..] == ids[i + 1..];
  }

  lemma CancellingDone(v0: BookView, a: AccountId, ids: seq<OrderId>, v: BookView, events: seq<Event>)
    requires Cancelling(v0, a, ids, v, |ids|, events)
    ensures CancelEach(v0, a, ids) == Outcome(v, events)
  {
    assert ids[|ids|..] == [];
  }

  lemma SumSnoc(q: seq<Order>, i: nat, k: nat, f: Order -> nat)
    requires i <= k < |q|
    ensures Sum(q[i..k + 1], f) == Sum(q[i..k], f) + f(q[k])
  {
    assert q[i..k + 1] == q[i..k] + [q[k]];
    SumConcat(q[i..k], [q[k]], f);
    assert Sum([q[k]], f) == f(q[k]) + Sum([q[k]][1..], f);
  }

  lemma SumPrefix(q: seq<Order>, i: nat, k: nat, j: nat, f: Order -> nat)
    requires i <= k <= j <= |q|
    ensures Sum(q[i..k], f) <= Sum(q[i..j], f)
  {
    assert q[i..j] == q[i..k] + q[k..j];
    SumConcat(q[i..k], q[k..j], f);
  }

  lemma SumSlices(q: seq<Order>, i: nat, j: nat, f: Order -> nat)
    requires i <= j <= |q|
    ensures Sum(q[..j], f) == Sum(q[..i], f) + Sum(q[i..j], f)
  {
    assert q[..j] == q[..i] + q[i..j];
    SumConcat(q[..i], q[i..j], f);
  }

  /** Following `next` inside a level runs along the chain and ends in NULL at the level's end. */
  lemma ChainLink(st: Store, v: BookView, side: Side, i: nat, j: nat, k: nat)
    requires Stores(st, v) && IsLevel(Queue(v, side), i, j) && i <= k < j
    ensures |Chain(st, side)| == |Queue(v, side)|
    ensures Live(st.nodes, Chain(st, side)[k]) && Chain(st, side)[k] != NULL
    ensures Carries(At(st.nodes, Chain(st, side)[k]), Queue(v, side)[k], side)
    ensures At(st.nodes, Chain(st, side)[k]).next == if k + 1 < j then Chain(st, side)[k + 1] else NULL
  {
    hide Tallied, Bounded, Enrolled, RosterStored, NotionalsCached, Indexed, Filed;
    NeighboursOf(st.nodes, Chain(st, side), Queue(v, side), k);
    assert Live(st.nodes, Chain(st, side)[k]);
  }

  lemma SumNone(f: Order -> nat)
    ensures Sum([], f) == 0
  {
  }

  // ---- The fillability scan: levels before position `i` are counted, `rest` are the prices to come ----

  ghost predicate Scanned(q: seq<Order>, t: Taker, qty: Qty, rest: seq<Price>, i: nat, needed: Qty) {
    && i <= |q|
    && rest == LevelPrices(q[i..])
    && (i < |q| ==> Starts(q, i))
    && (forall k :: 0 <= k < i ==> Crosses(t.side, t.limit, q[k].price))
    && needed == Monus(qty, Sum(q[..i], ForeignTo(t.key.account)))
  }

  lemma ScannedStart(q: seq<Order>, t: Taker, qty: Qty)
    ensures Scanned(q, t, qty, LevelPrices(q), 0, qty)
  {
    assert q[0..] == q && q[..0] == [];
  }

  lemma ScannedHead(q: seq<Order>, t: Taker, qty: Qty, rest: seq<Price>, i: nat, needed: Qty)
    requires Scanned(q, t, qty, rest, i, needed) && rest != []
    ensures i < |q| && Starts(q, i) && rest[0] == q[i].price
  {
    LevelPricesHead(q[i..]);
  }

  lemma ScannedStep(q: seq<Order>, t: Taker, qty: Qty, rest: seq<Price>, i: nat, needed: Qty, j: nat)
    requires Scanned(q, t, qty, rest, i, needed) && IsLevel(q, i, j) && Crosses(t.side, t.limit, q[i].price) && rest != []
    ensures Scanned(q, t, qty, rest[1..], j, Monus(needed, Sum(q[i..j], ForeignTo(t.key.account))))
  {
    LevelPricesNext(q, i, j);
    SumSlices(q, i, j, ForeignTo(t.key.account));
  }

  lemma ScannedEnough(q: seq<Order>, t: Taker, qty: Qty, rest: seq<Price>, i: nat)
    requires Scanned(q, t, qty, rest, i, 0)
    ensures ForeignDepth(q, t) >= qty
  {
    DepthSplit(q, t, i);
  }

  lemma ScannedEnd(q: seq<Order>, t: Taker, qty: Qty, rest: seq<Price>, i: nat, needed: Qty)
    requires Scanned(q, t, qty, rest, i, needed) && (rest == [] || !Crosses(t.side, t.limit, rest[0]))
    ensures needed == 0 <==> ForeignDepth(q, t) >= qty
  {
    LevelPricesHead(q[i..]);
    DepthSplit(q, t, i);
    assert ForeignDepth(q[i..], t) == 0;
  }

  lemma KeysLadder(st: Store, v: BookView, side: Side)
    requires Stores(st, v) && Wf(v)
    ensures Ascending(Levels(st, side).Keys) == AscendingPrices(side, Queue(v, side))
  {
    hide Stores, Wf;
    KeysBestFirst(st, v, side);
  }

  /** The price map's keys, best first, are the level prices of the queue. */
  lemma KeysBestFirst(st: Store, v: BookView, side: Side)
    requires Stores(st, v) && Wf(v)
    ensures Ascending(Levels(st, side).Keys) == AscendingPrices(side, Queue(v, side))
    ensures side.Sell? ==> Ascending(Levels(st, side).Keys) == LevelPrices(Queue(v, side))
    ensures side.Buy? ==> Reverse(Ascending(Levels(st, side).Keys)) == LevelPrices(Queue(v, side))
  {
    hide Threaded, Bounded, Enrolled, RosterStored, NotionalsCached, Indexed, Filed, Rostered;
    hide Unique, Disjoint, Positive, Uncrossed;
    TalliedKeys(Levels(st, side), Queue(v, side));
    KeysAscending(side, Levels(st, side).Keys, Queue(v, side));
    ReverseTwice(LevelPrices(Queue(v, side)));
  }

  /** The level starting at a given position, with its stored head. */
  lemma LevelFrom(st: Store, v: BookView, side: Side, i: nat) returns (j: nat)
    requires Stores(st, v) && Wf(v) && i < |Queue(v, side)| && Starts(Queue(v, side), i)
    ensures IsLevel(Queue(v, side), i, j)
    ensures Queue(v, side)[i].price in Levels(st, side) && |Chain(st, side)| == |Queue(v, side)|
    ensures Levels(st, side)[Queue(v, side)[i].price].head == Chain(st, side)[i]
  {
    hide Linked, NoSlotTwice, Enrolled, RosterStored, NotionalsCached, Indexed, Filed, Wf, Tallied;
    var q := Queue(v, side);
    j := i + 1;
    while j < |q| && q[j].price == q[i].price
      invariant i < j <= |q| && forall x :: i <= x < j ==> q[x].price == q[i].price
    {
      j := j + 1;
    }
    assert Live(st.nodes, Chain(st, side)[i]);
  }

  /** What is left of a self-trade-prevention walk: `events` so far, then a walk of the current book. */
  ghost predicate Clearing(v0: BookView, t: Taker, v: BookView, events: seq<Event>) {
    var c0, c := Matching.StpClear(v0, t), Matching.StpClear(v, t);
    c0.book == c.book && c0.blocked == c.blocked && c0.events == events + c.events
  }

  lemma ClearingStart(v: BookView, t: Taker)
    ensures Clearing(v, t, v, [])
  {
  }

  lemma ClearingStep(v0: BookView, t: Taker, v: BookView, events: seq<Event>)
    requires Clearing(v0, t, v, events)
    ensures var q := Queue(v, Opposite(t.side));
            if q == [] || !Crosses(t.side, t.limit, q[0].price) then Matching.StpClear(v0, t) == Cleared(v, events, false)
            else if q[0].key.account != t.key.account then Matching.StpClear(v0, t) == Cleared(v, events, true)
            else var v' := Remove(v, Opposite(t.side), 0);
                 Clearing(v0, t, v', events + [Cancelled(q[0].key)]) && |Queue(v', Opposite(t.side))| < |q|
  {
  }

  lemma TradedStores(st: Store, v: BookView, last: Option<Price>)
    requires Stores(st, v)
    ensures Stores(st, v.(lastTrade := last))
  {
    hide Threaded, Tallied, Bounded, Enrolled, RosterStored, Indexed, Filed;
  }

  /** No order of `q` is priced better than `p`. */
  ghost predicate NoBetter(side: Side, q: seq<Order>, p: Price) {
    forall i :: 0 <= i < |q| ==> !Better(side, q[i].price, p)
  }

  lemma HeadIsBest(v: BookView, side: Side)
    requires Wf(v) && Queue(v, side) != []
    ensures NoBetter(side, Queue(v, side), Queue(v, side)[0].price)
  {
    hide Rostered, Unique, Disjoint, Positive, Uncrossed;
  }

  lemma NoBetterKept(v: BookView, t: Taker, qty: Qty, p: Price)
    requires NoBetter(Opposite(t.side), Queue(v, Opposite(t.side)), p) && !Stops(v, t, qty)
    ensures NoBetter(Opposite(t.side), Queue(Hit(v, t, qty).book, Opposite(t.side)), p)
  {
  }

  /** While nothing rests at a better price, a level's head node is the head of the whole queue. */
  lemma LevelHead(st: Store, v: BookView, side: Side, p: Price)
    requires Stores(st, v) && Wf(v) && NoBetter(side, Queue(v, side), p)
    ensures |Chain(st, side)| == |Queue(v, side)|
    ensures p in Levels(st, side) <==> Queue(v, side) != [] && Queue(v, side)[0].price == p
    ensures p in Levels(st, side) ==>
              Levels(st, side)[p].head == Chain(st, side)[0] && Live(st.nodes, Chain(st, side)[0]) && Chain(st, side)[0] != NULL
  {
    hide Linked, Enrolled, RosterStored, NotionalsCached, Indexed, Filed, Rostered, NoSlotTwice;
    hide Unique, Disjoint, Positive, Uncrossed;
    var q := Queue(v, side);
    if p in Levels(st, side) {
      var j := SumWitness(q, CountAt(p));
      assert j > 0 ==> !Better(side, q[j].price, q[0].price);
      assert Starts(q, 0);
      assert Live(st.nodes, Chain(st, side)[0]);
    }
  }

  /** What is left of a sweep: `events` so far, then a sweep of the current book for the current remainder. */
  ghost predicate Pending(v0: BookView, t: Taker, qty: Qty, v: BookView, remaining: Qty, events: seq<Event>) {
    var r0, r := Matching.Sweep(v0, t, qty), Matching.Sweep(v, t, remaining);
    r0.book == r.book && r0.remaining == r.remaining && r0.events == events + r.events
  }

  lemma PendingStart(v: BookView, t: Taker, qty: Qty)
    ensures Pending(v, t, qty, v, qty, [])
  {
  }

  lemma PendingStep(v0: BookView, t: Taker, qty: Qty, v: BookView, remaining: Qty, events: seq<Event>)
    requires Pending(v0, t, qty, v, remaining, events) && !Stops(v, t, remaining)
    ensures var h := Hit(v, t, remaining);
            && Pending(v0, t, qty, h.book, h.remaining, events + h.events)
            && (|Queue(h.book, Opposite(t.side))| < |Queue(v, Opposite(t.side))|
                || (h.remaining < remaining && |Queue(h.book, Opposite(t.side))| == |Queue(v, Opposite(t.side))|))
  {
    hide Hit;
  }

  lemma PendingDone(v0: BookView, t: Taker, qty: Qty, v: BookView, remaining: Qty, events: seq<Event>)
    requires Pending(v0, t, qty, v, remaining, events) && Stops(v, t, remaining)
    ensures Matching.Sweep(v0, t, qty) == Swept(v, remaining, events)
  {
  }

  lemma SetQtyShape(v: BookView, side: Side, i: nat, qty: Qty)
    requires i < |Queue(v, side)|
    ensures var v' := SetQty(v, side, i, qty);
            v'.lastTrade == v.lastTrade && |v'.bids| == |v.bids| && |v'.asks| == |v.asks|
  {
  }

  /** The extreme key of a side's price map is the price at the head of its queue. */
  lemma BestIsHead(st: Store, v: BookView, side: Side)
    requires Stores(st, v) && Wf(v)
    ensures Levels(st, side).Keys == {} <==> Queue(v, side) == []
    ensures Queue(v, side) != [] ==>
              && Queue(v, side)[0].price in Levels(st, side)
              && Queue(v, side)[0].price == (if side.Buy? then Greatest(Levels(st, side).Keys) else Least(Levels(st, side).Keys))
              && Levels(st, side)[Queue(v, side)[0].price].totalQty == Sum(Queue(v, side), QtyAt(Queue(v, side)[0].price))
  {
    hide Threaded, Bounded, Enrolled, RosterStored, NotionalsCached, Indexed, Filed, Rostered;
    hide Unique, Disjoint, Positive, Uncrossed;
    HeadIsExtreme(side, Levels(st, side), Queue(v, side));
  }

  lemma HeadIsExtreme(side: Side, levels: map<Price, Level>, q: seq<Order>)
    requires Tallied(levels, q) && Sorted(side, q)
    ensures levels.Keys == {} <==> q == []
    ensures q != [] ==> q[0].price in levels
    ensures q != [] ==> q[0].price == (if side.Buy? then Greatest(levels.Keys) else Least(levels.Keys))
  {
    forall p | p in levels
      ensures q != [] && !Better(side, p, q[0].price)
    {
      var j := SumWitness(q, CountAt(p));
      assert j > 0 ==> !Better(side, q[j].price, q[0].price);
    }
    if q == [] {
      assert levels.Keys == {};
    } else {
      assert q[0].price in levels.Keys;
    }
  }

  lemma NotionalIs(st: Store, v: BookView, a: AccountId)
    requires Stores(st, v) && Wf(v)
    ensures AccountNotional(v, a) == if a in st.accounts then st.accounts[a].notional else 0
  {
    hide Threaded, Tallied, Bounded, Enrolled, Indexed, Filed, QueuesWf, RosterExact;
    if a !in st.accounts {
      UnlistedNotional(v.bids, v.roster, a);
      UnlistedNotional(v.asks, v.roster, a);
    }
  }

  lemma SnapshotIs(st: Store, v: BookView, k: OrderKey)
    requires Stores(st, v) && Wf(v)
    ensures k in st.index <==> Rests(v, k)
    ensures k in st.index ==>
              && Live(st.nodes, st.index[k])
              && Carries(At(st.nodes, st.index[k]), OrderOf(v, k), SideOf(v, k))
              && var i := Find(Queue(v, SideOf(v, k)), k);
                 i < |Queue(v, SideOf(v, k))| && |Chain(st, SideOf(v, k))| == |Queue(v, SideOf(v, k))|
                 && Chain(st, SideOf(v, k))[i] == st.index[k]
  {
    IndexIsRests(st, v, k);
    if k in st.index {
      IndexedLive(st, v, k);
      hide Stores, Wf;
      var slot := st.index[k];
      var i := Locate(st, v, slot);
      var side := At(st.nodes, slot).side;
      StoredUnlinkable(st, v, side, i);
      DeleteIsRemove(v, side, i);
    }
  }

  lemma IndexedLive(st: Store, v: BookView, k: OrderKey)
    requires Stores(st, v) && k in st.index
    ensures Live(st.nodes, st.index[k]) && At(st.nodes, st.index[k]).key == k
  {
    hide Threaded, Tallied, Bounded, Enrolled, RosterStored, NotionalsCached, Filed;
  }

  /** The parts of the invariant that resting reads. */
  lemma StoredShape(st: Store, v: BookView, side: Side, p: Price)
    requires Stores(st, v) && Wf(v)
    ensures |Chain(st, side)| == |Queue(v, side)| && st.accounts.Keys == v.roster.Keys && |st.nodes| <= NULL
    ensures OldTail(Levels(st, side), p) != NULL ==> Live(st.nodes, OldTail(Levels(st, side), p))
  {
    hide Linked, Enrolled, NotionalsCached, Indexed, Filed, NoSlotTwice, Rostered;
    hide Unique, Disjoint, Positive, Uncrossed;
    TailIsAhead(side, Levels(st, side), Chain(st, side), Queue(v, side), p);
  }

  lemma RestShape(v: BookView, side: Side, o: Order)
    ensures var v' := BookViews.Rest(v, side, o);
            v'.lastTrade == v.lastTrade && |v'.bids| + |v'.asks| == |v.bids| + |v.asks| + 1
    ensures MayRest(v, side, o) ==> !Rests(v, o.key)
  {
  }

  lemma SplicedKeys(a: Nodes, b: Nodes, slot: Slot, moved: Slot)
    requires SplicedOut(a, b, slot, moved)
    ensures forall s :: Live(a, s) && s != slot ==> Live(b, s) && At(b, s).key == At(a, s).key
  {
  }

  lemma SlotsLive(st: Store, v: BookView, a: AccountId, j: nat, slot: Slot, at: nat)
    requires Stores(st, v) && a in st.accounts && j < |st.accounts[a].slots| && at < |st.accounts[a].slots|
    requires st.accounts[a].slots[at] == slot
    ensures |st.nodes| <= NULL && Live(st.nodes, st.accounts[a].slots[j]) && (st.accounts[a].slots[j] == slot <==> at == j)
  {
    hide Threaded, Tallied, Bounded, RosterStored, NotionalsCached, Indexed, Filed;
  }
}
