/** The order of a snapshot's account rows: by first appearance in the walk over levels, bids then asks. */
module FirstSeen {
  import opened Types
  import opened Queues
  import opened BookViews
  import opened Matching

  /** The orders met walking the given levels, each from its oldest order. */
  function Walk(q: seq<Order>, prices: seq<Price>): seq<Order>
    decreases |prices|
  {
    if prices == [] then [] else LevelAt(q, prices[0]) + Walk(q, prices[1..])
  }

  /** Every resting order in the order a snapshot meets it: bids by ascending price, then asks. */
  function BookWalk(b: BookView): seq<Order> {
    Walk(b.bids, AscendingPrices(Buy, b.bids)) + Walk(b.asks, AscendingPrices(Sell, b.asks))
  }

  /** Where an account first appears, or the length of the walk. */
  function First(walk: seq<Order>, a: AccountId): (n: nat)
    ensures n <= |walk| && (n < |walk| ==> walk[n].key.account == a)
    ensures forall i :: 0 <= i < n ==> walk[i].key.account != a
  {
    if walk == [] || walk[0].key.account == a then 0 else 1 + First(walk[1..], a)
  }

  lemma {:induction false} MeetConcat(seen: seq<AccountId>, xs: seq<Order>, ys: seq<Order>)
    ensures Meet(seen, xs + ys) == Meet(Meet(seen, xs), ys)
    decreases |xs|
  {
    if xs == [] {
      assert xs + ys == ys;
    } else {
      assert (xs + ys)[1..] == xs[1..] + ys && (xs + ys)[0] == xs[0];
      var a := xs[0].key.account;
      MeetConcat(if a in seen then seen else seen + [a], xs[1..], ys);
    }
  }

  lemma {:induction false} MeetLevelsIsMeet(seen: seq<AccountId>, q: seq<Order>, prices: seq<Price>)
    ensures MeetLevels(seen, q, prices) == Meet(seen, Walk(q, prices))
    decreases |prices|
  {
    hide LevelAt;
    if prices != [] {
      MeetLevelsIsMeet(Meet(seen, LevelAt(q, prices[0])), q, prices[1..]);
      MeetConcat(seen, LevelAt(q, prices[0]), Walk(q, prices[1..]));
    }
  }

  /** `order` lists exactly the accounts of `walk`, by first appearance. */
  ghost predicate ByFirstSeen(order: seq<AccountId>, walk: seq<Order>) {
    && (forall i :: 0 <= i < |order| ==> First(walk, order[i]) < |walk|)
    && (forall i, j :: 0 <= i < j < |order| ==> First(walk, order[i]) < First(walk, order[j]))
    && (forall i :: 0 <= i < |walk| ==> walk[i].key.account in order)
  }

  lemma FirstSnoc(walk: seq<Order>, o: Order, a: AccountId)
    ensures First(walk + [o], a) == if First(walk, a) < |walk| then First(walk, a)
                                    else if o.key.account == a then |walk| else |walk| + 1
  {
    var n := First(walk + [o], a);
    assert forall i :: 0 <= i < |walk| ==> (walk + [o])[i] == walk[i];
    assert (walk + [o])[|walk|] == o;
    if First(walk, a) < n {
      assert (walk + [o])[First(walk, a)].key.account != a;
    }
  }

  lemma NotSeen(order: seq<AccountId>, walk: seq<Order>, a: AccountId)
    requires ByFirstSeen(order, walk) && a !in order
    ensures First(walk, a) == |walk|
  {
    hide First;
  }

  lemma KeptSeen(order: seq<AccountId>, walk: seq<Order>, o: Order)
    requires ByFirstSeen(order, walk)
    ensures forall i :: 0 <= i < |order| ==> First(walk + [o], order[i]) == First(walk, order[i])
  {
    hide First;
    forall i | 0 <= i < |order|
      ensures First(walk + [o], order[i]) == First(walk, order[i])
    {
      FirstSnoc(walk, o, order[i]);
    }
  }

  lemma AllSeen(order: seq<AccountId>, walk: seq<Order>, o: Order, order': seq<AccountId>)
    requires forall i :: 0 <= i < |walk| ==> walk[i].key.account in order
    requires order <= order' && o.key.account in order'
    ensures forall i :: 0 <= i < |walk + [o]| ==> (walk + [o])[i].key.account in order'
  {
    forall i | 0 <= i < |walk + [o]|
      ensures (walk + [o])[i].key.account in order'
    {
      if i < |walk| {
        assert walk[i].key.account in order;
      }
    }
  }

  lemma SeenSnoc(order: seq<AccountId>, walk: seq<Order>, o: Order)
    requires ByFirstSeen(order, walk)
    ensures ByFirstSeen(if o.key.account in order then order else order + [o.key.account], walk + [o])
  {
    hide First;
    var a := o.key.account;
    KeptSeen(order, walk, o);
    if a in order {
      AllSeen(order, walk, o, order);
    } else {
      var order' := order + [a];
      assert order'[|order|] == a;
      AllSeen(order, walk, o, order');
      NotSeen(order, walk, a);
      FirstSnoc(walk, o, a);
      assert forall i :: 0 <= i < |order| ==> order'[i] == order[i];
    }
  }

  lemma {:induction false} MeetByFirstSeen(walk: seq<Order>)
    ensures ByFirstSeen(Meet([], walk), walk)
    decreases |walk|
  {
    hide ByFirstSeen;
    if walk == [] {
      NoneSeen();
    } else {
      var n := |walk| - 1;
      MeetByFirstSeen(walk[..n]);
      assert walk == walk[..n] + [walk[n]];
      MeetConcat([], walk[..n], [walk[n]]);
      SeenSnoc(Meet([], walk[..n]), walk[..n], walk[n]);
      assert [walk[n]][1..] == [];
    }
  }

  lemma NoneSeen()
    ensures ByFirstSeen([], [])
  {
  }

  /** Account rows come in the order their accounts are first met, and every account met has one. */
  lemma AccountsInFirstSeenOrder(b: BookView)
    ensures ByFirstSeen(AccountsMet(b), BookWalk(b))
  {
    hide AscendingPrices, Walk, MeetLevels, Meet;
    var bp, ap := AscendingPrices(Buy, b.bids), AscendingPrices(Sell, b.asks);
    MeetLevelsIsMeet([], b.bids, bp);
    MeetLevelsIsMeet(Meet([], Walk(b.bids, bp)), b.asks, ap);
    MeetConcat([], Walk(b.bids, bp), Walk(b.asks, ap));
    MeetByFirstSeen(BookWalk(b));
  }
}
