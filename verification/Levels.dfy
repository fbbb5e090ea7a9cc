/** Price levels as stretches of a priority queue: what walking a price map level by level visits. */
module LevelWalks {
  import opened Types
  import opened Queues
  import opened BookViews
  import opened Matching
  import opened SortedKeys
  import opened BookStore

  /** `q[i..j]` is exactly one level. */
  ghost predicate IsLevel(q: seq<Order>, i: nat, j: nat) {
    && i < j <= |q|
    && Starts(q, i)
    && (forall k :: i <= k < j ==> q[k].price == q[i].price)
    && (j == |q| || q[j].price != q[i].price)
  }

  lemma LevelPricesHead(q: seq<Order>)
    ensures q == [] <==> LevelPrices(q) == []
    ensures q != [] ==> LevelPrices(q)[0] == q[0].price
  {
  }

  /** Skipping a whole level drops one price. */
  lemma {:induction false} LevelPricesSkip(q: seq<Order>, n: nat)
    requires 0 < n <= |q| && (forall k :: 0 <= k < n ==> q[k].price == q[0].price)
    requires n == |q| || q[n].price != q[0].price
    ensures LevelPrices(q) == [q[0].price] + LevelPrices(q[n..])
  {
    if n > 1 {
      assert q[1].price == q[0].price;
      LevelPricesSkip(q[1..], n - 1);
      assert q[1..][n - 1..] == q[n..];
    }
  }

  lemma LevelPricesNext(q: seq<Order>, i: nat, j: nat)
    requires IsLevel(q, i, j)
    ensures LevelPrices(q[i..]) == [q[i].price] + LevelPrices(q[j..])
  {
    LevelPricesSkip(q[i..], j - i);
    assert q[i..][j - i..] == q[j..];
  }

  /** The level prices are strictly worsening and are exactly the prices present. */
  lemma {:induction false} LevelPricesExact(side: Side, q: seq<Order>)
    requires Sorted(side, q)
    ensures forall i, j :: 0 <= i < j < |LevelPrices(q)| ==> Better(side, LevelPrices(q)[i], LevelPrices(q)[j])
    ensures forall p :: p in LevelPrices(q) <==> exists i :: 0 <= i < |q| && q[i].price == p
  {
    if q != [] {
      LevelPricesExact(side, q[1..]);
      var ps := LevelPrices(q[1..]);
      LevelPricesHead(q[1..]);
      assert forall i :: 0 < i < |q| ==> q[i] == q[1..][i - 1];
      forall p
        ensures p in LevelPrices(q) <==> exists i :: 0 <= i < |q| && q[i].price == p
      {
        if p in ps {
          var i :| 0 <= i < |q[1..]| && q[1..][i].price == p;
          assert q[i + 1].price == p;
        }
        if i :| 0 <= i < |q| && q[i].price == p {
          assert i > 0 ==> q[1..][i - 1].price == p;
        }
      }
      if !(|q| > 1 && q[1].price == q[0].price) {
        forall j | 0 <= j < |ps|
          ensures Better(side, q[0].price, ps[j])
        {
          assert ps[j] in ps;
          var i :| 0 <= i < |q[1..]| && q[1..][i].price == ps[j];
          assert !Better(side, q[i + 1].price, q[0].price);
          assert i > 0 ==> !Better(side, q[i + 1].price, q[1].price);
        }
      }
    }
  }

  lemma {:induction false} ReverseAt<T>(s: seq<T>)
    ensures |Reverse(s)| == |s|
    ensures forall i :: 0 <= i < |s| ==> Reverse(s)[i] == s[|s| - 1 - i]
  {
    if s != [] {
      ReverseAt(s[1..]);
    }
  }

  /** In-order traversal of the price map visits the queue's levels, ascending. */
  lemma KeysAscending(side: Side, keys: set<Price>, q: seq<Order>)
    requires Sorted(side, q)
    requires forall p :: p in keys <==> exists i :: 0 <= i < |q| && q[i].price == p
    ensures Ascending(keys) == AscendingPrices(side, q)
  {
    var ps := AscendingPrices(side, q);
    LevelPricesExact(side, q);
    ReverseAt(LevelPrices(q));
    assert forall p :: p in ps <==> p in LevelPrices(q) by {
      if side.Buy? {
        forall p
          ensures p in ps <==> p in LevelPrices(q)
        {
          ReverseMembers(LevelPrices(q), p);
        }
      }
    }
    assert keys == set p | p in ps;
    AscendingUnique(keys, ps);
  }

  lemma ReverseMembers<T>(s: seq<T>, x: T)
    ensures x in Reverse(s) <==> x in s
  {
    ReverseAt(s);
    if x in s {
      var i :| 0 <= i < |s| && s[i] == x;
      assert Reverse(s)[|s| - 1 - i] == x;
    }
  }

  lemma ReverseTwice<T>(s: seq<T>)
    ensures Reverse(Reverse(s)) == s
  {
    ReverseAt(s);
    ReverseAt(Reverse(s));
  }

  lemma TalliedKeys(levels: map<Price, Level>, q: seq<Order>)
    requires Tallied(levels, q)
    ensures forall p :: p in levels.Keys <==> exists i :: 0 <= i < |q| && q[i].price == p
  {
    forall p | p in levels
      ensures exists i :: 0 <= i < |q| && q[i].price == p
    {
      var i := SumWitness(q, CountAt(p));
      assert q[i].price == p;
    }
  }

  // ---- The orders of one level ----

  lemma {:induction false} LevelAtConcat(a: seq<Order>, b: seq<Order>, p: Price)
    ensures LevelAt(a + b, p) == LevelAt(a, p) + LevelAt(b, p)
  {
    hide LevelAtHead;
    if a == [] {
      assert a + b == b;
    } else {
      assert (a + b)[1..] == a[1..] + b && (a + b)[0] == a[0];
      LevelAtConcat(a[1..], b, p);
      var head := LevelAtHead(a[0], p);
      assert (head + LevelAt(a[1..], p)) + LevelAt(b, p) == head + (LevelAt(a[1..], p) + LevelAt(b, p));
    }
  }

  /** The cached count and total of a level are those of its orders. */
  lemma {:induction false} LevelAtSums(q: seq<Order>, p: Price)
    ensures |LevelAt(q, p)| == Sum(q, CountAt(p)) && Sum(LevelAt(q, p), Quantity()) == Sum(q, QtyAt(p))
  {
    if q != [] {
      LevelAtSums(q[1..], p);
      var l, t := LevelAt(q, p), LevelAt(q[1..], p);
      if q[0].price == p {
        assert l[1..] == t && l[0] == q[0];
      } else {
        assert l == t;
      }
    }
  }

  lemma {:induction false} LevelAtUniform(q: seq<Order>, p: Price)
    requires forall i :: 0 <= i < |q| ==> q[i].price == p
    ensures LevelAt(q, p) == q
  {
    if q != [] {
      LevelAtUniform(q[1..], p);
    }
  }

  lemma {:induction false} LevelAtNone(q: seq<Order>, p: Price)
    requires forall i :: 0 <= i < |q| ==> q[i].price != p
    ensures LevelAt(q, p) == []
  {
    if q != [] {
      LevelAtNone(q[1..], p);
    }
  }

  /** No order outside a level shares its price. */
  lemma LevelAlone(side: Side, q: seq<Order>, i: nat, j: nat, k: nat)
    requires Sorted(side, q) && IsLevel(q, i, j) && k < |q| && q[k].price == q[i].price
    ensures i <= k < j
  {
    if k < i {
      Contiguous(side, q, i, k);
    } else if j <= k {
      Contiguous(side, q, j - 1, k);
    }
  }

  lemma LevelAtMiddle(a: seq<Order>, b: seq<Order>, c: seq<Order>, p: Price)
    requires forall k :: 0 <= k < |a| ==> a[k].price != p
    requires forall k :: 0 <= k < |b| ==> b[k].price == p
    requires forall k :: 0 <= k < |c| ==> c[k].price != p
    ensures LevelAt((a + b) + c, p) == b
  {
    hide LevelAt;
    LevelAtNone(a, p);
    LevelAtUniform(b, p);
    LevelAtNone(c, p);
    LevelAtConcat(a, b, p);
    LevelAtConcat(a + b, c, p);
  }

  lemma LevelAtSlice(side: Side, q: seq<Order>, i: nat, j: nat)
    requires Sorted(side, q) && IsLevel(q, i, j)
    ensures LevelAt(q, q[i].price) == q[i..j]
  {
    hide Sorted, LevelAt, Starts;
    var p := q[i].price;
    forall k | 0 <= k < |q| && q[k].price == p
      ensures i <= k < j
    {
      LevelAlone(side, q, i, j, k);
    }
    forall k | 0 <= k < |q[j..]|
      ensures q[j..][k].price != p
    {
      assert q[j..][k] == q[j + k];
    }
    LevelAtMiddle(q[..i], q[i..j], q[j..], p);
    assert q == (q[..i] + q[i..j]) + q[j..];
  }

  /** An occupied price has a level. */
  lemma LevelOf(side: Side, q: seq<Order>, p: Price) returns (i: nat, j: nat)
    requires Sorted(side, q) && exists k :: 0 <= k < |q| && q[k].price == p
    ensures IsLevel(q, i, j) && q[i].price == p
  {
    var k :| 0 <= k < |q| && q[k].price == p;
    i := k;
    while !Starts(q, i)
      invariant 0 <= i <= k && forall x :: i <= x <= k ==> q[x].price == p
      decreases i
    {
      i := i - 1;
    }
    j := k + 1;
    while j < |q| && q[j].price == p
      invariant k < j <= |q| && forall x :: i <= x < j ==> q[x].price == p
    {
      j := j + 1;
    }
  }

  // ---- Foreign depth, level by level ----

  lemma {:induction false} DepthSplit(q: seq<Order>, t: Taker, i: nat)
    requires i <= |q| && forall k :: 0 <= k < i ==> Crosses(t.side, t.limit, q[k].price)
    ensures ForeignDepth(q, t) == Sum(q[..i], ForeignTo(t.key.account)) + ForeignDepth(q[i..], t)
  {
    if i > 0 {
      DepthSplit(q[1..], t, i - 1);
      assert q[1..][i - 1..] == q[i..];
      assert q[..i][1..] == q[1..][..i - 1];
    } else {
      assert q[0..] == q;
    }
  }
}
