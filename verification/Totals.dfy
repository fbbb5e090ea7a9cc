/** Splitting a queue's total by account or by price: the parts add up to the whole. */
module Totals {
  import opened Types
  import opened Queues
  import opened BookViews

  /** The measure `f` counted only where `part` takes the value `v`. */
  function Part(f: Order -> nat, part: Order -> nat, v: nat): Order -> nat {
    (o: Order) => if part(o) == v then f(o) else 0
  }

  function AccountOf(): Order -> nat { (o: Order) => o.key.account }
  function PriceOf(): Order -> nat { (o: Order) => o.price }

  function PartTotals(q: seq<Order>, f: Order -> nat, part: Order -> nat, vs: seq<nat>): nat {
    if vs == [] then 0 else Sum(q, Part(f, part, vs[0])) + PartTotals(q, f, part, vs[1..])
  }

  lemma {:induction false} PartTotalsNone(f: Order -> nat, part: Order -> nat, vs: seq<nat>)
    ensures PartTotals([], f, part, vs) == 0
  {
    if vs != [] {
      PartTotalsNone(f, part, vs[1..]);
    }
  }

  /** Adding one order in front adds its measure to its own class and to no other. */
  lemma {:induction false} PartTotalsCons(q: seq<Order>, f: Order -> nat, part: Order -> nat, vs: seq<nat>)
    requires q != [] && NoRepeats(vs)
    ensures PartTotals(q, f, part, vs)
            == PartTotals(q[1..], f, part, vs) + if part(q[0]) in vs then f(q[0]) else 0
  {
    if vs != [] {
      PartTotalsCons(q, f, part, vs[1..]);
      assert Sum(q, Part(f, part, vs[0])) == Part(f, part, vs[0])(q[0]) + Sum(q[1..], Part(f, part, vs[0]));
      assert part(q[0]) == vs[0] ==> part(q[0]) !in vs[1..];
    }
  }

  /** Distinct classes that cover the queue partition its total. */
  lemma {:induction false} Partition(q: seq<Order>, f: Order -> nat, part: Order -> nat, vs: seq<nat>)
    requires NoRepeats(vs) && forall i :: 0 <= i < |q| ==> part(q[i]) in vs
    ensures PartTotals(q, f, part, vs) == Sum(q, f)
  {
    if q == [] {
      PartTotalsNone(f, part, vs);
    } else {
      assert forall i :: 0 <= i < |q[1..]| ==> q[1..][i] == q[i + 1];
      Partition(q[1..], f, part, vs);
      PartTotalsCons(q, f, part, vs);
    }
  }

  lemma NotionalIsPart(q: seq<Order>, a: AccountId)
    ensures Sum(q, NotionalOf(a)) == Sum(q, Part(Notional(), AccountOf(), a))
  {
    SumAgree(q, NotionalOf(a), Part(Notional(), AccountOf(), a));
  }

  lemma CountIsPart(q: seq<Order>, a: AccountId)
    ensures Sum(q, CountOf(a)) == Sum(q, Part(One(), AccountOf(), a))
  {
    SumAgree(q, CountOf(a), Part(One(), AccountOf(), a));
  }

  lemma CountAtIsPart(q: seq<Order>, p: Price)
    ensures Sum(q, CountAt(p)) == Sum(q, Part(One(), PriceOf(), p))
  {
    SumAgree(q, CountAt(p), Part(One(), PriceOf(), p));
  }

  /** A level's notional is its price times its quantity. */
  lemma {:induction false} LevelNotional(q: seq<Order>, p: Price)
    ensures p * Sum(q, QtyAt(p)) == Sum(q, Part(Notional(), PriceOf(), p))
  {
    if q != [] {
      LevelNotional(q[1..], p);
      var f := Part(Notional(), PriceOf(), p);
      assert Sum(q, f) == f(q[0]) + Sum(q[1..], f);
      assert Sum(q, QtyAt(p)) == QtyAt(p)(q[0]) + Sum(q[1..], QtyAt(p));
      assert p * (QtyAt(p)(q[0]) + Sum(q[1..], QtyAt(p))) == p * QtyAt(p)(q[0]) + p * Sum(q[1..], QtyAt(p));
    }
  }

  lemma {:induction false} SumOne(q: seq<Order>)
    ensures Sum(q, One()) == |q|
  {
    if q != [] {
      SumOne(q[1..]);
    }
  }

  /** With every price at least one, quantity never exceeds notional. */
  lemma QtyWithinNotional(q: seq<Order>)
    requires forall i :: 0 <= i < |q| ==> q[i].price > 0
    ensures Sum(q, Quantity()) <= Sum(q, Notional())
  {
    forall i | 0 <= i < |q|
      ensures Quantity()(q[i]) <= Notional()(q[i])
    {
      assert q[i].qty <= q[i].price * q[i].qty;
    }
    SumMonotone(q, Quantity(), Notional());
  }

  lemma QtyAtWithin(q: seq<Order>, p: Price)
    ensures Sum(q, QtyAt(p)) <= Sum(q, Quantity())
  {
    SumMonotone(q, QtyAt(p), Quantity());
  }
}
