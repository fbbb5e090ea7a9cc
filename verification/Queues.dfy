/** Price-time priority queues: sequences of resting orders, best price first, oldest first within a price. */
module Queues {
  import opened Types

  datatype Order = Order(key: OrderKey, price: Price, qty: Qty)

  /** On resting side `side`, price `p` has strictly better priority than `q`. */
  predicate Better(side: Side, p: Price, q: Price) {
    if side.Buy? then p > q else p < q
  }

  ghost predicate Sorted(side: Side, q: seq<Order>) {
    forall i, j :: 0 <= i < j < |q| ==> !Better(side, q[j].price, q[i].price)
  }

  ghost predicate HasKey(q: seq<Order>, k: OrderKey) {
    exists i :: 0 <= i < |q| && q[i].key == k
  }

  /** Position of the order with key `k`, or `|q|` if there is none. */
  function Find(q: seq<Order>, k: OrderKey): (i: nat)
    ensures i <= |q|
    ensures i < |q| ==> q[i].key == k
    ensures forall j :: 0 <= j < i ==> q[j].key != k
    ensures i < |q| <==> HasKey(q, k)
  {
    if q == [] then 0
    else if q[0].key == k then 0
    else
      assert forall j :: 0 < j < |q| ==> q[j] == q[1..][j - 1];
      1 + Find(q[1..], k)
  }

  /** Where a new order at price `p` joins: behind every order priced at least as well. */
  function JoinAt(side: Side, q: seq<Order>, p: Price): (k: nat)
    ensures k <= |q|
    ensures forall i :: 0 <= i < k ==> !Better(side, p, q[i].price)
    ensures k < |q| ==> Better(side, p, q[k].price)
  {
    if q == [] || Better(side, p, q[0].price) then 0
    else 1 + JoinAt(side, q[1..], p)
  }

  function Without<T>(q: seq<T>, i: nat): (r: seq<T>)
    requires i < |q|
    ensures |r| == |q| - 1
    ensures forall j :: 0 <= j < i ==> r[j] == q[j]
    ensures forall j :: i <= j < |r| ==> r[j] == q[j + 1]
  {
    q[..i] + q[i + 1..]
  }

  function With<T>(q: seq<T>, k: nat, o: T): (r: seq<T>)
    requires k <= |q|
    ensures |r| == |q| + 1 && r[k] == o
    ensures forall j :: 0 <= j < k ==> r[j] == q[j]
    ensures forall j :: k < j < |r| ==> r[j] == q[j - 1]
  {
    q[..k] + [o] + q[k..]
  }

  // ---- Sums of a measure over a queue ----

  function Sum(q: seq<Order>, f: Order -> nat): nat {
    if q == [] then 0 else f(q[0]) + Sum(q[1..], f)
  }

  function CountAt(p: Price): Order -> nat { (o: Order) => if o.price == p then 1 else 0 }
  function QtyAt(p: Price): Order -> nat { (o: Order) => if o.price == p then o.qty else 0 }
  function CountOf(a: AccountId): Order -> nat { (o: Order) => if o.key.account == a then 1 else 0 }
  function NotionalOf(a: AccountId): Order -> nat { (o: Order) => if o.key.account == a then o.price * o.qty else 0 }
  function ForeignTo(a: AccountId): Order -> nat { (o: Order) => if o.key.account != a then o.qty else 0 }
  function Quantity(): Order -> nat { (o: Order) => o.qty }
  function Notional(): Order -> nat { (o: Order) => o.price * o.qty }
  function One(): Order -> nat { (o: Order) => 1 }

  lemma {:induction false} SumConcat(a: seq<Order>, b: seq<Order>, f: Order -> nat)
    ensures Sum(a + b, f) == Sum(a, f) + Sum(b, f)
  {
    if a == [] {
      assert a + b == b;
    } else {
      SumConcat(a[1..], b, f);
      assert (a + b)[1..] == a[1..] + b;
    }
  }

  lemma SumSplit(q: seq<Order>, i: nat, f: Order -> nat)
    requires i <= |q|
    ensures Sum(q, f) == Sum(q[..i], f) + Sum(q[i..], f)
  {
    assert q == q[..i] + q[i..];
    SumConcat(q[..i], q[i..], f);
  }

  lemma SumWithout(q: seq<Order>, i: nat, f: Order -> nat)
    requires i < |q|
    ensures Sum(Without(q, i), f) == Sum(q, f) - f(q[i])
  {
    SumSplit(q, i, f);
    SumConcat(q[..i], q[i + 1..], f);
    assert q[i..][1..] == q[i + 1..];
  }

  lemma SumWith(q: seq<Order>, k: nat, o: Order, f: Order -> nat)
    requires k <= |q|
    ensures Sum(With(q, k, o), f) == Sum(q, f) + f(o)
  {
    SumSplit(q, k, f);
    SumConcat(q[..k] + [o], q[k..], f);
    SumConcat(q[..k], [o], f);
    assert Sum([o], f) == f(o) + Sum([o][1..], f);
  }

  lemma SumUpdate(q: seq<Order>, i: nat, o: Order, f: Order -> nat)
    requires i < |q|
    ensures Sum(q[i := o], f) == Sum(q, f) - f(q[i]) + f(o)
  {
    SumWithout(q, i, f);
    SumWith(Without(q, i), i, o, f);
    assert With(Without(q, i), i, o) == q[i := o];
  }

  /** The measure of any one order is part of the total. */
  lemma {:induction false} SumCovers(q: seq<Order>, i: nat, f: Order -> nat)
    requires i < |q|
    ensures f(q[i]) <= Sum(q, f)
  {
    SumWithout(q, i, f);
  }

  /** A positive total has a contributing order. */
  lemma {:induction false} SumWitness(q: seq<Order>, f: Order -> nat) returns (i: nat)
    requires Sum(q, f) > 0
    ensures i < |q| && f(q[i]) > 0
  {
    if f(q[0]) > 0 {
      i := 0;
    } else {
      i := SumWitness(q[1..], f);
      i := i + 1;
    }
  }

  lemma {:induction false} SumMonotone(q: seq<Order>, f: Order -> nat, g: Order -> nat)
    requires forall i :: 0 <= i < |q| ==> f(q[i]) <= g(q[i])
    ensures Sum(q, f) <= Sum(q, g)
  {
    if q != [] {
      assert forall i :: 0 <= i < |q[1..]| ==> q[1..][i] == q[i + 1];
      SumMonotone(q[1..], f, g);
    }
  }

  lemma {:induction false} SumAgree(q: seq<Order>, f: Order -> nat, g: Order -> nat)
    requires forall i :: 0 <= i < |q| ==> f(q[i]) == g(q[i])
    ensures Sum(q, f) == Sum(q, g)
  {
    SumMonotone(q, f, g);
    SumMonotone(q, g, f);
  }
}
