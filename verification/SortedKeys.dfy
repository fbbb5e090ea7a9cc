/** In-order traversal of a price map: the ordered-map operations the book uses, over key sets. */
module SortedKeys {
  import opened Types

  predicate IsLeast(s: set<Price>, m: Price) {
    m in s && forall p :: p in s ==> m <= p
  }

  predicate IsGreatest(s: set<Price>, m: Price) {
    m in s && forall p :: p in s ==> p <= m
  }

  lemma {:induction false} LeastExists(s: set<Price>) returns (m: Price)
    requires s != {}
    ensures IsLeast(s, m)
    decreases |s|
  {
    var x :| x in s;
    var rest := s - {x};
    m := x;
    if rest != {} {
      var lo := LeastExists(rest);
      m := if x < lo then x else lo;
    }
    assert forall p :: p in s ==> p in rest || p == x;
  }

  lemma {:induction false} GreatestExists(s: set<Price>) returns (m: Price)
    requires s != {}
    ensures IsGreatest(s, m)
    decreases |s|
  {
    var x :| x in s;
    var rest := s - {x};
    m := x;
    if rest != {} {
      var hi := GreatestExists(rest);
      m := if x > hi then x else hi;
    }
    assert forall p :: p in s ==> p in rest || p == x;
  }

  function Least(s: set<Price>): (m: Price)
    requires s != {}
    ensures IsLeast(s, m)
  {
    assert exists m :: IsLeast(s, m) by { var m := LeastExists(s); }
    var m :| IsLeast(s, m);
    m
  }

  function Greatest(s: set<Price>): (m: Price)
    requires s != {}
    ensures IsGreatest(s, m)
  {
    assert exists m :: IsGreatest(s, m) by { var m := GreatestExists(s); }
    var m :| IsGreatest(s, m);
    m
  }

  ghost predicate Increasing(r: seq<Price>) {
    forall i, j :: 0 <= i < j < |r| ==> r[i] < r[j]
  }

  /** The keys in ascending order. */
  function Ascending(s: set<Price>): (r: seq<Price>)
    ensures Increasing(r)
    ensures forall p :: p in r <==> p in s
    decreases |s|
  {
    if s == {} then []
    else
      var m := Least(s);
      [m] + Ascending(s - {m})
  }

  /** There is one increasing sequence of a set's elements. */
  lemma {:induction false} AscendingUnique(s: set<Price>, r: seq<Price>)
    requires Increasing(r) && s == set p | p in r
    ensures Ascending(s) == r
  {
    if r != [] {
      assert r[0] in s;
      assert Least(s) == r[0];
      forall p
        ensures p in s - {r[0]} <==> p in r[1..]
      {
        TailMembers(r, p);
      }
      AscendingUnique(s - {r[0]}, r[1..]);
    }
  }

  lemma TailMembers(r: seq<Price>, p: Price)
    requires Increasing(r) && r != []
    ensures p in r[1..] <==> p in r && p != r[0]
  {
    if p in r && p != r[0] {
      var i :| 0 <= i < |r| && r[i] == p;
      assert r[1..][i - 1] == p;
    }
    if p in r[1..] {
      var i :| 0 <= i < |r| - 1 && r[1..][i] == p;
      assert r[i + 1] == p;
    }
  }

  lemma ZeroFirst(keys: set<Price>)
    requires 0 in keys
    ensures Ascending(keys) != [] && Ascending(keys)[0] == 0
  {
    assert IsLeast(keys, Least(keys));
  }

  /** Keys ascend, so a zero among them comes first. */
  lemma ZeroIsFirst(keys: set<Price>, m: nat)
    requires m < |Ascending(keys)| && m > 0
    ensures Ascending(keys)[m] > 0
  {
    assert Ascending(keys)[0] < Ascending(keys)[m];
  }
}
