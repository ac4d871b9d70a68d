/** Sums over finite sets, as SQL's SUM over the groups of a GROUP BY. */
module Sums {

  ghost function Sum<K(!new)>(s: set<K>, g: K -> real): real {
    if s == {} then 0.0 else var k :| k in s; g(k) + Sum(s - {k}, g)
  }

  /** Any element may be taken out first. */
  lemma {:induction false} SumSplit<K(!new)>(s: set<K>, g: K -> real, k: K)
    requires k in s
    ensures Sum(s, g) == g(k) + Sum(s - {k}, g)
    decreases |s|
  {
    var j :| j in s && Sum(s, g) == g(j) + Sum(s - {j}, g);
    if j != k {
      SumSplit(s - {j}, g, k);
      SumSplit(s - {k}, g, j);
      assert s - {j} - {k} == s - {k} - {j};
    }
  }

  lemma {:induction false} SumEqual<K(!new)>(s: set<K>, f: K -> real, g: K -> real)
    requires forall k :: k in s ==> f(k) == g(k)
    ensures Sum(s, f) == Sum(s, g)
    decreases |s|
  {
    if s != {} {
      var k :| k in s;
      SumSplit(s, f, k);
      SumSplit(s, g, k);
      SumEqual(s - {k}, f, g);
    }
  }

  lemma {:induction false} SumAtMost<K(!new)>(s: set<K>, f: K -> real, g: K -> real)
    requires forall k :: k in s ==> f(k) <= g(k)
    ensures Sum(s, f) <= Sum(s, g)
    decreases |s|
  {
    if s != {} {
      var k :| k in s;
      SumSplit(s, f, k);
      SumSplit(s, g, k);
      SumAtMost(s - {k}, f, g);
    }
  }

  lemma {:induction false} SumNonNegative<K(!new)>(s: set<K>, g: K -> real)
    requires forall k :: k in s ==> g(k) >= 0.0
    ensures Sum(s, g) >= 0.0
    decreases |s|
  {
    if s != {} {
      var k :| k in s;
      SumSplit(s, g, k);
      SumNonNegative(s - {k}, g);
    }
  }

  lemma {:induction false} SumZero<K(!new)>(s: set<K>, g: K -> real)
    requires forall k :: k in s ==> g(k) == 0.0
    ensures Sum(s, g) == 0.0
    decreases |s|
  {
    if s != {} {
      var k :| k in s;
      SumSplit(s, g, k);
      SumZero(s - {k}, g);
    }
  }

  lemma {:induction false} SumUnion<K(!new)>(a: set<K>, b: set<K>, g: K -> real)
    requires a !! b
    ensures Sum(a + b, g) == Sum(a, g) + Sum(b, g)
    decreases |a|
  {
    if a == {} {
      assert a + b == b;
    } else {
      var k :| k in a;
      SumSplit(a, g, k);
      SumSplit(a + b, g, k);
      assert a + b - {k} == (a - {k}) + b;
      SumUnion(a - {k}, b, g);
    }
  }

  /** The elements of `s` that `f` sends to `a`. */
  ghost function Fibre<K(!new), A(!new)>(s: set<K>, f: K -> A, a: A): set<K> {
    set k | k in s && f(k) == a
  }

  lemma OtherFibres<K(!new), A(!new)>(s: set<K>, f: K -> A, a: A, b: A)
    requires a != b
    ensures Fibre(s - Fibre(s, f, a), f, b) == Fibre(s, f, b)
  {
  }

  /** Summing by groups, then over the groups, is summing outright. */
  lemma {:induction false} SumByGroups<K(!new), A(!new)>(s: set<K>, f: K -> A, groups: set<A>, g: K -> real, h: A -> real)
    requires forall k :: k in s ==> f(k) in groups
    requires forall a :: a in groups ==> h(a) == Sum(Fibre(s, f, a), g)
    ensures Sum(groups, h) == Sum(s, g)
    decreases |groups|
  {
    if groups == {} {
      assert s == {};
    } else {
      var a :| a in groups;
      var fa := Fibre(s, f, a);
      var rest := s - fa;
      SumSplit(groups, h, a);
      forall b | b in groups - {a} ensures h(b) == Sum(Fibre(rest, f, b), g) {
        OtherFibres(s, f, a, b);
      }
      SumByGroups(rest, f, groups - {a}, g, h);
      SumUnion(fa, rest, g);
      assert fa + rest == s;
    }
  }
}
