/** Sums of naturals over finite sets, and division rounded up. */
module Sums {
  ghost function Sum<T(!new)>(s: set<T>, f: T -> nat): nat {
    if s == {} then 0
    else
      var x :| x in s;
      f(x) + Sum(s - {x}, f)
  }

  lemma {:induction false} SumRemove<T(!new)>(s: set<T>, f: T -> nat, x: T)
    requires x in s
    ensures Sum(s, f) == f(x) + Sum(s - {x}, f)
    decreases |s|
  {
    var y :| y in s && Sum(s, f) == f(y) + Sum(s - {y}, f);
    if y != x {
      SumRemove(s - {y}, f, x);
      SumRemove(s - {x}, f, y);
      assert s - {y} - {x} == s - {x} - {y};
    }
  }

  lemma {:induction false} SumMonotone<T(!new)>(s: set<T>, f: T -> nat, g: T -> nat)
    requires forall x :: x in s ==> f(x) <= g(x)
    ensures Sum(s, f) <= Sum(s, g)
    decreases |s|
  {
    if s != {} {
      var x :| x in s;
      SumRemove(s, f, x);
      SumRemove(s, g, x);
      SumMonotone(s - {x}, f, g);
    }
  }

  lemma SumAt<T(!new)>(s: set<T>, f: T -> nat, g: T -> nat, at: T)
    requires at in s && forall x :: x in s && x != at ==> g(x) == f(x)
    ensures Sum(s, g) == Sum(s, f) - f(at) + g(at)
  {
    SumRemove(s, f, at);
    SumRemove(s, g, at);
    SumMonotone(s - {at}, f, g);
    SumMonotone(s - {at}, g, f);
  }

  lemma {:induction false} SumZero<T(!new)>(s: set<T>, f: T -> nat)
    requires forall x :: x in s ==> f(x) == 0
    ensures Sum(s, f) == 0
    decreases |s|
  {
    if s != {} {
      var x :| x in s;
      SumRemove(s, f, x);
      SumZero(s - {x}, f);
    }
  }

  lemma {:induction false} SumSubset<T(!new)>(part: set<T>, whole: set<T>, f: T -> nat)
    requires part <= whole
    ensures Sum(part, f) <= Sum(whole, f)
    decreases |whole|
  {
    if x :| x in whole && x !in part {
      SumRemove(whole, f, x);
      SumSubset(part, whole - {x}, f);
    } else {
      assert part == whole;
    }
  }

  // ---------------------------------------------------------------- division rounded up

  function CeilDiv(n: nat, d: nat): nat {
    if d == 0 then n else (n + d - 1) / d
  }

  lemma QuotientBounds(m: nat, d: nat)
    requires d > 0
    ensures m / d * d <= m < m / d * d + d
  {
  }

  lemma Distributes(c: nat, d: nat)
    ensures (c + 1) * d == c * d + d
  {
  }

  lemma MulGrows(a: nat, b: nat, d: nat)
    requires a <= b
    ensures a * d <= b * d
  {
    assert b * d == a * d + (b - a) * d;
  }

  lemma DivLess(m: nat, d: nat, c: nat)
    requires d > 0 && m < c * d + d
    ensures m / d <= c
  {
    var q := m / d;
    QuotientBounds(m, d);
    Distributes(c, d);
    if q > c { MulGrows(c + 1, q, d); }
  }

  lemma DivAtLeast(m: nat, d: nat, c: nat)
    requires d > 0 && c * d <= m
    ensures c <= m / d
  {
    var q := m / d;
    QuotientBounds(m, d);
    Distributes(q, d);
    if q < c { MulGrows(q + 1, c, d); }
  }

  lemma CeilDivLeast(n: nat, d: nat, c: nat)
    requires d > 0 && n <= c * d
    ensures CeilDiv(n, d) <= c
  {
    DivLess(n + d - 1, d, c);
  }

  lemma CeilDivExact(n: nat, d: nat, c: nat)
    requires d > 0 && n <= c * d && c * d < n + d
    ensures CeilDiv(n, d) == c
  {
    DivLess(n + d - 1, d, c);
    DivAtLeast(n + d - 1, d, c);
  }

  lemma CeilDivMonotone(m: nat, n: nat, d: nat)
    requires m <= n
    ensures CeilDiv(m, d) <= CeilDiv(n, d)
  {
    if d > 0 {
      var c := CeilDiv(n, d);
      QuotientBounds(n + d - 1, d);
      Distributes(c, d);
      CeilDivLeast(m, d, c);
    }
  }
}
