/** Sequences of sequences, one after another. */
module Sequences {
  function Flatten<T>(parts: seq<seq<T>>): seq<T> {
    if parts == [] then [] else Flatten(parts[..|parts| - 1]) + parts[|parts| - 1]
  }

  lemma FlattenLast<T>(parts: seq<seq<T>>)
    requires parts != []
    ensures Flatten(parts) == Flatten(parts[..|parts| - 1]) + parts[|parts| - 1]
  {
  }

  lemma {:induction false} FlattenFirst<T>(parts: seq<seq<T>>)
    requires parts != []
    ensures Flatten(parts) == parts[0] + Flatten(parts[1..])
  {
    var k := |parts| - 1;
    if k > 0 {
      FlattenFirst(parts[..k]);
      assert parts[..k][1..] == parts[1..][..k - 1];
      assert Flatten(parts[1..]) == Flatten(parts[1..][..k - 1]) + parts[k];
    } else {
      assert parts[..0] == [] && parts[1..] == [];
      assert Flatten(parts) == Flatten(parts[..0]) + parts[0];
    }
  }

  lemma {:induction false} FlattenAppend<T>(x: seq<seq<T>>, y: seq<seq<T>>)
    ensures Flatten(x + y) == Flatten(x) + Flatten(y)
  {
    if y == [] {
      assert x + y == x;
    } else {
      var k := |y| - 1;
      FlattenLast(x + y);
      FlattenLast(y);
      hide Flatten;
      assert (x + y)[..|x + y| - 1] == x + y[..k];
      FlattenAppend(x, y[..k]);
    }
  }

  lemma FlattenOne<T>(part: seq<T>)
    ensures Flatten([part]) == part
  {
    assert [part][..0] == [];
  }

  lemma FlattenCons<T>(first: seq<T>, rest: seq<seq<T>>)
    ensures Flatten([first] + rest) == first + Flatten(rest)
  {
    FlattenFirst([first] + rest);
    assert ([first] + rest)[1..] == rest;
  }

  lemma ReplaceLater<T>(s: seq<T>, i: nat, x: T)
    requires i + 1 < |s|
    ensures [s[0]] + (s[1..][..i] + [x] + s[1..][i + 1..]) == s[..i + 1] + [x] + s[i + 2..]
  {
    assert s[1..][i + 1..] == s[i + 2..];
    assert [s[0]] + s[1..][..i] == s[..i + 1];
  }

  lemma WithoutOne<T>(s: seq<T>, i: nat)
    requires i < |s|
    ensures multiset(s[..i] + s[i + 1..]) == multiset(s) - multiset{s[i]}
  {
    var before, after := s[..i], s[i + 1..];
    assert s == before + [s[i]] + after;
    assert multiset(before + after) == multiset(before) + multiset(after);
  }

  lemma LessOne<T>(a: multiset<T>, b: multiset<T>, x: T)
    requires a <= b
    ensures a - multiset{x} <= b - multiset{x}
  {
  }

  // `x` without its last element is still within `y` without one equal to it.
  lemma TakeOut<T>(x: seq<T>, y: seq<T>) returns (j: nat)
    requires x != [] && multiset(x) <= multiset(y)
    ensures j < |y| && y[j] == x[|x| - 1]
    ensures multiset(x[..|x| - 1]) <= multiset(y[..j] + y[j + 1..])
    ensures multiset(x) == multiset(y) ==> multiset(x[..|x| - 1]) == multiset(y[..j] + y[j + 1..])
  {
    var k := |x| - 1;
    assert x[k] in multiset(x);
    assert x[k] in multiset(y);
    j :| 0 <= j < |y| && y[j] == x[k];
    WithoutOne(y, j);
    WithoutOne(x, k);
    assert x[..k] + x[k + 1..] == x[..k];
    LessOne(multiset(x), multiset(y), x[k]);
  }
}
