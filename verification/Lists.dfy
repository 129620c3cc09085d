/** Filtering and counting over sequences, and what permuting the sequence leaves alone. */
module Lists {
  function Filter<T>(s: seq<T>, p: T -> bool): seq<T>
  {
    if s == [] then [] else Filter(s[..|s| - 1], p) + if p(s[|s| - 1]) then [s[|s| - 1]] else []
  }

  function Count<T>(s: seq<T>, p: T -> bool): nat
  {
    if s == [] then 0 else Count(s[..|s| - 1], p) + if p(s[|s| - 1]) then 1 else 0
  }

  // Where the elements that pass stand in the list.
  function Places<T>(s: seq<T>, p: T -> bool): seq<nat>
  {
    if s == [] then [] else Places(s[..|s| - 1], p) + if p(s[|s| - 1]) then [|s| - 1] else []
  }

  predicate Ascending(places: seq<nat>)
  {
    forall i, j :: 0 <= i < j < |places| ==> places[i] < places[j]
  }

  /** Filtering keeps, in order, exactly the elements that pass. */
  lemma {:induction false} FilterIsSubsequence<T>(s: seq<T>, p: T -> bool)
    ensures |Places(s, p)| == |Filter(s, p)| && Ascending(Places(s, p))
    ensures forall i :: 0 <= i < |Filter(s, p)| ==> Places(s, p)[i] < |s| && s[Places(s, p)[i]] == Filter(s, p)[i]
    ensures forall i :: 0 <= i < |Filter(s, p)| ==> p(Filter(s, p)[i])
    ensures forall x :: x in Filter(s, p) <==> x in s && p(x)
  {
    if s != [] {
      FilterIsSubsequence(s[..|s| - 1], p);
      assert s == s[..|s| - 1] + [s[|s| - 1]];
    }
  }

  lemma {:induction false} CountBound<T>(s: seq<T>, p: T -> bool)
    ensures Count(s, p) <= |s|
    ensures Count(s, p) > 0 <==> exists i :: 0 <= i < |s| && p(s[i])
  {
    if s != [] {
      CountBound(s[..|s| - 1], p);
      if Count(s, p) > 0 && !p(s[|s| - 1]) {
        var i :| 0 <= i < |s| - 1 && p(s[..|s| - 1][i]);
        assert p(s[i]);
      }
    }
  }

  lemma {:induction false} CountLeq<T>(s: seq<T>, p: T -> bool, q: T -> bool)
    requires forall i :: 0 <= i < |s| && p(s[i]) ==> q(s[i])
    ensures Count(s, p) <= Count(s, q)
  {
    if s != [] {
      CountLeq(s[..|s| - 1], p, q);
    }
  }

  lemma {:induction false} CountConcat<T>(a: seq<T>, b: seq<T>, p: T -> bool)
    ensures Count(a + b, p) == Count(a, p) + Count(b, p)
  {
    if b == [] {
      assert a + b == a;
    } else {
      assert (a + b)[..|a + b| - 1] == a + b[..|b| - 1];
      CountConcat(a, b[..|b| - 1], p);
    }
  }

  lemma {:induction false} CountFilter<T>(s: seq<T>, p: T -> bool, q: T -> bool, both: T -> bool)
    requires forall x :: both(x) <==> p(x) && q(x)
    ensures Count(Filter(s, p), q) == Count(s, both)
  {
    if s != [] {
      CountFilter(s[..|s| - 1], p, q, both);
      CountConcat(Filter(s[..|s| - 1], p), if p(s[|s| - 1]) then [s[|s| - 1]] else [], q);
    }
  }

  lemma {:induction false} FilterLength<T>(s: seq<T>, p: T -> bool)
    ensures |Filter(s, p)| == Count(s, p)
  {
    if s != [] {
      FilterLength(s[..|s| - 1], p);
    }
  }

  /** Changing one element moves the count by that element alone. */
  lemma CountUpdate<T>(s: seq<T>, i: nat, x: T, p: T -> bool)
    requires i < |s|
    ensures Count(s[i := x], p) + (if p(s[i]) then 1 else 0) == Count(s, p) + if p(x) then 1 else 0
  {
    assert s == s[..i] + ([s[i]] + s[i + 1..]);
    assert s[i := x] == s[..i] + ([x] + s[i + 1..]);
    CountConcat(s[..i], [s[i]] + s[i + 1..], p);
    CountConcat([s[i]], s[i + 1..], p);
    CountConcat(s[..i], [x] + s[i + 1..], p);
    CountConcat([x], s[i + 1..], p);
  }

  // ---- first occurrences ----

  function First<T(==)>(s: seq<T>, x: T): (i: nat)
    requires x in s
    ensures i < |s| && s[i] == x
  {
    if x in s[..|s| - 1] then First(s[..|s| - 1], x)
    else
      assert s == s[..|s| - 1] + [s[|s| - 1]];
      |s| - 1
  }

  lemma {:induction false} FirstConcat<T>(a: seq<T>, b: seq<T>, x: T)
    requires x in a || x in b
    ensures First(a + b, x) == if x in a then First(a, x) else |a| + First(b, x)
  {
    if b == [] {
      assert a + b == a;
    } else {
      var rest := b[..|b| - 1];
      assert (a + b)[..|a + b| - 1] == a + rest;
      assert b == rest + [b[|b| - 1]];
      if x in a || x in rest {
        FirstConcat(a, rest, x);
      }
    }
  }

  /** Filtering does not change who comes first. */
  lemma {:induction false} FilterKeepsFirst<T>(s: seq<T>, p: T -> bool, x: T, y: T)
    requires x in s && y in s && p(x) && p(y) && First(s, x) < First(s, y)
    ensures x in Filter(s, p) && y in Filter(s, p) && First(Filter(s, p), x) < First(Filter(s, p), y)
  {
    var rest, last := s[..|s| - 1], s[|s| - 1];
    assert s == rest + [last];
    var tail := if p(last) then [last] else [];
    FilterIsSubsequence(rest, p);
    FirstConcat(Filter(rest, p), tail, x);
    FirstConcat(Filter(rest, p), tail, y);
    if y in rest {
      FilterKeepsFirst(rest, p, x, y);
    }
  }

  // ---- permutations ----

  predicate Permuted<T(==)>(a: seq<T>, b: seq<T>)
  {
    multiset(a) == multiset(b)
  }

  // The last element of one list, found in the other.
  lemma TakeOut<T>(a: seq<T>, b: seq<T>) returns (j: nat)
    requires Permuted(a, b) && a != []
    ensures j < |b| && b[j] == a[|a| - 1]
    ensures Permuted(a[..|a| - 1], b[..j] + b[j + 1..])
    ensures b == b[..j] + ([b[j]] + b[j + 1..])
  {
    var x, rest := a[|a| - 1], a[..|a| - 1];
    assert multiset(a) == multiset(rest) + multiset{x} by {
      assert a == rest + [x];
    }
    assert x in multiset(a);
    assert x in b;
    j :| 0 <= j < |b| && b[j] == x;
    Around(b, j);
    assert multiset(b[..j] + b[j + 1..]) == multiset(b) - multiset{x};
  }

  lemma Around<T>(b: seq<T>, j: nat)
    requires j < |b|
    ensures b == b[..j] + ([b[j]] + b[j + 1..])
    ensures multiset(b) == multiset(b[..j] + b[j + 1..]) + multiset{b[j]}
  {
    assert b == b[..j] + ([b[j]] + b[j + 1..]);
  }

  lemma {:induction false} CountPermuted<T>(a: seq<T>, b: seq<T>, p: T -> bool)
    requires Permuted(a, b)
    ensures Count(a, p) == Count(b, p) && |a| == |b|
  {
    if a == [] {
      assert |multiset(b)| == 0;
    } else {
      var j := TakeOut(a, b);
      var rest := b[..j] + b[j + 1..];
      CountPermuted(a[..|a| - 1], rest, p);
      CountConcat(b[..j], b[j + 1..], p);
      CountConcat(b[..j], [b[j]] + b[j + 1..], p);
      CountConcat([b[j]], b[j + 1..], p);
    }
  }

  // Lists of lists, put one after another.
  function Flatten<T>(s: seq<seq<T>>): seq<T>
  {
    if s == [] then [] else Flatten(s[..|s| - 1]) + s[|s| - 1]
  }

  lemma {:induction false} FlattenConcat<T>(a: seq<seq<T>>, b: seq<seq<T>>)
    ensures Flatten(a + b) == Flatten(a) + Flatten(b)
  {
    if b == [] {
      assert a + b == a;
    } else {
      assert (a + b)[..|a + b| - 1] == a + b[..|b| - 1];
      FlattenConcat(a, b[..|b| - 1]);
    }
  }

  lemma {:induction false} FlattenPermuted<T>(a: seq<seq<T>>, b: seq<seq<T>>)
    requires Permuted(a, b)
    ensures Permuted(Flatten(a), Flatten(b))
  {
    if a == [] {
      assert |multiset(b)| == 0;
    } else {
      var j := TakeOut(a, b);
      FlattenPermuted(a[..|a| - 1], b[..j] + b[j + 1..]);
      FlattenConcat(b[..j], b[j + 1..]);
      FlattenConcat(b[..j], [b[j]] + b[j + 1..]);
      FlattenConcat([b[j]], b[j + 1..]);
      assert Flatten([b[j]]) == b[j];
    }
  }
}
