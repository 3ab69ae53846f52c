/** The two things the wrapper does with a JavaScript `Set` of strings: enumerate it in
    insertion order (`Array.from(set)`) and sort it with the default comparator
    (`.sort()`, in code-point order, which equals its code-unit order inside the Basic
    Multilingual Plane). */
module StringSets {

  predicate NoDups<T(==)>(s: seq<T>) {
    forall i, j :: 0 <= i < j < |s| ==> s[i] != s[j]
  }

  /** `Array.from(new Set(xs))`: each element once, at the place of its first occurrence. */
  function Dedup<T(==,!new)>(xs: seq<T>): (r: seq<T>)
    ensures NoDups(r)
    ensures forall x :: x in r <==> x in xs
    ensures NoDups(xs) ==> r == xs
  {
    if xs == [] then []
    else
      var init := xs[..|xs| - 1];
      var x := xs[|xs| - 1];
      assert xs == init + [x];
      var d := Dedup(init);
      if x in d then d else d + [x]
  }

  /** Adding an element that is already present leaves a de-duplicated list as it is. */
  lemma DedupAppendPresent<T(!new)>(xs: seq<T>, x: T)
    requires x in xs
    ensures Dedup(xs + [x]) == Dedup(xs)
  {
    assert (xs + [x])[..|xs|] == xs;
  }

  /** The default order of `Array.prototype.sort` on strings: lexicographic, a proper prefix first. */
  predicate Lt(a: string, b: string) {
    if b == [] then false
    else if a == [] then true
    else if a[0] != b[0] then a[0] < b[0]
    else Lt(a[1..], b[1..])
  }

  lemma {:induction false} LtIrreflexive(a: string)
    ensures !Lt(a, a)
  {
    if a != [] { LtIrreflexive(a[1..]); }
  }

  lemma {:induction false} LtTransitive(a: string, b: string, c: string)
    requires Lt(a, b) && Lt(b, c)
    ensures Lt(a, c)
  {
    if a != [] && a[0] == b[0] && b[0] == c[0] {
      LtTransitive(a[1..], b[1..], c[1..]);
    }
  }

  lemma {:induction false} LtTotal(a: string, b: string)
    ensures a == b || Lt(a, b) || Lt(b, a)
  {
    if a != [] && b != [] && a[0] == b[0] {
      LtTotal(a[1..], b[1..]);
      if a[1..] == b[1..] {
        assert a == [a[0]] + a[1..] && b == [b[0]] + b[1..];
      }
    }
  }

  lemma {:induction false} LtAsymmetric(a: string, b: string)
    requires Lt(a, b)
    ensures !Lt(b, a)
  {
    if a != [] && a[0] == b[0] { LtAsymmetric(a[1..], b[1..]); }
  }

  /** Strictly ascending, hence also free of duplicates. */
  predicate Sorted(s: seq<string>) {
    forall i, j :: 0 <= i < j < |s| ==> Lt(s[i], s[j])
  }

  lemma SortedNoDups(s: seq<string>)
    requires Sorted(s)
    ensures NoDups(s)
  {
    forall i, j | 0 <= i < j < |s| ensures s[i] != s[j] {
      LtIrreflexive(s[i]);
    }
  }

  /** One insertion step of the sort. */
  function Insert(x: string, s: seq<string>): (r: seq<string>)
    requires Sorted(s) && x !in s
    ensures Sorted(r)
    ensures multiset(r) == multiset(s) + multiset{x}
  {
    if s == [] then [x]
    else if Lt(x, s[0]) then
      InsertFront(x, s);
      [x] + s
    else
      var rest := Insert(x, s[1..]);
      InsertAbove(x, s, rest);
      [s[0]] + rest
  }

  lemma InsertFront(x: string, s: seq<string>)
    requires Sorted(s) && s != [] && Lt(x, s[0])
    ensures Sorted([x] + s)
  {
    var r := [x] + s;
    forall i, j | 0 <= i < j < |r| ensures Lt(r[i], r[j]) {
      if i == 0 && j > 1 { LtTransitive(x, s[0], s[j - 1]); }
    }
  }

  lemma InsertAbove(x: string, s: seq<string>, rest: seq<string>)
    requires Sorted(s) && s != [] && x !in s && !Lt(x, s[0])
    requires Sorted(rest) && multiset(rest) == multiset(s[1..]) + multiset{x}
    ensures Sorted([s[0]] + rest)
    ensures multiset([s[0]] + rest) == multiset(s) + multiset{x}
  {
    LtTotal(x, s[0]);
    assert s == [s[0]] + s[1..];
    forall y | y in rest ensures Lt(s[0], y) {
      assert y in multiset(rest);
    }
    ConsSorted(s[0], rest);
  }

  lemma ConsSorted(h: string, rest: seq<string>)
    requires Sorted(rest) && forall y :: y in rest ==> Lt(h, y)
    ensures Sorted([h] + rest)
  {
    var r := [h] + rest;
    forall i, j | 0 <= i < j < |r| ensures Lt(r[i], r[j]) {
      if i == 0 { assert r[j] == rest[j - 1]; }
    }
  }

  /** `.sort()` of a duplicate-free list of strings. */
  function Sort(xs: seq<string>): (r: seq<string>)
    requires NoDups(xs)
    ensures Sorted(r)
    ensures multiset(r) == multiset(xs)
    ensures forall x :: x in r <==> x in xs
  {
    if xs == [] then []
    else
      var init := xs[..|xs| - 1];
      var x := xs[|xs| - 1];
      assert xs == init + [x];
      var s := Sort(init);
      assert x !in s by { assert x !in multiset(init); }
      var r := Insert(x, s);
      assert forall y :: y in r <==> y in multiset(r);
      r
  }

  /** A strictly ascending list is determined by its elements: two of them with the same
      elements are the same list. */
  lemma {:induction false} SortedUnique(a: seq<string>, b: seq<string>)
    requires Sorted(a) && Sorted(b)
    requires forall x :: x in a <==> x in b
    ensures a == b
  {
    HeadIn(b);
    if a != [] {
      assert b != [] by { assert a[0] in b; }
      if a[0] != b[0] {
        assert a[0] in b && b[0] in a;
        var k :| 0 <= k < |b| && b[k] == a[0];
        var m :| 0 <= m < |a| && a[m] == b[0];
        assert Lt(b[0], a[0]);
        assert Lt(a[0], b[0]);
        LtAsymmetric(a[0], b[0]);
        assert false;
      }
      SortedNoDups(a);
      SortedNoDups(b);
      forall x ensures x in a[1..] <==> x in b[1..] {
        assert x in a[1..] <==> x in a && x != a[0];
        assert x in b[1..] <==> x in b && x != b[0];
      }
      SortedUnique(a[1..], b[1..]);
      assert a == [a[0]] + a[1..] && b == [b[0]] + b[1..];
    }
  }

  lemma HeadIn(s: seq<string>)
    ensures s == [] || s[0] in s
  {
  }

  /** Sorting a list that is already ascending changes nothing. */
  lemma SortSorted(s: seq<string>)
    requires Sorted(s)
    ensures NoDups(s) && Sort(s) == s
  {
    SortedNoDups(s);
    SortedUnique(Sort(s), s);
  }
}
