/** The list operations the hymnal applies to its arrays: `filter` and `map`,
    and what it means for one list to be a sublist of another. */
module Seqs {

  /** `a` is obtained from `b` by deleting elements, keeping the order of the
      rest. */
  predicate IsSubsequence<T(==)>(a: seq<T>, b: seq<T>)
    decreases |b|
  {
    a == [] || (b != [] && if a[0] == b[0] then IsSubsequence(a[1..], b[1..]) else IsSubsequence(a, b[1..]))
  }

  /** Every list is a sublist of itself. */
  lemma {:induction false} SubsequenceReflexive<T>(a: seq<T>)
    ensures IsSubsequence(a, a)
  {
    if a != [] {
      SubsequenceReflexive(a[1..]);
    }
  }

  /** A sublist of the tail is a sublist of the whole. */
  lemma {:induction false} SubsequenceCons<T>(a: seq<T>, c: seq<T>)
    requires c != [] && IsSubsequence(a, c[1..])
    ensures IsSubsequence(a, c)
    decreases |a| + |c|, 1
  {
    if a != [] && a[0] == c[0] {
      SubsequenceTail(a, c[1..]);
    }
  }

  /** Dropping the head of a sublist leaves a sublist. */
  lemma {:induction false} SubsequenceTail<T>(a: seq<T>, c: seq<T>)
    requires a != [] && IsSubsequence(a, c)
    ensures IsSubsequence(a[1..], c)
    decreases |a| + |c|, 0
  {
    if a[0] == c[0] {
      SubsequenceCons(a[1..], c);
    } else {
      SubsequenceTail(a, c[1..]);
      SubsequenceCons(a[1..], c);
    }
  }

  /** A sublist of a sublist is a sublist. */
  lemma {:induction false} SubsequenceTransitive<T>(a: seq<T>, b: seq<T>, c: seq<T>)
    requires IsSubsequence(a, b) && IsSubsequence(b, c)
    ensures IsSubsequence(a, c)
    decreases |c|
  {
    if a != [] {
      if b[0] == c[0] {
        if a[0] == b[0] {
          SubsequenceTransitive(a[1..], b[1..], c[1..]);
        } else {
          SubsequenceTransitive(a, b[1..], c[1..]);
        }
      } else {
        SubsequenceTransitive(a, b, c[1..]);
        if a[0] == c[0] {
          SubsequenceTail(a, c[1..]);
        }
      }
    }
  }

  /** No value occurs twice. */
  predicate NoDuplicates<T(==)>(s: seq<T>) {
    forall i, j :: 0 <= i < j < |s| ==> s[i] != s[j]
  }

  /** `s.filter(p)`: the elements of `s` that satisfy `p`, in their order and
      with their multiplicity. */
  function Filter<T(==, !new)>(s: seq<T>, p: T -> bool): (r: seq<T>)
    ensures |r| <= |s|
    ensures forall x :: x in r <==> x in s && p(x)
    ensures forall x :: multiset(r)[x] == if p(x) then multiset(s)[x] else 0
    ensures IsSubsequence(r, s)
  {
    if s == [] then []
    else
      var rest := Filter(s[1..], p);
      assert s == [s[0]] + s[1..];
      if p(s[0]) then
        assert ([s[0]] + rest)[1..] == rest;
        [s[0]] + rest
      else
        assert rest != [] ==> rest[0] in rest && rest[0] != s[0];
        rest
  }

  /** Filtering keeps the whole list exactly when every element passes. */
  lemma {:induction false} FilterAll<T(!new)>(s: seq<T>, p: T -> bool)
    ensures Filter(s, p) == s <==> forall x :: x in s ==> p(x)
  {
    if s != [] {
      FilterAll(s[1..], p);
      if !p(s[0]) {
        assert |Filter(s, p)| < |s|;
      }
    }
  }

  /** Filtering twice is filtering once by a test that holds exactly when
      both do. */
  lemma {:induction false} FilterFilter<T(!new)>(s: seq<T>, p: T -> bool, q: T -> bool, both: T -> bool)
    requires forall x :: x in s ==> both(x) == (p(x) && q(x))
    ensures Filter(Filter(s, p), q) == Filter(s, both)
  {
    if s != [] {
      FilterFilter(s[1..], p, q, both);
      if p(s[0]) {
        assert ([s[0]] + Filter(s[1..], p))[1..] == Filter(s[1..], p);
      }
    }
  }

  /** Filtering a list with a given head decides the head and filters the
      rest. */
  lemma FilterCons<T(!new)>(x: T, s: seq<T>, p: T -> bool)
    ensures Filter([x] + s, p) == if p(x) then [x] + Filter(s, p) else Filter(s, p)
  {
    assert ([x] + s)[1..] == s;
  }

  /** Concatenation is associative. */
  lemma AppendAssoc<T>(a: seq<T>, b: seq<T>, c: seq<T>)
    ensures a + (b + c) == (a + b) + c
  {
  }

  /** The head and the tail of a concatenation whose first part has a
      head. */
  lemma AppendTail<T>(a: seq<T>, b: seq<T>)
    requires a != []
    ensures (a + b)[0] == a[0] && (a + b)[1..] == a[1..] + b
  {
  }

  /** A non-empty list is its head followed by its tail. */
  lemma HeadTail<T>(s: seq<T>)
    requires s != []
    ensures s == [s[0]] + s[1..]
  {
  }

  /** The head and the tail of a list built from a head and a tail. */
  lemma ConsTail<T>(x: T, s: seq<T>)
    ensures ([x] + s)[0] == x && ([x] + s)[1..] == s
  {
  }

  /** Filtering a concatenation filters each part. */
  lemma {:induction false} FilterAppend<T(!new)>(a: seq<T>, b: seq<T>, p: T -> bool)
    ensures Filter(a + b, p) == Filter(a, p) + Filter(b, p)
  {
    if a == [] {
      assert a + b == b;
    } else {
      AppendTail(a, b);
      FilterAppend(a[1..], b, p);
      if p(a[0]) {
        AppendAssoc([a[0]], Filter(a[1..], p), Filter(b, p));
      }
    }
  }

  /** A kept first element stays first. */
  lemma FilterKeepsFirst<T(!new)>(s: seq<T>, p: T -> bool)
    ensures s != [] && p(s[0]) ==> Filter(s, p) != [] && Filter(s, p)[0] == s[0]
  {
    if s != [] {
      HeadTail(s);
      FilterCons(s[0], s[1..], p);
    }
  }

  /** A kept last element stays last. */
  lemma FilterKeepsLast<T(!new)>(s: seq<T>, p: T -> bool)
    ensures s != [] && p(s[|s| - 1]) ==> Filter(s, p) != [] && Filter(s, p)[|Filter(s, p)| - 1] == s[|s| - 1]
  {
    if s != [] {
      var x := s[|s| - 1];
      assert s == s[..|s| - 1] + [x];
      FilterAppend(s[..|s| - 1], [x], p);
      FilterCons(x, [], p);
      assert [x] + [] == [x];
    }
  }

  /** An element the test refuses can be left out before filtering. */
  lemma FilterSkip<T(!new)>(a: seq<T>, x: T, b: seq<T>, p: T -> bool)
    requires !p(x)
    ensures Filter(a + [x] + b, p) == Filter(a + b, p)
  {
    FilterAppend(a + [x], b, p);
    FilterAppend(a, [x], p);
    FilterAppend(a, b, p);
  }

  /** Filtering a list without duplicates leaves none. */
  lemma {:induction false} FilterNoDuplicates<T(!new)>(s: seq<T>, p: T -> bool)
    requires NoDuplicates(s)
    ensures NoDuplicates(Filter(s, p))
  {
    if s != [] {
      assert NoDuplicates(s[1..]);
      FilterNoDuplicates(s[1..], p);
      var rest := Filter(s[1..], p);
      assert s[0] !in s[1..];
      assert s[0] !in rest;
    }
  }

  /** `s.map(f)`. */
  function Map<T, U>(f: T -> U, s: seq<T>): (r: seq<U>)
    ensures |r| == |s|
  {
    if s == [] then [] else [f(s[0])] + Map(f, s[1..])
  }

  /** Each element of the image is the image of the element at the same
      index. */
  lemma {:induction false} MapAt<T, U>(f: T -> U, s: seq<T>)
    ensures forall i :: 0 <= i < |s| ==> Map(f, s)[i] == f(s[i])
  {
    if s != [] {
      MapAt(f, s[1..]);
    }
  }

  /** Mapping distributes over concatenation. */
  lemma {:induction false} MapConcat<T, U>(f: T -> U, a: seq<T>, b: seq<T>)
    ensures Map(f, a + b) == Map(f, a) + Map(f, b)
  {
    if a != [] {
      assert (a + b)[1..] == a[1..] + b;
      MapConcat(f, a[1..], b);
    } else {
      assert a + b == b;
    }
  }
}
