/** A stable sort, standing for `Array.prototype.sort`: section 23.1.3.30 of
    ECMA-262 (2023 edition) requires that sort to be stable, and the
    hymnal's renumbering relies on that. The sort is insertion sort over
    any total preorder; what it computes is pinned down by three lemmas —
    the output is ordered, it is a permutation of the input, and elements
    the order ties keep their input order — which together determine a
    stable sort's output uniquely. */
module Sorting {
  import opened Seqs

  /** `leq` is total and transitive, as a comparator must be for sort to be
      defined; it need not be antisymmetric (two hymns with the same title
      tie). */
  ghost predicate TotalPreorder<T(!new)>(leq: (T, T) -> bool) {
    && (forall a, b :: leq(a, b) || leq(b, a))
    && (forall a, b, c :: leq(a, b) && leq(b, c) ==> leq(a, c))
  }

  predicate Sorted<T>(s: seq<T>, leq: (T, T) -> bool) {
    forall i, j :: 0 <= i < j < |s| ==> leq(s[i], s[j])
  }

  /** `x` and `y` tie: neither comes strictly before the other. */
  predicate Tie<T>(leq: (T, T) -> bool, x: T, y: T) {
    leq(x, y) && leq(y, x)
  }

  /** The elements of `s` that tie with `k`, in their order in `s`. */
  function Ties<T>(s: seq<T>, leq: (T, T) -> bool, k: T): seq<T> {
    if s == [] then []
    else (if Tie(leq, s[0], k) then [s[0]] else []) + Ties(s[1..], leq, k)
  }

  /** The ties of a concatenation are the ties of each part, in order. */
  lemma {:induction false} TiesAppend<T>(a: seq<T>, b: seq<T>, leq: (T, T) -> bool, k: T)
    ensures Ties(a + b, leq, k) == Ties(a, leq, k) + Ties(b, leq, k)
  {
    if a == [] {
      assert a + b == b;
    } else {
      AppendTail(a, b);
      TiesAppend(a[1..], b, leq, k);
      AppendAssoc(if Tie(leq, a[0], k) then [a[0]] else [], Ties(a[1..], leq, k), Ties(b, leq, k));
    }
  }

  /** `r` takes no element more often than `s` has it, and its elements
      that tie with any `k` are the first of those in `s`, in their order
      there: what a prefix of the stable sort of `s` keeps. */
  ghost predicate StableFront<T(!new)>(r: seq<T>, s: seq<T>, leq: (T, T) -> bool) {
    && multiset(r) <= multiset(s)
    && (forall k :: Ties(r, leq, k) <= Ties(s, leq, k))
  }

  /** Any prefix of a list with the multiplicities and the ties order of
      `s` is a stable front of `s`. */
  lemma PrefixIsStableFront<T(!new)>(sorted: seq<T>, s: seq<T>, leq: (T, T) -> bool, n: nat)
    requires n <= |sorted|
    requires multiset(sorted) == multiset(s)
    requires forall k :: Ties(sorted, leq, k) == Ties(s, leq, k)
    ensures StableFront(sorted[..n], s, leq)
  {
    var rest := sorted[n..];
    assert sorted == sorted[..n] + rest;
    assert multiset(sorted) == multiset(sorted[..n]) + multiset(rest);
    forall k ensures Ties(sorted[..n], leq, k) <= Ties(s, leq, k) {
      TiesAppend(sorted[..n], rest, leq, k);
    }
  }

  /** A prefix of a sorted permutation of `s` holds the least elements of
      `s`: any element it takes fewer times than `s` has it comes after every
      element of the prefix. */
  lemma PrefixIsLeast<T(!new)>(sorted: seq<T>, s: seq<T>, leq: (T, T) -> bool, n: nat)
    requires n <= |sorted|
    requires Sorted(sorted, leq)
    requires multiset(sorted) == multiset(s)
    ensures forall x :: multiset(sorted[..n])[x] < multiset(s)[x] ==> forall i :: 0 <= i < n ==> leq(sorted[i], x)
  {
    var rest := sorted[n..];
    assert sorted == sorted[..n] + rest;
    assert multiset(sorted) == multiset(sorted[..n]) + multiset(rest);
    forall x, i | multiset(sorted[..n])[x] < multiset(s)[x] && 0 <= i < n
      ensures leq(sorted[i], x)
    {
      assert x in multiset(rest);
      var j :| 0 <= j < |rest| && rest[j] == x;
      assert sorted[n + j] == x;
    }
  }

  /** `x` inserted into `s` in front of the first element it does not come
      after. */
  function Insert<T>(x: T, s: seq<T>, leq: (T, T) -> bool): (r: seq<T>)
    ensures |r| == |s| + 1
    ensures multiset(r) == multiset(s) + multiset{x}
  {
    if s == [] then [x]
    else if leq(x, s[0]) then [x] + s
    else
      assert s == [s[0]] + s[1..];
      [s[0]] + Insert(x, s[1..], leq)
  }

  /** `[...s].sort(cmp)`, where `leq(a, b)` stands for `cmp(a, b) <= 0`. */
  function SortBy<T>(s: seq<T>, leq: (T, T) -> bool): (r: seq<T>)
    ensures |r| == |s|
    ensures multiset(r) == multiset(s)
  {
    if s == [] then []
    else
      assert s == [s[0]] + s[1..];
      Insert(s[0], SortBy(s[1..], leq), leq)
  }

  lemma {:induction false} InsertSorted<T(!new)>(x: T, s: seq<T>, leq: (T, T) -> bool)
    requires TotalPreorder(leq) && Sorted(s, leq)
    ensures Sorted(Insert(x, s, leq), leq)
  {
    if s != [] && !leq(x, s[0]) {
      InsertSorted(x, s[1..], leq);
      var r := Insert(x, s, leq);
      forall j | 0 < j < |r| ensures leq(s[0], r[j]) {
        assert r[j] in multiset(Insert(x, s[1..], leq));
        assert r[j] == x || r[j] in s[1..];
      }
    }
  }

  /** The sort's output is ordered. */
  lemma {:induction false} SortBySorted<T(!new)>(s: seq<T>, leq: (T, T) -> bool)
    requires TotalPreorder(leq)
    ensures Sorted(SortBy(s, leq), leq)
  {
    if s != [] {
      SortBySorted(s[1..], leq);
      InsertSorted(s[0], SortBy(s[1..], leq), leq);
    }
  }

  /** What comes strictly after `y` cannot tie with what ties with `y`. */
  lemma TieBlocks<T(!new)>(leq: (T, T) -> bool, x: T, y: T, k: T)
    requires TotalPreorder(leq) && Tie(leq, y, k) && !leq(x, y)
    ensures !Tie(leq, x, k)
  {
  }

  /** Inserting `x` puts it in front of every element it ties with. */
  lemma {:induction false} InsertTies<T(!new)>(x: T, s: seq<T>, leq: (T, T) -> bool, k: T)
    requires TotalPreorder(leq)
    ensures Ties(Insert(x, s, leq), leq, k) == (if Tie(leq, x, k) then [x] else []) + Ties(s, leq, k)
  {
    if s == [] {
    } else if leq(x, s[0]) {
      assert ([x] + s)[1..] == s;
    } else {
      InsertTies(x, s[1..], leq, k);
      var rest := Insert(x, s[1..], leq);
      ConsTail(s[0], rest);
      if Tie(leq, s[0], k) {
        // s[0] comes strictly before x, so x cannot tie with k.
        TieBlocks(leq, x, s[0], k);
        assert Ties(rest, leq, k) == Ties(s[1..], leq, k);
      } else {
        assert Ties(Insert(x, s, leq), leq, k) == Ties(rest, leq, k);
        assert Ties(s, leq, k) == Ties(s[1..], leq, k);
      }
    }
  }

  /** The sort is stable: the elements that tie with any `k` come out in the
      order they went in. */
  lemma {:induction false} SortByStable<T(!new)>(s: seq<T>, leq: (T, T) -> bool, k: T)
    requires TotalPreorder(leq)
    ensures Ties(SortBy(s, leq), leq, k) == Ties(s, leq, k)
  {
    if s != [] {
      SortByStable(s[1..], leq, k);
      InsertTies(s[0], SortBy(s[1..], leq), leq, k);
    }
  }

  /** Sorting an ordered list leaves it as it is. */
  lemma {:induction false} SortBySortedInput<T(!new)>(s: seq<T>, leq: (T, T) -> bool)
    requires Sorted(s, leq)
    ensures SortBy(s, leq) == s
  {
    if s != [] {
      assert Sorted(s[1..], leq);
      SortBySortedInput(s[1..], leq);
      if |s| > 1 {
        assert leq(s[0], s[1]);
      }
      assert [s[0]] + s[1..] == s;
    }
  }

  /** Inserting and then mapping adds the image of `x` to the image of `s`. */
  lemma {:induction false} InsertMap<T, U>(f: T -> U, x: T, s: seq<T>, leq: (T, T) -> bool)
    ensures multiset(Map(f, Insert(x, s, leq))) == multiset(Map(f, s)) + multiset{f(x)}
  {
    if s != [] && !leq(x, s[0]) {
      InsertMap(f, x, s[1..], leq);
      var rest := Insert(x, s[1..], leq);
      assert Insert(x, s, leq) == [s[0]] + rest;
      assert ([s[0]] + rest)[1..] == rest;
    }
  }

  /** What the sort outputs, seen through any projection, is a permutation of
      the projected input. */
  lemma {:induction false} SortByMap<T, U>(f: T -> U, s: seq<T>, leq: (T, T) -> bool)
    ensures multiset(Map(f, SortBy(s, leq))) == multiset(Map(f, s))
  {
    if s != [] {
      SortByMap(f, s[1..], leq);
      InsertMap(f, s[0], SortBy(s[1..], leq), leq);
    }
  }
}
