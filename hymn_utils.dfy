/** `sortHymnsAlphabetically`: a copy of the list sorted by title, each hymn
    renumbered with its position. */
module HymnUtils {
  import opened Text
  import opened Seqs
  import opened Sorting
  import opened Hymns

  /** `a.title.localeCompare(b.title) <= 0`. */
  predicate ByTitle(a: Hymn, b: Hymn) {
    TitleLeq(a.title, b.title)
  }

  /** Comparing titles is a valid sort order. */
  lemma ByTitleTotalPreorder()
    ensures TotalPreorder(ByTitle)
  {
    forall a, b ensures ByTitle(a, b) || ByTitle(b, a) {
      TitleLeqTotal(a.title, b.title);
    }
    forall a, b, c | ByTitle(a, b) && ByTitle(b, c) ensures ByTitle(a, c) {
      TitleLeqTransitive(a.title, b.title, c.title);
    }
  }

  /** A hymn with its number blanked out: what is left once the position is
      ignored. */
  function Unnumbered(h: Hymn): Hymn {
    h.(number := 0)
  }

  /** `s.map((hymn, index) => ({...hymn, number: index + n}))`. */
  function RenumberFrom(s: seq<Hymn>, n: int): (r: seq<Hymn>)
    ensures |r| == |s|
    ensures forall i :: 0 <= i < |s| ==> r[i] == s[i].(number := n + i)
  {
    if s == [] then [] else [s[0].(number := n)] + RenumberFrom(s[1..], n + 1)
  }

  /** `sortHymnsAlphabetically(hymns)`: the hymns ordered by title, numbered
      1 to N in that order, and otherwise the hymns that went in. The input is
      a value, so it is left as it was. */
  function SortHymnsAlphabetically(hymns: seq<Hymn>): (r: seq<Hymn>)
    ensures |r| == |hymns|
    ensures forall i :: 0 <= i < |r| ==> r[i].number == i + 1
    ensures Sorted(r, ByTitle)
    ensures multiset(Map(Unnumbered, r)) == multiset(Map(Unnumbered, hymns))
  {
    var sorted := SortBy(hymns, ByTitle);
    ByTitleTotalPreorder();
    SortBySorted(hymns, ByTitle);
    SortByMap(Unnumbered, hymns, ByTitle);
    var r := RenumberFrom(sorted, 1);
    MapAt(Unnumbered, r);
    MapAt(Unnumbered, sorted);
    assert Map(Unnumbered, r) == Map(Unnumbered, sorted);
    r
  }

  /** Renumbering does not change which hymns tie on title, nor their order. */
  lemma {:induction false} TiesRenumber(s: seq<Hymn>, n: int, k: Hymn)
    ensures Map(Unnumbered, Ties(RenumberFrom(s, n), ByTitle, k)) == Map(Unnumbered, Ties(s, ByTitle, k))
  {
    if s != [] {
      TiesRenumber(s[1..], n + 1, k);
      var r := RenumberFrom(s, n);
      assert r[0] == s[0].(number := n);
      assert r[1..] == RenumberFrom(s[1..], n + 1);
      var head := if Tie(ByTitle, s[0], k) then [s[0]] else [];
      var head' := if Tie(ByTitle, r[0], k) then [r[0]] else [];
      assert Map(Unnumbered, head') == Map(Unnumbered, head);
      MapConcat(Unnumbered, head', Ties(r[1..], ByTitle, k));
      MapConcat(Unnumbered, head, Ties(s[1..], ByTitle, k));
    }
  }

  /** Hymns with equal titles (under the comparator) keep their input order:
      the stability `Array.prototype.sort` guarantees. */
  lemma SortHymnsStable(hymns: seq<Hymn>, k: Hymn)
    ensures Map(Unnumbered, Ties(SortHymnsAlphabetically(hymns), ByTitle, k))
         == Map(Unnumbered, Ties(hymns, ByTitle, k))
  {
    ByTitleTotalPreorder();
    SortByStable(hymns, ByTitle, k);
    TiesRenumber(SortBy(hymns, ByTitle), 1, k);
  }

  /** Sorting an already sorted and numbered list changes nothing. */
  lemma SortHymnsIdempotent(hymns: seq<Hymn>)
    ensures SortHymnsAlphabetically(SortHymnsAlphabetically(hymns)) == SortHymnsAlphabetically(hymns)
  {
    var r := SortHymnsAlphabetically(hymns);
    SortBySortedInput(r, ByTitle);
    assert RenumberFrom(r, 1) == r;
  }
}
