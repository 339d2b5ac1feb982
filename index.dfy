/** The hymn collection of the main page: the custom hymns and the favourite
    ids it keeps as state, the handlers that change them, and the views it
    derives from them (the full sorted list, the filtered list and the recent
    hymns). */
module Index {
  import opened Wrappers
  import opened Text
  import opened Seqs
  import opened Sorting
  import opened Hymns
  import opened HymnUtils

  /** `prev.map(hymn => hymn.id === updated.id ? updated : hymn)`. */
  function ReplaceById(hymns: seq<Hymn>, updated: Hymn): (r: seq<Hymn>)
    ensures |r| == |hymns|
    ensures forall i :: 0 <= i < |hymns| ==> r[i] == if hymns[i].id == updated.id then updated else hymns[i]
  {
    if hymns == [] then []
    else [if hymns[0].id == updated.id then updated else hymns[0]] + ReplaceById(hymns[1..], updated)
  }

  /** Replacing an id no hymn has leaves the list as it is. */
  lemma ReplaceUnknownId(hymns: seq<Hymn>, updated: Hymn)
    requires forall h :: h in hymns ==> h.id != updated.id
    ensures ReplaceById(hymns, updated) == hymns
  {
    assert forall i :: 0 <= i < |hymns| ==> hymns[i] in hymns;
  }

  /** `prev.filter(h => h.id !== id)`. */
  function RemoveById(hymns: seq<Hymn>, id: int): (r: seq<Hymn>)
    ensures forall h :: h in r <==> h in hymns && h.id != id
    ensures forall h :: multiset(r)[h] == if h.id != id then multiset(hymns)[h] else 0
    ensures IsSubsequence(r, hymns)
  {
    Filter(hymns, (h: Hymn) => h.id != id)
  }

  /** `prev.filter(x => x !== id)`. */
  function RemoveId(ids: seq<int>, id: int): (r: seq<int>)
    ensures forall x :: x in r <==> x in ids && x != id
    ensures forall x :: multiset(r)[x] == if x != id then multiset(ids)[x] else 0
    ensures IsSubsequence(r, ids)
    ensures NoDuplicates(ids) ==> NoDuplicates(r)
  {
    if NoDuplicates(ids) then FilterNoDuplicates(ids, (x: int) => x != id); Filter(ids, (x: int) => x != id)
    else Filter(ids, (x: int) => x != id)
  }

  /** The new favourites list of `handleFavorite`: the id is taken out when
      present and appended otherwise. */
  function ToggleFavorite(favorites: seq<int>, id: int): (r: seq<int>)
    ensures id in r <==> id !in favorites
    ensures forall x :: x != id ==> (x in r <==> x in favorites)
    ensures NoDuplicates(favorites) ==> NoDuplicates(r)
    ensures id in favorites ==> r == RemoveId(favorites, id)
    ensures id !in favorites ==> r == favorites + [id]
  {
    if id in favorites then RemoveId(favorites, id) else favorites + [id]
  }

  /** Toggling twice restores which ids are favourites. When the id was not
      a favourite, it restores the list itself; when it was, the id comes
      back at the end of the list. */
  lemma ToggleTwice(favorites: seq<int>, id: int)
    ensures forall x :: x in ToggleFavorite(ToggleFavorite(favorites, id), id) <==> x in favorites
    ensures id !in favorites ==> ToggleFavorite(ToggleFavorite(favorites, id), id) == favorites
    ensures id in favorites && NoDuplicates(favorites) ==>
              ToggleFavorite(ToggleFavorite(favorites, id), id) == RemoveId(favorites, id) + [id]
  {
    if id !in favorites {
      FilterAppend(favorites, [id], (x: int) => x != id);
      FilterAll(favorites, (x: int) => x != id);
    }
  }

  /** The hymn record `handleAddHymn` builds: the id and the timestamp stand
      for the two `Date.now()` readings, the number is 0 until the next
      renumbering, and the first line is derived from the first verse. */
  function NewHymnRecord(data: NewHymn, id: int, addedAt: int): (h: Hymn)
    ensures h.id == id && h.number == 0 && h.addedAt == Some(addedAt)
    ensures h.title == data.title && h.author == data.author && h.category == data.category
    ensures h.lyrics == data.lyrics
    ensures h.keySignature == data.keySignature && h.musicSheetUrl == data.musicSheetUrl
    ensures h.tune.None? && h.isFavorite.None?
    ensures data.lyrics == [] ==> h.firstLine == ""
    ensures data.lyrics != [] ==> h.firstLine == FirstLine(data.lyrics[0])
  {
    Hymn(
      id := id, number := 0, title := data.title, author := data.author,
      firstLine := FirstLineOf(data.lyrics), category := data.category, lyrics := data.lyrics,
      tune := None, keySignature := data.keySignature, isFavorite := None,
      musicSheetUrl := data.musicSheetUrl, addedAt := Some(addedAt))
  }

  /** `allHymns`: the built-in hymns followed by the custom ones, sorted by
      title and numbered 1 to N. */
  function AllHymnsOf(builtIns: seq<Hymn>, custom: seq<Hymn>): (r: seq<Hymn>)
    ensures |r| == |builtIns| + |custom|
    ensures forall i :: 0 <= i < |r| ==> r[i].number == i + 1
    ensures Sorted(r, ByTitle)
    ensures multiset(Map(Unnumbered, r)) == multiset(Map(Unnumbered, builtIns) + Map(Unnumbered, custom))
  {
    MapConcat(Unnumbered, builtIns, custom);
    SortHymnsAlphabetically(builtIns + custom)
  }

  /** With the real built-in list, the full list holds 8 hymns more than the
      custom list. */
  lemma AllHymnsLength(custom: seq<Hymn>)
    ensures |AllHymnsOf(BuiltIns, custom)| == 8 + |custom|
  {
    BuiltInIds();
  }

  /** `{...hymn, isFavorite: favorites.includes(hymn.id)}`. */
  function MarkFavorite(favorites: seq<int>, h: Hymn): Hymn {
    h.(isFavorite := Some(h.id in favorites))
  }

  /** Every hymn of `all`, marked with whether it is a favourite. */
  function Marked(all: seq<Hymn>, favorites: seq<int>): (r: seq<Hymn>)
    ensures |r| == |all|
    ensures forall i :: 0 <= i < |all| ==> r[i] == MarkFavorite(favorites, all[i])
  {
    MapAt((h: Hymn) => MarkFavorite(favorites, h), all);
    Map((h: Hymn) => MarkFavorite(favorites, h), all)
  }

  /** The search test: the lowercased query occurs in the lowercased title,
      author, first line or category. */
  predicate MatchesQuery(h: Hymn, q: string) {
    || Includes(ToLower(h.title), q)
    || Includes(ToLower(h.author), q)
    || Includes(ToLower(h.firstLine), q)
    || Includes(ToLower(h.category), q)
  }

  /** Whether a marked hymn passes all three filters of `filteredHymns`. The
      search only runs when the trimmed query is non-empty, but it matches
      the query lowercased and NOT trimmed. */
  predicate Visible(h: Hymn, tab: string, category: string, query: string) {
    && (tab == "favorites" ==> h.isFavorite == Some(true))
    && (category != "All" ==> h.category == category)
    && (Trim(query) != "" ==> MatchesQuery(h, ToLower(query)))
  }

  /** `if (c) hymns = hymns.filter(p)`: one optional step of `filteredHymns`. */
  function FilterWhen(c: bool, s: seq<Hymn>, p: Hymn -> bool): (r: seq<Hymn>)
    ensures IsSubsequence(r, s)
    ensures forall h :: multiset(r)[h] == if c && !p(h) then 0 else multiset(s)[h]
    ensures !c ==> r == s
  {
    if c then Filter(s, p) else SubsequenceReflexive(s); s
  }

  /** The three optional filters of `filteredHymns`, in their order. A hymn
      is kept, as often as it occurs, exactly when it is visible. */
  function FilterSteps(marked: seq<Hymn>, tab: string, category: string, query: string): (r: seq<Hymn>)
    ensures forall h :: multiset(r)[h] == if Visible(h, tab, category, query) then multiset(marked)[h] else 0
  {
    var byTab := FilterWhen(tab == "favorites", marked, (h: Hymn) => h.isFavorite == Some(true));
    var byCategory := FilterWhen(category != "All", byTab, (h: Hymn) => h.category == category);
    FilterWhen(Trim(query) != "", byCategory, (h: Hymn) => MatchesQuery(h, ToLower(query)))
  }

  lemma FilterStepsSublist(marked: seq<Hymn>, tab: string, category: string, query: string)
    ensures IsSubsequence(FilterSteps(marked, tab, category, query), marked)
  {
    var byTab := FilterWhen(tab == "favorites", marked, (h: Hymn) => h.isFavorite == Some(true));
    var byCategory := FilterWhen(category != "All", byTab, (h: Hymn) => h.category == category);
    var bySearch := FilterWhen(Trim(query) != "", byCategory, (h: Hymn) => MatchesQuery(h, ToLower(query)));
    SubsequenceTransitive(bySearch, byCategory, byTab);
    SubsequenceTransitive(bySearch, byTab, marked);
  }

  /** `filteredHymns`: the favourites-tab filter, then the category filter,
      then the search filter, applied to the marked list. Together they keep
      exactly the visible hymns, in their order and with their
      multiplicity. */
  function FilteredHymnsOf(all: seq<Hymn>, favorites: seq<int>, tab: string, category: string, query: string): (r: seq<Hymn>)
    ensures IsSubsequence(r, Marked(all, favorites))
    ensures forall h :: multiset(r)[h] == if Visible(h, tab, category, query) then multiset(Marked(all, favorites))[h] else 0
    ensures forall h :: h in r ==> h.isFavorite == Some(h.id in favorites) && Visible(h, tab, category, query)
  {
    var marked := Marked(all, favorites);
    FilterStepsSublist(marked, tab, category, query);
    MarkedFlags(all, favorites);
    FilterStepsMembers(marked, tab, category, query);
    FilterSteps(marked, tab, category, query)
  }

  /** Every marked hymn carries its favourite flag. */
  lemma MarkedFlags(all: seq<Hymn>, favorites: seq<int>)
    ensures forall h :: h in Marked(all, favorites) ==> h.isFavorite == Some(h.id in favorites)
  {
    var marked := Marked(all, favorites);
    forall h | h in marked ensures h.isFavorite == Some(h.id in favorites) {
      var i :| 0 <= i < |marked| && marked[i] == h;
    }
  }

  /** What the three filters keep is visible and comes from their input. */
  lemma FilterStepsMembers(marked: seq<Hymn>, tab: string, category: string, query: string)
    ensures forall h :: h in FilterSteps(marked, tab, category, query) ==> h in marked && Visible(h, tab, category, query)
  {
    var r := FilterSteps(marked, tab, category, query);
    forall h | h in r ensures h in marked && Visible(h, tab, category, query) {
      assert multiset(r)[h] > 0;
    }
  }

  /** On the default view (not the favourites tab, category "All", blank
      query) every hymn is shown, in order. */
  lemma DefaultViewShowsAll(all: seq<Hymn>, favorites: seq<int>, tab: string, query: string)
    requires tab != "favorites" && Trim(query) == ""
    ensures FilteredHymnsOf(all, favorites, tab, "All", query) == Marked(all, favorites)
  {
  }

  /** `(hymn.addedAt || 0)`. */
  function Timestamp(h: Hymn): int {
    if h.addedAt.Some? then h.addedAt.value else 0
  }

  /** `hymn.addedAt` is truthy: present and not zero. */
  predicate Stamped(h: Hymn) {
    h.addedAt.Some? && h.addedAt.value != 0
  }

  /** The comparator `(a, b) => (b.addedAt || 0) - (a.addedAt || 0)`: `a`
      may come before `b` when it is at least as new. */
  predicate NewerOrSame(a: Hymn, b: Hymn) {
    Timestamp(b) <= Timestamp(a)
  }

  lemma NewerOrSameTotalPreorder()
    ensures TotalPreorder(NewerOrSame)
  {
  }

  /** `s.slice(0, 3)`. */
  function Take3(s: seq<Hymn>): (r: seq<Hymn>)
    ensures |r| == if |s| < 3 then |s| else 3
    ensures r == s[..|r|]
  {
    s[..if |s| < 3 then |s| else 3]
  }

  /** The stamped hymns of `all`, newest first; hymns added at the same time
      keep their order in `all`. */
  function NewestFirst(all: seq<Hymn>): (r: seq<Hymn>)
    ensures multiset(r) == multiset(Filter(all, Stamped))
    ensures Sorted(r, NewerOrSame)
    ensures forall k :: Ties(r, NewerOrSame, k) == Ties(Filter(all, Stamped), NewerOrSame, k)
  {
    var stamped := Filter(all, Stamped);
    NewerOrSameTotalPreorder();
    SortBySorted(stamped, NewerOrSame);
    forall k ensures Ties(SortBy(stamped, NewerOrSame), NewerOrSame, k) == Ties(stamped, NewerOrSame, k) {
      SortByStable(stamped, NewerOrSame, k);
    }
    SortBy(stamped, NewerOrSame)
  }

  /** Some hymn of `all` has a truthy `addedAt`. */
  predicate AnyStamped(all: seq<Hymn>) {
    exists h :: h in all && Stamped(h)
  }

  /** `r` is the front of the newest-first list of the stamped hymns of
      `all`: it keeps the newest ones and keeps them in the order the sort
      leaves them. */
  ghost predicate NewestStamped(all: seq<Hymn>, r: seq<Hymn>) {
    NewestKept(all, r) && KeptInOrder(all, r)
  }

  /** Stamped hymns only, newest first, no copy left out newer than one
      kept (a hymn kept fewer times than `all` has it stamped counts as left
      out), and as many as there are stamped hymns up to three. */
  ghost predicate NewestKept(all: seq<Hymn>, r: seq<Hymn>) {
    NewestOf(Filter(all, Stamped), r)
  }

  /** `NewestKept` with the stamped hymns of the list given as `stamped`. */
  ghost predicate NewestOf(stamped: seq<Hymn>, r: seq<Hymn>) {
    && (forall i :: 0 <= i < |r| ==> Stamped(r[i]))
    && (forall i, j :: 0 <= i < j < |r| ==> Timestamp(r[j]) <= Timestamp(r[i]))
    && (forall h :: Stamped(h) && multiset(r)[h] < multiset(stamped)[h] ==>
          forall i :: 0 <= i < |r| ==> Timestamp(h) <= Timestamp(r[i]))
    && |r| == (if |stamped| < 3 then |stamped| else 3)
  }

  /** No hymn more often than `all` has it stamped, and the kept hymns
      added at the same time as any `k` are the first of those in `all`, in
      their order there. */
  ghost predicate KeptInOrder(all: seq<Hymn>, r: seq<Hymn>) {
    StableFront(r, Filter(all, Stamped), NewerOrSame)
  }

  /** The hymns of the "Recent Hymns" section: the three newest stamped
      hymns, newest first; when no hymn is stamped, the first three of the
      list. */
  function RecentOf(all: seq<Hymn>): (r: seq<Hymn>)
    ensures |r| <= 3
    ensures forall h :: h in r ==> h in all
    ensures AnyStamped(all) ==> NewestStamped(all, r)
    ensures !AnyStamped(all) ==> r == Take3(all)
  {
    var top := Take3(NewestFirst(all));
    RecentFrontMembers(all);
    RecentFrontNewest(all);
    if |top| > 0 then top else Take3(all)
  }

  /** The front of the newest-first list is empty exactly when no hymn is
      stamped, and holds hymns of `all` only. */
  lemma RecentFrontMembers(all: seq<Hymn>)
    ensures |Take3(NewestFirst(all))| > 0 <==> AnyStamped(all)
    ensures forall h :: h in Take3(NewestFirst(all)) ==> h in all
  {
    var sorted := NewestFirst(all);
    NewestFirstFacts(all);
    if AnyStamped(all) {
      var h :| h in all && Stamped(h);
      assert h in sorted;
    }
  }

  /** The front of the newest-first list is the newest stamped hymns. */
  lemma RecentFrontNewest(all: seq<Hymn>)
    ensures NewestStamped(all, Take3(NewestFirst(all)))
  {
    NewestFirstFacts(all);
    FrontIsNewest(Filter(all, Stamped), NewestFirst(all));
    FrontKeepsOrder(all);
  }

  /** The newest-first list holds exactly the stamped hymns, as many of
      them as `all` has. */
  lemma NewestFirstFacts(all: seq<Hymn>)
    ensures |NewestFirst(all)| == |Filter(all, Stamped)|
    ensures forall h :: h in NewestFirst(all) <==> h in all && Stamped(h)
  {
    var stamped := Filter(all, Stamped);
    var sorted := NewestFirst(all);
    assert |sorted| == |multiset(sorted)| == |multiset(stamped)| == |stamped|;
    forall h ensures h in sorted <==> h in stamped {
      assert h in sorted <==> h in multiset(sorted);
      assert h in stamped <==> h in multiset(stamped);
    }
  }

  /** The first three of the newest-first list keep the order of the
      stamped hymns. */
  lemma FrontKeepsOrder(all: seq<Hymn>)
    ensures KeptInOrder(all, Take3(NewestFirst(all)))
  {
    var sorted := NewestFirst(all);
    PrefixIsStableFront(sorted, Filter(all, Stamped), NewerOrSame, |Take3(sorted)|);
  }

  /** The first three of a newest-first list of the stamped hymns of `all`
      are the newest stamped hymns. */
  lemma FrontIsNewest(stamped: seq<Hymn>, sorted: seq<Hymn>)
    requires forall h :: h in stamped ==> Stamped(h)
    requires Sorted(sorted, NewerOrSame)
    requires multiset(sorted) == multiset(stamped)
    ensures NewestOf(stamped, Take3(sorted))
  {
    var top := Take3(sorted);
    assert |sorted| == |stamped| by {
      assert |sorted| == |multiset(sorted)| == |multiset(stamped)| == |stamped|;
    }
    forall i | 0 <= i < |top| ensures Stamped(top[i]) {
      assert top[i] in multiset(stamped);
    }
    PrefixIsLeast(sorted, stamped, NewerOrSame, |top|);
  }

  /** The collection state of the main page. `hymnsData` is the built-in
      list; `customHymns` and `favorites` change through the handlers. */
  class HymnCollection {
    const hymnsData: seq<Hymn>
    var customHymns: seq<Hymn>
    var favorites: seq<int>

    /** The favourites list never holds an id twice. */
    ghost predicate Valid()
      reads this
    {
      NoDuplicates(favorites)
    }

    constructor()
      ensures Valid()
      ensures hymnsData == BuiltIns && customHymns == [] && favorites == []
    {
      hymnsData := BuiltIns;
      customHymns := [];
      favorites := [];
    }

    /** `allHymns`. */
    function AllHymns(): (r: seq<Hymn>)
      reads this
      ensures r == AllHymnsOf(hymnsData, customHymns)
      ensures |r| == |hymnsData| + |customHymns|
    {
      AllHymnsOf(hymnsData, customHymns)
    }

    /** `filteredHymns` for the active tab, category and search query. */
    function FilteredHymns(tab: string, category: string, query: string): seq<Hymn>
      reads this
    {
      FilteredHymnsOf(AllHymns(), favorites, tab, category, query)
    }

    /** The "Recent Hymns" section. */
    function RecentHymns(): seq<Hymn>
      reads this
    {
      RecentOf(AllHymns())
    }

    /** `handleAddHymn`: append the new hymn to the custom list. */
    method HandleAddHymn(data: NewHymn, id: int, addedAt: int)
      requires Valid()
      modifies this
      ensures Valid()
      ensures customHymns == old(customHymns) + [NewHymnRecord(data, id, addedAt)]
      ensures favorites == old(favorites)
    {
      customHymns := customHymns + [NewHymnRecord(data, id, addedAt)];
    }

    /** `handleEditHymn`: refused for a built-in id; otherwise every custom
        hymn with the id is replaced. */
    method HandleEditHymn(updated: Hymn) returns (accepted: bool)
      requires Valid()
      modifies this
      ensures Valid()
      ensures accepted <==> Find(hymnsData, updated.id).None?
      ensures customHymns == if accepted then ReplaceById(old(customHymns), updated) else old(customHymns)
      ensures favorites == old(favorites)
    {
      if Find(hymnsData, updated.id).Some? {
        return false;
      }
      customHymns := ReplaceById(customHymns, updated);
      return true;
    }

    /** `handleDeleteHymn`: refused for a built-in id; otherwise the id
        leaves both the custom hymns and the favourites. */
    method HandleDeleteHymn(hymn: Hymn) returns (accepted: bool)
      requires Valid()
      modifies this
      ensures Valid()
      ensures accepted <==> Find(hymnsData, hymn.id).None?
      ensures customHymns == if accepted then RemoveById(old(customHymns), hymn.id) else old(customHymns)
      ensures favorites == if accepted then RemoveId(old(favorites), hymn.id) else old(favorites)
    {
      if Find(hymnsData, hymn.id).Some? {
        return false;
      }
      customHymns := RemoveById(customHymns, hymn.id);
      favorites := RemoveId(favorites, hymn.id);
      return true;
    }

    /** `handleFavorite`. */
    method HandleFavorite(id: int)
      requires Valid()
      modifies this
      ensures Valid()
      ensures favorites == ToggleFavorite(old(favorites), id)
      ensures customHymns == old(customHymns)
    {
      favorites := ToggleFavorite(favorites, id);
    }
  }
}
