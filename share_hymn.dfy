/** The share dialog: the record written to a `.hymn` file, the file name
    made from the title, and the text copied to the clipboard. */
module ShareHymnDialog {
  import opened Wrappers
  import opened Text
  import opened Seqs
  import opened Hymns
  import opened ImportHymnDialog

  /** `hymnForExport`: the fields a hymn file holds. */
  datatype ExportRecord = ExportRecord(
    id: int,
    number: int,
    title: string,
    author: string,
    firstLine: string,
    category: string,
    lyrics: seq<string>,
    keySignature: Option<string>,
    musicSheetUrl: Option<string>)

  /** The hymn projected onto the exported fields; `tune`, `isFavorite` and
      `addedAt` stay behind. */
  function HymnForExport(h: Hymn): (e: ExportRecord)
    ensures e.id == h.id && e.number == h.number && e.title == h.title && e.author == h.author
    ensures e.firstLine == h.firstLine && e.category == h.category && e.lyrics == h.lyrics
    ensures e.keySignature == h.keySignature && e.musicSheetUrl == h.musicSheetUrl
  {
    ExportRecord(h.id, h.number, h.title, h.author, h.firstLine, h.category, h.lyrics, h.keySignature, h.musicSheetUrl)
  }

  /** Two hymns that differ only in the fields left behind export alike. */
  lemma ExportIgnoresLocalFields(h: Hymn, tune: Option<string>, isFavorite: Option<bool>, addedAt: Option<int>)
    ensures HymnForExport(h.(tune := tune, isFavorite := isFavorite, addedAt := addedAt)) == HymnForExport(h)
  {
  }

  /** What `JSON.parse` gives back for the text `JSON.stringify` wrote: every
      field present, except the optional ones that were `undefined`, which
      the text leaves out. */
  function ExportedFile(e: ExportRecord): HymnFile {
    HymnFile(Some(e.id), Some(e.number), Some(e.title), Some(e.author), Some(e.firstLine),
             Some(e.category), Some(e.lyrics), e.keySignature, e.musicSheetUrl)
  }

  /** A character the filter `[^a-zA-Z0-9\s]` keeps. */
  predicate IsAsciiAlphanumeric(c: char) {
    ('a' <= c <= 'z') || ('A' <= c <= 'Z') || ('0' <= c <= '9')
  }

  lemma AlphanumericIsNotWhitespace(c: char)
    ensures IsAsciiAlphanumeric(c) ==> !IsWhitespace(c)
  {
  }

  predicate KeptInFileName(c: char) {
    IsAsciiAlphanumeric(c) || IsWhitespace(c)
  }

  /** `s.replace(/[^a-zA-Z0-9\s]/g, '')`. */
  function StripUnsafe(s: string): (r: string)
    ensures forall c :: c in r <==> c in s && KeptInFileName(c)
    ensures forall c :: multiset(r)[c] == if KeptInFileName(c) then multiset(s)[c] else 0
    ensures IsSubsequence(r, s)
  {
    Filter(s, KeptInFileName)
  }

  /** `s.replace(/\s+/g, '_')` with `space` standing for `\s`: every
      maximal run of spaces becomes one underscore. Read left to right, a
      space followed by another is dropped, and the last one of its run is
      written as `_`. */
  function CollapseRuns(s: string, space: char -> bool): (r: string)
    ensures |r| <= |s|
  {
    if s == [] then []
    else if space(s[0]) && |s| > 1 && space(s[1]) then CollapseRuns(s[1..], space)
    else [if space(s[0]) then '_' else s[0]] + CollapseRuns(s[1..], space)
  }

  /** Text that ends in anything but a space collapses on its own: what
      follows it cannot join one of its runs. */
  lemma {:induction false} CollapseAppend(u: string, x: string, space: char -> bool)
    requires u == [] || !space(u[|u| - 1])
    ensures CollapseRuns(u + x, space) == CollapseRuns(u, space) + CollapseRuns(x, space)
  {
    if u == [] {
      assert u + x == x;
    } else {
      AppendTail(u, x);
      if |u| > 1 {
        assert u[1..][|u| - 2] == u[|u| - 1];
      }
      CollapseAppend(u[1..], x, space);
      var c := if space(u[0]) then '_' else u[0];
      AppendAssoc([c], CollapseRuns(u[1..], space), CollapseRuns(x, space));
    }
  }

  /** A run of spaces followed by anything but a space becomes one
      underscore. */
  lemma {:induction false} CollapseRun(w: string, v: string, space: char -> bool)
    requires w != [] && forall i :: 0 <= i < |w| ==> space(w[i])
    requires v == [] || !space(v[0])
    ensures CollapseRuns(w + v, space) == "_" + CollapseRuns(v, space)
  {
    AppendTail(w, v);
    if |w| == 1 {
      assert w[1..] + v == v;
    } else {
      CollapseRun(w[1..], v, space);
    }
  }

  /** Text without spaces is left as it is. */
  lemma {:induction false} CollapseWithoutSpaces(s: string, space: char -> bool)
    requires forall i :: 0 <= i < |s| ==> !space(s[i])
    ensures CollapseRuns(s, space) == s
  {
    if s != [] {
      CollapseWithoutSpaces(s[1..], space);
    }
  }

  /** A maximal run of spaces between two texts becomes exactly one
      underscore between the collapsed texts. */
  lemma CollapseRunBetween(u: string, w: string, v: string, space: char -> bool)
    requires u == [] || !space(u[|u| - 1])
    requires w != [] && forall i :: 0 <= i < |w| ==> space(w[i])
    requires v == [] || !space(v[0])
    ensures CollapseRuns(u + w + v, space) == CollapseRuns(u, space) + "_" + CollapseRuns(v, space)
  {
    AppendAssoc(u, w, v);
    CollapseAppend(u, w + v, space);
    CollapseRun(w, v, space);
    AppendAssoc(CollapseRuns(u, space), "_", CollapseRuns(v, space));
  }

  /** Every character is an underscore or is kept and not a space. */
  predicate UnderscoresAnd(r: string, space: char -> bool, keep: char -> bool) {
    forall i :: 0 <= i < |r| ==> r[i] == '_' || (keep(r[i]) && !space(r[i]))
  }

  /** Every character of the collapsed text is an underscore or one of the
      text's characters that is kept and not a space. */
  lemma {:induction false} CollapseChars(s: string, space: char -> bool, keep: char -> bool)
    requires forall c :: c in s ==> keep(c) || space(c)
    ensures UnderscoresAnd(CollapseRuns(s, space), space, keep)
  {
    if s != [] {
      assert forall c :: c in s[1..] ==> c in s;
      CollapseChars(s[1..], space, keep);
      var tail := CollapseRuns(s[1..], space);
      if !(space(s[0]) && |s| > 1 && space(s[1])) {
        var r := CollapseRuns(s, space);
        assert r == [if space(s[0]) then '_' else s[0]] + tail;
        assert s[0] in s;
        assert forall i :: 1 <= i < |r| ==> r[i] == tail[i - 1];
      }
    }
  }

  /** No two underscores are neighbours. */
  predicate NoDoubleUnderscore(s: string) {
    forall i :: 0 <= i < |s| - 1 ==> !(s[i] == '_' && s[i + 1] == '_')
  }

  /** On a text without underscores, collapsing leaves no two underscores
      side by side, and starts with one only where the text starts with a
      space. */
  lemma {:induction false} CollapseNoDoubleUnderscore(s: string, space: char -> bool)
    requires '_' !in s
    ensures NoDoubleUnderscore(CollapseRuns(s, space))
    ensures CollapseRuns(s, space) != [] && CollapseRuns(s, space)[0] == '_' ==> space(s[0])
  {
    if s != [] {
      assert '_' !in s[1..];
      CollapseNoDoubleUnderscore(s[1..], space);
      var tail := CollapseRuns(s[1..], space);
      var r := CollapseRuns(s, space);
      if !(space(s[0]) && |s| > 1 && space(s[1])) {
        assert r == [if space(s[0]) then '_' else s[0]] + tail;
        forall i | 0 <= i < |r| - 1 ensures !(r[i] == '_' && r[i + 1] == '_') {
          if i > 0 {
            assert r[i] == tail[i - 1] && r[i + 1] == tail[i];
          } else if r[0] == '_' {
            assert r[1] == tail[0];
            assert !space(s[1]);
          }
        }
      }
    }
  }

  predicate NotUnderscore(c: char) {
    c != '_'
  }

  /** Dropping the underscores from the collapsed text gives back the text
      without its spaces: collapsing only rewrites spaces. */
  lemma {:induction false} CollapseKeepsText(s: string, space: char -> bool, nonSpace: char -> bool)
    requires '_' !in s
    requires forall c :: nonSpace(c) == !space(c)
    ensures Filter(CollapseRuns(s, space), NotUnderscore) == Filter(s, nonSpace)
  {
    if s != [] {
      assert '_' !in s[1..];
      CollapseKeepsText(s[1..], space, nonSpace);
      CollapseStep(s, space, nonSpace);
    }
  }

  /** One step of `CollapseKeepsText`: what holds of the rest of the text
      holds of the text. */
  lemma CollapseStep(s: string, space: char -> bool, nonSpace: char -> bool)
    requires s != [] && s[0] != '_'
    requires nonSpace(s[0]) == !space(s[0])
    requires Filter(CollapseRuns(s[1..], space), NotUnderscore) == Filter(s[1..], nonSpace)
    ensures Filter(CollapseRuns(s, space), NotUnderscore) == Filter(s, nonSpace)
  {
    var tail := CollapseRuns(s[1..], space);
    var kept := Filter(s[1..], nonSpace);
    HeadTail(s);
    FilterCons(s[0], s[1..], nonSpace);
    if space(s[0]) {
      assert Filter(s, nonSpace) == kept;
      if !(|s| > 1 && space(s[1])) {
        FilterCons('_', tail, NotUnderscore);
      }
    } else {
      assert Filter(s, nonSpace) == [s[0]] + kept;
      assert CollapseRuns(s, space) == [s[0]] + tail;
      FilterCons(s[0], tail, NotUnderscore);
    }
  }

  predicate NotWhitespace(c: char) {
    !IsWhitespace(c)
  }

  /** `safeTitle`. */
  function SafeTitle(title: string): (r: string)
    ensures forall i :: 0 <= i < |r| ==> IsAsciiAlphanumeric(r[i]) || r[i] == '_'
    ensures NoDoubleUnderscore(r)
  {
    var kept := StripUnsafe(title);
    CollapseChars(kept, IsWhitespace, IsAsciiAlphanumeric);
    CollapseNoDoubleUnderscore(kept, IsWhitespace);
    CollapseRuns(kept, IsWhitespace)
  }

  /** Apart from its underscores, the safe title is the title's ASCII
      letters and digits, all of them, in their order. */
  lemma SafeTitleKeepsAlphanumerics(title: string)
    ensures Filter(SafeTitle(title), NotUnderscore) == Filter(title, IsAsciiAlphanumeric)
  {
    var kept := StripUnsafe(title);
    assert '_' !in kept;
    CollapseKeepsText(kept, IsWhitespace, NotWhitespace);
    forall c ensures IsAsciiAlphanumeric(c) == (KeptInFileName(c) && NotWhitespace(c)) {
      AlphanumericIsNotWhitespace(c);
    }
    FilterFilter(title, KeptInFileName, NotWhitespace, IsAsciiAlphanumeric);
  }

  /** A run of kept spaces between two kept non-spaces survives the filter
      and becomes exactly one underscore. */
  lemma CollapseKeptRun(u: string, w: string, v: string, keep: char -> bool, space: char -> bool)
    requires u == [] || (keep(u[|u| - 1]) && !space(u[|u| - 1]))
    requires w != [] && forall i :: 0 <= i < |w| ==> space(w[i]) && keep(w[i])
    requires v == [] || (keep(v[0]) && !space(v[0]))
    ensures CollapseRuns(Filter(u + w + v, keep), space)
         == CollapseRuns(Filter(u, keep), space) + "_" + CollapseRuns(Filter(v, keep), space)
  {
    FilterAppend(u + w, v, keep);
    FilterAppend(u, w, keep);
    assert forall c :: c in w ==> keep(c);
    FilterAll(w, keep);
    FilterKeepsLast(u, keep);
    FilterKeepsFirst(v, keep);
    CollapseRunBetween(Filter(u, keep), w, Filter(v, keep), space);
  }

  /** A run of white space between a letter or digit and another becomes a
      single underscore, and the two sides are made safe on their own. */
  lemma SafeTitleRun(u: string, w: string, v: string)
    requires u == [] || IsAsciiAlphanumeric(u[|u| - 1])
    requires w != [] && forall i :: 0 <= i < |w| ==> IsWhitespace(w[i])
    requires v == [] || IsAsciiAlphanumeric(v[0])
    ensures SafeTitle(u + w + v) == SafeTitle(u) + "_" + SafeTitle(v)
  {
    if u != [] {
      AlphanumericIsNotWhitespace(u[|u| - 1]);
    }
    if v != [] {
      AlphanumericIsNotWhitespace(v[0]);
    }
    CollapseKeptRun(u, w, v, KeptInFileName, IsWhitespace);
  }

  /** A title with no white space keeps just its letters and digits. */
  lemma SafeTitleWithoutSpaces(title: string)
    requires forall i :: 0 <= i < |title| ==> !IsWhitespace(title[i])
    ensures SafeTitle(title) == StripUnsafe(title)
  {
    var kept := StripUnsafe(title);
    forall i | 0 <= i < |kept| ensures !IsWhitespace(kept[i]) {
      assert kept[i] in kept;
    }
    CollapseWithoutSpaces(kept, IsWhitespace);
  }

  /** `fileName`: the safe title and the `.hymn` suffix, a name the import
      dialog accepts. */
  function ExportFileName(title: string): (r: string)
    ensures EndsWith(r, ".hymn") && IsImportableName(r)
    ensures r[..|r| - 5] == SafeTitle(title)
  {
    EndsWithSuffix(SafeTitle(title), ".hymn");
    SafeTitle(title) + ".hymn"
  }

  /** Exporting a hymn and importing the file gives back its title, author,
      category, verses, key signature and sheet URL; a hymn with an empty
      category comes back as "Imported". */
  lemma ExportThenImport(h: Hymn)
    requires h.title != "" && h.author != ""
    ensures ImportHymn(ExportFileName(h.title), Some(ExportedFile(HymnForExport(h))))
         == Ok(NewHymn(h.title, h.author, if h.category != "" then h.category else "Imported",
                       h.lyrics, h.keySignature, h.musicSheetUrl))
  {
  }

  /** A hymn without a title or an author exports to a file the import
      dialog refuses. */
  lemma ExportWithoutTitleIsRefused(h: Hymn)
    requires h.title == "" || h.author == ""
    ensures ImportHymn(ExportFileName(h.title), Some(ExportedFile(HymnForExport(h)))) == Err(InvalidFormat)
  {
  }

  /** `hymnText` of `copyHymnText`: a header of title, author and category,
      then the verses separated by blank lines. */
  function CopyText(h: Hymn): (r: string)
    ensures StartsWith(r, h.title + "\nBy: " + h.author + "\nCategory: " + h.category + "\n\n")
    ensures EndsWith(r, Join(h.lyrics, "\n\n"))
    ensures |r| == |h.title| + |h.author| + |h.category| + 18 + TotalLength(h.lyrics)
                   + (if h.lyrics == [] then 0 else (|h.lyrics| - 1) * 2)
  {
    var head := h.title + "\nBy: " + h.author + "\nCategory: " + h.category + "\n\n";
    EndsWithSuffix(head, Join(h.lyrics, "\n\n"));
    StartsWithPrefix(head, Join(h.lyrics, "\n\n"));
    JoinLength(h.lyrics, "\n\n");
    head + Join(h.lyrics, "\n\n")
  }

  /** The copied text opens with the title's first line, which is the whole
      title when it has no line break. */
  lemma CopyTextLayout(h: Hymn)
    ensures FirstLine(CopyText(h)) == FirstLine(h.title)
    ensures '\n' !in h.title ==> FirstLine(CopyText(h)) == h.title
  {
    var rest := "By: " + h.author + "\nCategory: " + h.category + "\n\n" + Join(h.lyrics, "\n\n");
    assert CopyText(h) == h.title + "\n" + rest;
    FirstLineOfPrefix(h.title, rest);
    if '\n' !in h.title {
      FirstLineOfLines(h.title, rest);
    }
  }
}
