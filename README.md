# Hymnal companion: a Dafny model of the hymn collection

This project models the in-memory hymn collection of the hymnal companion
app. The model covers:

- the `Hymn` record, the eight built-in hymns and the category list;
- the alphabetical renumbering of `sortHymnsAlphabetically`;
- the collection state of the main page. This is the custom hymns and the
  favourite ids, changed by the add, edit, delete and favourite handlers. It
  also includes the views derived from that state: the full sorted list, the
  filtered list and the "Recent Hymns" section;
- the add-hymn and edit-hymn forms, with their verse editors, their
  music-sheet upload check and their submission rules;
- the import dialog's file-name check and record validation;
- the share dialog: the export projection, the safe file name and the
  clipboard text.

Each source file has one module. `Hymns` covers `src/data/hymns.ts` and
`HymnUtils` covers `src/utils/hymnUtils.ts`. `Index` covers
`src/pages/Index.tsx`, with the class `HymnCollection`. `HymnForm` holds the
submission rules the two forms share. `AddForm` and `EditForm` hold the
classes `AddHymnForm` and `EditHymnForm`. `ImportHymnDialog` and
`ShareHymnDialog` cover the two dialogs.

The helper modules are:

- `Wrappers`: `Option` and `Result`.
- `Text`: the JavaScript string built-ins the code calls, namely `trim`,
  `split('\n')[0]`, `toLowerCase`, `includes`, `startsWith`, `endsWith` and
  `join`.
- `Seqs`: `filter`, `map` and the subsequence relation.
- `Sorting`: a stable insertion sort. It stands for `Array.prototype.sort`,
  which section 23.1.3.30 of ECMA-262 requires to be stable.

React state setters become updates of class fields. Each handler becomes a
method whose `ensures` gives the whole new state in terms of a function. The
properties the app relies on are proved about those functions.

Some behaviours of the code are worth knowing; the model keeps them as they
are:

- An imported file with an empty `lyrics` array is accepted, although both
  forms refuse a hymn without a verse. The import only checks
  `Array.isArray` (`src/components/ImportHymnDialog.tsx:44`). See
  `ImportHymnDialog.ImportAcceptsNoVerses`.
- Editing an id that is neither built-in nor custom changes nothing; the
  handler shows no error, and the edit form still reports "Hymn Updated"
  (`src/pages/Index.tsx:97-99`, `src/components/EditHymnForm.tsx:108-113`).
  See `Index.ReplaceUnknownId`.
- The forms only check that the category is non-empty
  (`src/components/AddHymnForm.tsx:83`), not that it is one of the category
  list.
- New ids come from `Date.now()`, which is not guaranteed unique. The model
  takes the id as a parameter and assumes nothing about it.
- Toggling a favourite twice restores the favourites as a set, not as a
  list. A removed id comes back at the end of the list.

## Model

| member | source | states |
|---|---|---|
| Hymns.FirstLineOf | src/pages/Index.tsx:78 | with no verses the first line is empty; otherwise it is a prefix of the first verse with no line break in it |
| Hymns.FindBuiltIn | src/pages/Index.tsx:87 | a found hymn is built-in and has the id; nothing is found exactly when no built-in has the id |
| Hymns.Find | src/pages/Index.tsx:104 | a found hymn is in the list and has the id; nothing is found exactly when no hymn in the list has the id |
| Hymns.FindFirst | src/pages/Index.tsx:104 | a found hymn is the first one in the list with the id: no earlier hymn has it |
| Hymns.BuiltInIds | src/data/hymns.ts:15-121 | there are 8 built-ins, with ids 1 to 8 in order, pairwise distinct |
| Hymns.BuiltInIdRange | src/data/hymns.ts:15-121 | an id is built-in exactly when it lies between 1 and 8 |
| Hymns.StanzaFirstLine | src/data/hymns.ts:21-24 | the first line of a verse of four lines is its first line |
| Hymns.BuiltInVerses | src/data/hymns.ts:15-121 | every built-in has at least one verse and no empty verse |
| Hymns.BuiltInFirstLines | src/data/hymns.ts:15-121 | every built-in's `firstLine` is the first line of its first verse |
| Hymns.BuiltInCategories | src/data/hymns.ts:22 | every built-in's category is in the category list and is not "All" |
| Hymns.BuiltInsHaveNoTimestamp | src/data/hymns.ts:15-121 | no built-in carries `addedAt` |
| Hymns.CategoriesShape | src/data/hymns.ts:123 | the category list starts with "All" and has no duplicates |
| Text.Trim | src/components/AddHymnForm.tsx:83 | the trimmed text is a slice of the text, and it neither starts nor ends with whitespace |
| Text.TrimEmptyIffAllWhitespace | src/components/AddHymnForm.tsx:92 | a text trims to empty exactly when it is all whitespace |
| Text.TrimIdempotent | src/components/AddHymnForm.tsx:103 | trimming twice is trimming once |
| Text.FirstLine | src/pages/Index.tsx:78 | the first line is a prefix without a line break, ending where the text ends or at a line break |
| Text.FirstLineOfLines | src/components/ShareHymnDialog.tsx:81 | a line followed by a line break is the first line |
| Text.FirstLineOfPrefix | src/components/ShareHymnDialog.tsx:81 | whatever follows a line break, the first line of the text is the first line of what precedes it |
| Text.ToLower | src/pages/Index.tsx:55 | lowercasing keeps the length and maps each character |
| Text.Includes | src/pages/Index.tsx:57-60 | the query occurs in the text exactly when it occurs at some position |
| Text.StartsWithPrefix | src/components/ShareHymnDialog.tsx:81 | a text with a suffix appended starts with the text it was appended to |
| Text.EndsWithSuffix | src/components/ShareHymnDialog.tsx:44 | a text with a suffix appended ends with that suffix |
| Text.Join | src/components/ShareHymnDialog.tsx:81 | joining a single verse gives that verse |
| Text.JoinConcat | src/components/ShareHymnDialog.tsx:81 | joining two non-empty lists is joining each and putting the separator between them |
| Text.JoinLength | src/components/ShareHymnDialog.tsx:81 | the joined length is the total verse length plus one separator between each two verses |
| Text.LexLeqTotal | src/utils/hymnUtils.ts:4 | of two texts, one comes first or they tie |
| Text.LexLeqTransitive | src/utils/hymnUtils.ts:4 | the text order is transitive |
| Text.TitleLeqTotal | src/utils/hymnUtils.ts:4 | the title order is total |
| Text.TitleLeqTransitive | src/utils/hymnUtils.ts:4 | the title order is transitive |
| Seqs.Filter | src/pages/Index.tsx:47 | the filtered list is a subsequence holding exactly the passing elements, each as often as before |
| Seqs.FilterAll | src/components/EditHymnForm.tsx:87 | filtering returns the list unchanged exactly when every element passes |
| Seqs.FilterFilter | src/components/ShareHymnDialog.tsx:43 | two filters in a row are one filter by both tests |
| Seqs.FilterAppend | src/components/AddHymnForm.tsx:92 | filtering distributes over concatenation |
| Seqs.FilterSkip | src/components/AddHymnForm.tsx:92 | an element the test refuses makes no difference to the result |
| Seqs.FilterKeepsFirst | src/components/ShareHymnDialog.tsx:43 | a first element that passes stays first |
| Seqs.FilterKeepsLast | src/components/ShareHymnDialog.tsx:43 | a last element that passes stays last |
| Seqs.FilterNoDuplicates | src/pages/Index.tsx:114 | filtering a list without duplicates leaves none |
| Seqs.SubsequenceTransitive | src/pages/Index.tsx:46-62 | a subsequence of a subsequence is a subsequence |
| Seqs.Map | src/utils/hymnUtils.ts:7-10 | mapping keeps the length |
| Seqs.MapAt | src/utils/hymnUtils.ts:7-10 | each mapped element is the function applied to the element |
| Seqs.MapConcat | src/pages/Index.tsx:36 | mapping distributes over concatenation |
| Sorting.Insert | src/utils/hymnUtils.ts:4 | insertion adds exactly the one element |
| Sorting.SortBy | src/utils/hymnUtils.ts:4 | sorting is a permutation of its input |
| Sorting.InsertSorted | src/utils/hymnUtils.ts:4 | inserting into a sorted list under a total preorder keeps it sorted |
| Sorting.SortBySorted | src/utils/hymnUtils.ts:4 | under a total preorder the result is sorted |
| Sorting.InsertTies | src/utils/hymnUtils.ts:4 | insertion puts the new element in front of the elements that tie with it |
| Sorting.SortByStable | src/utils/hymnUtils.ts:4 | elements that tie keep their input order: the sort is stable |
| Sorting.SortBySortedInput | src/utils/hymnUtils.ts:4 | an input that is already sorted comes back unchanged |
| Sorting.SortByMap | src/utils/hymnUtils.ts:4 | a mapped sorted list holds the mapped input, as a multiset |
| Sorting.TiesAppend | src/pages/Index.tsx:204 | the ties of a concatenation are the ties of each part, in order |
| Sorting.PrefixIsLeast | src/pages/Index.tsx:204 | a prefix of a sorted permutation is ordered before every copy of an element that the prefix leaves out |
| Sorting.PrefixIsStableFront | src/pages/Index.tsx:204 | any prefix of a stable sort takes no element more often than the input has it, and of the elements that tie with any one, it takes the first ones of the input, in input order |
| HymnUtils.ByTitleTotalPreorder | src/utils/hymnUtils.ts:4 | the title comparison is a total preorder |
| HymnUtils.RenumberFrom | src/utils/hymnUtils.ts:7-10 | renumbering keeps every hymn and its position and sets only the numbers, counting up |
| HymnUtils.SortHymnsAlphabetically | src/utils/hymnUtils.ts:3-11 | the result has the input's length, is ordered by title, is numbered 1 to N by position, and is the input as a multiset once numbers are ignored |
| HymnUtils.TiesRenumber | src/utils/hymnUtils.ts:7-10 | renumbering does not reorder hymns with equal titles |
| HymnUtils.SortHymnsStable | src/utils/hymnUtils.ts:4 | hymns with equal titles keep their input order |
| HymnUtils.SortHymnsIdempotent | src/utils/hymnUtils.ts:3-11 | sorting and renumbering a sorted, renumbered list changes nothing |
| Index.ReplaceById | src/pages/Index.tsx:97-99 | every hymn with the id is replaced, and every other hymn stays in its place |
| Index.ReplaceUnknownId | src/pages/Index.tsx:97-99 | replacing an id no custom hymn has leaves the list unchanged |
| Index.RemoveById | src/pages/Index.tsx:113 | every hymn with the id is removed; the others keep their order and multiplicity |
| Index.RemoveId | src/pages/Index.tsx:114 | the id is removed from the favourites; the others keep their order and multiplicity, and a list without duplicates stays without them |
| Index.ToggleFavorite | src/pages/Index.tsx:124-127 | a missing id is appended at the end; a present id is removed everywhere and the rest keep their order; no other id changes, and a list without duplicates stays without them |
| Index.ToggleTwice | src/pages/Index.tsx:124-127 | toggling twice restores membership; it restores the list when the id was absent; otherwise the id moves to the end |
| Index.NewHymnRecord | src/pages/Index.tsx:75-81 | the new hymn has the given id and timestamp and number 0; its fields are the submitted ones; its first line is that of the first verse, or empty with no verse |
| Index.AllHymnsOf | src/pages/Index.tsx:35-38 | the full list has the built-ins and the custom hymns (numbers ignored), is ordered by title and numbered 1 to N |
| Index.AllHymnsLength | src/pages/Index.tsx:35-38 | the full list has 8 hymns more than the custom list |
| Index.Marked | src/pages/Index.tsx:41-44 | each hymn is flagged with whether its id is a favourite, in place |
| Index.FilterWhen | src/pages/Index.tsx:46-52 | an optional filter step keeps a subsequence; it removes exactly the failing hymns when it runs and changes nothing otherwise |
| Index.FilterStepsSublist | src/pages/Index.tsx:40-65 | the three filter steps keep a subsequence of the marked list |
| Index.FilterSteps | src/pages/Index.tsx:40-65 | the three optional steps keep exactly the visible hymns, each as often as before |
| Index.FilterStepsMembers | src/pages/Index.tsx:40-65 | whatever the steps keep is visible and comes from the marked list |
| Index.MarkedFlags | src/pages/Index.tsx:41-44 | every marked hymn's flag is its id's membership in the favourites |
| Index.FilteredHymnsOf | src/pages/Index.tsx:40-65 | `filteredHymns` is a subsequence of the marked list holding exactly its visible hymns. Each kept hymn has the right favourite flag, is on the favourites tab when that tab is active, and is in the chosen category. The search tests the untrimmed, lowercased query, and only when the trimmed query is not blank |
| Index.DefaultViewShowsAll | src/pages/Index.tsx:40-65 | not on the favourites tab, with category "All" and a blank query, every hymn is shown in order |
| Index.NewerOrSameTotalPreorder | src/pages/Index.tsx:204 | the newest-first comparison is a total preorder |
| Index.Take3 | src/pages/Index.tsx:204 | `slice(0, 3)` is the front of the list, of length at most 3 |
| Index.NewestFirst | src/pages/Index.tsx:204 | the stamped hymns, as a multiset, sorted newest first, with hymns of the same time in their order in the list |
| Index.NewestFirstFacts | src/pages/Index.tsx:204 | the newest-first list holds all and only the stamped hymns, as many as the list has |
| Index.FrontIsNewest | src/pages/Index.tsx:204 | the first three of a newest-first permutation of the stamped hymns are stamped, newest first, and as many as there are up to three; every stamped hymn kept fewer times than the list has it (so every copy left out) is no newer than any kept |
| Index.FrontKeepsOrder | src/pages/Index.tsx:204 | the first three of the newest-first list hold no hymn more often than the list has it stamped, and hymns of the same time come first-in-list first |
| Index.RecentFrontMembers | src/pages/Index.tsx:204 | the front of the newest-first list is empty exactly when no hymn is stamped, and holds hymns of the list only |
| Index.RecentFrontNewest | src/pages/Index.tsx:204-205 | the front of the newest-first list is the newest stamped hymns: no copy left out is newer than one kept, none is repeated beyond its count in the list, ties in list order |
| Index.RecentOf | src/pages/Index.tsx:204-216 | at most 3 hymns, all from the list. With a stamped hymn: the newest stamped hymns, newest first, as many as there are up to 3, no copy left out newer than one kept, no hymn more often than the list has it, and hymns added at the same time are the first of them in the list, in list order. Without one: the first 3 of the list |
| Index.HymnCollection.constructor | src/pages/Index.tsx:30-31 | no custom hymns, no favourites, and the built-in list as `hymnsData` |
| Index.HymnCollection.AllHymns | src/pages/Index.tsx:35-38 | the full list is `AllHymnsOf` the current built-ins and custom hymns (sorted by title, numbered), as long as both together |
| Index.HymnCollection.HandleAddHymn | src/pages/Index.tsx:67-84 | exactly one new record is appended to the custom hymns; the earlier ones and the favourites are unchanged |
| Index.HymnCollection.HandleEditHymn | src/pages/Index.tsx:86-101 | refused exactly for a built-in id, leaving the state unchanged; otherwise every custom hymn with the id is replaced. The favourites never change, and they stay without duplicates |
| Index.HymnCollection.HandleDeleteHymn | src/pages/Index.tsx:103-121 | refused exactly for a built-in id, leaving the state unchanged; otherwise the id leaves both the custom hymns and the favourites, and the favourites stay without duplicates |
| Index.HymnCollection.HandleFavorite | src/pages/Index.tsx:123-136 | the favourites become the toggled list; the custom hymns are unchanged; no duplicates appear |
| HymnForm.NonBlankVerses | src/components/AddHymnForm.tsx:92 | the kept verses are a subsequence holding exactly the verses that are not all whitespace, each as often as before |
| HymnForm.NonBlankVersesIgnoresBlank | src/components/AddHymnForm.tsx:92 | a blank verse anywhere makes no difference to the verses kept |
| HymnForm.NonBlankVersesKeepsClean | src/components/EditHymnForm.tsx:87 | verses that are all non-blank are kept whole |
| HymnForm.OptionalTrimmed | src/components/AddHymnForm.tsx:107-108 | absent exactly when the text is all whitespace; otherwise the trimmed text, a non-empty slice of the text with no whitespace at either end |
| HymnForm.OptionalTrimmedNormal | src/components/AddHymnForm.tsx:107-108 | a trimmed optional field is in normal form |
| HymnForm.NormalOptionalStable | src/components/EditHymnForm.tsx:23-24 | a field in normal form shown in its box (`|| ""`) and trimmed again comes back unchanged |
| HymnForm.CheckSubmission | src/components/AddHymnForm.tsx:83-100 | "missing information" exactly when the trimmed title or author is empty or there is no category; "missing lyrics" exactly when the fields are there and every verse is blank; otherwise the non-blank verses, which are never empty |
| HymnForm.DropIndex | src/components/AddHymnForm.tsx:39 | with the index in range, one verse shorter, verses before the index unchanged and those after shifted down by one; with the index out of range, the list unchanged |
| HymnForm.DropIndexSplice | src/components/AddHymnForm.tsx:39 | with the index in range, the verses before the index followed by those after it |
| HymnForm.DropIndexOutOfRange | src/components/AddHymnForm.tsx:39 | an index out of range removes nothing |
| HymnForm.AcceptsSheetType | src/components/AddHymnForm.tsx:52 | a music sheet is accepted exactly when its type is `image/` followed by some subtype, or is `application/pdf` |
| AddForm.SubmittedHymn | src/components/AddHymnForm.tsx:80-109 | refused exactly when the checks refuse, with the same reason. Otherwise: the trimmed, non-empty title; author and category as entered; the non-blank verses, never empty; the optional fields trimmed or absent |
| AddForm.ResubmitChecks | src/components/AddHymnForm.tsx:83-100 | a submitted record typed back into the form passes the checks with all its verses kept |
| AddForm.SubmitIdempotent | src/components/AddHymnForm.tsx:102-109 | typing a submitted record back into the form submits the same record |
| AddForm.AddedIsNormalized | src/pages/Index.tsx:75-81 | a hymn added from the form, once given its id and timestamp, is in the normal form the edit form keeps |
| AddForm.AddHymnForm.constructor | src/components/AddHymnForm.tsx:24-30 | all fields are empty, with one empty verse and no sheet file |
| AddForm.AddHymnForm.AddVerse | src/components/AddHymnForm.tsx:33-35 | one empty verse is appended and nothing else changes |
| AddForm.AddHymnForm.RemoveVerse | src/components/AddHymnForm.tsx:37-41 | the verse at the index is removed unless it is the only one; nothing else changes, and a verse always remains |
| AddForm.AddHymnForm.UpdateVerse | src/components/AddHymnForm.tsx:43-47 | only the verse at the index changes |
| AddForm.AddHymnForm.HandleFileUpload | src/components/AddHymnForm.tsx:49-69 | a file is accepted exactly when its type starts with "image/" or is "application/pdf". When accepted, the file is kept and its object URL becomes the sheet URL; otherwise nothing changes |
| AddForm.AddHymnForm.RemoveMusicSheet | src/components/AddHymnForm.tsx:71-78 | no sheet file and an empty sheet URL; nothing else changes |
| AddForm.AddHymnForm.HandleSubmit | src/components/AddHymnForm.tsx:80-124 | on success the submitted record is handed on and the form is reset; on refusal nothing is handed on and nothing changes |
| AddForm.AddHymnForm.Reset | src/components/AddHymnForm.tsx:111-118 | all fields are empty, with one empty verse and no sheet file |
| EditForm.EditedHymn | src/components/EditHymnForm.tsx:75-106 | refused exactly when the checks refuse, with the same reason. Otherwise the original hymn with: the trimmed title; author and category as entered; the non-blank verses, never empty; the first line of the first kept verse; the optional fields trimmed or absent. The id, number, tune, favourite flag and timestamp are kept |
| EditForm.SaveUnchanged | src/components/EditHymnForm.tsx:19-24 | saving the untouched form of a hymn in normal form gives back the same hymn |
| EditForm.EditedIsNormalized | src/components/EditHymnForm.tsx:97-106 | every saved hymn is in normal form |
| EditForm.RemovedSheetIsNotSaved | src/components/EditHymnForm.tsx:66-68 | once the sheet URL is emptied, a saved hymn has no sheet URL |
| EditForm.EditHymnForm.constructor | src/components/EditHymnForm.tsx:19-25 | the form opens with the hymn's own fields, with an empty box for a missing key signature or sheet URL |
| EditForm.EditHymnForm.AddVerse | src/components/EditHymnForm.tsx:28-30 | one empty verse is appended and nothing else changes |
| EditForm.EditHymnForm.RemoveVerse | src/components/EditHymnForm.tsx:32-36 | the verse at the index is removed unless it is the only one; a form with a verse keeps one |
| EditForm.EditHymnForm.UpdateVerse | src/components/EditHymnForm.tsx:38-42 | only the verse at the index changes |
| EditForm.EditHymnForm.HandleFileUpload | src/components/EditHymnForm.tsx:44-64 | a file is accepted exactly when its type starts with "image/" or is "application/pdf". When accepted, the file is kept and its object URL becomes the sheet URL; otherwise nothing changes |
| EditForm.EditHymnForm.RemoveMusicSheet | src/components/EditHymnForm.tsx:66-73 | no sheet file and an empty sheet URL; nothing else changes |
| EditForm.EditHymnForm.HandleSubmit | src/components/EditHymnForm.tsx:75-108 | the edited hymn is handed to `onSave` exactly when the checks pass |
| ImportHymnDialog.IsImportableName | src/components/ImportHymnDialog.tsx:29 | a file name is accepted exactly when it is some stem followed by `.hymn` or by `.json` |
| ImportHymnDialog.ImportHymn | src/components/ImportHymnDialog.tsx:29-58 | a name without either suffix gets "invalid file type". A parse failure, a missing title or author, or non-array lyrics gets "invalid format". Otherwise the record has the file's title, author, lyrics, key signature and sheet URL, and its category or "Imported" |
| ImportHymnDialog.ImportIgnoresIdentity | src/components/ImportHymnDialog.tsx:49-56 | the id, number and first line in the file make no difference |
| ImportHymnDialog.ImportDefaultsCategory | src/components/ImportHymnDialog.tsx:52 | a missing or empty category becomes "Imported" |
| ImportHymnDialog.ImportAcceptsNoVerses | src/components/ImportHymnDialog.tsx:44 | a file with an empty lyrics array is imported |
| ShareHymnDialog.HymnForExport | src/components/ShareHymnDialog.tsx:22-32 | the export record holds exactly the hymn's id, number, title, author, first line, category, lyrics, key signature and sheet URL |
| ShareHymnDialog.ExportIgnoresLocalFields | src/components/ShareHymnDialog.tsx:22-32 | the tune, the favourite flag and the timestamp are not exported |
| ShareHymnDialog.StripUnsafe | src/components/ShareHymnDialog.tsx:43 | exactly the ASCII letters, digits and whitespace are kept, each as often as in the title, in order |
| ShareHymnDialog.CollapseRuns | src/components/ShareHymnDialog.tsx:43 | collapsing never lengthens the text |
| ShareHymnDialog.CollapseAppend | src/components/ShareHymnDialog.tsx:43 | a text ending in a non-space collapses independently of what follows |
| ShareHymnDialog.CollapseRun | src/components/ShareHymnDialog.tsx:43 | a run of spaces followed by a non-space or the end becomes one underscore |
| ShareHymnDialog.CollapseWithoutSpaces | src/components/ShareHymnDialog.tsx:43 | a text without spaces is unchanged |
| ShareHymnDialog.CollapseRunBetween | src/components/ShareHymnDialog.tsx:43 | a maximal run of spaces between two texts becomes exactly one underscore between the collapsed texts |
| ShareHymnDialog.CollapseKeptRun | src/components/ShareHymnDialog.tsx:43 | the same after the character filter, for a run the filter keeps between characters it keeps |
| ShareHymnDialog.CollapseChars | src/components/ShareHymnDialog.tsx:43 | after collapsing, every character is an underscore or a kept character that is not a space |
| ShareHymnDialog.CollapseNoDoubleUnderscore | src/components/ShareHymnDialog.tsx:43 | on text without underscores, collapsing leaves no two underscores side by side |
| ShareHymnDialog.CollapseKeepsText | src/components/ShareHymnDialog.tsx:43 | collapsing only rewrites spaces: without its underscores it is the text without its spaces |
| ShareHymnDialog.CollapseStep | src/components/ShareHymnDialog.tsx:43 | what the previous lemma states for the rest of a text holds for the whole text |
| ShareHymnDialog.SafeTitle | src/components/ShareHymnDialog.tsx:43 | the safe title has only ASCII letters, digits and underscores, and never two underscores in a row |
| ShareHymnDialog.SafeTitleKeepsAlphanumerics | src/components/ShareHymnDialog.tsx:43 | without its underscores, the safe title is all the title's ASCII letters and digits, in order |
| ShareHymnDialog.SafeTitleRun | src/components/ShareHymnDialog.tsx:43 | white space between a letter or digit and another becomes one underscore, each side made safe on its own |
| ShareHymnDialog.SafeTitleWithoutSpaces | src/components/ShareHymnDialog.tsx:43 | a title without white space keeps just its ASCII letters and digits |
| ShareHymnDialog.ExportFileName | src/components/ShareHymnDialog.tsx:44 | the file name is the safe title followed by ".hymn", a name the import dialog accepts |
| ShareHymnDialog.ExportThenImport | src/components/ShareHymnDialog.tsx:22-44 | exporting a hymn with a title and an author and importing the file gives back its title, author, lyrics, key signature and sheet URL, and its category or "Imported" |
| ShareHymnDialog.ExportWithoutTitleIsRefused | src/components/ShareHymnDialog.tsx:22-44 | a hymn without a title or an author exports to a file the import refuses |
| ShareHymnDialog.CopyText | src/components/ShareHymnDialog.tsx:81 | the copied text starts with the title, `By:` author and `Category:` lines and a blank line, ends with the verses joined by blank lines, and its length is the parts' lengths plus the 18 characters of the labels and line breaks |
| ShareHymnDialog.CopyTextLayout | src/components/ShareHymnDialog.tsx:81 | the copied text's first line is the title's first line: the whole title when it has no line break |

## Left out

- Rendering, toasts, dialogs, tabs, the selected/edited/deleted hymn view
  state, and the `isImporting`/`isExporting` flags: presentation only.
- The UI components HymnCard, HymnDetail, MusicSheetView, Navigation,
  CategoryTabs, SearchBar and DeleteConfirmDialog: these only forward
  callbacks. The build and packaging configuration is left out too.
- `Date.now()`: the id and the `addedAt` timestamp of `handleAddHymn` are
  parameters. The code does not make ids unique and neither does the model.
- `JSON.parse`, `JSON.stringify` and `file.text()`:
  - Import takes the parsed record as an `Option<HymnFile>`, with `None` for
    text that does not parse. Export gives the record the written text
    parses back to.
  - JSON values of other types are not modelled. These include a
    non-string title that is truthy and non-string verses.
  - A falsy category of another type (0, false, null) is modelled as a
    missing or empty one.
- `Blob`, `URL.createObjectURL`/`revokeObjectURL`, the DOM download link and
  `navigator.clipboard`:
  - The object URL of an uploaded sheet is a parameter.
  - The clipboard write and its failure are not modelled; only the copied
    text is.
- Text.TitleLeq: `localeCompare` is approximated as a lexicographic order on
  ASCII-lowercased titles. The `Sorting` lemmas hold for any total preorder;
  the `HymnUtils` lemmas are proved for this title order only.
- Text.ToLower: lowercases ASCII letters only; Unicode case mapping is not
  modelled.
- AddForm.AddHymnForm.UpdateVerse: requires the index to be a position of an
  existing verse. JavaScript would create holes in the array for an index
  past the end, but the form only calls it for a verse it shows.
- EditForm.EditHymnForm.UpdateVerse: the same precondition, for the same
  reason.
- `keySignature` is not declared in the `Hymn` interface
  (`src/data/hymns.ts:1-13`), but the forms and the export use it. The record
  carries it as an optional field beside `tune`.
- Index.HymnCollection.FilteredHymns and Index.HymnCollection.RecentHymns
  carry no contract of their own. They are `FilteredHymnsOf` and `RecentOf`
  on the current state, and those functions hold the properties.
