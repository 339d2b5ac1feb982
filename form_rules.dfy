/** The rules the add form and the edit form share: the required-field
    check, the blank-verse filter, the optional trimmed fields, the verse
    list editors and the music-sheet file-type check. */
module HymnForm {
  import opened Wrappers
  import opened Text
  import opened Seqs
  import opened Hymns

  /** Why `handleSubmit` refused the form. */
  datatype FormError =
    | MissingInformation  // a required field is blank
    | MissingLyrics       // no verse is left once blank verses are dropped

  /** The text fields of a hymn form as the user left them. */
  datatype Draft = Draft(
    title: string,
    author: string,
    category: string,
    lyrics: seq<string>,
    keySignature: string,
    musicSheetUrl: string)

  /** The file picked in the music-sheet input, as far as the forms look at
      it: its MIME type. */
  datatype UploadFile = UploadFile(mimeType: string)

  /** `!title.trim() || !author.trim() || !category`. The category is only
      checked for being non-empty. */
  predicate FieldsMissing(title: string, author: string, category: string) {
    Trim(title) == "" || Trim(author) == "" || category == ""
  }

  /** A verse that `verse.trim()` leaves truthy. */
  predicate NonBlank(verse: string) {
    Trim(verse) != ""
  }

  /** `lyrics.filter(verse => verse.trim())`. */
  function NonBlankVerses(lyrics: seq<string>): (r: seq<string>)
    ensures IsSubsequence(r, lyrics)
    ensures forall v :: v in r <==> v in lyrics && !AllWhitespace(v)
    ensures forall v :: multiset(r)[v] == if NonBlank(v) then multiset(lyrics)[v] else 0
  {
    forall v ensures NonBlank(v) <==> !AllWhitespace(v) {
      TrimEmptyIffAllWhitespace(v);
    }
    Filter(lyrics, NonBlank)
  }

  /** Blank verses anywhere in the list make no difference. */
  lemma NonBlankVersesIgnoresBlank(a: seq<string>, blank: string, b: seq<string>)
    requires AllWhitespace(blank)
    ensures NonBlankVerses(a + [blank] + b) == NonBlankVerses(a + b)
  {
    TrimEmptyIffAllWhitespace(blank);
    FilterSkip(a, blank, b, NonBlank);
  }

  /** `s.trim() || undefined`. */
  function OptionalTrimmed(s: string): (r: Option<string>)
    ensures r.None? <==> AllWhitespace(s)
    ensures r.Some? ==> r.value != "" && !IsWhitespace(r.value[0]) && !IsWhitespace(r.value[|r.value| - 1])
    ensures r.Some? ==> exists a, b :: 0 <= a <= b <= |s| && r.value == s[a..b]
    ensures r.Some? ==> r.value == Trim(s)
  {
    TrimEmptyIffAllWhitespace(s);
    var t := Trim(s);
    if t == "" then None else Some(t)
  }

  /** A list of verses none of which is blank is kept whole. */
  lemma NonBlankVersesKeepsClean(lyrics: seq<string>)
    requires forall v :: v in lyrics ==> NonBlank(v)
    ensures NonBlankVerses(lyrics) == lyrics
  {
    FilterAll(lyrics, NonBlank);
  }

  /** The checks of `handleSubmit` in order: the required fields, then the
      verses. On success, the verses that are kept. */
  function CheckSubmission(d: Draft): (r: Result<seq<string>, FormError>)
    ensures r == Err(MissingInformation) <==> FieldsMissing(d.title, d.author, d.category)
    ensures r == Err(MissingLyrics) <==> !FieldsMissing(d.title, d.author, d.category) && forall v :: v in d.lyrics ==> AllWhitespace(v)
    ensures r.Ok? ==> r.value == NonBlankVerses(d.lyrics) && r.value != []
  {
    if FieldsMissing(d.title, d.author, d.category) then Err(MissingInformation)
    else
      var kept := NonBlankVerses(d.lyrics);
      if kept == [] then
        assert forall v :: v in d.lyrics ==> AllWhitespace(v) by {
          forall v | v in d.lyrics ensures AllWhitespace(v) {
            assert v !in kept;
          }
        }
        Err(MissingLyrics)
      else
        assert kept[0] in kept;
        Ok(kept)
  }

  /** An optional text field as the forms store it: absent, or a non-empty
      string that trimming leaves as it is. */
  predicate NormalOptional(o: Option<string>) {
    o.None? || (o.value != "" && Trim(o.value) == o.value)
  }

  /** A hymn whose fields look as a successful form submission leaves them:
      a trimmed non-empty title, a non-blank author, a category, at least one
      verse and no blank verse, the first line of the first verse, and
      normalised optional fields. */
  predicate Normalized(h: Hymn) {
    && Trim(h.title) == h.title
    && !FieldsMissing(h.title, h.author, h.category)
    && h.lyrics != []
    && (forall v :: v in h.lyrics ==> NonBlank(v))
    && h.firstLine == FirstLine(h.lyrics[0])
    && NormalOptional(h.keySignature)
    && NormalOptional(h.musicSheetUrl)
  }

  /** What `trim() || undefined` stores is normalised. */
  lemma OptionalTrimmedNormal(s: string)
    ensures NormalOptional(OptionalTrimmed(s))
  {
    TrimIdempotent(s);
  }

  /** A normalised optional field survives being shown in its input box
      (`|| ""`) and stored again (`trim() || undefined`). */
  lemma NormalOptionalStable(o: Option<string>)
    requires NormalOptional(o)
    ensures OptionalTrimmed(o.GetOr("")) == o
  {
    if o.Some? {
      TrimEmptyIffAllWhitespace(o.value);
    } else {
      assert AllWhitespace("");
    }
  }

  /** `lyrics.filter((_, i) => i !== index)`: the list without the verse at
      `index`, or the whole list when no verse has that index. */
  function DropIndex(lyrics: seq<string>, index: int): (r: seq<string>)
    ensures |r| == if 0 <= index < |lyrics| then |lyrics| - 1 else |lyrics|
    ensures forall j :: 0 <= j < |r| && !(0 <= index <= j) ==> r[j] == lyrics[j]
    ensures forall j :: 0 <= index <= j < |r| ==> r[j] == lyrics[j + 1]
  {
    if lyrics == [] then []
    else (if index == 0 then [] else [lyrics[0]]) + DropIndex(lyrics[1..], index - 1)
  }

  /** Dropping a verse that exists is splicing it out. */
  lemma DropIndexSplice(lyrics: seq<string>, index: int)
    requires 0 <= index < |lyrics|
    ensures DropIndex(lyrics, index) == lyrics[..index] + lyrics[index + 1..]
  {
  }

  /** Dropping an index no verse has changes nothing. */
  lemma DropIndexOutOfRange(lyrics: seq<string>, index: int)
    requires !(0 <= index < |lyrics|)
    ensures DropIndex(lyrics, index) == lyrics
  {
  }

  /** `file.type.startsWith('image/') || file.type === 'application/pdf'`:
      any image type, and PDF. */
  function AcceptsSheetType(mimeType: string): (r: bool)
    ensures r <==> (exists subtype :: mimeType == "image/" + subtype) || mimeType == "application/pdf"
  {
    if StartsWith(mimeType, "image/") then
      assert mimeType == "image/" + mimeType[6..];
      true
    else
      mimeType == "application/pdf"
  }
}
