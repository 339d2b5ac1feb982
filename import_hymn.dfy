/** The import dialog: the file-name check, and the validation and mapping of
    the record read from a hymn file. */
module ImportHymnDialog {
  import opened Wrappers
  import opened Text
  import opened Hymns

  /** A hymn file after `JSON.parse`, as far as the dialog reads it. A field
      the file does not have is `None`. */
  datatype HymnFile = HymnFile(
    id: Option<int>,
    number: Option<int>,
    title: Option<string>,
    author: Option<string>,
    firstLine: Option<string>,
    category: Option<string>,
    lyrics: Option<seq<string>>,
    keySignature: Option<string>,
    musicSheetUrl: Option<string>)

  /** Why an import failed. */
  datatype ImportError =
    | InvalidFileType  // the name has neither accepted suffix; the file is not read
    | InvalidFormat    // the text is not JSON, or the record fails validation

  /** `file.name.endsWith('.hymn') || file.name.endsWith('.json')`: the
      last five characters are one of the two suffixes. */
  function IsImportableName(name: string): (r: bool)
    ensures r <==> exists stem :: name == stem + ".hymn" || name == stem + ".json"
  {
    if EndsWith(name, ".hymn") || EndsWith(name, ".json") then
      assert name == name[..|name| - 5] + name[|name| - 5..];
      true
    else
      false
  }

  /** A string field that is present and not empty: truthy in JavaScript. */
  predicate Truthy(o: Option<string>) {
    o.Some? && o.value != ""
  }

  /** The outcome of `handleFileUpload` for a file called `name` whose text
      parses to `parsed` (`None` when `JSON.parse` throws). On success, the
      record handed to `onImportHymn`. */
  function ImportHymn(name: string, parsed: Option<HymnFile>): (r: Result<NewHymn, ImportError>)
    ensures r == Err(InvalidFileType) <==> !IsImportableName(name)
    ensures r == Err(InvalidFormat) <==>
              && IsImportableName(name)
              && (parsed.None? || !Truthy(parsed.value.title) || !Truthy(parsed.value.author) || parsed.value.lyrics.None?)
    ensures r.Ok? ==>
              && parsed.Some?
              && Some(r.value.title) == parsed.value.title && r.value.title != ""
              && Some(r.value.author) == parsed.value.author && r.value.author != ""
              && Some(r.value.lyrics) == parsed.value.lyrics
              && r.value.category != ""
              && (Truthy(parsed.value.category) ==> Some(r.value.category) == parsed.value.category)
              && r.value.keySignature == parsed.value.keySignature
              && r.value.musicSheetUrl == parsed.value.musicSheetUrl
  {
    if !IsImportableName(name) then Err(InvalidFileType)
    else if parsed.None? then Err(InvalidFormat)
    else
      var f := parsed.value;
      if !Truthy(f.title) || !Truthy(f.author) || f.lyrics.None? then Err(InvalidFormat)
      else
        Ok(NewHymn(
          title := f.title.value, author := f.author.value,
          category := if Truthy(f.category) then f.category.value else "Imported",
          lyrics := f.lyrics.value, keySignature := f.keySignature, musicSheetUrl := f.musicSheetUrl))
  }

  /** The id, number and first line a file carries play no part: the
      imported hymn gets a fresh id and first line from `handleAddHymn`. */
  lemma ImportIgnoresIdentity(name: string, f: HymnFile, id: Option<int>, number: Option<int>, firstLine: Option<string>)
    ensures ImportHymn(name, Some(f.(id := id, number := number, firstLine := firstLine))) == ImportHymn(name, Some(f))
  {
  }

  /** A missing or empty category becomes "Imported". */
  lemma ImportDefaultsCategory(name: string, f: HymnFile)
    requires ImportHymn(name, Some(f)).Ok?
    requires !Truthy(f.category)
    ensures ImportHymn(name, Some(f)).value.category == "Imported"
  {
  }

  /** The lyrics are not checked beyond being an array: a file with no
      verses is imported. */
  lemma ImportAcceptsNoVerses()
    ensures ImportHymn("a.hymn", Some(HymnFile(None, None, Some("T"), Some("A"), None, None, Some([]), None, None)))
         == Ok(NewHymn("T", "A", "Imported", [], None, None))
  {
    assert "a.hymn"[6 - 5..] == ".hymn";
  }
}
