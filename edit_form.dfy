/** The edit-hymn form: opened on an existing hymn, it edits a copy of its
    fields and hands the updated hymn to `onSave`. */
module EditForm {
  import opened Wrappers
  import opened Text
  import opened Hymns
  import opened HymnForm

  /** The fields the form opens with: the hymn's own, with a missing key
      signature or sheet URL shown as an empty box (`|| ""`). */
  function InitialDraft(h: Hymn): Draft {
    Draft(h.title, h.author, h.category, h.lyrics, h.keySignature.GetOr(""), h.musicSheetUrl.GetOr(""))
  }

  /** `updatedHymn` of `handleSubmit`, or why it refused: the original hymn
      with title (trimmed), author, category, the non-blank verses, the
      trimmed optional fields and a first line recomputed from the first
      kept verse; every other field is the original's. */
  function EditedHymn(h: Hymn, d: Draft): (r: Result<Hymn, FormError>)
    ensures r.Err? <==> CheckSubmission(d).Err?
    ensures r.Err? ==> r.error == CheckSubmission(d).error
    ensures r.Ok? ==>
      && r.value.id == h.id && r.value.number == h.number && r.value.tune == h.tune
      && r.value.isFavorite == h.isFavorite && r.value.addedAt == h.addedAt
      && r.value.title == Trim(d.title) && r.value.author == d.author && r.value.category == d.category
      && r.value.lyrics == NonBlankVerses(d.lyrics) && r.value.lyrics != []
      && r.value.firstLine == FirstLine(r.value.lyrics[0])
      && r.value.keySignature == OptionalTrimmed(d.keySignature)
      && r.value.musicSheetUrl == OptionalTrimmed(d.musicSheetUrl)
  {
    match CheckSubmission(d)
    case Err(e) => Err(e)
    case Ok(kept) =>
      Ok(h.(
        title := Trim(d.title), author := d.author, category := d.category, lyrics := kept,
        keySignature := OptionalTrimmed(d.keySignature), firstLine := FirstLineOf(kept),
        musicSheetUrl := OptionalTrimmed(d.musicSheetUrl)))
  }

  /** Saving the form of a normalised hymn without touching it gives back
      the same hymn. */
  lemma SaveUnchanged(h: Hymn)
    requires Normalized(h)
    ensures EditedHymn(h, InitialDraft(h)) == Ok(h)
  {
    NonBlankVersesKeepsClean(h.lyrics);
    NormalOptionalStable(h.keySignature);
    NormalOptionalStable(h.musicSheetUrl);
    assert CheckSubmission(InitialDraft(h)) == Ok(h.lyrics);
  }

  /** Whatever was typed, a saved hymn is normalised. */
  lemma EditedIsNormalized(h: Hymn, d: Draft)
    requires EditedHymn(h, d).Ok?
    ensures Normalized(EditedHymn(h, d).value)
  {
    var e := EditedHymn(h, d).value;
    TrimIdempotent(d.title);
    OptionalTrimmedNormal(d.keySignature);
    OptionalTrimmedNormal(d.musicSheetUrl);
    assert e.title == Trim(d.title);
  }

  /** Once the sheet is removed (its URL box emptied), a saved hymn has no
      sheet URL. */
  lemma RemovedSheetIsNotSaved(h: Hymn, d: Draft)
    requires d.musicSheetUrl == ""
    requires EditedHymn(h, d).Ok?
    ensures EditedHymn(h, d).value.musicSheetUrl.None?
  {
    assert AllWhitespace(d.musicSheetUrl);
  }

  /** The state of one `EditHymnForm`. */
  class EditHymnForm {
    const hymn: Hymn
    var title: string
    var author: string
    var category: string
    var lyrics: seq<string>
    var keySignature: string
    var musicSheetUrl: string
    var musicSheetFile: Option<UploadFile>

    /** A kept sheet file has an accepted type. */
    ghost predicate Valid()
      reads this
    {
      musicSheetFile.Some? ==> AcceptsSheetType(musicSheetFile.value.mimeType)
    }

    /** The text fields as one value. */
    function CurrentDraft(): Draft
      reads this
    {
      Draft(title, author, category, lyrics, keySignature, musicSheetUrl)
    }

    constructor(hymn: Hymn)
      ensures Valid()
      ensures this.hymn == hymn && CurrentDraft() == InitialDraft(hymn) && musicSheetFile.None?
    {
      this.hymn := hymn;
      title, author, category := hymn.title, hymn.author, hymn.category;
      lyrics := hymn.lyrics;
      keySignature, musicSheetUrl := hymn.keySignature.GetOr(""), hymn.musicSheetUrl.GetOr("");
      musicSheetFile := None;
    }

    /** `addVerse`: one more empty verse at the end. */
    method AddVerse()
      requires Valid()
      modifies this
      ensures Valid()
      ensures CurrentDraft() == old(CurrentDraft()).(lyrics := old(lyrics) + [""])
      ensures musicSheetFile == old(musicSheetFile)
    {
      lyrics := lyrics + [""];
    }

    /** `removeVerse`: drops the verse at `index`, unless it is the only
        one; a form with a verse keeps one. */
    method RemoveVerse(index: int)
      requires Valid()
      modifies this
      ensures Valid()
      ensures CurrentDraft() == old(CurrentDraft()).(lyrics := if |old(lyrics)| > 1 then DropIndex(old(lyrics), index) else old(lyrics))
      ensures musicSheetFile == old(musicSheetFile)
      ensures |old(lyrics)| >= 1 ==> |lyrics| >= 1
    {
      if |lyrics| > 1 {
        lyrics := DropIndex(lyrics, index);
      }
    }

    /** `updateVerse`: the verse at `index` becomes `value`. */
    method UpdateVerse(index: int, value: string)
      requires Valid()
      requires 0 <= index < |lyrics|
      modifies this
      ensures Valid()
      ensures CurrentDraft() == old(CurrentDraft()).(lyrics := old(lyrics)[index := value])
      ensures musicSheetFile == old(musicSheetFile)
    {
      lyrics := lyrics[index := value];
    }

    /** `handleFileUpload`: no file picked changes nothing; a file of an
        accepted type is kept, and `objectUrl` becomes the sheet URL; any
        other file is refused. */
    method HandleFileUpload(file: Option<UploadFile>, objectUrl: string) returns (accepted: bool)
      requires Valid()
      modifies this
      ensures Valid()
      ensures accepted <==> file.Some? && AcceptsSheetType(file.value.mimeType)
      ensures accepted ==> musicSheetFile == file && CurrentDraft() == old(CurrentDraft()).(musicSheetUrl := objectUrl)
      ensures !accepted ==> musicSheetFile == old(musicSheetFile) && CurrentDraft() == old(CurrentDraft())
    {
      accepted := file.Some? && AcceptsSheetType(file.value.mimeType);
      if accepted {
        musicSheetFile := file;
        musicSheetUrl := objectUrl;
      }
    }

    /** `removeMusicSheet`. */
    method RemoveMusicSheet()
      requires Valid()
      modifies this
      ensures Valid()
      ensures musicSheetFile.None? && CurrentDraft() == old(CurrentDraft()).(musicSheetUrl := "")
    {
      musicSheetFile := None;
      musicSheetUrl := "";
    }

    /** `handleSubmit`: the hymn handed to `onSave`, or nothing when the
        form is refused. The form itself is left as it is. */
    method HandleSubmit() returns (saved: Option<Hymn>)
      ensures EditedHymn(hymn, CurrentDraft()).Ok? ==> saved == Some(EditedHymn(hymn, CurrentDraft()).value)
      ensures EditedHymn(hymn, CurrentDraft()).Err? ==> saved.None?
    {
      var r := EditedHymn(hymn, CurrentDraft());
      saved := if r.Ok? then Some(r.value) else None;
    }
  }
}
