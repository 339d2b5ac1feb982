/** The add-hymn form: its fields, the verse editors, the music-sheet
    upload and the submission that hands a new hymn to the collection. */
module AddForm {
  import opened Wrappers
  import opened Text
  import opened Seqs
  import opened Hymns
  import opened HymnForm
  import opened Index

  /** The fields of a fresh form: everything empty and one empty verse. */
  const EmptyDraft := Draft("", "", "", [""], "", "")

  /** The record `handleSubmit` passes to `onAddHymn`, or why it refused:
      the title trimmed, author and category as entered, the blank verses
      dropped, and the optional fields trimmed or left out. */
  function SubmittedHymn(d: Draft): (r: Result<NewHymn, FormError>)
    ensures r.Err? <==> CheckSubmission(d).Err?
    ensures r.Err? ==> r.error == CheckSubmission(d).error
    ensures r.Ok? ==>
      && r.value.title == Trim(d.title) && r.value.title != ""
      && r.value.author == d.author && r.value.category == d.category
      && r.value.lyrics == NonBlankVerses(d.lyrics) && r.value.lyrics != []
      && (forall v :: v in r.value.lyrics ==> NonBlank(v))
      && r.value.keySignature == OptionalTrimmed(d.keySignature)
      && r.value.musicSheetUrl == OptionalTrimmed(d.musicSheetUrl)
  {
    match CheckSubmission(d)
    case Err(e) => Err(e)
    case Ok(kept) =>
      Ok(NewHymn(
        title := Trim(d.title), author := d.author, category := d.category, lyrics := kept,
        keySignature := OptionalTrimmed(d.keySignature), musicSheetUrl := OptionalTrimmed(d.musicSheetUrl)))
  }

  /** The form filled in with a record's own fields. */
  function Redraft(n: NewHymn): Draft {
    Draft(n.title, n.author, n.category, n.lyrics, n.keySignature.GetOr(""), n.musicSheetUrl.GetOr(""))
  }

  /** Typing a submitted record back into the form submits the same record:
      the normalisation is idempotent. */
  lemma SubmitIdempotent(d: Draft)
    requires SubmittedHymn(d).Ok?
    ensures SubmittedHymn(Redraft(SubmittedHymn(d).value)) == SubmittedHymn(d)
  {
    var n := SubmittedHymn(d).value;
    ResubmitChecks(n);
    OptionalTrimmedNormal(d.keySignature);
    OptionalTrimmedNormal(d.musicSheetUrl);
    NormalOptionalStable(n.keySignature);
    NormalOptionalStable(n.musicSheetUrl);
    TrimIdempotent(d.title);
  }

  /** A submitted record passes the checks again with its verses kept whole. */
  lemma ResubmitChecks(n: NewHymn)
    requires Trim(n.title) != "" && Trim(n.author) != "" && n.category != ""
    requires n.lyrics != [] && forall v :: v in n.lyrics ==> NonBlank(v)
    ensures CheckSubmission(Redraft(n)) == Ok(n.lyrics)
  {
    NonBlankVersesKeepsClean(n.lyrics);
  }

  /** A hymn added from this form, once `handleAddHymn` has given it an id
      and a timestamp, is in the shape the edit form keeps. */
  lemma AddedIsNormalized(d: Draft, id: int, addedAt: int)
    requires SubmittedHymn(d).Ok?
    ensures Normalized(NewHymnRecord(SubmittedHymn(d).value, id, addedAt))
  {
    var n := SubmittedHymn(d).value;
    var h := NewHymnRecord(n, id, addedAt);
    TrimIdempotent(d.title);
    OptionalTrimmedNormal(d.keySignature);
    OptionalTrimmedNormal(d.musicSheetUrl);
    assert h.title == Trim(d.title);
    assert !FieldsMissing(h.title, h.author, h.category);
    assert h.lyrics != [] && forall v :: v in h.lyrics ==> NonBlank(v);
    assert h.firstLine == FirstLine(h.lyrics[0]);
    assert NormalOptional(h.keySignature) && NormalOptional(h.musicSheetUrl);
  }

  /** The state of one `AddHymnForm`. */
  class AddHymnForm {
    var title: string
    var author: string
    var category: string
    var lyrics: seq<string>
    var keySignature: string
    var musicSheetUrl: string
    var musicSheetFile: Option<UploadFile>

    /** At least one verse editor is shown, and a kept sheet file has an
        accepted type. */
    ghost predicate Valid()
      reads this
    {
      && |lyrics| >= 1
      && (musicSheetFile.Some? ==> AcceptsSheetType(musicSheetFile.value.mimeType))
    }

    /** The text fields as one value. */
    function CurrentDraft(): Draft
      reads this
    {
      Draft(title, author, category, lyrics, keySignature, musicSheetUrl)
    }

    constructor()
      ensures Valid()
      ensures CurrentDraft() == EmptyDraft && musicSheetFile.None?
    {
      title, author, category := "", "", "";
      lyrics := [""];
      keySignature, musicSheetUrl := "", "";
      musicSheetFile := None;
    }

    /** `addVerse`: one more empty verse at the end. */
    method AddVerse()
      requires Valid()
      modifies this
      ensures Valid()
      ensures CurrentDraft() == old(CurrentDraft()).(lyrics := old(lyrics) + [""])
      ensures musicSheetFile == old(musicSheetFile)
    {
      lyrics := lyrics + [""];
    }

    /** `removeVerse`: drops the verse at `index`, unless it is the only
        one. */
    method RemoveVerse(index: int)
      requires Valid()
      modifies this
      ensures Valid()
      ensures CurrentDraft() == old(CurrentDraft()).(lyrics := if |old(lyrics)| > 1 then DropIndex(old(lyrics), index) else old(lyrics))
      ensures musicSheetFile == old(musicSheetFile)
    {
      if |lyrics| > 1 {
        lyrics := DropIndex(lyrics, index);
      }
    }

    /** `updateVerse`: the verse at `index` becomes `value`. */
    method UpdateVerse(index: int, value: string)
      requires Valid()
      requires 0 <= index < |lyrics|
      modifies this
      ensures Valid()
      ensures CurrentDraft() == old(CurrentDraft()).(lyrics := old(lyrics)[index := value])
      ensures musicSheetFile == old(musicSheetFile)
    {
      lyrics := lyrics[index := value];
    }

    /** `handleFileUpload`: no file picked changes nothing; a file of an
        accepted type is kept, and `objectUrl` (what `URL.createObjectURL`
        returned for it) becomes the sheet URL; any other file is refused. */
    method HandleFileUpload(file: Option<UploadFile>, objectUrl: string) returns (accepted: bool)
      requires Valid()
      modifies this
      ensures Valid()
      ensures accepted <==> file.Some? && AcceptsSheetType(file.value.mimeType)
      ensures accepted ==> musicSheetFile == file && CurrentDraft() == old(CurrentDraft()).(musicSheetUrl := objectUrl)
      ensures !accepted ==> musicSheetFile == old(musicSheetFile) && CurrentDraft() == old(CurrentDraft())
    {
      accepted := file.Some? && AcceptsSheetType(file.value.mimeType);
      if accepted {
        musicSheetFile := file;
        musicSheetUrl := objectUrl;
      }
    }

    /** `removeMusicSheet`. */
    method RemoveMusicSheet()
      requires Valid()
      modifies this
      ensures Valid()
      ensures musicSheetFile.None? && CurrentDraft() == old(CurrentDraft()).(musicSheetUrl := "")
    {
      musicSheetFile := None;
      musicSheetUrl := "";
    }

    /** `handleSubmit`: on success the record handed to `onAddHymn` and a
        reset form; on refusal nothing is handed on and nothing changes. */
    method HandleSubmit() returns (submitted: Option<NewHymn>)
      requires Valid()
      modifies this
      ensures Valid()
      ensures SubmittedHymn(old(CurrentDraft())).Ok? ==>
                && submitted == Some(SubmittedHymn(old(CurrentDraft())).value)
                && CurrentDraft() == EmptyDraft && musicSheetFile.None?
      ensures SubmittedHymn(old(CurrentDraft())).Err? ==>
                && submitted.None?
                && CurrentDraft() == old(CurrentDraft()) && musicSheetFile == old(musicSheetFile)
    {
      var r := SubmittedHymn(CurrentDraft());
      if r.Err? {
        return None;
      }
      submitted := Some(r.value);
      Reset();
    }

    /** The reset block at the end of a successful `handleSubmit`. */
    method Reset()
      modifies this
      ensures Valid()
      ensures CurrentDraft() == EmptyDraft && musicSheetFile.None?
    {
      title, author, category := "", "", "";
      lyrics := [""];
      keySignature, musicSheetUrl := "", "";
      musicSheetFile := None;
    }
  }
}
