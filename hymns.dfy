/** The hymn record, the eight hymns that ship with the app, and the list of
    categories offered by the category tabs and the forms. */
module Hymns {
  import opened Wrappers
  import opened Text

  /** One hymn. The TypeScript interface declares `tune` but not
      `keySignature`; the forms and the export read and write a
      `keySignature` all the same, so the record carries both. An optional
      field is `None` when it is `undefined`. */
  datatype Hymn = Hymn(
    id: int,
    number: int,
    title: string,
    author: string,
    firstLine: string,
    category: string,
    lyrics: seq<string>,
    tune: Option<string>,
    keySignature: Option<string>,
    isFavorite: Option<bool>,
    musicSheetUrl: Option<string>,
    addedAt: Option<int>)

  /** The record handed to `onAddHymn` by the add form and by the import
      dialog: a hymn without id, number, first line or timestamp. */
  datatype NewHymn = NewHymn(
    title: string,
    author: string,
    category: string,
    lyrics: seq<string>,
    keySignature: Option<string>,
    musicSheetUrl: Option<string>)

  /** A verse of two lines, separated by a line feed. */
  function Couplet(l1: string, l2: string): string {
    l1 + "\n" + l2
  }

  /** A verse of four lines, separated by line feeds. */
  function Stanza(l1: string, l2: string, l3: string, l4: string): string {
    l1 + "\n" + (l2 + "\n" + l3 + "\n" + l4)
  }

  /** `firstLine` as `handleAddHymn` and `EditHymnForm` compute it:
      `lyrics[0]?.split('\n')[0] || ""`. */
  function FirstLineOf(lyrics: seq<string>): (r: string)
    ensures lyrics == [] ==> r == ""
    ensures lyrics != [] ==> |r| <= |lyrics[0]| && r == lyrics[0][..|r|] && '\n' !in r
                             && (r == lyrics[0] || lyrics[0][|r|] == '\n')
  {
    if lyrics == [] then "" else FirstLine(lyrics[0])
  }

  const AmazingGrace: Hymn := Hymn(
    id := 1, number := 1, title := "Amazing Grace", author := "John Newton",
    firstLine := "Amazing grace, how sweet the sound",
    category := "Grace",
    lyrics := [
      Stanza(
        "Amazing grace, how sweet the sound",
        "That saved a wretch like me",
        "I once was lost, but now am found",
        "Was blind, but now I see"),
      Stanza(
        "'Twas grace that taught my heart to fear",
        "And grace my fears relieved",
        "How precious did that grace appear",
        "The hour I first believed"),
      Stanza(
        "Through many dangers, toils and snares",
        "I have already come",
        "'Tis grace hath brought me safe thus far",
        "And grace will lead me home")
    ],
    tune := Some("New Britain"), keySignature := None, isFavorite := None, musicSheetUrl := None, addedAt := None)

  const HowGreatThouArt: Hymn := Hymn(
    id := 2, number := 2, title := "How Great Thou Art", author := "Carl Boberg",
    firstLine := "O Lord my God, when I in awesome wonder",
    category := "Praise",
    lyrics := [
      Stanza(
        "O Lord my God, when I in awesome wonder",
        "Consider all the worlds Thy hands have made",
        "I see the stars, I hear the rolling thunder",
        "Thy power throughout the universe displayed"),
      Stanza(
        "Then sings my soul, my Savior God, to Thee",
        "How great Thou art, how great Thou art",
        "Then sings my soul, my Savior God, to Thee",
        "How great Thou art, how great Thou art")
    ],
    tune := Some("O Store Gud"), keySignature := None, isFavorite := None, musicSheetUrl := None, addedAt := None)

  const HolyHolyHoly: Hymn := Hymn(
    id := 3, number := 3, title := "Holy, Holy, Holy", author := "Reginald Heber",
    firstLine := "Holy, holy, holy! Lord God Almighty!",
    category := "Worship",
    lyrics := [
      Stanza(
        "Holy, holy, holy! Lord God Almighty!",
        "Early in the morning our song shall rise to Thee",
        "Holy, holy, holy! merciful and mighty!",
        "God in three Persons, blessed Trinity!"),
      Stanza(
        "Holy, holy, holy! All the saints adore Thee",
        "Casting down their golden crowns around the glassy sea",
        "Cherubim and seraphim falling down before Thee",
        "Which wert, and art, and evermore shalt be")
    ],
    tune := Some("Nicaea"), keySignature := None, isFavorite := None, musicSheetUrl := None, addedAt := None)

  const BeThouMyVision: Hymn := Hymn(
    id := 4, number := 4, title := "Be Thou My Vision", author := "Ancient Irish",
    firstLine := "Be Thou my vision, O Lord of my heart",
    category := "Guidance",
    lyrics := [
      Stanza(
        "Be Thou my vision, O Lord of my heart",
        "Naught be all else to me, save that Thou art",
        "Thou my best thought, by day or by night",
        "Waking or sleeping, Thy presence my light"),
      Stanza(
        "Be Thou my wisdom, and Thou my true word",
        "I ever with Thee and Thou with me, Lord",
        "Thou my great Father, I Thy true son",
        "Thou in me dwelling, and I with Thee one")
    ],
    tune := Some("Slane"), keySignature := None, isFavorite := None, musicSheetUrl := None, addedAt := None)

  const ItIsWellWithMySoul: Hymn := Hymn(
    id := 5, number := 5, title := "It Is Well With My Soul", author := "Horatio G. Spafford",
    firstLine := "When peace, like a river, attendeth my way",
    category := "Peace",
    lyrics := [
      Stanza(
        "When peace, like a river, attendeth my way",
        "When sorrows like sea billows roll",
        "Whatever my lot, Thou hast taught me to say",
        "It is well, it is well with my soul"),
      Couplet(
        "It is well with my soul",
        "It is well, it is well with my soul")
    ],
    tune := Some("Ville du Havre"), keySignature := None, isFavorite := None, musicSheetUrl := None, addedAt := None)

  const GreatIsThyFaithfulness: Hymn := Hymn(
    id := 6, number := 6, title := "Great Is Thy Faithfulness", author := "Thomas O. Chisholm",
    firstLine := "Great is Thy faithfulness, O God my Father",
    category := "Faithfulness",
    lyrics := [
      Stanza(
        "Great is Thy faithfulness, O God my Father",
        "There is no shadow of turning with Thee",
        "Thou changest not, Thy compassions, they fail not",
        "As Thou hast been, Thou forever will be"),
      Stanza(
        "Great is Thy faithfulness! Great is Thy faithfulness!",
        "Morning by morning new mercies I see",
        "All I have needed Thy hand hath provided",
        "Great is Thy faithfulness, Lord, unto me!")
    ],
    tune := Some("Faithfulness"), keySignature := None, isFavorite := None, musicSheetUrl := None, addedAt := None)

  const BlessedAssurance: Hymn := Hymn(
    id := 7, number := 7, title := "Blessed Assurance", author := "Fanny J. Crosby",
    firstLine := "Blessed assurance, Jesus is mine!",
    category := "Assurance",
    lyrics := [
      Stanza(
        "Blessed assurance, Jesus is mine!",
        "O what a foretaste of glory divine!",
        "Heir of salvation, purchase of God",
        "Born of His Spirit, washed in His blood"),
      Stanza(
        "This is my story, this is my song",
        "Praising my Savior all the day long",
        "This is my story, this is my song",
        "Praising my Savior all the day long")
    ],
    tune := Some("Assurance"), keySignature := None, isFavorite := None, musicSheetUrl := None, addedAt := None)

  const TheOldRuggedCross: Hymn := Hymn(
    id := 8, number := 8, title := "The Old Rugged Cross", author := "George Bennard",
    firstLine := "On a hill far away stood an old rugged cross",
    category := "Salvation",
    lyrics := [
      Stanza(
        "On a hill far away stood an old rugged cross",
        "The emblem of suffering and shame",
        "And I love that old cross where the dearest and best",
        "For a world of lost sinners was slain"),
      Stanza(
        "So I'll cherish the old rugged cross",
        "Till my trophies at last I lay down",
        "I will cling to the old rugged cross",
        "And exchange it some day for a crown")
    ],
    tune := Some("The Old Rugged Cross"), keySignature := None, isFavorite := None, musicSheetUrl := None, addedAt := None)

  const BuiltIns: seq<Hymn> := [AmazingGrace, HowGreatThouArt, HolyHolyHoly, BeThouMyVision, ItIsWellWithMySoul, GreatIsThyFaithfulness, BlessedAssurance, TheOldRuggedCross]

  const Categories: seq<string> :=
    ["All", "Grace", "Praise", "Worship", "Guidance", "Peace", "Faithfulness", "Assurance", "Salvation"]

  /** `hymnsData.find(h => h.id === id)`: the first built-in hymn with that
      id, if any. */
  function FindBuiltIn(id: int): (r: Option<Hymn>)
    ensures r.Some? ==> r.value in BuiltIns && r.value.id == id
    ensures r.None? <==> forall h :: h in BuiltIns ==> h.id != id
  {
    Find(BuiltIns, id)
  }

  function Find(hymns: seq<Hymn>, id: int): (r: Option<Hymn>)
    ensures r.Some? ==> r.value in hymns && r.value.id == id
    ensures r.None? <==> forall h :: h in hymns ==> h.id != id
  {
    if hymns == [] then None
    else if hymns[0].id == id then Some(hymns[0])
    else Find(hymns[1..], id)
  }

  /** `find` returns the first hymn with the id. */
  lemma {:induction false} FindFirst(hymns: seq<Hymn>, id: int)
    ensures Find(hymns, id).Some? ==>
              exists i :: 0 <= i < |hymns| && hymns[i] == Find(hymns, id).value &&
                          forall j :: 0 <= j < i ==> hymns[j].id != id
  {
    if hymns != [] && hymns[0].id != id {
      FindFirst(hymns[1..], id);
      if Find(hymns, id).Some? {
        var i :| 0 <= i < |hymns[1..]| && hymns[1..][i] == Find(hymns, id).value &&
                 forall j :: 0 <= j < i ==> hymns[1..][j].id != id;
        assert hymns[i + 1] == Find(hymns, id).value;
        assert forall j :: 0 <= j < i + 1 ==> hymns[j].id != id by {
          forall j | 0 <= j < i + 1 ensures hymns[j].id != id {
            if j > 0 {
              assert hymns[j] == hymns[1..][j - 1];
            }
          }
        }
      }
    }
  }

  /** The ids of the built-in hymns are 1 to 8, in order, so no two are
      equal. */
  lemma BuiltInIds()
    ensures |BuiltIns| == 8
    ensures forall i :: 0 <= i < |BuiltIns| ==> BuiltIns[i].id == i + 1
    ensures forall i, j :: 0 <= i < j < |BuiltIns| ==> BuiltIns[i].id != BuiltIns[j].id
  {
  }

  /** An id is a built-in one exactly when it lies between 1 and 8. */
  lemma BuiltInIdRange(id: int)
    ensures FindBuiltIn(id).Some? <==> 1 <= id <= 8
  {
    BuiltInIds();
    if 1 <= id <= 8 {
      assert BuiltIns[id - 1].id == id;
    }
  }

  /** `h` has at least one verse, and none of its verses is empty. */
  predicate VersesPresent(h: Hymn) {
    h.lyrics != [] && forall i :: 0 <= i < |h.lyrics| ==> h.lyrics[i] != ""
  }

  /** `h.firstLine` is the text of `h`'s first verse up to its first line
      feed. */
  predicate FirstLineAgrees(h: Hymn) {
    h.lyrics != [] && FirstLine(h.lyrics[0]) == h.firstLine
  }

  /** No verse is empty. */
  lemma VersesNonEmpty()
    ensures forall l1, l2 {:trigger Couplet(l1, l2)} :: Couplet(l1, l2) != []
    ensures forall l1, l2, l3, l4 {:trigger Stanza(l1, l2, l3, l4)} :: Stanza(l1, l2, l3, l4) != []
  {
  }

  /** A four-line verse whose first line holds no line feed has that line as
      its first line. */
  lemma StanzaFirstLine(l1: string, l2: string, l3: string, l4: string)
    requires '\n' !in l1
    ensures FirstLine(Stanza(l1, l2, l3, l4)) == l1
  {
    FirstLineOfLines(l1, l2 + "\n" + l3 + "\n" + l4);
  }

  lemma AmazingGraceOpening()
    ensures '\n' !in "Amazing grace, how sweet the sound"
  {
  }

  lemma AmazingGraceVerses()
    ensures VersesPresent(AmazingGrace)
  {
    VersesNonEmpty();
  }

  lemma AmazingGraceFirstLine()
    ensures FirstLineAgrees(AmazingGrace)
  {
    AmazingGraceOpening();
    StanzaFirstLine(
      "Amazing grace, how sweet the sound",
      "That saved a wretch like me",
      "I once was lost, but now am found",
      "Was blind, but now I see");
  }

  lemma HowGreatThouArtOpening()
    ensures '\n' !in "O Lord my God, when I in awesome wonder"
  {
  }

  lemma HowGreatThouArtVerses()
    ensures VersesPresent(HowGreatThouArt)
  {
    VersesNonEmpty();
  }

  lemma HowGreatThouArtFirstLine()
    ensures FirstLineAgrees(HowGreatThouArt)
  {
    HowGreatThouArtOpening();
    StanzaFirstLine(
      "O Lord my God, when I in awesome wonder",
      "Consider all the worlds Thy hands have made",
      "I see the stars, I hear the rolling thunder",
      "Thy power throughout the universe displayed");
  }

  lemma HolyHolyHolyOpening()
    ensures '\n' !in "Holy, holy, holy! Lord God Almighty!"
  {
  }

  lemma HolyHolyHolyVerses()
    ensures VersesPresent(HolyHolyHoly)
  {
    VersesNonEmpty();
  }

  lemma HolyHolyHolyFirstLine()
    ensures FirstLineAgrees(HolyHolyHoly)
  {
    HolyHolyHolyOpening();
    StanzaFirstLine(
      "Holy, holy, holy! Lord God Almighty!",
      "Early in the morning our song shall rise to Thee",
      "Holy, holy, holy! merciful and mighty!",
      "God in three Persons, blessed Trinity!");
  }

  lemma BeThouMyVisionOpening()
    ensures '\n' !in "Be Thou my vision, O Lord of my heart"
  {
  }

  lemma BeThouMyVisionVerses()
    ensures VersesPresent(BeThouMyVision)
  {
    VersesNonEmpty();
  }

  lemma BeThouMyVisionFirstLine()
    ensures FirstLineAgrees(BeThouMyVision)
  {
    BeThouMyVisionOpening();
    StanzaFirstLine(
      "Be Thou my vision, O Lord of my heart",
      "Naught be all else to me, save that Thou art",
      "Thou my best thought, by day or by night",
      "Waking or sleeping, Thy presence my light");
  }

  lemma ItIsWellWithMySoulOpening()
    ensures '\n' !in "When peace, like a river, attendeth my way"
  {
  }

  lemma ItIsWellWithMySoulVerses()
    ensures VersesPresent(ItIsWellWithMySoul)
  {
    VersesNonEmpty();
  }

  lemma ItIsWellWithMySoulFirstLine()
    ensures FirstLineAgrees(ItIsWellWithMySoul)
  {
    ItIsWellWithMySoulOpening();
    StanzaFirstLine(
      "When peace, like a river, attendeth my way",
      "When sorrows like sea billows roll",
      "Whatever my lot, Thou hast taught me to say",
      "It is well, it is well with my soul");
  }

  lemma GreatIsThyFaithfulnessOpening()
    ensures '\n' !in "Great is Thy faithfulness, O God my Father"
  {
  }

  lemma GreatIsThyFaithfulnessVerses()
    ensures VersesPresent(GreatIsThyFaithfulness)
  {
    VersesNonEmpty();
  }

  lemma GreatIsThyFaithfulnessFirstLine()
    ensures FirstLineAgrees(GreatIsThyFaithfulness)
  {
    GreatIsThyFaithfulnessOpening();
    StanzaFirstLine(
      "Great is Thy faithfulness, O God my Father",
      "There is no shadow of turning with Thee",
      "Thou changest not, Thy compassions, they fail not",
      "As Thou hast been, Thou forever will be");
  }

  lemma BlessedAssuranceOpening()
    ensures '\n' !in "Blessed assurance, Jesus is mine!"
  {
  }

  lemma BlessedAssuranceVerses()
    ensures VersesPresent(BlessedAssurance)
  {
    VersesNonEmpty();
  }

  lemma BlessedAssuranceFirstLine()
    ensures FirstLineAgrees(BlessedAssurance)
  {
    BlessedAssuranceOpening();
    StanzaFirstLine(
      "Blessed assurance, Jesus is mine!",
      "O what a foretaste of glory divine!",
      "Heir of salvation, purchase of God",
      "Born of His Spirit, washed in His blood");
  }

  lemma TheOldRuggedCrossOpening()
    ensures '\n' !in "On a hill far away stood an old rugged cross"
  {
  }

  lemma TheOldRuggedCrossVerses()
    ensures VersesPresent(TheOldRuggedCross)
  {
    VersesNonEmpty();
  }

  lemma TheOldRuggedCrossFirstLine()
    ensures FirstLineAgrees(TheOldRuggedCross)
  {
    TheOldRuggedCrossOpening();
    StanzaFirstLine(
      "On a hill far away stood an old rugged cross",
      "The emblem of suffering and shame",
      "And I love that old cross where the dearest and best",
      "For a world of lost sinners was slain");
  }

  /** Every built-in hymn has at least one verse, and none of its verses is
      empty. */
  lemma BuiltInVerses()
    ensures forall i :: 0 <= i < |BuiltIns| ==> VersesPresent(BuiltIns[i])
  {
    forall i | 0 <= i < |BuiltIns|
      ensures VersesPresent(BuiltIns[i])
    {
      if i == 0 { AmazingGraceVerses(); }
      else if i == 1 { HowGreatThouArtVerses(); }
      else if i == 2 { HolyHolyHolyVerses(); }
      else if i == 3 { BeThouMyVisionVerses(); }
      else if i == 4 { ItIsWellWithMySoulVerses(); }
      else if i == 5 { GreatIsThyFaithfulnessVerses(); }
      else if i == 6 { BlessedAssuranceVerses(); }
      else if i == 7 { TheOldRuggedCrossVerses(); }
    }
  }

  /** Every built-in hymn's `firstLine` is the first line of its first
      verse. */
  lemma BuiltInFirstLines()
    ensures forall i :: 0 <= i < |BuiltIns| ==> FirstLineAgrees(BuiltIns[i])
  {
    forall i | 0 <= i < |BuiltIns|
      ensures FirstLineAgrees(BuiltIns[i])
    {
      if i == 0 { AmazingGraceFirstLine(); }
      else if i == 1 { HowGreatThouArtFirstLine(); }
      else if i == 2 { HolyHolyHolyFirstLine(); }
      else if i == 3 { BeThouMyVisionFirstLine(); }
      else if i == 4 { ItIsWellWithMySoulFirstLine(); }
      else if i == 5 { GreatIsThyFaithfulnessFirstLine(); }
      else if i == 6 { BlessedAssuranceFirstLine(); }
      else if i == 7 { TheOldRuggedCrossFirstLine(); }
    }
  }

  /** Every built-in category is one of the tabs, and none is the "All"
      pseudo-category. */
  lemma BuiltInCategories()
    ensures forall i :: 0 <= i < |BuiltIns| ==> BuiltIns[i].category in Categories && BuiltIns[i].category != "All"
  {
  }

  /** No built-in hymn carries a timestamp. */
  lemma BuiltInsHaveNoTimestamp()
    ensures forall i :: 0 <= i < |BuiltIns| ==> BuiltIns[i].addedAt.None?
  {
  }

  /** The category list starts with "All" and names no category twice. */
  lemma CategoriesShape()
    ensures Categories[0] == "All"
    ensures forall i, j :: 0 <= i < j < |Categories| ==> Categories[i] != Categories[j]
  {
  }
}
