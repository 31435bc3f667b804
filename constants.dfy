/**
 * The static catalogs (`constants.ts`): the 66 books of the Bible and the 9 apocryphal books,
 * each with its chapter count, and the stored preference that gates the lion-roar sound.
 * `BIBLE_BOOKS` is written as eight consecutive groups, in the order of the source, so that
 * facts about each book can be checked group by group.
 */
module Constants {
  import opened Wrappers
  import opened Records
  import opened Storage

  /** The five books of the Law. */
  const Law: seq<Book> := [
    Book("Gênesis", Old, 50),
    Book("Êxodo", Old, 40),
    Book("Levítico", Old, 27),
    Book("Números", Old, 36),
    Book("Deuteronômio", Old, 34)
  ]

  /** The historical books. */
  const Histories: seq<Book> := [
    Book("Josué", Old, 24),
    Book("Juízes", Old, 21),
    Book("Rute", Old, 4),
    Book("1 Samuel", Old, 31),
    Book("2 Samuel", Old, 24),
    Book("1 Reis", Old, 22),
    Book("2 Reis", Old, 25),
    Book("1 Crônicas", Old, 29),
    Book("2 Crônicas", Old, 36),
    Book("Esdras", Old, 10),
    Book("Neemias", Old, 13),
    Book("Ester", Old, 10)
  ]

  /** The poetic and wisdom books. */
  const Wisdom: seq<Book> := [
    Book("Jó", Old, 42),
    Book("Salmos", Old, 150),
    Book("Provérbios", Old, 31),
    Book("Eclesiastes", Old, 12),
    Book("Cânticos", Old, 8)
  ]

  /** The major prophets. */
  const MajorProphets: seq<Book> := [
    Book("Isaías", Old, 66),
    Book("Jeremias", Old, 52),
    Book("Lamentações", Old, 5),
    Book("Ezequiel", Old, 48),
    Book("Daniel", Old, 12)
  ]

  /** The twelve minor prophets. */
  const MinorProphets: seq<Book> := [
    Book("Oseias", Old, 14),
    Book("Joel", Old, 3),
    Book("Amós", Old, 9),
    Book("Obadias", Old, 1),
    Book("Jonas", Old, 4),
    Book("Miqueias", Old, 7),
    Book("Naum", Old, 3),
    Book("Habacuque", Old, 3),
    Book("Sofonias", Old, 3),
    Book("Ageu", Old, 2),
    Book("Zacarias", Old, 14),
    Book("Malaquias", Old, 4)
  ]

  /** The gospels and Acts. */
  const GospelsAndActs: seq<Book> := [
    Book("Mateus", New, 28),
    Book("Marcos", New, 16),
    Book("Lucas", New, 24),
    Book("João", New, 21),
    Book("Atos", New, 28)
  ]

  /** The letters of Paul. */
  const PaulineEpistles: seq<Book> := [
    Book("Romanos", New, 16),
    Book("1 Coríntios", New, 16),
    Book("2 Coríntios", New, 13),
    Book("Gálatas", New, 6),
    Book("Efésios", New, 6),
    Book("Filipenses", New, 4),
    Book("Colossenses", New, 4),
    Book("1 Tessalonicenses", New, 5),
    Book("2 Tessalonicenses", New, 3),
    Book("1 Timóteo", New, 6),
    Book("2 Timóteo", New, 4),
    Book("Tito", New, 3),
    Book("Filemom", New, 1)
  ]

  /** The remaining letters and Revelation. */
  const LaterEpistles: seq<Book> := [
    Book("Hebreus", New, 13),
    Book("Tiago", New, 5),
    Book("1 Pedro", New, 5),
    Book("2 Pedro", New, 3),
    Book("1 João", New, 5),
    Book("2 João", New, 1),
    Book("3 João", New, 1),
    Book("Judas", New, 1),
    Book("Apocalipse", New, 22)
  ]

  const OldTestament: seq<Book> := Law + Histories + Wisdom + MajorProphets + MinorProphets

  const NewTestament: seq<Book> := GospelsAndActs + PaulineEpistles + LaterEpistles

  /** `BIBLE_BOOKS`, in canonical order. */
  const BibleBooks: seq<Book> := OldTestament + NewTestament

  /** `APOCRYPHA_BOOKS`. */
  const ApocryphaBooks: seq<Book> := [
    Book("1 Enoque", Old, 108),
    Book("Tobias", Old, 14),
    Book("Judite", Old, 16),
    Book("Sabedoria de Salomão", Old, 19),
    Book("Eclesiástico (Sirácida)", Old, 51),
    Book("Baruque", Old, 6),
    Book("1 Macabeus", Old, 16),
    Book("2 Macabeus", Old, 15),
    Book("Oração de Manassés", Old, 1)
  ]

  /** Chapters of the first `n` books. */
  function Total(books: seq<Book>, n: nat): nat
    requires n <= |books|
  {
    if n == 0 then 0 else Total(books, n - 1) + books[n - 1].chapters
  }

  /** Every book has at least one chapter and a name without `/`. */
  predicate WellFormed(books: seq<Book>) {
    forall i :: 0 <= i < |books| ==> books[i].chapters > 0 && '/' !in books[i].name
  }

  /** No two books share a name. */
  predicate DistinctNames(books: seq<Book>) {
    forall i, j :: 0 <= i < j < |books| ==> books[i].name != books[j].name
  }

  /** No book of `a` shares its name with a book of `b`. */
  predicate DisjointNames(a: seq<Book>, b: seq<Book>) {
    forall i, j :: 0 <= i < |a| && 0 <= j < |b| ==> a[i].name != b[j].name
  }

  predicate AllOf(books: seq<Book>, t: Testament) {
    forall i :: 0 <= i < |books| ==> books[i].testament == t
  }

  // Facts about each group, checked book by book.

  lemma LawChapters()
    ensures |Law| == 5 && Total(Law, |Law|) == 187
  {
    assert Total(Law, 1) == 50;
    assert Total(Law, 2) == 90;
    assert Total(Law, 3) == 117;
    assert Total(Law, 4) == 153;
  }

  lemma LawWellFormed0()
    ensures forall i :: 0 <= i < 4 <= |Law| ==> Law[i].chapters > 0 && '/' !in Law[i].name && Law[i].testament == Old
  {
  }

  lemma LawWellFormed4()
    ensures forall i :: 4 <= i < 5 <= |Law| ==> Law[i].chapters > 0 && '/' !in Law[i].name && Law[i].testament == Old
  {
  }

  lemma LawWellFormed()
    ensures WellFormed(Law) && AllOf(Law, Old)
  {
    LawWellFormed0();
    LawWellFormed4();
  }

  lemma LawNames()
    ensures DistinctNames(Law)
  {
  }

  lemma LawFacts()
    ensures |Law| == 5 && Total(Law, |Law|) == 187
    ensures WellFormed(Law) && DistinctNames(Law) && AllOf(Law, Old)
  {
    LawChapters();
    LawWellFormed();
    LawNames();
  }

  lemma HistoriesChapters()
    ensures |Histories| == 12 && Total(Histories, |Histories|) == 249
  {
    assert Total(Histories, 1) == 24;
    assert Total(Histories, 2) == 45;
    assert Total(Histories, 3) == 49;
    assert Total(Histories, 4) == 80;
    assert Total(Histories, 5) == 104;
    assert Total(Histories, 6) == 126;
    assert Total(Histories, 7) == 151;
    assert Total(Histories, 8) == 180;
    assert Total(Histories, 9) == 216;
    assert Total(Histories, 10) == 226;
    assert Total(Histories, 11) == 239;
  }

  lemma HistoriesWellFormed0()
    ensures forall i :: 0 <= i < 4 <= |Histories| ==> Histories[i].chapters > 0 && '/' !in Histories[i].name && Histories[i].testament == Old
  {
  }

  lemma HistoriesWellFormed4()
    ensures forall i :: 4 <= i < 8 <= |Histories| ==> Histories[i].chapters > 0 && '/' !in Histories[i].name && Histories[i].testament == Old
  {
  }

  lemma HistoriesWellFormed8()
    ensures forall i :: 8 <= i < 12 <= |Histories| ==> Histories[i].chapters > 0 && '/' !in Histories[i].name && Histories[i].testament == Old
  {
  }

  lemma HistoriesWellFormed()
    ensures WellFormed(Histories) && AllOf(Histories, Old)
  {
    HistoriesWellFormed0();
    HistoriesWellFormed4();
    HistoriesWellFormed8();
  }

  lemma HistoriesNamesFirst()
    ensures forall i, j :: 0 <= i < j < 6 <= |Histories| ==> Histories[i].name != Histories[j].name
  {
  }

  lemma HistoriesNamesSecond()
    ensures forall i, j :: 6 <= i < j < |Histories| ==> Histories[i].name != Histories[j].name
  {
  }

  lemma HistoriesNamesAcross()
    ensures forall i, j :: 0 <= i < 6 <= j < |Histories| ==> Histories[i].name != Histories[j].name
  {
  }

  lemma HistoriesNames()
    ensures DistinctNames(Histories)
  {
    HistoriesNamesFirst();
    HistoriesNamesSecond();
    HistoriesNamesAcross();
  }

  lemma HistoriesFacts()
    ensures |Histories| == 12 && Total(Histories, |Histories|) == 249
    ensures WellFormed(Histories) && DistinctNames(Histories) && AllOf(Histories, Old)
  {
    HistoriesChapters();
    HistoriesWellFormed();
    HistoriesNames();
  }

  lemma WisdomChapters()
    ensures |Wisdom| == 5 && Total(Wisdom, |Wisdom|) == 243
  {
    assert Total(Wisdom, 1) == 42;
    assert Total(Wisdom, 2) == 192;
    assert Total(Wisdom, 3) == 223;
    assert Total(Wisdom, 4) == 235;
  }

  lemma WisdomWellFormed0()
    ensures forall i :: 0 <= i < 4 <= |Wisdom| ==> Wisdom[i].chapters > 0 && '/' !in Wisdom[i].name && Wisdom[i].testament == Old
  {
  }

  lemma WisdomWellFormed4()
    ensures forall i :: 4 <= i < 5 <= |Wisdom| ==> Wisdom[i].chapters > 0 && '/' !in Wisdom[i].name && Wisdom[i].testament == Old
  {
  }

  lemma WisdomWellFormed()
    ensures WellFormed(Wisdom) && AllOf(Wisdom, Old)
  {
    WisdomWellFormed0();
    WisdomWellFormed4();
  }

  lemma WisdomNames()
    ensures DistinctNames(Wisdom)
  {
  }

  lemma WisdomFacts()
    ensures |Wisdom| == 5 && Total(Wisdom, |Wisdom|) == 243
    ensures WellFormed(Wisdom) && DistinctNames(Wisdom) && AllOf(Wisdom, Old)
  {
    WisdomChapters();
    WisdomWellFormed();
    WisdomNames();
  }

  lemma MajorProphetsChapters()
    ensures |MajorProphets| == 5 && Total(MajorProphets, |MajorProphets|) == 183
  {
    assert Total(MajorProphets, 1) == 66;
    assert Total(MajorProphets, 2) == 118;
    assert Total(MajorProphets, 3) == 123;
    assert Total(MajorProphets, 4) == 171;
  }

  lemma MajorProphetsWellFormed0()
    ensures forall i :: 0 <= i < 4 <= |MajorProphets| ==> MajorProphets[i].chapters > 0 && '/' !in MajorProphets[i].name && MajorProphets[i].testament == Old
  {
  }

  lemma MajorProphetsWellFormed4()
    ensures forall i :: 4 <= i < 5 <= |MajorProphets| ==> MajorProphets[i].chapters > 0 && '/' !in MajorProphets[i].name && MajorProphets[i].testament == Old
  {
  }

  lemma MajorProphetsWellFormed()
    ensures WellFormed(MajorProphets) && AllOf(MajorProphets, Old)
  {
    MajorProphetsWellFormed0();
    MajorProphetsWellFormed4();
  }

  lemma MajorProphetsNames()
    ensures DistinctNames(MajorProphets)
  {
  }

  lemma MajorProphetsFacts()
    ensures |MajorProphets| == 5 && Total(MajorProphets, |MajorProphets|) == 183
    ensures WellFormed(MajorProphets) && DistinctNames(MajorProphets) && AllOf(MajorProphets, Old)
  {
    MajorProphetsChapters();
    MajorProphetsWellFormed();
    MajorProphetsNames();
  }

  lemma MinorProphetsChapters()
    ensures |MinorProphets| == 12 && Total(MinorProphets, |MinorProphets|) == 67
  {
    assert Total(MinorProphets, 1) == 14;
    assert Total(MinorProphets, 2) == 17;
    assert Total(MinorProphets, 3) == 26;
    assert Total(MinorProphets, 4) == 27;
    assert Total(MinorProphets, 5) == 31;
    assert Total(MinorProphets, 6) == 38;
    assert Total(MinorProphets, 7) == 41;
    assert Total(MinorProphets, 8) == 44;
    assert Total(MinorProphets, 9) == 47;
    assert Total(MinorProphets, 10) == 49;
    assert Total(MinorProphets, 11) == 63;
  }

  lemma MinorProphetsWellFormed0()
    ensures forall i :: 0 <= i < 4 <= |MinorProphets| ==> MinorProphets[i].chapters > 0 && '/' !in MinorProphets[i].name && MinorProphets[i].testament == Old
  {
  }

  lemma MinorProphetsWellFormed4()
    ensures forall i :: 4 <= i < 8 <= |MinorProphets| ==> MinorProphets[i].chapters > 0 && '/' !in MinorProphets[i].name && MinorProphets[i].testament == Old
  {
  }

  lemma MinorProphetsWellFormed8()
    ensures forall i :: 8 <= i < 12 <= |MinorProphets| ==> MinorProphets[i].chapters > 0 && '/' !in MinorProphets[i].name && MinorProphets[i].testament == Old
  {
  }

  lemma MinorProphetsWellFormed()
    ensures WellFormed(MinorProphets) && AllOf(MinorProphets, Old)
  {
    MinorProphetsWellFormed0();
    MinorProphetsWellFormed4();
    MinorProphetsWellFormed8();
  }

  lemma MinorProphetsNamesFirst()
    ensures forall i, j :: 0 <= i < j < 6 <= |MinorProphets| ==> MinorProphets[i].name != MinorProphets[j].name
  {
  }

  lemma MinorProphetsNamesSecond()
    ensures forall i, j :: 6 <= i < j < |MinorProphets| ==> MinorProphets[i].name != MinorProphets[j].name
  {
  }

  lemma MinorProphetsNamesAcross()
    ensures forall i, j :: 0 <= i < 6 <= j < |MinorProphets| ==> MinorProphets[i].name != MinorProphets[j].name
  {
  }

  lemma MinorProphetsNames()
    ensures DistinctNames(MinorProphets)
  {
    MinorProphetsNamesFirst();
    MinorProphetsNamesSecond();
    MinorProphetsNamesAcross();
  }

  lemma MinorProphetsFacts()
    ensures |MinorProphets| == 12 && Total(MinorProphets, |MinorProphets|) == 67
    ensures WellFormed(MinorProphets) && DistinctNames(MinorProphets) && AllOf(MinorProphets, Old)
  {
    MinorProphetsChapters();
    MinorProphetsWellFormed();
    MinorProphetsNames();
  }

  lemma GospelsAndActsChapters()
    ensures |GospelsAndActs| == 5 && Total(GospelsAndActs, |GospelsAndActs|) == 117
  {
    assert Total(GospelsAndActs, 1) == 28;
    assert Total(GospelsAndActs, 2) == 44;
    assert Total(GospelsAndActs, 3) == 68;
    assert Total(GospelsAndActs, 4) == 89;
  }

  lemma GospelsAndActsWellFormed0()
    ensures forall i :: 0 <= i < 4 <= |GospelsAndActs| ==> GospelsAndActs[i].chapters > 0 && '/' !in GospelsAndActs[i].name && GospelsAndActs[i].testament == New
  {
  }

  lemma GospelsAndActsWellFormed4()
    ensures forall i :: 4 <= i < 5 <= |GospelsAndActs| ==> GospelsAndActs[i].chapters > 0 && '/' !in GospelsAndActs[i].name && GospelsAndActs[i].testament == New
  {
  }

  lemma GospelsAndActsWellFormed()
    ensures WellFormed(GospelsAndActs) && AllOf(GospelsAndActs, New)
  {
    GospelsAndActsWellFormed0();
    GospelsAndActsWellFormed4();
  }

  lemma GospelsAndActsNames()
    ensures DistinctNames(GospelsAndActs)
  {
  }

  lemma GospelsAndActsFacts()
    ensures |GospelsAndActs| == 5 && Total(GospelsAndActs, |GospelsAndActs|) == 117
    ensures WellFormed(GospelsAndActs) && DistinctNames(GospelsAndActs) && AllOf(GospelsAndActs, New)
  {
    GospelsAndActsChapters();
    GospelsAndActsWellFormed();
    GospelsAndActsNames();
  }

  lemma PaulineEpistlesChapters()
    ensures |PaulineEpistles| == 13 && Total(PaulineEpistles, |PaulineEpistles|) == 87
  {
    assert Total(PaulineEpistles, 1) == 16;
    assert Total(PaulineEpistles, 2) == 32;
    assert Total(PaulineEpistles, 3) == 45;
    assert Total(PaulineEpistles, 4) == 51;
    assert Total(PaulineEpistles, 5) == 57;
    assert Total(PaulineEpistles, 6) == 61;
    assert Total(PaulineEpistles, 7) == 65;
    assert Total(PaulineEpistles, 8) == 70;
    assert Total(PaulineEpistles, 9) == 73;
    assert Total(PaulineEpistles, 10) == 79;
    assert Total(PaulineEpistles, 11) == 83;
    assert Total(PaulineEpistles, 12) == 86;
  }

  lemma PaulineEpistlesWellFormed0()
    ensures forall i :: 0 <= i < 4 <= |PaulineEpistles| ==> PaulineEpistles[i].chapters > 0 && '/' !in PaulineEpistles[i].name && PaulineEpistles[i].testament == New
  {
  }

  lemma PaulineEpistlesWellFormed4()
    ensures forall i :: 4 <= i < 8 <= |PaulineEpistles| ==> PaulineEpistles[i].chapters > 0 && '/' !in PaulineEpistles[i].name && PaulineEpistles[i].testament == New
  {
  }

  lemma PaulineEpistlesWellFormed8()
    ensures forall i :: 8 <= i < 12 <= |PaulineEpistles| ==> PaulineEpistles[i].chapters > 0 && '/' !in PaulineEpistles[i].name && PaulineEpistles[i].testament == New
  {
  }

  lemma PaulineEpistlesWellFormed12()
    ensures forall i :: 12 <= i < 13 <= |PaulineEpistles| ==> PaulineEpistles[i].chapters > 0 && '/' !in PaulineEpistles[i].name && PaulineEpistles[i].testament == New
  {
  }

  lemma PaulineEpistlesWellFormed()
    ensures WellFormed(PaulineEpistles) && AllOf(PaulineEpistles, New)
  {
    PaulineEpistlesWellFormed0();
    PaulineEpistlesWellFormed4();
    PaulineEpistlesWellFormed8();
    PaulineEpistlesWellFormed12();
  }

  lemma PaulineEpistlesNamesFirst()
    ensures forall i, j :: 0 <= i < j < 6 <= |PaulineEpistles| ==> PaulineEpistles[i].name != PaulineEpistles[j].name
  {
  }

  lemma PaulineEpistlesNamesSecond()
    ensures forall i, j :: 6 <= i < j < |PaulineEpistles| ==> PaulineEpistles[i].name != PaulineEpistles[j].name
  {
  }

  lemma PaulineEpistlesNamesAcross()
    ensures forall i, j :: 0 <= i < 6 <= j < |PaulineEpistles| ==> PaulineEpistles[i].name != PaulineEpistles[j].name
  {
  }

  lemma PaulineEpistlesNames()
    ensures DistinctNames(PaulineEpistles)
  {
    PaulineEpistlesNamesFirst();
    PaulineEpistlesNamesSecond();
    PaulineEpistlesNamesAcross();
  }

  lemma PaulineEpistlesFacts()
    ensures |PaulineEpistles| == 13 && Total(PaulineEpistles, |PaulineEpistles|) == 87
    ensures WellFormed(PaulineEpistles) && DistinctNames(PaulineEpistles) && AllOf(PaulineEpistles, New)
  {
    PaulineEpistlesChapters();
    PaulineEpistlesWellFormed();
    PaulineEpistlesNames();
  }

  lemma LaterEpistlesChapters()
    ensures |LaterEpistles| == 9 && Total(LaterEpistles, |LaterEpistles|) == 56
  {
    assert Total(LaterEpistles, 1) == 13;
    assert Total(LaterEpistles, 2) == 18;
    assert Total(LaterEpistles, 3) == 23;
    assert Total(LaterEpistles, 4) == 26;
    assert Total(LaterEpistles, 5) == 31;
    assert Total(LaterEpistles, 6) == 32;
    assert Total(LaterEpistles, 7) == 33;
    assert Total(LaterEpistles, 8) == 34;
  }

  lemma LaterEpistlesWellFormed0()
    ensures forall i :: 0 <= i < 4 <= |LaterEpistles| ==> LaterEpistles[i].chapters > 0 && '/' !in LaterEpistles[i].name && LaterEpistles[i].testament == New
  {
  }

  lemma LaterEpistlesWellFormed4()
    ensures forall i :: 4 <= i < 8 <= |LaterEpistles| ==> LaterEpistles[i].chapters > 0 && '/' !in LaterEpistles[i].name && LaterEpistles[i].testament == New
  {
  }

  lemma LaterEpistlesWellFormed8()
    ensures forall i :: 8 <= i < 9 <= |LaterEpistles| ==> LaterEpistles[i].chapters > 0 && '/' !in LaterEpistles[i].name && LaterEpistles[i].testament == New
  {
  }

  lemma LaterEpistlesWellFormed()
    ensures WellFormed(LaterEpistles) && AllOf(LaterEpistles, New)
  {
    LaterEpistlesWellFormed0();
    LaterEpistlesWellFormed4();
    LaterEpistlesWellFormed8();
  }

  lemma LaterEpistlesNamesFirst()
    ensures forall i, j :: 0 <= i < j < 4 <= |LaterEpistles| ==> LaterEpistles[i].name != LaterEpistles[j].name
  {
  }

  lemma LaterEpistlesNamesSecond()
    ensures forall i, j :: 4 <= i < j < |LaterEpistles| ==> LaterEpistles[i].name != LaterEpistles[j].name
  {
  }

  lemma LaterEpistlesNamesAcross()
    ensures forall i, j :: 0 <= i < 4 <= j < |LaterEpistles| ==> LaterEpistles[i].name != LaterEpistles[j].name
  {
  }

  lemma LaterEpistlesNames()
    ensures DistinctNames(LaterEpistles)
  {
    LaterEpistlesNamesFirst();
    LaterEpistlesNamesSecond();
    LaterEpistlesNamesAcross();
  }

  lemma LaterEpistlesFacts()
    ensures |LaterEpistles| == 9 && Total(LaterEpistles, |LaterEpistles|) == 56
    ensures WellFormed(LaterEpistles) && DistinctNames(LaterEpistles) && AllOf(LaterEpistles, New)
  {
    LaterEpistlesChapters();
    LaterEpistlesWellFormed();
    LaterEpistlesNames();
  }

  lemma LawNotHistories()
    ensures DisjointNames(Law, Histories)
  {
  }

  lemma LawNotWisdom()
    ensures DisjointNames(Law, Wisdom)
  {
  }

  lemma LawNotMajorProphets()
    ensures DisjointNames(Law, MajorProphets)
  {
  }

  lemma LawNotMinorProphets()
    ensures DisjointNames(Law, MinorProphets)
  {
  }

  lemma LawNotGospelsAndActs()
    ensures DisjointNames(Law, GospelsAndActs)
  {
  }

  lemma LawNotPaulineEpistles()
    ensures DisjointNames(Law, PaulineEpistles)
  {
  }

  lemma LawNotLaterEpistles()
    ensures DisjointNames(Law, LaterEpistles)
  {
  }

  lemma HistoriesNotWisdom()
    ensures DisjointNames(Histories, Wisdom)
  {
  }

  lemma HistoriesNotMajorProphets()
    ensures DisjointNames(Histories, MajorProphets)
  {
  }

  lemma HistoriesNotMinorProphets()
    ensures DisjointNames(Histories, MinorProphets)
  {
  }

  lemma HistoriesNotGospelsAndActs()
    ensures DisjointNames(Histories, GospelsAndActs)
  {
  }

  lemma HistoriesNotPaulineEpistles()
    ensures DisjointNames(Histories, PaulineEpistles)
  {
  }

  lemma HistoriesNotLaterEpistles()
    ensures DisjointNames(Histories, LaterEpistles)
  {
  }

  lemma WisdomNotMajorProphets()
    ensures DisjointNames(Wisdom, MajorProphets)
  {
  }

  lemma WisdomNotMinorProphets()
    ensures DisjointNames(Wisdom, MinorProphets)
  {
  }

  lemma WisdomNotGospelsAndActs()
    ensures DisjointNames(Wisdom, GospelsAndActs)
  {
  }

  lemma WisdomNotPaulineEpistles()
    ensures DisjointNames(Wisdom, PaulineEpistles)
  {
  }

  lemma WisdomNotLaterEpistles()
    ensures DisjointNames(Wisdom, LaterEpistles)
  {
  }

  lemma MajorProphetsNotMinorProphets()
    ensures DisjointNames(MajorProphets, MinorProphets)
  {
  }

  lemma MajorProphetsNotGospelsAndActs()
    ensures DisjointNames(MajorProphets, GospelsAndActs)
  {
  }

  lemma MajorProphetsNotPaulineEpistles()
    ensures DisjointNames(MajorProphets, PaulineEpistles)
  {
  }

  lemma MajorProphetsNotLaterEpistles()
    ensures DisjointNames(MajorProphets, LaterEpistles)
  {
  }

  lemma MinorProphetsNotGospelsAndActs()
    ensures DisjointNames(MinorProphets, GospelsAndActs)
  {
  }

  lemma MinorProphetsNotPaulineEpistles()
    ensures DisjointNames(MinorProphets, PaulineEpistles)
  {
  }

  lemma MinorProphetsNotLaterEpistles()
    ensures DisjointNames(MinorProphets, LaterEpistles)
  {
  }

  lemma GospelsAndActsNotPaulineEpistles()
    ensures DisjointNames(GospelsAndActs, PaulineEpistles)
  {
  }

  lemma GospelsAndActsNotLaterEpistles()
    ensures DisjointNames(GospelsAndActs, LaterEpistles)
  {
  }

  lemma PaulineEpistlesNotLaterEpistles()
    ensures DisjointNames(PaulineEpistles, LaterEpistles)
  {
  }

  lemma ApocryphaNotLaw()
    ensures DisjointNames(ApocryphaBooks, Law)
  {
  }

  lemma ApocryphaNotHistories()
    ensures DisjointNames(ApocryphaBooks, Histories)
  {
  }

  lemma ApocryphaNotWisdom()
    ensures DisjointNames(ApocryphaBooks, Wisdom)
  {
  }

  lemma ApocryphaNotMajorProphets()
    ensures DisjointNames(ApocryphaBooks, MajorProphets)
  {
  }

  lemma ApocryphaNotMinorProphets()
    ensures DisjointNames(ApocryphaBooks, MinorProphets)
  {
  }

  lemma ApocryphaNotGospelsAndActs()
    ensures DisjointNames(ApocryphaBooks, GospelsAndActs)
  {
  }

  lemma ApocryphaNotPaulineEpistles()
    ensures DisjointNames(ApocryphaBooks, PaulineEpistles)
  {
  }

  lemma ApocryphaNotLaterEpistles()
    ensures DisjointNames(ApocryphaBooks, LaterEpistles)
  {
  }

  // Facts about concatenations.

  lemma {:induction false} TotalAppend(a: seq<Book>, b: seq<Book>, n: nat)
    requires n <= |b|
    ensures Total(a + b, |a| + n) == Total(a, |a|) + Total(b, n)
  {
    if n > 0 {
      TotalAppend(a, b, n - 1);
      assert (a + b)[|a| + n - 1] == b[n - 1];
    } else {
      TotalPrefix(a, b, |a|);
    }
  }

  lemma {:induction false} TotalPrefix(a: seq<Book>, b: seq<Book>, n: nat)
    requires n <= |a|
    ensures Total(a + b, n) == Total(a, n)
  {
    if n > 0 {
      TotalPrefix(a, b, n - 1);
      assert (a + b)[n - 1] == a[n - 1];
    }
  }

  lemma Concatenation(a: seq<Book>, b: seq<Book>)
    ensures WellFormed(a) && WellFormed(b) ==> WellFormed(a + b)
    ensures DistinctNames(a) && DistinctNames(b) && DisjointNames(a, b) ==> DistinctNames(a + b)
    ensures forall t :: AllOf(a, t) && AllOf(b, t) ==> AllOf(a + b, t)
    ensures Total(a + b, |a + b|) == Total(a, |a|) + Total(b, |b|)
  {
    assert forall i :: 0 <= i < |a| ==> (a + b)[i] == a[i];
    assert forall i :: |a| <= i < |a + b| ==> (a + b)[i] == b[i - |a|];
    TotalAppend(a, b, |b|);
  }

  lemma DisjointConcatenation(a: seq<Book>, b: seq<Book>, c: seq<Book>)
    ensures DisjointNames(a, c) && DisjointNames(b, c) ==> DisjointNames(a + b, c)
    ensures DisjointNames(a, b) && DisjointNames(a, c) ==> DisjointNames(a, b + c)
  {
    assert forall i :: 0 <= i < |a| ==> (a + b)[i] == a[i];
    assert forall i :: |a| <= i < |a + b| ==> (a + b)[i] == b[i - |a|];
    assert forall i :: 0 <= i < |b| ==> (b + c)[i] == b[i];
    assert forall i :: |b| <= i < |b + c| ==> (b + c)[i] == c[i - |b|];
  }

  lemma OldTestamentNames()
    ensures DistinctNames(OldTestament)
  {
    LawNames();
    HistoriesNames();
    WisdomNames();
    MajorProphetsNames();
    MinorProphetsNames();
    LawNotHistories();
    LawNotWisdom();
    LawNotMajorProphets();
    LawNotMinorProphets();
    HistoriesNotWisdom();
    HistoriesNotMajorProphets();
    HistoriesNotMinorProphets();
    WisdomNotMajorProphets();
    WisdomNotMinorProphets();
    MajorProphetsNotMinorProphets();
    var p := Law + Histories;
    Concatenation(Law, Histories);
    DisjointConcatenation(Law, Histories, Wisdom);
    Concatenation(p, Wisdom);
    var q := p + Wisdom;
    DisjointConcatenation(Law, Histories, MajorProphets);
    DisjointConcatenation(p, Wisdom, MajorProphets);
    Concatenation(q, MajorProphets);
    var r := q + MajorProphets;
    DisjointConcatenation(Law, Histories, MinorProphets);
    DisjointConcatenation(p, Wisdom, MinorProphets);
    DisjointConcatenation(q, MajorProphets, MinorProphets);
    Concatenation(r, MinorProphets);
  }

  /** The Old Testament: 39 books, 929 chapters. */
  lemma OldTestamentFacts()
    ensures |OldTestament| == 39 && Total(OldTestament, 39) == 929
    ensures WellFormed(OldTestament) && DistinctNames(OldTestament) && AllOf(OldTestament, Old)
  {
    LawChapters();
    HistoriesChapters();
    WisdomChapters();
    MajorProphetsChapters();
    MinorProphetsChapters();
    LawWellFormed();
    HistoriesWellFormed();
    WisdomWellFormed();
    MajorProphetsWellFormed();
    MinorProphetsWellFormed();
    OldTestamentNames();
    var p := Law + Histories;
    Concatenation(Law, Histories);
    Concatenation(p, Wisdom);
    var q := p + Wisdom;
    Concatenation(q, MajorProphets);
    Concatenation(q + MajorProphets, MinorProphets);
  }

  /** The New Testament: 27 books, 260 chapters. */
  lemma NewTestamentFacts()
    ensures |NewTestament| == 27 && Total(NewTestament, 27) == 260
    ensures WellFormed(NewTestament) && DistinctNames(NewTestament) && AllOf(NewTestament, New)
  {
    GospelsAndActsFacts();
    PaulineEpistlesFacts();
    LaterEpistlesFacts();
    GospelsAndActsNotPaulineEpistles();
    GospelsAndActsNotLaterEpistles();
    PaulineEpistlesNotLaterEpistles();
    Concatenation(GospelsAndActs, PaulineEpistles);
    DisjointConcatenation(GospelsAndActs, PaulineEpistles, LaterEpistles);
    Concatenation(GospelsAndActs + PaulineEpistles, LaterEpistles);
  }

  lemma LawNotNew()
    ensures DisjointNames(Law, NewTestament)
  {
    LawNotGospelsAndActs();
    LawNotPaulineEpistles();
    LawNotLaterEpistles();
    NotNew(Law);
  }

  lemma HistoriesNotNew()
    ensures DisjointNames(Histories, NewTestament)
  {
    HistoriesNotGospelsAndActs();
    HistoriesNotPaulineEpistles();
    HistoriesNotLaterEpistles();
    NotNew(Histories);
  }

  lemma WisdomNotNew()
    ensures DisjointNames(Wisdom, NewTestament)
  {
    WisdomNotGospelsAndActs();
    WisdomNotPaulineEpistles();
    WisdomNotLaterEpistles();
    NotNew(Wisdom);
  }

  lemma MajorProphetsNotNew()
    ensures DisjointNames(MajorProphets, NewTestament)
  {
    MajorProphetsNotGospelsAndActs();
    MajorProphetsNotPaulineEpistles();
    MajorProphetsNotLaterEpistles();
    NotNew(MajorProphets);
  }

  lemma MinorProphetsNotNew()
    ensures DisjointNames(MinorProphets, NewTestament)
  {
    MinorProphetsNotGospelsAndActs();
    MinorProphetsNotPaulineEpistles();
    MinorProphetsNotLaterEpistles();
    NotNew(MinorProphets);
  }

  lemma NotNew(a: seq<Book>)
    requires DisjointNames(a, GospelsAndActs) && DisjointNames(a, PaulineEpistles) && DisjointNames(a, LaterEpistles)
    ensures DisjointNames(a, NewTestament)
  {
    DisjointConcatenation(a, GospelsAndActs, PaulineEpistles);
    DisjointConcatenation(a, GospelsAndActs + PaulineEpistles, LaterEpistles);
  }

  lemma TestamentsDisjoint()
    ensures DisjointNames(OldTestament, NewTestament)
  {
    LawNotNew();
    HistoriesNotNew();
    WisdomNotNew();
    MajorProphetsNotNew();
    MinorProphetsNotNew();
    DisjointConcatenation(Law, Histories, NewTestament);
    DisjointConcatenation(Law + Histories, Wisdom, NewTestament);
    DisjointConcatenation(Law + Histories + Wisdom, MajorProphets, NewTestament);
    DisjointConcatenation(Law + Histories + Wisdom + MajorProphets, MinorProphets, NewTestament);
  }

  /**
   * `BIBLE_BOOKS`: 66 books, the first 39 of the Old Testament and the other 27 of the New,
   * every one with a positive chapter count, 1189 chapters in all, no two with the same name.
   */
  lemma BibleFacts()
    ensures |BibleBooks| == 66 && Total(BibleBooks, 66) == 1189
    ensures forall i :: 0 <= i < 39 ==> BibleBooks[i].testament == Old
    ensures forall i :: 39 <= i < 66 ==> BibleBooks[i].testament == New
    ensures WellFormed(BibleBooks) && DistinctNames(BibleBooks)
  {
    OldTestamentFacts();
    NewTestamentFacts();
    TestamentsDisjoint();
    Concatenation(OldTestament, NewTestament);
    assert forall i :: 0 <= i < 39 ==> BibleBooks[i] == OldTestament[i];
    assert forall i :: 39 <= i < 66 ==> BibleBooks[i] == NewTestament[i - 39];
  }

  lemma ApocryphaWellFormedFirst()
    ensures forall i :: 0 <= i < 3 <= |ApocryphaBooks| ==> ApocryphaBooks[i].chapters > 0 && '/' !in ApocryphaBooks[i].name
  {
  }

  lemma ApocryphaWellFormed3()
    ensures forall i :: 3 <= i < 4 <= |ApocryphaBooks| ==> ApocryphaBooks[i].chapters > 0 && '/' !in ApocryphaBooks[i].name
  {
    WisdomOfSolomonName();
  }

  lemma WisdomOfSolomonName()
    ensures '/' !in "Sabedoria de Salomão"
  {
  }

  lemma ApocryphaWellFormed4()
    ensures forall i :: 4 <= i < 5 <= |ApocryphaBooks| ==> ApocryphaBooks[i].chapters > 0 && '/' !in ApocryphaBooks[i].name
  {
    SirachName();
  }

  lemma SirachName()
    ensures '/' !in "Eclesiástico (Sirácida)"
  {
  }

  lemma ApocryphaWellFormed5()
    ensures forall i :: 5 <= i < 6 <= |ApocryphaBooks| ==> ApocryphaBooks[i].chapters > 0 && '/' !in ApocryphaBooks[i].name
  {
  }

  lemma ApocryphaWellFormedLast()
    ensures forall i :: 6 <= i < 9 <= |ApocryphaBooks| ==> ApocryphaBooks[i].chapters > 0 && '/' !in ApocryphaBooks[i].name
  {
  }

  lemma ApocryphaOwnFacts()
    ensures |ApocryphaBooks| == 9 && WellFormed(ApocryphaBooks)
  {
    ApocryphaWellFormedFirst();
    ApocryphaWellFormed3();
    ApocryphaWellFormed4();
    ApocryphaWellFormed5();
    ApocryphaWellFormedLast();
  }

  lemma ApocryphaNames()
    ensures DistinctNames(ApocryphaBooks)
  {
  }

  lemma ApocryphaNotOld()
    ensures DisjointNames(ApocryphaBooks, OldTestament)
  {
    ApocryphaNotLaw();
    ApocryphaNotHistories();
    ApocryphaNotWisdom();
    ApocryphaNotMajorProphets();
    ApocryphaNotMinorProphets();
    var a := ApocryphaBooks;
    DisjointConcatenation(a, Law, Histories);
    DisjointConcatenation(a, Law + Histories, Wisdom);
    DisjointConcatenation(a, Law + Histories + Wisdom, MajorProphets);
    DisjointConcatenation(a, Law + Histories + Wisdom + MajorProphets, MinorProphets);
  }

  lemma ApocryphaNotNew()
    ensures DisjointNames(ApocryphaBooks, NewTestament)
  {
    ApocryphaNotGospelsAndActs();
    ApocryphaNotPaulineEpistles();
    ApocryphaNotLaterEpistles();
    NotNew(ApocryphaBooks);
  }

  /** `APOCRYPHA_BOOKS`: 9 books with positive chapter counts, none named like a book of the Bible. */
  lemma ApocryphaFacts()
    ensures |ApocryphaBooks| == 9 && WellFormed(ApocryphaBooks) && DistinctNames(ApocryphaBooks)
    ensures DisjointNames(ApocryphaBooks, BibleBooks)
  {
    ApocryphaOwnFacts();
    ApocryphaNames();
    ApocryphaNotOld();
    ApocryphaNotNew();
    DisjointConcatenation(ApocryphaBooks, OldTestament, NewTestament);
  }

  /** `playLionRoar` plays unless the stored sound preference is exactly `'false'`. */
  predicate LionRoarPlays(stored: Option<Value>) {
    stored != Some(Raw("false"))
  }
}
