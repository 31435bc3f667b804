/**
 * The Bible reader of `components/BibleReader.tsx`: the view (book list, chapter grid or verses)
 * read off the address fragment, the links that lead back to each view, the per-verse notes and
 * their persistence, the verse selection, and the last-read record written on opening a chapter.
 * The derivation is shared with the apocrypha reader, which runs the same code on its own catalog.
 */
module BibleReader {
  import opened Wrappers
  import opened Text
  import opened Records
  import opened Storage
  import opened Constants

  datatype ViewState = Books | Chapters | Verses

  /** The derived reader state: `viewState`, `selectedBook` and `selectedChapter` (`None` is `null`). */
  datatype ReaderView = ReaderView(state: ViewState, book: Option<Book>, chapter: Option<Number>)

  /** `parts[i]`, `None` standing for `undefined` past the end. */
  function Segment(parts: seq<string>, i: nat): Option<string> {
    if i < |parts| then Some(parts[i]) else None
  }

  /** `catalog.find(b => b.name === name)`: the first book of that name. */
  function FindBook(catalog: seq<Book>, name: string): (r: Option<Book>)
    ensures r.None? <==> forall i :: 0 <= i < |catalog| ==> catalog[i].name != name
    ensures r.Some? ==> r.value in catalog && r.value.name == name
  {
    if catalog == [] then None
    else if catalog[0].name == name then Some(catalog[0])
    else
      var r := FindBook(catalog[1..], name);
      assert forall i :: 1 <= i < |catalog| ==> catalog[i] == catalog[1..][i - 1];
      r
  }

  /** With distinct names the search finds the very book that carries the name. */
  lemma {:induction false} FindBookAt(catalog: seq<Book>, i: nat)
    requires i < |catalog| && DistinctNames(catalog)
    ensures FindBook(catalog, catalog[i].name) == Some(catalog[i])
  {
    if i > 0 {
      assert catalog[0].name != catalog[i].name;
      assert DistinctNames(catalog[1..]) by {
        assert forall a :: 0 <= a < |catalog| - 1 ==> catalog[1..][a] == catalog[a + 1];
      }
      FindBookAt(catalog[1..], i - 1);
    }
  }

  /**
   * The view for a fragment: segment 1 names the book, segment 2 (when not empty) is read with
   * `parseInt`; a found book with a chapter other than 0 and NaN shows verses, a found book
   * otherwise shows chapters, and no book shows the book list.
   */
  function DeriveView(catalog: seq<Book>, fragment: string): (v: ReaderView)
    ensures v.state == Books <==> v.book.None?
    ensures v.state == Verses <==> v.book.Some? && v.chapter.Some? && Truthy(v.chapter.value)
    ensures v.book.Some? ==> v.book.value in catalog && Segment(Split(fragment, '/'), 1) == Some(v.book.value.name)
    ensures v.chapter == (if Segment(Split(fragment, '/'), 2).Some? && Segment(Split(fragment, '/'), 2).value != ""
      then Some(ParseInt(Segment(Split(fragment, '/'), 2).value)) else None)
  {
    var parts := Split(fragment, '/');
    var bookParam := Segment(parts, 1);
    var chapterParam := Segment(parts, 2);
    var book := if bookParam.Some? then FindBook(catalog, bookParam.value) else None;
    var chapter := if chapterParam.Some? && chapterParam.value != "" then Some(ParseInt(chapterParam.value)) else None;
    var state := if book.None? then Books else if chapter.Some? && Truthy(chapter.value) then Verses else Chapters;
    ReaderView(state, book, chapter)
  }

  /** The book list shows exactly when segment 1 is missing or names no book of the catalog. */
  lemma BooksWhenNoBook(catalog: seq<Book>, fragment: string)
    ensures DeriveView(catalog, fragment).state == Books <==>
      (|Split(fragment, '/')| < 2
       || forall i :: 0 <= i < |catalog| ==> catalog[i].name != Split(fragment, '/')[1])
  {
  }

  /**
   * A book whose chapter segment holds no digit (`abc`, or nothing at all) shows its chapter
   * grid: `parseInt` gives NaN, which is falsy.
   */
  lemma NonNumericChapterShowsGrid(catalog: seq<Book>, fragment: string)
    requires |Split(fragment, '/')| > 2
    requires FindBook(catalog, Split(fragment, '/')[1]).Some?
    requires forall k :: 0 <= k < |Split(fragment, '/')[2]| ==> !IsDigit(Split(fragment, '/')[2][k])
    ensures DeriveView(catalog, fragment).state == Chapters
    ensures DeriveView(catalog, fragment).book == FindBook(catalog, Split(fragment, '/')[1])
  {
    ParseIntNoDigit(Split(fragment, '/')[2]);
  }

  /**
   * A chapter segment that starts with a digit is read up to its first other character: `3abc`
   * is chapter 3, and a found book with a chapter other than 0 shows its verses.
   */
  lemma DigitChapterRead(catalog: seq<Book>, fragment: string)
    requires |Split(fragment, '/')| > 2
    requires Split(fragment, '/')[2] != [] && IsDigit(Split(fragment, '/')[2][0])
    ensures DeriveView(catalog, fragment).chapter == Some(Num(DigitsValue(LeadingDigits(Split(fragment, '/')[2]))))
    ensures FindBook(catalog, Split(fragment, '/')[1]).Some? && DigitsValue(LeadingDigits(Split(fragment, '/')[2])) != 0 ==>
      DeriveView(catalog, fragment).state == Verses
  {
    ParseIntLeading(Split(fragment, '/')[2]);
  }

  /** The verses view always has a book and a chapter number other than 0. */
  predicate Consistent(v: ReaderView) {
    v.state == Verses ==> v.book.Some? && v.chapter.Some? && Truthy(v.chapter.value)
  }

  /** `#<prefix>/<name>`: the link a book button sets. */
  function BookHash(prefix: string, b: Book): string {
    prefix + "/" + b.name
  }

  /** `#<prefix>/<name>/<c>`: the link a chapter button sets. */
  function ChapterHash(prefix: string, b: Book, c: nat): string {
    prefix + "/" + b.name + "/" + NatToString(c)
  }

  /** A book button of a well-formed catalog leads to that book's chapter grid. */
  lemma BookHashRoundTrip(catalog: seq<Book>, prefix: string, i: nat)
    requires i < |catalog| && WellFormed(catalog) && DistinctNames(catalog) && '/' !in prefix
    ensures DeriveView(catalog, BookHash(prefix, catalog[i])) == ReaderView(Chapters, Some(catalog[i]), None)
  {
    var b := catalog[i];
    SplitCons(prefix, '/', b.name);
    assert Split(BookHash(prefix, b), '/') == [prefix, b.name];
    FindBookAt(catalog, i);
  }

  /**
   * A chapter button leads to the verses of that book and chapter; any positive chapter does,
   * since the number is never compared with the book's chapter count.
   */
  lemma ChapterHashRoundTrip(catalog: seq<Book>, prefix: string, i: nat, c: nat)
    requires i < |catalog| && WellFormed(catalog) && DistinctNames(catalog) && '/' !in prefix
    requires c >= 1
    ensures DeriveView(catalog, ChapterHash(prefix, catalog[i], c)) == ReaderView(Verses, Some(catalog[i]), Some(Num(c)))
  {
    var b := catalog[i];
    var cs := NatToString(c);
    ChapterHashPieces(prefix, b.name, c);
    FindBookAt(catalog, i);
    ParseNatToString(c);
    assert cs != "";
  }

  /** A chapter link with the number 0 opens the book's chapter grid: `parseInt` gives 0, which is falsy. */
  lemma ChapterZeroRoundTrip(catalog: seq<Book>, prefix: string, i: nat)
    requires i < |catalog| && WellFormed(catalog) && DistinctNames(catalog) && '/' !in prefix
    ensures DeriveView(catalog, ChapterHash(prefix, catalog[i], 0)) == ReaderView(Chapters, Some(catalog[i]), Some(Num(0)))
  {
    var b := catalog[i];
    ChapterHashPieces(prefix, b.name, 0);
    FindBookAt(catalog, i);
    ParseNatToString(0);
    assert NatToString(0) != "";
  }

  /** A chapter link splits into the prefix, the book name and the chapter number. */
  lemma ChapterHashPieces(prefix: string, name: string, c: nat)
    requires '/' !in prefix && '/' !in name
    ensures Split(prefix + "/" + name + "/" + NatToString(c), '/') == [prefix, name, NatToString(c)]
  {
    var cs := NatToString(c);
    assert '/' !in cs by {
      assert forall k :: 0 <= k < |cs| ==> IsDigit(cs[k]);
    }
    ThreePieces(prefix, name, cs);
  }

  lemma ThreePieces(a: string, b: string, c: string)
    requires '/' !in a && '/' !in b && '/' !in c
    ensures Split(a + "/" + b + "/" + c, '/') == [a, b, c]
  {
    var rest := b + "/" + c;
    assert Split(rest, '/') == [b, c] by {
      SplitCons(b, '/', c);
    }
    assert a + "/" + b + "/" + c == a + "/" + rest;
    SplitCons(a, '/', rest);
  }

  /** The Bible reader's links, on the 66-book catalog. */
  lemma BibleLinksRoundTrip(i: nat, c: nat)
    requires i < |BibleBooks| && c >= 1
    ensures DeriveView(BibleBooks, BookHash("bible", BibleBooks[i])) == ReaderView(Chapters, Some(BibleBooks[i]), None)
    ensures DeriveView(BibleBooks, ChapterHash("bible", BibleBooks[i], c)) == ReaderView(Verses, Some(BibleBooks[i]), Some(Num(c)))
  {
    BibleFacts();
    assert '/' !in "bible";
    BookHashRoundTrip(BibleBooks, "bible", i);
    ChapterHashRoundTrip(BibleBooks, "bible", i, c);
  }

  /** `Array.from({length: chapters}, (_, i) => i + 1)`: the chapter grid. */
  function ChapterPicker(b: Book): (cs: seq<nat>)
    ensures |cs| == b.chapters
  {
    seq(b.chapters, i requires 0 <= i < b.chapters => i + 1)
  }

  /** The grid offers each chapter of the book once, in order, and nothing else. */
  lemma PickerOffersEveryChapter(b: Book)
    ensures forall c :: c in ChapterPicker(b) <==> 1 <= c <= b.chapters
    ensures forall i, j :: 0 <= i < j < b.chapters ==> ChapterPicker(b)[i] < ChapterPicker(b)[j]
  {
    forall c | 1 <= c <= b.chapters
      ensures c in ChapterPicker(b)
    {
      assert ChapterPicker(b)[c - 1] == c;
    }
  }

  /** The translations a stored preference may name. */
  const Versions: seq<string> := ["ACF", "ARA", "NVI", "NTLH"]

  /** The version in use: the stored preference when it names a known translation, else ACF. */
  function VersionPref(saved: Option<Value>): (v: string)
    ensures v in Versions
    ensures saved.Some? && saved.value.Raw? && saved.value.text in Versions ==> v == saved.value.text
    ensures !(saved.Some? && saved.value.Raw? && saved.value.text in Versions) ==> v == "ACF"
  {
    if saved.Some? && saved.value.Raw? && saved.value.text != "" && saved.value.text in Versions
    then saved.value.text
    else "ACF"
  }

  /** The label a template literal gives `selectedBook?.name`. */
  function BookLabel(book: Option<Book>): string {
    if book.Some? then book.value.name else "undefined"
  }

  /** The label a template literal gives `selectedChapter`. */
  function ChapterLabel(chapter: Option<Number>): string {
    match chapter
    case None => "null"
    case Some(NaN) => "NaN"
    case Some(Num(n)) => IntToString(n)
  }

  /** `<book>-<chapter>-<verse>`: the key a verse's note is stored under. */
  function NoteKey(view: ReaderView, verse: nat): string {
    BookLabel(view.book) + "-" + ChapterLabel(view.chapter) + "-" + NatToString(verse)
  }

  /** Within one chapter, different verses have different note keys. */
  lemma NoteKeysDistinct(view: ReaderView, v1: nat, v2: nat)
    requires v1 != v2
    ensures NoteKey(view, v1) != NoteKey(view, v2)
  {
    var p := BookLabel(view.book) + "-" + ChapterLabel(view.chapter) + "-";
    assert NoteKey(view, v1)[|p|..] == NatToString(v1);
    assert NoteKey(view, v2)[|p|..] == NatToString(v2);
    assert DigitsValue(NatToString(v1)) != DigitsValue(NatToString(v2));
  }

  /** `userNotes[key] || ''`. */
  function NoteFor(notes: map<string, string>, key: string): string {
    if key in notes then notes[key] else ""
  }

  /**
   * `handleSaveNote` on the map: the text is stored untrimmed under the key, or, when blank
   * after trimming, the key is deleted. `IsBlank(text)` holds exactly when `Trim(text)` is
   * empty (the contract of `Text.Trim`), so the test is written with it.
   */
  function SaveNote(notes: map<string, string>, key: string, text: string): (r: map<string, string>)
    ensures IsBlank(text) ==> key !in r
    ensures !IsBlank(text) ==> key in r && r[key] == text
  {
    var updated := notes[key := text];
    if IsBlank(text) then updated - {key} else updated
  }

  /** Saving one verse's note leaves every other note as it was. */
  lemma SaveNoteKeepsOthers(notes: map<string, string>, key: string, text: string, other: string)
    requires other != key
    ensures other in SaveNote(notes, key, text) <==> other in notes
    ensures other in notes ==> SaveNote(notes, key, text)[other] == notes[other]
  {
  }

  /** Opening the note of a verse after saving shows the saved text, or nothing after a blank save. */
  lemma SavedNoteReadsBack(notes: map<string, string>, key: string, text: string)
    ensures NoteFor(SaveNote(notes, key, text), key) == (if IsBlank(text) then "" else text)
  {
  }

  /** The map after a save: without the key when the text is blank, with the text under it otherwise. */
  lemma SaveNoteShape(notes: map<string, string>, key: string, text: string)
    ensures SaveNote(notes, key, text) == if IsBlank(text) then notes - {key} else notes[key := text]
  {
    if IsBlank(text) {
      RemoveAfterUpdate(notes, key, text);
    }
  }

  lemma RemoveAfterUpdate<K, V>(m: map<K, V>, k: K, v: V)
    ensures m[k := v] - {k} == m - {k}
  {
    assert (m[k := v] - {k}).Keys == (m - {k}).Keys;
  }

  lemma RemoveTwice<K, V>(m: map<K, V>, k: K)
    ensures (m - {k}) - {k} == m - {k}
  {
    assert ((m - {k}) - {k}).Keys == (m - {k}).Keys;
  }

  lemma UpdateAfterRemove<K, V>(m: map<K, V>, k: K, v: V)
    ensures (m - {k})[k := v] == m[k := v]
  {
    assert ((m - {k})[k := v]).Keys == (m[k := v]).Keys;
  }

  /** Saving twice under one key keeps only the second text. */
  lemma SaveNoteOverwrites(notes: map<string, string>, key: string, t1: string, t2: string)
    ensures SaveNote(SaveNote(notes, key, t1), key, t2) == SaveNote(notes, key, t2)
  {
    var once := SaveNote(notes, key, t1);
    SaveNoteShape(notes, key, t1);
    SaveNoteShape(once, key, t2);
    SaveNoteShape(notes, key, t2);
    if IsBlank(t1) && IsBlank(t2) {
      RemoveTwice(notes, key);
    } else if IsBlank(t2) {
      RemoveAfterUpdate(notes, key, t1);
    } else if IsBlank(t1) {
      UpdateAfterRemove(notes, key, t2);
    }
  }

  /** What the notes key holds after the persistence effect: the map only when it is not empty. */
  function PersistedNotes(stored: Option<Value>, notes: map<string, string>): (r: Option<Value>)
    ensures |notes| > 0 ==> r == Some(Notes(notes))
    ensures |notes| == 0 ==> r == stored
  {
    if |notes| > 0 then Some(Notes(notes)) else stored
  }

  /** The notes a freshly mounted reader loads from the notes key. */
  function LoadedNotes(stored: Option<Value>): map<string, string> {
    if stored.Some? && stored.value.Notes? then stored.value.notes else map[]
  }

  /**
   * Deleting the only note leaves it in storage: the map becomes empty, the effect skips the
   * write, and the next reader loads the deleted note again.
   */
  lemma DeletedLastNoteReturns(key: string, text: string, blank: string)
    requires IsBlank(blank)
    ensures var stored := Some(Notes(map[key := text]));
      var after := SaveNote(map[key := text], key, blank);
      after == map[] && LoadedNotes(PersistedNotes(stored, after)) == map[key := text]
  {
    var after := SaveNote(map[key := text], key, blank);
    assert key !in after;
    assert after.Keys == {};
  }

  /**
   * The persistence effect with an explicit "loaded" flag: the write is skipped only before the
   * notes have been read, so the first render cannot wipe stored notes and a deletion persists.
   */
  function PersistedNotesAfterLoad(stored: Option<Value>, notes: map<string, string>, loaded: bool): (r: Option<Value>)
    ensures loaded ==> r == Some(Notes(notes))
    ensures !loaded ==> r == stored
  {
    if loaded then Some(Notes(notes)) else stored
  }

  /** With the flag, the notes read back are always the ones last saved, deletions included. */
  lemma PersistAfterLoadReadsBack(stored: Option<Value>, notes: map<string, string>, key: string, text: string)
    ensures LoadedNotes(PersistedNotesAfterLoad(stored, SaveNote(notes, key, text), true)) == SaveNote(notes, key, text)
    ensures NoteFor(LoadedNotes(PersistedNotesAfterLoad(stored, SaveNote(notes, key, text), true)), key)
      == (if IsBlank(text) then "" else text)
  {
    var saved := SaveNote(notes, key, text);
    assert PersistedNotesAfterLoad(stored, saved, true) == Some(Notes(saved));
    assert LoadedNotes(Some(Notes(saved))) == saved;
    SavedNoteReadsBack(notes, key, text);
  }

  /** `handleVerseClick`: the selected verse deselects, any other verse becomes the selection. */
  function ClickVerse(active: Option<Verse>, v: Verse): (r: Option<Verse>)
    ensures active.Some? && active.value.verse == v.verse ==> r.None?
    ensures !(active.Some? && active.value.verse == v.verse) ==> r == Some(v)
  {
    if active.Some? && active.value.verse == v.verse then None else Some(v)
  }

  /** Clicking a verse twice from no selection clears the selection again. */
  lemma ClickTwiceDeselects(v: Verse)
    ensures ClickVerse(ClickVerse(None, v), v) == None
  {
  }

  /**
   * The reader screen: the fragment it was rendered for, the selection and note editor, the
   * notes map, the chosen translation, the last-read record, and the shared store.
   */
  class ReaderScreen {
    var store: Store
    var view: ReaderView
    var activeVerse: Option<Verse>
    var editingVerse: Option<Verse>
    var noteText: string
    var userNotes: map<string, string>
    var currentVersion: string
    var lastRead: Option<LastRead>
    var loading: bool

    ghost predicate Valid()
      reads this, store
    {
      store.Valid() && currentVersion in Versions && Consistent(view)
    }

    /** Mounting: derive the view, read the preferences and last-read record, then load the notes. */
    constructor(s: Store, fragment: string)
      requires s.Valid()
      ensures Valid() && store == s && s.items == old(s.items)
      ensures view == DeriveView(BibleBooks, fragment)
      ensures currentVersion == VersionPref(s.Get(VersionPrefKey))
      ensures lastRead == (if s.Get(LastReadKey).Some? && s.Get(LastReadKey).value.Position?
                           then Some(s.Get(LastReadKey).value.lastRead) else None)
      ensures userNotes == LoadedNotes(s.Get(NotesKey))
      ensures activeVerse.None? && editingVerse.None? && noteText == "" && !loading
    {
      store := s;
      view := DeriveView(BibleBooks, fragment);
      activeVerse := None;
      editingVerse := None;
      noteText := "";
      currentVersion := VersionPref(s.Get(VersionPrefKey));
      var saved := s.Get(LastReadKey);
      lastRead := if saved.Some? && saved.value.Position? then Some(saved.value.lastRead) else None;
      userNotes := LoadedNotes(s.Get(NotesKey));
      loading := false;
    }

    /** The persistence effect: the notes map is written only when it has at least one note. */
    method PersistNotes()
      requires Valid()
      modifies store
      ensures Valid()
      ensures PersistedNotes(old(store.Get(NotesKey)), userNotes) == store.Get(NotesKey)
      ensures forall k :: k != NotesKey ==> store.Get(k) == old(store.Get(k))
    {
      if |userNotes| > 0 {
        store.SetItem(NotesKey, Notes(userNotes));
      }
    }

    /** The fetch effect: opening a chapter starts loading and records it as the last one read. */
    method OpenChapter()
      requires Valid()
      modifies this, store
      ensures Valid() && store == old(store)
      ensures view.state == Verses ==>
        loading && lastRead == Some(LastRead(view.book.value.name, view.chapter.value.value))
        && store.items == old(store.items)[LastReadKey := Position(lastRead.value)]
      ensures view.state != Verses ==>
        loading == old(loading) && lastRead == old(lastRead) && store.items == old(store.items)
      ensures view == old(view) && userNotes == old(userNotes) && activeVerse == old(activeVerse)
      ensures editingVerse == old(editingVerse) && noteText == old(noteText) && currentVersion == old(currentVersion)
    {
      if view.state == Verses {
        loading := true;
        var record := LastRead(view.book.value.name, view.chapter.value.value);
        store.SetItem(LastReadKey, Position(record));
        lastRead := Some(record);
      }
    }

    /** `handleVerseClick`. */
    method HandleVerseClick(v: Verse)
      requires Valid()
      modifies this
      ensures Valid()
      ensures activeVerse == ClickVerse(old(activeVerse), v)
      ensures view == old(view) && userNotes == old(userNotes) && editingVerse == old(editingVerse)
      ensures noteText == old(noteText) && lastRead == old(lastRead) && loading == old(loading)
      ensures store == old(store) && currentVersion == old(currentVersion)
    {
      activeVerse := ClickVerse(activeVerse, v);
    }

    /** `handleNote`: the editor opens on the selected verse with its current note, and the selection closes. */
    method HandleNote()
      requires Valid()
      modifies this
      ensures Valid()
      ensures old(activeVerse).None? ==> editingVerse == old(editingVerse) && noteText == old(noteText)
      ensures old(activeVerse).Some? ==>
        editingVerse == old(activeVerse) && activeVerse.None?
        && noteText == NoteFor(userNotes, NoteKey(view, old(activeVerse).value.verse))
      ensures old(activeVerse).None? ==> activeVerse.None?
      ensures view == old(view) && userNotes == old(userNotes) && lastRead == old(lastRead)
      ensures loading == old(loading) && store == old(store) && currentVersion == old(currentVersion)
    {
      if activeVerse.Some? {
        noteText := NoteFor(userNotes, NoteKey(view, activeVerse.value.verse));
        editingVerse := activeVerse;
        activeVerse := None;
      }
    }

    /** `handleSaveNote`: the edited verse's note is saved (or deleted when blank) and the editor closes. */
    method HandleSaveNote()
      requires Valid()
      modifies this
      ensures Valid()
      ensures old(editingVerse).None? ==> userNotes == old(userNotes) && editingVerse.None?
      ensures old(editingVerse).Some? ==>
        userNotes == SaveNote(old(userNotes), NoteKey(view, old(editingVerse).value.verse), noteText)
        && editingVerse.None?
      ensures view == old(view) && activeVerse == old(activeVerse) && noteText == old(noteText)
      ensures lastRead == old(lastRead) && loading == old(loading) && store == old(store)
      ensures currentVersion == old(currentVersion)
    {
      if editingVerse.Some? {
        var key := NoteKey(view, editingVerse.value.verse);
        var saved := SaveNote(userNotes, key, noteText);
        userNotes := saved;
        editingVerse := None;
      }
    }
  }
}
