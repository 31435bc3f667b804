/**
 * The apocrypha reader of `components/ApocryphaReader.tsx`: the same view derivation as the Bible
 * reader, searched in the nine-book apocrypha catalog only, its links under `apocrypha/`, the
 * request for a chapter's text made only in the verses view, and the disclaimer banner.
 */
module ApocryphaReader {
  import opened Wrappers
  import opened Text
  import opened Records
  import opened Constants
  import opened BibleReader

  /** The view of the apocrypha reader for a fragment. */
  function ApocryphaView(fragment: string): ReaderView {
    DeriveView(ApocryphaBooks, fragment)
  }

  /** Book and chapter buttons lead back to the chapter grid and the verses of what they name. */
  lemma ApocryphaLinksRoundTrip(i: nat, c: nat)
    requires i < |ApocryphaBooks| && c >= 1
    ensures ApocryphaView(BookHash("apocrypha", ApocryphaBooks[i])) == ReaderView(Chapters, Some(ApocryphaBooks[i]), None)
    ensures ApocryphaView(ChapterHash("apocrypha", ApocryphaBooks[i], c))
      == ReaderView(Verses, Some(ApocryphaBooks[i]), Some(Num(c)))
  {
    ApocryphaFacts();
    assert '/' !in "apocrypha";
    BookHashRoundTrip(ApocryphaBooks, "apocrypha", i);
    ChapterHashRoundTrip(ApocryphaBooks, "apocrypha", i, c);
  }

  /** A book of the Bible is not found here: its link under `apocrypha/` shows the book list. */
  lemma BibleBookNotFound(i: nat)
    requires i < |BibleBooks|
    ensures ApocryphaView(BookHash("apocrypha", BibleBooks[i])).state == Books
  {
    ApocryphaFacts();
    BibleFacts();
    assert '/' !in "apocrypha";
    var b := BibleBooks[i];
    SplitCons("apocrypha", '/', b.name);
    assert Split(BookHash("apocrypha", b), '/') == ["apocrypha", b.name];
    assert forall j :: 0 <= j < |ApocryphaBooks| ==> ApocryphaBooks[j].name != b.name;
  }

  /** The banner saying these books are outside the canon shows only on the book list. */
  predicate ShowsDisclaimer(v: ReaderView) {
    v.state == Books
  }

  /** The disclaimer shows exactly when no apocrypha book is selected. */
  lemma DisclaimerOnlyOnBookList(fragment: string)
    ensures ShowsDisclaimer(ApocryphaView(fragment)) <==> ApocryphaView(fragment).book.None?
  {
  }

  /** The content request the fetch effect makes: a book name and chapter, in the verses view only. */
  function FetchRequest(v: ReaderView): (r: Option<(string, int)>)
    requires Consistent(v)
    ensures r.Some? <==> v.state == Verses
    ensures r.Some? ==> r.value.0 == v.book.value.name && r.value.1 == v.chapter.value.value && r.value.1 != 0
  {
    if v.state == Verses then Some((v.book.value.name, v.chapter.value.value)) else None
  }

  /** The apocrypha screen: the derived view, the loading flag, the fetched chapter and the last request. */
  class ApocryphaScreen {
    var view: ReaderView
    var loading: bool
    var chapterData: Option<seq<Verse>>
    var requested: Option<(string, int)>

    ghost predicate Valid()
      reads this
    {
      Consistent(view)
    }

    constructor(fragment: string)
      ensures Valid() && view == ApocryphaView(fragment)
      ensures !loading && chapterData.None? && requested.None?
    {
      view := ApocryphaView(fragment);
      loading := false;
      chapterData := None;
      requested := None;
    }

    /** The fetch effect: in the verses view it clears the old chapter, starts loading and asks for the new one. */
    method FetchEffect()
      requires Valid()
      modifies this
      ensures Valid() && view == old(view)
      ensures view.state == Verses ==> loading && chapterData.None? && requested == FetchRequest(view)
      ensures view.state != Verses ==>
        loading == old(loading) && chapterData == old(chapterData) && requested == old(requested)
    {
      if view.state == Verses {
        loading := true;
        chapterData := None;
        requested := FetchRequest(view);
      }
    }

    /** The request settles: the text arrives (or the error is logged) and loading ends. */
    method FetchSettled(data: Option<seq<Verse>>)
      requires Valid()
      modifies this
      ensures Valid() && view == old(view) && requested == old(requested)
      ensures !loading
      ensures chapterData == (if data.Some? then data else old(chapterData))
    {
      if data.Some? {
        chapterData := data;
      }
      loading := false;
    }
  }
}
