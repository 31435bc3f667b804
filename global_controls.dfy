/**
 * The voice commands of `components/GlobalControls.tsx`: a transcript, lower-cased, is matched
 * against help phrases, menu phrases, screen keywords in a fixed order, and finally the book
 * names of the Bible, whose passage is opened at the first number spoken. Also the listening
 * toggle of the microphone button.
 */
module GlobalControls {
  import opened Wrappers
  import opened Text
  import opened Records
  import opened Constants
  import opened BibleReader

  /** What a transcript makes the application do. */
  datatype Command =
    | SpeakHelp
    | OpenMenu
    | Open(hash: string)
    | OpenPassage(book: Book, chapter: nat)
    | Ignore

  predicate AsksForHelp(cmd: string) {
    Contains(cmd, "comandos") || Contains(cmd, "ajuda") || Contains(cmd, "o que posso dizer")
  }

  predicate AsksForMenu(cmd: string) {
    cmd == "menu" || Contains(cmd, "abrir menu") || Contains(cmd, "voltar para o menu")
  }

  /** The screen keywords, tried in order; the first one present decides. */
  function ScreenKeyword(cmd: string): Option<string> {
    if Contains(cmd, "curso") then Some("courses")
    else if Contains(cmd, "comunidade") || Contains(cmd, "chat") then Some("chat")
    else if Contains(cmd, "rádio") || Contains(cmd, "musica") then Some("radios")
    else if Contains(cmd, "quiz") || Contains(cmd, "jogo") then Some("quiz")
    else if Contains(cmd, "dicionário") then Some("dictionary")
    else if Contains(cmd, "apócrifo") then Some("apocrypha")
    else if Contains(cmd, "assistente") then Some("assistant")
    else None
  }

  /** The book's name the way it is matched: lower-cased. */
  function SpokenName(b: Book): string {
    ToLower(b.name)
  }

  /** `find(b => cmd.includes(b.name.toLowerCase()))`, as the index of the first book mentioned. */
  function SpokenBook(catalog: seq<Book>, cmd: string): (r: Option<nat>)
    ensures r.None? <==> forall j :: 0 <= j < |catalog| ==> !Contains(cmd, SpokenName(catalog[j]))
    ensures r.Some? ==> r.value < |catalog| && Contains(cmd, SpokenName(catalog[r.value]))
    ensures r.Some? ==> forall j :: 0 <= j < r.value ==> !Contains(cmd, SpokenName(catalog[j]))
  {
    if catalog == [] then None
    else if Contains(cmd, SpokenName(catalog[0])) then Some(0)
    else
      var r := SpokenBook(catalog[1..], cmd);
      assert forall j :: 1 <= j < |catalog| ==> catalog[j] == catalog[1..][j - 1];
      if r.Some? then Some(r.value + 1) else None
  }

  /** The chapter spoken: the first run of digits, or 1 when there is none. */
  function SpokenChapter(cmd: string): (c: nat)
    ensures (forall i :: 0 <= i < |cmd| ==> !IsDigit(cmd[i])) ==> c == 1
    ensures FirstDigitAt(cmd) < |cmd| ==> c == DigitsValue(LeadingDigits(cmd[FirstDigitAt(cmd)..]))
  {
    match FirstDigitRun(cmd)
    case None => 1
    case Some(ds) => DigitsValue(ds)
  }

  /** `processCommand`. */
  function ProcessCommand(transcript: string): (r: Command)
    ensures r == SpeakHelp <==> AsksForHelp(ToLower(transcript))
    ensures r == OpenMenu <==> !AsksForHelp(ToLower(transcript)) && AsksForMenu(ToLower(transcript))
    ensures r.Open? <==>
      !AsksForHelp(ToLower(transcript)) && !AsksForMenu(ToLower(transcript)) && ScreenKeyword(ToLower(transcript)).Some?
    ensures r.Open? ==> r.hash == ScreenKeyword(ToLower(transcript)).value
    ensures r.OpenPassage? <==>
      (!AsksForHelp(ToLower(transcript)) && !AsksForMenu(ToLower(transcript)) && ScreenKeyword(ToLower(transcript)).None?
      && SpokenBook(BibleBooks, ToLower(transcript)).Some?)
    ensures r == Ignore <==>
      (!AsksForHelp(ToLower(transcript)) && !AsksForMenu(ToLower(transcript)) && ScreenKeyword(ToLower(transcript)).None?
      && SpokenBook(BibleBooks, ToLower(transcript)).None?)
    ensures r.OpenPassage? ==>
      SpokenBook(BibleBooks, ToLower(transcript)).Some?
      && r.book == BibleBooks[SpokenBook(BibleBooks, ToLower(transcript)).value]
      && Contains(ToLower(transcript), SpokenName(r.book))
      && r.chapter == SpokenChapter(ToLower(transcript))
  {
    var cmd := ToLower(transcript);
    if AsksForHelp(cmd) then SpeakHelp
    else if AsksForMenu(cmd) then OpenMenu
    else if ScreenKeyword(cmd).Some? then Open(ScreenKeyword(cmd).value)
    else
      match SpokenBook(BibleBooks, cmd)
      case None => Ignore
      case Some(i) => OpenPassage(BibleBooks[i], SpokenChapter(cmd))
  }

  /** The fragment after a command: help and unrecognised speech leave it as it is. */
  function TargetFragment(c: Command, current: string): string {
    match c
    case SpeakHelp => current
    case Ignore => current
    case OpenMenu => "menu"
    case Open(h) => h
    case OpenPassage(b, ch) => ChapterHash("bible", b, ch)
  }

  /** A screen keyword wins over everything after it: "quiz do curso" opens the courses. */
  lemma KeywordsInOrder(transcript: string)
    requires !AsksForHelp(ToLower(transcript)) && !AsksForMenu(ToLower(transcript))
    ensures Contains(ToLower(transcript), "curso") ==> ProcessCommand(transcript) == Open("courses")
    ensures ScreenKeyword(ToLower(transcript)).Some? ==> ProcessCommand(transcript).Open?
    ensures ScreenKeyword(ToLower(transcript)).None? ==> !ProcessCommand(transcript).Open?
  {
  }

  /** Speech that names no help, menu, screen or book changes nothing. */
  lemma UnrecognisedKeepsFragment(transcript: string, current: string)
    requires !AsksForHelp(ToLower(transcript)) && !AsksForMenu(ToLower(transcript))
    requires ScreenKeyword(ToLower(transcript)).None?
    requires forall j :: 0 <= j < |BibleBooks| ==> !Contains(ToLower(transcript), SpokenName(BibleBooks[j]))
    ensures ProcessCommand(transcript) == Ignore
    ensures TargetFragment(ProcessCommand(transcript), current) == current
  {
  }

  /**
   * A spoken passage opens in the Bible reader: at the chapter spoken when it is not 0, and on
   * the chapter grid when the first number is 0.
   */
  lemma PassageOpensInReader(transcript: string, current: string)
    requires ProcessCommand(transcript).OpenPassage?
    ensures var c := ProcessCommand(transcript);
      var v := DeriveView(BibleBooks, TargetFragment(c, current));
      v.book == Some(c.book)
      && (c.chapter >= 1 ==> v == ReaderView(Verses, Some(c.book), Some(Num(c.chapter))))
      && (c.chapter == 0 ==> v.state == Chapters)
  {
    var c := ProcessCommand(transcript);
    var i := SpokenBook(BibleBooks, ToLower(transcript)).value;
    PassageView(i, c.chapter);
  }

  lemma PassageView(i: nat, chapter: nat)
    requires i < |BibleBooks|
    ensures DeriveView(BibleBooks, ChapterHash("bible", BibleBooks[i], chapter)).book == Some(BibleBooks[i])
    ensures chapter >= 1 ==>
      DeriveView(BibleBooks, ChapterHash("bible", BibleBooks[i], chapter)) == ReaderView(Verses, Some(BibleBooks[i]), Some(Num(chapter)))
    ensures chapter == 0 ==> DeriveView(BibleBooks, ChapterHash("bible", BibleBooks[i], chapter)).state == Chapters
  {
    BibleFacts();
    assert '/' !in "bible";
    CatalogPassageView(BibleBooks, "bible", i, chapter);
  }

  lemma CatalogPassageView(catalog: seq<Book>, prefix: string, i: nat, chapter: nat)
    requires i < |catalog| && WellFormed(catalog) && DistinctNames(catalog) && '/' !in prefix
    ensures DeriveView(catalog, ChapterHash(prefix, catalog[i], chapter)).book == Some(catalog[i])
    ensures chapter >= 1 ==>
      DeriveView(catalog, ChapterHash(prefix, catalog[i], chapter)) == ReaderView(Verses, Some(catalog[i]), Some(Num(chapter)))
    ensures chapter == 0 ==> DeriveView(catalog, ChapterHash(prefix, catalog[i], chapter)).state == Chapters
  {
    if chapter >= 1 {
      ChapterHashRoundTrip(catalog, prefix, i, chapter);
    } else {
      ChapterZeroRoundTrip(catalog, prefix, i);
    }
  }

  /** Where the four books named after John sit in the catalog. */
  lemma JohnBooks()
    ensures |BibleBooks| == 66
    ensures BibleBooks[42].name == "João"
    ensures BibleBooks[61].name == "1 João" && BibleBooks[62].name == "2 João" && BibleBooks[63].name == "3 João"
  {
    OldTestamentFacts();
    GospelsAndActsFacts();
    PaulineEpistlesFacts();
    LaterEpistlesFacts();
    assert BibleBooks[42] == NewTestament[3] == GospelsAndActs[3];
    assert BibleBooks[61] == NewTestament[22] == LaterEpistles[4];
    assert BibleBooks[62] == NewTestament[23] == LaterEpistles[5];
    assert BibleBooks[63] == NewTestament[24] == LaterEpistles[6];
  }

  /** "joão" is part of the spoken names of the three letters of John. */
  lemma JohnInsideEpistles()
    ensures SpokenName(Book("João", New, 21)) == "joão"
    ensures forall n :: n in ["1 João", "2 João", "3 João"] ==>
      |ToLower(n)| == 6 && Contains(ToLower(n), "joão")
  {
    assert ToLower("João") == "joão";
    forall n | n in ["1 João", "2 João", "3 João"]
      ensures |ToLower(n)| == 6 && Contains(ToLower(n), "joão")
    {
      assert ToLower(n)[2..6] == "joão";
      assert OccursAt(ToLower(n), "joão", 2);
    }
  }

  /** A later book whose spoken name contains an earlier one's is never what the search returns. */
  lemma EarlierNameHides(catalog: seq<Book>, cmd: string, first: nat, later: nat)
    requires first < later < |catalog|
    requires Contains(SpokenName(catalog[later]), SpokenName(catalog[first]))
    ensures SpokenBook(catalog, cmd).Some? ==> SpokenBook(catalog, cmd).value != later
  {
    if SpokenBook(catalog, cmd) == Some(later) {
      ContainsTransitive(cmd, SpokenName(catalog[later]), SpokenName(catalog[first]));
    }
  }

  /**
   * The three letters of John can never be opened by voice: whatever mentions "1 joão",
   * "2 joão" or "3 joão" also mentions "joão", and the gospel comes first in the catalog.
   */
  lemma JohnEpistlesUnreachable(transcript: string)
    ensures ProcessCommand(transcript).OpenPassage? ==>
      ProcessCommand(transcript).book.name !in {"1 João", "2 João", "3 João"}
  {
    var cmd := ToLower(transcript);
    if ProcessCommand(transcript).OpenPassage? {
      var k := SpokenBook(BibleBooks, cmd).value;
      JohnBooks();
      JohnInsideEpistles();
      EarlierNameHides(BibleBooks, cmd, 42, 61);
      EarlierNameHides(BibleBooks, cmd, 42, 62);
      EarlierNameHides(BibleBooks, cmd, 42, 63);
      assert DistinctNames(BibleBooks) by {
        BibleFacts();
      }
      NamesApart(BibleBooks, k, 61);
      NamesApart(BibleBooks, k, 62);
      NamesApart(BibleBooks, k, 63);
    }
  }

  lemma NamesApart(catalog: seq<Book>, a: nat, b: nat)
    requires a < |catalog| && b < |catalog| && a != b && DistinctNames(catalog)
    ensures catalog[a].name != catalog[b].name
  {
    if a > b {
      assert catalog[b].name != catalog[a].name;
    }
  }

  /**
   * The book search with the longest mention winning (the first such book on a tie): a name
   * contained in a longer mentioned name no longer hides it.
   */
  function LongestSpokenBook(catalog: seq<Book>, cmd: string): (r: Option<nat>)
    ensures r.None? <==> forall j :: 0 <= j < |catalog| ==> !Contains(cmd, SpokenName(catalog[j]))
    ensures r.Some? ==> r.value < |catalog| && Contains(cmd, SpokenName(catalog[r.value]))
    ensures r.Some? ==> forall j :: 0 <= j < |catalog| && Contains(cmd, SpokenName(catalog[j])) ==>
      |SpokenName(catalog[j])| <= |SpokenName(catalog[r.value])|
  {
    if catalog == [] then None
    else
      var rest := LongestSpokenBook(catalog[1..], cmd);
      assert forall j :: 1 <= j < |catalog| ==> catalog[j] == catalog[1..][j - 1];
      var here := Contains(cmd, SpokenName(catalog[0]));
      if rest.None? then (if here then Some(0) else None)
      else if here && |SpokenName(catalog[1..][rest.value])| <= |SpokenName(catalog[0])| then Some(0)
      else Some(rest.value + 1)
  }

  /** `processCommand` with the longest-mention search. */
  function ProcessCommandLongest(transcript: string): (r: Command)
    ensures r.OpenPassage? ==>
      LongestSpokenBook(BibleBooks, ToLower(transcript)).Some?
      && r.book == BibleBooks[LongestSpokenBook(BibleBooks, ToLower(transcript)).value]
  {
    var cmd := ToLower(transcript);
    if AsksForHelp(cmd) then SpeakHelp
    else if AsksForMenu(cmd) then OpenMenu
    else if ScreenKeyword(cmd).Some? then Open(ScreenKeyword(cmd).value)
    else
      match LongestSpokenBook(BibleBooks, cmd)
      case None => Ignore
      case Some(i) => OpenPassage(BibleBooks[i], SpokenChapter(cmd))
  }

  /** A mentioned name hides every shorter one from the longest-mention search. */
  lemma LongerMentionWins(catalog: seq<Book>, cmd: string, long: nat, short: nat)
    requires long < |catalog| && short < |catalog|
    requires Contains(cmd, SpokenName(catalog[long]))
    requires |SpokenName(catalog[short])| < |SpokenName(catalog[long])|
    ensures LongestSpokenBook(catalog, cmd).Some?
    ensures |SpokenName(catalog[LongestSpokenBook(catalog, cmd).value])| > |SpokenName(catalog[short])|
  {
  }

  /** With the longest-mention search, speech that mentions "1 joão" never opens the gospel of John. */
  lemma LongestKeepsEpistles(transcript: string)
    requires Contains(ToLower(transcript), "1 joão")
    ensures ProcessCommandLongest(transcript).OpenPassage? ==> ProcessCommandLongest(transcript).book.name != "João"
  {
    var cmd := ToLower(transcript);
    JohnBooks();
    assert SpokenName(BibleBooks[61]) == "1 joão" by {
      assert ToLower("1 João") == "1 joão";
    }
    assert |SpokenName(BibleBooks[42])| == 4;
    LongerMentionWins(BibleBooks, cmd, 61, 42);
    var k := LongestSpokenBook(BibleBooks, cmd).value;
    assert |ToLower(BibleBooks[k].name)| > 4;
  }

  /** The microphone button: whether it is listening, and the line of feedback under it. */
  class VoiceControl {
    var isListening: bool
    var feedback: string
    var fragment: string

    constructor(current: string)
      ensures !isListening && feedback == "" && fragment == current
    {
      isListening := false;
      feedback := "";
      fragment := current;
    }

    /**
     * `toggleListening`: stops when listening; otherwise starts the recogniser when the browser
     * has one (the start event then sets the flag) and changes nothing when it does not.
     */
    method ToggleListening(supported: bool) returns (started: bool)
      modifies this
      ensures old(isListening) ==> !isListening && feedback == "" && !started
      ensures !old(isListening) ==> started == supported && isListening == old(isListening) && feedback == old(feedback)
      ensures fragment == old(fragment)
    {
      started := false;
      if isListening {
        isListening := false;
        feedback := "";
      } else if supported {
        started := true;
      }
    }

    /** The recogniser's start event. */
    method OnStart()
      modifies this
      ensures isListening && feedback == "Ouvindo..." && fragment == old(fragment)
    {
      isListening := true;
      feedback := "Ouvindo...";
    }

    /** The recogniser's end event (the feedback is cleared later by a timer, left out). */
    method OnEnd()
      modifies this
      ensures !isListening && feedback == old(feedback) && fragment == old(fragment)
    {
      isListening := false;
    }

    /** A result: the lower-cased transcript is shown and the command applied to the address. */
    method OnResult(transcript: string) returns (c: Command)
      modifies this
      ensures c == ProcessCommand(transcript)
      ensures feedback == ToLower(transcript) && fragment == TargetFragment(c, old(fragment))
      ensures isListening == old(isListening)
    {
      c := ProcessCommand(transcript);
      feedback := ToLower(transcript);
      fragment := TargetFragment(c, fragment);
    }
  }
}
