/**
 * The application shell of `App.tsx`: hash routing after login, the global back button that
 * climbs the fragment one segment at a time (and logs out from the menu), and the single global
 * radio player shared by every screen.
 */
module App {
  import opened Wrappers
  import opened Text
  import opened Records

  /** The screens the router can show; the library and the Bible share one reader. */
  datatype Screen =
    | Landing | MainMenu | BibleReader | ApocryphaReader | Dictionary | Assistant
    | Radios | Chat | Courses | Quiz | Settings | Admin

  /** What a render shows, and the fragment it rewrites the address to, if any. */
  datatype Render = Render(screen: Screen, redirect: Option<string>)

  /** `location.hash.replace('#', '')`: the first `#` goes, the rest stays. */
  function StripHash(hash: string): (r: string)
    ensures '#' !in hash ==> r == hash
    ensures '#' in hash ==> |r| == |hash| - 1
  {
    if '#' in hash then
      var i := IndexOf(hash, '#');
      hash[..i] + hash[i + 1..]
    else hash
  }

  lemma StripLeadingHash(f: string)
    ensures StripHash("#" + f) == f
  {
    IndexOfAt("#" + f, '#', 0);
    assert ("#" + f)[1..] == f;
  }

  /** The fragment is the section `name` itself or a path below it. */
  predicate Under(f: string, name: string) {
    f == name || StartsWith(f, name + "/")
  }

  /** The fragments that are a page of their own (no path below them). */
  function PageFor(f: string): Option<Screen> {
    if f == "dictionary" then Some(Dictionary)
    else if f == "assistant" then Some(Assistant)
    else if f == "radios" then Some(Radios)
    else if f == "chat" then Some(Chat)
    else if f == "courses" then Some(Courses)
    else if f == "quiz" then Some(Quiz)
    else if f == "settings" then Some(Settings)
    else if f == "admin" then Some(Admin)
    else None
  }

  /**
   * `renderView`: the landing page until login; afterwards the empty and `landing` fragments
   * show the menu and send the address to `menu`, the reader sections match their paths, the
   * pages match exactly, and anything else falls back to the menu.
   */
  function RenderView(isAuthenticated: bool, current: string): (r: Render)
    ensures r.screen == Landing <==> !isAuthenticated
    ensures r.redirect.Some? <==> isAuthenticated && (current == "" || current == "landing")
    ensures r.redirect.Some? ==> r.redirect.value == "menu" && r.screen == MainMenu
  {
    if !isAuthenticated then Render(Landing, None) else Route(current)
  }

  /** The logged-in part of `renderView`, on the fragment without its `#`. */
  function Route(current: string): Render {
    if current == "" || current == "landing" then Render(MainMenu, Some("menu"))
    else if current == "menu" then Render(MainMenu, None)
    else if Under(current, "bible") || Under(current, "library") then Render(BibleReader, None)
    else if Under(current, "apocrypha") then Render(ApocryphaReader, None)
    else if PageFor(current).Some? then Render(PageFor(current).value, None)
    else Render(MainMenu, None)
  }

  /** A fragment under a section begins with the section's first two letters. */
  lemma UnderHead(f: string, name: string)
    requires |name| >= 2 && Under(f, name)
    ensures |f| >= 2 && f[0] == name[0] && f[1] == name[1]
  {
    if f != name {
      assert f[..|name| + 1] == name + "/";
      assert f[0] == (name + "/")[0] && f[1] == (name + "/")[1];
    }
  }

  /** The three sections are told apart by their first letters, and none of them is a page or the menu. */
  lemma SectionsApart(f: string)
    ensures Under(f, "bible") || Under(f, "library") || Under(f, "apocrypha") ==>
      f != "" && f != "landing" && f != "menu" && PageFor(f).None?
    ensures Under(f, "apocrypha") ==> !Under(f, "bible") && !Under(f, "library")
  {
    if Under(f, "bible") {
      UnderHead(f, "bible");
    }
    if Under(f, "library") {
      UnderHead(f, "library");
    }
    if Under(f, "apocrypha") {
      UnderHead(f, "apocrypha");
      if Under(f, "bible") {
        UnderHead(f, "bible");
      }
      if Under(f, "library") {
        UnderHead(f, "library");
      }
    }
  }

  /** After login the Bible reader answers every fragment whose first segment is `bible` or `library`. */
  lemma ReaderRoute(f: string)
    ensures RenderView(true, f).screen == BibleReader
      <==> Split(f, '/')[0] == "bible" || Split(f, '/')[0] == "library"
  {
    SectionsApart(f);
    SplitHead(f, '/', "bible");
    SplitHead(f, '/', "library");
  }

  /** After login the apocrypha reader answers every fragment whose first segment is `apocrypha`. */
  lemma ApocryphaRoute(f: string)
    ensures RenderView(true, f).screen == ApocryphaReader <==> Split(f, '/')[0] == "apocrypha"
  {
    assert Split(f, '/')[0] == "apocrypha" <==> Under(f, "apocrypha") by {
      SplitHead(f, '/', "apocrypha");
    }
    assert Route(f).screen == ApocryphaReader <==> Under(f, "apocrypha") by {
      SectionsApart(f);
      PagesAreOwnScreens(f);
    }
  }

  /** A page is shown only for its own fragment, never for a path below it. */
  lemma PageRoute(f: string, s: Screen)
    requires s != Landing && s != MainMenu && s != BibleReader && s != ApocryphaReader
    ensures RenderView(true, f).screen == s <==> PageFor(f) == Some(s)
  {
    if PageFor(f).Some? {
      assert Route(f) == Render(PageFor(f).value, None) by {
        SectionsApart(f);
        MenuFragmentsAreNotPages();
      }
    } else {
      assert Route(f).screen in {MainMenu, BibleReader, ApocryphaReader};
    }
  }

  /** A page is never the landing page, the menu or a reader. */
  lemma PagesAreOwnScreens(f: string)
    ensures PageFor(f).Some? ==>
      PageFor(f).value != Landing && PageFor(f).value != MainMenu
      && PageFor(f).value != BibleReader && PageFor(f).value != ApocryphaReader
  {
  }

  /** The fragments the menu answers to are not pages. */
  lemma MenuFragmentsAreNotPages()
    ensures PageFor("").None? && PageFor("landing").None? && PageFor("menu").None?
  {
  }

  /** The menu is the fallback: shown exactly when no section and no page claims the fragment. */
  lemma MenuFallback(f: string)
    ensures RenderView(true, f).screen == MainMenu
      <==> (Split(f, '/')[0] != "bible" && Split(f, '/')[0] != "library"
        && Split(f, '/')[0] != "apocrypha" && PageFor(f).None?)
  {
    SectionsApart(f);
    SplitHead(f, '/', "bible");
    SplitHead(f, '/', "library");
    SplitHead(f, '/', "apocrypha");
    if f == "" || f == "landing" || f == "menu" {
      MenuFragmentsAreNotPages();
      assert Route(f).screen == MainMenu;
    } else {
      PagesAreOwnScreens(f);
      assert Route(f).screen == MainMenu <==>
        !Under(f, "bible") && !Under(f, "library") && !Under(f, "apocrypha") && PageFor(f).None?;
    }
  }

  /** What the back button does. */
  datatype BackAction = Logout | Navigate(to: string)

  /**
   * `handleGlobalBack`: from the menu it logs out; otherwise it drops the last segment of the
   * fragment, and a fragment of one segment goes back to the menu.
   */
  function GlobalBack(current: string): (r: BackAction)
    ensures r.Logout? <==> current == "menu"
    ensures r.Navigate? && '/' !in current ==> r.to == "menu"
  {
    if current == "menu" then Logout
    else
      var parts := Split(current, '/');
      if |parts| > 1 then Navigate(Join(parts[..|parts| - 1], '/'))
      else Navigate("menu")
  }

  /** One back step from a nested fragment lands on what lies before its last `/`. */
  lemma BackPopsSegment(parent: string, last: string)
    requires '/' !in last
    ensures GlobalBack(parent + "/" + last) == Navigate(parent)
  {
    var f := parent + "/" + last;
    SplitSnoc(parent, '/', last);
    var parts := Split(f, '/');
    assert parts[..|parts| - 1] == Split(parent, '/');
    JoinSplit(parent, '/');
    NestedIsNotMenu(parent, last);
  }

  /** A fragment with a `/` in it is not the menu. */
  lemma NestedIsNotMenu(parent: string, last: string)
    ensures parent + "/" + last != "menu"
  {
    assert (parent + "/" + last)[|parent|] == '/';
    assert '/' !in "menu";
  }

  /** From a chapter of a book the back button climbs to the book, the book list, the menu, then logs out. */
  lemma BackFromChapter(book: string, chapter: nat)
    requires '/' !in book
    ensures GlobalBack("bible/" + book + "/" + NatToString(chapter)) == Navigate("bible/" + book)
    ensures GlobalBack("bible/" + book) == Navigate("bible")
    ensures GlobalBack("bible") == Navigate("menu")
    ensures GlobalBack("menu") == Logout
  {
    var c := NatToString(chapter);
    assert '/' !in c by {
      assert forall i :: 0 <= i < |c| ==> IsDigit(c[i]);
    }
    BackFromVerses(book, c);
    BackFromBook(book);
    BackFromSection();
  }

  lemma BackFromVerses(book: string, c: string)
    requires '/' !in c
    ensures GlobalBack("bible/" + book + "/" + c) == Navigate("bible/" + book)
  {
    BackPopsSegment("bible/" + book, c);
    assert ("bible/" + book) + "/" + c == "bible/" + book + "/" + c;
  }

  lemma BackFromBook(book: string)
    requires '/' !in book
    ensures GlobalBack("bible/" + book) == Navigate("bible")
  {
    BackPopsSegment("bible", book);
    assert "bible" + "/" + book == "bible/" + book;
  }

  lemma BackFromSection()
    ensures GlobalBack("bible") == Navigate("menu")
    ensures GlobalBack("menu") == Logout
  {
    assert '/' !in "bible";
  }

  /** The radio events the global audio element reports. */
  datatype AudioEvent = Play | Pause | Waiting | Playing | Error | Ended

  /** The actions the lock-screen media controls offer. */
  datatype MediaAction = MediaPlay | MediaPause | MediaStop

  /**
   * The `App` component's state: the address fragment (without `#`), whether the user has logged
   * in, and the global radio player with the one audio element behind it.
   */
  class Shell {
    var fragment: string
    var isAuthenticated: bool
    var currentStation: Option<RadioStation>
    var isRadioPlaying: bool
    var isBuffering: bool
    var audioSrc: string
    var audioPaused: bool

    /** The audio element always streams the station the player shows, and nothing when none is shown. */
    ghost predicate Valid()
      reads this
    {
      audioSrc == (if currentStation.Some? then currentStation.value.url else "")
    }

    constructor(hash: string)
      ensures Valid()
      ensures fragment == StripHash(hash) && !isAuthenticated
      ensures currentStation.None? && !isRadioPlaying && !isBuffering && audioPaused
    {
      fragment := StripHash(hash);
      isAuthenticated := false;
      currentStation := None;
      isRadioPlaying := false;
      isBuffering := false;
      audioSrc := "";
      audioPaused := true;
    }

    /** The screen for the current state. */
    function View(): Render
      reads this
    {
      RenderView(isAuthenticated, fragment)
    }

    /** The mini player shows while a station is chosen and the radio page is not open. */
    predicate ShowsMiniPlayer()
      reads this
    {
      currentStation.Some? && !Contains("#" + fragment, "radios")
    }

    /** Rendering, including the address rewrite to `menu` that it performs for an empty fragment. */
    method RenderScreen() returns (screen: Screen)
      requires Valid()
      modifies this
      ensures Valid()
      ensures screen == old(View()).screen
      ensures fragment == (if old(View()).redirect.Some? then "menu" else old(fragment))
      ensures isAuthenticated == old(isAuthenticated) && currentStation == old(currentStation)
      ensures isRadioPlaying == old(isRadioPlaying) && isBuffering == old(isBuffering)
      ensures audioSrc == old(audioSrc) && audioPaused == old(audioPaused)
    {
      var r := RenderView(isAuthenticated, fragment);
      screen := r.screen;
      if r.redirect.Some? {
        fragment := r.redirect.value;
      }
    }

    /** `handleLoginSuccess`: logged in, and on the menu. */
    method HandleLoginSuccess()
      requires Valid()
      modifies this
      ensures Valid()
      ensures isAuthenticated && fragment == "menu"
      ensures View() == Render(MainMenu, None)
      ensures currentStation == old(currentStation) && isRadioPlaying == old(isRadioPlaying)
      ensures isBuffering == old(isBuffering) && audioSrc == old(audioSrc) && audioPaused == old(audioPaused)
    {
      isAuthenticated := true;
      fragment := "menu";
    }

    /** A screen's own navigation (`onNavigate`, `onBack`): the address changes, nothing else. */
    method NavigateTo(to: string)
      requires Valid()
      modifies this
      ensures Valid()
      ensures fragment == to
      ensures isAuthenticated == old(isAuthenticated) && currentStation == old(currentStation)
      ensures isRadioPlaying == old(isRadioPlaying) && isBuffering == old(isBuffering)
      ensures audioSrc == old(audioSrc) && audioPaused == old(audioPaused)
    {
      fragment := to;
    }

    /** `handleGlobalBack`: log out from the menu (the radio keeps playing), otherwise go up one level. */
    method HandleGlobalBack()
      requires Valid()
      modifies this
      ensures Valid()
      ensures old(fragment) == "menu" ==> !isAuthenticated && fragment == "" && View().screen == Landing
      ensures old(fragment) != "menu" ==>
        isAuthenticated == old(isAuthenticated) && Navigate(fragment) == GlobalBack(old(fragment))
      ensures currentStation == old(currentStation) && isRadioPlaying == old(isRadioPlaying)
      ensures isBuffering == old(isBuffering) && audioSrc == old(audioSrc) && audioPaused == old(audioPaused)
    {
      match GlobalBack(fragment) {
        case Logout =>
          isAuthenticated := false;
          fragment := "";
        case Navigate(to) =>
          fragment := to;
      }
    }

    /**
     * `handlePlayStation`: the shown station toggles between pause and play; another station
     * replaces the stream, shows as buffering and not yet playing.
     */
    method HandlePlayStation(station: RadioStation)
      requires Valid()
      modifies this
      ensures Valid()
      ensures old(currentStation).Some? && old(currentStation).value.id == station.id ==>
        currentStation == old(currentStation) && audioPaused == old(isRadioPlaying)
        && isRadioPlaying == old(isRadioPlaying) && isBuffering == old(isBuffering)
      ensures !(old(currentStation).Some? && old(currentStation).value.id == station.id) ==>
        currentStation == Some(station) && audioSrc == station.url && !audioPaused
        && !isRadioPlaying && isBuffering
      ensures fragment == old(fragment) && isAuthenticated == old(isAuthenticated)
    {
      if currentStation.Some? && currentStation.value.id == station.id {
        if isRadioPlaying {
          audioPaused := true;
        } else {
          audioPaused := false;
        }
      } else {
        isBuffering := true;
        isRadioPlaying := false;
        audioSrc := station.url;
        audioPaused := false;
        currentStation := Some(station);
      }
    }

    /** The rejected `play()` promise: a resumed station stops showing as playing; a new one also stops buffering. */
    method PlayRejected(wasNewStation: bool)
      requires Valid()
      modifies this
      ensures Valid()
      ensures !isRadioPlaying
      ensures isBuffering == (if wasNewStation then false else old(isBuffering))
      ensures currentStation == old(currentStation) && audioSrc == old(audioSrc) && audioPaused == old(audioPaused)
      ensures fragment == old(fragment) && isAuthenticated == old(isAuthenticated)
    {
      isRadioPlaying := false;
      if wasNewStation {
        isBuffering := false;
      }
    }

    /** `handleStopRadio`: the stream is released and the player disappears. */
    method HandleStopRadio()
      requires Valid()
      modifies this
      ensures Valid()
      ensures currentStation.None? && audioSrc == "" && audioPaused && !isRadioPlaying && !isBuffering
      ensures !ShowsMiniPlayer()
      ensures fragment == old(fragment) && isAuthenticated == old(isAuthenticated)
    {
      audioPaused := true;
      audioSrc := "";
      isRadioPlaying := false;
      isBuffering := false;
      currentStation := None;
    }

    /** The listeners on the audio element keep the playing and buffering flags in step with it. */
    method OnAudioEvent(e: AudioEvent)
      requires Valid()
      modifies this
      ensures Valid()
      ensures isRadioPlaying == (e == Play || e == Playing || (e == Waiting && old(isRadioPlaying)))
      ensures isBuffering == (e == Waiting || ((e == Pause || e == Ended) && old(isBuffering)))
      ensures currentStation == old(currentStation) && audioSrc == old(audioSrc) && audioPaused == old(audioPaused)
      ensures fragment == old(fragment) && isAuthenticated == old(isAuthenticated)
    {
      match e {
        case Play => isRadioPlaying := true; isBuffering := false;
        case Pause => isRadioPlaying := false;
        case Waiting => isBuffering := true;
        case Playing => isRadioPlaying := true; isBuffering := false;
        case Error => isRadioPlaying := false; isBuffering := false;
        case Ended => isRadioPlaying := false;
      }
    }

    /** The media-session handlers: play and pause drive the audio element, stop is `handleStopRadio`. */
    method OnMediaAction(a: MediaAction)
      requires Valid()
      modifies this
      ensures Valid()
      ensures a == MediaPlay ==> !audioPaused && currentStation == old(currentStation) && audioSrc == old(audioSrc)
      ensures a == MediaPause ==> audioPaused && currentStation == old(currentStation) && audioSrc == old(audioSrc)
      ensures a == MediaStop ==> currentStation.None? && audioSrc == "" && audioPaused
      ensures fragment == old(fragment) && isAuthenticated == old(isAuthenticated)
    {
      match a {
        case MediaPlay => audioPaused := false;
        case MediaPause => audioPaused := true;
        case MediaStop => HandleStopRadio();
      }
    }
  }
}
