# Bíblia IASD — a verified model of the application core

This project models, in Dafny, the core of a single-page Bible application for
Portuguese-speaking Adventist congregations. It covers the following parts:

- **The shell and router.** A hash-routed page shows the landing page before login. After
  login it shows a menu, two readers and a set of pages. It also has a global back button and
  a global radio player.
- **The data service.** Everything persistent lives in the browser's key-value storage. That
  covers the chat history, blocked and favourite users, custom profanity words, the admin
  configuration and password, course permissions, registered users, the maintenance flag and
  the access log.
- **The screens.**
  - The Bible and apocrypha readers: hash-derived views, per-verse notes and the last-read
    record.
  - Voice navigation.
  - A timed quiz game.
  - Theological courses with a graded exam.
  - A community chat.
  - The admin panel.
  - The landing and login page.
  - Settings.
  - A question-and-answer assistant.
- **The book catalogs**, with their counts, order and name uniqueness.
- **The offline service worker** and its cache strategies.

Browser storage is `Storage.Store`, a class over a map from key to a structured `Value`. Each
screen is a class whose fields are the component's state. Each handler is a method that states
the new state and the new storage contents. The decisions behind those are pure functions, and
lemmas state their properties.

Time, randomness, network answers and storage failures are method parameters.
`nowMillis`/`nowIso` stand for the clock, `freshCode` for the random access code,
`reply`/`data`/`network` for fetched results, and `fullWriteFails` for a quota error.

## Model

| member | source | states |
|---|---|---|
| ChatService.PrependLog | services/chatService.ts:57-68 | the new access entry goes first, followed by the previous log, and at most 50 entries are kept |
| ChatService.LogAllKeepsNewest | services/chatService.ts:66-68 | after any series of accesses the log holds the 50 most recent ones, newest first |
| ChatService.LogUserAccess | services/chatService.ts:57-74 | the stored log becomes the prepended log; a notification is attempted exactly when the e-mail does not contain "admin" in any case |
| ChatService.ClearAccessLogs | services/chatService.ts:83-85 | the log key is removed, and the log then reads as empty |
| ChatService.FindByEmail | services/chatService.ts:142 | finds the first user with that e-mail, or returns none when no user has it |
| ChatService.RecordLogin | services/chatService.ts:140-161 | an existing user keeps id, name, avatar and e-mail and is marked online with the new login time; otherwise a new online user with the given id and name, the amber avatar, the e-mail and the login time is appended; no other entry changes |
| ChatService.RecordLoginKeepsOneEntry | services/chatService.ts:142-159 | logging in never creates a second entry for the same e-mail |
| ChatService.RegisterUserLogin | services/chatService.ts:140-161 | the stored user list becomes the recorded login |
| ChatService.WithoutEmail | services/chatService.ts:165 | keeps exactly the users whose e-mail differs |
| ChatService.WithoutEmailConcat | services/chatService.ts:165 | the filter works entry by entry: it distributes over concatenation and keeps or drops a single user, so order and repetitions are kept |
| ChatService.RemoveAfterLogin | services/chatService.ts:140-168 | removing a user after their login leaves no entry for that e-mail and keeps every other entry |
| ChatService.RemoveRegisteredUser | services/chatService.ts:163-168 | the list without that e-mail is stored and returned |
| ChatService.BoolString | services/chatService.ts:176 | the text is "true" exactly for true and "false" exactly for false |
| ChatService.SetAppMaintenance | services/chatService.ts:171-177 | the flag is written as text and reads back as the value written |
| ChatService.GetAdminPassword | services/chatService.ts:182-184 | the password is never empty, and is "admin123" when none is stored |
| ChatService.SetAdminPassword | services/chatService.ts:186-188 | the new password is stored as given; an empty one reads back as the default |
| ChatService.ResetAdminPassword | services/chatService.ts:190-192 | the default password is stored and reads back |
| ChatService.GetAdminConfig | services/chatService.ts:200-204 | returns the default configuration when none is stored |
| ChatService.SetAdminConfig | services/chatService.ts:206-208 | the configuration is stored and reads back unchanged |
| ChatService.FindPermission | services/chatService.ts:232 | finds the first permission for that user and course (none before it matches), or returns none when no permission matches |
| ChatService.GrantAccess | services/chatService.ts:230-246 | an existing permission returns its code and adds nothing; otherwise a locked permission with the fresh code is appended; either way the returned code is the one recorded |
| ChatService.GrantIsIdempotent | services/chatService.ts:230-246 | granting twice gives the same code and changes nothing the second time |
| ChatService.GrantCourseAccess | services/chatService.ts:230-246 | the stored permissions become the grant's, and nothing else in storage changes |
| ChatService.FindCode | services/chatService.ts:250 | finds the first permission of the course with that code (none before it matches), or none when no permission matches |
| ChatService.VerifyCode | services/chatService.ts:248-258 | succeeds exactly when some permission of the course has the upper-cased, trimmed input as its code; success sets the unlock flag of the first such permission and changes no other entry; failure changes nothing |
| ChatService.UnlockIsPermanent | services/chatService.ts:230-263 | once a course is unlocked, no grant and no code check locks it again |
| ChatService.GrantedCodeUnlocks | services/chatService.ts:226-258 | a granted code, typed in lower case with surrounding spaces, unlocks the course |
| ChatService.VerifyAccessCode | services/chatService.ts:248-263 | the permissions are written only on success, and the course then reads as unlocked |
| ChatService.RemoveAll | services/chatService.ts:288 | removes every copy of the id and keeps the others with their multiplicities |
| ChatService.Toggle | services/chatService.ts:378-405 | the id is present afterwards exactly when it was absent before; other ids are unaffected |
| ChatService.ToggleKeepsNoDuplicates | services/chatService.ts:378-405 | toggling keeps a list free of duplicates |
| ChatService.ToggleTwice | services/chatService.ts:378-405 | toggling twice restores an absent id exactly, and otherwise the same members |
| ChatService.AddWord | services/chatService.ts:276-284 | the lower-cased, trimmed word is appended unless it is empty, already listed or built in |
| ChatService.AddWordKeepsClean | services/chatService.ts:276-284 | custom words stay distinct, non-empty and outside the built-in list |
| ChatService.RemoveWordKeepsClean | services/chatService.ts:286-291 | removing a word keeps the list clean |
| ChatService.AddWordIdempotent | services/chatService.ts:276-284 | adding the same word twice equals adding it once |
| ChatService.AddCustomFilterWord | services/chatService.ts:276-284 | the stored list becomes the added list, and nothing is written when it is unchanged |
| ChatService.RemoveCustomFilterWord | services/chatService.ts:286-291 | the exact word is no longer listed, and the list is always written |
| ChatService.ToggleBlockUser | services/chatService.ts:378-388 | the stored blocked list becomes the toggled list, and is returned |
| ChatService.ToggleAddUser | services/chatService.ts:395-405 | the stored favourites list becomes the toggled list, and is returned |
| ChatService.AppendBounded | services/chatService.ts:356-359 | the new message is last; a history over 20 loses its oldest message |
| ChatService.SendAllKeepsLatest | services/chatService.ts:356-359 | after any series of sends the history holds exactly the 20 most recent messages, in order |
| ChatService.FallbackTail | services/chatService.ts:365-368 | when the full write fails, the five newest messages are written, and only when there are more than five |
| ChatService.GetMessages | services/chatService.ts:308-339 | returns the stored history; when none is stored, the two seed messages are stored and returned |
| ChatService.NewMessage | services/chatService.ts:342-354 | a text message carries the filtered text and no audio; an audio message carries the content unfiltered |
| ChatService.SendMessage | services/chatService.ts:341-371 | covers all four storage paths: full write; failed write with a short history; failed fallback write, which throws; and the fallback write of five messages |
| App.StripHash | App.tsx:160 | removes only the first `#` |
| App.StripLeadingHash | App.tsx:180 | the fragment of an address `#f` is `f` itself |
| App.RenderView | App.tsx:179-247 | the landing page is shown exactly when not logged in; the address is rewritten to `menu` exactly for an empty or `landing` fragment after login |
| App.ReaderRoute | App.tsx:195-202 | after login, `bible` and `library` fragments and every path below them open the Bible reader |
| App.ApocryphaRoute | App.tsx:204-206 | the apocrypha reader is shown exactly when the first segment is `apocrypha` |
| App.PageRoute | App.tsx:208-244 | a page is shown only for its own fragment |
| App.MenuFallback | App.tsx:191-193 | the menu is shown exactly when no section or page claims the fragment |
| App.GlobalBack | App.tsx:158-177 | logs out exactly from `menu`; a fragment without `/` goes to the menu |
| App.BackPopsSegment | App.tsx:169-172 | one step back drops the last path segment |
| App.BackFromChapter | App.tsx:158-177 | from a chapter, back goes to the book, then the Bible, then the menu, then logout |
| App.Shell.constructor | App.tsx:19-25 | not logged in, no station and the player paused |
| App.Shell.RenderScreen | App.tsx:179-189 | shows the routed screen and performs its address rewrite |
| App.Shell.HandleLoginSuccess | App.tsx:153-156 | logged in, on the menu, with the radio untouched |
| App.Shell.NavigateTo | App.tsx:246 | only the address changes |
| App.Shell.HandleGlobalBack | App.tsx:158-177 | logout returns to the landing page with the radio still playing; otherwise the address goes up one level |
| App.Shell.HandlePlayStation | App.tsx:81-122 | the same station toggles pause; a new station replaces the stream and starts buffering |
| App.Shell.PlayRejected | App.tsx:90-118 | a rejected play stops the playing flag, and also buffering for a new station |
| App.Shell.HandleStopRadio | App.tsx:124-132 | the stream is released and the mini player disappears |
| App.Shell.OnAudioEvent | App.tsx:40-56 | the playing and buffering flags follow the audio element's events |
| App.Shell.OnMediaAction | App.tsx:59-69 | play and pause drive the element; stop is the stop-radio handler |
| BibleReader.FindBook | components/BibleReader.tsx:57 | finds the first book with that name, or none when no book has it |
| BibleReader.FindBookAt | components/BibleReader.tsx:57 | with distinct names, the search returns the very book that carries the name |
| BibleReader.DeriveView | components/BibleReader.tsx:51-63 | the book list is shown exactly without a book; verses are shown exactly with a book and a truthy chapter; the book is the one named by segment 1; the chapter is `parseInt` of segment 2 when that segment is present and not empty, and none otherwise |
| BibleReader.NonNumericChapterShowsGrid | components/BibleReader.tsx:58-62 | a found book whose chapter segment has no digit (`abc`, or empty) shows its chapter grid |
| BibleReader.DigitChapterRead | components/BibleReader.tsx:58-62 | a chapter segment starting with a digit is read up to its first other character (`3abc` is 3), and a non-zero chapter of a found book shows the verses |
| BibleReader.BooksWhenNoBook | components/BibleReader.tsx:51-63 | the book list is shown exactly when segment 1 is missing or names no book |
| BibleReader.BookHashRoundTrip | components/BibleReader.tsx:384 | a book button leads to that book's chapter grid |
| BibleReader.ChapterHashRoundTrip | components/BibleReader.tsx:394 | a chapter button leads to the verses of that book and chapter |
| BibleReader.ChapterZeroRoundTrip | components/BibleReader.tsx:58-63 | chapter 0 is falsy and shows the chapter grid |
| BibleReader.BibleLinksRoundTrip | components/BibleReader.tsx:384-394 | both link kinds round-trip on the 66-book catalog |
| BibleReader.PickerOffersEveryChapter | components/BibleReader.tsx:393 | the grid offers chapters 1 to n, each once, in increasing order |
| BibleReader.VersionPref | components/BibleReader.tsx:19-25 | uses the stored translation when it is known, otherwise ACF |
| BibleReader.NoteKeysDistinct | components/BibleReader.tsx:160-168 | different verses of one chapter get different note keys |
| BibleReader.SaveNote | components/BibleReader.tsx:166-173 | a blank note deletes the key; otherwise the untrimmed text is stored |
| BibleReader.SaveNoteKeepsOthers | components/BibleReader.tsx:169 | saving one verse's note leaves all other notes as they were |
| BibleReader.SavedNoteReadsBack | components/BibleReader.tsx:158-173 | reopening a saved note shows the saved text, or nothing after a blank save |
| BibleReader.SaveNoteOverwrites | components/BibleReader.tsx:166-173 | a second save replaces the first |
| BibleReader.PersistedNotes | components/BibleReader.tsx:102-104 | the notes are written only when the map is not empty |
| BibleReader.DeletedLastNoteReturns | components/BibleReader.tsx:97-104 | deleting the only note leaves it stored, so the next reader loads it again |
| BibleReader.PersistedNotesAfterLoad | components/BibleReader.tsx:102-104 | persistence gated by a "loaded" flag instead of the map's size |
| BibleReader.PersistAfterLoadReadsBack | components/BibleReader.tsx:97-104 | with the flag, the notes read back are the ones last saved, deletions included |
| BibleReader.ClickVerse | components/BibleReader.tsx:133-141 | clicking the selected verse deselects it; any other verse becomes the selection |
| BibleReader.ClickTwiceDeselects | components/BibleReader.tsx:133-141 | two clicks on a verse clear the selection |
| BibleReader.ReaderScreen.constructor | components/BibleReader.tsx:51-99 | derives the view, reads the translation, last-read record and notes; storage is unchanged |
| BibleReader.ReaderScreen.PersistNotes | components/BibleReader.tsx:102-104 | the notes key becomes the persisted value, and other keys are unchanged |
| BibleReader.ReaderScreen.OpenChapter | components/BibleReader.tsx:114-130 | in the verses view: starts loading and records the chapter as last read; otherwise nothing changes |
| BibleReader.ReaderScreen.HandleVerseClick | components/BibleReader.tsx:133-141 | the selection becomes the clicked result |
| BibleReader.ReaderScreen.HandleNote | components/BibleReader.tsx:158-164 | the editor opens on the selected verse with its current note, and the selection closes |
| BibleReader.ReaderScreen.HandleSaveNote | components/BibleReader.tsx:166-173 | the edited verse's note is saved or deleted, and the editor closes |
| ApocryphaReader.ApocryphaLinksRoundTrip | components/ApocryphaReader.tsx:115-132 | book and chapter buttons lead to what they name |
| ApocryphaReader.BibleBookNotFound | components/ApocryphaReader.tsx:19 | a Bible book under `apocrypha/` shows the book list |
| ApocryphaReader.DisclaimerOnlyOnBookList | components/ApocryphaReader.tsx:89 | the banner shows exactly when no book is selected |
| ApocryphaReader.FetchRequest | components/ApocryphaReader.tsx:30-40 | a request is made exactly in the verses view, for that book and a non-zero chapter |
| ApocryphaReader.ApocryphaScreen.constructor | components/ApocryphaReader.tsx:13-28 | the view is derived from the fragment; nothing is loading |
| ApocryphaReader.ApocryphaScreen.FetchEffect | components/ApocryphaReader.tsx:30-40 | in the verses view, clears the old chapter, starts loading and makes the request |
| ApocryphaReader.ApocryphaScreen.FetchSettled | components/ApocryphaReader.tsx:36-39 | loading ends; the text arrives, or the old value stays after an error |
| GlobalControls.SpokenBook | components/GlobalControls.tsx:58 | returns the first book whose lower-cased name the command contains, or none when no name is contained |
| GlobalControls.SpokenChapter | components/GlobalControls.tsx:61-71 | the chapter is 1 when no digit is spoken, and otherwise the value of the maximal run of digits that starts at the first digit |
| Text.FirstDigitRun | components/GlobalControls.tsx:61 | there is a run exactly when some character is a digit; it starts at the first digit and takes every digit that follows it |
| GlobalControls.ProcessCommand | components/GlobalControls.tsx:30-80 | help comes first, then the menu, then the first screen keyword; a passage opens exactly when none of these matched and a book is mentioned, at the first mentioned book and the spoken chapter; otherwise the command is ignored |
| GlobalControls.KeywordsInOrder | components/GlobalControls.tsx:48-54 | "curso" opens the courses; a screen keyword wins over book names |
| GlobalControls.UnrecognisedKeepsFragment | components/GlobalControls.tsx:57-78 | unrecognised speech changes nothing |
| GlobalControls.PassageOpensInReader | components/GlobalControls.tsx:74 | a spoken passage opens the reader at that chapter, or on the grid for 0 |
| GlobalControls.EarlierNameHides | components/GlobalControls.tsx:58 | a later book whose name contains an earlier one's is never found |
| GlobalControls.JohnEpistlesUnreachable | components/GlobalControls.tsx:58 | the three letters of John can never be opened by voice |
| GlobalControls.LongestSpokenBook | components/GlobalControls.tsx:58 | the longest mentioned name wins |
| GlobalControls.LongerMentionWins | components/GlobalControls.tsx:58 | a mentioned name hides every shorter one |
| GlobalControls.LongestKeepsEpistles | components/GlobalControls.tsx:58 | with the longest match, saying "1 joão" never opens the gospel |
| GlobalControls.VoiceControl.constructor | components/GlobalControls.tsx:11-12 | starts not listening, with no feedback |
| GlobalControls.VoiceControl.ToggleListening | components/GlobalControls.tsx:82-119 | stops when listening; otherwise starts only when the browser supports recognition |
| GlobalControls.VoiceControl.OnStart | components/GlobalControls.tsx:102-105 | listening, with the "Ouvindo..." feedback |
| GlobalControls.VoiceControl.OnEnd | components/GlobalControls.tsx:107-110 | stops listening |
| GlobalControls.VoiceControl.OnResult | components/GlobalControls.tsx:112-115 | shows the lower-cased transcript and applies the command to the address |
| BibleQuiz.PointsBounds | components/BibleQuiz.tsx:134-138 | points grow with difficulty, streak and time, and stay within base + 5·streak + 30 |
| BibleQuiz.StartGameResets | components/BibleQuiz.tsx:97-105 | a new game starts with 0 points, no streak, 7 lives and a question loading |
| BibleQuiz.AnswerIgnored | components/BibleQuiz.tsx:128 | an answer without a question, or after feedback, changes nothing |
| BibleQuiz.CorrectAnswerScores | components/BibleQuiz.tsx:132-141 | a right answer adds the points for the streak so far and extends the streak; lives are unchanged |
| BibleQuiz.WrongAnswerCosts | components/BibleQuiz.tsx:115-125 | a wrong answer costs a life and the streak, and the game ends exactly on the last life |
| BibleQuiz.LastLifeEndsGame | components/BibleQuiz.tsx:115-125 | after the last life the game-over screen shows the final score |
| BibleQuiz.InitialInv | components/BibleQuiz.tsx:19-29 | the initial state satisfies the invariant |
| BibleQuiz.ApplyKeepsInv | components/BibleQuiz.tsx:40-145 | every event keeps lives within 0..7, the clock within 0..60, and the scheduling consistent |
| BibleQuiz.RunKeepsInv | components/BibleQuiz.tsx:40-145 | so does every sequence of events |
| BibleQuiz.ScoreNeverDecreases | components/BibleQuiz.tsx:115-141 | within a game the score never decreases |
| BibleQuiz.CountdownRuns | components/BibleQuiz.tsx:48-68 | k ticks remove k seconds and change nothing else |
| BibleQuiz.CountdownTimesOut | components/BibleQuiz.tsx:48-81 | after exactly its seconds, an unanswered question times out with the clock at 0 |
| BibleQuiz.RunSplit | components/BibleQuiz.tsx:40-145 | running two sequences of events equals running their concatenation |
| BibleQuiz.QuizGame.constructor | components/BibleQuiz.tsx:19-30 | the screen's state is the initial state |
| BibleQuiz.QuizGame.StartGame | components/BibleQuiz.tsx:97-105 | the state becomes the start event's result |
| BibleQuiz.QuizGame.LoadQuestion | components/BibleQuiz.tsx:83-95 | loading starts, the feedback clears and the clock shows 60 |
| BibleQuiz.QuizGame.HandleMistake | components/BibleQuiz.tsx:115-125 | the state becomes the mistake's result |
| BibleQuiz.QuizGame.HandleAnswer | components/BibleQuiz.tsx:127-146 | the state becomes the answer event's result |
| BibleQuiz.QuizGame.Tick | components/BibleQuiz.tsx:52-67 | the state becomes one tick's result |
| BibleQuiz.QuizGame.QuestionLoaded | components/BibleQuiz.tsx:88-93 | the state becomes the arrival's result |
| BibleQuiz.QuizGame.RunFollowUp | components/BibleQuiz.tsx:121-141 | the scheduled timeout runs |
| BibleQuiz.QuizGame.BackToMenu | components/BibleQuiz.tsx:298 | the game-over screen returns to the menu |
| TheologicalCourses.CorrectCount | components/TheologicalCourses.tsx:82-85 | counts the right answers: all right exactly when every answer is right, and 0 exactly when none is |
| TheologicalCourses.CorrectCountIsSize | components/TheologicalCourses.tsx:82-85 | the count is the number of question positions whose answer is the correct option |
| TheologicalCourses.CountCorrect | components/TheologicalCourses.tsx:82-85 | the counting loop computes that count |
| TheologicalCourses.Percentage | components/TheologicalCourses.tsx:86 | NaN exactly with no questions; otherwise a score in 0..100 rounded half up |
| TheologicalCourses.PassIff | components/TheologicalCourses.tsx:254-291 | passes exactly when 200·correct ≥ 139·n, and exactly one of award and retry shows |
| TheologicalCourses.PercentageEnds | components/TheologicalCourses.tsx:86 | all right is 100, none right is 0, and the score is monotone in the number right |
| TheologicalCourses.FreshAnswersBlockFinish | components/TheologicalCourses.tsx:67 | a new sheet with questions cannot be finished |
| TheologicalCourses.CanFinishIff | components/TheologicalCourses.tsx:244 | the exam can be finished exactly when no question is open |
| TheologicalCourses.SetAnswer | components/TheologicalCourses.tsx:74-78 | only the chosen slot changes |
| TheologicalCourses.SetAnswerCloses | components/TheologicalCourses.tsx:74-78 | choosing an option closes exactly that question |
| TheologicalCourses.ProgressKeysDistinct | components/TheologicalCourses.tsx:92 | different modules get different progress keys |
| TheologicalCourses.RecordProgress | components/TheologicalCourses.tsx:91-93 | only the exam's key changes; NaN is recorded as null |
| TheologicalCourses.EmptyExamStrands | components/TheologicalCourses.tsx:60-93 | an empty exam can be finished, scores NaN, and shows neither award nor retry |
| TheologicalCourses.FinishedExamDecides | components/TheologicalCourses.tsx:80-93 | with at least one question, the score is in 0..100 and exactly one of award and retry shows |
| TheologicalCourses.CoursesScreen.constructor | components/TheologicalCourses.tsx:22-30 | the topic selection, with nothing loaded |
| TheologicalCourses.CoursesScreen.LoadSyllabus | components/TheologicalCourses.tsx:32-45 | the syllabus is shown for the topic |
| TheologicalCourses.CoursesScreen.StartModule | components/TheologicalCourses.tsx:47-58 | the lesson is shown |
| TheologicalCourses.CoursesScreen.StartQuiz | components/TheologicalCourses.tsx:60-72 | nothing happens without a lesson; otherwise a fresh answer sheet is created |
| TheologicalCourses.CoursesScreen.HandleAnswer | components/TheologicalCourses.tsx:74-78 | one question is closed |
| TheologicalCourses.CoursesScreen.FinishQuiz | components/TheologicalCourses.tsx:80-94 | grades the exam, shows the result and records the score |
| TheologicalCourses.CoursesScreen.BackToCourse | components/TheologicalCourses.tsx:283-285 | back to the syllabus |
| BibleChat.VisibleMessages | components/BibleChat.tsx:254 | shows exactly the messages of users who are not blocked |
| BibleChat.VisibleConcat | components/BibleChat.tsx:254 | filtering keeps the order |
| BibleChat.NoneBlockedShowsAll | components/BibleChat.tsx:254 | with nobody blocked, every message shows |
| BibleChat.FilteredParticipants | components/BibleChat.tsx:256-258 | lists exactly the users whose name contains the search, ignoring case |
| BibleChat.FilteredConcat | components/BibleChat.tsx:256-258 | the filter works entry by entry: it distributes over concatenation and keeps or drops a single user, so order and repetitions are kept |
| BibleChat.EmptySearchListsAll | components/BibleChat.tsx:256-258 | an empty search lists everyone |
| BibleChat.SearchIgnoresCase | components/BibleChat.tsx:256-258 | the search ignores the case of the query |
| BibleChat.FormatTimeReadsBack | components/BibleChat.tsx:232-236 | the clock text splits back into minutes and two-digit seconds that add up to the duration |
| BibleChat.DictationAppend | components/BibleChat.tsx:218-225 | the transcript follows the trimmed input after one space, or stands alone |
| BibleChat.DictationAccumulates | components/BibleChat.tsx:218-225 | two dictations keep both transcripts, in order |
| BibleChat.PollReplace | components/BibleChat.tsx:55-60 | the screen takes either the stored list or keeps its own |
| BibleChat.PollAgrees | components/BibleChat.tsx:55-60 | after a poll, the length and the last id agree with storage |
| BibleChat.PollMissesEarlierChange | components/BibleChat.tsx:56-58 | an earlier change with the same length and last id goes unnoticed |
| BibleChat.ChatScreen.constructor | components/BibleChat.tsx:43-51 | loads the lists, the (possibly seeded) history and the configuration |
| BibleChat.ChatScreen.Poll | components/BibleChat.tsx:53-66 | applies the polling rule and rereads the configuration |
| BibleChat.ChatScreen.HandleSendText | components/BibleChat.tsx:107-115 | blank input sends nothing; a sent message clears the input and reloads the history; a throw changes the screen not at all |
| BibleChat.ChatScreen.HandleOpenParticipants | components/BibleChat.tsx:117-121 | the list opens with the search cleared |
| BibleChat.ChatScreen.HandleToggleBlock | components/BibleChat.tsx:238-244 | the blocked list is toggled, and the announcement says which way |
| BibleChat.ChatScreen.HandleToggleAdd | components/BibleChat.tsx:246-252 | the favourites list is toggled, and the announcement says which way |
| BibleChat.ChatScreen.OnDictationResult | components/BibleChat.tsx:218-225 | the input becomes the dictation append |
| AdminPage.Flip | components/AdminPage.tsx:113-118 | exactly the chosen switch flips |
| AdminPage.FlipTwice | components/AdminPage.tsx:113-118 | flipping twice restores the configuration, and two flips commute |
| AdminPage.GateFacts | components/AdminPage.tsx:60-71 | without a stored password the gate opens exactly for admin123, and never for an empty input |
| AdminPage.ChangedPasswordOpens | components/AdminPage.tsx:140-145 | after a change, only the untrimmed new password opens the gate |
| AdminPage.GenerateCodeTwice | components/AdminPage.tsx:91-95 | generating twice for a course gives the first code |
| AdminPage.ClearedChatReseeds | components/AdminPage.tsx:104-110 | after clearing, the history reads as the two seed messages |
| AdminPage.AdminScreen.constructor | components/AdminPage.tsx:25-44 | not authenticated, with empty inputs and default configuration |
| AdminPage.AdminScreen.LoadData | components/AdminPage.tsx:46-58 | all lists and switches are read from storage |
| AdminPage.AdminScreen.HandleLogin | components/AdminPage.tsx:60-71 | authenticates exactly for the stored password; a wrong one shows the error and clears the input |
| AdminPage.AdminScreen.ToggleMaintenance | components/AdminPage.tsx:74-79 | the flag flips, is stored and reads back |
| AdminPage.AdminScreen.ToggleConfig | components/AdminPage.tsx:113-118 | one switch flips and the whole configuration is stored |
| AdminPage.AdminScreen.HandleChangePassword | components/AdminPage.tsx:140-145 | a blank entry is ignored; otherwise it is stored as typed and opens the gate |
| AdminPage.AdminScreen.HandleGenerateCode | components/AdminPage.tsx:91-95 | the code is granted to the general student and shown beside the course |
| AdminPage.AdminScreen.HandleUnblock | components/AdminPage.tsx:98-102 | toggles the stored blocked list |
| AdminPage.AdminScreen.HandleDeleteUser | components/AdminPage.tsx:82-88 | after confirmation, the user is removed from storage and from the screen |
| AdminPage.AdminScreen.HandleClearChat | components/AdminPage.tsx:104-110 | after confirmation, the history is removed and will reseed |
| AdminPage.AdminScreen.HandleClearLogs | components/AdminPage.tsx:131-137 | after confirmation, the log is removed |
| AdminPage.AdminScreen.HandleFactoryReset | components/AdminPage.tsx:147-152 | after confirmation, storage is empty and the password is the default |
| LandingPage.Submitted | components/LandingPage.tsx:50-79 | an error exactly for an empty e-mail or a password under four characters; the backdoor exactly for admin credentials in maintenance mode; otherwise a login with that e-mail |
| LandingPage.BackdoorUnreachable | components/LandingPage.tsx:67-73 | from the form, the backdoor is never taken, and admin credentials log in normally |
| LandingPage.FormNeverSkipsRecording | components/LandingPage.tsx:50-79 | a form submission is either rejected or records the user |
| LandingPage.RecoveryMessage | components/LandingPage.tsx:99-107 | the notice names the typed e-mail when there is one, and says "seu e-mail" when the field is empty |
| LandingPage.PerformUserLogin | components/LandingPage.tsx:38-48 | records the user, logs the access and enables biometrics |
| LandingPage.LandingScreen.constructor | components/LandingPage.tsx:21-30 | starts in maintenance mode exactly when the flag is set; biometrics are offered exactly when enabled |
| LandingPage.LandingScreen.EnterClick | components/LandingPage.tsx:32-36 | the cover opens the form unless in maintenance |
| LandingPage.LandingScreen.AdminAccess | components/LandingPage.tsx:279 | the maintenance notice opens the form |
| LandingPage.LandingScreen.Back | components/LandingPage.tsx:162 | back to the cover, with the messages cleared |
| LandingPage.LandingScreen.Type | components/LandingPage.tsx:204-215 | the fields take the typed text |
| LandingPage.LandingScreen.HandleLogin | components/LandingPage.tsx:50-79 | schedules the submission's outcome, which is never the backdoor |
| LandingPage.LandingScreen.HandleBiometricAuth | components/LandingPage.tsx:81-88 | schedules a login as the biometric user |
| LandingPage.LandingScreen.HandleGoogleLogin | components/LandingPage.tsx:90-97 | schedules a login as the Google user |
| LandingPage.LandingScreen.HandleForgotPassword | components/LandingPage.tsx:99-107 | schedules the recovery notice for the typed e-mail |
| LandingPage.LandingScreen.TimerFires | components/LandingPage.tsx:50-107 | a pending step runs: shows the error, enters, or shows the notice; a login records the user, prepends the access log entry and sets the biometrics flag, and no other key changes |
| SettingsPage.PreferenceDefaults | components/SettingsPage.tsx:14-17 | the sound defaults to on and biometrics to off |
| SettingsPage.PreferenceReadsBack | components/SettingsPage.tsx:19-31 | what a switch writes reads back as its state |
| SettingsPage.SettingsScreen.constructor | components/SettingsPage.tsx:14-17 | both switches are read from storage |
| SettingsPage.SettingsScreen.ToggleLionSound | components/SettingsPage.tsx:19-24 | the switch flips, and the roar preference follows it |
| SettingsPage.SettingsScreen.ToggleBiometrics | components/SettingsPage.tsx:26-31 | the switch flips, and the landing page's offer follows it |
| SettingsPage.SettingsScreen.ClearLocalData | components/SettingsPage.tsx:33-40 | after confirmation, storage is empty and both preferences read as defaults |
| BibleAssistant.StripMarkdown | components/BibleAssistant.tsx:58 | the result has no markup characters, contains exactly the other characters, and plain text is unchanged |
| BibleAssistant.StripIdempotent | components/BibleAssistant.tsx:58 | stripping twice equals stripping once |
| BibleAssistant.StripConcat | components/BibleAssistant.tsx:58 | stripping works piece by piece |
| BibleAssistant.TextToSend | components/BibleAssistant.tsx:121-123 | a non-empty override wins over the input |
| BibleAssistant.ExchangeKeepsTurns | components/BibleAssistant.tsx:121-156 | a question and its answer keep the turns alternating |
| BibleAssistant.AssistantScreen.constructor | components/BibleAssistant.tsx:17-19 | the greeting alone |
| BibleAssistant.AssistantScreen.HandleSend | components/BibleAssistant.tsx:121-135 | nothing is sent exactly for blank text or while loading; otherwise the question is appended and sent with the earlier history |
| BibleAssistant.AssistantScreen.Respond | components/BibleAssistant.tsx:136-156 | exactly one model message follows the question: the reply, read aloud without markup, or the apology |
| BibleAssistant.AssistantScreen.ClearChat | components/BibleAssistant.tsx:158-164 | after confirmation, only the restart greeting remains |
| Constants.BibleFacts | constants.ts:3-70 | 66 books, 39 Old and 27 New Testament, 1189 chapters, all positive, with distinct names |
| Constants.TestamentsDisjoint | constants.ts:3-70 | no name appears in both testaments |
| Constants.ApocryphaFacts | constants.ts:72-82 | nine books, none named like a Bible book |
| ServiceWorker.Classify | service-worker.js:62-75 | not intercepted exactly for non-GET or assistant requests; cache-first exactly for media |
| ServiceWorker.CacheRulesDisjoint | service-worker.js:83-103 | no response is cacheable under both rules, and a same-origin image is never cached |
| ServiceWorker.AssistantNeverIntercepted | service-worker.js:64-66 | assistant requests are left to the browser |
| ServiceWorker.StaticAssetsAreMedia | service-worker.js:4-33 | every listed asset is handled cache-first |
| ServiceWorker.MatchIn | service-worker.js:76 | finds nothing exactly when no cache holds the URL |
| ServiceWorker.MatchFirst | service-worker.js:76 | the lookup answers from the earliest cache that holds the URL |
| ServiceWorker.PutIn | service-worker.js:83-88 | only the named cache gains the entry, and the cache is created if missing |
| ServiceWorker.PutInKeepsDistinct | service-worker.js:83-88 | cache names stay distinct |
| ServiceWorker.OpenKeepsEntries | service-worker.js:37-38 | opening a cache changes no entries |
| ServiceWorker.WithoutKeepsOthers | service-worker.js:53-55 | deleting keeps every other cache |
| ServiceWorker.CurrentMatch | service-worker.js:47-60 | after activation, a lookup finds only what the current cache holds |
| ServiceWorker.PutAllStores | service-worker.js:38-43 | every listed URL holds its fetched response, and other caches are unchanged |
| ServiceWorker.CacheStorage.constructor | service-worker.js:35-45 | starts with no caches |
| ServiceWorker.CacheStorage.Open | service-worker.js:37 | opens as specified |
| ServiceWorker.CacheStorage.Put | service-worker.js:86 | stores as specified |
| ServiceWorker.CacheStorage.Delete | service-worker.js:55 | deletes as specified |
| ServiceWorker.AddAll | service-worker.js:38-43 | stores all URLs exactly when every fetch succeeded with status 2xx; otherwise stores none |
| ServiceWorker.Install | service-worker.js:35-45 | opens the current cache and adds every listed asset |
| ServiceWorker.InstalledAssetsStored | service-worker.js:35-45 | after a full install, every asset is in the current cache |
| ServiceWorker.Activate | service-worker.js:47-60 | only the current cache survives, and lookups find only its entries |
| ServiceWorker.SweepName | service-worker.js:51-55 | one name is handled: its cache is deleted unless it is the current one |
| ServiceWorker.KeptStep | service-worker.js:51-55 | with distinct names, deleting the next name removes exactly that cache and keeps everything else |
| ServiceWorker.KeptAll | service-worker.js:49-57 | once every name has been handled, only the current cache is left |
| ServiceWorker.HandleFetch | service-worker.js:62-112 | covers the pass-through, the cache-first hit and miss, and stale-while-revalidate with its fallback |
| ServiceWorker.CachedMediaServedNext | service-worker.js:83-90 | media cached on a miss is what the next lookup returns |
| Text.Trim | services/chatService.ts:250 | leading and trailing whitespace are removed; the result is empty exactly for blank input |
| Text.TrimIsSlice | services/chatService.ts:250 | the result is a contiguous slice of the input, and what precedes and follows it is whitespace |
| Text.WhiteBeyondLatin1 | services/chatService.ts:250 | the line and paragraph separators, the narrow, mathematical and ideographic spaces and the byte order mark count as whitespace |
| Text.JoinSplit | App.tsx:169-172 | joining the split parts gives back the fragment |
| Text.ParseIntLeading | components/BibleReader.tsx:58 | text starting with a digit parses as the value of its leading digits |
| Text.ParseIntToString | components/BibleReader.tsx:58 | parsing a printed integer gives that integer |

## Left out

- **Browser and device features:**
  - Sounds, speech synthesis and speech recognition engines: recognised transcripts are
    parameters, and a spoken reply is recorded as the text passed to the synthesiser.
  - Clipboard, sharing and canvas image generation in the Bible reader.
  - The audio recording of chat voice messages, which uses MediaRecorder and FileReader.
  - Notifications.
  - Scrolling.
- **Asynchrony:**
  - Timers and intervals are explicit events, e.g. `BibleQuiz.Tick`, `LandingScreen.TimerFires`
    and `BibleChat.ChatScreen.Poll`.
  - Each `async` handler is split into its part before `await` and a separate step that
    receives the awaited result.
- **Services with no model here.** The text generator client and the chapter and quiz content
  services are not part of this model; their answers are parameters. Also not modelled: the
  dictionary, main menu and radio pages, and the landing page's markup beyond the state it
  keeps.
- **Browser checks on form fields.** The input constraints the browser enforces (`required`,
  `type=email`) are not modelled.
- **Number formats.** Floating point is replaced by exact arithmetic: `Math.round(x/n*100)` is
  rounded half up over the rationals, and NaN is a constructor.
- **Decoding and errors:**
  - JSON is not re-parsed: stored values are structured, so malformed stored text and JSON
    exceptions are not modelled.
  - `decodeURIComponent` is the identity.
- **ChatService.NewMessage: the profanity filter is a function parameter.** The
  word-boundary regular expression it builds is not modelled.
- **`generateAccessCode`.** Its randomness is the `freshCode` parameter; codes are only assumed
  to be upper-case base-36 text.
- **Text.ToLower, Text.ToUpper: case mapping covers ASCII and Latin-1 only.** Beyond U+00FF
  no letter is mapped. Within Latin-1, 'ÿ' is not raised to 'Ÿ' and 'µ' is not raised to 'Μ'.
  'ß' is kept rather than becoming "SS", so the result always has the input's length.
- **LandingPage.Submitted: the password length counts characters, not UTF-16 code units.** A
  character outside the Basic Multilingual Plane counts once here and twice in the source.
- **The app-lock switch** is stored and flipped, but nothing reads it.
- **Page reloads** after clearing data or a factory reset are not modelled.
- **Service worker:**
  - Resolution of the relative `./` entries against the worker's scope.
  - `skipWaiting` and `clients.claim`.
  - The background ordering of the `cache.put` calls, which run as one step.
  - The concurrent `caches.delete` calls of `activate` run one after another in the order of
    `caches.keys()`. With distinct cache names, the order does not change the result.
- **BibleAssistant.AssistantScreen.HandleSend: the dictation path's stale closure is not modelled.**
  Dictation calls the send handler captured before the transcript was set; the model always
  sends the current input or the override.
- **App.Shell.HandlePlayStation: the stream URL is recorded, not played.** The
  `mediaSession` metadata is not modelled.
- **BibleQuiz: tick sounds are not modelled.** The game events are modelled as exclusive and
  atomic; interleavings that React's batching could produce are not modelled.

## Findings

| source | as written | input that shows it | evidently intended | confidence | as-written member | corrected member |
|---|---|---|---|---|---|---|
| components/BibleReader.tsx:102-104 | notes are written back only while the map is non-empty | save one note, then save it again blank and reopen the reader: the note is back | every change to the notes, deletions included, is persisted once they have been loaded | high; not executed | BibleReader.DeletedLastNoteReturns | BibleReader.PersistAfterLoadReadsBack |
| components/GlobalControls.tsx:58 | the first book whose name appears in the command wins, and "João" precedes "1 João" | the transcript "1 joão 2" opens the gospel of John, chapter 1 | the book actually named is opened | high; not executed | GlobalControls.JohnEpistlesUnreachable | GlobalControls.LongestKeepsEpistles |
| components/TheologicalCourses.tsx:80-93 | an exam with no questions can be finished and scores 0/0 | a course quiz whose generation returns no questions: the score is NaN, and neither the award nor "Tentar Novamente" is shown | an exam is only finished with at least one question, and it always ends in a pass or a retry | medium; not executed | TheologicalCourses.EmptyExamStrands | TheologicalCourses.FinishedExamDecides |

The screens follow the code as written: `ReaderScreen.PersistNotes`, `VoiceControl.OnResult`
and `CoursesScreen.FinishQuiz` use the as-written definitions. The corrected definitions are
stated and proved beside them.
