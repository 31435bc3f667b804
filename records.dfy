/**
 * The records the application keeps: the shapes of `types.ts` and the interfaces declared in
 * `services/chatService.ts`. Optional fields (`email?`, `text?`) become `Option`s.
 */
module Records {
  import opened Wrappers

  datatype Testament = Old | New

  /** One book of a catalog: its display name, its testament and how many chapters it has. */
  datatype Book = Book(name: string, testament: Testament, chapters: nat)

  datatype Verse = Verse(verse: nat, text: string)

  datatype RadioStation = RadioStation(id: string, name: string, genre: string, url: string, color: string)

  datatype ChatUser = ChatUser(
    id: string, name: string, avatarColor: string, isOnline: bool,
    email: Option<string>, lastLogin: Option<string>)

  datatype MessageKind = TextMessage | AudioMessage

  datatype ChatMessage = ChatMessage(
    id: string, userId: string, userName: string, avatarColor: string,
    text: Option<string>, audio: Option<string>, kind: MessageKind, timestamp: string)

  datatype AccessLog = AccessLog(id: string, email: string, timestamp: string, deviceInfo: string)

  datatype AdminConfig = AdminConfig(isAdminMode: bool, adminSoundEnabled: bool, isAppLocked: bool)

  datatype CoursePermission = CoursePermission(userId: string, courseId: string, accessCode: string, isUnlocked: bool)

  /** The reading position the Bible reader saves: book name and chapter number. */
  datatype LastRead = LastRead(bookName: string, chapter: int)

  /** A multiple-choice question as the text generator returns it (`reference` is not used here). */
  datatype QuizQuestion = QuizQuestion(question: string, options: seq<string>, correctOptionIndex: int, explanation: string)
}
