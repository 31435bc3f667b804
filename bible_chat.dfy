/**
 * The community chat of `components/BibleChat.tsx`: the messages shown (blocked users hidden),
 * the participant search, the recording clock, dictation into the input, the polling rule that
 * decides when the local list is replaced, and the handlers that send text and toggle the
 * blocked and favourite lists through the chat service.
 */
module BibleChat {
  import opened Wrappers
  import opened Text
  import opened Records
  import opened Storage
  import opened ChatService

  /** `messages.filter(msg => !blockedUsers.includes(msg.userId))`. */
  function VisibleMessages(messages: seq<ChatMessage>, blocked: seq<string>): (r: seq<ChatMessage>)
    ensures |r| <= |messages|
    ensures forall m :: m in r <==> m in messages && m.userId !in blocked
  {
    if messages == [] then []
    else
      var rest := VisibleMessages(messages[1..], blocked);
      assert messages == [messages[0]] + messages[1..];
      if messages[0].userId in blocked then rest else [messages[0]] + rest
  }

  /** Filtering keeps the order: the view of two lists in a row is the two views in a row. */
  lemma {:induction false} VisibleConcat(a: seq<ChatMessage>, b: seq<ChatMessage>, blocked: seq<string>)
    ensures VisibleMessages(a + b, blocked) == VisibleMessages(a, blocked) + VisibleMessages(b, blocked)
  {
    if a == [] {
      assert a + b == b;
    } else {
      assert (a + b)[0] == a[0] && (a + b)[1..] == a[1..] + b;
      VisibleConcat(a[1..], b, blocked);
    }
  }

  /** With nobody in the list blocked, every message shows, in order. */
  lemma {:induction false} NoneBlockedShowsAll(messages: seq<ChatMessage>, blocked: seq<string>)
    requires forall i :: 0 <= i < |messages| ==> messages[i].userId !in blocked
    ensures VisibleMessages(messages, blocked) == messages
  {
    if messages != [] {
      NoneBlockedShowsAll(messages[1..], blocked);
    }
  }

  /** `MOCK_USERS.filter(u => u.name.toLowerCase().includes(search.toLowerCase()))`. */
  function FilteredParticipants(users: seq<ChatUser>, search: string): (r: seq<ChatUser>)
    ensures |r| <= |users|
    ensures forall u :: u in r <==> u in users && Contains(ToLower(u.name), ToLower(search))
  {
    if users == [] then []
    else
      var rest := FilteredParticipants(users[1..], search);
      assert users == [users[0]] + users[1..];
      if Contains(ToLower(users[0].name), ToLower(search)) then [users[0]] + rest else rest
  }

  /** The search keeps the list's order: it works participant by participant over a concatenation. */
  lemma {:induction false} FilteredConcat(a: seq<ChatUser>, b: seq<ChatUser>, search: string)
    ensures FilteredParticipants(a + b, search) == FilteredParticipants(a, search) + FilteredParticipants(b, search)
    ensures forall u :: (FilteredParticipants([u], search)
      == if Contains(ToLower(u.name), ToLower(search)) then [u] else [])
  {
    FilteredSingle(search);
    if a == [] {
      assert a + b == b;
    } else {
      assert (a + b)[0] == a[0] && (a + b)[1..] == a[1..] + b;
      FilteredConcat(a[1..], b, search);
      var rest := FilteredParticipants(a[1..], search);
      if Contains(ToLower(a[0].name), ToLower(search)) {
        assert [a[0]] + (rest + FilteredParticipants(b, search)) == [a[0]] + rest + FilteredParticipants(b, search);
      }
    }
  }

  lemma FilteredSingle(search: string)
    ensures forall u :: (FilteredParticipants([u], search)
      == if Contains(ToLower(u.name), ToLower(search)) then [u] else [])
  {
    forall u ensures FilteredParticipants([u], search)
      == if Contains(ToLower(u.name), ToLower(search)) then [u] else []
    {
      assert [u][1..] == [];
    }
  }

  /** An empty search lists every participant, in order. */
  lemma {:induction false} EmptySearchListsAll(users: seq<ChatUser>)
    ensures FilteredParticipants(users, "") == users
  {
    if users != [] {
      ContainsEmpty(ToLower(users[0].name));
      EmptySearchListsAll(users[1..]);
    }
  }

  /** The search ignores case: upper-casing the query changes nothing once both sides are lowered. */
  lemma SearchIgnoresCase(users: seq<ChatUser>, search: string)
    ensures FilteredParticipants(users, ToLower(search)) == FilteredParticipants(users, search)
  {
    ToLowerIdempotent(search);
  }

  /** `formatTime`: minutes, a colon, and the seconds padded to two digits. */
  function FormatTime(seconds: nat): string {
    NatToString(seconds / 60) + ":" + PadStart2(NatToString(seconds % 60))
  }

  /** A leading zero does not change a number's value. */
  lemma {:induction false} LeadingZero(s: string)
    requires AllDigits(s)
    ensures AllDigits("0" + s) && DigitsValue("0" + s) == DigitsValue(s)
    decreases |s|
  {
    var z := "0" + s;
    if s != [] {
      assert z[..|z| - 1] == "0" + s[..|s| - 1];
      LeadingZero(s[..|s| - 1]);
    }
  }

  /**
   * The clock reads back: it splits at the colon into the minutes and two digits of seconds, and
   * 60 · minutes + seconds is the duration.
   */
  lemma FormatTimeReadsBack(seconds: nat)
    ensures var parts := Split(FormatTime(seconds), ':');
      |parts| == 2 && AllDigits(parts[0]) && AllDigits(parts[1]) && |parts[1]| == 2
      && 60 * DigitsValue(parts[0]) + DigitsValue(parts[1]) == seconds
  {
    var m := NatToString(seconds / 60);
    var s := PadStart2(NatToString(seconds % 60));
    PaddedSeconds(seconds % 60);
    assert ':' !in m by {
      assert forall k :: 0 <= k < |m| ==> IsDigit(m[k]);
    }
    assert ':' !in s by {
      assert forall k :: 0 <= k < |s| ==> IsDigit(s[k]);
    }
    SplitCons(m, ':', s);
    assert FormatTime(seconds) == m + [':'] + s;
    assert Split(FormatTime(seconds), ':') == [m, s];
  }

  /** Seconds below a minute pad to two digits that keep their value. */
  lemma PaddedSeconds(n: nat)
    requires n < 60
    ensures var s := PadStart2(NatToString(n));
      |s| == 2 && AllDigits(s) && DigitsValue(s) == n
  {
    var d := NatToString(n);
    SmallNatDigits(n);
    if n < 10 {
      assert PadStart2(d) == "0" + d;
      LeadingZero(d);
    } else {
      assert PadStart2(d) == d;
    }
  }

  lemma SmallNatDigits(n: nat)
    requires n < 100
    ensures |NatToString(n)| == if n < 10 then 1 else 2
  {
    if n >= 10 {
      assert n / 10 < 10;
    }
  }

  /** Dictation: the transcript after the trimmed input and one space, or alone when the input is blank. */
  function DictationAppend(input: string, transcript: string): (r: string)
    ensures transcript == "" ==> r == input
    ensures transcript != "" && IsBlank(input) ==> r == transcript
    ensures transcript != "" && !IsBlank(input) ==>
      |r| == |Trim(input)| + 1 + |transcript| && r[..|Trim(input)|] == Trim(input) && r[|Trim(input)|] == ' ' && r[|Trim(input)| + 1..] == transcript
  {
    if transcript == "" then input
    else
      var trimmed := Trim(input);
      if trimmed != "" then trimmed + " " + transcript else transcript
  }

  /** A second dictation keeps the first: both transcripts end up in order, one space apart. */
  lemma DictationAccumulates(input: string, t1: string, t2: string)
    requires !IsBlank(t1) && !IsWhite(t1[0]) && !IsWhite(t1[|t1| - 1]) && t2 != ""
    requires IsBlank(input)
    ensures DictationAppend(DictationAppend(input, t1), t2) == t1 + " " + t2
  {
    TrimKeepsUnpadded(t1);
  }

  lemma TrimKeepsUnpadded(s: string)
    requires s != [] && !IsWhite(s[0]) && !IsWhite(s[|s| - 1])
    ensures Trim(s) == s
  {
    TrimStartKeeps(s);
    TrimEndKeeps(s);
  }

  /** The id of the last message, `undefined` for an empty list. */
  function LastId(messages: seq<ChatMessage>): Option<string> {
    if messages == [] then None else Some(messages[|messages| - 1].id)
  }

  /** The polling rule: the stored list replaces the local one when the last id or the length differs. */
  function PollReplace(local: seq<ChatMessage>, stored: seq<ChatMessage>): (r: seq<ChatMessage>)
    ensures r == stored || r == local
  {
    if LastId(local) != LastId(stored) || |local| != |stored| then stored else local
  }

  /** After a poll the screen agrees with the store on the length and on the newest message's id. */
  lemma PollAgrees(local: seq<ChatMessage>, stored: seq<ChatMessage>)
    ensures |PollReplace(local, stored)| == |stored|
    ensures LastId(PollReplace(local, stored)) == LastId(stored)
    ensures local == stored ==> PollReplace(local, stored) == local
  {
  }

  /**
   * The rule looks only at the ends: a list with the same length and the same last id is kept
   * even when an earlier message differs.
   */
  lemma PollMissesEarlierChange(local: seq<ChatMessage>, stored: seq<ChatMessage>)
    requires |local| == |stored| && LastId(local) == LastId(stored)
    ensures PollReplace(local, stored) == local
  {
  }

  /** The screen's announcement after a toggle. */
  function BlockAnnouncement(name: string, nowBlocked: bool): string {
    name + " foi " + (if nowBlocked then "bloqueado" else "desbloqueado") + "."
  }

  function AddAnnouncement(name: string, nowAdded: bool): string {
    name + " foi " + (if nowAdded then "adicionado aos favoritos" else "removido dos favoritos") + "."
  }

  const CurrentUserId := "me"
  const CurrentUserName := "Você"

  /** The chat screen's state, over the store the chat service keeps. */
  class ChatScreen {
    const store: Store
    var messages: seq<ChatMessage>
    var inputText: string
    var blockedUsers: seq<string>
    var addedUsers: seq<string>
    var participantSearch: string
    var showParticipants: bool
    var announcement: string
    var isAdminMode: bool
    var adminSoundEnabled: bool

    ghost predicate Valid()
      reads this, store
    {
      store.Valid()
    }

    /** The mount effect: lists, history (seeded when absent) and the admin configuration. */
    constructor(s: Store, hourAgo: string, halfHourAgo: string)
      requires s.Valid()
      modifies s
      ensures Valid() && store == s
      ensures blockedUsers == old(StoredIds(s, BlockedKey)) && addedUsers == old(StoredIds(s, AddedKey))
      ensures messages == old(CurrentMessages(s, hourAgo, halfHourAgo))
      ensures isAdminMode == old(GetAdminConfig(s)).isAdminMode
      ensures adminSoundEnabled == old(GetAdminConfig(s)).adminSoundEnabled
      ensures inputText == "" && participantSearch == "" && !showParticipants
    {
      store := s;
      blockedUsers := StoredIds(s, BlockedKey);
      addedUsers := StoredIds(s, AddedKey);
      var config := GetAdminConfig(s);
      isAdminMode := config.isAdminMode;
      adminSoundEnabled := config.adminSoundEnabled;
      new;
      messages := GetMessages(s, hourAgo, halfHourAgo);
      inputText := "";
      participantSearch := "";
      showParticipants := false;
      announcement := "";
    }

    /** The messages on screen. */
    function Visible(): seq<ChatMessage>
      reads this
    {
      VisibleMessages(messages, blockedUsers)
    }

    /** One tick of the polling interval. */
    method Poll(hourAgo: string, halfHourAgo: string)
      requires Valid()
      modifies this, store
      ensures Valid()
      ensures messages == PollReplace(old(messages), old(CurrentMessages(store, hourAgo, halfHourAgo)))
      ensures isAdminMode == GetAdminConfig(store).isAdminMode
      ensures adminSoundEnabled == GetAdminConfig(store).adminSoundEnabled
      ensures inputText == old(inputText) && blockedUsers == old(blockedUsers) && addedUsers == old(addedUsers)
    {
      var stored := GetMessages(store, hourAgo, halfHourAgo);
      messages := PollReplace(messages, stored);
      var config := GetAdminConfig(store);
      isAdminMode := config.isAdminMode;
      adminSoundEnabled := config.adminSoundEnabled;
    }

    /**
     * `handleSendText`: blank input (nothing left after `Trim`, which is what `IsBlank` states)
     * sends nothing; otherwise the message is sent as "me", and
     * unless the service throws, the input is cleared and the history reloaded.
     */
    method HandleSendText(nowMillis: nat, nowIso: string, hourAgo: string, halfHourAgo: string,
                          filter: string -> string, fullWriteFails: bool, fallbackWriteFails: bool)
      returns (outcome: Option<SendOutcome>)
      requires Valid()
      modifies this, store
      ensures Valid()
      ensures IsBlank(old(inputText)) ==>
        (outcome.None? && store.items == old(store.items) && inputText == old(inputText) && messages == old(messages))
      ensures !IsBlank(old(inputText)) ==> outcome.Some?
      ensures outcome == Some(Thrown) ==> inputText == old(inputText) && messages == old(messages)
      ensures outcome.Some? && outcome.value.Sent? ==>
        inputText == "" && outcome.value.message.userId == CurrentUserId
        && messages == CurrentMessages(store, hourAgo, halfHourAgo)
      ensures outcome.Some? && !fullWriteFails ==>
        outcome.value.Sent?
        && messages == AppendBounded(old(CurrentMessages(store, hourAgo, halfHourAgo)), outcome.value.message)
        && messages[|messages| - 1].text == Some(filter(old(inputText)))
      ensures blockedUsers == old(blockedUsers) && addedUsers == old(addedUsers)
    {
      if IsBlank(inputText) {
        return None;
      }
      ghost var before := CurrentMessages(store, hourAgo, halfHourAgo);
      ghost var m := NewMessage(inputText, CurrentUserId, CurrentUserName, TextMessage, nowMillis, nowIso, filter);
      var sent := SendMessage(store, inputText, CurrentUserId, CurrentUserName, TextMessage, nowMillis, nowIso,
                              hourAgo, halfHourAgo, filter, fullWriteFails, fallbackWriteFails);
      outcome := Some(sent);
      if sent.Thrown? {
        return;
      }
      ghost var stored := CurrentMessages(store, hourAgo, halfHourAgo);
      if !fullWriteFails {
        assert store.Get(MessagesKey) == Some(Messages(AppendBounded(before, m)));
        assert stored == AppendBounded(before, m);
      }
      inputText := "";
      messages := GetMessages(store, hourAgo, halfHourAgo);
      assert messages == stored;
    }

    /** Opening the participant list clears the search. */
    method HandleOpenParticipants()
      modifies this
      ensures showParticipants && participantSearch == ""
      ensures messages == old(messages) && inputText == old(inputText) && blockedUsers == old(blockedUsers)
    {
      participantSearch := "";
      showParticipants := true;
    }

    /** The participants listed for the current search. */
    function Participants(): seq<ChatUser>
      reads this
    {
      FilteredParticipants(MockUsers, participantSearch)
    }

    /** `handleToggleBlock`: the stored list is toggled, and the announcement says which way. */
    method HandleToggleBlock(user: ChatUser)
      requires Valid()
      modifies this, store
      ensures Valid()
      ensures blockedUsers == Toggle(old(StoredIds(store, BlockedKey)), user.id)
      ensures user.id in blockedUsers <==> user.id !in old(StoredIds(store, BlockedKey))
      ensures announcement == BlockAnnouncement(user.name, user.id in blockedUsers)
      ensures messages == old(messages) && addedUsers == old(addedUsers) && inputText == old(inputText)
    {
      blockedUsers := ToggleBlockUser(store, user.id);
      announcement := BlockAnnouncement(user.name, user.id in blockedUsers);
    }

    /** `handleToggleAdd`. */
    method HandleToggleAdd(user: ChatUser)
      requires Valid()
      modifies this, store
      ensures Valid()
      ensures addedUsers == Toggle(old(StoredIds(store, AddedKey)), user.id)
      ensures user.id in addedUsers <==> user.id !in old(StoredIds(store, AddedKey))
      ensures announcement == AddAnnouncement(user.name, user.id in addedUsers)
      ensures messages == old(messages) && blockedUsers == old(blockedUsers) && inputText == old(inputText)
    {
      addedUsers := ToggleAddUser(store, user.id);
      announcement := AddAnnouncement(user.name, user.id in addedUsers);
    }

    /** A dictation result. */
    method OnDictationResult(transcript: string)
      modifies this
      ensures inputText == DictationAppend(old(inputText), transcript)
      ensures messages == old(messages) && blockedUsers == old(blockedUsers) && addedUsers == old(addedUsers)
    {
      inputText := DictationAppend(inputText, transcript);
    }
  }
}
