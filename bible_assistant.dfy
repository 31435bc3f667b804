/**
 * The question-and-answer screen of `components/BibleAssistant.tsx`: the user's questions and
 * the text generator's replies alternate in one list, one request at a time. The request
 * itself is left out; its answer (or its failure) arrives as a separate step.
 */
module BibleAssistant {
  import opened Wrappers
  import opened Text

  datatype Role = User | Model
  datatype Message = Message(role: Role, text: string)

  /** What is passed to the text generator: the question and the conversation before it. */
  datatype Request = Request(text: string, history: seq<Message>)

  const Greeting := "A paz! Sou seu assistente bíblico. Posso falar com você sobre as Escrituras. Qual a sua dúvida?"
  const Restarted := "Conversa reiniciada. Em que posso ajudar?"
  const Apology := "Desculpe, tive um problema de conexão. Tente novamente."

  /** The characters `/[*#_`]/g` removes before a reply is read aloud. */
  predicate IsMarkup(c: char) {
    c == '*' || c == '#' || c == '_' || c == '`'
  }

  predicate Plain(s: string) {
    forall i :: 0 <= i < |s| ==> !IsMarkup(s[i])
  }

  /** `text.replace(/[*#_`]/g, '')`. */
  function StripMarkdown(s: string): (r: string)
    ensures Plain(r) && |r| <= |s|
    ensures forall c :: c in r <==> c in s && !IsMarkup(c)
    ensures Plain(s) ==> r == s
  {
    if s == [] then []
    else if IsMarkup(s[0]) then StripMarkdown(s[1..])
    else [s[0]] + StripMarkdown(s[1..])
  }

  /** Stripping twice strips nothing more. */
  lemma StripIdempotent(s: string)
    ensures StripMarkdown(StripMarkdown(s)) == StripMarkdown(s)
  {
  }

  /** Stripping works piecewise, so a reply is read as the concatenation of its stripped parts. */
  lemma {:induction false} StripConcat(a: string, b: string)
    ensures StripMarkdown(a + b) == StripMarkdown(a) + StripMarkdown(b)
    decreases |a|
  {
    if a == [] {
      assert a + b == b;
    } else {
      assert (a + b)[1..] == a[1..] + b;
      StripConcat(a[1..], b);
    }
  }

  /** `textOverride || inputText`: a non-empty override wins. */
  function TextToSend(textOverride: Option<string>, inputText: string): (t: string)
    ensures textOverride.Some? && textOverride.value != "" ==> t == textOverride.value
    ensures textOverride.None? || textOverride.value == "" ==> t == inputText
  {
    match textOverride
    case Some(o) => if o != "" then o else inputText
    case None => inputText
  }

  /** The greeting first, then user and model turns in strict alternation. */
  predicate Alternates(ms: seq<Message>) {
    forall i :: 0 <= i < |ms| ==> ms[i].role == (if i % 2 == 0 then Model else User)
  }

  lemma AlternatesSnoc(ms: seq<Message>, m: Message)
    requires Alternates(ms) && m.role == (if |ms| % 2 == 0 then Model else User)
    ensures Alternates(ms + [m])
  {
  }

  class AssistantScreen {
    var messages: seq<Message>
    var inputText: string
    var isLoading: bool
    var isSpeaking: bool
    /** The list `handleSend` built before its request; the reply is appended to it, not to `messages`. */
    var pendingBase: seq<Message>
    /** The last text passed to speech synthesis. */
    var utterance: Option<string>

    /**
     * The list alternates, starting with the model; while no request is out it ends with the
     * model, and the list a reply will extend ends with the user's question.
     */
    ghost predicate Valid()
      reads this
    {
      messages != [] && Alternates(messages)
      && (!isLoading ==> |messages| % 2 == 1)
      && (isLoading ==> Alternates(pendingBase) && |pendingBase| % 2 == 0 && pendingBase != [])
    }

    constructor()
      ensures Valid()
      ensures messages == [Message(Model, Greeting)] && inputText == "" && !isLoading && !isSpeaking
      ensures utterance == None
    {
      messages := [Message(Model, Greeting)];
      inputText := "";
      isLoading := false;
      isSpeaking := false;
      pendingBase := [];
      utterance := None;
    }

    method Type(text: string)
      requires Valid()
      modifies this
      ensures Valid() && inputText == text
      ensures messages == old(messages) && isLoading == old(isLoading) && pendingBase == old(pendingBase)
    {
      inputText := text;
    }

    /**
     * `handleSend` up to its `await`: a blank text (nothing left after `Trim`) or a request
     * already out is ignored; otherwise the question is appended, the field cleared, speech
     * stopped and the request returned.
     */
    method HandleSend(textOverride: Option<string>) returns (request: Option<Request>)
      requires Valid()
      modifies this
      ensures Valid()
      ensures var text := TextToSend(textOverride, old(inputText));
        request.None? <==> IsBlank(text) || old(isLoading)
      ensures request.None? ==> (messages == old(messages) && inputText == old(inputText)
        && isLoading == old(isLoading) && isSpeaking == old(isSpeaking))
      ensures request.Some? ==> (request.value == Request(TextToSend(textOverride, old(inputText)), old(messages))
        && messages == old(messages) + [Message(User, request.value.text)] && pendingBase == messages
        && inputText == "" && isLoading && !isSpeaking)
      ensures utterance == old(utterance)
    {
      var textToSend := TextToSend(textOverride, inputText);
      if IsBlank(textToSend) || isLoading {
        return None;
      }
      isSpeaking := false;
      inputText := "";
      var newMessages := messages + [Message(User, textToSend)];
      AlternatesSnoc(messages, Message(User, textToSend));
      request := Some(Request(textToSend, messages));
      messages := newMessages;
      pendingBase := newMessages;
      isLoading := true;
    }

    /**
     * The rest of `handleSend`: exactly one model message follows the question, the reply (then
     * read aloud without markup) or the apology, and loading ends.
     */
    method Respond(reply: Option<string>)
      requires Valid() && isLoading
      modifies this
      ensures Valid() && !isLoading
      ensures reply.Some? ==> (messages == old(pendingBase) + [Message(Model, reply.value)]
        && utterance == Some(StripMarkdown(reply.value)))
      ensures reply.None? ==> (messages == old(pendingBase) + [Message(Model, Apology)]
        && utterance == old(utterance))
      ensures inputText == old(inputText)
    {
      var answer := if reply.Some? then reply.value else Apology;
      AlternatesSnoc(pendingBase, Message(Model, answer));
      messages := pendingBase + [Message(Model, answer)];
      if reply.Some? {
        utterance := Some(StripMarkdown(reply.value));
      }
      isLoading := false;
    }

    /** `clearChat`: speech stops; with confirmation the list becomes the restart greeting alone. */
    method ClearChat(confirmed: bool)
      requires Valid()
      modifies this
      ensures Valid() && !isSpeaking
      ensures confirmed ==> messages == [Message(Model, Restarted)]
      ensures !confirmed ==> messages == old(messages)
      ensures isLoading == old(isLoading) && pendingBase == old(pendingBase) && inputText == old(inputText)
    {
      isSpeaking := false;
      if confirmed {
        messages := [Message(Model, Restarted)];
      }
    }
  }

  /**
   * A question and its answer add two messages to a list that ended with the model, and the list
   * again ends with the model.
   */
  lemma ExchangeKeepsTurns(ms: seq<Message>, question: string, answer: string)
    requires Alternates(ms) && |ms| % 2 == 1
    ensures var after := ms + [Message(User, question)] + [Message(Model, answer)];
      Alternates(after) && |after| % 2 == 1 && after[..|ms|] == ms
  {
    AlternatesSnoc(ms, Message(User, question));
    AlternatesSnoc(ms + [Message(User, question)], Message(Model, answer));
  }
}
