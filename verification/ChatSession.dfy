/**
 * The chat box shared by the chat page, the `ChatWindow` component and the
 * root `App`: typing, the send guard (blank input or a pending reply does
 * nothing), the user message appended before the request, and the reply
 * appended (or shown) after it.
 *
 * `sendChat` is not part of this model: its answer is an input event.
 */
module ChatSession {
  import opened Text
  import opened ChatApi

  datatype Role = User | Assistant

  datatype ChatMessage = ChatMessage(role: Role, content: string)

  /** What `sendChat` resolved to: `{ text?, error? }`. */
  datatype Reply = Reply(text: Option<string>, error: Option<string>)

  /**
   * The box's state; `shown` is the root `App`'s single reply line (the
   * two other boxes never set it).
   */
  datatype Session = Session(input: string, messages: seq<ChatMessage>, loading: bool, shown: string)

  const Empty: Session := Session("", [], false, "")

  /** The coach tabs of the chat page and the name each sends as `persona`. */
  datatype Tab = EngineerTab | LifeTab

  function TabName(t: Tab): string {
    match t
    case EngineerTab => "engineer"
    case LifeTab => "life"
  }

  /** The outcome of pressing send: the new state, and the conversation handed to `sendChat` if any. */
  datatype Sent = Sent(session: Session, request: Option<seq<ChatMessage>>)

  /** `!input.trim() || loading` */
  predicate Ignored(s: Session) {
    Trim(s.input) == "" || s.loading
  }

  /**
   * `onSend`, up to the request: an ignored press changes nothing and
   * sends nothing; otherwise the trimmed input is appended as a user
   * message, the box is cleared, loading starts, and the whole
   * conversation including the new message is sent.
   */
  function Send(s: Session): (r: Sent)
    ensures Ignored(s) <==> r.request.None?
    ensures Ignored(s) ==> r.session == s
    ensures !Ignored(s) ==>
              && r.session.messages == s.messages + [ChatMessage(User, Trim(s.input))]
              && r.session.input == "" && r.session.loading && r.session.shown == s.shown
              && r.request == Some(r.session.messages)
    ensures !Ignored(s) ==> !AllSpace(s.input) && r.session.messages[|s.messages|].content != ""
  {
    TrimEmptyIff(s.input);
    if Ignored(s) then Sent(s, None)
    else
      var messages := s.messages + [ChatMessage(User, Trim(s.input))];
      Sent(s.(messages := messages, input := "", loading := true), Some(messages))
  }

  /** The chat page and `ChatWindow`: loading ends, and a non-empty reply text is appended as the assistant's message. */
  function Receive(s: Session, reply: Reply): (r: Session)
    ensures !r.loading && r.input == s.input && r.shown == s.shown
    ensures Truthy(reply.text) ==> r.messages == s.messages + [ChatMessage(Assistant, reply.text.value)]
    ensures !Truthy(reply.text) ==> r.messages == s.messages
  {
    var messages := if Truthy(reply.text) then s.messages + [ChatMessage(Assistant, reply.text.value)] else s.messages;
    s.(loading := false, messages := messages)
  }

  /** The root `App`: loading ends and the reply line shows `r.text || r.error || ''`; the transcript is not extended. */
  function ReceiveInApp(s: Session, reply: Reply): (r: Session)
    ensures !r.loading && r.input == s.input && r.messages == s.messages
    ensures Truthy(reply.text) ==> r.shown == reply.text.value
    ensures !Truthy(reply.text) && Truthy(reply.error) ==> r.shown == reply.error.value
    ensures !Truthy(reply.text) && !Truthy(reply.error) ==> r.shown == ""
  {
    s.(loading := false, shown := OrElse(reply.text, OrElse(reply.error, "")))
  }

  // ---------------------------------------------------------------------------
  // Conversations
  // ---------------------------------------------------------------------------

  datatype Event = Type(text: string) | Press | Answer(reply: Reply)

  /** One event in the chat page (or `ChatWindow`); `inApp` selects the root `App`'s reply handling. */
  function Step(s: Session, e: Event, inApp: bool): Session {
    match e
    case Type(text) => s.(input := text)
    case Press => Send(s).session
    case Answer(reply) => if inApp then ReceiveInApp(s, reply) else Receive(s, reply)
  }

  function Run(s: Session, events: seq<Event>, inApp: bool): Session
    decreases |events|
  {
    if |events| == 0 then s else Step(Run(s, events[..|events| - 1], inApp), events[|events| - 1], inApp)
  }

  /** No message in the transcript is empty, and every user message is already trimmed. */
  predicate WellFormed(messages: seq<ChatMessage>) {
    forall i :: 0 <= i < |messages| ==>
      messages[i].content != "" && (messages[i].role == User ==> Trim(messages[i].content) == messages[i].content)
  }

  /** Appending a non-empty message (trimmed, if it is the user's) keeps the transcript well formed. */
  lemma AppendWellFormed(messages: seq<ChatMessage>, m: ChatMessage)
    requires WellFormed(messages)
    requires m.content != "" && (m.role == User ==> Trim(m.content) == m.content)
    ensures WellFormed(messages + [m]) && (messages + [m])[..|messages|] == messages
  {
    var r := messages + [m];
    forall i | 0 <= i < |r|
      ensures r[i].content != "" && (r[i].role == User ==> Trim(r[i].content) == r[i].content)
    {
      if i < |messages| {
        assert r[i] == messages[i];
      }
    }
  }

  /** A press keeps the earlier messages and the transcript's well-formedness. */
  lemma PressGrows(s: Session)
    requires WellFormed(s.messages)
    ensures var r := Send(s).session;
            && |s.messages| <= |r.messages| && r.messages[..|s.messages|] == s.messages
            && WellFormed(r.messages)
  {
    if !Ignored(s) {
      TrimIdempotent(s.input);
      AppendWellFormed(s.messages, ChatMessage(User, Trim(s.input)));
    }
  }

  /** An answer keeps the earlier messages and the transcript's well-formedness. */
  lemma AnswerGrows(s: Session, reply: Reply, inApp: bool)
    requires WellFormed(s.messages)
    ensures var r := if inApp then ReceiveInApp(s, reply) else Receive(s, reply);
            && |s.messages| <= |r.messages| && r.messages[..|s.messages|] == s.messages
            && WellFormed(r.messages)
  {
    if !inApp && Truthy(reply.text) {
      AppendWellFormed(s.messages, ChatMessage(Assistant, reply.text.value));
    }
  }

  /** One event keeps the earlier messages and the transcript's well-formedness. */
  lemma StepGrows(s: Session, e: Event, inApp: bool)
    requires WellFormed(s.messages)
    ensures var r := Step(s, e, inApp);
            && |s.messages| <= |r.messages| && r.messages[..|s.messages|] == s.messages
            && WellFormed(r.messages)
  {
    match e
    case Type(_) =>
    case Press => PressGrows(s);
    case Answer(reply) => AnswerGrows(s, reply, inApp);
  }

  /**
   * Over any sequence of typing, presses and answers the transcript only
   * grows (earlier messages are never changed or dropped) and stays
   * well formed: no message is empty, and every user message is trimmed.
   */
  lemma {:induction false} TranscriptGrows(s: Session, events: seq<Event>, inApp: bool)
    requires WellFormed(s.messages)
    ensures var r := Run(s, events, inApp);
            && |s.messages| <= |r.messages| && r.messages[..|s.messages|] == s.messages
            && WellFormed(r.messages)
    decreases |events|
  {
    if |events| > 0 {
      var before := Run(s, events[..|events| - 1], inApp);
      TranscriptGrows(s, events[..|events| - 1], inApp);
      StepGrows(before, events[|events| - 1], inApp);
      var after := Run(s, events, inApp);
      assert after.messages[..|before.messages|] == before.messages;
      assert after.messages[..|s.messages|] == after.messages[..|before.messages|][..|s.messages|];
    }
  }

  predicate UserOnly(messages: seq<ChatMessage>) {
    forall i :: 0 <= i < |messages| ==> messages[i].role == User
  }

  lemma AppStepUserOnly(s: Session, e: Event)
    requires UserOnly(s.messages)
    ensures UserOnly(Step(s, e, true).messages)
  {
    if e.Press? && !Ignored(s) {
      assert Step(s, e, true).messages == s.messages + [ChatMessage(User, Trim(s.input))];
    }
  }

  /** In the root `App` the transcript holds only what the user sent. */
  lemma {:induction false} AppTranscriptIsUserOnly(s: Session, events: seq<Event>)
    requires UserOnly(s.messages)
    ensures UserOnly(Run(s, events, true).messages)
    decreases |events|
  {
    if |events| > 0 {
      AppTranscriptIsUserOnly(s, events[..|events| - 1]);
      AppStepUserOnly(Run(s, events[..|events| - 1], true), events[|events| - 1]);
    }
  }

  /** A second press while a reply is pending sends nothing. */
  lemma NoDoubleSend(s: Session)
    requires !Ignored(s)
    ensures Send(Send(s).session).request.None?
  {
  }

  /** As written, the chat page's life coach tab reaches the server's engineer prompt. */
  lemma LifeTabGetsEngineerAsWritten()
    ensures PersonaOfAsWritten(Some(TabName(LifeTab))) == Engineer
  {
  }

  /** With the corrected lookup, each tab gets its own coach's prompt. */
  lemma TabsReachTheirPersona(t: Tab)
    ensures PersonaOf(Some(TabName(t))) == (if t == EngineerTab then Engineer else LifeCoach)
    ensures PersonaOf(Some(TabName(EngineerTab))) != PersonaOf(Some(TabName(LifeTab)))
  {
  }
}
