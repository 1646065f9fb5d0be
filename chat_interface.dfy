/** The tutor chat of the web client
    (learning-platform/frontend/src/components/ChatInterface.js): a message
    log, the text being typed, an optional topic and a busy flag.  Sending is
    a begin step (append the learner's turn, clear the box, raise the flag,
    issue the request) and a complete step (append the tutor's turn, drop
    the flag). */
module ChatInterface {
  import opened Common
  import opened Text

  datatype Role = User | Assistant
  datatype Message = Message(role: Role, content: string)

  /** The request of `chatWithTutor`: the user, the message and the topic,
      null when the topic box is empty. */
  datatype ChatRequest = ChatRequest(userId: int, message: string, topic: Option<string>)

  /** The four `useState` fields. */
  datatype Chat = Chat(messages: seq<Message>, input: string, topic: string, loading: bool)

  const Initial := Chat([], "", "", false)

  const ErrorReply := "Sorry, I encountered an error. Please try again."

  datatype Started = Started(next: Chat, request: Option<ChatRequest>)

  /** `topic || null`. */
  function TopicOrNull(topic: string): (r: Option<string>)
    ensures r.None? <==> topic == ""
    ensures r.Some? ==> r.value == topic
  {
    if topic == "" then None else Some(topic)
  }

  /** The send button is disabled while loading or when the input is blank. */
  predicate SendEnabled(s: Chat) { !s.loading && !Blank(s.input) }

  /** `handleSend` up to the request.  Blank input appends nothing and issues
      no request.  Otherwise exactly one learner turn holding the untrimmed
      input is appended, the box is cleared, the flag is raised, and the same
      text goes out as the message.  There is no check of the busy flag. */
  function SendStarted(s: Chat, userId: int): (r: Started)
    ensures Blank(s.input) ==> r == Started(s, None)
    ensures !Blank(s.input) ==>
      && r.next.messages == s.messages + [Message(User, s.input)]
      && r.next.input == "" && r.next.loading && r.next.topic == s.topic
      && r.request == Some(ChatRequest(userId, r.next.messages[|s.messages|].content, TopicOrNull(s.topic)))
  {
    if Blank(s.input) then Started(s, None)
    else Started(Chat(s.messages + [Message(User, s.input)], "", s.topic, true),
                 Some(ChatRequest(userId, s.input, TopicOrNull(s.topic))))
  }

  /** The rest of `handleSend`: exactly one tutor turn is appended, the reply
      text on success and a fixed apology on failure; the flag drops. */
  function SendSettled(s: Chat, reply: Reply<string>): (r: Chat)
    ensures r.messages == s.messages + [Message(Assistant, if reply.Resolved? then reply.value else ErrorReply)]
    ensures !r.loading && r.input == s.input && r.topic == s.topic
  {
    s.(messages := s.messages + [Message(Assistant, match reply case Resolved(text) => text case Rejected => ErrorReply)],
       loading := false)
  }

  /** `handleKeyDown`: Enter without Shift sends, whatever the busy flag says;
      any other key leaves the state and issues nothing. */
  function KeyPressed(s: Chat, userId: int, enter: bool, shift: bool): (r: Started)
    ensures enter && !shift ==> r == SendStarted(s, userId)
    ensures !(enter && !shift) ==> r == Started(s, None)
  {
    if enter && !shift then SendStarted(s, userId) else Started(s, None)
  }

  /** Enter can start a second send while one is pending: the key path does
      not look at the busy flag that disables the button. */
  lemma EnterSendsWhileLoading(s: Chat, userId: int)
    requires s.loading && !Blank(s.input)
    ensures !SendEnabled(s)
    ensures KeyPressed(s, userId, true, false).request.Some?
    ensures |KeyPressed(s, userId, true, false).next.messages| == |s.messages| + 1
  {
  }

  // ---------------------------------------------------------------------------
  // Sessions

  datatype Event =
    | Type(text: string)
    | SetTopic(topic: string)
    | Send
    | Key(enter: bool, shift: bool)
    | Settle(reply: Reply<string>)

  function Step(s: Chat, userId: int, e: Event): Chat {
    match e
    case Type(text) => s.(input := text)
    case SetTopic(t) => s.(topic := t)
    case Send => SendStarted(s, userId).next
    case Key(enter, shift) => KeyPressed(s, userId, enter, shift).next
    case Settle(reply) => SendSettled(s, reply)
  }

  function Run(s: Chat, userId: int, events: seq<Event>): Chat
    decreases |events|
  {
    if events == [] then s else Run(Step(s, userId, events[0]), userId, events[1..])
  }

  /** The number of turns a run appends: one per accepted send and one per
      settled request. */
  function Appended(s: Chat, userId: int, events: seq<Event>): nat
    decreases |events|
  {
    if events == [] then 0
    else
      var grows := match events[0]
        case Send => !Blank(s.input)
        case Key(enter, shift) => enter && !shift && !Blank(s.input)
        case Settle(_) => true
        case _ => false;
      (if grows then 1 else 0) + Appended(Step(s, userId, events[0]), userId, events[1..])
  }

  /** The log is append-only: every earlier turn survives every run unchanged,
      and the log grows by exactly one turn per accepted send or settled
      request. */
  lemma {:induction false} MessagesAppendOnly(s: Chat, userId: int, events: seq<Event>)
    ensures s.messages <= Run(s, userId, events).messages
    ensures |Run(s, userId, events).messages| == |s.messages| + Appended(s, userId, events)
    decreases |events|
  {
    if events != [] {
      var t := Step(s, userId, events[0]);
      assert s.messages <= t.messages;
      MessagesAppendOnly(t, userId, events[1..]);
    }
  }

  // ---------------------------------------------------------------------------
  // The component

  class Component {
    const userId: int
    var messages: seq<Message>
    var input: string
    var topic: string
    var loading: bool

    function State(): Chat
      reads this
    {
      Chat(messages, input, topic, loading)
    }

    constructor (userId: int)
      ensures this.userId == userId && State() == Initial
    {
      this.userId := userId;
      messages, input, topic, loading := [], "", "", false;
    }

    method Type(text: string)
      modifies this
      ensures State() == old(State()).(input := text)
    {
      input := text;
    }

    method SetTopic(t: string)
      modifies this
      ensures State() == old(State()).(topic := t)
    {
      topic := t;
    }

    method BeginSend() returns (request: Option<ChatRequest>)
      modifies this
      ensures State() == SendStarted(old(State()), userId).next
      ensures request == SendStarted(old(State()), userId).request
    {
      if Blank(input) {
        return None;
      }
      var text := input;
      messages := messages + [Message(User, text)];
      input := "";
      loading := true;
      request := Some(ChatRequest(userId, text, if topic == "" then None else Some(topic)));
    }

    method KeyDown(enter: bool, shift: bool) returns (request: Option<ChatRequest>)
      modifies this
      ensures State() == KeyPressed(old(State()), userId, enter, shift).next
      ensures request == KeyPressed(old(State()), userId, enter, shift).request
    {
      if enter && !shift {
        request := BeginSend();
      } else {
        request := None;
      }
    }

    method CompleteSend(reply: Reply<string>)
      modifies this
      ensures State() == SendSettled(old(State()), reply)
    {
      var content := if reply.Resolved? then reply.value else ErrorReply;
      messages := messages + [Message(Assistant, content)];
      loading := false;
    }
  }
}
