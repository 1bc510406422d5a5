/** The mock AI chat (src/pages/DiscoveryTabs/AIInterface.tsx): a message
    list, the text in the input box and a loading flag, changed by the send
    handler, by the timer that later posts the simulated answer, by topic
    clicks and by typing. Clock readings are parameters; the timer is an
    explicit step that the environment may take once a send has armed it. */
module AIInterface {
  import opened Wrappers
  import opened Text
  import opened Decimal

  /** One chat bubble; `timestamp` is the clock reading in milliseconds. */
  datatype ChatMessage = ChatMessage(id: string, content: string, isUser: bool, timestamp: int)

  const GreetingId := "1"
  const Greeting := "Hello! I'm your AI assistant. Ask me anything or check out the trending topics below!"

  /** The topics of the sidebar, in display order. */
  const TrendingTopics: seq<string> := [
    "Latest tech trends 2024",
    "Best programming languages to learn",
    "Climate change solutions",
    "Space exploration updates",
    "AI in healthcare",
    "Cryptocurrency market analysis"
  ]

  /** The texts the four quick-command badges put in the input box
      (Weather, Jokes, News, Science). */
  const QuickCommands: seq<string> := [
    "What's the weather today?",
    "Tell me a joke",
    "Latest news",
    "Explain quantum computing"
  ]

  /** Every text a click puts in the input box: the topic cards, then the
      quick commands; all go through handleTopicClick. */
  const Suggestions: seq<string> := TrendingTopics + QuickCommands

  /** No suggestion is blank, so clicking one and sending always sends. */
  lemma SuggestionNotBlank(k: nat)
    requires k < |Suggestions|
    ensures !IsBlank(Suggestions[k])
  {
    var c := Suggestions[k][0];
    assert 'A' <= c <= 'Z';
  }

  const ReplyHead := "I understand you're asking about \""
  const ReplyTail := "\". This is a mock AI response. In a real implementation, this would connect to an AI service like OpenAI, Claude, or similar."

  /** The simulated answer to the text `asked`, which it quotes verbatim. */
  function ReplyText(asked: string): (r: string)
    ensures |r| == |ReplyHead| + |asked| + |ReplyTail|
  {
    ReplyHead + asked + ReplyTail
  }

  /** Reads back the quoted question of a simulated answer. */
  function QuotedQuestion(reply: string): (q: Option<string>)
    ensures q.Some? ==> |q.value| == |reply| - |ReplyHead| - |ReplyTail|
  {
    if |reply| >= |ReplyHead| + |ReplyTail|
       && reply[..|ReplyHead|] == ReplyHead
       && reply[|reply| - |ReplyTail|..] == ReplyTail
    then Some(reply[|ReplyHead|..|reply| - |ReplyTail|])
    else None
  }

  /** Every answer quotes exactly the question it answers. */
  lemma ReplyQuotesQuestion(asked: string)
    ensures QuotedQuestion(ReplyText(asked)) == Some(asked)
  {
    var r := ReplyText(asked);
    assert r[..|ReplyHead|] == ReplyHead;
    assert r[|r| - |ReplyTail|..] == ReplyTail;
    assert r[|ReplyHead|..|r| - |ReplyTail|] == asked;
  }

  /** Different questions get different answers. */
  lemma ReplyTextInjective(a: string, b: string)
    ensures ReplyText(a) == ReplyText(b) ==> a == b
  {
    ReplyQuotesQuestion(a);
    ReplyQuotesQuestion(b);
  }

  /** The early return of handleSendMessage, which is also the send button's
      `disabled` expression: the input trims to nothing, or an answer is
      still pending. */
  function SendBlocked(message: string, loading: bool): (b: bool)
    ensures b <==> loading || IsBlank(message)
  {
    TrimEmptyIffBlank(message);
    Trim(message) == "" || loading
  }

  /** handleKeyPress sends on Enter without Shift: no other key sends, and
      Shift+Enter does not send. */
  function SendsOnKey(key: string, shiftKey: bool): (b: bool)
    ensures b ==> key == "Enter"
    ensures shiftKey ==> !b
    ensures key == "Enter" && !shiftKey ==> b
  {
    key == "Enter" && !shiftKey
  }

  /** The shape every reachable message list has: the greeting first, then
      user questions and simulated answers alternating, each question
      non-blank and each answer quoting the question just before it. */
  predicate Transcript(ms: seq<ChatMessage>) {
    && |ms| >= 1
    && ms[0].id == GreetingId && ms[0].content == Greeting && !ms[0].isUser
    && (forall i :: 0 <= i < |ms| ==> ms[i].isUser == (i % 2 == 1))
    && (forall i :: 0 <= i < |ms| && i % 2 == 1 ==> !IsBlank(ms[i].content))
    && (forall i :: 2 <= i < |ms| && i % 2 == 0 ==> ms[i].content == ReplyText(ms[i - 1].content))
  }

  /** In a transcript the question of every answer can be read back from the
      answer alone, and it is the user message just before it. */
  lemma AnswersQuoteQuestions(ms: seq<ChatMessage>, i: nat)
    requires Transcript(ms)
    requires 2 <= i < |ms| && !ms[i].isUser
    ensures ms[i - 1].isUser
    ensures QuotedQuestion(ms[i].content) == Some(ms[i - 1].content)
  {
    ReplyQuotesQuestion(ms[i - 1].content);
  }

  /** A non-blank question may follow the greeting or an answer. */
  lemma TranscriptAddQuestion(ms: seq<ChatMessage>, m: ChatMessage)
    requires Transcript(ms) && |ms| % 2 == 1
    requires m.isUser && !IsBlank(m.content)
    ensures Transcript(ms + [m])
  {
    var ns := ms + [m];
    assert forall i :: 0 <= i < |ms| ==> ns[i] == ms[i];
  }

  /** The answer quoting the last question may follow it. */
  lemma TranscriptAddAnswer(ms: seq<ChatMessage>, m: ChatMessage)
    requires Transcript(ms) && |ms| % 2 == 0
    requires !m.isUser && m.content == ReplyText(ms[|ms| - 1].content)
    ensures Transcript(ms + [m])
  {
    var ns := ms + [m];
    assert forall i :: 0 <= i < |ms| ==> ns[i] == ms[i];
  }

  class AIChat {
    /** The bubbles shown, oldest first. */
    var messages: seq<ChatMessage>
    /** The input box (`message` state). */
    var message: string
    var loading: bool
    /** The text the armed timer will quote, captured when it was armed;
        None when no timer is armed. */
    var pending: Option<string>

    predicate Valid()
      reads this
    {
      && Transcript(messages)
      && (loading <==> pending.Some?)
      && (loading <==> |messages| % 2 == 0)
      && (pending.Some? ==> pending.value == messages[|messages| - 1].content)
    }

    /** The component mounts with the greeting, an empty input and nothing
        pending. */
    constructor(now: int)
      ensures Valid()
      ensures messages == [ChatMessage(GreetingId, Greeting, false, now)]
      ensures message == "" && !loading && pending == None
    {
      messages := [ChatMessage(GreetingId, Greeting, false, now)];
      message := "";
      loading := false;
      pending := None;
    }

    /** handleSendMessage at clock reading `now`. Blocked: nothing changes.
        Otherwise the untrimmed input is appended as a user message, the
        input is cleared, loading starts and the reply timer is armed with
        that input. */
    method SendMessage(now: int) returns (sent: bool)
      requires Valid()
      modifies this
      ensures Valid()
      ensures sent <==> !SendBlocked(old(message), old(loading))
      ensures !sent ==> messages == old(messages) && message == old(message)
                        && loading == old(loading) && pending == old(pending)
      ensures sent ==> messages == old(messages) + [ChatMessage(IntToString(now), old(message), true, now)]
      ensures sent ==> message == "" && loading && pending == Some(old(message))
    {
      if SendBlocked(message, loading) {
        return false;
      }
      var userMessage := ChatMessage(IntToString(now), message, true, now);
      TranscriptAddQuestion(messages, userMessage);
      pending := Some(message);
      messages := messages + [userMessage];
      message := "";
      loading := true;
      sent := true;
    }

    /** The armed timer fires at clock reading `now`: the answer quoting the
        captured text is appended, loading ends and the input is left as it
        is. */
    method FireReply(now: int)
      requires Valid() && pending.Some?
      modifies this
      ensures Valid()
      ensures messages == old(messages) + [ChatMessage(IntToString(now + 1), ReplyText(old(pending).value), false, now)]
      ensures !loading && pending == None && message == old(message)
    {
      var aiResponse := ChatMessage(IntToString(now + 1), ReplyText(pending.value), false, now);
      TranscriptAddAnswer(messages, aiResponse);
      messages := messages + [aiResponse];
      loading := false;
      pending := None;
    }

    /** handleTopicClick, used by the topic cards and the quick commands:
        the input becomes `topic`; nothing else changes. */
    method HandleTopicClick(topic: string)
      requires Valid()
      modifies this
      ensures Valid()
      ensures message == topic
      ensures messages == old(messages) && loading == old(loading) && pending == old(pending)
    {
      message := topic;
    }

    /** Typing in the input box: its `onChange` stores the new value. */
    method HandleInputChange(value: string)
      requires Valid()
      modifies this
      ensures Valid()
      ensures message == value
      ensures messages == old(messages) && loading == old(loading) && pending == old(pending)
    {
      message := value;
    }

    /** handleKeyPress: Enter without Shift runs the send handler; any other
        key, Shift+Enter included, changes nothing. */
    method HandleKeyPress(key: string, shiftKey: bool, now: int) returns (sent: bool)
      requires Valid()
      modifies this
      ensures Valid()
      ensures sent <==> SendsOnKey(key, shiftKey) && !SendBlocked(old(message), old(loading))
      ensures !sent ==> messages == old(messages) && message == old(message)
                        && loading == old(loading) && pending == old(pending)
      ensures sent ==> messages == old(messages) + [ChatMessage(IntToString(now), old(message), true, now)]
      ensures sent ==> message == "" && loading && pending == Some(old(message))
    {
      if SendsOnKey(key, shiftKey) {
        sent := SendMessage(now);
      } else {
        sent := false;
      }
    }
  }

  /** A full exchange from the mounted state: clicking a topic card or a
      quick command, sending and letting the timer fire leaves the greeting,
      the clicked text as a question and the answer quoting it. */
  method AskTopic(k: nat, t0: int, t1: int, t2: int) returns (shown: seq<ChatMessage>)
    requires k < |Suggestions|
    ensures |shown| == 3
    ensures shown[0] == ChatMessage(GreetingId, Greeting, false, t0)
    ensures shown[1] == ChatMessage(IntToString(t1), Suggestions[k], true, t1)
    ensures shown[2].content == ReplyText(Suggestions[k]) && !shown[2].isUser
  {
    var chat := new AIChat(t0);
    chat.HandleTopicClick(Suggestions[k]);
    SuggestionNotBlank(k);
    var sent := chat.SendMessage(t1);
    chat.FireReply(t2);
    shown := chat.messages;
  }
}
