/** Chat messages as the front end and the counselor function exchange them. */
module Conversation {

  datatype Role = System | User | Assistant

  datatype Message = Message(role: Role, content: string)

  /** The canned opening line of the chat widget. */
  const Greeting: string := "Hello! How can I help you with your career goals today?"

  /** The fixed text shown in place of a reply when the exchange fails. */
  const Apology: string := "Sorry, I'm having trouble connecting. Please try again."

  /** The canned greeting: an assistant message whose content is exactly the greeting. */
  predicate IsGreeting(m: Message) {
    m.role == Assistant && m.content == Greeting
  }

  /** The history the chat widget sends upstream: the conversation without the canned
      greeting. A user message that repeats the greeting text is kept. */
  function OutgoingHistory(ms: seq<Message>): (r: seq<Message>)
    ensures |r| <= |ms|
    ensures forall i :: 0 <= i < |r| ==> !IsGreeting(r[i])
  {
    if ms == [] then []
    else (if IsGreeting(ms[0]) then [] else [ms[0]]) + OutgoingHistory(ms[1..])
  }

  /** Exactly the greeting assistant messages are dropped: every other message keeps its
      multiplicity. */
  lemma {:induction false} OutgoingHistoryCounts(ms: seq<Message>, m: Message)
    ensures multiset(OutgoingHistory(ms))[m] == if IsGreeting(m) then 0 else multiset(ms)[m]
  {
    if ms != [] {
      OutgoingHistoryCounts(ms[1..], m);
      assert ms == [ms[0]] + ms[1..];
    }
  }

  /** The filter keeps order: filtering a concatenation concatenates the filtered parts. */
  lemma {:induction false} OutgoingHistoryAppend(a: seq<Message>, b: seq<Message>)
    ensures OutgoingHistory(a + b) == OutgoingHistory(a) + OutgoingHistory(b)
  {
    if a == [] {
      assert a + b == b;
    } else {
      assert (a + b)[1..] == a[1..] + b;
      OutgoingHistoryAppend(a[1..], b);
    }
  }

  /** A conversation holding only the greeting is sent as an empty history. */
  lemma GreetingOnlyHistoryIsEmpty()
    ensures OutgoingHistory([Message(Assistant, Greeting)]) == []
  {
  }

  /** `messages[messages.length - 1].content = c`: the last message gets content `c`,
      everything else is kept. */
  function WithLastContent(ms: seq<Message>, c: string): (r: seq<Message>)
    requires ms != []
    ensures |r| == |ms| && r[..|r| - 1] == ms[..|ms| - 1]
    ensures r[|r| - 1] == Message(ms[|ms| - 1].role, c)
  {
    ms[|ms| - 1 := ms[|ms| - 1].(content := c)]
  }

  /** Writing the content the last message already has changes nothing. */
  lemma WithLastContentSame(ms: seq<Message>)
    requires ms != []
    ensures WithLastContent(ms, ms[|ms| - 1].content) == ms
  {
  }

  /** Overwriting the last message twice leaves only the second content. */
  lemma WithLastContentTwice(ms: seq<Message>, a: string, b: string)
    requires ms != []
    ensures WithLastContent(WithLastContent(ms, a), b) == WithLastContent(ms, b)
  {
  }
}
