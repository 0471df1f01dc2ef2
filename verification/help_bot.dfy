/** The `HelpBot` component's conversation: an append-only message list that opens with the bot's
    greeting, an input buffer, and a pending flag. A submit appends the user's message, clears the
    input and sends the question; the reply, when it lands, appends one bot message. The round trip
    to the assistant is split into those two steps, and the reply text is whatever the assistant
    returns. */
module HelpBotChat {
  import opened Wrappers
  import JsString

  datatype Role = User | Bot

  datatype Message = Message(role: Role, text: string)

  const Greeting := Message(Bot, "Hello! I'm MED-X Bot. How can I help you with the platform or your studies today?")

  /** The component's state. `inFlight` is the question of the request awaiting its reply; the
      component's `isPending` is `inFlight.Some?`. */
  datatype Chat = Chat(messages: seq<Message>, input: string, inFlight: Option<string>)

  predicate IsPending(c: Chat) {
    c.inFlight.Some?
  }

  /** The state the component mounts with. */
  function InitialChat(): Chat {
    Chat([Greeting], "", None)
  }

  /** Typing into the field; the field is disabled while a reply is pending. */
  function EditInput(c: Chat, text: string): Chat {
    if IsPending(c) then c else c.(input := text)
  }

  /** `handleSubmit`: a blank input, or a submit while pending, does nothing; otherwise the user's
      message (as typed, untrimmed) is appended, the input cleared, and the question sent. */
  function Submit(c: Chat): Chat {
    if JsString.Trim(c.input) == [] || IsPending(c) then c
    else Chat(c.messages + [Message(User, c.input)], "", Some(c.input))
  }

  /** The reply to the pending request lands: one bot message is appended and the request is
      settled. With no request pending there is no reply to deliver. */
  function Deliver(c: Chat, reply: string): Chat {
    if IsPending(c) then Chat(c.messages + [Message(Bot, reply)], c.input, None) else c
  }

  /** Whether a submit from `c` is accepted: the input has a visible character and no reply is
      pending. */
  predicate Accepts(c: Chat) {
    !JsString.AllWhiteSpace(c.input) && !IsPending(c)
  }

  /** A submit is a no-op exactly when the input is blank (empty or only white space) or a reply
      is pending. */
  lemma SubmitGuard(c: Chat)
    ensures Submit(c) == c <==> !Accepts(c)
  {
    JsString.TrimEmptyIffAllWhiteSpace(c.input);
    if Accepts(c) {
      assert |Submit(c).messages| == |c.messages| + 1;
    }
  }

  /** An accepted submit appends exactly one user message carrying the input as typed, clears the
      input, and sends the input as it was before clearing. */
  lemma SubmitEffect(c: Chat)
    requires Accepts(c)
    ensures var r := Submit(c);
      && r.messages == c.messages + [Message(User, c.input)]
      && r.input == ""
      && r.inFlight == Some(c.input)
  {
    JsString.TrimEmptyIffAllWhiteSpace(c.input);
  }

  /** A second submit right after the first changes nothing: at most one request is in flight. */
  lemma SubmitIdempotent(c: Chat)
    ensures Submit(Submit(c)) == Submit(c)
  {
  }

  /** A delivered reply appends exactly one bot message with the reply text and settles the
      request; without a pending request nothing changes. */
  lemma DeliverEffect(c: Chat, reply: string)
    ensures IsPending(c) ==>
      && Deliver(c, reply).messages == c.messages + [Message(Bot, reply)]
      && !IsPending(Deliver(c, reply)) && Deliver(c, reply).input == c.input
    ensures !IsPending(c) ==> Deliver(c, reply) == c
  {
  }

  /** The shape every reachable state has: the greeting first, then user and bot messages
      alternating, every user message non-blank; a request is pending exactly when the last
      message is the user's, and then that message is the question in flight and the input is
      empty. */
  ghost predicate WellFormed(c: Chat) {
    var ms := c.messages;
    && |ms| >= 1 && ms[0] == Greeting
    && (forall i :: 1 <= i < |ms| ==> ms[i].role == (if i % 2 == 1 then User else Bot))
    && (forall i :: 1 <= i < |ms| && ms[i].role == User ==> !JsString.AllWhiteSpace(ms[i].text))
    && (IsPending(c) <==> |ms| % 2 == 0)
    && (IsPending(c) ==> ms[|ms| - 1] == Message(User, c.inFlight.value) && c.input == "")
  }

  lemma InitialWellFormed()
    ensures WellFormed(InitialChat())
  {
  }

  lemma EditPreservesWellFormed(c: Chat, text: string)
    requires WellFormed(c)
    ensures WellFormed(EditInput(c, text))
  {
  }

  lemma SubmitPreservesWellFormed(c: Chat)
    requires WellFormed(c)
    ensures WellFormed(Submit(c))
  {
    SubmitGuard(c);
  }

  lemma DeliverPreservesWellFormed(c: Chat, reply: string)
    requires WellFormed(c)
    ensures WellFormed(Deliver(c, reply))
  {
  }

  /** What can happen to the component: typing, submitting, a reply landing. */
  datatype Event = Typed(text: string) | Submitted | Replied(reply: string)

  function Step(c: Chat, e: Event): Chat {
    match e
    case Typed(t) => EditInput(c, t)
    case Submitted => Submit(c)
    case Replied(r) => Deliver(c, r)
  }

  /** The state after a sequence of events. */
  function Run(c: Chat, events: seq<Event>): Chat
    decreases |events|
  {
    if events == [] then c else Run(Step(c, events[0]), events[1..])
  }

  /** The message list is append-only: whatever happens, the earlier list is a prefix of the
      later one. */
  lemma {:induction false} RunAppendOnly(c: Chat, events: seq<Event>)
    ensures c.messages <= Run(c, events).messages
    decreases |events|
  {
    if events != [] {
      var next := Step(c, events[0]);
      assert c.messages <= next.messages;
      RunAppendOnly(next, events[1..]);
    }
  }

  /** Every state reachable from the mounted component has the shape `WellFormed` describes. */
  lemma {:induction false} RunPreservesWellFormed(c: Chat, events: seq<Event>)
    requires WellFormed(c)
    ensures WellFormed(Run(c, events))
    decreases |events|
  {
    if events != [] {
      match events[0] {
        case Typed(t) => EditPreservesWellFormed(c, t);
        case Submitted => SubmitPreservesWellFormed(c);
        case Replied(r) => DeliverPreservesWellFormed(c, r);
      }
      RunPreservesWellFormed(Step(c, events[0]), events[1..]);
    }
  }

  /** How many messages of `ms` have the role `role`. */
  function CountRole(ms: seq<Message>, role: Role): (n: nat)
    ensures n <= |ms|
  {
    if ms == [] then 0
    else CountRole(ms[..|ms| - 1], role) + (if ms[|ms| - 1].role == role then 1 else 0)
  }

  /** In an alternating list that opens with the greeting, the first `n` messages hold `n / 2`
      user messages and `(n + 1) / 2` bot messages. */
  lemma {:induction false} AlternatingCounts(ms: seq<Message>, n: nat)
    requires 1 <= n <= |ms| && ms[0] == Greeting
    requires forall i :: 1 <= i < |ms| ==> ms[i].role == (if i % 2 == 1 then User else Bot)
    ensures CountRole(ms[..n], User) == n / 2 && CountRole(ms[..n], Bot) == (n + 1) / 2
  {
    if n > 1 {
      AlternatingCounts(ms, n - 1);
      assert ms[..n][..n - 1] == ms[..n - 1];
    } else {
      assert ms[..1][..0] == [];
    }
  }

  /** Exactly one reply per question: besides the greeting, every user message has one bot reply,
      except the one still in flight. */
  lemma OneReplyPerQuestion(c: Chat)
    requires WellFormed(c)
    ensures CountRole(c.messages, Bot) - 1 == CountRole(c.messages, User) - (if IsPending(c) then 1 else 0)
  {
    AlternatingCounts(c.messages, |c.messages|);
    assert c.messages[..|c.messages|] == c.messages;
  }

  /** The mounted component. */
  class HelpBot {
    var messages: seq<Message>
    var input: string
    var inFlight: Option<string>

    function State(): Chat
      reads this
    {
      Chat(messages, input, inFlight)
    }

    ghost predicate Valid()
      reads this
    {
      WellFormed(State())
    }

    constructor ()
      ensures State() == InitialChat() && Valid()
    {
      messages := [Greeting];
      input := "";
      inFlight := None;
      InitialWellFormed();
    }

    /** The input field's change handler (inert while disabled). */
    method OnInputChange(text: string)
      requires Valid()
      modifies this
      ensures State() == EditInput(old(State()), text) && Valid()
    {
      if inFlight.None? {
        input := text;
      }
      EditPreservesWellFormed(old(State()), text);
    }

    /** `handleSubmit`. Returns the question handed to the assistant, if the submit was accepted. */
    method HandleSubmit() returns (sent: Option<string>)
      requires Valid()
      modifies this
      ensures State() == Submit(old(State())) && Valid()
      ensures sent.Some? <==> Accepts(old(State()))
      ensures sent.Some? ==> sent.value == old(input) && inFlight == sent
    {
      SubmitGuard(State());
      SubmitPreservesWellFormed(State());
      if JsString.Trim(input) == [] || inFlight.Some? {
        return None;
      }
      var question := input;
      messages := messages + [Message(User, question)];
      input := "";
      inFlight := Some(question);
      sent := Some(question);
    }

    /** The pending request's reply lands. */
    method DeliverReply(reply: string)
      requires Valid()
      modifies this
      ensures State() == Deliver(old(State()), reply) && Valid()
    {
      DeliverPreservesWellFormed(State(), reply);
      if inFlight.Some? {
        messages := messages + [Message(Bot, reply)];
        inFlight := None;
      }
    }
  }
}
