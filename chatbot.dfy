/**
  The console chatbot of main.go: the `Chatbot` struct, its constructor, and
  `ProcessInput`, which trims the user's line and picks one of five replies
  by an ordered chain of case-sensitive substring tests.
 */
module Chatbot {
  import opened GoStrings

  /** The chatbot's state. None of it is read or written by `ProcessInput`;
      `lastUpdate` stands for Go's `time.Time` as a plain number, 0 being the
      zero time. */
  datatype Chatbot = Chatbot(
    name: String,
    greeting: String,
    users: seq<String>,
    commands: seq<String>,
    lastUpdate: int)
  {
    /** The reply to one line of user input: the text of its classification.
        Nothing of the bot enters into it. */
    function ProcessInput(input: String): (reply: String)
      ensures exists k :: reply == Text(k)
    {
      Text(Classify(input))
    }
  }

  /** `NewChatbot`: a bot whose every field holds Go's zero value. */
  function NewChatbot(): (bot: Chatbot)
    ensures bot.name == [] && bot.greeting == []
    ensures bot.users == [] && bot.commands == [] && bot.lastUpdate == 0
  {
    Chatbot("", "", [], [], 0)
  }

  // ---------------------------------------------------------------------
  // The five replies

  /** The five reply forms, in the order the chain tests for them. */
  datatype Reply =
    | Greeting
    | WellbeingAck
    | NameAck(name: String)
    | Farewell
    | NotUnderstood

  const GreetingText: String := "Hello there! How are you?"
  const WellbeingText: String :=
    "Good to know! I'm doing well too. What is your name? Start by saying 'My name is'"
  /** The name reply is `NameReplyOpening + name + NameReplyClosing`, the `%s` of the
      format string replaced by the name. */
  const NameReplyOpening: String := "Nice to meet you, "
  const NameReplyClosing: String :=
    "! In case you did not know, I was created by Clarence Itai Msindo using GoLang. "
    + "Now to end this chat, please say 'bye' to do so. Again it was nice to meet you!"
  const FarewellText: String := "Peace out! Press [x] to exit."
  const FallbackText: String := "Nah, I don't understand what you said"

  /** The text sent back for each reply form. */
  function Text(r: Reply): String {
    match r
    case Greeting => GreetingText
    case WellbeingAck => WellbeingText
    case NameAck(name) => NameReplyOpening + name + NameReplyClosing
    case Farewell => FarewellText
    case NotUnderstood => FallbackText
  }

  // ---------------------------------------------------------------------
  // The ordered chain of tests

  /** The first test: a greeting word occurs. */
  predicate HasGreeting(t: String) {
    Contains(t, "Hello") || Contains(t, "Hi")
  }

  /** The second test: one of the nine wellbeing phrases occurs, as listed. */
  predicate HasWellbeing(t: String) {
    || Contains(t, "I am well") || Contains(t, "I am good") || Contains(t, "Good thanks")
    || Contains(t, "I am good thanks and you?") || Contains(t, "I am well thanks and you?")
    || Contains(t, "I am ok") || Contains(t, "Ok thanks") || Contains(t, "Ok") || Contains(t, "Good")
  }

  /** The third test: the name statement occurs. */
  predicate HasNameStatement(t: String) {
    Contains(t, "My name is")
  }

  /** The fourth test: the farewell word occurs, in lower case. */
  predicate HasFarewell(t: String) {
    Contains(t, "bye")
  }

  /** The prefix that the name branch strips; note its trailing space. */
  const NameIntro: String := "My name is "

  /** The reply form `ProcessInput` chooses: the input is trimmed, and the
      first test that succeeds decides. The name branch echoes the trimmed
      input with `NameIntro` stripped when it is a prefix. */
  function Classify(input: String): Reply {
    var t := TrimSpace(input);
    if HasGreeting(t) then Greeting
    else if HasWellbeing(t) then WellbeingAck
    else if HasNameStatement(t) then NameAck(TrimPrefix(t, NameIntro))
    else if HasFarewell(t) then Farewell
    else NotUnderstood
  }
}
