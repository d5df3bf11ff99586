/**
  What the reply chain of `ProcessInput` guarantees: the five reply texts
  are distinct, each is returned exactly when its test is the first to
  succeed, trimming before the call changes nothing, and the bot's fields
  play no part.
 */
module ChatbotProperties {
  import opened GoStrings
  import opened Chatbot

  // ---------------------------------------------------------------------
  // The reply text determines the reply form

  /** Distinct reply forms have distinct texts; in particular the name reply
      gives back the name it was built from. */
  lemma TextInjective(a: Reply, b: Reply)
    requires Text(a) == Text(b)
    ensures a == b
  {
    var s := Text(a);
    if a.NameAck? && b.NameAck? {
      var n := |NameReplyOpening|;
      assert a.name == s[n..n + |a.name|];
      assert |a.name| == |b.name|;
      assert b.name == s[n..n + |b.name|];
    }
  }

  /** `ProcessInput` returns the text of a reply form exactly when that form
      is the classification of the input. */
  lemma ReplyDeterminesForm(bot: Chatbot, input: String, k: Reply)
    ensures bot.ProcessInput(input) == Text(k) <==> Classify(input) == k
  {
    if bot.ProcessInput(input) == Text(k) {
      TextInjective(Classify(input), k);
    }
  }

  /** Every input yields exactly one of the five reply forms. */
  lemma ExactlyOneReply(bot: Chatbot, input: String)
    ensures exists k :: bot.ProcessInput(input) == Text(k)
    ensures forall k, k' :: bot.ProcessInput(input) == Text(k) && bot.ProcessInput(input) == Text(k') ==> k == k'
  {
    assert bot.ProcessInput(input) == Text(Classify(input));
    forall k, k' | bot.ProcessInput(input) == Text(k) && bot.ProcessInput(input) == Text(k')
      ensures k == k'
    {
      TextInjective(k, k');
    }
  }

  // ---------------------------------------------------------------------
  // State and trimming

  /** The reply depends on the input alone, never on the bot's fields. */
  lemma ProcessInputIgnoresState(bot: Chatbot, other: Chatbot, input: String)
    ensures bot.ProcessInput(input) == other.ProcessInput(input)
  {
  }

  /** The caller's trim before the call is undone work: `ProcessInput` trims
      again, and trimming is idempotent. */
  lemma TrimBeforeCallIsRedundant(bot: Chatbot, line: String)
    ensures bot.ProcessInput(TrimSpace(line)) == bot.ProcessInput(line)
  {
    TrimSpaceIdempotent(line);
  }

  /** White space around the input does not change the reply. */
  lemma ProcessInputIgnoresPadding(bot: Chatbot, left: String, input: String, right: String)
    requires All(left, IsSpace) && All(right, IsSpace)
    ensures bot.ProcessInput(left + input + right) == bot.ProcessInput(input)
  {
    TrimSpaceOfPadded(left, input, right);
  }

  // ---------------------------------------------------------------------
  // The branches, in order

  /** Greeting priority: an input whose trim contains "Hello" or "Hi" gets
      the greeting, whatever else it contains, and no other input does. */
  lemma GreetingReply(bot: Chatbot, input: String)
    ensures (bot.ProcessInput(input) == GreetingText)
        <==> (Contains(TrimSpace(input), "Hello") || Contains(TrimSpace(input), "Hi"))
  {
    ReplyDeterminesForm(bot, input, Greeting);
  }

  /** The nine wellbeing phrases come down to five: each of the other four
      contains one of these five. */
  lemma WellbeingPhrasesReduce(t: String)
    ensures HasWellbeing(t)
        <==> (|| Contains(t, "I am well") || Contains(t, "I am good") || Contains(t, "I am ok")
              || Contains(t, "Ok") || Contains(t, "Good"))
  {
    if Contains(t, "Good thanks") {
      PrefixContained("Good thanks", "Good");
      ContainsTransitive(t, "Good thanks", "Good");
    }
    if Contains(t, "I am good thanks and you?") {
      PrefixContained("I am good thanks and you?", "I am good");
      ContainsTransitive(t, "I am good thanks and you?", "I am good");
    }
    if Contains(t, "I am well thanks and you?") {
      PrefixContained("I am well thanks and you?", "I am well");
      ContainsTransitive(t, "I am well thanks and you?", "I am well");
    }
    if Contains(t, "Ok thanks") {
      PrefixContained("Ok thanks", "Ok");
      ContainsTransitive(t, "Ok thanks", "Ok");
    }
  }

  /** The wellbeing reply is sent exactly when there is no greeting word and
      one of the five essential wellbeing phrases occurs. */
  lemma WellbeingReply(bot: Chatbot, input: String)
    ensures var t := TrimSpace(input);
      (bot.ProcessInput(input) == WellbeingText)
        <==> (&& !Contains(t, "Hello") && !Contains(t, "Hi")
              && (|| Contains(t, "I am well") || Contains(t, "I am good") || Contains(t, "I am ok")
                  || Contains(t, "Ok") || Contains(t, "Good")))
  {
    ReplyDeterminesForm(bot, input, WellbeingAck);
    WellbeingPhrasesReduce(TrimSpace(input));
  }

  /** The name reply, the fixed opening and closing around some name, is sent
      exactly when neither earlier test succeeds and "My name is" occurs. */
  lemma NameReplyChosen(bot: Chatbot, input: String)
    ensures var t := TrimSpace(input);
      (exists n :: bot.ProcessInput(input) == NameReplyOpening + n + NameReplyClosing)
        <==> (!HasGreeting(t) && !HasWellbeing(t) && HasNameStatement(t))
  {
    var t := TrimSpace(input);
    if exists n :: bot.ProcessInput(input) == NameReplyOpening + n + NameReplyClosing {
      var n :| bot.ProcessInput(input) == NameReplyOpening + n + NameReplyClosing;
      ReplyDeterminesForm(bot, input, NameAck(n));
    }
    if !HasGreeting(t) && !HasWellbeing(t) && HasNameStatement(t) {
      assert bot.ProcessInput(input) == Text(NameAck(TrimPrefix(t, NameIntro)));
    }
  }

  /** With the prefix: the reply is the fixed opening, the rest of the trimmed
      input after "My name is ", and the fixed closing. */
  lemma NameReplyWithPrefix(bot: Chatbot, input: String)
    requires var t := TrimSpace(input); !HasGreeting(t) && !HasWellbeing(t) && NameIntro <= t
    ensures var t := TrimSpace(input);
      bot.ProcessInput(input) == NameReplyOpening + t[|NameIntro|..] + NameReplyClosing
  {
    var t := TrimSpace(input);
    assert "My name is" <= NameIntro;
    PrefixContained(t, "My name is");
  }

  /** Without the prefix, as in "Hey My name is X" or "My name is" alone: the
      prefix is not stripped and the whole trimmed input is echoed as the
      name. */
  lemma NameReplyWithoutPrefix(bot: Chatbot, input: String)
    requires var t := TrimSpace(input);
      !HasGreeting(t) && !HasWellbeing(t) && HasNameStatement(t) && !(NameIntro <= t)
    ensures bot.ProcessInput(input) == NameReplyOpening + TrimSpace(input) + NameReplyClosing
  {
  }

  /** The farewell is sent exactly when no earlier test succeeds and the
      lower-case "bye" occurs. */
  lemma FarewellReply(bot: Chatbot, input: String)
    ensures var t := TrimSpace(input);
      (bot.ProcessInput(input) == FarewellText)
        <==> (!HasGreeting(t) && !HasWellbeing(t) && !HasNameStatement(t) && HasFarewell(t))
  {
    ReplyDeterminesForm(bot, input, Farewell);
  }

  /** The fallback is sent exactly when none of the words of the chain occurs. */
  lemma FallbackReply(bot: Chatbot, input: String)
    ensures var t := TrimSpace(input);
      (bot.ProcessInput(input) == FallbackText)
        <==> (&& !Contains(t, "Hello") && !Contains(t, "Hi")
              && !Contains(t, "I am well") && !Contains(t, "I am good") && !Contains(t, "I am ok")
              && !Contains(t, "Ok") && !Contains(t, "Good")
              && !Contains(t, "My name is") && !Contains(t, "bye"))
  {
    ReplyDeterminesForm(bot, input, NotUnderstood);
    WellbeingPhrasesReduce(TrimSpace(input));
  }

  // ---------------------------------------------------------------------
  // Inputs that cannot match

  /** Every word of the first two tests starts with 'H', 'I', 'G' or 'O', so a
      text without these capitals matches neither. */
  lemma NoCapitalsNoEarlyMatch(t: String)
    requires 'H' !in t && 'I' !in t && 'G' !in t && 'O' !in t
    ensures !HasGreeting(t) && !HasWellbeing(t)
  {
    FirstCharAbsent(t, "Hello");
    FirstCharAbsent(t, "Hi");
    FirstCharAbsent(t, "I am well");
    FirstCharAbsent(t, "I am good");
    FirstCharAbsent(t, "Good thanks");
    FirstCharAbsent(t, "I am good thanks and you?");
    FirstCharAbsent(t, "I am well thanks and you?");
    FirstCharAbsent(t, "I am ok");
    FirstCharAbsent(t, "Ok thanks");
    FirstCharAbsent(t, "Ok");
    FirstCharAbsent(t, "Good");
  }

  /** When the trimmed input has none of the capitals 'H', 'I', 'G' and 'O',
      the first two tests fail and only the name and farewell tests decide. */
  lemma LastTwoTestsDecide(bot: Chatbot, input: String)
    requires var t := TrimSpace(input); 'H' !in t && 'I' !in t && 'G' !in t && 'O' !in t
    ensures var t := TrimSpace(input);
      bot.ProcessInput(input)
        == if HasNameStatement(t) then NameReplyOpening + TrimPrefix(t, NameIntro) + NameReplyClosing
           else if HasFarewell(t) then FarewellText
           else FallbackText
  {
    NoCapitalsNoEarlyMatch(TrimSpace(input));
  }

  /** An input in which none of the letters 'H', 'I', 'G', 'O', 'M' and 'b'
      occurs is not understood: each word of the chain starts with one of them. */
  lemma FallbackWithoutKeyLetters(bot: Chatbot, input: String)
    requires 'H' !in input && 'I' !in input && 'G' !in input && 'O' !in input
    requires 'M' !in input && 'b' !in input
    ensures bot.ProcessInput(input) == FallbackText
  {
    var t := TrimSpace(input);
    forall c | c in t ensures c in input { TrimSpaceChars(input, c); }
    LastTwoTestsDecide(bot, input);
    FirstCharAbsent(t, "My name is");
    FirstCharAbsent(t, "bye");
  }
}
