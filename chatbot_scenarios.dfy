/**
  Particular conversations, worked out on the model: the overlaps and edge
  cases of the ordered, case-sensitive substring chain. Each lemma is about
  one line of input or one family of lines. A reply to a literal line is
  proved from small lemmas that each establish one fact about that line
  (its trim, its early tests, its name statement), which keeps every proof
  small.
 */
module ChatbotScenarios {
  import opened GoStrings
  import opened Chatbot
  import opened ChatbotProperties

  /** "Hiram" contains "Hi", so this name statement is answered with the
      greeting. */
  lemma NameWithHiIsGreeted(bot: Chatbot)
    ensures bot.ProcessInput("My name is Hiram") == GreetingText
  {
    TrimFuncOfTrimmed("My name is Hiram", IsSpace);
    ContainsAt("My name is Hiram", "Hi", 11);
  }

  /** A greeting followed by a wellbeing phrase is still a greeting. */
  lemma GreetingBeatsWellbeing(bot: Chatbot)
    ensures bot.ProcessInput("Hi, I am good") == GreetingText
  {
    TrimFuncOfTrimmed("Hi, I am good", IsSpace);
    ContainsAt("Hi, I am good", "Hi", 0);
  }

  /** Matching is case-sensitive: "hello" in lower case is no greeting. */
  lemma LowerCaseHelloNotUnderstood(bot: Chatbot)
    ensures bot.ProcessInput("hello") == FallbackText
  {
    FallbackWithoutKeyLetters(bot, "hello");
  }

  /** A negated "Ok" still contains "Ok" and is acknowledged as wellbeing. */
  lemma NegatedOkAcknowledged(bot: Chatbot)
    ensures bot.ProcessInput("Not Ok") == WellbeingText
  {
    TrimFuncOfTrimmed("Not Ok", IsSpace);
    FirstCharAbsent("Not Ok", "Hello");
    FirstCharAbsent("Not Ok", "Hi");
    ContainsAt("Not Ok", "Ok", 4);
    WellbeingReply(bot, "Not Ok");
  }

  /** A name statement followed by a name that ends in a non-space character
      needs no trimming. */
  lemma NamedLineTrimmed(name: String)
    requires name != [] && !IsSpace(name[|name| - 1])
    ensures TrimSpace(NameIntro + name) == NameIntro + name
  {
    var t := NameIntro + name;
    assert t[0] == 'M' && t[|t| - 1] == name[|name| - 1];
    TrimFuncOfTrimmed(t, IsSpace);
  }

  /** A name statement followed by a name without the capitals of the first
      two tests passes those tests. */
  lemma NamedLinePassesEarlyTests(name: String)
    requires 'H' !in name && 'I' !in name && 'G' !in name && 'O' !in name
    ensures !HasGreeting(NameIntro + name) && !HasWellbeing(NameIntro + name)
  {
    NoCapitalsNoEarlyMatch(NameIntro + name);
  }

  /** A line that needs no trimming, passes the first two tests and starts
      with `NameIntro` gets what follows `NameIntro` echoed. */
  lemma TrimmedNameEchoed(bot: Chatbot, line: String)
    requires TrimSpace(line) == line && !HasGreeting(line) && !HasWellbeing(line)
    requires NameIntro <= line
    ensures bot.ProcessInput(line) == NameReplyOpening + line[|NameIntro|..] + NameReplyClosing
  {
    NameReplyWithPrefix(bot, line);
  }

  /** A name statement at the start of the line gets the name after it
      echoed, when the name ends in a non-space character and has none of
      the capitals of the first two tests. */
  lemma NameEchoed(bot: Chatbot, name: String)
    requires name != [] && !IsSpace(name[|name| - 1])
    requires 'H' !in name && 'I' !in name && 'G' !in name && 'O' !in name
    ensures bot.ProcessInput(NameIntro + name) == NameReplyOpening + name + NameReplyClosing
  {
    NamedLineTrimmed(name);
    NamedLinePassesEarlyTests(name);
    assert NameIntro <= NameIntro + name && (NameIntro + name)[|NameIntro|..] == name;
    TrimmedNameEchoed(bot, NameIntro + name);
  }

  /** `NameIntro` trims to "My name is", dropping its trailing space. */
  lemma NameIntroTrimmed()
    ensures TrimSpace(NameIntro) == "My name is"
  {
    assert NameIntro == "My name is" + " ";
    TrimSpaceOfTrailing("My name is", " ");
  }

  /** "My name is" passes the first two tests. */
  lemma BareStatementPassesEarlyTests()
    ensures !HasGreeting("My name is") && !HasWellbeing("My name is")
  {
    NoCapitalsNoEarlyMatch("My name is");
  }

  /** "My name is" contains the name statement but is too short to start with
      `NameIntro`. */
  lemma BareStatementHasStatement()
    ensures HasNameStatement("My name is") && !(NameIntro <= "My name is")
  {
    PrefixContained("My name is", "My name is");
  }

  /** A line holding only "My name is " trims to "My name is", which no longer
      starts with "My name is " (with its space): the whole of it is echoed
      as the name. */
  lemma BareNameStatementEchoed(bot: Chatbot)
    ensures bot.ProcessInput(NameIntro) == NameReplyOpening + "My name is" + NameReplyClosing
  {
    NameIntroTrimmed();
    BareStatementPassesEarlyTests();
    BareStatementHasStatement();
    NameReplyWithoutPrefix(bot, NameIntro);
  }

  /** A line with a word before the name statement needs no trimming when
      both its ends are not white space. */
  lemma PrefixedLineTrimmed(before: String, name: String)
    requires before != [] && !IsSpace(before[0])
    requires name != [] && !IsSpace(name[|name| - 1])
    ensures var line := before + NameIntro + name; TrimSpace(line) == line
  {
    var line := before + NameIntro + name;
    assert line[0] == before[0] && line[|line| - 1] == name[|name| - 1];
    TrimFuncOfTrimmed(line, IsSpace);
  }

  /** A line with a word before the name statement contains it, but does not
      start with `NameIntro`. */
  lemma PrefixedLineHasStatement(before: String, name: String)
    requires before != [] && before[0] != 'M'
    ensures var line := before + NameIntro + name;
      HasNameStatement(line) && !(NameIntro <= line)
  {
    var line := before + NameIntro + name;
    assert NameIntro == "My name is" + " ";
    assert line == before + "My name is" + (" " + name);
    ContainsInMiddle(before, "My name is", " " + name);
    assert line[0] != NameIntro[0];
  }

  /** A line with a word before the name statement passes the first two
      tests when neither part has their capitals. */
  lemma PrefixedLinePassesEarlyTests(before: String, name: String)
    requires 'H' !in before && 'I' !in before && 'G' !in before && 'O' !in before
    requires 'H' !in name && 'I' !in name && 'G' !in name && 'O' !in name
    ensures var line := before + NameIntro + name; !HasGreeting(line) && !HasWellbeing(line)
  {
    NoCapitalsNoEarlyMatch(before + NameIntro + name);
  }

  /** A line that needs no trimming, passes the first two tests and contains
      the name statement but does not start with `NameIntro` is echoed whole. */
  lemma TrimmedNameStatementEchoed(bot: Chatbot, line: String)
    requires TrimSpace(line) == line && !HasGreeting(line) && !HasWellbeing(line)
    requires HasNameStatement(line) && !(NameIntro <= line)
    ensures bot.ProcessInput(line) == NameReplyOpening + line + NameReplyClosing
  {
    NameReplyWithoutPrefix(bot, line);
  }

  /** Text before "My name is" keeps the prefix from being stripped: the whole
      line is echoed as the name. */
  lemma PrefixedNameStatementEchoed(bot: Chatbot, before: String, name: String)
    requires before != [] && !IsSpace(before[0]) && before[0] != 'M'
    requires name != [] && !IsSpace(name[|name| - 1])
    requires 'H' !in before && 'I' !in before && 'G' !in before && 'O' !in before
    requires 'H' !in name && 'I' !in name && 'G' !in name && 'O' !in name
    ensures var line := before + NameIntro + name;
      bot.ProcessInput(line) == NameReplyOpening + line + NameReplyClosing
  {
    PrefixedLineTrimmed(before, name);
    PrefixedLinePassesEarlyTests(before, name);
    PrefixedLineHasStatement(before, name);
    TrimmedNameStatementEchoed(bot, before + NameIntro + name);
  }

  /** "ok bye" needs no trimming. */
  lemma ByeLineTrimmed()
    ensures TrimSpace("ok bye") == "ok bye"
  {
    TrimFuncOfTrimmed("ok bye", IsSpace);
  }

  /** "ok bye" has none of the capitals of the first two tests. */
  lemma ByeLinePassesEarlyTests()
    ensures !HasGreeting("ok bye") && !HasWellbeing("ok bye")
  {
    NoCapitalsNoEarlyMatch("ok bye");
  }

  /** "ok bye" has no name statement and contains "bye". */
  lemma ByeLineHasFarewell()
    ensures !HasNameStatement("ok bye") && HasFarewell("ok bye")
  {
    FirstCharAbsent("ok bye", "My name is");
    ContainsAt("ok bye", "bye", 3);
  }

  /** The lower-case farewell word ends the chat. */
  lemma ByeSaysFarewell(bot: Chatbot)
    ensures bot.ProcessInput("ok bye") == FarewellText
  {
    ByeLineTrimmed();
    ByeLinePassesEarlyTests();
    ByeLineHasFarewell();
    FarewellReply(bot, "ok bye");
  }

  /** "Bye" with a capital letter is not the farewell word. */
  lemma CapitalByeNotUnderstood(bot: Chatbot)
    ensures bot.ProcessInput("Bye") == FallbackText
  {
    FallbackWithoutKeyLetters(bot, "Bye");
  }

  /** A line of white space only is not understood. */
  lemma BlankLineNotUnderstood(bot: Chatbot)
    ensures bot.ProcessInput(" \t\n") == FallbackText
  {
    TrimFuncOfAll(" \t\n", IsSpace);
  }
}
