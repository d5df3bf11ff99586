# Cozmo's Go chatbot, modelled in Dafny

The Go chatbot in `main.go` reads a line from the console and trims it. It
passes the line to `Chatbot.ProcessInput`, which trims it once more and
picks one of five replies. The choice is made by an ordered chain of
case-sensitive substring tests:

1. a greeting ("Hello" or "Hi");
2. one of nine wellbeing phrases;
3. the name statement "My name is", whose reply echoes the line with the
   prefix "My name is " stripped when the line starts with it;
4. the lower-case farewell "bye";
5. otherwise the fallback "Nah, I don't understand what you said".

The `Chatbot` struct and `NewChatbot` exist, but `ProcessInput` neither reads
nor writes any field.

The model has four modules:

- `GoStrings` (`go_strings.dfy`) models the three functions of Go's `strings`
  package that the chain uses:
  - `TrimSpace`, which is `TrimFunc` with Unicode white space;
  - `Contains`, through `Index`;
  - `TrimPrefix`.

  Each comes with its characterising contract and the lemmas the chain needs.
- `Chatbot` (`chatbot.dfy`) holds:
  - the struct, as an immutable datatype, because nothing updates it;
  - `NewChatbot`;
  - the five reply forms `Reply` and their texts `Text`;
  - the four tests;
  - `Classify`, which is the chain itself;
  - `ProcessInput`, defined as `Text(Classify(input))`.
- `ChatbotProperties` (`chatbot_properties.dfy`) proves:
  - the reply text determines the reply form, so every input gets exactly
    one reply;
  - each reply is chosen exactly when its test is the first to succeed;
  - trimming before the call is redundant, and surrounding white space does
    not matter;
  - the bot's fields play no part.
- `ChatbotScenarios` (`chatbot_scenarios.dfy`) works out particular lines on
  the model. These are the overlaps and edge cases of the chain: "Hiram" is
  greeted, a bare "My name is " is echoed whole, capitalised "Bye" is not
  understood, and others.

## Model

| member | source | states |
|---|---|---|
| `Chatbot.Chatbot.ProcessInput` | main.go:54-71 | every reply is the text of one of the five reply forms |
| `Chatbot.NewChatbot` | main.go:40-52 | the new bot has every field at Go's zero value: empty name, greeting, users and commands, zero time |
| `Chatbot.Classify` | main.go:56-70 | the ordered chain: trims the input, then the first of the four tests that succeeds picks the reply form; its branches are characterised by `ChatbotProperties.GreetingReply`, `WellbeingReply`, `NameReplyChosen`, `NameReplyWithPrefix`, `NameReplyWithoutPrefix`, `FarewellReply` and `FallbackReply` |
| `Chatbot.Text` | main.go:60-69 | the literal returned for each reply form; the name reply is `NameReplyOpening`, the name and `NameReplyClosing`, the format string of main.go:65 with its `%s` filled in; `ChatbotProperties.TextInjective` proves the five texts never coincide |
| `Chatbot.HasGreeting` | main.go:59 | the first test: "Hello" or "Hi" occurs |
| `Chatbot.HasWellbeing` | main.go:61 | the second test: one of the nine wellbeing phrases occurs, in source order (reduced to five by `ChatbotProperties.WellbeingPhrasesReduce`) |
| `Chatbot.HasNameStatement` | main.go:63 | the third test: "My name is" occurs |
| `Chatbot.HasFarewell` | main.go:66 | the fourth test: lower-case "bye" occurs |
| `GoStrings.IsSpace` | main.go:56 | the characters Go's `unicode.IsSpace` accepts; an assumption about the library, as stated under "Left out" |
| `GoStrings.TrimSpace` | main.go:56 | Go's `strings.TrimSpace` (also called at main.go:32), which is `TrimFunc` with `IsSpace`; its result is characterised by `GoStrings.TrimFunc`'s contract and determined by `GoStrings.TrimFuncUnique` |
| `GoStrings.TrimLeftFunc` | main.go:56 | the result is a suffix of the input, everything removed satisfies `f`, and the result does not start with such a character |
| `GoStrings.TrimRightFunc` | main.go:56 | the result is a prefix of the input, everything removed satisfies `f`, and the result does not end with such a character |
| `GoStrings.TrimFuncIsRightOfLeft` | main.go:56 | `TrimFunc` equals the right trim of the left trim, as Go composes it |
| `GoStrings.LeftSpan` | main.go:56 | the length of the longest prefix whose characters all satisfy `f`: all before it do, the one at it does not |
| `GoStrings.RightEnd` | main.go:56 | the start of the longest suffix whose characters all satisfy `f`: all from it on do, the one before it does not |
| `GoStrings.TrimFunc` | main.go:56 | the result is a slice of the input with only trimmed characters around it, and it neither starts nor ends with one |
| `GoStrings.TrimFuncUnique` | main.go:56 | that characterisation singles out the trim: any such slice is `TrimFunc`'s result |
| `GoStrings.TrimFuncOfAll` | main.go:56 | a string made only of trimmed characters trims to the empty string |
| `GoStrings.TrimFuncOfTrimmed` | main.go:56 | a string that neither starts nor ends with a trimmed character is its own trim |
| `GoStrings.TrimSpaceIdempotent` | main.go:32 | trimming twice equals trimming once |
| `GoStrings.TrimSpaceChars` | main.go:56 | every character of the trim occurs in the original |
| `GoStrings.SliceAmidPadded` | main.go:56 | a slice surrounded by trimmed characters stays so when more of them are added on both sides |
| `GoStrings.TrimFuncOfPadded` | main.go:56 | trimmed characters added on both sides do not change the trim |
| `GoStrings.TrimSpaceOfPadded` | main.go:56 | white space added on both sides does not change `TrimSpace` |
| `GoStrings.TrimSpaceOfTrailing` | main.go:56 | a string that is its own trim, followed by white space, trims back to itself |
| `GoStrings.Index` | main.go:59-66 | -1 when the needle occurs nowhere; otherwise an occurrence position with no occurrence before it |
| `GoStrings.Contains` | main.go:59-66 | true exactly when the needle occurs at some position |
| `GoStrings.ContainsAt` | main.go:59-66 | an occurrence at a given position makes `Contains` true |
| `GoStrings.ContainsInMiddle` | main.go:63 | a string is contained in anything built as something, the string, something |
| `GoStrings.PrefixContained` | main.go:61 | every prefix of a string is contained in it |
| `GoStrings.ContainsTransitive` | main.go:61 | an occurrence of `u` inside an occurrence of `t` in `s` makes `u` contained in `s` |
| `GoStrings.FirstCharAbsent` | main.go:59-66 | a needle whose first character does not occur in `s` is not contained in `s` |
| `GoStrings.TrimPrefix` | main.go:64 | with the prefix present, prefix plus result gives the input back; with it absent, the input is returned unchanged |
| `GoStrings.TrimPrefixOfConcat` | main.go:64 | stripping a prefix that was put in front gives back the rest |
| `ChatbotProperties.TextInjective` | main.go:60-69 | two reply forms with the same text are the same form, the name included |
| `ChatbotProperties.ReplyDeterminesForm` | main.go:54-71 | `ProcessInput` returns the text of a form if and only if the input classifies as that form |
| `ChatbotProperties.ExactlyOneReply` | main.go:54-71 | every input gets exactly one reply form: the chain is total and its branches exclusive |
| `ChatbotProperties.ProcessInputIgnoresState` | main.go:46-54 | two bots with any field values give the same reply to the same input |
| `ChatbotProperties.TrimBeforeCallIsRedundant` | main.go:32 | trimming in the read loop before the call does not change the reply |
| `ChatbotProperties.ProcessInputIgnoresPadding` | main.go:56 | white space on either side of the input does not change the reply |
| `ChatbotProperties.GreetingReply` | main.go:59-60 | the greeting is sent if and only if the trimmed input contains "Hello" or "Hi"; it takes priority over all other tests |
| `ChatbotProperties.WellbeingPhrasesReduce` | main.go:61 | the nine wellbeing phrases match exactly when one of five do ("I am well", "I am good", "I am ok", "Ok", "Good"), because the other four contain one of these |
| `ChatbotProperties.WellbeingReply` | main.go:61-62 | the wellbeing reply is sent if and only if there is no greeting word and one of the five phrases occurs |
| `ChatbotProperties.NameReplyChosen` | main.go:63-65 | the reply is the fixed opening and closing around some name if and only if both earlier tests fail and "My name is" occurs |
| `ChatbotProperties.NameReplyWithPrefix` | main.go:63-65 | when the trimmed input starts with "My name is ", the reply wraps what follows that prefix |
| `ChatbotProperties.NameReplyWithoutPrefix` | main.go:63-65 | when "My name is" occurs but the trimmed input does not start with "My name is ", the reply wraps the whole trimmed input |
| `ChatbotProperties.FarewellReply` | main.go:66-67 | the farewell is sent if and only if the earlier tests fail and the lower-case "bye" occurs |
| `ChatbotProperties.FallbackReply` | main.go:68-70 | the fallback is sent if and only if none of the nine words or phrases occurs (the nine wellbeing phrases reduced to five) |
| `ChatbotProperties.NoCapitalsNoEarlyMatch` | main.go:59-62 | a text without 'H', 'I', 'G' and 'O' passes neither the greeting nor the wellbeing test |
| `ChatbotProperties.LastTwoTestsDecide` | main.go:63-70 | for such a text, only the name and farewell tests decide the reply |
| `ChatbotProperties.FallbackWithoutKeyLetters` | main.go:54-70 | an input without 'H', 'I', 'G', 'O', 'M' and 'b' is not understood |
| `ChatbotScenarios.NameWithHiIsGreeted` | main.go:59-60 | "My name is Hiram" gets the greeting, since "Hiram" contains "Hi" |
| `ChatbotScenarios.GreetingBeatsWellbeing` | main.go:59-62 | "Hi, I am good" gets the greeting, not the wellbeing reply |
| `ChatbotScenarios.LowerCaseHelloNotUnderstood` | main.go:59-70 | matching is case-sensitive: "hello" gets the fallback |
| `ChatbotScenarios.NegatedOkAcknowledged` | main.go:61-62 | "Not Ok" contains "Ok" and gets the wellbeing reply |
| `ChatbotScenarios.NameEchoed` | main.go:63-65 | "My name is " followed by a name without the capitals of the early tests and without trailing space echoes exactly that name |
| `ChatbotScenarios.BareNameStatementEchoed` | main.go:56-65 | "My name is " trims to "My name is", which no longer starts with the prefix, so "My name is" itself is echoed as the name |
| `ChatbotScenarios.PrefixedNameStatementEchoed` | main.go:63-65 | a word before "My name is " keeps the prefix from being stripped, and the whole line is echoed |
| `ChatbotScenarios.ByeSaysFarewell` | main.go:66-67 | "ok bye" gets the farewell |
| `ChatbotScenarios.CapitalByeNotUnderstood` | main.go:66-70 | "Bye" with a capital is not the farewell word and gets the fallback |
| `ChatbotScenarios.BlankLineNotUnderstood` | main.go:56-70 | a line of white space only trims to nothing and gets the fallback |

## Left out

- The console loop of `main` (main.go:14-37) is not modelled. It prints the welcome, prompts, reads lines and prints replies, and all of that is I/O. Its one piece of logic, trimming before the call, is covered by `ChatbotProperties.TrimBeforeCallIsRedundant`.
- The read-error branch (main.go:26-29) is not modelled. It prints the error and reads again, which is console I/O only.
- `fmt.Sprintf` is not modelled in general. The name reply is the format string's literal text with the name put in for its single `%s`, written as a concatenation. A name can never change how the format string is read, so this is exact.
- Go strings are UTF-8 byte sequences, while the model's strings are sequences of Unicode code points. On valid UTF-8 the two agree for `Contains`, `TrimPrefix` and `TrimSpace`. Invalid bytes read from the console are not modelled.
- `GoStrings.IsSpace` states the set of characters Go's `unicode.IsSpace` accepts, from Go's documentation and Unicode's `White_Space` property. The Go library code is not part of this model.
- `LastUpdate` has type `time.Time`, which is modelled as an integer, 0 being the zero time. None of the fields is ever read, so only `NewChatbot`'s zero values matter.
- Nothing in main.go implements the following, so none of it is modelled:
  - any conversation state: a per-user session store, conversation stages, stored user names;
  - validation of names;
  - eviction of idle sessions;
  - case-insensitive matching.

  The model follows the code. The code's matching is case-sensitive, as `ChatbotScenarios.LowerCaseHelloNotUnderstood` and `ChatbotScenarios.CapitalByeNotUnderstood` show, and every reply depends on the current line alone, as `ChatbotProperties.ProcessInputIgnoresState` shows.
