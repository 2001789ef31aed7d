/** The canned-reply chatbot: the user's message is lower-cased and matched
    against an ordered table of keywords; the reply of the first keyword
    found inside the message is returned, and a fixed apology otherwise. */
module Chatbot {
  import opened Wrappers
  import opened Text
  import opened Search

  /** One entry of the reply table: a keyword and the reply it triggers. */
  datatype Canned = Canned(keyword: string, reply: string)

  /** The reply table, in the order the dict literal lists it. */
  const Replies: seq<Canned> := [
    Canned("hello", "Hello! How can I assist you with your expenses today?"),
    Canned("help", "You can ask me about spending, transaction summaries, or budget checks."),
    Canned("spending", "I can show you your recent spending by category."),
    Canned("budget", "You can check if you've exceeded your budget by category.")
  ]

  /** The reply when no keyword is found. */
  const DefaultReply: string := "I'm sorry, I didn't quite understand that. Can you ask something else?"

  /** `get_chatbot_response(user_input)` */
  function Respond(userInput: string): (reply: string)
    ensures reply == DefaultReply || exists i :: 0 <= i < |Replies| && reply == Replies[i].reply
    ensures reply == DefaultReply <==>
      forall i :: 0 <= i < |Replies| ==> !Occurs(Replies[i].keyword, LowerStr(userInput))
    ensures reply != DefaultReply ==>
      exists i :: 0 <= i < |Replies| && reply == Replies[i].reply &&
        Occurs(Replies[i].keyword, LowerStr(userInput)) &&
        forall j :: 0 <= j < i ==> !Occurs(Replies[j].keyword, LowerStr(userInput))
  {
    var text := LowerStr(userInput);
    match FirstIndex(Replies, (c: Canned) => Occurs(c.keyword, text))
    case Some(i) => Replies[i].reply
    case None => DefaultReply
  }

  /** The converse of the first-match contract: the reply of the first
      keyword found is the one returned. */
  lemma RespondIsFirstMention(userInput: string, i: nat)
    requires i < |Replies| && Occurs(Replies[i].keyword, LowerStr(userInput))
    requires forall j :: 0 <= j < i ==> !Occurs(Replies[j].keyword, LowerStr(userInput))
    ensures Respond(userInput) == Replies[i].reply
  {
  }

  /** The lookup ignores case: a message and its upper-cased form get the
      same reply. */
  lemma RespondIgnoresCase(userInput: string)
    ensures Respond(UpperStr(userInput)) == Respond(userInput)
    ensures Respond(LowerStr(userInput)) == Respond(userInput)
  {
    LowerOfUpper(userInput);
    LowerIdempotent(userInput);
  }

  lemma LowerHelloThere()
    ensures LowerStr("HELLO there") == "hello there"
    ensures LowerStr("hello there") == "hello there"
  {
  }

  /** "HELLO there" and "hello there" both get the greeting. */
  lemma GreetingIgnoresCase()
    ensures Respond("HELLO there") == Respond("hello there") == Replies[0].reply
  {
    LowerHelloThere();
    FoundAt(Replies[0].keyword, "hello there", 0);
    RespondIsFirstMention("HELLO there", 0);
    RespondIsFirstMention("hello there", 0);
  }

  /** The earliest keyword in table order wins: a message holding both
      "hello" and "budget" gets the greeting. */
  lemma EarliestKeywordWins()
    ensures Occurs(Replies[3].keyword, LowerStr("hello, what is my budget"))
    ensures Respond("hello, what is my budget") == Replies[0].reply
  {
    LowerHelloBudget();
    HelloBudgetMentionsBoth();
    RespondIsFirstMention("hello, what is my budget", 0);
  }

  lemma LowerHelloBudget()
    ensures LowerStr("hello, what is my budget") == "hello, what is my budget"
  {
  }

  lemma HelloBudgetMentionsBoth()
    ensures Occurs(Replies[0].keyword, "hello, what is my budget")
    ensures Occurs(Replies[3].keyword, "hello, what is my budget")
  {
    FoundAt(Replies[0].keyword, "hello, what is my budget", 0);
    FoundAt(Replies[3].keyword, "hello, what is my budget", 18);
  }

  /** A message with none of the keywords gets the apology. */
  lemma UnknownQuestionGetsDefault()
    ensures Respond("What can you do?") == DefaultReply
  {
    LowerWhatCanYouDo();
    WhatCanYouDoMentionsNoKeyword();
  }

  lemma LowerWhatCanYouDo()
    ensures LowerStr("What can you do?") == "what can you do?"
  {
  }

  lemma WhatCanYouDoMentionsNoKeyword()
    ensures forall i :: 0 <= i < |Replies| ==> !Occurs(Replies[i].keyword, "what can you do?")
  {
    WhatCanYouDoLacksLetters();
    NoKeywordIn("what can you do?", 1, 1, 0, 0);
  }

  lemma WhatCanYouDoLacksLetters()
    ensures 'e' !in "what can you do?" && 's' !in "what can you do?" && 'b' !in "what can you do?"
  {
  }

  /** No keyword occurs in `text`: each lacks the letter at the given
      position. */
  lemma NoKeywordIn(text: string, a: nat, b: nat, c: nat, d: nat)
    requires a < 5 && b < 4 && c < 8 && d < 6
    requires "hello"[a] !in text && "help"[b] !in text
    requires "spending"[c] !in text && "budget"[d] !in text
    ensures forall i :: 0 <= i < |Replies| ==> !Occurs(Replies[i].keyword, text)
  {
    AbsentCharRulesOut("hello", text, a);
    AbsentCharRulesOut("help", text, b);
    AbsentCharRulesOut("spending", text, c);
    AbsentCharRulesOut("budget", text, d);
  }
}
