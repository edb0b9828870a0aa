/** Reply selection in `sendReply`: first-match rules over the lower-cased text. */
module Replies {
  import opened Wrappers
  import opened Text

  /** The five replies: four fixed texts and the echo of the received text. */
  datatype Reply = Greeting | About | Support | Help | Echo(received: string)

  /** The if/else-if chain of `sendReply`, over `msg = receivedMsg.toLowerCase()`;
      the echo keeps the original, un-lowered text. Nothing is trimmed. */
  function Resolve(received: string): (r: Reply)
  {
    var msg := Lower(received);
    if Includes(msg, "hi") || Includes(msg, "hello") || Includes(msg, "hey") then Greeting
    else if msg == "1" || Includes(msg, "about") then About
    else if msg == "2" || Includes(msg, "support") then Support
    else if msg == "3" || Includes(msg, "help") then Help
    else Echo(received)
  }

  /** Reference definition of the rules: a rule fires when the lower-cased
      text equals one of its exact words or includes one of its keywords. */
  datatype Rule = Rule(exact: seq<string>, keywords: seq<string>, reply: Reply)

  /** The rule table, in priority order. */
  const Rules: seq<Rule> := [
    Rule([], ["hi", "hello", "hey"], Greeting),
    Rule(["1"], ["about"], About),
    Rule(["2"], ["support"], Support),
    Rule(["3"], ["help"], Help)
  ]

  /** Whether `msg` includes one of the words `ws`. */
  predicate IncludesAny(msg: string, ws: seq<string>)
  {
    exists k :: 0 <= k < |ws| && Includes(msg, ws[k])
  }

  predicate Fires(r: Rule, msg: string)
  {
    msg in r.exact || IncludesAny(msg, r.keywords)
  }

  /** The index of the first rule at or after `from` that fires. */
  function FirstFiring(rs: seq<Rule>, msg: string, from: nat): (r: Option<nat>)
    requires from <= |rs|
    ensures r.None? <==> forall i :: from <= i < |rs| ==> !Fires(rs[i], msg)
    ensures r.Some? ==> from <= r.value < |rs| && Fires(rs[r.value], msg)
    ensures r.Some? ==> forall j :: from <= j < r.value ==> !Fires(rs[j], msg)
    decreases |rs| - from
  {
    if from == |rs| then None
    else if Fires(rs[from], msg) then Some(from)
    else FirstFiring(rs, msg, from + 1)
  }

  /** The reply the rule table prescribes: the first firing rule's, or the echo. */
  function ByTable(received: string): (r: Reply)
  {
    match FirstFiring(Rules, Lower(received), 0)
    case None => Echo(received)
    case Some(i) => Rules[i].reply
  }

  lemma IncludesAnyOne(msg: string, w: string)
    ensures IncludesAny(msg, [w]) <==> Includes(msg, w)
  {
    assert [w][0] == w;
  }

  lemma IncludesAnyThree(msg: string, a: string, b: string, c: string)
    ensures IncludesAny(msg, [a, b, c]) <==> Includes(msg, a) || Includes(msg, b) || Includes(msg, c)
  {
    var ws := [a, b, c];
    assert ws[0] == a && ws[1] == b && ws[2] == c;
  }

  /** The if/else-if chain is the first-match reading of the rule table. */
  lemma ResolveIsFirstMatch(received: string)
    ensures Resolve(received) == ByTable(received)
  {
    var msg := Lower(received);
    IncludesAnyThree(msg, "hi", "hello", "hey");
    IncludesAnyOne(msg, "about");
    IncludesAnyOne(msg, "support");
    IncludesAnyOne(msg, "help");
    assert Fires(Rules[0], msg) <==> Includes(msg, "hi") || Includes(msg, "hello") || Includes(msg, "hey");
    assert Fires(Rules[1], msg) <==> msg == "1" || Includes(msg, "about");
    assert Fires(Rules[2], msg) <==> msg == "2" || Includes(msg, "support");
    assert Fires(Rules[3], msg) <==> msg == "3" || Includes(msg, "help");
  }

  /** Precedence: the reply of rule `i` is chosen exactly when rule `i` fires
      and no earlier rule does; the echo exactly when no rule fires. */
  lemma Precedence(received: string, i: nat)
    requires i < |Rules|
    ensures Resolve(received) == Rules[i].reply <==>
      Fires(Rules[i], Lower(received)) && forall j :: 0 <= j < i ==> !Fires(Rules[j], Lower(received))
    ensures Resolve(received) == Echo(received) <==> forall j :: 0 <= j < |Rules| ==> !Fires(Rules[j], Lower(received))
  {
    ResolveIsFirstMatch(received);
    var f := FirstFiring(Rules, Lower(received), 0);
    if f.Some? && f.value != i {
      assert Rules[f.value].reply != Rules[i].reply;
    }
  }

  /** A greeting word in any letter case, anywhere in the text, yields the
      greeting, whatever else the text contains. */
  lemma GreetingInAnyCase(before: string, word: string, after: string)
    requires Lower(word) == "hi" || Lower(word) == "hello" || Lower(word) == "hey"
    ensures Resolve(before + word + after) == Greeting
  {
    LowerAppend(before + word, after);
    LowerAppend(before, word);
    IncludesMiddle(Lower(before), Lower(word), Lower(after));
  }

  /** Text without any letter is answered by the menu only when it is exactly
      `1`, `2` or `3`: `10`, ` 1` or the empty text get the echo. */
  lemma LetterlessText(received: string)
    requires forall i :: 0 <= i < |received| ==> Inert(received[i])
    ensures Resolve(received) ==
      if received == "1" then About
      else if received == "2" then Support
      else if received == "3" then Help
      else Echo(received)
  {
    LowerIdentity(received);
    NoWordInInert(received, "hi");
    NoWordInInert(received, "hello");
    NoWordInInert(received, "hey");
    NoWordInInert(received, "about");
    NoWordInInert(received, "support");
    NoWordInInert(received, "help");
  }

  /** The text that is sent for a reply. */
  function ReplyText(reply: Reply): (t: string)
  {
    match reply
    case Greeting =>
      "👋 Hello! Welcome to MyBot!\n\nHow can I help you today?\n\n"
      + "1\U{FE0F}\U{20E3} About Us\n2\U{FE0F}\U{20E3} Contact Support\n3\U{FE0F}\U{20E3} Help"
    case About =>
      "📖 About Us\n\nWe are a demo WhatsApp bot built using Node.js, Express, Render, and WhatsApp Cloud API.\n\n"
      + "Send *hi* to see the menu again."
    case Support =>
      "📞 Contact Support\n\nEmail: support@example.com\nPhone: +1234567890\n\nSend *hi* for menu."
    case Help =>
      "❓ Help Menu\n\n• hi → Main menu\n• 1 → About us\n• 2 → Support\n• 3 → Help\n\nTry it now 🙂"
    case Echo(received) =>
      EchoPrefix + received + EchoSuffix
  }

  const EchoPrefix: string := "🤖 I received: \""
  const EchoSuffix: string := "\"\n\nSend *hi* to see available options."

  /** The received text of an echo reply, read back from the reply text. */
  function Echoed(t: string): (r: Option<string>)
    ensures r.Some? ==> t == EchoPrefix + r.value + EchoSuffix
  {
    if |t| >= |EchoPrefix| + |EchoSuffix| && t[..|EchoPrefix|] == EchoPrefix
       && t[|t| - |EchoSuffix|..] == EchoSuffix
    then Some(t[|EchoPrefix|..|t| - |EchoSuffix|])
    else None
  }

  /** The echo embeds the received text verbatim: it can be read back. */
  lemma EchoRoundTrip(received: string)
    ensures Echoed(ReplyText(Echo(received))) == Some(received)
  {
  }

  /** Every input text is answered with a non-empty reply text. */
  lemma ReplyNonEmpty(received: string)
    ensures |ReplyText(Resolve(received))| > 0
  {
  }

  /** The empty text falls to the echo branch and is answered. */
  lemma EmptyTextEchoes()
    ensures Resolve("") == Echo("")
    ensures ReplyText(Resolve("")) == EchoPrefix + EchoSuffix
  {
    LetterlessText("");
  }

  /** "This about" has "hi" inside "This", so it gets the greeting. */
  lemma ThisAboutGreets()
    ensures Resolve("This about") == Greeting
  {
    LowerIdentity("hi");
    assert "T" + "hi" + "s about" == "This about";
    GreetingInAnyCase("T", "hi", "s about");
  }

  /** A capitalised "Hey" still greets. */
  lemma HeyThereGreets()
    ensures Resolve("Hey there") == Greeting
  {
    LowerIdentity("ey");
    assert "Hey"[1..] == "ey";
    assert "" + "Hey" + " there" == "Hey there";
    GreetingInAnyCase("", "Hey", " there");
  }

  /** Exact digits: "10" and " 1" are echoed, "1" gets the about text. */
  lemma DigitExamples()
    ensures Resolve("10") == Echo("10")
    ensures Resolve(" 1") == Echo(" 1")
    ensures Resolve("1") == About
  {
    LetterlessText("10");
    LetterlessText(" 1");
    LetterlessText("1");
  }
}
