/**
  The scripted Java mentor chat (src/components/Mentor.tsx): a keyword dispatcher
  that picks one canned answer for a question, and the chat transcript that grows
  by one user message when a question is sent and by one mentor message when the
  simulated thinking delay has passed.
*/
module Mentor {
  import opened Text

  /** The tag a mentor message carries. */
  datatype Kind = Suggestion | Explanation | Encouragement

  /** The branches of the dispatcher, in the order they are tried. */
  datatype Branch = ObjectOriented | Arrays | Collections | Debugging | BestPractices | Fallback

  /**
    What a mentor message says. The canned answers are fixed texts and are named, not
    spelled out; the clarification answer quotes the question it was given.
  */
  datatype Answer =
    | Welcome
    | Canned(branch: Branch)
    | Clarify(echo: string)

  /** A transcript entry. Message ids and timestamps are not modelled. */
  datatype Message =
    | UserMessage(content: string)
    | MentorMessage(answer: Answer, kind: Kind)

  /** The message the transcript starts with. */
  const Greeting: Message := MentorMessage(Welcome, Encouragement)

  /** The texts of the quick-suggestion buttons; clicking one sends its text. */
  const QuickSuggestions: seq<string> := [
    "Explain Object-Oriented Programming",
    "Show me array examples",
    "What are Java collections?",
    "Help with debugging my code",
    "Best practices for Java coding"
  ]

  // ---------------------------------------------------------------------------
  // The dispatcher
  // ---------------------------------------------------------------------------

  /** The branch chosen for an already lowercased question: the first keyword test that succeeds. */
  function Classify(lowered: string): (b: Branch)
  {
    if Includes(lowered, "object") || Includes(lowered, "oop") then ObjectOriented
    else if Includes(lowered, "array") then Arrays
    else if Includes(lowered, "collection") then Collections
    else if Includes(lowered, "debug") || Includes(lowered, "error") then Debugging
    else if Includes(lowered, "best practice") then BestPractices
    else Fallback
  }

  /** The tag of a branch's reply: the keyword answers explain or advise, only the fallback encourages. */
  function KindOf(b: Branch): (k: Kind)
    ensures k == Encouragement <==> b == Fallback
    ensures k == Explanation <==> b in {ObjectOriented, Arrays, Collections}
  {
    match b
    case ObjectOriented => Explanation
    case Arrays => Explanation
    case Collections => Explanation
    case Debugging => Suggestion
    case BestPractices => Suggestion
    case Fallback => Encouragement
  }

  /** The mentor's reply to a question. */
  function Respond(question: string): (m: Message)
    ensures m.MentorMessage? && m.answer != Welcome
    ensures m.kind == Encouragement <==> m.answer.Clarify?
    ensures m.answer.Clarify? ==> m.answer.echo == question
    ensures m.answer.Canned? ==> m.answer.branch != Fallback && m.kind == KindOf(m.answer.branch)
  {
    var b := Classify(Lower(question));
    MentorMessage(if b == Fallback then Clarify(question) else Canned(b), KindOf(b))
  }

  // ---------------------------------------------------------------------------
  // The dispatcher as an ordered rule table
  // ---------------------------------------------------------------------------

  /** A dispatch rule: it fires when the text contains any of its keywords. */
  datatype Rule = Rule(keywords: seq<string>, branch: Branch)

  predicate Fires(r: Rule, text: string)
  {
    exists k :: 0 <= k < |r.keywords| && Includes(text, r.keywords[k])
  }

  /** The keyword rules in priority order. */
  const Rules: seq<Rule> := [
    Rule(["object", "oop"], ObjectOriented),
    Rule(["array"], Arrays),
    Rule(["collection"], Collections),
    Rule(["debug", "error"], Debugging),
    Rule(["best practice"], BestPractices)
  ]

  /** The branch of the first rule that fires, or `Fallback` when none does. */
  function FirstMatch(rules: seq<Rule>, text: string): (b: Branch)
  {
    if rules == [] then Fallback
    else if Fires(rules[0], text) then rules[0].branch
    else FirstMatch(rules[1..], text)
  }

  /** First-match semantics: the result is the branch of the earliest rule that fires. */
  lemma {:induction false} FirstMatchSpec(rules: seq<Rule>, text: string)
    requires forall k :: 0 <= k < |rules| ==> rules[k].branch != Fallback
    ensures FirstMatch(rules, text) == Fallback <==> forall k :: 0 <= k < |rules| ==> !Fires(rules[k], text)
    ensures FirstMatch(rules, text) != Fallback ==>
      exists k :: 0 <= k < |rules| && Fires(rules[k], text) && FirstMatch(rules, text) == rules[k].branch &&
        forall j :: 0 <= j < k ==> !Fires(rules[j], text)
  {
    if rules != [] && !Fires(rules[0], text) {
      FirstMatchSpec(rules[1..], text);
      assert forall k :: 1 <= k < |rules| ==> rules[k] == rules[1..][k - 1];
      if FirstMatch(rules, text) != Fallback {
        var k :| 0 <= k < |rules[1..]| && Fires(rules[1..][k], text) && FirstMatch(rules[1..], text) == rules[1..][k].branch &&
          forall j :: 0 <= j < k ==> !Fires(rules[1..][j], text);
        assert forall j :: 0 <= j < k + 1 ==> !Fires(rules[j], text) by {
          forall j | 0 <= j < k + 1
            ensures !Fires(rules[j], text)
          {
            if j > 0 {
              assert rules[j] == rules[1..][j - 1];
            }
          }
        }
      }
    }
  }

  /** The if/else chain and the rule table choose the same branch for every text. */
  lemma ClassifyByRules(text: string)
    ensures Classify(text) == FirstMatch(Rules, text)
  {
    var r0, r1, r2, r3, r4 := Rules[0], Rules[1], Rules[2], Rules[3], Rules[4];
    assert Fires(r0, text) <==> Includes(text, "object") || Includes(text, "oop") by {
      assert r0.keywords[0] == "object" && r0.keywords[1] == "oop";
    }
    assert Fires(r1, text) <==> Includes(text, "array") by {
      assert r1.keywords[0] == "array";
    }
    assert Fires(r2, text) <==> Includes(text, "collection") by {
      assert r2.keywords[0] == "collection";
    }
    assert Fires(r3, text) <==> Includes(text, "debug") || Includes(text, "error") by {
      assert r3.keywords[0] == "debug" && r3.keywords[1] == "error";
    }
    assert Fires(r4, text) <==> Includes(text, "best practice") by {
      assert r4.keywords[0] == "best practice";
    }
    assert Rules[1..] == [r1, r2, r3, r4] && [r1, r2, r3, r4][1..] == [r2, r3, r4];
    assert [r2, r3, r4][1..] == [r3, r4] && [r3, r4][1..] == [r4] && [r4][1..] == [];
    assert FirstMatch([r4], text) == if Fires(r4, text) then BestPractices else Fallback;
    assert FirstMatch([r3, r4], text) == if Fires(r3, text) then Debugging else FirstMatch([r4], text);
    assert FirstMatch([r2, r3, r4], text) == if Fires(r2, text) then Collections else FirstMatch([r3, r4], text);
    assert FirstMatch([r1, r2, r3, r4], text) == if Fires(r1, text) then Arrays else FirstMatch([r2, r3, r4], text);
    assert FirstMatch(Rules, text) == if Fires(r0, text) then ObjectOriented else FirstMatch([r1, r2, r3, r4], text);
  }

  // ---------------------------------------------------------------------------
  // Case-insensitivity
  // ---------------------------------------------------------------------------

  /** The reply's kind and answer depend on the question only through its lowercase form, apart from the quoted echo. */
  lemma RespondIgnoresCase(q1: string, q2: string)
    requires Lower(q1) == Lower(q2)
    ensures Respond(q1).kind == Respond(q2).kind
    ensures Respond(q1).answer.Canned? ==> Respond(q1) == Respond(q2)
  {
  }

  /** A question mentioning "object" or "oop" in any letter case gets the object-oriented explanation. */
  lemma ObjectOrientedAnyCase(question: string, word: string)
    requires Lower(word) == "object" || Lower(word) == "oop"
    requires Includes(question, word)
    ensures Respond(question) == MentorMessage(Canned(ObjectOriented), Explanation)
  {
    IncludesLower(question, word);
  }

  // ---------------------------------------------------------------------------
  // Where the quick suggestions are routed
  // ---------------------------------------------------------------------------

  /** A pattern without a space occurs in two parts joined by a space exactly when it occurs in one of them, in any letter case. */
  lemma Spaced(a: string, b: string, p: string)
    requires ' ' !in p
    ensures Includes(Lower(a + " " + b), p) <==> Includes(Lower(a), p) || Includes(Lower(b), p)
  {
    LowerAppend(a + " ", b);
    LowerAppend(a, " ");
    assert Lower(" ") == " ";
    IncludesAcross(Lower(a), ' ', Lower(b), p);
  }

  /** A text split at a space, each part lacking some letter of the pattern, does not contain the pattern in any letter case. */
  lemma MissingAcross(s: string, a: string, b: string, p: string, ca: char, cb: char)
    requires s == a + " " + b && ' ' !in p
    requires 'a' <= ca <= 'z' && ca in p && ca !in a && (ca as int - 32) as char !in a
    requires 'a' <= cb <= 'z' && cb in p && cb !in b && (cb as int - 32) as char !in b
    ensures !Includes(Lower(s), p)
  {
    Spaced(a, b, p);
    MissingLetter(a, p, ca);
    MissingLetter(b, p, cb);
  }

  /** A text with a part that lowercases to the pattern contains the pattern once lowercased. */
  lemma FoundAt(s: string, a: string, w: string, b: string, p: string)
    requires s == a + w + b && |w| == |p| && LowersFrom(w, p, 0)
    ensures Includes(Lower(s), p)
  {
    LowerAppend(a + w, b);
    LowerAppend(a, w);
    LowersTo(w, p);
    IncludesSelf(p);
    IncludesInfix(Lower(a), p, Lower(b), p);
  }

  /** Each quick suggestion reaches the branch its label announces. */
  lemma QuickSuggestionsRoute()
    ensures Classify(Lower(QuickSuggestions[0])) == ObjectOriented
    ensures Classify(Lower(QuickSuggestions[1])) == Arrays
    ensures Classify(Lower(QuickSuggestions[2])) == Collections
    ensures Classify(Lower(QuickSuggestions[3])) == Debugging
    ensures Classify(Lower(QuickSuggestions[4])) == BestPractices
  {
    RouteObjectOriented();
    RouteArrays();
    RouteCollections();
    RouteDebugging();
    RouteBestPractices();
  }

  // Each fact about a suggestion text gets a lemma of its own, which keeps every proof small.

  lemma RouteObjectOriented()
    ensures Classify(Lower(QuickSuggestions[0])) == ObjectOriented
  {
    FoundAt(QuickSuggestions[0], "Explain ", "Object", "-Oriented Programming", "object");
  }

  lemma RouteArrays()
    ensures Classify(Lower(QuickSuggestions[1])) == Arrays
  {
    ArraysNoObject();
    ArraysNoOop();
    ArraysFound();
  }

  lemma ArraysNoObject() ensures !Includes(Lower(QuickSuggestions[1]), "object") {
    MissingLetter(QuickSuggestions[1], "object", 'j');
  }
  lemma ArraysNoOop() ensures !Includes(Lower(QuickSuggestions[1]), "oop") {
    MissingAcross(QuickSuggestions[1], "Show me array", "examples", "oop", 'p', 'o');
  }
  lemma ArraysFound() ensures Includes(Lower(QuickSuggestions[1]), "array") {
    FoundAt(QuickSuggestions[1], "Show me ", "array", " examples", "array");
  }

  lemma RouteCollections()
    ensures Classify(Lower(QuickSuggestions[2])) == Collections
  {
    CollectionsNoObject();
    CollectionsNoOop();
    CollectionsNoArray();
    CollectionsFound();
  }

  lemma CollectionsNoObject() ensures !Includes(Lower(QuickSuggestions[2]), "object") {
    MissingLetter(QuickSuggestions[2], "object", 'b');
  }
  lemma CollectionsNoOop() ensures !Includes(Lower(QuickSuggestions[2]), "oop") {
    MissingLetter(QuickSuggestions[2], "oop", 'p');
  }
  lemma CollectionsNoArray() ensures !Includes(Lower(QuickSuggestions[2]), "array") {
    MissingLetter(QuickSuggestions[2], "array", 'y');
  }
  lemma CollectionsFound() ensures Includes(Lower(QuickSuggestions[2]), "collection") {
    FoundAt(QuickSuggestions[2], "What are Java ", "collection", "s?", "collection");
  }

  lemma RouteDebugging()
    ensures Classify(Lower(QuickSuggestions[3])) == Debugging
  {
    DebuggingNoObject();
    DebuggingNoOop();
    DebuggingNoArray();
    DebuggingNoCollection();
    DebuggingFound();
  }

  lemma DebuggingNoObject() ensures !Includes(Lower(QuickSuggestions[3]), "object") {
    MissingLetter(QuickSuggestions[3], "object", 'j');
  }
  lemma DebuggingNoOop() ensures !Includes(Lower(QuickSuggestions[3]), "oop") {
    MissingAcross(QuickSuggestions[3], "Help with debugging my", "code", "oop", 'o', 'p');
  }
  lemma DebuggingNoArray() ensures !Includes(Lower(QuickSuggestions[3]), "array") {
    MissingLetter(QuickSuggestions[3], "array", 'r');
  }
  lemma DebuggingNoCollection() ensures !Includes(Lower(QuickSuggestions[3]), "collection") {
    MissingAcross(QuickSuggestions[3], "Help with debugging my", "code", "collection", 'c', 'l');
  }
  lemma DebuggingFound() ensures Includes(Lower(QuickSuggestions[3]), "debug") {
    FoundAt(QuickSuggestions[3], "Help with ", "debug", "ging my code", "debug");
  }

  lemma RouteBestPractices()
    ensures Classify(Lower(QuickSuggestions[4])) == BestPractices
  {
    PracticesNoObject();
    PracticesNoOop();
    PracticesNoArray();
    PracticesNoCollection();
    PracticesNoDebug();
    PracticesNoError();
    PracticesFound();
  }

  lemma PracticesNoObject() ensures !Includes(Lower(QuickSuggestions[4]), "object") {
    MissingAcross(QuickSuggestions[4], "Best practices for", "Java coding", "object", 'j', 'b');
  }
  lemma PracticesNoOop() ensures !Includes(Lower(QuickSuggestions[4]), "oop") {
    MissingAcross(QuickSuggestions[4], "Best practices", "for Java coding", "oop", 'o', 'p');
  }
  lemma PracticesNoArray() ensures !Includes(Lower(QuickSuggestions[4]), "array") {
    MissingLetter(QuickSuggestions[4], "array", 'y');
  }
  lemma PracticesNoCollection() ensures !Includes(Lower(QuickSuggestions[4]), "collection") {
    MissingLetter(QuickSuggestions[4], "collection", 'l');
  }
  lemma PracticesNoDebug() ensures !Includes(Lower(QuickSuggestions[4]), "debug") {
    MissingLetter(QuickSuggestions[4], "debug", 'u');
  }
  lemma PracticesNoError() ensures !Includes(Lower(QuickSuggestions[4]), "error") {
    MissingAcross(QuickSuggestions[4], "Best practices", "for Java coding", "error", 'o', 'e');
  }
  lemma PracticesFound() ensures Includes(Lower(QuickSuggestions[4]), "best practice") {
    FoundAt(QuickSuggestions[4], "", "Best practice", "s for Java coding", "best practice");
  }

  // ---------------------------------------------------------------------------
  // The chat transcript
  // ---------------------------------------------------------------------------

  /** The texts of the user messages of a transcript, in order. */
  function Questions(ms: seq<Message>): (qs: seq<string>)
    ensures |qs| <= |ms|
  {
    if ms == [] then []
    else Questions(ms[..|ms| - 1]) + (if ms[|ms| - 1].UserMessage? then [ms[|ms| - 1].content] else [])
  }

  /** The mentor messages of a transcript, in order. */
  function Replies(ms: seq<Message>): (rs: seq<Message>)
    ensures |rs| <= |ms|
    ensures forall k :: 0 <= k < |rs| ==> rs[k].MentorMessage?
  {
    if ms == [] then []
    else Replies(ms[..|ms| - 1]) + (if ms[|ms| - 1].MentorMessage? then [ms[|ms| - 1]] else [])
  }

  /** No reply runs ahead of the questions: every prefix holds at least as many questions as replies. */
  predicate RepliesFollow(ms: seq<Message>)
  {
    forall j :: 0 <= j <= |ms| ==> |Replies(ms[..j])| <= |Questions(ms[..j])|
  }

  /**
    The conversation after the greeting is consistent: reply k is the dispatcher's answer to
    question k and comes after it, and the questions still waiting are `pending`.
  */
  predicate Answered(ms: seq<Message>, pending: seq<string>)
  {
    var qs, rs := Questions(ms), Replies(ms);
    |rs| + |pending| == |qs| && qs[|rs|..] == pending &&
    (forall k :: 0 <= k < |rs| ==> rs[k] == Respond(qs[k])) &&
    RepliesFollow(ms)
  }

  /** Appending a message keeps every earlier prefix, so the prefix condition only needs the whole new transcript. */
  lemma FollowAppend(ms: seq<Message>, m: Message)
    requires RepliesFollow(ms)
    requires |Replies(ms + [m])| <= |Questions(ms + [m])|
    ensures RepliesFollow(ms + [m])
  {
    var t := ms + [m];
    forall j | 0 <= j <= |t|
      ensures |Replies(t[..j])| <= |Questions(t[..j])|
    {
      if j <= |ms| {
        assert t[..j] == ms[..j];
      } else {
        assert t[..j] == t;
      }
    }
  }

  lemma AppendMessage(ms: seq<Message>, m: Message)
    ensures Questions(ms + [m]) == Questions(ms) + (if m.UserMessage? then [m.content] else [])
    ensures Replies(ms + [m]) == Replies(ms) + (if m.MentorMessage? then [m] else [])
  {
    assert (ms + [m])[..|ms|] == ms;
  }

  /** A consistent conversation opens with a question: no reply can come first. */
  lemma AnsweredStartsWithQuestion(ms: seq<Message>, pending: seq<string>)
    requires Answered(ms, pending) && ms != []
    ensures ms[0].UserMessage?
  {
    var first := ms[..1];
    assert |Replies(first)| <= |Questions(first)|;
    assert first[..0] == [];
  }

  /** Sending a question keeps the conversation consistent, with the question waiting last. */
  lemma AnsweredAfterSend(ms: seq<Message>, pending: seq<string>, content: string)
    requires Answered(ms, pending)
    ensures Answered(ms + [UserMessage(content)], pending + [content])
  {
    AppendMessage(ms, UserMessage(content));
    var qs, rs := Questions(ms), Replies(ms);
    assert (qs + [content])[|rs|..] == qs[|rs|..] + [content];
    FollowAppend(ms, UserMessage(content));
  }

  /** The reply to the oldest waiting question keeps the conversation consistent, with that question answered. */
  lemma AnsweredAfterReply(ms: seq<Message>, pending: seq<string>)
    requires Answered(ms, pending) && pending != []
    ensures Answered(ms + [Respond(pending[0])], pending[1..])
  {
    var m := Respond(pending[0]);
    AppendMessage(ms, m);
    var qs, rs := Questions(ms), Replies(ms);
    assert qs[|rs|] == pending[0];
    assert qs[|rs| + 1..] == pending[1..];
    FollowAppend(ms, m);
  }

  /** No quick suggestion is blank, so clicking one always sends it. */
  lemma SuggestionsNotBlank(i: nat)
    requires i < |QuickSuggestions|
    ensures Trim(QuickSuggestions[i]) != []
  {
    var s := QuickSuggestions[i];
    assert IsUpper(s[0]) by {
      if i == 0 { assert s[0] == 'E'; }
      else if i == 1 { assert s[0] == 'S'; }
      else if i == 2 { assert s[0] == 'W'; }
      else if i == 3 { assert s[0] == 'H'; }
      else { assert s[0] == 'B'; }
    }
    TrimEmptyIff(s);
  }

  /**
    The chat panel's state. Each accepted question starts a reply timer; `pending` holds the
    questions whose timers have not fired yet, oldest first, since timers fire in the order started.
  */
  class MentorChat {
    var messages: seq<Message>
    var input: string
    var isTyping: bool
    var pending: seq<string>

    ghost predicate Valid()
      reads this
    {
      |messages| >= 1 && messages[0] == Greeting &&
      (isTyping ==> pending != []) &&
      Answered(messages[1..], pending)
    }

    constructor()
      ensures Valid()
      ensures messages == [Greeting] && input == [] && !isTyping && pending == []
    {
      messages := [Greeting];
      input := [];
      isTyping := false;
      pending := [];
    }

    /** Typing in the input box. */
    method SetInput(text: string)
      requires Valid()
      modifies this
      ensures Valid() && input == text
      ensures messages == old(messages) && isTyping == old(isTyping) && pending == old(pending)
    {
      input := text;
    }

    /** `sendMessage`: a blank text is ignored; otherwise it is appended as given and its reply timer starts. */
    method Send(content: string)
      requires Valid()
      modifies this
      ensures Valid()
      ensures Trim(content) == [] ==>
        messages == old(messages) && input == old(input) && isTyping == old(isTyping) && pending == old(pending)
      ensures Trim(content) != [] ==>
        messages == old(messages) + [UserMessage(content)] && input == [] && isTyping && pending == old(pending) + [content]
    {
      if Trim(content) == [] {
        return;
      }
      AnsweredAfterSend(messages[1..], pending, content);
      assert (messages + [UserMessage(content)])[1..] == messages[1..] + [UserMessage(content)];
      messages := messages + [UserMessage(content)];
      input := [];
      isTyping := true;
      pending := pending + [content];
    }

    /** The Enter key and the send button both send the input box's text. */
    method SendInput()
      requires Valid()
      modifies this
      ensures Valid()
      ensures Trim(old(input)) == [] ==>
        messages == old(messages) && input == old(input) && isTyping == old(isTyping) && pending == old(pending)
      ensures Trim(old(input)) != [] ==>
        messages == old(messages) + [UserMessage(old(input))] && input == [] && isTyping && pending == old(pending) + [old(input)]
    {
      Send(input);
    }

    /** Clicking a quick suggestion sends its text, which is never blank. */
    method SendSuggestion(i: nat)
      requires Valid() && i < |QuickSuggestions|
      modifies this
      ensures Valid()
      ensures messages == old(messages) + [UserMessage(QuickSuggestions[i])] && input == [] && isTyping
      ensures pending == old(pending) + [QuickSuggestions[i]]
    {
      SuggestionsNotBlank(i);
      Send(QuickSuggestions[i]);
    }

    /** The oldest reply timer fires: the mentor's answer is appended and the typing indicator is cleared. */
    method ResolveReply()
      requires Valid() && pending != []
      modifies this
      ensures Valid()
      ensures messages == old(messages) + [Respond(old(pending)[0])]
      ensures !isTyping && pending == old(pending)[1..] && input == old(input)
    {
      var reply := Respond(pending[0]);
      AnsweredAfterReply(messages[1..], pending);
      assert (messages + [reply])[1..] == messages[1..] + [reply];
      messages := messages + [reply];
      isTyping := false;
      pending := pending[1..];
    }
  }
}
