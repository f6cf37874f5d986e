/** `ChatService`: the demo-mode responder. The reply is chosen from the most
    recent user message alone, by case-insensitive keyword containment over
    four topic buckets tried in a fixed order. */
module ChatService {
  import opened Common
  import opened JsString

  /** The four keyword buckets, in priority order, and the fallback. */
  datatype Topic = Portfolio | Debugging | Backend | Interview | General

  /** Position in the order the buckets are tried; the fallback comes last. */
  function Rank(t: Topic): nat {
    match t
    case Portfolio => 0
    case Debugging => 1
    case Backend => 2
    case Interview => 3
    case General => 4
  }

  function Keywords(t: Topic): seq<string> {
    match t
    case Portfolio => ["resume", "project", "portfolio", "linkedin"]
    case Debugging => ["bug", "error", "debug", "traceback", "crash"]
    case Backend => ["api", "backend", "database", "sql", "schema"]
    case Interview => ["interview", "behavioral", "leetcode"]
    case General => []
  }

  /** `kws[0] || kws[1] || ...` of `text.includes(kw)`. */
  function IncludesAny(text: string, kws: seq<string>): (r: bool)
    ensures r <==> exists i :: 0 <= i < |kws| && Includes(text, kws[i])
  {
    if kws == [] then false
    else if Includes(text, kws[0]) then true
    else
      var rest := IncludesAny(text, kws[1..]);
      assert forall i :: 1 <= i < |kws| ==> kws[i] == kws[1..][i - 1];
      rest
  }

  predicate Matches(text: string, t: Topic) {
    IncludesAny(text, Keywords(t))
  }

  /** `t` is the bucket the chain of `if`s picks for `text`: it matches (or is
      the fallback) and no bucket tried before it matches. */
  ghost predicate Selects(text: string, t: Topic) {
    && (t == General || Matches(text, t))
    && (Rank(Portfolio) < Rank(t) ==> !Matches(text, Portfolio))
    && (Rank(Debugging) < Rank(t) ==> !Matches(text, Debugging))
    && (Rank(Backend) < Rank(t) ==> !Matches(text, Backend))
    && (Rank(Interview) < Rank(t) ==> !Matches(text, Interview))
  }

  function Classify(text: string): (t: Topic)
    ensures Selects(text, t)
  {
    if Matches(text, Portfolio) then Portfolio
    else if Matches(text, Debugging) then Debugging
    else if Matches(text, Backend) then Backend
    else if Matches(text, Interview) then Interview
    else General
  }

  /** At most one bucket is selected for a text. */
  lemma SelectsUnique(text: string, t: Topic, u: Topic)
    requires Selects(text, t) && Selects(text, u)
    ensures t == u
  {
  }

  /** The first line of each canned block. The longer lines are written as
      two concatenated literals; the text is the same, and the verifier can
      take sub-ranges of a short literal without expanding the whole line. */
  function Heading(t: Topic): string {
    match t
    case Portfolio => "For portfolio/resume writing, " + "I can help with:"
    case Debugging => "Debug workflow:"
    case Backend => "Backend/API checklist:"
    case Interview => "I can help with " + "interview prep in demo mode:"
    case General => "Demo mode is active." + " You can ask me to help with:"
  }

  /** The lines after the heading in each canned block. */
  function Details(t: Topic): seq<string> {
    match t
    case Portfolio => [
      "1) Bullet rewrites (impact-first)",
      "2) Project summaries (short or ATS-friendly)",
      "3) STAR-style interview talking points",
      "",
      "Quick tip: Lead with action + tech + measurable outcome."]
    case Debugging => [
      "1) Reproduce the issue consistently",
      "2) Isolate the smallest failing case",
      "3) Inspect logs/stack trace",
      "4) Patch root cause",
      "5) Re-test and add a regression test"]
    case Backend => [
      "- Define endpoints and request/response contracts",
      "- Validate inputs and handle errors cleanly",
      "- Design DB schema + indexes",
      "- Add auth/authorization as needed",
      "- Add integration tests for critical flows"]
    case Interview => [
      "- Behavioral answers (STAR)",
      "- Project walkthrough scripts",
      "- Technical explanation practice",
      "- Study plans for coding interviews"]
    case General => [
      "- Resume/project bullets",
      "- Debugging steps for an error",
      "- API/backend design ideas",
      "- Interview prep and project walkthroughs",
      "",
      "Try prompts like:",
      "\"Rewrite this resume bullet for backend SWE roles\"",
      "\"Help me debug this Python error: ...\"",
      "\"Design a simple REST API for a task tracker\""]
  }

  /** The lines of each canned block, joined with `'\n'` into the reply. */
  function Block(t: Topic): seq<string> {
    [Heading(t)] + Details(t)
  }

  function ReplyText(t: Topic): (r: string)
    ensures |Heading(t)| <= |r| && r[..|Heading(t)|] == Heading(t)
  {
    JoinStartsWithFirst(Block(t), "\n");
    Join(Block(t), "\n")
  }

  /** Which bucket a reply came from. This decoder is not part of the
      service: it exists to prove that the five blocks differ, and the first
      and third characters of the headings are enough to tell them apart. */
  function TopicOf(reply: string): Topic {
    if |reply| < 3 then General
    else if reply[0] == 'F' then Portfolio
    else if reply[0] == 'B' then Backend
    else if reply[0] == 'I' then Interview
    else if reply[2] == 'b' then Debugging
    else General
  }

  /** A reply that opens with the heading of `t` is read back as `t`. */
  lemma TopicOfPrefix(reply: string, t: Topic)
    requires |Heading(t)| <= |reply| && reply[..|Heading(t)|] == Heading(t)
    ensures TopicOf(reply) == t
  {
    HeadingTopic(t);
    var h := Heading(t);
    assert reply[..|h|][0] == reply[0] && reply[..|h|][2] == reply[2];
  }

  lemma HeadingNonEmpty(t: Topic)
    ensures |Heading(t)| > 0
  {
    match t
    case Portfolio =>
    case Debugging =>
    case Backend =>
    case Interview =>
    case General =>
  }

  lemma HeadingTopic(t: Topic)
    ensures TopicOf(Heading(t)) == t
  {
    match t
    case Portfolio =>
    case Debugging =>
    case Backend =>
    case Interview =>
    case General =>
  }

  /** The bucket can be read back from its reply. */
  lemma {:induction false} ReplyTextTopic(t: Topic)
    ensures TopicOf(ReplyText(t)) == t
  {
    TopicOfPrefix(ReplyText(t), t);
  }

  /** Different buckets give different replies. */
  lemma ReplyTextInjective(t: Topic, u: Topic)
    requires ReplyText(t) == ReplyText(u)
    ensures t == u
  {
    ReplyTextTopic(t);
    ReplyTextTopic(u);
  }

  /** `[...messages].reverse().find((m) => m.role === 'user')?.content || ''`. */
  function LastUserContent(messages: seq<Entry>): (r: string)
    ensures (forall i :: 0 <= i < |messages| ==> messages[i].role != User) ==> r == ""
    ensures forall i ::
      (0 <= i < |messages| && messages[i].role == User && forall j :: i < j < |messages| ==> messages[j].role != User)
      ==> r == messages[i].content
  {
    if messages == [] then ""
    else
      var last := messages[|messages| - 1];
      var init := messages[..|messages| - 1];
      if last.role == User then last.content
      else
        assert forall i :: 0 <= i < |init| ==> init[i] == messages[i];
        LastUserContent(init)
  }

  /** The text the buckets are tested against. */
  function PromptText(messages: seq<Entry>): string {
    Lower(LastUserContent(messages))
  }

  /** `ChatService.demoReply`: always one of the five canned blocks, never empty. */
  function DemoReply(messages: seq<Entry>): (r: string)
    ensures exists t :: r == ReplyText(t)
    ensures |r| > 0
  {
    var t := Classify(PromptText(messages));
    HeadingNonEmpty(t);
    ReplyText(t)
  }

  /** `ChatService.reply`: whatever provider the service was built with and
      whatever options accompany the call, the reply is the demo reply. */
  function Reply(provider: string, messages: seq<Entry>, model: string, maxTokens: int): (r: string)
    ensures r == DemoReply(messages)
  {
    DemoReply(messages)
  }

  /** The reply is the block of bucket `t` exactly when `t` is the first bucket
      (in priority order) with a keyword in the lower-cased latest user message,
      or `t` is the fallback and no bucket has one. */
  lemma DemoReplyIff(messages: seq<Entry>, t: Topic)
    ensures DemoReply(messages) == ReplyText(t) <==> Selects(PromptText(messages), t)
  {
    var text := PromptText(messages);
    if DemoReply(messages) == ReplyText(t) {
      ReplyTextInjective(Classify(text), t);
    }
    if Selects(text, t) {
      SelectsUnique(text, Classify(text), t);
    }
  }

  /** The fallback is selected exactly when no keyword of any bucket occurs. */
  lemma SelectsGeneralIff(text: string)
    ensures Selects(text, General) <==>
      forall t, i :: 0 <= i < |Keywords(t)| ==> !Includes(text, Keywords(t)[i])
  {
    if Selects(text, General) {
      forall t, i | 0 <= i < |Keywords(t)| ensures !Includes(text, Keywords(t)[i]) {
        match t
        case Portfolio =>
        case Debugging =>
        case Backend =>
        case Interview =>
        case General =>
      }
    } else {
      assert Matches(text, Portfolio) || Matches(text, Debugging) || Matches(text, Backend) || Matches(text, Interview);
    }
  }

  /** The fallback block is given exactly when no keyword of any bucket
      occurs in the lower-cased latest user message. */
  lemma GeneralWhenNoKeyword(messages: seq<Entry>)
    ensures DemoReply(messages) == ReplyText(General) <==>
      forall t, i :: 0 <= i < |Keywords(t)| ==> !Includes(PromptText(messages), Keywords(t)[i])
  {
    DemoReplyIff(messages, General);
    SelectsGeneralIff(PromptText(messages));
  }

  /** The fallback heading begins "Demo mode is active". The topic is a
      parameter, fixed to the fallback by the requires, so that callers
      holding a symbolic topic do not expand every heading literal. */
  lemma FallbackHeadingOpening(t: Topic)
    requires t == General
    ensures |Heading(t)| >= 19 && Heading(t)[..19] == "Demo mode is active"
  {
  }

  /** With no keyword of any bucket in the lower-cased latest user message,
      the reply opens with "Demo mode is active". */
  lemma GeneralOpening(messages: seq<Entry>)
    requires forall t, i :: 0 <= i < |Keywords(t)| ==> !Includes(PromptText(messages), Keywords(t)[i])
    ensures |DemoReply(messages)| >= 19 && DemoReply(messages)[..19] == "Demo mode is active"
  {
    var text := PromptText(messages);
    SelectsGeneralIff(text);
    var t := Classify(text);
    SelectsUnique(text, t, General);
    FallbackReplyOpening(t, DemoReply(messages));
  }

  /** A reply that opens with the fallback heading opens with "Demo mode is active". */
  lemma FallbackReplyOpening(t: Topic, r: string)
    requires t == General && |Heading(t)| <= |r| && r[..|Heading(t)|] == Heading(t)
    ensures |r| >= 19 && r[..19] == "Demo mode is active"
  {
    FallbackHeadingOpening(t);
    assert r[..19] == r[..|Heading(t)|][..19];
  }

  /** Empty context: no user message, so the reply is the fallback block. */
  lemma EmptyContextIsGeneral()
    ensures DemoReply([]) == ReplyText(General)
  {
    var text := PromptText([]);
    assert text == "";
    forall t | t != General ensures !Matches(text, t) {
      forall i | 0 <= i < |Keywords(t)| ensures !Includes(text, Keywords(t)[i]) {
        assert |Keywords(t)[i]| > 0;
      }
    }
    assert Classify(text) == General;
  }

  /** Assistant messages after the latest user message do not change the reply. */
  lemma AssistantMessagesIgnored(messages: seq<Entry>, content: string)
    ensures DemoReply(messages + [Entry(Assistant, content)]) == DemoReply(messages)
  {
    var longer := messages + [Entry(Assistant, content)];
    assert longer[..|messages|] == messages;
    assert LastUserContent(longer) == LastUserContent(messages);
  }

  /** Once the user speaks, everything before it is ignored. */
  lemma OnlyLatestUserMessage(messages: seq<Entry>, content: string)
    ensures DemoReply(messages + [Entry(User, content)]) == DemoReply([Entry(User, content)])
  {
    assert LastUserContent(messages + [Entry(User, content)]) == content;
    assert LastUserContent([Entry(User, content)]) == content;
  }

  /** Matching is case-insensitive: lower-casing the latest message first
      does not change the reply. */
  lemma CaseInsensitive(messages: seq<Entry>, content: string)
    ensures DemoReply(messages + [Entry(User, Lower(content))]) == DemoReply(messages + [Entry(User, content)])
  {
    OnlyLatestUserMessage(messages, Lower(content));
    OnlyLatestUserMessage(messages, content);
    LowerIsLowerCase(content);
    LowerIsLowerCase(Lower(content));
    assert LastUserContent([Entry(User, Lower(content))]) == Lower(content);
    assert LastUserContent([Entry(User, content)]) == content;
  }

  /** A keyword that occurs in the message as written still matches after lower-casing. */
  lemma KeywordAsWrittenMatches(messages: seq<Entry>, t: Topic, i: nat)
    requires i < |Keywords(t)| && Includes(LastUserContent(messages), Keywords(t)[i])
    ensures Matches(PromptText(messages), t)
  {
    var kw := Keywords(t)[i];
    KeywordsLowerCase(t);
    LowerKeepsMatch(LastUserContent(messages), kw);
    assert Includes(PromptText(messages), Keywords(t)[i]);
  }

  /** Every keyword is written in lower case. */
  lemma KeywordsLowerCase(t: Topic)
    ensures forall i :: 0 <= i < |Keywords(t)| ==> IsLowerCase(Keywords(t)[i])
  {
    match t
    case Portfolio =>
    case Debugging =>
    case Backend =>
    case Interview =>
    case General =>
  }

  /** A message that mentions both "resume" and "error" gets the portfolio block:
      the portfolio bucket is tried before the debugging one. */
  lemma PortfolioBeforeDebugging(messages: seq<Entry>)
    requires Includes(PromptText(messages), "resume") && Includes(PromptText(messages), "error")
    ensures DemoReply(messages) == ReplyText(Portfolio)
  {
    assert Keywords(Portfolio)[0] == "resume";
  }

  /** The prompt of the first unit test, "How should I show this on my
      resume?", gets the portfolio block. */
  lemma ResumePromptExample()
    ensures DemoReply([Entry(User, "How should I show this on my " + "resume?")]) == ReplyText(Portfolio)
  {
    var head := "How should I show this on my ";
    var c := head + "resume?";
    var m := [Entry(User, c)];
    var text := PromptText(m);
    assert LastUserContent(m) == c;
    assert |head| == 29;
    forall k | 0 <= k < 6 ensures text[29 + k] == "resume"[k] {
      assert c[29 + k] == "resume?"[k];
      assert text[29 + k] == LowerChar(c[29 + k]);
    }
    assert text[29..35] == "resume";
    assert OccursAt(text, Keywords(Portfolio)[0], 29);
    assert Matches(text, Portfolio);
    DemoReplyIff(m, Portfolio);
  }

  /** The prompt of the second unit test gets the fallback block. */
  lemma HelloPromptExample()
    ensures |DemoReply([Entry(User, "hello")])| >= 19 && DemoReply([Entry(User, "hello")])[..19] == "Demo mode is active"
  {
    var m := [Entry(User, "hello")];
    assert LastUserContent(m) == "hello";
    assert PromptText(m) == "hello";
    NoKeywordInHello();
    GeneralOpening(m);
  }

  /** Every keyword has a character that "hello" lacks. */
  lemma NoKeywordInHello()
    ensures forall t, i :: 0 <= i < |Keywords(t)| ==> !Includes("hello", Keywords(t)[i])
  {
    forall t, i | 0 <= i < |Keywords(t)| ensures !Includes("hello", Keywords(t)[i]) {
      var kw := Keywords(t)[i];
      match t
      case Portfolio =>
        var k := if i == 3 then 1 else 0;
        assert kw[k] !in "hello";
        AbsentChar("hello", kw, k);
      case Debugging =>
        var k := if i == 1 then 1 else 0;
        assert kw[k] !in "hello";
        AbsentChar("hello", kw, k);
      case Backend =>
        assert kw[0] !in "hello";
        AbsentChar("hello", kw, 0);
      case Interview =>
        var k := if i == 2 then 3 else 0;
        assert kw[k] !in "hello";
        AbsentChar("hello", kw, k);
      case General =>
    }
  }
}
