/** The one rule of the browser client that touches the server's data: after
    the first turn of a session, the session is renamed after the prompt. */
module Client {
  import opened Common
  import opened JsString
  import Server

  /** How many characters of the prompt become the title. */
  const TitleLength: nat := 50

  /** `s.slice(0, n)`. */
  function Slice(s: string, n: nat): (r: string)
    ensures |r| == if |s| < n then |s| else n
    ensures r == s[..|r|]
  {
    if |s| <= n then s else s[..n]
  }

  /** The rename the client asks for once a send succeeds: only when the
      returned transcript holds exactly the two messages of this turn. */
  function AutoTitle(transcript: seq<Entry>, prompt: string): (r: Option<string>)
    ensures r.Some? <==> |transcript| == 2
    ensures r.Some? ==> |r.value| <= TitleLength && |r.value| <= |prompt| && r.value == prompt[..|r.value|]
    ensures r.Some? && |prompt| >= TitleLength ==> |r.value| == TitleLength
    ensures r.Some? && |prompt| < TitleLength ==> r.value == prompt
  {
    if |transcript| == 2 then Some(Slice(prompt, TitleLength)) else None
  }

  /** The client sends the trimmed input, and only when it is not blank;
      such a request passes the server's validation. */
  lemma ClientSendAccepted(sessionId: string, input: string)
    requires |sessionId| > 0 && !AllWhitespace(input)
    ensures Server.ValidChat(Some(sessionId), Some(Trim(input)))
  {
    TrimEmptyIff(input);
    TrimSpec(input);
    assert !IsWhitespace(Trim(input)[0]);
  }

  /** The automatic rename never hits the "Title is required." rejection: a
      prefix of a non-blank trimmed prompt starts with a character that is
      not whitespace. */
  lemma AutoTitleAccepted(transcript: seq<Entry>, input: string)
    requires !AllWhitespace(input) && |transcript| == 2
    ensures |Server.RenameTitle(AutoTitle(transcript, Trim(input)))| > 0
  {
    var prompt := Trim(input);
    TrimEmptyIff(input);
    TrimSpec(input);
    var title := AutoTitle(transcript, prompt).value;
    assert title[0] == prompt[0];
    assert !IsWhitespace(title[0]);
  }
}
