/**
  The chatbot form: every non-blank submission appends exactly one
  (prompt, reply) pair to the chat log whatever the backend does, and never
  changes the selected turn.
 */
module Chat {
  import opened Backend
  import opened SessionState
  import Text

  const NoResponse: string := "No response."
  const ApiError: string := "Error from Gemini API."
  const ErrorPrefix: string := "Error: "

  /** The reply text recorded for a chat request: the backend's, or a synthesised error message. */
  function ReplyText(reply: Response<ChatBody>): (t: string)
    ensures reply.Raised? || reply.status != 200 ==> t != ""
    ensures reply.Http? && reply.status == 200 && reply.body.response.Present? ==> t == reply.body.response.value
    ensures reply.Http? && reply.status == 200 && reply.body.response.Missing? ==> t == NoResponse
    ensures reply.Http? && reply.status != 200 ==> t == ApiError
    ensures reply.Raised? ==> t == ErrorPrefix + reply.reason && ErrorPrefix <= t
  {
    match reply
    case Raised(e) => ErrorPrefix + e
    case Http(status, body) =>
      if status == 200 then
        match body.response
        case Present(r) => r
        case Missing => NoResponse
      else ApiError
  }

  function SendChat(s: State, prompt: string, reply: Response<ChatBody>): (r: State)
    ensures Text.Blank(prompt) ==> r == s
    ensures !Text.Blank(prompt) ==>
      && r.geminiHistory == s.geminiHistory + [ChatTurn(prompt, ReplyText(reply))]
      && r.qaHistory == s.qaHistory && r.selected == s.selected
      && r.loggedIn == s.loggedIn && r.username == s.username
  {
    Text.StripEmptyIffBlank(prompt);
    if Text.Strip(prompt) == [] then s
    else s.(geminiHistory := s.geminiHistory + [ChatTurn(prompt, ReplyText(reply))])
  }

  /** Every non-blank submission grows the chat log by exactly one, success or failure. */
  lemma ChatGrowsByOne(s: State, prompt: string, reply: Response<ChatBody>)
    requires !Text.Blank(prompt)
    ensures |SendChat(s, prompt, reply).geminiHistory| == |s.geminiHistory| + 1
    ensures SendChat(s, prompt, reply).geminiHistory[|s.geminiHistory|].prompt == prompt
  {
  }

  /** "2+2?" with a transport error: one more turn, whose reply carries the error prefix. */
  lemma TransportErrorScenario(s: State, reason: string)
    ensures var r := SendChat(s, "2+2?", Raised(reason));
      && |r.geminiHistory| == |s.geminiHistory| + 1
      && r.geminiHistory[|s.geminiHistory|] == ChatTurn("2+2?", ErrorPrefix + reason)
      && r.selected == s.selected
  {
  }
}
