/**
  The "Ask a Question" form: a non-blank question is sent to POST /ask and
  only a 200 reply changes the session; 404 and every other outcome only
  produce a message.
 */
module Questions {
  import opened Backend
  import opened SessionState
  import Text

  const DefaultAnswer: string := "No answer found."

  /** The turn a 200 reply produces; the stored question is the raw input, not the stripped one. */
  function AnsweredTurn(question: string, body: AskBody): (d: DocTurn)
    ensures d.question == question
    ensures body.answer.Missing? ==> d.answer == DefaultAnswer
    ensures body.answer.Present? ==> d.answer == body.answer.value
    ensures body.matchedParagraphs.Missing? ==> d.refs == []
    ensures body.matchedParagraphs.Present? ==> d.refs == body.matchedParagraphs.value
  {
    DocTurn(question, body.answer.GetOr(DefaultAnswer), body.matchedParagraphs.GetOr([]))
  }

  function Ask(s: State, question: string, reply: Response<AskBody>): (out: (State, Notice))
    // a 200 reply appends exactly one turn and selects that same turn
    ensures !Text.Blank(question) && reply.Http? && reply.status == 200 ==>
      var d := AnsweredTurn(question, reply.body);
      && out.0.qaHistory == s.qaHistory + [d]
      && out.0.selected == Some(DocSelection(d))
      && out.0.loggedIn == s.loggedIn && out.0.username == s.username
      && out.0.geminiHistory == s.geminiHistory
    // blank input, 404, any other status and an exception leave the state alone
    ensures Text.Blank(question) || reply.Raised? || reply.status != 200 ==> out.0 == s
    ensures out.1 == NoAnswer <==> !Text.Blank(question) && reply.Http? && reply.status == 404
    ensures out.1 == BackendError <==>
      !Text.Blank(question) && reply.Http? && reply.status != 200 && reply.status != 404
    ensures out.1.RequestFailed? <==> !Text.Blank(question) && reply.Raised?
    ensures !Text.Blank(question) && reply.Raised? ==> out.1 == RequestFailed(reply.reason)
    // nothing is shown for blank input, and a 200 reply reruns the script at once
    ensures Text.Blank(question) || (reply.Http? && reply.status == 200) ==> out.1 == Quiet
  {
    Text.StripEmptyIffBlank(question);
    if Text.Strip(question) == [] then (s, Quiet)
    else
      match reply
      case Raised(e) => (s, RequestFailed(e))
      case Http(status, body) =>
        if status == 200 then
          var d := AnsweredTurn(question, body);
          (s.(qaHistory := s.qaHistory + [d], selected := Some(DocSelection(d))), Quiet)
        else if status == 404 then (s, NoAnswer)
        else (s, BackendError)
  }

  /** A 404 reply to a non-blank question leaves the document log length unchanged. */
  lemma NotFoundKeepsHistory(s: State, question: string, body: AskBody)
    requires !Text.Blank(question)
    ensures |Ask(s, question, Http(404, body)).0.qaHistory| == |s.qaHistory|
    ensures Ask(s, question, Http(404, body)).1 == NoAnswer
  {
  }
}
