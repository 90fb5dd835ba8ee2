/**
  The replies the StudyMate client receives from its backend service, as the
  client sees them after `requests` returns (or raises). The HTTP calls
  themselves are not modelled: every operation takes the reply as a parameter.
 */
module Backend {

  /** A key of a JSON object that may be absent; `GetOr` is Python's `dict.get(key, default)` for a key that is absent or holds a non-null value. */
  datatype Field<+T> = Missing | Present(value: T) {
    function GetOr(default: T): T {
      match this
      case Missing => default
      case Present(v) => v
    }
  }

  /** What a `requests` call yields: a status code with a decoded body, or a raised exception. */
  datatype Response<+B> = Http(status: int, body: B) | Raised(reason: string)

  /** Body of a /login or /signup reply; only its "error" key is read. */
  datatype ErrorBody = ErrorBody(error: Field<string>)

  /** One persisted record of GET /history/<username>. */
  datatype HistoryRecord = HistoryRecord(question: string, answer: string, matchedParagraphs: Field<seq<string>>)

  /** Body of a POST /ask reply. */
  datatype AskBody = AskBody(answer: Field<string>, matchedParagraphs: Field<seq<string>>)

  /** Body of a POST /gemini_chat reply. */
  datatype ChatBody = ChatBody(response: Field<string>)
}
