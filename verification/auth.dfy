/**
  The login/signup form shown while nobody is logged in: the blank-field
  check, `login_user` (POST /login, then GET /history/<username>),
  `signup_user` (POST /signup) and the success/failure branch that follows.
 */
module Auth {
  import opened Backend
  import opened SessionState

  datatype Mode = Login | Signup

  const GenericAuthFailure: string := "Authentication failed."

  /** `err or "Authentication failed."`: an absent or empty backend message falls back to the generic one. */
  function FailureMessage(error: Field<string>): (m: string)
    ensures m != ""
    ensures error.Present? && error.value != "" ==> m == error.value
    ensures !(error.Present? && error.value != "") ==> m == GenericAuthFailure
  {
    match error
    case Present(e) => if e != "" then e else GenericAuthFailure
    case Missing => GenericAuthFailure
  }

  /** The persisted records mapped to document turns, a missing paragraph list read as empty. */
  function HistoryTurns(records: seq<HistoryRecord>): (turns: seq<DocTurn>)
    ensures |turns| == |records|
    ensures forall i :: 0 <= i < |records| ==>
      turns[i] == DocTurn(records[i].question, records[i].answer, records[i].matchedParagraphs.GetOr([]))
  {
    if records == [] then []
    else
      var r := records[0];
      [DocTurn(r.question, r.answer, r.matchedParagraphs.GetOr([]))] + HistoryTurns(records[1..])
  }

  /**
    The "Continue" button with the given mode and field contents. `auth` is the
    reply to POST /login or /signup; `history` is the reply to
    GET /history/<username>, consulted only after a successful login. An
    exception from either request is not caught, so the run ends and the state
    is left as it was.
   */
  function Authenticate(s: State, mode: Mode, uname: string, pwd: string,
                        auth: Response<ErrorBody>, history: Response<seq<HistoryRecord>>): (out: (State, Notice))
    // blank input changes nothing
    ensures uname == "" || pwd == "" ==> out == (s, MissingCredentials)
    // success: logged in under the typed name; chat log and selection untouched
    ensures out.1.Welcome? <==>
      uname != "" && pwd != "" && auth.Http? && auth.status == 200 && (mode.Login? ==> history.Http?)
    ensures out.1.Welcome? ==>
      && out.0.loggedIn && out.0.username == uname && out.1.user == uname
      && out.0.geminiHistory == s.geminiHistory && out.0.selected == s.selected
    // only a login whose history fetch answered 200 replaces the document log
    ensures out.1.Welcome? && mode.Login? && history.status == 200 ==>
      out.0.qaHistory == HistoryTurns(history.body)
    ensures out.1.Welcome? && (mode.Signup? || history.status != 200) ==>
      out.0.qaHistory == s.qaHistory
    // every other outcome leaves the state exactly as it was
    ensures !out.1.Welcome? ==> out.0 == s
    ensures out.1.AuthFailed? ==> out.1.message != "" && auth.Http? && auth.status != 200
    // the message each unsuccessful outcome shows
    ensures uname != "" && pwd != "" && auth.Http? && auth.status != 200 ==>
      out.1 == AuthFailed(FailureMessage(auth.body.error))
    ensures uname != "" && pwd != "" && auth.Raised? ==> out.1 == Aborted(auth.reason)
    ensures uname != "" && pwd != "" && mode.Login? && auth.Http? && auth.status == 200 && history.Raised? ==>
      out.1 == Aborted(history.reason)
  {
    if uname == "" || pwd == "" then (s, MissingCredentials)
    else
      match auth
      case Raised(e) => (s, Aborted(e))
      case Http(status, body) =>
        if status != 200 then (s, AuthFailed(FailureMessage(body.error)))
        else if mode.Signup? then (s.(loggedIn := true, username := uname), Welcome(uname))
        else
          match history
          case Raised(e) => (s, Aborted(e))
          case Http(hstatus, records) =>
            var qa := if hstatus == 200 then HistoryTurns(records) else s.qaHistory;
            (s.(loggedIn := true, username := uname, qaHistory := qa), Welcome(uname))
  }

  /** A failed or aborted attempt from a logged-out state leaves it logged out. */
  lemma FailureStaysLoggedOut(s: State, mode: Mode, uname: string, pwd: string,
                              auth: Response<ErrorBody>, history: Response<seq<HistoryRecord>>)
    requires !s.loggedIn
    ensures var out := Authenticate(s, mode, uname, pwd, auth, history);
      !out.1.Welcome? ==> !out.0.loggedIn
  {
  }

  /** A signup that succeeds logs the user in without fetching any history. */
  lemma SignupDoesNotFetchHistory(s: State, uname: string, pwd: string, auth: Response<ErrorBody>,
                                  h1: Response<seq<HistoryRecord>>, h2: Response<seq<HistoryRecord>>)
    ensures Authenticate(s, Signup, uname, pwd, auth, h1) == Authenticate(s, Signup, uname, pwd, auth, h2)
  {
  }
}
