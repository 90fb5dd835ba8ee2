/**
  The client's session record (Streamlit's `st.session_state`), its initial
  value and the logout reset, plus the user-visible messages an interaction
  can produce. Chat history is treated as always present: the source creates
  it lazily when the chatbot toggle is first switched on, and an absent list
  reads as an empty one everywhere it is consulted.
 */
module SessionState {

  datatype Option<+T> = None | Some(value: T)

  /** One answered document question: (question, answer, matched paragraphs). */
  datatype DocTurn = DocTurn(question: string, answer: string, refs: seq<string>)

  /** One chat exchange: (prompt, reply). */
  datatype ChatTurn = ChatTurn(prompt: string, reply: string)

  /** The turn shown in the main panel; `refs` is `None` for a chat turn. */
  datatype Selection = Selection(question: string, answer: string, refs: Option<seq<string>>)

  datatype State = State(
    loggedIn: bool,
    username: string,
    qaHistory: seq<DocTurn>,
    geminiHistory: seq<ChatTurn>,
    selected: Option<Selection>)

  /** What one interaction shows the user besides the state it leaves behind. */
  datatype Notice =
    | Quiet                       // nothing, or an immediate rerun
    | MissingCredentials          // blank username or password
    | Welcome(user: string)       // authentication succeeded
    | AuthFailed(message: string) // the backend's "error", or a generic phrase
    | Aborted(reason: string)     // an uncaught exception ended the script run
    | NoAnswer                    // /ask answered 404: upload documents first
    | BackendError                // /ask answered another non-200 status
    | RequestFailed(reason: string) // /ask raised

  function DocSelection(d: DocTurn): Selection {
    Selection(d.question, d.answer, Some(d.refs))
  }

  function ChatSelection(c: ChatTurn): Selection {
    Selection(c.prompt, c.reply, None)
  }

  /** The state a fresh session starts in. */
  function Init(): (s: State)
    ensures !s.loggedIn && s.username == ""
    ensures s.qaHistory == [] && s.geminiHistory == [] && s.selected == None
  {
    State(false, "", [], [], None)
  }

  /** The logout button: every field back to its initial value. */
  function Logout(s: State): (r: State)
    ensures !r.loggedIn && r.username == ""
    ensures r.qaHistory == [] && r.geminiHistory == [] && r.selected == None
  {
    State(false, "", [], [], None)
  }

  /** Logging out yields exactly the state of a fresh session, whatever came before. */
  lemma LogoutIsInit(s: State)
    ensures Logout(s) == Init()
  {
  }
}
