/**
  One run of the script in response to one user interaction. While nobody is
  logged in only the authentication form is rendered and the run stops after
  it; once logged in, the sidebar (logout, history buttons), the question form
  and the chatbot form are reachable, and the authentication form is not.
 */
module App {
  import opened Backend
  import opened SessionState
  import Auth
  import Questions
  import Chat
  import History

  datatype Event =
    | Continue(mode: Auth.Mode, uname: string, pwd: string,
               auth: Response<ErrorBody>, history: Response<seq<HistoryRecord>>)
    | LogoutClick
    | HistoryClick(index: nat)
    | AskSubmit(question: string, askReply: Response<AskBody>)
    | ChatSubmit(prompt: string, chatReply: Response<ChatBody>)

  function Step(s: State, e: Event): (out: (State, Notice))
    // the gate: logged out, only the authentication form reacts
    ensures !s.loggedIn && !e.Continue? ==> out == (s, Quiet)
    // logged in, the authentication form is not on the page
    ensures s.loggedIn && e.Continue? ==> out == (s, Quiet)
    ensures s.loggedIn && e.LogoutClick? ==> out.0 == Init()
  {
    if !s.loggedIn then
      match e
      case Continue(mode, uname, pwd, auth, history) => Auth.Authenticate(s, mode, uname, pwd, auth, history)
      case _ => (s, Quiet)
    else
      match e
      case Continue(_, _, _, _, _) => (s, Quiet)
      case LogoutClick => (Logout(s), Quiet)
      case HistoryClick(i) =>
        if i < |s.geminiHistory| + |s.qaHistory| then (History.Select(s, i), Quiet) else (s, Quiet)
      case AskSubmit(q, reply) => Questions.Ask(s, q, reply)
      case ChatSubmit(p, reply) => (Chat.SendChat(s, p, reply), Quiet)
  }

  /** The selected turn, if any, is a copy of a turn in one of the two logs. */
  predicate SelectionFromLogs(s: State) {
    || s.selected.None?
    || (exists j :: 0 <= j < |s.qaHistory| && s.selected.value == DocSelection(s.qaHistory[j]))
    || (exists j :: 0 <= j < |s.geminiHistory| && s.selected.value == ChatSelection(s.geminiHistory[j]))
  }

  /** Logged out means exactly the initial state; logged in means under a non-empty name. */
  predicate Wellformed(s: State) {
    && (s.loggedIn ==> s.username != "")
    && (!s.loggedIn ==> s == Init())
    && SelectionFromLogs(s)
  }

  lemma {:induction false} StepPreservesWellformed(s: State, e: Event)
    requires Wellformed(s)
    ensures Wellformed(Step(s, e).0)
  {
    var s' := Step(s, e).0;
    if s.loggedIn {
      match e
      case HistoryClick(i) =>
        if i < |s.geminiHistory| + |s.qaHistory| {
          var g, qa := s.geminiHistory, s.qaHistory;
          if i < |g| {
            assert s'.selected.value == ChatSelection(s'.geminiHistory[|g| - 1 - i]);
          } else {
            assert s'.selected.value == DocSelection(s'.qaHistory[|qa| - 1 - (i - |g|)]);
          }
        }
      case AskSubmit(q, reply) =>
        if s'.qaHistory != s.qaHistory {
          assert s'.selected.value == DocSelection(s'.qaHistory[|s.qaHistory|]);
        }
      case ChatSubmit(p, reply) =>
        if s'.selected.Some? {
          if j :| 0 <= j < |s.qaHistory| && s.selected.value == DocSelection(s.qaHistory[j]) {
            assert s'.selected.value == DocSelection(s'.qaHistory[j]);
          } else {
            var j :| 0 <= j < |s.geminiHistory| && s.selected.value == ChatSelection(s.geminiHistory[j]);
            assert s'.selected.value == ChatSelection(s'.geminiHistory[j]);
          }
        }
      case _ =>
    }
  }

  /** Logged in, every interaction but logout only appends to the two logs. */
  lemma AppendOnly(s: State, e: Event)
    requires s.loggedIn && !e.LogoutClick?
    ensures s.qaHistory <= Step(s, e).0.qaHistory
    ensures s.geminiHistory <= Step(s, e).0.geminiHistory
    ensures Step(s, e).0.loggedIn && Step(s, e).0.username == s.username
  {
  }

  /** A successful login from a logged-out session starts with an empty chat log and no selection. */
  lemma LoginStartsClean(s: State, e: Event)
    requires Wellformed(s) && !s.loggedIn
    requires e.Continue? && Step(s, e).1.Welcome?
    ensures Step(s, e).0.loggedIn && Step(s, e).0.username == e.uname
    ensures Step(s, e).0.geminiHistory == [] && Step(s, e).0.selected == None
  {
  }

  /** alice logs in and the backend holds one record: the document log is that record, the chat log is empty. */
  lemma LoginScenario()
    ensures var rec := HistoryRecord("What is photosynthesis?", "...", Present(["p1"]));
      var out := Step(Init(), Continue(Auth.Login, "alice", "pw", Http(200, ErrorBody(Missing)), Http(200, [rec])));
      && out.0.loggedIn && out.0.username == "alice"
      && out.0.qaHistory == [DocTurn("What is photosynthesis?", "...", ["p1"])]
      && out.0.geminiHistory == []
  {
  }

  /** The state after a sequence of interactions. */
  function Run(s: State, events: seq<Event>): State
    decreases |events|
  {
    if events == [] then s else Run(Step(s, events[0]).0, events[1..])
  }

  /** Every state a session can reach from its start is well-formed. */
  lemma {:induction false} RunPreservesWellformed(s: State, events: seq<Event>)
    requires Wellformed(s)
    ensures Wellformed(Run(s, events))
    decreases |events|
  {
    if events != [] {
      StepPreservesWellformed(s, events[0]);
      RunPreservesWellformed(Step(s, events[0]).0, events[1..]);
    }
  }

  lemma ReachableIsWellformed(events: seq<Event>)
    ensures Wellformed(Run(Init(), events))
  {
    RunPreservesWellformed(Init(), events);
  }
}
