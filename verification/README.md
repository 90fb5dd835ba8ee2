# StudyMate client session model

StudyMate is a Streamlit client: a user logs in or signs up, asks questions
about uploaded PDF notes through a backend's `/ask` endpoint, or chats with a
general assistant through `/gemini_chat`. All of its logic lives in one script,
`app.py`, which keeps a session record
`{logged_in, username, qa_history, gemini_history, selected_response}` and
changes it in reaction to one user interaction per script run.

This project lifts that session-state machine out of the script and states it
as pure Dafny functions over an immutable record:

- `backend.dfy` (`Backend`): backend replies as values. `Response<B>` is a status code with a decoded body, or a raised exception. `Field<T>` is a JSON key that may be absent; its `GetOr` is Python's `dict.get(key, default)` for a key that is absent or holds a non-null value.
- `text.dfy` (`Text`): Python's `str.strip()` (with the full set of characters `str.isspace()` accepts), `str.lower()` on ASCII letters, and the substring test `needle in hay`.
- `state.dfy` (`SessionState`): the session record, the initial state, the logout reset and the messages an interaction can show.
- `auth.dfy` (`Auth`): the login/signup form, including `login_user` and `signup_user`.
- `ask.dfy` (`Questions`): the question form and its three-way outcome.
- `chat.dfy` (`Chat`): the chatbot form, which always appends one turn.
- `history.dfy` (`History`): the sidebar's combined history view and what clicking one of its entries selects.
- `display.dfy` (`Display`): the rule that decides whether the reference paragraphs are shown, and the blocks that are rendered.
- `app.dfy` (`App`): one script run per event, the logged-in gate, the state invariant, and runs of several events.

A successful signup logs the user in straight away, without fetching any history (app.py:130-134).

## Model

| member | source | states |
|---|---|---|
| SessionState.Init | app.py:10-17 | a fresh session is logged out, with an empty name, empty logs and nothing selected |
| SessionState.Logout | app.py:145-150 | logout clears the login flag, the name, both logs and the selection, whatever the prior state |
| SessionState.LogoutIsInit | app.py:145-150 | the state after logout is exactly the initial state |
| Auth.FailureMessage | app.py:137-138 | the error shown is the backend's "error" text when it is present and non-empty, and "Authentication failed." otherwise; it is never empty |
| Auth.HistoryTurns | app.py:104-106 | persisted records become document turns one for one and in the same order; a missing paragraph list becomes [] |
| Auth.Authenticate | app.py:99-139 | a blank name or password changes nothing. Success happens exactly when the auth reply is 200 and, for login, the history request did not raise. Success sets the login flag and the name and touches neither the chat log nor the selection. Only a login whose history fetch returned 200 replaces the document log. Every other outcome leaves the state as it was. A non-200 auth reply shows the backend's error or the generic phrase; an exception from the auth or history request shows that exception's reason as an abort |
| Auth.FailureStaysLoggedOut | app.py:132-138 | from a logged-out state, every attempt whose notice is not a welcome leaves the session logged out |
| Auth.SignupDoesNotFetchHistory | app.py:110-113 | the outcome of a signup does not depend on any history reply |
| Questions.AnsweredTurn | app.py:210-213 | a 200 reply yields the raw question, the answer or "No answer found.", and the paragraphs or [] |
| Questions.Ask | app.py:205-221 | a 200 reply to a non-blank question appends exactly that turn and selects it. A blank question, a 404, another status or an exception leaves the state unchanged. A blank question or a 200 reply shows no message, a 404 shows the no-answer message, another status shows the backend-error message, and an exception shows its reason |
| Questions.NotFoundKeepsHistory | app.py:216-217 | a 404 keeps the document log's length and shows the no-answer message |
| Chat.ReplyText | app.py:254-260 | the recorded reply is the backend's response on 200, or "No response." when it is missing. It is "Error from Gemini API." on any other status, and "Error: " plus the reason on an exception. The two error texts are never empty |
| Chat.SendChat | app.py:247-260 | a non-blank prompt appends exactly one (prompt, reply) pair and changes nothing else. A blank prompt changes nothing |
| Chat.ChatGrowsByOne | app.py:247-260 | every non-blank submission grows the chat log by one, with the prompt stored last |
| Chat.TransportErrorScenario | app.py:259-260 | "2+2?" with a transport error appends one turn whose reply starts with "Error: ", and the selection is unchanged |
| History.Reverse | app.py:161-164 | the reversed log has the same length and entry i is entry length-1-i of the original |
| History.Combined | app.py:159-165 | the view holds as many entries as the two logs together. Entry i below the chat log's length is chat turn length-1-i. The remaining entries are the document turns, newest first. Each entry carries its position within its own reversed log |
| History.CombinedAsWritten | app.py:159-165 | the loop as written, with a raised TypeError as `None`, fails whenever the chat log is non-empty, and when it succeeds it yields the corrected view |
| History.AsWrittenFailsAfterChat | app.py:161-162 | the loop as written fails exactly when the chat log is non-empty, and it agrees with the corrected view otherwise |
| History.AsWrittenExample | app.py:162 | one "2+2?" exchange makes the loop as written fail, while the corrected view lists that exchange |
| History.Select | app.py:167-173 | clicking chat entry i selects (prompt, reply, None) of chat turn length-1-i. Clicking a later entry selects (question, answer, refs) of the matching document turn. Nothing else changes |
| History.SelectIdempotent | app.py:167-173 | clicking the same entry twice gives the same state as clicking it once |
| History.SelectDependsOnLogsOnly | app.py:167-173 | the selection made depends only on the two logs and the index |
| Text.Strip | app.py:205 | `s.strip()` is a contiguous middle part of `s` that neither starts nor ends with white space, and everything removed before and after it is white space |
| Text.StripEmptyIffBlank | app.py:205 | `s.strip()` is empty exactly when every character of `s` is white space |
| Text.LeadingSpaces | app.py:205 | the count covers exactly the leading white space: every counted character is white space and the next one is not |
| Text.TrailingSpaces | app.py:205 | the count covers exactly the trailing white space: every counted character is white space and the one before is not |
| Text.Lower | app.py:230 | lowering keeps the length, turns each ASCII capital into its small letter, keeps every other character, and leaves no ASCII capital |
| Text.LowerIdempotent | app.py:230 | lowering twice is the same as lowering once |
| Text.Contains | app.py:230 | `needle in hay` can hold only when the needle is no longer than the haystack, and holds whenever the haystack starts with the needle |
| Text.ContainsIffOccurs | app.py:230 | the position-by-position test for `needle in hay` holds exactly when the needle occurs at some position of the haystack |
| Display.NoneOccurs | app.py:230 | the `all(...)` test holds exactly when no phrase occurs in the text |
| Display.ShowReferences | app.py:229-230 | references are shown exactly when the answer is non-empty, the reference list is present and non-empty, and no fallback phrase is contained in the lowered answer |
| Display.ShowReferencesIff | app.py:229-230 | the same decision stated by position: shown exactly when the answer and references are non-empty and no fallback phrase starts at any position of the lowered answer |
| Display.ShowReferencesCaseInsensitive | app.py:230 | lowering the answer first does not change the decision |
| Display.FallbackSuppresses | app.py:229-230 | any fallback phrase in the answer suppresses the references, whatever they are |
| Display.SorryExample | app.py:229-230 | "Sorry, I could not find that" with one paragraph shows no reference |
| Display.ShortAnswerShowsReferences | app.py:229-230 | a non-empty answer shorter than five characters never suppresses the references |
| Display.Bullets | app.py:231-232 | there is one block per paragraph, in order |
| Display.ReferenceBlocks | app.py:224-232 | if the references are shown, there is exactly one block per paragraph, in order. Otherwise there are none |
| Display.ChatSelectionHasNoBlocks | app.py:171 | a selected chat turn never shows reference blocks |
| App.Step | app.py:116-260 | while logged out, only the authentication form reacts. While logged in, the authentication form has no effect. Logout returns to the initial state |
| App.StepPreservesWellformed | app.py:116-260 | every interaction keeps the invariant. Logged out means exactly the initial state. Logged in means a non-empty name. The selection is always a copy of a turn in one of the logs |
| App.AppendOnly | app.py:205-260 | while logged in, every interaction except logout only appends to the two logs and keeps the login |
| App.LoginStartsClean | app.py:132-134 | a successful login from a logged-out session has the typed name, an empty chat log and no selection |
| App.LoginScenario | app.py:99-107 | alice logs in and one record is fetched: the document log is that record and the chat log is empty |
| App.RunPreservesWellformed | app.py:116-260 | any sequence of interactions from a well-formed state ends in a well-formed state |
| App.ReachableIsWellformed | app.py:116-260 | every state reachable from a fresh session is well-formed |

## Left out

- Rendering is not modelled: the markup, CSS, spinners, headers and footer (app.py:19-96, 178-180, 226-227, 262-267). The visible text of a reference block is modelled as a bullet, a space and the paragraph, without its HTML wrapper.
- The HTTP requests are not modelled (app.py:101, 103, 112, 191, 208, 250). Each operation takes the reply it would receive as a parameter.
- The backend's own logic (authentication, storage, retrieval, chat completion) is not part of this model.
- PDF upload (app.py:183-197) is not modelled. It writes no session state; it only reads the username to send with the files (app.py:190).
- `st.rerun` and `st.stop` are not modelled as control flow. One event is one script run. `App.Step` encodes the gate at app.py:139 by letting only the authentication form react while logged out.
- The chat log is treated as always present and initially empty. The source creates it lazily at app.py:240-241, when the chatbot toggle is first on. An absent list reads as empty at app.py:156 and 161, and logout sets it to [].
- The chatbot toggle (app.py:236-238) is not modelled. A `ChatSubmit` event stands for a submission made while the toggle is on.
- The exact text of exception messages is not modelled. It is an opaque string, used with the "Error: " prefix in chat replies.
- Auth.Authenticate: models an uncaught exception from /login, /signup or /history as `Aborted` with the state unchanged. It does not model the malformed backend JSON cases: a history record without "question" or "answer" (a KeyError), or a non-JSON error body (a decoding error). Both also end the run.
- Backend bodies are modelled as typed values: a JSON key is either absent or holds a value of the expected type. A key present with JSON `null` is not modelled, although `dict.get(key, default)` then returns `None` instead of the default. This affects "matched_paragraphs" (app.py:106, 212), "answer" (app.py:211) and "response" (app.py:255). Values of other JSON types are not modelled either.
- Text.Lower: lowers ASCII letters only, while Python's `str.lower` covers all of Unicode. For this test the two give the same answer, because the only characters outside ASCII whose lowercase contains an ASCII letter are U+0130 (which gives "i" followed by a combining dot) and U+212A (which gives "k"). Neither can complete one of the five phrases.

## Findings

| source | as written | input that shows it | evidently intended | confidence | as-written member | corrected member |
|---|---|---|---|---|---|---|
| app.py:161-162 | chat turns are stored as (prompt, reply) tuples (app.py:256-260), but the sidebar reads them as `g["question"]` and `g["answer"]`. Indexing a tuple with a string raises TypeError, which ends the run in the sidebar, after the logout button and before the question and chat forms | one chat exchange ("2+2?" answered "4"), then any later run while logged in | first component as the question, second as the answer | high, not executed | History.CombinedAsWritten | History.Combined |

`History.AsWrittenFailsAfterChat` and `History.AsWrittenExample` show the as-written failure next to the corrected view. The rest of the model (`History.Select`, `App.Step`) uses `History.Combined`.
