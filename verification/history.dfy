/**
  The sidebar's combined history: the chat log reversed, followed by the
  document log reversed, each entry tagged with its position inside its own
  reversed log; and the selection a click on entry `i` makes.
 */
module History {
  import opened SessionState

  datatype HistoryItem =
    | GeminiItem(question: string, answer: string, index: nat)
    | PdfItem(question: string, answer: string, refs: seq<string>, index: nat)

  function Reverse<T>(s: seq<T>): (r: seq<T>)
    ensures |r| == |s|
    ensures forall i :: 0 <= i < |s| ==> r[i] == s[|s| - 1 - i]
  {
    if s == [] then [] else Reverse(s[1..]) + [s[0]]
  }

  /**
    Chat turns are stored as (prompt, reply) pairs; the sidebar reads them as
    `g["question"]` and `g["answer"]`. The intended reading, first component as
    question and second as answer, is modelled here; `CombinedAsWritten` records
    what the source actually does.
   */
  function ChatItems(newestFirst: seq<ChatTurn>): seq<HistoryItem> {
    seq(|newestFirst|, i requires 0 <= i < |newestFirst| =>
      GeminiItem(newestFirst[i].prompt, newestFirst[i].reply, i))
  }

  function DocItems(newestFirst: seq<DocTurn>): seq<HistoryItem> {
    seq(|newestFirst|, i requires 0 <= i < |newestFirst| =>
      PdfItem(newestFirst[i].question, newestFirst[i].answer, newestFirst[i].refs, i))
  }

  /** The list of sidebar buttons, top to bottom. */
  function Combined(g: seq<ChatTurn>, qa: seq<DocTurn>): (items: seq<HistoryItem>)
    ensures |items| == |g| + |qa|
    // the first |g| entries are the chat turns, newest first
    ensures forall i :: 0 <= i < |g| ==>
      items[i] == GeminiItem(g[|g| - 1 - i].prompt, g[|g| - 1 - i].reply, i)
    // the rest are the document turns, newest first
    ensures forall k :: |g| <= k < |items| ==>
      var d := qa[|g| + |qa| - 1 - k];
      items[k] == PdfItem(d.question, d.answer, d.refs, k - |g|)
  {
    ChatItems(Reverse(g)) + DocItems(Reverse(qa))
  }

  /** The sidebar loop as written: indexing a tuple with a string key raises TypeError, so
      the loop fails as soon as the chat log holds a turn; `None` stands for that exception. */
  function CombinedAsWritten(g: seq<ChatTurn>, qa: seq<DocTurn>): (r: Option<seq<HistoryItem>>)
    ensures r.Some? ==> r.value == Combined(g, qa)
    ensures g != [] ==> r.None?
  {
    if g != [] then None else Some(Combined(g, qa))
  }

  /** As written, one chat exchange is enough to break the sidebar; the corrected view lists it. */
  lemma AsWrittenFailsAfterChat(g: seq<ChatTurn>, qa: seq<DocTurn>)
    ensures CombinedAsWritten(g, qa) == None <==> g != []
    ensures g == [] ==> CombinedAsWritten(g, qa) == Some(Combined(g, qa))
    ensures g != [] ==> Combined(g, qa)[0] == GeminiItem(g[|g| - 1].prompt, g[|g| - 1].reply, 0)
  {
  }

  /** The concrete case: a single "2+2?" exchange and no document turns. */
  lemma AsWrittenExample()
    ensures CombinedAsWritten([ChatTurn("2+2?", "4")], []) == None
    ensures Combined([ChatTurn("2+2?", "4")], []) == [GeminiItem("2+2?", "4", 0)]
  {
  }

  /** What a click on an entry puts in the main panel. */
  function ItemSelection(item: HistoryItem): Selection {
    match item
    case GeminiItem(q, a, _) => Selection(q, a, None)
    case PdfItem(q, a, refs, _) => Selection(q, a, Some(refs))
  }

  /** A click on sidebar entry `i`; only existing entries have a button. */
  function Select(s: State, i: nat): (r: State)
    requires i < |s.geminiHistory| + |s.qaHistory|
    ensures r.loggedIn == s.loggedIn && r.username == s.username
    ensures r.qaHistory == s.qaHistory && r.geminiHistory == s.geminiHistory
    ensures var g := s.geminiHistory; var qa := s.qaHistory;
      if i < |g| then r.selected == Some(ChatSelection(g[|g| - 1 - i]))
      else r.selected == Some(DocSelection(qa[|qa| - 1 - (i - |g|)]))
  {
    var items := Combined(s.geminiHistory, s.qaHistory);
    s.(selected := Some(ItemSelection(items[i])))
  }

  /** Clicking the same entry again changes nothing. */
  lemma SelectIdempotent(s: State, i: nat)
    requires i < |s.geminiHistory| + |s.qaHistory|
    ensures Select(Select(s, i), i) == Select(s, i)
  {
  }

  /** The selection depends on the two logs only, not on what was selected before. */
  lemma SelectDependsOnLogsOnly(s: State, t: State, i: nat)
    requires s.geminiHistory == t.geminiHistory && s.qaHistory == t.qaHistory
    requires i < |s.geminiHistory| + |s.qaHistory|
    ensures Select(s, i).selected == Select(t, i).selected
  {
  }
}
