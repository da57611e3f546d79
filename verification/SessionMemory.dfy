/** The titles sessions get from their first message. */
module SessionTitles {
  import opened Options

  /** The characters Python's `str.strip` removes. */
  predicate IsSpace(c: char) {
    var n := c as int;
    || 0x09 <= n <= 0x0d || 0x1c <= n <= 0x20 || n == 0x85 || n == 0xa0 || n == 0x1680
    || 0x2000 <= n <= 0x200a || n == 0x2028 || n == 0x2029 || n == 0x202f || n == 0x205f || n == 0x3000
  }

  /** The characters Python's `str.splitlines` breaks at; a carriage return before a line feed
      makes no difference to the first line. */
  predicate IsLineBreak(c: char) {
    var n := c as int;
    0x0a <= n <= 0x0d || 0x1c <= n <= 0x1e || n == 0x85 || n == 0x2028 || n == 0x2029
  }

  function StripLeft(s: string): string {
    if s != "" && IsSpace(s[0]) then StripLeft(s[1..]) else s
  }

  function StripRight(s: string): string {
    if s != "" && IsSpace(s[|s| - 1]) then StripRight(s[..|s| - 1]) else s
  }

  function Strip(s: string): string {
    StripRight(StripLeft(s))
  }

  function FirstLine(s: string): string {
    if s == "" || IsLineBreak(s[0]) then "" else [s[0]] + FirstLine(s[1..])
  }

  const TITLE_LIMIT := 80

  /** The first line of the stripped text, cut at the limit; a blank text has no first line. */
  function TitleOf(text: string): Option<string> {
    var line := FirstLine(Strip(text));
    if Strip(text) == "" then None
    else Some(if |line| > TITLE_LIMIT then line[..TITLE_LIMIT] else line)
  }

  lemma {:induction false} StripRightKeepsFirst(s: string)
    ensures s != "" && !IsSpace(s[0]) ==> StripRight(s) != "" && StripRight(s)[0] == s[0]
    ensures StripRight(s) == "" <==> forall c | c in s :: IsSpace(c)
  {
    if s != "" && IsSpace(s[|s| - 1]) {
      StripRightKeepsFirst(s[..|s| - 1]);
      assert s == s[..|s| - 1] + [s[|s| - 1]];
    }
  }

  lemma {:induction false} StripLeftStartsSolid(s: string)
    ensures StripLeft(s) != "" ==> !IsSpace(StripLeft(s)[0])
    ensures (forall c | c in StripLeft(s) :: IsSpace(c)) <==> forall c | c in s :: IsSpace(c)
  {
    if s != "" && IsSpace(s[0]) {
      StripLeftStartsSolid(s[1..]);
      assert s == [s[0]] + s[1..];
    }
  }

  lemma {:induction false} FirstLineHasNoBreak(s: string)
    ensures forall c | c in FirstLine(s) :: !IsLineBreak(c)
    ensures FirstLine(s) <= s
  {
    if s != "" && !IsLineBreak(s[0]) {
      FirstLineHasNoBreak(s[1..]);
    }
  }

  /** The text without the blanks at its ends. */
  ghost predicate IsStripped(text: string, body: string) {
    && (body == "" || (!IsSpace(body[0]) && !IsSpace(body[|body| - 1])))
    && exists left, right :: text == left + body + right && AllSpace(left) && AllSpace(right)
  }

  predicate AllSpace(s: string) {
    forall i | 0 <= i < |s| :: IsSpace(s[i])
  }

  lemma {:induction false} LeftIs(s: string) returns (left: string)
    ensures AllSpace(left) && s == left + StripLeft(s)
  {
    left := "";
    if s != "" && IsSpace(s[0]) {
      var more := LeftIs(s[1..]);
      left := [s[0]] + more;
      assert s == [s[0]] + s[1..];
    }
  }

  lemma {:induction false} RightIs(s: string)
    ensures StripRight(s) <= s && AllSpace(s[|StripRight(s)|..])
    ensures StripRight(s) != "" ==> !IsSpace(StripRight(s)[|StripRight(s)| - 1])
  {
    if s != "" && IsSpace(s[|s| - 1]) {
      var init, k := s[..|s| - 1], |StripRight(s)|;
      RightIs(init);
      forall i | 0 <= i < |s[k..]| ensures IsSpace(s[k..][i]) {
        assert i < |init| - k ==> s[k..][i] == init[k..][i];
      }
    }
  }

  lemma StripEndsSolid(text: string)
    ensures Strip(text) != "" ==> !IsSpace(Strip(text)[0]) && !IsSpace(Strip(text)[|Strip(text)| - 1])
  {
    StripLeftStartsSolid(text);
    StripRightKeepsFirst(StripLeft(text));
    RightIs(StripLeft(text));
  }

  lemma StripCuts(text: string) returns (left: string, right: string)
    ensures text == left + Strip(text) + right && AllSpace(left) && AllSpace(right)
  {
    left := LeftIs(text);
    var rest := StripLeft(text);
    RightIs(rest);
    right := rest[|StripRight(rest)|..];
    assert rest == StripRight(rest) + right;
  }

  lemma StripIs(text: string)
    ensures IsStripped(text, Strip(text))
  {
    StripEndsSolid(text);
    var left, right := StripCuts(text);
  }

  lemma {:induction false} FirstLineEnds(s: string)
    ensures FirstLine(s) <= s && (|FirstLine(s)| < |s| ==> IsLineBreak(s[|FirstLine(s)|]))
  {
    if s != "" && !IsLineBreak(s[0]) {
      FirstLineEnds(s[1..]);
    }
  }

  /** The title is the stripped text up to its first line break, or its first eighty characters. */
  lemma TitleIs(text: string)
    ensures TitleOf(text).Some? ==>
              var title := TitleOf(text).value;
              exists body :: IsStripped(text, body) && title <= body && |title| <= 80
                && (forall i | 0 <= i < |title| :: !IsLineBreak(title[i]))
                && (|title| < 80 && |title| < |body| ==> IsLineBreak(body[|title|]))
  {
    StripIs(text);
    FirstLineHasNoBreak(Strip(text));
    FirstLineEnds(Strip(text));
    if TitleOf(text).Some? {
      assert TitleOf(text).value <= Strip(text);
    }
  }

  /** A text has a title unless it is blank; a title is one nonempty line of at most eighty characters. */
  lemma TitleIsOneLine(text: string)
    ensures TitleOf(text).None? <==> forall c | c in text :: IsSpace(c)
    ensures TitleOf(text).Some? ==> 0 < |TitleOf(text).value| <= TITLE_LIMIT
    ensures TitleOf(text).Some? ==> forall c | c in TitleOf(text).value :: !IsLineBreak(c)
    ensures TitleOf(text).Some? ==> TitleOf(text).value <= Strip(text)
  {
    StripLeftStartsSolid(text);
    StripRightKeepsFirst(StripLeft(text));
    FirstLineHasNoBreak(Strip(text));
  }
}

/** The session table and its message table. */
module SessionTables {
  import opened Options

  type SessionId = string

  datatype SessionRow = SessionRow(title: Option<string>, messageCount: nat)

  datatype StoredMessage = StoredMessage(session: SessionId, role: string, content: string)

  datatype ChatMessage = ChatMessage(role: string, content: string)

  /** Messages in the order of their generated keys. */
  datatype Tables = Tables(sessions: map<SessionId, SessionRow>, messages: seq<StoredMessage>)

  datatype StoreError = SessionNotFound

  function EnsureSession(t: Tables, id: SessionId): Tables {
    if id in t.sessions then t else t.(sessions := t.sessions[id := SessionRow(None, 0)])
  }

  function AppendMessage(t: Tables, id: SessionId, role: string, content: string): Tables {
    var e := EnsureSession(t, id);
    Tables(e.sessions[id := e.sessions[id].(messageCount := e.sessions[id].messageCount + 1)],
           e.messages + [StoredMessage(id, role, content)])
  }

  function SetTitle(t: Tables, id: SessionId, title: string): Tables {
    if id in t.sessions then t.(sessions := t.sessions[id := t.sessions[id].(title := Some(title))]) else t
  }

  function DeleteSession(t: Tables, id: SessionId): Tables {
    Tables(t.sessions - {id}, Others(t.messages, id))
  }

  function Others(messages: seq<StoredMessage>, id: SessionId): seq<StoredMessage> {
    if messages == [] then []
    else
      var last := messages[|messages| - 1];
      Others(messages[..|messages| - 1], id) + if last.session == id then [] else [last]
  }

  function MessagesOf(messages: seq<StoredMessage>, id: SessionId): seq<StoredMessage> {
    if messages == [] then []
    else
      var last := messages[|messages| - 1];
      MessagesOf(messages[..|messages| - 1], id) + if last.session == id then [last] else []
  }

  /** The rows a conversation is rebuilt from: what the user and the assistant said. */
  function Conversation(rows: seq<StoredMessage>): seq<ChatMessage> {
    if rows == [] then []
    else
      var last := rows[|rows| - 1];
      Conversation(rows[..|rows| - 1]) + Spoken(last)
  }

  function Spoken(m: StoredMessage): seq<ChatMessage> {
    if m.role in {"user", "assistant"} then [ChatMessage(m.role, m.content)] else []
  }

  function Dialogue(t: Tables, id: SessionId): seq<ChatMessage> {
    Conversation(MessagesOf(t.messages, id))
  }

  /** Every session's count is the number of its rows, and no message is without its session. */
  ghost predicate CountsMatch(t: Tables) {
    && (forall id | id in t.sessions :: t.sessions[id].messageCount == |MessagesOf(t.messages, id)|)
    && (forall id | id !in t.sessions :: MessagesOf(t.messages, id) == [])
  }

  /** `rows` are the messages of one session, in the table's order: `at` lists their positions. */
  ghost predicate Selects(messages: seq<StoredMessage>, id: SessionId, rows: seq<StoredMessage>, at: seq<nat>) {
    && |at| == |rows|
    && (forall k | 0 <= k < |at| :: at[k] < |messages| && rows[k] == messages[at[k]])
    && (forall j, k | 0 <= j < k < |at| :: at[j] < at[k])
    && (forall i | 0 <= i < |messages| :: messages[i].session == id <==> i in at)
  }

  lemma SelectsOneMore(messages: seq<StoredMessage>, m: StoredMessage, id: SessionId, rows: seq<StoredMessage>,
                       at: seq<nat>)
    requires Selects(messages, id, rows, at)
    ensures m.session == id ==> Selects(messages + [m], id, rows + [m], at + [|messages|])
    ensures m.session != id ==> Selects(messages + [m], id, rows, at)
  {
    if m.session == id {
      var more := at + [|messages|];
      forall i | 0 <= i < |messages + [m]| ensures (messages + [m])[i].session == id <==> i in more {
        assert i in more <==> i in at || i == |messages|;
      }
    } else {
      assert |messages| !in at;
    }
  }

  lemma MessagesAfterAppend(messages: seq<StoredMessage>, m: StoredMessage, id: SessionId)
    ensures MessagesOf(messages + [m], id) == MessagesOf(messages, id) + if m.session == id then [m] else []
  {
    assert (messages + [m])[..|messages|] == messages;
  }

  lemma {:induction false} MessagesAfterDelete(messages: seq<StoredMessage>, gone: SessionId, id: SessionId)
    ensures MessagesOf(Others(messages, gone), id) == if id == gone then [] else MessagesOf(messages, id)
  {
    if messages != [] {
      MessagesAfterDelete(messages[..|messages| - 1], gone, id);
      if messages[|messages| - 1].session != gone {
        MessagesAfterAppend(Others(messages[..|messages| - 1], gone), messages[|messages| - 1], id);
        assert Others(messages, gone) == Others(messages[..|messages| - 1], gone) + [messages[|messages| - 1]];
      } else {
        assert Others(messages, gone) == Others(messages[..|messages| - 1], gone);
      }
    }
  }

  lemma ConversationAfter(rows: seq<StoredMessage>, m: StoredMessage)
    ensures Conversation(rows + [m]) == Conversation(rows) + Spoken(m)
  {
    assert (rows + [m])[..|rows|] == rows;
  }

  /** Appending touches one session's dialogue and leaves every other session's alone. */
  lemma DialogueAfterAppend(t: Tables, id: SessionId, role: string, content: string, other: SessionId)
    ensures Dialogue(AppendMessage(t, id, role, content), other)
         == Dialogue(t, other) + if other == id then Spoken(StoredMessage(id, role, content)) else []
  {
    var m := StoredMessage(id, role, content);
    MessagesAfterAppend(t.messages, m, other);
    if other == id {
      ConversationAfter(MessagesOf(t.messages, other), m);
    } else {
      assert MessagesOf(t.messages, other) + [] == MessagesOf(t.messages, other);
    }
  }

  lemma CountsAfterAppend(t: Tables, id: SessionId, role: string, content: string)
    requires CountsMatch(t)
    ensures CountsMatch(AppendMessage(t, id, role, content))
  {
    var m := StoredMessage(id, role, content);
    var after := AppendMessage(t, id, role, content);
    forall x ensures |MessagesOf(after.messages, x)| == |MessagesOf(t.messages, x)| + if x == id then 1 else 0 {
      MessagesAfterAppend(t.messages, m, x);
    }
    assert forall x | x !in t.sessions :: |MessagesOf(t.messages, x)| == 0;
  }

  lemma DialogueAfterDelete(t: Tables, gone: SessionId, id: SessionId)
    ensures Dialogue(DeleteSession(t, gone), id) == if id == gone then [] else Dialogue(t, id)
    ensures CountsMatch(t) ==> CountsMatch(DeleteSession(t, gone))
  {
    MessagesAfterDelete(t.messages, gone, id);
    forall x ensures MessagesOf(Others(t.messages, gone), x) == if x == gone then [] else MessagesOf(t.messages, x) {
      MessagesAfterDelete(t.messages, gone, x);
    }
  }
}

module SessionStores {
  import opened Options
  import opened SessionTables
  import S = SessionTables

  class SessionStore {
    var sessions: map<SessionId, SessionRow>
    var messages: seq<StoredMessage>

    constructor ()
      ensures State() == Tables(map[], [])
    {
      sessions, messages := map[], [];
    }

    function State(): Tables
      reads this
    {
      Tables(sessions, messages)
    }

    method EnsureSession(id: SessionId)
      modifies this
      ensures State() == S.EnsureSession(old(State()), id) && messages == old(messages)
      ensures sessions == if id in old(sessions) then old(sessions) else old(sessions)[id := SessionRow(None, 0)]
    {
      if id !in sessions {
        sessions := sessions[id := SessionRow(None, 0)];
      }
    }

    method AppendMessage(id: SessionId, role: string, content: string)
      modifies this
      ensures State() == S.AppendMessage(old(State()), id, role, content)
      ensures messages == old(messages) + [StoredMessage(id, role, content)]
      ensures var was := if id in old(sessions) then old(sessions)[id] else SessionRow(None, 0);
              sessions == old(sessions)[id := SessionRow(was.title, was.messageCount + 1)]
    {
      EnsureSession(id);
      messages := messages + [StoredMessage(id, role, content)];
      sessions := sessions[id := sessions[id].(messageCount := sessions[id].messageCount + 1)];
    }

    method SetTitle(id: SessionId, title: string) returns (r: Result<(), StoreError>)
      modifies this
      ensures State() == S.SetTitle(old(State()), id, title) && messages == old(messages)
      ensures r == if id in old(sessions) then Ok(()) else Err(SessionNotFound)
      ensures r.Ok? ==> sessions == old(sessions)[id := SessionRow(Some(title), old(sessions)[id].messageCount)]
      ensures r.Err? ==> sessions == old(sessions)
    {
      if id !in sessions {
        return Err(SessionNotFound);
      }
      sessions := sessions[id := sessions[id].(title := Some(title))];
      r := Ok(());
    }

    /** Deletes the messages, then the session row; the answer is about the session row. */
    method DeleteSession(id: SessionId) returns (deleted: bool)
      modifies this
      ensures State() == S.DeleteSession(old(State()), id) && sessions == old(sessions) - {id}
      ensures forall other ::
                MessagesOf(messages, other) == if other == id then [] else MessagesOf(old(messages), other)
      ensures deleted <==> id in old(sessions)
    {
      forall other
        ensures MessagesOf(Others(messages, id), other) == if other == id then [] else MessagesOf(messages, other)
      {
        MessagesAfterDelete(messages, id, other);
      }
      messages := Others(messages, id);
      deleted := id in sessions;
      sessions := sessions - {id};
    }

    /** The session's row; its count is the number of messages `GetMessages` returns. */
    method GetSession(id: SessionId) returns (r: Option<SessionRow>)
      ensures r == if id in sessions then Some(sessions[id]) else None
      ensures CountsMatch(State()) ==>
                |MessagesOf(messages, id)| == if r.Some? then r.value.messageCount else 0
    {
      r := if id in sessions then Some(sessions[id]) else None;
    }

    /** Exactly the session's messages, in the order they were appended. */
    method GetMessages(id: SessionId) returns (rows: seq<StoredMessage>)
      ensures rows == MessagesOf(messages, id)
      ensures exists at :: Selects(messages, id, rows, at)
    {
      rows := [];
      ghost var at: seq<nat> := [];
      for i := 0 to |messages|
        invariant rows == MessagesOf(messages[..i], id) && Selects(messages[..i], id, rows, at)
      {
        assert messages[..i + 1] == messages[..i] + [messages[i]];
        MessagesAfterAppend(messages[..i], messages[i], id);
        SelectsOneMore(messages[..i], messages[i], id, rows, at);
        if messages[i].session == id {
          rows, at := rows + [messages[i]], at + [i];
        }
      }
      assert messages[..|messages|] == messages;
    }
  }
}

/** An interactive session: its conversation in memory, its display log, and the store behind it. */
module InterfaceSessions {
  import opened Options
  import opened SessionTitles
  import opened SessionTables
  import opened SessionStores

  datatype DisplayRole = ShownUser | ShownAssistant | ShownCommand | ShownError | ShownSystem

  datatype HistoryEntry = HistoryEntry(role: DisplayRole, text: string)

  datatype ConversationState =
    ConversationState(id: SessionId, staticPrefix: seq<ChatMessage>, history: seq<ChatMessage>)

  /** How the turn after the user's message went: the model replied, it failed with or without
      an error text, creating the mission failed, or an exception left the turn unfinished. */
  datatype Outcome =
    | Replied(content: string)
    | Failed(error: Option<string>)
    | MissionFailed(reason: string)
    | Raised

  datatype Memory = Memory(conversation: ConversationState, display: seq<HistoryEntry>, tables: Tables)

  /** How memory and store have come apart: `forgotten` stored messages the conversation does not go
      back to, because they were stored before the session object was made or last cleared, and
      `unsaved` messages and `unlogged` display entries whose rows have been deleted since. The program
      does not keep these numbers: they are what is claimed about it. */
  datatype Gap = Gap(forgotten: nat, unsaved: nat, unlogged: nat)

  datatype Tracked = Tracked(memory: Memory, gap: Gap)

  function Begin(tables: Tables, id: SessionId, staticPrefix: seq<ChatMessage>): Memory {
    Memory(ConversationState(id, staticPrefix, []), [], EnsureSession(tables, id))
  }

  function BeginTracked(tables: Tables, id: SessionId, staticPrefix: seq<ChatMessage>): Tracked {
    Tracked(Begin(tables, id, staticPrefix), Gap(|Dialogue(tables, id)|, 0, 0))
  }

  function Say(m: Memory, role: string, shown: DisplayRole, text: string): Memory {
    var id := m.conversation.id;
    var said := if role in {"user", "assistant"} then [ChatMessage(role, text)] else [];
    Memory(m.conversation.(history := m.conversation.history + said),
           m.display + [HistoryEntry(shown, text)],
           AppendMessage(m.tables, id, role, text))
  }

  /** An entry made in the display log without a turn. */
  predicate IsAside(entry: HistoryEntry) {
    entry.role in {ShownCommand, ShownSystem}
  }

  function Recorded(m: Memory, entry: HistoryEntry): Memory {
    m.(display := m.display + [entry])
  }

  /** The display log without what was recorded aside. */
  function Told(display: seq<HistoryEntry>): seq<HistoryEntry> {
    if display == [] then []
    else
      var last := display[|display| - 1];
      Told(display[..|display| - 1]) + if IsAside(last) then [] else [last]
  }

  lemma ToldAfter(display: seq<HistoryEntry>, entry: HistoryEntry)
    ensures Told(display + [entry]) == Told(display) + if IsAside(entry) then [] else [entry]
  {
    assert (display + [entry])[..|display|] == display;
  }

  /** Whether the session has no title yet and the text is too blank to make one from. */
  predicate TitleFails(m: Memory, text: string) {
    var t := AppendMessage(m.tables, m.conversation.id, "user", text);
    t.sessions[m.conversation.id].title.None? && TitleOf(text).None?
  }

  /** A turn ends early exactly for a blank text in a session without a title. */
  lemma TitleFailsIff(m: Memory, text: string)
    ensures TitleFails(m, text) <==>
              && (m.conversation.id in m.tables.sessions ==> m.tables.sessions[m.conversation.id].title.None?)
              && forall c | c in text :: IsSpace(c)
  {
    TitleIsOneLine(text);
  }

  /** So a blank first message, whatever would have come of it, leaves its row and no answer. */
  lemma BlankFirstMessage(id: SessionId, outcome: Outcome)
    ensures var m := Begin(Tables(map[], []), id, []);
            !Completes(m, " ", outcome) && Turn(m, " ", outcome).tables.messages == [StoredMessage(id, "user", " ")]
  {
    TitleFailsIff(Begin(Tables(map[], []), id, []), " ");
  }

  function Titled(m: Memory, text: string): Memory {
    var id := m.conversation.id;
    if id in m.tables.sessions && m.tables.sessions[id].title.None? && TitleOf(text).Some?
    then m.(tables := SetTitle(m.tables, id, TitleOf(text).value))
    else m
  }

  const DEFAULT_ERROR := "The request failed."
  const MISSION_ERROR := "Autonomous mission creation failed: "

  function ErrorText(error: Option<string>): string {
    if error.Some? && error.value != "" then error.value else DEFAULT_ERROR
  }

  function Finish(m: Memory, outcome: Outcome): Memory {
    match outcome
    case Replied(content) => Say(m, "assistant", ShownAssistant, content)
    case Failed(error) => Say(m, "error", ShownError, ErrorText(error))
    case MissionFailed(reason) => Say(m, "error", ShownError, MISSION_ERROR + reason)
    case Raised => m
  }

  /** One submitted text. A blank first message of an untitled session ends the turn early. */
  function Turn(m: Memory, text: string, outcome: Outcome): Memory {
    var said := Say(m, "user", ShownUser, text);
    if TitleFails(m, text) then said else Finish(Titled(said, text), outcome)
  }

  predicate Completes(m: Memory, text: string, outcome: Outcome) {
    !TitleFails(m, text) && outcome != Raised
  }

  function Cleared(m: Memory): Memory {
    m.(conversation := m.conversation.(history := []), display := [])
  }

  function LoadState(tables: Tables, id: SessionId, staticPrefix: seq<ChatMessage>): Option<ConversationState> {
    if id in tables.sessions then Some(ConversationState(id, staticPrefix, Dialogue(tables, id))) else None
  }

  function Loaded(tables: Tables, id: SessionId, staticPrefix: seq<ChatMessage>): Option<Tracked> {
    if LoadState(tables, id, staticPrefix).Some?
    then Some(Tracked(Memory(LoadState(tables, id, staticPrefix).value, [], tables), Gap(0, 0, 0)))
    else None
  }

  /** The rows stored for the session. */
  function Rows(m: Memory): seq<StoredMessage> {
    MessagesOf(m.tables.messages, m.conversation.id)
  }

  /** But for the gap, the conversation is the stored dialogue, and the counts are right. */
  ghost predicate Remembers(m: Memory, gap: Gap) {
    var d := Dialogue(m.tables, m.conversation.id);
    && CountsMatch(m.tables)
    && gap.forgotten <= |d| && gap.unsaved <= |m.conversation.history|
    && m.conversation.history[gap.unsaved..] == d[gap.forgotten..]
    && (gap.unsaved == 0 || gap.forgotten == 0)
  }

  lemma TailsGrow<T>(a: seq<T>, i: nat, b: seq<T>, j: nat, more: seq<T>)
    requires i <= |a| && j <= |b| && a[i..] == b[j..]
    ensures (a + more)[i..] == (b + more)[j..]
  {
    assert (a + more)[i..] == a[i..] + more;
    assert (b + more)[j..] == b[j..] + more;
  }

  lemma SayRemembers(m: Memory, role: string, shown: DisplayRole, text: string, gap: Gap)
    requires Remembers(m, gap)
    ensures Remembers(Say(m, role, shown, text), gap)
    ensures Rows(Say(m, role, shown, text)) == Rows(m) + [StoredMessage(m.conversation.id, role, text)]
  {
    var id := m.conversation.id;
    DialogueAfterAppend(m.tables, id, role, text, id);
    CountsAfterAppend(m.tables, id, role, text);
    MessagesAfterAppend(m.tables.messages, StoredMessage(id, role, text), id);
    TailsGrow(m.conversation.history, gap.unsaved, Dialogue(m.tables, id), gap.forgotten,
              Spoken(StoredMessage(id, role, text)));
  }

  /** The row a completed turn adds after the user's. */
  function Answer(id: SessionId, outcome: Outcome): StoredMessage
    requires outcome != Raised
  {
    match outcome
    case Replied(content) => StoredMessage(id, "assistant", content)
    case Failed(error) => StoredMessage(id, "error", ErrorText(error))
    case MissionFailed(reason) => StoredMessage(id, "error", MISSION_ERROR + reason)
  }

  lemma FinishRemembers(m: Memory, outcome: Outcome, gap: Gap)
    requires Remembers(m, gap)
    ensures Remembers(Finish(m, outcome), gap)
    ensures Rows(Finish(m, outcome)) == Rows(m) + if outcome == Raised then [] else [Answer(m.conversation.id, outcome)]
  {
    match outcome
    case Replied(content) => SayRemembers(m, "assistant", ShownAssistant, content, gap);
    case Failed(error) => SayRemembers(m, "error", ShownError, ErrorText(error), gap);
    case MissionFailed(reason) => SayRemembers(m, "error", ShownError, MISSION_ERROR + reason, gap);
    case Raised =>
  }

  lemma TitledRemembers(m: Memory, text: string, gap: Gap)
    requires Remembers(m, gap)
    ensures Remembers(Titled(m, text), gap) && Rows(Titled(m, text)) == Rows(m)
  {
  }

  /** Every turn keeps memory and store in step and stores the user's row; a completed one adds
      exactly one more row, the assistant's or an error's. */
  lemma TurnRemembers(m: Memory, text: string, outcome: Outcome, gap: Gap)
    requires Remembers(m, gap)
    ensures Remembers(Turn(m, text, outcome), gap) && Turn(m, text, outcome).conversation.id == m.conversation.id
    ensures Rows(Turn(m, text, outcome)) == Rows(m) + [StoredMessage(m.conversation.id, "user", text)]
              + if Completes(m, text, outcome) then [Answer(m.conversation.id, outcome)] else []
  {
    SayRemembers(m, "user", ShownUser, text, gap);
    var said := Say(m, "user", ShownUser, text);
    if !TitleFails(m, text) {
      TitledRemembers(said, text, gap);
      FinishRemembers(Titled(said, text), outcome, gap);
      assert Turn(m, text, outcome) == Finish(Titled(said, text), outcome);
    }
  }

  /** What the user is told when a turn has no answer. */
  function Excuse(outcome: Outcome): string
    requires outcome.Failed? || outcome.MissionFailed?
  {
    match outcome
    case Failed(error) => if error == None || error == Some("") then "The request failed." else error.value
    case MissionFailed(reason) => "Autonomous mission creation failed: " + reason
  }

  /** What a turn adds: the user's message to the conversation and the display; after it, unless the turn
      ends early, the reply to both, or the excuse to the display. */
  lemma TurnSays(m: Memory, text: string, outcome: Outcome)
    ensures var after := Turn(m, text, outcome);
            var replied := Completes(m, text, outcome) && outcome.Replied?;
            var excused := Completes(m, text, outcome) && !outcome.Replied?;
            && after.conversation.id == m.conversation.id
            && after.conversation.staticPrefix == m.conversation.staticPrefix
            && after.conversation.history
                 == m.conversation.history + [ChatMessage("user", text)]
                    + (if replied then [ChatMessage("assistant", outcome.content)] else [])
            && after.display
                 == m.display + [HistoryEntry(ShownUser, text)]
                    + (if replied then [HistoryEntry(ShownAssistant, outcome.content)]
                       else if excused then [HistoryEntry(ShownError, Excuse(outcome))] else [])
  {
    var said, id := Say(m, "user", ShownUser, text), m.conversation.id;
    assert Titled(said, text).conversation == said.conversation && Titled(said, text).display == said.display;
  }

  /** The first turn with a text that has a title gives it to the session, and no later turn changes it. */
  lemma TurnTitles(m: Memory, text: string, outcome: Outcome)
    ensures var id, after := m.conversation.id, Turn(m, text, outcome).tables.sessions;
            && id in after
            && after[id].title
                 == (if id in m.tables.sessions && m.tables.sessions[id].title.Some? then m.tables.sessions[id].title
                     else TitleOf(text))
            && forall other | other != id :: Entry(after, other) == Entry(m.tables.sessions, other)
  {
  }

  function Entry(sessions: map<SessionId, SessionRow>, id: SessionId): Option<SessionRow> {
    if id in sessions then Some(sessions[id]) else None
  }

  /** What can happen to a session and its rows. Other sessions share the store, and the session's own
      rows can be deleted while its object lives on; slash commands are recorded in the display log
      alone. */
  datatype Event =
    | TurnEvent(text: string, outcome: Outcome)
    | ClearEvent
    | DeleteEvent
    | RecordEvent(entry: HistoryEntry)
    | OtherAppend(session: SessionId, role: string, content: string)
    | OtherDelete(session: SessionId)

  /** Other sessions' events are not this session's, and what is recorded aside is not a turn's. */
  predicate IsPossible(m: Memory, e: Event) {
    && ((e.OtherAppend? || e.OtherDelete?) ==> e.session != m.conversation.id)
    && (e.RecordEvent? ==> IsAside(e.entry))
  }

  function Apply(m: Memory, e: Event): Memory {
    match e
    case TurnEvent(text, outcome) => Turn(m, text, outcome)
    case ClearEvent => Cleared(m)
    case DeleteEvent => m.(tables := DeleteSession(m.tables, m.conversation.id))
    case RecordEvent(entry) => Recorded(m, entry)
    case OtherAppend(s, role, content) => m.(tables := AppendMessage(m.tables, s, role, content))
    case OtherDelete(s) => m.(tables := DeleteSession(m.tables, s))
  }

  function Follow(t: Tracked, e: Event): Tracked {
    var m := t.memory;
    Tracked(Apply(m, e),
            match e
            case ClearEvent => Gap(|Dialogue(m.tables, m.conversation.id)|, 0, 0)
            case DeleteEvent => Gap(0, |m.conversation.history|, |Told(m.display)|)
            case _ => t.gap)
  }

  function Run(t: Tracked, events: seq<Event>): Tracked {
    if events == [] then t else Follow(Run(t, events[..|events| - 1]), events[|events| - 1])
  }

  lemma OthersRemembers(m: Memory, e: Event, gap: Gap)
    requires Remembers(m, gap) && IsPossible(m, e) && (e.OtherAppend? || e.OtherDelete?)
    ensures Remembers(Apply(m, e), gap)
  {
    match e
    case OtherAppend(s, role, content) =>
      DialogueAfterAppend(m.tables, s, role, content, m.conversation.id);
      CountsAfterAppend(m.tables, s, role, content);
      assert Dialogue(m.tables, m.conversation.id) + [] == Dialogue(m.tables, m.conversation.id);
    case OtherDelete(s) => DialogueAfterDelete(m.tables, s, m.conversation.id);
  }

  lemma FollowRemembers(t: Tracked, e: Event)
    requires Remembers(t.memory, t.gap) && IsPossible(t.memory, e)
    ensures Remembers(Follow(t, e).memory, Follow(t, e).gap)
    ensures Follow(t, e).memory.conversation.id == t.memory.conversation.id
  {
    match e
    case TurnEvent(text, outcome) => TurnRemembers(t.memory, text, outcome, t.gap);
    case ClearEvent =>
    case DeleteEvent => DialogueAfterDelete(t.memory.tables, t.memory.conversation.id, t.memory.conversation.id);
    case RecordEvent(_) =>
    case OtherAppend(_, _, _) => OthersRemembers(t.memory, e, t.gap);
    case OtherDelete(_) => OthersRemembers(t.memory, e, t.gap);
  }

  lemma {:induction false} RunRemembers(start: Tracked, events: seq<Event>)
    requires Remembers(start.memory, start.gap) && forall e | e in events :: IsPossible(start.memory, e)
    ensures Remembers(Run(start, events).memory, Run(start, events).gap)
    ensures Run(start, events).memory.conversation.id == start.memory.conversation.id
    ensures ClearEvent !in events && DeleteEvent !in events ==> Run(start, events).gap == start.gap
  {
    if events != [] {
      var last := events[|events| - 1];
      RunRemembers(start, events[..|events| - 1]);
      assert last in events && IsPossible(start.memory, last);
      FollowRemembers(Run(start, events[..|events| - 1]), last);
    }
  }

  /** Over any run, `load` rebuilds exactly the conversation in memory, if and only if the session is
      stored, nothing stored in it predates the object or its last clear, and nothing said in it was
      deleted from the store. */
  lemma LoadRebuilds(start: Tracked, events: seq<Event>)
    requires Remembers(start.memory, start.gap) && forall e | e in events :: IsPossible(start.memory, e)
    ensures var m, gap := Run(start, events).memory, Run(start, events).gap;
            var loaded := LoadState(m.tables, m.conversation.id, m.conversation.staticPrefix);
            && (loaded == Some(m.conversation) <==>
                  m.conversation.id in m.tables.sessions && gap.forgotten == 0 && gap.unsaved == 0)
            && (m.conversation.id in m.tables.sessions ==>
                  m.tables.sessions[m.conversation.id].messageCount == |Rows(m)|)
    ensures ClearEvent !in events && DeleteEvent !in events ==> Run(start, events).gap == start.gap
  {
    RunRemembers(start, events);
    var m, gap := Run(start, events).memory, Run(start, events).gap;
    var d := Dialogue(m.tables, m.conversation.id);
    assert gap.forgotten == 0 ==> d[gap.forgotten..] == d;
    assert gap.unsaved == 0 ==> m.conversation.history[gap.unsaved..] == m.conversation.history;
  }

  /** Once the session's rows are deleted, in whatever state a run has left it, `load` fails until the
      next turn stores the session anew, and then rebuilds exactly what was said since the deletion,
      until the next clear or deletion. */
  lemma LoadAfterDeletion(t: Tracked, events: seq<Event>)
    requires Remembers(t.memory, t.gap) && forall e | e in events :: IsPossible(t.memory, e)
    requires ClearEvent !in events && DeleteEvent !in events
    ensures var m := Run(Follow(t, DeleteEvent), events).memory;
            var said, id := t.memory.conversation.history, t.memory.conversation.id;
            && said <= m.conversation.history
            && (id in m.tables.sessions <==> exists e :: e in events && e.TurnEvent?)
            && LoadState(m.tables, id, m.conversation.staticPrefix)
                 == if id !in m.tables.sessions then None
                    else Some(m.conversation.(history := m.conversation.history[|said|..]))
  {
    var deleted := Follow(t, DeleteEvent);
    FollowRemembers(t, DeleteEvent);
    RunRemembers(deleted, events);
    HistoryGrows(deleted, events);
    RemembersSince(Run(deleted, events).memory, |t.memory.conversation.history|);
  }

  lemma RemembersSince(m: Memory, unsaved: nat)
    requires unsaved <= |m.conversation.history|
    requires m.conversation.history[unsaved..] == Dialogue(m.tables, m.conversation.id)[0..]
    ensures Dialogue(m.tables, m.conversation.id) == m.conversation.history[unsaved..]
  {
  }

  lemma TurnExtends(m: Memory, text: string, outcome: Outcome)
    ensures m.conversation.history <= Turn(m, text, outcome).conversation.history
    ensures Turn(m, text, outcome).conversation.id == m.conversation.id
    ensures Turn(m, text, outcome).conversation.id in Turn(m, text, outcome).tables.sessions
  {
  }

  lemma {:induction false} HistoryGrows(t: Tracked, events: seq<Event>)
    requires forall e | e in events :: IsPossible(t.memory, e)
    requires ClearEvent !in events && DeleteEvent !in events
    ensures Run(t, events).memory.conversation.id == t.memory.conversation.id
    ensures t.memory.conversation.history <= Run(t, events).memory.conversation.history
    ensures t.memory.conversation.id in Run(t, events).memory.tables.sessions
       <==> t.memory.conversation.id in t.memory.tables.sessions || exists e :: e in events && e.TurnEvent?
  {
    if events != [] {
      var init, last := events[..|events| - 1], events[|events| - 1];
      assert last in events && IsPossible(t.memory, last);
      HistoryGrows(t, init);
      if last.TurnEvent? {
        TurnExtends(Run(t, init).memory, last.text, last.outcome);
      } else {
        assert forall e | e in events && e.TurnEvent? :: e in init;
      }
    }
  }

  function RoleOf(shown: DisplayRole): string {
    match shown
    case ShownUser => "user"
    case ShownAssistant => "assistant"
    case ShownCommand => "command"
    case ShownError => "error"
    case ShownSystem => "system"
  }

  /** What turns put in the display log, as the rows it was stored as. */
  function Logged(m: Memory): seq<StoredMessage> {
    var told := Told(m.display);
    seq(|told|, i requires 0 <= i < |told| => StoredMessage(m.conversation.id, RoleOf(told[i].role), told[i].text))
  }

  /** From `unlogged` on, what turns put in the log is the last stored rows. */
  ghost predicate ShowsTail(m: Memory, unlogged: nat) {
    && unlogged <= |Logged(m)| <= |Rows(m)| + unlogged
    && Logged(m)[unlogged..] == Rows(m)[|Rows(m)| + unlogged - |Logged(m)|..]
  }

  lemma SayShowsTail(m: Memory, role: string, shown: DisplayRole, text: string, unlogged: nat)
    requires ShowsTail(m, unlogged) && role == RoleOf(shown) && !IsAside(HistoryEntry(shown, text))
    ensures ShowsTail(Say(m, role, shown, text), unlogged)
  {
    var row := StoredMessage(m.conversation.id, role, text);
    MessagesAfterAppend(m.tables.messages, row, m.conversation.id);
    ToldAfter(m.display, HistoryEntry(shown, text));
    assert Logged(Say(m, role, shown, text)) == Logged(m) + [row];
    TailsGrow(Logged(m), unlogged, Rows(m), |Rows(m)| + unlogged - |Logged(m)|, [row]);
  }

  lemma FinishShowsTail(m: Memory, outcome: Outcome, unlogged: nat)
    requires ShowsTail(m, unlogged)
    ensures ShowsTail(Finish(m, outcome), unlogged)
  {
    match outcome
    case Replied(content) => SayShowsTail(m, "assistant", ShownAssistant, content, unlogged);
    case Failed(error) => SayShowsTail(m, "error", ShownError, ErrorText(error), unlogged);
    case MissionFailed(reason) => SayShowsTail(m, "error", ShownError, MISSION_ERROR + reason, unlogged);
    case Raised =>
  }

  lemma TurnShowsTail(m: Memory, text: string, outcome: Outcome, unlogged: nat)
    requires ShowsTail(m, unlogged)
    ensures ShowsTail(Turn(m, text, outcome), unlogged)
  {
    SayShowsTail(m, "user", ShownUser, text, unlogged);
    var said := Say(m, "user", ShownUser, text);
    if !TitleFails(m, text) {
      SameTail(said, Titled(said, text), unlogged);
      FinishShowsTail(Titled(said, text), outcome, unlogged);
    }
  }

  lemma OthersKeepRows(m: Memory, e: Event)
    requires IsPossible(m, e) && (e.OtherAppend? || e.OtherDelete?)
    ensures Rows(Apply(m, e)) == Rows(m)
  {
    match e
    case OtherAppend(s, role, content) =>
      MessagesAfterAppend(m.tables.messages, StoredMessage(s, role, content), m.conversation.id);
      assert Rows(Apply(m, e)) == Rows(m) + [];
    case OtherDelete(s) => MessagesAfterDelete(m.tables.messages, s, m.conversation.id);
  }

  lemma SameTail(m: Memory, n: Memory, unlogged: nat)
    requires ShowsTail(m, unlogged) && Rows(m) == Rows(n) && m.conversation == n.conversation
    requires Told(m.display) == Told(n.display)
    ensures ShowsTail(n, unlogged)
  {
    assert Logged(m) == Logged(n);
  }

  lemma FollowShowsTail(t: Tracked, e: Event)
    requires ShowsTail(t.memory, t.gap.unlogged) && IsPossible(t.memory, e)
    ensures ShowsTail(Follow(t, e).memory, Follow(t, e).gap.unlogged)
    ensures Follow(t, e).memory.conversation.id == t.memory.conversation.id
  {
    match e
    case TurnEvent(text, outcome) =>
      TurnShowsTail(t.memory, text, outcome, t.gap.unlogged);
      TurnExtends(t.memory, text, outcome);
    case ClearEvent =>
    case DeleteEvent =>
      MessagesAfterDelete(t.memory.tables.messages, t.memory.conversation.id, t.memory.conversation.id);
    case RecordEvent(entry) =>
      ToldAfter(t.memory.display, entry);
      SameTail(t.memory, Apply(t.memory, e), t.gap.unlogged);
    case _ =>
      OthersKeepRows(t.memory, e);
      SameTail(t.memory, Apply(t.memory, e), t.gap.unlogged);
  }

  /** Over any run the display log without its command entries, errors included, shows the last rows
      stored for the session, as many as it has such entries since those rows were last deleted. */
  lemma {:induction false} DisplayShowsTail(start: Tracked, events: seq<Event>)
    requires ShowsTail(start.memory, start.gap.unlogged) && forall e | e in events :: IsPossible(start.memory, e)
    ensures ShowsTail(Run(start, events).memory, Run(start, events).gap.unlogged)
    ensures Run(start, events).memory.conversation.id == start.memory.conversation.id
    ensures start.gap.unlogged == 0 && DeleteEvent !in events ==> Run(start, events).gap.unlogged == 0
  {
    if events != [] {
      var last := events[|events| - 1];
      DisplayShowsTail(start, events[..|events| - 1]);
      assert last in events && IsPossible(start.memory, last);
      FollowShowsTail(Run(start, events[..|events| - 1]), last);
    }
  }

  /** A session begun where nothing is stored, or loaded from the store, forgets nothing. */
  lemma NewSessionsRemember(tables: Tables, id: SessionId, staticPrefix: seq<ChatMessage>)
    requires CountsMatch(tables)
    ensures var t := BeginTracked(tables, id, staticPrefix);
            && Remembers(t.memory, t.gap) && ShowsTail(t.memory, t.gap.unlogged)
            && (t.gap.forgotten == 0 <==> Dialogue(tables, id) == [])
            && t.memory.conversation == ConversationState(id, staticPrefix, []) && t.memory.display == []
            && t.memory.tables.messages == tables.messages
            && t.memory.tables.sessions
                 == if id in tables.sessions then tables.sessions else tables.sessions[id := SessionRow(None, 0)]
    ensures Loaded(tables, id, staticPrefix).Some? <==> id in tables.sessions
    ensures Loaded(tables, id, staticPrefix).Some? ==>
              var t := Loaded(tables, id, staticPrefix).value;
              Remembers(t.memory, t.gap) && ShowsTail(t.memory, t.gap.unlogged) && t.gap == Gap(0, 0, 0)
  {
  }

  class InterfaceSession {
    const store: SessionStore
    var conversation: ConversationState
    var display: seq<HistoryEntry>

    constructor (id: SessionId, staticPrefix: seq<ChatMessage>, sessionStore: SessionStore)
      modifies sessionStore
      ensures store == sessionStore && State() == Begin(old(sessionStore.State()), id, staticPrefix)
    {
      store := sessionStore;
      conversation := ConversationState(id, staticPrefix, []);
      display := [];
      new;
      sessionStore.EnsureSession(id);
    }

    function State(): Memory
      reads this, store
    {
      Memory(conversation, display, store.State())
    }

    /** Puts an entry in the display log alone. */
    method Record(role: DisplayRole, text: string)
      modifies this
      ensures State() == Recorded(old(State()), HistoryEntry(role, text))
           == Apply(old(State()), RecordEvent(HistoryEntry(role, text)))
      ensures display == old(display) + [HistoryEntry(role, text)] && conversation == old(conversation)
    {
      display := display + [HistoryEntry(role, text)];
    }

    method Clear()
      modifies this
      ensures State() == Cleared(old(State())) == Apply(old(State()), ClearEvent)
      ensures display == [] && conversation == old(conversation).(history := [])
    {
      conversation := conversation.(history := []);
      display := [];
    }

    /** Submits one text; `outcome` stands for what everything behind the session makes of it.
        The answer is false when an exception ended the turn. */
    method SubmitText(text: string, outcome: Outcome) returns (completed: bool)
      modifies this, store
      ensures State() == Turn(old(State()), text, outcome) == Apply(old(State()), TurnEvent(text, outcome))
      ensures completed <==> Completes(old(State()), text, outcome)
    {
      display := display + [HistoryEntry(ShownUser, text)];
      conversation := conversation.(history := conversation.history + [ChatMessage("user", text)]);
      store.AppendMessage(conversation.id, "user", text);
      var existing := store.GetSession(conversation.id);
      if existing.Some? && existing.value.title.None? {
        var title := TitleOf(text);
        if title.None? {
          return false;
        }
        TitleIsOneLine(text);
        if title.value != "" {
          var _ := store.SetTitle(conversation.id, title.value);
        }
      }
      if outcome == Raised {
        return false;
      }
      FinalizeTurn(outcome);
      completed := true;
    }

    method FinalizeTurn(outcome: Outcome)
      requires outcome != Raised
      modifies this, store
      ensures State() == Finish(old(State()), outcome)
    {
      match outcome {
        case Replied(content) =>
          conversation := conversation.(history := conversation.history + [ChatMessage("assistant", content)]);
          display := display + [HistoryEntry(ShownAssistant, content)];
          store.AppendMessage(conversation.id, "assistant", content);
        case Failed(error) =>
          var text := if error.Some? && error.value != "" then error.value else DEFAULT_ERROR;
          display := display + [HistoryEntry(ShownError, text)];
          store.AppendMessage(conversation.id, "error", text);
        case MissionFailed(reason) =>
          display := display + [HistoryEntry(ShownError, MISSION_ERROR + reason)];
          store.AppendMessage(conversation.id, "error", MISSION_ERROR + reason);
      }
    }

    /** Rebuilds a conversation from the stored rows. */
    static method Load(sessionStore: SessionStore, id: SessionId, staticPrefix: seq<ChatMessage>)
      returns (r: Result<ConversationState, StoreError>)
      ensures var c := LoadState(sessionStore.State(), id, staticPrefix);
              r == if c.Some? then Ok(c.value) else Err(SessionNotFound)
    {
      var session := sessionStore.GetSession(id);
      if session.None? {
        return Err(SessionNotFound);
      }
      var rows := sessionStore.GetMessages(id);
      var state := ConversationState(id, staticPrefix, []);
      for i := 0 to |rows|
        invariant state == ConversationState(id, staticPrefix, Conversation(rows[..i]))
      {
        assert rows[..i + 1][..i] == rows[..i];
        if rows[i].role != "system" && rows[i].role in {"user", "assistant"} {
          state := state.(history := state.history + [ChatMessage(rows[i].role, rows[i].content)]);
        }
      }
      assert rows[..|rows|] == rows;
      r := Ok(state);
    }
  }
}
