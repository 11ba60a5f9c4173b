/** The assistant's orchestration around the language model: the history
    window handed to the agent, the contextual user turn, the scan of the
    agent's message trace for the form trigger, the append-and-trim of
    the stored history, and the two tools whose logic is local (issue
    statistics and popular issues). The agent itself is a parameter: a
    function from the input turns to a message trace, or to nothing when
    the call fails. */
module Chatbot {
  import opened Common
  import opened Json
  import opened Conversations
  import IssueTypes
  import IssueQuery
  import Sorting

  /** A turn of the model input. */
  datatype Turn = HumanTurn(content: string) | AiTurn(content: string)

  const WindowSize := 10
  const ContextPrefix := "\n\nCurrent conversation context: "
  const IdLabel := "User ID: "
  const NameLabel := ", User Name: "
  const QuestionLabel := "\n\nUser Question: "

  const TriggerToolName := "trigger_issue_creation_form"
  const OpenFormSignal := "__OPEN_ISSUE_FORM__"
  const FallbackReply := "I'm not sure how to help with that. Could you please rephrase your question?"
  const OfflineReply := "I'm currently offline. Please check your issues in the dashboard or contact support."
  const ErrorReply := "I encountered an error processing your request. Please try again or contact support if the issue persists."

  /** A user message becomes a human turn; assistant and system messages
      become AI turns. */
  function TurnOf(m: Message): (t: Turn)
    ensures t.content == m.content
    ensures t.HumanTurn? <==> m.role == UserRole
  {
    if m.role == UserRole then HumanTurn(m.content) else AiTurn(m.content)
  }

  /** `summarizeMessages`: the last ten messages, oldest first. */
  function SummarizeMessages(ms: seq<Message>): (r: seq<Turn>)
    ensures |r| == Min(WindowSize, |ms|)
    ensures forall k :: 0 <= k < |r| ==> r[k] == TurnOf(ms[|ms| - |r| + k])
  {
    var recent := if |ms| <= WindowSize then ms else ms[|ms| - WindowSize..];
    seq(|recent|, k requires 0 <= k < |recent| => TurnOf(recent[k]))
  }

  /** `getContextFromConversation`: nothing for an empty context, else the
      labelled JSON object. */
  function ContextInfo(ctx: Context): (r: string)
    ensures r == "" <==> ctx == []
    ensures ctx != [] ==> r == ContextPrefix + ObjectText(ctx)
  {
    if ctx == [] then "" else ContextPrefix + ObjectText(ctx)
  }

  /** The user turn as the agent sees it: id, the name when known, the
      context, then the question. */
  function ContextualMessage(userId: IssueTypes.UserId, userName: Option<string>, info: string, message: string)
    : (r: string)
    ensures IdLabel + userId <= r
    ensures |QuestionLabel + message| <= |r| && r[|r| - |QuestionLabel + message|..] == QuestionLabel + message
  {
    var head, tail := IdLabel + userId, QuestionLabel + message;
    var r := head + ((if Truthy(userName) then NameLabel + userName.value else "") + info) + tail;
    assert r[..|head|] == head && r[|r| - |tail|..] == tail;
    r
  }

  /** The contextual message opens with the user id, closes with the
      question exactly as typed, and holds in between the name part
      exactly when a name is known, followed by the context. */
  lemma ContextualMessageParts(userId: IssueTypes.UserId, userName: Option<string>, info: string, message: string)
    ensures var r := ContextualMessage(userId, userName, info, message);
            var name := if Truthy(userName) then NameLabel + userName.value else "";
            && |r| == |IdLabel + userId| + |name| + |info| + |QuestionLabel + message|
            && r[..|IdLabel + userId|] == IdLabel + userId
            && r[|IdLabel + userId|..|r| - |QuestionLabel + message|] == name + info
            && r[|r| - |QuestionLabel + message|..] == QuestionLabel + message
  {
    var head := IdLabel + userId;
    var name := if Truthy(userName) then NameLabel + userName.value else "";
    var tail := QuestionLabel + message;
    var r := ContextualMessage(userId, userName, info, message);
    assert r == head + (name + info) + tail;
    assert r[..|head|] == head;
    assert r[|head|..|r| - |tail|] == name + info;
    assert r[|r| - |tail|..] == tail;
  }

  /** `[...history.slice(0, -1), new HumanMessage(contextual)]`. */
  function ModelInput(history: seq<Turn>, contextual: string): seq<Turn> {
    (if history == [] then [] else history[..|history| - 1]) + [HumanTurn(contextual)]
  }

  /** After the user turn is pushed, the model sees at most ten turns: the
      last (up to) nine turns before it, in order, and then the contextual
      message in place of the raw user turn. */
  lemma {:induction false} ModelInputShape(before: seq<Message>, user: Message, contextual: string)
    ensures var input := ModelInput(SummarizeMessages(before + [user]), contextual);
            && |input| == Min(WindowSize - 1, |before|) + 1
            && input[|input| - 1] == HumanTurn(contextual)
            && forall k :: 0 <= k < |input| - 1 ==> input[k] == TurnOf(before[|before| - (|input| - 1) + k])
  {
    var ms := before + [user];
    var window := SummarizeMessages(ms);
    var input := ModelInput(window, contextual);
    assert |window| >= 1;
    forall k | 0 <= k < |input| - 1
      ensures input[k] == TurnOf(before[|before| - (|input| - 1) + k])
    {
      assert input[k] == window[k];
      assert ms[|ms| - |window| + k] == before[|before| - (|input| - 1) + k];
    }
  }

  /** One message of the agent's trace: its content when that is a
      string, and the names of its tool calls when it has a tool-call
      array. */
  datatype TraceMessage = TraceMessage(content: Option<string>, toolCalls: Option<seq<string>>)

  predicate CallsTrigger(m: TraceMessage) {
    m.toolCalls.Some? && TriggerToolName in m.toolCalls.value
  }

  /** Some message of the trace calls the form trigger. */
  predicate TriggerRequested(trace: seq<TraceMessage>) {
    exists k :: 0 <= k < |trace| && CallsTrigger(trace[k])
  }

  /** `s.includes(sub)`. */
  predicate Contains(s: string, sub: string) {
    exists i :: 0 <= i <= |s| && sub <= s[i..]
  }

  /** The reply the orchestrator derives from a trace: the form signal when
      the trigger was called, otherwise the last message's text, otherwise
      the fallback phrase. */
  function ReplyFor(trace: seq<TraceMessage>): (r: string)
    ensures TriggerRequested(trace) ==> r == OpenFormSignal
    ensures !TriggerRequested(trace) && trace != [] && trace[|trace| - 1].content.Some? ==>
              r == trace[|trace| - 1].content.value
    ensures !TriggerRequested(trace) && (trace == [] || trace[|trace| - 1].content.None?) ==>
              r == FallbackReply
  {
    if TriggerRequested(trace) then OpenFormSignal
    else if trace != [] && trace[|trace| - 1].content.Some? then trace[|trace| - 1].content.value
    else FallbackReply
  }

  /** The reply is the form signal exactly when the trigger was called or
      the model's last text is the signal itself. */
  lemma ReplyIsSignal(trace: seq<TraceMessage>)
    ensures ReplyFor(trace) == OpenFormSignal <==>
              TriggerRequested(trace)
              || (trace != [] && trace[|trace| - 1].content == Some(OpenFormSignal))
  {
  }

  /** The flag loops of `processChatMessage`: look for a trigger call,
      then for the marker among the text contents, and otherwise take the
      last message's text. */
  method ExtractResponse(trace: seq<TraceMessage>) returns (responseText: string)
    ensures responseText == ReplyFor(trace)
  {
    responseText := FallbackReply;
    var shouldTriggerForm := false;
    for i := 0 to |trace|
      invariant shouldTriggerForm ==> TriggerRequested(trace)
      invariant !shouldTriggerForm ==> forall k :: 0 <= k < i ==> !CallsTrigger(trace[k])
    {
      var msg := trace[i];
      if msg.toolCalls.Some? {
        var calls := msg.toolCalls.value;
        for j := 0 to |calls|
          invariant shouldTriggerForm ==> CallsTrigger(msg)
          invariant !shouldTriggerForm ==> forall l :: 0 <= l < j ==> calls[l] != TriggerToolName
        {
          if calls[j] == TriggerToolName {
            shouldTriggerForm := true;
            break;
          }
        }
      }
      if shouldTriggerForm {
        break;
      }
    }
    if shouldTriggerForm {
      for i := 0 to |trace| {
        var msg := trace[i];
        if msg.content.Some? && Contains(msg.content.value, FormTriggerMarker) {
          responseText := OpenFormSignal;
          break;
        }
      }
      if responseText != OpenFormSignal {
        responseText := OpenFormSignal;
      }
    } else if |trace| > 0 && trace[|trace| - 1].content.Some? {
      responseText := trace[|trace| - 1].content.value;
    }
  }

  /** The record `processChatMessage` saves after a successful exchange:
      the user turn and the reply appended and the history trimmed to 50,
      with `creatingIssue` set when the agent called the form trigger. */
  function Exchanged(rec: ConversationRecord, message: string, trace: seq<TraceMessage>, now: int)
    : (r: ConversationRecord)
    ensures r == rec.(messages := r.messages, context := r.context)
    ensures |r.messages| <= HistoryCap
  {
    var history := rec.messages + [Message(UserRole, message, now), Message(AssistantRole, ReplyFor(trace), now)];
    var context := if TriggerRequested(trace) then Assign(rec.context, CreatingIssueKey, JBool(true)) else rec.context;
    rec.(messages := Trimmed(history, HistoryCap), context := context)
  }

  /** The saved history holds at most 50 turns, ends with the user turn and
      the reply, keeps the older turns in order, and only the oldest are
      dropped; context keys other than `creatingIssue` are untouched. */
  lemma ExchangedHistory(rec: ConversationRecord, message: string, trace: seq<TraceMessage>, now: int)
    ensures var h := Exchanged(rec, message, trace, now).messages;
            && |h| == Min(|rec.messages| + 2, HistoryCap)
            && h[|h| - 1] == Message(AssistantRole, ReplyFor(trace), now)
            && h[|h| - 2] == Message(UserRole, message, now)
            && forall k :: 0 <= k < |h| - 2 ==> h[k] == rec.messages[|rec.messages| - (|h| - 2) + k]
    ensures var c := Exchanged(rec, message, trace, now).context;
            && (TriggerRequested(trace) ==> Lookup(c, CreatingIssueKey) == Some(JBool(true)))
            && (!TriggerRequested(trace) ==> c == rec.context)
            && forall k :: k != CreatingIssueKey ==> Lookup(c, k) == Lookup(rec.context, k)
  {
    var history := rec.messages + [Message(UserRole, message, now), Message(AssistantRole, ReplyFor(trace), now)];
    var h := Exchanged(rec, message, trace, now).messages;
    assert h == Trimmed(history, HistoryCap);
    forall k | 0 <= k < |h| - 2 ensures h[k] == rec.messages[|rec.messages| - (|h| - 2) + k] {
      assert h[k] == history[|history| - |h| + k];
    }
  }

  /** The turns handed to the agent for a conversation: the window of its
      history with the new user turn, and the contextual message in place
      of that turn. */
  function AgentInput(rec: ConversationRecord, message: string, userId: IssueTypes.UserId,
                      userName: Option<string>, now: int): seq<Turn>
  {
    ModelInput(SummarizeMessages(rec.messages + [Message(UserRole, message, now)]),
               ContextualMessage(userId, userName, ContextInfo(rec.context), message))
  }

  /** What `processChatMessage` answers and the stored conversations it
      leaves. Without an API key it answers offline and touches nothing.
      Otherwise it opens the user's conversation (a new one is stored at
      once), hands the window and the contextual message to the agent, and
      saves the exchange. A failure of the load, the agent or the save
      yields the error reply; the turns pushed in memory are then lost.
      At most one conversation is added, and only the opened one can
      change. */
  function ChatOutcome(records: seq<ConversationRecord>, message: string, userId: IssueTypes.UserId,
                       userName: Option<string>, apiKeyConfigured: bool, loadOk: bool,
                       agent: seq<Turn> -> Option<seq<TraceMessage>>, saveOk: bool, now: int)
    : (r: (string, seq<ConversationRecord>))
    ensures |records| <= |r.1| <= |records| + 1
    ensures forall j :: 0 <= j < |records| && j != Opened(records, userId, now).1 ==> r.1[j] == records[j]
  {
    if !apiKeyConfigured then (OfflineReply, records)
    else if !loadOk then (ErrorReply, records)
    else
      var (rs, k) := Opened(records, userId, now);
      match agent(AgentInput(rs[k], message, userId, userName, now))
      case None => (ErrorReply, rs)
      case Some(trace) =>
        if !saveOk then (ErrorReply, rs)
        else (ReplyFor(trace), rs[k := Exchanged(rs[k], message, trace, now).(updatedAt := now)])
  }

  /** The record `Exchanged` builds, as the steps of `processChatMessage`
      produce it: the context after the optional form trigger, then both
      turns pushed and the history trimmed. */
  lemma ExchangedBySteps(rec: ConversationRecord, message: string, trace: seq<TraceMessage>, now: int,
                         ctx: Context)
    requires ctx == if TriggerRequested(trace) then Assign(rec.context, CreatingIssueKey, JBool(true)) else rec.context
    ensures Exchanged(rec, message, trace, now)
            == rec.(messages := Trimmed(rec.messages + [Message(UserRole, message, now)]
                                        + [Message(AssistantRole, ReplyFor(trace), now)], HistoryCap),
                    context := ctx)
  {
    var user, reply := Message(UserRole, message, now), Message(AssistantRole, ReplyFor(trace), now);
    assert rec.messages + [user] + [reply] == rec.messages + [user, reply];
  }

  /** `ChatOutcome` once the key is configured and the load succeeded,
      path by path, for the conversation `Opened` picks. */
  lemma OnlineOutcome(records: seq<ConversationRecord>, message: string, userId: IssueTypes.UserId,
                      userName: Option<string>, agent: seq<Turn> -> Option<seq<TraceMessage>>,
                      saveOk: bool, now: int, rs: seq<ConversationRecord>, k: nat)
    requires (rs, k) == Opened(records, userId, now)
    ensures var outcome := agent(AgentInput(rs[k], message, userId, userName, now));
            ChatOutcome(records, message, userId, userName, true, true, agent, saveOk, now)
            == if outcome.None? || !saveOk then (ErrorReply, rs)
               else (ReplyFor(outcome.value), rs[k := Exchanged(rs[k], message, outcome.value, now).(updatedAt := now)])
  {
  }

  /** Every stored conversation keeps at most 50 turns and a context with
      each key once. */
  predicate WellKept(rs: seq<ConversationRecord>) {
    forall j :: 0 <= j < |rs| ==> |rs[j].messages| <= HistoryCap && DistinctKeys(rs[j].context)
  }

  /** A chat call changes at most the user's own conversation: every stored
      conversation of another user is as it was, a conversation added is
      the user's, and without an API key or on a failed load nothing
      changes. */
  lemma ChatTouchesOnlyTheUsersConversation(records: seq<ConversationRecord>, message: string,
                                            userId: IssueTypes.UserId, userName: Option<string>,
                                            apiKeyConfigured: bool, loadOk: bool,
                                            agent: seq<Turn> -> Option<seq<TraceMessage>>,
                                            saveOk: bool, now: int)
    ensures var (reply, after) := ChatOutcome(records, message, userId, userName, apiKeyConfigured, loadOk, agent, saveOk, now);
            && (!apiKeyConfigured ==> reply == OfflineReply && after == records)
            && (apiKeyConfigured && !loadOk ==> reply == ErrorReply && after == records)
            && (forall j :: 0 <= j < |records| && records[j].userId != userId ==> after[j] == records[j])
            && (|after| == |records| + 1 ==> after[|records|].userId == userId)
  {
    if apiKeyConfigured && loadOk {
      var (rs, k) := Opened(records, userId, now);
      assert rs[k].userId == userId;
    }
  }

  /** Once the conversation is open: a failed agent call or a failed save
      answers with the error reply and keeps only what
      `getOrCreateConversation` stored; a saved exchange answers with the
      trace's reply, which is the last turn of the user's stored
      conversation. */
  lemma ChatFollowsEachPath(records: seq<ConversationRecord>, message: string,
                            userId: IssueTypes.UserId, userName: Option<string>,
                            agent: seq<Turn> -> Option<seq<TraceMessage>>, saveOk: bool, now: int)
    ensures var (reply, after) := ChatOutcome(records, message, userId, userName, true, true, agent, saveOk, now);
            var (rs, k) := Opened(records, userId, now);
            var outcome := agent(AgentInput(rs[k], message, userId, userName, now));
            && (outcome.None? || !saveOk ==> reply == ErrorReply && after == rs)
            && (outcome.Some? && saveOk ==>
                  && reply == ReplyFor(outcome.value)
                  && |after| == |rs| && after[k].userId == userId && after[k].messages != []
                  && after[k].messages[|after[k].messages| - 1] == Message(AssistantRole, reply, now))
  {
    var (rs, k) := Opened(records, userId, now);
    var outcome := agent(AgentInput(rs[k], message, userId, userName, now));
    if outcome.Some? && saveOk {
      ExchangedHistory(rs[k], message, outcome.value, now);
    }
  }

  /** Every chat call keeps each stored conversation within 50 turns and
      its context keys unique. */
  lemma ChatKeepsConversationsWellKept(records: seq<ConversationRecord>, message: string,
                                       userId: IssueTypes.UserId, userName: Option<string>,
                                       apiKeyConfigured: bool, loadOk: bool,
                                       agent: seq<Turn> -> Option<seq<TraceMessage>>,
                                       saveOk: bool, now: int)
    requires WellKept(records)
    ensures WellKept(ChatOutcome(records, message, userId, userName, apiKeyConfigured, loadOk, agent, saveOk, now).1)
  {
    if apiKeyConfigured && loadOk {
      var (rs, k) := Opened(records, userId, now);
      OpenedWellKept(records, userId, now);
      OnlineOutcome(records, message, userId, userName, agent, saveOk, now, rs, k);
      var outcome := agent(AgentInput(rs[k], message, userId, userName, now));
      if outcome.Some? && saveOk {
        ExchangedWellKept(rs[k], message, outcome.value, now);
        var after := rs[k := Exchanged(rs[k], message, outcome.value, now).(updatedAt := now)];
        assert forall j :: 0 <= j < |after| ==> after[j] == rs[j] || j == k;
      }
    }
  }

  /** Opening a conversation keeps the collection well kept: a new
      conversation starts empty. */
  lemma OpenedWellKept(records: seq<ConversationRecord>, userId: IssueTypes.UserId, now: int)
    requires WellKept(records)
    ensures WellKept(Opened(records, userId, now).0)
  {
    var rs := Opened(records, userId, now).0;
    if |rs| > |records| {
      assert rs[|records|] == NewConversation(userId, now);
    }
  }

  /** A saved exchange keeps at most 50 turns and each context key once. */
  lemma ExchangedWellKept(rec: ConversationRecord, message: string, trace: seq<TraceMessage>, now: int)
    requires DistinctKeys(rec.context)
    ensures |Exchanged(rec, message, trace, now).messages| <= HistoryCap
    ensures DistinctKeys(Exchanged(rec, message, trace, now).context)
  {
    if TriggerRequested(trace) {
      AssignKeepsDistinct(rec.context, CreatingIssueKey, JBool(true));
    }
  }

  /** `processChatMessage`, proved against `ChatOutcome`. */
  method ProcessChatMessage(store: ConversationStore, message: string, userId: IssueTypes.UserId,
                            userName: Option<string>, apiKeyConfigured: bool, loadOk: bool,
                            agent: seq<Turn> -> Option<seq<TraceMessage>>, saveOk: bool, now: int)
    returns (response: string)
    modifies store
    ensures (response, store.records) ==
            ChatOutcome(old(store.records), message, userId, userName, apiKeyConfigured, loadOk, agent, saveOk, now)
  {
    if !apiKeyConfigured {
      return OfflineReply;
    }
    if !loadOk {
      return ErrorReply;
    }
    ghost var records := store.records;
    var k := store.GetOrCreate(userId, now);
    ghost var rs := store.records;
    ghost var rec := rs[k];
    OnlineOutcome(records, message, userId, userName, agent, saveOk, now, rs, k);
    var conversation := new Conversation.Load(store.records[k]);
    var userTurn := Message(UserRole, message, now);
    conversation.Push(userTurn);
    assert conversation.messages == rec.messages + [userTurn] && conversation.context == rec.context;
    var history := SummarizeMessages(conversation.messages);
    var contextInfo := ContextInfo(conversation.context);
    var contextual := ContextualMessage(userId, userName, contextInfo, message);
    var outcome := agent(ModelInput(history, contextual));
    assert ModelInput(history, contextual) == AgentInput(rec, message, userId, userName, now);
    if outcome.None? {
      return ErrorReply;
    }
    var trace := outcome.value;
    if TriggerRequested(trace) {
      var _ := conversation.TriggerIssueCreationForm();
    }
    ghost var ctx := conversation.context;
    assert ctx == if TriggerRequested(trace) then Assign(rec.context, CreatingIssueKey, JBool(true)) else rec.context;
    var responseText := ExtractResponse(trace);
    var replyTurn := Message(AssistantRole, responseText, now);
    conversation.Push(replyTurn);
    conversation.TrimHistory();
    assert conversation.Snapshot()
           == rec.(messages := Trimmed(rec.messages + [userTurn] + [replyTurn], HistoryCap), context := ctx);
    ExchangedBySteps(rec, message, trace, now, ctx);
    if !saveOk {
      return ErrorReply;
    }
    store.Save(k, conversation.Snapshot(), now);
    response := responseText;
  }

  // ---------------------------------------------------------------------
  // The statistics tool.

  datatype Scope = UserScope | CommunityScope

  /** The resolution rate: "0%" for no issues, otherwise resolved over
      total (its percentage text is not modelled). */
  datatype Rate = ZeroPercent | ResolvedShare(resolved: nat, total: nat)

  datatype IssueStats = IssueStats(
    scope: Scope,
    total: nat,
    open: nat,
    inProgress: nat,
    resolved: nat,
    closed: nat,
    byCategory: seq<(string, nat)>,
    rate: Rate)

  /** The issues the tool counts: the given user's, or all of them when no
      user id is given. */
  function InScope(docs: seq<IssueTypes.Issue>, userId: Option<string>): seq<IssueTypes.Issue> {
    Filter(docs, (i: IssueTypes.Issue) => !Truthy(userId) || i.userId == userId.value)
  }

  /** `countDocuments({ ...query, status })` over the in-scope issues. */
  function CountStatus(s: seq<IssueTypes.Issue>, st: IssueTypes.Status): nat {
    if s == [] then 0 else (if s[0].status == st then 1 else 0) + CountStatus(s[1..], st)
  }

  /** The number of issues with category `c`. */
  function CountCategory(s: seq<IssueTypes.Issue>, c: string): nat {
    if s == [] then 0
    else CountCategory(s[..|s| - 1], c) + (if s[|s| - 1].category == c then 1 else 0)
  }

  /** `categoryMap[c] = (categoryMap[c] || 0) + 1`. */
  function Bump(m: seq<(string, nat)>, c: string): seq<(string, nat)> {
    Assign(m, c, Lookup(m, c).GetOr(0) + 1)
  }

  /** The category map after the `forEach` has visited all of `s`, each
      issue adding at most one key. This is the counting the tool is meant
      to do; `ObjectCounts` below is the plain object as written. */
  function CategoryCounts(s: seq<IssueTypes.Issue>): (r: seq<(string, nat)>)
    ensures |r| <= |s|
  {
    if s == [] then [] else Bump(CategoryCounts(s[..|s| - 1]), s[|s| - 1].category)
  }

  function SumCounts(m: seq<(string, nat)>): nat {
    if m == [] then 0 else m[0].1 + SumCounts(m[1..])
  }

  /** Bumping a key raises the sum of the counts by one. */
  lemma {:induction false} BumpSum(m: seq<(string, nat)>, c: string)
    ensures SumCounts(Bump(m, c)) == SumCounts(m) + 1
  {
    if m != [] && m[0].0 != c {
      BumpSum(m[1..], c);
      assert Lookup(m, c) == Lookup(m[1..], c);
      assert Bump(m, c) == [m[0]] + Bump(m[1..], c);
    }
  }

  /** Every category has its exact count (0 when unseen). */
  lemma {:induction false} CategoryCountsExact(s: seq<IssueTypes.Issue>)
    ensures forall c :: Lookup(CategoryCounts(s), c).GetOr(0) == CountCategory(s, c)
  {
    if s != [] {
      CategoryCountsExact(s[..|s| - 1]);
    }
  }

  /** Some issue of `s` has category `c`. */
  predicate Occurs(s: seq<IssueTypes.Issue>, c: string) {
    exists k :: 0 <= k < |s| && s[k].category == c
  }

  /** A category occurs in a non-empty sequence exactly when it occurs
      before the last issue or is the last issue's. */
  lemma OccursSplit(s: seq<IssueTypes.Issue>)
    requires s != []
    ensures forall c :: Occurs(s, c) <==> Occurs(s[..|s| - 1], c) || s[|s| - 1].category == c
  {
    var init := s[..|s| - 1];
    forall c ensures Occurs(s, c) <==> Occurs(init, c) || s[|s| - 1].category == c {
      if Occurs(s, c) && s[|s| - 1].category != c {
        var k :| 0 <= k < |s| && s[k].category == c;
        assert init[k] == s[k];
      }
      if Occurs(init, c) {
        var k :| 0 <= k < |init| && init[k].category == c;
        assert s[k] == init[k];
      }
    }
  }

  /** The keys of the category map are exactly the categories that occur. */
  lemma {:induction false} CategoryCountsKeys(s: seq<IssueTypes.Issue>)
    ensures forall c :: Lookup(CategoryCounts(s), c).Some? <==> Occurs(s, c)
  {
    if s != [] {
      CategoryCountsKeys(s[..|s| - 1]);
      OccursSplit(s);
    }
  }

  /** Each category is a key of the map once. */
  lemma {:induction false} CategoryCountsDistinct(s: seq<IssueTypes.Issue>)
    ensures DistinctKeys(CategoryCounts(s))
  {
    if s != [] {
      CategoryCountsDistinct(s[..|s| - 1]);
      BumpKeepsDistinct(CategoryCounts(s[..|s| - 1]), s[|s| - 1].category);
    }
  }

  lemma BumpKeepsDistinct(m: seq<(string, nat)>, c: string)
    requires DistinctKeys(m)
    ensures DistinctKeys(Bump(m, c))
  {
    AssignKeepsDistinct(m, c, Lookup(m, c).GetOr(0) + 1);
  }

  /** The counts add up to the number of issues. */
  lemma {:induction false} CategoryCountsSum(s: seq<IssueTypes.Issue>)
    ensures SumCounts(CategoryCounts(s)) == |s|
  {
    if s != [] {
      CategoryCountsSum(s[..|s| - 1]);
      BumpSum(CategoryCounts(s[..|s| - 1]), s[|s| - 1].category);
    }
  }

  /** The `forEach` that fills the category map. */
  method CategoryBreakdown(issues: seq<IssueTypes.Issue>) returns (categoryMap: seq<(string, nat)>)
    ensures categoryMap == CategoryCounts(issues)
  {
    categoryMap := [];
    for i := 0 to |issues|
      invariant categoryMap == CategoryCounts(issues[..i])
    {
      assert issues[..i + 1][..i] == issues[..i];
      categoryMap := Bump(categoryMap, issues[i].category);
    }
    assert issues[..|issues|] == issues;
  }

  // The category map as written: `categoryMap` is a plain object, so a
  // read of a missing key falls through to `Object.prototype`.

  /** The property names a plain object inherits from `Object.prototype`. */
  const PrototypeNames: seq<string> := [
    "constructor", "hasOwnProperty", "isPrototypeOf", "propertyIsEnumerable",
    "toLocaleString", "toString", "valueOf", "__defineGetter__", "__defineSetter__",
    "__lookupGetter__", "__lookupSetter__", "__proto__"]

  /** Whether `c` is one of `names`, checked entry by entry. */
  predicate Among(names: seq<string>, c: string) {
    names != [] && (names[0] == c || Among(names[1..], c))
  }

  /** Whether a plain object inherits a property named `c`. */
  predicate Inherited(c: string) {
    Among(PrototypeNames, c)
  }

  lemma {:induction false} AmongEntry(names: seq<string>, i: nat)
    requires i < |names|
    ensures Among(names, names[i])
  {
    if i > 0 {
      AmongEntry(names[1..], i - 1);
    }
  }

  /** A property value of the plain object: a count, or the text that `+ 1`
      makes of an inherited value. */
  datatype Tally = Count(n: nat) | Text(t: string)

  /** `value + 1`: arithmetic on a count, concatenation on text. */
  function PlusOne(v: Tally): Tally {
    match v
    case Count(n) => Count(n + 1)
    case Text(t) => Text(t + "1")
  }

  /** The text `+` makes of an inherited value: the source text of a
      native method, and "[object Object]" for the prototype itself. */
  function InheritedText(c: string): string {
    if c == "__proto__" then "[object Object]"
    else if c == "constructor" then "function Object() { [native code] }"
    else "function " + c + "() { [native code] }"
  }

  /** `categoryMap[c] || 0`: an own property, else the inherited value,
      else 0. */
  function ReadTally(m: seq<(string, Tally)>, c: string): Tally {
    match Lookup(m, c)
    case Some(v) => v
    case None => if Inherited(c) then Text(InheritedText(c)) else Count(0)
  }

  /** `categoryMap[c] = (categoryMap[c] || 0) + 1` on a plain object; the
      `__proto__` setter ignores a value that is not an object. */
  function BumpObject(m: seq<(string, Tally)>, c: string): seq<(string, Tally)> {
    if c == "__proto__" then m else Assign(m, c, PlusOne(ReadTally(m, c)))
  }

  /** The plain object after the `forEach` has visited all of `s`. */
  function ObjectCounts(s: seq<IssueTypes.Issue>): seq<(string, Tally)> {
    if s == [] then [] else BumpObject(ObjectCounts(s[..|s| - 1]), s[|s| - 1].category)
  }

  function AsTally(o: Option<nat>): Option<Tally> {
    if o.Some? then Some(Count(o.value)) else None
  }

  /** For every category that is not an `Object.prototype` name, the plain
      object holds exactly the count of the corrected map. */
  lemma ObjectCountsAgreeOffPrototype(s: seq<IssueTypes.Issue>)
    ensures forall c :: !Inherited(c) ==> Lookup(ObjectCounts(s), c) == AsTally(Lookup(CategoryCounts(s), c))
  {
    forall c | !Inherited(c)
      ensures Lookup(ObjectCounts(s), c) == AsTally(Lookup(CategoryCounts(s), c))
    {
      ObjectCountsAgreeOn(s, c);
    }
  }

  /** The agreement for one name, by induction on the issues visited. */
  lemma {:induction false} ObjectCountsAgreeOn(s: seq<IssueTypes.Issue>, c: string)
    requires !Inherited(c)
    ensures Lookup(ObjectCounts(s), c) == AsTally(Lookup(CategoryCounts(s), c))
  {
    if s != [] {
      var before, c0 := s[..|s| - 1], s[|s| - 1].category;
      ObjectCountsAgreeOn(before, c);
      assert ObjectCounts(s) == BumpObject(ObjectCounts(before), c0);
      assert CategoryCounts(s) == Bump(CategoryCounts(before), c0);
      BumpObjectAgrees(ObjectCounts(before), CategoryCounts(before), c0, c);
    }
  }

  /** One step of the `forEach` keeps the two maps in agreement on a name
      that is not inherited. */
  lemma BumpObjectAgrees(om: seq<(string, Tally)>, cm: seq<(string, nat)>, c0: string, c: string)
    requires !Inherited(c)
    requires Lookup(om, c) == AsTally(Lookup(cm, c))
    ensures Lookup(BumpObject(om, c0), c) == AsTally(Lookup(Bump(cm, c0), c))
  {
    if c == c0 {
      BumpObjectOwnName(om, cm, c0);
    } else {
      BumpObjectOtherName(om, cm, c0, c);
    }
  }

  /** Bumping a name that is not inherited counts up from its own value
      or 0, in both maps. */
  lemma BumpObjectOwnName(om: seq<(string, Tally)>, cm: seq<(string, nat)>, c0: string)
    requires !Inherited(c0)
    requires Lookup(om, c0) == AsTally(Lookup(cm, c0))
    ensures Lookup(BumpObject(om, c0), c0) == AsTally(Lookup(Bump(cm, c0), c0))
  {
    NotInheritedIsNotProto(c0);
    ReadOwnTally(om, cm, c0);
    BumpObjectSets(om, c0);
    BumpSets(cm, c0);
  }

  lemma NotInheritedIsNotProto(c: string)
    requires !Inherited(c)
    ensures c != "__proto__"
  {
    AmongEntry(PrototypeNames, 11);
  }

  /** A name that is not inherited reads as its own count, or 0. */
  lemma ReadOwnTally(om: seq<(string, Tally)>, cm: seq<(string, nat)>, c: string)
    requires !Inherited(c)
    requires Lookup(om, c) == AsTally(Lookup(cm, c))
    ensures ReadTally(om, c) == Count(Lookup(cm, c).GetOr(0))
  {
  }

  lemma BumpObjectSets(om: seq<(string, Tally)>, c: string)
    requires c != "__proto__"
    ensures Lookup(BumpObject(om, c), c) == Some(PlusOne(ReadTally(om, c)))
  {
  }

  lemma BumpSets(cm: seq<(string, nat)>, c: string)
    ensures Lookup(Bump(cm, c), c) == Some(Lookup(cm, c).GetOr(0) + 1)
  {
  }

  /** Bumping one name leaves every other name as it was, in both maps. */
  lemma BumpObjectOtherName(om: seq<(string, Tally)>, cm: seq<(string, nat)>, c0: string, c: string)
    requires c != c0
    requires Lookup(om, c) == AsTally(Lookup(cm, c))
    ensures Lookup(BumpObject(om, c0), c) == AsTally(Lookup(Bump(cm, c0), c))
  {
  }

  /** One issue filed under "toString": the program reports the text
      "function toString() { [native code] }1" for it, not the count 1. */
  lemma InheritedNameCountsAsText(i: IssueTypes.Issue)
    requires i.category == "toString"
    ensures Lookup(ObjectCounts([i]), "toString") == Some(Text("function toString() { [native code] }1"))
    ensures Lookup(CategoryCounts([i]), "toString") == Some(1) && CountCategory([i], "toString") == 1
  {
    assert [i][..0] == [];
    assert ReadTally([], "toString") == Text(InheritedText("toString"));
    ToStringSourceText();
  }

  /** The source text of the inherited `toString` method, with "1" appended. */
  lemma ToStringSourceText()
    ensures InheritedText("toString") + "1" == "function toString() { [native code] }1"
  {
    assert |"toString"| != |"__proto__"| && |"toString"| != |"constructor"|;
    assert "function " + "toString" == "function toString";
    assert "function toString" + "() { [native code] }" == "function toString() { [native code] }";
  }

  /** One issue filed under "__proto__": the program's map has no key for
      it, though one issue has that category. */
  lemma ProtoCategoryVanishes(i: IssueTypes.Issue)
    requires i.category == "__proto__"
    ensures ObjectCounts([i]) == []
    ensures Occurs([i], "__proto__") && Lookup(CategoryCounts([i]), "__proto__") == Some(1)
  {
    assert [i][..0] == [];
    assert [i][0].category == "__proto__";
  }

  /** The statistics tool: the scope, the counts by status, the category
      map and the rate, over the user's issues or all issues. */
  method IssueStatistics(docs: seq<IssueTypes.Issue>, userId: Option<string>) returns (stats: IssueStats)
    ensures stats.scope == UserScope <==> Truthy(userId)
    ensures var s := InScope(docs, userId);
            && stats.total == |s|
            && stats.open == CountStatus(s, IssueTypes.Open)
            && stats.inProgress == CountStatus(s, IssueTypes.InProgress)
            && stats.resolved == CountStatus(s, IssueTypes.Resolved)
            && stats.closed == CountStatus(s, IssueTypes.Closed)
            && stats.byCategory == CategoryCounts(s)
    ensures stats.rate == if stats.total == 0 then ZeroPercent else ResolvedShare(stats.resolved, stats.total)
  {
    var s := InScope(docs, userId);
    var totalCount := |s|;
    var resolvedCount := CountStatus(s, IssueTypes.Resolved);
    var categoryMap := CategoryBreakdown(s);
    var rate := if totalCount > 0 then ResolvedShare(resolvedCount, totalCount) else ZeroPercent;
    stats := IssueStats(if Truthy(userId) then UserScope else CommunityScope, totalCount,
                        CountStatus(s, IssueTypes.Open), CountStatus(s, IssueTypes.InProgress),
                        resolvedCount, CountStatus(s, IssueTypes.Closed), categoryMap, rate);
  }

  /** The four status counts partition the issues. */
  lemma {:induction false} StatusCountsSum(s: seq<IssueTypes.Issue>)
    ensures CountStatus(s, IssueTypes.Open) + CountStatus(s, IssueTypes.InProgress)
            + CountStatus(s, IssueTypes.Resolved) + CountStatus(s, IssueTypes.Closed) == |s|
  {
    if s != [] {
      StatusCountsSum(s[1..]);
    }
  }

  /** The statistics are consistent: the statuses and the categories
      each account for every in-scope issue, and every category count is
      exact. */
  lemma StatisticsConsistent(docs: seq<IssueTypes.Issue>, userId: Option<string>)
    ensures var s := InScope(docs, userId);
            && CountStatus(s, IssueTypes.Open) + CountStatus(s, IssueTypes.InProgress)
               + CountStatus(s, IssueTypes.Resolved) + CountStatus(s, IssueTypes.Closed) == |s|
            && SumCounts(CategoryCounts(s)) == |s|
            && forall c :: Lookup(CategoryCounts(s), c).GetOr(0) == CountCategory(s, c)
    ensures forall i :: i in InScope(docs, userId) ==> i in docs && (Truthy(userId) ==> i.userId == userId.value)
  {
    StatusCountsSum(InScope(docs, userId));
    CategoryCountsSum(InScope(docs, userId));
    CategoryCountsExact(InScope(docs, userId));
  }

  // ---------------------------------------------------------------------
  // The popular-issues tool.

  const PopularLimit := 10
  const NoPopularReply := "No popular issues found."

  datatype PopularReply = NoPopularIssues | PopularIssues(total: nat, issues: seq<IssueTypes.Issue>)

  /** The status filter: any issue when no status is given. */
  predicate Wanted(i: IssueTypes.Issue, status: Option<IssueTypes.Status>) {
    status.None? || i.status == status.value
  }

  /** The upvote order of `.sort({ upvotes: -1 })`. */
  function MostUpvoted(): (IssueTypes.Issue, IssueTypes.Issue) -> bool {
    IssueQuery.Comparator(IssueQuery.ByUpvotes, IssueQuery.Desc)
  }

  /** The issues with the given status (all when none), most upvoted first. */
  function ByPopularity(docs: seq<IssueTypes.Issue>, status: Option<IssueTypes.Status>): seq<IssueTypes.Issue> {
    Sorting.SortBy(Filter(docs, (i: IssueTypes.Issue) => Wanted(i, status)), MostUpvoted())
  }

  /** `find(query).sort({ upvotes: -1 }).limit(10)`, and the empty case. */
  function PopularIssuesTool(docs: seq<IssueTypes.Issue>, status: Option<IssueTypes.Status>): (r: PopularReply)
    ensures r.PopularIssues? ==> r.total == |r.issues| && 1 <= |r.issues| <= PopularLimit
    ensures r.PopularIssues? ==> |r.issues| == Min(PopularLimit, |ByPopularity(docs, status)|)
    ensures r.NoPopularIssues? <==> ByPopularity(docs, status) == []
  {
    var top := IssueQuery.Window(ByPopularity(docs, status), 0, PopularLimit);
    if top == [] then NoPopularIssues else PopularIssues(|top|, top)
  }

  /** The sorted candidates are the wanted issues, most upvoted first. */
  lemma ByPopularitySpec(docs: seq<IssueTypes.Issue>, status: Option<IssueTypes.Status>)
    ensures forall i :: i in ByPopularity(docs, status) <==> i in docs && Wanted(i, status)
    ensures Sorting.Sorted(ByPopularity(docs, status), MostUpvoted())
    ensures forall i :: multiset(ByPopularity(docs, status))[i] ==
              if Wanted(i, status) then multiset(docs)[i] else 0
  {
    var matching := Filter(docs, (i: IssueTypes.Issue) => Wanted(i, status));
    forall i ensures multiset(ByPopularity(docs, status))[i] ==
                       if Wanted(i, status) then multiset(docs)[i] else 0 {
      FilterCounts(docs, (i: IssueTypes.Issue) => Wanted(i, status), i);
    }
    IssueQuery.ComparatorIsPreorder(IssueQuery.ByUpvotes, IssueQuery.Desc);
    Sorting.SortBySorted(matching, MostUpvoted());
    Sorting.SameMembers(ByPopularity(docs, status), matching);
  }

  /** The first `n` elements of a sorted sequence are in order, and every
      element left out comes after the last one kept. */
  lemma TopOfSorted(sorted: seq<IssueTypes.Issue>, n: nat)
    requires Sorting.Sorted(sorted, MostUpvoted())
    ensures var top := IssueQuery.Window(sorted, 0, n);
            && (forall a, b :: 0 <= a < b < |top| ==> IssueQuery.NumberLe(top[b].upvotes, top[a].upvotes))
            && (top != [] ==> forall i :: i in sorted && i !in top ==>
                  IssueQuery.NumberLe(i.upvotes, top[|top| - 1].upvotes))
  {
    var top := IssueQuery.Window(sorted, 0, n);
    forall a, b | 0 <= a < b < |top| ensures IssueQuery.NumberLe(top[b].upvotes, top[a].upvotes) {
      assert MostUpvoted()(sorted[a], sorted[b]);
    }
    if top != [] {
      forall i | i in sorted && i !in top ensures IssueQuery.NumberLe(i.upvotes, top[|top| - 1].upvotes) {
        var j :| 0 <= j < |sorted| && sorted[j] == i;
        assert j >= |top|;
        assert MostUpvoted()(sorted[|top| - 1], sorted[j]);
      }
    }
  }

  /** The empty reply comes exactly when no issue has the requested status. */
  lemma NoPopularIssuesWhenNoneWanted(docs: seq<IssueTypes.Issue>, status: Option<IssueTypes.Status>)
    ensures PopularIssuesTool(docs, status).NoPopularIssues? <==>
              forall i :: i in docs ==> !Wanted(i, status)
  {
    ByPopularitySpec(docs, status);
    var sorted := ByPopularity(docs, status);
    if sorted != [] {
      assert sorted[0] in sorted;
    }
  }

  /** At most ten issues, each stored and with the requested status, in
      non-increasing upvote order, and no wanted issue left out has more
      upvotes than the last one returned. */
  lemma PopularIssuesAreTop(docs: seq<IssueTypes.Issue>, status: Option<IssueTypes.Status>)
    ensures var r := PopularIssuesTool(docs, status);
            r.PopularIssues? ==>
              && r.total == |r.issues| <= PopularLimit
              && |r.issues| == Min(PopularLimit, |ByPopularity(docs, status)|)
              && (forall k :: 0 <= k < |r.issues| ==> r.issues[k] in docs && Wanted(r.issues[k], status))
              && (forall a, b :: 0 <= a < b < |r.issues| ==>
                    IssueQuery.NumberLe(r.issues[b].upvotes, r.issues[a].upvotes))
              && (forall i :: i in docs && Wanted(i, status) && i !in r.issues ==>
                    IssueQuery.NumberLe(i.upvotes, r.issues[|r.issues| - 1].upvotes))
  {
    ByPopularitySpec(docs, status);
    var sorted := ByPopularity(docs, status);
    TopOfSorted(sorted, PopularLimit);
    var top := IssueQuery.Window(sorted, 0, PopularLimit);
    forall k | 0 <= k < |top| ensures top[k] in docs && Wanted(top[k], status) {
      assert top[k] == sorted[k] && sorted[k] in sorted;
    }
  }
}
