/** The assistant's conversation documents: a per-user message history
    and a context dictionary, the in-memory document that the orchestrator
    mutates, and the collection that `getOrCreateConversation` reads. */
module Conversations {
  import opened Common
  import opened Json
  import opened IssueTypes

  datatype Role = UserRole | AssistantRole | SystemRole

  /** One stored turn; `timestamp` is the clock reading when it was added. */
  datatype Message = Message(role: Role, content: string, timestamp: int)

  /** The context `Map`: keys in insertion order, each once. */
  type Context = seq<(string, JsonValue)>

  /** The stored history keeps at most this many turns. */
  const HistoryCap := 50

  /** The key the form trigger sets and the text it hands back to the agent. */
  const CreatingIssueKey := "creatingIssue"
  const FormTriggerMarker := "FORM_TRIGGER_MARKER"

  /** A stored conversation document. */
  datatype ConversationRecord = ConversationRecord(
    userId: UserId,
    messages: seq<Message>,
    context: Context,
    createdAt: int,
    updatedAt: int,
    isActive: bool)

  /** What `conversationModel.create({ userId, messages: [], context: {} })`
      stores: the schema defaults for the timestamps and `isActive`. */
  function NewConversation(userId: UserId, now: int): (r: ConversationRecord)
    ensures r.userId == userId && r.messages == [] && r.context == []
    ensures r.isActive && r.createdAt == now && r.updatedAt == now
  {
    ConversationRecord(userId, [], [], now, now, true)
  }

  /** The newest `cap` entries of `s`: what dropping the oldest entry while
      more than `cap` remain leaves. */
  function Trimmed<T>(s: seq<T>, cap: nat): (r: seq<T>)
    ensures |r| == Min(|s|, cap)
    ensures forall k :: 0 <= k < |r| ==> r[k] == s[|s| - |r| + k]
  {
    if |s| <= cap then s else s[|s| - cap..]
  }

  /** Trimming keeps the newest entry and changes nothing that already
      fits. */
  lemma TrimmedKeepsNewest<T>(s: seq<T>, cap: nat)
    ensures |s| <= cap ==> Trimmed(s, cap) == s
    ensures |s| > 0 && cap > 0 ==> Trimmed(s, cap)[|Trimmed(s, cap)| - 1] == s[|s| - 1]
    ensures Trimmed(Trimmed(s, cap), cap) == Trimmed(s, cap)
  {
  }

  /** The record's active conversation for `userId` with the latest
      `updatedAt` (`findOne({ userId, isActive: true }).sort({ updatedAt: -1 })`);
      among equally recent ones, the first in natural order. */
  predicate ActiveFor(r: ConversationRecord, userId: UserId) {
    r.userId == userId && r.isActive
  }

  function LatestActive(rs: seq<ConversationRecord>, userId: UserId): (r: Option<nat>)
    ensures r.None? <==> forall k :: 0 <= k < |rs| ==> !ActiveFor(rs[k], userId)
    ensures r.Some? ==> r.value < |rs| && ActiveFor(rs[r.value], userId)
    ensures r.Some? ==> forall k :: 0 <= k < |rs| && ActiveFor(rs[k], userId) ==>
                          rs[k].updatedAt <= rs[r.value].updatedAt
    ensures r.Some? ==> forall k :: 0 <= k < r.value && ActiveFor(rs[k], userId) ==>
                          rs[k].updatedAt < rs[r.value].updatedAt
  {
    if rs == [] then None
    else
      var init := rs[..|rs| - 1];
      var last := |rs| - 1;
      var best := LatestActive(init, userId);
      assert forall k :: 0 <= k < last ==> rs[k] == init[k];
      if !ActiveFor(rs[last], userId) then best
      else if best.None? || rs[best.value].updatedAt < rs[last].updatedAt then Some(last)
      else best
  }

  /** The in-memory conversation document: `push` onto `messages`,
      `shift` off it, `context.set`. */
  class Conversation {
    var userId: UserId
    var messages: seq<Message>
    var context: Context
    var createdAt: int
    var updatedAt: int
    var isActive: bool

    /** The document built from a stored record. */
    constructor Load(rec: ConversationRecord)
      ensures Snapshot() == rec
    {
      userId, messages, context := rec.userId, rec.messages, rec.context;
      createdAt, updatedAt, isActive := rec.createdAt, rec.updatedAt, rec.isActive;
    }

    /** The record that saving the document writes. */
    function Snapshot(): ConversationRecord
      reads this
    {
      ConversationRecord(userId, messages, context, createdAt, updatedAt, isActive)
    }

    /** `conversation.messages.push(m)`. */
    method Push(m: Message)
      modifies this
      ensures messages == old(messages) + [m]
      ensures Snapshot() == old(Snapshot()).(messages := messages)
    {
      messages := messages + [m];
    }

    /** Drop the oldest turns while more than 50 remain. */
    method TrimHistory()
      modifies this
      ensures messages == Trimmed(old(messages), HistoryCap)
      ensures Snapshot() == old(Snapshot()).(messages := messages)
    {
      if |messages| > HistoryCap {
        while |messages| > HistoryCap
          invariant |messages| >= HistoryCap
          invariant |messages| <= |old(messages)|
          invariant messages == old(messages)[|old(messages)| - |messages|..]
          invariant Snapshot() == old(Snapshot()).(messages := messages)
          decreases |messages|
        {
          messages := messages[1..];
        }
      }
    }

    /** The form-trigger tool: records that an issue report is under way
        and answers with the marker. */
    method TriggerIssueCreationForm() returns (r: string)
      modifies this
      ensures r == FormTriggerMarker
      ensures context == Assign(old(context), CreatingIssueKey, JBool(true))
      ensures Snapshot() == old(Snapshot()).(context := context)
    {
      context := Assign(context, CreatingIssueKey, JBool(true));
      r := FormTriggerMarker;
    }
  }

  /** The trigger tool sets `creatingIssue` to true, leaves every other key
      as it was, and running it again changes nothing. */
  lemma TriggerSetsOnlyCreatingIssue(ctx: Context)
    ensures Lookup(Assign(ctx, CreatingIssueKey, JBool(true)), CreatingIssueKey) == Some(JBool(true))
    ensures forall k :: k != CreatingIssueKey ==>
              Lookup(Assign(ctx, CreatingIssueKey, JBool(true)), k) == Lookup(ctx, k)
    ensures var once := Assign(ctx, CreatingIssueKey, JBool(true));
            Assign(once, CreatingIssueKey, JBool(true)) == once
    ensures DistinctKeys(ctx) ==> DistinctKeys(Assign(ctx, CreatingIssueKey, JBool(true)))
  {
    AssignIdempotent(ctx, CreatingIssueKey, JBool(true));
    if DistinctKeys(ctx) {
      AssignKeepsDistinct(ctx, CreatingIssueKey, JBool(true));
    }
  }

  /** The stored conversations. */
  class ConversationStore {
    var records: seq<ConversationRecord>

    constructor ()
      ensures records == []
    {
      records := [];
    }

    /** `getOrCreateConversation`: the user's latest active conversation,
        or a new empty one stored at the end. */
    method GetOrCreate(userId: UserId, now: int) returns (k: nat)
      modifies this
      ensures (records, k) == Opened(old(records), userId, now)
      ensures k < |records| && ActiveFor(records[k], userId)
    {
      var found := LatestActive(records, userId);
      if found.Some? {
        k := found.value;
      } else {
        records := records + [NewConversation(userId, now)];
        k := |records| - 1;
      }
    }

    /** `conversation.save()`: the pre-save hook stamps `updatedAt`. */
    method Save(k: nat, rec: ConversationRecord, now: int)
      requires k < |records|
      modifies this
      ensures records == old(records)[k := rec.(updatedAt := now)]
    {
      records := records[k := rec.(updatedAt := now)];
    }
  }

  /** The collection after `getOrCreateConversation` and the position of
      the conversation it returns. */
  function Opened(rs: seq<ConversationRecord>, userId: UserId, now: int): (r: (seq<ConversationRecord>, nat))
    ensures r.1 < |r.0| && ActiveFor(r.0[r.1], userId)
    ensures LatestActive(rs, userId).Some? ==> r == (rs, LatestActive(rs, userId).value)
    ensures LatestActive(rs, userId).None? ==> r == (rs + [NewConversation(userId, now)], |rs|)
  {
    match LatestActive(rs, userId)
    case Some(k) => (rs, k)
    case None => (rs + [NewConversation(userId, now)], |rs|)
  }
}
