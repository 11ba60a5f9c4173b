/** The chat endpoint: the message schema, the user lookup, and the
    translation of the orchestrator's form signal into the `openForm`
    flag of the response. */
module ChatController {
  import opened Common
  import opened Conversations
  import opened Chatbot
  import opened IssueTypes

  const MaxMessageLength := 1000
  const EmptyMessage := "Message cannot be empty"
  const LongMessage := "Message is too long"
  const UserNotFound := "User not found"
  const OpenFormPrompt := "Sure! Let's report an issue. Please fill in the details below."

  /** The response body. */
  datatype ChatReply = ChatReply(message: string, timestamp: int, openForm: bool)

  /** The message schema: between 1 and 1000 characters. */
  function ValidateChatMessage(m: string): (r: Result<string>)
    ensures r.Ok? <==> 1 <= |m| <= MaxMessageLength
    ensures r.Ok? ==> r.value == m
    ensures |m| < 1 ==> r == Err(ValidationError(EmptyMessage))
    ensures |m| > MaxMessageLength ==> r == Err(ValidationError(LongMessage))
  {
    if |m| < 1 then Err(ValidationError(EmptyMessage))
    else if |m| > MaxMessageLength then Err(ValidationError(LongMessage))
    else Ok(m)
  }

  /** The response for an orchestrator reply: the fixed prompt and the
      flag for the form signal, the reply itself otherwise. */
  function PresentReply(response: string, now: int): (r: ChatReply)
    ensures r.openForm <==> response == OpenFormSignal
    ensures r.openForm ==> r.message == OpenFormPrompt
    ensures !r.openForm ==> r.message == response
    ensures r.timestamp == now
  {
    var shouldOpenForm := response == OpenFormSignal;
    ChatReply(if shouldOpenForm then OpenFormPrompt else response, now, shouldOpenForm)
  }

  /** The form opens exactly when the agent called the trigger or its last
      text was the signal itself; the signal never reaches the user as
      text. */
  lemma OpenFormFollowsTrigger(trace: seq<TraceMessage>, now: int)
    ensures PresentReply(ReplyFor(trace), now).openForm <==>
              TriggerRequested(trace) || (trace != [] && trace[|trace| - 1].content == Some(OpenFormSignal))
    ensures PresentReply(ReplyFor(trace), now).message != OpenFormSignal
  {
    ReplyIsSignal(trace);
  }

  /** `sendChatMessage`: the message is checked, the caller looked up
      (`names` maps each known user id to the user's name), and the
      validated message, the caller's id and name are handed to
      `processChatMessage`. A rejected message or an unknown user changes
      nothing. */
  method SendChatMessage(store: ConversationStore, names: map<UserId, string>, userId: UserId,
                         body: string, apiKeyConfigured: bool, loadOk: bool,
                         agent: seq<Turn> -> Option<seq<TraceMessage>>, saveOk: bool, now: int)
    returns (r: Result<ChatReply>)
    modifies store
    ensures ValidateChatMessage(body).Err? ==>
              r == Err(ValidateChatMessage(body).error) && store.records == old(store.records)
    ensures ValidateChatMessage(body).Ok? && userId !in names ==>
              r == Err(NotFound(UserNotFound)) && store.records == old(store.records)
    ensures ValidateChatMessage(body).Ok? && userId in names ==>
              var (response, after) := ChatOutcome(old(store.records), body, userId, Some(names[userId]),
                                                   apiKeyConfigured, loadOk, agent, saveOk, now);
              r == Ok(PresentReply(response, now)) && store.records == after
  {
    var validated := ValidateChatMessage(body);
    if validated.Err? {
      return Err(validated.error);
    }
    if userId !in names {
      return Err(NotFound(UserNotFound));
    }
    var response := ProcessChatMessage(store, validated.value, userId, Some(names[userId]),
                                       apiKeyConfigured, loadOk, agent, saveOk, now);
    r := Ok(PresentReply(response, now));
  }
}
