# Improve-My-City core in Dafny

This project models the backend of Improve-My-City, a civic issue tracker with an assistant. It does not model the HTTP server or the database engine. It covers four parts:

- the issue service: create, look up, comment, change status, delete with cascade, and the upvote toggle;
- the listing query `getIssues`: equality filters, parameter defaults, sort, skip/limit, the reporter-name join and the radius ranking;
- the chat orchestrator `processChatMessage`, with the statistics, popular-issues and form-trigger tools;
- the two controllers that shape requests and responses for these services.

How the model is organised:

- The issue and conversation collections are in-memory stores. They are classes whose methods update their fields. Each method is proved against functions that state the new state.
- The pure parts of the source are functions: the query pipeline, the history window, the context text, the trace scan and the tool logic.
- Every loop of the source is a method with its invariants. These are the trace scan, the FIFO trim, the category `forEach` and the upload URL loop.

Modules and files:

| module | file | what it holds |
|---|---|---|
| `Common` | `common.dfy` | `Option`, `Result`, the error kinds, JavaScript `filter`, truthiness, and an insertion-ordered association list for JavaScript `Map`s and dictionary objects |
| `Sorting` | `sorting.dfy` | a stable insertion sort by a comparator, proved sorted and a permutation |
| `IssueTypes` | `issue_types.dfy` | issue and comment records, the status enum, and the vote defaults |
| `IssueService` | `issue_service.dfy` | the `IssueStore` class and the record-level functions it uses |
| `IssueQuery` | `issue_query.dfy` | `getIssues` and its properties |
| `Json` | `json.dfy` | the part of `JSON.stringify` that renders the conversation context, and a reader that reads that text back |
| `Conversations` | `conversation.dfy` | conversation records, the in-memory `Conversation` document and the `ConversationStore` |
| `Chatbot` | `chatbot.dfy` | the orchestrator and the local tools |
| `IssueController` | `issue_controller.dfy` | listing parameters, the response mapping, the report schema, `raiseIssue` and image upload |
| `ChatController` | `chat_controller.dfy` | message validation and the `openForm` flag |

Things the model takes as parameters:

- The clock is a parameter, `now`. One operation reads it once (see "## Left out").
- The great-circle distance is a parameter, `dist`.
- The language-model agent is a parameter: a function from the input turns to a message trace, or `None` when the call fails.
- The success of loading and saving a conversation are boolean parameters.
- `parseFloat` and `parseInt` are parameters, with `None` standing for NaN. `parseFloat` also returns plus or minus Infinity (for `"Infinity"` or `"1e999"`), which no `Option<real>` value can hold. Such results are folded into the unconstrained parameter, so the model does not single them out.
- The URL check of the report schema is a parameter, `isUrl`.
- The stored file name of an upload is a parameter, `fileName`.

## Model

| member | source | states |
|---|---|---|
| `Common.Lookup` | src/services/chatbot.ts:238 | reading a key of a dictionary gives nothing exactly when no entry has that key, and otherwise the value of an entry with that key |
| `Common.Assign` | src/services/chatbot.ts:311 | `Map.set`: the key then reads as the new value; every other key reads as before; an existing key keeps the length and a new key adds one entry |
| `Common.AssignIdempotent` | src/services/chatbot.ts:309-314 | setting the same key to the same value twice is the same as setting it once |
| `Common.AssignKeepsDistinct` | src/services/chatbot.ts:311 | setting a key keeps every key of the dictionary unique |
| `Common.RemoveAll` | src/services/issue.ts:237 | removing a voter with `filter` removes every occurrence of it, keeps all other elements with their multiplicities, and changes nothing when the voter is absent |
| `Common.FilterCounts` | src/services/issue.ts:88-100 | `filter` keeps every occurrence of an element that passes and no occurrence of one that fails |
| `IssueService.NewIssue` | src/services/issue.ts:8-17 | a created issue has the submitted fields, both timestamps equal to the creation time, zero upvotes, no voters, and no resolution data |
| `IssueService.ToggleUpvote` | src/services/issue.ts:232-245 | a voter already present is removed with `filter` (every occurrence, the others in order) and the count drops by one, floored at 0; an absent voter is appended and the count rises by one; only the votes and `updatedAt` change |
| `IssueService.ToggleTwiceRestores` | src/services/issue.ts:225-249 | toggling twice from a state without the voter restores both the voter list and the count |
| `IssueService.ToggleKeepsVotesConsistent` | src/services/issue.ts:232-243 | the toggle keeps each voter listed once and the count equal to the number of voters |
| `IssueService.UpvoteScenario` | src/services/issue.ts:235-243 | on an issue without votes, one upvote gives count 1 with that voter, and a second gives count 0 with no voters |
| `IssueService.ApplyStatus` | src/services/issue.ts:180-190 | the status is set and `updatedAt` is bumped; a resolution also stamps `resolvedAt` and stores a non-empty message and any attachment list; other statuses change nothing else |
| `IssueService.ResolutionComments` | src/services/issue.ts:192-201 | exactly one comment is created iff the new status is resolved and the message is non-empty; it carries the caller's id and admin flag, the message, the attachments or `[]`, and the current time |
| `IssueService.CommentsWithout` | src/services/issue.ts:222 | after the cascade no comment refers to the issue, and every other comment remains |
| `IssueService.DeleteKeepsInvariant` | src/services/issue.ts:221-222 | removing an issue together with its comments keeps the store invariant: ids unique and fresh, votes consistent, and every comment attached to a stored issue |
| `IssueService.IssueStore.constructor` | src/services/issue.ts:8-17 | the empty store satisfies the invariant |
| `IssueService.IssueStore.Documents` | src/services/issue.ts:113 | the natural scan lists each stored issue once, in insertion order |
| `IssueService.IssueStore.GetIssue` | src/services/issue.ts:19-27 | the stored record when the id exists, NotFound "Issue not found" otherwise |
| `IssueService.IssueStore.CommentsOf` | src/services/issue.ts:40-41 | a permutation of the issue's stored comments (each counted as often as it is stored, no other comment), newest first |
| `IssueService.ThreadCounts` | src/services/issue.ts:40-41 | filtering the comments by issue and sorting them newest first counts each of that issue's comments as often as it is stored and no other comment |
| `IssueService.IssueStore.CreateIssue` | src/services/issue.ts:8-17 | the new record is stored under a fresh id and appended to the scan order; comments are unchanged; the invariant holds |
| `IssueService.IssueStore.AddComment` | src/services/issue.ts:29-38 | NotFound and no change for a missing issue; otherwise the comment is appended with a fresh id and the current time, and issues are unchanged |
| `IssueService.IssueStore.UpdateIssueStatus` | src/services/issue.ts:162-207 | NotFound, then Unauthorized unless admin or owner, both with the store unchanged; on success the record becomes `ApplyStatus` of the old one and the store gains the `ResolutionComments` comments |
| `IssueService.IssueStore.DeleteIssue` | src/services/issue.ts:209-223 | NotFound, then Unauthorized unless admin or owner, both with the store unchanged; on success the issue and all its comments are gone and nothing else changes |
| `IssueService.IssueStore.UpvoteIssue` | src/services/issue.ts:225-249 | NotFound with the issues unchanged; otherwise the record is replaced by its toggled version, and the vote invariant holds |
| `IssueQuery.LimitOf` | src/services/issue.ts:103 | the effective limit is never 0, so the page count is always defined |
| `IssueQuery.Matching` | src/services/issue.ts:88-100 | the selected documents are exactly those satisfying each supplied filter: a status, a non-empty category and a non-empty owner id |
| `IssueQuery.MatchingCounts` | src/services/issue.ts:88-108 | the selection keeps each matching document as often as it is stored and no other, so `countDocuments` of the query is the length of the selection |
| `IssueQuery.ComparatorIsPreorder` | src/services/issue.ts:105-106 | each sort key and direction is a total preorder, with a missing upvote count lowest |
| `IssueQuery.Window` | src/services/issue.ts:110-116 | skip/limit keeps at most `take` records, starting at position `skip`, in order |
| `IssueQuery.PageSlice` | src/services/issue.ts:108-116 | the page is exactly the window of the ranked matches after the `(page-1)*limit` skipped ones: it holds the absolute value of the limit of them, or all that remain, or none past the end, in order |
| `IssueQuery.CeilDiv` | src/services/issue.ts:111 | `Math.ceil(a / b)`: the least integer r with a <= r * b for a positive limit, and the matching bound for a negative one |
| `IssueQuery.DisplayName` | src/services/issue.ts:120-128 | the owner's name when the owner is known and the name is non-empty, and "User" in every other case; never empty |
| `IssueQuery.WithNames` | src/services/issue.ts:120-128 | every record of the page, in order, with its reporter name and no distance |
| `IssueQuery.WithDistance` | src/services/issue.ts:133-142 | every record, in order, annotated with its distance from the reference point |
| `IssueQuery.RadiusRank` | src/services/issue.ts:143-144 | the radius step never returns more records than the page it is given |
| `IssueQuery.GetIssues` | src/services/issue.ts:82-152 | `getIssues` fails exactly when the skip is negative, with the database's error; otherwise it reports the requested page and at most as many records as the absolute value of the limit |
| `IssueQuery.GetIssuesDefaults` | src/services/issue.ts:102-106 | an absent or 0 page becomes 1, the limit becomes 20 and the radius becomes 100; the sort defaults to `createdAt` and is ascending only for `'asc'`; the only failure is a negative skip |
| `IssueQuery.GetIssuesSatisfiesFilters` | src/services/issue.ts:88-100 | in both branches every returned record is a stored document satisfying every supplied equality filter |
| `IssueQuery.ListingIsSortedWindow` | src/services/issue.ts:108-117 | without a reference point: the result is the window at `(page-1)*limit` of the ranked matches, with exactly as many records as the limit allows and the matches leave, and carries reporter names and no distances; `total` counts all matches and `totalPages` is the ceiling of total over limit |
| `IssueQuery.ListingIsSorted` | src/services/issue.ts:113-114 | without a reference point the matches are sorted by the requested key and direction as a permutation of the matches, and the returned page keeps that order |
| `IssueQuery.RadiusQueryTotals` | src/services/issue.ts:146-151 | with a reference point: `total` is the number of records returned, `totalPages` is the ceiling of that number over the limit, and no more records come back than the page holds |
| `IssueQuery.RadiusQueryRanksPage` | src/services/issue.ts:130-144 | with a reference point: each record carries its own distance, lies within the radius (100 km by default) and comes from the requested page; records come nearest first; every record of the page within the radius is returned; the records are a permutation of the annotated page's records within the radius |
| `IssueQuery.RankedPageSpec` | src/services/issue.ts:133-144 | ranking any page by distance yields a permutation of its annotated records within the radius, nearest first, each with its own distance |
| `IssueQuery.RankedPageMembers` | src/services/issue.ts:133-144 | ranking any page by distance keeps only the page's records within the radius, each with its own distance, nearest first, and misses none of them |
| `IssueQuery.RadiusRankSpec` | src/services/issue.ts:143-144 | the radius step yields a permutation of the records within the radius, in non-decreasing distance |
| `IssueQuery.RadiusRankOrder` | src/services/issue.ts:143-144 | the radius step keeps only records within the radius, in non-decreasing distance, and misses none of them |
| `IssueQuery.RadiusRankCounts` | src/services/issue.ts:143-144 | the radius step counts each record within the radius as often as it occurs and drops every other record |
| `IssueQuery.RadiusSearchSeesOnlyThePage` | src/services/issue.ts:113-151 | the radius search runs after pagination: two matching records at distance 0 with limit 1 give one record and total 1 |
| `IssueQuery.RadiusMonotone` | src/services/issue.ts:143 | a larger radius never returns fewer records |
| `Json.HexDigit` | src/services/chatbot.ts:393 | a lower-case hexadecimal digit whose value is the given number |
| `Json.EscapeChar` | src/services/chatbot.ts:393 | a character is written as itself exactly when it is neither a control character, a quote nor a backslash; otherwise it is written as an escape starting with a backslash |
| `Json.Escape` | src/services/chatbot.ts:393 | the escaped text is never shorter, and text without special characters is unchanged |
| `Json.UnescapeEscape` | src/services/chatbot.ts:393 | the string escapes can be read back: reading an escaped string up to its closing quote gives the string and leaves whatever follows |
| `Json.Quote` | src/services/chatbot.ts:393 | a quoted string is enclosed in double quotes, and reading after the opening quote gives the original string with nothing left over |
| `Json.NatTextValue` | src/services/chatbot.ts:393 | a number's decimal text reads back as the number |
| `Json.IntText` | src/services/chatbot.ts:393 | an integer's text starts with '-' exactly for negatives, and its digits read back as its magnitude |
| `Json.MembersText` | src/services/chatbot.ts:393 | the comma-separated members render as empty exactly when there are none |
| `Json.ObjectText` | src/services/chatbot.ts:393 | an object renders in braces, and as `{}` exactly when it has no members |
| `Json.IntTextReads` | src/services/chatbot.ts:393 | an integer's text reads back as that integer when followed by anything but a digit |
| `Json.ValueTextReads` | src/services/chatbot.ts:393 | the text of a null, boolean, integer or string value reads back as that value |
| `Json.MemberTextReads` | src/services/chatbot.ts:393 | `"key":value` reads back as that key and value |
| `Json.MembersTextReads` | src/services/chatbot.ts:393 | the comma-separated members and the closing brace read back as the members, in order |
| `Json.ObjectTextReads` | src/services/chatbot.ts:385-394 | the object text of a context reads back as exactly its members, in order: the text renders the context and loses nothing |
| `Json.ObjectTextInjective` | src/services/chatbot.ts:385-394 | two contexts with the same object text are the same context |
| `Conversations.NewConversation` | src/services/chatbot.ts:359-365 | a new conversation is the user's, with no messages, an empty context, both timestamps at creation time, and active |
| `Conversations.Trimmed` | src/services/chatbot.ts:478-482 | the trimmed history has min(n, 50) turns, and they are the newest ones in order |
| `Conversations.TrimmedKeepsNewest` | src/services/chatbot.ts:478-482 | a history that fits is unchanged, the newest turn survives, and trimming twice is trimming once |
| `Conversations.LatestActive` | src/services/chatbot.ts:354-357 | the user's active conversation with the latest `updatedAt`, the first among ties, and none exactly when the user has no active conversation |
| `Conversations.Conversation.Load` | src/models/conversation.ts:19-44 | the in-memory document holds exactly the stored record |
| `Conversations.Conversation.Push` | src/services/chatbot.ts:405-409 | the message is appended and nothing else of the document changes |
| `Conversations.Conversation.TrimHistory` | src/services/chatbot.ts:477-482 | the `shift` loop leaves the newest 50 turns and changes nothing else |
| `Conversations.Conversation.TriggerIssueCreationForm` | src/services/chatbot.ts:309-314 | the trigger tool sets `creatingIssue` to true, changes nothing else, and answers with the marker |
| `Conversations.TriggerSetsOnlyCreatingIssue` | src/services/chatbot.ts:311 | after the trigger, `creatingIssue` reads true and every other key reads as before; a second call changes nothing; keys stay unique |
| `Conversations.ConversationStore.GetOrCreate` | src/services/chatbot.ts:353-368 | the user's latest active conversation, or a new one stored at the end; the returned position holds an active conversation of the user |
| `Conversations.ConversationStore.Save` | src/models/conversation.ts:46-50 | saving replaces the record at its position and the pre-save hook stamps `updatedAt` |
| `Conversations.Opened` | src/services/chatbot.ts:353-368 | the collection after the lookup is unchanged when an active conversation exists; otherwise an empty one for the user is appended and returned |
| `Chatbot.TurnOf` | src/services/chatbot.ts:375-381 | a user message becomes a human turn and every other role an AI turn, with the content unchanged |
| `Chatbot.SummarizeMessages` | src/services/chatbot.ts:371-382 | the last min(10, n) messages, oldest first, each mapped by role |
| `Chatbot.ContextInfo` | src/services/chatbot.ts:385-394 | an empty context gives ""; otherwise the context label followed by the JSON object of the context |
| `Chatbot.ContextualMessage` | src/services/chatbot.ts:414 | the contextual message starts with "User ID: " and the id and ends with the question label and the message |
| `Chatbot.ContextualMessageParts` | src/services/chatbot.ts:414 | between the id and the question the message holds exactly ", User Name: " and the name when a name is truthy, then the context text; the length is the sum of these parts |
| `Chatbot.ModelInputShape` | src/services/chatbot.ts:411-428 | the model sees at most 10 turns: the previous up to 9 turns in order, then the contextual message in place of the raw user turn |
| `Chatbot.ReplyFor` | src/services/chatbot.ts:436-469 | the form signal when any trace message calls the trigger tool; otherwise the last message's text; otherwise the fallback phrase |
| `Chatbot.ReplyIsSignal` | src/services/chatbot.ts:453-469 | the reply is the form signal exactly when the trigger was called or the model's last text is the signal itself |
| `Chatbot.ExtractResponse` | src/services/chatbot.ts:436-469 | the nested flag loops compute exactly `ReplyFor` of the trace |
| `Chatbot.Exchanged` | src/services/chatbot.ts:471-482 | a saved exchange changes only the history and the context of the record, and the history holds at most 50 turns |
| `Chatbot.ExchangedHistory` | src/services/chatbot.ts:471-482 | the saved history has min(n + 2, 50) turns, ends with the user turn and then the reply, and keeps the older turns in order; the context is unchanged unless the agent requested issue creation, in which case only `creatingIssue` changes and becomes `true` |
| `Chatbot.ChatOutcome` | src/services/chatbot.ts:397-490 | a chat call adds at most one conversation and changes no stored conversation other than the one it opened |
| `Chatbot.ChatTouchesOnlyTheUsersConversation` | src/services/chatbot.ts:397-490 | without an API key the offline reply, and on a failed load the error reply, each with nothing changed; other users' conversations never change; a conversation added is the user's |
| `Chatbot.ChatFollowsEachPath` | src/services/chatbot.ts:397-490 | once the conversation is open: a failed agent call or a failed save gives the error reply and keeps only the conversation `getOrCreateConversation` stored; a saved exchange gives the trace's reply, stored as an assistant turn at the end of the user's conversation |
| `Chatbot.ChatKeepsConversationsWellKept` | src/services/chatbot.ts:471-490 | every chat call keeps each stored conversation within 50 turns and its context keys unique |
| `Chatbot.ProcessChatMessage` | src/services/chatbot.ts:397-490 | the reply and the new collection are those of `ChatOutcome`: offline, error on a failed load, agent call or save, or the trace's reply with the exchange saved |
| `Chatbot.BumpSum` | src/services/chatbot.ts:238 | counting one more issue raises the sum of the category counts by one |
| `Chatbot.CategoryCounts` | src/services/chatbot.ts:236-239 | the category map has at most one key per issue |
| `Chatbot.CategoryCountsExact` | src/services/chatbot.ts:236-239 | every category's count is the number of issues with that category, and 0 when none has it |
| `Chatbot.CategoryCountsKeys` | src/services/chatbot.ts:236-239 | the keys of the category map are exactly the categories that occur |
| `Chatbot.CategoryCountsDistinct` | src/services/chatbot.ts:236-239 | each category is a key of the map only once |
| `Chatbot.CategoryCountsSum` | src/services/chatbot.ts:236-239 | the category counts add up to the number of issues |
| `Chatbot.CategoryBreakdown` | src/services/chatbot.ts:236-239 | the `forEach` loop builds exactly the category map of the issues |
| `Chatbot.ObjectCountsAgreeOffPrototype` | src/services/chatbot.ts:235-239 | the plain object as written holds, for every category that is not an `Object.prototype` name, exactly the count of the corrected map |
| `Chatbot.InheritedNameCountsAsText` | src/services/chatbot.ts:235-239 | as written, one issue filed under "toString" is reported as the text "function toString() { [native code] }1", where the corrected map counts 1 |
| `Chatbot.ProtoCategoryVanishes` | src/services/chatbot.ts:235-239 | as written, one issue filed under "__proto__" leaves the map empty, where the corrected map counts 1 |
| `Chatbot.IssueStatistics` | src/services/chatbot.ts:217-251 | the scope is user exactly when a user id is given; the total, the four status counts and the category map are over the in-scope issues; the rate is zero when there are no issues |
| `Chatbot.StatusCountsSum` | src/services/chatbot.ts:227-231 | the four status counts partition the issues |
| `Chatbot.StatisticsConsistent` | src/services/chatbot.ts:217-251 | the status counts and the category counts each add up to the in-scope total, every category count is exact, and every in-scope issue is the given user's |
| `Chatbot.ByPopularitySpec` | src/services/chatbot.ts:172-180 | the candidates are a permutation of the issues with the requested status (all when none), each counted as often as it is stored, in non-increasing upvote order |
| `Chatbot.PopularIssuesTool` | src/services/chatbot.ts:170-197 | the tool answers "No popular issues found." exactly when no issue is a candidate, and otherwise with the ten most upvoted or all candidates when fewer (exactly `min(10, candidates)` issues) and their number |
| `Chatbot.TopOfSorted` | src/services/chatbot.ts:178-179 | the first n of a sorted list are in order, and nothing left out ranks above the last one kept |
| `Chatbot.NoPopularIssuesWhenNoneWanted` | src/services/chatbot.ts:182-184 | the empty reply comes exactly when no issue has the requested status |
| `Chatbot.PopularIssuesAreTop` | src/services/chatbot.ts:170-197 | exactly `min(10, candidates)` issues, each stored and with the requested status, in non-increasing upvotes, and no wanted issue left out has more upvotes than the last one returned |
| `IssueController.PincodeTakesPrecedence` | src/controllers/issue.ts:96-103 | a pincode wins over coordinates, and the stub always resolves it to (72.23, 22.8) |
| `IssueController.ReferencePoint` | src/controllers/issue.ts:96-111 | only coordinates can fail to resolve, with "Invalid latitude or longitude"; there is no reference point exactly when there is no pincode and not both coordinates |
| `IssueController.ResolveListing` | src/controllers/issue.ts:96-128 | the parameters fail exactly when the reference point fails, and they ask for a radius search exactly when there is a reference point |
| `IssueController.CoordinatesNeedBoth` | src/controllers/issue.ts:104-111 | without a pincode, a reference point is set exactly when both coordinates are given and parse; if both are given and one is NaN, the error is "Invalid latitude or longitude" |
| `IssueController.ListingDefaults` | src/controllers/issue.ts:113-128 | absent radius, page and limit reach `getIssues` as 100, 1 and 20; the filters and sort keys pass unchanged |
| `IssueController.ViewOf` | src/controllers/issue.ts:134-149 | each response issue reports missing upvotes as 0 and missing voters as [], and keeps the id, reporter name and distance |
| `IssueController.FetchAllIssues` | src/controllers/issue.ts:90-150 | the listing fails exactly when the parameters or `getIssues` fail, and otherwise holds at most as many issues as the absolute value of the limit |
| `IssueController.FetchAllIssuesReportsQuery` | src/controllers/issue.ts:130-150 | the response keeps the number and order of the `getIssues` records and its total, page and page count, and every issue satisfies the query's equality filters |
| `IssueController.ValidateReport` | src/controllers/issue.ts:13-23 | a report passes exactly when the title has at least 5 characters, the description at least 10, the category and address at least 1, every URL is valid, the latitude is in [-90, 90] and the longitude in [-180, 180]; a missing URL list becomes [] |
| `IssueController.RaiseIssue` | src/controllers/issue.ts:25-45 | a valid body is stored as a new open issue of the caller and echoed back; an invalid one is a validation error with the store unchanged |
| `IssueController.UploadIssueImages` | src/controllers/issue.ts:153-198 | no files, or more than 10 MB in total, give a validation error; otherwise the count is the number of files, with one "/uploads/" URL per file, in file order |
| `ChatController.ValidateChatMessage` | src/controllers/chatbot.ts:6-8 | a message passes exactly when it has 1 to 1000 characters, with the schema's message for each failure |
| `ChatController.PresentReply` | src/controllers/chatbot.ts:24-30 | `openForm` is true exactly when the response is "__OPEN_ISSUE_FORM__"; the message is then the fixed prompt and otherwise the response unchanged |
| `ChatController.OpenFormFollowsTrigger` | src/controllers/chatbot.ts:24-27 | the form opens exactly when the agent called the trigger or answered with the signal, and the signal never reaches the user as text |
| `ChatController.SendChatMessage` | src/controllers/chatbot.ts:10-31 | an invalid message or an unknown user gives an error with nothing changed; otherwise the validated message, the caller's id and the name go to `processChatMessage`, and its reply is presented |

## Left out

- The haversine distance is out. It is floating-point trigonometry, so the model takes the distance as the parameter `dist`.
- Floating-point formatting is out: `toFixed` and `toLocaleDateString`.
- `Chatbot.IssueStatistics`: the resolution rate is the pair (resolved, total), not its percentage text, because that text is floating-point formatting.
- The language model and the agent loop (`ChatGroq`, `createAgent`, `agent.invoke`) are foreign calls. The model takes the agent's message trace as input, and `None` stands for a failed call.
- The system prompt and the other agent tools are out. These are the user's issues, all issues, nearby issues and issue details. They only forward to the query engine or render text.
- The trigger tool runs inside the agent's loop. The model applies it once after the call when the trace holds a trigger call. Its effect is idempotent (`Common.AssignIdempotent`), so several calls give the same context.
- Mongoose internals are out: query execution, `countDocuments`, ObjectId generation and the TTL expiry index. The stores are in-memory, ids are counters, and loading and saving are modelled only by their success or failure.
- `Chatbot.ChatOutcome`: a save succeeds whenever `saveOk` holds, even when the reply is empty. In the program an empty last AI text (src/services/chatbot.ts:467-468) becomes an assistant turn with empty content, which the schema's `required` rejects (src/models/conversation.ts:9-12), so the save fails and the error reply is returned; the model stores the empty turn.
- The database sort leaves ties unspecified. The model's sort is stable, so ties keep the scan order.
- A negative skip is modelled as the database's query error. A negative limit returns that many records in absolute value.
- Concurrency is out. The `Promise.all` joins and the read-then-write races of upvote and status updates run one step at a time in the model.
- Authentication and authorization middleware are out. The caller's id and admin flag are inputs.
- `uploadIssueImages` does not write files. The directory creation, the file writes and the name built from the clock and `Math.random` are the `fileName` parameter.
- `IssueController.ValidateReport`: zod reports every failing field; the model reports the first failing field in schema order.
- String lengths in the report and chat schemas count characters, not UTF-16 code units.
- `Json.ObjectText` renders only what a conversation context holds: a flat object of null, boolean, integer and string values, with keys in insertion order. Nested values, non-integer numbers and JavaScript's ordering of integer-like keys first are not modelled.
- `IssueService.IssueStore.CommentsOf`: the `userName` join of `getCommentsByIssueId` is not modelled. It is the same placeholder lookup as `IssueQuery.DisplayName`.
- The thin controllers that forward to the service are not modelled: `commentOnIssue`, status update, delete, upvote and comment listing. Their service operations are modelled.
- The radius search filters and ranks only the requested page, and its `total` is the size of that filtered page (`IssueQuery.RadiusSearchSeesOnlyThePage`).
- On a failed exchange the pushed user turn, which lives only in memory, is lost. Only a conversation that `getOrCreateConversation` created is stored (`Chatbot.ChatFollowsEachPath`).
- One clock reading stands for several. `updateIssueStatus` reads the clock for `updatedAt`, for `resolvedAt` and for the resolution comment (src/services/issue.ts:181, 184 and 199). `processChatMessage` stamps the user turn and the reply on either side of the agent call (src/services/chatbot.ts:408 and 474), and the pre-save hook reads the clock again (src/models/conversation.ts:48). Each modelled operation takes one `now`, so these timestamps are equal in the model, while the program's may differ.
- `IssueController.ListingQuery` is the query after `getIssuesSchema.parse` (src/controllers/issue.ts:76-88): `status`, `sortBy` and `sortOrder` are already enum values, so the validation error for an unknown value is not modelled.
- `Chatbot.CategoryBreakdown`: it builds the corrected category map (see "## Findings"). The program's plain object misreads categories named like `Object.prototype` members, and `JSON.stringify` lists integer-like category keys first in ascending order; the model keeps insertion order.
- `Chatbot.IssueStatistics`: its `byCategory` is the corrected category map of "## Findings", not the plain object as written.
- `Chatbot.BumpSum`: states the corrected map; as written, a bump for an `Object.prototype` name concatenates text instead of adding one.
- `Chatbot.CategoryCountsExact`: states the corrected map; as written, the counts for `Object.prototype` names are text (`Chatbot.InheritedNameCountsAsText`) or missing (`Chatbot.ProtoCategoryVanishes`).
- `Chatbot.CategoryCountsKeys`: states the corrected map; as written, a "__proto__" category never becomes a key (`Chatbot.ProtoCategoryVanishes`).
- `Chatbot.CategoryCountsSum`: states the corrected map; as written, the values for `Object.prototype` names are text or missing, so they do not add up to the total.
- `Chatbot.StatisticsConsistent`: states the corrected map; as written, its exact category counts fail for `Object.prototype` names. The counts always agree off those names (`Chatbot.ObjectCountsAgreeOffPrototype`).

## Findings

| source | as written | input that shows it | evidently intended | confidence | as-written member | corrected member |
|---|---|---|---|---|---|---|
| src/services/chatbot.ts:236-238 | `categoryMap` is a plain object, so the read `categoryMap[c]` in the increment finds an inherited `Object.prototype` method for a new category such as "toString" and concatenates text | one issue with category "toString": `byCategory.toString` is "function toString() { [native code] }1" | a count of 1, as for any other category; categories are free text (src/controllers/issue.ts:16) | high; not executed | `Chatbot.InheritedNameCountsAsText` | `Chatbot.CategoryCountsExact` |
| src/services/chatbot.ts:236-238 | assigning a count to `categoryMap["__proto__"]` goes to the prototype setter, which ignores a string | one issue with category "__proto__": `byCategory` has no key | a key "__proto__" with count 1 | high; not executed | `Chatbot.ProtoCategoryVanishes` | `Chatbot.CategoryCountsKeys` |
