# drivechat-chat: chat bookkeeping and conversation storage, in Dafny

This project models the part of the drivechat chat backend that sits around
its retrieval-augmented answering: how a chat turn is recorded, how stored
messages become chat turns in the chat service's store, how a conversation's
active document embeddings become retrievable nodes with provenance, how the
answer's citation is read back, and the storage queries and CRUD (with
ownership checks) that the FastAPI routes drive.

The vector index, the chat memory buffer and the language model are one
opaque function, the *engine*, from what they are handed (the nodes, the
memory settings, the chat history and the query text) to an answer with its
sources, or a failure. The database session is a class, `Store.Session`,
whose fields are the tables the services read and reassign, plus the state
as of the last commit, so that a flush, a commit and a rollback can each be
stated exactly.

Modules follow the source files:

| module | source |
|---|---|
| `Ids` | `str(uuid)` and `uuid.UUID(text)` |
| `Text` | ASCII lower-casing, substring search, `split(sep)[0]` |
| `Ordering` | filter, first match, ORDER BY ... DESC, OFFSET and LIMIT over a table |
| `Models` | models/message.py, and the columns of the other tables |
| `Store` | the shared session (dependencies/database.py) |
| `UserService` | services/user.py |
| `MessageService` | services/message.py |
| `ConversationService` | services/conversation.py |
| `ConversationCrud` | services/conversation_service.py |
| `EmbeddingService` | services/embedding.py |
| `ChatService` | services/chat.py |
| `Http`, `RouteGuards` | HTTP outcomes; the user-then-conversation 404 checks |
| `ChatRoutes` | routes/chat.py |
| `ConversationRoutes` | routes/conversation.py |

Behaviour of the code as written, which the model follows, including
where it is surprising:

- A conversation with no active embedding gets no answer at all.
  `get_answer_nodes` returns None, and the chat route then fails reading
  `.sources` (`ChatRoutes.NoEmbeddingsCrash`). The user's message stays
  stored, and no answer is stored. There is no memory-only answering mode.
- Every node's item provenance comes from the first embedding's item
  (`EmbeddingService.ParseEmbeddingsToNodes`), whatever item the node's own
  embedding belongs to.
- A message whose source embedding or item no longer exists makes
  `get_message` fail (`Http.Fault` `EmbeddingMissing` / `ItemMissing`).
  It does not drop the citation.
- A citation id that does not read as a uuid makes the chat turn fail after
  the user's message is stored (`MalformedCitationId`).
- `use_rag` and `top_k` are accepted and never read (`ChatRoutes.RagFlagsIgnored`).

## Model

| member | source | states |
|---|---|---|
| Ids.Format | services/embedding.py:66 | `str(uuid)` is 36 characters with dashes at positions 8, 13, 18 and 23 |
| Ids.ParseFormat | routes/chat.py:66-68 | reading back the text of a uuid gives that uuid: `uuid.UUID(str(u)) == u` |
| Ids.FormatInjective | services/chat.py:46 | distinct uuids have distinct texts, so per-message store keys never collide |
| Text.Lower | services/chat.py:35 | lower-casing keeps the length and lower-cases each character independently |
| Text.BeforeFirst | services/user.py:17 | the result has no separator, is a prefix of the input, and is followed by the separator when shorter |
| Models.RoleValueFacts | models/message.py:9-11 | the two role values are distinct and already lower case |
| Models.AsDict | models/message.py:35-44 | `asdict` has exactly the seven column keys |
| Models.AsDictRoundTrip | models/message.py:35-44 | `asdict` has seven entries and reads back as the same message: no field is lost or swapped |
| Ordering.SortNewestFirst | services/message.py:26 | ORDER BY ... DESC yields a permutation of its input in non-increasing key order |
| Ordering.NewestFirstTake | services/message.py:27 | LIMIT over a sorted list keeps order and a sub-multiset of size min(n, len), and no row left out is newer than one kept |
| Ordering.NewestFirstPage | services/conversation_service.py:32-33 | OFFSET then LIMIT of the sorted listing is newest first, a sub-multiset of the input with as many rows as skip and limit leave, and the run of the sorted listing that starts at `skip` |
| Ordering.Page | services/conversation_service.py:29-33 | ORDER BY ... DESC OFFSET `skip` LIMIT `limit`: newest first, min(limit, len - skip) rows drawn from the input, and exactly the window of the sorted listing that starts at `skip` |
| Store.Session.Commit | services/conversation.py:33 | a commit makes the current tables the committed state and changes no table |
| Store.Session.Rollback | services/conversation.py:40 | a rollback restores every table to the last committed state |
| Store.ReplaceConversation | services/conversation.py:108-111 | writing a loaded row replaces exactly the rows with its id, position for position |
| Store.DeleteConversationRows | services/conversation.py:131-132 | deleting a conversation leaves no row of it and no message of it, keeps every other conversation and message, and leaves the other tables untouched; the removal of the messages stands for the `ondelete=CASCADE` foreign key (models/message.py:20), since the ORM relationship between the two is not part of this model |
| Store.DeleteKeepsOtherRows | services/conversation.py:131-132 | the delete adds no row: every other conversation and message stays exactly as many times as it was, and none of the deleted conversation's remains |
| UserService.DisplayName | services/user.py:17 | the display name has no '@', is a prefix of the email, and is followed by '@' when shorter |
| UserService.DisplayNameUnique | services/user.py:17 | those three facts determine the display name: any string with them is it |
| UserService.DisplayNameSplit | services/user.py:17 | no '@' gives the whole address; otherwise the address is name + '@' + rest |
| UserService.UserByEmail | services/user.py:13-14 | a user with exactly that email, or None iff no user has it |
| UserService.UserById | services/user.py:23-24 | a user with that id, or None iff no user has it |
| UserService.CreateUser | services/user.py:16-21 | appends one user with the email verbatim and the derived display name; flushes without committing |
| UserService.CreatedUserFound | services/user.py:13-24 | after creation the email finds a user and the fresh id finds the new one |
| MessageService.ConversationMessages | services/message.py:22-28 | only the conversation's messages, drawn from them as a sub-multiset; min(limit, count) of them; newest first; none left out is newer than one returned |
| MessageService.NewestMessageFirst | services/message.py:22-28 | a message strictly newer than the rest of its conversation heads any listing with limit >= 1 |
| MessageService.FindMessage | services/message.py:51-54 | a message with that id, or None iff there is none |
| MessageService.CreateMessage | services/message.py:31-49 | appends exactly one message with the given owner, conversation, content, role and source, leaves the other rows, and commits |
| MessageService.InsertedMessageFound | services/message.py:46-54 | after an insertion under an unused id, that id finds the new message and every other id finds what it found before |
| ConversationService.UserConversations | services/conversation.py:44-57 | exactly the user's conversations (as a multiset), newest `created_at` first |
| ConversationService.FindOwnedConversation | services/conversation.py:59-74 | a conversation with the id and the owner, or None iff none has both |
| ConversationService.ConversationsByTitle | services/conversation.py:76-93 | as a multiset, exactly the user's conversations whose title contains the query without regard to case (the same rows the reference filter keeps), newest first |
| ConversationService.TitleSearchIgnoresCase | services/conversation.py:90 | searching for a query and for its lower-case form gives the same list |
| ConversationService.EmptyQueryMatchesEveryTitle | services/conversation.py:90 | an empty query matches each of the user's conversations that has a title |
| ConversationService.CreateConversation | services/conversation.py:14-42 | on success stores owner, title, context and `updated_at` and commits; on failure rolls back to the committed state and returns None |
| ConversationService.UpdateConversation | services/conversation.py:96-120 | on success overwrites title and context, refreshes `updated_at`, keeps id and owner, commits; on failure rolls back and returns None |
| ConversationService.UpdatedConversationFound | services/conversation.py:107-115 | after an update the owner finds the updated row by its id, and rows with other ids are still there |
| ConversationService.DeleteConversation | services/conversation.py:123-136 | on success removes the row and its messages and commits; on failure rolls back and swallows the error |
| ConversationCrud.ExplicitlySet | services/conversation_service.py:50 | only fields the client set are assigned; an unset title gives no assignment |
| ConversationCrud.ApplyUpdate | services/conversation_service.py:50-51 | the set title takes the given value, possibly null, and every other field keeps its own |
| ConversationCrud.GetConversation | services/conversation_service.py:21-24 | a conversation with that id whoever owns it, or None iff none has it |
| ConversationCrud.UserConversations | services/conversation_service.py:26-34 | the user's conversations only, a sub-multiset of them, newest `updated_at` first with NULL first, with the count that skip and limit leave, and exactly the window of the user's sorted conversations that OFFSET `skip` LIMIT `limit` selects |
| ConversationCrud.DefaultFirstPage | services/conversation_service.py:27 | at the default offset 0 no conversation of the user left off the page was updated later than one on it; with the default limit of 100, a user with at most 100 conversations gets all of them |
| ConversationCrud.Authorize | services/conversation_service.py:44-48 | 404 exactly when no conversation has the id; 403 only when another user owns it; success gives the owned row |
| ConversationCrud.AuthorizeOwner | services/conversation_service.py:44-48 | given the row exists, the checks pass iff the caller owns it, and otherwise fail with 403 |
| ConversationCrud.CreateConversation | services/conversation_service.py:9-19 | stores a conversation with only title and owner set (no context, no `updated_at`) and commits |
| ConversationCrud.UpdateConversation | services/conversation_service.py:36-55 | a 404 or 403 changes nothing; otherwise only the set fields change, the row is replaced and committed |
| ConversationCrud.DeleteConversation | services/conversation_service.py:57-68 | a 404 or 403 changes nothing; otherwise the row and its messages go, the change is committed and the answer is true |
| EmbeddingService.ConversationEmbeddings | services/embedding.py:36-45 | only the conversation's embeddings whose item is active, and every such embedding |
| EmbeddingService.ConversationEmbeddingsCounts | services/embedding.py:36-45 | exactly those embeddings: each active embedding of the conversation as many times as the table holds it, and no other |
| EmbeddingService.GetEmbedding | services/embedding.py:47-51 | the embedding with that id, or None iff there is none |
| EmbeddingService.ParseEmbeddingsToNodes | services/embedding.py:53-74 | one node per embedding, in order, with its id, text, vector, id text and page; item id, uri and name from the first embedding's item for every node |
| EmbeddingService.NodeIdsReadBack | services/embedding.py:66 | every node's metadata id reads back as its embedding's id |
| ChatService.AddMessage | services/chat.py:46 | `add_message` appends the turn under its key, creating the key if needed, and leaves every other key alone |
| ChatService.ToTurnFields | services/chat.py:35-44 | a turn's role is the lower-cased role value ("user" or "assistant"), its content is verbatim, its data holds conversation id, time and source |
| ChatService.TurnsInOrder | services/chat.py:33-45 | one turn per message, the i-th turn from the i-th message |
| ChatService.StoreAfterEntries | services/chat.py:34-46 | under each key the store gains exactly the turns of the messages with that id text, in order, after what it held |
| ChatService.StoreAfterKeys | services/chat.py:46 | the store's keys grow by exactly the messages' id texts |
| ChatService.StoreAfterAccumulates | services/chat.py:27 | parsing two histories in turn equals parsing both at once: the store accumulates and is never reset |
| ChatService.IndexNodes | services/chat.py:62-65 | no index iff the conversation has no active embedding |
| ChatService.IndexIsConversationScoped | services/chat.py:62-70 | every indexed node comes from an active embedding of this conversation and its id text reads back as that embedding's id |
| ChatService.ChatService.constructor | services/chat.py:27 | a new service has an empty chat store and no index |
| ChatService.ChatService.ParseMessageHistory | services/chat.py:30-47 | returns one turn per message in order, and the service's own store, which has each turn appended under its message's id |
| ChatService.ChatService.GetAnswerNodes | services/chat.py:50-87 | None with no index built and the chat store unchanged when there is no active embedding; otherwise the index is built from the conversation's nodes, the engine is asked the query unchanged with memory keyed by the conversation id and a 4096-token limit, the answer is the engine's, and the chat store is the one the engine leaves behind |
| RouteGuards.ResolveOwned | routes/conversation.py:55-61 | 404 "User not found" iff no user has the email; then 404 "Conversation not found" iff that user owns no conversation with the id; success gives both |
| ChatRoutes.CitationId | routes/chat.py:63-68 | no citation iff there are no sources or the first source has no nodes; a failure exactly when there is a first node and its metadata id does not read as a uuid; otherwise that id read as a uuid |
| ChatRoutes.CitationGrounded | routes/chat.py:63-68 | when the cited node is one the index was built from, the citation is an active embedding of the conversation |
| ChatRoutes.AnswerOutcome | routes/chat.py:57-76 | the turn succeeds with the engine's answer iff the engine answered and the citation reads; an engine failure fails the turn |
| ChatRoutes.Chat | routes/chat.py:20-76 | the route's outcome, tables and chat-service fields are those of ChatEffect; a 404 leaves the session untouched; any other outcome leaves it committed |
| ChatRoutes.ChatGuarded | routes/chat.py:32-43 | nothing is written unless the user exists and owns the conversation; otherwise the outcome is the guard's 404 |
| ChatRoutes.ChatWrites | routes/chat.py:45-75 | past the guard, the user's message is stored first; the answer, with the response text and the citation, is stored after it iff the turn succeeds; no other table changes |
| ChatRoutes.HistoryHoldsQuestion | routes/chat.py:45-54 | when the question is newer than the conversation's earlier messages, it heads the history and the first turn is "user" with its text |
| ChatRoutes.NoEmbeddingsCrash | routes/chat.py:57-64 | with no active embedding the turn fails reading `.sources`; the user's message stays, no answer is stored, no index is built, and the chat store holds the parsed history |
| ChatRoutes.EngineRequestShape | services/chat.py:71-86 | the engine gets the request text unchanged, memory keyed by the conversation id with a 4096-token limit, and the conversation's nodes; the chat store after the turn is what the engine leaves in the store it was handed, which already holds the history |
| ChatRoutes.RagFlagsIgnored | routes/chat.py:57-62 | changing `use_rag` or `top_k` changes nothing the turn does |
| ChatRoutes.GetChatHistory | routes/chat.py:79-101 | a guard failure raises exactly the guard's 404; after the guard, min(limit, count) of the conversation's messages, drawn from them, newest first, none left out newer than one returned; a short page holds all of them |
| ChatRoutes.HistoryComplete | routes/chat.py:100 | a page shorter than its limit contains every message of the conversation |
| ChatRoutes.DefaultHistoryPage | routes/chat.py:79-101 | with the default limit of 5 (routes/chat.py:84), a conversation of at most five messages is listed whole and a longer one gives exactly five |
| ChatRoutes.MergeSource | routes/chat.py:133-140 | the merged dictionary has the seven message keys with their values plus text, page, file name, uri and date of the source |
| ChatRoutes.MergeKeepsMessage | routes/chat.py:133-140 | the merge has twelve entries and its message fields read back as the message |
| ChatRoutes.GetMessage | routes/chat.py:104-141 | a guard failure raises exactly the guard's 404 and never "Message not found"; after the guard, 404 "Message not found" iff no message has the id; the bare message when it has no source; the `EmbeddingMissing` crash when its source embedding is gone; the merge with its embedding and item when both exist; the `ItemMissing` crash exactly when the embedding exists and its item does not |
| ChatRoutes.LookupMessage | routes/chat.py:127-141 | past the guard: 404 "Message not found" iff no message has the id, and no other 404; the bare message when it has no source; the `EmbeddingMissing` crash when its source embedding is gone; the merge with its embedding and item when both exist; the `ItemMissing` crash exactly when the embedding exists and its item does not |
| ChatRoutes.SourcedView | routes/chat.py:130-139 | a sourced message comes back merged with the embedding with that id and its item when both exist; a crash on the missing embedding exactly when no embedding has the id; a crash on the missing item exactly when the embedding exists and its item does not |
| ChatRoutes.GetMessageIgnoresConversation | routes/chat.py:120-129 | the message is found by id alone: any conversation the caller owns gives the same answer |
| ConversationRoutes.Owner | routes/conversation.py:19-22 | the conversation's owner is the caller's user if one exists, otherwise a new user with that email and derived display name |
| ConversationRoutes.UsersAfterLookup | routes/conversation.py:19-22 | the users table grows by one user exactly when the email had none |
| ConversationRoutes.OwnerFound | routes/conversation.py:19-22 | after create's lookup the email names the owner |
| ConversationRoutes.CreateConversation | routes/conversation.py:12-25 | creates a missing user instead of refusing; on success the conversation belongs to the owner and is committed; on failure the rollback also removes the flushed user |
| ConversationRoutes.CreatedConversationVisible | routes/conversation.py:12-25 | a created conversation under an unused id is what the caller's get then finds |
| ConversationRoutes.ListConversations | routes/conversation.py:28-45 | 404 for an unknown user; with a non-empty title 404 iff none of the user's conversations matches, otherwise, as a multiset, exactly the user's conversations whose title matches; without one, exactly the user's conversations, newest first |
| ConversationRoutes.GetConversation | routes/conversation.py:48-62 | the user check precedes the conversation check and a failure raises exactly the guard's 404; success gives the conversation the guard resolved, which has the id and is owned by the caller |
| ConversationRoutes.UpdateConversation | routes/conversation.py:65-81 | a 404 changes nothing; otherwise the service's update of the owned conversation |
| ConversationRoutes.ConversationItems | routes/conversation.py:99 | exactly the items of the conversation, inactive ones included |
| ConversationRoutes.DeleteGuard | routes/conversation.py:92-101 | the guard's 404s come first; then 400 "Conversation has items" iff any item, active or not, belongs to the conversation; with no items the result is exactly the guard's |
| ConversationRoutes.DeleteConversation | routes/conversation.py:84-106 | a refusal changes nothing; otherwise the service's delete, and the reply names the id with its message even when the commit failed |
| ConversationRoutes.DeleteRemovesOnlyTheConversation | routes/conversation.py:99-102 | a delete past its checks removes the conversation and its messages, keeps other rows, and leaves no item of it behind |

## Left out

- The vector index, similarity ranking, memory token truncation and generation (services/chat.py:67-86) belong to the libraries the service calls. They are one opaque engine function. No top-k or truncation policy is modelled.
- Embedding vectors are carried as opaque sequences and never inspected.
- Database bootstrap (pgvector extension, table creation, session factory) and the FastAPI app and CORS setup are not part of this model.
- Authentication: `validate_token` is not part of this model. The caller is the email it would yield.
- Request and response schemas are reduced to the fields the code reads: `ChatRequest`, `ConversationCreate` and `ConversationUpdate`. The UUID4 version check on ids is not modelled.
- Ids.Parse: accepts exactly 32 hexadecimal digits with any dashes. `uuid.UUID` is more lenient: it strips surrounding whitespace and also accepts braces and a `urn:uuid:` prefix. The model rejects those forms; they never come from `str(uuid)`, which is the only producer of node ids here.
- Row order: a query without ORDER BY (`get_conversation_embeddings`, services/embedding.py:36-45) returns the rows in table order in the model, where PostgreSQL leaves the order unspecified. `ParseEmbeddingsToNodes` takes the first embedding's item, so which item that is depends on this order.
- Ordering.SortNewestFirst: rows with equal sort keys keep their table order, where PostgreSQL leaves the order among ties unspecified. The windows that `Ordering.Page`, `Ordering.NewestFirstPage` and `ConversationCrud.UserConversations` state depend on that tie order; their counts, ordering and sub-multiset facts do not.
- ConversationService.ConversationsByTitle: `ilike` is modelled as case-insensitive substring search, so `%` and `_` in the search text match themselves rather than acting as SQL wildcards.
- Text.Lower: lower-cases ASCII letters only, and `ilike` is modelled as case-insensitive substring search. SQL `%`/`_` wildcards inside the query and non-ASCII case folding are not modelled.
- Server clocks (`func.now()`, `datetime.now()`) and uuid4 defaults are inputs to the operations. Primary-key uniqueness is not enforced by the model's tables; every lookup takes the first row that matches.
- MessageService.CreateMessage: a failing commit is not modelled. Commit failure is an input only where the code catches it (services/conversation.py).
- ConversationCrud.CreateConversation: same as above; services/conversation_service.py does not catch commit failures.
- ChatRoutes.GetChatHistory: takes a natural-number limit. A negative `limit` query parameter, which the database refuses, is not modelled.
- ConversationCrud.UserConversations: takes natural-number `skip` and `limit`, for the same reason.
- EmbeddingService.ParseEmbeddingsToNodes: requires a non-empty batch whose first embedding's item exists. The code indexes `embeddings[0]` and dereferences the item it finds. Its only caller passes active embeddings, whose items exist.
- Unhandled database errors other than the modelled commit failures, and `session.refresh`, are not modelled.
- Embedding and item rows are read-only here. Their ingestion, and `ItemService` (services/item.py is not part of this model), are reduced to an `items` map from id to item and a `ConversationItems` query.
- The shared session across concurrent requests (dependencies/database.py:40) is not modelled; each operation runs alone.
- ChatService.ChatService.GetAnswerNodes: what the engine writes into the chat memory is an input (`EngineRun.chatStore`), not derived from the library. The model takes the store handed to the memory to be the service's own store, as services/chat.py:71-76 passes it; a store object shared with other services is not modelled.
- JSON serialization of the returned rows and of the engine's response object is not modelled.
