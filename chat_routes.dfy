/**
 * routes/chat.py: the chat turn, the history listing and the "show
 * source" lookup. A chat turn persists the user's message, lists the
 * conversation's latest messages, hands them to the chat service, takes a
 * citation from the answer's first source node and persists the answer.
 * The ids and server times of the two inserted rows are inputs.
 */
module ChatRoutes {
  import opened Wrappers
  import opened Ids
  import opened Models
  import opened Http
  import opened EmbeddingService
  import opened ChatService
  import Store
  import MessageService
  import RouteGuards

  /** The request body. `useRag` and `topK` are accepted and never read. */
  datatype ChatRequest = ChatRequest(conversationId: Uuid, message: string, useRag: bool, topK: int)

  /** The fresh uuid4 and the server's `created_at` of one inserted message. */
  datatype Stamp = Stamp(id: Uuid, at: Time)

  /** What one chat turn leaves behind: the route's outcome, the tables and the chat service's two fields. */
  datatype ChatStep = ChatStep(outcome: Outcome<ChatResponse>, tables: Store.Tables,
                               chatStore: ChatStore, vectorStore: Option<seq<TextNode>>)

  /** get_chat_history's default page size. */
  const HistoryDefaultLimit: nat := 5

  /**
   * The citation: none when the answer has no sources or its first source
   * has no nodes; otherwise the first node's metadata `id` read as a
   * uuid, which fails when that text is not one.
   */
  function CitationId(sources: seq<ToolOutput>): (r: Result<Option<Uuid>, Fault>)
    ensures (|sources| == 0 || |sources[0].sourceNodes| == 0) <==> r == Success(None)
    ensures r.Failure? ==> r.error == MalformedCitationId
    ensures r.Failure? <==> |sources| > 0 && |sources[0].sourceNodes| > 0
                            && Parse(sources[0].sourceNodes[0].node.metadata.id).None?
    ensures r.Success? && r.value.Some? ==> Parse(sources[0].sourceNodes[0].node.metadata.id) == r.value
  {
    if |sources| == 0 || |sources[0].sourceNodes| == 0 then Success(None)
    else
      match Parse(sources[0].sourceNodes[0].node.metadata.id)
      case Some(id) => Success(Some(id))
      case None => Failure(MalformedCitationId)
  }

  /** When the first source node is one the index was built from, the citation is the id of an active embedding of the conversation. */
  lemma CitationGrounded(t: Store.Tables, conversationId: Uuid, sources: seq<ToolOutput>)
    requires IndexNodes(t, conversationId).Some?
    requires |sources| > 0 && |sources[0].sourceNodes| > 0
    requires sources[0].sourceNodes[0].node in IndexNodes(t, conversationId).value
    ensures CitationId(sources).Success? && CitationId(sources).value.Some?
    ensures exists e <- t.embeddings ::
      && e.conversationId == conversationId && e.itemId in t.items && t.items[e.itemId].active
      && CitationId(sources) == Success(Some(e.id))
  {
    IndexIsConversationScoped(t, conversationId);
    var n := sources[0].sourceNodes[0].node;
    var e :| e in t.embeddings && e.conversationId == conversationId && e.itemId in t.items
             && t.items[e.itemId].active && n.id == e.id && Parse(n.metadata.id) == Some(e.id);
    assert CitationId(sources) == Success(Some(e.id));
  }

  /** The user's message as the route stores it. */
  function Question(caller: RouteGuards.Caller, request: ChatRequest, stamp: Stamp): Message
  {
    Message(stamp.id, caller.conversation.id, UserRole, caller.user.id, request.message, None, stamp.at)
  }

  /** The assistant's message as the route stores it. */
  function Reply(caller: RouteGuards.Caller, answer: ChatResponse, source: Option<Uuid>, stamp: Stamp): Message
  {
    Message(stamp.id, caller.conversation.id, AssistantRole, caller.user.id, answer.response, source, stamp.at)
  }

  /** The history the chat service is handed: the conversation's ten newest messages, the new question among them. */
  function History(t: Store.Tables, caller: RouteGuards.Caller, request: ChatRequest, question: Stamp): seq<Message>
  {
    MessageService.ConversationMessages(t.messages + [Question(caller, request, question)],
                                        caller.conversation.id, MessageService.DefaultLimit)
  }

  /**
   * The effect of one chat turn on the tables `t` and on a chat service
   * whose fields are `store` and `vectorStore`: the guard's 404, or the
   * turn of the owner it lets through.
   */
  function ChatEffect(t: Store.Tables, store: ChatStore, vectorStore: Option<seq<TextNode>>, email: string,
                      request: ChatRequest, engine: EngineRequest -> EngineRun, question: Stamp, reply: Stamp)
    : ChatStep
  {
    match RouteGuards.ResolveOwned(t, email, request.conversationId)
    case Failure(e) => ChatStep(Raised(e), t, store, vectorStore)
    case Success(caller) => OwnerTurn(t, store, vectorStore, caller, request, engine, question, reply)
  }

  /**
   * The turn once the guard has passed: store the question, hand the
   * history to the chat service, and, when there is an index, ask the
   * engine.
   */
  function OwnerTurn(t: Store.Tables, store: ChatStore, vectorStore: Option<seq<TextNode>>, caller: RouteGuards.Caller,
                     request: ChatRequest, engine: EngineRequest -> EngineRun, question: Stamp, reply: Stamp)
    : ChatStep
  {
    var asked := t.(messages := t.messages + [Question(caller, request, question)]);
    var history := History(t, caller, request, question);
    var store' := StoreAfter(store, history);
    var nodes := IndexNodes(asked, caller.conversation.id);
    if nodes.None? then ChatStep(Crashed(AnswerIsNone), asked, store', vectorStore)
    else
      var run := engine(AnswerRequest(nodes.value, request.message, caller.conversation, store', Turns(history)));
      ChatStep(AnswerOutcome(run.result), AnswerTables(asked, caller, run.result, reply), run.chatStore, nodes)
  }

  /** The route's outcome once the engine has been called. */
  function AnswerOutcome(result: EngineResult): (r: Outcome<ChatResponse>)
    ensures !r.Raised?
    ensures r.Done? <==> result.Answered? && CitationId(result.answer.sources).Success?
    ensures r.Done? ==> r.value == result.answer
    ensures result.EngineFailed? ==> r == Crashed(GenerationFailed)
  {
    match result
    case EngineFailed => Crashed(GenerationFailed)
    case Answered(answer) =>
      match CitationId(answer.sources)
      case Failure(f) => Crashed(f)
      case Success(_) => Done(answer)
  }

  /** The tables once the engine has been called: the answer is stored only when the route succeeds. */
  function AnswerTables(asked: Store.Tables, caller: RouteGuards.Caller, result: EngineResult, reply: Stamp): Store.Tables
  {
    if result.Answered? && CitationId(result.answer.sources).Success? then
      asked.(messages := asked.messages + [Reply(caller, result.answer, CitationId(result.answer.sources).value, reply)])
    else asked
  }

  /**
   * `chat`: the route itself. Its outcome, the tables and the chat
   * service's fields end up as ChatEffect says; a raised 404 leaves the
   * session untouched, and every other outcome leaves it committed.
   */
  method Chat(db: Store.Session, chat: ChatService, email: string, request: ChatRequest,
              engine: EngineRequest -> EngineRun, question: Stamp, reply: Stamp)
    returns (r: Outcome<ChatResponse>)
    modifies db, chat
    ensures var s := ChatEffect(old(db.Snapshot()), old(chat.chatStore), old(chat.vectorStore),
                                email, request, engine, question, reply);
      && r == s.outcome && db.Snapshot() == s.tables
      && chat.chatStore == s.chatStore && chat.vectorStore == s.vectorStore
    ensures r.Raised? ==> db.committed == old(db.committed)
    ensures !r.Raised? ==> db.committed == db.Snapshot()
  {
    var caller := RouteGuards.ResolveOwned(db.Snapshot(), email, request.conversationId);
    if caller.Failure? {
      return Raised(caller.error);
    }
    var user, conversation := caller.value.user, caller.value.conversation;
    var asked := MessageService.CreateMessage(db, user, conversation, request.message, UserRole, None,
                                              question.id, question.at);
    var messages := MessageService.ConversationMessages(db.messages, conversation.id, MessageService.DefaultLimit);
    var chatMessages, chatHistory := chat.ParseMessageHistory(messages);
    var answerNodes := chat.GetAnswerNodes(db, request.message, conversation, chatHistory, chatMessages, engine);
    if answerNodes.None? {
      return Crashed(AnswerIsNone);
    }
    if answerNodes.value.EngineFailed? {
      return Crashed(GenerationFailed);
    }
    var answer := answerNodes.value.answer;
    var sourcesId := CitationId(answer.sources);
    if sourcesId.Failure? {
      return Crashed(sourcesId.error);
    }
    var answered := MessageService.CreateMessage(db, user, conversation, answer.response, AssistantRole,
                                                 sourcesId.value, reply.id, reply.at);
    r := Done(answer);
  }

  /**
   * Nothing is written, and the chat service is left alone, unless the
   * caller is a user who owns the conversation; otherwise the turn ends
   * in the guard's 404.
   */
  lemma ChatGuarded(t: Store.Tables, store: ChatStore, vectorStore: Option<seq<TextNode>>, email: string,
                    request: ChatRequest, engine: EngineRequest -> EngineRun, question: Stamp, reply: Stamp)
    ensures var s := ChatEffect(t, store, vectorStore, email, request, engine, question, reply);
      && (s.outcome.Raised? <==> RouteGuards.ResolveOwned(t, email, request.conversationId).Failure?)
      && (s.outcome.Raised? ==> s.tables == t && s.chatStore == store && s.vectorStore == vectorStore)
      && (s.outcome.Raised? ==> s.outcome.error == UserNotFound || s.outcome.error == ConversationNotFound)
  {
    var s := ChatEffect(t, store, vectorStore, email, request, engine, question, reply);
    match RouteGuards.ResolveOwned(t, email, request.conversationId)
    case Failure(e) =>
      assert s == ChatStep(Raised(e), t, store, vectorStore);
    case Success(caller) =>
      assert s == OwnerTurn(t, store, vectorStore, caller, request, engine, question, reply);
  }

  /**
   * Once the guard passes, the user's message is stored first; the answer
   * is stored after it exactly when the turn succeeds, with the response
   * text and the citation; nothing else in the tables changes.
   */
  lemma ChatWrites(t: Store.Tables, store: ChatStore, vectorStore: Option<seq<TextNode>>, email: string,
                   request: ChatRequest, engine: EngineRequest -> EngineRun, question: Stamp, reply: Stamp)
    requires RouteGuards.ResolveOwned(t, email, request.conversationId).Success?
    ensures var caller := RouteGuards.ResolveOwned(t, email, request.conversationId).value;
      var s := ChatEffect(t, store, vectorStore, email, request, engine, question, reply);
      && s.tables.users == t.users && s.tables.conversations == t.conversations
      && s.tables.embeddings == t.embeddings && s.tables.items == t.items
      && (s.outcome.Done? ==>
            && CitationId(s.outcome.value.sources).Success?
            && s.tables.messages == t.messages + [Question(caller, request, question),
                 Reply(caller, s.outcome.value, CitationId(s.outcome.value.sources).value, reply)])
      && (s.outcome.Crashed? ==> s.tables.messages == t.messages + [Question(caller, request, question)])
  {
    var caller := RouteGuards.ResolveOwned(t, email, request.conversationId).value;
    assert ChatEffect(t, store, vectorStore, email, request, engine, question, reply)
        == OwnerTurn(t, store, vectorStore, caller, request, engine, question, reply);
    OwnerTurnWrites(t, store, vectorStore, caller, request, engine, question, reply);
  }

  /** ChatWrites for the owner's turn. */
  lemma OwnerTurnWrites(t: Store.Tables, store: ChatStore, vectorStore: Option<seq<TextNode>>, caller: RouteGuards.Caller,
                        request: ChatRequest, engine: EngineRequest -> EngineRun, question: Stamp, reply: Stamp)
    ensures var s := OwnerTurn(t, store, vectorStore, caller, request, engine, question, reply);
      && s.tables.users == t.users && s.tables.conversations == t.conversations
      && s.tables.embeddings == t.embeddings && s.tables.items == t.items
      && (s.outcome.Done? ==>
            && CitationId(s.outcome.value.sources).Success?
            && s.tables.messages == t.messages + [Question(caller, request, question),
                 Reply(caller, s.outcome.value, CitationId(s.outcome.value.sources).value, reply)])
      && (s.outcome.Crashed? ==> s.tables.messages == t.messages + [Question(caller, request, question)])
  {
    var q := Question(caller, request, question);
    var asked := t.(messages := t.messages + [q]);
    var nodes := IndexNodes(asked, caller.conversation.id);
    if nodes.Some? {
      var history := History(t, caller, request, question);
      var result := engine(AnswerRequest(nodes.value, request.message, caller.conversation,
                                         StoreAfter(store, history), Turns(history))).result;
      AnswerTablesFacts(t.messages, q, asked, caller, result, reply);
    }
  }

  /** The answer is appended after the question exactly when the route succeeds; no other table changes. */
  lemma AnswerTablesFacts(messages: seq<Message>, q: Message, asked: Store.Tables, caller: RouteGuards.Caller,
                          result: EngineResult, reply: Stamp)
    requires asked.messages == messages + [q]
    ensures var after := AnswerTables(asked, caller, result, reply);
      && after == asked.(messages := after.messages)
      && (AnswerOutcome(result).Done? ==>
            after.messages == messages + [q, Reply(caller, result.answer, CitationId(result.answer.sources).value, reply)])
      && (AnswerOutcome(result).Crashed? ==> after.messages == messages + [q])
  {
    if AnswerOutcome(result).Done? {
      var a := Reply(caller, result.answer, CitationId(result.answer.sources).value, reply);
      assert messages + [q] + [a] == messages + [q, a];
    }
  }

  /**
   * The turn reads the conversation's history after storing the question:
   * when the question is newer than every earlier message of the
   * conversation, it heads the history, and the first turn handed to the
   * engine is the question's text.
   */
  lemma HistoryHoldsQuestion(t: Store.Tables, caller: RouteGuards.Caller, request: ChatRequest, question: Stamp)
    requires forall m <- t.messages :: m.conversationId == caller.conversation.id ==> m.createdAt < question.at
    ensures var history := History(t, caller, request, question);
      && |history| >= 1 && history[0] == Question(caller, request, question)
      && Turns(history)[0].content == request.message
      && Turns(history)[0].role == "user"
  {
    var q := Question(caller, request, question);
    var history := History(t, caller, request, question);
    assert q in t.messages + [q];
    MessageService.NewestMessageFirst(t.messages + [q], q, MessageService.DefaultLimit);
    TurnsInOrder(history);
    ToTurnFields(q);
    RoleValueFacts(UserRole, UserRole);
  }

  /**
   * Without an active embedding in the conversation the answer is None and
   * reading its sources fails: the user's message stays stored, no answer
   * is stored, no index is built, and the service's store holds the
   * history's turns.
   */
  lemma NoEmbeddingsCrash(t: Store.Tables, store: ChatStore, vectorStore: Option<seq<TextNode>>, email: string,
                          request: ChatRequest, engine: EngineRequest -> EngineRun, question: Stamp, reply: Stamp)
    requires RouteGuards.ResolveOwned(t, email, request.conversationId).Success?
    requires ConversationEmbeddings(t.embeddings, t.items, request.conversationId) == []
    ensures var caller := RouteGuards.ResolveOwned(t, email, request.conversationId).value;
      var s := ChatEffect(t, store, vectorStore, email, request, engine, question, reply);
      && s.outcome == Crashed(AnswerIsNone)
      && s.tables.messages == t.messages + [Question(caller, request, question)]
      && s.vectorStore == vectorStore
      && s.chatStore == StoreAfter(store, History(t, caller, request, question))
  {
  }

  /**
   * With an index, the engine is asked the request's text unchanged, over
   * nodes drawn only from the conversation's active embeddings, with
   * memory keyed by the conversation's id and a 4096-token limit, whose
   * store holds the history's turns; the service keeps the store as the
   * engine leaves it.
   */
  lemma EngineRequestShape(t: Store.Tables, store: ChatStore, vectorStore: Option<seq<TextNode>>, email: string,
                           request: ChatRequest, engine: EngineRequest -> EngineRun, question: Stamp, reply: Stamp)
    requires RouteGuards.ResolveOwned(t, email, request.conversationId).Success?
    requires IndexNodes(t, request.conversationId).Some?
    ensures var caller := RouteGuards.ResolveOwned(t, email, request.conversationId).value;
      var history := History(t, caller, request, question);
      var s := ChatEffect(t, store, vectorStore, email, request, engine, question, reply);
      var asked := AnswerRequest(IndexNodes(t, request.conversationId).value, request.message, caller.conversation,
                                 StoreAfter(store, history), Turns(history));
      && asked.message == request.message
      && asked.memory.chatStoreKey == Format(request.conversationId)
      && asked.memory.tokenLimit == 4096
      && s.vectorStore == IndexNodes(t, request.conversationId)
      && s.chatStore == engine(asked).chatStore
      && (engine(asked).result.EngineFailed? ==> s.outcome == Crashed(GenerationFailed))
      && (engine(asked).result.Answered? && CitationId(engine(asked).result.answer.sources).Success? ==>
            s.outcome == Done(engine(asked).result.answer))
  {
    var caller := RouteGuards.ResolveOwned(t, email, request.conversationId).value;
    var asked := t.(messages := t.messages + [Question(caller, request, question)]);
    assert IndexNodes(asked, caller.conversation.id) == IndexNodes(t, request.conversationId);
  }

  /** `use_rag` and `top_k` make no difference to anything the turn does. */
  lemma RagFlagsIgnored(t: Store.Tables, store: ChatStore, vectorStore: Option<seq<TextNode>>, email: string,
                        request: ChatRequest, engine: EngineRequest -> EngineRun, question: Stamp, reply: Stamp,
                        useRag: bool, topK: int)
    ensures ChatEffect(t, store, vectorStore, email, request.(useRag := useRag, topK := topK), engine, question, reply)
         == ChatEffect(t, store, vectorStore, email, request, engine, question, reply)
  {
    var other := request.(useRag := useRag, topK := topK);
    assert RouteGuards.ResolveOwned(t, email, other.conversationId)
        == RouteGuards.ResolveOwned(t, email, request.conversationId);
    match RouteGuards.ResolveOwned(t, email, request.conversationId)
    case Failure(_) =>
    case Success(caller) =>
      assert Question(caller, other, question) == Question(caller, request, question);
  }

  /** `get_chat_history`: after the guard, the conversation's `limit` newest messages, newest first. */
  function GetChatHistory(t: Store.Tables, email: string, conversationId: Uuid, limit: nat): (r: Outcome<seq<Message>>)
    ensures r.Raised? <==> RouteGuards.ResolveOwned(t, email, conversationId).Failure?
    ensures r.Raised? ==> r.error == RouteGuards.ResolveOwned(t, email, conversationId).error
    ensures !r.Crashed?
    ensures r.Done? ==>
      var count := MessageService.CountIn(t.messages, conversationId);
      && |r.value| == (if limit < count then limit else count)
      && multiset(r.value) <= multiset(Ordering.Filter(t.messages, MessageService.InConversation(conversationId)))
      && (forall m <- r.value :: m in t.messages && m.conversationId == conversationId)
      && (forall i, j :: 0 <= i < j < |r.value| ==> r.value[j].createdAt <= r.value[i].createdAt)
      && (forall x, y :: x in r.value && y in t.messages && y.conversationId == conversationId && y !in r.value
                         ==> y.createdAt <= x.createdAt)
      && (|r.value| < limit ==> forall m <- t.messages :: m.conversationId == conversationId ==> m in r.value)
  {
    match RouteGuards.ResolveOwned(t, email, conversationId)
    case Failure(e) => Raised(e)
    case Success(caller) =>
      var r := MessageService.ConversationMessages(t.messages, caller.conversation.id, limit);
      HistoryComplete(t.messages, conversationId, limit);
      Done(r)
  }

  /**
   * With the route's default page of five, a conversation of at most five
   * messages is listed whole, and a longer one gives its five newest.
   */
  lemma DefaultHistoryPage(t: Store.Tables, email: string, conversationId: Uuid)
    requires RouteGuards.ResolveOwned(t, email, conversationId).Success?
    ensures var r := GetChatHistory(t, email, conversationId, HistoryDefaultLimit);
      && r.Done?
      && (MessageService.CountIn(t.messages, conversationId) <= 5 ==>
            forall m <- t.messages :: m.conversationId == conversationId ==> m in r.value)
      && (MessageService.CountIn(t.messages, conversationId) > 5 ==> |r.value| == 5)
  {
    var r := GetChatHistory(t, email, conversationId, HistoryDefaultLimit);
    if MessageService.CountIn(t.messages, conversationId) <= 5 {
      forall m <- t.messages | m.conversationId == conversationId ensures m in r.value {
        var matching := Ordering.Filter(t.messages, MessageService.InConversation(conversationId));
        assert m in matching;
        assert m in multiset(matching);
        assert |multiset(r.value)| == |multiset(matching)|;
        Ordering.MultisetSubEqual(multiset(r.value), multiset(matching));
        assert m in multiset(r.value);
      }
    }
  }

  /** A page shorter than its limit holds every message of the conversation. */
  lemma HistoryComplete(messages: seq<Message>, conversationId: Uuid, limit: nat)
    ensures var r := MessageService.ConversationMessages(messages, conversationId, limit);
      |r| < limit ==> forall m <- messages :: m.conversationId == conversationId ==> m in r
  {
    var r := MessageService.ConversationMessages(messages, conversationId, limit);
    if |r| < limit {
      forall m <- messages | m.conversationId == conversationId ensures m in r {
        var matching := Ordering.Filter(messages, MessageService.InConversation(conversationId));
        assert m in matching;
        Ordering.NewestFirstTake(Ordering.SortNewestFirst(matching, MessageService.CreatedKey),
                                 MessageService.CreatedKey, limit);
        Ordering.SortedSelection(messages, MessageService.InConversation(conversationId), MessageService.CreatedKey);
        assert |r| == |matching|;
        assert multiset(r) <= multiset(Ordering.SortNewestFirst(matching, MessageService.CreatedKey));
        assert multiset(r) == multiset(matching) by {
          assert |multiset(r)| == |multiset(matching)|;
        }
        assert m in multiset(r);
      }
    }
  }

  /** What `get_message` returns: the bare message, or its fields merged with its source's provenance. */
  datatype MessageView = Bare(message: Message) | WithSource(fields: map<string, FieldValue>)

  const SourceKeys: set<string> := {"original_text", "page", "file_name", "uri", "last_updated"}

  /** `{**message.asdict(), ...}`: the message's seven fields and five of provenance. */
  function MergeSource(m: Message, e: Embedding, item: Item): (d: map<string, FieldValue>)
    ensures d.Keys == MessageKeys + SourceKeys
    ensures forall k <- MessageKeys :: d[k] == AsDict(m)[k]
    ensures d["original_text"] == TextField(e.chunkText) && d["page"] == IntField(e.page)
    ensures d["file_name"] == TextField(item.fileName) && d["uri"] == TextField(item.uri)
    ensures d["last_updated"] == TimeField(item.lastUpdated)
  {
    SourceKeysAreNew();
    AsDict(m) + map[
      "original_text" := TextField(e.chunkText),
      "page" := IntField(e.page),
      "file_name" := TextField(item.fileName),
      "uri" := TextField(item.uri),
      "last_updated" := TimeField(item.lastUpdated)]
  }

  /** None of the provenance keys is one of the message's own. */
  lemma SourceKeysAreNew()
    ensures MessageKeys * SourceKeys == {}
  {
    forall k <- SourceKeys ensures k !in MessageKeys {
      if k == "page" || k == "uri" {
        assert |k| <= 4;
      } else if k == "original_text" {
        assert k[0] == 'o';
      } else if k == "file_name" {
        assert k[0] == 'f';
      } else {
        assert k[1] == 'a';
      }
    }
  }

  lemma SourceKeysCount()
    ensures |SourceKeys| == 5
  {
    var keys := ["original_text", "page", "file_name", "uri", "last_updated"];
    assert SourceKeys == set k <- keys;
    assert forall i, j :: 0 <= i < j < 5 ==> keys[i] != keys[j] by {
      assert keys[0][0] == 'o' && keys[1][0] == 'p' && keys[2][0] == 'f' && keys[3][0] == 'u' && keys[4][0] == 'l';
    }
    DistinctElementsCount(keys);
  }

  /** The merge loses nothing of the message: its seven fields read back as the message. */
  lemma MergeKeepsMessage(m: Message, e: Embedding, item: Item)
    ensures FromDict(MergeSource(m, e, item)) == Some(m)
    ensures |MergeSource(m, e, item)| == 12
  {
    var d := MergeSource(m, e, item);
    AsDictRoundTrip(m);
    SourceKeysAreNew();
    SourceKeysCount();
  }

  /**
   * `get_message`: after the guard, the message with that id, whatever
   * conversation it is in (404 "Message not found" when there is none).
   * A message with a source comes merged with the embedding's text and
   * page and its item's name, uri and date; a source embedding or item
   * that no longer exists fails on the missing row.
   */
  function GetMessage(t: Store.Tables, email: string, conversationId: Uuid, messageId: Uuid): (r: Outcome<MessageView>)
    ensures RouteGuards.ResolveOwned(t, email, conversationId).Failure? ==>
      r == Raised(RouteGuards.ResolveOwned(t, email, conversationId).error) && r.error != MessageNotFound
    ensures RouteGuards.ResolveOwned(t, email, conversationId).Success? ==>
      var found := MessageService.FindMessage(t.messages, messageId);
      && (found.Some? && found.value.sourceEmbeddingId.None? ==> r == Done(Bare(found.value)))
      && (found.Some? && found.value.sourceEmbeddingId.Some? ==>
            var e := GetEmbedding(t.embeddings, found.value.sourceEmbeddingId.value);
            && (e.None? ==> r == Crashed(EmbeddingMissing))
            && (r == Crashed(ItemMissing) <==> e.Some? && e.value.itemId !in t.items)
            && (e.Some? && e.value.itemId in t.items ==>
                  r == Done(WithSource(MergeSource(found.value, e.value, t.items[e.value.itemId])))))
    ensures RouteGuards.ResolveOwned(t, email, conversationId).Success? ==>
      (r == Raised(MessageNotFound) <==> forall m <- t.messages :: m.id != messageId)
    ensures r.Done? && r.value.Bare? ==>
      r.value.message in t.messages && r.value.message.id == messageId && r.value.message.sourceEmbeddingId.None?
    ensures r.Done? && r.value.WithSource? ==> exists m <- t.messages, e <- t.embeddings ::
      && m.id == messageId && m.sourceEmbeddingId == Some(e.id) && e.itemId in t.items
      && r.value.fields == MergeSource(m, e, t.items[e.itemId])
    ensures r == Crashed(EmbeddingMissing) ==>
      exists m <- t.messages :: m.id == messageId && m.sourceEmbeddingId.Some?
        && forall e <- t.embeddings :: e.id != m.sourceEmbeddingId.value
  {
    match RouteGuards.ResolveOwned(t, email, conversationId)
    case Failure(e) => Raised(e)
    case Success(_) => LookupMessage(t, messageId)
  }

  /** The body of `get_message` once the guard has passed. */
  function LookupMessage(t: Store.Tables, messageId: Uuid): (r: Outcome<MessageView>)
    ensures r.Raised? ==> r == Raised(MessageNotFound)
    ensures r == Raised(MessageNotFound) <==> forall m <- t.messages :: m.id != messageId
    ensures var found := MessageService.FindMessage(t.messages, messageId);
      found.Some? && found.value.sourceEmbeddingId.None? ==> r == Done(Bare(found.value))
    ensures var found := MessageService.FindMessage(t.messages, messageId);
      found.Some? && found.value.sourceEmbeddingId.Some? ==>
        var e := GetEmbedding(t.embeddings, found.value.sourceEmbeddingId.value);
        && (e.None? ==> r == Crashed(EmbeddingMissing))
        && (r == Crashed(ItemMissing) <==> e.Some? && e.value.itemId !in t.items)
        && (e.Some? && e.value.itemId in t.items ==>
              r == Done(WithSource(MergeSource(found.value, e.value, t.items[e.value.itemId]))))
    ensures r.Done? && r.value.Bare? ==>
      r.value.message in t.messages && r.value.message.id == messageId && r.value.message.sourceEmbeddingId.None?
    ensures r.Done? && r.value.WithSource? ==> exists m <- t.messages, e <- t.embeddings ::
      && m.id == messageId && m.sourceEmbeddingId == Some(e.id) && e.itemId in t.items
      && r.value.fields == MergeSource(m, e, t.items[e.itemId])
    ensures r == Crashed(EmbeddingMissing) ==>
      exists m <- t.messages :: m.id == messageId && m.sourceEmbeddingId.Some?
        && forall e <- t.embeddings :: e.id != m.sourceEmbeddingId.value
  {
    match MessageService.FindMessage(t.messages, messageId)
    case None => Raised(MessageNotFound)
    case Some(message) =>
      match message.sourceEmbeddingId
      case None => Done(Bare(message))
      case Some(sourceId) => SourcedView(t, message, sourceId)
  }

  /** A message with a source: its fields merged with the embedding's and item's, or a crash on a missing row. */
  function SourcedView(t: Store.Tables, message: Message, sourceId: Uuid): (r: Outcome<MessageView>)
    ensures !r.Raised?
    ensures r.Done? ==> r.value.WithSource? && exists e <- t.embeddings ::
      e.id == sourceId && e.itemId in t.items && r.value.fields == MergeSource(message, e, t.items[e.itemId])
    ensures r == Crashed(EmbeddingMissing) <==> forall e <- t.embeddings :: e.id != sourceId
    ensures var e := GetEmbedding(t.embeddings, sourceId);
      && (r == Crashed(ItemMissing) <==> e.Some? && e.value.itemId !in t.items)
      && (e.Some? && e.value.itemId in t.items ==>
            r == Done(WithSource(MergeSource(message, e.value, t.items[e.value.itemId]))))
  {
    match GetEmbedding(t.embeddings, sourceId)
    case None => Crashed(EmbeddingMissing)
    case Some(source) =>
      if source.itemId !in t.items then Crashed(ItemMissing)
      else Done(WithSource(MergeSource(message, source, t.items[source.itemId])))
  }

  /** The path's conversation only gates the lookup: any conversation the caller owns gives the same answer. */
  lemma GetMessageIgnoresConversation(t: Store.Tables, email: string, c1: Uuid, c2: Uuid, messageId: Uuid)
    requires RouteGuards.ResolveOwned(t, email, c1).Success? && RouteGuards.ResolveOwned(t, email, c2).Success?
    ensures GetMessage(t, email, c1, messageId) == GetMessage(t, email, c2, messageId)
  {
  }
}
