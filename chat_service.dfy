/**
 * services/chat.py: turning stored messages into chat turns recorded in
 * the service's own chat store, and answering a query over an index built
 * from the conversation's active embeddings. The vector index, the chat
 * memory buffer and the language model are one opaque function, the
 * engine, from everything they are handed to an answer or a failure.
 */
module ChatService {
  import opened Wrappers
  import opened Ids
  import opened Models
  import opened Ordering
  import opened EmbeddingService
  import Text
  import Store

  /** The `data` a chat turn carries besides its role and content. */
  datatype TurnData = TurnData(conversationId: Uuid, createdAt: Time, source: Option<Uuid>)

  datatype ChatTurn = ChatTurn(role: string, content: string, data: TurnData)

  /** SimpleChatStore: a list of turns per key. */
  type ChatStore = map<string, seq<ChatTurn>>

  /** `get_messages(key)`: the turns stored under a key, none when it is absent. */
  function Entries(store: ChatStore, key: string): seq<ChatTurn>
  {
    if key in store then store[key] else []
  }

  /** `add_message(key, turn)`: appends the turn to the key's list, creating it when absent. */
  function AddMessage(store: ChatStore, key: string, turn: ChatTurn): (r: ChatStore)
    ensures Entries(r, key) == Entries(store, key) + [turn]
    ensures forall k :: k != key ==> Entries(r, k) == Entries(store, k)
    ensures r.Keys == store.Keys + {key}
  {
    store[key := Entries(store, key) + [turn]]
  }

  /** The chat turn of one stored message. */
  function ToTurn(m: Message): ChatTurn
  {
    ChatTurn(Text.Lower(RoleValue(m.role)), m.content, TurnData(m.conversationId, m.createdAt, m.sourceEmbeddingId))
  }

  /** A message's turn has its role's value, its content verbatim, and its conversation, time and source. */
  lemma ToTurnFields(m: Message)
    ensures ToTurn(m).role == RoleValue(m.role)
    ensures ToTurn(m).role == "user" || ToTurn(m).role == "assistant"
    ensures ToTurn(m).content == m.content
    ensures ToTurn(m).data == TurnData(m.conversationId, m.createdAt, m.sourceEmbeddingId)
  {
    RoleValueFacts(m.role, m.role);
  }

  function Turns(messages: seq<Message>): (r: seq<ChatTurn>)
    ensures |r| == |messages|
  {
    if messages == [] then [] else Turns(messages[..|messages| - 1]) + [ToTurn(messages[|messages| - 1])]
  }

  /** One turn per message, in the messages' order. */
  lemma {:induction false} TurnsInOrder(messages: seq<Message>)
    ensures forall i :: 0 <= i < |messages| ==> Turns(messages)[i] == ToTurn(messages[i])
  {
    if messages != [] {
      TurnsInOrder(messages[..|messages| - 1]);
    }
  }

  lemma {:induction false} TurnsAppend(a: seq<Message>, b: seq<Message>)
    ensures Turns(a + b) == Turns(a) + Turns(b)
  {
    if b == [] {
      assert a + b == a;
    } else {
      assert (a + b)[..|a + b| - 1] == a + b[..|b| - 1];
      TurnsAppend(a, b[..|b| - 1]);
    }
  }

  /** The store after each message's turn is added under the text of its id, in order. */
  function StoreAfter(store: ChatStore, messages: seq<Message>): ChatStore
  {
    if messages == [] then store
    else
      var last := messages[|messages| - 1];
      AddMessage(StoreAfter(store, messages[..|messages| - 1]), Format(last.id), ToTurn(last))
  }

  function KeyedBy(key: string): Message -> bool
  {
    (m: Message) => Format(m.id) == key
  }

  /**
   * Under each key, the store gains exactly the turns of the messages whose
   * id has that text, in order, after what it already held; a key no
   * message has keeps its turns.
   */
  lemma {:induction false} StoreAfterEntries(store: ChatStore, messages: seq<Message>, key: string)
    ensures Entries(StoreAfter(store, messages), key) == Entries(store, key) + Turns(Filter(messages, KeyedBy(key)))
    decreases |messages|
  {
    if messages != [] {
      var init, last := messages[..|messages| - 1], messages[|messages| - 1];
      var p := KeyedBy(key);
      assert messages == init + [last];
      FilterAppend(init, [last], p);
      TurnsAppend(Filter(init, p), Filter([last], p));
      KeyedTurn(last, key);
      StoreAfterEntries(store, init, key);
      AddedEntries(StoreAfter(store, init), store, key, Format(last.id), ToTurn(last),
                   Turns(Filter(init, p)), Turns(Filter([last], p)));
    }
  }

  /** One step of the fold: the key named gains the turn, every other key is left as it was. */
  lemma AddedEntries(before: ChatStore, store: ChatStore, key: string, k: string, turn: ChatTurn,
                     prior: seq<ChatTurn>, tail: seq<ChatTurn>)
    requires Entries(before, key) == Entries(store, key) + prior
    requires tail == if k == key then [turn] else []
    ensures Entries(AddMessage(before, k, turn), key) == Entries(store, key) + (prior + tail)
  {
  }

  /** The last message contributes its turn to the key its id's text names, and nothing to other keys. */
  lemma KeyedTurn(last: Message, key: string)
    ensures Turns(Filter([last], KeyedBy(key))) == if Format(last.id) == key then [ToTurn(last)] else []
  {
    var tail := Filter([last], KeyedBy(key));
    assert tail == if Format(last.id) == key then [last] else [];
    if tail != [] {
      assert tail[..0] == [];
    }
  }

  /** The store's keys grow by the text of each message's id and by nothing else. */
  lemma {:induction false} StoreAfterKeys(store: ChatStore, messages: seq<Message>)
    ensures StoreAfter(store, messages).Keys == store.Keys + IdTexts(messages)
  {
    if messages != [] {
      var init, last := messages[..|messages| - 1], messages[|messages| - 1];
      StoreAfterKeys(store, init);
      var before := StoreAfter(store, init);
      KeysStep(before, store.Keys, IdTexts(init), Format(last.id), ToTurn(last));
    }
  }

  /** The texts of the messages' ids. */
  function IdTexts(messages: seq<Message>): set<string>
  {
    if messages == [] then {}
    else IdTexts(messages[..|messages| - 1]) + {Format(messages[|messages| - 1].id)}
  }

  /** IdTexts holds the text of every message's id, and nothing else. */
  lemma {:induction false} IdTextsMembers(messages: seq<Message>)
    ensures forall m <- messages :: Format(m.id) in IdTexts(messages)
    ensures forall k <- IdTexts(messages) :: exists m <- messages :: Format(m.id) == k
  {
    if messages != [] {
      var init, last := messages[..|messages| - 1], messages[|messages| - 1];
      assert messages == init + [last];
      IdTextsMembers(init);
    }
  }

  /** Adding a turn under `k` adds `k` to the store's keys. */
  lemma KeysStep(before: ChatStore, base: set<string>, ids: set<string>, k: string, turn: ChatTurn)
    requires before.Keys == base + ids
    ensures AddMessage(before, k, turn).Keys == base + (ids + {k})
  {
  }

  /** Parsing two histories one after the other leaves the store as parsing both at once: entries accumulate. */
  lemma {:induction false} StoreAfterAccumulates(store: ChatStore, a: seq<Message>, b: seq<Message>)
    ensures StoreAfter(StoreAfter(store, a), b) == StoreAfter(store, a + b)
  {
    if b == [] {
      assert a + b == a;
    } else {
      var init, last := b[..|b| - 1], b[|b| - 1];
      assert b == init + [last];
      assert a + b == (a + init) + [last];
      StoreAfterAccumulates(store, a, init);
      StoreAfterSnoc(StoreAfter(store, a), init, last);
      StoreAfterSnoc(store, a + init, last);
    }
  }

  lemma StoreAfterSnoc(store: ChatStore, messages: seq<Message>, m: Message)
    ensures StoreAfter(store, messages + [m]) == AddMessage(StoreAfter(store, messages), Format(m.id), ToTurn(m))
  {
    assert (messages + [m])[..|messages|] == messages;
  }

  /** Parsing one more message of a history appends its turn and adds it to the store. */
  lemma ParsedPrefixStep(store: ChatStore, messages: seq<Message>, i: nat)
    requires i < |messages|
    ensures Turns(messages[..i + 1]) == Turns(messages[..i]) + [ToTurn(messages[i])]
    ensures StoreAfter(store, messages[..i + 1])
         == AddMessage(StoreAfter(store, messages[..i]), Format(messages[i].id), ToTurn(messages[i]))
  {
    assert messages[..i + 1][..i] == messages[..i];
  }

  const MemoryTokenLimit: nat := 4096

  /** What ChatMemoryBuffer.from_defaults is given. */
  datatype ChatMemory = ChatMemory(tokenLimit: nat, chatHistory: seq<ChatTurn>, chatStore: ChatStore, chatStoreKey: string)

  /** Everything the chat engine receives: the index's nodes, the memory, the history and the query text. */
  datatype EngineRequest = EngineRequest(index: seq<TextNode>, memory: ChatMemory, chatHistory: seq<ChatTurn>, message: string)

  datatype NodeWithScore = NodeWithScore(node: TextNode, score: real)

  /** One tool call of the answer: `raw_output.source_nodes`. */
  datatype ToolOutput = ToolOutput(sourceNodes: seq<NodeWithScore>)

  /** The engine's answer: the response text and its sources. */
  datatype ChatResponse = ChatResponse(response: string, sources: seq<ToolOutput>)

  datatype EngineResult = Answered(answer: ChatResponse) | EngineFailed

  /**
   * One engine call: its result, and the chat store as the memory leaves
   * it. The memory is handed the service's own store object, so whatever
   * the engine writes through it stays in the service.
   */
  datatype EngineRun = EngineRun(result: EngineResult, chatStore: ChatStore)

  function AnswerRequest(index: seq<TextNode>, queryText: string, conversation: Conversation,
                         store: ChatStore, messages: seq<ChatTurn>): EngineRequest
  {
    EngineRequest(index, ChatMemory(MemoryTokenLimit, messages, store, Format(conversation.id)), messages, queryText)
  }

  /** The nodes the index is built from, or None when the conversation has no active embedding. */
  function IndexNodes(t: Store.Tables, conversationId: Uuid): (r: Option<seq<TextNode>>)
    ensures r.None? <==> ConversationEmbeddings(t.embeddings, t.items, conversationId) == []
  {
    var embeddings := ConversationEmbeddings(t.embeddings, t.items, conversationId);
    if embeddings == [] then None
    else
      assert embeddings[0] in embeddings;
      Some(NodesFor(embeddings, t.items[embeddings[0].itemId]))
  }

  /**
   * Every node of the index is built from an active embedding of the
   * conversation, carries that embedding's id, and its metadata id reads
   * back as that id.
   */
  lemma IndexIsConversationScoped(t: Store.Tables, conversationId: Uuid)
    requires IndexNodes(t, conversationId).Some?
    ensures forall n <- IndexNodes(t, conversationId).value :: exists e <- t.embeddings ::
      && e.conversationId == conversationId && e.itemId in t.items && t.items[e.itemId].active
      && n.id == e.id && Parse(n.metadata.id) == Some(e.id)
  {
    var embeddings := ConversationEmbeddings(t.embeddings, t.items, conversationId);
    assert embeddings[0] in embeddings;
    var nodes := NodesFor(embeddings, t.items[embeddings[0].itemId]);
    NodeIdsReadBack(embeddings, t.items[embeddings[0].itemId]);
    forall n <- nodes ensures exists e <- t.embeddings ::
      && e.conversationId == conversationId && e.itemId in t.items && t.items[e.itemId].active
      && n.id == e.id && Parse(n.metadata.id) == Some(e.id)
    {
      var i :| 0 <= i < |nodes| && nodes[i] == n;
      var e := embeddings[i];
      assert e in embeddings;
      assert n.id == e.id && Parse(n.metadata.id) == Some(e.id);
    }
  }

  class ChatService {
    /** The service's SimpleChatStore, created empty with the service. */
    var chatStore: ChatStore
    /** The index of the last answered query; absent until one is built. */
    var vectorStore: Option<seq<TextNode>>

    constructor ()
      ensures chatStore == map[] && vectorStore == None
    {
      chatStore := map[];
      vectorStore := None;
    }

    /**
     * `parse_message_history`: one turn per message, in order, each also
     * appended to the service's own store under the text of the message's
     * id; returns the turns and that same store.
     */
    method ParseMessageHistory(messages: seq<Message>) returns (chatMessages: seq<ChatTurn>, store: ChatStore)
      modifies this
      ensures chatMessages == Turns(messages)
      ensures chatStore == StoreAfter(old(chatStore), messages) && store == chatStore
      ensures vectorStore == old(vectorStore)
    {
      chatMessages := [];
      for i := 0 to |messages|
        invariant chatMessages == Turns(messages[..i])
        invariant chatStore == StoreAfter(old(chatStore), messages[..i])
        invariant vectorStore == old(vectorStore)
      {
        ParsedPrefixStep(old(chatStore), messages, i);
        var turn := ToTurn(messages[i]);
        chatMessages := chatMessages + [turn];
        chatStore := AddMessage(chatStore, Format(messages[i].id), turn);
      }
      assert messages[..|messages|] == messages;
      store := chatStore;
    }

    /**
     * `get_answer_nodes`: None, with no index built and no engine call,
     * when the conversation has no active embedding. Otherwise the index is
     * built from those embeddings' nodes and kept in `vectorStore`, and the
     * engine is called with memory keyed by the conversation's id, a
     * 4096-token limit, the given turns and the query text unchanged.
     */
    method GetAnswerNodes(db: Store.Session, queryText: string, conversation: Conversation, store: ChatStore,
                          messages: seq<ChatTurn>, engine: EngineRequest -> EngineRun)
      returns (r: Option<EngineResult>)
      modifies this
      ensures var nodes := IndexNodes(db.Snapshot(), conversation.id);
        && (nodes.None? ==> r == None && vectorStore == old(vectorStore) && chatStore == old(chatStore))
        && (nodes.Some? ==>
              var run := engine(AnswerRequest(nodes.value, queryText, conversation, store, messages));
              vectorStore == nodes && r == Some(run.result) && chatStore == run.chatStore)
    {
      var embeddings := ConversationEmbeddings(db.embeddings, db.items, conversation.id);
      if |embeddings| == 0 {
        return None;
      }
      assert embeddings[0] in embeddings;
      var nodes := ParseEmbeddingsToNodes(embeddings, db.items);
      vectorStore := Some(nodes);
      var memory := ChatMemory(MemoryTokenLimit, messages, store, Format(conversation.id));
      var run := engine(EngineRequest(nodes, memory, messages, queryText));
      chatStore := run.chatStore;
      r := Some(run.result);
    }
  }
}
