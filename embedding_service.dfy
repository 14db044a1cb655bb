/**
 * services/embedding.py: the active embeddings of a conversation, lookup by
 * id, and their conversion into retrievable text nodes that carry
 * provenance metadata.
 */
module EmbeddingService {
  import opened Wrappers
  import opened Ids
  import opened Models
  import opened Ordering

  /** The metadata dictionary of a node; every value but `page` is text. */
  datatype NodeMetadata = NodeMetadata(id: string, itemId: string, itemUri: string, itemName: string, page: int)

  /** A retrievable chunk: the embedding's id, text and vector, with provenance. */
  datatype TextNode = TextNode(id: Uuid, text: string, vector: Vector, metadata: NodeMetadata)

  function ActiveIn(items: map<Uuid, Item>, conversationId: Uuid): Embedding -> bool
  {
    (e: Embedding) => e.conversationId == conversationId && e.itemId in items && items[e.itemId].active
  }

  /**
   * `get_conversation_embeddings`: exactly the conversation's embeddings
   * whose item is active, each as often as the table holds it. The query
   * has no ORDER BY; the model keeps table order.
   */
  function ConversationEmbeddings(embeddings: seq<Embedding>, items: map<Uuid, Item>, conversationId: Uuid)
    : (r: seq<Embedding>)
    ensures forall e <- r :: e in embeddings && e.conversationId == conversationId
                             && e.itemId in items && items[e.itemId].active
    ensures forall e <- embeddings :: e.conversationId == conversationId && e.itemId in items && items[e.itemId].active
                                      ==> e in r
  {
    Filter(embeddings, ActiveIn(items, conversationId))
  }

  /** No embedding is listed more often than the table holds it, and every active one of the conversation as often. */
  lemma ConversationEmbeddingsCounts(embeddings: seq<Embedding>, items: map<Uuid, Item>, conversationId: Uuid)
    ensures var r := ConversationEmbeddings(embeddings, items, conversationId);
      forall e :: multiset(r)[e] == if e.conversationId == conversationId && e.itemId in items && items[e.itemId].active
                                    then multiset(embeddings)[e] else 0
  {
    FilterCounts(embeddings, ActiveIn(items, conversationId));
  }

  function HasId(id: Uuid): Embedding -> bool
  {
    (e: Embedding) => e.id == id
  }

  /** `get_embedding`: the embedding with that primary key, or None. */
  function GetEmbedding(embeddings: seq<Embedding>, id: Uuid): (r: Option<Embedding>)
    ensures r.Some? ==> r.value in embeddings && r.value.id == id
    ensures r.None? <==> forall e <- embeddings :: e.id != id
  {
    First(embeddings, HasId(id))
  }

  /** One node: the embedding's own id, text, vector and page, and the given item's provenance. */
  function ToNode(e: Embedding, item: Item): TextNode
  {
    TextNode(e.id, e.chunkText, e.vector, NodeMetadata(Format(e.id), Format(item.id), item.uri, item.fileName, e.page))
  }

  /** The nodes of a batch whose provenance comes from `item`. */
  function NodesFor(embeddings: seq<Embedding>, item: Item): (r: seq<TextNode>)
    ensures |r| == |embeddings|
  {
    seq(|embeddings|, i requires 0 <= i < |embeddings| => ToNode(embeddings[i], item))
  }

  /**
   * `parse_embeddings_to_nodes`: one node per embedding, in order. The
   * item is looked up once, for the first embedding, and its id, uri and
   * file name go into every node's metadata. The source indexes
   * `embeddings[0]` and dereferences the item it finds, so both must exist.
   */
  method ParseEmbeddingsToNodes(embeddings: seq<Embedding>, items: map<Uuid, Item>) returns (nodes: seq<TextNode>)
    requires |embeddings| > 0 && embeddings[0].itemId in items
    ensures |nodes| == |embeddings|
    ensures forall i :: 0 <= i < |nodes| ==>
      && nodes[i].id == embeddings[i].id
      && nodes[i].text == embeddings[i].chunkText
      && nodes[i].vector == embeddings[i].vector
      && nodes[i].metadata.id == Format(embeddings[i].id)
      && nodes[i].metadata.page == embeddings[i].page
    ensures var item := items[embeddings[0].itemId];
      forall n <- nodes :: n.metadata.itemId == Format(item.id) && n.metadata.itemUri == item.uri
                           && n.metadata.itemName == item.fileName
    ensures nodes == NodesFor(embeddings, items[embeddings[0].itemId])
  {
    nodes := [];
    var item := items[embeddings[0].itemId];
    for i := 0 to |embeddings|
      invariant nodes == NodesFor(embeddings[..i], item)
    {
      nodes := nodes + [ToNode(embeddings[i], item)];
    }
    assert embeddings[..|embeddings|] == embeddings;
    NodesForFields(embeddings, item);
  }

  /** Each node carries its embedding's fields and the item's provenance. */
  lemma NodesForFields(embeddings: seq<Embedding>, item: Item)
    ensures var nodes := NodesFor(embeddings, item);
      && (forall i :: 0 <= i < |nodes| ==>
            && nodes[i].id == embeddings[i].id
            && nodes[i].text == embeddings[i].chunkText
            && nodes[i].vector == embeddings[i].vector
            && nodes[i].metadata.id == Format(embeddings[i].id)
            && nodes[i].metadata.page == embeddings[i].page)
      && forall n <- nodes :: n.metadata.itemId == Format(item.id) && n.metadata.itemUri == item.uri
                              && n.metadata.itemName == item.fileName
  {
  }

  /** Each node's metadata id reads back, through `uuid.UUID`, as the id of the embedding it came from. */
  lemma NodeIdsReadBack(embeddings: seq<Embedding>, item: Item)
    ensures forall i :: 0 <= i < |embeddings| ==> Parse(NodesFor(embeddings, item)[i].metadata.id) == Some(embeddings[i].id)
  {
    forall i | 0 <= i < |embeddings| ensures Parse(NodesFor(embeddings, item)[i].metadata.id) == Some(embeddings[i].id) {
      ParseFormat(embeddings[i].id);
    }
  }
}
