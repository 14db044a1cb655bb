/** services/message.py: the messages table's queries and its one insertion. */
module MessageService {
  import opened Wrappers
  import opened Ids
  import opened Models
  import opened Ordering
  import Store

  /** get_conversation_messages' default page size. */
  const DefaultLimit: nat := 10

  function CreatedKey(m: Message): SortKey
  {
    At(m.createdAt)
  }

  function InConversation(conversationId: Uuid): Message -> bool
  {
    (m: Message) => m.conversationId == conversationId
  }

  function HasId(id: Uuid): Message -> bool
  {
    (m: Message) => m.id == id
  }

  /** How many messages belong to the conversation. */
  function CountIn(messages: seq<Message>, conversationId: Uuid): nat
  {
    |Filter(messages, InConversation(conversationId))|
  }

  /**
   * `get_conversation_messages`: the conversation's messages, newest
   * `created_at` first, at most `limit` of them; no message of the
   * conversation that is left out is newer than one returned.
   */
  function ConversationMessages(messages: seq<Message>, conversationId: Uuid, limit: nat): (r: seq<Message>)
    ensures forall m <- r :: m in messages && m.conversationId == conversationId
    ensures multiset(r) <= multiset(Filter(messages, InConversation(conversationId)))
    ensures |r| == if limit < CountIn(messages, conversationId) then limit else CountIn(messages, conversationId)
    ensures forall i, j :: 0 <= i < j < |r| ==> r[j].createdAt <= r[i].createdAt
    ensures forall x, y :: x in r && y in messages && y.conversationId == conversationId && y !in r
                           ==> y.createdAt <= x.createdAt
  {
    var matching := Filter(messages, InConversation(conversationId));
    ListingFacts(messages, conversationId, limit);
    ListingSorted(messages, conversationId, limit);
    ListingLeftOut(messages, conversationId, limit);
    Take(SortNewestFirst(matching, CreatedKey), limit)
  }

  /** The listing's rows: the conversation's messages, at most `limit` of them. */
  lemma ListingFacts(messages: seq<Message>, conversationId: Uuid, limit: nat)
    ensures var matching := Filter(messages, InConversation(conversationId));
      var r := Take(SortNewestFirst(matching, CreatedKey), limit);
      && (forall m <- r :: m in messages && m.conversationId == conversationId)
      && multiset(r) <= multiset(matching)
      && |r| == (if limit < |matching| then limit else |matching|)
  {
    var matching := Filter(messages, InConversation(conversationId));
    var r := Take(SortNewestFirst(matching, CreatedKey), limit);
    NewestFirstTake(matching, CreatedKey, limit);
    forall m | m in r ensures m in messages && m.conversationId == conversationId {
      assert m in multiset(matching);
    }
  }

  /** The listing is newest `created_at` first. */
  lemma ListingSorted(messages: seq<Message>, conversationId: Uuid, limit: nat)
    ensures var r := Take(SortNewestFirst(Filter(messages, InConversation(conversationId)), CreatedKey), limit);
      forall i, j :: 0 <= i < j < |r| ==> r[j].createdAt <= r[i].createdAt
  {
    var sorted := SortNewestFirst(Filter(messages, InConversation(conversationId)), CreatedKey);
    var r := Take(sorted, limit);
    SliceNewestFirst(sorted, CreatedKey, 0, |r|);
    forall i, j | 0 <= i < j < |r| ensures r[j].createdAt <= r[i].createdAt {
      assert KeyLe(CreatedKey(r[j]), CreatedKey(r[i]));
    }
  }

  /** No message of the conversation that the listing leaves out is newer than one it keeps. */
  lemma ListingLeftOut(messages: seq<Message>, conversationId: Uuid, limit: nat)
    ensures var r := Take(SortNewestFirst(Filter(messages, InConversation(conversationId)), CreatedKey), limit);
      forall x, y :: x in r && y in messages && y.conversationId == conversationId && y !in r
                     ==> y.createdAt <= x.createdAt
  {
    var r := Take(SortNewestFirst(Filter(messages, InConversation(conversationId)), CreatedKey), limit);
    forall x, y | x in r && y in messages && y.conversationId == conversationId && y !in r
      ensures y.createdAt <= x.createdAt
    {
      LeftOutNoNewer(messages, conversationId, limit, x, y);
    }
  }

  lemma LeftOutNoNewer(messages: seq<Message>, conversationId: Uuid, limit: nat, x: Message, y: Message)
    requires var r := Take(SortNewestFirst(Filter(messages, InConversation(conversationId)), CreatedKey), limit);
      x in r && y in messages && y.conversationId == conversationId && y !in r
    ensures y.createdAt <= x.createdAt
  {
    var p := InConversation(conversationId);
    var matching := Filter(messages, p);
    var r := Take(SortNewestFirst(matching, CreatedKey), limit);
    NewestFirstTake(matching, CreatedKey, limit);
    assert p(y);
    assert y in matching;
    assert y in multiset(matching);
    assert y !in multiset(r);
    assert y in multiset(matching) - multiset(r);
    assert KeyLe(CreatedKey(y), CreatedKey(x));
  }

  /** A message newer than every other message of its conversation heads the listing. */
  lemma NewestMessageFirst(messages: seq<Message>, m: Message, limit: nat)
    requires m in messages && limit >= 1
    requires forall y <- messages :: y.conversationId == m.conversationId && y != m ==> y.createdAt < m.createdAt
    ensures var r := ConversationMessages(messages, m.conversationId, limit); |r| >= 1 && r[0] == m
  {
    var r := ConversationMessages(messages, m.conversationId, limit);
    assert m in Filter(messages, InConversation(m.conversationId));
    assert |r| >= 1;
  }

  /** `get_one_message`: the message with that id, or None. */
  function FindMessage(messages: seq<Message>, id: Uuid): (r: Option<Message>)
    ensures r.Some? ==> r.value in messages && r.value.id == id
    ensures r.None? <==> forall m <- messages :: m.id != id
  {
    First(messages, HasId(id))
  }

  /**
   * `create_message`: stores one message with the given owner,
   * conversation, content, role and optional source, and commits. The id
   * (uuid4) and `createdAt` (the server clock) are inputs.
   */
  method CreateMessage(db: Store.Session, user: User, conversation: Conversation, content: string,
                       role: MessageRole, sourceEmbeddingId: Option<Uuid>, id: Uuid, createdAt: Time)
    returns (m: Message)
    modifies db
    ensures m == Message(id, conversation.id, role, user.id, content, sourceEmbeddingId, createdAt)
    ensures db.messages == old(db.messages) + [m]
    ensures db.users == old(db.users) && db.conversations == old(db.conversations)
    ensures db.embeddings == old(db.embeddings) && db.items == old(db.items)
    ensures db.committed == db.Snapshot()
  {
    m := Message(id, conversation.id, role, user.id, content, sourceEmbeddingId, createdAt);
    db.messages := db.messages + [m];
    db.Commit();
  }

  /**
   * After an insertion under an unused id, that id finds the new message,
   * every other id finds what it found before, and the existing messages
   * are still there.
   */
  lemma {:induction false} InsertedMessageFound(messages: seq<Message>, m: Message, other: Uuid)
    requires forall x <- messages :: x.id != m.id
    ensures FindMessage(messages + [m], m.id) == Some(m)
    ensures other != m.id ==> FindMessage(messages + [m], other) == FindMessage(messages, other)
    ensures (messages + [m])[..|messages|] == messages
  {
    FirstIsHeadOfFilter(messages + [m], HasId(m.id));
    FilterAppend(messages, [m], HasId(m.id));
    var f := Filter(messages, HasId(m.id));
    assert f == [] by {
      if f != [] {
        assert false;
      }
    }
    if other != m.id {
      FirstIsHeadOfFilter(messages + [m], HasId(other));
      FirstIsHeadOfFilter(messages, HasId(other));
      FilterAppend(messages, [m], HasId(other));
      assert Filter([m], HasId(other)) == [];
    }
  }
}
