/**
 * The database session the services share. Each table is a field the
 * services reassign: `users`, `conversations` and `messages` in insertion
 * order, and the `embeddings` and `items` written by document ingestion
 * (read-only here). `committed` is the state as of the last commit: a
 * commit makes the current tables durable, a rollback returns to it, and a
 * flush (create_user) changes the tables without committing.
 */
module Store {
  import opened Ids
  import opened Models
  import Ordering

  datatype Tables = Tables(
    users: seq<User>,
    conversations: seq<Conversation>,
    messages: seq<Message>,
    embeddings: seq<Embedding>,
    items: map<Uuid, Item>)

  class Session {
    var users: seq<User>
    var conversations: seq<Conversation>
    var messages: seq<Message>
    var embeddings: seq<Embedding>
    var items: map<Uuid, Item>
    var committed: Tables

    function Snapshot(): Tables
      reads this
    {
      Tables(users, conversations, messages, embeddings, items)
    }

    /** A session over durable tables with nothing pending. */
    constructor (t: Tables)
      ensures Snapshot() == t && committed == t
    {
      users, conversations, messages := t.users, t.conversations, t.messages;
      embeddings, items := t.embeddings, t.items;
      committed := t;
    }

    method Commit()
      modifies this
      ensures Snapshot() == old(Snapshot())
      ensures committed == Snapshot()
    {
      committed := Snapshot();
    }

    method Rollback()
      modifies this
      ensures Snapshot() == old(committed)
      ensures committed == old(committed)
    {
      users, conversations, messages := committed.users, committed.conversations, committed.messages;
      embeddings, items := committed.embeddings, committed.items;
    }
  }

  /** The table with the row whose id is `c.id` replaced by `c`. */
  function ReplaceConversation(conversations: seq<Conversation>, c: Conversation): (r: seq<Conversation>)
    ensures |r| == |conversations|
    ensures forall i :: 0 <= i < |r| ==> r[i] == if conversations[i].id == c.id then c else conversations[i]
  {
    if conversations == [] then []
    else [if conversations[0].id == c.id then c else conversations[0]] + ReplaceConversation(conversations[1..], c)
  }

  function NotConversation(id: Uuid): Conversation -> bool
  {
    (c: Conversation) => c.id != id
  }

  function NotInConversation(id: Uuid): Message -> bool
  {
    (m: Message) => m.conversationId != id
  }

  /**
   * Deleting a conversation row; the messages that reference it go with it
   * (their foreign key is declared ON DELETE CASCADE).
   */
  function DeleteConversationRows(t: Tables, id: Uuid): (r: Tables)
    ensures forall c <- r.conversations :: c.id != id
    ensures forall c <- t.conversations :: c.id != id ==> c in r.conversations
    ensures forall m <- r.messages :: m.conversationId != id
    ensures forall m <- t.messages :: m.conversationId != id ==> m in r.messages
    ensures r.users == t.users && r.embeddings == t.embeddings && r.items == t.items
  {
    t.(conversations := Ordering.Filter(t.conversations, NotConversation(id)),
       messages := Ordering.Filter(t.messages, NotInConversation(id)))
  }

  /**
   * The delete adds no row: each conversation and message that does not
   * belong to the deleted conversation stays exactly as often as it was,
   * and every one that belongs to it is gone.
   */
  lemma DeleteKeepsOtherRows(t: Tables, id: Uuid)
    ensures var r := DeleteConversationRows(t, id);
      && (forall c :: multiset(r.conversations)[c] == if c.id != id then multiset(t.conversations)[c] else 0)
      && (forall m :: multiset(r.messages)[m] == if m.conversationId != id then multiset(t.messages)[m] else 0)
  {
    Ordering.FilterCounts(t.conversations, NotConversation(id));
    Ordering.FilterCounts(t.messages, NotInConversation(id));
  }
}
