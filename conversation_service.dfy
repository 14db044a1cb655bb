/**
 * services/conversation.py: the conversation service the routes use. Its
 * queries filter on the owner; its writes catch any failure, roll the
 * session back and carry on. Whether the commit succeeds is an input.
 */
module ConversationService {
  import opened Wrappers
  import opened Ids
  import opened Models
  import opened Ordering
  import Text
  import Store

  /** The request body of create and update. */
  datatype ConversationCreate = ConversationCreate(title: string, context: string)

  function CreatedKey(c: Conversation): SortKey
  {
    At(c.createdAt)
  }

  function OwnedBy(userId: Uuid): Conversation -> bool
  {
    (c: Conversation) => c.userId == userId
  }

  function IdAndOwner(id: Uuid, userId: Uuid): Conversation -> bool
  {
    (c: Conversation) => c.id == id && c.userId == userId
  }

  /**
   * `title ILIKE '%query%'`: the title, compared without regard to case,
   * contains the query. A NULL title matches nothing.
   */
  predicate TitleMatches(title: Option<string>, query: string)
  {
    title.Some? && Text.Contains(Text.Lower(title.value), Text.Lower(query))
  }

  function OwnedWithTitle(userId: Uuid, query: string): Conversation -> bool
  {
    (c: Conversation) => c.userId == userId && TitleMatches(c.title, query)
  }

  /** `get_user_conversations`: all of the user's conversations, newest `created_at` first. */
  function UserConversations(conversations: seq<Conversation>, userId: Uuid): (r: seq<Conversation>)
    ensures forall c <- r :: c in conversations && c.userId == userId
    ensures forall c <- conversations :: c.userId == userId ==> c in r
    ensures multiset(r) == multiset(Filter(conversations, OwnedBy(userId)))
    ensures forall i, j :: 0 <= i < j < |r| ==> r[j].createdAt <= r[i].createdAt
  {
    SortedSelection(conversations, OwnedBy(userId), CreatedKey);
    var r := SortNewestFirst(Filter(conversations, OwnedBy(userId)), CreatedKey);
    CreatedOrder(r);
    r
  }

  lemma CreatedOrder(r: seq<Conversation>)
    requires NewestFirst(r, CreatedKey)
    ensures forall i, j :: 0 <= i < j < |r| ==> r[j].createdAt <= r[i].createdAt
  {
    forall i, j | 0 <= i < j < |r| ensures r[j].createdAt <= r[i].createdAt {
      assert KeyLe(CreatedKey(r[j]), CreatedKey(r[i]));
    }
  }

  /** `get_conversation`: the conversation with that id if, and only if, the user owns it. */
  function FindOwnedConversation(conversations: seq<Conversation>, id: Uuid, userId: Uuid): (r: Option<Conversation>)
    ensures r.Some? ==> r.value in conversations && r.value.id == id && r.value.userId == userId
    ensures r.None? <==> forall c <- conversations :: !(c.id == id && c.userId == userId)
  {
    First(conversations, IdAndOwner(id, userId))
  }

  /** `get_user_conversations_by_title`: the user's conversations whose title contains `query` in any case, newest first. */
  function ConversationsByTitle(conversations: seq<Conversation>, userId: Uuid, query: string): (r: seq<Conversation>)
    ensures forall c <- r :: c in conversations && c.userId == userId && TitleMatches(c.title, query)
    ensures forall c <- conversations :: c.userId == userId && TitleMatches(c.title, query) ==> c in r
    ensures multiset(r) == multiset(Filter(conversations, OwnedWithTitle(userId, query)))
    ensures forall i, j :: 0 <= i < j < |r| ==> r[j].createdAt <= r[i].createdAt
  {
    SortedSelection(conversations, OwnedWithTitle(userId, query), CreatedKey);
    var r := SortNewestFirst(Filter(conversations, OwnedWithTitle(userId, query)), CreatedKey);
    CreatedOrder(r);
    r
  }

  /** The search ignores the case of the query: searching for its lower-case form finds the same list. */
  lemma TitleSearchIgnoresCase(conversations: seq<Conversation>, userId: Uuid, query: string)
    ensures ConversationsByTitle(conversations, userId, query)
         == ConversationsByTitle(conversations, userId, Text.Lower(query))
  {
    Text.LowerIdempotent(query);
    FilterCongruent(conversations, OwnedWithTitle(userId, query), OwnedWithTitle(userId, Text.Lower(query)));
  }

  /** An empty query matches every one of the user's conversations that has a title. */
  lemma EmptyQueryMatchesEveryTitle(conversations: seq<Conversation>, userId: Uuid)
    ensures forall c <- conversations :: c.userId == userId && c.title.Some?
              ==> c in ConversationsByTitle(conversations, userId, "")
  {
    forall c <- conversations | c.userId == userId && c.title.Some?
      ensures TitleMatches(c.title, "")
    {
      Text.ContainsEmpty(Text.Lower(c.title.value));
    }
  }

  /**
   * `create_conversation`: on success, stores a conversation with the
   * owner, title and context given and `updatedAt` set to `now`, commits
   * and returns it; on failure, rolls back and returns None. The id
   * (uuid4) and `createdAt` (server default) are inputs.
   */
  method CreateConversation(db: Store.Session, userId: Uuid, data: ConversationCreate, id: Uuid,
                            createdAt: Time, now: Time, commitSucceeds: bool)
    returns (r: Option<Conversation>)
    modifies db
    ensures commitSucceeds ==>
      && r == Some(Conversation(id, userId, Some(data.title), Some(data.context), createdAt, Some(now)))
      && db.Snapshot() == old(db.Snapshot()).(conversations := old(db.conversations) + [r.value])
      && db.committed == db.Snapshot()
    ensures !commitSucceeds ==> r == None && db.Snapshot() == old(db.committed) && db.committed == old(db.committed)
  {
    var c := Conversation(id, userId, Some(data.title), Some(data.context), createdAt, Some(now));
    db.conversations := db.conversations + [c];
    if commitSucceeds {
      db.Commit();
      r := Some(c);
    } else {
      db.Rollback();
      r := None;
    }
  }

  /**
   * `update_conversation`: on success, overwrites title and context,
   * refreshes `updatedAt`, commits and returns the row; id, owner and
   * `createdAt` keep their values. On failure, rolls back and returns None.
   */
  method UpdateConversation(db: Store.Session, conversation: Conversation, data: ConversationCreate,
                            now: Time, commitSucceeds: bool)
    returns (r: Option<Conversation>)
    modifies db
    ensures commitSucceeds ==>
      && r == Some(conversation.(title := Some(data.title), context := Some(data.context), updatedAt := Some(now)))
      && db.Snapshot() == old(db.Snapshot()).(conversations := Store.ReplaceConversation(old(db.conversations), r.value))
      && db.committed == db.Snapshot()
    ensures !commitSucceeds ==> r == None && db.Snapshot() == old(db.committed) && db.committed == old(db.committed)
  {
    var c := conversation.(title := Some(data.title), context := Some(data.context), updatedAt := Some(now));
    db.conversations := Store.ReplaceConversation(db.conversations, c);
    if commitSucceeds {
      db.Commit();
      r := Some(c);
    } else {
      db.Rollback();
      r := None;
    }
  }

  /** After an update, the owner finds the updated row under its id, and no other row changed. */
  lemma {:induction false} UpdatedConversationFound(conversations: seq<Conversation>, c: Conversation)
    requires exists x <- conversations :: x.id == c.id
    ensures FindOwnedConversation(Store.ReplaceConversation(conversations, c), c.id, c.userId) == Some(c)
    ensures forall x <- conversations :: x.id != c.id ==> x in Store.ReplaceConversation(conversations, c)
  {
    var r := Store.ReplaceConversation(conversations, c);
    var x :| x in conversations && x.id == c.id;
    var k :| 0 <= k < |conversations| && conversations[k] == x;
    assert r[k] == c;
    FirstIsHeadOfFilter(r, IdAndOwner(c.id, c.userId));
    FirstAllEqual(r, IdAndOwner(c.id, c.userId), c);
    forall y <- conversations | y.id != c.id ensures y in r {
      var j :| 0 <= j < |conversations| && conversations[j] == y;
      assert r[j] == y;
    }
  }

  /** When every row the condition selects equals `c`, and one does, the first selected row is `c`. */
  lemma FirstAllEqual(s: seq<Conversation>, p: Conversation -> bool, c: Conversation)
    requires c in s && p(c)
    requires forall x <- s :: p(x) ==> x == c
    ensures First(s, p) == Some(c)
  {
  }

  /**
   * `delete_conversation`: on success, removes the row (its messages go
   * with it) and commits; on failure, rolls back and swallows the error.
   */
  method DeleteConversation(db: Store.Session, conversation: Conversation, commitSucceeds: bool)
    modifies db
    ensures commitSucceeds ==>
      && db.Snapshot() == Store.DeleteConversationRows(old(db.Snapshot()), conversation.id)
      && db.committed == db.Snapshot()
    ensures !commitSucceeds ==> db.Snapshot() == old(db.committed) && db.committed == old(db.committed)
  {
    var t := Store.DeleteConversationRows(db.Snapshot(), conversation.id);
    db.conversations, db.messages := t.conversations, t.messages;
    if commitSucceeds {
      db.Commit();
    } else {
      db.Rollback();
    }
  }
}
