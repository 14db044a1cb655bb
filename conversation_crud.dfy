/**
 * services/conversation_service.py: the static conversation service. Its
 * lookup ignores the owner; update and delete check existence (404) and
 * then ownership (403) before changing anything.
 */
module ConversationCrud {
  import opened Wrappers
  import opened Ids
  import opened Models
  import opened Ordering
  import opened Http
  import ConversationService
  import Store

  /** A request field that the client either left out or set, possibly to null. */
  datatype Field<+T> = Unset | Set(value: T)

  /** The update body: only the title can be given. */
  datatype ConversationUpdate = ConversationUpdate(title: Field<Option<string>>)

  /** One `setattr` the update performs. */
  datatype Assignment = AssignTitle(title: Option<string>)

  /** `conversation_update.dict(exclude_unset=True).items()`: the fields the client set, in declaration order. */
  function ExplicitlySet(u: ConversationUpdate): (r: seq<Assignment>)
    ensures |r| <= 1
    ensures r == [] <==> u.title.Unset?
  {
    if u.title.Set? then [AssignTitle(u.title.value)] else []
  }

  function Assign(c: Conversation, a: Assignment): Conversation
  {
    match a
    case AssignTitle(t) => c.(title := t)
  }

  /** The assignments applied in order. */
  function AssignAll(c: Conversation, assignments: seq<Assignment>): Conversation
  {
    if assignments == [] then c
    else Assign(AssignAll(c, assignments[..|assignments| - 1]), assignments[|assignments| - 1])
  }

  /**
   * The `setattr` loop: the fields the client set take the given values,
   * and every other field keeps its own.
   */
  method ApplyUpdate(c: Conversation, u: ConversationUpdate) returns (r: Conversation)
    ensures r.id == c.id && r.userId == c.userId && r.context == c.context
    ensures r.createdAt == c.createdAt && r.updatedAt == c.updatedAt
    ensures r.title == if u.title.Set? then u.title.value else c.title
  {
    var assignments := ExplicitlySet(u);
    r := c;
    for i := 0 to |assignments|
      invariant r == AssignAll(c, assignments[..i])
    {
      assert assignments[..i + 1][..i] == assignments[..i];
      r := Assign(r, assignments[i]);
    }
    assert assignments[..|assignments|] == assignments;
  }

  const DefaultSkip: nat := 0
  const DefaultLimit: nat := 100

  /** ORDER BY updated_at DESC, where a NULL `updated_at` sorts first. */
  function UpdatedKey(c: Conversation): SortKey
  {
    match c.updatedAt
    case None => Null
    case Some(t) => At(t)
  }

  function HasId(id: Uuid): Conversation -> bool
  {
    (c: Conversation) => c.id == id
  }

  /** `get_conversation`: the conversation with that id, whoever owns it, or None. */
  function GetConversation(conversations: seq<Conversation>, id: Uuid): (r: Option<Conversation>)
    ensures r.Some? ==> r.value in conversations && r.value.id == id
    ensures r.None? <==> forall c <- conversations :: c.id != id
  {
    First(conversations, HasId(id))
  }

  /**
   * `get_user_conversations`: the user's conversations by `updated_at`
   * descending (NULLs first), skipping `skip` and keeping at most `limit`.
   */
  function UserConversations(conversations: seq<Conversation>, userId: Uuid, skip: nat, limit: nat)
    : (r: seq<Conversation>)
    ensures forall c <- r :: c in conversations && c.userId == userId
    ensures var n := |Filter(conversations, ConversationService.OwnedBy(userId))|;
      |r| == if skip >= n then 0 else if limit < n - skip then limit else n - skip
    ensures NewestFirst(r, UpdatedKey)
    ensures multiset(r) <= multiset(Filter(conversations, ConversationService.OwnedBy(userId)))
    ensures var owned := Filter(conversations, ConversationService.OwnedBy(userId));
      skip < |owned| ==> RunAt(r, SortNewestFirst(owned, UpdatedKey), skip)
  {
    var owned := Filter(conversations, ConversationService.OwnedBy(userId));
    var r := Page(owned, UpdatedKey, skip, limit);
    PageRowsOwned(conversations, userId, r);
    r
  }

  /** Rows drawn from the user's conversations are the user's conversations. */
  lemma PageRowsOwned(conversations: seq<Conversation>, userId: Uuid, r: seq<Conversation>)
    requires multiset(r) <= multiset(Filter(conversations, ConversationService.OwnedBy(userId)))
    ensures forall c <- r :: c in conversations && c.userId == userId
  {
    var owned := Filter(conversations, ConversationService.OwnedBy(userId));
    forall c <- r ensures c in conversations && c.userId == userId {
      assert c in multiset(r);
      assert c in multiset(owned);
      assert c in owned;
    }
  }

  /**
   * The first page, at the default offset, holds the user's newest
   * conversations: none of the user's conversations left off it was
   * updated more recently than one on it. With the default limit, a user
   * with at most a hundred conversations gets all of them.
   */
  lemma DefaultFirstPage(conversations: seq<Conversation>, userId: Uuid, limit: nat)
    ensures var owned := Filter(conversations, ConversationService.OwnedBy(userId));
      var r := UserConversations(conversations, userId, DefaultSkip, limit);
      forall x, y :: x in r && y in multiset(owned) - multiset(r) ==> KeyLe(UpdatedKey(y), UpdatedKey(x))
    ensures var owned := Filter(conversations, ConversationService.OwnedBy(userId));
      |owned| <= DefaultLimit ==>
        multiset(UserConversations(conversations, userId, DefaultSkip, DefaultLimit)) == multiset(owned)
  {
    var owned := Filter(conversations, ConversationService.OwnedBy(userId));
    var sorted := SortNewestFirst(owned, UpdatedKey);
    assert Drop(sorted, DefaultSkip) == sorted;
    NewestFirstTake(owned, UpdatedKey, limit);
    if |owned| <= DefaultLimit {
      var all := UserConversations(conversations, userId, DefaultSkip, DefaultLimit);
      assert |multiset(all)| == |multiset(owned)|;
      MultisetSubEqual(multiset(all), multiset(owned));
    }
  }

  /** The 404-then-403 checks that update and delete share. */
  function Authorize(conversations: seq<Conversation>, id: Uuid, userId: Uuid, action: string)
    : (r: Result<Conversation, HttpError>)
    ensures r.Success? ==> r.value in conversations && r.value.id == id && r.value.userId == userId
    ensures r == Failure(HttpError(404, "Conversation not found")) <==> forall c <- conversations :: c.id != id
    ensures r.Failure? && r.error.status == 403 ==> exists c <- conversations :: c.id == id && c.userId != userId
  {
    match GetConversation(conversations, id)
    case None => Failure(HttpError(404, "Conversation not found"))
    case Some(c) =>
      if c.userId != userId then Failure(HttpError(403, "Not authorized to " + action + " this conversation"))
      else Success(c)
  }

  /** The owner of the first row with an id always gets past the checks; anyone else gets 403. */
  lemma AuthorizeOwner(conversations: seq<Conversation>, id: Uuid, userId: Uuid, action: string)
    requires GetConversation(conversations, id).Some?
    ensures Authorize(conversations, id, userId, action).Success?
        <==> GetConversation(conversations, id).value.userId == userId
    ensures Authorize(conversations, id, userId, action).Failure?
        ==> Authorize(conversations, id, userId, action).error.status == 403
  {
  }

  /** `create_conversation`: sets only title and owner (the context given is dropped) and commits. */
  method CreateConversation(db: Store.Session, data: ConversationService.ConversationCreate, userId: Uuid,
                            id: Uuid, createdAt: Time)
    returns (c: Conversation)
    modifies db
    ensures c == Conversation(id, userId, Some(data.title), None, createdAt, None)
    ensures db.Snapshot() == old(db.Snapshot()).(conversations := old(db.conversations) + [c])
    ensures db.committed == db.Snapshot()
  {
    c := Conversation(id, userId, Some(data.title), None, createdAt, None);
    db.conversations := db.conversations + [c];
    db.Commit();
  }

  /**
   * `update_conversation`: 404 when no conversation has the id, 403 when
   * another user owns it (nothing changes in either case); otherwise the
   * fields the client set are assigned and committed.
   */
  method UpdateConversation(db: Store.Session, id: Uuid, update: ConversationUpdate, userId: Uuid)
    returns (r: Result<Conversation, HttpError>)
    modifies db
    ensures var a := Authorize(old(db.conversations), id, userId, "update");
      a.Failure? ==> r == Failure(a.error) && db.Snapshot() == old(db.Snapshot()) && db.committed == old(db.committed)
    ensures var a := Authorize(old(db.conversations), id, userId, "update");
      a.Success? ==>
        && r.Success? && r.value.id == id && r.value.userId == userId
        && r.value.title == (if update.title.Set? then update.title.value else a.value.title)
        && r.value.context == a.value.context && r.value.createdAt == a.value.createdAt
        && r.value.updatedAt == a.value.updatedAt
        && db.Snapshot() == old(db.Snapshot()).(conversations := Store.ReplaceConversation(old(db.conversations), r.value))
        && db.committed == db.Snapshot()
  {
    var a := Authorize(db.conversations, id, userId, "update");
    if a.Failure? {
      return Failure(a.error);
    }
    var c := ApplyUpdate(a.value, update);
    db.conversations := Store.ReplaceConversation(db.conversations, c);
    db.Commit();
    r := Success(c);
  }

  /**
   * `delete_conversation`: the same checks, then the row (and, by the
   * cascade, its messages) is removed and committed, and the answer is true.
   */
  method DeleteConversation(db: Store.Session, id: Uuid, userId: Uuid) returns (r: Result<bool, HttpError>)
    modifies db
    ensures var a := Authorize(old(db.conversations), id, userId, "delete");
      a.Failure? ==> r == Failure(a.error) && db.Snapshot() == old(db.Snapshot()) && db.committed == old(db.committed)
    ensures var a := Authorize(old(db.conversations), id, userId, "delete");
      a.Success? ==>
        && r == Success(true)
        && db.Snapshot() == Store.DeleteConversationRows(old(db.Snapshot()), id)
        && db.committed == db.Snapshot()
  {
    var a := Authorize(db.conversations, id, userId, "delete");
    if a.Failure? {
      return Failure(a.error);
    }
    var t := Store.DeleteConversationRows(db.Snapshot(), id);
    db.conversations, db.messages := t.conversations, t.messages;
    db.Commit();
    r := Success(true);
  }
}
