/**
 * routes/conversation.py: the five conversation handlers as decisions over
 * the conversation service. Create makes a missing user instead of
 * refusing; the others open with the owner guard; delete is refused while
 * the conversation still has items.
 */
module ConversationRoutes {
  import opened Wrappers
  import opened Ids
  import opened Models
  import opened Http
  import Ordering
  import Store
  import UserService
  import ConversationService
  import RouteGuards

  /** The reply of a delete that got past its checks. */
  datatype DeleteReply = DeleteReply(message: string, id: Uuid)

  const ConversationHasItems := HttpError(400, "Conversation has items")
  const DeletedMessage := "Conversation deleted successfully"

  /** The user the new conversation belongs to: the caller's user, or the one created for the address. */
  function Owner(users: seq<User>, email: string, newUserId: Uuid): (r: User)
    ensures r.email == email
    ensures UserService.UserByEmail(users, email).Some? ==> r == UserService.UserByEmail(users, email).value
    ensures UserService.UserByEmail(users, email).None? ==> r == User(newUserId, email, UserService.DisplayName(email))
  {
    match UserService.UserByEmail(users, email)
    case Some(u) => u
    case None => User(newUserId, email, UserService.DisplayName(email))
  }

  /** The users table after create's lookup: one more user exactly when the address had none. */
  function UsersAfterLookup(users: seq<User>, email: string, newUserId: Uuid): (r: seq<User>)
    ensures UserService.UserByEmail(users, email).Some? ==> r == users
    ensures UserService.UserByEmail(users, email).None? ==> r == users + [Owner(users, email, newUserId)]
  {
    if UserService.UserByEmail(users, email).Some? then users else users + [Owner(users, email, newUserId)]
  }

  /** After create's lookup, the address names the owner. */
  lemma {:induction false} OwnerFound(users: seq<User>, email: string, newUserId: Uuid)
    ensures UserService.UserByEmail(UsersAfterLookup(users, email, newUserId), email) == Some(Owner(users, email, newUserId))
  {
    var owner := Owner(users, email, newUserId);
    if UserService.UserByEmail(users, email).None? {
      var p := UserService.HasEmail(email);
      Ordering.FirstIsHeadOfFilter(users + [owner], p);
      Ordering.FilterAppend(users, [owner], p);
      var f := Ordering.Filter(users, p);
      assert f == [] by {
        if f != [] {
          assert false;
        }
      }
      assert Ordering.Filter(users + [owner], p) == [owner];
    }
  }

  /**
   * `create_conversation`: finds the caller's user or creates one (a
   * flush), then creates the conversation. When the commit fails, the
   * rollback takes the flushed user away with the conversation, and the
   * reply is None.
   */
  method CreateConversation(db: Store.Session, email: string, data: ConversationService.ConversationCreate,
                            newUserId: Uuid, id: Uuid, createdAt: Time, now: Time, commitSucceeds: bool)
    returns (r: Option<Conversation>)
    modifies db
    ensures var owner := Owner(old(db.users), email, newUserId);
      commitSucceeds ==>
        && r == Some(Conversation(id, owner.id, Some(data.title), Some(data.context), createdAt, Some(now)))
        && db.users == UsersAfterLookup(old(db.users), email, newUserId)
        && db.conversations == old(db.conversations) + [r.value]
        && db.messages == old(db.messages) && db.embeddings == old(db.embeddings) && db.items == old(db.items)
        && db.committed == db.Snapshot()
    ensures !commitSucceeds ==> r == None && db.Snapshot() == old(db.committed) && db.committed == old(db.committed)
  {
    var user := UserService.UserByEmail(db.users, email);
    var owner: User;
    if user.None? {
      owner := UserService.CreateUser(db, email, newUserId);
    } else {
      owner := user.value;
    }
    r := ConversationService.CreateConversation(db, owner.id, data, id, createdAt, now, commitSucceeds);
  }

  /**
   * A created conversation, under an id no conversation had, is what the
   * caller's get finds afterwards.
   */
  lemma {:induction false} CreatedConversationVisible(t: Store.Tables, email: string, c: Conversation, newUserId: Uuid)
    requires c.userId == Owner(t.users, email, newUserId).id
    requires forall x <- t.conversations :: x.id != c.id
    ensures var after := t.(users := UsersAfterLookup(t.users, email, newUserId), conversations := t.conversations + [c]);
      RouteGuards.ResolveOwned(after, email, c.id) == Success(RouteGuards.Caller(Owner(t.users, email, newUserId), c))
  {
    var owner := Owner(t.users, email, newUserId);
    OwnerFound(t.users, email, newUserId);
    var p := ConversationService.IdAndOwner(c.id, owner.id);
    Ordering.FirstIsHeadOfFilter(t.conversations + [c], p);
    Ordering.FilterAppend(t.conversations, [c], p);
    var f := Ordering.Filter(t.conversations, p);
    assert f == [] by {
      if f != [] {
        assert false;
      }
    }
    assert Ordering.Filter(t.conversations + [c], p) == [c];
  }

  /**
   * `get_all_conversation`: 404 for an unknown address; with a non-empty
   * title, the user's matching conversations, or 404 when none matches;
   * without one (absent or empty), all the user's conversations, possibly
   * none.
   */
  function ListConversations(t: Store.Tables, email: string, title: Option<string>): (r: Outcome<seq<Conversation>>)
    ensures !r.Crashed?
    ensures UserService.UserByEmail(t.users, email).None? <==> r == Raised(UserNotFound)
    ensures r == Raised(ConversationNotFound) <==>
      && UserService.UserByEmail(t.users, email).Some? && title.Some? && title.value != ""
      && forall c <- t.conversations :: !(c.userId == UserService.UserByEmail(t.users, email).value.id
                                          && ConversationService.TitleMatches(c.title, title.value))
    ensures r.Done? ==> forall c <- r.value :: c in t.conversations && c.userId == UserService.UserByEmail(t.users, email).value.id
    ensures r.Done? ==> forall i, j :: 0 <= i < j < |r.value| ==> r.value[j].createdAt <= r.value[i].createdAt
    ensures r.Done? && title.Some? && title.value != "" ==>
      && |r.value| > 0
      && (forall c <- r.value :: ConversationService.TitleMatches(c.title, title.value))
      && (forall c <- t.conversations ::
            (c.userId == UserService.UserByEmail(t.users, email).value.id
             && ConversationService.TitleMatches(c.title, title.value)) ==> c in r.value)
      && multiset(r.value) == multiset(Ordering.Filter(t.conversations,
           ConversationService.OwnedWithTitle(UserService.UserByEmail(t.users, email).value.id, title.value)))
    ensures r.Done? && (title.None? || title.value == "") ==>
      && (forall c <- t.conversations :: c.userId == UserService.UserByEmail(t.users, email).value.id ==> c in r.value)
      && multiset(r.value) == multiset(Ordering.Filter(t.conversations,
           ConversationService.OwnedBy(UserService.UserByEmail(t.users, email).value.id)))
  {
    match UserService.UserByEmail(t.users, email)
    case None => Raised(UserNotFound)
    case Some(user) =>
      if title.Some? && title.value != "" then
        var found := ConversationService.ConversationsByTitle(t.conversations, user.id, title.value);
        if found == [] then
          Raised(ConversationNotFound)
        else
          Done(found)
      else
        Done(ConversationService.UserConversations(t.conversations, user.id))
  }

  /** `get_conversation`: the guard's answer, the owned conversation or a 404. */
  function GetConversation(t: Store.Tables, email: string, id: Uuid): (r: Outcome<Conversation>)
    ensures !r.Crashed?
    ensures r.Raised? <==> RouteGuards.ResolveOwned(t, email, id).Failure?
    ensures r.Raised? ==> r.error == RouteGuards.ResolveOwned(t, email, id).error
    ensures r.Done? ==> r.value == RouteGuards.ResolveOwned(t, email, id).value.conversation
    ensures r.Done? ==>
      && r.value in t.conversations && r.value.id == id
      && exists u <- t.users :: u.email == email && r.value.userId == u.id
  {
    match RouteGuards.ResolveOwned(t, email, id)
    case Failure(e) => Raised(e)
    case Success(caller) => Done(caller.conversation)
  }

  /**
   * `update_conversation`: after the guard, the service's update of the
   * owned conversation; a 404 changes nothing.
   */
  method UpdateConversation(db: Store.Session, email: string, id: Uuid, data: ConversationService.ConversationCreate,
                            now: Time, commitSucceeds: bool)
    returns (r: Outcome<Option<Conversation>>)
    modifies db
    ensures var guard := RouteGuards.ResolveOwned(old(db.Snapshot()), email, id);
      && (guard.Failure? ==> r == Raised(guard.error) && db.Snapshot() == old(db.Snapshot()) && db.committed == old(db.committed))
      && (guard.Success? && commitSucceeds ==>
            var c := guard.value.conversation.(title := Some(data.title), context := Some(data.context), updatedAt := Some(now));
            && r == Done(Some(c))
            && db.Snapshot() == old(db.Snapshot()).(conversations := Store.ReplaceConversation(old(db.conversations), c))
            && db.committed == db.Snapshot())
      && (guard.Success? && !commitSucceeds ==>
            r == Done(None) && db.Snapshot() == old(db.committed) && db.committed == old(db.committed))
  {
    var guard := RouteGuards.ResolveOwned(db.Snapshot(), email, id);
    if guard.Failure? {
      return Raised(guard.error);
    }
    var updated := ConversationService.UpdateConversation(db, guard.value.conversation, data, now, commitSucceeds);
    r := Done(updated);
  }

  /** The items of a conversation, active or not: what `get_items_by_conversation(..., active_only=False)` returns. */
  function ConversationItems(items: map<Uuid, Item>, conversationId: Uuid): (r: set<Item>)
    ensures forall i <- r :: i in items.Values && i.conversationId == conversationId
    ensures forall k <- items :: items[k].conversationId == conversationId ==> items[k] in r
  {
    set i <- items.Values | i.conversationId == conversationId
  }

  /**
   * The checks of `delete_conversation`, in order: no user (404), no such
   * owned conversation (404), then any item of the conversation, withdrawn
   * ones included (400).
   */
  function DeleteGuard(t: Store.Tables, email: string, id: Uuid): (r: Result<RouteGuards.Caller, HttpError>)
    ensures RouteGuards.ResolveOwned(t, email, id).Failure? ==> r == RouteGuards.ResolveOwned(t, email, id)
    ensures RouteGuards.ResolveOwned(t, email, id).Success? ==>
      (r == Failure(ConversationHasItems) <==> exists k <- t.items :: t.items[k].conversationId == id)
    ensures r.Success? ==> r == RouteGuards.ResolveOwned(t, email, id)
    ensures RouteGuards.ResolveOwned(t, email, id).Success? && ConversationItems(t.items, id) == {} ==>
      r == RouteGuards.ResolveOwned(t, email, id)
  {
    match RouteGuards.ResolveOwned(t, email, id)
    case Failure(e) => Failure(e)
    case Success(caller) =>
      if |ConversationItems(t.items, caller.conversation.id)| > 0 then Failure(ConversationHasItems)
      else Success(caller)
  }

  /**
   * `delete_conversation`: after its checks, the service's delete, and a
   * reply naming the id. The service swallows a failed commit, so the
   * reply is the same whether or not the row went.
   */
  method DeleteConversation(db: Store.Session, email: string, id: Uuid, commitSucceeds: bool)
    returns (r: Outcome<DeleteReply>)
    modifies db
    ensures var guard := DeleteGuard(old(db.Snapshot()), email, id);
      && (guard.Failure? ==> r == Raised(guard.error) && db.Snapshot() == old(db.Snapshot()) && db.committed == old(db.committed))
      && (guard.Success? ==> r == Done(DeleteReply(DeletedMessage, id)))
      && (guard.Success? && commitSucceeds ==>
            db.Snapshot() == Store.DeleteConversationRows(old(db.Snapshot()), id) && db.committed == db.Snapshot())
      && (guard.Success? && !commitSucceeds ==> db.Snapshot() == old(db.committed) && db.committed == old(db.committed))
  {
    var guard := DeleteGuard(db.Snapshot(), email, id);
    if guard.Failure? {
      return Raised(guard.error);
    }
    ConversationService.DeleteConversation(db, guard.value.conversation, commitSucceeds);
    r := Done(DeleteReply(DeletedMessage, id));
  }

  /** A delete that gets past its checks removes the conversation and its messages and nothing of anyone else's. */
  lemma DeleteRemovesOnlyTheConversation(t: Store.Tables, email: string, id: Uuid)
    requires DeleteGuard(t, email, id).Success?
    ensures var after := Store.DeleteConversationRows(t, id);
      && (forall c <- after.conversations :: c.id != id)
      && (forall c <- t.conversations :: c.id != id ==> c in after.conversations)
      && (forall m <- t.messages :: m.conversationId != id ==> m in after.messages)
      && ConversationItems(after.items, id) == {}
  {
  }
}
