/**
 * The check the routes that name one conversation open with (chat, history,
 * get_message, get, update and delete): the caller's address must name a
 * user (404 "User not found"), and that user must own a conversation with
 * the path's id (404 "Conversation not found"), in that order. Create and
 * the listing only look the user up.
 */
module RouteGuards {
  import opened Wrappers
  import opened Ids
  import opened Models
  import Http
  import Store
  import UserService
  import ConversationService

  datatype Caller = Caller(user: User, conversation: Conversation)

  function ResolveOwned(t: Store.Tables, email: string, conversationId: Uuid): (r: Result<Caller, Http.HttpError>)
    ensures (forall u <- t.users :: u.email != email) <==> r == Failure(Http.UserNotFound)
    ensures r == Failure(Http.ConversationNotFound) <==>
      exists u <- t.users :: u.email == email && UserService.UserByEmail(t.users, email) == Some(u)
        && forall c <- t.conversations :: !(c.id == conversationId && c.userId == u.id)
    ensures r.Failure? ==> r.error == Http.UserNotFound || r.error == Http.ConversationNotFound
    ensures r.Success? ==>
      && r.value.user in t.users && r.value.user.email == email
      && r.value.conversation in t.conversations
      && r.value.conversation.id == conversationId && r.value.conversation.userId == r.value.user.id
  {
    match UserService.UserByEmail(t.users, email)
    case None => Failure(Http.UserNotFound)
    case Some(user) =>
      match ConversationService.FindOwnedConversation(t.conversations, conversationId, user.id)
      case None => Failure(Http.ConversationNotFound)
      case Some(conversation) => Success(Caller(user, conversation))
  }
}
