/** What a route hands back to FastAPI: a value, a raised HTTPException, or an unhandled error (status 500). */
module Http {

  datatype HttpError = HttpError(status: int, detail: string)

  /** The unhandled errors a route can hit, named after what fails. */
  datatype Fault =
    | AnswerIsNone          // `.sources` read on the None that get_answer_nodes returns
    | GenerationFailed      // the chat engine or the language model raised
    | MalformedCitationId   // uuid.UUID raised on the first source node's metadata id
    | EmbeddingMissing      // `.item_id` read on the None that get_embedding returns
    | ItemMissing           // `.file_name` read on the None the item lookup returns

  datatype Outcome<+T> = Done(value: T) | Raised(error: HttpError) | Crashed(fault: Fault)

  const UserNotFound := HttpError(404, "User not found")
  const ConversationNotFound := HttpError(404, "Conversation not found")
  const MessageNotFound := HttpError(404, "Message not found")
}
