/**
 * The stored entities. `Message` and `MessageRole` follow models/message.py
 * field for field; the columns of users, conversations, items and embeddings
 * are those the services read and write (their model files are not part of
 * this model). Timestamps are abstract ordered values.
 */
module Models {
  import opened Wrappers
  import opened Ids
  import Text

  type Time = int

  /** The role of a message: its value is "user" or "assistant". */
  datatype MessageRole = UserRole | AssistantRole

  function RoleValue(role: MessageRole): string
  {
    match role
    case UserRole => "user"
    case AssistantRole => "assistant"
  }

  /** The two roles have distinct values, and lower-casing a value leaves it as it is. */
  lemma RoleValueFacts(a: MessageRole, b: MessageRole)
    ensures RoleValue(a) == RoleValue(b) <==> a == b
    ensures Text.Lower(RoleValue(a)) == RoleValue(a)
  {
    var v := RoleValue(a);
    assert forall i :: 0 <= i < |v| ==> 'a' <= v[i] <= 'z';
    Text.LowerOfLower(v);
    if a != b {
      assert RoleValue(a)[0] != RoleValue(b)[0];
    }
  }

  /**
   * A row of the messages table. `id` defaults to a fresh uuid4 and
   * `createdAt` is set by the database server; `sourceEmbeddingId` is the
   * one nullable column.
   */
  datatype Message = Message(
    id: Uuid,
    conversationId: Uuid,
    role: MessageRole,
    userId: Uuid,
    content: string,
    sourceEmbeddingId: Option<Uuid>,
    createdAt: Time)

  datatype User = User(id: Uuid, email: string, displayName: string)

  /** `title` is nullable: a partial update may set it to null. */
  datatype Conversation = Conversation(
    id: Uuid,
    userId: Uuid,
    title: Option<string>,
    context: Option<string>,
    createdAt: Time,
    updatedAt: Option<Time>)

  /** An uploaded document; `active` is false once it is withdrawn. */
  datatype Item = Item(
    id: Uuid,
    conversationId: Uuid,
    uri: string,
    fileName: string,
    lastUpdated: Time,
    active: bool)

  /** The embedding vector is opaque here: it is carried, never inspected. */
  type Vector = seq<real>

  /** One embedded chunk of an item's text. */
  datatype Embedding = Embedding(
    id: Uuid,
    conversationId: Uuid,
    itemId: Uuid,
    chunkText: string,
    vector: Vector,
    page: int)

  /** A value in a JSON-bound dictionary built from stored rows. */
  datatype FieldValue =
    | UuidField(uuid: Uuid)
    | OptionalUuidField(optionalUuid: Option<Uuid>)
    | RoleField(role: MessageRole)
    | TextField(text: string)
    | IntField(number: int)
    | TimeField(time: Time)

  const MessageKeys: set<string> :=
    {"id", "conversation_id", "role", "user_id", "content", "source_embedding_id", "created_at"}

  /** `Message.asdict()`. */
  function AsDict(m: Message): (d: map<string, FieldValue>)
    ensures d.Keys == MessageKeys
  {
    map[
      "id" := UuidField(m.id),
      "conversation_id" := UuidField(m.conversationId),
      "role" := RoleField(m.role),
      "user_id" := UuidField(m.userId),
      "content" := TextField(m.content),
      "source_embedding_id" := OptionalUuidField(m.sourceEmbeddingId),
      "created_at" := TimeField(m.createdAt)]
  }

  /** Reads a message back from a dictionary of its seven fields, when each holds a value of the right kind. */
  function FromDict(d: map<string, FieldValue>): (r: Option<Message>)
  {
    if MessageKeys <= d.Keys
       && d["id"].UuidField? && d["conversation_id"].UuidField? && d["role"].RoleField?
       && d["user_id"].UuidField? && d["content"].TextField?
       && d["source_embedding_id"].OptionalUuidField? && d["created_at"].TimeField?
    then Some(Message(d["id"].uuid, d["conversation_id"].uuid, d["role"].role, d["user_id"].uuid,
                      d["content"].text, d["source_embedding_id"].optionalUuid, d["created_at"].time))
    else None
  }

  /** `asdict` has exactly seven keys, loses no field, and reading it back gives the message. */
  lemma AsDictRoundTrip(m: Message)
    ensures |AsDict(m)| == 7
    ensures FromDict(AsDict(m)) == Some(m)
  {
    MessageKeysCount();
  }

  /** The seven field names are pairwise different. */
  lemma MessageKeysCount()
    ensures |MessageKeys| == 7
  {
    var keys := ["id", "conversation_id", "role", "user_id", "content", "source_embedding_id", "created_at"];
    assert forall i, j :: 0 <= i < j < 7 ==> keys[i] != keys[j] by {
      assert keys[0][0] == 'i' && keys[1][0] == 'c' && keys[2][0] == 'r' && keys[3][0] == 'u';
      assert keys[4][0] == 'c' && keys[5][0] == 's' && keys[6][0] == 'c';
      assert keys[1][1] == 'o' && keys[4][1] == 'o' && keys[6][1] == 'r';
      assert |keys[1]| != |keys[4]|;
    }
    assert MessageKeys == set k <- keys;
    DistinctElementsCount(keys);
  }

  lemma {:induction false} DistinctElementsCount(s: seq<string>)
    requires forall i, j :: 0 <= i < j < |s| ==> s[i] != s[j]
    ensures |(set x <- s)| == |s|
  {
    if s != [] {
      var rest := s[1..];
      DistinctElementsCount(rest);
      assert (set x <- s) == {s[0]} + (set x <- rest);
      assert s[0] !in rest;
    }
  }
}
