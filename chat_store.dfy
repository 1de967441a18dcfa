/** The chat message record (`backend/livechat/chat.model.js`), the message store
    both chat paths append to, and the user directory rows the roster and the
    `/chat-users` route resolve names from. */
module ChatStore {
  import opened Wrappers

  /** A stored chat message; `timestamp` is the creation time the caller supplies. */
  datatype ChatMessage = ChatMessage(senderId: int, receiverId: int, message: string, timestamp: int)

  /** One row of the relational user directory, projected to `id` and `name`. */
  datatype UserRow = UserRow(id: int, name: string)

  /** `new ChatMessage({senderId, receiverId, message})` followed by the schema's
      validation: all three fields are `required`, and a required string must not be
      empty. `None` is the validation error that makes `save()` throw. */
  function NewRecord(senderId: Option<int>, receiverId: Option<int>, message: Option<string>, now: int): (r: Option<ChatMessage>)
    ensures r.Some? <==> senderId.Some? && receiverId.Some? && message.Some? && message.value != ""
    ensures r.Some? ==>
      && r.value.senderId == senderId.value && r.value.receiverId == receiverId.value
      && r.value.message == message.value && r.value.timestamp == now
  {
    if senderId.Some? && receiverId.Some? && message.Some? && message.value != "" then
      Some(ChatMessage(senderId.value, receiverId.value, message.value, now))
    else
      None
  }

  /** The append-only message collection. Whether the database accepts a write is
      not visible to the model, so `Save` takes it as a parameter. */
  class MessageStore {
    var messages: seq<ChatMessage>

    constructor ()
      ensures messages == []
    {
      messages := [];
    }

    /** `await record.save()`: appends on success, leaves the store as it was on failure. */
    method Save(m: ChatMessage, ok: bool) returns (saved: bool)
      modifies this
      ensures saved == ok
      ensures messages == if ok then old(messages) + [m] else old(messages)
    {
      saved := ok;
      if ok {
        messages := messages + [m];
      }
    }
  }
}
