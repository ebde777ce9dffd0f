/** Values shared by every part of the local message editor: an optional value
    (JavaScript's null/undefined) and the chat message records the host hands out. */
module Prelude {

  datatype Option<T> = None | Some(value: T) {
    /** `x || fallback` for an object-valued x. */
    function GetOr(fallback: T): T {
      if Some? then value else fallback
    }
  }

  /** Message and channel identifiers are opaque strings; "" is JavaScript-falsy. */
  type MessageId = string
  type ChannelId = string

  /** A host message. Only `id`, `channel_id` and `content` are read by the plugin;
      `rest` stands for its other own enumerable properties (author, timestamp,
      attachments, reactions), the ones an object spread copies. */
  datatype Message = Message(id: MessageId, channelId: ChannelId, content: string, rest: map<string, string>)
}
