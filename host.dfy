/** The host's message store as the plugin sees it: `getMessage(channelId, messageId)`
    and the keys of `_channelMessages`, plus the channel scan both lookup entry
    points (the /edit command and the settings page) perform over those keys. */
module Host {
  import opened Prelude

  /** `channelKeys` is `Object.keys(_channelMessages)`, None when that field is missing. */
  datatype HostStore = HostStore(messages: map<(ChannelId, MessageId), Message>, channelKeys: Option<seq<ChannelId>>)
  {
    /** getMessage(channelId, messageId); None is a falsy result. */
    function GetMessage(channel: ChannelId, id: MessageId): Option<Message> {
      if (channel, id) in messages then Some(messages[(channel, id)]) else None
    }

    /** `Object.keys(MessageStore._channelMessages || {})` */
    function Channels(): seq<ChannelId> {
      if channelKeys.Some? then channelKeys.value else []
    }

    /** The store after it handles a MESSAGE_UPDATE event carrying `m`: the cached copy
        of that message is replaced by the payload; an uncached message is ignored. */
    function Updated(m: Message): (h: HostStore)
      ensures h.Channels() == Channels()
      ensures h.GetMessage(m.channelId, m.id) == if GetMessage(m.channelId, m.id).Some? then Some(m) else None
      ensures forall channel, id :: (channel, id) != (m.channelId, m.id) ==> h.GetMessage(channel, id) == GetMessage(channel, id)
    {
      if (m.channelId, m.id) in messages then HostStore(messages[(m.channelId, m.id) := m], channelKeys) else this
    }
  }

  /** The host's live message store, which FluxDispatcher events rewrite in place. */
  class MessageCache {
    var contents: HostStore

    constructor (contents: HostStore)
      ensures this.contents == contents
    {
      this.contents := contents;
    }

    /** `FluxDispatcher.dispatch({ type: "MESSAGE_UPDATE", message: m })` */
    method DispatchUpdate(m: Message)
      modifies this
      ensures contents == old(contents).Updated(m)
    {
      contents := contents.Updated(m);
    }
  }

  /** The result of resolving a user-supplied message id. */
  datatype LookupOutcome = MissingId | NotFound | Found(message: Message)

  /** The first hit of a channel-by-channel lookup of `id`, in key order. */
  function FirstHit(host: HostStore, channels: seq<ChannelId>, id: MessageId): (r: Option<Message>)
    ensures r.Some? ==> exists k :: 0 <= k < |channels| && host.GetMessage(channels[k], id) == r
                                   && forall j :: 0 <= j < k ==> host.GetMessage(channels[j], id).None?
    ensures r.None? <==> forall k :: 0 <= k < |channels| ==> host.GetMessage(channels[k], id).None?
  {
    if channels == [] then None
    else
      var hit := host.GetMessage(channels[0], id);
      if hit.Some? then hit else FirstHit(host, channels[1..], id)
  }

  /** The `for (const chId of channels) { ... break; }` loop of both entry points. */
  method ScanChannels(host: HostStore, channels: seq<ChannelId>, id: MessageId) returns (message: Option<Message>)
    ensures message == FirstHit(host, channels, id)
  {
    message := None;
    var i := 0;
    while i < |channels|
      invariant 0 <= i <= |channels|
      invariant FirstHit(host, channels, id) == FirstHit(host, channels[i..], id)
    {
      var msg := host.GetMessage(channels[i], id);
      if msg.Some? {
        message := msg;
        break;
      }
      assert channels[i..][1..] == channels[i + 1..];
      i := i + 1;
    }
  }

  /** When a message id lives in one channel only, the scan returns exactly that message. */
  lemma FirstHitUnique(host: HostStore, channels: seq<ChannelId>, id: MessageId, k: nat)
    requires k < |channels| && host.GetMessage(channels[k], id).Some?
    requires forall j :: 0 <= j < |channels| && channels[j] != channels[k] ==> host.GetMessage(channels[j], id).None?
    ensures FirstHit(host, channels, id) == host.GetMessage(channels[k], id)
  {
  }
}
