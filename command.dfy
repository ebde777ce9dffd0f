/** The `execute` handler of the /edit slash command (src/commands/edit.tsx):
    argument extraction, a direct lookup in the chosen channel, then a scan of all
    cached channels; on success the dialog is opened through showEditModal. */
module Command {
  import opened Prelude
  import opened Host
  import opened Registry
  import opened Overrides

  /** A command option as the host passes it; an undefined value is written "",
      which is falsy exactly like undefined. */
  datatype Arg = Arg(name: string, value: string)

  /** `args.find(arg => arg.name === name)` */
  function FindArg(args: seq<Arg>, name: string): (r: Option<Arg>)
    ensures r.Some? ==> exists k :: 0 <= k < |args| && args[k] == r.value && r.value.name == name
                                   && forall j :: 0 <= j < k ==> args[j].name != name
    ensures r.None? <==> forall k :: 0 <= k < |args| ==> args[k].name != name
  {
    if args == [] then None
    else if args[0].name == name then Some(args[0])
    else FindArg(args[1..], name)
  }

  /** `FindArg(...)?.value`, with "" for undefined: the value of the first option with
      that name, and "" when no option has it. */
  function ArgText(args: seq<Arg>, name: string): (text: string)
    ensures (forall k :: 0 <= k < |args| ==> args[k].name != name) ==> text == ""
    ensures text != "" ==> exists k :: 0 <= k < |args| && args[k] == Arg(name, text)
                                       && forall j :: 0 <= j < k ==> args[j].name != name
  {
    var a := FindArg(args, name);
    if a.Some? then a.value.value else ""
  }

  /** `channelIdArg?.value || ctx.channel.id` */
  function ChosenChannel(args: seq<Arg>, contextChannel: ChannelId): ChannelId {
    var given := ArgText(args, "channel_id");
    if given != "" then given else contextChannel
  }

  /** What the handler resolves: the direct hit in the chosen channel if there is one,
      otherwise the first hit of the scan over every cached channel. */
  function CommandLookup(args: seq<Arg>, contextChannel: ChannelId, host: HostStore): (r: LookupOutcome)
    ensures r == MissingId <==> ArgText(args, "message_id") == ""
    ensures var id := ArgText(args, "message_id"); var channel := ChosenChannel(args, contextChannel);
            id != "" && channel != "" && host.GetMessage(channel, id).Some? ==> r == Found(host.GetMessage(channel, id).value)
    ensures var id := ArgText(args, "message_id"); var channel := ChosenChannel(args, contextChannel);
            r.Found? ==> (channel != "" && host.GetMessage(channel, id) == Some(r.message))
                         || FirstHit(host, host.Channels(), id) == Some(r.message)
    ensures var id := ArgText(args, "message_id"); var channel := ChosenChannel(args, contextChannel);
            r == NotFound ==> (channel == "" || host.GetMessage(channel, id).None?)
                              && forall k :: 0 <= k < |host.Channels()| ==> host.GetMessage(host.Channels()[k], id).None?
  {
    var id := ArgText(args, "message_id");
    var channel := ChosenChannel(args, contextChannel);
    if id == "" then MissingId
    else
      var direct := if channel != "" then host.GetMessage(channel, id) else None;
      var hit := if direct.Some? then direct else FirstHit(host, host.Channels(), id);
      if hit.Some? then Found(hit.value) else NotFound
  }

  /** The lookup half of `execute`: `let message` is set by the direct lookup and then,
      if still null, by the channel scan. */
  method FindForCommand(args: seq<Arg>, contextChannel: ChannelId, host: HostStore) returns (r: LookupOutcome)
    ensures r == CommandLookup(args, contextChannel, host)
  {
    var messageIdArg := FindArg(args, "message_id");
    var channelIdArg := FindArg(args, "channel_id");
    var messageId := if messageIdArg.Some? then messageIdArg.value.value else "";
    var channelId := if channelIdArg.Some? && channelIdArg.value.value != "" then channelIdArg.value.value else contextChannel;
    if messageId == "" {
      return MissingId;
    }
    var message: Option<Message> := None;
    if channelId != "" {
      message := host.GetMessage(channelId, messageId);
    }
    if message.None? {
      message := ScanChannels(host, host.Channels(), messageId);
    }
    if message.None? {
      return NotFound;
    }
    return Found(message.value);
  }

  /** `execute`: resolve the message, then open the dialog with it. A missing id, a
      miss or a registry that is not ready leaves every dialog as it was. */
  method Execute(args: seq<Arg>, contextChannel: ChannelId, host: HostStore, registry: ModalRegistry)
      returns (outcome: LookupOutcome, shown: bool)
    modifies registry.visibleSetter, registry.currentSetter
    ensures outcome == CommandLookup(args, contextChannel, host)
    ensures shown <==> outcome.Found? && registry.Ready()
    ensures shown ==> registry.currentSetter.message == Some(outcome.message) && registry.visibleSetter.visible
    ensures shown ==> registry.currentSetter.newContent
                        == Shown(registry.currentSetter.store.Edits(), outcome.message.id, outcome.message.content)
    ensures !shown ==> (registry.visibleSetter == null || unchanged(registry.visibleSetter))
                                && (registry.currentSetter == null || unchanged(registry.currentSetter))
  {
    outcome := FindForCommand(args, contextChannel, host);
    shown := false;
    if outcome.Found? {
      shown := registry.ShowEditModal(outcome.message);
    }
  }

  /** With `_channelMessages` missing there is nothing to scan: a direct miss, or no
      channel at all, is NotFound. */
  lemma NoChannelCacheMissNotFound(args: seq<Arg>, contextChannel: ChannelId, host: HostStore)
    requires host.channelKeys.None? && ArgText(args, "message_id") != ""
    requires ChosenChannel(args, contextChannel) == ""
             || host.GetMessage(ChosenChannel(args, contextChannel), ArgText(args, "message_id")).None?
    ensures CommandLookup(args, contextChannel, host) == NotFound
  {
  }

  /** A message cached in any channel is found even when the chosen channel misses. */
  lemma CommandFallbackFinds(args: seq<Arg>, contextChannel: ChannelId, host: HostStore, k: nat)
    requires ArgText(args, "message_id") != ""
    requires k < |host.Channels()| && host.GetMessage(host.Channels()[k], ArgText(args, "message_id")).Some?
    ensures CommandLookup(args, contextChannel, host).Found?
  {
  }
}
