/** The settings page (src/components/SettingsPage.tsx): look a message up by id and
    optional channel and open the dialog, clear an override from the list, and the
    list of edited ids itself. */
module Settings {
  import opened Prelude
  import opened Overrides
  import opened Storage
  import opened Dialog
  import opened Registry
  import opened Host
  import opened Command

  /** The characters String.prototype.trim removes: ECMAScript WhiteSpace and LineTerminator. */
  predicate IsJsWhitespace(c: char) {
    || c == '\U{0009}' || c == '\U{000A}' || c == '\U{000B}' || c == '\U{000C}' || c == '\U{000D}'
    || c == '\U{0020}' || c == '\U{00A0}' || c == '\U{1680}' || ('\U{2000}' <= c <= '\U{200A}')
    || c == '\U{2028}' || c == '\U{2029}' || c == '\U{202F}' || c == '\U{205F}' || c == '\U{3000}'
    || c == '\U{FEFF}'
  }

  /** The leading-whitespace half of String.prototype.trim. */
  function TrimStart(s: string): (t: string)
    ensures |t| <= |s| && t == s[|s| - |t|..]
    ensures forall i :: 0 <= i < |s| - |t| ==> IsJsWhitespace(s[i])
    ensures t != [] ==> !IsJsWhitespace(t[0])
  {
    if s == [] || !IsJsWhitespace(s[0]) then s else TrimStart(s[1..])
  }

  /** The trailing-whitespace half of String.prototype.trim. */
  function TrimEnd(s: string): (t: string)
    ensures |t| <= |s| && t == s[..|t|]
    ensures forall i :: |t| <= i < |s| ==> IsJsWhitespace(s[i])
    ensures t != [] ==> !IsJsWhitespace(t[|t| - 1])
  {
    if s == [] || !IsJsWhitespace(s[|s| - 1]) then s else TrimEnd(s[..|s| - 1])
  }

  /** `s.trim()` */
  function Trim(s: string): string {
    TrimEnd(TrimStart(s))
  }

  /** Every character is whitespace. */
  predicate Blank(s: string) {
    forall i :: 0 <= i < |s| ==> IsJsWhitespace(s[i])
  }

  /** `!s.trim()` holds exactly when every character of `s` is whitespace. */
  lemma TrimEmptyIffBlank(s: string)
    ensures Trim(s) == "" <==> Blank(s)
  {
  }

  /** What handleEditMessage resolves. The blank tests use the trimmed inputs, the
      lookups the inputs as typed. A non-blank channel gets a direct lookup only;
      a blank one gets the scan over every cached channel. */
  function SettingsLookup(messageId: MessageId, channelId: ChannelId, host: HostStore): (r: LookupOutcome)
    ensures r == MissingId <==> Blank(messageId)
    ensures !Blank(messageId) && !Blank(channelId) ==>
              r == (if host.GetMessage(channelId, messageId).Some? then Found(host.GetMessage(channelId, messageId).value) else NotFound)
    ensures !Blank(messageId) && Blank(channelId) ==>
              r == (if FirstHit(host, host.Channels(), messageId).Some? then Found(FirstHit(host, host.Channels(), messageId).value) else NotFound)
  {
    if Blank(messageId) then MissingId
    else
      var hit := if !Blank(channelId) then host.GetMessage(channelId, messageId)
                 else FirstHit(host, host.Channels(), messageId);
      if hit.Some? then Found(hit.value) else NotFound
  }

  /** The lookup half of handleEditMessage. */
  method FindForSettings(messageId: MessageId, channelId: ChannelId, host: HostStore) returns (r: LookupOutcome)
    ensures r == SettingsLookup(messageId, channelId, host)
  {
    TrimEmptyIffBlank(messageId);
    TrimEmptyIffBlank(channelId);
    if Trim(messageId) == "" {
      return MissingId;
    }
    var message: Option<Message> := None;
    if Trim(channelId) != "" {
      message := host.GetMessage(channelId, messageId);
    } else {
      message := ScanChannels(host, host.Channels(), messageId);
    }
    if message.None? {
      return NotFound;
    }
    return Found(message.value);
  }

  /** The ids listed under "Currently Edited Messages": `Object.keys(storage.edits || {})`. */
  function EditedIds(edits: Option<Edits>): (ids: set<MessageId>)
    ensures forall id :: id in ids <==> Has(edits, id)
  {
    if edits.Some? then edits.value.Keys else {}
  }

  class SettingsPage {
    /** `const { setModalVisible, setCurrentMessage } = utilsModule;` runs once, when the
        module is evaluated: these are the values the registry held at that moment. */
    const visibleSnapshot: EditDialog?
    const currentSnapshot: EditDialog?
    const store: PluginStorage
    var refresh: nat

    constructor Load(registry: ModalRegistry, store: PluginStorage)
      ensures visibleSnapshot == registry.visibleSetter && currentSnapshot == registry.currentSetter
      ensures this.store == store && refresh == 0
    {
      visibleSnapshot := registry.visibleSetter;
      currentSnapshot := registry.currentSetter;
      this.store := store;
      refresh := 0;
    }

    /** handleEditMessage as written: it opens the dialog through the setters captured
        at module load, whatever the registry holds now. */
    method HandleEditMessage(messageId: MessageId, channelId: ChannelId, host: HostStore)
        returns (outcome: LookupOutcome, shown: bool)
      modifies visibleSnapshot, currentSnapshot
      ensures outcome == SettingsLookup(messageId, channelId, host)
      ensures shown <==> outcome.Found? && visibleSnapshot != null && currentSnapshot != null
      ensures shown ==> currentSnapshot.message == Some(outcome.message) && visibleSnapshot.visible
      ensures shown ==> currentSnapshot.newContent
                          == Shown(currentSnapshot.store.Edits(), outcome.message.id, outcome.message.content)
      ensures !shown ==> (visibleSnapshot == null || unchanged(visibleSnapshot))
                         && (currentSnapshot == null || unchanged(currentSnapshot))
    {
      outcome := FindForSettings(messageId, channelId, host);
      shown := false;
      if outcome.Found? && currentSnapshot != null && visibleSnapshot != null {
        currentSnapshot.SetCurrent(Some(outcome.message));
        visibleSnapshot.SetVisible(true);
        shown := true;
      }
    }

    /** handleEditMessage as evidently intended: the setters are read from the registry
        when the button is pressed. */
    method HandleEditMessageLive(messageId: MessageId, channelId: ChannelId, host: HostStore, registry: ModalRegistry)
        returns (outcome: LookupOutcome, shown: bool)
      modifies registry.visibleSetter, registry.currentSetter
      ensures outcome == SettingsLookup(messageId, channelId, host)
      ensures shown <==> outcome.Found? && registry.Ready()
      ensures shown ==> registry.currentSetter.message == Some(outcome.message) && registry.visibleSetter.visible
      ensures shown ==> registry.currentSetter.newContent
                          == Shown(registry.currentSetter.store.Edits(), outcome.message.id, outcome.message.content)
      ensures !shown ==> (registry.visibleSetter == null || unchanged(registry.visibleSetter))
                         && (registry.currentSetter == null || unchanged(registry.currentSetter))
    {
      outcome := FindForSettings(messageId, channelId, host);
      shown := false;
      if outcome.Found? && registry.currentSetter != null && registry.visibleSetter != null {
        registry.currentSetter.SetCurrent(Some(outcome.message));
        registry.visibleSetter.SetVisible(true);
        shown := true;
      }
    }

    /** handleClearEdit: forget one override and bump the re-render counter by one. */
    method HandleClearEdit(id: MessageId)
      modifies this`refresh, store.edits
      ensures store.Edits() == Remove(old(store.Edits()), id)
      ensures refresh == old(refresh) + 1
    {
      store.ClearEdit(id);
      refresh := refresh + 1;
    }

    /** The listed ids and the count shown beside them. */
    function EditedMessages(): (ids: set<MessageId>)
      reads store, store.edits
      ensures forall id :: id in ids <==> store.HasEdit(id)
    {
      EditedIds(store.Edits())
    }
  }

  /** The page module is evaluated when the plugin loads, before the dialog has mounted
      and registered. A message that exists is then found, yet the dialog never opens. */
  method SnapshotTakenAtLoad() returns (outcome: LookupOutcome, shown: bool, rendered: bool)
    ensures outcome.Found? && !shown && !rendered
  {
    var m := Message("99", "20", "orig", map[]);
    var host := HostStore(map[("20", "99") := m], Some(["20"]));
    var registry := new ModalRegistry();
    var store := new PluginStorage.Empty();
    store.InitStorage();
    var page := new SettingsPage.Load(registry, store);
    var cache := new MessageCache(host);
    var dialog := new EditDialog(store, cache, Modular);
    registry.Register(dialog, dialog);
    assert !Blank("99") by { assert !IsJsWhitespace("99"[0]); }
    assert !Blank("20") by { assert !IsJsWhitespace("20"[0]); }
    outcome, shown := page.HandleEditMessage("99", "20", host);
    rendered := dialog.Rendered();
  }

  /** The same sequence with the setters read when the button is pressed opens the
      dialog on the message, prefilled with its content. */
  method LiveSettersOpen() returns (outcome: LookupOutcome, shown: bool, rendered: bool, prefill: string)
    ensures outcome.Found? && shown && rendered && prefill == "orig"
  {
    var m := Message("99", "20", "orig", map[]);
    var host := HostStore(map[("20", "99") := m], Some(["20"]));
    var registry := new ModalRegistry();
    var store := new PluginStorage.Empty();
    store.InitStorage();
    var page := new SettingsPage.Load(registry, store);
    var cache := new MessageCache(host);
    var dialog := new EditDialog(store, cache, Modular);
    registry.Register(dialog, dialog);
    assert !Blank("99") by { assert !IsJsWhitespace("99"[0]); }
    assert !Blank("20") by { assert !IsJsWhitespace("20"[0]); }
    outcome, shown := page.HandleEditMessageLive("99", "20", host, registry);
    rendered := dialog.Rendered();
    prefill := dialog.newContent;
  }

  /** Whatever the settings page finds, the /edit command given the same two values
      finds too; with a non-blank channel it finds the same message. */
  lemma CommandFindsWhatSettingsFinds(messageId: MessageId, channelId: ChannelId, contextChannel: ChannelId, host: HostStore)
    requires SettingsLookup(messageId, channelId, host).Found?
    ensures CommandLookup([Arg("message_id", messageId), Arg("channel_id", channelId)], contextChannel, host).Found?
    ensures !Blank(channelId) ==>
              CommandLookup([Arg("message_id", messageId), Arg("channel_id", channelId)], contextChannel, host)
              == SettingsLookup(messageId, channelId, host)
  {
    var args := [Arg("message_id", messageId), Arg("channel_id", channelId)];
    assert ArgText(args, "message_id") == messageId;
    assert ArgText(args, "channel_id") == channelId by {
      assert "message_id"[0] != "channel_id"[0];
      assert args[1..] == [Arg("channel_id", channelId)];
      assert FindArg(args[1..], "channel_id") == Some(Arg("channel_id", channelId));
      assert FindArg(args, "channel_id") == FindArg(args[1..], "channel_id");
    }
    assert messageId != "";
    if !Blank(channelId) {
      assert channelId != "";
    }
  }
}
