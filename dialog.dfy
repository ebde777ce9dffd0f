/** The edit dialog: its three state fields `visible`, `message` and `newContent`,
    and the handlers that step them. One class serves both revisions: the modular
    src/components/EditModal.tsx (in-place store, MESSAGE_UPDATE dispatched to the
    host's message cache) and the dialog bundled in src/index.tsx (copy-on-write
    store, no dispatch; reads go through the overlay of module Overlay). */
module Dialog {
  import opened Prelude
  import opened Overrides
  import opened Storage
  import opened Host
  import opened Overlay

  datatype Revision = Modular | Bundled

  class EditDialog {
    const store: PluginStorage
    const cache: MessageCache
    const revision: Revision
    var visible: bool
    var message: Option<Message>
    var newContent: string

    /** The component's initial state: hidden, no message, empty text. */
    constructor (store: PluginStorage, cache: MessageCache, revision: Revision)
      ensures this.store == store && this.cache == cache && this.revision == revision
      ensures !visible && message == None && newContent == ""
    {
      this.store := store;
      this.cache := cache;
      this.revision := revision;
      visible := false;
      message := None;
      newContent := "";
    }

    /** Whether anything is rendered (`if (!visible || !message) return null`). */
    predicate Rendered()
      reads this
    {
      visible && message.Some?
    }

    /** Whether the Clear button is offered: only while rendered, and only for a
        message that has an override (an empty override included). */
    predicate ClearOffered()
      reads this, store, store.edits
      ensures ClearOffered() <==> Rendered() && Has(store.Edits(), message.value.id)
    {
      Rendered() && store.HasEdit(message.value.id)
    }

    /** The setter registered as setCurrentMessage: load the message and prefill the
        text field with its override, or its content when there is none (or it is empty). */
    method SetCurrent(msg: Option<Message>)
      modifies this`message, this`newContent
      ensures message == msg
      ensures msg.Some? ==> newContent == Shown(store.Edits(), msg.value.id, msg.value.content)
      ensures msg.None? ==> newContent == old(newContent)
    {
      message := msg;
      if msg.Some? {
        var override := store.GetEdit(msg.value.id);
        newContent := if override.Some? && override.value != "" then override.value else msg.value.content;
      }
    }

    /** The setter registered as setModalVisible. */
    method SetVisible(v: bool)
      modifies this`visible
      ensures visible == v
    {
      visible := v;
    }

    /** onChangeText of the text field. */
    method ChangeText(text: string)
      modifies this`newContent
      ensures newContent == text
    {
      newContent := text;
    }

    /** handleSave: store the text for the loaded message, close. The modular dialog
        writes into the table it finds and then pushes the edited message into the
        host's cache; the bundled one installs a fresh table and leaves the cache. */
    method HandleSave()
      modifies this, store, store.edits, cache
      ensures store.edits == old(store.edits) || fresh(store.edits)
      ensures store.messageIdInput == old(store.messageIdInput)
      ensures old(message).None? ==> unchanged(this, cache) && store.edits == old(store.edits) && store.Edits() == old(store.Edits())
      ensures old(message).Some? ==>
                && store.Edits() == Some(Put(old(store.Edits()), old(message).value.id, old(newContent)))
                && !visible && message == None && newContent == old(newContent)
      ensures old(message).Some? && revision == Modular ==>
                && (old(store.edits) != null ==> store.edits == old(store.edits))
                && (old(store.edits) == null ==> fresh(store.edits))
                && cache.contents == old(cache.contents).Updated(old(message).value.(content := old(newContent)))
      ensures old(message).Some? && revision == Bundled ==>
                && fresh(store.edits)
                && (old(store.edits) != null ==> old(store.edits).entries == old(store.edits.entries))
                && cache.contents == old(cache.contents)
    {
      if message.None? {
        return;
      }
      var m := message.value;
      if revision == Modular {
        store.SetEdit(m.id, newContent);
        cache.DispatchUpdate(m.(content := newContent));
      } else {
        store.SetEditCopying(m.id, newContent);
      }
      visible := false;
      message := None;
    }

    /** handleClear: forget the loaded message's override, close. The modular dialog
        deletes from the table it finds and pushes the loaded message, with its own
        content, into the host's cache; the bundled one installs a fresh table. */
    method HandleClear()
      modifies this, store, store.edits, cache
      ensures store.edits == old(store.edits) || fresh(store.edits)
      ensures store.messageIdInput == old(store.messageIdInput)
      ensures old(message).None? ==> unchanged(this, cache) && store.edits == old(store.edits) && store.Edits() == old(store.Edits())
      ensures old(message).Some? ==>
                && store.Edits() == Remove(old(store.Edits()), old(message).value.id)
                && !visible && message == None && newContent == old(newContent)
      ensures old(message).Some? && revision == Modular ==>
                && store.edits == old(store.edits)
                && cache.contents == old(cache.contents).Updated(old(message).value)
      ensures old(message).Some? && revision == Bundled ==>
                && (old(store.edits) == null ==> store.edits == null)
                && (old(store.edits) != null ==> fresh(store.edits) && old(store.edits).entries == old(store.edits.entries))
                && cache.contents == old(cache.contents)
    {
      if message.None? {
        return;
      }
      var m := message.value;
      if revision == Modular {
        store.ClearEdit(m.id);
        cache.DispatchUpdate(m.(content := m.content));
      } else {
        store.ClearEditCopying(m.id);
      }
      visible := false;
      message := None;
    }

    /** handleClose: hide and unload; the store is not touched. */
    method HandleClose()
      modifies this`visible, this`message
      ensures !visible && message == None && !Rendered()
    {
      visible := false;
      message := None;
    }
  }

  /** The dialog renders once a message is loaded and it is made visible, and not
      before; each of Save, Clear and Close takes it off the screen. */
  method RenderedOnlyWhileOpen(m: Message, text: string, revision: Revision)
      returns (loadedOnly: bool, onOpen: bool, afterSave: bool, afterClear: bool, afterClose: bool)
    ensures !loadedOnly && onOpen
    ensures !afterSave && !afterClear && !afterClose
  {
    var store := new PluginStorage.Empty();
    store.InitStorage();
    var cache := new MessageCache(HostStore(map[(m.channelId, m.id) := m], Some([m.channelId])));
    var dialog := new EditDialog(store, cache, revision);
    dialog.SetCurrent(Some(m));
    loadedOnly := dialog.Rendered();
    dialog.SetVisible(true);
    onOpen := dialog.Rendered();
    dialog.ChangeText(text);
    dialog.HandleSave();
    afterSave := dialog.Rendered();
    dialog.SetCurrent(Some(m));
    dialog.SetVisible(true);
    dialog.HandleClear();
    afterClear := dialog.Rendered();
    dialog.SetCurrent(Some(m));
    dialog.SetVisible(true);
    dialog.HandleClose();
    afterClose := dialog.Rendered();
  }

  /** Open a message, with or without an override already saved: Clear is offered
      exactly when one exists. After Clear, and after reopening, it is not. */
  method ClearButtonFollowsOverride(m: Message, saved: Option<string>, revision: Revision)
      returns (offeredOnOpen: bool, offeredAfterClear: bool, offeredOnReopen: bool)
    ensures offeredOnOpen <==> saved.Some?
    ensures !offeredAfterClear && !offeredOnReopen
  {
    var store := new PluginStorage.Empty();
    store.InitStorage();
    if saved.Some? && revision == Modular {
      store.SetEdit(m.id, saved.value);
    } else if saved.Some? {
      store.SetEditCopying(m.id, saved.value);
    }
    var cache := new MessageCache(HostStore(map[(m.channelId, m.id) := m], Some([m.channelId])));
    var dialog := new EditDialog(store, cache, revision);
    dialog.SetCurrent(Some(m));
    dialog.SetVisible(true);
    offeredOnOpen := dialog.ClearOffered();
    dialog.HandleClear();
    offeredAfterClear := dialog.ClearOffered();
    dialog.SetCurrent(Some(m));
    dialog.SetVisible(true);
    offeredOnReopen := dialog.ClearOffered();
  }

  /** The modular dialog, as written. Every way of reopening fetches the host's cached
      copy of the message. Saving pushed the edited text into that copy, so Clear
      dispatches the edited text back, and the original content is gone from the cache. */
  method ModularClearKeepsEdit(m: Message, text: string) returns (afterSave: string, readAfterClear: Option<Message>)
    ensures afterSave == text
    ensures readAfterClear == Some(m.(content := text))
    ensures text != m.content ==> readAfterClear != Some(m)
  {
    var store := new PluginStorage.Empty();
    store.InitStorage();
    var cache := new MessageCache(HostStore(map[(m.channelId, m.id) := m], Some([m.channelId])));
    var dialog := new EditDialog(store, cache, Modular);
    dialog.SetCurrent(cache.contents.GetMessage(m.channelId, m.id));
    dialog.SetVisible(true);
    dialog.ChangeText(text);
    dialog.HandleSave();
    dialog.SetCurrent(cache.contents.GetMessage(m.channelId, m.id));
    dialog.SetVisible(true);
    afterSave := dialog.newContent;
    dialog.HandleClear();
    readAfterClear := cache.contents.GetMessage(m.channelId, m.id);
    if text != m.content {
      assert readAfterClear.value.content != m.content;
    }
  }

  /** The same sequence with the bundled dialog, whose reads go through the overlay and
      whose handlers leave the host's cache alone: reopening after a save prefills the
      saved text (the original content when that is empty), and after a clear the read
      is the host's original message and the prefill its original content. */
  method BundledClearRestores(m: Message, text: string) returns (afterSave: string, afterClear: string, readAfterClear: Option<Message>)
    ensures afterSave == if text == "" then m.content else text
    ensures afterClear == m.content
    ensures readAfterClear == Some(m)
  {
    var store := new PluginStorage.Empty();
    store.InitEdits();
    var cache := new MessageCache(HostStore(map[(m.channelId, m.id) := m], Some([m.channelId])));
    var dialog := new EditDialog(store, cache, Bundled);
    dialog.SetCurrent(OverlayMessage(store.Edits(), cache.contents.GetMessage(m.channelId, m.id)));
    dialog.SetVisible(true);
    dialog.ChangeText(text);
    dialog.HandleSave();
    dialog.SetCurrent(OverlayMessage(store.Edits(), cache.contents.GetMessage(m.channelId, m.id)));
    dialog.SetVisible(true);
    afterSave := dialog.newContent;
    dialog.HandleClear();
    readAfterClear := OverlayMessage(store.Edits(), cache.contents.GetMessage(m.channelId, m.id));
    dialog.SetCurrent(readAfterClear);
    afterClear := dialog.newContent;
  }
}
