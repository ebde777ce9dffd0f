# Local message editor: a Dafny model

This project models the logic of a chat-client plugin. The plugin lets a user
override the displayed text of a message on their own device. It has five parts:

- **Override store.** The plugin's `storage.edits` object maps a message id to its
  replacement text, and may be absent. There are two revisions.
  `src/storage.tsx` writes into the table in place. `src/index.tsx` installs a fresh
  copy on every write. Module `Overrides` gives the map's value semantics.
  Module `Storage` models the storage object, and the table is an object of its own,
  so the model can state which revision keeps the previous table intact.
- **Read overlay.** These are the `after` callbacks on the host's `getMessage` and
  `getMessages` (module `Overlay`). A message with an override comes back as a copy
  whose `content` is `getEdit(id) || content`. The copy keeps the message's other
  own enumerable properties, and the list keeps its length and order. A list found
  under `_array` comes back in a copy of the envelope that keeps its other own
  enumerable properties.
- **Edit dialog.** Module `Dialog` holds the `visible`/`message`/`newContent` state and
  the open (prefill), save, clear and close handlers. It also has the two render
  conditions: the dialog shows only with both `visible` and a message, and offers
  Clear only when the message has an override. Module `Registry` holds the
  module-level setter registry (`registerModalState`, `unregisterModalState`,
  `showEditModal`).
- **Message lookup.** The `/edit` command (module `Command`) tries the chosen channel
  directly, then scans every cached channel in key order. The settings page
  (module `Settings`) does either a direct lookup or a scan, never both. Module
  `Host` gives the host's message store and the shared first-hit scan.
- **Action-sheet row.** Module `ActionSheet` splices the "Edit Locally" row in at the
  index of the "mark unread" row, or at the top when that row is missing. The
  label says whether an override exists.
- **Unload.** Module `Plugin` models `onUnload`. It calls every undo action once,
  whether or not some of them throw. Then it empties the list and clears both
  dialog setters.

The host's message store is a map from `(channel, id)` to a message, plus the
sequence of cached channel keys. A message is a record with `id`, `channelId`,
`content` and an opaque `rest`.

Points of the source that the model follows closely:
- src/patches/actionSheet.tsx:120 labels the row "Edit Locally ✏️" when an override
  exists and "Edit Locally" otherwise. The bundled sheet of src/index.tsx:381 says
  "✏️ Edit Locally (modified)" and "📝 Edit Locally"; that sheet is left out.
- src/components/EditModal.tsx:29 prefills `getEdit(msg.id) || msg.content`, so an
  empty override shows the original text.
- handleClear (src/components/EditModal.tsx:55-57) tests only that a message is
  loaded, not that it has an override. Only the Clear button is hidden without one
  (src/components/EditModal.tsx:107).
- The command's channel defaults to the current channel
  (src/commands/edit.tsx:64). After a missed direct lookup it scans every cached
  channel (src/commands/edit.tsx:84-95).
- initStorage (src/storage.tsx:8) replaces a stored `edits` value only when it is
  falsy, so any truthy value is kept.
- The modular dialog pushes its edits into the host's message cache with
  MESSAGE_UPDATE (src/components/EditModal.tsx:42-48). The model gives the host's
  cache that effect, which is what makes the finding below visible.

## Model

| member | source | states |
|---|---|---|
| Overrides.Put | src/storage.tsx:16-19 | setEdit's map: `id` now reads back the new text, every other key reads as before, the map is created when absent |
| Overrides.Remove | src/storage.tsx:29-32 | clearEdit's map: `id` no longer present, other keys unchanged, absent map stays absent, absent key is a no-op |
| Overrides.Shown | src/index.tsx:285-289 | the shown text (`getEdit(id)` or else `content`) is the override or the original; an empty override never blanks a message |
| Overrides.ShownAfterPut | src/components/EditModal.tsx:26-52 | reopening after a save prefills the saved text, or the original when the saved text is empty |
| Overrides.ShownAfterRemove | src/components/EditModal.tsx:55-70 | reopening after a clear prefills the content of the message the dialog is opened with |
| Overrides.RemoveIdempotent | src/storage.tsx:29-32 | clearing twice equals clearing once |
| Overrides.RemoveAfterPut | src/storage.tsx:16-32 | a save then a clear of the same id reads like a clear alone |
| Storage.PluginStorage.InitStorage | src/storage.tsx:7-14 | creates `edits` and `messageIdInput` only when missing, keeps existing entries and table, is idempotent |
| Storage.PluginStorage.InitEdits | src/index.tsx:23-27 | creates an empty `edits` only when missing; leaves everything else alone |
| Storage.PluginStorage.GetEdit | src/storage.tsx:21-23 | getEdit reads the stored text, None when the key or the whole map is absent |
| Storage.PluginStorage.HasEdit | src/storage.tsx:25-27 | hasEdit is key presence (true for an empty override), false when the map is absent |
| Storage.PluginStorage.SetEdit | src/storage.tsx:16-19 | writes into the same table (created if absent); new map is Put of the old |
| Storage.PluginStorage.ClearEdit | src/storage.tsx:29-32 | deletes from the same table; new map is Remove of the old; nothing when absent |
| Storage.PluginStorage.SetEditCopying | src/index.tsx:29-35 | installs a fresh table equal to Put of the old map; the previous table is untouched |
| Storage.PluginStorage.ClearEditCopying | src/index.tsx:45-50 | installs a fresh table equal to Remove of the old map; nothing when absent |
| Overlay.OverlayMessage | src/index.tsx:281-296 | falsy result returned as is; no override (or no id) returns the same message; otherwise only `content` changes, to the shown text |
| Overlay.OverlayList | src/index.tsx:310-319 | same length and order; each slot is what the single-message overlay gives |
| Overlay.OverlayMessages | src/index.tsx:303-332 | same kind of result and envelope fields; the list found at line 308 (the result itself or its `_array`) overlaid slot by slot; a falsy or non-array result unchanged |
| Overlay.OverlayMessageIdempotent | src/index.tsx:281-296 | overlaying an overlaid message changes nothing |
| Overlay.OverlayMessagesIdempotent | src/index.tsx:303-332 | overlaying an overlaid list result changes nothing |
| Overlay.OverlayWithoutEdits | src/index.tsx:303-332 | with no `edits` map every list result comes back unchanged |
| Overlay.OverlayShowsSaved | src/index.tsx:285-289 | after a save the read shows the saved text (original if empty), every other field kept |
| Overlay.OverlayAfterClear | src/index.tsx:285-295 | after a clear the read returns the host's own message |
| Dialog.EditDialog.constructor | src/components/EditModal.tsx:21-23 | starts hidden, with no message and empty text |
| Dialog.RenderedOnlyWhileOpen | src/components/EditModal.tsx:77 | for either revision, a loaded message alone does not render; loaded and visible does; Save, Clear and Close each stop the rendering |
| Dialog.EditDialog.ClearOffered | src/components/EditModal.tsx:107-111 | Clear is offered only while rendered, for a message that has an override (an empty override included) |
| Dialog.EditDialog.SetCurrent | src/components/EditModal.tsx:26-31 | loads the message and prefills `getEdit(id)`, or `content` when that is undefined or empty; a null message leaves the text |
| Dialog.EditDialog.SetVisible | src/components/EditModal.tsx:21 | the visibility setter |
| Dialog.EditDialog.ChangeText | src/components/EditModal.tsx:90-93 | typing replaces `newContent` |
| Dialog.EditDialog.HandleSave | src/components/EditModal.tsx:38-53 | no message: nothing changes; else stores `newContent` for the id and closes; `messageIdInput` kept. Modular: writes the same table and the host's cached copy becomes the message with the new content. Bundled (src/index.tsx:148-160): a fresh table, the previous table and the host's cache untouched |
| Dialog.EditDialog.HandleClear | src/components/EditModal.tsx:55-70 | no message: nothing changes; else removes the override and closes; `messageIdInput` kept. Modular: deletes from the same table and the host's cached copy becomes the loaded message. Bundled (src/index.tsx:162-174): a fresh table (none when absent), the previous table and the host's cache untouched |
| Dialog.EditDialog.HandleClose | src/components/EditModal.tsx:72-75 | hides and unloads; the store is not in its frame |
| Dialog.ClearButtonFollowsOverride | src/components/EditModal.tsx:55-111 | for either revision, on opening Clear is offered exactly when an override is stored; after Clear and after reopening it is not |
| Dialog.ModularClearKeepsEdit | src/components/EditModal.tsx:38-70 | as written: after save, reopen from the host's cache and clear, the cache still holds the edited text, not the original |
| Dialog.BundledClearRestores | src/index.tsx:148-174 | save, reopen through the overlay prefills the saved text (the original when empty); clear, and the read and the prefill are the original again |
| Registry.ModalRegistry.constructor | src/utils.tsx:8-9 | both setters start null |
| Registry.ModalRegistry.Register | src/utils.tsx:11-14 | the latest registration replaces any earlier one |
| Registry.ModalRegistry.Unregister | src/utils.tsx:16-19 | both setters null |
| Registry.ModalRegistry.ShowEditModal | src/utils.tsx:21-28 | both setters set: message loaded and prefilled, then dialog visible; otherwise no dialog changes |
| Registry.SingleDialog | src/utils.tsx:11-28 | of two registered dialogs only the later opens; after unregistering none does |
| Host.HostStore.Updated | src/components/EditModal.tsx:42-48 | the host's MESSAGE_UPDATE handling as modelled: the cached copy of the payload's message becomes the payload, every other lookup and the channel keys are unchanged |
| Host.MessageCache.DispatchUpdate | src/components/EditModal.tsx:42-48 | `FluxDispatcher.dispatch` of MESSAGE_UPDATE: the host's cache becomes its update by the payload |
| Command.NoChannelCacheMissNotFound | src/commands/edit.tsx:86 | with `_channelMessages` missing there is nothing to scan: a direct miss (or no channel) is not found |
| Host.FirstHit | src/commands/edit.tsx:84-95 | the earliest channel in key order holding the id, or None exactly when no channel holds it |
| Host.ScanChannels | src/commands/edit.tsx:87-94 | the loop with `break` returns exactly FirstHit |
| Host.FirstHitUnique | src/commands/edit.tsx:84-95 | an id present in one channel only resolves to that channel's message |
| Command.FindArg | src/commands/edit.tsx:60-61 | `args.find` returns the first option with that name, None when there is none |
| Command.ArgText | src/commands/edit.tsx:63-64 | `?.value` of the first option with that name; "" when no option has it |
| Command.CommandLookup | src/commands/edit.tsx:63-96 | missing id iff no id; a direct hit in the chosen channel (the given one when non-empty, else the current one, line 64) wins; otherwise the scan; not found only when direct and every channel miss |
| Command.FindForCommand | src/commands/edit.tsx:60-96 | the handler's lookup computes CommandLookup |
| Command.Execute | src/commands/edit.tsx:58-118 | opens the dialog on the found message, prefilled, when the registry is ready; a missing id, a miss or a registry that is not ready leaves every dialog unchanged |
| Command.CommandFallbackFinds | src/commands/edit.tsx:84-95 | a message cached in any channel is found even when the chosen channel misses |
| Settings.TrimStart | src/components/SettingsPage.tsx:30 | drops the leading JavaScript whitespace: a suffix whose first character is not whitespace, with only whitespace before it |
| Settings.TrimEnd | src/components/SettingsPage.tsx:30 | drops the trailing JavaScript whitespace: a prefix whose last character is not whitespace, with only whitespace after it |
| Settings.TrimEmptyIffBlank | src/components/SettingsPage.tsx:38 | `!s.trim()` holds exactly when every character of `s` is whitespace |
| Settings.SettingsLookup | src/components/SettingsPage.tsx:29-55 | blank id is an error; non-blank channel: direct lookup only; blank channel: scan, first match |
| Settings.FindForSettings | src/components/SettingsPage.tsx:29-55 | the handler's lookup computes SettingsLookup |
| Settings.EditedIds | src/components/SettingsPage.tsx:69 | the listed ids are exactly the ids with an override |
| Settings.SettingsPage.Load | src/components/SettingsPage.tsx:19 | the page holds the setter values the registry had when the module was evaluated |
| Settings.SettingsPage.HandleEditMessage | src/components/SettingsPage.tsx:29-61 | as written: opens through the load-time setters when both are set; not found leaves every dialog unchanged |
| Settings.SettingsPage.HandleEditMessageLive | src/components/SettingsPage.tsx:29-61 | corrected: opens through the registry's current setters |
| Settings.SettingsPage.HandleClearEdit | src/components/SettingsPage.tsx:63-67 | removes that override and increments `refresh` by exactly one |
| Settings.SettingsPage.EditedMessages | src/components/SettingsPage.tsx:69 | the listed ids are exactly those `hasEdit` accepts |
| Settings.SnapshotTakenAtLoad | src/components/SettingsPage.tsx:19 | with the page loaded before the dialog registers, a found message never opens the dialog |
| Settings.LiveSettersOpen | src/components/SettingsPage.tsx:57-60 | with live setters the same sequence opens the dialog, prefilled |
| Settings.CommandFindsWhatSettingsFinds | src/components/SettingsPage.tsx:38-50 | the command finds whatever the settings page finds, the same message when the channel is non-blank |
| ActionSheet.FindIndex | src/patches/actionSheet.tsx:106 | the first row whose `props.message` equals the anchor, or -1 when none does |
| ActionSheet.InsertPosition | src/patches/actionSheet.tsx:106-109 | the first anchor row's index, or 0 when none; no earlier row is an anchor |
| ActionSheet.Spliced | src/patches/actionSheet.tsx:144 | one longer, the new row at the position, earlier rows kept, later rows shifted by one |
| ActionSheet.EditRowFor | src/patches/actionSheet.tsx:112-140 | no row when neither copy has content; the label is "Edit Locally ✏️" exactly when hasEdit holds and "Edit Locally" otherwise (line 120); press opens the store's copy, else the menu's |
| ActionSheet.EditRowPrecedesAnchor | src/patches/actionSheet.tsx:106-144 | the new row sits directly before the first anchor row |
| ActionSheet.InsertEditRow | src/patches/actionSheet.tsx:64-148 | inserts only for the message menu with a message, a found row list and content; the new list is the splice at the insert position |
| ActionSheet.PressEditRow | src/patches/actionSheet.tsx:136-140 | pressing opens the dialog on the row's message, prefilled, when the registry is ready; otherwise no dialog changes |
| Plugin.Unpatcher.Call | src/index.tsx:424 | one undo call; a throwing call leaves its patch installed |
| Plugin.PluginInstance.constructor | src/index.tsx:241 | no undo actions tracked |
| Plugin.PluginInstance.Track | src/index.tsx:297 | `unpatches.push`: appends one new undo action |
| Plugin.PluginInstance.OnUnload | src/index.tsx:417-439 | every tracked undo action called exactly once even if some throw; list emptied; both setters null |

## Findings

| source | as written | input that shows it | evidently intended | confidence | as-written member | corrected member |
|---|---|---|---|---|---|---|
| src/components/SettingsPage.tsx:19 | the dialog setters are copied out of the utils module once, when the page module is evaluated, and handleEditMessage (lines 57-60) tests that copy | plugin loads, then the dialog mounts and registers; the user enters message "99" with channel "20", and the host holds that message | read the setters at press time, as showEditModal in src/utils.tsx:21-28 does | not executed; medium (depends on the module being evaluated before the dialog registers) | Settings.SnapshotTakenAtLoad | Settings.SettingsPage.HandleEditMessageLive |
| src/components/EditModal.tsx:42-48 | handleSave pushes the edited text into the host's cached message; every reopen path then loads that copy (src/patches/actionSheet.tsx:112, src/commands/edit.tsx:79 and :88, src/components/SettingsPage.tsx:39 and :44), so handleClear (lines 59-65) dispatches the edited text back | message "orig" saved as "new", reopened and cleared: the host's cache still holds "new" | Clear brings the original text back, as the bundled revision does by leaving the cache alone and overlaying reads (src/index.tsx:281-296) | not executed; medium (assumes the host's MESSAGE_UPDATE handler replaces its cached copy, which is what the dispatch is for) | Dialog.ModularClearKeepsEdit | Dialog.BundledClearRestores |

## Left out

- React rendering and JSX: the `Modal`/`View`/`Pressable` trees, styles (src/styles.tsx), and the Fragment-wrapping action-sheet patch of src/index.tsx:337-399 with its labels. Only handler logic and state fields are modelled.
- Host discovery and patching machinery (`findByProps`, `findByStoreName`, `findInReactTree`, `before`/`after`). It is foreign code. The overlay callbacks are plain functions. The found row array is a parameter, null when the search fails.
- onLoad's installation of the patches (src/index.tsx:257-415) is not modelled beyond `Plugin.PluginInstance.Track`.
- The index.tsx dialog's setters (src/index.tsx:133-146) are separate module variables (src/index.tsx:122, :124), modelled by the same registry class as those of src/utils.tsx. Its `showEditModal` (src/index.tsx:218-238) is `Registry.ModalRegistry.ShowEditModal` without the 100 ms `setTimeout` retry, because timers are not modelled.
- Asynchrony: the `component.then(...)` promise and the after patch's self-unpatch on unmount (src/patches/actionSheet.tsx:76-83). `ActionSheet.InsertEditRow` folds the openLazy-time guard and the render-time splice into one step.
- Side channels: toasts, `console.*`, `ClydeUtils.sendBotMessage`, and `LazyActionSheet.hideActionSheet()` before the dialog opens (src/patches/actionSheet.tsx:138). `FluxDispatcher.dispatch` is modelled only for MESSAGE_UPDATE and only through its effect on the host's message cache.
- Overlay.OverlayMessage / Overlay.OverlayMessages: `rest` and `fields` stand for the own enumerable properties only. The source's spreads (src/index.tsx:286-289, 313-316, 323) build plain objects, which lose the host object's prototype, methods, getters and non-enumerable properties; the model cannot show that loss.
- Host.HostStore.Updated: the host's MESSAGE_UPDATE handler is foreign code. The model assumes it replaces the cached copy of a cached message and ignores any other.
- Host persistence of `storage`: the store is an in-memory object.
- The command's registration descriptor and API probing (src/commands/edit.tsx:16-57, 132-145) and the `async` wrapper.
- Exceptions: no model operation can throw, because `edits` is either a map or absent. The try/catch fallbacks are therefore unreachable. Host failures (missing MessageStore, null `ctx.channel`) are not modelled.
- JavaScript objects inherit prototype keys, so `in` and `?.[]` also answer for names like "constructor". The model's map does not. Message ids are numeric strings.
- Values are strings. An undefined command option value is written as "", which is just as falsy. Non-string contents and undefined `content` are not modelled.
- React state updates apply at once. They are not batched until the next render.
- The unused module variables `modalVisible` and `currentMessage` (src/index.tsx:121-123) are not modelled.
- Plugin.Unpatcher.Call: the source does not say what a throwing undo action leaves behind. The model assumes its patch stays installed.
- Settings.SettingsPage.EditedMessages: returns the set of ids, not the `Object.keys` order in which they are listed. The shown count is the set's size.
