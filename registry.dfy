/** The module-level setter registry of src/utils.tsx (and the equivalent module
    variables of src/index.tsx): the dialog's `setModalVisible` and
    `setCurrentMessage` setters, each stood for by the dialog it belongs to;
    null until a dialog registers. */
module Registry {
  import opened Prelude
  import opened Overrides
  import opened Storage
  import opened Host
  import opened Dialog

  class ModalRegistry {
    var visibleSetter: EditDialog?
    var currentSetter: EditDialog?

    /** `export let setModalVisible = null; export let setCurrentMessage = null;` */
    constructor ()
      ensures visibleSetter == null && currentSetter == null
    {
      visibleSetter := null;
      currentSetter := null;
    }

    predicate Ready()
      reads this
    {
      visibleSetter != null && currentSetter != null
    }

    /** registerModalState: the latest registration replaces any earlier one. */
    method Register(v: EditDialog?, c: EditDialog?)
      modifies this
      ensures visibleSetter == v && currentSetter == c
    {
      visibleSetter := v;
      currentSetter := c;
    }

    /** unregisterModalState */
    method Unregister()
      modifies this
      ensures visibleSetter == null && currentSetter == null && !Ready()
    {
      visibleSetter := null;
      currentSetter := null;
    }

    /** showEditModal: when both setters are registered, load the message and then
        show the dialog; otherwise call neither (the source reports an error toast). */
    method ShowEditModal(m: Message) returns (shown: bool)
      modifies visibleSetter, currentSetter
      ensures shown == Ready()
      ensures shown ==>
                && currentSetter.message == Some(m)
                && currentSetter.newContent == Shown(currentSetter.store.Edits(), m.id, m.content)
                && visibleSetter.visible
                && (currentSetter != visibleSetter ==> currentSetter.visible == old(currentSetter.visible))
                && (currentSetter != visibleSetter ==> unchanged(visibleSetter`message, visibleSetter`newContent))
                && currentSetter.store.Edits() == old(currentSetter.store.Edits())
      ensures !shown ==> (visibleSetter == null || unchanged(visibleSetter)) && (currentSetter == null || unchanged(currentSetter))
    {
      if currentSetter != null && visibleSetter != null {
        currentSetter.SetCurrent(Some(m));
        visibleSetter.SetVisible(true);
        shown := true;
      } else {
        shown := false;
      }
    }
  }

  /** Two dialogs register one after the other: showEditModal opens only the later
      one, and once it unregisters nothing opens at all. */
  method SingleDialog(m: Message) returns (firstRendered: bool, secondRendered: bool, afterUnregister: bool)
    ensures !firstRendered && secondRendered && !afterUnregister
  {
    var store := new PluginStorage.Empty();
    store.InitStorage();
    var cache := new MessageCache(HostStore(map[], None));
    var first := new EditDialog(store, cache, Modular);
    var second := new EditDialog(store, cache, Modular);
    var registry := new ModalRegistry();
    registry.Register(first, first);
    registry.Register(second, second);
    var shown := registry.ShowEditModal(m);
    firstRendered := first.Rendered();
    secondRendered := second.Rendered();
    second.HandleClose();
    registry.Unregister();
    afterUnregister := registry.ShowEditModal(m);
  }
}
