/** The plugin object of src/index.tsx: the list of installed patches' undo actions
    and the module-level dialog setters, both cleared by onUnload. */
module Plugin {
  import opened Registry

  /** The undo action `after`/`before` returned for one patch. Calling it may throw;
      a call that throws is taken to leave its patch installed. */
  class Unpatcher {
    const throws: bool
    var installed: bool
    var calls: nat

    constructor (throws: bool)
      ensures this.throws == throws && installed && calls == 0
    {
      this.throws := throws;
      installed := true;
      calls := 0;
    }

    method Call() returns (threw: bool)
      modifies this
      ensures calls == old(calls) + 1
      ensures threw == throws
      ensures installed == (old(installed) && throws)
    {
      calls := calls + 1;
      threw := throws;
      if !throws {
        installed := false;
      }
    }
  }

  class PluginInstance {
    var unpatches: seq<Unpatcher>
    const registry: ModalRegistry

    /** Each undo action is tracked once. */
    ghost predicate Valid()
      reads this
    {
      forall i, j :: 0 <= i < j < |unpatches| ==> unpatches[i] != unpatches[j]
    }

    constructor (registry: ModalRegistry)
      ensures Valid() && unpatches == [] && this.registry == registry
    {
      unpatches := [];
      this.registry := registry;
    }

    /** `unpatches.push(unpatch)` after each patch onLoad installs. */
    method Track(u: Unpatcher)
      requires Valid() && u !in unpatches
      modifies this
      ensures Valid() && unpatches == old(unpatches) + [u]
    {
      unpatches := unpatches + [u];
    }

    /** onUnload: call every undo action once, each in its own try/catch so that one
        throwing does not stop the rest; then empty the list and null both setters. */
    method OnUnload()
      requires Valid()
      modifies this, registry, unpatches
      ensures Valid() && unpatches == []
      ensures registry.visibleSetter == null && registry.currentSetter == null
      ensures forall u :: u in old(unpatches) ==>
                u.calls == old(u.calls) + 1 && u.installed == (old(u.installed) && u.throws)
    {
      var i := 0;
      while i < |unpatches|
        invariant 0 <= i <= |unpatches| && unpatches == old(unpatches)
        invariant forall k :: 0 <= k < i ==>
                    unpatches[k].calls == old(unpatches[k].calls) + 1
                    && unpatches[k].installed == (old(unpatches[k].installed) && unpatches[k].throws)
        invariant forall k :: i <= k < |unpatches| ==>
                    unpatches[k].calls == old(unpatches[k].calls) && unpatches[k].installed == old(unpatches[k].installed)
      {
        var threw := unpatches[i].Call();
        i := i + 1;
      }
      unpatches := [];
      registry.Unregister();
    }
  }
}
