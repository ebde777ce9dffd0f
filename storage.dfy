/** The plugin's persisted `storage` object and its override table.
    The table is an object of its own so that the two revisions can be told apart:
    src/storage.tsx writes into the table it finds, src/index.tsx installs a fresh
    copy on every write and leaves the previous table as it was. */
module Storage {
  import opened Prelude
  import opened Overrides

  /** The `storage.edits` object: message id to replacement text. */
  class EditsTable {
    var entries: Edits

    constructor ()
      ensures entries == map[]
    {
      entries := map[];
    }

    constructor Copy(entries: Edits)
      ensures this.entries == entries
    {
      this.entries := entries;
    }
  }

  /** The host-persisted plugin storage; `edits == null` is the absent map. */
  class PluginStorage {
    var edits: EditsTable?
    var messageIdInput: Option<string>

    constructor Empty()
      ensures edits == null && messageIdInput == None
    {
      edits := null;
      messageIdInput := None;
    }

    /** The override map as a value. */
    function Edits(): Option<Edits>
      reads this, edits
    {
      if edits == null then None else Some(edits.entries)
    }

    /** Both fields exist (what initStorage establishes). */
    predicate Initialized()
      reads this
    {
      edits != null && messageIdInput.Some?
    }

    /** initStorage (storage.tsx): create the missing fields, keep what exists. */
    method InitStorage()
      modifies this
      ensures Initialized()
      ensures old(edits) != null ==> edits == old(edits)
      ensures old(edits) == null ==> fresh(edits)
      ensures Edits() == Some(if old(Edits()).Some? then old(Edits()).value else map[])
      ensures messageIdInput == Some(if old(messageIdInput).Some? then old(messageIdInput).value else "")
      ensures old(Initialized()) ==> unchanged(this)
    {
      if edits == null {
        edits := new EditsTable();
      }
      if messageIdInput.None? || messageIdInput.value == "" {
        messageIdInput := Some("");
      }
    }

    /** initStorage (index.tsx): only the `edits` field is created. */
    method InitEdits()
      modifies this
      ensures edits != null && messageIdInput == old(messageIdInput)
      ensures old(edits) != null ==> unchanged(this)
      ensures old(edits) == null ==> fresh(edits) && Edits() == Some(map[])
    {
      if edits == null {
        edits := new EditsTable();
      }
    }

    /** getEdit */
    function GetEdit(id: MessageId): (r: Option<string>)
      reads this, edits
      ensures r == Get(Edits(), id)
    {
      if edits != null && id in edits.entries then Some(edits.entries[id]) else None
    }

    /** hasEdit */
    predicate HasEdit(id: MessageId)
      reads this, edits
      ensures HasEdit(id) <==> Has(Edits(), id)
    {
      edits != null && id in edits.entries
    }

    /** setEdit (storage.tsx): writes into the existing table, creating it first if absent. */
    method SetEdit(id: MessageId, content: string)
      modifies this, edits
      ensures edits != null && messageIdInput == old(messageIdInput)
      ensures old(edits) != null ==> edits == old(edits)
      ensures old(edits) == null ==> fresh(edits)
      ensures Edits() == Some(Put(old(Edits()), id, content))
    {
      if edits == null {
        edits := new EditsTable();
      }
      edits.entries := edits.entries[id := content];
    }

    /** clearEdit (storage.tsx): deletes from the existing table; nothing when absent. */
    method ClearEdit(id: MessageId)
      modifies edits
      ensures Edits() == Remove(old(Edits()), id)
    {
      if edits == null {
        return;
      }
      edits.entries := edits.entries - {id};
    }

    /** setEdit (index.tsx): installs a fresh table equal to the old one written at `id`;
        whoever still holds the previous table sees it unchanged. */
    method SetEditCopying(id: MessageId, content: string)
      modifies this
      ensures fresh(edits) && messageIdInput == old(messageIdInput)
      ensures Edits() == Some(Put(old(Edits()), id, content))
      ensures old(edits) != null ==> old(edits).entries == old(edits.entries)
    {
      if edits == null {
        edits := new EditsTable();
      }
      edits := new EditsTable.Copy(edits.entries[id := content]);
    }

    /** clearEdit (index.tsx): installs a fresh table without `id`; nothing when absent. */
    method ClearEditCopying(id: MessageId)
      modifies this
      ensures old(edits) == null ==> edits == null
      ensures old(edits) != null ==> fresh(edits) && old(edits).entries == old(edits.entries)
      ensures messageIdInput == old(messageIdInput)
      ensures Edits() == Remove(old(Edits()), id)
    {
      if edits == null {
        return;
      }
      edits := new EditsTable.Copy(edits.entries - {id});
    }
  }
}
