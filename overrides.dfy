/** The override map as a value: message id to replacement text, absent (None)
    until the plugin first creates it. Both store revisions (the in-place one of
    src/storage.tsx and the copy-on-write one of src/index.tsx) change this value
    in exactly the same way; the class in module Storage ties them to it. */
module Overrides {
  import opened Prelude

  type Edits = map<MessageId, string>

  /** hasEdit: key presence, so an empty replacement text still counts. */
  predicate Has(edits: Option<Edits>, id: MessageId) {
    edits.Some? && id in edits.value
  }

  /** getEdit: the stored replacement, or None for undefined. */
  function Get(edits: Option<Edits>, id: MessageId): Option<string> {
    if Has(edits, id) then Some(edits.value[id]) else None
  }

  /** The map setEdit leaves behind: created when absent, then written at `id`. */
  function Put(edits: Option<Edits>, id: MessageId, text: string): (r: Edits)
    ensures Get(Some(r), id) == Some(text)
    ensures forall k :: k != id ==> Get(Some(r), k) == Get(edits, k)
    ensures edits.Some? ==> r.Keys == edits.value.Keys + {id}
    ensures edits.None? ==> r.Keys == {id}
  {
    (if edits.Some? then edits.value else map[])[id := text]
  }

  /** The map clearEdit leaves behind: `id` deleted; nothing happens to an absent map. */
  function Remove(edits: Option<Edits>, id: MessageId): (r: Option<Edits>)
    ensures r.Some? <==> edits.Some?
    ensures !Has(r, id) && Get(r, id) == None
    ensures forall k :: k != id ==> Get(r, k) == Get(edits, k)
    ensures !Has(edits, id) ==> r == edits
    ensures r.Some? ==> r.value.Keys == edits.value.Keys - {id}
  {
    if edits.None? then None
    else
      var rest := edits.value - {id};
      assert id !in edits.value ==> rest == edits.value;
      Some(rest)
  }

  /** The text shown for a message: `getEdit(id) || content`. An empty replacement
      is falsy in JavaScript, so it falls back to the original text. */
  function Shown(edits: Option<Edits>, id: MessageId, content: string): (s: string)
    ensures s == content || Get(edits, id) == Some(s)
    ensures !Has(edits, id) ==> s == content
    ensures Has(edits, id) && edits.value[id] != "" ==> s == edits.value[id]
    ensures s == "" ==> content == ""
  {
    match Get(edits, id)
    case Some(t) => if t != "" then t else content
    case None => content
  }

  /** Reopening after a save shows the saved text, unless it was empty. */
  lemma ShownAfterPut(edits: Option<Edits>, id: MessageId, text: string, content: string)
    ensures Shown(Some(Put(edits, id, text)), id, content) == if text == "" then content else text
  {
  }

  /** Reopening after a clear shows the original text again. */
  lemma ShownAfterRemove(edits: Option<Edits>, id: MessageId, content: string)
    ensures Shown(Remove(edits, id), id, content) == content
  {
  }

  /** Clearing twice is clearing once. */
  lemma RemoveIdempotent(edits: Option<Edits>, id: MessageId)
    ensures Remove(Remove(edits, id), id) == Remove(edits, id)
  {
  }

  /** A save followed by a clear of the same id forgets the save. */
  lemma RemoveAfterPut(edits: Option<Edits>, id: MessageId, text: string)
    ensures forall k :: Get(Remove(Some(Put(edits, id, text)), id), k) == Get(Remove(edits, id), k)
  {
  }
}
