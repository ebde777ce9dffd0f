/** The read overlay of src/index.tsx: the `after` callbacks installed on the host's
    getMessage and getMessages. They never change a host object; a message with an
    override comes back as a copy whose `content` is the shown text. */
module Overlay {
  import opened Prelude
  import opened Overrides

  /** A getMessages result: falsy, a bare array, or an object. For an object,
      `list` is its `_array` field when that is a truthy array and None otherwise
      (missing, falsy or not an array); `fields` stands for the rest of the object.
      List slots may hold null. */
  datatype MessagesResult =
    | Falsy
    | Items(items: seq<Option<Message>>)
    | Envelope(list: Option<seq<Option<Message>>>, fields: map<string, string>)

  /** `res._array || res`, when that is an array. */
  function Located(res: MessagesResult): Option<seq<Option<Message>>> {
    match res
    case Falsy => None
    case Items(items) => Some(items)
    case Envelope(list, _) => list
  }

  /** The getMessage callback. */
  function OverlayMessage(edits: Option<Edits>, res: Option<Message>): (r: Option<Message>)
    ensures r.Some? <==> res.Some?
    ensures r.Some? ==> r.value.(content := res.value.content) == res.value
    ensures r.Some? && res.value.id != "" ==> r.value.content == Shown(edits, res.value.id, res.value.content)
    ensures res.None? || res.value.id == "" || !Has(edits, res.value.id) ==> r == res
  {
    if res.None? then res
    else if res.value.id != "" && Has(edits, res.value.id) then
      Some(res.value.(content := Shown(edits, res.value.id, res.value.content)))
    else res
  }

  /** The `messages.map(...)` callback of getMessages, applied to every slot; it agrees
      slot by slot with the single-message overlay. */
  function OverlayList(edits: Option<Edits>, items: seq<Option<Message>>): (r: seq<Option<Message>>)
    ensures |r| == |items|
    ensures forall i :: 0 <= i < |items| ==> r[i] == OverlayMessage(edits, items[i])
  {
    if items == [] then []
    else
      [OverlayMessage(edits, items[0])] + OverlayList(edits, items[1..])
  }

  /** The getMessages callback: same kind of result, the envelope's other fields kept,
      and the located list replaced by its overlay of the same length and order. */
  function OverlayMessages(edits: Option<Edits>, res: MessagesResult): (r: MessagesResult)
    ensures r.Falsy? == res.Falsy? && r.Items? == res.Items? && r.Envelope? == res.Envelope?
    ensures r.Envelope? ==> r.fields == res.fields
    ensures Located(r).Some? == Located(res).Some?
    ensures Located(res).None? ==> r == res
    ensures Located(res).Some? ==>
              |Located(r).value| == |Located(res).value|
              && forall i :: 0 <= i < |Located(res).value| ==>
                   Located(r).value[i] == OverlayMessage(edits, Located(res).value[i])
  {
    match res
    case Falsy => res
    case Items(items) => Items(OverlayList(edits, items))
    case Envelope(list, fields) =>
      if list.Some? then Envelope(Some(OverlayList(edits, list.value)), fields) else res
  }

  /** Reading through the overlay twice shows the same as reading through it once. */
  lemma OverlayMessageIdempotent(edits: Option<Edits>, res: Option<Message>)
    ensures OverlayMessage(edits, OverlayMessage(edits, res)) == OverlayMessage(edits, res)
  {
  }

  /** The same holds for a whole list result. */
  lemma OverlayMessagesIdempotent(edits: Option<Edits>, res: MessagesResult)
    ensures OverlayMessages(edits, OverlayMessages(edits, res)) == OverlayMessages(edits, res)
  {
    if Located(res).Some? {
      var once := OverlayList(edits, Located(res).value);
      var twice := OverlayList(edits, once);
      forall i | 0 <= i < |once|
        ensures twice[i] == once[i]
      {
        OverlayMessageIdempotent(edits, Located(res).value[i]);
      }
      assert twice == once;
    }
  }

  /** Without any override the overlay hands every result back unchanged. */
  lemma OverlayWithoutEdits(res: MessagesResult)
    ensures OverlayMessages(None, res) == res
  {
    if Located(res).Some? {
      assert OverlayList(None, Located(res).value) == Located(res).value;
    }
  }

  /** After a save, reading the message shows the saved text, or the original text
      when the saved text is empty; every other field is the host's. */
  lemma OverlayShowsSaved(edits: Option<Edits>, m: Message, text: string)
    requires m.id != ""
    ensures OverlayMessage(Some(Put(edits, m.id, text)), Some(m)) == Some(m.(content := if text == "" then m.content else text))
  {
  }

  /** After a clear, reading the message gives the host's own object back. */
  lemma OverlayAfterClear(edits: Option<Edits>, m: Message)
    ensures OverlayMessage(Remove(edits, m.id), Some(m)) == Some(m)
  {
  }
}
