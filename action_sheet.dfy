/** The long-press menu patch (src/patches/actionSheet.tsx): for the message menu, an
    "Edit Locally" row is spliced into the menu's row list just before the
    "mark unread" row, or at the top when that row is not there. */
module ActionSheet {
  import opened Prelude
  import opened Overrides
  import opened Storage
  import opened Host
  import opened Registry

  const MenuKey := "MessageLongPressActionSheet"
  const EditedLabel := "Edit Locally \U{270F}\U{FE0F}"
  const PlainLabel := "Edit Locally"

  /** A menu row: one of the host's, identified by its `props.message` label (None when
      it has none), or the row this patch adds, which has no `props.message`. */
  datatype Row = HostRow(message: Option<string>) | EditRow(caption: string, opens: Message)

  /** `x?.props?.message` */
  function RowMessage(row: Row): Option<string> {
    if row.HostRow? then row.message else None
  }

  /** `buttons.findIndex(x => x?.props?.message === MARK_UNREAD)`; the anchor label is
      None when the host's string table lacks it, and then it matches unlabelled rows. */
  function FindIndex(rows: seq<Row>, anchor: Option<string>): (i: int)
    ensures -1 <= i < |rows|
    ensures i >= 0 ==> RowMessage(rows[i]) == anchor
    ensures forall j :: 0 <= j < |rows| && (i < 0 || j < i) ==> RowMessage(rows[j]) != anchor
  {
    if rows == [] then -1
    else if RowMessage(rows[0]) == anchor then 0
    else
      var k := FindIndex(rows[1..], anchor);
      if k < 0 then -1 else k + 1
  }

  /** `Math.max(markUnreadIndex, 0)`: the first anchor row, or the top. */
  function InsertPosition(rows: seq<Row>, anchor: Option<string>): (p: nat)
    ensures p <= |rows|
    ensures forall j :: 0 <= j < p ==> RowMessage(rows[j]) != anchor
    ensures (p < |rows| && RowMessage(rows[p]) == anchor)
            || (p == 0 && forall j :: 0 <= j < |rows| ==> RowMessage(rows[j]) != anchor)
  {
    var markUnreadIndex := FindIndex(rows, anchor);
    if markUnreadIndex > 0 then markUnreadIndex else 0
  }

  /** `rows.splice(p, 0, row)` as a value: one longer, `row` at `p`, the rows before it
      where they were and the rows from `p` on shifted down by one. */
  function Spliced(rows: seq<Row>, p: nat, row: Row): (r: seq<Row>)
    requires p <= |rows|
    ensures |r| == |rows| + 1 && r[p] == row
    ensures forall j :: 0 <= j < p ==> r[j] == rows[j]
    ensures forall j :: p <= j < |rows| ==> r[j + 1] == rows[j]
  {
    rows[..p] + [row] + rows[p..]
  }

  /** The label marks a message that already has an override. */
  function EditLabel(edited: bool): string {
    if edited then EditedLabel else PlainLabel
  }

  /** The row built for the menu's message, if any: none when neither the stored copy
      nor the menu's message has content; pressing it opens the stored copy when the
      store has one, else the menu's message. */
  function EditRowFor(menu: Message, host: HostStore, edits: Option<Edits>): (r: Option<Row>)
    ensures var original := host.GetMessage(menu.channelId, menu.id);
            r.Some? <==> (original.Some? && original.value.content != "") || menu.content != ""
    ensures r.Some? ==> r.value.EditRow? && (r.value.caption == EditedLabel <==> Has(edits, menu.id))
    ensures r.Some? && !Has(edits, menu.id) ==> r.value.caption == PlainLabel
    ensures r.Some? ==> r.value.opens == host.GetMessage(menu.channelId, menu.id).GetOr(menu)
  {
    var original := host.GetMessage(menu.channelId, menu.id);
    if (original.None? || original.value.content == "") && menu.content == "" then None
    else Some(EditRow(EditLabel(Has(edits, menu.id)), if original.Some? then original.value else menu))
  }

  /** The inserted row lands right before the anchor row when the menu has one. */
  lemma EditRowPrecedesAnchor(rows: seq<Row>, anchor: Option<string>, row: Row, k: nat)
    requires k < |rows| && RowMessage(rows[k]) == anchor
    ensures var p := InsertPosition(rows, anchor);
            p <= k && RowMessage(Spliced(rows, p, row)[p + 1]) == anchor
  {
  }

  /** The row array found in the rendered menu, which the patch splices in place. */
  class RowList {
    var rows: seq<Row>

    constructor (rows: seq<Row>)
      ensures this.rows == rows
    {
      this.rows := rows;
    }
  }

  /** The before-openLazy guard and the after-render patch, collapsed into one step:
      `buttons` is the row array the tree search found (null when it found none) and
      `anchor` the host's MARK_UNREAD label. */
  method InsertEditRow(key: string, menu: Option<Message>, buttons: RowList?, anchor: Option<string>,
                       host: HostStore, store: PluginStorage) returns (inserted: bool)
    modifies buttons
    ensures inserted <==> key == MenuKey && menu.Some? && buttons != null
                          && EditRowFor(menu.value, host, store.Edits()).Some?
    ensures inserted ==> buttons.rows == Spliced(old(buttons.rows), InsertPosition(old(buttons.rows), anchor),
                                                 EditRowFor(menu.value, host, store.Edits()).value)
    ensures !inserted ==> buttons == null || buttons.rows == old(buttons.rows)
  {
    if key != MenuKey || menu.None? || buttons == null {
      return false;
    }
    var message := menu.value;
    var markUnreadIndex := FindIndex(buttons.rows, anchor);
    var position := if markUnreadIndex > 0 then markUnreadIndex else 0;
    var originalMessage := host.GetMessage(message.channelId, message.id);
    if (originalMessage.None? || originalMessage.value.content == "") && message.content == "" {
      return false;
    }
    var editLabel := if store.HasEdit(message.id) then EditedLabel else PlainLabel;
    var editButton := EditRow(editLabel, if originalMessage.Some? then originalMessage.value else message);
    buttons.rows := buttons.rows[..position] + [editButton] + buttons.rows[position..];
    inserted := true;
  }

  /** onPress of the added row: open the dialog on the message the row carries; when
      the registry is not ready no dialog changes. Hiding the sheet is not modelled. */
  method PressEditRow(row: Row, registry: ModalRegistry) returns (shown: bool)
    requires row.EditRow?
    modifies registry.visibleSetter, registry.currentSetter
    ensures shown == registry.Ready()
    ensures shown ==> registry.currentSetter.message == Some(row.opens) && registry.visibleSetter.visible
    ensures shown ==> registry.currentSetter.newContent
                        == Shown(registry.currentSetter.store.Edits(), row.opens.id, row.opens.content)
    ensures !shown ==> (registry.visibleSetter == null || unchanged(registry.visibleSetter))
                       && (registry.currentSetter == null || unchanged(registry.currentSetter))
  {
    shown := registry.ShowEditModal(row.opens);
  }
}
