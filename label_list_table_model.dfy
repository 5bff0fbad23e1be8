/** The label table of main.py (views/label_list_table_model.py): one row per
    shape of the open image, keyed by the shape's uid, plus the combo-box
    delegate that edits the category columns. */
module LabelList {
  import opened Wrappers
  import opened Qt
  import opened BaseTable

  /** One label row. `id` and `trackId` hold whatever the caller passed (an
      integer from an annotation file) until an edit stores `str(value)`. */
  datatype LabelRow = LabelRow(
    uid: string,
    category: string,        // column 4
    id: Value,               // column 1
    trackId: Value,          // column 2
    trackable: bool,         // column 3, a check box
    secondCategory: Option<string>,  // column 5
    thirdCategory: Option<string>,   // column 6
    visible: bool,           // column 0, a check box
    checked: bool)

  const LabelHeader: seq<string> := ["", "ID", "Tracking ID", "Trackable", "Category", "Second Category", "Third Category"]

  /** Position of the first row carrying `uid`, or -1 when there is none. */
  function FirstRow(rows: seq<LabelRow>, uid: string): (k: int)
    ensures -1 <= k < |rows|
    ensures k == -1 <==> forall i :: 0 <= i < |rows| ==> rows[i].uid != uid
    ensures k != -1 ==> rows[k].uid == uid && forall j :: 0 <= j < k ==> rows[j].uid != uid
  {
    if rows == [] then -1
    else if rows[0].uid == uid then 0
    else
      var k := FirstRow(rows[1..], uid);
      if k == -1 then -1 else k + 1
  }

  /** The rows with the first row carrying `uid` deleted; all rows when there is none. */
  function RemoveFirst(rows: seq<LabelRow>, uid: string): seq<LabelRow>
  {
    var k := FirstRow(rows, uid);
    if k == -1 then rows else rows[..k] + rows[k + 1..]
  }

  ghost predicate UidsDistinct(rows: seq<LabelRow>)
  {
    forall i, j :: 0 <= i < j < |rows| ==> rows[i].uid != rows[j].uid
  }

  /** In rows with distinct uids, a row carrying `u` is the first one. */
  lemma FirstRowOfDistinct(rows: seq<LabelRow>, u: string, p: int)
    requires UidsDistinct(rows) && 0 <= p < |rows| && rows[p].uid == u
    ensures FirstRow(rows, u) == p
  {
    var k := FirstRow(rows, u);
    assert k != -1;
    assert rows[k].uid == u;
  }

  /** Deleting position `k` shifts every later row down by one. */
  lemma DeleteAt(rows: seq<LabelRow>, k: int, r: seq<LabelRow>)
    requires 0 <= k < |rows| && r == rows[..k] + rows[k + 1..]
    ensures |r| == |rows| - 1
    ensures forall i :: 0 <= i < |r| ==> r[i] == rows[if i < k then i else i + 1]
  {
  }

  /** With distinct uids, `remove_row` leaves no row carrying `uid`, keeps
      the uids distinct and keeps every other uid's row. */
  lemma RemoveFirstDistinct(rows: seq<LabelRow>, uid: string)
    requires UidsDistinct(rows)
    ensures UidsDistinct(RemoveFirst(rows, uid))
    ensures FirstRow(RemoveFirst(rows, uid), uid) == -1
    ensures forall u :: u != uid ==> (FirstRow(RemoveFirst(rows, uid), u) == -1 <==> FirstRow(rows, u) == -1)
  {
    var k := FirstRow(rows, uid);
    if k != -1 {
      var r := rows[..k] + rows[k + 1..];
      DeleteAt(rows, k, r);
      assert RemoveFirst(rows, uid) == r;
      forall i, j | 0 <= i < j < |r| ensures r[i].uid != r[j].uid {
        assert r[i] == rows[if i < k then i else i + 1];
        assert r[j] == rows[if j < k then j else j + 1];
      }
      forall i | 0 <= i < |r| ensures r[i].uid != uid {
        assert r[i] == rows[if i < k then i else i + 1];
      }
      forall u | u != uid ensures FirstRow(r, u) == -1 <==> FirstRow(rows, u) == -1 {
        if FirstRow(rows, u) != -1 {
          var j := FirstRow(rows, u);
          var p := if j < k then j else j - 1;
          assert r[p] == rows[j];
          FirstRowOfDistinct(r, u, p);
        } else {
          forall i | 0 <= i < |r| ensures r[i].uid != u {
            assert r[i] == rows[if i < k then i else i + 1];
          }
        }
      }
    }
  }

  /** Looking a uid up after an append: earlier rows win, then the new row. */
  lemma {:induction false} FirstRowAppend(rows: seq<LabelRow>, row: LabelRow, u: string)
    ensures FirstRow(rows + [row], u) ==
              if FirstRow(rows, u) != -1 then FirstRow(rows, u) else if row.uid == u then |rows| else -1
  {
    if rows != [] {
      assert (rows + [row])[0] == rows[0];
      assert (rows + [row])[1..] == rows[1..] + [row];
      FirstRowAppend(rows[1..], row, u);
    }
  }

  /** Appending a row with a new uid keeps the uids distinct. */
  lemma AppendFreshDistinct(rows: seq<LabelRow>, row: LabelRow)
    requires UidsDistinct(rows) && FirstRow(rows, row.uid) == -1
    ensures UidsDistinct(rows + [row])
  {
    var r := rows + [row];
    forall i, j | 0 <= i < j < |r| ensures r[i].uid != r[j].uid {
      assert r[i] == rows[i];
      if j < |rows| {
        assert r[j] == rows[j];
      }
    }
  }

  /** The effect of `setData(index, value, role)` on the row the index points at. */
  function SetCell(row: LabelRow, column: int, value: Value, role: Role): (r: LabelRow)
    ensures r.uid == row.uid && r.checked == row.checked
  {
    match role
    case CheckStateRole =>
      var row' := if column == 0 then row.(visible := IsChecked(value)) else row;
      if column == 3 then row'.(trackable := IsChecked(value)) else row'
    case EditRole =>
      if column == 1 then row.(id := VStr(Str(value)))
      else if column == 2 then row.(trackId := VStr(Str(value)))
      else if column == 4 then row.(category := Str(value))
      else if column == 5 then row.(secondCategory := Some(Str(value)))
      else if column == 6 then row.(thirdCategory := Some(Str(value)))
      else row
    case _ => row
  }

  /** Edit-role writes to the visibility column are ignored, whatever the value. */
  lemma EditRoleKeepsVisibility(row: LabelRow, value: Value)
    ensures SetCell(row, 0, value, EditRole) == row
    ensures SetCell(row, 0, value, CheckStateRole).visible == IsChecked(value)
  {
  }

  /** The display text of a cell. */
  function DisplayValue(row: LabelRow, column: int): (v: Value)
  {
    if column == 1 then row.id
    else if column == 2 then row.trackId
    else if column == 4 then VStr(row.category)
    else if column == 5 then (match row.secondCategory case Some(s) => VStr(s) case None => VNone)
    else if column == 6 then (match row.thirdCategory case Some(s) => VStr(s) case None => VNone)
    else VStr("")
  }

  class LabelListTableModel {
    const base: BaseTableModel<LabelRow>

    constructor ()
      ensures fresh(base) && Valid()
      ensures base.tableData == [] && base.headerLabels == LabelHeader && base.currentRow == -1
    {
      base := new BaseTableModel(LabelHeader);
    }

    /** The model carries the label table's seven columns. */
    predicate Valid()
    {
      base.headerLabels == LabelHeader
    }

    /** An index Qt can hand to this model: invalid, or inside the table. */
    predicate InRange(index: ModelIndex)
      reads base
    {
      index.Index? ==> 0 <= index.r < |base.tableData| && 0 <= index.c < base.ColumnCount()
    }

    /** Adds one row at the end, visible and not checked. */
    method Append(uid: string, category: string, id: Value, trackId: Value, trackable: bool,
                  secondCategory: Option<string>, thirdCategory: Option<string>)
      modifies base
      ensures base.tableData == old(base.tableData) + [LabelRow(uid, category, id, trackId, trackable, secondCategory, thirdCategory, true, false)]
      ensures base.currentRow == old(base.currentRow)
    {
      base.tableData := base.tableData + [LabelRow(uid, category, id, trackId, trackable, secondCategory, thirdCategory, true, false)];
    }

    /** The check box of column 0 (visible) and column 3 (trackable); no check box elsewhere. */
    function CheckStateOf(index: ModelIndex): (s: Option<CheckState>)
      reads base
      requires index.Index? && InRange(index)
      ensures s.Some? <==> index.c == 0 || index.c == 3
      ensures index.c == 0 ==> s == Some(if base.tableData[index.r].visible then Checked else Unchecked)
      ensures index.c == 3 ==> s == Some(if base.tableData[index.r].trackable then Checked else Unchecked)
    {
      var row := base.tableData[index.r];
      if index.c == 0 then Some(if row.visible then Checked else Unchecked)
      else if index.c == 3 then Some(if row.trackable then Checked else Unchecked)
      else None
    }

    function Data(index: ModelIndex, role: Role): (v: Variant)
      reads base
      requires InRange(index)
      ensures !index.IsValid() ==> v == NoVariant
      ensures index.IsValid() && role == DisplayRole ==> v == ValueVariant(DisplayValue(base.tableData[index.r], index.c))
      ensures index.IsValid() && role == CheckStateRole ==>
                v == (if index.c == 0 || index.c == 3 then CheckVariant(CheckStateOf(index).value) else NoVariant)
      ensures index.IsValid() && role == TextAlignmentRole ==> v == AlignCenter
      ensures index.IsValid() && (role == BackgroundColorRole || role == ForegroundRole || role == EditRole || role == OtherRole) ==>
                v == base.Data(index, role)
    {
      if !index.IsValid() then NoVariant
      else if role == CheckStateRole then
        (match CheckStateOf(index) case Some(s) => CheckVariant(s) case None => NoVariant)
      else if role == DisplayRole then ValueVariant(DisplayValue(base.tableData[index.r], index.c))
      else if role == TextAlignmentRole then AlignCenter
      else base.Data(index, role)
    }

    /** Check-state writes toggle columns 0 and 3; edit writes store `str(value)`
        into columns 1, 2, 4, 5 and 6; both answer True. Everything else answers False. */
    method SetData(index: ModelIndex, value: Value, role: Role) returns (ok: bool)
      requires InRange(index)
      modifies base
      ensures ok <==> index.IsValid() && (role == CheckStateRole || role == EditRole)
      ensures ok ==> base.tableData == old(base.tableData)[index.r := SetCell(old(base.tableData)[index.r], index.c, value, role)]
      ensures !ok ==> base.tableData == old(base.tableData)
      ensures ok && role == CheckStateRole ==>
                base.tableData[index.r].visible == (if index.c == 0 then IsChecked(value) else old(base.tableData)[index.r].visible) &&
                base.tableData[index.r].trackable == (if index.c == 3 then IsChecked(value) else old(base.tableData)[index.r].trackable) &&
                base.tableData[index.r].(visible := true, trackable := true) == old(base.tableData)[index.r].(visible := true, trackable := true)
      ensures ok && role == EditRole && index.c !in {1, 2, 4, 5, 6} ==> base.tableData == old(base.tableData)
      ensures base.currentRow == old(base.currentRow)
    {
      if !index.IsValid() {
        return false;
      }
      if role == CheckStateRole || role == EditRole {
        base.tableData := base.tableData[index.r := SetCell(base.tableData[index.r], index.c, value, role)];
        return true;
      }
      return false;
    }

    function Flags(index: ModelIndex): (fl: set<ItemFlag>)
      ensures fl - DefaultFlags(index) <= {ItemIsUserCheckable, ItemIsEditable, ItemIsSelectable}
      ensures DefaultFlags(index) <= fl
      ensures ItemIsUserCheckable in fl - DefaultFlags(index) <==> index.Column() in {0, 3}
      ensures ItemIsEditable in fl <==> index.Column() in {1, 2, 4, 5, 6}
      ensures ItemIsSelectable in fl <==> index.IsValid()
      ensures !index.IsValid() ==> fl == {}
    {
      var fl := DefaultFlags(index);
      var column := index.Column();
      if column in {0, 3} then fl + {ItemIsUserCheckable}
      else if column in {1, 2} then fl + {ItemIsEditable}
      else if column in {4, 5, 6} then fl + {ItemIsSelectable, ItemIsEditable}
      else fl
    }

    /** The position of the first row with this uid, or -1. */
    method GetRow(uid: string) returns (row: int)
      ensures row == FirstRow(base.tableData, uid)
      ensures row == -1 <==> forall i :: 0 <= i < |base.tableData| ==> base.tableData[i].uid != uid
      ensures row != -1 ==> 0 <= row < |base.tableData| && base.tableData[row].uid == uid
                            && forall j :: 0 <= j < row ==> base.tableData[j].uid != uid
    {
      var rows := base.tableData;
      row := 0;
      while row < |rows|
        invariant 0 <= row <= |rows|
        invariant forall j :: 0 <= j < row ==> rows[j].uid != uid
      {
        if rows[row].uid == uid {
          break;
        }
        row := row + 1;
      }
      if row == |rows| {
        row := -1;
      }
    }

    /** The first row with this uid, or None. */
    method GetData(uid: string) returns (r: Option<LabelRow>)
      ensures r.None? <==> forall i :: 0 <= i < |base.tableData| ==> base.tableData[i].uid != uid
      ensures r.Some? ==> r.value == base.tableData[FirstRow(base.tableData, uid)] && r.value.uid == uid
    {
      var rows := base.tableData;
      var i := 0;
      while i < |rows|
        invariant 0 <= i <= |rows|
        invariant forall j :: 0 <= j < i ==> rows[j].uid != uid
      {
        if rows[i].uid == uid {
          return Some(rows[i]);
        }
        i := i + 1;
      }
      return None;
    }

    /** Deletes the first row with this uid; an unknown uid changes nothing. */
    method RemoveRow(uid: string)
      modifies base
      ensures base.tableData == RemoveFirst(old(base.tableData), uid)
      ensures base.currentRow == old(base.currentRow)
    {
      var row := GetRow(uid);
      if row == -1 {
        return;
      }
      base.tableData := base.tableData[..row] + base.tableData[row + 1..];
    }

    /** Issues an edit-role write of the requested check state to column 0 of
        every row. The edit branch of `SetData` ignores column 0, so the table
        is left as it was. */
    method ToggleVisibleAll(visible: bool)
      requires Valid()
      modifies base
      ensures base.tableData == old(base.tableData)
      ensures base.currentRow == old(base.currentRow)
    {
      var state := if visible then Checked else Unchecked;
      var row := 0;
      while row < |base.tableData|
        invariant base.tableData == old(base.tableData)
        invariant base.currentRow == old(base.currentRow)
      {
        var _ := SetData(Index(row, 0), VInt(CheckStateCode(state)), EditRole);
        row := row + 1;
      }
    }

    /** What `ToggleVisibleAll` evidently means: a check-state write to
        column 0 of every row, so that every row's visibility becomes `visible`. */
    method ToggleVisibleAllIntended(visible: bool)
      requires Valid()
      modifies base
      ensures |base.tableData| == |old(base.tableData)|
      ensures forall i :: 0 <= i < |base.tableData| ==> base.tableData[i] == old(base.tableData)[i].(visible := visible)
      ensures base.currentRow == old(base.currentRow)
    {
      var state := if visible then Checked else Unchecked;
      var row := 0;
      while row < |base.tableData|
        invariant 0 <= row <= |base.tableData| == |old(base.tableData)|
        invariant forall i :: 0 <= i < row ==> base.tableData[i] == old(base.tableData)[i].(visible := visible)
        invariant forall i :: row <= i < |base.tableData| ==> base.tableData[i] == old(base.tableData)[i]
        invariant base.currentRow == old(base.currentRow)
      {
        var _ := SetData(Index(row, 0), VInt(CheckStateCode(state)), CheckStateRole);
        row := row + 1;
      }
    }
  }

  /** The last position whose item equals `value`, or -1 when none does. */
  function LastMatch(items: seq<string>, value: Value): (k: int)
    ensures -1 <= k < |items|
    ensures k == -1 <==> forall i :: 0 <= i < |items| ==> VStr(items[i]) != value
    ensures k != -1 ==> VStr(items[k]) == value && forall j :: k < j < |items| ==> VStr(items[j]) != value
  {
    if items == [] then -1
    else if VStr(items[|items| - 1]) == value then |items| - 1
    else LastMatch(items[..|items| - 1], value)
  }

  /** The combo box that edits columns 4, 5 and 6 over the loaded names. */
  class LabelListTableComboBoxDelegate {
    const itemList: seq<string>

    constructor (itemList: seq<string>)
      ensures this.itemList == itemList
    {
      this.itemList := itemList;
    }

    /** The editor's index after `setEditorData`: the last position whose item
        equals the cell's value; the editor's previous index when none does. */
    method SetEditorData(value: Value, editorIndex: int) returns (selected: int)
      ensures selected == (if LastMatch(itemList, value) == -1 then editorIndex else LastMatch(itemList, value))
      ensures (exists i :: 0 <= i < |itemList| && VStr(itemList[i]) == value) ==>
                0 <= selected < |itemList| && VStr(itemList[selected]) == value &&
                forall j :: selected < j < |itemList| ==> VStr(itemList[j]) != value
    {
      selected := editorIndex;
      var i := 0;
      while i < |itemList|
        invariant 0 <= i <= |itemList|
        invariant selected == (if LastMatch(itemList[..i], value) == -1 then editorIndex else LastMatch(itemList[..i], value))
      {
        assert itemList[..i + 1][..i] == itemList[..i];
        if VStr(itemList[i]) == value {
          selected := i;
        }
        i := i + 1;
      }
      assert itemList[..i] == itemList;
    }

    /** Writes the selected item into the edited cell with the edit role. The
        combo box's index is -1 when it has no selection, and Python reads
        `item_list[-1]` as the last item; on an empty list that read raises
        `IndexError` before anything is written. */
    method SetModelData(currentIndex: int, model: LabelListTableModel, index: ModelIndex) returns (indexError: bool)
      requires -1 <= currentIndex < |itemList|
      requires model.InRange(index)
      modifies model.base
      ensures indexError <==> itemList == []
      ensures !indexError && index.IsValid() ==>
                model.base.tableData == old(model.base.tableData)[index.r :=
                  SetCell(old(model.base.tableData)[index.r], index.c,
                          VStr(itemList[if currentIndex == -1 then |itemList| - 1 else currentIndex]), EditRole)]
      ensures indexError || !index.IsValid() ==> model.base.tableData == old(model.base.tableData)
      ensures model.base.currentRow == old(model.base.currentRow)
    {
      if itemList == [] {
        return true;
      }
      var item := itemList[if currentIndex == -1 then |itemList| - 1 else currentIndex];
      var _ := model.SetData(index, VStr(item), EditRole);
      indexError := false;
    }
  }
}
