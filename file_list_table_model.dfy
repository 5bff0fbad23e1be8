/** The image file table (views/file_list_table_model.py): one row per image
    of the dataset, with its "has ground truth" check box. */
module FileList {
  import opened Wrappers
  import opened Qt
  import opened BaseTable

  datatype FileRow = FileRow(id: int, hasGt: bool, fileName: string)

  const FileHeader: seq<string> := ["ID", "Has GT", "File name"]

  class FileListTableModel {
    const base: BaseTableModel<FileRow>

    constructor ()
      ensures fresh(base) && Valid()
      ensures base.tableData == [] && base.currentRow == -1
    {
      base := new BaseTableModel(FileHeader);
    }

    predicate Valid()
    {
      base.headerLabels == FileHeader
    }

    predicate InRange(index: ModelIndex)
      reads base
    {
      index.Index? ==> 0 <= index.r < |base.tableData| && 0 <= index.c < base.ColumnCount()
    }

    /** Adds one row at the end. */
    method Append(id: int, hasGt: bool, fileName: string)
      modifies base
      ensures base.tableData == old(base.tableData) + [FileRow(id, hasGt, fileName)]
      ensures base.currentRow == old(base.currentRow)
    {
      base.tableData := base.tableData + [FileRow(id, hasGt, fileName)];
    }

    /** Column 1 shows `has_gt` as a check box; no other column has one. */
    function CheckStateOf(index: ModelIndex): (s: Option<CheckState>)
      reads base
      requires index.Index? && InRange(index)
      ensures s.Some? <==> index.c == 1
      ensures s.Some? ==> (s.value == Checked <==> base.tableData[index.r].hasGt)
      ensures s.Some? ==> s.value != PartiallyChecked
    {
      if index.c == 1 then Some(if base.tableData[index.r].hasGt then Checked else Unchecked) else None
    }

    function Data(index: ModelIndex, role: Role): (v: Variant)
      reads base
      requires InRange(index)
      ensures !index.IsValid() ==> v == NoVariant
      ensures index.IsValid() && role == DisplayRole ==>
                v == ValueVariant(if index.c == 0 then VInt(base.tableData[index.r].id)
                                  else if index.c == 2 then VStr(base.tableData[index.r].fileName)
                                  else VStr(""))
      ensures index.IsValid() && role == CheckStateRole ==>
                v == (if index.c == 1 then CheckVariant(CheckStateOf(index).value) else NoVariant)
      ensures index.IsValid() && role != DisplayRole && role != CheckStateRole ==> v == base.Data(index, role)
    {
      if !index.IsValid() then NoVariant
      else if role == CheckStateRole then
        (match CheckStateOf(index) case Some(s) => CheckVariant(s) case None => NoVariant)
      else if role == DisplayRole then
        var row := base.tableData[index.r];
        ValueVariant(if index.c == 0 then VInt(row.id) else if index.c == 2 then VStr(row.fileName) else VStr(""))
      else base.Data(index, role)
    }

    /** A check-state write to column 1 sets `has_gt`; an edit write is
        accepted and changes nothing; everything else is refused. */
    method SetData(index: ModelIndex, value: Value, role: Role) returns (ok: bool)
      requires InRange(index)
      modifies base
      ensures ok <==> index.IsValid() && ((role == CheckStateRole && index.c == 1) || role == EditRole)
      ensures ok && role == CheckStateRole ==>
                base.tableData == old(base.tableData)[index.r := old(base.tableData)[index.r].(hasGt := IsChecked(value))]
      ensures !(ok && role == CheckStateRole) ==> base.tableData == old(base.tableData)
      ensures base.currentRow == old(base.currentRow)
    {
      if !index.IsValid() {
        return false;
      }
      if role == CheckStateRole && index.c == 1 {
        base.tableData := base.tableData[index.r := base.tableData[index.r].(hasGt := IsChecked(value))];
        return true;
      } else if role == EditRole {
        return true;
      }
      return false;
    }

    /** Only column 1 is checkable and editable. */
    function Flags(index: ModelIndex): (fl: set<ItemFlag>)
      ensures DefaultFlags(index) <= fl
      ensures fl - DefaultFlags(index) <= {ItemIsUserCheckable, ItemIsEditable}
      ensures ItemIsUserCheckable in fl <==> index.Column() == 1
      ensures ItemIsEditable in fl <==> index.Column() == 1
    {
      if index.Column() == 1 then DefaultFlags(index) + {ItemIsUserCheckable, ItemIsEditable} else DefaultFlags(index)
    }
  }
}
