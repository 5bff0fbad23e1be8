/** The read-only table of the primary categories
    (views/category_list_table_model.py). */
module CategoryList {
  import opened Qt

  datatype CategoryRow = CategoryRow(id: int, category: string)

  const CategoryHeader: seq<string> := ["ID", "Category"]

  class CategoryListTableModel {
    const headerLabels: seq<string>
    var tableData: seq<CategoryRow>

    constructor ()
      ensures headerLabels == CategoryHeader && tableData == []
      ensures ColumnCount() == 2 && RowCount() == 0
    {
      headerLabels := CategoryHeader;
      tableData := [];
    }

    predicate InRange(index: ModelIndex)
      reads this
    {
      index.Index? ==> 0 <= index.r < |tableData| && 0 <= index.c < |headerLabels|
    }

    function HeaderData(section: int, orientation: Orientation, role: Role): (h: Header)
      requires role == DisplayRole && orientation == Horizontal ==> 0 <= section < |headerLabels|
      ensures h.Label? <==> role == DisplayRole && orientation == Horizontal
      ensures h.Label? ==> h.text == headerLabels[section]
    {
      if role == DisplayRole && orientation == Horizontal then Label(headerLabels[section]) else QtDefaultHeader
    }

    /** `columnCount`: one column per header label, so two once constructed. */
    function ColumnCount(): (n: nat)
      ensures n == |headerLabels|
    {
      |headerLabels|
    }

    /** `rowCount`: the number of rows held. */
    function RowCount(): (n: nat)
      reads this
      ensures n == |tableData|
      ensures n == 0 <==> tableData == []
    {
      |tableData|
    }

    method Clear()
      modifies this
      ensures tableData == [] && RowCount() == 0
    {
      tableData := [];
    }

    /** Adds one row at the end. */
    method Append(id: int, category: string)
      modifies this
      ensures tableData == old(tableData) + [CategoryRow(id, category)]
      ensures RowCount() == old(RowCount()) + 1
    {
      tableData := tableData + [CategoryRow(id, category)];
    }

    /** Display text: the id in column 0 and the name in column 1. */
    function Data(index: ModelIndex, role: Role): (v: Variant)
      reads this
      requires InRange(index)
      ensures !index.IsValid() || role != DisplayRole ==> v == NoVariant
      ensures index.IsValid() && role == DisplayRole ==>
                v == ValueVariant(if index.c == 0 then VInt(tableData[index.r].id)
                                  else if index.c == 1 then VStr(tableData[index.r].category)
                                  else VStr(""))
    {
      if !index.IsValid() then NoVariant
      else if role == DisplayRole then
        var row := tableData[index.r];
        ValueVariant(if index.c == 0 then VInt(row.id) else if index.c == 1 then VStr(row.category) else VStr(""))
      else NoVariant
    }

    /** The table cannot be edited: every write is refused. */
    method SetData(index: ModelIndex, value: Value, role: Role) returns (ok: bool)
      ensures !ok
    {
      return false;
    }
  }
}
