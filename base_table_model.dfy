/** The table model that the label list and the file list share
    (views/base_table_model.py): rows, header labels and the highlighted row. */
module BaseTable {
  import opened Qt

  /** The highlight colours of the current row. */
  const HighlightBackground: Rgb := Rgb(4, 110, 229)
  const HighlightForeground: Rgb := Rgb(255, 255, 255)

  /** A table of rows of type `R`. The subclasses of the source hold one of
      these by composition and add their per-column behaviour. */
  class BaseTableModel<R> {
    var tableData: seq<R>
    const headerLabels: seq<string>
    /** The highlighted row; -1 until `SetCurrentRow` is called. */
    var currentRow: int

    constructor (headerLabels: seq<string>)
      ensures this.headerLabels == headerLabels
      ensures tableData == [] && currentRow == -1
      ensures RowCount() == 0 && ColumnCount() == |headerLabels|
    {
      this.headerLabels := headerLabels;
      tableData := [];
      currentRow := -1;
    }

    /** `rowCount`: the number of rows held. */
    function RowCount(): (n: nat)
      reads this
      ensures n == |tableData|
      ensures n == 0 <==> tableData == []
    {
      |tableData|
    }

    /** `columnCount`: one column per header label. */
    function ColumnCount(): (n: nat)
      ensures n == |headerLabels|
    {
      |headerLabels|
    }

    /** The rows are dropped; the header and the current row are kept. */
    method Clear()
      modifies this
      ensures tableData == [] && RowCount() == 0
      ensures currentRow == old(currentRow)
    {
      tableData := [];
    }

    method SetCurrentRow(row: int)
      modifies this
      ensures currentRow == row
      ensures tableData == old(tableData)
    {
      currentRow := row;
    }

    /** The base `data`: highlight colours for the current row, nothing otherwise. */
    function Data(index: ModelIndex, role: Role): (v: Variant)
      reads this
      ensures v != NoVariant <==> index.Row() == currentRow && (role == BackgroundColorRole || role == ForegroundRole)
      ensures v != NoVariant ==> v == ColorVariant(if role == BackgroundColorRole then HighlightBackground else HighlightForeground)
    {
      if index.Row() == currentRow then
        if role == BackgroundColorRole then ColorVariant(HighlightBackground)
        else if role == ForegroundRole then ColorVariant(HighlightForeground)
        else NoVariant
      else NoVariant
    }

    /** The horizontal display header is the label of the section; everything
        else is left to Qt. */
    function HeaderData(section: int, orientation: Orientation, role: Role): (h: Header)
      requires role == DisplayRole && orientation == Horizontal ==> 0 <= section < |headerLabels|
      ensures h.Label? <==> role == DisplayRole && orientation == Horizontal
      ensures h.Label? ==> h.text == headerLabels[section]
    {
      if role == DisplayRole && orientation == Horizontal then Label(headerLabels[section]) else QtDefaultHeader
    }
  }
}
