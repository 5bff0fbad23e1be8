/** The slice of Qt and of Python's value model that the table models use:
    item roles, header orientation, check states, item flags, model indexes,
    the dynamically typed cell values and Python's `str()` on them. */
module Qt {

  /** Item data roles the table models distinguish; every other role is `OtherRole`. */
  datatype Role =
    | DisplayRole
    | EditRole
    | CheckStateRole
    | TextAlignmentRole
    | BackgroundColorRole
    | ForegroundRole
    | OtherRole

  datatype Orientation = Horizontal | Vertical

  datatype CheckState = Unchecked | PartiallyChecked | Checked

  /** PyQt hands check states to `setData` as the enum's integer value. */
  function CheckStateCode(c: CheckState): int
  {
    match c
    case Unchecked => 0
    case PartiallyChecked => 1
    case Checked => 2
  }

  datatype ItemFlag = ItemIsSelectable | ItemIsEditable | ItemIsUserCheckable | ItemIsEnabled | ItemNeverHasChildren

  /** An index handed to a model: either invalid, or a row and a column that
      the model itself produced (so both lie inside the model's bounds). */
  datatype ModelIndex = Invalid | Index(r: int, c: int) {
    predicate IsValid() { Index? }
    /** `QModelIndex.row()`, which is -1 for an invalid index. */
    function Row(): int { if Index? then r else -1 }
    /** `QModelIndex.column()`, which is -1 for an invalid index. */
    function Column(): int { if Index? then c else -1 }
  }

  /** A Python value stored in a table cell or passed to `setData`. */
  datatype Value = VNone | VBool(b: bool) | VInt(i: int) | VStr(s: string)

  /** `value == Qt.Checked`: only the integer 2 compares equal to the enum. */
  predicate IsChecked(v: Value)
  {
    v == VInt(CheckStateCode(Checked))
  }

  datatype Rgb = Rgb(red: int, green: int, blue: int)

  /** What a model's `data` returns: nothing (`None` or an empty `QVariant`),
      a cell value, a check state, the centre alignment or a colour. */
  datatype Variant = NoVariant | ValueVariant(v: Value) | CheckVariant(state: CheckState) | AlignCenter | ColorVariant(rgb: Rgb)

  /** What a model's `headerData` returns: one of its labels, or whatever
      `QAbstractTableModel.headerData` gives (Qt's own code, not part of this model). */
  datatype Header = Label(text: string) | QtDefaultHeader

  /** The flags `QAbstractTableModel.flags` gives before a model adds its own. */
  function DefaultFlags(index: ModelIndex): set<ItemFlag>
  {
    if index.IsValid() then {ItemIsSelectable, ItemIsEnabled, ItemNeverHasChildren} else {}
  }

  function DigitChar(d: int): char
    requires 0 <= d < 10
  {
    "0123456789"[d]
  }

  /** Decimal digits of a natural number, most significant first. */
  function NatToString(n: nat): (s: string)
    ensures |s| > 0
    ensures forall k :: 0 <= k < |s| ==> '0' <= s[k] <= '9'
    decreases n
  {
    if n < 10 then [DigitChar(n)] else NatToString(n / 10) + [DigitChar(n % 10)]
  }

  /** Python's `str(value)`. */
  function Str(v: Value): (s: string)
    ensures v.VStr? ==> s == v.s
  {
    match v
    case VNone => "None"
    case VBool(b) => if b then "True" else "False"
    case VInt(i) => if i < 0 then "-" + NatToString(-i) else NatToString(i)
    case VStr(t) => t
  }
}
