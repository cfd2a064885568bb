/**
 * The low-stock table's status column: each row is classified by comparing its
 * stock with its minimum level, and shown with a label and a colour.
 */
module LowStockTable {
  datatype Status = BelowMin | AtMin | Ok

  datatype Item = Item(item: string, stock: int, minLevel: int)

  /** The classification: below, at, or above the minimum level. */
  function StatusOf(stock: int, minLevel: int): (s: Status)
    ensures s == BelowMin <==> stock < minLevel
    ensures s == AtMin <==> stock == minLevel
    ensures s == Ok <==> stock > minLevel
  {
    if stock < minLevel then BelowMin
    else if stock == minLevel then AtMin
    else Ok
  }

  /** The label each status shows. */
  function Label(s: Status): (text: string)
    ensures text == "Below Min" <==> s == BelowMin
    ensures text == "At Min" <==> s == AtMin
    ensures text == "OK" <==> s == Ok
  {
    match s
    case BelowMin => "Below Min"
    case AtMin => "At Min"
    case Ok => "OK"
  }

  /** The colour class each status is shown in. */
  function Color(s: Status): (c: string)
    ensures c == "text-red-600" <==> s == BelowMin
    ensures c == "text-yellow-600" <==> s == AtMin
    ensures c == "text-green-600" <==> s == Ok
  {
    match s
    case BelowMin => "text-red-600"
    case AtMin => "text-yellow-600"
    case Ok => "text-green-600"
  }

  /** The cell: the label, and the colour it is shown in. */
  datatype StatusCell = StatusCell(color: string, text: string)

  function Cell(row: Item): (c: StatusCell)
    ensures row.stock < row.minLevel ==> c == StatusCell("text-red-600", "Below Min")
    ensures row.stock == row.minLevel ==> c == StatusCell("text-yellow-600", "At Min")
    ensures row.stock > row.minLevel ==> c == StatusCell("text-green-600", "OK")
  {
    var s := StatusOf(row.stock, row.minLevel);
    StatusCell(Color(s), Label(s))
  }

  /** Different statuses never share a label or a colour, so each row shows exactly one of the three. */
  lemma CellsDistinguishStatuses(a: Item, b: Item)
    requires Cell(a).text == Cell(b).text || Cell(a).color == Cell(b).color
    ensures StatusOf(a.stock, a.minLevel) == StatusOf(b.stock, b.minLevel)
  {
    var sa, sb := StatusOf(a.stock, a.minLevel), StatusOf(b.stock, b.minLevel);
    assert Cell(a) == StatusCell(Color(sa), Label(sa));
    assert Cell(b) == StatusCell(Color(sb), Label(sb));
  }

  /** The table's built-in rows. */
  const Data: seq<Item> := [
    Item("Liquid Soap", 12, 15),
    Item("Hand Sanitizer", 5, 5),
    Item("Toilet Roll", 3, 10),
    Item("Disinfectant", 20, 15)
  ]

  /** On the built-in rows: two are below their minimum, one is at it and one is fine. */
  lemma BuiltInStatuses()
    ensures |Data| == 4
    ensures Cell(Data[0]).text == "Below Min" && Cell(Data[1]).text == "At Min"
    ensures Cell(Data[2]).text == "Below Min" && Cell(Data[3]).text == "OK"
  {
  }
}
