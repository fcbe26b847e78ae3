/** The address index of a Python trace graph: a mapping from A1 labels to node positions that is
    queried with any spelling of an address. */
module TraceIndex {
  import opened Options
  import opened Addresses

  datatype LookupError = BadAddress(error: AddressError) | NoSuchKey

  /** The nodes' cells, their labels, and the key index, in node order. */
  datatype TraceGraphData = TraceGraphData(cells: seq<CellAddress>, addresses: seq<string>, byAddress: map<string, nat>)

  function Labels(cells: seq<CellAddress>): seq<string> {
    seq(|cells|, i requires 0 <= i < |cells| => CellText(cells[i]))
  }

  /** Collecting (key, position) pairs into a map: a later pair replaces an earlier one. */
  function Collect(addresses: seq<string>): map<string, nat> {
    if addresses == [] then map[]
    else Collect(addresses[..|addresses| - 1])[addresses[|addresses| - 1] := |addresses| - 1]
  }

  function NewGraph(cells: seq<CellAddress>): TraceGraphData {
    TraceGraphData(cells, Labels(cells), Collect(Labels(cells)))
  }

  /** `TraceNodes.__getitem__`. */
  function GetItem(graph: TraceGraphData, address: string): Result<nat, LookupError> {
    match ParseCell(address)
    case Err(e) => Err(BadAddress(e))
    case Ok(cell) =>
      if CellText(cell) in graph.byAddress then Ok(graph.byAddress[CellText(cell)]) else Err(NoSuchKey)
  }

  /** `TraceNodes.__contains__`. */
  function Contains(graph: TraceGraphData, address: string): Result<bool, LookupError> {
    match ParseCell(address)
    case Err(e) => Err(BadAddress(e))
    case Ok(cell) => Ok(CellText(cell) in graph.byAddress)
  }

  /** The engine builds nodes for grid cells of named sheets. */
  predicate RealCells(cells: seq<CellAddress>) {
    forall i :: 0 <= i < |cells| ==> InGrid(cells[i]) && cells[i].sheet != ""
  }

  predicate LastAt<T(==)>(items: seq<T>, item: T, i: nat) {
    i < |items| && items[i] == item && forall m :: i < m < |items| ==> items[m] != item
  }

  lemma {:induction false} CollectLast(addresses: seq<string>, address: string)
    ensures address in Collect(addresses) <==> address in addresses
    ensures address in addresses ==> LastAt(addresses, address, Collect(addresses)[address])
  {
    if addresses != [] {
      var front, last := addresses[..|addresses| - 1], addresses[|addresses| - 1];
      CollectLast(front, address);
      assert addresses == front + [last];
    }
  }

  lemma LastAtUnique<T>(items: seq<T>, item: T, i: nat, j: nat)
    requires LastAt(items, item, i) && LastAt(items, item, j)
    ensures i == j
  {
  }

  lemma LastAtLabels(cells: seq<CellAddress>, cell: CellAddress, i: nat)
    requires RealCells(cells) && InGrid(cell)
    ensures LastAt(Labels(cells), CellText(cell), i) <==> LastAt(cells, cell, i)
    ensures CellText(cell) in Labels(cells) <==> cell in cells
  {
    hide CellText;
    var labels, key := Labels(cells), CellText(cell);
    forall k | 0 <= k < |cells| ensures labels[k] == key <==> cells[k] == cell {
      CellTextInjective(cells[k], cell);
    }
    if cell in cells {
      var k :| 0 <= k < |cells| && cells[k] == cell;
      assert labels[k] == key;
    }
  }

  lemma ParsedCellInGrid(address: string)
    requires ParseCell(address).Ok?
    ensures InGrid(ParseCell(address).value)
  {
  }

  /** Looking up any text: it finds position `i` exactly when the text parses to the cell of node
      `i` and no later node has that cell; a text that parses to no node's cell is a key error. */
  lemma GetItemIff(cells: seq<CellAddress>, address: string, i: nat)
    requires RealCells(cells)
    ensures GetItem(NewGraph(cells), address) == Ok(i) <==>
            ParseCell(address).Ok? && LastAt(cells, ParseCell(address).value, i)
    ensures GetItem(NewGraph(cells), address) == Err(NoSuchKey) <==>
            ParseCell(address).Ok? && ParseCell(address).value !in cells
    ensures Contains(NewGraph(cells), address) == Ok(true) <==>
            ParseCell(address).Ok? && ParseCell(address).value in cells
  {
    if ParseCell(address).Ok? {
      var cell := ParseCell(address).value;
      ParsedCellInGrid(address);
      hide ParseCell, CellText, LastAt, Collect, Labels;
      CollectLast(Labels(cells), CellText(cell));
      LastAtLabels(cells, cell, i);
      if cell in cells {
        var j := Collect(Labels(cells))[CellText(cell)];
        LastAtLabels(cells, cell, j);
        if LastAt(cells, cell, i) {
          LastAtUnique(cells, cell, i, j);
        }
      } else if LastAt(cells, cell, i) {
        LastAtOccurs(cells, cell, i);
      }
    }
  }

  lemma LastAtOccurs<T>(items: seq<T>, item: T, i: nat)
    requires LastAt(items, item, i)
    ensures item in items
  {
  }

  /** Every key of the mapping finds a node with that cell, and its own node when no two nodes
      share a cell. */
  lemma KeysAreFound(cells: seq<CellAddress>, k: nat)
    requires RealCells(cells) && k < |cells|
    ensures var found := GetItem(NewGraph(cells), NewGraph(cells).addresses[k]);
            found.Ok? && found.value < |cells| && cells[found.value] == cells[k]
            && (LastAt(cells, cells[k], k) ==> found.value == k)
  {
    var key := CellText(cells[k]);
    CellRoundTrip(cells[k]);
    assert ParseCell(key) == Ok(cells[k]);
    assert NewGraph(cells).addresses[k] == key;
    hide ParseCell, CellText;
    assert Labels(cells)[k] == key;
    CollectLast(Labels(cells), key);
    var j := Collect(Labels(cells))[key];
    LastAtLabels(cells, cells[k], j);
    if LastAt(cells, cells[k], k) {
      LastAtUnique(cells, cells[k], j, k);
    }
  }
}
