/** The wrapping grid used by the NonCoreProcess, CorporatePolicy and BusinessUnitPolicy
    policies: a cursor that starts at the margins, moves one node right after every shape
    and wraps to the next line before a node would cross the right bound. The cursor is
    carried across all rows of the table and never reset. */
module Grid {
  import opened Seqs
  import opened Descriptors
  import opened Roles

  datatype Cursor = Cursor(left: int, top: int)

  const Start: Cursor := Cursor(GridLeftMargin, GridTopMargin)

  /** The cursor update after a shape is placed. */
  function Advance(c: Cursor): (r: Cursor)
  {
    var left := c.left + NodeWidth;
    if left + NodeWidth > GridRightBound then Cursor(GridLeftMargin, c.top + NodeHeight)
    else Cursor(left, c.top)
  }

  /** After an update the next node fits left of the right bound, the cursor never moves
      left of the margin, and it either stays on its line or drops exactly one node height. */
  lemma AdvanceKeepsNextNodeInBounds(c: Cursor)
    ensures Advance(c).left + NodeWidth <= GridRightBound
    ensures c.left >= GridLeftMargin ==> Advance(c).left >= GridLeftMargin
    ensures Advance(c).top == c.top || Advance(c).top == c.top + NodeHeight
  {
  }

  /** The cursor after `k` shapes have been placed. */
  function CursorAfter(k: nat): Cursor {
    if k == 0 then Start else Advance(CursorAfter(k - 1))
  }

  /** Nodes per grid line. */
  const PerLine: nat := 4

  /** Closed form of the cell the k-th shape (0-based) occupies. */
  function GridCell(k: nat): Cursor {
    Cursor(GridLeftMargin + (k % PerLine) * NodeWidth, GridTopMargin + (k / PerLine) * NodeHeight)
  }

  lemma AdvanceGridCell(k: nat)
    ensures Advance(GridCell(k)) == GridCell(k + 1)
  {
    var q, r := k / PerLine, k % PerLine;
    assert k == PerLine * q + r;
    if r < PerLine - 1 {
      assert (k + 1) / PerLine == q && (k + 1) % PerLine == r + 1;
    } else {
      assert (k + 1) / PerLine == q + 1 && (k + 1) % PerLine == 0;
    }
  }

  /** Iterating the source's cursor update k times from the margins lands on the k-th cell. */
  lemma {:induction false} CursorClosedForm(k: nat)
    ensures CursorAfter(k) == GridCell(k)
  {
    if k > 0 {
      CursorClosedForm(k - 1);
      AdvanceGridCell(k - 1);
    }
  }

  /** Every placed node starts at or right of the left margin, at or below the top margin,
      and ends at or left of the right bound. */
  lemma GridCellInBounds(k: nat)
    ensures GridLeftMargin <= GridCell(k).left
    ensures GridCell(k).left + NodeWidth <= GridRightBound
    ensures GridTopMargin <= GridCell(k).top
  {
  }

  /** The cursor wraps exactly when the next node would cross the right bound, which
      happens after every fourth node; a wrap returns to the margin and lowers the cursor
      by exactly one node height, otherwise the cursor moves exactly one node right. */
  lemma WrapAfterEveryFourth(k: nat)
    ensures GridCell(k).left + 2 * NodeWidth > GridRightBound <==> (k + 1) % PerLine == 0
    ensures (k + 1) % PerLine == 0 ==> GridCell(k + 1) == Cursor(GridLeftMargin, GridCell(k).top + NodeHeight)
    ensures (k + 1) % PerLine != 0 ==> GridCell(k + 1) == Cursor(GridCell(k).left + NodeWidth, GridCell(k).top)
  {
    AdvanceGridCell(k);
  }

  /** Distinct shapes never overlap: their cells are at least one node apart horizontally
      or vertically. */
  lemma GridCellsDisjoint(k: nat, j: nat)
    requires k != j
    ensures || GridCell(k).left + NodeWidth <= GridCell(j).left
            || GridCell(j).left + NodeWidth <= GridCell(k).left
            || GridCell(k).top + NodeHeight <= GridCell(j).top
            || GridCell(j).top + NodeHeight <= GridCell(k).top
  {
    assert k == PerLine * (k / PerLine) + k % PerLine;
    assert j == PerLine * (j / PerLine) + j % PerLine;
  }

  /** What a qualifying cell contributes: its fill and its full text. */
  datatype Node = Node(fill: Fill, text: string)

  function CellNodes(p: GridPolicy, column: nat, cell: string): seq<Node> {
    var fills := CellFills(p, column, cell);
    seq(|fills|, n requires 0 <= n < |fills| => Node(fills[n], cell))
  }

  /** The nodes of one row, left to right. */
  function RowNodes(p: GridPolicy, row: seq<string>): seq<Node> {
    if row == [] then []
    else RowNodes(p, row[..|row| - 1]) + CellNodes(p, |row| - 1, row[|row| - 1])
  }

  /** The nodes of a table, row after row. */
  function TableNodes(p: GridPolicy, rows: seq<seq<string>>): seq<Node> {
    if rows == [] then []
    else TableNodes(p, rows[..|rows| - 1]) + RowNodes(p, rows[|rows| - 1])
  }

  /** The k-th node becomes an oval at the k-th grid cell. */
  function GridShape(k: nat, n: Node): Shape {
    Shape(Oval, Point(GridCell(k).left, GridCell(k).top), NodeWidth, NodeHeight, n.fill, n.text)
  }

  function GridShapes(nodes: seq<Node>): seq<Shape> {
    seq(|nodes|, k requires 0 <= k < |nodes| => GridShape(k, nodes[k]))
  }

  /** Every grid shape is an oval of node size carrying its node's fill and full text, and
      lies inside the margins and the right bound. */
  lemma GridShapesWithinBounds(nodes: seq<Node>)
    ensures |GridShapes(nodes)| == |nodes|
    ensures forall k :: 0 <= k < |nodes| ==>
              var s := GridShapes(nodes)[k];
              && s.kind == Oval && s.fill == nodes[k].fill && s.text == nodes[k].text
              && s.width == NodeWidth && s.height == NodeHeight
              && s.at.Point? && GridLeftMargin <= s.at.left && s.at.left + NodeWidth <= GridRightBound
              && GridTopMargin <= s.at.top
  {
    forall k | 0 <= k < |nodes| {
      GridCellInBounds(k);
    }
  }

  lemma RowNodesSnoc(p: GridPolicy, row: seq<string>, i: nat)
    requires i < |row|
    ensures RowNodes(p, row[..i + 1]) == RowNodes(p, row[..i]) + CellNodes(p, i, row[i])
  {
    assert row[..i + 1][..i] == row[..i];
  }

  lemma TableNodesSnoc(p: GridPolicy, rows: seq<seq<string>>, j: nat)
    requires j < |rows|
    ensures TableNodes(p, rows[..j + 1]) == TableNodes(p, rows[..j]) + RowNodes(p, rows[j])
  {
    assert rows[..j + 1][..j] == rows[..j];
  }

  /** Appending a node places exactly one more shape, at the next grid cell. */
  lemma GridShapesSnoc(nodes: seq<Node>, n: Node)
    ensures GridShapes(nodes + [n]) == GridShapes(nodes) + [GridShape(|nodes|, n)]
  {
  }

  /** A row never yields more shapes than it has cells. */
  lemma {:induction false} RowNodesAtMostCells(p: GridPolicy, row: seq<string>)
    ensures |RowNodes(p, row)| <= |row|
  {
    if row != [] {
      RowNodesAtMostCells(p, row[..|row| - 1]);
      RoleSetsDisjoint(p);
    }
  }

  lemma {:induction false} RowNodesPrefix(p: GridPolicy, row: seq<string>, i: nat)
    requires i <= |row|
    ensures |RowNodes(p, row[..i])| <= |RowNodes(p, row)|
    ensures RowNodes(p, row)[..|RowNodes(p, row[..i])|] == RowNodes(p, row[..i])
    decreases |row| - i
  {
    if i < |row| {
      RowNodesPrefix(p, row, i + 1);
      RowNodesSnoc(p, row, i);
      PrefixOfPrefix(RowNodes(p, row), RowNodes(p, row[..i]), CellNodes(p, i, row[i]));
    } else {
      assert row[..i] == row;
    }
  }

  lemma {:induction false} TableNodesPrefix(p: GridPolicy, rows: seq<seq<string>>, j: nat)
    requires j <= |rows|
    ensures |TableNodes(p, rows[..j])| <= |TableNodes(p, rows)|
    ensures TableNodes(p, rows)[..|TableNodes(p, rows[..j])|] == TableNodes(p, rows[..j])
    decreases |rows| - j
  {
    if j < |rows| {
      TableNodesPrefix(p, rows, j + 1);
      TableNodesSnoc(p, rows, j);
      PrefixOfPrefix(TableNodes(p, rows), TableNodes(p, rows[..j]), RowNodes(p, rows[j]));
    } else {
      assert rows[..j] == rows;
    }
  }

  /** Index among all emitted shapes of the shape for cell (j, i): the shapes of the
      earlier rows, then those of the earlier cells of its row. */
  function NodeIndex(p: GridPolicy, rows: seq<seq<string>>, j: nat, i: nat): nat
    requires j < |rows| && i <= |rows[j]|
  {
    |TableNodes(p, rows[..j])| + |RowNodes(p, rows[j][..i])|
  }

  lemma QualifyingCellNodes(p: GridPolicy, column: nat, cell: string)
    requires Qualifies(p, column, cell)
    ensures CellNodes(p, column, cell) == [Node(Role(p, column).fill, cell)]
  {
    CellFillsFollowRoleTable(p, column, cell);
  }

  lemma RowNodeOfQualifyingCell(p: GridPolicy, row: seq<string>, i: nat)
    requires i < |row| && Qualifies(p, i, row[i])
    ensures |RowNodes(p, row[..i])| < |RowNodes(p, row)|
    ensures RowNodes(p, row)[|RowNodes(p, row[..i])|] == Node(Role(p, i).fill, row[i])
  {
    var node := Node(Role(p, i).fill, row[i]);
    QualifyingCellNodes(p, i, row[i]);
    var a := RowNodes(p, row[..i]);
    RowNodesSnoc(p, row, i);
    RowNodesPrefix(p, row, i + 1);
    var r := RowNodes(p, row);
    assert r[..|a| + 1] == a + [node];
    assert r[|a|] == (a + [node])[|a|];
  }

  /** Every qualifying cell yields its node, of its column's colour and with its full text,
      at its row-major index. */
  lemma QualifyingCellPlaced(p: GridPolicy, rows: seq<seq<string>>, j: nat, i: nat)
    requires j < |rows| && i < |rows[j]| && Qualifies(p, i, rows[j][i])
    ensures NodeIndex(p, rows, j, i) < |TableNodes(p, rows)|
    ensures TableNodes(p, rows)[NodeIndex(p, rows, j, i)] == Node(Role(p, i).fill, rows[j][i])
  {
    RowNodeOfQualifyingCell(p, rows[j], i);
    var a := RowNodes(p, rows[j][..i]);
    var r := RowNodes(p, rows[j]);
    var t := TableNodes(p, rows[..j]);
    TableNodesSnoc(p, rows, j);
    TableNodesPrefix(p, rows, j + 1);
    var all := TableNodes(p, rows);
    assert all[..|t| + |r|] == t + r;
    var k := NodeIndex(p, rows, j, i);
    assert k == |t| + |a|;
    assert all[k] == (t + r)[k] == r[|a|];
  }

  /** Shapes follow the cells in row-major order: a qualifying cell earlier in the table
      has a strictly smaller shape index. */
  lemma RowMajorOrder(p: GridPolicy, rows: seq<seq<string>>, j1: nat, i1: nat, j2: nat, i2: nat)
    requires j1 < |rows| && i1 < |rows[j1]| && Qualifies(p, i1, rows[j1][i1])
    requires j2 < |rows| && i2 < |rows[j2]|
    requires j1 < j2 || (j1 == j2 && i1 < i2)
    ensures NodeIndex(p, rows, j1, i1) < NodeIndex(p, rows, j2, i2)
  {
    var k1, k2 := NodeIndex(p, rows, j1, i1), NodeIndex(p, rows, j2, i2);
    if j1 == j2 {
      QualifyingCellGrowsRow(p, rows[j1], i1, i2);
      assert k1 == |TableNodes(p, rows[..j1])| + |RowNodes(p, rows[j1][..i1])|;
      assert k2 == |TableNodes(p, rows[..j1])| + |RowNodes(p, rows[j1][..i2])|;
    } else {
      QualifyingCellGrowsRow(p, rows[j1], i1, |rows[j1]|);
      assert rows[j1][..|rows[j1]|] == rows[j1];
      EarlierRowsFewerNodes(p, rows, j1, j2);
      assert k1 < |TableNodes(p, rows[..j1])| + |RowNodes(p, rows[j1])| <= |TableNodes(p, rows[..j2])| <= k2;
    }
  }

  /** Within a row, a qualifying cell adds a node: the prefix ending after it has more
      nodes than the prefix ending before it. */
  lemma QualifyingCellGrowsRow(p: GridPolicy, row: seq<string>, i1: nat, i2: nat)
    requires i1 < i2 <= |row| && Qualifies(p, i1, row[i1])
    ensures |RowNodes(p, row[..i1])| < |RowNodes(p, row[..i2])|
  {
    assert row[..i2][..i1] == row[..i1];
    assert row[..i2][i1] == row[i1];
    RowNodeOfQualifyingCell(p, row[..i2], i1);
  }

  /** The rows before row `j2` include row `j1` and all rows before it. */
  lemma EarlierRowsFewerNodes(p: GridPolicy, rows: seq<seq<string>>, j1: nat, j2: nat)
    requires j1 < j2 <= |rows|
    ensures |TableNodes(p, rows[..j1])| + |RowNodes(p, rows[j1])| <= |TableNodes(p, rows[..j2])|
  {
    TableNodesSnoc(p, rows, j1);
    assert rows[..j2][..j1 + 1] == rows[..j1 + 1];
    TableNodesPrefix(p, rows[..j2], j1 + 1);
  }

  /** Every node comes from a qualifying cell, with that cell's colour and full text:
      no other cell (empty, parenthesised, skipped or beyond the sixth column) emits. */
  lemma {:induction false} NodesComeFromQualifyingCells(p: GridPolicy, rows: seq<seq<string>>, k: nat)
    requires k < |TableNodes(p, rows)|
    ensures exists j: nat, i: nat :: j < |rows| && i < |rows[j]| && Qualifies(p, i, rows[j][i])
                                     && TableNodes(p, rows)[k] == Node(Role(p, i).fill, rows[j][i])
  {
    var last := |rows| - 1;
    var before := TableNodes(p, rows[..last]);
    if k < |before| {
      NodesComeFromQualifyingCells(p, rows[..last], k);
      var j: nat, i: nat :| j < last && i < |rows[..last][j]| && Qualifies(p, i, rows[..last][j][i])
                            && before[k] == Node(Role(p, i).fill, rows[..last][j][i]);
      assert rows[..last][j] == rows[j];
    } else {
      var i := RowNodeSource(p, rows[last], k - |before|);
      assert rows[last][i] == rows[last][i];
    }
  }

  /** The column whose cell yields the n-th node of a row. */
  lemma {:induction false} RowNodeSource(p: GridPolicy, row: seq<string>, n: nat) returns (i: nat)
    requires n < |RowNodes(p, row)|
    ensures i < |row| && Qualifies(p, i, row[i]) && RowNodes(p, row)[n] == Node(Role(p, i).fill, row[i])
  {
    var last := |row| - 1;
    var before := RowNodes(p, row[..last]);
    if n < |before| {
      i := RowNodeSource(p, row[..last], n);
    } else {
      CellFillsFollowRoleTable(p, last, row[last]);
      i := last;
    }
  }

  /** One oval of the given fill and text at the cursor, then the cursor update. */
  method PlaceOval(fill: Fill, text: string, ghost done: seq<Node>, shapes: seq<Shape>, left: int, top: int)
    returns (shapes': seq<Shape>, left': int, top': int)
    requires shapes == GridShapes(done) && Cursor(left, top) == GridCell(|shapes|)
    ensures shapes' == GridShapes(done + [Node(fill, text)])
    ensures Cursor(left', top') == Advance(Cursor(left, top)) == GridCell(|shapes'|)
  {
    GridShapesSnoc(done, Node(fill, text));
    shapes' := shapes + [Shape(Oval, Point(left, top), NodeWidth, NodeHeight, fill, text)];
    AdvanceGridCell(|shapes|);
    left', top' := left + NodeWidth, top;
    if left' + NodeWidth > GridRightBound {
      left' := GridLeftMargin;
      top' := top + NodeHeight;
    }
  }

  /** What one more cell adds to the nodes placed so far, in the form of the source's
      tests: nothing for a skipped cell, else a green node and then a red node as its
      column passes each colour test. */
  lemma RowNodesStep(p: GridPolicy, row: seq<string>, i: nat, before: seq<Node>)
    requires i < |row|
    ensures var cell, done := row[i], before + RowNodes(p, row[..i]);
            before + RowNodes(p, row[..i + 1])
            == if cell == "" || i in SkipColumns(p) || '(' in cell then done
               else done + (if i in GreenColumns(p) then [Node(Green, cell)] else [])
                    + (if i in RedColumns(p) then [Node(Red, cell)] else [])
  {
    RowNodesSnoc(p, row, i);
    CellNodesByTest(p, i, row[i]);
    assert before + RowNodes(p, row[..i + 1]) == before + RowNodes(p, row[..i]) + CellNodes(p, i, row[i]);
  }

  lemma CellNodesByTest(p: GridPolicy, column: nat, cell: string)
    ensures cell == "" || column in SkipColumns(p) || '(' in cell ==> CellNodes(p, column, cell) == []
    ensures !(cell == "" || column in SkipColumns(p) || '(' in cell) ==>
              CellNodes(p, column, cell)
              == (if column in GreenColumns(p) then [Node(Green, cell)] else [])
                 + (if column in RedColumns(p) then [Node(Red, cell)] else [])
  {
  }

  /** The body of the cell loop for column `i`: skip the cell, or place one oval per colour
      test it passes. */
  method PlaceCell(p: GridPolicy, row: seq<string>, i: nat, ghost before: seq<Node>,
                   shapes: seq<Shape>, left: int, top: int)
    returns (shapes': seq<Shape>, left': int, top': int)
    requires i < |row|
    requires shapes == GridShapes(before + RowNodes(p, row[..i])) && Cursor(left, top) == GridCell(|shapes|)
    ensures shapes' == GridShapes(before + RowNodes(p, row[..i + 1]))
    ensures Cursor(left', top') == GridCell(|shapes'|)
  {
    var cell := row[i];
    RowNodesStep(p, row, i, before);
    shapes', left', top' := shapes, left, top;
    if cell == "" || i in SkipColumns(p) || '(' in cell {
      return;
    }
    ghost var placed := before + RowNodes(p, row[..i]);
    if i in GreenColumns(p) {
      shapes', left', top' := PlaceOval(Green, cell, placed, shapes', left', top');
      placed := placed + [Node(Green, cell)];
    }
    if i in RedColumns(p) {
      shapes', left', top' := PlaceOval(Red, cell, placed, shapes', left', top');
      placed := placed + [Node(Red, cell)];
    }
    assert placed == before + RowNodes(p, row[..i + 1]);
  }

  /** The cell loop over one row, continuing from the cursor left by the earlier rows. */
  method PlaceRow(p: GridPolicy, row: seq<string>, ghost before: seq<Node>,
                  shapes: seq<Shape>, left: int, top: int)
    returns (shapes': seq<Shape>, left': int, top': int)
    requires shapes == GridShapes(before) && Cursor(left, top) == GridCell(|shapes|)
    ensures shapes' == GridShapes(before + RowNodes(p, row))
    ensures Cursor(left', top') == GridCell(|shapes'|)
  {
    shapes', left', top' := shapes, left, top;
    assert before + RowNodes(p, row[..0]) == before;
    var i := 0;
    while i < |row|
      invariant 0 <= i <= |row|
      invariant shapes' == GridShapes(before + RowNodes(p, row[..i]))
      invariant Cursor(left', top') == GridCell(|shapes'|)
    {
      shapes', left', top' := PlaceCell(p, row, i, before, shapes', left', top');
      i := i + 1;
    }
    assert row[..|row|] == row;
  }

  /** The grid builder: walks every row and every cell with one cursor shared by the whole
      table. */
  method BuildGrid(p: GridPolicy, rows: seq<seq<string>>) returns (shapes: seq<Shape>)
    ensures shapes == GridShapes(TableNodes(p, rows))
  {
    var left, top := GridLeftMargin, GridTopMargin;
    shapes := [];
    var j := 0;
    while j < |rows|
      invariant 0 <= j <= |rows|
      invariant shapes == GridShapes(TableNodes(p, rows[..j]))
      invariant Cursor(left, top) == GridCell(|shapes|)
    {
      shapes, left, top := PlaceRow(p, rows[j], TableNodes(p, rows[..j]), shapes, left, top);
      TableNodesSnoc(p, rows, j);
      j := j + 1;
    }
    assert rows[..|rows|] == rows;
  }
}
