/** The four layout policies and, for the three grid policies, which columns become
    shapes and in which colour. */
module Roles {
  import opened Descriptors

  /** One policy per process kind of the input table. CoreProcess uses the diagonal
      layout; the other three use the wrapping grid. */
  datatype Policy = CoreProcess | NonCoreProcess | CorporatePolicy | BusinessUnitPolicy

  type GridPolicy = p: Policy | !p.CoreProcess? witness NonCoreProcess

  /** How many leading table rows a grid policy drops before laying out the rest. */
  function HeaderRows(p: GridPolicy): (n: nat)
    ensures 1 <= n && (n == 2 <==> p == NonCoreProcess)
  {
    match p
    case NonCoreProcess => 2
    case CorporatePolicy => 1
    case BusinessUnitPolicy => 1
  }

  /** Columns tested and skipped before any colour test. */
  function SkipColumns(p: GridPolicy): (r: set<nat>)
  {
    match p
    case NonCoreProcess => {0, 3, 5}
    case CorporatePolicy => {0, 1, 5}
    case BusinessUnitPolicy => {0, 2, 3}
  }

  /** Columns drawn as green ovals. */
  function GreenColumns(p: GridPolicy): (r: set<nat>)
  {
    match p
    case NonCoreProcess => {1, 4}
    case CorporatePolicy => {2, 4}
    case BusinessUnitPolicy => {1}
  }

  /** Columns drawn as red ovals. */
  function RedColumns(p: GridPolicy): (r: set<nat>)
  {
    match p
    case NonCoreProcess => {2}
    case CorporatePolicy => {3}
    case BusinessUnitPolicy => {4, 5}
  }

  /** The fills the grid builder emits for one cell: nothing when the cell is empty, its
      column is skipped or it holds a parenthesis; otherwise one oval per colour test the
      column passes (the green test and the red test are independent). */
  function CellFills(p: GridPolicy, column: nat, cell: string): (r: seq<Fill>)
    ensures |r| <= 1
  {
    if cell == "" || column in SkipColumns(p) || '(' in cell then []
    else (if column in GreenColumns(p) then [Green] else [])
         + (if column in RedColumns(p) then [Red] else [])
  }

  datatype ColumnRole = Skip | Draw(fill: Fill)

  /** The role table of the grid policies, column by column; columns 6 and beyond are
      ignored by every policy. */
  function Role(p: GridPolicy, column: nat): (r: ColumnRole)
    ensures r.Draw? ==> 1 <= column <= 5 && r.fill != White
  {
    match (p, column)
    case (NonCoreProcess, 1) => Draw(Green)
    case (NonCoreProcess, 2) => Draw(Red)
    case (NonCoreProcess, 4) => Draw(Green)
    case (CorporatePolicy, 2) => Draw(Green)
    case (CorporatePolicy, 3) => Draw(Red)
    case (CorporatePolicy, 4) => Draw(Green)
    case (BusinessUnitPolicy, 1) => Draw(Green)
    case (BusinessUnitPolicy, 4) => Draw(Red)
    case (BusinessUnitPolicy, 5) => Draw(Red)
    case _ => Skip
  }

  /** A cell becomes a shape when it is non-empty, free of parentheses and in a node column. */
  predicate Qualifies(p: GridPolicy, column: nat, cell: string) {
    cell != "" && '(' !in cell && Role(p, column).Draw?
  }

  /** The source's skip/green/red tests agree with the role table: a qualifying cell gives
      exactly one oval, of its column's colour, and every other cell gives none. */
  lemma CellFillsFollowRoleTable(p: GridPolicy, column: nat, cell: string)
    ensures CellFills(p, column, cell) == if Qualifies(p, column, cell) then [Role(p, column).fill] else []
  {
  }

  /** The role table and the colour tests name the same columns: a column is drawn exactly
      when it is in one of the colour sets, and drawn green exactly when it is in the green set. */
  lemma RoleFromColumnSets(p: GridPolicy, column: nat)
    ensures Role(p, column).Draw? <==> column in GreenColumns(p) + RedColumns(p)
    ensures Role(p, column) == Draw(Green) <==> column in GreenColumns(p)
  {
  }

  /** Every grid policy skips three columns, column 0 among them, and has at least one
      green column, among 1, 2 and 4, and at least one red column, among 2 to 5. */
  lemma ColumnTablesShape(p: GridPolicy)
    ensures 0 in SkipColumns(p) && |SkipColumns(p)| == 3
    ensures GreenColumns(p) != {} && GreenColumns(p) <= {1, 2, 4}
    ensures RedColumns(p) != {} && RedColumns(p) <= {2, 3, 4, 5}
  {
  }

  /** No column is both skipped and coloured, and no column is both green and red. */
  lemma RoleSetsDisjoint(p: GridPolicy)
    ensures SkipColumns(p) !! GreenColumns(p) + RedColumns(p)
    ensures GreenColumns(p) !! RedColumns(p)
    ensures GreenColumns(p) + RedColumns(p) <= {1, 2, 3, 4, 5}
  {
  }
}
