# Process diagram layout engine, modelled in Dafny

This project models the layout and annotation engine of `RunAll.py`. The engine turns a
table of process steps (rows of short text cells) into one slide per layout policy. Each
slide holds positioned, coloured, labelled shapes plus a strip of text boxes listing the
verbs found in the cells. There are four policies, in the order `main` runs them:

- **CoreProcess** (`process_script1`). Reads row 1 only. It places columns 0, 1, 2, 4 and 5
  on a seven-slot diagonal and never draws column 3. Columns 0 and 5 each yield a white
  rounded rectangle with the full cell text and a red oval with the cell's first word.
- **NonCoreProcess**, **CorporatePolicy**, **BusinessUnitPolicy** (`process_script2`..`4`).
  These lay out `rows[2:]`, `rows[1:]` and `rows[1:]` on a wrapping grid. A cell becomes
  an oval only if it is non-empty, holds no `(`, and its column passes the policy's skip
  test and a colour test. The column tables are:
  - NonCoreProcess: skip {0, 3, 5}, green {1, 4}, red {2}.
  - CorporatePolicy: skip {0, 1, 5}, green {2, 4}, red {3}.
  - BusinessUnitPolicy: skip {0, 2, 3}, green {1}, red {4, 5}.

  The grid cursor is shared by the whole table.

All lengths are python-pptx EMU integers (914400 per inch), so grid and strip arithmetic
is exact. Diagonal positions are slot indices `s`; `Diagonal.SlotPoint` resolves them to
`(s·W/7, s·H/7)` over the reals.

Modules:
- `Wrappers`: `Option`.
- `Seqs`: `Min`, `Flatten`.
- `Text`: Python's `str.split()[0]` and its whitespace set.
- `Descriptors`: constants, shape, text-box, slide and failure descriptors.
- `Roles`: policies and their column tables.
- `Grid`: the cursor and the grid builder.
- `Diagonal`: the CoreProcess layout.
- `Annotation`: verb collection, chunking into fives, strip placement.
- `Policies`: one run per policy, plus the `Deck` class for the shared presentation and `main`.

Behaviour of the program worth knowing:
- The strip's `top` moves up one box height per verb, not once per group of five: line 137
  sits inside the word loop, so the strip is a staircase.
- A policy that fails still leaves its slide in the deck. The slide is added before anything
  in the modelled part can fail, so it may be partial.
- A six-cell row gives seven CoreProcess shapes: two each for columns 0 and 5, one each for
  columns 1, 2 and 4.
- In CoreProcess, a column after the sixth relabels column 5's rectangle with its own text.

## Model

| member | source | states |
|---|---|---|
| `Text.FirstWord` | RunAll.py:68-78 | `cell.split()[0]` (lines 68 and 78): a first word, when there is one, is non-empty, no longer than the cell and starts with a non-separator |
| `Text.FirstWordAbsentIffBlank` | RunAll.py:68 | `cell.split()[0]` has no word (Python raises) exactly when the cell is empty or whitespace only |
| `Text.FirstWordLocated` | RunAll.py:78 | a first word is non-empty, holds no separator, follows only separators and ends at a separator or at the end of the cell |
| `Roles.HeaderRows` | RunAll.py:154 | the rows dropped here and at lines 248 and 342: every grid policy drops at least the header row; only NonCoreProcess drops two |
| `Roles.ColumnTablesShape` | RunAll.py:177-194 | the column tables of the skip test and the two colour tests (here for NonCoreProcess; at 271-288 for CorporatePolicy and 365-382 for BusinessUnitPolicy): each policy skips three columns, always including column 0; it has a green column, and green columns lie among 1, 2 and 4; it has a red column, and red columns lie among 2 to 5 |
| `Roles.CellFills` | RunAll.py:177-206 | the skip test followed by the two independent colour tests: at most one oval per cell |
| `Roles.Role` | RunAll.py:177-194 | the column role table of the grid policies: a drawn column lies in 1..5 and is green or red |
| `Roles.RoleFromColumnSets` | RunAll.py:180-194 | the role table names exactly the columns of the colour tests: drawn iff green or red, drawn green iff green |
| `Roles.CellFillsFollowRoleTable` | RunAll.py:177-206 | the skip test and the two colour tests (here for NonCoreProcess; the same for CorporatePolicy at 271-300 and BusinessUnitPolicy at 365-394) give exactly one oval of the column's colour for a non-empty, parenthesis-free cell in a node column, and nothing for any other cell, including columns 6 and beyond |
| `Roles.RoleSetsDisjoint` | RunAll.py:177-194 | no column is both skipped and coloured, none is both green and red, and only columns 1 to 5 are ever coloured |
| `Grid.AdvanceKeepsNextNodeInBounds` | RunAll.py:189-192 | the cursor update `Advance`: the next node always fits left of the 10in bound, the cursor never moves left of the margin, and `top` stays or grows by one node height |
| `Grid.AdvanceGridCell` | RunAll.py:189-192 | the cursor update takes the k-th grid cell to the (k+1)-th |
| `Grid.CursorClosedForm` | RunAll.py:163-166 | k cursor updates from the margins put the cursor at `left = 0.5in + (k mod 4)·2in`, `top = 1in + (k div 4)·0.8in` |
| `Grid.GridCellInBounds` | RunAll.py:203-206 | every grid cell starts at or right of the left margin, at or below the top margin, and ends at or left of the 10in bound |
| `Grid.WrapAfterEveryFourth` | RunAll.py:190-192 | the cursor wraps exactly when the next node would cross 10in, i.e. after every fourth node; a wrap returns to the margin and lowers `top` by exactly one node height, otherwise `left` grows by one node width |
| `Grid.GridCellsDisjoint` | RunAll.py:181-192 | shapes placed at different indices never overlap |
| `Grid.GridShapesWithinBounds` | RunAll.py:181-192 | every grid shape is a node-sized oval with its cell's fill and full text, inside the margins and the right bound |
| `Grid.RowNodesAtMostCells` | RunAll.py:176-206 | a row never yields more shapes than it has cells |
| `Grid.QualifyingCellPlaced` | RunAll.py:173-207 | every qualifying cell yields an oval with its column's colour and full text, at its row-major index |
| `Grid.RowMajorOrder` | RunAll.py:174-176 | a qualifying cell earlier in row-major order gets a strictly smaller shape index |
| `Grid.NodesComeFromQualifyingCells` | RunAll.py:176-178 | every emitted shape comes from a qualifying cell and carries that cell's colour and text |
| `Grid.RowNodeSource` | RunAll.py:176-202 | within a row, every emitted node comes from a qualifying cell of that row |
| `Grid.PlaceOval` | RunAll.py:181-192 | one oval at the cursor, then the cursor update, which is `Advance` and keeps the cursor on the closed-form grid cell |
| `Grid.PlaceCell` | RunAll.py:177-206 | one cell step: a skipped cell adds nothing and leaves the cursor alone; otherwise one oval per colour test passed |
| `Grid.PlaceRow` | RunAll.py:175-206 | the cell loop of one row continues the cursor from earlier rows and appends exactly that row's nodes |
| `Grid.BuildGrid` | RunAll.py:163-207 | the shapes are exactly the qualifying cells' ovals in row-major order, the k-th at grid cell k, with one cursor for the whole table |
| `Diagonal.DiagonalLayout` | RunAll.py:61-112 | the column-by-column layout: at most seven shapes; it fails only on column 0 or 5; a blank column 0 leaves no shape, a blank column 5 leaves the five shapes of columns 0 to 4 |
| `Diagonal.BuildDiagonal` | RunAll.py:61-112 | the loop's result, including its relabelling through the carried `shape`/`oval_shape` variables and its early stops, equals the column-by-column reference layout |
| `Diagonal.DiagonalSlotsDistinct` | RunAll.py:64-100 | at most seven shapes, all on diagonal slots 0..6, no two on the same slot |
| `Diagonal.DiagonalFailsIff` | RunAll.py:67-85 | the layout stops exactly when column 0 is blank or a column 5 exists and is blank; a blank column 0 leaves no shape |
| `Diagonal.ColumnThreeIgnored` | RunAll.py:61-63 | changing column 3 changes nothing in the layout |
| `Diagonal.SlotsFormStaircase` | RunAll.py:56-65 | on a canvas of positive size, a later slot lies strictly right of and below an earlier one |
| `Diagonal.SixCellExample` | RunAll.py:67-100 | a six-cell row gives exactly seven shapes with the listed kinds, fills, slots and labels; column 3 gives none |
| `Diagonal.SevenCellExample` | RunAll.py:102-112 | column 5's oval carries only the first word, and a seventh cell becomes the text of column 5's rectangle |
| `Annotation.VerbsOf` | RunAll.py:119-121 | the verbs of one tagged cell: at most one per token |
| `Annotation.VerbsOfExactly` | RunAll.py:119-121 | a string is collected exactly when it is the text of a VERB token |
| `Annotation.VerbsOfCount` | RunAll.py:119-121 | one entry per VERB token, duplicates kept |
| `Annotation.CellsVerbs` | RunAll.py:115-121 | the verbs of a sequence of cells tagged in order; a result means the tagger returned tokens for the last cell (for every cell, by `CellsVerbsFailsIff`) |
| `Annotation.WithoutColumnThree` | RunAll.py:115-117 | the cells the CoreProcess verb loop tags: the row itself up to three cells, otherwise one cell fewer, columns 0 to 2 and then columns 4 onward, in order |
| `Annotation.CellsVerbsFailsIff` | RunAll.py:118-121 | collecting fails exactly when the tagger raises on one of the scanned cells |
| `Annotation.CellsVerbsNoneExtends` | RunAll.py:118 | once the tagger has raised, scanning more cells cannot recover |
| `Annotation.CollectRowVerbs` | RunAll.py:114-121 | the CoreProcess loop collects, in order, the verbs of every cell of the row except column 3 |
| `Annotation.CollectCellVerbs` | RunAll.py:211-215 | the cell loop of one row continues the verbs collected so far with that row's cells, or fails where the tagger raises |
| `Annotation.CollectTableVerbs` | RunAll.py:209-215 | the grid policies' loop collects, in order, the verbs of every cell of every row, with no column or parenthesis exclusion |
| `Annotation.Chunks` | RunAll.py:123 | `[verbs[i:i+5] for i in range(0, len(verbs), 5)]`: no groups exactly for no verbs, and every group holds one to five verbs |
| `Annotation.ChunkCount` | RunAll.py:123 | there are ceil(n/5) groups |
| `Annotation.ChunkSizes` | RunAll.py:123 | no group is empty, all but the last have exactly five verbs, and the last has n mod 5 (or 5) |
| `Annotation.ChunkElement` | RunAll.py:123 | verb w of group c is verb 5c+w |
| `Annotation.ChunksFlatten` | RunAll.py:123 | the groups concatenate back to the verb list |
| `Annotation.StripBox` | RunAll.py:130-137 | the k-th verb's box is 1in × 0.5in with the verb as text, lies within a strip five boxes wide from the 0.5in margin, and its bottom edge is k box heights above the page bottom |
| `Annotation.PlaceStrip` | RunAll.py:125-137 | the k-th verb is boxed 1in × 0.5in at `left = 0.5in + (k mod 5)·1in`, `top = H − 0.5in − k·0.5in` |
| `Annotation.StripStaircase` | RunAll.py:130-137 | each box sits exactly one box height above the previous one; it is one box right within a group and back at the margin when a new group starts |
| `Policies.GridSlice` | RunAll.py:154 | `rows[2:]` here, `rows[1:]` at lines 248 and 342: as many rows as remain after the dropped ones, and none when there are no more |
| `Policies.GridSliceKeepsLaterRows` | RunAll.py:154 | for this slice and those at lines 248 and 342, row i of the slice is row i of the table after the dropped ones |
| `Policies.CoreProcessOutcome` | RunAll.py:61-137 | what process_script1 leaves: a failure leaves no strip and is never an empty first row; once row 1 exists the shapes are its diagonal layout whatever the tagger does |
| `Policies.GridOutcome` | RunAll.py:154-231 | what process_script2..4 leave: a failure leaves no strip and never concerns a label; unless the slice is empty or starts with an empty row, the shapes are the grid of the slice whatever the tagger does |
| `Policies.RunCoreProcess` | RunAll.py:44-137 | the CoreProcess run equals its outcome: missing row 1, the diagonal layout with its failures, then the strip or a tagger failure |
| `Policies.RunGrid` | RunAll.py:154-231 | a grid run equals its outcome: the slice is dropped to `rows[2:]` or `rows[1:]`; an empty slice or an empty first row fails; then the grid, then the strip or a tagger failure |
| `Policies.CoreProcessFailsIff` | RunAll.py:61-121 | CoreProcess fails exactly when row 1 is missing, column 0 is blank, an existing column 5 is blank, or the tagger raises on a scanned cell |
| `Policies.GridFailsIff` | RunAll.py:154-215 | a grid policy fails exactly when its slice is empty, its first row has no cells (the unused step division), or the tagger raises on a cell of the slice |
| `Policies.StripOnlyOnSuccess` | RunAll.py:114-142 | a failed run has no strip; a successful run has one box per collected verb |
| `Policies.CoreProcessReadsOnlyRowOne` | RunAll.py:61 | the CoreProcess slide depends on row 1 alone |
| `Policies.Deck.constructor` | RunAll.py:31 | the shared presentation starts with the given page height, no slides and an empty failure log |
| `Policies.Deck.Process` | RunAll.py:44-142 | once the table has been read, a policy run appends its slide, partial on failure; a failure is logged with the policy's identity and not propagated |
| `Policies.Deck.RunAll` | RunAll.py:426-446 | the four policies run in order A, B, C, D; each appends exactly its own slide and log entry, so one policy's failure does not affect the others |

## Left out

- Part-of-speech tagging (the spaCy model). The tagger is a parameter that returns the
  tokens of a text, or nothing where it raises.
- Rendering details: RGB fill values, fonts and the 18pt size, text colour, alignment and
  the slide layout choice. Shapes and boxes are abstract descriptors.
- CSV reading and file paths; the informational log lines; saving the presentation; the
  command-line argument check in `main`. All of this is I/O or plumbing.
- The `__main__` block. It calls an undefined `process_script5` and never reaches its save.
- IEEE floating point for the diagonal `W/7` steps. Positions are slot indices, resolved over the reals.
- The grid policies' `x_step`/`y_step`. They are never used. Only their division by zero on
  an empty first row is modelled, as a failure.
- Exceptions raised inside python-pptx itself, such as a missing slide layout.
- Failures before a slide exists. Each policy reads the file (RunAll.py:40-42, 151-153,
  245-247, 339-341) and looks up the slide layout (45, 156, 250, 344) before `add_slide`
  (46, 157, 251, 345). If the file cannot be read or the layout is missing, no slide is
  added, so an unreadable file leaves the deck empty. `Policies.Deck.Process` starts from
  a table that has already been read, so it always appends a slide.
- `Policies.Deck.Process`: the slide is appended once the run ends, not filled in place
  after being added. Nothing reads the deck in between, so the resulting deck is the same.
- `main.py`: web upload, spreadsheet conversion and process invocation. This is transport,
  not part of this model.
