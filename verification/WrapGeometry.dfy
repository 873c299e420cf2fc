/** Folding a wide terminal grid onto the phone's narrower rows, and painting the
    folded rows in runs of one background colour. */
module WrapGeometry {
  import opened Wrappers

  // ----- The fold -----

  function Max(a: int, b: int): int {
    if a > b then a else b
  }

  function Min(a: int, b: int): int {
    if a < b then a else b
  }

  /** The quotient rounded up; on terminal widths a double is exact. */
  function ChunksPerRow(sourceCols: int, displayCols: int): int {
    if sourceCols <= 0 || displayCols <= 0 then 1
    else Max(1, (sourceCols + displayCols - 1) / displayCols)
  }

  datatype Slice = Slice(sourceRow: int, firstCol: int, colCount: int)

  function SourceSlice(displayRow: int, sourceCols: int, sourceRows: int, chunksPerRow: int, displayCols: int): Option<Slice> {
    if chunksPerRow <= 0 || displayRow < 0 || displayCols <= 0 || sourceCols <= 0 then None
    else
      var sourceRow, firstCol := displayRow / chunksPerRow, (displayRow % chunksPerRow) * displayCols;
      if sourceRow >= sourceRows || firstCol >= sourceCols then None
      else Some(Slice(sourceRow, firstCol, Max(0, Min(displayCols, sourceCols - firstCol))))
  }

  function DisplayRowCount(sourceRows: int, chunksPerRow: int): int {
    Max(0, sourceRows) * Max(1, chunksPerRow)
  }

  datatype Position = Position(row: int, col: int)

  /** Where the canvas puts the cursor, and so where it takes a cell to be. */
  function Place(cell: Position, chunksPerRow: int, displayCols: int): Position
    requires displayCols > 0
  {
    Position(cell.row * chunksPerRow + cell.col / displayCols, cell.col % displayCols)
  }

  /** The source cell painted at an offset of a slice. */
  function CellAt(s: Slice, offset: int): Position {
    Position(s.sourceRow, s.firstCol + offset)
  }

  // ----- Division -----

  lemma DivMod(q: int, d: int, r: int)
    requires d > 0 && 0 <= r < d
    ensures (q * d + r) / d == q && (q * d + r) % d == r
  {
    var n := q * d + r;
    assert n == (n / d) * d + n % d;
    QuotientIsUnique(q, r, n / d, n % d, d);
  }

  lemma QuotientIsUnique(q: int, r: int, p: int, s: int, d: int)
    requires d > 0 && 0 <= r < d && 0 <= s < d && q * d + r == p * d + s
    ensures q == p && r == s
  {
    if q > p {
      MulStep(p, q, d);
    } else if p > q {
      MulStep(q, p, d);
    }
  }

  lemma MulStep(a: int, b: int, d: int)
    requires a < b && d >= 0
    ensures a * d + d <= b * d
  {
    MulLe(a + 1, b, d);
    assert (a + 1) * d == a * d + d;
  }

  lemma DivBounds(n: int, d: int)
    requires d > 0
    ensures (n / d) * d <= n < (n / d) * d + d
    ensures n == (n / d) * d + n % d
  {
  }

  lemma MulLe(a: int, b: int, d: int)
    requires a <= b && d >= 0
    ensures a * d <= b * d
  {
  }

  /** The chunks of a row cover it, and the last of them is not empty. */
  lemma ChunksCover(sourceCols: int, displayCols: int)
    requires sourceCols > 0 && displayCols > 0
    ensures var c := ChunksPerRow(sourceCols, displayCols);
            c >= 1 && (c - 1) * displayCols < sourceCols <= c * displayCols
  {
    var n := sourceCols + displayCols - 1;
    DivBounds(n, displayCols);
    var q := n / displayCols;
    if q <= 0 {
      MulLe(q, 0, displayCols);
    }
    assert (q - 1) * displayCols == q * displayCols - displayCols;
  }

  // ----- The fold is a bijection -----

  /** The row a display row belongs to is in the grid exactly if the display row is
      below the count. */
  lemma RowIsInGrid(displayRow: int, sourceRows: int, c: int)
    requires displayRow >= 0 && c >= 1
    ensures displayRow / c < sourceRows <==> displayRow < DisplayRowCount(sourceRows, c)
    ensures displayRow / c >= 0
  {
    var q := displayRow / c;
    DivBounds(displayRow, c);
    if q < sourceRows {
      MulLe(q + 1, sourceRows, c);
      assert (q + 1) * c == q * c + c;
    } else {
      MulLe(Max(0, sourceRows), q, c);
    }
  }

  /** The first column of every chunk is in the row. */
  lemma FirstColIsInRow(displayRow: int, sourceCols: int, displayCols: int, c: int)
    requires displayRow >= 0 && c >= 1 && displayCols > 0 && (c - 1) * displayCols < sourceCols
    ensures 0 <= (displayRow % c) * displayCols < sourceCols
  {
    var r := displayRow % c;
    MulLe(r, c - 1, displayCols);
    MulLe(0, r, displayCols);
  }

  /** Exactly the display rows of the count have a slice; none is empty, none is wider
      than the phone, and all of its cells lie in the grid. */
  lemma SlicesFitTheGrid(displayRow: int, sourceCols: int, sourceRows: int, displayCols: int)
    requires sourceCols > 0 && displayCols > 0
    ensures var c := ChunksPerRow(sourceCols, displayCols);
            var s := SourceSlice(displayRow, sourceCols, sourceRows, c, displayCols);
            && (s.Some? <==> 0 <= displayRow < DisplayRowCount(sourceRows, c))
            && (s.Some? ==>
                  && 1 <= s.value.colCount <= displayCols
                  && 0 <= s.value.sourceRow < sourceRows
                  && 0 <= s.value.firstCol && s.value.firstCol + s.value.colCount <= sourceCols)
  {
    ChunksCover(sourceCols, displayCols);
    var c := ChunksPerRow(sourceCols, displayCols);
    hide ChunksPerRow, DisplayRowCount;
    if displayRow >= 0 {
      RowIsInGrid(displayRow, sourceRows, c);
      FirstColIsInRow(displayRow, sourceCols, displayCols, c);
    }
  }

  /** The place of a painted cell is the row and offset it was painted at. */
  lemma PlaceOfCell(displayRow: int, offset: int, sourceCols: int, sourceRows: int, displayCols: int)
    requires sourceCols > 0 && displayCols > 0
    requires var s := SourceSlice(displayRow, sourceCols, sourceRows, ChunksPerRow(sourceCols, displayCols), displayCols);
             s.Some? && 0 <= offset < s.value.colCount
    ensures var c := ChunksPerRow(sourceCols, displayCols);
            var s := SourceSlice(displayRow, sourceCols, sourceRows, c, displayCols);
            Place(CellAt(s.value, offset), c, displayCols) == Position(displayRow, offset)
  {
    ChunksCover(sourceCols, displayCols);
    var c := ChunksPerRow(sourceCols, displayCols);
    hide ChunksPerRow;
    DivMod(displayRow % c, displayCols, offset);
    DivBounds(displayRow, c);
  }

  /** The place of any source cell is within a slice that paints that very cell. */
  lemma CellAtPlace(cell: Position, sourceCols: int, sourceRows: int, displayCols: int)
    requires sourceCols > 0 && displayCols > 0 && 0 <= cell.row < sourceRows && 0 <= cell.col < sourceCols
    ensures var c := ChunksPerRow(sourceCols, displayCols);
            var p := Place(cell, c, displayCols);
            var s := SourceSlice(p.row, sourceCols, sourceRows, c, displayCols);
            s.Some? && 0 <= p.col < s.value.colCount && CellAt(s.value, p.col) == cell
  {
    ChunksCover(sourceCols, displayCols);
    var c := ChunksPerRow(sourceCols, displayCols);
    hide ChunksPerRow;
    var q := cell.col / displayCols;
    DivBounds(cell.col, displayCols);
    QuotientBound(cell.col, displayCols, c);
    DivMod(cell.row, c, q);
    var p := Place(cell, c, displayCols);
    assert p.row / c == cell.row && p.row % c == q;
    MulLe(0, cell.row, c);
  }

  lemma QuotientBound(n: int, d: int, c: int)
    requires d > 0 && 0 <= n < c * d
    ensures 0 <= n / d < c
  {
    DivBounds(n, d);
    if n / d >= c {
      MulLe(c, n / d, d);
    }
  }

  /** Every source cell is painted exactly once. */
  lemma EveryCellIsPaintedOnce(cell: Position, sourceCols: int, sourceRows: int, displayCols: int,
                               displayRow: int, offset: int)
    requires sourceCols > 0 && displayCols > 0 && 0 <= cell.row < sourceRows && 0 <= cell.col < sourceCols
    ensures var c := ChunksPerRow(sourceCols, displayCols);
            var s := SourceSlice(displayRow, sourceCols, sourceRows, c, displayCols);
            (s.Some? && 0 <= offset < s.value.colCount && CellAt(s.value, offset) == cell)
            <==> Place(cell, c, displayCols) == Position(displayRow, offset)
  {
    CellAtPlace(cell, sourceCols, sourceRows, displayCols);
    var s := SourceSlice(displayRow, sourceCols, sourceRows, ChunksPerRow(sourceCols, displayCols), displayCols);
    if s.Some? && 0 <= offset < s.value.colCount {
      PlaceOfCell(displayRow, offset, sourceCols, sourceRows, displayCols);
    }
    hide ChunksPerRow, SourceSlice, Place;
  }

  // ----- Rows the engine has folded -----

  datatype Range = Range(begin: nat, end: nat)

  function RowRange(row: int, offsets: seq<nat>, cellCount: nat): Option<Range> {
    if row < 0 || row + 1 >= |offsets| then None
    else if offsets[row] <= offsets[row + 1] <= cellCount then Some(Range(offsets[row], offsets[row + 1]))
    else None
  }

  predicate WellOffset(offsets: seq<nat>, cellCount: nat) {
    && offsets != [] && offsets[0] == 0 && offsets[|offsets| - 1] == cellCount
    && forall i, j | 0 <= i < j < |offsets| :: offsets[i] <= offsets[j]
  }

  /** With one start per row and a sentinel, every cell belongs to exactly one row. */
  lemma {:induction false} EveryCellHasOneRow(offsets: seq<nat>, cellCount: nat, index: nat) returns (row: nat)
    requires WellOffset(offsets, cellCount) && index < cellCount
    ensures row + 1 < |offsets|
    ensures forall other: int ::
              (var r := RowRange(other, offsets, cellCount); r.Some? && r.value.begin <= index < r.value.end) <==> other == row
  {
    row := 0;
    while offsets[row + 1] <= index
      invariant row + 1 < |offsets| && offsets[row] <= index
      decreases |offsets| - row
    {
      row := row + 1;
    }
    forall other: int
      ensures (var r := RowRange(other, offsets, cellCount); r.Some? && r.value.begin <= index < r.value.end) <==> other == row
    {
      if 0 <= other < row {
        assert offsets[other + 1] <= offsets[row];
      } else if row < other < |offsets| {
        assert offsets[row + 1] <= offsets[other];
      }
    }
  }

  // ----- Painting runs -----

  type ColorKey = nat

  /** The key of a cell of the row, or of the last cell there is. */
  function KeyAt(keys: seq<ColorKey>, start: nat, i: nat): ColorKey
    requires start < |keys|
  {
    if start + i < |keys| then keys[start + i] else keys[|keys| - 1]
  }

  /** What painting one cell after the other would leave. Where there is no cell the
      background, `skip`, stays. */
  function CellByCell(keys: seq<ColorKey>, start: nat, width: nat, skip: ColorKey): (r: seq<ColorKey>)
    ensures |r| == width
  {
    seq(width, i requires 0 <= i < width => if start + i < |keys| then keys[start + i] else skip)
  }

  method FillRun(row: array<ColorKey>, startCol: nat, endCol: nat, key: ColorKey, skip: ColorKey)
    requires startCol <= endCol <= row.Length
    requires forall i | startCol <= i < endCol :: row[i] == skip
    modifies row
    ensures forall i | 0 <= i < row.Length :: row[i] == if startCol <= i < endCol then key else old(row[i])
  {
    if key == skip {
      return;
    }
    for i := startCol to endCol
      invariant forall j | 0 <= j < row.Length :: row[j] == if startCol <= j < i then key else old(row[j])
    {
      row[i] := key;
    }
  }

  /** The loop of the canvas. When the cells end early it stops looking, and paints
      the last run to the end of the row. */
  method PaintRow(row: array<ColorKey>, keys: seq<ColorKey>, start: nat, skip: ColorKey)
    requires row.Length > 0 && start < |keys|
    requires forall i | 0 <= i < row.Length :: row[i] == skip
    modifies row
    ensures row[..] == RunPainted(keys, start, row.Length)
  {
    var runStart := 0;
    var runKey := keys[start];
    var offset := 1;
    while offset < row.Length && start + offset < |keys|
      invariant 0 <= runStart < offset <= row.Length && start + offset <= |keys|
      invariant forall i | 0 <= i < runStart :: row[i] == KeyAt(keys, start, i)
      invariant forall i | runStart <= i < offset :: KeyAt(keys, start, i) == runKey
      invariant forall i | runStart <= i < row.Length :: row[i] == skip
    {
      var key := keys[start + offset];
      assert key == KeyAt(keys, start, offset);
      if key != runKey {
        FillRun(row, runStart, offset, runKey, skip);
        runStart := offset;
        runKey := key;
      }
      offset := offset + 1;
    }
    assert KeyAt(keys, start, offset - 1) == runKey;
    FillRun(row, runStart, row.Length, runKey, skip);
  }

  /** What `PaintRow` leaves. */
  function RunPainted(keys: seq<ColorKey>, start: nat, width: nat): (r: seq<ColorKey>)
    requires start < |keys|
    ensures |r| == width
  {
    seq(width, i requires 0 <= i < width => KeyAt(keys, start, i))
  }

  /** Painting in runs is painting cell by cell exactly when the cells reach to the
      end of the row, or the last of them has the background's colour. */
  lemma RunsAreCellByCell(keys: seq<ColorKey>, start: nat, width: nat, skip: ColorKey)
    requires start < |keys|
    ensures RunPainted(keys, start, width) == CellByCell(keys, start, width, skip)
            <==> start + width <= |keys| || keys[|keys| - 1] == skip
  {
    var runs, cells := RunPainted(keys, start, width), CellByCell(keys, start, width, skip);
    if start + width > |keys| {
      var i := |keys| - start;
      assert runs[i] == KeyAt(keys, start, i) == keys[|keys| - 1];
      assert cells[i] == skip;
      if keys[|keys| - 1] == skip {
        assert forall j | 0 <= j < width :: runs[j] == cells[j];
      }
    } else {
      assert forall j | 0 <= j < width :: runs[j] == cells[j];
    }
  }

  // ----- The whole picture -----

  /** With all its cells the grid is painted cell for cell: the canvas row that
      paints a source cell has that cell's colour at the cell's place. */
  lemma PaintedAtItsPlace(keys: seq<ColorKey>, cell: Position, sourceCols: int, sourceRows: int, displayCols: int, skip: ColorKey)
    requires sourceCols > 0 && displayCols > 0 && 0 <= cell.row < sourceRows && 0 <= cell.col < sourceCols
    requires |keys| == sourceRows * sourceCols
    ensures var c := ChunksPerRow(sourceCols, displayCols);
            var p := Place(cell, c, displayCols);
            var s := SourceSlice(p.row, sourceCols, sourceRows, c, displayCols);
            && s.Some? && 0 <= p.col < s.value.colCount
            && var start := s.value.sourceRow * sourceCols + s.value.firstCol;
            && 0 <= start < |keys|
            && RunPainted(keys, start, s.value.colCount) == CellByCell(keys, start, s.value.colCount, skip)
            && 0 <= cell.row * sourceCols + cell.col < |keys|
            && RunPainted(keys, start, s.value.colCount)[p.col] == keys[cell.row * sourceCols + cell.col]
  {
    CellAtPlace(cell, sourceCols, sourceRows, displayCols);
    var p := Place(cell, ChunksPerRow(sourceCols, displayCols), displayCols);
    SlicesFitTheGrid(p.row, sourceCols, sourceRows, displayCols);
    var s := SourceSlice(p.row, sourceCols, sourceRows, ChunksPerRow(sourceCols, displayCols), displayCols).value;
    hide ChunksPerRow, SourceSlice, Place;
    MulStep(cell.row, sourceRows, sourceCols);
    MulLe(0, cell.row, sourceCols);
    var start := s.sourceRow * sourceCols + s.firstCol;
    assert s.sourceRow == cell.row && s.firstCol + p.col == cell.col;
    RunsAreCellByCell(keys, start, s.colCount, skip);
  }
}
