/**
 * Extraction of a dense block from a CSR matrix (`sparse2dense`): argument
 * checks, preparation of the destination, and the scan that adds every
 * stored entry of the requested window into the destination.
 */
module FormatConvert {
  import opened Exceptions
  import opened Types
  import opened DenseMatrix

  /** The fields of a sparse matrix that the extraction reads. `edges` holds
      the row starts, `indices` the column of each stored entry and `values`
      its value; all of them count from `firstIndex` (0 or 1). */
  datatype Sparse = Sparse(
    size: int,
    firstIndex: int,
    edges: seq<int>,
    indices: seq<int>,
    values: seq<int>,
    format: Format,
    transposed: bool,
    location: Location
  )

  /** A CSR matrix whose row starts, shifted by `firstIndex`, lie inside the
      entry arrays. */
  predicate WellFormed(src: Sparse)
  {
    && 0 <= src.size < |src.edges|
    && |src.values| == |src.indices|
    && forall r :: 0 <= r <= src.size ==> 0 <= src.edges[r] - src.firstIndex <= |src.indices|
  }

  /** First entry of a row, shifted to 0-based numbering. */
  function RowStart(src: Sparse, row: int): (k: int)
    requires WellFormed(src) && 0 <= row <= src.size
    ensures 0 <= k <= |src.indices|
  {
    src.edges[row] - src.firstIndex
  }

  /** Column of an entry, shifted to 0-based numbering. */
  function Col(src: Sparse, k: int): int
    requires 0 <= k < |src.indices|
  {
    src.indices[k] - src.firstIndex
  }

  // ---------------------------------------------------------------------
  // Argument checks and destination preparation
  // ---------------------------------------------------------------------

  /** Neither operand is transposed and the source is not CSC. */
  predicate Supported(src: Sparse, dst: Dense)
  {
    !dst.transposed && !src.transposed && src.format != CSC
  }

  /** The requested rows pass the range check; the columns are not checked. */
  predicate RowsInRange(src: Sparse, firstRow: int, lastRow: int)
  {
    firstRow <= src.size - 1 && lastRow <= src.size
  }

  /** The destination the scan writes into: the checks in order, then either
      a reallocation of an empty destination on the host or a check of the
      dimensions of a non-empty one. */
  function Prepare(src: Sparse, firstRow: int, lastRow: int, firstCol: int, lastCol: int,
                   dst: Dense, newArena: ArenaId): (r: Result<Dense>)
    ensures dst.transposed || src.transposed || src.format == CSC ==> r == Err(Unimplemented)
    ensures Supported(src, dst) && !RowsInRange(src, firstRow, lastRow) ==> r == Err(BadArgument)
    ensures Supported(src, dst) && RowsInRange(src, firstRow, lastRow) && (src.location != Host || dst.location != Host)
            ==> r == Err(Unimplemented)
    ensures r.Ok? <==> && Supported(src, dst) && RowsInRange(src, firstRow, lastRow)
                       && src.location == Host && dst.location == Host
                       && (if dst.storedRows == 0 then lastRow != firstRow && lastCol != firstCol
                           else dst.storedRows == lastRow - firstRow && dst.storedCols == lastCol - firstCol)
    ensures && Supported(src, dst) && RowsInRange(src, firstRow, lastRow)
            && src.location == Host && dst.location == Host
            && (if dst.storedRows == 0 then lastRow == firstRow || lastCol == firstCol
                else dst.storedRows != lastRow - firstRow || dst.storedCols != lastCol - firstCol)
            ==> r == Err(BadArgument)
    ensures dst.storedRows != 0 && r.Ok? ==> r.value == dst
    ensures dst.storedRows == 0 && r.Ok? ==> r.value.memory == Some(Ref(newArena, 0, true)) && Contiguous(r.value)
    ensures r.Err? && r.error == BadArgument && RowsInRange(src, firstRow, lastRow) ==>
            if dst.storedRows == 0 then lastRow == firstRow || lastCol == firstCol
            else dst.storedRows != lastRow - firstRow || dst.storedCols != lastCol - firstCol
    ensures r.Ok? ==> && r.value.storedRows == lastRow - firstRow && r.value.storedCols == lastCol - firstCol
                      && r.value.location == Host && !r.value.transposed && r.value.format == dst.format
                      && src.location == Host && Supported(src, dst) && RowsInRange(src, firstRow, lastRow)
  {
    if dst.transposed then Err(Unimplemented)
    else if src.transposed then Err(Unimplemented)
    else if src.format == CSC then Err(Unimplemented)
    else if firstRow > src.size - 1 || lastRow > src.size then Err(BadArgument)
    else if !(src.location == Host && dst.location == Host) then Err(Unimplemented)
    else if dst.storedRows == 0 then Reallocate(dst, lastRow - firstRow, lastCol - firstCol, Host, 0, newArena)
    else if dst.storedRows != lastRow - firstRow || dst.storedCols != lastCol - firstCol then Err(BadArgument)
    else Ok(dst)
  }

  /** The store the scan starts from: a reallocated destination is filled
      with zeros, a kept one is left as it is. */
  function PrepareStore(mem: Store<int>, dst: Dense, prepared: Dense): (r: Store<int>)
    requires prepared.memory.Some?
    requires dst.storedRows == 0 ==> prepared.storedRows * prepared.storedCols >= 0
    ensures dst.storedRows == 0 ==> r == mem[prepared.memory.value.arena := seq(prepared.storedRows * prepared.storedCols, _ => 0)]
    ensures dst.storedRows != 0 ==> r == mem
  {
    if dst.storedRows == 0 then
      mem[prepared.memory.value.arena := seq(prepared.storedRows * prepared.storedCols, _ => 0)]
    else mem
  }

  // ---------------------------------------------------------------------
  // The scan as a sequence of additions
  // ---------------------------------------------------------------------

  /** One `+=` of the scan: destination element (row, col) gains `value`. */
  datatype Update = Update(row: int, col: int, value: int)

  /** The additions one row produces from entry k on: entries left of the
      window are skipped, and the first entry at or right of it ends the row. */
  function RowScan(src: Sparse, row: int, k: int, end: int, firstRow: int, firstCol: int, lastCol: int): seq<Update>
    requires 0 <= k && end <= |src.indices| && |src.values| == |src.indices|
    decreases end - k
  {
    if k >= end then []
    else if Col(src, k) < firstCol then RowScan(src, row, k + 1, end, firstRow, firstCol, lastCol)
    else if Col(src, k) < lastCol then
      [Update(row - firstRow, Col(src, k) - firstCol, src.values[k])] + RowScan(src, row, k + 1, end, firstRow, firstCol, lastCol)
    else []
  }

  /** The additions of rows row .. lastRow-1, in the order the scan makes them. */
  function Window(src: Sparse, row: int, lastRow: int, firstRow: int, firstCol: int, lastCol: int): seq<Update>
    requires WellFormed(src) && lastRow <= src.size && (row < lastRow ==> 0 <= row)
    decreases lastRow - row
  {
    if row >= lastRow then []
    else RowScan(src, row, RowStart(src, row), RowStart(src, row + 1), firstRow, firstCol, lastCol)
         + Window(src, row + 1, lastRow, firstRow, firstCol, lastCol)
  }

  /** Adds one update at the arena element the destination's layout assigns
      it; an element outside the arena is left alone. */
  function Add(d: seq<int>, dst: Dense, u: Update): (r: seq<int>)
    requires dst.memory.Some?
    ensures |r| == |d|
  {
    var p := Address(dst, u.row, u.col);
    if 0 <= p < |d| then d[p := d[p] + u.value] else d
  }

  /** Performs the additions in order. */
  function Apply(d: seq<int>, dst: Dense, us: seq<Update>): (r: seq<int>)
    requires dst.memory.Some?
    ensures |r| == |d|
    decreases |us|
  {
    if us == [] then d else Apply(Add(d, dst, us[0]), dst, us[1..])
  }

  /** Total value the updates add at arena element p. */
  function SumAt(dst: Dense, us: seq<Update>, p: int): int
    requires dst.memory.Some?
    decreases |us|
  {
    if us == [] then 0
    else (if Address(dst, us[0].row, us[0].col) == p then us[0].value else 0) + SumAt(dst, us[1..], p)
  }

  /** Applying the additions adds to each element exactly the values aimed
      at it, in whatever order they come. */
  lemma {:induction false} ApplyAdds(d: seq<int>, dst: Dense, us: seq<Update>, p: int)
    requires dst.memory.Some? && 0 <= p < |d|
    ensures Apply(d, dst, us)[p] == d[p] + SumAt(dst, us, p)
    decreases |us|
  {
    if us != [] {
      ApplyAdds(Add(d, dst, us[0]), dst, us[1..], p);
    }
  }

  /** Applying two runs of updates is applying their concatenation. */
  lemma {:induction false} ApplyConcat(d: seq<int>, dst: Dense, us: seq<Update>, vs: seq<Update>)
    requires dst.memory.Some?
    ensures Apply(d, dst, us + vs) == Apply(Apply(d, dst, us), dst, vs)
    decreases |us|
  {
    if us != [] {
      assert (us + vs)[0] == us[0] && (us + vs)[1..] == us[1..] + vs;
      ApplyConcat(Add(d, dst, us[0]), dst, us[1..], vs);
    } else {
      assert us + vs == vs;
    }
  }

  // ---------------------------------------------------------------------
  // Which entries the scan adds
  // ---------------------------------------------------------------------

  /** Entry k lies in the column window and becomes update u. */
  predicate Emits(src: Sparse, row: int, k: int, firstRow: int, firstCol: int, lastCol: int, u: Update)
    requires 0 <= k < |src.indices| && |src.values| == |src.indices|
  {
    firstCol <= Col(src, k) < lastCol && u == Update(row - firstRow, Col(src, k) - firstCol, src.values[k])
  }

  /** No entry in [k, k') lies at or right of the window, so a scan of the
      row from k reaches k'. */
  predicate Reaches(src: Sparse, k: int, k': int, lastCol: int)
    requires 0 <= k && k' <= |src.indices|
  {
    forall k'' :: k <= k'' < k' ==> Col(src, k'') < lastCol
  }

  /** An update comes out of a row scan exactly when some entry the scan
      reaches lies in the column window and produces it. */
  lemma {:induction false} RowScanMembers(src: Sparse, row: int, k: int, end: int, firstRow: int, firstCol: int, lastCol: int, u: Update)
    requires 0 <= k && end <= |src.indices| && |src.values| == |src.indices|
    ensures u in RowScan(src, row, k, end, firstRow, firstCol, lastCol) <==>
      exists k' :: k <= k' < end && Emits(src, row, k', firstRow, firstCol, lastCol, u) && Reaches(src, k, k', lastCol)
    decreases end - k
  {
    var scan := RowScan(src, row, k, end, firstRow, firstCol, lastCol);
    if k < end {
      var rest := RowScan(src, row, k + 1, end, firstRow, firstCol, lastCol);
      RowScanMembers(src, row, k + 1, end, firstRow, firstCol, lastCol, u);
      if u in scan {
        if Col(src, k) < lastCol && u !in rest {
          assert Emits(src, row, k, firstRow, firstCol, lastCol, u) && Reaches(src, k, k, lastCol);
        } else {
          var k' :| k + 1 <= k' < end && Emits(src, row, k', firstRow, firstCol, lastCol, u) && Reaches(src, k + 1, k', lastCol);
          assert Reaches(src, k, k', lastCol);
        }
      }
      if exists k' :: k <= k' < end && Emits(src, row, k', firstRow, firstCol, lastCol, u) && Reaches(src, k, k', lastCol) {
        var k' :| k <= k' < end && Emits(src, row, k', firstRow, firstCol, lastCol, u) && Reaches(src, k, k', lastCol);
        if k' > k {
          assert Col(src, k) < lastCol;
          assert Reaches(src, k + 1, k', lastCol);
        }
      }
    }
  }

  /** An update comes out of the window scan exactly when it comes out of
      the scan of one of its rows. */
  lemma {:induction false} WindowMembers(src: Sparse, row: int, lastRow: int, firstRow: int, firstCol: int, lastCol: int, u: Update)
    requires WellFormed(src) && lastRow <= src.size && (row < lastRow ==> 0 <= row)
    ensures u in Window(src, row, lastRow, firstRow, firstCol, lastCol) <==>
      exists r :: row <= r < lastRow && u in RowScan(src, r, RowStart(src, r), RowStart(src, r + 1), firstRow, firstCol, lastCol)
    decreases lastRow - row
  {
    if row < lastRow {
      WindowMembers(src, row + 1, lastRow, firstRow, firstCol, lastCol, u);
    }
  }

  /** Every addition of a row scan lands in that row of the block, inside
      the column window. */
  lemma {:induction false} RowScanInside(src: Sparse, row: int, k: int, end: int, firstRow: int, firstCol: int, lastCol: int, u: Update)
    requires 0 <= k && end <= |src.indices| && |src.values| == |src.indices|
    requires u in RowScan(src, row, k, end, firstRow, firstCol, lastCol)
    ensures u.row == row - firstRow && 0 <= u.col < lastCol - firstCol
    decreases end - k
  {
    if u !in RowScan(src, row, k + 1, end, firstRow, firstCol, lastCol) {
      assert u == Update(row - firstRow, Col(src, k) - firstCol, src.values[k]);
    } else {
      RowScanInside(src, row, k + 1, end, firstRow, firstCol, lastCol, u);
    }
  }

  /** Every addition of the window lands inside the requested block. */
  lemma {:induction false} WindowInsideBlock(src: Sparse, row: int, lastRow: int, firstRow: int, firstCol: int, lastCol: int, u: Update)
    requires WellFormed(src) && lastRow <= src.size && (row < lastRow ==> 0 <= row)
    requires u in Window(src, row, lastRow, firstRow, firstCol, lastCol)
    ensures row - firstRow <= u.row < lastRow - firstRow && 0 <= u.col < lastCol - firstCol
    decreases lastRow - row
  {
    var scan := RowScan(src, row, RowStart(src, row), RowStart(src, row + 1), firstRow, firstCol, lastCol);
    if u in scan {
      RowScanInside(src, row, RowStart(src, row), RowStart(src, row + 1), firstRow, firstCol, lastCol, u);
    } else {
      WindowInsideBlock(src, row + 1, lastRow, firstRow, firstCol, lastCol, u);
    }
  }

  // ---------------------------------------------------------------------
  // The extraction
  // ---------------------------------------------------------------------

  /** The inner loop: scans one row of the window and adds its entries into
      the destination's arena contents. */
  method ScanRow(src: Sparse, row: int, firstRow: int, firstCol: int, lastCol: int, out: Dense, data: seq<int>)
    returns (data': seq<int>)
    requires WellFormed(src) && 0 <= row < src.size
    requires firstRow <= row < firstRow + out.storedRows && out.storedCols == lastCol - firstCol
    requires FitsIn(out, |data|)
    ensures data' == Apply(data, out, RowScan(src, row, RowStart(src, row), RowStart(src, row + 1), firstRow, firstCol, lastCol))
  {
    var k := RowStart(src, row);
    var end := RowStart(src, row + 1);
    data' := data;
    while k < end
      invariant RowStart(src, row) <= k
      invariant |data'| == |data|
      invariant Apply(data', out, RowScan(src, row, k, end, firstRow, firstCol, lastCol))
                == Apply(data, out, RowScan(src, row, RowStart(src, row), end, firstRow, firstCol, lastCol))
      decreases end - k
    {
      var col := Col(src, k);
      if col < firstCol {
        k := k + 1;
      } else if col < lastCol {
        var u := Update(row - firstRow, col - firstCol, src.values[k]);
        var rest := RowScan(src, row, k + 1, end, firstRow, firstCol, lastCol);
        assert ([u] + rest)[0] == u && ([u] + rest)[1..] == rest;
        FitsInBounds(out, |data'|, u.row, u.col);
        var pos := Address(out, u.row, u.col);
        data' := data'[pos := data'[pos] + src.values[k]];
        k := k + 1;
      } else {
        break;
      }
    }
  }

  /** The prepared destination lies inside the arena it starts from. */
  lemma PreparedFits(src: Sparse, firstRow: int, lastRow: int, firstCol: int, lastCol: int,
                     dst: Dense, mem: Store<int>, newArena: ArenaId)
    requires dst.storedRows == 0 ==> firstRow <= lastRow && firstCol <= lastCol
    requires dst.storedRows != 0 ==> Valid(mem, dst)
    requires Prepare(src, firstRow, lastRow, firstCol, lastCol, dst, newArena).Ok?
    ensures Valid(PrepareStore(mem, dst, Prepare(src, firstRow, lastRow, firstCol, lastCol, dst, newArena).value),
                  Prepare(src, firstRow, lastRow, firstCol, lastCol, dst, newArena).value)
  {
    if dst.storedRows == 0 {
      ReallocateFillsArena(dst, lastRow - firstRow, lastCol - firstCol, Host, 0, newArena);
    }
  }

  /** The extraction. On success it returns the destination handle and the
      store after the scan: the destination arena holds its starting
      contents plus, at every element, the values of all window entries
      aimed at it. */
  method Sparse2Dense(src: Sparse, firstRow: int, lastRow: int, firstCol: int, lastCol: int,
                      dst: Dense, mem: Store<int>, newArena: ArenaId)
    returns (r: Result<(Dense, Store<int>)>)
    requires Prepare(src, firstRow, lastRow, firstCol, lastCol, dst, newArena).Ok? ==>
      && WellFormed(src)
      && (firstRow < lastRow ==> 0 <= firstRow)
      && (dst.storedRows == 0 ==> firstRow <= lastRow && firstCol <= lastCol)
      && (dst.storedRows != 0 ==> Valid(mem, dst))
    ensures r.Err? <==> Prepare(src, firstRow, lastRow, firstCol, lastCol, dst, newArena).Err?
    ensures r.Err? ==> r.error == Prepare(src, firstRow, lastRow, firstCol, lastCol, dst, newArena).error
    ensures r.Ok? ==>
      var out := Prepare(src, firstRow, lastRow, firstCol, lastCol, dst, newArena).value;
      var start := PrepareStore(mem, dst, out);
      var a := out.memory.value.arena;
      && r.value.0 == out
      && Valid(start, out) && Valid(r.value.1, out)
      && r.value.1 == start[a := Apply(start[a], out, Window(src, firstRow, lastRow, firstRow, firstCol, lastCol))]
      && forall p :: 0 <= p < |start[a]| ==>
           r.value.1[a][p] == start[a][p] + SumAt(out, Window(src, firstRow, lastRow, firstRow, firstCol, lastCol), p)
  {
    var prepared := Prepare(src, firstRow, lastRow, firstCol, lastCol, dst, newArena);
    if prepared.Err? {
      return Err(prepared.error);
    }
    var out := prepared.value;
    PreparedFits(src, firstRow, lastRow, firstCol, lastCol, dst, mem, newArena);
    var start := PrepareStore(mem, dst, out);
    var a := out.memory.value.arena;
    var data := ScanWindow(src, firstRow, lastRow, firstCol, lastCol, out, start[a]);
    return Ok((out, start[a := data]));
  }

  /** The outer loop of the extraction, over rows first_row .. last_row-1 of
      a destination array that holds the whole handle. */
  method ScanWindow(src: Sparse, firstRow: int, lastRow: int, firstCol: int, lastCol: int,
                    out: Dense, start: seq<int>)
    returns (data: seq<int>)
    requires WellFormed(src) && lastRow <= src.size
    requires firstRow < lastRow ==> 0 <= firstRow
    requires FitsIn(out, |start|)
    requires out.storedRows == lastRow - firstRow && out.storedCols == lastCol - firstCol
    ensures data == Apply(start, out, Window(src, firstRow, lastRow, firstRow, firstCol, lastCol))
    ensures |data| == |start|
    ensures forall p :: 0 <= p < |start| ==>
      data[p] == start[p] + SumAt(out, Window(src, firstRow, lastRow, firstRow, firstCol, lastCol), p)
  {
    data := start;
    ghost var window := Window(src, firstRow, lastRow, firstRow, firstCol, lastCol);
    ghost var target := Apply(data, out, window);

    var row := firstRow;
    while row < lastRow
      invariant firstRow <= row && (firstRow < lastRow ==> row <= lastRow)
      invariant FitsIn(out, |data|) && |data| == |start|
      invariant Apply(data, out, Window(src, row, lastRow, firstRow, firstCol, lastCol)) == target
      decreases lastRow - row
    {
      ApplyConcat(data, out, RowScan(src, row, RowStart(src, row), RowStart(src, row + 1), firstRow, firstCol, lastCol),
                  Window(src, row + 1, lastRow, firstRow, firstCol, lastCol));
      data := ScanRow(src, row, firstRow, firstCol, lastCol, out, data);
      row := row + 1;
    }
    forall p | 0 <= p < |data|
      ensures target[p] == start[p] + SumAt(out, window, p)
    {
      ApplyAdds(start, out, window, p);
    }
  }
}
