/**
 * Velocity cells inside one velocity block: a block is a cube of WID cells per
 * axis, and a cell is addressed either by its index 0 .. WID^3-1 or by its
 * (i, j, k) coordinates, i varying fastest. Out-of-range requests answer with
 * the 32-bit all-ones sentinel.
 */
module VelocityCell {
  import RowMajor

  /** Cells per block edge (WID; block_vx_length = block_vy_length = block_vz_length). */
  const WID: nat := 4
  const WID2: nat := WID * WID
  /** Cells per block (VELOCITY_BLOCK_LENGTH). */
  const WID3: nat := WID * WID * WID

  /** error_velocity_cell and error_velocity_cell_index (0xFFFFFFFFu). */
  const ERROR_VELOCITY_CELL: nat := 0xFFFF_FFFF

  /** velocity_cell_indices_t: three unsigned ints. */
  datatype CellIndices = CellIndices(i: nat, j: nat, k: nat)

  /** Position of cell (i, j, k) inside a block's sample array (vblock::index). */
  function CellIndex(i: nat, j: nat, k: nat): nat
  {
    RowMajor.Compose(i, j, k, WID, WID)
  }

  /** True when every coordinate lies inside the block. */
  predicate InBlock(ind: CellIndices)
  {
    ind.i < WID && ind.j < WID && ind.k < WID
  }

  /** get_velocity_cell_indices: the coordinates of a cell, or the sentinel in all three. */
  function GetVelocityCellIndices(cell: nat): (r: CellIndices)
    ensures cell >= WID3 ==> r == CellIndices(ERROR_VELOCITY_CELL, ERROR_VELOCITY_CELL, ERROR_VELOCITY_CELL)
    ensures cell < WID3 ==> InBlock(r) && CellIndex(r.i, r.j, r.k) == cell
  {
    if cell >= WID3 then
      CellIndices(ERROR_VELOCITY_CELL, ERROR_VELOCITY_CELL, ERROR_VELOCITY_CELL)
    else
      RowMajor.ComposeOfDecompose(cell, WID, WID, WID);
      CellIndices(cell % WID, (cell / WID) % WID, cell / (WID * WID))
  }

  /** get_velocity_cell: the index of the cell at the given coordinates, or the sentinel. */
  function GetVelocityCell(ind: CellIndices): (r: nat)
    ensures !InBlock(ind) ==> r == ERROR_VELOCITY_CELL
    ensures InBlock(ind) ==> r < WID3 && GetVelocityCellIndices(r) == ind
  {
    if ind.i >= WID || ind.j >= WID || ind.k >= WID then
      ERROR_VELOCITY_CELL
    else
      RowMajor.ComposeBound(ind.i, ind.j, ind.k, WID, WID, WID);
      RowMajor.DecomposeOfCompose(ind.i, ind.j, ind.k, WID, WID);
      ind.i + ind.j * WID + ind.k * WID * WID
  }

  /** Both conversions together: a cell survives the round trip iff it lies inside the block. */
  lemma CellRoundTrip(cell: nat)
    ensures cell < WID3 ==> GetVelocityCell(GetVelocityCellIndices(cell)) == cell
    ensures cell >= WID3 ==> GetVelocityCell(GetVelocityCellIndices(cell)) == ERROR_VELOCITY_CELL
  {
    if cell < WID3 {
      var ind := GetVelocityCellIndices(cell);
      RowMajor.DecomposeOfCompose(ind.i, ind.j, ind.k, WID, WID);
    }
  }

  /** Distinct in-block coordinates name distinct cells. */
  lemma CellIndexInjective(a: CellIndices, b: CellIndices)
    requires InBlock(a) && InBlock(b) && a != b
    ensures GetVelocityCell(a) != GetVelocityCell(b)
  {
  }
}
