/**
 * Integer bookkeeping of the extraction tool: velocity block numbers split
 * into (i, j, k), spatial cell IDs computed from cell coordinates and looked
 * up among the cells that hold velocity data, the offset of a cell's blocks
 * in the block arrays, and the list of cells met along a line. All of it is
 * uint64_t arithmetic, which wraps modulo 2^64.
 */
module ExtractIds {
  import RowMajor
  import opened Basics

  /** numeric_limits<uint64_t>::max(): "no cell". */
  const NO_CELL: nat := UINT64_MODULUS - 1

  /** The number of blocks (vcell_bounds) or of cells (cell_bounds) along x, y and z. */
  datatype Bounds = Bounds(x: nat, y: nat, z: nat)

  /** The integer coordinates of a spatial cell: the floor of a position over the cell size. */
  datatype CellCoords = CellCoords(i: int, j: int, k: int)

  // ---------------------------------------------------------------------------
  // Velocity block numbers

  /**
   * The (i, j, k) indices getVelocityBlockCoordinates splits a block number
   * into: block % bx, (block / bx) % by and block / (bx * by), the last
   * divisor computed in 64-bit arithmetic. When bx * by does not wrap, the
   * indices address the block in row-major order and lie inside the bounds.
   */
  function BlockIndices(block: nat, bounds: Bounds): (r: (nat, nat, nat))
    requires bounds.x > 0 && bounds.y > 0 && (bounds.x * bounds.y) % UINT64_MODULUS > 0
    ensures r.0 < bounds.x && r.1 < bounds.y
    ensures bounds.x * bounds.y < UINT64_MODULUS ==> RowMajor.Compose(r.0, r.1, r.2, bounds.x, bounds.y) == block
    ensures bounds.x * bounds.y < UINT64_MODULUS && block < bounds.x * bounds.y * bounds.z ==> r.2 < bounds.z
  {
    var xy := (bounds.x * bounds.y) % UINT64_MODULUS;
    BlockIndicesFacts(block, bounds, xy);
    (block % bounds.x, (block / bounds.x) % bounds.y, block / xy)
  }

  /** The facts BlockIndices states, about its three expressions. */
  lemma BlockIndicesFacts(block: nat, bounds: Bounds, xy: nat)
    requires bounds.x > 0 && bounds.y > 0 && xy == (bounds.x * bounds.y) % UINT64_MODULUS && xy > 0
    ensures block % bounds.x < bounds.x && (block / bounds.x) % bounds.y < bounds.y
    ensures bounds.x * bounds.y < UINT64_MODULUS ==>
      RowMajor.Compose(block % bounds.x, (block / bounds.x) % bounds.y, block / xy, bounds.x, bounds.y) == block
    ensures bounds.x * bounds.y < UINT64_MODULUS && block < bounds.x * bounds.y * bounds.z ==> block / xy < bounds.z
  {
    if bounds.x * bounds.y < UINT64_MODULUS {
      RowMajor.DivModUnique(bounds.x * bounds.y, UINT64_MODULUS, 0, bounds.x * bounds.y);
      RowMajor.DecomposeComposes(block, bounds.x, bounds.y);
      if block < bounds.x * bounds.y * bounds.z {
        RowMajor.ComposeOfDecompose(block, bounds.x, bounds.y, bounds.z);
      }
    }
  }

  /** Composing in-range indices and splitting the block number again gives them back. */
  lemma BlockIndicesOfCompose(i: nat, j: nat, k: nat, bounds: Bounds)
    requires i < bounds.x && j < bounds.y && bounds.x * bounds.y < UINT64_MODULUS
    ensures BlockIndices(RowMajor.Compose(i, j, k, bounds.x, bounds.y), bounds) == (i, j, k)
  {
    RowMajor.DecomposeOfCompose(i, j, k, bounds.x, bounds.y);
    RowMajor.DivModUnique(bounds.x * bounds.y, UINT64_MODULUS, 0, bounds.x * bounds.y);
  }

  // ---------------------------------------------------------------------------
  // Spatial cell IDs

  /**
   * The cell ID searchForBestCellId gives for cell coordinates c, as
   * written: NO_CELL for a negative coordinate, otherwise
   * k * by * bx + j * bx + i + 1 in 64-bit arithmetic, with no check
   * against the grid's upper bounds.
   */
  function CellIdAsWritten(bounds: Bounds, c: CellCoords): (id: nat)
    ensures id < UINT64_MODULUS
    ensures c.i < 0 || c.j < 0 || c.k < 0 ==> id == NO_CELL
  {
    if c.i < 0 || c.j < 0 || c.k < 0 then NO_CELL
    else (c.k * bounds.y * bounds.x + c.j * bounds.x + c.i + 1) % UINT64_MODULUS
  }

  /** The coordinates name a cell of the grid. */
  predicate InGrid(bounds: Bounds, c: CellCoords)
  {
    0 <= c.i < bounds.x && 0 <= c.j < bounds.y && 0 <= c.k < bounds.z
  }

  /** Every cell ID of the grid, 1 .. bx * by * bz, lies below NO_CELL. */
  predicate GridFits(bounds: Bounds)
  {
    bounds.x * bounds.y * bounds.z < NO_CELL
  }

  /**
   * The cell ID of cell coordinates c, with the upper bounds checked as well
   * as the lower ones: the row-major index of the cell plus one (IDs start
   * at 1) inside the grid, NO_CELL outside it.
   */
  function CellId(bounds: Bounds, c: CellCoords): (id: nat)
    ensures !InGrid(bounds, c) ==> id == NO_CELL
    ensures GridFits(bounds) && InGrid(bounds, c) ==>
      1 <= id <= bounds.x * bounds.y * bounds.z && id == RowMajor.Compose(c.i, c.j, c.k, bounds.x, bounds.y) + 1
  {
    if !InGrid(bounds, c) then NO_CELL
    else
      var n := c.k * bounds.y * bounds.x + c.j * bounds.x + c.i + 1;
      assert GridFits(bounds) ==> n % UINT64_MODULUS == n <= bounds.x * bounds.y * bounds.z by {
        if GridFits(bounds) {
          RowMajor.ComposeBound(c.i, c.j, c.k, bounds.x, bounds.y, bounds.z);
          assert c.k * bounds.y * bounds.x == c.k * (bounds.x * bounds.y);
          RowMajor.DivModUnique(n, UINT64_MODULUS, 0, n);
        }
      }
      n % UINT64_MODULUS
  }

  /** Inside the grid, the corrected ID is the one searchForBestCellId computes. */
  lemma CellIdAgreesInGrid(bounds: Bounds, c: CellCoords)
    requires InGrid(bounds, c)
    ensures CellId(bounds, c) == CellIdAsWritten(bounds, c)
  {
  }

  /**
   * The cell ID of an in-grid cell gives the cell back: one less than the ID,
   * split in row-major order, is the cell's coordinates.
   */
  lemma CellIdRoundTrip(bounds: Bounds, c: CellCoords)
    requires GridFits(bounds) && InGrid(bounds, c)
    ensures RowMajor.Decompose(CellId(bounds, c) - 1, bounds.x, bounds.y) == (c.i, c.j, c.k)
  {
    RowMajor.DecomposeOfCompose(c.i, c.j, c.k, bounds.x, bounds.y);
  }

  /** No two places share a cell ID other than NO_CELL. */
  lemma CellIdInjective(bounds: Bounds, c: CellCoords, c': CellCoords)
    requires GridFits(bounds) && CellId(bounds, c) == CellId(bounds, c') != NO_CELL
    ensures c == c'
  {
    RowMajor.ComposeInjective(c.i, c.j, c.k, c'.i, c'.j, c'.k, bounds.x, bounds.y);
  }

  /**
   * On a 2 x 2 x 2 grid, the coordinates (2, 0, 0), one past the last cell
   * along x, get ID 3 as written: the ID of cell (0, 1, 0). With the upper
   * bound checked they get NO_CELL.
   */
  lemma CellIdAsWrittenAliases()
    ensures CellIdAsWritten(Bounds(2, 2, 2), CellCoords(2, 0, 0)) == 3
    ensures CellIdAsWritten(Bounds(2, 2, 2), CellCoords(0, 1, 0)) == 3
    ensures InGrid(Bounds(2, 2, 2), CellCoords(0, 1, 0)) && !InGrid(Bounds(2, 2, 2), CellCoords(2, 0, 0))
    ensures CellId(Bounds(2, 2, 2), CellCoords(2, 0, 0)) == NO_CELL
  {
  }

  /**
   * Which cell ID computation a lookup uses: the one searchForBestCellId
   * performs (AsWritten, no upper-bound check), or the corrected CellId.
   */
  datatype IdRule = AsWritten | Corrected

  function IdFor(rule: IdRule, bounds: Bounds, c: CellCoords): nat
  {
    match rule
    case AsWritten => CellIdAsWritten(bounds, c)
    case Corrected => CellId(bounds, c)
  }

  /** What getCellIdFromCoords answers: a stop of the program, or a cell ID (NO_CELL for none). */
  datatype Lookup = Stop | Found(id: nat)

  /**
   * getCellIdFromCoords: the program stops when no cell holds velocity data;
   * otherwise the answer is the ID the rule computes for c if that cell holds
   * velocity data, and NO_CELL if it does not. The source's own lookup is
   * the one with rule AsWritten.
   */
  function GetCellIdFromCoords(rule: IdRule, bounds: Bounds, withData: set<nat>, c: CellCoords): (r: Lookup)
    ensures r == Stop <==> withData == {}
    ensures r.Found? && r.id != NO_CELL ==> r.id in withData && r.id == IdFor(rule, bounds, c)
    ensures r.Found? && IdFor(rule, bounds, c) in withData ==> r.id == IdFor(rule, bounds, c)
  {
    if withData == {} then Stop
    else
      var id := IdFor(rule, bounds, c);
      if id in withData then Found(id) else Found(NO_CELL)
  }

  /** With the corrected rule, a cell found from coordinates is the cell at those coordinates. */
  lemma FoundCellIsAtCoords(bounds: Bounds, withData: set<nat>, c: CellCoords)
    requires GridFits(bounds) && withData != {}
    requires GetCellIdFromCoords(Corrected, bounds, withData, c).id != NO_CELL
    ensures InGrid(bounds, c)
    ensures RowMajor.Decompose(GetCellIdFromCoords(Corrected, bounds, withData, c).id - 1, bounds.x, bounds.y) == (c.i, c.j, c.k)
  {
    CellIdRoundTrip(bounds, c);
  }

  /** For coordinates inside the grid both rules give the same answer. */
  lemma LookupRulesAgreeInGrid(bounds: Bounds, withData: set<nat>, c: CellCoords)
    requires InGrid(bounds, c)
    ensures GetCellIdFromCoords(AsWritten, bounds, withData, c) == GetCellIdFromCoords(Corrected, bounds, withData, c)
  {
    CellIdAgreesInGrid(bounds, c);
  }

  /**
   * As written, the lookup of (2, 0, 0), outside a 2 x 2 x 2 grid, finds
   * cell 3, which is the cell at (0, 1, 0); the corrected lookup finds no cell.
   */
  lemma LookupAsWrittenFindsAlias()
    ensures GetCellIdFromCoords(AsWritten, Bounds(2, 2, 2), {3}, CellCoords(2, 0, 0)) == Found(3)
    ensures GetCellIdFromCoords(Corrected, Bounds(2, 2, 2), {3}, CellCoords(2, 0, 0)) == Found(NO_CELL)
  {
    CellIdAsWrittenAliases();
  }

  // ---------------------------------------------------------------------------
  // Block offset of a cell

  /**
   * The search of convertVelocityBlocks2 through the cells with blocks:
   * found tells whether cellID is listed. When it is, index is its first
   * position, offset the number of blocks of all cells before it (in 64-bit
   * arithmetic) and nBlocks its own block count; when it is not, index is
   * NO_CELL.
   */
  method FindBlockOffset(cellIds: seq<nat>, counts: seq<nat>, cellID: nat)
    returns (found: bool, index: nat, offset: nat, nBlocks: nat)
    requires |cellIds| == |counts|
    ensures found <==> cellID in cellIds
    ensures found ==> index < |cellIds| && cellIds[index] == cellID && cellID !in cellIds[..index]
    ensures found ==> offset == Sum(counts[..index]) % UINT64_MODULUS && nBlocks == counts[index]
    ensures !found ==> index == NO_CELL
  {
    offset := 0;
    index := NO_CELL;
    nBlocks := 0;
    for cell := 0 to |cellIds|
      invariant offset == Sum(counts[..cell]) % UINT64_MODULUS
      invariant cellID !in cellIds[..cell]
    {
      nBlocks := counts[cell];
      if cellID == cellIds[cell] {
        index := cell;
        return true, index, offset, nBlocks;
      }
      assert counts[..cell + 1][..cell] == counts[..cell];
      RowMajor.ModAdd(Sum(counts[..cell]), nBlocks, UINT64_MODULUS);
      offset := (offset + nBlocks) % UINT64_MODULUS;
      assert cellIds[..cell + 1] == cellIds[..cell] + [cellIds[cell]];
    }
    assert cellIds[..|cellIds|] == cellIds;
    found := false;
  }

  // ---------------------------------------------------------------------------
  // Cells along a line

  /**
   * The cell list of a line from the lookups of its points: the IDs other
   * than NO_CELL in order, each appended only when it differs from the last
   * one appended.
   */
  function LineCells(ids: seq<nat>): seq<nat>
  {
    if ids == [] then []
    else
      var r := LineCells(ids[..|ids| - 1]);
      var id := ids[|ids| - 1];
      if id == NO_CELL || (r != [] && r[|r| - 1] == id) then r else r + [id]
  }

  /** The IDs getCellIdFromCoords finds for each point of a line. */
  function Lookups(rule: IdRule, bounds: Bounds, withData: set<nat>, coords: seq<CellCoords>): (ids: seq<nat>)
    requires withData != {}
    ensures |ids| == |coords|
  {
    seq(|coords|, q requires 0 <= q < |coords| => GetCellIdFromCoords(rule, bounds, withData, coords[q]).id)
  }

  /**
   * The loop of convertFileToSilo over the points of a line: every point is
   * looked up, and a found cell is appended unless it is the last one
   * appended. With no cell holding velocity data the first lookup stops the
   * program. The source's loop is the one with rule AsWritten.
   */
  method CellsAlongLine(rule: IdRule, bounds: Bounds, withData: set<nat>, coords: seq<CellCoords>)
    returns (stopped: bool, cells: seq<nat>)
    ensures stopped <==> coords != [] && withData == {}
    ensures !stopped && withData != {} ==> cells == LineCells(Lookups(rule, bounds, withData, coords))
    ensures !stopped && withData == {} ==> cells == []
  {
    cells := [];
    if coords != [] && withData == {} {
      var first := GetCellIdFromCoords(rule, bounds, withData, coords[0]);
      assert first == Stop;
      return true, cells;
    }
    stopped := false;
    if withData == {} {
      return;
    }
    ghost var ids := Lookups(rule, bounds, withData, coords);
    for q := 0 to |coords|
      invariant cells == LineCells(ids[..q])
    {
      assert ids[..q + 1][..q] == ids[..q];
      var lookup := GetCellIdFromCoords(rule, bounds, withData, coords[q]);
      var id := lookup.id;
      if id != NO_CELL {
        if cells == [] {
          cells := cells + [id];
        } else if cells[|cells| - 1] != id {
          cells := cells + [id];
        }
      }
    }
    assert ids[..|coords|] == ids;
  }

  /** No two neighbouring entries of a line's cell list are equal. */
  lemma {:induction false} LineCellsNoRepeats(ids: seq<nat>)
    ensures forall q :: 0 <= q < |LineCells(ids)| - 1 ==> LineCells(ids)[q] != LineCells(ids)[q + 1]
    decreases |ids|
  {
    if ids != [] {
      LineCellsNoRepeats(ids[..|ids| - 1]);
    }
  }

  /** A line's cell list holds exactly the IDs found, NO_CELL aside. */
  lemma {:induction false} LineCellsMembers(ids: seq<nat>)
    ensures forall x :: x in LineCells(ids) <==> x in ids && x != NO_CELL
    decreases |ids|
  {
    if ids != [] {
      var init := ids[..|ids| - 1];
      LineCellsMembers(init);
      assert ids == init + [ids[|ids| - 1]];
    }
  }

  /**
   * Along a line through the point (2, 0, 0) past the edge of a 2 x 2 x 2
   * grid, the loop as written lists cell 3; the corrected one lists nothing.
   */
  lemma LineAsWrittenListsAlias()
    ensures LineCells(Lookups(AsWritten, Bounds(2, 2, 2), {3}, [CellCoords(2, 0, 0)])) == [3]
    ensures LineCells(Lookups(Corrected, Bounds(2, 2, 2), {3}, [CellCoords(2, 0, 0)])) == []
  {
    LookupAsWrittenFindsAlias();
    var w := Lookups(AsWritten, Bounds(2, 2, 2), {3}, [CellCoords(2, 0, 0)]);
    var c := Lookups(Corrected, Bounds(2, 2, 2), {3}, [CellCoords(2, 0, 0)]);
    assert w == [3] && w[..0] == [];
    assert c == [NO_CELL] && c[..0] == [];
  }
}
