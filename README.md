# Vlasiator spatial-cell velocity store and vlsvextract helpers, in Dafny

This project models two parts of the Vlasiator plasma simulation code.

**The velocity-block store of a spatial cell** (`spatial_cell.hpp`). A spatial
cell holds one `Population` per particle species. Each population pairs a
velocity mesh with a block container:

- the velocity mesh is a two-way map between global block IDs and dense local
  IDs;
- the block container holds one cube of WID^3 samples and one parameter
  record per local ID.

The model covers the following:

- `Store.Population` is a class over a mesh value and a `BlockContainer`
  whose samples live in an `array2`. Its invariant `Valid()` states the
  lockstep: mesh size equals container size; the mesh is a bijection
  between resident blocks and `0 .. size-1`; local ID `l` carries the
  parameters of the block the mesh names at `l`; and the ghost map
  `contents` (samples by global ID) is read through the mesh into the
  container.
- Every block operation of the cell is a method of that class and states
  its new `contents` and mesh:
  - `add_velocity_block`, `add_velocity_blocks`, `add_velocity_block_octant`;
  - `remove_velocity_block` (swap with the last block, then pop);
  - `clear`, `swap`;
  - `set_value`, `increment_value` and `get_value` by global ID;
  - `compute_block_has_content`;
  - `get_velocity_block_children_local_ids`;
  - the ID lookups.
- The velocity-cell index ↔ (i, j, k) bijection and its `0xFFFFFFFF`
  sentinel (`VelocityCell`).
- The `Transfer` flags and their two presets (`Transfer`).
- The halo builders `fetch_acc_data` and `fetch_data` (`HaloFetch`). They
  write an `array3` in triple loops: the block's own samples, same-level
  copies, zero fill for a missing neighbour, interpolation from coarser or
  finer neighbours, and the cell-size fractions.
- `SpatialCell` (`Cells`): the list of populations and the active population
  index, with the whole-cell block count and the as-written forms of the
  code's suspicious spots.

The velocity mesh implementation is not part of this model. It is modelled
from how the cell uses it (`Octree`):

- a block is named by its refinement level and its (i, j, k) position;
- `push_back` refuses a block that is present, outside the grid, or beyond
  the capacity;
- `getSiblings`, `getParent` and `getChildren` follow the octree.

**The integer and string helpers of the extraction tool**
(`tools/vlsvextract.cpp`):

- `SiloTypes`: both `SiloType` overloads.
- `ExtractIds`:
  - velocity block numbers split into (i, j, k);
  - cell IDs from cell coordinates, and the membership check of
    `getCellIdFromCoords`;
  - the block-offset search;
  - the duplicate suppression along a line.
- `ExtractOptions`: `retrieveOptions` over a parsed option map, with the
  output-directory normalisation.
- `ExtractNaming`: the output file, slice and path names.
- `RowMajor`: the row-major arithmetic shared by both parts.
- `Basics`: the option type, the unsigned integer moduli and the sum of
  counts, shared by all modules.

For `add_velocity_block`, the doc comment above it (spatial_cell.hpp:1594-1597)
says that adding a block that already exists returns true. The code returns
false when the mesh refuses the block. The model follows the code.

## Model

| member | source | states |
|---|---|---|
| RowMajor.ComposeOfDecompose | tools/vlsvextract.cpp:261-263 | Splitting n < nx*ny*nz into (n % nx, (n / nx) % ny, n / (nx*ny)) gives in-range indices that compose back to n |
| RowMajor.DecomposeOfCompose | tools/vlsvextract.cpp:261-263 | Composing in-range indices and splitting again gives the same indices |
| RowMajor.ComposeInjective | tools/vlsvextract.cpp:1929-1933 | Distinct in-range index triples have distinct row-major numbers |
| RowMajor.ModAdd | tools/vlsvextract.cpp:712 | Reducing modulo 2^w after every addition gives the reduced total, so an unsigned accumulator holds the sum modulo 2^w |
| VelocityCell.GetVelocityCellIndices | spatial_cell.hpp:1053-1065 | A cell index below WID^3 yields in-block coordinates that index back to it; any larger index yields the sentinel 0xFFFFFFFF in all three |
| VelocityCell.GetVelocityCell | spatial_cell.hpp:1070-1077 | Coordinates with any component ≥ WID give the sentinel; in-block coordinates give a cell below WID^3 whose coordinates are the same |
| VelocityCell.CellRoundTrip | spatial_cell.hpp:1053-1077 | get_velocity_cell(get_velocity_cell_indices(c)) is c for c < WID^3 and the sentinel otherwise |
| VelocityCell.CellIndexInjective | spatial_cell.hpp:1070-1077 | Distinct in-block coordinates name distinct cells |
| Transfer.FlagsAreDisjointBits | spatial_cell.hpp:69-96 | The 26 single-bit flags occupy 26 distinct bits (bit 5 unused), so their union is 0x07FFFFDF |
| Transfer.PresetsDifferOnlyInBlockData | spatial_cell.hpp:98-110 | ALL_DATA is ALL_SPATIAL_DATA plus VEL_BLOCK_DATA exactly; only ALL_DATA includes the distribution function |
| Octree.SiblingsShareParent | spatial_cell.hpp:1733-1738 | A block is among its own siblings; every sibling has the block's level and parent |
| Octree.SiblingsAndParentValid | spatial_cell.hpp:1733-1740 | The siblings and the parent of a block inside the grid are inside the grid |
| Octree.ChildrenAreSiblings | spatial_cell.hpp:944-948 | Below the deepest level a block has eight children, each with the block as parent and the children as its siblings |
| Store.MeshRoundTrip | spatial_cell.hpp:955-977 | On a valid mesh, getLocalID(getGlobalID(l)) is l for every resident l; a non-invalid local ID names its block; residency, count 1 and a valid local ID coincide |
| Store.MeshPushBackValid | spatial_cell.hpp:1608-1613 | push_back keeps the mesh a bijection and succeeds exactly when the block is inside the grid, absent, and the mesh has room |
| Store.MeshRemoveValid | spatial_cell.hpp:1768-1775 | Copying the last entry over the removed one and popping keeps a bijection; every other block keeps its local ID except the last, which takes the removed one's |
| Store.MeshPushBackAllValid | spatial_cell.hpp:1645 | Bulk push_back keeps the mesh a bijection within capacity |
| Store.MeshPushBackAllComplete | spatial_cell.hpp:1645 | After bulk push_back, every in-grid block of the list is resident unless the mesh is full |
| Store.MeshPushBackAllKeeps | spatial_cell.hpp:1645 | Bulk push_back leaves every resident block at its local ID and only appends |
| Store.ContentsPushBack | spatial_cell.hpp:1611-1615 | A successful push_back together with a container append adds exactly the new block to the samples by global ID |
| Store.ContentsRemove | spatial_cell.hpp:1768-1778 | Swap-with-last removal on mesh and container removes exactly the removed block from the samples by global ID |
| Store.OctantBlocksMembers | spatial_cell.hpp:1731-1742 | The blocks add_velocity_block_octant offers are exactly the siblings of the block and of each ancestor visited while the level counter stays positive |
| Store.OctantWalkSound | spatial_cell.hpp:1731-1742 | Every offered block is a sibling of a visited ancestor |
| Store.OctantWalkComplete | spatial_cell.hpp:1731-1742 | Every sibling of every visited ancestor is offered |
| Store.ZeroBlock | spatial_cell.hpp:1617-1619 | The zero-fill loop sets all WID^3 samples of the new slot to 0 and changes nothing else |
| Store.AppendBlocks | spatial_cell.hpp:1653-1670 | The container grows to the mesh's size; old slots are kept and each new slot carries the parameters of its block |
| Store.Population.LocalID | spatial_cell.hpp:967-977 | The local ID is the invalid one exactly for a non-resident block, and otherwise the slot the mesh holds the block at |
| Store.Population.GlobalID | spatial_cell.hpp:955-965 | A local ID inside the mesh names a resident block whose local ID it is; past the end it gives the invalid global ID |
| Store.Population.Count | spatial_cell.hpp:1268-1278 | count is 1 for a resident block and 0 otherwise |
| Store.Population.Size | spatial_cell.hpp:1283-1293 | The size is the container's size, within capacity, and bounds every resident local ID |
| Store.Population.GetData | spatial_cell.hpp:740-742 | get_data(lid) in a release build: the resident block's samples for a local ID below the container's size, and null_block_data (taken as zeros) for the invalid local ID |
| Store.Population.AddVelocityBlock | spatial_cell.hpp:1599-1633 | Succeeds exactly when push_back does; on success the block is added with zero samples and its parameter record, otherwise nothing changes; lockstep kept |
| Store.Population.AddVelocityBlocks | spatial_cell.hpp:1635-1676 | The mesh pushes back the blocks; the resident blocks keep their samples and the accepted ones are added; adds is the number accepted; nothing changes when it is 0 |
| Store.Population.AddEach | spatial_cell.hpp:1735 | Adding siblings one at a time is the bulk push_back of the list, and only adds zero blocks |
| Store.Population.AddVelocityBlockOctant | spatial_cell.hpp:1678-1745 | Refused with no change when the block is resident; otherwise the mesh receives every block of the octant walk, and existing blocks keep their samples while new ones are zero |
| Store.Population.RemoveVelocityBlock | spatial_cell.hpp:1751-1779 | The block disappears from the samples by global ID and everything else is kept; no change for the invalid ID or an absent block; lockstep kept |
| Store.Population.Clear | spatial_cell.hpp:1529-1540 | No blocks remain |
| Store.Population.Swap | spatial_cell.hpp:1781-1798 | The population takes the given mesh and container and hands back its own; samples follow the new pair |
| Store.Population.FindOrAdd | spatial_cell.hpp:1341-1350 | The block's local ID, created with zero samples when absent; the invalid local ID (no change) exactly when creation fails |
| Store.Population.SetValue | spatial_cell.hpp:1337-1357 | Aborts exactly when the block is absent and cannot be created; otherwise exactly one sample of that block becomes value and every other block is unchanged |
| Store.Population.IncrementValue | spatial_cell.hpp:1400-1421 | As set_value, with value added to the one sample |
| Store.Population.GetValue | spatial_cell.hpp:1460-1480 | The sample of a resident block, 0 for an absent one |
| Store.Population.ComputeBlockHasContent | spatial_cell.hpp:1488-1512 | False for the invalid ID and for an absent block; otherwise true exactly when some sample reaches the threshold |
| Store.Population.GetVelocityBlockChildrenLocalIds | spatial_cell.hpp:932-949 | One entry per child, in the mesh's child order: the child's local ID, or the invalid local ID when it is not resident |
| Cells.SpatialCell.GetNumberOfAllVelocityBlocks | spatial_cell.hpp:838-847 | The sum of all populations' block container sizes, modulo 2^32 |
| Cells.SpatialCell.GetNumberOfAllVelocityBlocksAsWritten | spatial_cell.hpp:841-847 | What the loop computes: the active population's container size times the number of populations, modulo 2^32 |
| Cells.AllBlocksAsWrittenWhenEqual | spatial_cell.hpp:841-847 | The loop's answer is right when every population holds as many blocks as the active one |
| Cells.AllBlocksAsWrittenMiscounts | spatial_cell.hpp:845 | Populations holding 1 and 0 blocks, with the second active: the cell holds 1 block and the loop reports 0 |
| Cells.AddBlocksSizesAsWritten | spatial_cell.hpp:1645-1659 | As written, the mesh grows by the number accepted; the container does not grow or grows by the number requested |
| Cells.AddBlocksSizesAsWrittenAgree | spatial_cell.hpp:1645-1659 | Mesh and container stay the same size exactly when nothing is accepted, or all are accepted and the uint8 count is nonzero |
| Cells.AddBlocksSizesAsWrittenDiverge | spatial_cell.hpp:1645-1659 | 7 of 8 accepted leaves the container one slot ahead; 256 accepted leaves it 256 slots behind |
| Cells.SetValueAsWritten | spatial_cell.hpp:1337-1357 | With popID the active population, this is SetValue. Otherwise popID's population gains the zero block (unless creation fails); the call stops exactly when creation fails or the block's local ID is past the active population's blocks; else the block the active population holds at that local ID has its sample overwritten, and nothing else changes |
| Cells.WriteThroughOther | spatial_cell.hpp:1350-1356 | The block is found or created in popID's population; the write stops exactly when creation fails or its local ID is past the active population's blocks; otherwise exactly one sample of the active population's block at that local ID becomes value |
| Cells.SetValueAsWrittenLosesWrite | spatial_cell.hpp:1356 | When the populations differ and the block was absent, reading popID's block back gives 0, not the value written |
| HaloFetch.Ptr | spatial_cell.hpp:359-360 | A neighbour's samples, or the zero samples of null_block_data for the invalid local ID; always WID^3 of them |
| HaloFetch.FaceValue | spatial_cell.hpp:355-396 | A pad value is written exactly when the neighbour answer is empty or at most one level apart |
| HaloFetch.FillBox | spatial_cell.hpp:339-342 | A triple loop writes f into every position of the box and leaves every other position unchanged |
| HaloFetch.FetchAccData | spatial_cell.hpp:315-525 | Stops exactly for the invalid ID or a block outside the mesh; otherwise each output position holds the transposed block sample or its face's pad value, and each fraction the face's cell-size fraction |
| HaloFetch.FetchAccFace | spatial_cell.hpp:343-397 | One face: the pad slab and the fraction are written when the answer is handled; all other positions are unchanged |
| HaloFetch.FetchData | spatial_cell.hpp:527-690 | Stops exactly for a block outside the mesh; otherwise the padded cube holds the block in the middle and the six face neighbours' pad layers |
| HaloFetch.FetchPadAxis | spatial_cell.hpp:553-687 | Both faces of one axis: positions in the axis slabs get the neighbour's pad values and all others are unchanged |
| HaloFetch.FetchPadFace | spatial_cell.hpp:557-598 | One face slab of fetch_data gets the face value for its neighbour answer; nothing else changes |
| HaloFetch.AccSameLevelWindow | spatial_cell.hpp:366-375 | With same-level neighbours on both sides, the acc stencil is the window of WID+2·PAD consecutive samples on the line through the three blocks |
| HaloFetch.AccMatchesPadAlongZ | spatial_cell.hpp:463-524 | Along z, fetch_acc_data's stencil through (a, b) equals fetch_data's padded column through (a+PAD, b+PAD) |
| HaloFetch.PadValueRegions | spatial_cell.hpp:527-690 | fetch_data writes the block inside its span and one face's neighbour where exactly one coordinate is outside; edges and corners are not written |
| HaloFetch.ChildQuadrant | spatial_cell.hpp:379-381 | The finer-neighbour index (k/2)*2 + j/2 lies in [0,4) and picks the 2×2 quadrant of the face |
| HaloFetch.FractionIsCellSizeRatio | spatial_cell.hpp:364-396 | The stored fraction is 1 for no neighbour and otherwise 2^-refLevelDiff (2, 1, 0.5) |
| SiloTypes.SiloTypeOld | tools/vlsvextract.cpp:156-180 | The old overload never stops the program; UNKNOWN gives -1 |
| SiloTypes.SiloType | tools/vlsvextract.cpp:182-206 | The new overload stops the program exactly for UNKNOWN |
| SiloTypes.SiloTypeByWidth | tools/vlsvextract.cpp:156-206 | For a known kind, the Silo type chosen is exactly the one whose byte size is the requested size and which is floating exactly for FLOAT |
| SiloTypes.SiloTypeRefuses | tools/vlsvextract.cpp:156-180 | The old overload returns -1 exactly when no Silo type of that kind and size exists |
| SiloTypes.SiloTypeOverloadsAgree | tools/vlsvextract.cpp:156-206 | Except for UNKNOWN, both overloads give the same answer |
| ExtractIds.BlockIndices | tools/vlsvextract.cpp:261-263 | The split indices are in range and, when bx*by does not wrap, compose back to the block number; k < bz for blocks inside the grid |
| ExtractIds.BlockIndicesOfCompose | tools/vlsvextract.cpp:261-263 | Splitting the number of in-range indices gives them back |
| ExtractIds.CellIdAsWritten | tools/vlsvextract.cpp:1916-1933 | As written: the uint64 max sentinel for a negative coordinate, otherwise k·by·bx + j·bx + i + 1 modulo 2^64, with no upper-bound check |
| ExtractIds.CellIdAsWrittenAliases | tools/vlsvextract.cpp:1929-1933 | On a 2×2×2 grid the out-of-grid coordinates (2,0,0) get ID 3, the ID of cell (0,1,0) |
| ExtractIds.CellId | tools/vlsvextract.cpp:1916-1933 | Corrected: the sentinel outside the grid; inside, the row-major index plus one, between 1 and bx·by·bz |
| ExtractIds.CellIdAgreesInGrid | tools/vlsvextract.cpp:1916-1933 | Inside the grid the corrected ID is the ID as written |
| ExtractIds.CellIdRoundTrip | tools/vlsvextract.cpp:1929-1933 | One less than an in-grid cell's ID, split in row-major order, is the cell's coordinates |
| ExtractIds.CellIdInjective | tools/vlsvextract.cpp:1929-1933 | Two coordinates with the same ID other than the sentinel are equal |
| ExtractIds.GetCellIdFromCoords | tools/vlsvextract.cpp:2098-2128 | Stops exactly for an empty cell list; otherwise returns the ID the rule computes when that ID is listed, else the sentinel. Rule AsWritten is the source's lookup; Corrected uses the corrected cell ID |
| ExtractIds.FoundCellIsAtCoords | tools/vlsvextract.cpp:2118-2128 | Corrected: a found ID belongs to an in-grid cell whose coordinates are the ones given (as written this fails, see LookupAsWrittenFindsAlias) |
| ExtractIds.LookupRulesAgreeInGrid | tools/vlsvextract.cpp:2118-2128 | For coordinates inside the grid the lookup as written and the corrected one agree |
| ExtractIds.LookupAsWrittenFindsAlias | tools/vlsvextract.cpp:2118-2128 | As written, (2,0,0) outside a 2×2×2 grid, with cell 3 holding data, is found as cell 3 (the cell at (0,1,0)); corrected, no cell is found |
| ExtractIds.FindBlockOffset | tools/vlsvextract.cpp:700-715 | Found exactly when the cell is listed; then its first position, the uint64 sum of the block counts before it, and its own count; otherwise the sentinel index |
| ExtractIds.CellsAlongLine | tools/vlsvextract.cpp:2489-2508 | Stops exactly when points are given and no cell holds data; otherwise the list is LineCells of the lookups under the given rule (AsWritten is the source's loop) |
| ExtractIds.LineAsWrittenListsAlias | tools/vlsvextract.cpp:2489-2508 | A line through (2,0,0) past a 2×2×2 grid lists cell 3 as written and nothing when corrected |
| ExtractIds.LineCellsNoRepeats | tools/vlsvextract.cpp:2499-2507 | No two neighbouring entries of a line's cell list are equal |
| ExtractIds.LineCellsMembers | tools/vlsvextract.cpp:2495-2507 | A line's cell list holds exactly the IDs found, the sentinel aside |
| ExtractOptions.DefaultOptions | tools/vlsvextract.cpp:141-150 | A fresh UserOptions has no cell-ID source, no rotation, cell ID = uint64 max, point count 0 and no directory |
| ExtractOptions.LastSeparator | tools/vlsvextract.cpp:2253 | find_last_of("/\\") finds the last separator, or reports that there is none |
| ExtractOptions.NormaliseDirectory | tools/vlsvextract.cpp:2251-2275 | For paths shorter than 2^32: refused exactly when it lacks a trailing separator and holds both kinds; otherwise it ends with a separator and is unchanged exactly when it already did |
| ExtractOptions.NormaliseDirectoryIdempotent | tools/vlsvextract.cpp:2251-2275 | Normalising twice is normalising once |
| ExtractOptions.NormaliseDirectoryKeepsSeparator | tools/vlsvextract.cpp:2263-2273 | The appended separator is '/' when the path holds '/', else '\\' |
| ExtractOptions.UnitFactor | tools/vlsvextract.cpp:2284-2300 | Exactly re, km and m are known units, with factors 6371000, 1000 and 1 |
| ExtractOptions.Scale | tools/vlsvextract.cpp:2303-2316 | Every coordinate is multiplied by the factor |
| ExtractOptions.ReadSources | tools/vlsvextract.cpp:2198-2241 | Coordinates count only with three values, a line only with both end points of three values; rotate, plasmaFrame and cellid are set exactly when given |
| ExtractOptions.ReadDirectory | tools/vlsvextract.cpp:2243-2279 | Refuses only when a directory is given; an accepted directory option leaves exactly one path; with none, the empty path is added and nothing else changes |
| ExtractOptions.ApplyUnit | tools/vlsvextract.cpp:2282-2322 | Refused exactly for an unknown unit, or a unit with neither line nor coordinates; otherwise only the coordinates change |
| ExtractOptions.Retrieve | tools/vlsvextract.cpp:2150-2347 | Help always refuses; accepted options have exactly one cell-ID source, exactly the flags and cell ID given, and one directory that is "" or ends with a separator (see NormaliseDirectory under Left out for very long paths) |
| ExtractOptions.RetrieveOptionsAsWritten | tools/vlsvextract.cpp:2220-2223 | As written, accepted options never take a point count from the command line |
| ExtractOptions.RetrieveOptions | tools/vlsvextract.cpp:2218-2225 | Corrected: a line's point count is the pointamount given, and without the option it keeps its initial value |
| ExtractOptions.RetrieveNeverExits | tools/vlsvextract.cpp:2341-2345 | The final directory check never stops the program |
| ExtractOptions.PointAmountIgnored | tools/vlsvextract.cpp:2220-2223 | A line with pointamount 50 is accepted with point count 0 as written, and 50 when corrected |
| ExtractNaming.Decimal | tools/vlsvextract.cpp:2561 | The decimal form of a cell ID is a non-empty string of digits, one digit long exactly below 10 |
| ExtractNaming.DecimalInjective | tools/vlsvextract.cpp:2561 | Different IDs have different decimal forms |
| ExtractNaming.FindChar | tools/vlsvextract.cpp:2570 | find(".") gives the first '.', or reports that there is none |
| ExtractNaming.RFind | tools/vlsvextract.cpp:2567 | rfind(".vlsv") gives the last occurrence, or reports that there is none |
| ExtractNaming.ReplaceSuffix | tools/vlsvextract.cpp:2546-2568 | Replacing the last ".vlsv" with the new suffix ".vlsv" leaves the name unchanged |
| ExtractNaming.NamePrefix | tools/vlsvextract.cpp:2552-2562 | "velgrid." followed by "rotated." and "shifted." when in use, then the cell ID |
| ExtractNaming.OutputFileName | tools/vlsvextract.cpp:2565-2571 | The prefix followed by the input name from its first '.'; a name without '.' is unchanged |
| ExtractNaming.SliceName | tools/vlsvextract.cpp:2573-2576 | "VelSlice" followed by the input name from its first '.'; a name without '.' is unchanged |
| ExtractNaming.OutputFilePath | tools/vlsvextract.cpp:2578-2582 | The path starts with the output directory |
| ExtractNaming.OutputFileNameKeepsExtension | tools/vlsvextract.cpp:2570-2571 | The output name keeps everything from the input's first '.' on |
| ExtractNaming.OutputFilePathInjective | tools/vlsvextract.cpp:2552-2582 | For an input name holding a '.', different cells get different paths |

## Left out

- The velocity mesh and block container implementations are not part of this model. The mesh is a list of IDs plus the map back, and the container is an `array2` of samples with parameter records. Both have a capacity fixed at construction, where the source grows them. The integer encoding of global IDs is replaced by (level, i, j, k).
- Members whose bodies are not part of this model are not modelled: `adjust_velocity_blocks`, `refine_block`, `coarsen_block(s)`, `merge_values_recursive`, `update_velocity_block_content_lists`, `prepare_to_receive_blocks`, `get_mpi_datatype`, `find_velocity_block`, `checkMesh`, and the `SpatialCell` constructors.
- The MPI transfer setters, `MAXVDT` and `N_blocks` are not modelled. They are communication bookkeeping.
- `velocity_block_has_children` and `velocity_block_has_grandparent` are not modelled. They are mesh queries that the block operations do not use.
- `set_value`, `increment_value` and `get_value` by velocity (vx, vy, vz) are not modelled, nor are the other float conversions between velocities, blocks and cells and the cell-edge getters. They are floating point. The model takes the block and cell already located.
- `get_velocity_block_child` is not modelled, because it reads uninitialised indices. The memory-size sums are not modelled either.
- The `popID` range checks that only exist in `DEBUG_SPATIAL_CELL` builds are left out. A population is chosen by passing the `Population` object.
- `fetch_acc_data` and `fetch_data` are modelled as debug builds: the invalid global ID or a block outside the mesh stops the program (`aborted`). In release builds that is undefined behaviour.
- Store.Population.GetData: models the release build of `get_data`. The invalid local ID gives `null_block_data`, and any other local ID must be below the container's size, because the release build reads past the container there. A debug build stops at spatial_cell.hpp:735-738 for every local ID at or past the size, the invalid one included. That exit is not modelled.
- Store.Population.GetData and HaloFetch.Ptr: `null_block_data` is taken to hold zeros. The constructor that fills it is not part of this model.
- Cells.WriteThroughOther: a local ID past the active population's blocks is modelled as the exit of `get_data`'s debug bounds check. In a release build it writes past the container.
- The `DEBUG_SPATIAL_CELL` exits of `add_velocity_blocks` are not modelled: the exit when fewer than 8 blocks were added (spatial_cell.hpp:1651-1656), and the exit when mesh and container sizes differ (spatial_cell.hpp:1662-1666). Store.Population.AddVelocityBlocks and Cells.AddBlocksSizesAsWritten model the release build.
- Cells.AddBlocksSizesAsWritten: models the two sizes only. As written, the parameter loop (spatial_cell.hpp:1669-1675) writes the parameters of blocks[b] into slot startLID + b for every requested block. Once the mesh refuses a block, later slots carry the parameters of the wrong blocks. The model does not capture that misalignment.
- Store.MeshPushBackAll: the mesh's bulk `push_back(blocks)` is not part of this model. It is taken to behave as single `push_back` calls of the blocks in order, each refusing a present, out-of-grid or over-capacity block, and to return the number accepted. The 7-of-8 input in the findings rests on this.
- Octree.Siblings: the siblings of a level-0 block are taken to be the block alone, and it is its own parent. The mesh's own `getSiblings` and `getParent` are not part of this model.
- HaloFetch: the interpolation kernels `interp_xy/yz/xz` and the mesh's neighbour query are function parameters. The sample arrays are passed as `seq<seq<real>>`, and `Realf` is `real`.
- HaloFetch.FillBox: it visits positions in a different order from the source's loop nests. Every write goes to a different position, so the final array is the same.
- HaloFetch.FetchAccData / HaloFetch.FetchData: for a neighbour answer more than one level apart, nothing is written, as in the source. The model does not say what such a position held before.
- Cells.SpatialCell: it has no class invariant over its populations. Each population keeps its own `Valid()`.
- SiloTypes: the Silo DB_* codes are named, not numbered, and the error printing is left out.
- ExtractIds.BlockIndices: the round trip is stated only when bx·by does not wrap around 64 bits.
- ExtractIds: cell coordinates are given as integers, so the float floor and the coordinate conversion are left out. Block counts and cell IDs are given already decoded, because `convUInt` reinterprets raw bytes.
- ExtractOptions: Boost parses the command line. The model starts from the parsed map, whose keys are the declared options with values of the declared types. Parse errors and unknown options are left out.
- ExtractOptions.DefaultOptions: the UserOptions constructor leaves `plasmaFrame` and the coordinate arrays unset. The model takes them as parameters.
- ExtractOptions.Scale: unit scaling is exact real multiplication. The model does not round to double.
- ExtractOptions.NormaliseDirectory: its meaning is stated only for paths shorter than 2^32 characters. Beyond that, the 32-bit truncation of the separator index can defeat the check, and the model computes that case but states nothing about it.
- ExtractOptions.Retrieve: the directory it returns is "", ends with a separator, or is 2^32 or more characters long (see NormaliseDirectory).
- The rest of vlsvextract is left out: all Silo and VLSV I/O, MPI, the directory scan in `main`, `doRotation`, the node comparisons, `setCoordinatesAlongALine`, `convUInt` and `getCellCoordinates`.
- readfields.h, iowrite.h and memalloc.cpp are not modelled. They are file I/O, declarations, and allocation wrappers.

## Findings

| source | as written | input that shows it | evidently intended | confidence | as-written member | corrected member |
|---|---|---|---|---|---|---|
| spatial_cell.hpp:1337-1357 | set_value creates the block in population popID but writes the sample through populations[activePopID] at that local ID | popID 0, activePopID 1, block absent from population 0, value 1.0: population 0 reads back 0, and a sample of population 1 is overwritten | write into population popID | not executed | Cells.SetValueAsWritten, Cells.WriteThroughOther, Cells.SetValueAsWrittenLosesWrite | Store.Population.SetValue |
| spatial_cell.hpp:841-847 | get_number_of_all_velocity_blocks adds populations[activePopID]'s count once per population | two populations with 1 and 0 blocks, activePopID 1: returns 0 instead of 1 | sum populations[p] over p | not executed | Cells.SpatialCell.GetNumberOfAllVelocityBlocksAsWritten, Cells.AllBlocksAsWrittenMiscounts | Cells.SpatialCell.GetNumberOfAllVelocityBlocks |
| spatial_cell.hpp:1645-1659 | add_velocity_blocks keeps the mesh's count of accepted blocks in a uint8_t and grows the container by blocks.size() | 8 siblings with one already resident: the mesh grows by 7 and the container by 8; 256 accepted blocks: the count wraps to 0 and the container does not grow | grow the container by the number of blocks the mesh accepted | not executed | Cells.AddBlocksSizesAsWritten, Cells.AddBlocksSizesAsWrittenDiverge | Store.Population.AddVelocityBlocks |
| tools/vlsvextract.cpp:2220-2223 | the point count is looked up under "pointAmount", but the option is declared as "pointamount" | point1 0 0 0, point2 1 1 1, pointamount 50: the count stays 0, which means automatic | read the declared "pointamount" | not executed | ExtractOptions.RetrieveOptionsAsWritten, ExtractOptions.PointAmountIgnored | ExtractOptions.RetrieveOptions |
| tools/vlsvextract.cpp:1916-1933 | searchForBestCellId checks coordinates only against 0, not against the grid's cell counts | grid 2×2×2, cell coordinates (2,0,0), one past the last cell in x: ID 3, which is cell (0,1,0); with cell 3 holding data, getCellIdFromCoords and the line loop report cell 3 | NO_CELL for coordinates at or past the upper bound | not executed | ExtractIds.CellIdAsWritten, ExtractIds.CellIdAsWrittenAliases, ExtractIds.LookupAsWrittenFindsAlias, ExtractIds.LineAsWrittenListsAlias | ExtractIds.CellId, ExtractIds.CellIdInjective, ExtractIds.FoundCellIsAtCoords |
