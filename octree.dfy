/**
 * Block addressing of the velocity mesh as the spatial cell uses it. A velocity
 * block is named by a global ID; the mesh is an octree over a root grid of
 * nx * ny * nz blocks, each refinement level halving the block size. The
 * mesh's own integer encoding of global IDs is not part of this model: a block
 * is named here by its refinement level and its (i, j, k) position on that
 * level, and the invalid global ID is a separate value.
 */
module Octree {
  import opened VelocityCell

  /** Geometry of the velocity mesh, shared by every spatial cell. */
  datatype MeshGeometry = MeshGeometry(
    nx: nat, ny: nat, nz: nat,      // blocks per axis on refinement level 0
    maxLevel: nat,                  // deepest refinement level allowed
    vxMin: real, vyMin: real, vzMin: real,     // lower corner of the velocity grid
    dvxBlock: real, dvyBlock: real, dvzBlock: real)   // size of a level-0 block

  datatype GlobalID = InvalidGID | Gid(level: nat, i: nat, j: nat, k: nat)

  /** Per-block parameter record: minimum coordinates and cell size (VXCRD .. DVZ). */
  datatype BlockParameters = BlockParameters(
    vxCrd: real, vyCrd: real, vzCrd: real, dvx: real, dvy: real, dvz: real)

  function Pow2(n: nat): (r: nat)
    ensures r >= 1
  {
    if n == 0 then 1 else 2 * Pow2(n - 1)
  }

  /** Blocks per axis on a refinement level, for an axis with n level-0 blocks. */
  function GridLength(n: nat, level: nat): nat
  {
    n * Pow2(level)
  }

  /** A global ID that names a block inside the velocity grid. */
  predicate IsValid(geom: MeshGeometry, g: GlobalID)
  {
    g.Gid? && g.level <= geom.maxLevel
    && g.i < GridLength(geom.nx, g.level)
    && g.j < GridLength(geom.ny, g.level)
    && g.k < GridLength(geom.nz, g.level)
  }

  /** getRefinementLevel; the invalid ID is given level 0. */
  function RefinementLevel(g: GlobalID): nat
  {
    if g.Gid? then g.level else 0
  }

  /** getParent: the block one level coarser that contains g; level-0 blocks are their own parent. */
  function Parent(g: GlobalID): GlobalID
  {
    if g.InvalidGID? || g.level == 0 then g else Gid(g.level - 1, g.i / 2, g.j / 2, g.k / 2)
  }

  /** The eight blocks of one octant on a level, i varying fastest. */
  function Octant(level: nat, i: nat, j: nat, k: nat): seq<GlobalID>
  {
    [Gid(level, i, j, k), Gid(level, i + 1, j, k), Gid(level, i, j + 1, k), Gid(level, i + 1, j + 1, k),
     Gid(level, i, j, k + 1), Gid(level, i + 1, j, k + 1), Gid(level, i, j + 1, k + 1), Gid(level, i + 1, j + 1, k + 1)]
  }

  /**
   * getSiblings: the octant that shares g's parent, g included. A level-0 block
   * has no parent octant and is its own only sibling.
   */
  function Siblings(g: GlobalID): seq<GlobalID>
  {
    if g.InvalidGID? || g.level == 0 then [g]
    else Octant(g.level, 2 * (g.i / 2), 2 * (g.j / 2), 2 * (g.k / 2))
  }

  /** getChildren: the eight blocks one level finer inside g, none at the deepest level. */
  function Children(geom: MeshGeometry, g: GlobalID): seq<GlobalID>
  {
    if g.InvalidGID? || g.level >= geom.maxLevel then []
    else Octant(g.level + 1, 2 * g.i, 2 * g.j, 2 * g.k)
  }

  /** Edge lengths of a block on the given level. */
  function BlockSize(geom: MeshGeometry, level: nat): (real, real, real)
  {
    (geom.dvxBlock / Pow2(level) as real, geom.dvyBlock / Pow2(level) as real, geom.dvzBlock / Pow2(level) as real)
  }

  /** The parameter record of a block: its minimum coordinates and its cell size. */
  function ParametersOf(geom: MeshGeometry, g: GlobalID): BlockParameters
  {
    if g.InvalidGID? then BlockParameters(0.0, 0.0, 0.0, 0.0, 0.0, 0.0)
    else
      var (sx, sy, sz) := BlockSize(geom, g.level);
      BlockParameters(geom.vxMin + g.i as real * sx, geom.vyMin + g.j as real * sy, geom.vzMin + g.k as real * sz,
                      sx / WID as real, sy / WID as real, sz / WID as real)
  }

  lemma HalfBelow(a: nat, n: nat)
    requires a < 2 * n
    ensures a / 2 < n && 2 * (a / 2) + 1 < 2 * n
  {
  }

  lemma GridLengthStep(n: nat, level: nat)
    requires level >= 1
    ensures GridLength(n, level) == 2 * GridLength(n, level - 1)
  {
    calc {
      GridLength(n, level);
      n * (2 * Pow2(level - 1));
      2 * (n * Pow2(level - 1));
    }
  }

  /** A block belongs to its own sibling octant, and every sibling shares its level and parent. */
  lemma SiblingsShareParent(g: GlobalID)
    ensures g in Siblings(g)
    ensures forall s :: s in Siblings(g) ==> s.Gid? == g.Gid? && RefinementLevel(s) == RefinementLevel(g) && Parent(s) == Parent(g)
  {
    if g.Gid? && g.level > 0 {
      var s := Siblings(g);
      var idx := g.i % 2 + 2 * (g.j % 2) + 4 * (g.k % 2);
      assert s[idx] == g;
    }
  }

  /** The siblings and the parent of a block inside the grid are inside the grid. */
  lemma {:induction false} SiblingsAndParentValid(geom: MeshGeometry, g: GlobalID)
    requires IsValid(geom, g)
    ensures forall s :: s in Siblings(g) ==> IsValid(geom, s)
    ensures IsValid(geom, Parent(g))
  {
    if g.level > 0 {
      GridLengthStep(geom.nx, g.level);
      GridLengthStep(geom.ny, g.level);
      GridLengthStep(geom.nz, g.level);
      HalfBelow(g.i, GridLength(geom.nx, g.level - 1));
      HalfBelow(g.j, GridLength(geom.ny, g.level - 1));
      HalfBelow(g.k, GridLength(geom.nz, g.level - 1));
    }
  }

  /** The children of a block are exactly the siblings of each child, and each child's parent is the block. */
  lemma ChildrenAreSiblings(geom: MeshGeometry, g: GlobalID)
    requires g.Gid? && g.level < geom.maxLevel
    ensures |Children(geom, g)| == 8
    ensures forall c :: c in Children(geom, g) ==> Parent(c) == g && Siblings(c) == Children(geom, g)
  {
  }
}
