/**
 * Transfer: the 64-bit flags that select which parts of a spatial cell are sent
 * between processes, and the two composite selections.
 */
module Transfer {

  const NONE: bv64 := 0
  const CELL_PARAMETERS: bv64 := 1 << 0
  const CELL_DERIVATIVES: bv64 := 1 << 1
  const VEL_BLOCK_LIST_STAGE1: bv64 := 1 << 2
  const VEL_BLOCK_LIST_STAGE2: bv64 := 1 << 3
  const VEL_BLOCK_DATA: bv64 := 1 << 4
  const VEL_BLOCK_PARAMETERS: bv64 := 1 << 6
  const VEL_BLOCK_WITH_CONTENT_STAGE1: bv64 := 1 << 7
  const VEL_BLOCK_WITH_CONTENT_STAGE2: bv64 := 1 << 8
  const CELL_SYSBOUNDARYFLAG: bv64 := 1 << 9
  const CELL_E: bv64 := 1 << 10
  const CELL_EDT2: bv64 := 1 << 11
  const CELL_PERB: bv64 := 1 << 12
  const CELL_PERBDT2: bv64 := 1 << 13
  const CELL_BGB: bv64 := 1 << 14
  const CELL_RHO_RHOV: bv64 := 1 << 15
  const CELL_RHODT2_RHOVDT2: bv64 := 1 << 16
  const CELL_BVOL: bv64 := 1 << 17
  const CELL_BVOL_DERIVATIVES: bv64 := 1 << 18
  const CELL_DIMENSIONS: bv64 := 1 << 19
  const CELL_IOLOCALCELLID: bv64 := 1 << 20
  const NEIGHBOR_VEL_BLOCK_DATA: bv64 := 1 << 21
  const CELL_HALL_TERM: bv64 := 1 << 22
  const CELL_P: bv64 := 1 << 23
  const CELL_PDT2: bv64 := 1 << 24
  const CELL_RHOQ_TOT: bv64 := 1 << 25
  const CELL_PHI: bv64 := 1 << 26

  /** Everything a full cell transfer sends. */
  const ALL_DATA: bv64 :=
    CELL_PARAMETERS | CELL_DERIVATIVES | CELL_BVOL_DERIVATIVES | VEL_BLOCK_DATA | CELL_SYSBOUNDARYFLAG

  /** Everything except the distribution function. */
  const ALL_SPATIAL_DATA: bv64 :=
    CELL_PARAMETERS | CELL_DERIVATIVES | CELL_BVOL_DERIVATIVES | CELL_SYSBOUNDARYFLAG

  /** A transfer selection includes a flag when all of the flag's bits are set in it. */
  predicate Includes(mask: bv64, flag: bv64)
  {
    mask & flag == flag
  }

  /** The union of the 26 single-bit flags above. */
  const ALL_FLAGS: bv64 :=
    CELL_PARAMETERS | CELL_DERIVATIVES | VEL_BLOCK_LIST_STAGE1 | VEL_BLOCK_LIST_STAGE2
    | VEL_BLOCK_DATA | VEL_BLOCK_PARAMETERS | VEL_BLOCK_WITH_CONTENT_STAGE1
    | VEL_BLOCK_WITH_CONTENT_STAGE2 | CELL_SYSBOUNDARYFLAG | CELL_E | CELL_EDT2 | CELL_PERB
    | CELL_PERBDT2 | CELL_BGB | CELL_RHO_RHOV | CELL_RHODT2_RHOVDT2 | CELL_BVOL
    | CELL_BVOL_DERIVATIVES | CELL_DIMENSIONS | CELL_IOLOCALCELLID | NEIGHBOR_VEL_BLOCK_DATA
    | CELL_HALL_TERM | CELL_P | CELL_PDT2 | CELL_RHOQ_TOT | CELL_PHI

  /**
   * The 26 single-bit flags together set 26 distinct bits (0 to 26 except bit 5),
   * so no two flags share a bit and their sum is their union.
   */
  lemma FlagsAreDisjointBits()
    ensures ALL_FLAGS == 0x07FF_FFDF
    ensures ALL_FLAGS & (1 << 5) == 0
    ensures ALL_FLAGS ==
      CELL_PARAMETERS + CELL_DERIVATIVES + VEL_BLOCK_LIST_STAGE1 + VEL_BLOCK_LIST_STAGE2
      + VEL_BLOCK_DATA + VEL_BLOCK_PARAMETERS + VEL_BLOCK_WITH_CONTENT_STAGE1
      + VEL_BLOCK_WITH_CONTENT_STAGE2 + CELL_SYSBOUNDARYFLAG + CELL_E + CELL_EDT2 + CELL_PERB
      + CELL_PERBDT2 + CELL_BGB + CELL_RHO_RHOV + CELL_RHODT2_RHOVDT2 + CELL_BVOL
      + CELL_BVOL_DERIVATIVES + CELL_DIMENSIONS + CELL_IOLOCALCELLID + NEIGHBOR_VEL_BLOCK_DATA
      + CELL_HALL_TERM + CELL_P + CELL_PDT2 + CELL_RHOQ_TOT + CELL_PHI
  {
  }

  /** The spatial-only selection is the full selection without the distribution function. */
  lemma PresetsDifferOnlyInBlockData()
    ensures ALL_DATA == ALL_SPATIAL_DATA | VEL_BLOCK_DATA
    ensures !Includes(ALL_SPATIAL_DATA, VEL_BLOCK_DATA) && Includes(ALL_DATA, VEL_BLOCK_DATA)
    ensures Includes(ALL_DATA, ALL_SPATIAL_DATA) && ALL_DATA ^ ALL_SPATIAL_DATA == VEL_BLOCK_DATA
  {
  }
}
