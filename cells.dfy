/**
 * A spatial cell: one velocity-block store per particle population, selected
 * by a population index. The cell also carries the index of the "active"
 * population, a value shared by every cell.
 */
module Cells {
  import opened VelocityCell
  import opened Octree
  import opened Store
  import opened RowMajor
  import opened Basics

  // vmesh::LocalID is a 32-bit unsigned integer: sums of block counts wrap
  // around modulo UINT32_MODULUS.

  /** What get_number_of_all_velocity_blocks promises: the block counts of all populations, summed. */
  function AllBlocks(sizes: seq<nat>): nat
  {
    Sum(sizes) % UINT32_MODULUS
  }

  /**
   * What get_number_of_all_velocity_blocks computes: its loop runs once per
   * population but reads the active population's count every time.
   */
  function AllBlocksAsWritten(sizes: seq<nat>, active: nat): nat
    requires sizes != [] ==> active < |sizes|
  {
    if sizes == [] then 0 else (|sizes| * sizes[active]) % UINT32_MODULUS
  }

  /** The sum of a sequence of equal counts is the count times the length. */
  lemma {:induction false} SumOfEqualSizes(sizes: seq<nat>, n: nat)
    requires forall p :: 0 <= p < |sizes| ==> sizes[p] == n
    ensures Sum(sizes) == |sizes| * n
    decreases |sizes|
  {
    if sizes != [] {
      SumOfEqualSizes(sizes[..|sizes| - 1], n);
    }
  }

  /** When every population holds as many blocks as the active one, the loop's answer is right. */
  lemma AllBlocksAsWrittenWhenEqual(sizes: seq<nat>, active: nat)
    requires active < |sizes| && forall p :: 0 <= p < |sizes| ==> sizes[p] == sizes[active]
    ensures AllBlocksAsWritten(sizes, active) == AllBlocks(sizes)
  {
    SumOfEqualSizes(sizes, sizes[active]);
  }

  /**
   * Two populations holding one block and no block, with the second active:
   * the cell holds one block, and the loop reports none.
   */
  lemma AllBlocksAsWrittenMiscounts()
    ensures AllBlocks([1, 0]) == 1 && AllBlocksAsWritten([1, 0], 1) == 0
  {
    assert [1, 0][..1] == [1];
    assert [1][..0] == [];
  }

  /** push_back on the mesh reports how many blocks it accepted in a uint8_t. */
  const ADDS_MODULUS: nat := 256

  /**
   * The sizes of the mesh and the container after add_velocity_blocks as
   * written, from their sizes before, the number of blocks the mesh accepted
   * and the number requested: the count of accepted blocks is kept modulo
   * 256, a zero count returns at once, and otherwise the container grows by
   * the number requested.
   */
  function AddBlocksSizesAsWritten(meshSize: nat, containerSize: nat, accepted: nat, requested: nat): (sizes: (nat, nat))
    ensures sizes.0 == meshSize + accepted
    ensures sizes.1 == containerSize || sizes.1 == containerSize + requested
  {
    var adds := accepted % ADDS_MODULUS;
    if adds == 0 then (meshSize + accepted, containerSize)
    else (meshSize + accepted, containerSize + requested)
  }

  /**
   * Starting from a mesh and a container of equal size, the two stay equal
   * exactly when the mesh accepts nothing, or accepts every block requested
   * and fewer than 256 of them (up to a multiple of 256).
   */
  lemma AddBlocksSizesAsWrittenAgree(size: nat, accepted: nat, requested: nat)
    requires accepted <= requested
    ensures var sizes := AddBlocksSizesAsWritten(size, size, accepted, requested);
      sizes.0 == sizes.1 <==> accepted == 0 || (accepted % ADDS_MODULUS != 0 && accepted == requested)
  {
  }

  /**
   * The octant case: seven of eight siblings accepted (one was already
   * resident) leaves the container one slot ahead of the mesh; 256 accepted
   * blocks leave the container 256 slots behind.
   */
  lemma AddBlocksSizesAsWrittenDiverge()
    ensures AddBlocksSizesAsWritten(10, 10, 7, 8) == (17, 18)
    ensures AddBlocksSizesAsWritten(0, 0, 256, 256) == (256, 0)
  {
  }

  /**
   * What set_value writes through the active population when it differs from
   * the population asked for: the asked-for population gets the block created
   * with zero samples, so reading the cell back there gives 0, never a nonzero
   * value just written.
   */
  lemma SetValueAsWrittenLosesWrite(c0: map<GlobalID, seq<real>>, c1: map<GlobalID, seq<real>>,
                                    g: GlobalID, cell: nat, value: real)
    requires g !in c0 && cell < WID3 && value != 0.0
    requires c1 == c0[g := StartBlock(c0, g)]
    ensures g in c1 && c1[g][cell] == 0.0 != value
    ensures c1[g] != StartBlock(c0, g)[cell := value]
  {
    assert StartBlock(c0, g) == Zeros();
    assert StartBlock(c0, g)[cell := value][cell] == value;
  }

  /** The block counts of a sequence of populations: the sizes of their block containers. */
  function SizesOf(ps: seq<Population>): (r: seq<nat>)
    reads ps, set p | p in ps :: p.container
    ensures |r| == |ps| && forall p :: 0 <= p < |ps| ==> r[p] == ps[p].container.size
  {
    if ps == [] then [] else SizesOf(ps[..|ps| - 1]) + [ps[|ps| - 1].container.size]
  }

  class SpatialCell {
    /** One store per particle population, in species order. */
    var populations: seq<Population>
    /** activePopID: static in the source, so one value for all cells. */
    var activePopID: nat

    /** A cell holding the given populations. */
    constructor (pops: seq<Population>, active: nat)
      ensures populations == pops && activePopID == active
    {
      populations := pops;
      activePopID := active;
    }

    /** The number of blocks of each population. */
    function Sizes(): (r: seq<nat>)
      reads this, populations, set p | p in populations :: p.container
      ensures r == SizesOf(populations)
    {
      SizesOf(populations)
    }

    /** get_number_of_all_velocity_blocks, as it is meant: the block counts of all populations, summed. */
    method GetNumberOfAllVelocityBlocks() returns (n: nat)
      ensures n == AllBlocks(Sizes())
    {
      n := 0;
      ghost var sizes := SizesOf(populations);
      for p := 0 to |populations|
        invariant n == Sum(sizes[..p]) % UINT32_MODULUS
      {
        assert sizes[..p + 1] == sizes[..p] + [sizes[p]];
        SumSnoc(sizes[..p], sizes[p]);
        ModAdd(Sum(sizes[..p]), sizes[p], UINT32_MODULUS);
        n := (n + populations[p].container.size) % UINT32_MODULUS;
      }
      assert sizes[..|populations|] == sizes;
    }

    /** get_number_of_all_velocity_blocks, as written: the active population's count, once per population. */
    method GetNumberOfAllVelocityBlocksAsWritten() returns (n: nat)
      requires populations != [] ==> activePopID < |populations|
      ensures n == AllBlocksAsWritten(Sizes(), activePopID)
    {
      n := 0;
      if populations == [] {
        return;
      }
      var size := populations[activePopID].container.size;
      for p := 0 to |populations|
        invariant n == (p * size) % UINT32_MODULUS
      {
        ModAdd(p * size, size, UINT32_MODULUS);
        assert (p + 1) * size == p * size + size;
        n := (n + size) % UINT32_MODULUS;
      }
    }
  }

  /**
   * The effect of set_value written through another population, from the
   * block's population (contents p0 before and p1 after, with lid the
   * block's local ID there after the call) and the target population (mesh
   * m0/m1 and contents t0/t1): the block's population gains the zero block
   * unless creation fails; the call stops exactly when creation fails or lid
   * is past the target's blocks; otherwise one sample of the block the
   * target holds at lid becomes value, and nothing else changes.
   */
  ghost predicate WriteThroughOtherEffect(p0: map<GlobalID, seq<real>>, p1: map<GlobalID, seq<real>>, lid: nat,
                                          m0: VelocityMesh, m1: VelocityMesh,
                                          t0: map<GlobalID, seq<real>>, t1: map<GlobalID, seq<real>>,
                                          g: GlobalID, cell: nat, value: real, fails: bool, aborted: bool)
  {
    (p1 == if fails then p0 else p0[g := StartBlock(p0, g)])
    && (aborted <==> fails || lid >= |m0.gids|)
    && m1 == m0
    && (aborted ==> t1 == t0)
    && (!aborted ==>
          var b := m0.gids[lid];
          b in t0 && cell < |t0[b]| && t1 == t0[b := t0[b][cell := value]])
  }

  /**
   * set_value by global ID as written, with pop the population asked for
   * (populations[popID]) and active the active population
   * (populations[activePopID]): the block is found or created in pop, but
   * the sample is written through active, at the block's local ID in pop.
   * When both are the same population this is Population.SetValue;
   * otherwise see WriteThroughOther.
   */
  method SetValueAsWritten(pop: Population, active: Population, g: GlobalID, cell: nat, value: real)
    returns (aborted: bool)
    requires pop.Valid() && active.Valid() && (pop == active || pop.Repr !! active.Repr) && cell < WID3
    modifies pop.Repr, active.Repr
    ensures pop.Valid() && active.Valid() && pop.Repr == old(pop.Repr) && active.Repr == old(active.Repr)
    ensures pop == active ==>
      (aborted <==> g !in old(pop.contents) && !(IsValid(pop.geom, g) && old(|pop.vmesh.gids|) < pop.capacity))
      && pop.contents == if aborted then old(pop.contents)
                         else old(pop.contents)[g := StartBlock(old(pop.contents), g)[cell := value]]
    ensures pop != active ==>
      WriteThroughOtherEffect(old(pop.contents), pop.contents, pop.LocalID(g), old(active.vmesh), active.vmesh,
                              old(active.contents), active.contents, g, cell, value,
                              g !in old(pop.contents) && !(IsValid(pop.geom, g) && old(|pop.vmesh.gids|) < pop.capacity),
                              aborted)
  {
    if pop == active {
      aborted := pop.SetValue(g, cell, value);
    } else {
      aborted := WriteThroughOther(pop, active, g, cell, value);
    }
  }

  /**
   * The write of set_value when the block's population pop differs from the
   * active population target. The block is found or created in pop, as
   * set_value does; creating it can fail. Its local ID in pop then indexes
   * target: a local ID past target's blocks stops the program (the bounds
   * check of get_data in a debug build), and otherwise one sample of the
   * block target holds at that local ID, whichever block that is, is
   * overwritten.
   */
  method WriteThroughOther(pop: Population, target: Population, g: GlobalID, cell: nat, value: real)
    returns (aborted: bool)
    requires pop.Valid() && target.Valid() && pop.Repr !! target.Repr && cell < WID3
    modifies pop.Repr, target.Repr
    ensures pop.Valid() && target.Valid() && pop.Repr == old(pop.Repr) && target.Repr == old(target.Repr)
    ensures WriteThroughOtherEffect(old(pop.contents), pop.contents, pop.LocalID(g), old(target.vmesh), target.vmesh,
                                    old(target.contents), target.contents, g, cell, value,
                                    g !in old(pop.contents) && !(IsValid(pop.geom, g) && old(|pop.vmesh.gids|) < pop.capacity),
                                    aborted)
  {
    var lid := pop.FindOrAdd(g);
    if lid == INVALID_LOCAL_ID {
      return true;
    }
    assert pop.LocalID(g) == lid;
    if lid >= target.Size() {
      return true;
    }
    var b := target.GlobalID(lid);
    target.WriteSample(b, lid, cell, value);
    aborted := false;
  }
}
