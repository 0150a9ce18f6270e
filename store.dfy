/**
 * The velocity-block store of one particle population in a spatial cell: a
 * velocity mesh (a two-way map between global IDs and dense local IDs) and a
 * block container (one cube of WID^3 samples and one parameter record per
 * local ID). Every operation keeps the two in lockstep: local ID l holds the
 * samples and parameters of the block the mesh names at l.
 */
module Store {
  import opened VelocityCell
  import opened Octree

  /** invalidLocalID(): the 32-bit all-ones local ID. */
  const INVALID_LOCAL_ID: nat := 0xFFFF_FFFF

  /** The samples of a freshly added block. */
  function Zeros(): (r: seq<real>)
    ensures |r| == WID3 && forall c :: 0 <= c < WID3 ==> r[c] == 0.0
  {
    seq(WID3, _ => 0.0)
  }

  // ---------------------------------------------------------------------------
  // Velocity mesh

  /**
   * The velocity mesh as this file uses it: the list of resident global IDs
   * by local ID, and the map back from global ID to local ID.
   */
  datatype VelocityMesh = VelocityMesh(gids: seq<GlobalID>, lids: map<GlobalID, nat>)

  /** The two directions are inverse bijections between the resident grid blocks and 0 .. size-1. */
  predicate MeshValid(geom: MeshGeometry, m: VelocityMesh)
  {
    |m.gids| < INVALID_LOCAL_ID
    && (forall l :: 0 <= l < |m.gids| ==> IsValid(geom, m.gids[l]) && m.gids[l] in m.lids && m.lids[m.gids[l]] == l)
    && (forall g :: g in m.lids ==> m.lids[g] < |m.gids| && m.gids[m.lids[g]] == g)
  }

  /** getLocalID: the local ID of a resident block, the invalid local ID otherwise. */
  function LocalIDOf(m: VelocityMesh, g: GlobalID): nat
  {
    if g in m.lids then m.lids[g] else INVALID_LOCAL_ID
  }

  /** getGlobalID: the global ID at a local ID, the invalid global ID beyond the mesh. */
  function GlobalIDOf(m: VelocityMesh, l: nat): GlobalID
  {
    if l < |m.gids| then m.gids[l] else InvalidGID
  }

  /** count: 1 for a resident block, 0 otherwise. */
  function CountOf(m: VelocityMesh, g: GlobalID): nat
  {
    if g in m.lids then 1 else 0
  }

  /** The two lookups undo each other on resident blocks, and agree on what is resident. */
  lemma MeshRoundTrip(geom: MeshGeometry, m: VelocityMesh, l: nat, g: GlobalID)
    requires MeshValid(geom, m)
    ensures l < |m.gids| ==> LocalIDOf(m, GlobalIDOf(m, l)) == l
    ensures LocalIDOf(m, g) != INVALID_LOCAL_ID ==> LocalIDOf(m, g) < |m.gids| && GlobalIDOf(m, LocalIDOf(m, g)) == g
    ensures (LocalIDOf(m, g) != INVALID_LOCAL_ID) == (g in m.gids) == (CountOf(m, g) == 1)
  {
    if g in m.gids {
      var l' :| 0 <= l' < |m.gids| && m.gids[l'] == g;
    }
  }

  /**
   * push_back(gid) succeeds when the ID names a block inside the grid, the
   * block is not yet present, and the mesh has room for one more block.
   */
  predicate Accepts(geom: MeshGeometry, m: VelocityMesh, cap: nat, g: GlobalID)
  {
    IsValid(geom, g) && g !in m.lids && |m.gids| < cap
  }

  /** The mesh after push_back(gid). */
  function MeshPushBack(geom: MeshGeometry, m: VelocityMesh, cap: nat, g: GlobalID): VelocityMesh
  {
    if Accepts(geom, m, cap, g) then VelocityMesh(m.gids + [g], m.lids[g := |m.gids|]) else m
  }

  /** The mesh after pushing back each block of blocks in turn. */
  function MeshPushBackAll(geom: MeshGeometry, m: VelocityMesh, cap: nat, blocks: seq<GlobalID>): VelocityMesh
    decreases |blocks|
  {
    if blocks == [] then m else MeshPushBackAll(geom, MeshPushBack(geom, m, cap, blocks[0]), cap, blocks[1..])
  }

  /** The sequence with entry r overwritten by the last entry, and the last entry dropped. */
  function SwapRemove<T>(s: seq<T>, r: nat): seq<T>
    requires r < |s|
  {
    s[r := s[|s| - 1]][..|s| - 1]
  }

  /** The mesh after copy(last, removed) and pop(): the last block takes the removed block's local ID. */
  function MeshRemove(m: VelocityMesh, g: GlobalID): VelocityMesh
    requires g in m.lids && m.lids[g] < |m.gids|
  {
    var removed := m.lids[g];
    var lastGid := m.gids[|m.gids| - 1];
    VelocityMesh(SwapRemove(m.gids, removed), m.lids[lastGid := removed] - {g})
  }

  /** A successful push_back appends the block; the mesh stays a bijection. */
  lemma MeshPushBackValid(geom: MeshGeometry, m: VelocityMesh, cap: nat, g: GlobalID)
    requires MeshValid(geom, m) && cap < INVALID_LOCAL_ID
    ensures MeshValid(geom, MeshPushBack(geom, m, cap, g))
    ensures Accepts(geom, m, cap, g) <==> IsValid(geom, g) && g !in m.gids && |m.gids| < cap
  {
    MeshRoundTrip(geom, m, 0, g);
  }

  /** Removing a resident block keeps a bijection over the other blocks, which keep their local IDs except the last one. */
  lemma MeshRemoveValid(geom: MeshGeometry, m: VelocityMesh, g: GlobalID)
    requires MeshValid(geom, m) && g in m.lids
    ensures var m' := MeshRemove(m, g);
      MeshValid(geom, m') && m'.lids.Keys == m.lids.Keys - {g} && |m'.gids| == |m.gids| - 1
  {
    var removed := m.lids[g];
    var last := |m.gids| - 1;
    var lastGid := m.gids[last];
    var m' := MeshRemove(m, g);
    forall l | 0 <= l < |m'.gids|
      ensures IsValid(geom, m'.gids[l]) && m'.gids[l] in m'.lids && m'.lids[m'.gids[l]] == l
    {
      if l != removed {
        assert m'.gids[l] == m.gids[l] != g;
      }
    }
  }

  /** Bulk push_back keeps what was there and only appends blocks taken from the list. */
  lemma {:induction false} MeshPushBackAllGrows(geom: MeshGeometry, m: VelocityMesh, cap: nat, blocks: seq<GlobalID>)
    ensures var r := MeshPushBackAll(geom, m, cap, blocks);
      |m.gids| <= |r.gids| && r.gids[..|m.gids|] == m.gids
      && forall x :: x in r.gids[|m.gids|..] ==> x in blocks
    decreases |blocks|
  {
    if blocks != [] {
      var m1 := MeshPushBack(geom, m, cap, blocks[0]);
      MeshPushBackAllGrows(geom, m1, cap, blocks[1..]);
      var r := MeshPushBackAll(geom, m1, cap, blocks[1..]);
      assert m1.gids == m.gids || m1.gids == m.gids + [blocks[0]];
      assert r.gids[..|m.gids|] == r.gids[..|m1.gids|][..|m.gids|];
      assert r.gids[|m.gids|..] == m1.gids[|m.gids|..] + r.gids[|m1.gids|..];
      forall x | x in r.gids[|m.gids|..]
        ensures x in blocks
      {
        if x in r.gids[|m1.gids|..] {
          assert x in blocks[1..];
        }
      }
    }
  }

  /** Bulk push_back keeps the mesh a bijection and never passes the capacity. */
  lemma {:induction false} MeshPushBackAllValid(geom: MeshGeometry, m: VelocityMesh, cap: nat, blocks: seq<GlobalID>)
    requires MeshValid(geom, m) && |m.gids| <= cap < INVALID_LOCAL_ID
    ensures var r := MeshPushBackAll(geom, m, cap, blocks);
      MeshValid(geom, r) && |r.gids| <= cap
    decreases |blocks|
  {
    if blocks != [] {
      MeshPushBackValid(geom, m, cap, blocks[0]);
      MeshPushBackAllValid(geom, MeshPushBack(geom, m, cap, blocks[0]), cap, blocks[1..]);
    }
  }

  /** After bulk push_back every grid block of the list is resident, unless the mesh is full. */
  lemma {:induction false} MeshPushBackAllComplete(geom: MeshGeometry, m: VelocityMesh, cap: nat, blocks: seq<GlobalID>)
    requires MeshValid(geom, m) && |m.gids| <= cap < INVALID_LOCAL_ID
    ensures var r := MeshPushBackAll(geom, m, cap, blocks);
      forall x :: x in blocks && IsValid(geom, x) ==> x in r.lids || |r.gids| == cap
    decreases |blocks|
  {
    if blocks != [] {
      var m1 := MeshPushBack(geom, m, cap, blocks[0]);
      MeshPushBackValid(geom, m, cap, blocks[0]);
      MeshPushBackAllComplete(geom, m1, cap, blocks[1..]);
      MeshPushBackAllValid(geom, m1, cap, blocks[1..]);
      MeshPushBackAllGrows(geom, m1, cap, blocks[1..]);
      var r := MeshPushBackAll(geom, m1, cap, blocks[1..]);
      forall x | x in blocks && IsValid(geom, x)
        ensures x in r.lids || |r.gids| == cap
      {
        if x == blocks[0] {
          if x in m1.lids {
            var p := m1.lids[x];
            assert r.gids[p] == r.gids[..|m1.gids|][p] == m1.gids[p] == x;
          } else {
            assert |m1.gids| == cap;
          }
        } else {
          assert x in blocks[1..];
        }
      }
    }
  }

  /** Pushing back a concatenation is pushing back one part after the other. */
  lemma {:induction false} MeshPushBackAllAppend(geom: MeshGeometry, m: VelocityMesh, cap: nat, b1: seq<GlobalID>, b2: seq<GlobalID>)
    ensures MeshPushBackAll(geom, m, cap, b1 + b2) == MeshPushBackAll(geom, MeshPushBackAll(geom, m, cap, b1), cap, b2)
    decreases |b1|
  {
    if b1 == [] {
      assert b1 + b2 == b2;
    } else {
      assert (b1 + b2)[0] == b1[0] && (b1 + b2)[1..] == b1[1..] + b2;
      MeshPushBackAllAppend(geom, MeshPushBack(geom, m, cap, b1[0]), cap, b1[1..], b2);
    }
  }

  /**
   * Bulk push_back leaves every block that was resident at its local ID, and
   * what becomes resident is what was, plus the blocks appended after it.
   */
  lemma MeshPushBackAllKeeps(geom: MeshGeometry, m: VelocityMesh, cap: nat, blocks: seq<GlobalID>)
    requires MeshValid(geom, m) && |m.gids| <= cap < INVALID_LOCAL_ID
    ensures var r := MeshPushBackAll(geom, m, cap, blocks);
      MeshValid(geom, r) && |m.gids| <= |r.gids| <= cap && r.gids[..|m.gids|] == m.gids
      && (forall h :: h in m.lids ==> h in r.lids && r.lids[h] == m.lids[h])
      && (forall h :: h in r.lids <==> h in m.lids || h in r.gids[|m.gids|..])
  {
    MeshPushBackAllValid(geom, m, cap, blocks);
    MeshPushBackAllGrows(geom, m, cap, blocks);
    var r := MeshPushBackAll(geom, m, cap, blocks);
    forall h | h in m.lids
      ensures h in r.lids && r.lids[h] == m.lids[h]
    {
      var l := m.lids[h];
      assert r.gids[l] == r.gids[..|m.gids|][l] == h;
    }
    forall h | h in r.lids
      ensures h in m.lids || h in r.gids[|m.gids|..]
    {
      var l := r.lids[h];
      if l < |m.gids| {
        assert m.gids[l] == r.gids[..|m.gids|][l] == h;
      } else {
        assert r.gids[|m.gids|..][l - |m.gids|] == h;
      }
    }
    forall h | h in r.gids[|m.gids|..]
      ensures h in r.lids
    {
      var l :| 0 <= l < |r.gids[|m.gids|..]| && r.gids[|m.gids|..][l] == h;
      assert r.gids[|m.gids| + l] == h;
    }
  }

  // ---------------------------------------------------------------------------
  // Samples by global ID

  /** The samples of each mapped block, read through the mesh's map into the container. */
  function ContentsOf(lids: map<GlobalID, nat>, cubes: seq<seq<real>>): map<GlobalID, seq<real>>
  {
    map g | g in lids && lids[g] < |cubes| :: cubes[lids[g]]
  }

  /** Appending a slot for a new block adds exactly that block. */
  lemma ContentsAppend(lids: map<GlobalID, nat>, cubes: seq<seq<real>>, g: GlobalID, cube: seq<real>)
    requires g !in lids && forall h :: h in lids ==> lids[h] < |cubes|
    ensures ContentsOf(lids[g := |cubes|], cubes + [cube]) == ContentsOf(lids, cubes)[g := cube]
  {
    var a := ContentsOf(lids[g := |cubes|], cubes + [cube]);
    var b := ContentsOf(lids, cubes)[g := cube];
    assert a.Keys == b.Keys;
    forall h | h in a
      ensures a[h] == b[h]
    {
      if h != g {
        assert lids[g := |cubes|][h] == lids[h] < |cubes|;
      }
    }
  }

  /** Overwriting the slot of one block changes that block only. */
  lemma ContentsWrite(lids: map<GlobalID, nat>, cubes: seq<seq<real>>, g: GlobalID, cube: seq<real>)
    requires g in lids && lids[g] < |cubes|
    requires forall h :: h in lids && h != g ==> lids[h] != lids[g]
    ensures ContentsOf(lids, cubes[lids[g] := cube]) == ContentsOf(lids, cubes)[g := cube]
  {
  }

  /** Swap-with-last removal of one block's slot removes exactly that block. */
  lemma ContentsSwapRemove(lids: map<GlobalID, nat>, cubes: seq<seq<real>>, g: GlobalID, lastGid: GlobalID)
    requires g in lids && lastGid in lids && lids[lastGid] == |cubes| - 1
    requires forall h :: h in lids ==> lids[h] < |cubes|
    requires forall h, h' :: h in lids && h' in lids && h != h' ==> lids[h] != lids[h']
    ensures ContentsOf(lids[lastGid := lids[g]] - {g}, SwapRemove(cubes, lids[g])) == ContentsOf(lids, cubes) - {g}
  {
    var removed := lids[g];
    var a := ContentsOf(lids[lastGid := removed] - {g}, SwapRemove(cubes, removed));
    var b := ContentsOf(lids, cubes) - {g};
    forall h | h in b
      ensures h in a && a[h] == b[h]
    {
      if h == lastGid {
        assert SwapRemove(cubes, removed)[removed] == cubes[|cubes| - 1];
      } else {
        assert lids[h] != lids[lastGid] && lids[h] != removed;
      }
    }
    assert a.Keys == b.Keys;
  }

  /** Overwriting the one entry after a prefix gives the prefix extended by the new entry. */
  lemma SetLast<T>(s: seq<T>, prefix: seq<T>, x: T)
    requires |s| == |prefix| + 1 && s[..|prefix|] == prefix
    ensures s[|prefix| := x] == prefix + [x]
  {
    assert forall i :: 0 <= i < |prefix| ==> s[i] == s[..|prefix|][i];
  }

  /** Swap-with-last removal deletes exactly one occurrence of the removed entry. */
  lemma SwapRemoveMultiset<T>(s: seq<T>, r: nat)
    requires r < |s|
    ensures |SwapRemove(s, r)| == |s| - 1
    ensures multiset(SwapRemove(s, r)) == multiset(s) - multiset{s[r]}
  {
    var n := |s| - 1;
    if r == n {
      assert s == s[..n] + [s[n]];
      assert SwapRemove(s, r) == s[..n];
    } else {
      assert s == s[..r] + [s[r]] + s[r + 1..n] + [s[n]];
      assert SwapRemove(s, r) == s[..r] + [s[n]] + s[r + 1..n];
    }
  }

  /** A successful push_back on a valid mesh adds exactly the new block to the samples by global ID. */
  lemma ContentsPushBack(geom: MeshGeometry, m: VelocityMesh, cubes: seq<seq<real>>, cap: nat, g: GlobalID, cube: seq<real>)
    requires MeshValid(geom, m) && |cubes| == |m.gids| && Accepts(geom, m, cap, g)
    ensures ContentsOf(MeshPushBack(geom, m, cap, g).lids, cubes + [cube]) == ContentsOf(m.lids, cubes)[g := cube]
  {
    ContentsAppend(m.lids, cubes, g, cube);
  }

  /** Overwriting the slot of a resident block of a valid mesh changes that block only. */
  lemma ContentsSetSlot(geom: MeshGeometry, m: VelocityMesh, cubes: seq<seq<real>>, g: GlobalID, cube: seq<real>)
    requires MeshValid(geom, m) && |cubes| == |m.gids| && g in m.lids
    ensures g in ContentsOf(m.lids, cubes) && ContentsOf(m.lids, cubes)[g] == cubes[m.lids[g]]
    ensures ContentsOf(m.lids, cubes[m.lids[g] := cube]) == ContentsOf(m.lids, cubes)[g := cube]
  {
    ContentsWrite(m.lids, cubes, g, cube);
  }

  /** Removing a resident block of a valid mesh removes exactly that block from the samples by global ID. */
  lemma ContentsRemove(geom: MeshGeometry, m: VelocityMesh, cubes: seq<seq<real>>, g: GlobalID)
    requires MeshValid(geom, m) && |cubes| == |m.gids| && g in m.lids
    ensures ContentsOf(MeshRemove(m, g).lids, SwapRemove(cubes, m.lids[g])) == ContentsOf(m.lids, cubes) - {g}
  {
    ContentsSwapRemove(m.lids, cubes, g, m.gids[|m.gids| - 1]);
  }

  /** A write into a block that was just given its starting samples is one update of the original map. */
  lemma UpdateAfterStart(m0: map<GlobalID, seq<real>>, m1: map<GlobalID, seq<real>>, m2: map<GlobalID, seq<real>>,
                         g: GlobalID, start: seq<real>, cell: nat, v: real)
    requires cell < |start| && m1 == m0[g := start] && m2 == m1[g := m1[g][cell := v]]
    ensures m2 == m0[g := start[cell := v]]
  {
    assert m1[g] == start;
  }

  /** The samples of a block with value added to one of them. */
  function Incremented(cube: seq<real>, cell: nat, value: real): seq<real>
    requires cell < |cube|
  {
    cube[cell := cube[cell] + value]
  }

  /** An increment of a block that was just given its starting samples is one update of the original map. */
  lemma IncrementAfterStart(m0: map<GlobalID, seq<real>>, m1: map<GlobalID, seq<real>>, m2: map<GlobalID, seq<real>>,
                            g: GlobalID, start: seq<real>, cell: nat, value: real)
    requires m1 == m0[g := start] && cell < |start| && m2 == m1[g := Incremented(m1[g], cell, value)]
    ensures m2 == m0[g := Incremented(start, cell, value)]
  {
    assert m1[g] == start;
  }

  /** A block's samples before a write: its cube if resident, a fresh zero cube otherwise. */
  function StartBlock(contents: map<GlobalID, seq<real>>, g: GlobalID): seq<real>
  {
    if g in contents then contents[g] else Zeros()
  }

  /** True when some sample of the cube reaches the threshold. */
  predicate HasContent(cube: seq<real>, threshold: real)
  {
    exists c :: 0 <= c < |cube| && cube[c] >= threshold
  }

  /** The block t levels above g (getParent applied t times). */
  function Ancestor(g: GlobalID, t: nat): GlobalID
    decreases t
  {
    if t == 0 then g else Ancestor(Parent(g), t - 1)
  }

  /**
   * The blocks add_velocity_block_octant offers to the mesh, in order: one pass
   * of its do-while loop takes the siblings of the current block, moves to the
   * parent and decrements the level counter, and the loop repeats while the
   * counter stays positive.
   */
  function OctantWalk(current: GlobalID, refLevel: int): seq<GlobalID>
    decreases refLevel
  {
    Siblings(current) + (if refLevel - 1 > 0 then OctantWalk(Parent(current), refLevel - 1) else [])
  }

  /** What the walk offers after the current block's siblings. */
  function OctantWalkRest(current: GlobalID, refLevel: int): (r: seq<GlobalID>)
    ensures OctantWalk(current, refLevel) == Siblings(current) + r
    ensures refLevel - 1 > 0 ==> r == OctantWalk(Parent(current), refLevel - 1)
    ensures refLevel - 1 <= 0 ==> r == []
  {
    if refLevel - 1 > 0 then OctantWalk(Parent(current), refLevel - 1) else []
  }

  lemma ConcatAssoc<T>(a: seq<T>, b: seq<T>, c: seq<T>)
    ensures a + (b + c) == (a + b) + c
  {
  }

  /** The blocks add_velocity_block_octant offers for g. */
  function OctantBlocks(g: GlobalID): seq<GlobalID>
  {
    OctantWalk(g, RefinementLevel(g))
  }

  /** Number of passes the do-while loop makes for a starting level counter. */
  function Passes(refLevel: int): nat
  {
    if refLevel <= 1 then 1 else refLevel
  }

  /** Every block the walk offers is a sibling of one of the visited ancestors. */
  lemma {:induction false} OctantWalkSound(current: GlobalID, refLevel: int, x: GlobalID)
    requires x in OctantWalk(current, refLevel)
    ensures exists t :: 0 <= t < Passes(refLevel) && x in Siblings(Ancestor(current, t))
    decreases refLevel
  {
    if x in Siblings(current) {
      assert Ancestor(current, 0) == current;
    } else {
      assert refLevel - 1 > 0 && x in OctantWalk(Parent(current), refLevel - 1);
      OctantWalkSound(Parent(current), refLevel - 1, x);
      var t :| 0 <= t < Passes(refLevel - 1) && x in Siblings(Ancestor(Parent(current), t));
      assert Ancestor(current, t + 1) == Ancestor(Parent(current), t);
    }
  }

  /** Every sibling of every visited ancestor is offered. */
  lemma {:induction false} OctantWalkComplete(current: GlobalID, refLevel: int, t: nat, x: GlobalID)
    requires t < Passes(refLevel) && x in Siblings(Ancestor(current, t))
    ensures x in OctantWalk(current, refLevel)
    decreases t
  {
    if t > 0 {
      OctantWalkComplete(Parent(current), refLevel - 1, t - 1, x);
    }
  }

  /** The ancestors of a block lie one level further up per step. */
  lemma {:induction false} AncestorLevel(g: GlobalID, t: nat)
    requires g.Gid? && t <= g.level
    ensures Ancestor(g, t).Gid? && Ancestor(g, t).level == g.level - t
    decreases t
  {
    if t > 0 {
      AncestorLevel(Parent(g), t - 1);
    }
  }

  /**
   * add_velocity_block_octant offers exactly the siblings of the block and of
   * each of its ancestors on levels 1 and up (only the block itself on level 0).
   */
  lemma OctantBlocksMembers(g: GlobalID, x: GlobalID)
    ensures g in OctantBlocks(g)
    ensures x in OctantBlocks(g) <==>
      exists t :: 0 <= t < Passes(RefinementLevel(g)) && x in Siblings(Ancestor(g, t))
  {
    SiblingsShareParent(g);
    OctantWalkComplete(g, RefinementLevel(g), 0, g);
    if x in OctantBlocks(g) {
      OctantWalkSound(g, RefinementLevel(g), x);
    }
    if exists t :: 0 <= t < Passes(RefinementLevel(g)) && x in Siblings(Ancestor(g, t)) {
      var t :| 0 <= t < Passes(RefinementLevel(g)) && x in Siblings(Ancestor(g, t));
      OctantWalkComplete(g, RefinementLevel(g), t, x);
    }
  }

  /** The parameter records the blocks of a mesh carry, by local ID. */
  function RecordsOf(geom: MeshGeometry, gids: seq<GlobalID>): (r: seq<BlockParameters>)
    ensures |r| == |gids|
    decreases |gids|
  {
    if gids == [] then [] else RecordsOf(geom, gids[..|gids| - 1]) + [ParametersOf(geom, gids[|gids| - 1])]
  }

  /** Local ID l carries the parameters of the block the mesh names at l. */
  lemma {:induction false} RecordsOfAt(geom: MeshGeometry, gids: seq<GlobalID>, l: nat)
    requires l < |gids|
    ensures RecordsOf(geom, gids)[l] == ParametersOf(geom, gids[l])
    decreases |gids|
  {
    if l < |gids| - 1 {
      RecordsOfAt(geom, gids[..|gids| - 1], l);
    }
  }

  /** Appending a block appends its parameters. */
  lemma RecordsOfAppend(geom: MeshGeometry, gids: seq<GlobalID>, g: GlobalID)
    ensures RecordsOf(geom, gids + [g]) == RecordsOf(geom, gids) + [ParametersOf(geom, g)]
  {
    assert (gids + [g])[..|gids|] == gids;
  }

  /** Swap-with-last removal on the mesh side is the same removal on the parameter side. */
  lemma RecordsOfSwapRemove(geom: MeshGeometry, gids: seq<GlobalID>, r: nat)
    requires r < |gids|
    ensures RecordsOf(geom, SwapRemove(gids, r)) == SwapRemove(RecordsOf(geom, gids), r)
  {
    var a := RecordsOf(geom, SwapRemove(gids, r));
    var b := SwapRemove(RecordsOf(geom, gids), r);
    forall l | 0 <= l < |a|
      ensures a[l] == b[l]
    {
      RecordsOfAt(geom, SwapRemove(gids, r), l);
      RecordsOfAt(geom, gids, if l == r then |gids| - 1 else l);
    }
  }

  /** Swap-with-last removal on both sides keeps the mesh and the container in lockstep. */
  lemma RemoveInLockstep(geom: MeshGeometry, cap: nat, m: VelocityMesh, cubes: seq<seq<real>>,
                         records: seq<BlockParameters>, contents: map<GlobalID, seq<real>>, g: GlobalID,
                         m2: VelocityMesh, cubes2: seq<seq<real>>, records2: seq<BlockParameters>,
                         contents2: map<GlobalID, seq<real>>)
    requires Lockstep(geom, cap, m, cubes, records, contents) && g in m.lids
    requires m2 == MeshRemove(m, g) && contents2 == contents - {g}
    requires cubes2 == SwapRemove(cubes, m.lids[g]) && records2 == SwapRemove(records, m.lids[g])
    ensures Lockstep(geom, cap, m2, cubes2, records2, contents2)
  {
    ContentsRemove(geom, m, cubes, g);
    MeshRemoveValid(geom, m, g);
    RecordsOfSwapRemove(geom, m.gids, m.lids[g]);
  }

  /**
   * The mesh is a bijection within the capacity, local ID l of the container
   * holds the parameters of the block the mesh names at l, and the samples by
   * global ID are read through the mesh into the container.
   */
  ghost predicate Lockstep(geom: MeshGeometry, cap: nat, m: VelocityMesh, cubes: seq<seq<real>>,
                           records: seq<BlockParameters>, contents: map<GlobalID, seq<real>>)
  {
    MeshValid(geom, m) && |m.gids| <= cap && |cubes| == |m.gids|
    && records == RecordsOf(geom, m.gids) && contents == ContentsOf(m.lids, cubes)
  }

  /** A bulk push_back that accepts no block leaves the mesh as it was. */
  lemma MeshPushBackAllNone(geom: MeshGeometry, m: VelocityMesh, cap: nat, blocks: seq<GlobalID>)
    requires MeshValid(geom, m) && |m.gids| <= cap < INVALID_LOCAL_ID
    requires |MeshPushBackAll(geom, m, cap, blocks).gids| == |m.gids|
    ensures MeshPushBackAll(geom, m, cap, blocks) == m
  {
    MeshPushBackAllKeeps(geom, m, cap, blocks);
    var r := MeshPushBackAll(geom, m, cap, blocks);
    assert r.gids == r.gids[..|m.gids|] == m.gids;
    assert r.lids.Keys == m.lids.Keys;
  }

  /**
   * The container grown by one slot for each block bulk push_back appended
   * (cubes2 extends cubes, records2 holds the extents of the new mesh) stays
   * in lockstep with the new mesh, and the blocks that were resident keep
   * their samples.
   */
  lemma BulkAppendLockstep(geom: MeshGeometry, cap: nat, m: VelocityMesh, cubes: seq<seq<real>>,
                           records: seq<BlockParameters>, contents: map<GlobalID, seq<real>>,
                           blocks: seq<GlobalID>, r: VelocityMesh, cubes2: seq<seq<real>>,
                           records2: seq<BlockParameters>, contents2: map<GlobalID, seq<real>>)
    requires Lockstep(geom, cap, m, cubes, records, contents) && cap < INVALID_LOCAL_ID
    requires r == MeshPushBackAll(geom, m, cap, blocks)
    requires |cubes| <= |cubes2| == |r.gids| && cubes2[..|cubes|] == cubes
    requires records2 == RecordsOf(geom, r.gids) && contents2 == ContentsOf(r.lids, cubes2)
    ensures Lockstep(geom, cap, r, cubes2, records2, contents2)
    ensures Grown(contents, contents2, r.gids[|m.gids|..])
  {
    MeshPushBackAllKeeps(geom, m, cap, blocks);
    forall h | h in contents
      ensures contents2[h] == contents[h]
    {
      var l := m.lids[h];
      assert r.lids[h] == l < |cubes|;
      assert cubes2[l] == cubes2[..|cubes|][l];
    }
  }

  /** c1 keeps every block of c0 with its samples and adds exactly the blocks of added. */
  ghost predicate Grown(c0: map<GlobalID, seq<real>>, c1: map<GlobalID, seq<real>>, added: seq<GlobalID>)
  {
    (forall h :: h in c1 <==> h in c0 || h in added)
    && (forall h :: h in c0 ==> h in c1 && c1[h] == c0[h])
  }

  /** c1 keeps every block of c0 with its samples, and every block it adds holds zeros. */
  ghost predicate ZeroExtends(c0: map<GlobalID, seq<real>>, c1: map<GlobalID, seq<real>>)
  {
    (forall h :: h in c0 ==> h in c1 && c1[h] == c0[h])
    && (forall h :: h in c1 && h !in c0 ==> c1[h] == Zeros())
  }

  lemma ZeroExtendsTrans(c0: map<GlobalID, seq<real>>, c1: map<GlobalID, seq<real>>, c2: map<GlobalID, seq<real>>)
    requires ZeroExtends(c0, c1) && ZeroExtends(c1, c2)
    ensures ZeroExtends(c0, c2)
  {
  }

  /** Adding one zero block, or nothing, after a zero extension is still one. */
  lemma ZeroExtendsAdd(c0: map<GlobalID, seq<real>>, c1: map<GlobalID, seq<real>>, c2: map<GlobalID, seq<real>>, g: GlobalID)
    requires ZeroExtends(c0, c1) && (c2 == c1 || (g !in c1 && c2 == c1[g := Zeros()]))
    ensures ZeroExtends(c0, c2)
  {
  }

  // ---------------------------------------------------------------------------
  // Block container

  /**
   * The velocity-block container: WID^3 samples and one parameter record per
   * slot, for the first size slots of arrays allocated to the capacity.
   * cubes and records give the abstract value of the used slots.
   */
  class BlockContainer {
    /** The number of slots allocated. */
    const capacity: nat
    const data: array2<real>
    const params: array<BlockParameters>
    var size: nat
    ghost var cubes: seq<seq<real>>
    ghost var records: seq<BlockParameters>
    ghost const Repr: set<object>

    ghost predicate Valid()
      reads this, Repr
    {
      Repr == {this, data, params}
      && data.Length0 == capacity && params.Length == capacity && data.Length1 == WID3 && size <= capacity
      && |cubes| == size && |records| == size
      && (forall l :: 0 <= l < size ==> |cubes[l]| == WID3 && params[l] == records[l])
      && (forall l, c :: 0 <= l < size && 0 <= c < WID3 ==> data[l, c] == cubes[l][c])
    }

    /** The samples currently held by slots lo .. hi-1. */
    ghost function Rows(lo: nat, hi: nat): (r: seq<seq<real>>)
      reads this, data
      requires lo <= hi <= data.Length0 && data.Length1 == WID3
      ensures |r| == hi - lo
      ensures forall k, c :: 0 <= k < hi - lo && 0 <= c < WID3 ==> |r[k]| == WID3 && r[k][c] == data[lo + k, c]
    {
      var a := data;
      seq(hi - lo, k requires 0 <= k < hi - lo reads a => seq(WID3, c requires 0 <= c < WID3 reads a => a[lo + k, c]))
    }

    constructor (capacity: nat)
      ensures Valid() && fresh(Repr) && size == 0 && this.capacity == capacity
    {
      this.capacity := capacity;
      data := new real[capacity, WID3];
      params := new BlockParameters[capacity](_ => BlockParameters(0.0, 0.0, 0.0, 0.0, 0.0, 0.0));
      size := 0;
      cubes := [];
      records := [];
      Repr := {this, data, params};
    }

    /**
     * push_back(n): n more slots at the end, holding whatever the storage
     * held before; returns the local ID of the first.
     */
    method PushBack(n: nat) returns (startLID: nat)
      requires Valid() && size + n <= capacity
      modifies this
      ensures Valid()
      ensures startLID == old(size) && size == old(size) + n
      ensures cubes[..startLID] == old(cubes) && records[..startLID] == old(records)
    {
      startLID := size;
      cubes := cubes + Rows(size, size + n);
      records := records + params[size..size + n];
      size := size + n;
    }

    /** getData(lid)[c]: one sample of a used slot. */
    function Get(lid: nat, c: nat): (v: real)
      reads this, Repr
      requires Valid() && lid < size && c < WID3
      ensures v == cubes[lid][c]
    {
      data[lid, c]
    }

    /** Overwrites one sample of a used slot. */
    method SetSample(lid: nat, c: nat, v: real)
      requires Valid() && lid < size && c < WID3
      modifies this, data
      ensures Valid() && size == old(size)
      ensures cubes == old(cubes)[lid := old(cubes)[lid][c := v]] && records == old(records)
    {
      data[lid, c] := v;
      cubes := cubes[lid := cubes[lid][c := v]];
    }

    /** Overwrites the parameter record of a used slot. */
    method SetParameters(lid: nat, p: BlockParameters)
      requires Valid() && lid < size
      modifies this, params
      ensures Valid() && size == old(size)
      ensures cubes == old(cubes) && records == old(records)[lid := p]
    {
      params[lid] := p;
      records := records[lid := p];
    }

    /** copy(source, target): the target slot takes the source slot's samples and parameters. */
    method Copy(source: nat, target: nat)
      requires Valid() && source < size && target < size
      modifies this, data, params
      ensures Valid() && size == old(size)
      ensures cubes == old(cubes)[target := old(cubes)[source]]
      ensures records == old(records)[target := old(records)[source]]
    {
      for c := 0 to WID3
        invariant Valid() && size == old(size) && records == old(records)
        invariant |cubes| == size && cubes == old(cubes)[target := cubes[target]]
        invariant |cubes[target]| == WID3
        invariant forall k :: 0 <= k < c ==> cubes[target][k] == old(cubes)[source][k]
        invariant source != target ==> forall k :: c <= k < WID3 ==> cubes[target][k] == old(cubes)[target][k]
        invariant cubes[source] == old(cubes)[source]
      {
        data[target, c] := data[source, c];
        cubes := cubes[target := cubes[target][c := cubes[source][c]]];
      }
      assert cubes[target] == old(cubes)[source];
      params[target] := params[source];
      records := records[target := records[source]];
    }

    /** pop(): drops the last used slot. */
    method Pop()
      requires Valid() && size > 0
      modifies this
      ensures Valid()
      ensures size == old(size) - 1 && cubes == old(cubes)[..size] && records == old(records)[..size]
    {
      size := size - 1;
      cubes := cubes[..size];
      records := records[..size];
    }

    /** clear(): no used slots. */
    method Clear()
      requires Valid()
      modifies this
      ensures Valid()
      ensures size == 0 && cubes == [] && records == []
    {
      size := 0;
      cubes := [];
      records := [];
    }
  }

  /** The zero-fill of add_velocity_block: every sample of one used slot set to 0. */
  method ZeroBlock(ct: BlockContainer, lid: nat)
    requires ct.Valid() && lid < ct.size
    modifies ct.Repr
    ensures ct.Valid() && ct.size == old(ct.size)
    ensures ct.cubes == old(ct.cubes)[lid := Zeros()] && ct.records == old(ct.records)
  {
    for c := 0 to WID3
      invariant ct.Valid() && ct.size == old(ct.size)
      invariant ct.cubes == old(ct.cubes)[lid := ct.cubes[lid]] && ct.records == old(ct.records)
      invariant forall k :: 0 <= k < c ==> ct.cubes[lid][k] == 0.0
    {
      ct.SetSample(lid, c, 0.0);
    }
    assert ct.cubes[lid] == Zeros();
  }

  /**
   * The container side of add_velocity_block: one more slot at the end, with
   * zero samples and the given parameters.
   */
  method AppendBlock(ct: BlockContainer, p: BlockParameters) returns (lid: nat)
    requires ct.Valid() && ct.size < ct.capacity
    modifies ct.Repr
    ensures ct.Valid() && lid == old(ct.size)
    ensures ct.cubes == old(ct.cubes) + [Zeros()] && ct.records == old(ct.records) + [p]
  {
    ghost var oldCubes, oldRecords := ct.cubes, ct.records;
    lid := ct.PushBack(1);
    SetLast(ct.cubes, oldCubes, Zeros());
    SetLast(ct.records, oldRecords, p);
    ZeroBlock(ct, lid);
    ct.SetParameters(lid, p);
  }

  /**
   * The container side of add_velocity_blocks: one slot at the end for each
   * mesh entry from start on, carrying the parameters of that entry's block.
   */
  method AppendBlocks(ct: BlockContainer, geom: MeshGeometry, gids: seq<GlobalID>, start: nat)
    requires ct.Valid() && ct.size == start <= |gids| <= ct.capacity && ct.records == RecordsOf(geom, gids[..start])
    modifies ct.Repr
    ensures ct.Valid() && ct.size == |gids|
    ensures ct.cubes[..start] == old(ct.cubes) && ct.records == RecordsOf(geom, gids)
  {
    var startLID := ct.PushBack(|gids| - start);
    ghost var pushed := ct.cubes;
    ghost var target := RecordsOf(geom, gids);
    assert ct.records[..start] == target[..start] by {
      forall l | 0 <= l < start
        ensures ct.records[l] == target[l]
      {
        RecordsOfAt(geom, gids[..start], l);
        RecordsOfAt(geom, gids, l);
      }
    }
    for b := start to |gids|
      invariant ct.Valid() && ct.size == |gids|
      invariant ct.cubes == pushed
      invariant ct.records[..b] == target[..b]
    {
      RecordsOfAt(geom, gids, b);
      ct.SetParameters(b, ParametersOf(geom, gids[b]));
      assert ct.records[..b + 1] == ct.records[..b] + [target[b]];
      assert target[..b + 1] == target[..b] + [target[b]];
    }
    assert ct.records == ct.records[..|gids|];
    assert target == target[..|gids|];
  }

  /**
   * The container side of remove_velocity_block: the last slot is copied over
   * slot r and then dropped.
   */
  method SwapRemoveBlock(ct: BlockContainer, r: nat)
    requires ct.Valid() && r < ct.size
    modifies ct.Repr
    ensures ct.Valid()
    ensures ct.cubes == SwapRemove(old(ct.cubes), r) && ct.records == SwapRemove(old(ct.records), r)
  {
    ct.Copy(ct.size - 1, r);
    ct.Pop();
  }

  // ---------------------------------------------------------------------------
  // Population

  /** One population's velocity mesh and block container (Population, without MAXVDT). */
  class Population {
    /** The geometry of the velocity mesh (static in the mesh class). */
    const geom: MeshGeometry
    /** The largest number of blocks the velocity mesh accepts. */
    const capacity: nat
    var vmesh: VelocityMesh
    var container: BlockContainer
    /** The samples of each resident block, by global ID. */
    ghost var contents: map<GlobalID, seq<real>>
    ghost var Repr: set<object>

    ghost predicate Valid()
      reads this, Repr
    {
      container in Repr && Repr == {this} + container.Repr && this !in container.Repr
      && container.Valid() && capacity <= container.capacity && capacity < INVALID_LOCAL_ID
      && Lockstep(geom, capacity, vmesh, container.cubes, container.records, contents)
    }

    constructor (geom: MeshGeometry, capacity: nat)
      requires capacity < INVALID_LOCAL_ID
      ensures Valid() && fresh(Repr) && this.geom == geom && this.capacity == capacity
      ensures vmesh.gids == [] && contents == map[]
    {
      this.geom := geom;
      this.capacity := capacity;
      vmesh := VelocityMesh([], map[]);
      container := new BlockContainer(capacity);
      contents := map[];
      new;
      Repr := {this} + container.Repr;
    }

    /** get_velocity_block_local_id. */
    function LocalID(g: GlobalID): (r: nat)
      reads this, Repr
      requires Valid()
      ensures r == INVALID_LOCAL_ID <==> g !in contents
      ensures r != INVALID_LOCAL_ID ==> r < |vmesh.gids| && vmesh.gids[r] == g
    {
      MeshRoundTrip(geom, vmesh, 0, g);
      LocalIDOf(vmesh, g)
    }

    /**
     * add_velocity_block: the mesh's push_back decides; on success the block
     * gets the next local ID, zero samples and the parameters of its extent.
     */
    method AddVelocityBlock(g: GlobalID) returns (ok: bool)
      requires Valid()
      modifies Repr
      ensures Valid() && Repr == old(Repr)
      ensures ok == (IsValid(geom, g) && g !in old(contents) && |old(vmesh.gids)| < capacity)
      ensures vmesh == MeshPushBack(geom, old(vmesh), capacity, g)
      ensures contents == if ok then old(contents)[g := Zeros()] else old(contents)
    {
      if !Accepts(geom, vmesh, capacity, g) {
        return false;
      }
      ghost var oldLids, oldCubes := vmesh.lids, container.cubes;
      MeshPushBackValid(geom, vmesh, capacity, g);
      RecordsOfAppend(geom, vmesh.gids, g);
      ContentsAppend(oldLids, oldCubes, g, Zeros());
      vmesh := MeshPushBack(geom, vmesh, capacity, g);
      var lid := AppendBlock(container, ParametersOf(geom, g));
      contents := contents[g := Zeros()];
      ok := true;
    }

    /**
     * add_velocity_blocks, with the container grown by the number of blocks the
     * mesh accepted: the mesh pushes back each block in turn, and each accepted
     * block gets a slot at the end of the container with the parameters of its
     * extent. Nothing changes when the mesh accepts none.
     */
    method AddVelocityBlocks(blocks: seq<GlobalID>) returns (adds: nat)
      requires Valid()
      modifies Repr
      ensures Valid() && Repr == old(Repr)
      ensures vmesh == MeshPushBackAll(geom, old(vmesh), capacity, blocks)
      ensures adds == |vmesh.gids| - |old(vmesh.gids)|
      ensures Grown(old(contents), contents, vmesh.gids[|old(vmesh.gids)|..])
      ensures adds == 0 ==> contents == old(contents)
    {
      var newMesh := MeshPushBackAll(geom, vmesh, capacity, blocks);
      MeshPushBackAllKeeps(geom, vmesh, capacity, blocks);
      adds := |newMesh.gids| - |vmesh.gids|;
      if adds == 0 {
        MeshPushBackAllNone(geom, vmesh, capacity, blocks);
        return;
      }
      AppendAccepted(blocks);
    }

    /**
     * The rest of add_velocity_blocks once the mesh has pushed back the
     * blocks: the container grows by one slot per accepted block, and each
     * new slot gets the parameters of its block's extent.
     */
    method AppendAccepted(blocks: seq<GlobalID>)
      requires Valid()
      modifies Repr
      ensures Valid() && Repr == old(Repr)
      ensures vmesh == MeshPushBackAll(geom, old(vmesh), capacity, blocks) && |old(vmesh.gids)| <= |vmesh.gids|
      ensures Grown(old(contents), contents, vmesh.gids[|old(vmesh.gids)|..])
    {
      var newMesh := MeshPushBackAll(geom, vmesh, capacity, blocks);
      MeshPushBackAllKeeps(geom, vmesh, capacity, blocks);
      AppendBlocks(container, geom, newMesh.gids, |vmesh.gids|);
      vmesh := newMesh;
      contents := ContentsOf(vmesh.lids, container.cubes);
      BulkAppendLockstep(geom, capacity, old(vmesh), old(container.cubes), old(container.records), old(contents),
                         blocks, vmesh, container.cubes, container.records, contents);
    }

    /** Adds each block in turn with add_velocity_block. */
    method AddEach(blocks: seq<GlobalID>)
      requires Valid()
      modifies Repr
      ensures Valid() && Repr == old(Repr)
      ensures vmesh == MeshPushBackAll(geom, old(vmesh), capacity, blocks)
      ensures ZeroExtends(old(contents), contents)
    {
      for s := 0 to |blocks|
        invariant Valid() && Repr == old(Repr)
        invariant vmesh == MeshPushBackAll(geom, old(vmesh), capacity, blocks[..s])
        invariant ZeroExtends(old(contents), contents)
      {
        MeshPushBackAllAppend(geom, old(vmesh), capacity, blocks[..s], [blocks[s]]);
        assert blocks[..s + 1] == blocks[..s] + [blocks[s]];
        ghost var before := contents;
        var added := AddVelocityBlock(blocks[s]);
        ZeroExtendsAdd(old(contents), before, contents, blocks[s]);
      }
      assert blocks[..|blocks|] == blocks;
    }

    /**
     * add_velocity_block_octant: refused (false, nothing changes) when the
     * block is already resident. Otherwise each pass of the loop adds every
     * sibling of the current block one at a time and moves to its parent,
     * while the level counter started at the block's level stays positive.
     */
    method AddVelocityBlockOctant(g: GlobalID) returns (ok: bool)
      requires Valid()
      modifies Repr
      ensures Valid() && Repr == old(Repr)
      ensures ok == (g !in old(contents))
      ensures !ok ==> vmesh == old(vmesh) && contents == old(contents)
      ensures ok ==> vmesh == MeshPushBackAll(geom, old(vmesh), capacity, OctantBlocks(g))
      ensures ZeroExtends(old(contents), contents)
    {
      if LocalID(g) != INVALID_LOCAL_ID || Count(g) > 0 {
        return false;
      }
      var refLevel: int := RefinementLevel(g);
      var current := g;
      ghost var done: seq<GlobalID> := [];
      while true
        invariant Valid() && Repr == old(Repr)
        invariant OctantBlocks(g) == done + OctantWalk(current, refLevel)
        invariant vmesh == MeshPushBackAll(geom, old(vmesh), capacity, done)
        invariant ZeroExtends(old(contents), contents)
        decreases refLevel
      {
        var siblings := Siblings(current);
        ghost var rest := OctantWalkRest(current, refLevel);
        ConcatAssoc(done, siblings, rest);
        ghost var before := contents;
        AddEach(siblings);
        ZeroExtendsTrans(old(contents), before, contents);
        MeshPushBackAllAppend(geom, old(vmesh), capacity, done, siblings);
        done := done + siblings;
        current := Parent(current);
        refLevel := refLevel - 1;
        if refLevel <= 0 {
          assert rest == [] && done + [] == done;
          break;
        }
      }
      ok := true;
    }

    /**
     * get_data(lid): the samples of the block at a local ID, or the null
     * block's zero samples for the invalid local ID.
     */
    function GetData(lid: nat): (cube: seq<real>)
      reads this, Repr
      requires Valid() && (lid < Size() || lid == INVALID_LOCAL_ID)
      ensures |cube| == WID3
      ensures lid == INVALID_LOCAL_ID ==> cube == Zeros()
      ensures lid != INVALID_LOCAL_ID ==> GlobalID(lid) in contents && cube == contents[GlobalID(lid)]
    {
      if lid == INVALID_LOCAL_ID then Zeros()
      else
        var a := container.data;
        seq(WID3, c requires 0 <= c < WID3 reads a => a[lid, c])
    }

    /** get_velocity_block_global_id: the block at a local ID, the invalid ID past the end. */
    function GlobalID(l: nat): (r: GlobalID)
      reads this, Repr
      requires Valid()
      ensures l < |vmesh.gids| ==> r in contents && LocalID(r) == l
      ensures l >= |vmesh.gids| ==> r == InvalidGID
    {
      MeshRoundTrip(geom, vmesh, l, InvalidGID);
      GlobalIDOf(vmesh, l)
    }

    /** count: 1 for a resident block, 0 otherwise. */
    function Count(g: GlobalID): (r: nat)
      reads this, Repr
      requires Valid()
      ensures r <= 1 && (r == 1 <==> g in contents)
    {
      CountOf(vmesh, g)
    }

    /** size / get_number_of_velocity_blocks: the mesh's size, which is the container's. */
    function Size(): (r: nat)
      reads this, Repr
      requires Valid()
      ensures r == container.size && r <= capacity
      ensures forall g :: g in contents ==> LocalID(g) < r
    {
      |vmesh.gids|
    }

    /**
     * remove_velocity_block: nothing happens for the invalid ID or a block that
     * is not resident; otherwise the last block moves into the removed block's
     * local ID, on the mesh and in the container alike.
     */
    method RemoveVelocityBlock(g: GlobalID)
      requires Valid()
      modifies Repr
      ensures Valid() && Repr == old(Repr)
      ensures contents == old(contents) - {g}
      ensures vmesh == if g in old(vmesh.lids) then MeshRemove(old(vmesh), g) else old(vmesh)
    {
      if g == InvalidGID {
        MeshRoundTrip(geom, vmesh, 0, g);
        return;
      }
      var removed := LocalIDOf(vmesh, g);
      if removed == INVALID_LOCAL_ID {
        return;
      }
      SwapRemoveBlock(container, removed);
      vmesh := MeshRemove(vmesh, g);
      contents := contents - {g};
      RemoveInLockstep(geom, capacity, old(vmesh), old(container.cubes), old(container.records), old(contents), g,
                       vmesh, container.cubes, container.records, contents);
    }

    /** clear: no blocks. */
    method Clear()
      requires Valid()
      modifies Repr
      ensures Valid() && Repr == old(Repr)
      ensures vmesh.gids == [] && contents == map[]
    {
      vmesh := VelocityMesh([], map[]);
      container.Clear();
      contents := map[];
    }

    /**
     * swap: the population takes the given mesh and container and hands back
     * its own. The pair taken must be in lockstep and must not share storage
     * with the population.
     */
    method Swap(m: VelocityMesh, c: BlockContainer) returns (oldMesh: VelocityMesh, oldContainer: BlockContainer)
      requires Valid() && c.Valid() && c.Repr !! Repr
      requires MeshValid(geom, m) && |m.gids| <= capacity <= c.capacity && c.records == RecordsOf(geom, m.gids)
      modifies this
      ensures Valid() && Repr == {this} + c.Repr && vmesh == m && container == c
      ensures oldMesh == old(vmesh) && oldContainer == old(container) && oldContainer.Valid()
      ensures contents == ContentsOf(m.lids, c.cubes)
    {
      oldMesh, oldContainer := vmesh, container;
      vmesh, container := m, c;
      contents := ContentsOf(m.lids, c.cubes);
      Repr := {this} + c.Repr;
    }

    /** The write get_data(lid)[cell] = value, on the slot of the resident block g. */
    method WriteSample(g: GlobalID, lid: nat, cell: nat, value: real)
      requires Valid() && lid < |vmesh.gids| && vmesh.gids[lid] == g && cell < WID3
      modifies Repr
      ensures Valid() && Repr == old(Repr) && vmesh == old(vmesh)
      ensures g in old(contents) && contents == old(contents)[g := old(contents)[g][cell := value]]
    {
      ContentsSetSlot(geom, vmesh, container.cubes, g, container.cubes[lid][cell := value]);
      container.SetSample(lid, cell, value);
      contents := contents[g := contents[g][cell := value]];
    }

    /** The update get_data(lid)[cell] += value, on the slot of the resident block g. */
    method AddToSample(g: GlobalID, lid: nat, cell: nat, value: real)
      requires Valid() && lid < |vmesh.gids| && vmesh.gids[lid] == g && cell < WID3
      modifies Repr
      ensures Valid() && Repr == old(Repr) && vmesh == old(vmesh)
      ensures g in old(contents)
      ensures contents == old(contents)[g := Incremented(old(contents)[g], cell, value)]
    {
      ContentsSetSlot(geom, vmesh, container.cubes, g, container.cubes[lid]);
      var current := container.Get(lid, cell);
      WriteSample(g, lid, cell, current + value);
    }

    /**
     * The block-creating prelude of set_value and increment_value: the local
     * ID of the block, created with zero samples when absent, or the invalid
     * local ID when creating it fails (the program aborts then).
     */
    method FindOrAdd(g: GlobalID) returns (lid: nat)
      requires Valid()
      modifies Repr
      ensures Valid() && Repr == old(Repr)
      ensures lid == INVALID_LOCAL_ID <==> g !in old(contents) && !(IsValid(geom, g) && |old(vmesh.gids)| < capacity)
      ensures lid == INVALID_LOCAL_ID ==> contents == old(contents)
      ensures lid != INVALID_LOCAL_ID ==>
        lid < |vmesh.gids| && vmesh.gids[lid] == g && container.cubes[lid] == StartBlock(old(contents), g)
        && contents == old(contents)[g := StartBlock(old(contents), g)]
    {
      lid := LocalID(g);
      if lid == INVALID_LOCAL_ID {
        var ok := AddVelocityBlock(g);
        if ok {
          lid := LocalID(g);
          ContentsSetSlot(geom, vmesh, container.cubes, g, Zeros());
        }
      } else {
        ContentsSetSlot(geom, vmesh, container.cubes, g, Zeros());
        assert old(contents)[g := StartBlock(old(contents), g)] == old(contents);
      }
    }

    /**
     * set_value by global ID, on this population: the block is created when
     * absent (the program aborts when that fails), then one sample is
     * overwritten.
     */
    method SetValue(g: GlobalID, cell: nat, value: real) returns (aborted: bool)
      requires Valid() && cell < WID3
      modifies Repr
      ensures Valid() && Repr == old(Repr)
      ensures aborted <==> g !in old(contents) && !(IsValid(geom, g) && |old(vmesh.gids)| < capacity)
      ensures aborted ==> contents == old(contents)
      ensures !aborted ==> contents == old(contents)[g := StartBlock(old(contents), g)[cell := value]]
    {
      var lid := FindOrAdd(g);
      if lid == INVALID_LOCAL_ID {
        return true;
      }
      ghost var added := contents;
      WriteSample(g, lid, cell, value);
      UpdateAfterStart(old(contents), added, contents, g, StartBlock(old(contents), g), cell, value);
      aborted := false;
    }

    /**
     * increment_value by global ID: the block is created when absent (the
     * program aborts when that fails), then value is added to one sample.
     */
    method IncrementValue(g: GlobalID, cell: nat, value: real) returns (aborted: bool)
      requires Valid() && cell < WID3
      modifies Repr
      ensures Valid() && Repr == old(Repr)
      ensures aborted <==> g !in old(contents) && !(IsValid(geom, g) && |old(vmesh.gids)| < capacity)
      ensures aborted ==> contents == old(contents)
      ensures !aborted ==> contents == old(contents)[g := Incremented(StartBlock(old(contents), g), cell, value)]
    {
      var lid := FindOrAdd(g);
      if lid == INVALID_LOCAL_ID {
        return true;
      }
      ghost var added := contents;
      AddToSample(g, lid, cell, value);
      IncrementAfterStart(old(contents), added, contents, g, StartBlock(old(contents), g), cell, value);
      aborted := false;
    }

    /** get_value, with the block and the cell already located: 0 for a block that is not resident. */
    method GetValue(g: GlobalID, cell: nat) returns (v: real)
      requires Valid() && cell < WID3
      ensures v == if g in contents then contents[g][cell] else 0.0
    {
      var lid := LocalID(g);
      if lid == INVALID_LOCAL_ID {
        return 0.0;
      }
      v := container.Get(lid, cell);
    }

    /**
     * compute_block_has_content: false for the invalid ID and for a block that
     * is not resident, otherwise whether some sample reaches the threshold.
     */
    method ComputeBlockHasContent(g: GlobalID, threshold: real) returns (has: bool)
      requires Valid()
      ensures has <==> g != InvalidGID && g in contents && HasContent(contents[g], threshold)
    {
      if g == InvalidGID {
        return false;
      }
      var lid := LocalID(g);
      if lid == INVALID_LOCAL_ID {
        return false;
      }
      has := false;
      var c := 0;
      while c < WID3
        invariant 0 <= c <= WID3 && !has
        invariant forall c' :: 0 <= c' < c ==> container.cubes[lid][c'] < threshold
      {
        if container.Get(lid, c) >= threshold {
          has := true;
          break;
        }
        c := c + 1;
      }
    }

    /**
     * get_velocity_block_children_local_ids: the local ID of each child of the
     * block, in the mesh's child order, the invalid local ID for a child that is
     * not resident.
     */
    method GetVelocityBlockChildrenLocalIds(g: GlobalID) returns (childLids: seq<nat>)
      requires Valid()
      ensures |childLids| == |Children(geom, g)|
      ensures forall c :: 0 <= c < |childLids| ==>
        (childLids[c] == INVALID_LOCAL_ID <==> Children(geom, g)[c] !in contents)
        && (childLids[c] != INVALID_LOCAL_ID ==> GlobalID(childLids[c]) == Children(geom, g)[c])
    {
      var children := Children(geom, g);
      childLids := [];
      for c := 0 to |children|
        invariant |childLids| == c
        invariant forall c' :: 0 <= c' < c ==> childLids[c'] == LocalID(children[c'])
      {
        childLids := childLids + [LocalID(children[c])];
      }
    }
  }
}
