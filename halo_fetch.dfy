/**
 * The halo stencils the velocity-space solvers build around one velocity
 * block: the block's own WID^3 samples, surrounded along an axis by PAD
 * layers taken from the face neighbour on either side. A neighbour on the
 * same refinement level is copied, a coarser or a finer one is interpolated,
 * and a missing one gives zeros.
 *
 * The velocity mesh's neighbour query and the interpolation kernels are not
 * part of this model: they are parameters. The output buffers are addressed
 * by their three coordinates; for fetch_acc_data, position (a, b, c) stands
 * for vblock::index(a, b, c), and for fetch_data, (x, y, z) stands for
 * padIndex(x, y, z).
 */
module HaloFetch {
  import opened VelocityCell
  import opened Octree
  import opened Store
  import RowMajor
  import opened Basics

  /** The plane a kernel interpolates in (vblock::interp_xy, interp_yz, interp_xz). */
  datatype Plane = XY | YZ | XZ
  /** Nearest-grid-point or cloud-in-cell weights. */
  datatype Kernel = NGP | CIC
  /** A position inside a block, in units of its cells. */
  datatype Pos = Pos(x: real, y: real, z: real)
  /** An interpolation kernel: from a plane, a weighting, a position and a block's samples, a value. */
  type Interp = (Plane, Kernel, Pos, seq<real>) -> real

  /**
   * The answer of getNeighborsExistingAtOffset: the local IDs of the existing
   * neighbours (one for a neighbour on the same or a coarser level, four for
   * a finer one) and their refinement level minus the block's.
   */
  datatype Neighbors = Neighbors(lids: seq<nat>, refLevelDiff: int)
  datatype Offset = Offset(di: int, dj: int, dk: int)
  /** The mesh's neighbour query for the block being fetched. */
  type Query = Offset -> Neighbors

  datatype Side = Lower | Upper

  /** The offset of the face neighbour on one side along axis d. */
  function FaceOffset(d: nat, s: Side): Offset
  {
    var o := if s == Lower then -1 else 1;
    if d == 0 then Offset(o, 0, 0) else if d == 1 then Offset(0, o, 0) else Offset(0, 0, o)
  }

  /** cellSizeFractions[(offset + 1) / 2]. */
  function SideIndex(s: Side): nat
  {
    if s == Lower then 0 else 1
  }

  /** The samples of the block container, by local ID. */
  predicate BlocksOk(src: seq<seq<real>>)
  {
    forall l :: 0 <= l < |src| ==> |src[l]| == WID3
  }

  /** A neighbour answer the fetch can read: every local ID is invalid or names a block, and a finer neighbour comes with four. */
  predicate NeighborsOk(nb: Neighbors, n: nat)
  {
    (forall q :: 0 <= q < |nb.lids| ==> nb.lids[q] == INVALID_LOCAL_ID || nb.lids[q] < n)
    && (nb.refLevelDiff == 1 && nb.lids != [] ==> |nb.lids| >= 4)
  }

  /** The samples a neighbour's local ID points to: null_block_data (all zero) for the invalid local ID. */
  function Ptr(src: seq<seq<real>>, lid: nat): (b: seq<real>)
    requires BlocksOk(src) && (lid == INVALID_LOCAL_ID || lid < |src|)
    ensures |b| == WID3
  {
    if lid == INVALID_LOCAL_ID then Zeros() else src[lid]
  }

  /** The sample of cell p of a block. */
  function At(b: seq<real>, p: CellIndices): real
    requires |b| == WID3 && InBlock(p)
  {
    RowMajor.ComposeBound(p.i, p.j, p.k, WID, WID, WID);
    b[CellIndex(p.i, p.j, p.k)]
  }

  function Coord(p: CellIndices, d: nat): nat
  {
    if d == 0 then p.i else if d == 1 then p.j else p.k
  }

  function WithCoord(p: CellIndices, d: nat, v: nat): CellIndices
  {
    if d == 0 then p.(i := v) else if d == 1 then p.(j := v) else p.(k := v)
  }

  /** The block's own index on its refinement level along axis d (getIndices). */
  function BlockCoord(g: GlobalID, d: nat): nat
  {
    if g.InvalidGID? then 0 else if d == 0 then g.i else if d == 1 then g.j else g.k
  }

  /** The two axes across axis d, lower first. */
  function First(d: nat): nat
  {
    if d == 0 then 1 else 0
  }

  function Second(d: nat): nat
  {
    if d == 2 then 1 else 2
  }

  /** crd: where the first pad layer sits inside the neighbour, along the axis. */
  function Crd(pad: nat, s: Side): real
  {
    if s == Lower then WID as real - 0.5 - (pad as real - 1.0) else 0.5
  }

  /** The first layer of a same-level neighbour that is copied (i_src). */
  function SourceStart(pad: nat, s: Side): nat
    requires pad <= WID
  {
    if s == Lower then WID - pad else 0
  }

  /** The first output layer a neighbour fills along the axis (i_trgt). */
  function TargetStart(pad: nat, s: Side): nat
  {
    if s == Lower then 0 else WID + pad
  }

  /** Position in a coarser neighbour: the half of it the block occupies, and the cell's coarse cell. */
  function CoarseComponent(g: GlobalID, p: CellIndices, d: nat, e: nat, crd: real): real
  {
    if e == d then crd + Coord(p, d) as real
    else (2 * (BlockCoord(g, e) % 2)) as real + (Coord(p, e) / 2) as real + 0.5
  }

  function CoarsePos(g: GlobalID, p: CellIndices, d: nat, crd: real): Pos
  {
    Pos(CoarseComponent(g, p, d, 0, crd), CoarseComponent(g, p, d, 1, crd), CoarseComponent(g, p, d, 2, crd))
  }

  /** Position in one of four finer neighbours: the centre of the 2x2 fine cells under the cell. */
  function FineComponent(p: CellIndices, d: nat, e: nat, crd: real): real
  {
    if e == d then crd + Coord(p, d) as real else (2 * (Coord(p, e) % 2) + 1) as real
  }

  function FinePos(p: CellIndices, d: nat, crd: real): Pos
  {
    Pos(FineComponent(p, d, 0, crd), FineComponent(p, d, 1, crd), FineComponent(p, d, 2, crd))
  }

  /** Which of the four finer neighbours lies across the face from cell p. */
  function ChildIndex(d: nat, p: CellIndices): nat
  {
    (Coord(p, Second(d)) / 2) * 2 + Coord(p, First(d)) / 2
  }

  /** The neighbour's cell size relative to the block's, as stored in cellSizeFractions; None where nothing is stored. */
  function CellSizeFraction(nb: Neighbors): Option<real>
  {
    if nb.lids == [] then Some(1.0)
    else if nb.refLevelDiff == -1 then Some(2.0)
    else if nb.refLevelDiff == 0 then Some(1.0)
    else if nb.refLevelDiff == 1 then Some(0.5)
    else None
  }

  /** A neighbour answer the fetch writes anything for: none, or one at most one level apart. */
  predicate Handled(nb: Neighbors)
  {
    nb.lids == [] || -1 <= nb.refLevelDiff <= 1
  }

  /** The value after a write that happens only when there is something to write. */
  function Written(o: Option<real>, before: real): real
  {
    if o.Some? then o.value else before
  }

  /**
   * The value of pad cell p across the face on side s of axis d, where
   * Coord(p, d) is the pad layer and the other two coordinates the cell
   * across the face; None for a neighbour more than one level apart, for
   * which nothing is written.
   */
  function FaceValue(src: seq<seq<real>>, g: GlobalID, pad: nat, interp: Interp, plane: Plane,
                     d: nat, s: Side, nb: Neighbors, p: CellIndices): (v: Option<real>)
    requires BlocksOk(src) && NeighborsOk(nb, |src|) && pad <= WID && d < 3
    requires InBlock(p) && Coord(p, d) < pad
    ensures v.Some? <==> Handled(nb)
  {
    if nb.lids == [] then Some(0.0)
    else if nb.refLevelDiff == -1 then
      Some(interp(plane, NGP, CoarsePos(g, p, d, Crd(pad, s)), Ptr(src, nb.lids[0])))
    else if nb.refLevelDiff == 0 then
      Some(At(Ptr(src, nb.lids[0]), WithCoord(p, d, SourceStart(pad, s) + Coord(p, d))))
    else if nb.refLevelDiff == 1 then
      Some(interp(plane, CIC, FinePos(p, d, Crd(pad, s)), Ptr(src, nb.lids[ChildIndex(d, p)])))
    else None
  }

  /** A coordinate of a stencil: its pad layer below or above the block, or its cell inside. */
  function Local(pad: nat, v: nat): nat
  {
    if v < pad then v else if v < pad + WID then v - pad else v - pad - WID
  }

  // ---------------------------------------------------------------------------
  // Filling a box of the output

  datatype Box = Box(lo0: nat, hi0: nat, lo1: nat, hi1: nat, lo2: nat, hi2: nat)

  predicate InBox(bx: Box, a: nat, b: nat, c: nat)
  {
    bx.lo0 <= a < bx.hi0 && bx.lo1 <= b < bx.hi1 && bx.lo2 <= c < bx.hi2
  }

  /** One triple loop of the fetch: every position of the box gets f of its coordinates. */
  method FillBox(out: array3<real>, bx: Box, f: (nat, nat, nat) --> real)
    requires bx.lo0 <= bx.hi0 <= out.Length0 && bx.lo1 <= bx.hi1 <= out.Length1 && bx.lo2 <= bx.hi2 <= out.Length2
    requires forall a, b, c :: InBox(bx, a, b, c) ==> f.requires(a, b, c)
    modifies out
    ensures forall a, b, c :: 0 <= a < out.Length0 && 0 <= b < out.Length1 && 0 <= c < out.Length2 ==>
      out[a, b, c] == if InBox(bx, a, b, c) then f(a, b, c) else old(out[a, b, c])
  {
    for a := bx.lo0 to bx.hi0
      invariant forall x, y, z :: 0 <= x < out.Length0 && 0 <= y < out.Length1 && 0 <= z < out.Length2 ==>
        out[x, y, z] == if InBox(bx, x, y, z) && x < a then f(x, y, z) else old(out[x, y, z])
    {
      for b := bx.lo1 to bx.hi1
        invariant forall x, y, z :: 0 <= x < out.Length0 && 0 <= y < out.Length1 && 0 <= z < out.Length2 ==>
          out[x, y, z] == if InBox(bx, x, y, z) && (x < a || (x == a && y < b)) then f(x, y, z) else old(out[x, y, z])
      {
        for c := bx.lo2 to bx.hi2
          invariant forall x, y, z :: 0 <= x < out.Length0 && 0 <= y < out.Length1 && 0 <= z < out.Length2 ==>
            out[x, y, z] == if InBox(bx, x, y, z) && (x < a || (x == a && (y < b || (y == b && z < c))))
                            then f(x, y, z) else old(out[x, y, z])
        {
          out[a, b, c] := f(a, b, c);
        }
      }
    }
  }

  // ---------------------------------------------------------------------------
  // fetch_acc_data: one axis, transposed so that the axis is the slowest index

  /** The block cell at output position (a, b) and axis position t of the stencil along dim. */
  function AccCell(dim: nat, a: nat, b: nat, t: nat): CellIndices
  {
    if dim == 0 then CellIndices(t, b, a) else if dim == 1 then CellIndices(a, t, b) else CellIndices(a, b, t)
  }

  /**
   * The value fetch_acc_data leaves at (a, b, c), given the block's samples
   * self and the answers for its lower and upper neighbours along dim; None
   * where nothing is written.
   */
  function AccValue(src: seq<seq<real>>, g: GlobalID, pad: nat, interp: Interp, dim: nat, self: seq<real>,
                    lower: Neighbors, upper: Neighbors, a: nat, b: nat, c: nat): Option<real>
    requires BlocksOk(src) && NeighborsOk(lower, |src|) && NeighborsOk(upper, |src|) && pad <= WID && dim < 3
    requires |self| == WID3 && a < WID && b < WID && c < WID + 2 * pad
  {
    var p := AccCell(dim, a, b, Local(pad, c));
    if c < pad then FaceValue(src, g, pad, interp, XY, dim, Lower, lower, p)
    else if c < pad + WID then Some(At(self, p))
    else FaceValue(src, g, pad, interp, XY, dim, Upper, upper, p)
  }

  /**
   * fetch_acc_data in a debug build: for a block outside the mesh the
   * program stops (aborted); otherwise the centre gets the block's samples
   * and each side the pad layers of its face neighbour along dim, with that
   * neighbour's cell-size fraction.
   */
  method FetchAccData(g: GlobalID, dim: nat, m: VelocityMesh, src: seq<seq<real>>, query: Query, interp: Interp,
                      pad: nat, out: array3<real>, fractions: array<real>) returns (aborted: bool)
    requires dim < 3 && pad <= WID && BlocksOk(src) && (forall h :: h in m.lids ==> m.lids[h] < |src|)
    requires NeighborsOk(query(FaceOffset(dim, Lower)), |src|) && NeighborsOk(query(FaceOffset(dim, Upper)), |src|)
    requires out.Length0 == WID && out.Length1 == WID && out.Length2 == WID + 2 * pad && fractions.Length == 2
    modifies out, fractions
    ensures aborted <==> g == InvalidGID || g !in m.lids
    ensures aborted ==> unchanged(out) && unchanged(fractions)
    ensures !aborted ==> forall a, b, c :: 0 <= a < WID && 0 <= b < WID && 0 <= c < WID + 2 * pad ==>
      out[a, b, c] == Written(AccValue(src, g, pad, interp, dim, src[m.lids[g]], query(FaceOffset(dim, Lower)),
                                       query(FaceOffset(dim, Upper)), a, b, c), old(out[a, b, c]))
    ensures !aborted ==> fractions[0] == Written(CellSizeFraction(query(FaceOffset(dim, Lower))), old(fractions[0]))
    ensures !aborted ==> fractions[1] == Written(CellSizeFraction(query(FaceOffset(dim, Upper))), old(fractions[1]))
  {
    if g == InvalidGID || g !in m.lids {
      return true;
    }
    aborted := false;
    var self := src[m.lids[g]];
    FillBox(out, Box(0, WID, 0, WID, pad, pad + WID),
            (a: nat, b: nat, c: nat) requires a < WID && b < WID && pad <= c < pad + WID =>
              At(self, AccCell(dim, a, b, c - pad)));
    FetchAccFace(g, dim, Lower, src, query(FaceOffset(dim, Lower)), interp, pad, out, fractions);
    FetchAccFace(g, dim, Upper, src, query(FaceOffset(dim, Upper)), interp, pad, out, fractions);
  }

  /** The pad layers of fetch_acc_data on one side, from that side's neighbour answer nb. */
  method FetchAccFace(g: GlobalID, dim: nat, s: Side, src: seq<seq<real>>, nb: Neighbors, interp: Interp,
                      pad: nat, out: array3<real>, fractions: array<real>)
    requires dim < 3 && pad <= WID && BlocksOk(src) && NeighborsOk(nb, |src|)
    requires out.Length0 == WID && out.Length1 == WID && out.Length2 == WID + 2 * pad && fractions.Length == 2
    modifies out, fractions
    ensures forall a, b, c :: 0 <= a < WID && 0 <= b < WID && 0 <= c < WID + 2 * pad ==>
      out[a, b, c] == if TargetStart(pad, s) <= c < TargetStart(pad, s) + pad
                      then Written(FaceValue(src, g, pad, interp, XY, dim, s, nb, AccCell(dim, a, b, Local(pad, c))),
                                   old(out[a, b, c]))
                      else old(out[a, b, c])
    ensures fractions[SideIndex(s)] == Written(CellSizeFraction(nb), old(fractions[SideIndex(s)]))
    ensures fractions[1 - SideIndex(s)] == old(fractions[1 - SideIndex(s)])
  {
    if !Handled(nb) {
      return;
    }
    var t := TargetStart(pad, s);
    FillBox(out, Box(0, WID, 0, WID, t, t + pad),
            (a: nat, b: nat, c: nat) requires a < WID && b < WID && t <= c < t + pad =>
              FaceValue(src, g, pad, interp, XY, dim, s, nb, AccCell(dim, a, b, c - t)).value);
    fractions[SideIndex(s)] := CellSizeFraction(nb).value;
  }

  // ---------------------------------------------------------------------------
  // fetch_data: all three axes in one padded cube, corners and edges untouched

  /** The kernel plane fetch_data uses across the faces of axis d. */
  function PlaneOf(d: nat): Plane
  {
    if d == 0 then YZ else if d == 1 then XZ else XY
  }

  /** The neighbour answers of all six faces are readable. */
  predicate FacesOk(query: Query, n: nat)
  {
    forall d, s :: 0 <= d < 3 ==> NeighborsOk(query(FaceOffset(d, s)), n)
  }

  /** The cell of the padded cube's (x, y, z): a block cell inside, pad layer and cell across a face outside. */
  function PadCell(pad: nat, x: nat, y: nat, z: nat): CellIndices
  {
    CellIndices(Local(pad, x), Local(pad, y), Local(pad, z))
  }

  /** A coordinate of the padded cube lies inside the block's span. */
  predicate Inside(pad: nat, v: nat)
  {
    pad <= v < pad + WID
  }

  /** 1 when a coordinate of the padded cube lies outside the block's span. */
  function Outside(pad: nat, v: nat): nat
  {
    if Inside(pad, v) then 0 else 1
  }

  /** The side a coordinate outside the block's span lies on. */
  function SideOf(pad: nat, v: nat): Side
  {
    if v < pad then Lower else Upper
  }

  /** The block's own span in the padded cube. */
  function CentreBox(pad: nat): Box
  {
    Box(pad, pad + WID, pad, pad + WID, pad, pad + WID)
  }

  /** The box of the padded cube filled from the face neighbour on side s of axis d. */
  function FaceBox(pad: nat, d: nat, s: Side): Box
  {
    var t := TargetStart(pad, s);
    if d == 0 then Box(t, t + pad, pad, pad + WID, pad, pad + WID)
    else if d == 1 then Box(pad, pad + WID, t, t + pad, pad, pad + WID)
    else Box(pad, pad + WID, pad, pad + WID, t, t + pad)
  }

  /** (x, y, z) lies across one of the two faces of axis d. */
  predicate InAxisBoxes(pad: nat, d: nat, x: nat, y: nat, z: nat)
  {
    InBox(FaceBox(pad, d, Lower), x, y, z) || InBox(FaceBox(pad, d, Upper), x, y, z)
  }

  /** The value across a face of axis d at (x, y, z), from the neighbour on the side (x, y, z) lies on. */
  function AxisValue(src: seq<seq<real>>, g: GlobalID, pad: nat, interp: Interp, query: Query, d: nat,
                     x: nat, y: nat, z: nat): Option<real>
    requires BlocksOk(src) && FacesOk(query, |src|) && pad <= WID && d < 3 && InAxisBoxes(pad, d, x, y, z)
  {
    var s := if InBox(FaceBox(pad, d, Lower), x, y, z) then Lower else Upper;
    FaceValue(src, g, pad, interp, PlaneOf(d), d, s, query(FaceOffset(d, s)), PadCell(pad, x, y, z))
  }

  /**
   * The value fetch_data leaves at (x, y, z) of the padded cube: the block's
   * sample inside its span, the face neighbour's value across each face, and
   * None (nothing written) elsewhere.
   */
  function PadValue(src: seq<seq<real>>, g: GlobalID, pad: nat, interp: Interp, query: Query, self: seq<real>,
                    x: nat, y: nat, z: nat): Option<real>
    requires BlocksOk(src) && FacesOk(query, |src|) && pad <= WID && |self| == WID3
  {
    if InBox(CentreBox(pad), x, y, z) then Some(At(self, PadCell(pad, x, y, z)))
    else if InAxisBoxes(pad, 0, x, y, z) then AxisValue(src, g, pad, interp, query, 0, x, y, z)
    else if InAxisBoxes(pad, 1, x, y, z) then AxisValue(src, g, pad, interp, query, 1, x, y, z)
    else if InAxisBoxes(pad, 2, x, y, z) then AxisValue(src, g, pad, interp, query, 2, x, y, z)
    else None
  }

  /**
   * fetch_data: for a block outside the mesh the program stops (aborted);
   * otherwise the padded cube gets the block's samples in the middle and the
   * pad layers of all six face neighbours.
   */
  method FetchData(g: GlobalID, m: VelocityMesh, src: seq<seq<real>>, query: Query, interp: Interp,
                   pad: nat, out: array3<real>) returns (aborted: bool)
    requires pad <= WID && BlocksOk(src) && (forall h :: h in m.lids ==> m.lids[h] < |src|) && FacesOk(query, |src|)
    requires out.Length0 == WID + 2 * pad && out.Length1 == WID + 2 * pad && out.Length2 == WID + 2 * pad
    modifies out
    ensures aborted <==> g !in m.lids
    ensures aborted ==> unchanged(out)
    ensures !aborted ==> forall x, y, z :: 0 <= x < WID + 2 * pad && 0 <= y < WID + 2 * pad && 0 <= z < WID + 2 * pad ==>
      out[x, y, z] == Written(PadValue(src, g, pad, interp, query, src[m.lids[g]], x, y, z), old(out[x, y, z]))
  {
    if g !in m.lids {
      return true;
    }
    aborted := false;
    var self := src[m.lids[g]];
    FillBox(out, CentreBox(pad),
            (x: nat, y: nat, z: nat) requires InBox(CentreBox(pad), x, y, z) => At(self, PadCell(pad, x, y, z)));
    FetchPadAxis(g, 0, src, query, interp, pad, out);
    FetchPadAxis(g, 1, src, query, interp, pad, out);
    FetchPadAxis(g, 2, src, query, interp, pad, out);
  }

  /** The pad layers of fetch_data across both faces of axis d. */
  method FetchPadAxis(g: GlobalID, d: nat, src: seq<seq<real>>, query: Query, interp: Interp,
                      pad: nat, out: array3<real>)
    requires d < 3 && pad <= WID && BlocksOk(src) && FacesOk(query, |src|)
    requires out.Length0 == WID + 2 * pad && out.Length1 == WID + 2 * pad && out.Length2 == WID + 2 * pad
    modifies out
    ensures forall x, y, z :: 0 <= x < WID + 2 * pad && 0 <= y < WID + 2 * pad && 0 <= z < WID + 2 * pad ==>
      out[x, y, z] == if InAxisBoxes(pad, d, x, y, z)
                      then Written(AxisValue(src, g, pad, interp, query, d, x, y, z), old(out[x, y, z]))
                      else old(out[x, y, z])
  {
    FetchPadFace(g, d, Lower, src, query(FaceOffset(d, Lower)), interp, pad, out);
    FetchPadFace(g, d, Upper, src, query(FaceOffset(d, Upper)), interp, pad, out);
  }

  /** The pad layers of fetch_data across one face, from that face's neighbour answer nb. */
  method FetchPadFace(g: GlobalID, d: nat, s: Side, src: seq<seq<real>>, nb: Neighbors, interp: Interp,
                      pad: nat, out: array3<real>)
    requires d < 3 && pad <= WID && BlocksOk(src) && NeighborsOk(nb, |src|)
    requires out.Length0 == WID + 2 * pad && out.Length1 == WID + 2 * pad && out.Length2 == WID + 2 * pad
    modifies out
    ensures forall x, y, z :: 0 <= x < WID + 2 * pad && 0 <= y < WID + 2 * pad && 0 <= z < WID + 2 * pad ==>
      out[x, y, z] == if InBox(FaceBox(pad, d, s), x, y, z)
                      then Written(FaceValue(src, g, pad, interp, PlaneOf(d), d, s, nb, PadCell(pad, x, y, z)),
                                   old(out[x, y, z]))
                      else old(out[x, y, z])
  {
    if !Handled(nb) {
      return;
    }
    FillBox(out, FaceBox(pad, d, s),
            (x: nat, y: nat, z: nat) requires InBox(FaceBox(pad, d, s), x, y, z) =>
              FaceValue(src, g, pad, interp, PlaneOf(d), d, s, nb, PadCell(pad, x, y, z)).value);
  }

  // ---------------------------------------------------------------------------
  // What the stencils mean

  /** The WID samples of a block along axis d through cell p. */
  function Column(blk: seq<real>, d: nat, p: CellIndices): (col: seq<real>)
    requires |blk| == WID3 && d < 3 && InBlock(p)
    ensures |col| == WID
  {
    seq(WID, t requires 0 <= t < WID => At(blk, WithCoord(p, d, t)))
  }

  /** The 3 * WID samples along axis d through three face-adjacent blocks of one level. */
  function Line(lower: seq<real>, self: seq<real>, upper: seq<real>, d: nat, p: CellIndices): (line: seq<real>)
    requires |lower| == WID3 && |self| == WID3 && |upper| == WID3 && d < 3 && InBlock(p)
    ensures |line| == 3 * WID
  {
    Column(lower, d, p) + Column(self, d, p) + Column(upper, d, p)
  }

  /**
   * With both neighbours along dim on the block's own level, the stencil of
   * fetch_acc_data through (a, b) is the window of WID + 2 * PAD consecutive
   * samples of the line through the three blocks, centred on the block.
   */
  lemma AccSameLevelWindow(src: seq<seq<real>>, g: GlobalID, pad: nat, interp: Interp, dim: nat, self: seq<real>,
                           lower: Neighbors, upper: Neighbors, a: nat, b: nat, c: nat)
    requires BlocksOk(src) && NeighborsOk(lower, |src|) && NeighborsOk(upper, |src|) && pad <= WID && dim < 3
    requires |self| == WID3 && a < WID && b < WID && c < WID + 2 * pad
    requires lower.lids != [] && lower.refLevelDiff == 0 && upper.lids != [] && upper.refLevelDiff == 0
    ensures AccValue(src, g, pad, interp, dim, self, lower, upper, a, b, c)
         == Some(Line(Ptr(src, lower.lids[0]), self, Ptr(src, upper.lids[0]), dim, AccCell(dim, a, b, 0))[WID - pad + c])
  {
  }

  /**
   * Along z, the stencil of fetch_acc_data through (a, b) is the column of
   * fetch_data's padded cube through (a + PAD, b + PAD).
   */
  lemma AccMatchesPadAlongZ(src: seq<seq<real>>, g: GlobalID, pad: nat, interp: Interp, query: Query, self: seq<real>,
                            a: nat, b: nat, c: nat)
    requires BlocksOk(src) && FacesOk(query, |src|) && pad <= WID && |self| == WID3
    requires a < WID && b < WID && c < WID + 2 * pad
    ensures AccValue(src, g, pad, interp, 2, self, query(FaceOffset(2, Lower)), query(FaceOffset(2, Upper)), a, b, c)
         == PadValue(src, g, pad, interp, query, self, a + pad, b + pad, c)
  {
  }

  /**
   * Where fetch_data writes: inside the block's span the block's own sample,
   * across exactly one face that face's neighbour, and nothing where two or
   * three coordinates lie outside the span (the edges and corners of the cube).
   */
  lemma PadValueRegions(src: seq<seq<real>>, g: GlobalID, pad: nat, interp: Interp, query: Query, self: seq<real>,
                        x: nat, y: nat, z: nat)
    requires BlocksOk(src) && FacesOk(query, |src|) && pad <= WID && |self| == WID3
    requires x < WID + 2 * pad && y < WID + 2 * pad && z < WID + 2 * pad
    ensures Inside(pad, x) && Inside(pad, y) && Inside(pad, z) ==>
      PadValue(src, g, pad, interp, query, self, x, y, z) == Some(At(self, CellIndices(x - pad, y - pad, z - pad)))
    ensures !Inside(pad, x) && Inside(pad, y) && Inside(pad, z) ==>
      PadValue(src, g, pad, interp, query, self, x, y, z)
        == FaceValue(src, g, pad, interp, YZ, 0, SideOf(pad, x), query(FaceOffset(0, SideOf(pad, x))),
                     CellIndices(Local(pad, x), y - pad, z - pad))
    ensures Inside(pad, x) && !Inside(pad, y) && Inside(pad, z) ==>
      PadValue(src, g, pad, interp, query, self, x, y, z)
        == FaceValue(src, g, pad, interp, XZ, 1, SideOf(pad, y), query(FaceOffset(1, SideOf(pad, y))),
                     CellIndices(x - pad, Local(pad, y), z - pad))
    ensures Inside(pad, x) && Inside(pad, y) && !Inside(pad, z) ==>
      PadValue(src, g, pad, interp, query, self, x, y, z)
        == FaceValue(src, g, pad, interp, XY, 2, SideOf(pad, z), query(FaceOffset(2, SideOf(pad, z))),
                     CellIndices(x - pad, y - pad, Local(pad, z)))
    ensures Outside(pad, x) + Outside(pad, y) + Outside(pad, z) >= 2 ==>
      PadValue(src, g, pad, interp, query, self, x, y, z) == None
  {
  }

  /** The four finer neighbours split the face into 2 x 2 quadrants of cells. */
  lemma ChildQuadrant(d: nat, p: CellIndices, q: nat)
    requires d < 3 && InBlock(p) && q < 4
    ensures ChildIndex(d, p) < 4
    ensures ChildIndex(d, p) == q <==> Coord(p, First(d)) / 2 == q % 2 && Coord(p, Second(d)) / 2 == q / 2
  {
    var x, y := Coord(p, First(d)) / 2, Coord(p, Second(d)) / 2;
    assert x < 2 && y < 2;
    assert ChildIndex(d, p) == y * 2 + x;
  }

  /** Every fraction stored is the neighbour's cell size over the block's: 2^-refLevelDiff. */
  lemma FractionIsCellSizeRatio(nb: Neighbors)
    requires Handled(nb)
    ensures CellSizeFraction(nb).Some?
    ensures nb.lids == [] ==> CellSizeFraction(nb).value == 1.0
    ensures nb.lids != [] ==> CellSizeFraction(nb).value * Pow2((nb.refLevelDiff + 1) as nat) as real == 2.0
  {
  }
}
