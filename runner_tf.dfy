/**
 * deepimagej.RunnerTf: how call() cuts the image into tiles. Each axis has
 * a patch size, the padding the outputs need on each side, and the roi,
 * the part of a patch that lands in the output (patch minus both paddings).
 * The number of tiles per axis is ceil(n / roi); every tile but the last
 * starts at roi * k, the last is pushed back so that it ends at the image
 * border. The model keeps the coordinates handed to extractPatch for each
 * tile; running the TensorFlow session on a patch is outside the model.
 */
module RunnerTf {
  import opened Wrappers
  import JavaString
  import Index
  import IntArith
  import DijTensor

  /** The ceiling of n / roi for a positive roi, by Euclidean division. */
  lemma {:induction false} CeilDiv(n: nat, roi: int)
    requires roi > 0
    ensures var q := (n + roi - 1) / roi;
            q >= 0 && roi * (q - 1) < n <= roi * q &&
            (n > 0 ==> q >= 1) && (0 < n <= roi ==> q == 1)
  {
    var q, m := (n + roi - 1) / roi, (n + roi - 1) % roi;
    IntArith.DivModUnique(n + roi - 1, roi, q, m);
    assert roi * q == n + roi - 1 - m;
    assert roi * (q - 1) == roi * q - roi;
    if 0 < n <= roi {
      IntArith.DivModUnique(n + roi - 1, roi, 1, n - 1);
    }
    if n > 0 && q < 1 {
      IntArith.MulMonotone(q, 0, roi);
    }
  }

  /**
   * (int) Math.ceil((double) n / (double) roi) for an image size n. Both
   * operands are ints, so the double quotient is never rounded onto an
   * integer it does not equal and the ceiling is the exact one. A zero roi
   * gives Infinity (Integer.MAX_VALUE after the cast) or, for 0 / 0, NaN (0).
   */
  function TileCount(n: nat, roi: int): (np: int)
    ensures roi > 0 ==> np >= 0 && roi * (np - 1) < n <= roi * np
    ensures roi > 0 && n > 0 ==> np >= 1
    ensures 0 < n <= roi ==> np == 1
    ensures roi == 0 ==> np == if n == 0 then 0 else JavaString.MaxInt
    ensures roi < 0 ==> np <= 0
  {
    if roi > 0 then
      CeilDiv(n, roi);
      (n + roi - 1) / roi
    else if roi == 0 then (if n == 0 then 0 else JavaString.MaxInt)
    else -(n / -roi)
  }

  /** One axis of the tiling once call() has settled it: the image size, the tile count, the roi, the padding and the overlap. */
  datatype AxisPlan = AxisPlan(n: nat, np: int, roi: int, pad: int, overlap: int)

  /**
   * The tiling of one axis: patch size `patch`, padding `pad` from
   * findTotalPadding and `added` pixels on the leading side of the mirrored
   * image. Without patching there is one tile. A roi larger than the image
   * shrinks to the image and the rest of the patch becomes padding and
   * overlap on each side; (patch - n) / 2 is positive there, so Java's
   * truncating division agrees with Dafny's.
   */
  function PlanAxis(n: nat, patch: int, pad: nat, added: int, allowPatching: bool): (a: AxisPlan)
    ensures a.n == n
    ensures a.np == if allowPatching then TileCount(n, patch - pad * 2) else 1
    ensures a.roi == if patch - pad * 2 > n then n else patch - pad * 2
    ensures patch - pad * 2 > n ==> a.pad == a.overlap && n + 2 * a.pad <= patch <= n + 2 * a.pad + 1
    ensures patch - pad * 2 <= n ==> a.pad == pad && a.overlap == added
  {
    var roi := patch - pad * 2;
    var np := if allowPatching then TileCount(n, roi) else 1;
    if roi > n then AxisPlan(n, np, n, (patch - n) / 2, (patch - n) / 2)
    else AxisPlan(n, np, roi, pad, added)
  }

  /**
   * The plan of an axis whose tiles cover it: a positive roi, at least one
   * tile, np - 1 tiles falling short of the border and np reaching it, and
   * a single tile only when the roi is the whole axis.
   */
  predicate Covering(a: AxisPlan)
  {
    a.roi > 0 && a.np >= 1 && a.roi * (a.np - 1) < a.n <= a.roi * a.np && (a.np == 1 ==> a.roi == a.n)
  }

  /** With patching, a positive roi and a non-empty axis, call()'s plan covers the axis. */
  lemma {:induction false} PlanCovers(n: nat, patch: int, pad: nat, added: int)
    requires patch - pad * 2 > 0 && n > 0
    ensures Covering(PlanAxis(n, patch, pad, added, true))
  {
    var a := PlanAxis(n, patch, pad, added, true);
    var roi := patch - pad * 2;
    if roi > n {
      assert a.np == 1 && a.roi == n;
    } else if a.np == 1 {
      assert n <= roi;
    }
  }

  /**
   * Where tile k of an axis sits: its start in the mirrored image, the
   * image range [imageStart, imageEnd) whose output it produces, and the
   * offset inside the patch where that range begins.
   */
  datatype Span = Span(mirrorStart: int, imageStart: int, imageEnd: int, leftover: int)

  /** The coordinates call() computes for tile k: a regular step, or the last tile pushed back to end at the border. */
  function AxisSpan(a: AxisPlan, k: int): (s: Span)
    ensures s.imageStart == a.roi * k
    ensures s.mirrorStart + a.roi == a.pad + s.imageEnd
    ensures s.mirrorStart + s.leftover - a.overlap == a.pad + s.imageStart
  {
    if k < a.np - 1 || a.np == 1 then
      Span(a.pad + a.roi * k, a.roi * k, a.roi * (k + 1), a.overlap)
    else
      Span(a.n + a.pad - a.roi, a.roi * k, a.n, a.overlap + a.roi - (a.n - a.roi * k))
  }

  /**
   * The tiles of a covering plan partition the axis: the first starts at
   * 0, each starts where the previous one ends, the last ends at the
   * border, and none is empty or longer than the roi.
   */
  lemma {:induction false} TilesPartition(a: AxisPlan)
    requires Covering(a)
    ensures AxisSpan(a, 0).imageStart == 0
    ensures AxisSpan(a, a.np - 1).imageEnd == a.n
    ensures forall k :: 0 <= k < a.np - 1 ==> AxisSpan(a, k).imageEnd == AxisSpan(a, k + 1).imageStart
    ensures forall k :: 0 <= k < a.np ==> AxisSpan(a, k).imageStart < AxisSpan(a, k).imageEnd <= AxisSpan(a, k).imageStart + a.roi
  {
    forall k | 0 <= k < a.np - 1
      ensures AxisSpan(a, k).imageEnd == AxisSpan(a, k + 1).imageStart
    {
      assert a.roi * (k + 1) == a.roi * k + a.roi;
    }
    forall k | 0 <= k < a.np
      ensures AxisSpan(a, k).imageStart < AxisSpan(a, k).imageEnd <= AxisSpan(a, k).imageStart + a.roi
    {
      assert a.roi * (k + 1) == a.roi * k + a.roi;
      if !(k < a.np - 1 || a.np == 1) {
        assert a.roi * a.np == a.roi * k + a.roi;
      }
    }
  }

  /** A positive step keeps the order of tile indices. */
  lemma StepMonotone(roi: int, k: int, l: int)
    requires roi > 0 && k <= l
    ensures roi * k <= roi * l
  {
    IntArith.MulMonotone(k, l, roi);
  }

  /** Every pixel of a covered axis lies in exactly one tile, tile x / roi. */
  lemma {:induction false} PixelInOneTile(a: AxisPlan, x: int)
    requires Covering(a) && 0 <= x < a.n
    ensures 0 <= x / a.roi < a.np
    ensures AxisSpan(a, x / a.roi).imageStart <= x < AxisSpan(a, x / a.roi).imageEnd
    ensures forall k :: 0 <= k < a.np && k != x / a.roi ==> !(AxisSpan(a, k).imageStart <= x < AxisSpan(a, k).imageEnd)
  {
    TilesPartition(a);
    var roi, k := a.roi, x / a.roi;
    IntArith.DivModUnique(x, roi, k, x % roi);
    assert roi * k <= x < roi * (k + 1) by {
      assert roi * (k + 1) == roi * k + roi;
    }
    if k >= a.np {
      StepMonotone(roi, a.np, k);
      assert false;
    }
    forall k' | 0 <= k' < a.np && k' != k
      ensures !(AxisSpan(a, k').imageStart <= x < AxisSpan(a, k').imageEnd)
    {
      if k' < k {
        StepMonotone(roi, k' + 1, k);
        assert AxisSpan(a, k').imageEnd == roi * (k' + 1);
      } else {
        StepMonotone(roi, k + 1, k');
      }
    }
  }

  /** The coordinates of one patch on the X, Y and Z axes. */
  datatype Patch = Patch(x: Span, y: Span, z: Span)

  function PatchAt(X: AxisPlan, Y: AxisPlan, Z: AxisPlan, i: int, j: int, k: int): Patch
  {
    Patch(AxisSpan(X, i), AxisSpan(Y, j), AxisSpan(Z, k))
  }

  /** The patches of column (i, j), slices 0 .. count - 1. */
  function ZRun(X: AxisPlan, Y: AxisPlan, Z: AxisPlan, i: int, j: int, count: int): (r: seq<Patch>)
    ensures |r| == if count < 0 then 0 else count
    decreases count
  {
    if count <= 0 then [] else ZRun(X, Y, Z, i, j, count - 1) + [PatchAt(X, Y, Z, i, j, count - 1)]
  }

  /** The patches of row i, columns 0 .. count - 1, each with all its slices. */
  function YRun(X: AxisPlan, Y: AxisPlan, Z: AxisPlan, i: int, count: int): seq<Patch>
    decreases count
  {
    if count <= 0 then [] else YRun(X, Y, Z, i, count - 1) + ZRun(X, Y, Z, i, count - 1, Z.np)
  }

  /** The patches of rows 0 .. count - 1, in the order of call()'s loops (x outermost, z innermost). */
  function Tiles(X: AxisPlan, Y: AxisPlan, Z: AxisPlan, count: int): seq<Patch>
    decreases count
  {
    if count <= 0 then [] else Tiles(X, Y, Z, count - 1) + YRun(X, Y, Z, count - 1, Y.np)
  }

  function Count(np: int): nat
  {
    if np < 0 then 0 else np
  }

  lemma {:induction false} ZRunAt(X: AxisPlan, Y: AxisPlan, Z: AxisPlan, i: int, j: int, count: int, k: int)
    requires 0 <= k < count
    ensures ZRun(X, Y, Z, i, j, count)[k] == PatchAt(X, Y, Z, i, j, k)
    decreases count
  {
    if k < count - 1 {
      ZRunAt(X, Y, Z, i, j, count - 1, k);
    }
  }

  lemma {:induction false} YRunLength(X: AxisPlan, Y: AxisPlan, Z: AxisPlan, i: int, count: int)
    ensures |YRun(X, Y, Z, i, count)| == Count(count) * Count(Z.np)
    decreases count
  {
    if count > 0 {
      YRunLength(X, Y, Z, i, count - 1);
      assert Count(count) * Count(Z.np) == Count(count - 1) * Count(Z.np) + Count(Z.np);
    }
  }

  /** Slice k of column j is entry j * npz + k of row i. */
  lemma {:induction false} YRunAt(X: AxisPlan, Y: AxisPlan, Z: AxisPlan, i: int, count: int, j: int, k: int)
    requires 0 <= j < count && 0 <= k < Z.np
    ensures j * Z.np + k < |YRun(X, Y, Z, i, count)|
    ensures YRun(X, Y, Z, i, count)[j * Z.np + k] == PatchAt(X, Y, Z, i, j, k)
    decreases count
  {
    YRunLength(X, Y, Z, i, count - 1);
    var nz := Z.np;
    var prefix := YRun(X, Y, Z, i, count - 1);
    assert |prefix| == (count - 1) * nz;
    ZRunAt(X, Y, Z, i, count - 1, nz, k);
    if j < count - 1 {
      YRunAt(X, Y, Z, i, count - 1, j, k);
    } else {
      assert j * nz + k == |prefix| + k;
    }
  }

  /** One more row adds one more block. */
  lemma MulSucc(a: int, b: int)
    ensures (a + 1) * b == a * b + b
  {
  }

  /** call() visits Count(npx) * Count(npy) * Count(npz) patches. */
  lemma {:induction false} TilesLength(X: AxisPlan, Y: AxisPlan, Z: AxisPlan, count: int)
    ensures |Tiles(X, Y, Z, count)| == Count(count) * (Count(Y.np) * Count(Z.np))
    decreases count
  {
    if count > 0 {
      TilesLength(X, Y, Z, count - 1);
      YRunLength(X, Y, Z, count - 1, Y.np);
      MulSucc(count - 1, Count(Y.np) * Count(Z.np));
    }
  }

  /** Entry (i * npy + j) * npz + k of the tiles splits into row i and entry j * npz + k within it. */
  lemma IndexSplit(i: int, j: int, k: int, ny: int, nz: int)
    ensures (i * ny + j) * nz + k == i * (ny * nz) + (j * nz + k)
  {
  }

  /** Entry p of row r of the tiles sits at r * (npy * npz) + p. */
  lemma {:induction false} TilesRowAt(X: AxisPlan, Y: AxisPlan, Z: AxisPlan, count: int, r: int, p: int)
    requires 0 <= r < count && 0 <= p < Count(Y.np) * Count(Z.np)
    ensures r * (Count(Y.np) * Count(Z.np)) + p < |Tiles(X, Y, Z, count)| && p < |YRun(X, Y, Z, r, Y.np)|
    ensures Tiles(X, Y, Z, count)[r * (Count(Y.np) * Count(Z.np)) + p] == YRun(X, Y, Z, r, Y.np)[p]
    decreases count
  {
    var size := Count(Y.np) * Count(Z.np);
    var prefix, row := Tiles(X, Y, Z, count - 1), YRun(X, Y, Z, count - 1, Y.np);
    assert Tiles(X, Y, Z, count) == prefix + row;
    TilesLength(X, Y, Z, count - 1);
    YRunLength(X, Y, Z, count - 1, Y.np);
    MulSucc(r, size);
    if r < count - 1 {
      TilesRowAt(X, Y, Z, count - 1, r, p);
    } else {
      assert |prefix| == r * size;
    }
  }

  /** Patch (i, j, k) is the ((i * npy + j) * npz + k)-th one call() extracts. */
  lemma TilesAt(X: AxisPlan, Y: AxisPlan, Z: AxisPlan, count: int, i: int, j: int, k: int)
    requires 0 <= i < count && 0 <= j < Y.np && 0 <= k < Z.np
    ensures var index := (i * Y.np + j) * Z.np + k;
            0 <= index < |Tiles(X, Y, Z, count)| && Tiles(X, Y, Z, count)[index] == PatchAt(X, Y, Z, i, j, k)
  {
    assert 0 <= j * Z.np;
    assert 0 <= i * (Y.np * Z.np);
    YRunAt(X, Y, Z, i, Y.np, j, k);
    YRunLength(X, Y, Z, i, Y.np);
    TilesRowAt(X, Y, Z, count, i, j * Z.np + k);
    IndexSplit(i, j, k, Y.np, Z.np);
  }

  /** The progress counters call() keeps across the tiles of one run. */
  class TfRunner {
    var currentPatch: int
    var totalPatch: int

    constructor()
      ensures currentPatch == 0 && totalPatch == 0
    {
      currentPatch := 0;
      totalPatch := 0;
    }

    /**
     * The tiling part of call(): image sizes, patch sizes, the padding from
     * findTotalPadding and the leading pixels of the mirrored image, each
     * in X, Y, C, Z order. The result lists the coordinates of every patch
     * passed to extractPatch, in loop order. totalPatch counts the channel
     * tiles too, which the loops never visit, and is an int product.
     */
    method Tile(nx: nat, ny: nat, nc: nat, nz: nat, px: int, py: int, pc: int, pz: int,
                padding: seq<nat>, added: seq<int>, allowPatching: bool) returns (patches: seq<Patch>)
      requires |padding| == 4 && |added| == 4
      modifies this
      ensures var X := PlanAxis(nx, px, padding[0], added[0], allowPatching);
              var Y := PlanAxis(ny, py, padding[1], added[1], allowPatching);
              var Z := PlanAxis(nz, pz, padding[3], added[3], allowPatching);
              var npc := if allowPatching then TileCount(nc, pc - padding[2] * 2) else 1;
              patches == Tiles(X, Y, Z, X.np) &&
              totalPatch == JavaString.Int32(X.np * Y.np * Z.np * npc)
      ensures currentPatch == |patches|
    {
      var roiX := px - padding[0] * 2;
      var roiY := py - padding[1] * 2;
      var roiZ := pz - padding[3] * 2;
      var roiC := pc - padding[2] * 2;
      var npx := TileCount(nx, roiX);
      var npy := TileCount(ny, roiY);
      var npc := TileCount(nc, roiC);
      var npz := TileCount(nz, roiZ);
      if !allowPatching {
        npx, npy, npz, npc := 1, 1, 1, 1;
      }
      currentPatch := 0;
      totalPatch := JavaString.Int32(npx * npy * npz * npc);

      var pad: seq<int> := padding;
      var overlapX := added[0];
      if roiX > nx {
        roiX := nx;
        pad := pad[0 := (px - nx) / 2];
        overlapX := (px - nx) / 2;
      }
      var overlapY := added[1];
      if roiY > ny {
        roiY := ny;
        pad := pad[1 := (py - ny) / 2];
        overlapY := (py - ny) / 2;
      }
      var overlapZ := added[3];
      if roiZ > nz {
        roiZ := nz;
        pad := pad[3 := (pz - nz) / 2];
        overlapZ := (pz - nz) / 2;
      }
      var X := AxisPlan(nx, npx, roiX, pad[0], overlapX);
      var Y := AxisPlan(ny, npy, roiY, pad[1], overlapY);
      var Z := AxisPlan(nz, npz, roiZ, pad[3], overlapZ);
      patches := VisitTiles(X, Y, Z);
    }

    /** The three nested tile loops of call(): each visit counts one patch and extracts it at the tile's coordinates. */
    method VisitTiles(X: AxisPlan, Y: AxisPlan, Z: AxisPlan) returns (patches: seq<Patch>)
      requires currentPatch == 0
      modifies this
      ensures patches == Tiles(X, Y, Z, X.np)
      ensures currentPatch == |patches| && totalPatch == old(totalPatch)
    {
      patches := [];
      var i := 0;
      while i < X.np
        invariant 0 <= i <= Count(X.np)
        invariant patches == Tiles(X, Y, Z, i) && currentPatch == |patches|
        invariant totalPatch == old(totalPatch)
      {
        var row := VisitRow(X, Y, Z, i);
        patches := patches + row;
        i := i + 1;
      }
    }

    /** The loop over the tiles of row i. */
    method VisitRow(X: AxisPlan, Y: AxisPlan, Z: AxisPlan, i: int) returns (row: seq<Patch>)
      modifies this
      ensures row == YRun(X, Y, Z, i, Y.np)
      ensures currentPatch == old(currentPatch) + |row| && totalPatch == old(totalPatch)
    {
      row := [];
      var j := 0;
      while j < Y.np
        invariant 0 <= j <= Count(Y.np)
        invariant row == YRun(X, Y, Z, i, j)
        invariant currentPatch == old(currentPatch) + |row| && totalPatch == old(totalPatch)
      {
        var column := VisitColumn(X, Y, Z, i, j);
        row := row + column;
        j := j + 1;
      }
    }

    /** The innermost loop, over the slices of tile (i, j). */
    method VisitColumn(X: AxisPlan, Y: AxisPlan, Z: AxisPlan, i: int, j: int) returns (column: seq<Patch>)
      modifies this
      ensures column == ZRun(X, Y, Z, i, j, Z.np)
      ensures currentPatch == old(currentPatch) + |column| && totalPatch == old(totalPatch)
    {
      column := [];
      var z := 0;
      while z < Z.np
        invariant 0 <= z <= Count(Z.np)
        invariant column == ZRun(X, Y, Z, i, j, z)
        invariant currentPatch == old(currentPatch) + |column| && totalPatch == old(totalPatch)
      {
        currentPatch := currentPatch + 1;
        column := column + [Patch(AxisSpan(X, i), AxisSpan(Y, j), AxisSpan(Z, z))];
        z := z + 1;
      }
    }
  }

  /** opName: a TensorFlow tensor name without its ":0" output suffix. */
  function OpName(n: string): (r: string)
    ensures JavaString.EndsWith(n, ":0") ==> r + ":0" == n
    ensures !JavaString.EndsWith(n, ":0") ==> r == n
  {
    if JavaString.EndsWith(n, ":0") then
      var cut := JavaString.LastIndexOf(n, ":0");
      assert JavaString.OccursAt(n, ":0", |n| - 2);
      n[..cut]
    else n
  }

  /** Stripping undoes appending the suffix. */
  lemma OpNameOfOutput(name: string)
    ensures OpName(name + ":0") == name
  {
    assert JavaString.EndsWith(name + ":0", ":0");
  }

  /** The axis of column c of an offset row, in the order "XYCZ". */
  function OffsetLetter(c: nat): char
  {
    if c == 0 then 'X' else if c == 1 then 'Y' else if c == 2 then 'C' else 'Z'
  }

  predicate IsImage(t: DijTensor.Tensor)
  {
    JavaString.ToLower(t.tensorType) == "image"
  }

  /** One entry of findOutputOffset: the tensor's offset on that axis, 0 when the axis or the offsets are missing, None where Java throws. */
  function OffsetEntry(t: DijTensor.Tensor, c: nat): Option<int>
  {
    var ind := DijTensor.AxisIndex(t.form, OffsetLetter(c));
    if ind != -1 && t.offset.Some? then
      (if ind < |t.offset.value| then Some(t.offset.value[ind]) else None)
    else Some(0)
  }

  /** An axis the form lacks, or a tensor without offsets, gives 0; only an offset list too short for the form throws. */
  lemma OffsetEntryCases(t: DijTensor.Tensor, c: nat)
    ensures OffsetLetter(c) !in t.form || t.offset.None? ==> OffsetEntry(t, c) == Some(0)
    ensures OffsetEntry(t, c).None? <==> t.offset.Some? && DijTensor.AxisIndex(t.form, OffsetLetter(c)) >= |t.offset.value|
    ensures OffsetEntry(t, c).Some? && OffsetLetter(c) in t.form && t.offset.Some? ==>
              var ind := DijTensor.AxisIndex(t.form, OffsetLetter(c));
              t.form[ind] == OffsetLetter(c) && OffsetEntry(t, c).value == t.offset.value[ind]
  {
  }

  /** The [x, y, c, z] offset row of one image output. */
  function OffsetRow(t: DijTensor.Tensor): (r: Option<seq<int>>)
    ensures r.Some? <==> forall c :: 0 <= c < 4 ==> OffsetEntry(t, c).Some?
    ensures r.Some? ==> |r.value| == 4 && forall c :: 0 <= c < 4 ==> r.value[c] == OffsetEntry(t, c).value
  {
    if forall c :: 0 <= c < 4 ==> OffsetEntry(t, c).Some? then
      Some(seq(4, c requires 0 <= c < 4 => OffsetEntry(t, c).value))
    else None
  }

  /** The rows of the image outputs, in order; None when one of them throws. */
  function ImageRows(outputs: seq<DijTensor.Tensor>): (r: Option<seq<seq<int>>>)
    ensures r.Some? ==> |r.value| <= |outputs|
    ensures r.Some? ==> forall k :: 0 <= k < |r.value| ==> |r.value[k]| == 4
  {
    if outputs == [] then Some([])
    else
      var last := outputs[|outputs| - 1];
      match ImageRows(outputs[..|outputs| - 1])
      case None => None
      case Some(rows) =>
        if !IsImage(last) then Some(rows)
        else match OffsetRow(last)
          case None => None
          case Some(row) => Some(rows + [row])
  }

  /** A list with no image output has no rows, so findOutputOffset returns all zeros. */
  lemma {:induction false} NoImageNoRows(outputs: seq<DijTensor.Tensor>)
    requires forall k :: 0 <= k < |outputs| ==> !IsImage(outputs[k])
    ensures ImageRows(outputs) == Some([])
  {
    if outputs != [] {
      NoImageNoRows(outputs[..|outputs| - 1]);
    }
  }

  /** Each image output, and nothing else, contributes its own row, in order. */
  lemma {:induction false} ImageRowsAppend(outputs: seq<DijTensor.Tensor>, t: DijTensor.Tensor)
    requires ImageRows(outputs).Some? && IsImage(t) && OffsetRow(t).Some?
    ensures ImageRows(outputs + [t]) == Some(ImageRows(outputs).value + [OffsetRow(t).value])
  {
    assert (outputs + [t])[..|outputs|] == outputs;
  }

  /**
   * findOutputOffset: an |outputs| x 4 matrix whose first rows are the
   * offset rows of the image outputs in order; the remaining rows stay 0.
   * Java throws ArrayIndexOutOfBoundsException when an axis of the form has
   * no offset entry.
   */
  method FindOutputOffset(outputs: seq<DijTensor.Tensor>) returns (r: Result<array2<int>, Index.Failure>)
    ensures r.Err? <==> ImageRows(outputs).None?
    ensures r.Ok? ==> fresh(r.value) && r.value.Length0 == |outputs| && r.value.Length1 == 4
    ensures r.Ok? ==> var rows := ImageRows(outputs).value;
              forall k, c :: 0 <= k < |outputs| && 0 <= c < 4 ==>
                r.value[k, c] == if k < |rows| then rows[k][c] else 0
  {
    var offsets := new int[|outputs|, 4]((_, _) => 0);
    var c1 := 0;
    ghost var rows: seq<seq<int>> := [];
    var n := 0;
    while n < |outputs|
      invariant 0 <= n <= |outputs|
      invariant ImageRows(outputs[..n]) == Some(rows)
      invariant c1 == |rows| && c1 <= n
      invariant forall k, c :: 0 <= k < |outputs| && 0 <= c < 4 ==>
                  offsets[k, c] == if k < c1 then rows[k][c] else 0
    {
      var out := outputs[n];
      assert outputs[..n + 1][..n] == outputs[..n];
      assert outputs[..n + 1] == outputs[..n] + [out];
      if !IsImage(out) {
        n := n + 1;
        continue;
      }
      var ok := FillRow(offsets, c1, out);
      if !ok {
        PrefixFails(outputs, n + 1);
        return Err(Index.ArrayIndexOutOfBounds);
      }
      rows := rows + [OffsetRow(out).value];
      c1 := c1 + 1;
      n := n + 1;
    }
    assert outputs[..n] == outputs;
    return Ok(offsets);
  }

  /** Once a prefix throws, the whole list does. */
  lemma {:induction false} PrefixFails(outputs: seq<DijTensor.Tensor>, n: nat)
    requires n <= |outputs| && ImageRows(outputs[..n]).None?
    ensures ImageRows(outputs).None?
    decreases |outputs| - n
  {
    if n < |outputs| {
      assert outputs[..n + 1][..n] == outputs[..n];
      PrefixFails(outputs, n + 1);
    } else {
      assert outputs[..n] == outputs;
    }
  }

  /** The inner loop of findOutputOffset: row `row` takes the tensor's offsets, column by column. */
  method FillRow(offsets: array2<int>, row: nat, t: DijTensor.Tensor) returns (ok: bool)
    requires row < offsets.Length0 && offsets.Length1 == 4
    requires forall c :: 0 <= c < 4 ==> offsets[row, c] == 0
    modifies offsets
    ensures ok <==> OffsetRow(t).Some?
    ensures ok ==> forall c :: 0 <= c < 4 ==> offsets[row, c] == OffsetRow(t).value[c]
    ensures forall k, c :: 0 <= k < offsets.Length0 && k != row && 0 <= c < 4 ==> offsets[k, c] == old(offsets[k, c])
  {
    var c2 := 0;
    ghost var written: seq<int> := [];
    while c2 < 4
      invariant 0 <= c2 <= 4 && |written| == c2
      invariant forall c :: 0 <= c < c2 ==> OffsetEntry(t, c) == Some(written[c])
      invariant forall c :: 0 <= c < c2 ==> offsets[row, c] == written[c]
      invariant forall c :: c2 <= c < 4 ==> offsets[row, c] == 0
      invariant forall k, c :: 0 <= k < offsets.Length0 && k != row && 0 <= c < 4 ==> offsets[k, c] == old(offsets[k, c])
    {
      var ind := DijTensor.AxisIndex(t.form, OffsetLetter(c2));
      if ind != -1 && t.offset.Some? {
        if ind >= |t.offset.value| {
          assert OffsetEntry(t, c2).None?;
          return false;
        }
        offsets[row, c2] := t.offset.value[ind];
      }
      assert OffsetEntry(t, c2) == Some(offsets[row, c2]);
      written := written + [offsets[row, c2]];
      c2 := c2 + 1;
    }
    return true;
  }

  /** The outcome of the input-channel check at the start of call(). */
  datatype ChannelVerdict = Accepted | Rejected(message: string) | OutOfBounds | DivisionByZero

  function ChannelMessage(required: int, given: int): (msg: string)
    ensures |msg| > 0
  {
    "The number of channels of the input image is incorrect.\n"
      + "The models requires " + JavaString.IntToString(required) + "channels "
      + "but the input image provided has " + JavaString.IntToString(given)
  }

  /**
   * call()'s channel check: the image must have exactly the channels the
   * input's tensor shape names at its C axis, unless that entry is -1.
   * A form without C, or a shape too short for it, throws.
   */
  function ExactChannels(channels: nat, form: string, tensorShape: seq<int>): (r: ChannelVerdict)
    ensures r.OutOfBounds? <==> 'C' !in form || DijTensor.AxisIndex(form, 'C') >= |tensorShape|
    ensures r.Accepted? <==>
              'C' in form && DijTensor.AxisIndex(form, 'C') < |tensorShape| &&
              (tensorShape[DijTensor.AxisIndex(form, 'C')] == channels || tensorShape[DijTensor.AxisIndex(form, 'C')] == -1)
    ensures !r.DivisionByZero?
  {
    var channelPos := DijTensor.AxisIndex(form, 'C');
    if channelPos == -1 || channelPos >= |tensorShape| then OutOfBounds
    else if channels != tensorShape[channelPos] && tensorShape[channelPos] != -1 then
      Rejected(ChannelMessage(tensorShape[channelPos], channels))
    else Accepted
  }
}
