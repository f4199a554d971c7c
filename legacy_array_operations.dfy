/**
 * deepimagej.ArrayOperations of the older source tree (src/deepimagej):
 * the padding size of the first runner and its mirror padding of a
 * double[][] image, which, unlike CompactMirroring, repeats the edge pixel
 * (for n = 4 the padded row reads ... 1 0 | 0 1 2 3 | 3 2 ...).
 * Its findPatchSize is the same function as the one in
 * src/deepimagej/tools/ArrayOperations.java, modelled by
 * LegacyToolsArrayOperations.FindPatchSize.
 */
module LegacyArrayOperations {
  import opened Wrappers
  import JavaString

  /**
   * paddingSize: the pixels to add on each side so that the image plus the
   * padding is a whole number of patch centres (patch - 2 overlap), plus one
   * overlap; when that exceeds either side of the image it falls back to
   * x_size. None where Java divides by a zero patch centre.
   */
  function PaddingSize(xSize: int, ySize: int, patchSize: int, overlap: int): (pad: Option<int>)
    ensures pad.None? <==> patchSize - 2 * overlap == 0
    ensures pad.Some? ==> pad.value <= xSize
    ensures pad.Some? && xSize >= 0 && ySize >= 0 && patchSize - 2 * overlap > 0 ==>
              var rel := patchSize - 2 * overlap;
              var rem := if xSize % rel <= ySize % rel then xSize % rel else ySize % rel;
              pad.value == (if rel - rem + overlap > xSize || rel - rem + overlap > ySize then xSize else rel - rem + overlap)
  {
    var relevantPatch := patchSize - overlap * 2;
    if relevantPatch == 0 then None
    else
      var xRemaining := JavaString.JavaRem(xSize, relevantPatch);
      var yRemaining := JavaString.JavaRem(ySize, relevantPatch);
      var pad := if xRemaining > yRemaining then yRemaining else xRemaining;
      var pad' := relevantPatch - pad + overlap;
      Some(if pad' > xSize || pad' > ySize then xSize else pad')
  }

  /** The source index for padded index i along an axis of length n: a reflection that repeats the edge. */
  function EdgeReflect(i: int, n: nat): (r: int)
    ensures -(n as int) <= i < 2 * n ==> 0 <= r < n
  {
    if i < 0 then -1 - i else if i >= n then 2 * n - 1 - i else i
  }

  /** padded is image grown by p on every side, each pixel read at its edge-repeating reflection. */
  ghost predicate IsEdgeMirrorOf(image: array2<real>, padded: array2<real>, p: nat)
    reads image, padded
  {
    p <= image.Length0 && p <= image.Length1 &&
    padded.Length0 == image.Length0 + 2 * p && padded.Length1 == image.Length1 + 2 * p &&
    forall x, y :: 0 <= x < padded.Length0 && 0 <= y < padded.Length1 ==>
      padded[x, y] == image[EdgeReflect(x - p, image.Length0), EdgeReflect(y - p, image.Length1)]
  }

  /**
   * mirrorXY(double[][], padding): a (nx + 2p) x (ny + 2p) image, each pixel
   * the source pixel at the edge-repeating reflection of its position. None
   * where Java throws: an image with no rows (image[0]), or a padding larger
   * than a side (the first corner pixel reads image[p-1][p-1]).
   */
  method MirrorXY(image: array2<real>, p: nat) returns (r: Option<array2<real>>)
    ensures r.None? <==> image.Length0 == 0 || p > image.Length0 || p > image.Length1
    ensures r.Some? ==> fresh(r.value)
    ensures r.Some? ==> IsEdgeMirrorOf(image, r.value, p)
  {
    var nx, ny := image.Length0, image.Length1;
    if nx == 0 || p > nx || p > ny {
      return None;
    }
    var xSize, ySize := nx + 2 * p, ny + 2 * p;
    var padded := new real[xSize, ySize];
    for x := 0 to xSize
      invariant forall i, j :: 0 <= i < x && 0 <= j < ySize ==>
                  padded[i, j] == image[EdgeReflect(i - p, nx), EdgeReflect(j - p, ny)]
    {
      for y := 0 to ySize
        invariant forall i, j :: 0 <= i < x && 0 <= j < ySize ==>
                    padded[i, j] == image[EdgeReflect(i - p, nx), EdgeReflect(j - p, ny)]
        invariant forall j :: 0 <= j < y ==> padded[x, j] == image[EdgeReflect(x - p, nx), EdgeReflect(j - p, ny)]
      {
        padded[x, y] := MirrorPixel(image, p, x, y);
      }
    }
    r := Some(padded);
  }

  /**
   * One pixel of mirrorXY: the corners, the four bands and the centre each
   * read the source pixel at the edge-repeating reflection of (x, y).
   */
  method MirrorPixel(image: array2<real>, p: nat, x: nat, y: nat) returns (v: real)
    requires 0 < image.Length0 && p <= image.Length0 && p <= image.Length1
    requires x < image.Length0 + 2 * p && y < image.Length1 + 2 * p
    ensures v == image[EdgeReflect(x - p, image.Length0), EdgeReflect(y - p, image.Length1)]
  {
    var xSize, ySize := image.Length0 + 2 * p, image.Length1 + 2 * p;
    if x < p && y < p {
      v := image[p - 1 - x, p - 1 - y];
    } else if x >= xSize - p && y >= ySize - p {
      v := image[2 * xSize - 3 * p - 1 - x, 2 * ySize - 3 * p - 1 - y];
    } else if x < p && y >= ySize - p {
      v := image[p - x - 1, 2 * ySize - 3 * p - 1 - y];
    } else if x >= xSize - p && y < p {
      v := image[2 * xSize - 3 * p - 1 - x, p - 1 - y];
    } else if x < p {
      v := image[p - x - 1, y - p];
    } else if y < p {
      v := image[x - p, p - 1 - y];
    } else if y >= ySize - p {
      v := image[x - p, 2 * ySize - 3 * p - 1 - y];
    } else if x >= xSize - p {
      v := image[2 * xSize - 3 * p - 1 - x, y - p];
    } else {
      v := image[x - p, y - p];
    }
  }

  /** The bands reflect including the edge pixel: padded x and p-1-x read the same column, as do nx+p and nx+p-1. */
  lemma EdgeRepeated(n: nat, p: nat, k: nat)
    requires 1 <= p <= n && k < p
    ensures EdgeReflect(k - p, n) == p - 1 - k
    ensures EdgeReflect(-1 - k, n) == EdgeReflect(k, n)
    ensures EdgeReflect(n, n) == EdgeReflect(n - 1, n) == n - 1
  {
  }
}
