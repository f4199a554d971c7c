/**
 * deepimagej.tools.ArrayOperations of the older source tree
 * (src/deepimagej/tools): patch sizes, overlaps and the first extractPatch.
 * Its findAddedPixels is the same computation as the current one and is
 * modelled by ArrayOperations.FindAddedPixels.
 */
module LegacyToolsArrayOperations {
  import opened Wrappers
  import JavaString
  import ArrayOperations
  import IntArith

  /** The size findPatchSize aims for. */
  const EstimatedSize: int := 200

  /** (200 / m + 1) * m is the first multiple of m above 200. */
  lemma FirstMultipleAbove(m: int)
    requires 0 < m <= EstimatedSize
    ensures var size := (EstimatedSize / m + 1) * m;
            EstimatedSize < size <= EstimatedSize + m && size % m == 0
  {
    var q, rem := EstimatedSize / m, EstimatedSize % m;
    assert (q + 1) * m == q * m + m;
    IntArith.DivModUnique((q + 1) * m, m, q + 1, 0);
  }

  /**
   * findPatchSize: the minimum multiple itself when it exceeds 200 or the
   * size is fixed, otherwise the first multiple of it above 200. None where
   * Java divides by a zero multiple.
   */
  function FindPatchSize(minPatchMultiple: int, fixedPatchSize: bool): (r: Option<int>)
    ensures r.None? <==> minPatchMultiple == 0 && !fixedPatchSize
    ensures (minPatchMultiple > EstimatedSize || fixedPatchSize) ==> r == Some(minPatchMultiple)
    ensures minPatchMultiple > 0 ==> r.Some? && r.value > 0 && r.value % minPatchMultiple == 0
    ensures 0 < minPatchMultiple <= EstimatedSize && !fixedPatchSize ==>
              r.Some? && EstimatedSize < r.value <= EstimatedSize + minPatchMultiple
  {
    if minPatchMultiple > EstimatedSize || fixedPatchSize then
      assert minPatchMultiple > 0 ==> minPatchMultiple % minPatchMultiple == 0 by {
        if minPatchMultiple > 0 { IntArith.DivModUnique(minPatchMultiple, minPatchMultiple, 1, 0); }
      }
      Some(minPatchMultiple)
    else if minPatchMultiple == 0 then None
    else
      var nPatches := JavaString.JavaDiv(EstimatedSize, minPatchMultiple);
      assert minPatchMultiple > 0 ==> nPatches == EstimatedSize / minPatchMultiple;
      assert minPatchMultiple > 0 ==> var size := (nPatches + 1) * minPatchMultiple;
               EstimatedSize < size <= EstimatedSize + minPatchMultiple && size % minPatchMultiple == 0 by {
        if minPatchMultiple > 0 { FirstMultipleAbove(minPatchMultiple); }
      }
      Some((nPatches + 1) * minPatchMultiple)
  }

  /** patchOverlapVerification: [patch size, a quarter of it rounded toward zero]. */
  function PatchOverlapVerification(minMult: int, fixed: bool): (r: Option<seq<int>>)
    ensures r.Some? <==> FindPatchSize(minMult, fixed).Some?
    ensures r.Some? ==> |r.value| == 2 && r.value[0] == FindPatchSize(minMult, fixed).value
    ensures r.Some? && r.value[0] >= 0 ==> 0 <= r.value[0] - 4 * r.value[1] < 4
  {
    match FindPatchSize(minMult, fixed)
    case None => None
    case Some(totalPatch) => Some([totalPatch, JavaString.JavaDiv(totalPatch, 4)])
  }

  /** findStartOfRoi: where the image starts inside a region grown to totalRoi, half the growth rounded up. */
  function FindStartOfRoi(nx: int, totalRoiX: int, ny: int, totalRoiY: int): (start: seq<int>)
    ensures |start| == 2
    ensures 2 * start[0] - (totalRoiX - nx) in {0, 1}
    ensures 2 * start[1] - (totalRoiY - ny) in {0, 1}
  {
    [ArrayOperations.CeilHalf(totalRoiX - nx), ArrayOperations.CeilHalf(totalRoiY - ny)]
  }

  /** (int) Math.ceil((double) a / b) for a positive b. */
  function CeilDiv(a: int, b: int): (q: int)
    requires b > 0
    ensures (q - 1) * b < a <= q * b
  {
    -((-a) / b)
  }

  function Sum(s: seq<int>): int
  {
    if s == [] then 0 else Sum(s[..|s| - 1]) + s[|s| - 1]
  }

  lemma SumAppend(s: seq<int>, x: int)
    ensures Sum(s + [x]) == Sum(s) + x
  {
    assert (s + [x])[..|s|] == s;
  }

  /**
   * The loop of findOverlapRoi: spreads `excess` over entries 1 .. n-1,
   * each taking `share` and the last what remains.
   */
  method SpreadExcess(overlap: array<int>, n: int, excess: int, share: int)
    requires 2 <= n && overlap.Length == n + 1
    requires forall i :: 0 <= i < overlap.Length ==> overlap[i] == 0
    modifies overlap
    ensures overlap[0] == 0 && overlap[n] == 0
    ensures Sum(overlap[1..n]) == excess
    ensures forall i :: 1 <= i < n - 1 ==> overlap[i] == share
  {
    var extraPixels := excess;
    var i := 1;
    while i < n
      invariant 1 <= i <= n
      invariant Sum(overlap[1..i]) + (if i < n then extraPixels else 0) == excess
      invariant overlap[0] == 0 && overlap[n] == 0
      invariant forall j :: 1 <= j < i && j < n - 1 ==> overlap[j] == share
    {
      ghost var before := overlap[1..i];
      if i != n - 1 {
        overlap[i] := share;
        extraPixels := extraPixels - share;
      } else {
        overlap[i] := extraPixels;
      }
      assert overlap[1..i + 1] == before + [overlap[i]];
      SumAppend(before, overlap[i]);
      i := i + 1;
    }
  }

  /**
   * findOverlapRoi: nPatch + 1 overlaps between consecutive rois. None where
   * Java's array size is negative. When the rois cover more than the image,
   * the excess roi * nPatch - size is spread over entries 1 .. nPatch-1:
   * each takes ceil(excess / (nPatch - 1)) and the last what remains.
   */
  method FindOverlapRoi(size: int, regionOfInterest: int, nPatch: int) returns (r: Option<array<int>>)
    ensures r.None? <==> nPatch + 1 < 0
    ensures r.Some? ==> fresh(r.value) && r.value.Length == nPatch + 1
    ensures r.Some? && (size <= regionOfInterest || nPatch < 2) ==> forall i :: 0 <= i < r.value.Length ==> r.value[i] == 0
    ensures r.Some? && size > regionOfInterest && nPatch >= 2 ==>
              var o := r.value;
              o[0] == 0 && o[nPatch] == 0 &&
              Sum(o[1..nPatch]) == regionOfInterest * nPatch - size &&
              forall i :: 1 <= i < nPatch - 1 ==> o[i] == CeilDiv(regionOfInterest * nPatch - size, nPatch - 1)
  {
    if nPatch + 1 < 0 {
      return None;
    }
    var overlap := new int[nPatch + 1](_ => 0);
    if size > regionOfInterest && nPatch >= 2 {
      var extraPixels := regionOfInterest * nPatch - size;
      SpreadExcess(overlap, nPatch, extraPixels, CeilDiv(extraPixels, nPatch - 1));
    }
    // with a single patch Java divides by zero in floating point and the loop does not run
    r := Some(overlap);
  }

  /**
   * The patch the first extractPatch builds: a size x size image whose last
   * column and last row keep createImage's zeros, every other pixel read
   * from the window at (x0, y0).
   */
  ghost predicate IsWindowShortByOne(image: array3<real>, patch: array3<real>, size: nat, x0: int, y0: int,
                                     channels: nat, outside: real)
    reads image, patch
  {
    image.Length0 >= 1 &&
    patch.Length0 == channels && patch.Length1 == size && patch.Length2 == size &&
    forall c, i, j :: 0 <= c < channels && 0 <= i < size && 0 <= j < size ==>
      patch[c, i, j] ==
        if i < size - 1 && j < size - 1
        then ArrayOperations.PixelAt(image, if c < image.Length0 then c else image.Length0 - 1, x0 + i, y0 + j, outside)
        else 0.0
  }

  /**
   * extractPatch as written: it creates a (roi + 2 overlap)-square patch but
   * both loops stop at xStart + roi + overlap - 1, one pixel short.
   */
  method ExtractPatchAsWritten(image: array3<real>, xStart: int, yStart: int, roi: nat, overlap: nat,
                               channels: nat, outside: real)
    returns (patch: array3<real>)
    requires image.Length0 >= 1
    ensures fresh(patch)
    ensures IsWindowShortByOne(image, patch, roi + 2 * overlap, xStart - overlap, yStart - overlap, channels, outside)
  {
    var size := roi + 2 * overlap;
    patch := new real[channels, size, size]((c, i, j) => 0.0);
    var c := 0;
    while c < channels
      invariant 0 <= c <= channels
      invariant forall c', i, j :: 0 <= c' < channels && 0 <= i < size && 0 <= j < size ==>
                  patch[c', i, j] ==
                    if c' < c && i < size - 1 && j < size - 1
                    then ArrayOperations.PixelAt(image, if c' < image.Length0 then c' else image.Length0 - 1,
                                                 xStart - overlap + i, yStart - overlap + j, outside)
                    else 0.0
    {
      var plane := if c < image.Length0 then c else image.Length0 - 1;
      var xi := -1;
      var x := xStart - overlap;
      while x < xStart + roi + overlap - 1
        invariant xStart - overlap <= x && (size >= 1 ==> x <= xStart + roi + overlap - 1)
        invariant xi == x - (xStart - overlap) - 1
        invariant forall c', i, j :: 0 <= c' < channels && 0 <= i < size && 0 <= j < size ==>
                    patch[c', i, j] ==
                      if (c' < c || (c' == c && i <= xi)) && i < size - 1 && j < size - 1
                      then ArrayOperations.PixelAt(image, if c' < image.Length0 then c' else image.Length0 - 1,
                                                   xStart - overlap + i, yStart - overlap + j, outside)
                      else 0.0
      {
        xi := xi + 1;
        var yi := -1;
        var y := yStart - overlap;
        while y < yStart + roi + overlap - 1
          invariant yStart - overlap <= y <= yStart + roi + overlap - 1
          invariant yi == y - (yStart - overlap) - 1
          invariant forall c', i, j :: 0 <= c' < channels && 0 <= i < size && 0 <= j < size ==>
                      patch[c', i, j] ==
                        if (c' < c || (c' == c && (i < xi || (i == xi && j <= yi)))) && i < size - 1 && j < size - 1
                        then ArrayOperations.PixelAt(image, if c' < image.Length0 then c' else image.Length0 - 1,
                                                     xStart - overlap + i, yStart - overlap + j, outside)
                        else 0.0
        {
          yi := yi + 1;
          patch[c, xi, yi] := ArrayOperations.PixelAt(image, plane, x, y, outside);
          y := y + 1;
        }
        x := x + 1;
      }
      c := c + 1;
    }
  }

  /**
   * Whenever the image has a non-zero pixel in the last column of the
   * window, the patch as written differs from the window the current
   * ArrayOperations.ExtractPatch copies.
   */
  lemma ShortPatchLosesLastColumn(image: array3<real>, patch: array3<real>, size: nat, x0: int, y0: int,
                                  channels: nat, outside: real)
    requires IsWindowShortByOne(image, patch, size, x0, y0, channels, outside)
    requires channels >= 1 && size >= 1
    requires ArrayOperations.PixelAt(image, 0, x0 + size - 1, y0, outside) != 0.0
    ensures !ArrayOperations.IsWindowOf(image, patch, size, x0, y0, channels, outside)
  {
    assert patch[0, size - 1, 0] == 0.0;
  }
}
