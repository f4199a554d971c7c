/**
 * deepimagej.tools.ArrayOperations: the tiling helpers of the current runner.
 * An ImagePlus is an array3 indexed [plane, x, y]; ImageJ's pixel access is
 * modelled as FloatProcessor does it: reading outside the plane yields a
 * fixed value (NaN in ImageJ, the parameter `outside` here) and writing
 * outside the plane is ignored.
 * The class's two indexOf methods are copies of deepimagej.tools.Index and
 * are modelled there.
 */
module ArrayOperations {

  /** ImageProcessor.getPixelValue on plane p. */
  function PixelAt(img: array3<real>, p: int, x: int, y: int, outside: real): real
    reads img
  {
    if 0 <= p < img.Length0 && 0 <= x < img.Length1 && 0 <= y < img.Length2 then img[p, x, y] else outside
  }

  /**
   * patch is the size x size window of `image` whose corner is (x0, y0), for
   * each of `channels` planes (a channel past the image's last reads the last,
   * as setPositionWithoutUpdate clamps it).
   */
  ghost predicate IsWindowOf(image: array3<real>, patch: array3<real>, size: nat, x0: int, y0: int,
                             channels: nat, outside: real)
    reads image, patch
  {
    image.Length0 >= 1 &&
    patch.Length0 == channels && patch.Length1 == size && patch.Length2 == size &&
    forall c, i, j :: 0 <= c < channels && 0 <= i < size && 0 <= j < size ==>
      patch[c, i, j] == PixelAt(image, if c < image.Length0 then c else image.Length0 - 1, x0 + i, y0 + j, outside)
  }

  /**
   * extractPatch: a new sPatch x sPatch image with `channels` planes whose
   * pixel (i, j) is the image pixel (xStart - overlapX + i, yStart - overlapY + j).
   * setPositionWithoutUpdate clamps a channel past the last one to the last one.
   */
  method ExtractPatch(image: array3<real>, sPatch: nat, xStart: int, yStart: int,
                      overlapX: int, overlapY: int, channels: nat, outside: real)
    returns (patch: array3<real>)
    requires image.Length0 >= 1
    ensures fresh(patch)
    ensures IsWindowOf(image, patch, sPatch, xStart - overlapX, yStart - overlapY, channels, outside)
  {
    patch := new real[channels, sPatch, sPatch];
    var c := 0;
    while c < channels
      invariant 0 <= c <= channels
      invariant forall c', i, j :: 0 <= c' < c && 0 <= i < sPatch && 0 <= j < sPatch ==>
                  patch[c', i, j] == PixelAt(image, if c' < image.Length0 then c' else image.Length0 - 1,
                                             xStart - overlapX + i, yStart - overlapY + j, outside)
    {
      var plane := if c < image.Length0 then c else image.Length0 - 1;
      var xi := -1;
      var x := xStart - overlapX;
      while x < xStart - overlapX + sPatch
        invariant xStart - overlapX <= x <= xStart - overlapX + sPatch
        invariant xi == x - (xStart - overlapX) - 1
        invariant forall c', i, j :: 0 <= c' < c && 0 <= i < sPatch && 0 <= j < sPatch ==>
                    patch[c', i, j] == PixelAt(image, if c' < image.Length0 then c' else image.Length0 - 1,
                                               xStart - overlapX + i, yStart - overlapY + j, outside)
        invariant forall i, j :: 0 <= i <= xi && 0 <= j < sPatch ==>
                    patch[c, i, j] == PixelAt(image, plane, xStart - overlapX + i, yStart - overlapY + j, outside)
      {
        xi := xi + 1;
        var yi := -1;
        var y := yStart - overlapY;
        while y < yStart - overlapY + sPatch
          invariant yStart - overlapY <= y <= yStart - overlapY + sPatch
          invariant yi == y - (yStart - overlapY) - 1
          invariant forall c', i, j :: 0 <= c' < c && 0 <= i < sPatch && 0 <= j < sPatch ==>
                      patch[c', i, j] == PixelAt(image, if c' < image.Length0 then c' else image.Length0 - 1,
                                                 xStart - overlapX + i, yStart - overlapY + j, outside)
          invariant forall i, j :: 0 <= i < xi && 0 <= j < sPatch ==>
                      patch[c, i, j] == PixelAt(image, plane, xStart - overlapX + i, yStart - overlapY + j, outside)
          invariant forall j :: 0 <= j <= yi ==>
                      patch[c, xi, j] == PixelAt(image, plane, x, yStart - overlapY + j, outside)
        {
          yi := yi + 1;
          patch[c, xi, yi] := PixelAt(image, plane, x, y, outside);
          y := y + 1;
        }
        x := x + 1;
      }
      c := c + 1;
    }
  }

  /**
   * imagePlusReconstructor: copies the valid centre of a processed patch
   * into the rectangle [xStart, xEnd) x [yStart, yEnd) of the full image,
   * reading the patch from (leftoverX, leftoverY) on. Every other pixel of
   * the image keeps its value. The patch planes are matched to the image's
   * first planes, as they are when both have the same channel count.
   */
  method ImagePlusReconstructor(fImage: array3<real>, patch: array3<real>,
                                xStart: int, xEnd: int, yStart: int, yEnd: int,
                                leftoverX: int, leftoverY: int, outside: real)
    requires fImage != patch
    requires patch.Length0 <= fImage.Length0
    modifies fImage
    ensures forall p, x, y :: 0 <= p < fImage.Length0 && 0 <= x < fImage.Length1 && 0 <= y < fImage.Length2 ==>
              fImage[p, x, y] ==
                if p < patch.Length0 && xStart <= x < xEnd && yStart <= y < yEnd
                then PixelAt(patch, p, x - xStart + leftoverX, y - yStart + leftoverY, outside)
                else old(fImage[p, x, y])
  {
    var roiX, roiY := xEnd - xStart, yEnd - yStart;
    var p := 0;
    while p < patch.Length0
      invariant 0 <= p <= patch.Length0
      invariant forall q, x, y :: 0 <= q < fImage.Length0 && 0 <= x < fImage.Length1 && 0 <= y < fImage.Length2 ==>
                  fImage[q, x, y] ==
                    if q < p && xStart <= x < xEnd && yStart <= y < yEnd
                    then PixelAt(patch, q, x - xStart + leftoverX, y - yStart + leftoverY, outside)
                    else old(fImage[q, x, y])
    {
      var xImage := xStart - 1;
      var xMirror := leftoverX;
      while xMirror < leftoverX + roiX
        invariant xImage == xStart - 1 + (xMirror - leftoverX)
        invariant roiX > 0 ==> leftoverX <= xMirror <= leftoverX + roiX
        invariant roiX <= 0 ==> xMirror == leftoverX
        invariant forall q, x, y :: 0 <= q < fImage.Length0 && 0 <= x < fImage.Length1 && 0 <= y < fImage.Length2 ==>
                    fImage[q, x, y] ==
                      if (q < p || (q == p && x <= xImage)) && xStart <= x < xEnd && yStart <= y < yEnd
                      then PixelAt(patch, q, x - xStart + leftoverX, y - yStart + leftoverY, outside)
                      else old(fImage[q, x, y])
      {
        xImage := xImage + 1;
        var yImage := yStart - 1;
        var yMirror := leftoverY;
        while yMirror < leftoverY + roiY
          invariant yImage == yStart - 1 + (yMirror - leftoverY)
          invariant roiY > 0 ==> leftoverY <= yMirror <= leftoverY + roiY
          invariant roiY <= 0 ==> yMirror == leftoverY
          invariant forall q, x, y :: 0 <= q < fImage.Length0 && 0 <= x < fImage.Length1 && 0 <= y < fImage.Length2 ==>
                      fImage[q, x, y] ==
                        if (q < p || (q == p && (x < xImage || (x == xImage && y <= yImage)))) && xStart <= x < xEnd && yStart <= y < yEnd
                        then PixelAt(patch, q, x - xStart + leftoverX, y - yStart + leftoverY, outside)
                        else old(fImage[q, x, y])
        {
          yImage := yImage + 1;
          var v := PixelAt(patch, p, xMirror, yMirror, outside);
          if 0 <= xImage < fImage.Length1 && 0 <= yImage < fImage.Length2 {
            fImage[p, xImage, yImage] := v;
          }
          yMirror := yMirror + 1;
        }
        xMirror := xMirror + 1;
      }
      p := p + 1;
    }
  }

  /** Pixels to add along one axis: enough to reach the roi, plus the overlap on both sides. */
  function NeededPixels(size: int, overlap: int, roiSize: int): (needed: int)
    ensures needed >= 2 * overlap
    ensures size + needed - 2 * overlap >= roiSize
    ensures roiSize > size ==> size + needed - 2 * overlap == roiSize
    ensures roiSize <= size ==> needed == 2 * overlap
  {
    if roiSize > size then roiSize - size + 2 * overlap else 2 * overlap
  }

  /** (int) Math.ceil((double) n / 2), which Euclidean division by 2 gives directly. */
  function CeilHalf(n: int): (h: int)
    ensures 2 * h == n || 2 * h == n + 1
  {
    (n + 1) / 2
  }

  /**
   * findAddedPixels: [xLeft, xRight, yTop, yBottom]. Each axis splits the
   * needed pixels into two sides, the left (top) side taking the odd pixel.
   */
  function FindAddedPixels(xSize: int, ySize: int, overlap: int, roiSize: int): (r: seq<int>)
    ensures |r| == 4
    ensures r[0] + r[1] == NeededPixels(xSize, overlap, roiSize) && 0 <= r[0] - r[1] <= 1
    ensures r[2] + r[3] == NeededPixels(ySize, overlap, roiSize) && 0 <= r[2] - r[3] <= 1
    ensures overlap >= 0 ==> r[0] >= 0 && r[1] >= 0 && r[2] >= 0 && r[3] >= 0
  {
    var neededX := NeededPixels(xSize, overlap, roiSize);
    var neededY := NeededPixels(ySize, overlap, roiSize);
    var xLeft := CeilHalf(neededX);
    var yTop := CeilHalf(neededY);
    [xLeft, neededX - xLeft, yTop, neededY - yTop]
  }
}
