/**
 * deepimagej.tools.CompactMirroring: pads an image by mirror reflection
 * without repeating the edge pixel (for n = 4 the padded row reads
 * ... 2 1 | 0 1 2 3 | 2 1 ...).
 * A plane is an array2 indexed [x, y]; a stack is the sequence of planes of
 * one channel and one frame, which the source treats identically for every
 * channel and frame.
 */
module CompactMirroring {
  import IntArith

  /** The reflected index, in closed form: reduce modulo the period 2n - 2, then fold the upper half back. */
  function MirrorRef(a: int, n: int): (r: int)
    requires n >= 2 || 0 <= a < n
    ensures 0 <= r < n
    ensures 0 <= a < n ==> r == a
  {
    if n < 2 then a
    else
      var p := 2 * n - 2;
      var m := a % p;
      assert 0 <= a < n ==> m == a by {
        if 0 <= a < n { IntArith.DivModUnique(a, p, 0, a); }
      }
      if m < n then m else p - m
  }

  /** Reflecting twice about the period and about 0 does not change the reflected index. */
  lemma MirrorRefShift(a: int, n: int)
    requires n >= 2
    ensures MirrorRef(a + (2 * n - 2), n) == MirrorRef(a, n)
    ensures MirrorRef((2 * n - 2) - a, n) == MirrorRef(a, n)
  {
    var p := 2 * n - 2;
    var q, m := a / p, a % p;
    assert a + p == (q + 1) * p + m;
    IntArith.DivModUnique(a + p, p, q + 1, m);
    if m == 0 {
      assert p - a == (1 - q) * p + 0;
      IntArith.DivModUnique(p - a, p, 1 - q, 0);
    } else {
      assert p - a == (-q) * p + (p - m);
      IntArith.DivModUnique(p - a, p, -q, p - m);
    }
  }

  /**
   * mirror(a, n, period): first lifts a negative index by whole periods,
   * then folds it back below n. The loops stop only when n >= 2 or when a
   * is already in range (for n = 1 the period is 0 and a negative a loops forever).
   */
  method Mirror(a0: int, n: int, period: int) returns (a: int)
    requires period == 2 * n - 2
    requires n >= 2 || 0 <= a0 < n
    ensures 0 <= a < n
    ensures a == MirrorRef(a0, n)
  {
    a := a0;
    while a < 0
      invariant n >= 2 || 0 <= a < n
      invariant MirrorRef(a, n) == MirrorRef(a0, n)
      decreases -a
    {
      MirrorRefShift(a, n);
      a := a + period;
    }
    while a >= n
      invariant a >= 0
      invariant n >= 2 || a < n
      invariant MirrorRef(a, n) == MirrorRef(a0, n)
      decreases a
    {
      MirrorRefShift(a, n);
      MirrorRefShift(a - period, n);
      assert MirrorRef(period - a, n) == MirrorRef(a, n) == MirrorRef(a - period, n);
      a := period - a;
      a := if a < 0 then -a else a;
    }
  }

  /** The reflection does not repeat the edge pixel: -k maps to k, and n-1+k to n-1-k. */
  lemma {:induction false} MirrorReflects(k: int, n: int)
    requires n >= 2 && 0 <= k < n
    ensures MirrorRef(-k, n) == k
    ensures MirrorRef(n - 1 + k, n) == n - 1 - k
  {
    var p := 2 * n - 2;
    if k > 0 {
      IntArith.DivModUnique(-k, p, -1, p - k);
    } else {
      IntArith.DivModUnique(0, p, 0, 0);
    }
    if n - 1 + k >= p {
      IntArith.DivModUnique(n - 1 + k, p, 1, n - 1 + k - p);
    } else {
      IntArith.DivModUnique(n - 1 + k, p, 0, n - 1 + k);
    }
  }

  /** fp is the plane ip padded by reflection: every padded pixel reads its reflected source pixel. */
  ghost predicate IsMirrorOf(ip: array2<real>, fp: array2<real>, left: nat, right: nat, top: nat, bottom: nat)
    reads ip, fp
  {
    (ip.Length0 >= 2 || (ip.Length0 == 1 && left == 0 && right == 0)) &&
    (ip.Length1 >= 2 || (ip.Length1 == 1 && top == 0 && bottom == 0)) &&
    fp.Length0 == ip.Length0 + left + right && fp.Length1 == ip.Length1 + top + bottom &&
    forall i, j :: 0 <= i < fp.Length0 && 0 <= j < fp.Length1 ==>
      fp[i, j] == ip[MirrorRef(i - left, ip.Length0), MirrorRef(j - top, ip.Length1)]
  }

  /** mirrorXY(ImageProcessor, ...): a new (nx+left+right) x (ny+top+bottom) plane filled by reflection. */
  method MirrorPlane(ip: array2<real>, left: nat, right: nat, top: nat, bottom: nat) returns (fp: array2<real>)
    requires ip.Length0 >= 2 || (ip.Length0 == 1 && left == 0 && right == 0)
    requires ip.Length1 >= 2 || (ip.Length1 == 1 && top == 0 && bottom == 0)
    ensures fresh(fp)
    ensures IsMirrorOf(ip, fp, left, right, top, bottom)
    ensures forall x, y :: 0 <= x < ip.Length0 && 0 <= y < ip.Length1 ==> fp[x + left, y + top] == ip[x, y]
  {
    var nx, ny := ip.Length0, ip.Length1;
    fp := new real[nx + left + right, ny + top + bottom];
    var periodX, periodY := 2 * nx - 2, 2 * ny - 2;
    var x := -(left as int);
    while x < nx + right
      invariant -(left as int) <= x <= nx + right
      invariant forall i, j :: 0 <= i < x + left && 0 <= j < fp.Length1 ==>
                  fp[i, j] == ip[MirrorRef(i - left, nx), MirrorRef(j - top, ny)]
    {
      var xm := Mirror(x, nx, periodX);
      var i := x + left;
      var y := -(top as int);
      while y < ny + bottom
        invariant -(top as int) <= y <= ny + bottom
        invariant forall i, j :: 0 <= i < x + left && 0 <= j < fp.Length1 ==>
                    fp[i, j] == ip[MirrorRef(i - left, nx), MirrorRef(j - top, ny)]
        invariant forall j :: 0 <= j < y + top ==> fp[i, j] == ip[xm, MirrorRef(j - top, ny)]
      {
        var ym := Mirror(y, ny, periodY);
        fp[i, y + top] := ip[xm, ym];
        y := y + 1;
      }
      x := x + 1;
    }
  }

  /** The output slice setPositionWithoutUpdate selects for a back-padding write: 2nz - z, clamped to the last slice. */
  function BackTarget(nz: nat, front: nat, back: nat, z: nat): int
  {
    var last := nz + front + back - 1;
    if 2 * nz - z > last then last else 2 * nz - z
  }

  /**
   * The input slice whose mirrored plane output slice k holds after the
   * first z passes of the slice loop of mirrorXY(ImagePlus, ...), or -1 for
   * a slice never written: pass w writes slice w to w + front, then to w
   * when w < front, otherwise to BackTarget when w is one of the last `back`
   * slices. The later write wins.
   */
  function Writer(nz: nat, front: nat, back: nat, z: nat, k: int): (w: int)
    ensures -1 <= w < z
    decreases z
  {
    if z == 0 then -1
    else
      var w := z - 1;
      if (w < front && k == w) || (w >= front && w >= nz - back && k == BackTarget(nz, front, back, w)) then w
      else if k == w + front then w
      else Writer(nz, front, back, z - 1, k)
  }

  /**
   * The slice placement of mirrorXY(ImagePlus, ...) as written: for each
   * output slice, the input slice it ends up holding (-1: left blank).
   */
  method SliceSourcesAsWritten(nz: nat, front: nat, back: nat) returns (src: array<int>)
    ensures src.Length == nz + front + back
    ensures forall k :: 0 <= k < src.Length ==> src[k] == Writer(nz, front, back, nz, k)
    ensures forall k :: 0 <= k < src.Length ==> -1 <= src[k] < nz
  {
    src := new int[nz + front + back](_ => -1);
    var z := 0;
    while z < nz
      invariant 0 <= z <= nz
      invariant forall k :: 0 <= k < src.Length ==> src[k] == Writer(nz, front, back, z, k)
    {
      src[z + front] := z;
      if z < front {
        src[z] := z;
      } else if z >= nz - back {
        src[BackTarget(nz, front, back, z)] := z;
      }
      z := z + 1;
    }
  }

  /** The evidently intended placement: output slice k holds the reflection of slice k - front. */
  function ReflectedSource(nz: nat, front: nat, k: int): (z: int)
    requires nz >= 2 || (nz == 1 && k == front)
    ensures 0 <= z < nz
    ensures front <= k < front + nz ==> z == k - front
  {
    MirrorRef(k - front, nz)
  }

  /**
   * With five slices padded by three on each side, the placement as written
   * leaves the two outermost back slices blank and repeats the last slice
   * where the reflection of slice 3 belongs.
   */
  lemma SliceSourcesCounterexample()
    ensures Writer(5, 3, 3, 5, 9) == -1 && ReflectedSource(5, 3, 9) == 2
    ensures Writer(5, 3, 3, 5, 6) == 4 && ReflectedSource(5, 3, 6) == 3
  {
    assert Writer(5, 3, 3, 1, 9) == -1;
    assert Writer(5, 3, 3, 2, 9) == -1;
    assert Writer(5, 3, 3, 3, 9) == -1;
    assert Writer(5, 3, 3, 4, 9) == -1;
    assert MirrorRef(6, 5) == 2;
    assert MirrorRef(3, 5) == 3;
  }

  /** A new all-zero plane, as IJ.createImage makes for a 32-bit image. */
  method BlankPlane(width: nat, height: nat) returns (p: array2<real>)
    ensures fresh(p) && p.Length0 == width && p.Length1 == height
    ensures forall i, j :: 0 <= i < width && 0 <= j < height ==> p[i, j] == 0.0
  {
    p := new real[width, height]((i, j) => 0.0);
  }

  /**
   * mirrorXY(ImagePlus, ...) with the corrected slice placement: nz + front
   * + back output slices, slice k the plane-mirrored copy of input slice
   * ReflectedSource(nz, front, k).
   */
  method MirrorStack(imp: seq<array2<real>>, left: nat, right: nat, top: nat, bottom: nat, front: nat, back: nat)
    returns (out: seq<array2<real>>)
    requires |imp| >= 2 || (|imp| == 1 && front == 0 && back == 0)
    requires forall z :: 0 <= z < |imp| ==> imp[z].Length0 == imp[0].Length0 && imp[z].Length1 == imp[0].Length1
    requires imp[0].Length0 >= 2 || (imp[0].Length0 == 1 && left == 0 && right == 0)
    requires imp[0].Length1 >= 2 || (imp[0].Length1 == 1 && top == 0 && bottom == 0)
    ensures |out| == |imp| + front + back
    ensures forall k :: 0 <= k < |out| ==>
              IsMirrorOf(imp[ReflectedSource(|imp|, front, k)], out[k], left, right, top, bottom)
  {
    var nz := |imp|;
    out := [];
    var k := 0;
    while k < nz + front + back
      invariant 0 <= k <= nz + front + back && |out| == k
      invariant forall i :: 0 <= i < k ==> IsMirrorOf(imp[ReflectedSource(nz, front, i)], out[i], left, right, top, bottom)
    {
      var plane := MirrorPlane(imp[ReflectedSource(nz, front, k)], left, right, top, bottom);
      out := out + [plane];
      k := k + 1;
    }
  }
}
