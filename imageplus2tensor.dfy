/**
 * deepimagej.ImagePlus2Tensor: the version test for DJL PyTorch, the tensor
 * shape read off an ImagePlus, and the shape checks done before a PyTorch
 * output tensor is turned back into an ImagePlus. Its longShape6 is the one
 * of ImagePlus2TensorPt.
 */
module ImagePlus2Tensor {
  import opened Wrappers
  import JavaString
  import Index
  import ImagePlus2TensorPt

  /**
   * The try block of olderThanPytorch170: the numbers before the first dot
   * and between the first and the second dot; None where a substring or
   * parseInt throws.
   */
  function MajorMinor(ptVersion: string): (r: Option<(int, int)>)
    ensures r.Some? ==> JavaString.Contains(ptVersion, ".")
  {
    var firstDot := JavaString.IndexOf(ptVersion, ".");
    var afterFirst := ptVersion[firstDot + 1..];
    var secondDot := JavaString.IndexOf(afterFirst, ".") + firstDot + 1;
    NumbersBetween(ptVersion, firstDot, secondDot)
  }

  /** The numbers before firstDot and between the two dots. */
  function NumbersBetween(ptVersion: string, firstDot: int, secondDot: int): (r: Option<(int, int)>)
    ensures r.Some? ==> 0 <= firstDot
  {
    match JavaString.Substring(ptVersion, 0, firstDot)
    case None => None
    case Some(majorText) =>
      match JavaString.Substring(ptVersion, firstDot + 1, secondDot)
      case None => None
      case Some(minorText) => Pair(JavaString.ParseInt(majorText), JavaString.ParseInt(minorText))
  }

  /** The two numbers, when both parsed. */
  function Pair(major: Option<int>, minor: Option<int>): (r: Option<(int, int)>)
    ensures r.Some? <==> major.Some? && minor.Some?
    ensures r.Some? ==> r.value == (major.value, minor.value)
  {
    if major.Some? && minor.Some? then Some((major.value, minor.value)) else None
  }

  /**
   * olderThanPytorch170: true unless the version reads as 1.7 or later;
   * when it cannot be read, true exactly when it mentions 1.4., 1.5. or 1.6.
   */
  function OlderThanPytorch170(ptVersion: string): (older: bool)
    ensures MajorMinor(ptVersion).Some? ==>
              (older <==> !(MajorMinor(ptVersion).value.0 > 1 ||
                            (MajorMinor(ptVersion).value.0 >= 1 && MajorMinor(ptVersion).value.1 >= 7)))
    ensures MajorMinor(ptVersion).None? ==>
              (older <==> JavaString.Contains(ptVersion, "1.4.") || JavaString.Contains(ptVersion, "1.5.") ||
                          JavaString.Contains(ptVersion, "1.6."))
  {
    match MajorMinor(ptVersion)
    case Some((major, minor)) => !((major >= 1 && minor >= 7) || major > 1)
    case None =>
      JavaString.Contains(ptVersion, "1.4.") || JavaString.Contains(ptVersion, "1.5.") || JavaString.Contains(ptVersion, "1.6.")
  }

  /** Decimal digits hold no dot. */
  lemma NoDotInNumber(n: nat)
    ensures '.' !in JavaString.NatToString(n)
  {
    var d := JavaString.NatToString(n);
    forall i | 0 <= i < |d| ensures d[i] != '.' { assert JavaString.IsDigit(d[i]); }
  }

  /** The two dots of ma.mi.rest, and the text before and between them, when ma and mi hold no dot. */
  lemma {:induction false} PrintedDots(ma: string, mi: string, rest: string, v: string)
    requires '.' !in ma && '.' !in mi && v == ma + "." + mi + "." + rest
    ensures JavaString.IndexOf(v, ".") == |ma| < |v|
    ensures JavaString.Substring(v, 0, |ma|) == Some(ma)
    ensures JavaString.Substring(v, |ma| + 1, JavaString.IndexOf(v[|ma| + 1..], ".") + |ma| + 1) == Some(mi)
  {
    var tail := mi + "." + rest;
    assert v == ma + ['.'] + tail;
    JavaString.CharAfterPrefix(ma, '.', tail);
    assert v[|ma| + 1..] == tail;
    assert tail == mi + ['.'] + rest;
    JavaString.CharAfterPrefix(mi, '.', rest);
    assert v[..|ma|] == ma;
    assert v[|ma| + 1..|ma| + 1 + |mi|] == mi;
  }

  /** parseInt reads a printed non-negative int back. */
  lemma ParsePrinted(n: nat)
    requires n <= JavaString.MaxInt
    ensures JavaString.ParseInt(JavaString.NatToString(n)) == Some(n)
  {
    JavaString.ParseIntToString(n);
  }

  /** A version printed as major.minor.rest is read back as (major, minor). */
  lemma {:induction false} MajorMinorOfPrinted(major: nat, minor: nat, rest: string)
    requires major <= JavaString.MaxInt && minor <= JavaString.MaxInt
    ensures MajorMinor(JavaString.NatToString(major) + "." + JavaString.NatToString(minor) + "." + rest) == Some((major, minor))
  {
    NoDotInNumber(major);
    NoDotInNumber(minor);
    ParsePrinted(major);
    ParsePrinted(minor);
    MajorMinorOfParts(JavaString.NatToString(major), JavaString.NatToString(minor), rest, major, minor);
  }

  /** ma.mi.rest reads back as the numbers ma and mi parse to, when neither holds a dot. */
  lemma MajorMinorOfParts(ma: string, mi: string, rest: string, major: int, minor: int)
    requires '.' !in ma && '.' !in mi
    requires JavaString.ParseInt(ma) == Some(major) && JavaString.ParseInt(mi) == Some(minor)
    ensures MajorMinor(ma + "." + mi + "." + rest) == Some((major, minor))
  {
    var v := ma + "." + mi + "." + rest;
    PrintedDots(ma, mi, rest, v);
    MajorMinorFromParts(v, |ma|, ma, mi);
  }

  /** MajorMinor unfolded once the text before and between the dots is known. */
  lemma MajorMinorFromParts(v: string, firstDot: nat, ma: string, mi: string)
    requires firstDot == JavaString.IndexOf(v, ".") && firstDot < |v|
    requires JavaString.Substring(v, 0, firstDot) == Some(ma)
    requires JavaString.Substring(v, firstDot + 1, JavaString.IndexOf(v[firstDot + 1..], ".") + firstDot + 1) == Some(mi)
    ensures MajorMinor(v) == Pair(JavaString.ParseInt(ma), JavaString.ParseInt(mi))
  {
    var secondDot := JavaString.IndexOf(v[firstDot + 1..], ".") + firstDot + 1;
    assert MajorMinor(v) == NumbersBetween(v, firstDot, secondDot);
  }

  /**
   * For a version printed as major.minor.rest, olderThanPytorch170 holds
   * exactly when the version is before 1.7: major 0, or major 1 with a
   * minor below 7.
   */
  lemma {:induction false} OlderIffBefore170(major: nat, minor: nat, rest: string)
    requires major <= JavaString.MaxInt && minor <= JavaString.MaxInt
    ensures OlderThanPytorch170(JavaString.NatToString(major) + "." + JavaString.NatToString(minor) + "." + rest) <==>
            major == 0 || (major == 1 && minor < 7)
  {
    MajorMinorOfPrinted(major, minor, rest);
  }

  /** 1.6.x counts as older. */
  lemma Older16(rest: string)
    ensures OlderThanPytorch170("1.6." + rest)
  {
    OlderIffBefore170(1, 6, rest);
    assert JavaString.NatToString(1) + "." + JavaString.NatToString(6) + "." + rest == "1.6." + rest;
  }

  /** 1.7.x does not. */
  lemma NotOlder17(rest: string)
    ensures !OlderThanPytorch170("1.7." + rest)
  {
    assert JavaString.NatToString(1) == "1" && JavaString.NatToString(7) == "7";
    OlderIffBefore170(1, 7, rest);
    assert JavaString.NatToString(1) + "." + JavaString.NatToString(7) + "." + rest == "1.7." + rest;
  }

  /** A version without a dot cannot be read, and it names none of 1.4., 1.5. and 1.6.: not older. */
  lemma NoDotIsNotOlder(ptVersion: string)
    requires '.' !in ptVersion
    ensures !OlderThanPytorch170(ptVersion)
  {
    JavaString.ContainsChar(ptVersion, '.');
    JavaString.ContainedChars(ptVersion, "1.4.");
    JavaString.ContainedChars(ptVersion, "1.5.");
    JavaString.ContainedChars(ptVersion, "1.6.");
    assert "1.4."[1] == '.' && "1.5."[1] == '.' && "1.6."[1] == '.';
  }

  /** The size getTensorShape gives tensor axis i: the image size of its letter at the letter's first position, 1 for the batch, else 0. */
  function TensorAxis(form: string, i: nat, xSize: int, ySize: int, cSize: int, zSize: int): int
    requires i < |form|
  {
    var c := form[i];
    if Index.FirstIndex(form, c) != i then 0
    else if c == 'B' then 1
    else if c == 'Y' then ySize
    else if c == 'X' then xSize
    else if c == 'C' then cSize
    else if c == 'Z' then zSize
    else 0
  }

  function TensorShape(form: string, xSize: int, ySize: int, cSize: int, zSize: int): (s: seq<int>)
    ensures |s| == |form|
  {
    seq(|form|, i requires 0 <= i < |form| => TensorAxis(form, i, xSize, ySize, cSize, zSize))
  }

  /**
   * getTensorShape: one entry per letter of the form, the image's width,
   * height, channels and slices at the first X, Y, C and Z, 1 at the first
   * B, 0 elsewhere. The image dimensions are parameters.
   */
  method GetTensorShape(form: string, xSize: int, ySize: int, cSize: int, zSize: int) returns (arrayShape: seq<int>)
    ensures arrayShape == TensorShape(form, xSize, ySize, cSize, zSize)
  {
    var shape := new int[|form|](_ => 0);
    ghost var expected := seq(|form|, _ => 0);
    assert shape[..] == expected;
    var fBatch := Index.FirstIndex(form, 'B');
    if fBatch != -1 {
      shape[fBatch] := 1;
    }
    expected := Put(expected, fBatch, 1);
    assert shape[..] == expected;
    var fHeight := Index.FirstIndex(form, 'Y');
    if fHeight != -1 {
      shape[fHeight] := ySize;
    }
    expected := Put(expected, fHeight, ySize);
    assert shape[..] == expected;
    var fWidth := Index.FirstIndex(form, 'X');
    if fWidth != -1 {
      shape[fWidth] := xSize;
    }
    expected := Put(expected, fWidth, xSize);
    assert shape[..] == expected;
    var fChannel := Index.FirstIndex(form, 'C');
    if fChannel != -1 {
      shape[fChannel] := cSize;
    }
    expected := Put(expected, fChannel, cSize);
    assert shape[..] == expected;
    var fDepth := Index.FirstIndex(form, 'Z');
    if fDepth != -1 {
      shape[fDepth] := zSize;
    }
    expected := Put(expected, fDepth, zSize);
    assert shape[..] == expected;
    arrayShape := shape[..];
    FilledSlots(form, xSize, ySize, cSize, zSize);
    assert expected == Filled(form, xSize, ySize, cSize, zSize);
  }

  /** An array write at a found position; -1 writes nothing. */
  function Put(s: seq<int>, i: int, v: int): (r: seq<int>)
    requires -1 <= i < |s|
    ensures |r| == |s|
  {
    if i == -1 then s else s[i := v]
  }

  /** The five writes of getTensorShape, one per letter. */
  function Filled(form: string, xSize: int, ySize: int, cSize: int, zSize: int): (s: seq<int>)
    ensures |s| == |form|
  {
    Put(Put(Put(Put(Put(seq(|form|, _ => 0), Index.FirstIndex(form, 'B'), 1), Index.FirstIndex(form, 'Y'), ySize),
      Index.FirstIndex(form, 'X'), xSize), Index.FirstIndex(form, 'C'), cSize), Index.FirstIndex(form, 'Z'), zSize)
  }

  /** One entry after the five writes is the one TensorAxis gives. */
  lemma {:induction false} FilledSlot(form: string, xSize: int, ySize: int, cSize: int, zSize: int, i: int)
    requires 0 <= i < |form|
    ensures Filled(form, xSize, ySize, cSize, zSize)[i] == TensorAxis(form, i, xSize, ySize, cSize, zSize)
  {
    var fB, fY, fX := Index.FirstIndex(form, 'B'), Index.FirstIndex(form, 'Y'), Index.FirstIndex(form, 'X');
    var fC, fZ := Index.FirstIndex(form, 'C'), Index.FirstIndex(form, 'Z');
    if Index.FirstIndex(form, form[i]) == i {
      assert form[i] == 'B' ==> fB == i;
      assert form[i] == 'Y' ==> fY == i;
      assert form[i] == 'X' ==> fX == i;
      assert form[i] == 'C' ==> fC == i;
      assert form[i] == 'Z' ==> fZ == i;
    }
  }

  /** The five writes of getTensorShape leave every entry as TensorAxis says. */
  lemma {:induction false} FilledSlots(form: string, xSize: int, ySize: int, cSize: int, zSize: int)
    ensures Filled(form, xSize, ySize, cSize, zSize) == TensorShape(form, xSize, ySize, cSize, zSize)
  {
    forall i | 0 <= i < |form|
      ensures Filled(form, xSize, ySize, cSize, zSize)[i] == TensorShape(form, xSize, ySize, cSize, zSize)[i]
    {
      FilledSlot(form, xSize, ySize, cSize, zSize, i);
    }
  }

  /** The entry at the first occurrence of a letter holds that letter's size. */
  lemma LetterSlot(form: string, c: char, xSize: int, ySize: int, cSize: int, zSize: int)
    requires c in form
    ensures var f := Index.FirstIndex(form, c);
            0 <= f < |form| &&
            TensorShape(form, xSize, ySize, cSize, zSize)[f] ==
              if c == 'B' then 1 else if c == 'Y' then ySize else if c == 'X' then xSize
              else if c == 'C' then cSize else if c == 'Z' then zSize else 0
  {
    var f := Index.FirstIndex(form, c);
    assert form[f] == c;
    assert TensorShape(form, xSize, ySize, cSize, zSize)[f] == TensorAxis(form, f, xSize, ySize, cSize, zSize);
  }

  /**
   * The tensor shape has 1 at the batch letter and the image sizes at the
   * first X, Y, C and Z.
   */
  lemma TensorShapeSlots(form: string, xSize: int, ySize: int, cSize: int, zSize: int)
    ensures 'B' in form ==> TensorShape(form, xSize, ySize, cSize, zSize)[Index.FirstIndex(form, 'B')] == 1
    ensures 'Y' in form ==> TensorShape(form, xSize, ySize, cSize, zSize)[Index.FirstIndex(form, 'Y')] == ySize
    ensures 'X' in form ==> TensorShape(form, xSize, ySize, cSize, zSize)[Index.FirstIndex(form, 'X')] == xSize
    ensures 'C' in form ==> TensorShape(form, xSize, ySize, cSize, zSize)[Index.FirstIndex(form, 'C')] == cSize
    ensures 'Z' in form ==> TensorShape(form, xSize, ySize, cSize, zSize)[Index.FirstIndex(form, 'Z')] == zSize
  {
    if 'B' in form { LetterSlot(form, 'B', xSize, ySize, cSize, zSize); }
    if 'Y' in form { LetterSlot(form, 'Y', xSize, ySize, cSize, zSize); }
    if 'X' in form { LetterSlot(form, 'X', xSize, ySize, cSize, zSize); }
    if 'C' in form { LetterSlot(form, 'C', xSize, ySize, cSize, zSize); }
    if 'Z' in form { LetterSlot(form, 'Z', xSize, ySize, cSize, zSize); }
  }

  /** Every other position, a repeated letter or one outside BYXCZ, holds 0. */
  lemma TensorShapeZeros(form: string, xSize: int, ySize: int, cSize: int, zSize: int, i: int)
    requires 0 <= i < |form|
    requires Index.FirstIndex(form, form[i]) != i || (form[i] != 'B' && form[i] != 'Y' && form[i] != 'X' && form[i] != 'C' && form[i] != 'Z')
    ensures TensorShape(form, xSize, ySize, cSize, zSize)[i] == 0
  {
  }

  /**
   * getShape of ImagePlus2TensorPt undoes getTensorShape: on a form that
   * names each axis once, the ImagePlus shape read back from the tensor
   * shape has the image's sizes for the axes the form names and 1 for the
   * others.
   */
  lemma {:induction false} TensorShapeReadBack(form: string, xSize: int, ySize: int, cSize: int, zSize: int)
    requires ImagePlus2TensorPt.DistinctChars(form)
    ensures var ts := TensorShape(form, xSize, ySize, cSize, zSize);
            ImagePlus2TensorPt.ImageShape(ts, form, |form|) ==
              [if 'X' in form then xSize else 1, if 'Y' in form then ySize else 1,
               if 'C' in form then cSize else 1, if 'Z' in form then zSize else 1, 1, 1]
  {
    var ts := TensorShape(form, xSize, ySize, cSize, zSize);
    assert form[..|form|] == form;
    forall c | c in form
      ensures Index.LastIndex(form, c) == Index.FirstIndex(form, c)
      ensures TensorAxis(form, Index.FirstIndex(form, c), xSize, ySize, cSize, zSize) ==
              TensorAxis(form, Index.LastIndex(form, c), xSize, ySize, cSize, zSize)
    {
      var f := Index.FirstIndex(form, c);
      forall j | f < j < |form| ensures form[j] != c { }
      Index.LastIndexIs(form, c, f);
    }
  }

  /** Why NDArray2ImagePlus refuses an output tensor. */
  datatype ShapeError =
    | IncorrectNumberOfDimensions   // the shape and the form differ in length
    | BatchSizeBiggerThanOne        // the batch axis is larger than 1
    | ArrayIndexOutOfBounds         // a shape read past its end

  /** The form without its first batch letter, as older DJL PyTorch outputs have no batch axis. */
  function DropBatch(form: string, batchIndex: int): (r: string)
    requires 0 <= batchIndex < |form|
    ensures |r| == |form| - 1
  {
    form[..batchIndex] + form[batchIndex + 1..]
  }

  /**
   * The form NDArray2ImagePlus compares the output shape with; `older` is
   * olderThanPytorch170 of the engine version.
   */
  function OutputForm(form: string, older: bool): (r: string)
    ensures !older || 'B' !in form ==> r == form
    ensures older && 'B' in form ==> r == DropBatch(form, Index.FirstIndex(form, 'B'))
  {
    var batchIndex := JavaString.IndexOf(form, "B");
    ImagePlus2TensorPt.LetterSearch(form, 'B');
    if older && batchIndex != -1 then DropBatch(form, batchIndex) else form
  }

  /**
   * The shape checks of NDArray2ImagePlus as written: for PyTorch before
   * 1.7.0 (`older`) the batch letter is dropped from the form, but the
   * batch test still reads the shape at the batch letter's position in
   * the original form.
   */
  function OutputShapeChecks(tensorShape: seq<int>, form: string, older: bool): (r: Result<string, ShapeError>)
    ensures r.Ok? ==> r.value == OutputForm(form, older) && |r.value| == |tensorShape| <= 6
    ensures r.Ok? && 'B' in form ==> Index.FirstIndex(form, 'B') < |tensorShape| && tensorShape[Index.FirstIndex(form, 'B')] <= 1
  {
    var batchIndex := JavaString.IndexOf(form, "B");
    ImagePlus2TensorPt.LetterSearch(form, 'B');
    var newForm := OutputForm(form, older);
    if |tensorShape| != |newForm| then Err(IncorrectNumberOfDimensions)
    else if |tensorShape| > 6 then Err(ArrayIndexOutOfBounds)
    else if batchIndex != -1 && batchIndex >= |tensorShape| then Err(ArrayIndexOutOfBounds)
    else if batchIndex != -1 && tensorShape[batchIndex] > 1 then Err(BatchSizeBiggerThanOne)
    else Ok(newForm)
  }

  /**
   * The checks as evidently meant: the batch test reads the shape at the
   * batch letter of the form it is compared with, and there is none to
   * test once the letter is dropped.
   */
  function OutputShapeChecksIntended(tensorShape: seq<int>, form: string, older: bool): (r: Result<string, ShapeError>)
    ensures r.Ok? <==> var f := OutputForm(form, older);
                       |f| == |tensorShape| <= 6 && ('B' in f ==> tensorShape[Index.FirstIndex(f, 'B')] <= 1)
    ensures r.Ok? ==> r.value == OutputForm(form, older)
    ensures !older && 'B' in form ==>
              (r == Err(BatchSizeBiggerThanOne) <==> |form| == |tensorShape| <= 6 && tensorShape[Index.FirstIndex(form, 'B')] > 1)
  {
    var newForm := OutputForm(form, older);
    if |tensorShape| != |newForm| then Err(IncorrectNumberOfDimensions)
    else if |tensorShape| > 6 then Err(ArrayIndexOutOfBounds)
    else if 'B' in newForm && tensorShape[Index.FirstIndex(newForm, 'B')] > 1 then Err(BatchSizeBiggerThanOne)
    else Ok(newForm)
  }

  /** Where the batch letter is kept, the check as written and the intended one agree. */
  lemma {:induction false} ChecksAgreeWithBatch(tensorShape: seq<int>, form: string, older: bool)
    requires !older || 'B' !in form
    ensures OutputShapeChecks(tensorShape, form, older) == OutputShapeChecksIntended(tensorShape, form, older)
  {
    ImagePlus2TensorPt.LetterSearch(form, 'B');
  }

  /**
   * A three-channel 256 x 256 output of a "BCYX" model under PyTorch 1.6.0:
   * the form loses its batch letter, the check as written reads the
   * channel count as the batch size and refuses the tensor; the intended
   * check accepts it with the form "CYX".
   */
  lemma ChannelsReadAsBatch()
    ensures OlderThanPytorch170("1.6.0")
    ensures OutputShapeChecks([3, 256, 256], "BCYX", OlderThanPytorch170("1.6.0")) == Err(BatchSizeBiggerThanOne)
    ensures OutputShapeChecksIntended([3, 256, 256], "BCYX", OlderThanPytorch170("1.6.0")) == Ok("CYX")
  {
    Older16("0");
    assert "1.6." + "0" == "1.6.0";
    BatchDroppedExample();
  }

  lemma BatchDroppedExample()
    ensures OutputShapeChecks([3, 256, 256], "BCYX", true) == Err(BatchSizeBiggerThanOne)
    ensures OutputShapeChecksIntended([3, 256, 256], "BCYX", true) == Ok("CYX")
  {
    assert JavaString.OccursAt("BCYX", "B", 0);
    assert "BCYX"[..0] + "BCYX"[1..] == "CYX";
  }
}
