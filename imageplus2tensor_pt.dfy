/**
 * deepimagej.ImagePlus2TensorPt: the axis bookkeeping around the PyTorch
 * conversion between an ImagePlus (axes X, Y, C, Z, T) and a tensor whose
 * axes are named by a form string such as "BCYX". The pixel loops that
 * call into DJL are not part of this model.
 */
module ImagePlus2TensorPt {
  import opened Wrappers
  import JavaString
  import Index

  /**
   * longShape6: the shape padded with 1 to six entries; None where the
   * shape is longer (Java writes past the six-entry array).
   */
  method LongShape6(shape: seq<int>) returns (r: Option<seq<int>>)
    ensures |shape| > 6 <==> r.None?
    ensures r.Some? ==> |r.value| == 6 && r.value[..|shape|] == shape &&
                        forall i :: |shape| <= i < 6 ==> r.value[i] == 1
  {
    var fShape := new int[6](_ => 1);
    var i := 0;
    while i < |shape|
      invariant 0 <= i <= |shape|
      invariant i <= 6
      invariant forall k :: 0 <= k < i ==> fShape[k] == shape[k]
      invariant forall k :: i <= k < 6 ==> fShape[k] == 1
    {
      if i >= 6 {
        return None;
      }
      fShape[i] := shape[i];
      i := i + 1;
    }
    r := Some(fShape[..]);
  }

  /**
   * The size getShape ends up with for one letter after reading the first
   * n tensor axes: the size of the last axis named by that letter, or 1.
   */
  function AxisValue(tensorShape: seq<int>, form: string, letter: char, n: nat): (v: int)
    requires n <= |tensorShape| && n <= |form|
    ensures letter !in form[..n] ==> v == 1
    ensures letter in form[..n] ==> v == tensorShape[Index.LastIndex(form[..n], letter)]
  {
    if n == 0 then 1
    else
      assert form[..n] == form[..n - 1] + [form[n - 1]];
      if form[n - 1] == letter then tensorShape[n - 1]
      else AxisValue(tensorShape, form, letter, n - 1)
  }

  /** The ImagePlus shape [nx, ny, nc, nz, nt, batch] after reading the first n tensor axes; nt is never set. */
  function ImageShape(tensorShape: seq<int>, form: string, n: nat): (s: seq<int>)
    requires n <= |tensorShape| && n <= |form|
    ensures |s| == 6 && s[4] == 1
  {
    [AxisValue(tensorShape, form, 'X', n), AxisValue(tensorShape, form, 'Y', n),
     AxisValue(tensorShape, form, 'C', n), AxisValue(tensorShape, form, 'Z', n),
     1, AxisValue(tensorShape, form, 'B', n)]
  }

  const DimList: seq<string> := ["X", "Y", "C", "Z", "B"]
  const PositionMapping: seq<nat> := [0, 1, 2, 3, 5]

  /** The ImagePlus slot of an axis letter, or -1 for letters it has no slot for. */
  function Slot(c: char): (p: int)
    ensures -1 <= p < 6 && p != 4
  {
    if c == 'X' then 0 else if c == 'Y' then 1 else if c == 'C' then 2
    else if c == 'Z' then 3 else if c == 'B' then 5 else -1
  }

  /**
   * getShape finds a letter's position in dimList and maps it through
   * positionMapping; the result is the letter's Slot.
   */
  lemma DimListSlot(c: char)
    ensures Index.FirstIndex(DimList, [c]) == -1 <==> Slot(c) == -1
    ensures Index.FirstIndex(DimList, [c]) != -1 ==> PositionMapping[Index.FirstIndex(DimList, [c])] == Slot(c)
  {
    var p := if c == 'X' then 0 else if c == 'Y' then 1 else if c == 'C' then 2
             else if c == 'Z' then 3 else if c == 'B' then 4 else -1;
    forall j | 0 <= j < 5 && j != p
      ensures DimList[j] != [c]
    {
      assert DimList[j][0] != c;
    }
    Index.FirstIndexIs(DimList, [c], p);
  }

  /** Reading one more tensor axis changes at most the slot of its letter. */
  lemma ImageShapeStep(tensorShape: seq<int>, form: string, n: nat)
    requires n < |tensorShape| && n < |form|
    ensures Slot(form[n]) == -1 ==> ImageShape(tensorShape, form, n + 1) == ImageShape(tensorShape, form, n)
    ensures Slot(form[n]) != -1 ==>
              ImageShape(tensorShape, form, n + 1) == ImageShape(tensorShape, form, n)[Slot(form[n]) := tensorShape[n]]
  {
  }

  /**
   * getShape: the tensor sizes moved to the ImagePlus slots of X, Y, C, Z
   * and the batch; None where the form is shorter than the shape
   * (charAt throws).
   */
  method GetShape(tensorShape: seq<int>, form: string) returns (r: Option<seq<int>>)
    ensures r.None? <==> |form| < |tensorShape|
    ensures r.Some? ==> r.value == ImageShape(tensorShape, form, |tensorShape|)
  {
    var shape := new int[6](_ => 1);
    var index := 0;
    while index < |tensorShape|
      invariant 0 <= index <= |tensorShape|
      invariant index <= |form|
      invariant shape[..] == ImageShape(tensorShape, form, index)
    {
      if index >= |form| {
        return None;
      }
      // dimList and positionMapping looked up together; see DimListSlot
      var imPlusIndex := Slot(form[index]);
      ImageShapeStep(tensorShape, form, index);
      ghost var before := shape[..];
      if imPlusIndex != -1 {
        shape[imPlusIndex] := tensorShape[index];
        assert shape[..] == before[imPlusIndex := tensorShape[index]];
      }
      assert shape[..] == ImageShape(tensorShape, form, index + 1);
      index := index + 1;
    }
    r := Some(shape[..]);
  }

  /** getShape on a form that names each axis once puts each size in its slot. */
  lemma {:induction false} GetShapeSlots(tensorShape: seq<int>, form: string, k: nat)
    requires |tensorShape| <= |form| && k < |tensorShape|
    requires form[k] !in form[..k] && form[k] !in form[k + 1..|tensorShape|]
    ensures var s := ImageShape(tensorShape, form, |tensorShape|);
            (form[k] == 'X' ==> s[0] == tensorShape[k]) &&
            (form[k] == 'Y' ==> s[1] == tensorShape[k]) &&
            (form[k] == 'C' ==> s[2] == tensorShape[k]) &&
            (form[k] == 'Z' ==> s[3] == tensorShape[k]) &&
            (form[k] == 'B' ==> s[5] == tensorShape[k])
  {
    var n := |tensorShape|;
    var prefix := form[..n];
    assert prefix[k] == form[k];
    assert prefix[k + 1..] == form[k + 1..n];
    Index.LastIndexIs(prefix, form[k], k);
  }

  /** createDimOrder's entries: where each ImageJ axis name first occurs in the required order. */
  function DimOrder(imageJOrder: seq<string>, requiredOrder: string): (r: seq<int>)
    ensures |r| == |imageJOrder|
  {
    seq(|imageJOrder|, i requires 0 <= i < |imageJOrder| => JavaString.IndexOf(requiredOrder, imageJOrder[i]))
  }

  /** createDimOrder. */
  method CreateDimOrder(imageJOrder: seq<string>, requiredOrder: string) returns (dimOrder: seq<int>)
    ensures dimOrder == DimOrder(imageJOrder, requiredOrder)
    ensures forall i :: 0 <= i < |dimOrder| ==>
              (dimOrder[i] == -1 <==> forall p :: !JavaString.OccursAt(requiredOrder, imageJOrder[i], p))
  {
    var size := |imageJOrder|;
    var order := new int[size];
    var i := 0;
    while i < size
      invariant 0 <= i <= size
      invariant forall k :: 0 <= k < i ==> order[k] == JavaString.IndexOf(requiredOrder, imageJOrder[k])
    {
      var pos := JavaString.IndexOf(requiredOrder, imageJOrder[i]);
      order[i] := pos;
      i := i + 1;
    }
    dimOrder := order[..];
  }

  /** No letter of the string repeats. */
  predicate DistinctChars(s: string)
  {
    forall i, j :: 0 <= i < j < |s| ==> s[i] != s[j]
  }

  /**
   * When the ImageJ axis names are single letters and the required order
   * is a rearrangement of them, createDimOrder is a permutation of
   * 0..n-1 (n distinct values in [0, n)) that sends each letter to its
   * place in the required order.
   */
  lemma {:induction false} DimOrderIsPermutation(imageJOrder: seq<string>, requiredOrder: string)
    requires |requiredOrder| == |imageJOrder|
    requires forall i :: 0 <= i < |imageJOrder| ==> |imageJOrder[i]| == 1 && imageJOrder[i][0] in requiredOrder
    requires forall i, j :: 0 <= i < j < |imageJOrder| ==> imageJOrder[i] != imageJOrder[j]
    ensures var r := DimOrder(imageJOrder, requiredOrder);
            (forall i :: 0 <= i < |r| ==> 0 <= r[i] < |r| && requiredOrder[r[i]] == imageJOrder[i][0]) &&
            (forall i, j :: 0 <= i < j < |r| ==> r[i] != r[j])
  {
    var r := DimOrder(imageJOrder, requiredOrder);
    forall i | 0 <= i < |r|
      ensures 0 <= r[i] < |r| && requiredOrder[r[i]] == imageJOrder[i][0]
    {
      var c := imageJOrder[i][0];
      assert imageJOrder[i] == [c];
      JavaString.ContainsChar(requiredOrder, c);
      assert JavaString.OccursAt(requiredOrder, [c], r[i]);
    }
    forall i, j | 0 <= i < j < |r|
      ensures r[i] != r[j]
    {
      assert imageJOrder[i] == [imageJOrder[i][0]] && imageJOrder[j] == [imageJOrder[j][0]];
    }
  }

  /** Searching a one-letter string is searching the letter. */
  lemma LetterSearch(s: string, c: char)
    ensures JavaString.IndexOf(s, [c]) == Index.FirstIndex(s, c)
  {
    var r := JavaString.IndexOf(s, [c]);
    JavaString.ContainsChar(s, c);
    if r != -1 {
      assert s[r] == c;
      forall p | 0 <= p < r
        ensures s[p] != c
      {
        assert !JavaString.OccursAt(s, [c], p);
        assert s[p..p + 1] == [s[p]];
      }
      Index.FirstIndexIs(s, c, r);
    }
  }

  /** How many of the first i ImagePlus letters are missing from the tensor form. */
  function MissingBefore(tensorForm: string, imagePlusForm: string, i: nat): (m: nat)
    requires i <= |imagePlusForm|
    ensures m <= i
  {
    if i == 0 then 0
    else MissingBefore(tensorForm, imagePlusForm, i - 1) + (if imagePlusForm[i - 1] !in tensorForm then 1 else 0)
  }

  /**
   * Where findMissingDimensions puts ImagePlus letter i: at its first
   * position in the tensor form, or after the form's end, behind the
   * missing letters before it.
   */
  function Target(tensorForm: string, imagePlusForm: string, i: nat): (t: nat)
    requires i < |imagePlusForm|
    ensures t < |tensorForm| <==> imagePlusForm[i] in tensorForm
    ensures t < |tensorForm| ==> tensorForm[t] == imagePlusForm[i]
  {
    var index := Index.FirstIndex(tensorForm, imagePlusForm[i]);
    if index != -1 then index else |tensorForm| + MissingBefore(tensorForm, imagePlusForm, i)
  }

  /** Every missing letter after a missing letter is counted once more. */
  lemma {:induction false} MissingBeforeGrows(tensorForm: string, imagePlusForm: string, k: nat, i: nat)
    requires k < i <= |imagePlusForm|
    requires imagePlusForm[k] !in tensorForm
    ensures MissingBefore(tensorForm, imagePlusForm, i) > MissingBefore(tensorForm, imagePlusForm, k)
    decreases i
  {
    if i > k + 1 {
      MissingBeforeGrows(tensorForm, imagePlusForm, k, i - 1);
    }
  }

  /** The slots the first i letters are written to. */
  function Targets(tensorForm: string, imagePlusForm: string, i: nat): (ts: set<nat>)
    requires i <= |imagePlusForm|
    ensures forall k :: 0 <= k < i ==> Target(tensorForm, imagePlusForm, k) in ts
  {
    if i == 0 then {}
    else Targets(tensorForm, imagePlusForm, i - 1) + {Target(tensorForm, imagePlusForm, i - 1)}
  }

  /** Two letters land on the same slot only when they are the same letter. */
  lemma {:induction false} TargetsCollideOnlyForEqualLetters(tensorForm: string, imagePlusForm: string, k: nat, i: nat)
    requires k < i < |imagePlusForm|
    requires Target(tensorForm, imagePlusForm, k) == Target(tensorForm, imagePlusForm, i)
    ensures imagePlusForm[k] == imagePlusForm[i]
  {
    if imagePlusForm[k] !in tensorForm && imagePlusForm[i] !in tensorForm {
      MissingBeforeGrows(tensorForm, imagePlusForm, k, i);
    }
  }

  /**
   * The state of findMissingDimensions after the first i letters: each of
   * them sits in its slot, and every slot none of them targets is still
   * null.
   */
  predicate Placed(tensorForm: string, imagePlusForm: string, cells: seq<Option<string>>, i: nat)
    requires i <= |imagePlusForm|
  {
    (forall k :: 0 <= k < i ==> Target(tensorForm, imagePlusForm, k) < |cells| &&
                                cells[Target(tensorForm, imagePlusForm, k)] == Some([imagePlusForm[k]])) &&
    (forall j :: 0 <= j < |cells| && j !in Targets(tensorForm, imagePlusForm, i) ==> cells[j] == None)
  }

  /** One step of the loop: the slot of letter i and the count of missing letters after it. */
  lemma TargetStep(tensorForm: string, imagePlusForm: string, i: nat, extra: int, index: int)
    requires i < |imagePlusForm| && extra == |tensorForm| + MissingBefore(tensorForm, imagePlusForm, i)
    requires index == JavaString.IndexOf(tensorForm, [imagePlusForm[i]])
    ensures Target(tensorForm, imagePlusForm, i) == if index != -1 then index else extra
    ensures |tensorForm| + MissingBefore(tensorForm, imagePlusForm, i + 1) == if index != -1 then extra else extra + 1
  {
    LetterSearch(tensorForm, imagePlusForm[i]);
  }

  /** Writing letter i to its slot extends the placement by one letter. */
  lemma {:induction false} PlaceNext(tensorForm: string, imagePlusForm: string, cells: seq<Option<string>>, i: nat)
    requires i < |imagePlusForm|
    requires Placed(tensorForm, imagePlusForm, cells, i)
    requires Target(tensorForm, imagePlusForm, i) < |cells|
    ensures Placed(tensorForm, imagePlusForm, cells[Target(tensorForm, imagePlusForm, i) := Some([imagePlusForm[i]])], i + 1)
  {
    var t := Target(tensorForm, imagePlusForm, i);
    forall k | 0 <= k < i && Target(tensorForm, imagePlusForm, k) == t
      ensures imagePlusForm[k] == imagePlusForm[i]
    {
      TargetsCollideOnlyForEqualLetters(tensorForm, imagePlusForm, k, i);
    }
  }

  /** The slots of the first i letters all lie inside the result array. */
  predicate Fits(tensorForm: string, imagePlusForm: string, i: nat)
    requires i <= |imagePlusForm|
  {
    i == 0 || (Fits(tensorForm, imagePlusForm, i - 1) && Target(tensorForm, imagePlusForm, i - 1) < |imagePlusForm|)
  }

  /** Fits, letter by letter. */
  lemma {:induction false} FitsEach(tensorForm: string, imagePlusForm: string, i: nat)
    requires i <= |imagePlusForm|
    ensures Fits(tensorForm, imagePlusForm, i) <==> forall k :: 0 <= k < i ==> Target(tensorForm, imagePlusForm, k) < |imagePlusForm|
  {
    if i > 0 {
      FitsEach(tensorForm, imagePlusForm, i - 1);
    }
  }

  /** The slots after the first i letters are written, all null at the start. */
  function Cells(tensorForm: string, imagePlusForm: string, i: nat): (cells: seq<Option<string>>)
    requires i <= |imagePlusForm| && Fits(tensorForm, imagePlusForm, i)
    ensures |cells| == |imagePlusForm|
  {
    if i == 0 then seq(|imagePlusForm|, _ => None)
    else Cells(tensorForm, imagePlusForm, i - 1)[Target(tensorForm, imagePlusForm, i - 1) := Some([imagePlusForm[i - 1]])]
  }

  /** The slots written so far hold each letter at its target and null elsewhere. */
  lemma {:induction false} CellsPlaced(tensorForm: string, imagePlusForm: string, i: nat)
    requires i <= |imagePlusForm| && Fits(tensorForm, imagePlusForm, i)
    ensures Placed(tensorForm, imagePlusForm, Cells(tensorForm, imagePlusForm, i), i)
  {
    if i > 0 {
      CellsPlaced(tensorForm, imagePlusForm, i - 1);
      PlaceNext(tensorForm, imagePlusForm, Cells(tensorForm, imagePlusForm, i - 1), i - 1);
    }
  }

  /** Once every slot fits, each letter sits at its target and every other slot is null. */
  lemma CellsFinal(tensorForm: string, imagePlusForm: string)
    requires Fits(tensorForm, imagePlusForm, |imagePlusForm|)
    ensures forall i :: 0 <= i < |imagePlusForm| ==> Target(tensorForm, imagePlusForm, i) < |imagePlusForm|
    ensures forall i :: 0 <= i < |imagePlusForm| ==>
              Cells(tensorForm, imagePlusForm, |imagePlusForm|)[Target(tensorForm, imagePlusForm, i)] == Some([imagePlusForm[i]])
    ensures forall j :: 0 <= j < |imagePlusForm| && j !in Targets(tensorForm, imagePlusForm, |imagePlusForm|) ==>
              Cells(tensorForm, imagePlusForm, |imagePlusForm|)[j] == None
  {
    FitsEach(tensorForm, imagePlusForm, |imagePlusForm|);
    CellsPlaced(tensorForm, imagePlusForm, |imagePlusForm|);
  }

  /**
   * One pass of findMissingDimensions' loop: letter i is looked up in the
   * tensor form and written to its slot; `fits` is false where that slot
   * lies past the end of the array.
   */
  method PlaceLetter(tForm: array<Option<string>>, tensorForm: string, imagePlusForm: string, letter: string, i: nat, extra: int)
    returns (fits: bool, later: int)
    modifies tForm
    requires tForm.Length == |imagePlusForm| && i < |imagePlusForm| && letter == [imagePlusForm[i]]
    requires extra == |tensorForm| + MissingBefore(tensorForm, imagePlusForm, i)
    requires Fits(tensorForm, imagePlusForm, i) && tForm[..] == Cells(tensorForm, imagePlusForm, i)
    ensures fits <==> Target(tensorForm, imagePlusForm, i) < |imagePlusForm|
    ensures fits ==> Fits(tensorForm, imagePlusForm, i + 1)
    ensures fits ==> later == |tensorForm| + MissingBefore(tensorForm, imagePlusForm, i + 1)
    ensures fits ==> tForm[..] == Cells(tensorForm, imagePlusForm, i + 1)
  {
    var index := JavaString.IndexOf(tensorForm, letter);
    TargetStep(tensorForm, imagePlusForm, i, extra, index);
    var slot := if index != -1 then index else extra;
    if slot >= tForm.Length {
      return false, extra;
    }
    ghost var cells := tForm[..];
    tForm[slot] := Some(letter);
    assert tForm[..] == cells[slot := Some(letter)];
    fits, later := true, if index != -1 then extra else extra + 1;
  }

  /**
   * findMissingDimensions: the tensor form extended to the ImagePlus
   * letters. Each letter goes to its Target slot and unwritten slots stay
   * null (None); the whole result is None where a slot lies past the end
   * (Java throws ArrayIndexOutOfBoundsException).
   */
  method FindMissingDimensions(tensorForm: string, imagePlusForm: string) returns (r: Option<seq<Option<string>>>)
    ensures r.Some? <==> forall i :: 0 <= i < |imagePlusForm| ==> Target(tensorForm, imagePlusForm, i) < |imagePlusForm|
    ensures r.Some? ==> |r.value| == |imagePlusForm|
    ensures r.Some? ==> forall i :: 0 <= i < |imagePlusForm| ==>
              r.value[Target(tensorForm, imagePlusForm, i)] == Some([imagePlusForm[i]])
    ensures r.Some? ==> forall j :: 0 <= j < |imagePlusForm| && j !in Targets(tensorForm, imagePlusForm, |imagePlusForm|) ==>
              r.value[j] == None
  {
    var tForm := new Option<string>[|imagePlusForm|](_ => None);
    var separatedImForm := JavaString.SplitChars(imagePlusForm);
    var extra := |tensorForm|;
    var i := 0;
    while i < tForm.Length
      invariant 0 <= i <= tForm.Length
      invariant extra == |tensorForm| + MissingBefore(tensorForm, imagePlusForm, i)
      invariant Fits(tensorForm, imagePlusForm, i)
      invariant tForm[..] == Cells(tensorForm, imagePlusForm, i)
    {
      var fits;
      fits, extra := PlaceLetter(tForm, tensorForm, imagePlusForm, separatedImForm[i], i, extra);
      if !fits {
        FitsEach(tensorForm, imagePlusForm, |imagePlusForm|);
        return None;
      }
      i := i + 1;
    }
    CellsFinal(tensorForm, imagePlusForm);
    r := Some(tForm[..]);
  }
}
