/**
 * deepimagej.tools.DijTensor: the description of one model input or output,
 * and the static helpers over tensor lists and axis strings ("NHWC", ...).
 * The fields the modelled code never assigns after construction are values;
 * fields Java leaves null are Options.
 */
module DijTensor {
  import opened Wrappers
  import JavaString
  import Index

  datatype Tensor = Tensor(
    name: string,
    tensorShape: seq<int>,
    form: string,
    minimumSize: seq<int>,
    step: seq<int>,
    halo: seq<int>,
    recommendedPatch: seq<int>,
    offset: Option<seq<int>>,
    scale: Option<seq<real>>,
    tensorType: string,
    dataType: Option<string>)

  /** retrieveByName: the first tensor carrying the name, or null. */
  method RetrieveByName(name: string, tensors: seq<Tensor>) returns (wanted: Option<Tensor>)
    ensures wanted.None? <==> forall i :: 0 <= i < |tensors| ==> tensors[i].name != name
    ensures wanted.Some? ==> exists i :: 0 <= i < |tensors| && tensors[i] == wanted.value &&
                               wanted.value.name == name &&
                               forall j :: 0 <= j < i ==> tensors[j].name != name
  {
    wanted := None;
    var i := 0;
    while i < |tensors|
      invariant 0 <= i <= |tensors|
      invariant forall j :: 0 <= j < i ==> tensors[j].name != name
    {
      if tensors[i].name == name {
        wanted := Some(tensors[i]);
        return;
      }
      i := i + 1;
    }
  }

  /** The position of "N" among the one-letter strings form.split("") is the position of 'N' in the form. */
  lemma SplitIndex(form: string, letter: char)
    ensures Index.FirstIndex(JavaString.SplitChars(form), [letter]) == Index.FirstIndex(form, letter)
  {
    var parts := JavaString.SplitChars(form);
    var f := Index.FirstIndex(form, letter);
    if form == "" {
      assert [letter] !in parts;
    } else {
      assert forall k :: 0 <= k < |form| ==> (parts[k] == [letter] <==> form[k] == letter);
      if f == -1 {
        assert [letter] !in parts;
      } else {
        assert forall k :: 0 <= k < f ==> form[k] != letter by {
          forall k | 0 <= k < f ensures form[k] != letter { assert form[k] == form[..f][k]; }
        }
        Index.FirstIndexIs(parts, [letter], f);
      }
    }
  }

  /**
   * Index.indexOf(form.split(""), letter): where an axis letter sits in the
   * form, or -1. The search over the one-letter pieces finds the same
   * position as the search over the characters (SplitIndex).
   */
  function AxisIndex(form: string, letter: char): (i: int)
    ensures i == -1 <==> letter !in form
    ensures i != -1 ==> 0 <= i < |form| && form[i] == letter && letter !in form[..i]
  {
    Index.FirstIndex(form, letter)
  }

  /** getBatchInd: where the batch letter 'N' sits in the form, or -1. */
  function GetBatchInd(form: string): (b: int)
    ensures b == -1 <==> 'N' !in form
    ensures b != -1 ==> 0 <= b < |form| && form[b] == 'N' && 'N' !in form[..b]
  {
    AxisIndex(form, 'N')
  }

  /**
   * The copy loop of getWorkingDimValues: every entry but the one at the
   * batch index, in order, into an array one shorter. None where Java's copy
   * runs past that array (the batch index is not a position of values, or
   * there are no values and the array length is negative).
   */
  method DropEntry(values: seq<int>, batchInd: nat) returns (r: Option<seq<int>>)
    ensures batchInd < |values| ==> r == Some(values[..batchInd] + values[batchInd + 1..])
    ensures batchInd >= |values| ==> r.None?
  {
    if |values| == 0 {
      return None;
    }
    var newValues := new int[|values| - 1];
    var c := 0;
    var i := 0;
    while i < |values|
      invariant 0 <= i <= |values|
      invariant c == if i <= batchInd then i else i - 1
      invariant c <= newValues.Length
      invariant forall k :: 0 <= k < c ==> newValues[k] == values[if k < batchInd then k else k + 1]
    {
      if batchInd != i {
        if c >= newValues.Length {
          return None;
        }
        newValues[c] := values[i];
        c := c + 1;
      }
      i := i + 1;
    }
    assert newValues[..] == values[..batchInd] + values[batchInd + 1..];
    r := Some(newValues[..]);
  }

  /**
   * getWorkingDimValues: the values with the batch entry dropped, the rest
   * in order; unchanged when the form has no 'N'.
   */
  method GetWorkingDimValues(form: string, values: seq<int>) returns (r: Option<seq<int>>)
    ensures 'N' !in form ==> r == Some(values)
    ensures 'N' in form ==>
              var b := GetBatchInd(form);
              if b < |values| then r == Some(values[..b] + values[b + 1..]) else r.None?
  {
    var batchInd := GetBatchInd(form);
    if batchInd == -1 {
      return Some(values);
    }
    r := DropEntry(values, batchInd);
  }

  /** getWorkingDims: form.split("") of the form with its first 'N' removed. */
  function GetWorkingDims(form: string): (dims: seq<string>)
    ensures 'N' !in form ==> dims == JavaString.SplitChars(form)
    ensures 'N' in form ==> var b := GetBatchInd(form);
              dims == JavaString.SplitChars(form[..b] + form[b + 1..])
  {
    var batchInd := GetBatchInd(form);
    if batchInd != -1 then JavaString.SplitChars(form[..batchInd] + form[batchInd + 1..])
    else JavaString.SplitChars(form)
  }

  /**
   * For a form and values of equal length, the working dims and values stay
   * the same length, unless the form is empty or just "N" ("".split("") is
   * one empty string, not none).
   */
  lemma {:induction false} WorkingDimsMatchValues(form: string, values: seq<int>)
    requires |form| == |values| && form != "" && form != "N"
    ensures GetBatchInd(form) < |values|
    ensures GetBatchInd(form) != -1 ==>
              |GetWorkingDims(form)| == |values| - 1 &&
              forall k :: 0 <= k < |values| - 1 ==>
                GetWorkingDims(form)[k] == [(form[..GetBatchInd(form)] + form[GetBatchInd(form) + 1..])[k]]
    ensures GetBatchInd(form) == -1 ==> |GetWorkingDims(form)| == |values|
  {
    var b := GetBatchInd(form);
    if b != -1 {
      var rest := form[..b] + form[b + 1..];
      assert |rest| == |form| - 1;
    }
  }

  /** Tensors of type "image" (by substring), in their original order. */
  function ImageTensors(tensors: seq<Tensor>): (r: seq<Tensor>)
    ensures |r| <= |tensors|
    ensures forall t :: t in r <==> t in tensors && JavaString.Contains(t.tensorType, "image")
  {
    if tensors == [] then []
    else
      var rest := ImageTensors(tensors[..|tensors| - 1]);
      var last := tensors[|tensors| - 1];
      assert tensors == tensors[..|tensors| - 1] + [last];
      if JavaString.Contains(last.tensorType, "image") then rest + [last] else rest
  }

  /** getImageTensors: keeps exactly the image tensors, in order. */
  method GetImageTensors(tensorList: seq<Tensor>) returns (imageTensors: seq<Tensor>)
    ensures imageTensors == ImageTensors(tensorList)
    ensures forall t :: t in imageTensors <==> t in tensorList && JavaString.Contains(t.tensorType, "image")
  {
    imageTensors := [];
    var i := 0;
    while i < |tensorList|
      invariant 0 <= i <= |tensorList|
      invariant imageTensors == ImageTensors(tensorList[..i])
    {
      assert tensorList[..i + 1][..i] == tensorList[..i];
      if JavaString.Contains(tensorList[i].tensorType, "image") {
        imageTensors := imageTensors + [tensorList[i]];
      }
      i := i + 1;
    }
    assert tensorList[..i] == tensorList;
  }
}
