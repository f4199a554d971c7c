/**
 * deepimagej.stamp.TestStamp.checkInputTileSize: before a test run, the
 * tile size the user typed for an input image is checked against the
 * model's description. Every input dimension must equal the minimum size
 * when its step is 0, and, when patching is allowed, lie on the grid
 * minimum + N * step and be positive. Unless the network is pyramidal,
 * every image output dimension then checks the output size that tile
 * produces (tile * scale rounded, minus twice the offset) against the
 * declared output shape and the halo.
 *
 * The Java method shows an error dialog and returns false; here the
 * verdict names the rule that failed and the value the dialog reports.
 * An exception the Java code would throw is the verdict Thrown.
 */
module TestStamp {
  import opened Wrappers
  import JavaString
  import IntArith
  import DijTensor

  datatype Fault = NullPointer | IndexOutOfBounds

  datatype TileVerdict =
    | Fits
    | FixedSizeDiffers(dim: nat)
    | OffGrid(dim: nat, suggestion: int)
    | NotPositive(dim: nat)
    | OutputSizeDiffers(output: nat, dim: nat, size: int)
    | OutputEmpty(output: nat, dim: nat, size: int)
    | HaloTooBig(output: nat, dim: nat, size: int)
    | Thrown(fault: Fault)

  /** Math.floor of the quotient of two integers. */
  function FloorDiv(a: int, b: int): (q: int)
    requires b != 0
    ensures b > 0 ==> q * b <= a < q * b + b
    ensures b < 0 ==> q * b + b < a <= q * b
  {
    if b > 0 then a / b else (-a) / (-b)
  }

  /** The tile the off-grid dialog suggests: floor((pp - min) / step) * step + min. */
  function Suggestion(pp: int, min: int, step: int): int
    requires step != 0
  {
    FloorDiv(pp - min, step) * step + min
  }

  /**
   * For a positive step the suggestion is the largest grid value not above
   * the typed tile: it is on the grid, at most the tile, and less than one
   * step below it; when the tile is off the grid it is strictly smaller.
   */
  lemma SuggestionBelow(pp: int, min: int, step: int)
    requires step > 0
    ensures var s := Suggestion(pp, min, step);
            s <= pp && pp - s < step && (s - min) % step == 0 &&
            (JavaString.JavaRem(pp - min, step) != 0 ==> s < pp)
  {
    var q := FloorDiv(pp - min, step);
    IntArith.DivModUnique(q * step, step, q, 0);
    JavaString.RemZero(pp - min, step);
    if JavaString.JavaRem(pp - min, step) != 0 {
      IntArith.DivModUnique(q * step, step, q, 0);
      assert pp - min != q * step;
    }
  }

  /** Math.round: the nearest integer, halves rounded up. */
  function Round(x: real): (r: int)
    ensures x - 0.5 < r as real <= x + 0.5
  {
    (x + 0.5).Floor
  }

  /** The output size of a tile: (int) Math.round(tile * scale) - 2 * offset, the long cast to int wrapping. */
  function OutputSize(tile: int, scale: real, offset: int): (size: int)
    ensures var rounded := Round(tile as real * scale);
            JavaString.MinInt <= rounded <= JavaString.MaxInt ==> size == rounded - 2 * offset
  {
    JavaString.Int32(Round(tile as real * scale)) - 2 * offset
  }

  /** A rejection of input dimension `dim` reports form[dim], which must exist. */
  function Reported(form: string, dim: nat, v: TileVerdict): TileVerdict
  {
    if dim < |JavaString.SplitChars(form)| then v else Thrown(IndexOutOfBounds)
  }

  /** The verdict of a loop that stops at the first rejection: its first entry that is not Fits. */
  function FirstFailure(vs: seq<TileVerdict>): TileVerdict
  {
    if vs == [] then Fits
    else if !vs[0].Fits? then vs[0]
    else FirstFailure(vs[1..])
  }

  /**
   * A loop passes exactly when each of its entries passes, and otherwise
   * reports an entry that all earlier entries let through.
   */
  lemma {:induction false} FirstFailureIs(vs: seq<TileVerdict>)
    ensures FirstFailure(vs).Fits? <==> forall j :: 0 <= j < |vs| ==> vs[j].Fits?
    ensures !FirstFailure(vs).Fits? ==>
              exists j :: 0 <= j < |vs| && FirstFailure(vs) == vs[j] && forall l :: 0 <= l < j ==> vs[l].Fits?
  {
    if vs != [] && vs[0].Fits? {
      FirstFailureIs(vs[1..]);
      assert forall j :: 1 <= j < |vs| ==> vs[j] == vs[1..][j - 1];
      if !FirstFailure(vs).Fits? {
        var j :| 0 <= j < |vs| - 1 && FirstFailure(vs[1..]) == vs[1..][j] && forall l :: 0 <= l < j ==> vs[1..][l].Fits?;
        assert forall l :: 0 <= l < j + 1 ==> vs[l].Fits? by {
          forall l | 0 <= l < j + 1
            ensures vs[l].Fits?
          {
            if l > 0 {
              assert vs[l] == vs[1..][l - 1];
            }
          }
        }
      }
    }
  }

  /** One step of such a loop: an entry that passes leaves the verdict to the rest. */
  lemma FirstFailureStep(vs: seq<TileVerdict>, i: nat)
    requires i < |vs|
    ensures vs[i].Fits? ==> FirstFailure(vs[i..]) == FirstFailure(vs[i + 1..])
    ensures !vs[i].Fits? ==> FirstFailure(vs[i..]) == vs[i]
  {
    assert vs[i..][0] == vs[i];
    assert vs[i..][1..] == vs[i + 1..];
  }

  /** The verdict of input dimension i (Fits when it passes). */
  function InputDim(tileSize: seq<int>, inp: DijTensor.Tensor, allowPatching: bool, i: nat): TileVerdict
    requires i < |tileSize|
  {
    if i >= |inp.step| || i >= |inp.minimumSize| then Thrown(IndexOutOfBounds)
    else
      var step := inp.step[i];
      var min := inp.minimumSize[i];
      var pp := tileSize[i];
      if step == 0 && min != pp then Reported(inp.form, i, FixedSizeDiffers(i))
      else if allowPatching && step != 0 && JavaString.JavaRem(pp - min, step) != 0 then
        Reported(inp.form, i, OffGrid(i, Suggestion(pp, min, step)))
      else if allowPatching && pp <= 0 then Reported(inp.form, i, NotPositive(i))
      else Fits
  }

  /** An input dimension passes exactly when its entries exist and it meets the three rules. */
  lemma InputDimFits(tileSize: seq<int>, inp: DijTensor.Tensor, allowPatching: bool, i: nat)
    requires i < |tileSize|
    ensures InputDim(tileSize, inp, allowPatching, i).Fits? <==>
              i < |inp.step| && i < |inp.minimumSize| &&
              (inp.step[i] == 0 ==> tileSize[i] == inp.minimumSize[i]) &&
              (allowPatching && inp.step[i] != 0 ==> (tileSize[i] - inp.minimumSize[i]) % inp.step[i] == 0) &&
              (allowPatching ==> tileSize[i] > 0)
  {
    if i < |inp.step| && i < |inp.minimumSize| && inp.step[i] != 0 {
      JavaString.RemZero(tileSize[i] - inp.minimumSize[i], inp.step[i]);
    }
  }

  /** The verdicts of the input loop, one per dimension of the tile. */
  function InputVerdicts(tileSize: seq<int>, inp: DijTensor.Tensor, allowPatching: bool): (vs: seq<TileVerdict>)
    ensures |vs| == |tileSize|
  {
    seq(|tileSize|, i requires 0 <= i < |tileSize| => InputDim(tileSize, inp, allowPatching, i))
  }

  /** Whether the output size is computed at all: the tile is the user's (patching) or fixed (step 0). */
  predicate Computed(inp: DijTensor.Tensor, allowPatching: bool, ind: nat)
    requires allowPatching || ind < |inp.step|
  {
    allowPatching || inp.step[ind] == 0
  }

  /**
   * The verdict of dimension i of output number k (Fits when it passes).
   * When the size is not computed it stays 0, and the halo is still
   * compared with it.
   */
  function OutputDim(tileSize: seq<int>, inp: DijTensor.Tensor, allowPatching: bool, out: DijTensor.Tensor, k: nat, i: nat): TileVerdict
    requires i < |JavaString.SplitChars(out.form)|
  {
    var ind := JavaString.IndexOf(inp.form, JavaString.SplitChars(out.form)[i]);
    if ind == -1 then Fits
    else if !allowPatching && ind >= |inp.step| then Thrown(IndexOutOfBounds)
    else
      var computed := Computed(inp, allowPatching, ind);
      if computed && ind >= |tileSize| then Thrown(IndexOutOfBounds)
      else if computed && out.scale.None? then Thrown(NullPointer)
      else if computed && i >= |out.scale.value| then Thrown(IndexOutOfBounds)
      else if computed && out.offset.None? then Thrown(NullPointer)
      else if computed && i >= |out.offset.value| then Thrown(IndexOutOfBounds)
      else
        var size := if computed then OutputSize(tileSize[ind], out.scale.value[i], out.offset.value[i]) else 0;
        if computed && i >= |out.tensorShape| then Thrown(IndexOutOfBounds)
        else if computed && out.tensorShape[i] != -1 && size != out.tensorShape[i] then OutputSizeDiffers(k, i, size)
        else if computed && size <= 0 then OutputEmpty(k, i, size)
        else if i >= |out.halo| then Thrown(IndexOutOfBounds)
        else if 2 * out.halo[i] > size then HaloTooBig(k, i, size)
        else Fits
  }

  /**
   * An output dimension the input does not have always passes; one it has
   * passes exactly when its entries exist, a computed size matches the
   * declared shape (unless that is -1) and is positive, and twice the halo
   * fits in the size (0 when it is not computed).
   */
  lemma OutputDimFits(tileSize: seq<int>, inp: DijTensor.Tensor, allowPatching: bool, out: DijTensor.Tensor, k: nat, i: nat)
    requires i < |JavaString.SplitChars(out.form)|
    ensures var ind := JavaString.IndexOf(inp.form, JavaString.SplitChars(out.form)[i]);
            OutputDim(tileSize, inp, allowPatching, out, k, i).Fits? <==>
              ind == -1 ||
              ((allowPatching || ind < |inp.step|) && i < |out.halo| &&
               if Computed(inp, allowPatching, ind) then
                 ind < |tileSize| && out.scale.Some? && i < |out.scale.value| &&
                 out.offset.Some? && i < |out.offset.value| && i < |out.tensorShape| &&
                 var size := OutputSize(tileSize[ind], out.scale.value[i], out.offset.value[i]);
                 (out.tensorShape[i] == -1 || size == out.tensorShape[i]) && size > 0 && 2 * out.halo[i] <= size
               else
                 out.halo[i] <= 0)
  {
  }

  /** The first input tensor carrying the name, as retrieveByName finds it, or None (Java's null). */
  function FirstNamed(name: string, tensors: seq<DijTensor.Tensor>): (r: Option<DijTensor.Tensor>)
    ensures r.None? <==> forall i :: 0 <= i < |tensors| ==> tensors[i].name != name
    ensures r.Some? ==> r.value.name == name && r.value in tensors
  {
    if tensors == [] then None
    else if tensors[0].name == name then Some(tensors[0])
    else FirstNamed(name, tensors[1..])
  }

  /** What retrieveByName promises determines its result: it is FirstNamed. */
  lemma {:induction false} RetrievedIsFirstNamed(name: string, tensors: seq<DijTensor.Tensor>, wanted: Option<DijTensor.Tensor>)
    requires wanted.None? <==> forall i :: 0 <= i < |tensors| ==> tensors[i].name != name
    requires wanted.Some? ==> exists i :: 0 <= i < |tensors| && tensors[i] == wanted.value &&
                                wanted.value.name == name &&
                                forall j :: 0 <= j < i ==> tensors[j].name != name
    ensures wanted == FirstNamed(name, tensors)
    decreases |tensors|
  {
    if wanted.Some? {
      var i :| 0 <= i < |tensors| && tensors[i] == wanted.value && wanted.value.name == name &&
               forall j :: 0 <= j < i ==> tensors[j].name != name;
      if i > 0 {
        assert tensors[1..][i - 1] == tensors[i];
        RetrievedIsFirstNamed(name, tensors[1..], wanted);
      }
    }
  }

  /** The verdicts of the dimension loop of output number k, one per entry of its form. */
  function OutputDimVerdicts(tileSize: seq<int>, inp: DijTensor.Tensor, allowPatching: bool, out: DijTensor.Tensor, k: nat): (vs: seq<TileVerdict>)
    ensures |vs| == |JavaString.SplitChars(out.form)|
  {
    seq(|JavaString.SplitChars(out.form)|,
        i requires 0 <= i < |JavaString.SplitChars(out.form)| => OutputDim(tileSize, inp, allowPatching, out, k, i))
  }

  /** The verdict of output number k: outputs whose type does not contain "image" are skipped. */
  function OutputVerdict(tileSize: seq<int>, inp: DijTensor.Tensor, allowPatching: bool, out: DijTensor.Tensor, k: nat): TileVerdict
  {
    if JavaString.Contains(out.tensorType, "image") then FirstFailure(OutputDimVerdicts(tileSize, inp, allowPatching, out, k)) else Fits
  }

  /** The verdicts of the output loop, one per output. */
  function OutputVerdicts(tileSize: seq<int>, inp: DijTensor.Tensor, allowPatching: bool, outputs: seq<DijTensor.Tensor>): (vs: seq<TileVerdict>)
    ensures |vs| == |outputs|
  {
    seq(|outputs|, m requires 0 <= m < |outputs| => OutputVerdict(tileSize, inp, allowPatching, outputs[m], m))
  }

  /**
   * The whole check: a missing input tensor throws; then the input loop;
   * then, unless the network is pyramidal, the output loop.
   */
  function Check(tileSize: seq<int>, inp: Option<DijTensor.Tensor>, allowPatching: bool, pyramidal: bool,
                 outputs: seq<DijTensor.Tensor>): TileVerdict
  {
    if inp.None? then Thrown(NullPointer)
    else
      var v := FirstFailure(InputVerdicts(tileSize, inp.value, allowPatching));
      if !v.Fits? || pyramidal then v else FirstFailure(OutputVerdicts(tileSize, inp.value, allowPatching, outputs))
  }

  /**
   * A tile passes exactly when the input tensor exists, every input
   * dimension passes, and, for a network that is not pyramidal, every
   * output passes.
   */
  lemma CheckFits(tileSize: seq<int>, inp: Option<DijTensor.Tensor>, allowPatching: bool, pyramidal: bool,
                  outputs: seq<DijTensor.Tensor>)
    ensures Check(tileSize, inp, allowPatching, pyramidal, outputs).Fits? <==>
              inp.Some? &&
              (forall j :: 0 <= j < |tileSize| ==> InputDim(tileSize, inp.value, allowPatching, j).Fits?) &&
              (!pyramidal ==>
                 forall m :: 0 <= m < |outputs| ==> OutputVerdict(tileSize, inp.value, allowPatching, outputs[m], m).Fits?)
  {
    if inp.Some? {
      var ins := InputVerdicts(tileSize, inp.value, allowPatching);
      var outs := OutputVerdicts(tileSize, inp.value, allowPatching, outputs);
      FirstFailureIs(ins);
      FirstFailureIs(outs);
      assert forall j :: 0 <= j < |tileSize| ==> ins[j] == InputDim(tileSize, inp.value, allowPatching, j);
      assert forall m :: 0 <= m < |outputs| ==> outs[m] == OutputVerdict(tileSize, inp.value, allowPatching, outputs[m], m);
    }
  }

  /** An output passes exactly when it is not an image or each of its dimensions passes. */
  lemma OutputVerdictFits(tileSize: seq<int>, inp: DijTensor.Tensor, allowPatching: bool, out: DijTensor.Tensor, k: nat)
    ensures OutputVerdict(tileSize, inp, allowPatching, out, k).Fits? <==>
              (JavaString.Contains(out.tensorType, "image") ==>
                 forall i :: 0 <= i < |JavaString.SplitChars(out.form)| ==> OutputDim(tileSize, inp, allowPatching, out, k, i).Fits?)
  {
    var vs := OutputDimVerdicts(tileSize, inp, allowPatching, out, k);
    FirstFailureIs(vs);
    assert forall i :: 0 <= i < |vs| ==> vs[i] == OutputDim(tileSize, inp, allowPatching, out, k, i);
  }

  /**
   * checkInputTileSize on the tile size, the input's name and the fields
   * of Parameters it reads (inputList, outputList, allowPatching,
   * pyramidalNetwork).
   */
  method CheckInputTileSize(tileSize: seq<int>, tensorName: string, inputs: seq<DijTensor.Tensor>,
                            outputs: seq<DijTensor.Tensor>, allowPatching: bool, pyramidal: bool)
    returns (r: TileVerdict)
    ensures r == Check(tileSize, FirstNamed(tensorName, inputs), allowPatching, pyramidal, outputs)
  {
    var found := DijTensor.RetrieveByName(tensorName, inputs);
    RetrievedIsFirstNamed(tensorName, inputs, found);
    if found.None? {
      return Thrown(NullPointer);
    }
    var inp := found.value;
    var v := CheckInputs(tileSize, inp, allowPatching);
    if !v.Fits? || pyramidal {
      return v;
    }
    r := CheckOutputs(tileSize, inp, allowPatching, outputs);
  }

  /** The loop over the input dimensions. */
  method CheckInputs(tileSize: seq<int>, inp: DijTensor.Tensor, allowPatching: bool) returns (r: TileVerdict)
    ensures r == FirstFailure(InputVerdicts(tileSize, inp, allowPatching))
  {
    ghost var ins := InputVerdicts(tileSize, inp, allowPatching);
    var i := 0;
    while i < |tileSize|
      invariant 0 <= i <= |tileSize|
      invariant FirstFailure(ins) == FirstFailure(ins[i..])
    {
      var v := CheckInputDim(tileSize, inp, allowPatching, i);
      InputAdvance(tileSize, inp, allowPatching, i, v);
      if !v.Fits? {
        return v;
      }
      i := i + 1;
    }
    assert ins[i..] == [];
    return Fits;
  }

  /** Input dimension i either ends the loop with its verdict or lets the rest decide. */
  lemma InputAdvance(tileSize: seq<int>, inp: DijTensor.Tensor, allowPatching: bool, i: nat, v: TileVerdict)
    requires i < |tileSize|
    requires v == InputDim(tileSize, inp, allowPatching, i)
    ensures var ins := InputVerdicts(tileSize, inp, allowPatching);
      (v.Fits? ==> FirstFailure(ins[i..]) == FirstFailure(ins[i + 1..])) &&
      (!v.Fits? ==> FirstFailure(ins[i..]) == v)
  {
    FirstFailureStep(InputVerdicts(tileSize, inp, allowPatching), i);
  }

  /** The loop over the outputs; only image outputs are checked. */
  method CheckOutputs(tileSize: seq<int>, inp: DijTensor.Tensor, allowPatching: bool, outputs: seq<DijTensor.Tensor>)
    returns (r: TileVerdict)
    ensures r == FirstFailure(OutputVerdicts(tileSize, inp, allowPatching, outputs))
  {
    ghost var outs := OutputVerdicts(tileSize, inp, allowPatching, outputs);
    var k := 0;
    while k < |outputs|
      invariant 0 <= k <= |outputs|
      invariant FirstFailure(outs) == FirstFailure(outs[k..])
    {
      var v := Fits;
      if JavaString.Contains(outputs[k].tensorType, "image") {
        v := CheckOutput(tileSize, inp, allowPatching, outputs[k], k);
      }
      OutputsAdvance(tileSize, inp, allowPatching, outputs, k, v);
      if !v.Fits? {
        return v;
      }
      k := k + 1;
    }
    assert outs[k..] == [];
    return Fits;
  }

  /** Output k either ends the loop with its verdict or lets the rest decide. */
  lemma OutputsAdvance(tileSize: seq<int>, inp: DijTensor.Tensor, allowPatching: bool, outputs: seq<DijTensor.Tensor>,
                       k: nat, v: TileVerdict)
    requires k < |outputs|
    requires v == OutputVerdict(tileSize, inp, allowPatching, outputs[k], k)
    ensures var outs := OutputVerdicts(tileSize, inp, allowPatching, outputs);
      (v.Fits? ==> FirstFailure(outs[k..]) == FirstFailure(outs[k + 1..])) &&
      (!v.Fits? ==> FirstFailure(outs[k..]) == v)
  {
    FirstFailureStep(OutputVerdicts(tileSize, inp, allowPatching, outputs), k);
  }

  /** One dimension of the input loop. */
  method CheckInputDim(tileSize: seq<int>, inp: DijTensor.Tensor, allowPatching: bool, i: nat) returns (r: TileVerdict)
    requires i < |tileSize|
    ensures r == InputDim(tileSize, inp, allowPatching, i)
  {
    if i >= |inp.step| || i >= |inp.minimumSize| {
      return Thrown(IndexOutOfBounds);
    }
    var form := JavaString.SplitChars(inp.form);
    var step := inp.step[i];
    var min := inp.minimumSize[i];
    var pp := tileSize[i];
    if step == 0 && min != pp {
      return if i < |form| then FixedSizeDiffers(i) else Thrown(IndexOutOfBounds);
    } else if allowPatching && step != 0 && JavaString.JavaRem(pp - min, step) != 0 {
      var n := FloorDiv(pp - min, step);
      var suggestion := n * step + min;
      return if i < |form| then OffGrid(i, suggestion) else Thrown(IndexOutOfBounds);
    } else if allowPatching && pp <= 0 {
      return if i < |form| then NotPositive(i) else Thrown(IndexOutOfBounds);
    }
    return Fits;
  }

  /** The dimension loop over one image output. */
  method CheckOutput(tileSize: seq<int>, inp: DijTensor.Tensor, allowPatching: bool, out: DijTensor.Tensor, k: nat)
    returns (r: TileVerdict)
    ensures r == FirstFailure(OutputDimVerdicts(tileSize, inp, allowPatching, out, k))
  {
    ghost var vs := OutputDimVerdicts(tileSize, inp, allowPatching, out, k);
    var outForm := JavaString.SplitChars(out.form);
    var i := 0;
    while i < |outForm|
      invariant 0 <= i <= |outForm|
      invariant FirstFailure(vs) == FirstFailure(vs[i..])
    {
      var v := CheckOutputDim(tileSize, inp, allowPatching, out, k, i);
      OutputAdvance(tileSize, inp, allowPatching, out, k, i, v);
      if !v.Fits? {
        return v;
      }
      i := i + 1;
    }
    assert vs[i..] == [];
    return Fits;
  }

  /** Dimension i of an output either ends the loop with its verdict or lets the rest decide. */
  lemma OutputAdvance(tileSize: seq<int>, inp: DijTensor.Tensor, allowPatching: bool, out: DijTensor.Tensor, k: nat, i: nat, v: TileVerdict)
    requires i < |JavaString.SplitChars(out.form)|
    requires v == OutputDim(tileSize, inp, allowPatching, out, k, i)
    ensures var vs := OutputDimVerdicts(tileSize, inp, allowPatching, out, k);
      (v.Fits? ==> FirstFailure(vs[i..]) == FirstFailure(vs[i + 1..])) &&
      (!v.Fits? ==> FirstFailure(vs[i..]) == v)
  {
    FirstFailureStep(OutputDimVerdicts(tileSize, inp, allowPatching, out, k), i);
  }

  /** One dimension of an image output: Fits lets the loop go on. */
  method CheckOutputDim(tileSize: seq<int>, inp: DijTensor.Tensor, allowPatching: bool, out: DijTensor.Tensor, k: nat, i: nat)
    returns (r: TileVerdict)
    requires i < |JavaString.SplitChars(out.form)|
    ensures r == OutputDim(tileSize, inp, allowPatching, out, k, i)
  {
    var ind := JavaString.IndexOf(inp.form, JavaString.SplitChars(out.form)[i]);
    if ind != -1 {
      if !allowPatching && ind >= |inp.step| {
        return Thrown(IndexOutOfBounds);
      }
      var computed := allowPatching || inp.step[ind] == 0;
      var outSize := 0;
      if computed {
        if ind >= |tileSize| {
          return Thrown(IndexOutOfBounds);
        }
        if out.scale.None? {
          return Thrown(NullPointer);
        }
        if i >= |out.scale.value| {
          return Thrown(IndexOutOfBounds);
        }
        if out.offset.None? {
          return Thrown(NullPointer);
        }
        if i >= |out.offset.value| {
          return Thrown(IndexOutOfBounds);
        }
        outSize := OutputSize(tileSize[ind], out.scale.value[i], out.offset.value[i]);
        if i >= |out.tensorShape| {
          return Thrown(IndexOutOfBounds);
        }
      }
      if computed && out.tensorShape[i] != -1 && outSize != out.tensorShape[i] {
        return OutputSizeDiffers(k, i, outSize);
      } else if computed && outSize <= 0 {
        return OutputEmpty(k, i, outSize);
      } else if i >= |out.halo| {
        return Thrown(IndexOutOfBounds);
      } else if 2 * out.halo[i] > outSize {
        return HaloTooBig(k, i, outSize);
      }
    }
    return Fits;
  }

  /**
   * The output check as evidently intended: when the size is not computed
   * nothing can be said about the output, so the halo is not compared with
   * a size of 0 either.
   */
  function OutputDimIntended(tileSize: seq<int>, inp: DijTensor.Tensor, allowPatching: bool, out: DijTensor.Tensor, k: nat, i: nat): (r: TileVerdict)
    requires i < |JavaString.SplitChars(out.form)|
    ensures var ind := JavaString.IndexOf(inp.form, JavaString.SplitChars(out.form)[i]);
            ind != -1 && (allowPatching || ind < |inp.step|) && !Computed(inp, allowPatching, ind) ==> r == Fits
    ensures var ind := JavaString.IndexOf(inp.form, JavaString.SplitChars(out.form)[i]);
            ind != -1 && (allowPatching || ind < |inp.step|) && Computed(inp, allowPatching, ind) ==>
              r == OutputDim(tileSize, inp, allowPatching, out, k, i)
  {
    var ind := JavaString.IndexOf(inp.form, JavaString.SplitChars(out.form)[i]);
    if ind != -1 && (allowPatching || ind < |inp.step|) && !Computed(inp, allowPatching, ind) then Fits
    else OutputDim(tileSize, inp, allowPatching, out, k, i)
  }

  /**
   * As written, an image output whose input axis has a non-zero step is
   * rejected without patching as soon as its halo is positive: the halo is
   * compared with the size 0 that was never computed. The intended check
   * lets it pass.
   */
  lemma HaloAgainstUncomputedSize(tileSize: seq<int>, inp: DijTensor.Tensor, out: DijTensor.Tensor, k: nat)
    requires inp.form == "XY" && out.form == "XY" && |inp.step| == 2 && inp.step[0] != 0
    requires |out.halo| >= 1 && out.halo[0] > 0
    ensures OutputDim(tileSize, inp, false, out, k, 0) == HaloTooBig(k, 0, 0)
    ensures OutputDimIntended(tileSize, inp, false, out, k, 0) == Fits
  {
    assert JavaString.SplitChars(out.form)[0] == "X";
    assert JavaString.OccursAt(inp.form, "X", 0);
  }
}
