/**
 * deepimagej.Parameters (the rdf.yaml version): the constructor that reads a
 * model's description out of the mapping the YAML reader returns, and the
 * helpers that turn YAML lists into Java arrays.
 *
 * Every Java cast the constructor makes on a value of that mapping is kept:
 * a value of the wrong type raises ClassCastException, a missing one
 * NullPointerException where it is dereferenced, and both end the
 * constructor. Fields are read in the order the source reads them.
 */
module YamlParameters {
  import opened Wrappers
  import opened Yaml
  import JavaString
  import Table2Tensor

  /** The exceptions that escape the constructor. */
  datatype Failure = ClassCast | NullPointer | IndexOutOfBounds

  type Entries = seq<(string, Value)>

  // ---------------------------------------------------------------------
  // Java casts of a value taken out of a mapping (null when the key is absent)

  /** `(String) v`. */
  function AsString(v: Option<Value>): (r: Result<Option<string>, Failure>)
    ensures r.Ok? && r.value.Some? <==> v.Some? && v.value.Str?
    ensures r.Ok? && r.value.Some? ==> r.value.value == v.value.s
    ensures r.Err? <==> v.Some? && !v.value.Str? && !v.value.Null?
  {
    match v
    case None => Ok(None)
    case Some(Null) => Ok(None)
    case Some(Str(s)) => Ok(Some(s))
    case Some(_) => Err(ClassCast)
  }

  /** `(List) v`, also `(ArrayList) v`: the reader builds every YAML sequence as an ArrayList. */
  function AsList(v: Option<Value>): (r: Result<Option<seq<Value>>, Failure>)
    ensures r.Ok? && r.value.Some? <==> v.Some? && v.value.List?
    ensures r.Ok? && r.value.Some? ==> r.value.value == v.value.items
    ensures r.Err? <==> v.Some? && !v.value.List? && !v.value.Null?
  {
    match v
    case None => Ok(None)
    case Some(Null) => Ok(None)
    case Some(List(items)) => Ok(Some(items))
    case Some(_) => Err(ClassCast)
  }

  /** `(Map) v`, a cast that a later `get` dereferences: null throws there. */
  function AsMap(v: Option<Value>): (r: Result<Entries, Failure>)
    ensures r.Ok? <==> v.Some? && v.value.Map?
    ensures r.Ok? ==> r.value == v.value.entries
    ensures r.Err? ==> (r.error == NullPointer <==> v.None? || v.value.Null?)
  {
    match v
    case None => Err(NullPointer)
    case Some(Null) => Err(NullPointer)
    case Some(Map(entries)) => Ok(entries)
    case Some(_) => Err(ClassCast)
  }

  /** `(boolean) v`: unboxing null throws. */
  function AsBool(v: Option<Value>): (r: Result<bool, Failure>)
    ensures r.Ok? <==> v.Some? && v.value.Bool?
    ensures r.Ok? ==> r.value == v.value.b
  {
    match v
    case None => Err(NullPointer)
    case Some(Null) => Err(NullPointer)
    case Some(Bool(b)) => Ok(b)
    case Some(_) => Err(ClassCast)
  }

  predicate HasKey(entries: Entries, key: string)
  {
    exists i :: 0 <= i < |entries| && entries[i].0 == key
  }

  /** The keys of a mapping in the order it iterates them. */
  function Keys(entries: Entries): (r: seq<string>)
    ensures |r| == |entries| && forall i :: 0 <= i < |entries| ==> r[i] == entries[i].0
  {
    seq(|entries|, i requires 0 <= i < |entries| => entries[i].0)
  }

  function Zeros(n: nat): (r: seq<int>)
    ensures |r| == n && forall i :: 0 <= i < n ==> r[i] == 0
  {
    seq(n, _ => 0)
  }

  function RealZeros(n: nat): (r: seq<real>)
    ensures |r| == n && forall i :: 0 <= i < n ==> r[i] == 0.0
  {
    seq(n, _ => 0.0)
  }

  // ---------------------------------------------------------------------
  // Java's text for an object (`"" + obj`)

  /** String.valueOf of a value read from YAML: collections print as
      "[a, b]" and "{k=v, k2=v2}", null as "null". */
  function Text(v: Value): (r: string)
    decreases v, 1
  {
    match v
    case Str(s) => s
    case Double(_, text) => text
    case Float(_, text) => text
    case Long(l) => JavaString.IntToString(l)
    case Integer(i) => JavaString.IntToString(i)
    case Bool(b) => if b then "true" else "false"
    case List(items) => "[" + ItemsText(v, items) + "]"
    case Map(entries) => "{" + EntriesText(v, entries) + "}"
    case Null => "null"
  }

  function ItemsText(whole: Value, items: seq<Value>): (r: string)
    requires forall i :: 0 <= i < |items| ==> items[i] < whole
    decreases whole, 0, |items|
  {
    if |items| == 0 then ""
    else if |items| == 1 then Text(items[0])
    else Text(items[0]) + ", " + ItemsText(whole, items[1..])
  }

  function EntriesText(whole: Value, entries: Entries): (r: string)
    requires forall i :: 0 <= i < |entries| ==> entries[i].1 < whole
    decreases whole, 0, |entries|
  {
    if |entries| == 0 then ""
    else
      var e := entries[0].0 + "=" + Text(entries[0].1);
      if |entries| == 1 then e else e + ", " + EntriesText(whole, entries[1..])
  }

  /** `"" + obj.get(key)`: never null; an absent key prints "null". */
  function ValueText(v: Option<Value>): (r: string)
    ensures v.None? ==> r == "null"
    ensures v.Some? && v.value.Str? ==> r == v.value.s
  {
    match v
    case None => "null"
    case Some(x) => Text(x)
  }

  // ---------------------------------------------------------------------
  // castListToIntArray, castListToDoubleArray, castListToFloatArray

  /** `(int) in`: unboxing an Integer; null throws NullPointerException, any
      other object ClassCastException. */
  function IntOf(v: Value): (r: Result<int, Failure>)
    ensures r.Ok? <==> v.Integer?
  {
    match v
    case Integer(i) => Ok(i)
    case Null => Err(NullPointer)
    case _ => Err(ClassCast)
  }

  /** The first n elements converted in order; the first that fails decides
      the exception. */
  function IntsUpTo(items: seq<Value>, n: nat): (r: Result<seq<int>, Failure>)
    requires n <= |items|
    ensures r.Ok? <==> forall k :: 0 <= k < n ==> items[k].Integer?
    ensures r.Ok? ==> |r.value| == n && forall k :: 0 <= k < n ==> items[k] == Integer(r.value[k])
    ensures r.Err? ==> exists k :: 0 <= k < n && IntOf(items[k]) == Err(r.error) &&
                        forall j :: 0 <= j < k ==> items[j].Integer?
  {
    if n == 0 then Ok([])
    else
      match IntsUpTo(items, n - 1)
      case Err(e) => Err(e)
      case Ok(done) =>
        match IntOf(items[n - 1])
        case Err(e) => Err(e)
        case Ok(x) => Ok(done + [x])
  }

  /** castListToIntArray over a list that may be null. */
  function IntArray(list: Option<seq<Value>>): (r: Result<seq<int>, Failure>)
  {
    match list
    case None => Err(NullPointer)
    case Some(items) => IntsUpTo(items, |items|)
  }

  /** castListToIntArray: one int per element, same length, same order. */
  method CastListToIntArray(list: Option<seq<Value>>) returns (r: Result<seq<int>, Failure>)
    ensures r == IntArray(list)
    ensures r.Ok? ==> list.Some? && |r.value| == |list.value| &&
                      forall k :: 0 <= k < |r.value| ==> list.value[k] == Integer(r.value[k])
  {
    if list.None? {
      return Err(NullPointer);
    }
    var items := list.value;
    var vals := new int[|items|](_ => 0);
    var c := 0;
    while c < |items|
      invariant 0 <= c <= |items|
      invariant IntsUpTo(items, c) == Ok(vals[..c])
    {
      var x := IntOf(items[c]);
      if x.Err? {
        return Err(x.error);
      }
      vals[c] := x.value;
      assert vals[..c + 1] == vals[..c] + [x.value];
      c := c + 1;
    }
    assert vals[..c] == vals[..];
    r := Ok(vals[..]);
  }

  /** castListToDoubleArray's reference: every element a Double, or null. */
  function DoubleArray(list: Option<seq<Value>>): (r: Option<seq<real>>)
    ensures r.Some? <==> list.Some? && forall k :: 0 <= k < |list.value| ==> list.value[k].Double?
    ensures r.Some? ==> |r.value| == |list.value| &&
                        forall k :: 0 <= k < |r.value| ==> r.value[k] == list.value[k].d
  {
    if list.Some? && forall k :: 0 <= k < |list.value| ==> list.value[k].Double? then
      Some(seq(|list.value|, k requires 0 <= k < |list.value| => list.value[k].d))
    else None
  }

  /** castListToDoubleArray: `(double) in` for each element; any exception,
      a null list included, is caught and gives null. */
  method CastListToDoubleArray(list: Option<seq<Value>>) returns (r: Option<seq<real>>)
    ensures r == DoubleArray(list)
  {
    if list.None? {
      return None;
    }
    var items := list.value;
    var vals := new real[|items|](_ => 0.0);
    var c := 0;
    while c < |items|
      invariant 0 <= c <= |items|
      invariant forall k :: 0 <= k < c ==> items[k].Double? && vals[k] == items[k].d
    {
      if !items[c].Double? {
        return None;
      }
      vals[c] := items[c].d;
      c := c + 1;
    }
    assert vals[..] == seq(|items|, k requires 0 <= k < |items| => items[k].d);
    r := Some(vals[..]);
  }

  /** castListToFloatArray over the first n elements: `((Double) in).floatValue()`.
      Only ClassCastException is caught: a non-Double element makes the
      array null, a null element throws NullPointerException. */
  function FloatsUpTo(items: seq<Value>, n: nat): (r: Result<Option<seq<real>>, Failure>)
    requires n <= |items|
    ensures r.Ok? && r.value.Some? <==> forall k :: 0 <= k < n ==> items[k].Double?
    ensures r.Ok? && r.value.Some? ==>
              |r.value.value| == n && forall k :: 0 <= k < n ==> r.value.value[k] == items[k].d
    ensures r.Err? <==> exists k :: 0 <= k < n && items[k].Null? &&
                         forall j :: 0 <= j < k ==> items[j].Double?
    ensures r.Err? ==> r.error == NullPointer
  {
    if n == 0 then Ok(Some([]))
    else
      match FloatsUpTo(items, n - 1)
      case Err(e) => Err(e)
      case Ok(None) => Ok(None)
      case Ok(Some(done)) =>
        match items[n - 1]
        case Double(d, _) => Ok(Some(done + [d]))
        case Null => Err(NullPointer)
        case _ => Ok(None)
  }

  function FloatArray(list: Option<seq<Value>>): (r: Result<Option<seq<real>>, Failure>)
  {
    match list
    case None => Err(NullPointer)
    case Some(items) => FloatsUpTo(items, |items|)
  }

  /** castListToFloatArray. */
  method CastListToFloatArray(list: Option<seq<Value>>) returns (r: Result<Option<seq<real>>, Failure>)
    ensures r == FloatArray(list)
  {
    if list.None? {
      return Err(NullPointer);
    }
    var items := list.value;
    var vals := new real[|items|](_ => 0.0);
    var c := 0;
    while c < |items|
      invariant 0 <= c <= |items|
      invariant FloatsUpTo(items, c) == Ok(Some(vals[..c]))
    {
      if items[c].Null? {
        assert FloatsUpTo(items, |items|).Err? by {
          assert items[c].Null? && forall j :: 0 <= j < c ==> items[j].Double?;
        }
        return Err(NullPointer);
      } else if !items[c].Double? {
        return Ok(None);
      }
      vals[c] := items[c].d;
      assert vals[..c + 1] == vals[..c] + [items[c].d];
      c := c + 1;
    }
    assert vals[..c] == vals[..];
    r := Ok(Some(vals[..]));
  }

  // ---------------------------------------------------------------------
  // The weight formats and the framework they select

  const TfFormat := "tensorflow_saved_model_bundle"
  const PtFormat := "pytorch_script"

  /** The loop over the keys of `weights`: which supported formats are listed. */
  method FindFormats(keys: seq<string>) returns (tf: bool, pt: bool)
    ensures tf <==> TfFormat in keys
    ensures pt <==> PtFormat in keys
  {
    tf, pt := false, false;
    var i := 0;
    while i < |keys|
      invariant 0 <= i <= |keys|
      invariant tf <==> TfFormat in keys[..i]
      invariant pt <==> PtFormat in keys[..i]
    {
      assert keys[..i + 1] == keys[..i] + [keys[i]];
      if keys[i] == TfFormat {
        tf := true;
      } else if keys[i] == PtFormat {
        pt := true;
      }
      i := i + 1;
    }
    assert keys[..i] == keys;
  }

  /** The framework named by the formats found; null when neither is there. */
  function FrameworkOf(tf: bool, pt: bool): (r: Option<string>)
    ensures r.None? <==> !tf && !pt
    ensures r.Some? ==> r.value in {"Tensorflow", "Pytorch", "Tensorflow/Pytorch"}
  {
    if tf && pt then Some("Tensorflow/Pytorch")
    else if tf then Some("Tensorflow")
    else if pt then Some("Pytorch")
    else None
  }

  // ---------------------------------------------------------------------
  // Input tensors

  /** tensor_shape rebuilt from the minimum size and the step: the minimum
      where the step is 0, -1 elsewhere. The loop runs over step and reads
      min at the same index, so a zero step past the end of min throws. */
  function ShapeFromSteps(min: seq<int>, step: seq<int>): (r: Result<seq<int>, Failure>)
  {
    if exists i :: 0 <= i < |step| && step[i] == 0 && i >= |min| then Err(IndexOutOfBounds)
    else Ok(seq(|step|, i requires 0 <= i < |step| => if step[i] == 0 then min[i] else -1))
  }

  /** The loop that fills tensor_shape. */
  method RebuildTensorShape(min: seq<int>, step: seq<int>) returns (r: Result<seq<int>, Failure>)
    ensures r == ShapeFromSteps(min, step)
  {
    var shape := new int[|step|](_ => 0);
    var i := 0;
    while i < |step|
      invariant 0 <= i <= |step|
      invariant forall k :: 0 <= k < i ==> step[k] == 0 ==> k < |min| && shape[k] == min[k]
      invariant forall k :: 0 <= k < i ==> step[k] != 0 ==> shape[k] == -1
    {
      if step[i] == 0 {
        if i >= |min| {
          return Err(IndexOutOfBounds);
        }
        shape[i] := min[i];
      } else {
        shape[i] := -1;
      }
      i := i + 1;
    }
    assert shape[..] == seq(|step|, i requires 0 <= i < |step| => if step[i] == 0 then min[i] else -1);
    r := Ok(shape[..]);
  }

  /** The shape fields of an input tensor. */
  datatype InputShape = InputShape(recommendedPatch: seq<int>, tensorShape: seq<int>,
                                   minimumSize: seq<int>, step: seq<int>, fixed: bool)

  /** The try block reads `shape` as a list of ints; whatever it throws sends
      the constructor to the catch block, which reads `shape` as a mapping
      holding `min` and `step`. */
  function ReadInputShape(shape: Option<Value>): (r: Result<InputShape, Failure>)
  {
    var tried := if shape.Some? && shape.value.List? then IntArray(Some(shape.value.items)) else Err(ClassCast);
    if tried.Ok? then
      var v := tried.value;
      Ok(InputShape(v, v, v, Zeros(|v|), true))
    else
      var entries :- AsMap(shape);
      var minList :- AsList(Get(entries, "min"));
      var min :- IntArray(minList);
      var stepList :- AsList(Get(entries, "step"));
      var step :- IntArray(stepList);
      var tensorShape :- ShapeFromSteps(min, step);
      Ok(InputShape(Zeros(|step|), tensorShape, min, step, false))
  }

  /** The try and catch blocks, with the two loops as methods. */
  method ReadInputShapeFields(shape: Option<Value>) returns (r: Result<InputShape, Failure>)
    ensures r == ReadInputShape(shape)
  {
    if shape.Some? && shape.value.List? {
      var tried := CastListToIntArray(Some(shape.value.items));
      if tried.Ok? {
        var v := tried.value;
        return Ok(InputShape(v, v, v, Zeros(|v|), true));
      }
    }
    var entries := AsMap(shape);
    if entries.Err? {
      return Err(entries.error);
    }
    var minList := AsList(Get(entries.value, "min"));
    if minList.Err? {
      return Err(minList.error);
    }
    var min := CastListToIntArray(minList.value);
    if min.Err? {
      return Err(min.error);
    }
    var stepList := AsList(Get(entries.value, "step"));
    if stepList.Err? {
      return Err(stepList.error);
    }
    var step := CastListToIntArray(stepList.value);
    if step.Err? {
      return Err(step.error);
    }
    var tensorShape := RebuildTensorShape(min.value, step.value);
    if tensorShape.Err? {
      return Err(tensorShape.error);
    }
    r := Ok(InputShape(Zeros(|step.value|), tensorShape.value, min.value, step.value, false));
  }

  /** Either form of shape gives tensor_shape[i] = minimum_size[i] where
      step[i] is 0 and -1 where it is not: a fixed shape has all steps 0. */
  lemma TensorShapeFromSteps(shape: Option<Value>)
    requires ReadInputShape(shape).Ok?
    ensures var s := ReadInputShape(shape).value;
      && |s.tensorShape| == |s.step| == |s.recommendedPatch|
      && forall i :: 0 <= i < |s.step| ==>
           s.tensorShape[i] == if s.step[i] == 0 then s.minimumSize[i] else -1
  {
  }

  /** A list shape of ints is a fixed input: patch, shape and minimum are the
      list, the step is all zeros. */
  lemma FixedInputShape(items: seq<Value>)
    requires forall k :: 0 <= k < |items| ==> items[k].Integer?
    ensures var s := ReadInputShape(Some(List(items)));
      && s.Ok? && s.value.fixed
      && |s.value.tensorShape| == |items|
      && (forall k :: 0 <= k < |items| ==> items[k] == Integer(s.value.tensorShape[k]))
      && s.value.recommendedPatch == s.value.tensorShape == s.value.minimumSize
      && s.value.step == Zeros(|items|)
  {
  }

  /** A list shape holding anything but ints falls into the catch block,
      whose cast to a mapping throws. */
  lemma ListShapeNotInts(items: seq<Value>)
    requires exists k :: 0 <= k < |items| && !items[k].Integer?
    ensures ReadInputShape(Some(List(items))) == Err(ClassCast)
  {
  }

  /** In the mapping form a zero step at an index min does not have throws. */
  lemma ShortMinimum(entries: Entries, min: seq<Value>, step: seq<Value>, i: nat)
    requires Get(entries, "min") == Some(List(min)) && Get(entries, "step") == Some(List(step))
    requires forall k :: 0 <= k < |min| ==> min[k].Integer?
    requires forall k :: 0 <= k < |step| ==> step[k].Integer?
    requires |min| <= i < |step| && step[i] == Integer(0)
    ensures ReadInputShape(Some(Map(entries))) == Err(IndexOutOfBounds)
  {
  }

  /** An input tensor as the constructor fills it. */
  datatype InputTensor = InputTensor(
    name: Option<string>,
    form: string,
    dataType: Option<string>,
    tensorType: string,
    shape: InputShape,
    exampleInput: Option<string>,
    inputTestSize: Option<string>,
    pixelSizeX: Option<string>,
    pixelSizeY: Option<string>,
    pixelSizeZ: Option<string>)

  /** One entry of `inputs` up to the completeness check: the axes are upper-cased
      (a missing `axes` throws there), the data range is cast and dropped. */
  function ReadInput(inp: Value): (r: Result<InputTensor, Failure>)
  {
    var e :- AsMap(Some(inp));
    var name :- AsString(Get(e, "name"));
    var axes :- AsString(Get(e, "axes"));
    if axes.None? then Err(NullPointer)
    else
      var dataType :- AsString(Get(e, "data_type"));
      var range :- AsList(Get(e, "data_range"));
      var shape :- ReadInputShape(Get(e, "shape"));
      Ok(InputTensor(name, JavaString.ToUpper(axes.value), dataType, "image", shape, None, None, None, None, None))
  }

  /** The test information of the k-th input: entry k of
      config.deepimagej.test_information.inputs. */
  function WithTestInfo(t: InputTensor, infos: Option<seq<Value>>, k: nat): (r: Result<InputTensor, Failure>)
  {
    if infos.None? then Err(NullPointer)
    else if k >= |infos.value| then Err(IndexOutOfBounds)
    else
      var info :- AsMap(Some(infos.value[k]));
      var example :- AsString(Get(info, "name"));
      var size :- AsString(Get(info, "size"));
      var pixel :- AsMap(Get(info, "pixel_size"));
      var x :- AsString(Get(pixel, "x"));
      var y :- AsString(Get(pixel, "y"));
      var z :- AsString(Get(pixel, "z"));
      Ok(t.(exampleInput := example, inputTestSize := size, pixelSizeX := x, pixelSizeY := y, pixelSizeZ := z))
  }

  /** How far a loop over entries got: through all of them, or stopped at an
      incomplete one (`last`), which is not added. */
  datatype Progress<T> = Going(done: seq<T>) | Stopped(done: seq<T>, last: T)

  /** A loop over the first n entries that adds each entry read complete
      (`true`), returns at the first incomplete one and ends at the first
      exception; steps[k] is what reading entry k gives. */
  function Scan<T>(steps: seq<Result<(T, bool), Failure>>, n: nat): (r: Result<Progress<T>, Failure>)
    requires n <= |steps|
    ensures r.Ok? && r.value.Going? ==> |r.value.done| == n
    ensures r.Ok? && r.value.Stopped? ==> |r.value.done| < n
  {
    if n == 0 then Ok(Going([]))
    else
      match Scan(steps, n - 1)
      case Err(e) => Err(e)
      case Ok(Stopped(done, last)) => Ok(Stopped(done, last))
      case Ok(Going(done)) =>
        match steps[n - 1]
        case Err(e) => Err(e)
        case Ok((t, complete)) => if complete then Ok(Going(done + [t])) else Ok(Stopped(done, t))
  }

  /** Every entry the loop keeps is the complete reading of the entry at its
      position; the one it stops at is the next entry, read incomplete; an
      exception is the first entry that throws, after complete ones. */
  lemma {:induction false} ScanRead<T>(steps: seq<Result<(T, bool), Failure>>, n: nat)
    requires n <= |steps|
    ensures var r := Scan(steps, n);
      && (r.Ok? ==> forall k :: 0 <= k < |r.value.done| ==> steps[k] == Ok((r.value.done[k], true)))
      && (r.Ok? && r.value.Stopped? ==> steps[|r.value.done|] == Ok((r.value.last, false)))
      && (r.Ok? && r.value.Going? ==> forall k :: 0 <= k < n ==> steps[k].Ok? && steps[k].value.1)
      && (r.Err? ==> exists k :: 0 <= k < n && steps[k] == Err(r.error) &&
                      forall j :: 0 <= j < k ==> steps[j].Ok? && steps[j].value.1)
  {
    if n > 0 {
      ScanRead(steps, n - 1);
    }
  }

  /** One more pass of a loop that has kept every entry so far. */
  lemma ScanNext<T>(steps: seq<Result<(T, bool), Failure>>, k: nat, list: seq<T>)
    requires k < |steps| && Scan(steps, k) == Ok(Going(list))
    ensures steps[k].Err? ==> Scan(steps, k + 1) == Err(steps[k].error)
    ensures steps[k].Ok? && steps[k].value.1 ==> Scan(steps, k + 1) == Ok(Going(list + [steps[k].value.0]))
    ensures steps[k].Ok? && !steps[k].value.1 ==> Scan(steps, k + 1) == Ok(Stopped(list, steps[k].value.0))
  {
  }

  /**
   * One pass of a scanning loop: a complete entry extends the list, and a
   * throwing or incomplete one settles the result of the whole loop.
   */
  lemma ScanAdvance<T>(steps: seq<Result<(T, bool), Failure>>, k: nat, list: seq<T>, step: Result<(T, bool), Failure>)
    requires k < |steps| && Scan(steps, k) == Ok(Going(list)) && step == steps[k]
    ensures step.Ok? && step.value.1 ==> Scan(steps, k + 1) == Ok(Going(list + [step.value.0]))
    ensures step.Err? ==> Scan(steps, |steps|) == Err(step.error)
    ensures step.Ok? && !step.value.1 ==> Scan(steps, |steps|) == Ok(Stopped(list, step.value.0))
  {
    ScanNext(steps, k, list);
    if step.Err? || !step.value.1 {
      ScanStays(steps, k + 1, |steps|);
    }
  }

  /** Once the loop has thrown or stopped, later entries change nothing. */
  lemma {:induction false} ScanStays<T>(steps: seq<Result<(T, bool), Failure>>, m: nat, n: nat)
    requires m <= n <= |steps|
    requires Scan(steps, m).Err? || Scan(steps, m).value.Stopped?
    ensures Scan(steps, n) == Scan(steps, m)
    decreases n - m
  {
    if m < n {
      ScanStays(steps, m, n - 1);
    }
  }

  /** One pass of the inputs loop: the tensor, and whether it passed the
      completeness check. Of the fields checked, only the data type can be
      null; the test information is read only for a complete tensor. */
  function InputStep(inp: Value, infos: Option<seq<Value>>, k: nat): (r: Result<(InputTensor, bool), Failure>)
  {
    var t :- ReadInput(inp);
    if t.dataType.None? then Ok((t, false))
    else
      var full :- WithTestInfo(t, infos, k);
      Ok((full, true))
  }

  /** What reading each entry of `inputs` gives, in order. */
  function InputSteps(inputs: seq<Value>, infos: Option<seq<Value>>): (r: seq<Result<(InputTensor, bool), Failure>>)
    ensures |r| == |inputs|
    decreases |inputs|
  {
    if |inputs| == 0 then []
    else InputSteps(inputs[..|inputs| - 1], infos) + [InputStep(inputs[|inputs| - 1], infos, |inputs| - 1)]
  }

  lemma {:induction false} InputStepsAt(inputs: seq<Value>, infos: Option<seq<Value>>, k: nat)
    requires k < |inputs|
    ensures InputSteps(inputs, infos)[k] == InputStep(inputs[k], infos, k)
    decreases |inputs|
  {
    if k < |inputs| - 1 {
      InputStepsAt(inputs[..|inputs| - 1], infos, k);
    }
  }

  /** ReadInput with the shape read by the loops of the try and catch blocks. */
  method ReadInputFields(inp: Value) returns (r: Result<InputTensor, Failure>)
    ensures r == ReadInput(inp)
  {
    var e := AsMap(Some(inp));
    if e.Err? {
      return Err(e.error);
    }
    var name := AsString(Get(e.value, "name"));
    if name.Err? {
      return Err(name.error);
    }
    var axes := AsString(Get(e.value, "axes"));
    if axes.Err? {
      return Err(axes.error);
    }
    if axes.value.None? {
      return Err(NullPointer);
    }
    var dataType := AsString(Get(e.value, "data_type"));
    if dataType.Err? {
      return Err(dataType.error);
    }
    var range := AsList(Get(e.value, "data_range"));
    if range.Err? {
      return Err(range.error);
    }
    var shape := ReadInputShapeFields(Get(e.value, "shape"));
    if shape.Err? {
      return Err(shape.error);
    }
    r := Ok(InputTensor(name.value, JavaString.ToUpper(axes.value.value), dataType.value, "image", shape.value,
                        None, None, None, None, None));
  }

  /** One pass of the inputs loop. */
  method InputPass(inp: Value, infos: Option<seq<Value>>, k: nat) returns (r: Result<(InputTensor, bool), Failure>)
    ensures r == InputStep(inp, infos, k)
  {
    var t := ReadInputFields(inp);
    if t.Err? {
      return Err(t.error);
    }
    if t.value.dataType.None? {
      return Ok((t.value, false));
    }
    var full := WithTestInfo(t.value, infos, k);
    if full.Err? {
      return Err(full.error);
    }
    r := Ok((full.value, true));
  }

  /** One pass of the inputs loop, as the k-th step of the loop's specification. */
  method InputPassAt(inputs: seq<Value>, infos: Option<seq<Value>>, k: nat) returns (r: Result<(InputTensor, bool), Failure>)
    requires k < |inputs|
    ensures r == InputSteps(inputs, infos)[k]
  {
    r := InputPass(inputs[k], infos, k);
    InputStepsAt(inputs, infos, k);
  }

  /** The inputs loop: inputList, and the tensor it stops at. */
  method ReadInputs(inputs: seq<Value>, infos: Option<seq<Value>>) returns (r: Result<Progress<InputTensor>, Failure>)
    ensures r == Scan(InputSteps(inputs, infos), |inputs|)
  {
    ghost var steps := InputSteps(inputs, infos);
    var list: seq<InputTensor> := [];
    var k := 0;
    while k < |inputs|
      invariant 0 <= k <= |inputs|
      invariant Scan(steps, k) == Ok(Going(list))
    {
      var step := InputPassAt(inputs, infos, k);
      ScanAdvance(steps, k, list, step);
      if step.Err? || !step.value.1 {
        return if step.Err? then Err(step.error) else Ok(Stopped(list, step.value.0));
      }
      list := list + [step.value.0];
      k := k + 1;
    }
    r := Ok(Going(list));
  }

  // ---------------------------------------------------------------------
  // Output tensors

  /** The shape fields of an output tensor. */
  datatype OutputShape = OutputShape(recommendedPatch: Option<seq<int>>, scale: Option<seq<real>>,
                                     offset: seq<int>, referenceImage: Option<string>)

  /** The try block reads `shape` as a list of ints (scale and offset all
      zeros); the catch block reads the mapping form, where a scale that is
      not all Doubles leaves scale null. */
  function ReadOutputShape(shape: Option<Value>): (r: Result<OutputShape, Failure>)
  {
    var tried := if shape.Some? && shape.value.List? then IntArray(Some(shape.value.items)) else Err(ClassCast);
    if tried.Ok? then
      var n := |shape.value.items|;
      Ok(OutputShape(Some(tried.value), Some(RealZeros(n)), Zeros(n), None))
    else
      var entries :- AsMap(shape);
      var reference :- AsString(Get(entries, "reference_input"));
      var scaleList :- AsList(Get(entries, "scale"));
      var scale :- FloatArray(scaleList);
      var offsetList :- AsList(Get(entries, "offset"));
      var offset :- IntArray(offsetList);
      Ok(OutputShape(None, scale, offset, reference))
  }

  /** ReadOutputShape with the casting loops as methods. */
  method ReadOutputShapeFields(shape: Option<Value>) returns (r: Result<OutputShape, Failure>)
    ensures r == ReadOutputShape(shape)
  {
    if shape.Some? && shape.value.List? {
      var tried := CastListToIntArray(Some(shape.value.items));
      if tried.Ok? {
        var n := |shape.value.items|;
        return Ok(OutputShape(Some(tried.value), Some(RealZeros(n)), Zeros(n), None));
      }
    }
    var entries := AsMap(shape);
    if entries.Err? {
      return Err(entries.error);
    }
    var reference := AsString(Get(entries.value, "reference_input"));
    if reference.Err? {
      return Err(reference.error);
    }
    var scaleList := AsList(Get(entries.value, "scale"));
    if scaleList.Err? {
      return Err(scaleList.error);
    }
    var scale := CastListToFloatArray(scaleList.value);
    if scale.Err? {
      return Err(scale.error);
    }
    var offsetList := AsList(Get(entries.value, "offset"));
    if offsetList.Err? {
      return Err(offsetList.error);
    }
    var offset := CastListToIntArray(offsetList.value);
    if offset.Err? {
      return Err(offset.error);
    }
    r := Ok(OutputShape(None, scale.value, offset.value, reference.value));
  }

  /** The halo: read from the entry for an image output of a non-pyramidal
      model, zeros (one per axis) for an image output of a pyramidal one,
      null for a list output. */
  function OutputHalo(e: Entries, form: Option<string>, pyramidal: bool): (r: Result<Option<seq<int>>, Failure>)
    ensures form.None? ==> r == Ok(None)
    ensures form.Some? && pyramidal ==> r == Ok(Some(Zeros(|form.value|)))
    ensures r.Ok? && form.Some? ==> r.value.Some?
  {
    if form.Some? && !pyramidal then
      var haloList :- AsList(Get(e, "halo"));
      var halo :- IntArray(haloList);
      Ok(Some(halo))
    else if form.Some? then Ok(Some(Zeros(|form.value|)))
    else Ok(None)
  }

  method ReadOutputHalo(e: Entries, form: Option<string>, pyramidal: bool) returns (r: Result<Option<seq<int>>, Failure>)
    ensures r == OutputHalo(e, form, pyramidal)
  {
    if form.Some? && !pyramidal {
      var haloList := AsList(Get(e, "halo"));
      if haloList.Err? {
        return Err(haloList.error);
      }
      var halo := CastListToIntArray(haloList.value);
      if halo.Err? {
        return Err(halo.error);
      }
      r := Ok(Some(halo.value));
    } else if form.Some? {
      r := Ok(Some(Zeros(|form.value|)));
    } else {
      r := Ok(None);
    }
  }

  /** An output tensor as the constructor fills it. */
  datatype OutputTensor = OutputTensor(
    name: Option<string>,
    form: string,
    tensorType: string,
    dataType: Option<string>,
    halo: Option<seq<int>>,
    shape: OutputShape)

  /** The axes as given, upper-cased; without axes the output is a list. */
  function OutputForm(axes: Option<string>): (r: Option<string>)
    ensures r.None? <==> axes.None?
    ensures r.Some? ==> |r.value| == |axes.value| &&
                        forall i :: 0 <= i < |r.value| ==> r.value[i] == JavaString.UpperChar(axes.value[i])
  {
    if axes.Some? then Some(JavaString.ToUpper(axes.value)) else None
  }

  /** An output without axes takes the form findTableForm guesses from its
      recommended patch, which the mapping form of shape leaves null. */
  function FinalForm(form: Option<string>, shape: OutputShape): (r: Result<string, Failure>)
    ensures r.Err? <==> form.None? && shape.recommendedPatch.None?
    ensures r.Err? ==> r.error == NullPointer
    ensures form.Some? ==> r == Ok(form.value)
  {
    if form.Some? then Ok(form.value)
    else if shape.recommendedPatch.None? then Err(NullPointer)
    else Ok(Table2Tensor.FindTableForm(shape.recommendedPatch.value))
  }

  /** One entry of `outputs` up to the completeness check. */
  function ReadOutput(out: Value, pyramidal: bool): (r: Result<OutputTensor, Failure>)
  {
    var e :- AsMap(Some(out));
    var name :- AsString(Get(e, "name"));
    var axes :- AsString(Get(e, "axes"));
    var form := OutputForm(axes);
    var range :- AsList(Get(e, "data_range"));
    var dataType :- AsString(Get(e, "data_type"));
    var halo :- OutputHalo(e, form, pyramidal);
    var shape :- ReadOutputShape(Get(e, "shape"));
    var finalForm :- FinalForm(form, shape);
    Ok(OutputTensor(name, finalForm, if form.None? then "list" else "image", dataType, halo, shape))
  }

  method ReadOutputFields(out: Value, pyramidal: bool) returns (r: Result<OutputTensor, Failure>)
    ensures r == ReadOutput(out, pyramidal)
  {
    var e := AsMap(Some(out));
    if e.Err? {
      return Err(e.error);
    }
    var name := AsString(Get(e.value, "name"));
    if name.Err? {
      return Err(name.error);
    }
    var axes := AsString(Get(e.value, "axes"));
    if axes.Err? {
      return Err(axes.error);
    }
    var form := OutputForm(axes.value);
    var range := AsList(Get(e.value, "data_range"));
    if range.Err? {
      return Err(range.error);
    }
    var dataType := AsString(Get(e.value, "data_type"));
    if dataType.Err? {
      return Err(dataType.error);
    }
    var halo := ReadOutputHalo(e.value, form, pyramidal);
    if halo.Err? {
      return Err(halo.error);
    }
    var shape := ReadOutputShapeFields(Get(e.value, "shape"));
    if shape.Err? {
      return Err(shape.error);
    }
    var finalForm := FinalForm(form, shape.value);
    if finalForm.Err? {
      return Err(finalForm.error);
    }
    r := Ok(OutputTensor(name.value, finalForm.value, if form.None? then "list" else "image",
                         dataType.value, halo.value, shape.value));
  }

  /** One pass of the outputs loop. The form cannot be null any more and the
      offset never is: the check comes down to the data type and the scale. */
  function OutputStep(out: Value, pyramidal: bool): (r: Result<(OutputTensor, bool), Failure>)
  {
    var t :- ReadOutput(out, pyramidal);
    Ok((t, t.dataType.Some? && t.shape.scale.Some?))
  }

  /** What reading each entry of `outputs` gives, in order. */
  function OutputSteps(outputs: seq<Value>, pyramidal: bool): (r: seq<Result<(OutputTensor, bool), Failure>>)
    ensures |r| == |outputs|
    decreases |outputs|
  {
    if |outputs| == 0 then []
    else OutputSteps(outputs[..|outputs| - 1], pyramidal) + [OutputStep(outputs[|outputs| - 1], pyramidal)]
  }

  lemma {:induction false} OutputStepsAt(outputs: seq<Value>, pyramidal: bool, k: nat)
    requires k < |outputs|
    ensures OutputSteps(outputs, pyramidal)[k] == OutputStep(outputs[k], pyramidal)
    decreases |outputs|
  {
    if k < |outputs| - 1 {
      OutputStepsAt(outputs[..|outputs| - 1], pyramidal, k);
    }
  }

  /** One pass of the outputs loop, as the k-th step of the loop's specification. */
  method OutputPassAt(outputs: seq<Value>, pyramidal: bool, k: nat) returns (r: Result<(OutputTensor, bool), Failure>)
    requires k < |outputs|
    ensures r == OutputSteps(outputs, pyramidal)[k]
  {
    r := OutputPass(outputs[k], pyramidal);
    OutputStepsAt(outputs, pyramidal, k);
  }

  /** One pass of the outputs loop. */
  method OutputPass(out: Value, pyramidal: bool) returns (r: Result<(OutputTensor, bool), Failure>)
    ensures r == OutputStep(out, pyramidal)
  {
    var t := ReadOutputFields(out, pyramidal);
    if t.Err? {
      return Err(t.error);
    }
    r := Ok((t.value, t.value.dataType.Some? && t.value.shape.scale.Some?));
  }

  /** The outputs loop. */
  method ReadOutputs(outputs: seq<Value>, pyramidal: bool) returns (r: Result<Progress<OutputTensor>, Failure>)
    ensures r == Scan(OutputSteps(outputs, pyramidal), |outputs|)
  {
    ghost var steps := OutputSteps(outputs, pyramidal);
    var list: seq<OutputTensor> := [];
    var k := 0;
    while k < |outputs|
      invariant 0 <= k <= |outputs|
      invariant Scan(steps, k) == Ok(Going(list))
    {
      var step := OutputPassAt(outputs, pyramidal, k);
      ScanAdvance(steps, k, list, step);
      if step.Err? || !step.value.1 {
        return if step.Err? then Err(step.error) else Ok(Stopped(list, step.value.0));
      }
      list := list + [step.value.0];
      k := k + 1;
    }
    r := Ok(Going(list));
  }

  // ---------------------------------------------------------------------
  // The saved test outputs

  /** One entry of test_information.outputs: its name, size and type. */
  datatype SavedOutput = SavedOutput(name: Option<string>, size: Option<string>, kind: Option<string>)

  function ReadSaved(v: Value): (r: Result<(SavedOutput, bool), Failure>)
    ensures r.Ok? ==> r.value.1
  {
    var e :- AsMap(Some(v));
    var name :- AsString(Get(e, "name"));
    var size :- AsString(Get(e, "size"));
    var kind :- AsString(Get(e, "type"));
    Ok((SavedOutput(name, size, kind), true))
  }

  function SavedSteps(infos: seq<Value>): (r: seq<Result<(SavedOutput, bool), Failure>>)
    ensures |r| == |infos|
  {
    seq(|infos|, k requires 0 <= k < |infos| => ReadSaved(infos[k]))
  }

  /** The savedOutputs loop over test_information.outputs (a null list throws). */
  function SavedOutputs(infos: Option<seq<Value>>): (r: Result<seq<SavedOutput>, Failure>)
  {
    if infos.None? then Err(NullPointer)
    else
      var p :- Scan(SavedSteps(infos.value), |infos.value|);
      Ok(p.done)
  }

  method ReadSavedOutputs(infos: Option<seq<Value>>) returns (r: Result<seq<SavedOutput>, Failure>)
    ensures r == SavedOutputs(infos)
  {
    if infos.None? {
      return Err(NullPointer);
    }
    var items := infos.value;
    ghost var steps := SavedSteps(items);
    var list: seq<SavedOutput> := [];
    var k := 0;
    while k < |items|
      invariant 0 <= k <= |items|
      invariant Scan(steps, k) == Ok(Going(list))
    {
      var step := ReadSaved(items[k]);
      assert step == steps[k];
      if step.Err? {
        assert Scan(steps, k + 1) == Err(step.error);
        ScanStays(steps, k + 1, |items|);
        return Err(step.error);
      }
      list := list + [step.value.0];
      k := k + 1;
    }
    r := Ok(list);
  }

  // ---------------------------------------------------------------------
  // Pre- and postprocessing commands

  /** What one processing entry does to the commands array: store a command
      (possibly null) in its slot, leave the slot as it is, or null the whole
      array (an entry without spec). */
  datatype Store = Put(command: Option<string>) | Keep | Drop

  /** The text up to and including the first occurrence of `ext`. */
  function UpTo(spec: string, ext: string): (r: string)
    requires JavaString.Contains(spec, ext)
    ensures JavaString.OccursAt(spec, r, 0)
    ensures JavaString.EndsWith(r, ext)
    ensures forall i :: 0 <= i < |r| - |ext| ==> !JavaString.OccursAt(spec, ext, i)
  {
    var at := JavaString.IndexOf(spec, ext);
    assert spec[..at + |ext|][at..] == ext;
    spec[..at + |ext|]
  }

  /** One processing entry. A kwargs entry stores the kwargs; otherwise a
      spec naming a ".jar" or a ".class" stores the spec cut right after the
      extension. The postprocessing loop guards its ".jar" store with a test
      that the extension is absent, which never holds where the extension
      was found: `jarKept` is false there. */
  function CommandOf(p: Value, jarKept: bool): (r: Result<Store, Failure>)
  {
    var e :- AsMap(Some(p));
    var spec :- AsString(Get(e, "spec"));
    if spec.Some? && Get(e, "kwargs").Some? then
      var kwargs :- AsString(Get(e, "kwargs"));
      Ok(Put(kwargs))
    else if spec.Some? && JavaString.Contains(spec.value, ".jar") then
      if jarKept then Ok(Put(Some(UpTo(spec.value, ".jar")))) else Ok(Keep)
    else if spec.Some? && JavaString.Contains(spec.value, ".class") then
      Ok(Put(Some(UpTo(spec.value, ".class"))))
    else if spec.None? then Ok(Drop)
    else Ok(Keep)
  }

  /** Applying one entry to the array: storing into an array nulled by an
      earlier entry throws; the store's value was computed first. */
  function Apply(commands: Option<seq<Option<string>>>, i: nat, s: Store): (r: Result<Option<seq<Option<string>>>, Failure>)
    requires commands.Some? ==> i < |commands.value|
    ensures r.Ok? && r.value.Some? ==> commands.Some? && |r.value.value| == |commands.value|
  {
    match s
    case Put(c) => if commands.None? then Err(NullPointer) else Ok(Some(commands.value[i := c]))
    case Keep => Ok(commands)
    case Drop => Ok(None)
  }

  /** The commands array after the first n entries of the list. */
  function CommandsUpTo(items: seq<Value>, jarKept: bool, n: nat): (r: Result<Option<seq<Option<string>>>, Failure>)
    requires n <= |items|
    ensures r.Ok? && r.value.Some? ==> |r.value.value| == |items|
  {
    if n == 0 then Ok(Some(seq(|items|, _ => None)))
    else
      var commands :- CommandsUpTo(items, jarKept, n - 1);
      var s :- CommandOf(items[n - 1], jarKept);
      Apply(commands, n - 1, s)
  }

  function Commands(items: seq<Value>, jarKept: bool): (r: Result<Option<seq<Option<string>>>, Failure>)
  {
    CommandsUpTo(items, jarKept, |items|)
  }

  /** The loop over one processing list, filling an array of commands. */
  method ReadCommands(items: seq<Value>, jarKept: bool) returns (r: Result<Option<seq<Option<string>>>, Failure>)
    ensures r == Commands(items, jarKept)
  {
    var commands: array?<Option<string>> := new Option<string>[|items|](_ => None);
    assert commands[..] == seq(|items|, _ => None);
    var k := 0;
    while k < |items|
      invariant 0 <= k <= |items|
      invariant commands != null ==> fresh(commands) && commands.Length == |items|
      invariant CommandsUpTo(items, jarKept, k) == Ok(if commands == null then None else Some(commands[..]))
    {
      var s := CommandOf(items[k], jarKept);
      CommandsAdvance(items, jarKept, k, if commands == null then None else Some(commands[..]), s);
      if s.Err? {
        return Err(s.error);
      }
      if s.value.Put? {
        if commands == null {
          return Err(NullPointer);
        }
        commands[k] := s.value.command;
      } else if s.value.Drop? {
        commands := null;
      }
      k := k + 1;
    }
    r := Ok(if commands == null then None else Some(commands[..]));
  }

  /** One more entry of the commands loop. */
  lemma CommandsAdvance(items: seq<Value>, jarKept: bool, k: nat, c: Option<seq<Option<string>>>, s: Result<Store, Failure>)
    requires k < |items| && CommandsUpTo(items, jarKept, k) == Ok(c) && s == CommandOf(items[k], jarKept)
    ensures c.Some? ==> |c.value| == |items|
    ensures s.Ok? ==> CommandsUpTo(items, jarKept, k + 1) == Apply(c, k, s.value)
    ensures s.Err? ==> Commands(items, jarKept) == Err(s.error)
    ensures s.Ok? && s.value.Put? && c.None? ==> Commands(items, jarKept) == Err(NullPointer)
  {
    if s.Err? || (s.value.Put? && c.None?) {
      CommandsEnd(items, jarKept, k + 1);
    }
  }

  /** An error in the commands loop is the loop's result. */
  lemma CommandsEnd(items: seq<Value>, jarKept: bool, k: nat)
    requires k <= |items| && CommandsUpTo(items, jarKept, k).Err?
    ensures Commands(items, jarKept) == CommandsUpTo(items, jarKept, k)
  {
    CommandsStay(items, jarKept, k, |items|);
  }

  /** After an exception, later entries change nothing. */
  lemma {:induction false} CommandsStay(items: seq<Value>, jarKept: bool, m: nat, n: nat)
    requires m <= n <= |items|
    requires CommandsUpTo(items, jarKept, m).Err?
    ensures CommandsUpTo(items, jarKept, n) == CommandsUpTo(items, jarKept, m)
    decreases n - m
  {
    if m < n {
      CommandsErrKept(items, jarKept, m + 1);
      CommandsStay(items, jarKept, m + 1, n);
    }
  }

  /** An exception thrown by an earlier entry is the result after one more entry. */
  lemma CommandsErrKept(items: seq<Value>, jarKept: bool, n: nat)
    requires 0 < n <= |items| && CommandsUpTo(items, jarKept, n - 1).Err?
    ensures CommandsUpTo(items, jarKept, n) == CommandsUpTo(items, jarKept, n - 1)
  {
  }

  /** The command an entry leaves in its own slot. */
  function Slot(s: Store): Option<string>
  {
    if s.Put? then s.command else None
  }

  /** When the loop ends with an array, no entry threw or nulled it, and each
      slot holds what its own entry stored (null where it stored nothing). */
  lemma {:induction false} CommandsFilled(items: seq<Value>, jarKept: bool, n: nat)
    requires n <= |items|
    requires CommandsUpTo(items, jarKept, n).Ok? && CommandsUpTo(items, jarKept, n).value.Some?
    ensures var c := CommandsUpTo(items, jarKept, n).value.value;
      forall i :: 0 <= i < |items| ==>
        if i < n then CommandOf(items[i], jarKept).Ok? && !CommandOf(items[i], jarKept).value.Drop? &&
                      c[i] == Slot(CommandOf(items[i], jarKept).value)
        else c[i] == None
  {
    if n > 0 {
      CommandsFilled(items, jarKept, n - 1);
    }
  }

  /** A processing entry without kwargs whose spec names a ".jar". */
  predicate JarEntry(p: Value)
  {
    && p.Map?
    && Get(p.entries, "kwargs").None?
    && Get(p.entries, "spec").Some? && Get(p.entries, "spec").value.Str?
    && JavaString.Contains(Get(p.entries, "spec").value.s, ".jar")
  }

  /** In the preprocessing lists, a ".jar" spec without kwargs becomes the
      spec cut right after its first ".jar". */
  lemma JarKept(items: seq<Value>, i: nat)
    requires i < |items| && JarEntry(items[i])
    requires Commands(items, true).Ok? && Commands(items, true).value.Some?
    ensures var spec := Get(items[i].entries, "spec").value.s;
      Commands(items, true).value.value[i] == Some(UpTo(spec, ".jar"))
  {
    CommandsFilled(items, true, |items|);
  }

  /** In the postprocessing lists the same entry leaves its slot null. */
  lemma JarDropped(items: seq<Value>, i: nat)
    requires i < |items| && JarEntry(items[i])
    requires Commands(items, false).Ok? && Commands(items, false).value.Some?
    ensures Commands(items, false).value.value[i] == None
  {
    CommandsFilled(items, false, |items|);
  }

  /** An entry without spec nulls the array, so any later entry that stores
      a command throws NullPointerException. */
  lemma {:induction false} StoreAfterDrop(items: seq<Value>, jarKept: bool, i: nat, j: nat)
    requires i < j < |items|
    requires CommandsUpTo(items, jarKept, i + 1).Ok? && CommandOf(items[i], jarKept) == Ok(Drop)
    requires forall k :: i < k < j ==> CommandOf(items[k], jarKept).Ok? && !CommandOf(items[k], jarKept).value.Put?
    requires CommandOf(items[j], jarKept).Ok? && CommandOf(items[j], jarKept).value.Put?
    ensures Commands(items, jarKept) == Err(NullPointer)
  {
    NulledStays(items, jarKept, i, j);
    CommandsStay(items, jarKept, j + 1, |items|);
  }

  lemma {:induction false} NulledStays(items: seq<Value>, jarKept: bool, i: nat, j: nat)
    requires i < j <= |items|
    requires CommandsUpTo(items, jarKept, i + 1).Ok? && CommandOf(items[i], jarKept) == Ok(Drop)
    requires forall k :: i < k < j ==> CommandOf(items[k], jarKept).Ok? && !CommandOf(items[k], jarKept).value.Put?
    ensures CommandsUpTo(items, jarKept, j) == Ok(None)
    decreases j - i
  {
    if j > i + 1 {
      NulledStays(items, jarKept, i, j - 1);
    }
  }

  // ---------------------------------------------------------------------
  // The prediction block

  type CommandMap = map<string, Option<seq<Option<string>>>>

  /** The pre and post maps: processing key to its commands array. */
  datatype Prediction = Prediction(pre: CommandMap, post: CommandMap)

  /** `prediction.get(key)` as a processing list; null throws at size(). */
  function ProcessingList(prediction: Entries, key: string): (r: Result<seq<Value>, Failure>)
  {
    var list :- AsList(Get(prediction, key));
    if list.None? then Err(NullPointer) else Ok(list.value)
  }

  /** One key of the prediction block: a key containing "preprocess" gets its
      commands in pre, then a key containing "postprocess" in post. */
  function PredictionStep(prediction: Entries, p: Prediction, key: string): (r: Result<Prediction, Failure>)
    ensures r.Ok? ==> r.value.pre.Keys == p.pre.Keys + (if JavaString.Contains(key, "preprocess") then {key} else {})
    ensures r.Ok? ==> r.value.post.Keys == p.post.Keys + (if JavaString.Contains(key, "postprocess") then {key} else {})
  {
    var withPre :-
      if JavaString.Contains(key, "preprocess") then
        var list :- ProcessingList(prediction, key);
        var commands :- Commands(list, true);
        Ok(p.(pre := p.pre[key := commands]))
      else Ok(p);
    if JavaString.Contains(key, "postprocess") then
      var list :- ProcessingList(prediction, key);
      var commands :- Commands(list, false);
      Ok(withPre.(post := withPre.post[key := commands]))
    else Ok(withPre)
  }

  /** The loop over the keys of the prediction block, first n keys. */
  function PredictionUpTo(prediction: Entries, n: nat): (r: Result<Prediction, Failure>)
    requires n <= |prediction|
  {
    if n == 0 then Ok(Prediction(map[], map[]))
    else
      var p :- PredictionUpTo(prediction, n - 1);
      PredictionStep(prediction, p, prediction[n - 1].0)
  }

  /** The keys among the first n that contain `word`. */
  function KeysWith(prediction: Entries, n: nat, word: string): (ks: set<string>)
    requires n <= |prediction|
    ensures forall i :: 0 <= i < n && JavaString.Contains(prediction[i].0, word) ==> prediction[i].0 in ks
  {
    set i | 0 <= i < n && JavaString.Contains(prediction[i].0, word) :: prediction[i].0
  }

  /** KeysWith grows by the n-th key when it contains `word`. */
  lemma KeysWithStep(prediction: Entries, n: nat, word: string)
    requires 0 < n <= |prediction|
    ensures KeysWith(prediction, n, word) ==
              KeysWith(prediction, n - 1, word) +
              (if JavaString.Contains(prediction[n - 1].0, word) then {prediction[n - 1].0} else {})
  {
  }

  /** The pre map holds exactly the keys naming a preprocessing, the post map
      those naming a postprocessing. */
  lemma {:induction false} PredictionKeys(prediction: Entries, n: nat)
    requires n <= |prediction| && PredictionUpTo(prediction, n).Ok?
    ensures PredictionUpTo(prediction, n).value.pre.Keys == KeysWith(prediction, n, "preprocess")
    ensures PredictionUpTo(prediction, n).value.post.Keys == KeysWith(prediction, n, "postprocess")
  {
    if n > 0 {
      PredictionKeys(prediction, n - 1);
      KeysWithStep(prediction, n, "preprocess");
      KeysWithStep(prediction, n, "postprocess");
    }
  }

  /** One key of the prediction loop, with the commands loops as methods. */
  method PredictionPass(prediction: Entries, p: Prediction, key: string) returns (r: Result<Prediction, Failure>)
    ensures r == PredictionStep(prediction, p, key)
  {
    var withPre := p;
    if JavaString.Contains(key, "preprocess") {
      var list := ProcessingList(prediction, key);
      if list.Err? {
        return Err(list.error);
      }
      var commands := ReadCommands(list.value, true);
      if commands.Err? {
        return Err(commands.error);
      }
      withPre := p.(pre := p.pre[key := commands.value]);
    }
    if JavaString.Contains(key, "postprocess") {
      var list := ProcessingList(prediction, key);
      if list.Err? {
        return Err(list.error);
      }
      var commands := ReadCommands(list.value, false);
      if commands.Err? {
        return Err(commands.error);
      }
      return Ok(withPre.(post := withPre.post[key := commands.value]));
    }
    r := Ok(withPre);
  }

  /** The loop over the keys of the prediction block. */
  method ReadPrediction(prediction: Entries) returns (r: Result<Prediction, Failure>)
    ensures r == PredictionUpTo(prediction, |prediction|)
  {
    var p := Prediction(map[], map[]);
    var k := 0;
    while k < |prediction|
      invariant 0 <= k <= |prediction|
      invariant PredictionUpTo(prediction, k) == Ok(p)
    {
      var next := PredictionPass(prediction, p, prediction[k].0);
      PredictionAdvance(prediction, k, p);
      if next.Err? {
        return next;
      }
      p := next.value;
      k := k + 1;
    }
    r := Ok(p);
  }

  /** One more key of the prediction loop; an error there is the loop's result. */
  lemma PredictionAdvance(prediction: Entries, k: nat, p: Prediction)
    requires k < |prediction| && PredictionUpTo(prediction, k) == Ok(p)
    ensures PredictionUpTo(prediction, k + 1) == PredictionStep(prediction, p, prediction[k].0)
    ensures PredictionUpTo(prediction, k + 1).Err? ==>
              PredictionUpTo(prediction, |prediction|) == PredictionUpTo(prediction, k + 1)
  {
    if PredictionUpTo(prediction, k + 1).Err? {
      PredictionStays(prediction, k + 1, |prediction|);
    }
  }

  lemma {:induction false} PredictionStays(prediction: Entries, m: nat, n: nat)
    requires m <= n <= |prediction|
    requires PredictionUpTo(prediction, m).Err?
    ensures PredictionUpTo(prediction, n) == PredictionUpTo(prediction, m)
    decreases n - m
  {
    if m < n {
      PredictionErrKept(prediction, m + 1);
      PredictionStays(prediction, m + 1, n);
    }
  }

  /** An exception thrown by an earlier key is the result after one more key. */
  lemma PredictionErrKept(prediction: Entries, n: nat)
    requires 0 < n <= |prediction| && PredictionUpTo(prediction, n - 1).Err?
    ensures PredictionUpTo(prediction, n) == PredictionUpTo(prediction, n - 1)
  {
  }

  // ---------------------------------------------------------------------
  // The constructor

  /** The fields the constructor sets, with Java's nulls as None. pre and
      post are null until the prediction block is read. */
  datatype Settings = Settings(
    developer: bool,
    formatVersion: string,
    name: Option<string>,
    author: seq<Value>,
    cite: Option<seq<Value>>,
    documentation: Option<string>,
    license: Option<string>,
    framework: Option<string>,
    gitRepo: Option<string>,
    pyramidalNetwork: bool,
    allowPatching: bool,
    tag: Option<string>,
    graph: Option<string>,
    inputList: seq<InputTensor>,
    fixedInput: bool,
    outputList: seq<OutputTensor>,
    savedOutputs: seq<SavedOutput>,
    memoryPeak: Option<string>,
    runtime: Option<string>,
    prediction: Option<Prediction>,
    completeConfig: bool)

  /** The field initialisers. */
  function Initial(developer: bool): (s: Settings)
  {
    Settings(developer, "", Some(""), [], None, None, None, None, None, false, true, Some(""), Some(""),
             [], false, [], [], Some(""), Some(""), None, true)
  }

  /** The citation put in place of a missing one: empty text and doi. */
  const DefaultCite: Value := Map([("text", Str("")), ("doi", Str(""))])

  /** The description, authors, citation and the plain text fields. */
  function Header(obj: Entries): (r: Result<Settings, Failure>)
    ensures r.Ok? ==> r.value.tag == Some("") && r.value.graph == Some("") && r.value.completeConfig
    ensures r.Ok? ==> AsList(Get(obj, "authors")).Ok? && AsList(Get(obj, "cite")).Ok?
    ensures r.Ok? ==> var authors := AsList(Get(obj, "authors")).value;
      r.value.author == if authors.None? then [Str("n/a")] else authors.value
    ensures r.Ok? ==> var cite := AsList(Get(obj, "cite")).value;
      r.value.cite == Some(if cite.None? then [DefaultCite] else cite.value)
  {
    var name :- AsString(Get(obj, "name"));
    var authors :- AsList(Get(obj, "authors"));
    var cite :- AsList(Get(obj, "cite"));
    var documentation :- AsString(Get(obj, "documentation"));
    var license :- AsString(Get(obj, "license"));
    var framework :- AsString(Get(obj, "framework"));
    var gitRepo :- AsString(Get(obj, "git_repo"));
    Ok(Initial(false).(
      formatVersion := ValueText(Get(obj, "format_version")),
      name := name,
      author := if authors.None? then [Str("n/a")] else authors.value,
      cite := Some(if cite.None? then [DefaultCite] else cite.value),
      documentation := documentation, license := license, framework := framework, gitRepo := gitRepo))
  }

  /** The framework chosen by the weight formats listed; with neither the
      constructor returns with the configuration incomplete. */
  function Weights(obj: Entries, s: Settings): (r: Result<Settings, Failure>)
    ensures r.Ok? ==> r.value == s.(framework := r.value.framework, completeConfig := r.value.completeConfig)
    ensures r.Ok? && r.value.completeConfig ==>
      r.value.framework in {Some("Tensorflow"), Some("Pytorch"), Some("Tensorflow/Pytorch")}
  {
    var weights :- AsMap(Get(obj, "weights"));
    var framework := FrameworkOf(TfFormat in Keys(weights), PtFormat in Keys(weights));
    if framework.None? then Ok(s.(completeConfig := false))
    else Ok(s.(framework := framework))
  }

  /** config.deepimagej: the pyramidal and tiling flags, and the model keys of
      a Tensorflow model. Gives the deepimagej mapping for the later stages. */
  function Metadata(obj: Entries, s: Settings): (r: Result<(Settings, Entries), Failure>)
    requires s.framework.Some?
    ensures r.Ok? ==> r.value.0 == s.(pyramidalNetwork := r.value.0.pyramidalNetwork,
      allowPatching := r.value.0.allowPatching, tag := r.value.0.tag, graph := r.value.0.graph)
  {
    var config :- AsMap(Get(obj, "config"));
    var deepimagej :- AsMap(Get(config, "deepimagej"));
    var pyramidal :- AsBool(Get(deepimagej, "pyramidal_model"));
    var tiling :- AsBool(Get(deepimagej, "allow_tiling"));
    var flagged := s.(pyramidalNetwork := pyramidal, allowPatching := tiling);
    if JavaString.Contains(s.framework.value, "Tensorflow") then
      var keys :- AsMap(Get(deepimagej, "model_keys"));
      var tag :- AsString(Get(keys, "tensorflow_model_tag"));
      var graph :- AsString(Get(keys, "tensorflow_siganture_def"));
      Ok((flagged.(tag := tag, graph := graph), deepimagej))
    else Ok((flagged, deepimagej))
  }

  /** fixedInput as the inputs loop leaves it: set by every input read,
      the incomplete one included. */
  function FixedAfter(p: Progress<InputTensor>, before: bool): bool
  {
    if p.Stopped? then p.last.shape.fixed
    else if |p.done| > 0 then p.done[|p.done| - 1].shape.fixed
    else before
  }

  /** The inputs: a missing list makes the configuration incomplete, as does
      an input without data type. Gives test_information for the later stages. */
  function Inputs(obj: Entries, deepimagej: Entries, s: Settings): (r: Result<(Settings, Entries), Failure>)
    ensures r.Ok? ==> r.value.0 == s.(inputList := r.value.0.inputList, fixedInput := r.value.0.fixedInput,
      completeConfig := r.value.0.completeConfig)
  {
    var inputs :- AsList(Get(obj, "inputs"));
    if inputs.None? then Ok((s.(completeConfig := false), []))
    else
      var test :- AsMap(Get(deepimagej, "test_information"));
      var infos :- AsList(Get(test, "inputs"));
      var p :- Scan(InputSteps(inputs.value, infos), |inputs.value|);
      var read := s.(inputList := p.done, fixedInput := FixedAfter(p, s.fixedInput));
      if p.Stopped? then Ok((read.(completeConfig := false), test)) else Ok((read, test))
  }

  /** The outputs: a missing list makes the configuration incomplete, as does
      an output without data type or with a scale that is not all Doubles. */
  function Outputs(obj: Entries, s: Settings): (r: Result<Settings, Failure>)
    ensures r.Ok? ==> r.value == s.(outputList := r.value.outputList, completeConfig := r.value.completeConfig)
  {
    var outputs :- AsList(Get(obj, "outputs"));
    if outputs.None? then Ok(s.(completeConfig := false))
    else
      var p :- Scan(OutputSteps(outputs.value, s.pyramidalNetwork), |outputs.value|);
      var read := s.(outputList := p.done);
      if p.Stopped? then Ok(read.(completeConfig := false)) else Ok(read)
  }

  /** The saved test outputs, memory peak and runtime, then the prediction block. */
  function Tests(deepimagej: Entries, test: Entries, s: Settings): (r: Result<Settings, Failure>)
    ensures r.Ok? ==> r.value == s.(savedOutputs := r.value.savedOutputs, memoryPeak := r.value.memoryPeak,
      runtime := r.value.runtime, prediction := r.value.prediction)
  {
    var infos :- AsList(Get(test, "outputs"));
    var saved :- SavedOutputs(infos);
    var memory :- AsString(Get(test, "memory_peak"));
    var runtime :- AsString(Get(test, "runtime"));
    var prediction :- AsMap(Get(deepimagej, "prediction"));
    var p :- PredictionUpTo(prediction, |prediction|);
    Ok(s.(savedOutputs := saved, memoryPeak := memory, runtime := runtime, prediction := Some(p)))
  }

  /** The defaults for what is still null, and the configuration complete.
      format_version is never null here. */
  function Finish(s: Settings): (r: Settings)
  {
    s.(name := Some(s.name.GetOr("n/a")),
       documentation := Some(s.documentation.GetOr("n/a")),
       license := Some(s.license.GetOr("n/a")),
       memoryPeak := Some(s.memoryPeak.GetOr("n/a")),
       runtime := Some(s.runtime.GetOr("n/a")),
       tag := Some(s.tag.GetOr("serve")),
       graph := Some(s.graph.GetOr("serving_default")),
       completeConfig := true)
  }

  /** The constructor once model.yaml has been read into `obj`: the fields,
      or the exception it throws. */
  function ReadModel(obj: Entries): (r: Result<Settings, Failure>)
  {
    var header :- Header(obj);
    var weighed :- Weights(obj, header);
    if !weighed.completeConfig then Ok(weighed) else AfterWeights(obj, weighed)
  }

  /** The rest of the constructor once a framework is known: config.deepimagej
      and the inputs; it returns when an input is incomplete. */
  function AfterWeights(obj: Entries, s: Settings): (r: Result<Settings, Failure>)
    requires s.framework.Some?
  {
    var (described, deepimagej) :- Metadata(obj, s);
    var (withInputs, test) :- Inputs(obj, deepimagej, described);
    if !withInputs.completeConfig then Ok(withInputs) else AfterInputs(obj, deepimagej, test, withInputs)
  }

  /** The rest of the constructor once every input is read complete: the
      outputs, where it returns when one is incomplete, the tests and the
      defaults. */
  function AfterInputs(obj: Entries, deepimagej: Entries, test: Entries, s: Settings): (r: Result<Settings, Failure>)
  {
    var withOutputs :- Outputs(obj, s);
    if !withOutputs.completeConfig then Ok(withOutputs)
    else
      var tested :- Tests(deepimagej, test, withOutputs);
      Ok(Finish(tested))
  }

  /** `new Parameters(valid, path, isDeveloper)`: for the developer plugin,
      or without a model.yaml, only the initialisers run. `valid` is unused. */
  function Read(valid: bool, isDeveloper: bool, hasYaml: bool, obj: Entries): (r: Result<Settings, Failure>)
  {
    if isDeveloper || !hasYaml then Ok(Initial(isDeveloper)) else ReadModel(obj)
  }

  /** A tensor the inputs loop keeps has a data type, and its other fields
      are as the entry reads. */
  lemma CompleteInput(inp: Value, infos: Option<seq<Value>>, k: nat, t: InputTensor)
    requires InputStep(inp, infos, k) == Ok((t, true))
    ensures t.dataType.Some?
    ensures ReadInput(inp).Ok? && t.name == ReadInput(inp).value.name
    ensures t.form == ReadInput(inp).value.form && t.shape == ReadInput(inp).value.shape
  {
  }

  /** The tensors the inputs loop keeps when it runs to the end all have a
      data type. */
  lemma KeptInputs(inputs: seq<Value>, infos: Option<seq<Value>>, done: seq<InputTensor>)
    requires Scan(InputSteps(inputs, infos), |inputs|) == Ok(Going(done))
    ensures |done| == |inputs|
    ensures forall i :: 0 <= i < |done| ==> done[i].dataType.Some?
  {
    ScanRead(InputSteps(inputs, infos), |inputs|);
    forall i | 0 <= i < |done|
      ensures done[i].dataType.Some?
    {
      InputStepsAt(inputs, infos, i);
      CompleteInput(inputs[i], infos, i, done[i]);
    }
  }

  /** The tensors the outputs loop keeps when it runs to the end all have a
      data type and a scale. */
  lemma KeptOutputs(outputs: seq<Value>, pyramidal: bool, done: seq<OutputTensor>)
    requires Scan(OutputSteps(outputs, pyramidal), |outputs|) == Ok(Going(done))
    ensures |done| == |outputs|
    ensures forall i :: 0 <= i < |done| ==> done[i].dataType.Some? && done[i].shape.scale.Some?
  {
    ScanRead(OutputSteps(outputs, pyramidal), |outputs|);
    forall i | 0 <= i < |done|
      ensures done[i].dataType.Some? && done[i].shape.scale.Some?
    {
      OutputStepsAt(outputs, pyramidal, i);
    }
  }

  /** What every text and list field of a configuration read complete holds. */
  predicate Described(obj: Entries, s: Settings)
  {
    && s.name.Some? && s.documentation.Some? && s.license.Some?
    && s.memoryPeak.Some? && s.runtime.Some? && s.tag.Some? && s.graph.Some?
    && s.prediction.Some?
    && AsList(Get(obj, "inputs")).Ok? && AsList(Get(obj, "inputs")).value.Some?
    && |s.inputList| == |AsList(Get(obj, "inputs")).value.value|
    && (forall i :: 0 <= i < |s.inputList| ==> s.inputList[i].dataType.Some?)
    && AsList(Get(obj, "outputs")).Ok? && AsList(Get(obj, "outputs")).value.Some?
    && |s.outputList| == |AsList(Get(obj, "outputs")).value.value|
    && (forall i :: 0 <= i < |s.outputList| ==>
          s.outputList[i].dataType.Some? && s.outputList[i].shape.scale.Some?)
  }

  /** Outputs read complete: one per entry, each with a data type and a scale,
      and nothing else changed. */
  lemma OutputsComplete(obj: Entries, s: Settings)
    requires Outputs(obj, s).Ok? && Outputs(obj, s).value.completeConfig
    ensures var outputs := AsList(Get(obj, "outputs"));
      var t := Outputs(obj, s).value;
      && outputs.Ok? && outputs.value.Some?
      && |t.outputList| == |outputs.value.value|
      && forall i :: 0 <= i < |t.outputList| ==> t.outputList[i].dataType.Some? && t.outputList[i].shape.scale.Some?
  {
    var outputs := AsList(Get(obj, "outputs")).value.value;
    KeptOutputs(outputs, s.pyramidalNetwork, Outputs(obj, s).value.outputList);
  }

  /** After the inputs, a configuration read complete is described. */
  lemma AfterInputsComplete(obj: Entries, deepimagej: Entries, test: Entries, s: Settings)
    requires AfterInputs(obj, deepimagej, test, s).Ok? && AfterInputs(obj, deepimagej, test, s).value.completeConfig
    requires AsList(Get(obj, "inputs")).Ok? && AsList(Get(obj, "inputs")).value.Some?
    requires |s.inputList| == |AsList(Get(obj, "inputs")).value.value|
    requires forall i :: 0 <= i < |s.inputList| ==> s.inputList[i].dataType.Some?
    ensures Described(obj, AfterInputs(obj, deepimagej, test, s).value)
    ensures AfterInputs(obj, deepimagej, test, s).value.framework == s.framework
  {
    OutputsComplete(obj, s);
  }

  /** Once a framework is known, a configuration read complete is described. */
  lemma AfterWeightsComplete(obj: Entries, s: Settings)
    requires s.framework.Some?
    requires AfterWeights(obj, s).Ok? && AfterWeights(obj, s).value.completeConfig
    ensures Described(obj, AfterWeights(obj, s).value)
    ensures AfterWeights(obj, s).value.framework == s.framework
  {
    var (described, deepimagej) := Metadata(obj, s).value;
    var (withInputs, test) := Inputs(obj, deepimagej, described).value;
    var inputs := AsList(Get(obj, "inputs")).value.value;
    var infos := AsList(Get(AsMap(Get(deepimagej, "test_information")).value, "inputs")).value;
    KeptInputs(inputs, infos, withInputs.inputList);
    AfterInputsComplete(obj, deepimagej, test, withInputs);
  }

  /** A configuration read complete has a known framework, every text field
      the constructor defaults non-null, the prediction block read, one input
      per entry of `inputs` and one output per entry of `outputs`, each with
      a data type (and each output with a scale). */
  lemma CompleteConfig(obj: Entries)
    requires ReadModel(obj).Ok? && ReadModel(obj).value.completeConfig
    ensures ReadModel(obj).value.framework in {Some("Tensorflow"), Some("Pytorch"), Some("Tensorflow/Pytorch")}
    ensures Described(obj, ReadModel(obj).value)
  {
    AfterWeightsComplete(obj, Weights(obj, Header(obj).value).value);
  }

  /** Of the framework names, only the Pytorch-only one lacks "Tensorflow". */
  lemma FrameworkNames()
    ensures JavaString.Contains("Tensorflow", "Tensorflow")
    ensures JavaString.Contains("Tensorflow/Pytorch", "Tensorflow")
    ensures !JavaString.Contains("Pytorch", "Tensorflow")
  {
    assert JavaString.OccursAt("Tensorflow", "Tensorflow", 0);
    assert JavaString.OccursAt("Tensorflow/Pytorch", "Tensorflow", 0);
    JavaString.ContainedChars("Pytorch", "Tensorflow");
    assert "Tensorflow"[0] !in "Pytorch";
  }

  /** The model tag and signature are read from model_keys for a Tensorflow
      model and left as they were otherwise. */
  lemma MetadataTag(obj: Entries, s: Settings)
    requires s.framework.Some? && Metadata(obj, s).Ok?
    ensures var (t, deepimagej) := Metadata(obj, s).value;
      if JavaString.Contains(s.framework.value, "Tensorflow") then
        && ModelKeys(obj).Some?
        && t.tag == AsString(Get(ModelKeys(obj).value, "tensorflow_model_tag")).value
        && t.graph == AsString(Get(ModelKeys(obj).value, "tensorflow_siganture_def")).value
      else t.tag == s.tag && t.graph == s.graph
  {
  }

  /** For a model with Tensorflow weights the tag and signature are those of
      model_keys. */
  lemma TensorflowKeys(obj: Entries, s: Settings)
    requires s.framework in {Some("Tensorflow"), Some("Tensorflow/Pytorch")} && Metadata(obj, s).Ok?
    ensures ModelKeys(obj).Some?
    ensures Metadata(obj, s).value.0.tag.GetOr("serve") ==
      TextOr(Get(ModelKeys(obj).value, "tensorflow_model_tag"), "serve")
    ensures Metadata(obj, s).value.0.graph.GetOr("serving_default") ==
      TextOr(Get(ModelKeys(obj).value, "tensorflow_siganture_def"), "serving_default")
  {
    FrameworkNames();
    MetadataTag(obj, s);
  }

  /** The outputs, tests and defaults keep the header and the framework, and
      a configuration read complete gets "serve" and "serving_default" for a
      null tag and signature. */
  lemma AfterInputsKeeps(obj: Entries, deepimagej: Entries, test: Entries, s: Settings)
    requires AfterInputs(obj, deepimagej, test, s).Ok?
    ensures var r := AfterInputs(obj, deepimagej, test, s).value;
      && r.author == s.author && r.cite == s.cite && r.framework == s.framework
      && (r.completeConfig ==>
            r.tag == Some(s.tag.GetOr("serve")) && r.graph == Some(s.graph.GetOr("serving_default")))
  {
  }

  /** Everything after the weights keeps the header and the framework; the tag
      and signature of a configuration read complete are those config.deepimagej
      gives, with the defaults for null ones. */
  lemma AfterWeightsKeeps(obj: Entries, s: Settings)
    requires s.framework.Some? && AfterWeights(obj, s).Ok?
    ensures var r := AfterWeights(obj, s).value;
      var m := Metadata(obj, s).value.0;
      && r.author == s.author && r.cite == s.cite && r.framework == s.framework
      && (r.completeConfig ==>
            r.tag == Some(m.tag.GetOr("serve")) && r.graph == Some(m.graph.GetOr("serving_default")))
  {
    var (described, deepimagej) := Metadata(obj, s).value;
    var (withInputs, test) := Inputs(obj, deepimagej, described).value;
    if withInputs.completeConfig {
      AfterInputsKeeps(obj, deepimagej, test, withInputs);
    }
  }

  /** The framework is chosen by the weight formats listed; with neither, the
      constructor stops right after the header, incomplete. */
  lemma FrameworkFromWeights(obj: Entries)
    requires ReadModel(obj).Ok?
    ensures AsMap(Get(obj, "weights")).Ok?
    ensures var w := Keys(AsMap(Get(obj, "weights")).value);
      var f := FrameworkOf(TfFormat in w, PtFormat in w);
      && (f.None? ==> ReadModel(obj) == Ok(Header(obj).value.(completeConfig := false)))
      && (f.Some? ==> ReadModel(obj).value.framework == f)
  {
    var weighed := Weights(obj, Header(obj).value).value;
    if weighed.completeConfig {
      AfterWeightsKeeps(obj, weighed);
    }
  }

  /** A null author list reads as ["n/a"]; a list that is there is kept. */
  lemma ReadAuthors(obj: Entries)
    requires ReadModel(obj).Ok?
    ensures var authors := AsList(Get(obj, "authors")).value;
      ReadModel(obj).value.author == if authors.None? then [Str("n/a")] else authors.value
  {
    var weighed := Weights(obj, Header(obj).value).value;
    if weighed.completeConfig {
      AfterWeightsKeeps(obj, weighed);
    }
  }

  /** A null citation reads as one empty citation; a list that is there is kept. */
  lemma ReadCite(obj: Entries)
    requires ReadModel(obj).Ok?
    ensures var cite := AsList(Get(obj, "cite")).value;
      ReadModel(obj).value.cite == Some(if cite.None? then [DefaultCite] else cite.value)
  {
    var weighed := Weights(obj, Header(obj).value).value;
    if weighed.completeConfig {
      AfterWeightsKeeps(obj, weighed);
    }
  }

  /** Without an `inputs` or an `outputs` list the configuration is incomplete. */
  lemma MissingTensors(obj: Entries)
    requires ReadModel(obj).Ok?
    requires AsList(Get(obj, "inputs")) == Ok(None) || AsList(Get(obj, "outputs")) == Ok(None)
    ensures !ReadModel(obj).value.completeConfig
  {
    if ReadModel(obj).value.completeConfig {
      CompleteConfig(obj);
    }
  }

  /** config.deepimagej.model_keys, when each step of the way is a mapping. */
  function ModelKeys(obj: Entries): (r: Option<Entries>)
    ensures r.Some? <==> (AsMap(Get(obj, "config")).Ok?
      && AsMap(Get(AsMap(Get(obj, "config")).value, "deepimagej")).Ok?
      && AsMap(Get(AsMap(Get(AsMap(Get(obj, "config")).value, "deepimagej")).value, "model_keys")).Ok?)
  {
    match AsMap(Get(obj, "config"))
    case Err(_) => None
    case Ok(config) =>
      match AsMap(Get(config, "deepimagej"))
      case Err(_) => None
      case Ok(deepimagej) =>
        match AsMap(Get(deepimagej, "model_keys"))
        case Err(_) => None
        case Ok(keys) => Some(keys)
  }

  /** The text of a string value, or `default` for any other. */
  function TextOr(v: Option<Value>, default: string): (r: string)
    ensures v.Some? && v.value.Str? ==> r == v.value.s
    ensures !(v.Some? && v.value.Str?) ==> r == default
  {
    if v.Some? && v.value.Str? then v.value.s else default
  }

  /** A Pytorch-only model keeps the empty initial tag and signature: the
      defaults apply to null ones only. */
  lemma PytorchTag(obj: Entries)
    requires ReadModel(obj).Ok? && ReadModel(obj).value.completeConfig
    requires ReadModel(obj).value.framework == Some("Pytorch")
    ensures ReadModel(obj).value.tag == Some("") && ReadModel(obj).value.graph == Some("")
  {
    var weighed := Weights(obj, Header(obj).value).value;
    AfterWeightsKeeps(obj, weighed);
    FrameworkNames();
    MetadataTag(obj, weighed);
  }

  /** A model with Tensorflow weights takes its tag and signature from
      model_keys, with "serve" and "serving_default" for null ones. */
  lemma TensorflowTag(obj: Entries)
    requires ReadModel(obj).Ok? && ReadModel(obj).value.completeConfig
    requires ReadModel(obj).value.framework != Some("Pytorch")
    ensures ModelKeys(obj).Some?
    ensures ReadModel(obj).value.tag == Some(TextOr(Get(ModelKeys(obj).value, "tensorflow_model_tag"), "serve"))
    ensures ReadModel(obj).value.graph ==
      Some(TextOr(Get(ModelKeys(obj).value, "tensorflow_siganture_def"), "serving_default"))
  {
    var weighed := Weights(obj, Header(obj).value).value;
    AfterWeightsKeeps(obj, weighed);
    TensorflowKeys(obj, weighed);
  }

  method WeightsStage(obj: Entries, s: Settings) returns (r: Result<Settings, Failure>)
    ensures r == Weights(obj, s)
  {
    var weights := AsMap(Get(obj, "weights"));
    if weights.Err? {
      return Err(weights.error);
    }
    var tf, pt := FindFormats(Keys(weights.value));
    var framework := FrameworkOf(tf, pt);
    if framework.None? {
      return Ok(s.(completeConfig := false));
    }
    r := Ok(s.(framework := framework));
  }

  method InputsStage(obj: Entries, deepimagej: Entries, s: Settings) returns (r: Result<(Settings, Entries), Failure>)
    ensures r == Inputs(obj, deepimagej, s)
  {
    var inputs := AsList(Get(obj, "inputs"));
    if inputs.Err? {
      return Err(inputs.error);
    }
    if inputs.value.None? {
      return Ok((s.(completeConfig := false), []));
    }
    var test := AsMap(Get(deepimagej, "test_information"));
    if test.Err? {
      return Err(test.error);
    }
    var infos := AsList(Get(test.value, "inputs"));
    if infos.Err? {
      return Err(infos.error);
    }
    var p := ReadInputs(inputs.value.value, infos.value);
    if p.Err? {
      return Err(p.error);
    }
    var read := s.(inputList := p.value.done, fixedInput := FixedAfter(p.value, s.fixedInput));
    r := if p.value.Stopped? then Ok((read.(completeConfig := false), test.value)) else Ok((read, test.value));
  }

  method OutputsStage(obj: Entries, s: Settings) returns (r: Result<Settings, Failure>)
    ensures r == Outputs(obj, s)
  {
    var outputs := AsList(Get(obj, "outputs"));
    if outputs.Err? {
      return Err(outputs.error);
    }
    if outputs.value.None? {
      return Ok(s.(completeConfig := false));
    }
    var p := ReadOutputs(outputs.value.value, s.pyramidalNetwork);
    if p.Err? {
      return Err(p.error);
    }
    var read := s.(outputList := p.value.done);
    r := if p.value.Stopped? then Ok(read.(completeConfig := false)) else Ok(read);
  }

  method TestsStage(deepimagej: Entries, test: Entries, s: Settings) returns (r: Result<Settings, Failure>)
    ensures r == Tests(deepimagej, test, s)
  {
    var infos := AsList(Get(test, "outputs"));
    if infos.Err? {
      return Err(infos.error);
    }
    var saved := ReadSavedOutputs(infos.value);
    if saved.Err? {
      return Err(saved.error);
    }
    var memory := AsString(Get(test, "memory_peak"));
    if memory.Err? {
      return Err(memory.error);
    }
    var runtime := AsString(Get(test, "runtime"));
    if runtime.Err? {
      return Err(runtime.error);
    }
    var prediction := AsMap(Get(deepimagej, "prediction"));
    if prediction.Err? {
      return Err(prediction.error);
    }
    var p := ReadPrediction(prediction.value);
    if p.Err? {
      return Err(p.error);
    }
    r := Ok(s.(savedOutputs := saved.value, memoryPeak := memory.value, runtime := runtime.value,
               prediction := Some(p.value)));
  }

  /** The constructor body after model.yaml has been read. */
  method ReadSettings(obj: Entries) returns (r: Result<Settings, Failure>)
    ensures r == ReadModel(obj)
  {
    var header := Header(obj);
    if header.Err? {
      return Err(header.error);
    }
    var weighed := WeightsStage(obj, header.value);
    if weighed.Err? || !weighed.value.completeConfig {
      return weighed;
    }
    var described := Metadata(obj, weighed.value);
    if described.Err? {
      return Err(described.error);
    }
    var withInputs := InputsStage(obj, described.value.1, described.value.0);
    if withInputs.Err? {
      return Err(withInputs.error);
    }
    if !withInputs.value.0.completeConfig {
      return Ok(withInputs.value.0);
    }
    var withOutputs := OutputsStage(obj, withInputs.value.0);
    if withOutputs.Err? || !withOutputs.value.completeConfig {
      return withOutputs;
    }
    var tested := TestsStage(described.value.1, withInputs.value.1, withOutputs.value);
    if tested.Err? {
      return Err(tested.error);
    }
    r := Ok(Finish(tested.value));
  }

  /** deepimagej.Parameters: the fields the constructor sets. */
  class Parameters {
    var developer: bool
    var formatVersion: string
    var name: Option<string>
    var author: seq<Value>
    var cite: Option<seq<Value>>
    var documentation: Option<string>
    var license: Option<string>
    var framework: Option<string>
    var gitRepo: Option<string>
    var pyramidalNetwork: bool
    var allowPatching: bool
    var tag: Option<string>
    var graph: Option<string>
    var inputList: seq<InputTensor>
    var fixedInput: bool
    var outputList: seq<OutputTensor>
    var savedOutputs: seq<SavedOutput>
    var memoryPeak: Option<string>
    var runtime: Option<string>
    var prediction: Option<Prediction>
    var completeConfig: bool

    function State(): Settings
      reads this
    {
      Settings(developer, formatVersion, name, author, cite, documentation, license, framework, gitRepo,
               pyramidalNetwork, allowPatching, tag, graph, inputList, fixedInput, outputList, savedOutputs,
               memoryPeak, runtime, prediction, completeConfig)
    }

    /** The fields set to what the constructor has read. */
    constructor Of(s: Settings)
      ensures State() == s
    {
      developer, formatVersion, name, author, cite := s.developer, s.formatVersion, s.name, s.author, s.cite;
      documentation, license, framework, gitRepo := s.documentation, s.license, s.framework, s.gitRepo;
      pyramidalNetwork, allowPatching, tag, graph := s.pyramidalNetwork, s.allowPatching, s.tag, s.graph;
      inputList, fixedInput, outputList, savedOutputs := s.inputList, s.fixedInput, s.outputList, s.savedOutputs;
      memoryPeak, runtime, prediction, completeConfig := s.memoryPeak, s.runtime, s.prediction, s.completeConfig;
    }

    /** `new Parameters(valid, path, isDeveloper)`, where `hasYaml` says whether
        the model folder holds model.yaml and `obj` is what the YAML reader
        returns for it: the object, or the exception the constructor throws. */
    static method Load(valid: bool, isDeveloper: bool, hasYaml: bool, obj: Entries) returns (r: Result<Parameters, Failure>)
      ensures r.Ok? <==> Read(valid, isDeveloper, hasYaml, obj).Ok?
      ensures r.Ok? ==> fresh(r.value) && r.value.State() == Read(valid, isDeveloper, hasYaml, obj).value
      ensures r.Err? ==> r.error == Read(valid, isDeveloper, hasYaml, obj).error
    {
      if isDeveloper || !hasYaml {
        var p := new Parameters.Of(Initial(isDeveloper));
        return Ok(p);
      }
      var read := ReadSettings(obj);
      if read.Err? {
        return Err(read.error);
      }
      var p := new Parameters.Of(read.value);
      r := Ok(p);
    }
  }
}
