/**
 * deepimagej.TensorFlowModel: the short names of SavedModel tags and
 * signatures and their TensorFlow constant names, and the axis lookups
 * that read sizes out of a tensor description. DeepLearningModel carries
 * identical copies of nChannelsOrSlices, hSize, wSize and nBatch; they are
 * modelled once, here.
 */
module TensorFlowModel {
  import opened Wrappers
  import JavaString
  import Index
  import DijTensor

  const ModelTags: seq<string> := ["serve", "inference", "train", "eval", "gpu", "tpu"]

  const TfModelTags: seq<string> := [
    "tf.saved_model.tag_constants.SERVING",
    "tf.saved_model.tag_constants.INFERENCE",
    "tf.saved_model.tag_constants.TRAINING",
    "tf.saved_model.tag_constants.EVAL",
    "tf.saved_model.tag_constants.GPU",
    "tf.saved_model.tag_constants.TPU"]

  /** Short signature names; "inputs" and "outputs" stand for several constants. */
  const SignatureConstants: seq<string> := [
    "serving_default", "inputs", "tensorflow/serving/classify", "classes", "scores",
    "inputs", "tensorflow/serving/predict", "outputs", "inputs", "tensorflow/serving/regress",
    "outputs", "train", "eval", "tensorflow/supervised/training", "tensorflow/supervised/eval"]

  const TfSignatureConstants: seq<string> := [
    "tf.saved_model.signature_constants.DEFAULT_SERVING_SIGNATURE_DEF_KEY",
    "tf.saved_model.signature_constants.CLASSIFY_INPUTS",
    "tf.saved_model.signature_constants.CLASSIFY_METHOD_NAME",
    "tf.saved_model.signature_constants.CLASSIFY_OUTPUT_CLASSES",
    "tf.saved_model.signature_constants.CLASSIFY_OUTPUT_SCORES",
    "tf.saved_model.signature_constants.PREDICT_INPUTS",
    "tf.saved_model.signature_constants.PREDICT_METHOD_NAME",
    "tf.saved_model.signature_constants.PREDICT_OUTPUTS",
    "tf.saved_model.signature_constants.REGRESS_INPUTS",
    "tf.saved_model.signature_constants.REGRESS_METHOD_NAME",
    "tf.saved_model.signature_constants.REGRESS_OUTPUTS",
    "tf.saved_model.signature_constants.DEFAULT_TRAIN_SIGNATURE_DEF_KEY",
    "tf.saved_model.signature_constants.DEFAULT_EVAL_SIGNATURE_DEF_KEY",
    "tf.saved_model.signature_constants.SUPERVISED_TRAIN_METHOD_NAME",
    "tf.saved_model.signature_constants.SUPERVISED_EVAL_METHOD_NAME"]

  /** No name occurs twice in the list. */
  predicate Distinct(names: seq<string>)
  {
    forall i, j :: 0 <= i < j < |names| ==> names[i] != names[j]
  }

  /** The entry of `to` at the position of `name` in `from`, or the name itself when it is not listed. */
  function Translate(from: seq<string>, to: seq<string>, name: string): (r: string)
    requires |from| == |to|
    ensures name !in from ==> r == name
    ensures name in from ==> r == to[Index.FirstIndex(from, name)]
  {
    var i := Index.FirstIndex(from, name);
    if i == -1 then name else to[i]
  }

  /** Translating back through a list without repeats undoes a translation of a name that is not itself a target. */
  lemma {:induction false} TranslateRoundTrip(from: seq<string>, to: seq<string>, name: string)
    requires |from| == |to| && Distinct(to)
    requires name !in to
    ensures Translate(to, from, Translate(from, to, name)) == name
  {
    var i := Index.FirstIndex(from, name);
    if i != -1 {
      Index.FirstIndexIs(to, to[i], i);
    }
  }

  /** returnTfTag: a short tag becomes its TensorFlow constant; anything else is unchanged. */
  function ReturnTfTag(tag: string): (tfTag: string)
    ensures tag !in ModelTags ==> tfTag == tag
    ensures tag in ModelTags ==> tfTag in TfModelTags
  {
    Translate(ModelTags, TfModelTags, tag)
  }

  /** returnStringTag: a TensorFlow tag constant becomes its short tag; anything else is unchanged. */
  function ReturnStringTag(tfTag: string): (tag: string)
    ensures tfTag !in TfModelTags ==> tag == tfTag
    ensures tfTag in TfModelTags ==> tag in ModelTags
  {
    Translate(TfModelTags, ModelTags, tfTag)
  }

  /** returnTfSig(String): a short signature name becomes the constant of its first listing. */
  function ReturnTfSig(sig: string): (tfSig: string)
    ensures sig !in SignatureConstants ==> tfSig == sig
    ensures sig in SignatureConstants ==> tfSig in TfSignatureConstants
  {
    Translate(SignatureConstants, TfSignatureConstants, sig)
  }

  /** returnStringSig: a TensorFlow signature constant becomes its short name. */
  function ReturnStringSig(tfSig: string): (sig: string)
    ensures tfSig !in TfSignatureConstants ==> sig == tfSig
    ensures tfSig in TfSignatureConstants ==> sig in SignatureConstants
  {
    Translate(TfSignatureConstants, SignatureConstants, tfSig)
  }

  lemma TagListsDistinct()
    ensures Distinct(ModelTags) && Distinct(TfModelTags)
  {
  }

  lemma TfSignaturesDistinct()
    ensures Distinct(TfSignatureConstants)
  {
  }

  /** Every tag that is not itself a TensorFlow constant survives the trip to the constant and back. */
  lemma TagRoundTrip(tag: string)
    requires tag !in TfModelTags
    ensures ReturnStringTag(ReturnTfTag(tag)) == tag
  {
    TagListsDistinct();
    TranslateRoundTrip(ModelTags, TfModelTags, tag);
  }

  /** Every TensorFlow tag constant, and every string that is not a short tag, survives the trip to the short tag and back. */
  lemma TfTagRoundTrip(tfTag: string)
    requires tfTag !in ModelTags
    ensures ReturnTfTag(ReturnStringTag(tfTag)) == tfTag
  {
    TagListsDistinct();
    TranslateRoundTrip(TfModelTags, ModelTags, tfTag);
  }

  /** Short signature names repeat, yet a name survives the trip to its first constant and back. */
  lemma SigRoundTrip(sig: string)
    requires sig !in TfSignatureConstants
    ensures ReturnStringSig(ReturnTfSig(sig)) == sig
  {
    TfSignaturesDistinct();
    TranslateRoundTrip(SignatureConstants, TfSignatureConstants, sig);
  }

  lemma FirstInputsAt1()
    ensures Index.FirstIndex(SignatureConstants, "inputs") == 1
  {
    assert |SignatureConstants[0]| != |"inputs"|;
    Index.FirstIndexIs(SignatureConstants, "inputs", 1);
  }

  lemma PredictInputsAt5()
    ensures Index.FirstIndex(TfSignatureConstants, TfSignatureConstants[5]) == 5
  {
    var tf := TfSignatureConstants;
    assert tf[5] != tf[0] && tf[5] != tf[1] && tf[5] != tf[2] && tf[5] != tf[3] && tf[5] != tf[4];
    Index.FirstIndexIs(tf, tf[5], 5);
  }

  /** The other direction fails: PREDICT_INPUTS comes back as CLASSIFY_INPUTS, the first constant named "inputs". */
  lemma TfSigNotRecovered()
    ensures ReturnTfSig(ReturnStringSig(TfSignatureConstants[5])) == TfSignatureConstants[1]
    ensures TfSignatureConstants[5] != TfSignatureConstants[1]
  {
    var tf, short := TfSignatureConstants, SignatureConstants;
    PredictInputsAt5();
    FirstInputsAt1();
    assert tf[5] in tf;
    assert Translate(tf, short, tf[5]) == "inputs";
    assert "inputs" in short;
    assert Translate(short, tf, "inputs") == tf[1];
  }

  /** The constants of the short names present in the set, one per listing. */
  function TranslatedSigs(sig: set<string>, upTo: nat): (r: set<string>)
    requires upTo <= |SignatureConstants|
    ensures forall t :: t in r <==> exists i :: 0 <= i < upTo && SignatureConstants[i] in sig && TfSignatureConstants[i] == t
  {
    set i | 0 <= i < upTo && SignatureConstants[i] in sig :: TfSignatureConstants[i]
  }

  /**
   * returnTfSig(Set): the constants of the listed short names in the set;
   * when that does not give a set of the same size, the input set itself.
   */
  method ReturnTfSigSet(sig: set<string>) returns (tfSig: set<string>)
    ensures |tfSig| == |sig|
    ensures tfSig == if |TranslatedSigs(sig, |SignatureConstants|)| == |sig| then TranslatedSigs(sig, |SignatureConstants|) else sig
  {
    tfSig := {};
    var i := 0;
    while i < |TfSignatureConstants|
      invariant 0 <= i <= |TfSignatureConstants|
      invariant tfSig == TranslatedSigs(sig, i)
    {
      if SignatureConstants[i] in sig {
        tfSig := tfSig + {TfSignatureConstants[i]};
      }
      i := i + 1;
    }
    if |tfSig| != |sig| {
      tfSig := sig;
    }
  }

  /** "inputs" names three constants, so a set holding only it is not translated. */
  lemma InputsNotTranslated()
    ensures |TranslatedSigs({"inputs"}, |SignatureConstants|)| == 3
  {
    var r := TranslatedSigs({"inputs"}, |SignatureConstants|);
    var expected := {TfSignatureConstants[1], TfSignatureConstants[5], TfSignatureConstants[8]};
    forall t | t in r ensures t in expected {
      var i :| 0 <= i < |SignatureConstants| && SignatureConstants[i] in {"inputs"} && TfSignatureConstants[i] == t;
      InputsPositions(i);
    }
    assert r == expected;
    InputsConstantsDistinct();
  }

  /** The three constants named "inputs" differ from one another. */
  lemma InputsConstantsDistinct()
    ensures |{TfSignatureConstants[1], TfSignatureConstants[5], TfSignatureConstants[8]}| == 3
  {
    TfSignaturesDistinct();
  }

  /** Only the constants at 1, 5 and 8 have the short name "inputs". */
  lemma InputsPositions(i: nat)
    requires i < |SignatureConstants| && SignatureConstants[i] == "inputs"
    ensures i == 1 || i == 5 || i == 8
  {
  }

  /**
   * nChannelsOrSlices: the minimum size along C ("channels") or Z (any
   * other request), or 1 when the form lacks that axis. None where the
   * minimum size is shorter than the form.
   */
  function NChannelsOrSlices(tensor: DijTensor.Tensor, channelsOrSlices: string): (n: Option<int>)
    ensures var letter := if channelsOrSlices == "channels" then 'C' else 'Z';
            (letter !in tensor.form ==> n == Some(1)) &&
            (letter in tensor.form ==>
               var ind := DijTensor.AxisIndex(tensor.form, letter);
               if ind < |tensor.minimumSize| then n == Some(tensor.minimumSize[ind]) else n.None?)
  {
    var letter := if channelsOrSlices == "channels" then 'C' else 'Z';
    var ind := DijTensor.AxisIndex(tensor.form, letter);
    if ind == -1 then Some(1)
    else if ind < |tensor.minimumSize| then Some(tensor.minimumSize[ind])
    else None
  }

  /**
   * The size of the first input along one axis, as a decimal string, or
   * "-1" when the form lacks the axis. None where there is no first input
   * or its shape is too short. An int size prints so that parseInt reads
   * it back.
   */
  function AxisSize(inputs: seq<DijTensor.Tensor>, inputForm: string, letter: char): (s: Option<string>)
    ensures letter !in inputForm ==> s == Some("-1")
    ensures letter in inputForm ==>
              var ind := DijTensor.AxisIndex(inputForm, letter);
              (s.Some? <==> |inputs| > 0 && ind < |inputs[0].tensorShape|) &&
              (s.Some? ==> s.value == JavaString.IntToString(inputs[0].tensorShape[ind]) &&
                           (JavaString.MinInt <= inputs[0].tensorShape[ind] <= JavaString.MaxInt ==>
                              JavaString.ParseInt(s.value) == Some(inputs[0].tensorShape[ind])))
  {
    var ind := DijTensor.AxisIndex(inputForm, letter);
    if ind == -1 then Some("-1")
    else if |inputs| > 0 && ind < |inputs[0].tensorShape| then
      var v := inputs[0].tensorShape[ind];
      assert JavaString.MinInt <= v <= JavaString.MaxInt ==> JavaString.ParseInt(JavaString.IntToString(v)) == Some(v) by {
        if JavaString.MinInt <= v <= JavaString.MaxInt { JavaString.ParseIntToString(v); }
      }
      Some(JavaString.IntToString(v))
    else None
  }

  /** hSize: the first input's tensor_shape at Y. */
  function HSize(inputs: seq<DijTensor.Tensor>, inputForm: string): (s: Option<string>)
    ensures 'Y' !in inputForm ==> s == Some("-1")
    ensures 'Y' in inputForm ==>
              var ind := DijTensor.AxisIndex(inputForm, 'Y');
              (s.Some? <==> |inputs| > 0 && ind < |inputs[0].tensorShape|) &&
              (s.Some? ==> s.value == JavaString.IntToString(inputs[0].tensorShape[ind]))
  {
    AxisSize(inputs, inputForm, 'Y')
  }

  /** wSize: the first input's tensor_shape at X. */
  function WSize(inputs: seq<DijTensor.Tensor>, inputForm: string): (s: Option<string>)
    ensures 'X' !in inputForm ==> s == Some("-1")
    ensures 'X' in inputForm ==>
              var ind := DijTensor.AxisIndex(inputForm, 'X');
              (s.Some? <==> |inputs| > 0 && ind < |inputs[0].tensorShape|) &&
              (s.Some? ==> s.value == JavaString.IntToString(inputs[0].tensorShape[ind]))
  {
    AxisSize(inputs, inputForm, 'X')
  }

  /**
   * nBatch: the batch size at B as a decimal string, where a missing B
   * axis and a free size -1 both read "1". None where dims is too short.
   */
  function NBatch(dims: seq<int>, inputForm: string): (s: Option<string>)
    ensures 'B' !in inputForm ==> s == Some("1")
    ensures 'B' in inputForm ==>
              var ind := DijTensor.AxisIndex(inputForm, 'B');
              if ind >= |dims| then s.None?
              else if dims[ind] == -1 then s == Some("1")
              else s == Some(JavaString.IntToString(dims[ind]))
  {
    var ind := DijTensor.AxisIndex(inputForm, 'B');
    if ind == -1 then Some("1")
    else if ind < |dims| then
      var inBatch := JavaString.IntToString(dims[ind]);
      assert inBatch == "-1" <==> dims[ind] == -1 by {
        if inBatch == "-1" { JavaString.IntToStringInjective(dims[ind], -1); }
      }
      if inBatch == "-1" then Some("1") else Some(inBatch)
    else None
  }

}
