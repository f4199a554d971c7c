/**
 * deepimagej.DeepLearningModel: the warnings shown when the installed CUDA
 * version does not suit the installed PyTorch or TensorFlow engine. The
 * empty string means no warning. The axis lookups of the same class are the
 * ones of TensorFlowModel.
 */
module DeepLearningModel {
  import JavaString

  /** The warning that names the CUDA version, the engine version and the CUDA versions to install. */
  function Incompatible(cuda: string, engine: string, advice: string): (msg: string)
    ensures msg != "" && msg[0] == 'I'
  {
    "Installed CUDA version " + cuda + " is not compatible with " + engine + ".\n"
      + "The plugin might not be able to run on GPU.\n"
      + "For optimal performance please install " + advice + ".\n"
  }

  const PytorchGeneric: string :=
    "Make sure that the DJL Pytorch version is compatible with the installed CUDA version.\n"
      + "Check the DeepImageJ Wiki for more information"

  const TensorflowGeneric: string :=
    "Make sure that the Tensorflow version is compatible with the installed CUDA version.\n"

  predicate Has(s: string, t: string)
  {
    JavaString.Contains(s, t)
  }

  /** One of the PyTorch versions the check knows. */
  predicate KnownPytorch(pt: string)
  {
    Has(pt, "1.7.0") || Has(pt, "1.6.0") || Has(pt, "1.5.0") || Has(pt, "1.4.0")
  }

  /** Some known PyTorch version in the string has a CUDA that is not among the ones it was built for. */
  predicate PytorchMismatch(pt: string, cuda: string)
  {
    (Has(pt, "1.7.0") && !(Has(cuda, "10.2") || Has(cuda, "10.1") || Has(cuda, "11.0"))) ||
    (Has(pt, "1.6.0") && !(Has(cuda, "10.2") || Has(cuda, "10.1"))) ||
    (Has(pt, "1.5.0") && !(Has(cuda, "10.1") || Has(cuda, "10.2") || Has(cuda, "9.2"))) ||
    (Has(pt, "1.4.0") && !(Has(cuda, "10.1") || Has(cuda, "9.2")))
  }

  /**
   * PytorchCUDACompatibility as written: the final catch-all fires for
   * every non-empty version once no mismatch was found, so a known version
   * with a matching CUDA also gets the generic warning.
   */
  function PytorchCudaCompatibility(ptVersion: string, cudaVersion: string): (errMessage: string)
    ensures cudaVersion == "nocuda" ==> errMessage == ""
    ensures cudaVersion != "nocuda" && PytorchMismatch(ptVersion, cudaVersion) ==>
              errMessage != "" && errMessage[0] == 'I'
  {
    if cudaVersion == "nocuda" then ""
    else if Has(ptVersion, "1.7.0") && !(Has(cudaVersion, "10.2") || Has(cudaVersion, "10.1") || Has(cudaVersion, "11.0")) then
      Incompatible(cudaVersion, "DJL Pytorch 1.7.0", "either CUDA 10.1, CUDA 10.2 or CUDA 11.0")
    else if Has(ptVersion, "1.6.0") && !(Has(cudaVersion, "10.2") || Has(cudaVersion, "10.1")) then
      Incompatible(cudaVersion, "DJL Pytorch  1.6.0", "CUDA 10.1, CUDA 10.2")
    else if Has(ptVersion, "1.5.0") && !(Has(cudaVersion, "10.1") || Has(cudaVersion, "10.2") || Has(cudaVersion, "9.2")) then
      Incompatible(cudaVersion, "DJL Pytorch  1.5.0", "CUDA 9.2, CUDA 10.1 or CUDA 10.2")
    else if Has(ptVersion, "1.4.0") && !(Has(cudaVersion, "10.1") || Has(cudaVersion, "9.2")) then
      Incompatible(cudaVersion, "DJL Pytorch  1.4.0", "CUDA 9.2 or CUDA 10.1")
    else if !Has(JavaString.ToLower(cudaVersion), "nocuda") && ptVersion != "" then
      PytorchGeneric
    else ""
  }

  /**
   * No warning exactly when CUDA is off, or when no mismatch is found and
   * the CUDA string says "nocuda" in any case or the PyTorch version is empty.
   */
  lemma PytorchSilent(ptVersion: string, cudaVersion: string)
    ensures PytorchCudaCompatibility(ptVersion, cudaVersion) == "" <==>
              cudaVersion == "nocuda" ||
              (!PytorchMismatch(ptVersion, cudaVersion) &&
               (Has(JavaString.ToLower(cudaVersion), "nocuda") || ptVersion == ""))
  {
    assert |PytorchGeneric| > 0;
  }

  /**
   * The same chain with the catch-all kept for versions the chain does not
   * know, as TensorflowCUDACompatibility does: a known version with a
   * matching CUDA gets no warning.
   */
  function PytorchCudaCompatibilityIntended(ptVersion: string, cudaVersion: string): (errMessage: string)
    ensures cudaVersion == "nocuda" ==> errMessage == ""
    ensures errMessage == "" <==>
              cudaVersion == "nocuda" ||
              (!PytorchMismatch(ptVersion, cudaVersion) &&
               (KnownPytorch(ptVersion) || Has(JavaString.ToLower(cudaVersion), "nocuda") || ptVersion == ""))
    ensures PytorchMismatch(ptVersion, cudaVersion) || !KnownPytorch(ptVersion) ==>
              errMessage == PytorchCudaCompatibility(ptVersion, cudaVersion)
  {
    if cudaVersion != "nocuda" && !PytorchMismatch(ptVersion, cudaVersion) && KnownPytorch(ptVersion) then ""
    else PytorchCudaCompatibility(ptVersion, cudaVersion)
  }

  /** For PyTorch 1.6.0 with CUDA 10.2 the code as written still warns; the intended chain does not. */
  lemma {:induction false} CompatiblePytorchWarned(ptVersion: string, cudaVersion: string)
    requires Has(ptVersion, "1.6.0") && !Has(ptVersion, "1.7.0") && !Has(ptVersion, "1.4.0")
    requires Has(cudaVersion, "10.2")
    requires !Has(JavaString.ToLower(cudaVersion), "nocuda")
    ensures cudaVersion != "nocuda"
    ensures PytorchCudaCompatibility(ptVersion, cudaVersion) == PytorchGeneric
    ensures PytorchCudaCompatibilityIntended(ptVersion, cudaVersion) == ""
  {
    assert JavaString.OccursAt(cudaVersion, "10.2", JavaString.IndexOf(cudaVersion, "10.2"));
    assert ptVersion != "" by {
      assert JavaString.OccursAt(ptVersion, "1.6.0", JavaString.IndexOf(ptVersion, "1.6.0"));
    }
  }

  /** The plain pair "1.6.0" and "10.2" is such a case. */
  lemma CompatiblePytorchWarnedExample()
    ensures PytorchCudaCompatibility("1.6.0", "10.2") == PytorchGeneric
    ensures PytorchCudaCompatibilityIntended("1.6.0", "10.2") == ""
  {
    assert JavaString.OccursAt("1.6.0", "1.6.0", 0);
    assert JavaString.OccursAt("10.2", "10.2", 0);
    assert !JavaString.OccursAt("1.6.0", "1.7.0", 0) && !JavaString.OccursAt("1.6.0", "1.4.0", 0);
    assert |JavaString.ToLower("10.2")| == 4;
    CompatiblePytorchWarned("1.6.0", "10.2");
  }

  /** The known TensorFlow versions, newest first. */
  predicate KnownTensorflow(tf: string)
  {
    Has(tf, "1.15.0") || Has(tf, "1.14.0") || Has(tf, "1.13.0") || Has(tf, "1.12.0")
  }

  /** TensorflowCUDACompatibility. */
  function TensorflowCudaCompatibility(tfVersion: string, cudaVersion: string): (errMessage: string)
    ensures !KnownTensorflow(tfVersion) ==> errMessage == TensorflowGeneric
    ensures Has(tfVersion, "1.15.0") && !Has(cudaVersion, "10.0") ==>
              errMessage == Incompatible(cudaVersion, "tf 1.15.0", "CUDA 10.0")
    ensures Has(tfVersion, "1.15.0") && Has(cudaVersion, "10.0") && !Has(tfVersion, "1.12.0") ==> errMessage == ""
    ensures errMessage == "" <==>
              KnownTensorflow(tfVersion) &&
              (Has(tfVersion, "1.15.0") || Has(tfVersion, "1.14.0") || Has(tfVersion, "1.13.0") ==> Has(cudaVersion, "10.0")) &&
              (Has(tfVersion, "1.12.0") ==> Has(cudaVersion, "9.0"))
  {
    if Has(tfVersion, "1.15.0") && !Has(cudaVersion, "10.0") then
      Incompatible(cudaVersion, "tf 1.15.0", "CUDA 10.0")
    else if Has(tfVersion, "1.14.0") && !Has(cudaVersion, "10.0") then
      Incompatible(cudaVersion, "tf 1.14.0", "CUDA 10.0")
    else if Has(tfVersion, "1.13.0") && !Has(cudaVersion, "10.0") then
      Incompatible(cudaVersion, "tf 1.13.0", "CUDA 10.0")
    else if Has(tfVersion, "1.12.0") && !Has(cudaVersion, "9.0") then
      Incompatible(cudaVersion, "tf 1.12.0", "CUDA 9.0")
    else if !Has(tfVersion, "1.15.0") && !Has(tfVersion, "1.14.0") && !Has(tfVersion, "1.13.0") && !Has(tfVersion, "1.12.0") then
      TensorflowGeneric
    else ""
  }
}
