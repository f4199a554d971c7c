# deepImageJ core, modelled in Dafny

deepImageJ is an ImageJ/Fiji plugin that runs TensorFlow and PyTorch models
from the BioImage Model Zoo on images. Around the engine calls sits plain
index, shape and string code. This project models that code and proves what
it promises:

- **Tiling and mirror padding.** `CompactMirroring` holds the reflection
  index `mirror` and the padding of planes and slice stacks.
  `ArrayOperations`, `LegacyToolsArrayOperations` and
  `LegacyArrayOperations` hold added-pixel counts, patch sizes and overlaps,
  and the window copies into and out of a patch. `RunnerTf` covers the tile
  plan of the TensorFlow runner: how many tiles each axis needs, where each
  one starts, and the proof that the output regions of the tiles partition
  the image.
- **Tensor axis strings.** `DijTensor` covers working dimensions without the
  batch axis and the batch index. `ImagePlus2TensorPt` and
  `ImagePlus2Tensor` cover dimension-order maps, missing-axis completion,
  tensor shapes, the DJL PyTorch version test, and the shape checks made
  before an output tensor becomes an image. `Table2Tensor` covers table
  forms and shape padding.
- **Lookups and parsers.** This group covers `Index` searches, the
  TensorFlow tag and signature maps with their round trips
  (`TensorFlowModel`), and the CUDA compatibility warnings
  (`DeepLearningModel`). It also covers macro-argument parsing
  (`HeadlessProcessing`, `DijVariable`, `Cellpose`, `Stardist`), the
  extraction of PyTorch error sentences (`RunnerDL`), the symbol covering of
  the information page (`InformationStamp`), file-name sanitising
  (`InstallFromUrl`) and hex encoding (`FileTools`).
- **Model configuration.** `YamlParameters` is the `Parameters` constructor
  over the mapping read from rdf.yaml, with every Java cast and null
  dereference it makes. `XmlParameters` is the older `Parameters`, read from
  the key/value pairs of config.xml. `ModelWeight` and `TorchscriptWeights`
  cover the weight records and the weight dictionary with its fresh-key
  generation.
- **Validation.** `TestStamp` is the tile-size checker. It reports the first
  rule a tile breaks.

Code that loops over arrays or updates fields is kept in that form.
Searches, fills and mirrors are methods with loops over `array`s. Objects
whose fields change (`TfRunner`, `InformationStamp`, `ModelWeight`,
`TorchscriptWeights`, `StardistPlugin`, both `Parameters`) are classes.
Each method is proved against a specification function. The properties of
that function (round trips, partitions, first-failure results, completeness
conditions) are lemmas beside it.

Modelling choices that apply throughout:

- Images are `array2<real>` planes indexed `[x, y]` and `array3<real>`
  stacks indexed `[c, x, y]`.
- Java `float` and `double` are `real`.
- A Java `null` is `None`. A thrown exception is an `Err` that names it.
- `JavaString` restates the `java.lang.String` and `Integer` operations the
  code relies on, with Java's edge cases: `indexOf("")`, the dropping of
  trailing empty pieces by `split`, and `parseInt` failures.
- Integer division and remainder truncate toward zero, as in Java
  (`JavaString.JavaDiv`, `JavaString.JavaRem`).
- A YAML document is a `Yaml.Value`. A `Map` keeps its entries as a
  sequence of pairs in iteration order.

Where the code disagrees with its own documented intent, the main model
follows the code as written, with one exception: `CompactMirroring.MirrorStack`
builds the padded stack with the slices placed as intended, and the placement
as written is modelled slice index by slice index in
`CompactMirroring.SliceSourcesAsWritten`. In the other cases the intended
behaviour is defined beside the code as written and proved, and "## Findings"
lists each such pair.

## Model

| member | source | states |
|---|---|---|
| Index.FirstIndex | src/main/java/deepimagej/tools/Index.java:51-68 | -1 exactly when the element is absent; otherwise a position holding it with no earlier occurrence |
| Index.LastIndex | src/main/java/deepimagej/tools/Index.java:131-167 | -1 exactly when the element is absent; otherwise a position holding it with no later occurrence |
| Index.IndexOf | src/main/java/deepimagej/tools/Index.java:51-108 | the forward search over String[] or int[] returns the first matching position, -1 iff absent, and every earlier entry differs |
| Index.IndexOfFrom | src/main/java/deepimagej/tools/Index.java:111-128 | a negative start throws; otherwise -1 or a match at or after start, with no match between start and it |
| Index.IndexOfFirstChar | src/main/java/deepimagej/tools/Index.java:70-88 | compares first characters only, from start on; a negative start, an empty element or an empty entry met before the match throw; a start past the end gives -1 |
| Index.LastIndexOf | src/main/java/deepimagej/tools/Index.java:131-167 | the backward search returns the last matching position, -1 iff absent, and every later entry differs |
| Index.UniqueFirstIsLast | src/main/java/deepimagej/tools/Index.java:51-167 | an element occurring exactly once is found at the same position by indexOf and lastIndexOf |
| CompactMirroring.MirrorRef | src/main/java/deepimagej/tools/CompactMirroring.java:111-119 | the reflected index always lies in [0, n) and is the identity on [0, n) |
| CompactMirroring.Mirror | src/main/java/deepimagej/tools/CompactMirroring.java:111-119 | the two while loops terminate (for n ≥ 2, or an index already in range) with the closed-form reflection in [0, n) |
| CompactMirroring.MirrorRefShift | src/main/java/deepimagej/tools/CompactMirroring.java:111-117 | the reflection has period 2n-2 and is symmetric about 0 |
| CompactMirroring.MirrorReflects | src/main/java/deepimagej/tools/CompactMirroring.java:112-118 | -k maps to k and n-1+k to n-1-k, so the edge pixel is not repeated |
| CompactMirroring.MirrorPlane | src/main/java/deepimagej/tools/CompactMirroring.java:90-109 | a fresh (nx+left+right) × (ny+top+bottom) plane whose every pixel is the source pixel at the reflected position; interior pixels are copied unchanged |
| CompactMirroring.Writer | src/main/java/deepimagej/tools/CompactMirroring.java:65-86 | the input slice an output slice holds after the first z passes is one of those passes, or -1 when none wrote it |
| CompactMirroring.SliceSourcesAsWritten | src/main/java/deepimagej/tools/CompactMirroring.java:63-86 | the stack has nz+front+back slices, each holding the input slice the written loop leaves there (or none) |
| CompactMirroring.ReflectedSource | src/main/java/deepimagej/tools/CompactMirroring.java:74-83 | the intended source of an output slice: an input slice in range, the identity shifted by front on the interior |
| CompactMirroring.SliceSourcesCounterexample | src/main/java/deepimagej/tools/CompactMirroring.java:74-83 | with 5 slices padded by 3, the written loop leaves output slice 9 blank and puts slice 4 where the reflection of slice 3 belongs |
| CompactMirroring.MirrorStack | src/main/java/deepimagej/tools/CompactMirroring.java:54-88 | as intended (see Findings; the slice placement as written is SliceSourcesAsWritten): nz+front+back output slices, each the plane-mirrored copy of the reflected input slice |
| ArrayOperations.ExtractPatch | src/main/java/deepimagej/tools/ArrayOperations.java:65-91 | a fresh sPatch × sPatch image per channel whose pixel (i, j) is the image pixel (xStart-overlapX+i, yStart-overlapY+j) |
| ArrayOperations.ImagePlusReconstructor | src/main/java/deepimagej/tools/ArrayOperations.java:93-133 | only the rectangle [xStart, xEnd) × [yStart, yEnd) is written, each pixel from the patch shifted by (leftoverX, leftoverY); every other pixel keeps its value |
| ArrayOperations.CeilHalf | src/main/java/deepimagej/tools/ArrayOperations.java:154-158 | the integer ceiling of n/2: twice it is n or n+1 |
| ArrayOperations.NeededPixels | src/main/java/deepimagej/tools/ArrayOperations.java:140-152 | the pixels one axis needs: at least both overlaps; the size plus what is added beyond the overlaps reaches the roi size, exactly when the roi is larger, and nothing beyond the overlaps is added when it is not |
| ArrayOperations.FindAddedPixels | src/main/java/deepimagej/tools/ArrayOperations.java:135-162 | four counts; left+right and top+bottom are the needed pixels (2·overlap, plus roi-size when the roi is larger), the left/top side takes the odd pixel, all non-negative when overlap ≥ 0 |
| LegacyToolsArrayOperations.FirstMultipleAbove | src/deepimagej/tools/ArrayOperations.java:127-133 | for 0 < m ≤ 200, (200/m + 1)·m is a multiple of m in (200, 200+m] |
| LegacyToolsArrayOperations.FindPatchSize | src/deepimagej/tools/ArrayOperations.java:122-135 | the multiple itself when above 200 or fixed; otherwise a positive multiple of it above 200 and at most 200 more; a division by zero exactly for 0 and not fixed |
| LegacyToolsArrayOperations.PatchOverlapVerification | src/deepimagej/tools/ArrayOperations.java:199-217 | [patch, overlap] with patch the findPatchSize result and overlap a quarter of it, rounded down |
| LegacyToolsArrayOperations.FindStartOfRoi | src/deepimagej/tools/ArrayOperations.java:371-379 | two starts, each half the growth of its axis rounded up |
| LegacyToolsArrayOperations.CeilDiv | src/deepimagej/tools/ArrayOperations.java:392-393 | the integer ceiling of a/b: q·b is the least multiple of b not below a |
| LegacyToolsArrayOperations.SpreadExcess | src/deepimagej/tools/ArrayOperations.java:394-403 | the loop leaves the first and last entries 0, gives each inner entry but the last the share, and the inner entries sum to the excess |
| LegacyToolsArrayOperations.FindOverlapRoi | src/deepimagej/tools/ArrayOperations.java:382-405 | nPatch+1 entries (a negative size throws); all zero when the image fits the roi; otherwise the inner entries sum to roi·nPatch - size, each but the last the ceiling share, the outer ones 0 |
| LegacyToolsArrayOperations.ExtractPatchAsWritten | src/deepimagej/tools/ArrayOperations.java:92-119 | a fresh (roi+2·overlap)-square patch whose last row and column keep their zeros, every other pixel the window pixel |
| LegacyToolsArrayOperations.ShortPatchLosesLastColumn | src/deepimagej/tools/ArrayOperations.java:108-111 | when the window's last column holds a non-zero pixel, the patch as written is not the window |
| LegacyArrayOperations.PaddingSize | src/deepimagej/ArrayOperations.java:122-159 | a division by zero exactly when patch = 2·overlap; the pad never exceeds x_size; otherwise the centre remainder completed plus one overlap, or x_size when that exceeds a side |
| LegacyArrayOperations.EdgeReflect | src/deepimagej/ArrayOperations.java:236-284 | every padded position within one image size of the edge reads a source index in range |
| LegacyArrayOperations.MirrorPixel | src/deepimagej/ArrayOperations.java:236-283 | each of the nine branches (corners, bands, centre) reads the source pixel at the edge-repeating reflection of the position |
| LegacyArrayOperations.MirrorXY | src/deepimagej/ArrayOperations.java:231-286 | throws exactly for an image without rows or a padding larger than a side; otherwise a fresh (nx+2p) × (ny+2p) image, every pixel the reflected source pixel |
| LegacyArrayOperations.EdgeRepeated | src/deepimagej/ArrayOperations.java:259-277 | the left band reads column p-1-x, and columns nx+p and nx+p-1 read the same edge column: the reflection repeats the edge |
| DijTensor.RetrieveByName | src/main/java/deepimagej/tools/DijTensor.java:151-160 | null exactly when no tensor has the name; otherwise the first tensor carrying it |
| DijTensor.SplitIndex | src/main/java/deepimagej/tools/DijTensor.java:163-164 | searching the one-letter pieces of form.split("") finds the position of the letter in the form |
| DijTensor.AxisIndex | src/main/java/deepimagej/tools/DijTensor.java:189-191 | -1 exactly when the letter is absent; otherwise its first position in the form |
| DijTensor.GetBatchInd | src/main/java/deepimagej/tools/DijTensor.java:188-192 | -1 exactly when 'N' is absent; otherwise the first position of 'N' |
| DijTensor.DropEntry | src/main/java/deepimagej/tools/DijTensor.java:166-172 | the copy loop yields every value but the one at the batch index, in order; it runs past the array when that index is not a position of the values |
| DijTensor.GetWorkingDimValues | src/main/java/deepimagej/tools/DijTensor.java:162-176 | the values unchanged without 'N'; otherwise the batch entry dropped and the rest in order, or an exception when the batch index lies past the values |
| DijTensor.GetWorkingDims | src/main/java/deepimagej/tools/DijTensor.java:178-186 | the one-letter pieces of the form with its first 'N' removed, in order |
| DijTensor.WorkingDimsMatchValues | src/main/java/deepimagej/tools/DijTensor.java:162-186 | for a form and values of equal length (form not "" or "N"), the working dims and working values have equal lengths, the dims being the letters other than 'N' in order |
| DijTensor.ImageTensors | src/main/java/deepimagej/tools/DijTensor.java:194-201 | exactly the tensors whose type contains "image" |
| DijTensor.GetImageTensors | src/main/java/deepimagej/tools/DijTensor.java:194-201 | the loop keeps exactly the image tensors, in their original order |
| DijVariable.Variable.constructor | src/main/java/deepimagej/tools/DijVariable.java:24-26 | a variable holding the value, with type, flag and argument name null |
| DijVariable.Variable.SetType | src/main/java/deepimagej/tools/DijVariable.java:28-30 | sets the type and nothing else |
| DijVariable.Variable.SetFlag | src/main/java/deepimagej/tools/DijVariable.java:32-34 | sets the flag and nothing else |
| DijVariable.Variable.SetVal | src/main/java/deepimagej/tools/DijVariable.java:36-38 | sets the value and nothing else |
| DijVariable.TypedValues | src/main/java/deepimagej/tools/DijVariable.java:52-64 | exactly the values of the variables of the given type |
| DijVariable.AllValues | src/main/java/deepimagej/tools/DijVariable.java:101-111 | the value of every variable, position by position |
| DijVariable.FirstNamed | src/main/java/deepimagej/tools/DijVariable.java:66-75 | -1 exactly when no value equals the name; otherwise the first variable whose value does |
| DijVariable.RetrieveTypes | src/main/java/deepimagej/tools/DijVariable.java:52-64 | the matching values in order, or [""] when there are none; throws exactly when some variable has no type |
| DijVariable.RetrieveByName | src/main/java/deepimagej/tools/DijVariable.java:66-75 | null exactly when no value equals the name; otherwise the first such variable |
| DijVariable.RetrieveIndByName | src/main/java/deepimagej/tools/DijVariable.java:77-86 | the index of the first match, or size-1 when there is none |
| DijVariable.RetrieveNameInd | src/main/java/deepimagej/tools/DijVariable.java:88-99 | 0 exactly when some value equals the name, -1 exactly when none does |
| DijVariable.RetrieveNames | src/main/java/deepimagej/tools/DijVariable.java:101-111 | all values in order, or [""] for an empty list |
| HeadlessProcessing.FirstMissing | src/main/java/deepimagej/processing/HeadlessProcessing.java:101-106 | -1 exactly when every name is a substring of the macro; otherwise the first name that is not |
| HeadlessProcessing.CheckVariables | src/main/java/deepimagej/processing/HeadlessProcessing.java:101-106 | throws exactly when some name is missing from the macro, naming the first one |
| HeadlessProcessing.StripBrackets | src/main/java/deepimagej/processing/HeadlessProcessing.java:85-88 | the brackets go exactly when the value holds a blank, starts with '[' and ends with ']', and then only they go |
| HeadlessProcessing.ValueBeforeBounds | src/main/java/deepimagej/processing/HeadlessProcessing.java:75-82 | a value is read exactly when the next name starts at or after the end of "name="; otherwise substring throws |
| HeadlessProcessing.LastValue | src/main/java/deepimagej/processing/HeadlessProcessing.java:91 | the text after the last '=', trimmed, never longer than the macro |
| HeadlessProcessing.ValuesBefore | src/main/java/deepimagej/processing/HeadlessProcessing.java:73-89 | one value per name with a successor, each the text up to the next name; throws exactly when some next name starts too early |
| HeadlessProcessing.RetrieveArguments | src/main/java/deepimagej/processing/HeadlessProcessing.java:66-93 | a missing name fails with that name; no names throws; otherwise exactly one value per name, the last the text after the last '=', or a throw exactly when some next name starts too early |
| HeadlessProcessing.ValueRoundTrip | src/main/java/deepimagej/processing/HeadlessProcessing.java:75-88 | a value written as "name=value next…" is read back, brackets aside |
| HeadlessProcessing.LastValueRoundTrip | src/main/java/deepimagej/processing/HeadlessProcessing.java:91 | the last value is read back when it holds no '=' |
| TensorFlowModel.Translate | src/main/java/deepimagej/TensorFlowModel.java:501-556 | a name missing from the list is returned unchanged; a listed one becomes the other list's entry at its first position |
| TensorFlowModel.TranslateRoundTrip | src/main/java/deepimagej/TensorFlowModel.java:501-556 | translating back through a list without repeats undoes a translation, for every name that is not itself a target |
| TensorFlowModel.ReturnTfTag | src/main/java/deepimagej/TensorFlowModel.java:501-510 | a short tag becomes a TensorFlow tag constant; any other string is unchanged |
| TensorFlowModel.ReturnStringTag | src/main/java/deepimagej/TensorFlowModel.java:512-521 | a TensorFlow tag constant becomes a short tag; any other string is unchanged |
| TensorFlowModel.ReturnTfSig | src/main/java/deepimagej/TensorFlowModel.java:547-556 | a short signature name becomes a signature constant; any other string is unchanged |
| TensorFlowModel.ReturnStringSig | src/main/java/deepimagej/TensorFlowModel.java:536-545 | a signature constant becomes a short name; any other string is unchanged |
| TensorFlowModel.TagRoundTrip | src/main/java/deepimagej/TensorFlowModel.java:501-521 | returnStringTag(returnTfTag(t)) = t for every t that is not a TensorFlow constant |
| TensorFlowModel.TfTagRoundTrip | src/main/java/deepimagej/TensorFlowModel.java:501-521 | returnTfTag(returnStringTag(t)) = t for every t that is not a short tag |
| TensorFlowModel.SigRoundTrip | src/main/java/deepimagej/TensorFlowModel.java:536-556 | returnStringSig(returnTfSig(s)) = s for every s that is not a constant, though short names repeat |
| TensorFlowModel.TfSigNotRecovered | src/main/java/deepimagej/TensorFlowModel.java:536-556 | the other trip fails: PREDICT_INPUTS comes back as CLASSIFY_INPUTS |
| TensorFlowModel.TranslatedSigs | src/main/java/deepimagej/TensorFlowModel.java:525-529 | exactly the constants whose short names are in the set |
| TensorFlowModel.ReturnTfSigSet | src/main/java/deepimagej/TensorFlowModel.java:523-534 | the result has the input's size: the translated set when that keeps the size, the input itself otherwise |
| TensorFlowModel.InputsNotTranslated | src/main/java/deepimagej/TensorFlowModel.java:523-534 | {"inputs"} translates to three constants, so returnTfSig returns it untranslated |
| TensorFlowModel.NChannelsOrSlices | src/main/java/deepimagej/TensorFlowModel.java:438-457 | 1 when the form lacks C (Z for any other request); otherwise minimum_size at that axis, or a throw when minimum_size is too short |
| TensorFlowModel.AxisSize | src/main/java/deepimagej/TensorFlowModel.java:459-484 | "-1" without the axis; otherwise the first input's size there in decimal, which parseInt reads back; a throw without a first input or with a short shape |
| TensorFlowModel.HSize | src/main/java/deepimagej/TensorFlowModel.java:459-470 | "-1" when 'Y' is absent; otherwise a throw (None) exactly when there is no first input or its shape does not reach Y, and else the first input's tensor_shape at Y in decimal |
| TensorFlowModel.WSize | src/main/java/deepimagej/TensorFlowModel.java:472-484 | "-1" when 'X' is absent; otherwise a throw (None) exactly when there is no first input or its shape does not reach X, and else the first input's tensor_shape at X in decimal |
| TensorFlowModel.NBatch | src/main/java/deepimagej/TensorFlowModel.java:486-499 | "1" when 'B' is absent or its size is -1; otherwise that size in decimal; a throw when dims is too short |
| DeepLearningModel.Incompatible | src/main/java/deepimagej/DeepLearningModel.java:134-136 | the mismatch warning is non-empty and starts with "Installed" |
| DeepLearningModel.PytorchCudaCompatibility | src/main/java/deepimagej/DeepLearningModel.java:129-154 | "" when CUDA is "nocuda"; a mismatch warning whenever a known PyTorch version meets a CUDA it was not built for |
| DeepLearningModel.PytorchSilent | src/main/java/deepimagej/DeepLearningModel.java:129-154 | as written, no warning exactly when CUDA is "nocuda", or no mismatch and the CUDA string says nocuda in any case or the version is empty |
| DeepLearningModel.PytorchCudaCompatibilityIntended | src/main/java/deepimagej/DeepLearningModel.java:129-154 | no warning exactly when CUDA is off or there is no mismatch and the version is known (or nocuda/empty); agrees with the code as written on every mismatch and unknown version |
| DeepLearningModel.CompatiblePytorchWarned | src/main/java/deepimagej/DeepLearningModel.java:137-152 | PyTorch 1.6.0 with CUDA 10.2 still gets the generic warning as written; the intended chain is silent |
| DeepLearningModel.CompatiblePytorchWarnedExample | src/main/java/deepimagej/DeepLearningModel.java:137-152 | the pair ("1.6.0", "10.2") is such a case |
| DeepLearningModel.TensorflowCudaCompatibility | src/main/java/deepimagej/DeepLearningModel.java:159-181 | a version outside 1.12–1.15 gets the generic warning; 1.15.0 without CUDA 10.0 the mismatch warning, with it ""; no warning exactly for a known version whose CUDA matches |
| Table2Tensor.FindNon1Occurrences | src/main/java/deepimagej/Table2Tensor.java:167-174 | exactly the positions whose size is not 1, in increasing order |
| Table2Tensor.Missing | src/main/java/deepimagej/Table2Tensor.java:243-247 | exactly the letters of the list that the form lacks |
| Table2Tensor.MissingAppend | src/main/java/deepimagej/Table2Tensor.java:244-247 | one more letter of the list adds it to the missing letters exactly when the form lacks it |
| Table2Tensor.LongFormStep | src/main/java/deepimagej/Table2Tensor.java:244-247 | one pass of the loop appends the letter exactly when the form grown so far lacks it |
| Table2Tensor.LongForm | src/main/java/deepimagej/Table2Tensor.java:238-249 | the form followed by the letters of "RCBXY" it lacks, in that order, so every one of them is present |
| Table2Tensor.LongShape5 | src/main/java/deepimagej/Table2Tensor.java:257-265 | the shape padded with 1 to five entries, its prefix kept; a throw exactly when the shape is longer than five |
| Table2Tensor.FindTableForm | src/main/java/deepimagej/Table2Tensor.java:271-287 | rank 1 gives "R", rank 3 "BRC", rank 2 "BR" without a 1 and otherwise "BR" or "RB" by where the first 1 is; any other rank gives "" |
| Table2Tensor.GetTableTensorDims | src/main/java/deepimagej/Table2Tensor.java:404-424 | one entry per form letter: B is 1, R dims[0], C dims[1], every other 0; a throw exactly when dims lacks an entry a letter asks for |
| Table2Tensor.Block | src/main/java/deepimagej/Table2Tensor.java:323-339 | the nested loops from one level inward produce prod(remaining sizes) values |
| Table2Tensor.Rows | src/main/java/deepimagej/Table2Tensor.java:323-339 | the first upTo iterations of a loop level produce upTo times the inner product values |
| Table2Tensor.RowColumn | src/main/java/deepimagej/Table2Tensor.java:316-317 | the positions of R and C in the long form |
| Table2Tensor.TableToFlatArray | src/main/java/deepimagej/Table2Tensor.java:300-341 | prod(arrayShape) values, read in row-major order over the shape padded to five axes; a throw for more than five axes, or when R or C lands past the five counters and there is something to read |
| Table2Tensor.ReadTable | src/main/java/deepimagej/Table2Tensor.java:323-339 | the five nested loops yield the row-major block of the padded shape |
| Table2Tensor.ReadInner | src/main/java/deepimagej/Table2Tensor.java:327-337 | the three inner loops yield the block with the first two counters fixed |
| Table2Tensor.ProductPadded | src/main/java/deepimagej/Table2Tensor.java:302-308 | padding the shape with 1s keeps the product, so the array is exactly filled |
| Table2Tensor.RowsAt | src/main/java/deepimagej/Table2Tensor.java:323-339 | the entry at t·prod(rest)+p of a loop level is entry p of the block with that level's counter at t |
| Table2Tensor.InnerCell | src/main/java/deepimagej/Table2Tensor.java:327-335 | with the row and column counters fixed, the three inner unit loops read exactly that cell |
| Table2Tensor.TableRow | src/main/java/deepimagej/Table2Tensor.java:323-339 | position row·nCols+col of the flat table is position col of that row |
| Table2Tensor.RowCell | src/main/java/deepimagej/Table2Tensor.java:325-335 | position col of row `row` is the cell at (col, row) |
| Table2Tensor.RowMajorTable | src/main/java/deepimagej/Table2Tensor.java:300-341 | for a table of form "RC…", entry row·nCols+col of the flat array is the table cell (col, row) |
| ImagePlus2TensorPt.LongShape6 | src/main/java/deepimagej/ImagePlus2TensorPt.java:424-432 | six entries, the shape as prefix and 1 after it; None exactly when the shape is longer than six |
| ImagePlus2TensorPt.AxisValue | src/main/java/deepimagej/ImagePlus2TensorPt.java:445-451 | after n axes, a letter's size is the size of its last occurrence among them, or 1 when absent |
| ImagePlus2TensorPt.ImageShape | src/main/java/deepimagej/ImagePlus2TensorPt.java:436-453 | six entries, slot 4 (time) always 1 |
| ImagePlus2TensorPt.DimListSlot | src/main/java/deepimagej/ImagePlus2TensorPt.java:440-449 | looking the letter up in {X,Y,C,Z,B} and mapping through {0,1,2,3,5} gives its Slot, -1 exactly when absent |
| ImagePlus2TensorPt.ImageShapeStep | src/main/java/deepimagej/ImagePlus2TensorPt.java:445-451 | one more axis overwrites only its letter's slot, and nothing for other letters |
| ImagePlus2TensorPt.GetShape | src/main/java/deepimagej/ImagePlus2TensorPt.java:434-454 | the shape moved to the X,Y,C,Z,B slots; None exactly when the form is shorter than the shape |
| ImagePlus2TensorPt.GetShapeSlots | src/main/java/deepimagej/ImagePlus2TensorPt.java:434-454 | a letter named once puts its size in slot 0,1,2,3 or 5 for X,Y,C,Z,B |
| ImagePlus2TensorPt.DimOrder | src/main/java/deepimagej/ImagePlus2TensorPt.java:459-472 | one entry per ImageJ axis name |
| ImagePlus2TensorPt.CreateDimOrder | src/main/java/deepimagej/ImagePlus2TensorPt.java:459-472 | entry i is -1 exactly when name i does not occur in the required order, otherwise its first position there |
| ImagePlus2TensorPt.DimOrderIsPermutation | src/main/java/deepimagej/ImagePlus2TensorPt.java:459-472 | when the required order rearranges distinct one-letter names, the result is n distinct positions in [0, n) sending each letter to its place |
| ImagePlus2TensorPt.Target | src/main/java/deepimagej/ImagePlus2TensorPt.java:484-495 | a present letter goes to its position in the tensor form, an absent one past the form's end |
| ImagePlus2TensorPt.MissingBeforeGrows | src/main/java/deepimagej/ImagePlus2TensorPt.java:491-494 | each absent letter moves the next free end slot on by one |
| ImagePlus2TensorPt.TargetsCollideOnlyForEqualLetters | src/main/java/deepimagej/ImagePlus2TensorPt.java:483-496 | two letters share a slot only when they are the same letter |
| ImagePlus2TensorPt.TargetStep | src/main/java/deepimagej/ImagePlus2TensorPt.java:484-495 | one iteration: the slot is the found index or `extra`, and `extra` grows exactly when the letter is absent |
| ImagePlus2TensorPt.PlaceNext | src/main/java/deepimagej/ImagePlus2TensorPt.java:487-493 | writing a letter to its slot keeps every earlier letter in place |
| ImagePlus2TensorPt.CellsPlaced | src/main/java/deepimagej/ImagePlus2TensorPt.java:478-496 | the cells written so far hold each letter at its slot and null elsewhere |
| ImagePlus2TensorPt.CellsFinal | src/main/java/deepimagej/ImagePlus2TensorPt.java:478-497 | at the end every letter sits at its slot and every untargeted slot is null |
| ImagePlus2TensorPt.PlaceLetter | src/main/java/deepimagej/ImagePlus2TensorPt.java:484-495 | one iteration writes letter i to its slot, or reports the slot past the array's end |
| ImagePlus2TensorPt.FindMissingDimensions | src/main/java/deepimagej/ImagePlus2TensorPt.java:475-498 | each letter at its tensor-form index or appended after the form in order, other cells null; None exactly when some slot lies past the end |
| ImagePlus2Tensor.MajorMinor | src/main/java/deepimagej/ImagePlus2Tensor.java:79-82 | a version is read only when it holds a dot |
| ImagePlus2Tensor.OlderThanPytorch170 | src/main/java/deepimagej/ImagePlus2Tensor.java:76-93 | when the version reads as major.minor: older exactly when not (major >= 1 and minor >= 7) and not major > 1; otherwise older exactly when it mentions "1.4.", "1.5." or "1.6." |
| ImagePlus2Tensor.MajorMinorOfPrinted | src/main/java/deepimagej/ImagePlus2Tensor.java:79-82 | a version printed as major.minor.rest is read as (major, minor) |
| ImagePlus2Tensor.MajorMinorOfParts | src/main/java/deepimagej/ImagePlus2Tensor.java:79-82 | ma.mi.rest is read as the numbers ma and mi parse to |
| ImagePlus2Tensor.OlderIffBefore170 | src/main/java/deepimagej/ImagePlus2Tensor.java:76-93 | for major.minor.rest, older exactly when major is 0, or 1 with minor below 7 |
| ImagePlus2Tensor.Older16 | src/main/java/deepimagej/ImagePlus2Tensor.java:76-93 | 1.6.x is older |
| ImagePlus2Tensor.NotOlder17 | src/main/java/deepimagej/ImagePlus2Tensor.java:76-93 | 1.7.x is not |
| ImagePlus2Tensor.NoDotIsNotOlder | src/main/java/deepimagej/ImagePlus2Tensor.java:87-91 | a version without a dot fails to parse and is not older |
| ImagePlus2Tensor.GetTensorShape | src/main/java/deepimagej/ImagePlus2Tensor.java:514-553 | equals the tensor shape described by TensorShapeSlots and TensorShapeZeros |
| ImagePlus2Tensor.FilledSlots | src/main/java/deepimagej/ImagePlus2Tensor.java:531-551 | the five writes give the whole tensor shape |
| ImagePlus2Tensor.LetterSlot | src/main/java/deepimagej/ImagePlus2Tensor.java:532-551 | at a letter's first position sits its image size (1 for B, 0 for others) |
| ImagePlus2Tensor.TensorShapeSlots | src/main/java/deepimagej/ImagePlus2Tensor.java:514-553 | B gets 1 and X, Y, C, Z the image width, height, channels and slices at their first positions |
| ImagePlus2Tensor.TensorShapeZeros | src/main/java/deepimagej/ImagePlus2Tensor.java:531 | every other position, repeats and foreign letters, stays 0 |
| ImagePlus2Tensor.TensorShapeReadBack | src/main/java/deepimagej/ImagePlus2Tensor.java:514-553 | getShape of the PyTorch converter reads the image sizes back from the tensor shape, 1 for absent axes |
| ImagePlus2Tensor.OutputForm | src/main/java/deepimagej/ImagePlus2Tensor.java:326-331 | the form unchanged unless the version is older and has B; then the first B is dropped |
| ImagePlus2Tensor.OutputShapeChecks | src/main/java/deepimagej/ImagePlus2Tensor.java:322-340 | passing means the shape has the new form's length, at most six, and the shape at the OLD batch index is at most 1 |
| ImagePlus2Tensor.OutputShapeChecksIntended | src/main/java/deepimagej/ImagePlus2Tensor.java:322-340 | passes exactly when the length matches, is at most six, and the batch size at the compared form's B is at most 1 |
| ImagePlus2Tensor.ChecksAgreeWithBatch | src/main/java/deepimagej/ImagePlus2Tensor.java:322-340 | where the batch letter is kept, as-written and intended agree |
| ImagePlus2Tensor.ChannelsReadAsBatch | src/main/java/deepimagej/ImagePlus2Tensor.java:322-340 | a 3x256x256 "BCYX" output under 1.6.0 is refused as written and accepted as "CYX" as intended |
| ImagePlus2Tensor.BatchDroppedExample | src/main/java/deepimagej/ImagePlus2Tensor.java:322-340 | the same example with `older` given |
| RunnerTf.CeilDiv | src/main/java/deepimagej/RunnerTf.java:268-271 | (n + roi - 1) / roi is the ceiling of n / roi: roi·(q-1) < n <= roi·q |
| RunnerTf.TileCount | src/main/java/deepimagej/RunnerTf.java:268-271 | for a positive roi the fewest tiles of size roi covering n pixels, at least one for a non-empty axis and exactly one when the roi holds the axis; a zero roi gives Integer.MAX_VALUE (0 for 0/0), a negative one no tiles |
| RunnerTf.PlanAxis | src/main/java/deepimagej/RunnerTf.java:264-312 | roi = patch - 2·padding, tile count ceil(n/roi) or 1 without patching; a roi larger than the image shrinks to it and padding and overlap both become (patch - n)/2 |
| RunnerTf.PlanCovers | src/main/java/deepimagej/RunnerTf.java:264-312 | with patching, a positive roi and a non-empty axis the plan covers the axis |
| RunnerTf.AxisSpan | src/main/java/deepimagej/RunnerTf.java:340-374 | tile k starts at roi·k in the image; its mirror start lies `pad` before its image end minus roi, and the leftover shifts it back to the image start |
| RunnerTf.TilesPartition | src/main/java/deepimagej/RunnerTf.java:340-374 | the tiles start at 0, each starts where the previous ends, the last ends at the border, none is empty or longer than the roi |
| RunnerTf.PixelInOneTile | src/main/java/deepimagej/RunnerTf.java:340-374 | every pixel lies in tile x / roi and in no other |
| RunnerTf.ZRun | src/main/java/deepimagej/RunnerTf.java:319 | one patch per slice tile |
| RunnerTf.ZRunAt | src/main/java/deepimagej/RunnerTf.java:319-388 | entry k of a column is patch (i, j, k) |
| RunnerTf.YRunLength | src/main/java/deepimagej/RunnerTf.java:318-319 | a row holds npy·npz patches |
| RunnerTf.YRunAt | src/main/java/deepimagej/RunnerTf.java:318-388 | entry j·npz + k of row i is patch (i, j, k) |
| RunnerTf.TilesLength | src/main/java/deepimagej/RunnerTf.java:317-319 | the loops visit npx·npy·npz patches |
| RunnerTf.TilesRowAt | src/main/java/deepimagej/RunnerTf.java:317-319 | entry r·(npy·npz) + p of the tiles is entry p of row r |
| RunnerTf.TilesAt | src/main/java/deepimagej/RunnerTf.java:317-388 | patch (i, j, k) is the ((i·npy + j)·npz + k)-th one extracted |
| RunnerTf.Tiles | src/main/java/deepimagej/RunnerTf.java:317-388 | the patches in the order of the three tile loops, x outermost and z innermost; TilesLength and TilesAt give its length and each entry |
| RunnerTf.TfRunner.constructor | src/main/java/deepimagej/RunnerTf.java:78-79 | both patch counters start at 0 |
| RunnerTf.TfRunner.Tile | src/main/java/deepimagej/RunnerTf.java:264-388 | the patches are the tiles of the three axis plans in loop order; totalPatch is npx·npy·npz·npc wrapped to 32 bits; currentPatch ends at the number of patches |
| RunnerTf.TfRunner.VisitTiles | src/main/java/deepimagej/RunnerTf.java:317-388 | the outer loop extracts all tiles in order and counts each |
| RunnerTf.TfRunner.VisitRow | src/main/java/deepimagej/RunnerTf.java:318-388 | the middle loop extracts row i and counts each patch |
| RunnerTf.TfRunner.VisitColumn | src/main/java/deepimagej/RunnerTf.java:319-388 | the inner loop extracts column (i, j) and counts each patch |
| RunnerTf.OpName | src/main/java/deepimagej/RunnerTf.java:706-712 | a name ending in ":0" loses exactly that suffix; any other name is unchanged |
| RunnerTf.OpNameOfOutput | src/main/java/deepimagej/RunnerTf.java:706-712 | stripping undoes appending ":0" |
| RunnerTf.OffsetEntryCases | src/main/java/deepimagej/RunnerTf.java:748-754 | an absent axis or missing offsets give 0; the entry is the offset at the axis's position; only an offset list too short for the form throws |
| RunnerTf.OffsetRow | src/main/java/deepimagej/RunnerTf.java:748-755 | a row exists exactly when none of its four entries throws, and holds those entries |
| RunnerTf.ImageRows | src/main/java/deepimagej/RunnerTf.java:744-757 | at most one four-entry row per output |
| RunnerTf.NoImageNoRows | src/main/java/deepimagej/RunnerTf.java:745-746 | without image outputs there are no rows |
| RunnerTf.ImageRowsAppend | src/main/java/deepimagej/RunnerTf.java:744-757 | an image output adds exactly its own row at the end |
| RunnerTf.FindOutputOffset | src/main/java/deepimagej/RunnerTf.java:737-759 | an outputs×4 matrix whose first rows are the image outputs' offset rows in order and whose other rows are 0; an error exactly when an offset lookup throws |
| RunnerTf.PrefixFails | src/main/java/deepimagej/RunnerTf.java:744-757 | once a prefix throws, the whole list throws |
| RunnerTf.FillRow | src/main/java/deepimagej/RunnerTf.java:747-755 | fills one row with the tensor's offset row and leaves every other row unchanged |
| RunnerTf.ExactChannels | src/main/java/deepimagej/RunnerTf.java:248-257 | accepted exactly when the shape's C entry equals the channel count or is -1; throws exactly when the form has no C or the shape is too short |
| RunnerDL.Cut | src/main/java/deepimagej/RunnerDL.java:716-717 | the text taken from the message at `from`: up to and including the last "instead", or six characters when there is none |
| RunnerDL.DimensionsMismatch | src/main/java/deepimagej/RunnerDL.java:707-720 | non-empty exactly when the two position conditions hold (also when "RuntimeError: Expected " is absent); the result is a piece of the message starting after "RuntimeError: " |
| RunnerDL.DimensionsMismatchIntended | src/main/java/deepimagej/RunnerDL.java:707-720 | non-empty exactly when the full "RuntimeError: Expected N-dimensional input for M-dimensional weight [" pattern is present; then it agrees with the code as written |
| RunnerDL.IntendedStartsWithExpected | src/main/java/deepimagej/RunnerDL.java:716-717 | a matched result that ends with "instead" starts with "Expected " |
| RunnerDL.KeptWord | src/main/java/deepimagej/RunnerDL.java:717 | cutting after an "instead" keeps the leading "Expected " |
| RunnerDL.GuardWithoutPrefix | src/main/java/deepimagej/RunnerDL.java:713-715 | a message without "RuntimeError: Expected " whose first "-dimensional input for " starts at 23 passes the guard as written and not the intended one |
| RunnerDL.GuardWithoutPrefixExample | src/main/java/deepimagej/RunnerDL.java:713-715 | "RuntimeError: Got 12345-dimensional input for 4-dimensional weight [64] instead" is such a message |
| RunnerDL.MultipleChannels | src/main/java/deepimagej/RunnerDL.java:232-243 | accepted exactly when the minimum at C is nonzero and divides the channel count (-1 divides all); a zero minimum throws ArithmeticException, a missing C or short list throws out of bounds |
| RunnerDL.ExactPassesMultiple | src/main/java/deepimagej/RunnerDL.java:232-243 | an image the exact TensorFlow check accepts passes the PyTorch check, unless the entry is 0 |
| RunnerDL.MultipleIsLooser | src/main/java/deepimagej/RunnerDL.java:237 | six channels pass a minimum of three here but not the exact check |
| TestStamp.FloorDiv | src/main/java/deepimagej/stamp/TestStamp.java:547 | Math.floor of a/b: q·b <= a < q·b + b for a positive divisor, mirrored for a negative one |
| TestStamp.SuggestionBelow | src/main/java/deepimagej/stamp/TestStamp.java:546-557 | for a positive step the suggestion is on the grid min + N·step, at most the tile, less than one step below it, and strictly below an off-grid tile |
| TestStamp.Suggestion | src/main/java/deepimagej/stamp/TestStamp.java:546-557 | the tile the off-grid dialog suggests, floor((tile - min) / step)·step + min with Math.floor division; SuggestionBelow proves it is the largest grid value not above the tile |
| TestStamp.Round | src/main/java/deepimagej/stamp/TestStamp.java:586 | Math.round lies within one half of its argument |
| TestStamp.OutputSize | src/main/java/deepimagej/stamp/TestStamp.java:585-586 | (int) Math.round(tile·scale) - 2·offset whenever the rounded value fits in an int |
| TestStamp.FirstFailureIs | src/main/java/deepimagej/stamp/TestStamp.java:537-617 | a loop that stops at the first rejection passes exactly when every entry passes, and otherwise reports an entry all earlier ones let through |
| TestStamp.FirstFailureStep | src/main/java/deepimagej/stamp/TestStamp.java:537-617 | a passing entry leaves the verdict to the rest; a failing one is the verdict |
| TestStamp.InputDimFits | src/main/java/deepimagej/stamp/TestStamp.java:537-564 | input dimension i passes exactly when its step and minimum exist, step 0 forces tile = minimum, with patching a nonzero step needs (tile - min) divisible by the step, and with patching the tile is positive |
| TestStamp.InputDim | src/main/java/deepimagej/stamp/TestStamp.java:537-564 | the verdict for input dimension i: the first rule of the source it breaks, with the value the dialog reports; InputDimFits gives the exact pass condition |
| TestStamp.InputVerdicts | src/main/java/deepimagej/stamp/TestStamp.java:537 | one verdict per tile dimension |
| TestStamp.OutputDimFits | src/main/java/deepimagej/stamp/TestStamp.java:576-617 | an output axis the input lacks passes; otherwise it passes exactly when its entries exist, a computed size matches the declared shape (or -1) and is positive, and twice the halo fits in the size, which is 0 when not computed |
| TestStamp.OutputDim | src/main/java/deepimagej/stamp/TestStamp.java:576-617 | as written: the verdict for axis i of output k, the halo compared with a size left 0 when it was not computed; OutputDimFits gives the pass condition and HaloAgainstUncomputedSize the discrepancy |
| TestStamp.FirstNamed | src/main/java/deepimagej/stamp/TestStamp.java:533 | None exactly when no input carries the name; otherwise an input with that name |
| TestStamp.RetrievedIsFirstNamed | src/main/java/deepimagej/stamp/TestStamp.java:533 | whatever meets retrieveByName's contract is the first tensor with the name |
| TestStamp.OutputDimVerdicts | src/main/java/deepimagej/stamp/TestStamp.java:576 | one verdict per letter of the output form |
| TestStamp.OutputVerdicts | src/main/java/deepimagej/stamp/TestStamp.java:570 | one verdict per output |
| TestStamp.CheckFits | src/main/java/deepimagej/stamp/TestStamp.java:532-620 | a tile passes exactly when the input tensor exists, every input dimension passes, and, unless the network is pyramidal, every output passes |
| TestStamp.Check | src/main/java/deepimagej/stamp/TestStamp.java:532-620 | the whole check: NullPointer without the input tensor, then the first failing input dimension, then (unless pyramidal) the first failing output; CheckFits gives the pass condition and CheckInputTileSize is the loop proved equal to it |
| TestStamp.OutputVerdictFits | src/main/java/deepimagej/stamp/TestStamp.java:570-618 | an output passes exactly when its type lacks "image" or each of its dimensions passes |
| TestStamp.CheckInputTileSize | src/main/java/deepimagej/stamp/TestStamp.java:532-620 | the verdict of the whole check: NullPointer for a missing input, then the first failing input dimension, then (unless pyramidal) the first failing output dimension |
| TestStamp.CheckInputs | src/main/java/deepimagej/stamp/TestStamp.java:537-565 | the verdict of the first failing input dimension, or Fits |
| TestStamp.InputAdvance | src/main/java/deepimagej/stamp/TestStamp.java:537-565 | input dimension i ends the loop with its verdict or lets the rest decide |
| TestStamp.CheckOutputs | src/main/java/deepimagej/stamp/TestStamp.java:570-619 | the verdict of the first failing image output, or Fits |
| TestStamp.OutputsAdvance | src/main/java/deepimagej/stamp/TestStamp.java:570-619 | output k ends the loop with its verdict or lets the rest decide |
| TestStamp.CheckInputDim | src/main/java/deepimagej/stamp/TestStamp.java:538-564 | the verdict of input dimension i |
| TestStamp.CheckOutput | src/main/java/deepimagej/stamp/TestStamp.java:576-618 | the verdict of the first failing dimension of one output, or Fits |
| TestStamp.OutputAdvance | src/main/java/deepimagej/stamp/TestStamp.java:576-618 | dimension i ends the loop with its verdict or lets the rest decide |
| TestStamp.CheckOutputDim | src/main/java/deepimagej/stamp/TestStamp.java:578-617 | the verdict of dimension i of output k |
| TestStamp.OutputDimIntended | src/main/java/deepimagej/stamp/TestStamp.java:584-612 | an uncomputed size passes; a computed one gives the same verdict as the code as written |
| TestStamp.HaloAgainstUncomputedSize | src/main/java/deepimagej/stamp/TestStamp.java:584-612 | without patching and with a nonzero step, a positive halo is rejected as written and passes as intended |
| InformationStamp.ForbiddenListed | src/main/java/deepimagej/stamp/InformationStamp.java:349-351 | the forbidden-character test agrees with the listed characters |
| InformationStamp.CoverShape | src/main/java/deepimagej/stamp/InformationStamp.java:348-359 | a covered text is unchanged exactly when it holds no listed character; otherwise it is two longer, with '"' at both ends around the text |
| InformationStamp.CoverEmptyIff | src/main/java/deepimagej/stamp/InformationStamp.java:348-359 | only the empty text covers to the empty text |
| InformationStamp.CoverTwice | src/main/java/deepimagej/stamp/InformationStamp.java:348-359 | a quoted text is quoted again: covering is not idempotent |
| InformationStamp.CoverForbiddenSymbols | src/main/java/deepimagej/stamp/InformationStamp.java:348-359 | the loop returns the covered text: quoted once at the first listed character found, else unchanged |
| InformationStamp.RemoveAt | src/main/java/deepimagej/stamp/InformationStamp.java:387 | ArrayList.remove(int): one shorter, entries before i kept, entries after it shifted down |
| InformationStamp.RemoveLastAdded | src/main/java/deepimagej/stamp/InformationStamp.java:387 | removing the entry just appended gives the list back |
| InformationStamp.Parameters.constructor | src/main/java/deepimagej/stamp/InformationStamp.java:314-345 | every field finish writes starts null or empty |
| InformationStamp.OptionalField | src/main/java/deepimagej/stamp/InformationStamp.java:319-340 | trimmed, null exactly when empty, and covered (never empty) where finish covers it |
| InformationStamp.Finished | src/main/java/deepimagej/stamp/InformationStamp.java:314-345 | the name covered and present; documentation, repository, licence and description null exactly when blank; authors null exactly when there are none; references and tags as introduced |
| InformationStamp.StoreField | src/main/java/deepimagej/stamp/InformationStamp.java:319-340 | stores one optional field as finish does |
| InformationStamp.InformationStamp.constructor | src/main/java/deepimagej/stamp/InformationStamp.java:114-116 | empty fields and the single tag "deepimagej" |
| InformationStamp.InformationStamp.Init | src/main/java/deepimagej/stamp/InformationStamp.java:280-311 | the same model leaves everything unchanged; a new model sets the name to its file name, one blank author line, no references and the single tag "deepimagej" |
| InformationStamp.InformationStamp.AddAuthor | src/main/java/deepimagej/stamp/InformationStamp.java:361-378 | refused with "Introduce a name" exactly when the trimmed text is empty, changing nothing; otherwise the covered trimmed author is appended, shown, and the field cleared |
| InformationStamp.InformationStamp.RemoveAuthor | src/main/java/deepimagej/stamp/InformationStamp.java:380-397 | -1 is refused with "No author selected"; the blank line throws; otherwise exactly that author is removed and nothing else changes |
| InformationStamp.InformationStamp.AddTag | src/main/java/deepimagej/stamp/InformationStamp.java:466-483 | refused exactly when the trimmed tag is empty; otherwise the covered trimmed tag is appended and the field cleared |
| InformationStamp.InformationStamp.RemoveTag | src/main/java/deepimagej/stamp/InformationStamp.java:485-505 | -1 and 0 are refused with their messages and change nothing; any other tag is removed and "deepimagej" stays first |
| InformationStamp.InformationStamp.Finish | src/main/java/deepimagej/stamp/InformationStamp.java:314-345 | refused exactly when the trimmed name is empty, writing nothing; otherwise the parameters receive Finished of the page |
| InformationStamp.BlankAuthorLine | src/main/java/deepimagej/stamp/InformationStamp.java:380-387 | right after a new model's init, removing the selected blank author line throws |
| ModelWeight.FormatOf | src/main/java/deepimagej/tools/weights/ModelWeight.java:84-104 | a key is kept exactly when it is one of the six format identifiers or "pytorch_script", which counts as torchscript; a known identifier is its own format |
| ModelWeight.CandidateInjective | src/main/java/deepimagej/tools/weights/ModelWeight.java:291-300 | different counters give different "Unknown" names |
| ModelWeight.FreeFrom | src/main/java/deepimagej/tools/weights/ModelWeight.java:291-300 | counting up from c, every name skipped is taken, and the one stopped at is free (or past the number of keys) |
| ModelWeight.CandidateCount | src/main/java/deepimagej/tools/weights/ModelWeight.java:291-300 | the first n candidate names are n distinct names |
| ModelWeight.NotSubset | src/main/java/deepimagej/tools/weights/ModelWeight.java:291-300 | a larger set has an element outside a smaller one |
| ModelWeight.FreeIsFree | src/main/java/deepimagej/tools/weights/ModelWeight.java:291-300 | the counting loop stops at a name that is not a key, so it ends |
| ModelWeight.EngineKey | src/main/java/deepimagej/tools/weights/ModelWeight.java:287-303 | the key starts with the format and "_v"; it is format + "_v" + version when a version exists, and otherwise the first "Unknown" + c name that is not yet a key |
| ModelWeight.BuiltWellKeyed | src/main/java/deepimagej/tools/weights/ModelWeight.java:77-107 | every key of the built dictionary starts with the format of its weights and "_v" |
| ModelWeight.Built | src/main/java/deepimagej/tools/weights/ModelWeight.java:77-107 | the dictionary build leaves after the entries in iteration order; BuiltWellKeyed, UnversionedAdds, UnknownSkipped and TorchscriptKey state its keys |
| ModelWeight.UnversionedAdds | src/main/java/deepimagej/tools/weights/ModelWeight.java:287-303 | weights without a version add exactly one fresh key and overwrite nothing |
| ModelWeight.UnknownSkipped | src/main/java/deepimagej/tools/weights/ModelWeight.java:84-104 | an unknown format adds nothing |
| ModelWeight.TorchscriptKey | src/main/java/deepimagej/tools/weights/ModelWeight.java:100-103 | torchscript weights read from YAML always carry a version, so their key is "torchscript_v" + version |
| ModelWeight.EngineOf | src/main/java/deepimagej/tools/weights/ModelWeight.java:209-225 | the first identifier in selection order that the string starts with; None exactly when it starts with none |
| ModelWeight.VersionOf | src/main/java/deepimagej/tools/weights/ModelWeight.java:236-245 | "bioengine" gives ""; otherwise the text after the engine and "_v", and None exactly when the string is too short (substring throws) |
| ModelWeight.EngineOfKey | src/main/java/deepimagej/tools/weights/ModelWeight.java:209-225 | a key built for a format selects that format's engine |
| ModelWeight.SelectBuiltKey | src/main/java/deepimagej/tools/weights/ModelWeight.java:209-245 | selecting a built key gives back its format and its version text |
| ModelWeight.BuiltKeyVersion | src/main/java/deepimagej/tools/weights/ModelWeight.java:236-245 | the version read back from a versioned key is that version |
| ModelWeight.BioEngineFormat | src/main/java/deepimagej/tools/weights/ModelWeight.java:113-126 | the first keras, onnx or torchscript format in the order given; None exactly when there is none |
| ModelWeight.BioEngineKeyNotAKey | src/main/java/deepimagej/tools/weights/ModelWeight.java:113-126 | the BioEngine key stored is a bare identifier, never a key of the dictionary itself |
| ModelWeight.OrderedFormats | src/main/java/deepimagej/tools/weights/ModelWeight.java:114-115 | the formats of the weights under the keys, in iteration order |
| ModelWeight.ModelWeight.constructor | src/main/java/deepimagej/tools/weights/ModelWeight.java:18-51 | no selection, no weights, no BioEngine key |
| ModelWeight.ModelWeight.Build | src/main/java/deepimagej/tools/weights/ModelWeight.java:77-107 | a fresh object whose dictionary is the weights of the known-format entries under their engine keys, nothing selected |
| ModelWeight.ModelWeight.EngineName | src/main/java/deepimagej/tools/weights/ModelWeight.java:287-303 | the engine key for the current dictionary |
| ModelWeight.ModelWeight.GetWeightsByIdentifier | src/main/java/deepimagej/tools/weights/ModelWeight.java:141-150 | the weights under the key exactly when it is one; otherwise the IOException |
| ModelWeight.ModelWeight.SetSelectedWeightsFormat | src/main/java/deepimagej/tools/weights/ModelWeight.java:209-258 | an unknown prefix is rejected with nothing changed; a known one selects its engine, then the version (too short throws) and then the weights, which throw when the key is absent; the dictionary is untouched |
| ModelWeight.ModelWeight.FindBioEngineWeights | src/main/java/deepimagej/tools/weights/ModelWeight.java:113-126 | the key becomes the first keras, onnx or torchscript format in iteration order, and is unchanged when there is none; nothing else changes |
| TorchscriptWeights.VersionText | src/main/java/deepimagej/tools/weights/TorchscriptWeights.java:84-95 | a string is kept as it is, longs and ints as their decimal text, doubles and floats as some text; any other value is ignored |
| TorchscriptWeights.AuthorList | src/main/java/deepimagej/tools/weights/TorchscriptWeights.java:145-154 | a single string becomes a one-author list, a list is kept, anything else is ignored |
| TorchscriptWeights.Assign | src/main/java/deepimagej/tools/weights/TorchscriptWeights.java:29-58 | an unknown key changes nothing; "pytorch_version", "authors" and "source" go through their setters and touch only their own field |
| TorchscriptWeights.LastSetter | src/main/java/deepimagej/tools/weights/TorchscriptWeights.java:29-58 | the last entry the version setter accepts: no later entry sets the version |
| TorchscriptWeights.GivenVersion | src/main/java/deepimagej/tools/weights/TorchscriptWeights.java:29-58 | None exactly when no entry sets the version |
| TorchscriptWeights.FoldVersion | src/main/java/deepimagej/tools/weights/TorchscriptWeights.java:29-58 | after the switch the version is the last one accepted, or the one before the loop |
| TorchscriptWeights.Fold | src/main/java/deepimagej/tools/weights/TorchscriptWeights.java:29-58 | the fields after the switch has run over the entries in order; LastSetter, GivenVersion and FoldVersion state what it leaves |
| TorchscriptWeights.Loaded | src/main/java/deepimagej/tools/weights/TorchscriptWeights.java:26-63 | the fields the constructor leaves, with "1.11.0" when no version was given; LoadedVersion and UnknownKeysIgnored state its properties |
| TorchscriptWeights.LoadedVersion | src/main/java/deepimagej/tools/weights/TorchscriptWeights.java:26-63 | the constructor always leaves a version: the last one given, else "1.11.0" |
| TorchscriptWeights.UnknownKeysIgnored | src/main/java/deepimagej/tools/weights/TorchscriptWeights.java:31-57 | entries with keys outside the switch leave the weights unchanged |
| TorchscriptWeights.StripSlashes | src/main/java/deepimagej/tools/weights/TorchscriptWeights.java:222-226 | java.io.File's normalisation of the end of a Unix path: a prefix of the path not ending in '/', with only '/' after it |
| TorchscriptWeights.LastSlash | src/main/java/deepimagej/tools/weights/TorchscriptWeights.java:222-226 | the position of the last '/' in a path, or -1: a '/' is there and none follows it |
| TorchscriptWeights.LastComponent | src/main/java/deepimagej/tools/weights/TorchscriptWeights.java:222-226 | the part of a normalised path after its last '/': a suffix without '/', preceded by '/' when shorter than the path |
| TorchscriptWeights.FileName | src/main/java/deepimagej/tools/weights/TorchscriptWeights.java:222-226 | new File(path).getName(): the last component of the path after trailing '/' are removed, without '/' |
| TorchscriptWeights.EmptyNameIffSlashes | src/main/java/deepimagej/tools/weights/TorchscriptWeights.java:222-226 | the name is empty exactly when the path holds nothing but '/' |
| TorchscriptWeights.TrailingSlashIgnored | src/main/java/deepimagej/tools/weights/TorchscriptWeights.java:222-226 | a trailing '/' does not change the name: "a/b/" names "b" like "a/b" |
| TorchscriptWeights.JoinedName | src/main/java/deepimagej/tools/weights/TorchscriptWeights.java:222-226 | a file name joined onto any folder with '/' is read back as that name |
| TorchscriptWeights.TorchscriptWeights.constructor | src/main/java/deepimagej/tools/weights/TorchscriptWeights.java:26-63 | format "torchscript", the fields the switch and the default leave, GPU support off |
| TorchscriptWeights.TorchscriptWeights.SetTrainingVersion | src/main/java/deepimagej/tools/weights/TorchscriptWeights.java:84-95 | the version becomes the accepted value's text; other values leave it; nothing else changes |
| TorchscriptWeights.TorchscriptWeights.SetSha256 | src/main/java/deepimagej/tools/weights/TorchscriptWeights.java:109-113 | sets the digest from a string value only |
| TorchscriptWeights.TorchscriptWeights.SetSource | src/main/java/deepimagej/tools/weights/TorchscriptWeights.java:128-132 | sets the source from a string value only |
| TorchscriptWeights.TorchscriptWeights.SetAuthors | src/main/java/deepimagej/tools/weights/TorchscriptWeights.java:145-154 | a string becomes a one-author list, a list is kept, anything else leaves the authors |
| TorchscriptWeights.TorchscriptWeights.SetAttachments | src/main/java/deepimagej/tools/weights/TorchscriptWeights.java:167-170 | sets the attachments from a map value only |
| TorchscriptWeights.TorchscriptWeights.SetParent | src/main/java/deepimagej/tools/weights/TorchscriptWeights.java:184-187 | sets the parent from a string value only |
| TorchscriptWeights.TorchscriptWeights.SetArchitecture | src/main/java/deepimagej/tools/weights/TorchscriptWeights.java:200-203 | sets the architecture from a string value only |
| TorchscriptWeights.TorchscriptWeights.SetArchitectureSha256 | src/main/java/deepimagej/tools/weights/TorchscriptWeights.java:216-219 | sets the architecture digest from a string value only |
| TorchscriptWeights.TorchscriptWeights.SourceFileName | src/main/java/deepimagej/tools/weights/TorchscriptWeights.java:222-227 | null exactly when no source was given; otherwise the last component of the source once trailing '/' are removed, without '/' |
| TorchscriptWeights.TorchscriptWeights.SupportGpu | src/main/java/deepimagej/tools/weights/TorchscriptWeights.java:234-236 | sets the GPU flag and nothing else |
| FileTools.Unsigned | src/main/java/deepimagej/tools/FileTools.java:382 | 0xff & b lies in [0, 256) and is congruent to b |
| FileTools.HexValueOfDigit | src/main/java/deepimagej/tools/FileTools.java:382 | a digit's value reads back |
| FileTools.ToHexString | src/main/java/deepimagej/tools/FileTools.java:382 | Integer.toHexString: lowercase hex digits, one digit exactly below 16, at most two below 256 |
| FileTools.PaddedIsPair | src/main/java/deepimagej/tools/FileTools.java:382-384 | the digits padded with '0' to two characters are the byte's pair |
| FileTools.Hex | src/main/java/deepimagej/tools/FileTools.java:379-387 | two characters per byte |
| FileTools.HexIsText | src/main/java/deepimagej/tools/FileTools.java:379-387 | the hex text holds only lowercase hex digits |
| FileTools.HexAt | src/main/java/deepimagej/tools/FileTools.java:379-387 | byte i sits at characters 2i and 2i+1 |
| FileTools.PairRoundTrip | src/main/java/deepimagej/tools/FileTools.java:382-384 | a byte's two digits read back as the byte |
| FileTools.UnhexAppend | src/main/java/deepimagej/tools/FileTools.java:379-387 | decoding one more pair decodes it last |
| FileTools.DecodeLast | src/main/java/deepimagej/tools/FileTools.java:379-387 | decoding a digest's text decodes its last byte last |
| FileTools.HexRoundTrip | src/main/java/deepimagej/tools/FileTools.java:379-387 | decoding the hex text gives back the digest |
| FileTools.BytesToHex | src/main/java/deepimagej/tools/FileTools.java:379-387 | the loop builds the hex text of the digest |
| Cellpose.ParseArg | src/main/java/Cellpose_DeepImageJ.java:130-148 | an absent argument is an error when required and null otherwise; a value found is never "" or "null" (those become null) |
| Cellpose.PlainValue | src/main/java/Cellpose_DeepImageJ.java:136-143 | without "arg[", the value is the text right after the argument up to the next space, and holds no space |
| Cellpose.BracketValue | src/main/java/Cellpose_DeepImageJ.java:139-141 | with "arg[", the value is the text after the bracket up to the first "] " |
| Cellpose.NoTrailingSpace | src/main/java/Cellpose_DeepImageJ.java:137-143 | a plain argument with no space after it makes substring throw |
| InstallFromUrl.ReplaceChar | src/main/java/Install_From_URL_Or_Path.java:489-490 | String.replace: that character becomes '_' everywhere, all others stay |
| InstallFromUrl.Sanitized | src/main/java/Install_From_URL_Or_Path.java:486-492 | every listed character becomes '_', every other one stays |
| InstallFromUrl.SanitizedStep | src/main/java/Install_From_URL_Or_Path.java:489-490 | one more replacement extends the list of replaced characters |
| InstallFromUrl.RemoveInvalidCharacters | src/main/java/Install_From_URL_Or_Path.java:486-492 | the loop replaces each of \ \| / < > : " ? * by '_' |
| InstallFromUrl.SanitizedValid | src/main/java/Install_From_URL_Or_Path.java:486-492 | the result is as long, holds no invalid character, and keeps every valid one |
| InstallFromUrl.SanitizedIdempotent | src/main/java/Install_From_URL_Or_Path.java:486-492 | sanitising twice is sanitising once |
| InstallFromUrl.FileNameShape | src/main/java/Install_From_URL_Or_Path.java:437-452 | the models folder, the separator, then the sanitised name without ".zip", "_", the date and ".zip" |
| InstallFromUrl.FileName | src/main/java/Install_From_URL_Or_Path.java:437-452 | createFileName with the date given: FileNameShape, FileNameValid and FileNameClean state its form |
| InstallFromUrl.SanitizedClean | src/main/java/Install_From_URL_Or_Path.java:486-492 | text with no invalid character is unchanged |
| InstallFromUrl.FileNameValid | src/main/java/Install_From_URL_Or_Path.java:437-452 | the part after the folder holds no invalid character |
| InstallFromUrl.FileNameClean | src/main/java/Install_From_URL_Or_Path.java:437-452 | a clean name and date are kept as they are |
| Stardist.ParseArg | src/main/java/Stardist_DeepImageJ.java:173-181 | an error exactly when required and the value is missing or empty; an empty value becomes null; a value found is returned |
| Stardist.OrDefault | src/main/java/Stardist_DeepImageJ.java:162-170 | a missing or empty optional value becomes "0.5" |
| Stardist.OutputName | src/main/java/Stardist_DeepImageJ.java:296-304 | ends in ".tif": the title up to its last '.', or the whole title, then "_" and the tensor name |
| Stardist.OutputNameBase | src/main/java/Stardist_DeepImageJ.java:296-304 | the cut is at the last '.' of the title |
| Stardist.StardistPlugin.constructor | src/main/java/Stardist_DeepImageJ.java:158-171 | no argument read yet |
| Stardist.StardistPlugin.ParseCommand | src/main/java/Stardist_DeepImageJ.java:158-171 | a missing or empty model throws and changes nothing; otherwise the model is stored and the three thresholds default to "0.5" |
| XmlParameters.Lookup | src/deepimagej/Parameters.java:128-157 | config.get: the value exactly when the key is present, null otherwise |
| XmlParameters.IntField | src/deepimagej/Parameters.java:142-155 | Integer.parseInt of the value, or of the default when the key is absent; NumberFormatException exactly when that text does not parse |
| XmlParameters.DefaultsParse | src/deepimagej/Parameters.java:142-155 | the defaults "0" and "-1" parse to 0 and -1 |
| XmlParameters.NonEmpty | src/deepimagej/Parameters.java:205-210 | the non-empty pieces, in order |
| XmlParameters.NonEmptyOfFull | src/deepimagej/Parameters.java:205-210 | with no empty piece nothing is skipped |
| XmlParameters.NonEmptySplit | src/deepimagej/Parameters.java:205-210 | skipping empty pieces distributes over a split of the list |
| XmlParameters.ParseAll | src/deepimagej/Parameters.java:207 | every piece parsed, in order; None when one fails |
| XmlParameters.ParseAllFails | src/deepimagej/Parameters.java:207 | a piece that fails fails every longer list |
| XmlParameters.Zeros | src/deepimagej/Parameters.java:203 | a new int array is all zeros |
| XmlParameters.TensorDimsShape | src/deepimagej/Parameters.java:198-212 | one entry fewer than the pieces: the parsed non-empty pieces first, then zeros |
| XmlParameters.TensorDims | src/deepimagej/Parameters.java:198-212 | string2tensorDims as a value: null text throws, otherwise DimsOf the split pieces; TensorDimsShape and DimsRoundTrip state its result |
| XmlParameters.DimsOf | src/deepimagej/Parameters.java:203-211 | the array the loop leaves: non-empty pieces parsed in order, the overrun and the parse failure; FillDims is the loop proved equal to it |
| XmlParameters.NoLeadingComma | src/deepimagej/Parameters.java:203-208 | a list without an empty piece overruns the array (ArrayIndexOutOfBounds) |
| XmlParameters.SplitAtComma | src/deepimagej/Parameters.java:202 | split(",") cuts at the first comma |
| XmlParameters.NoCommaInNumber | src/deepimagej/Parameters.java:202 | a printed int holds no comma |
| XmlParameters.Pieces | src/deepimagej/Parameters.java:202 | the printed numbers |
| XmlParameters.SplitTail | src/deepimagej/Parameters.java:202 | "n1,n2,...," splits into the printed numbers and a trailing empty piece |
| XmlParameters.ParsePieces | src/deepimagej/Parameters.java:207 | printed ints parse back |
| XmlParameters.DropLastEmpty | src/deepimagej/Parameters.java:202 | split drops one trailing empty piece |
| XmlParameters.SplitDims | src/deepimagej/Parameters.java:202 | ",n1,...,nk," splits into "" and the printed numbers; "," gives no pieces |
| XmlParameters.DimsRoundTrip | src/deepimagej/Parameters.java:198-212 | reading ",n1,...,nk," gives back n1..nk; the text "," of no numbers throws NegativeArraySizeException |
| XmlParameters.ReadPieces | src/deepimagej/Parameters.java:198-212 | a text splitting into "" and printed numbers reads back those numbers |
| XmlParameters.LeadingEmptySkipped | src/deepimagej/Parameters.java:206 | the empty piece before a leading comma is skipped |
| XmlParameters.NonEmptyStep | src/deepimagej/Parameters.java:205-210 | one more piece adds it exactly when it is non-empty |
| XmlParameters.ParseAllSnoc | src/deepimagej/Parameters.java:207 | parsing one more piece appends its value or fails |
| XmlParameters.FailsInWhole | src/deepimagej/Parameters.java:205-210 | a piece that fails to parse fails the whole text |
| XmlParameters.OverrunAtLast | src/deepimagej/Parameters.java:203-208 | a full array can only be met at the last piece |
| XmlParameters.String2TensorDims | src/deepimagej/Parameters.java:198-212 | the result is TensorDims of the text, characterised by TensorDimsShape, DimsRoundTrip and NoLeadingComma; null text throws NullPointerException |
| XmlParameters.FilledAll | src/deepimagej/Parameters.java:205-211 | after the last piece the array is the result |
| XmlParameters.FillStep | src/deepimagej/Parameters.java:206-209 | one piece is skipped, parsed and stored, or ends the loop with the exception the whole text throws |
| XmlParameters.FillDims | src/deepimagej/Parameters.java:203-211 | the loop fills the array as DimsOf says |
| XmlParameters.TensorDimsIntended | src/deepimagej/Parameters.java:153-166 | a missing value stays null, so the completeness check can see it; otherwise the same as the code |
| XmlParameters.Column | src/deepimagej/Parameters.java:170-195 | the values of prefix0 .. prefix(n-1) |
| XmlParameters.InOutOf | src/deepimagej/Parameters.java:169-196 | the names and organisations exactly when every input and output has both |
| XmlParameters.ReadColumns | src/deepimagej/Parameters.java:170-182 | one loop of readInOutSet: both columns, or None when an entry is missing |
| XmlParameters.ReadInOutSet | src/deepimagej/Parameters.java:169-196 | the loops produce InOutOf |
| XmlParameters.ReadSettings | src/deepimagej/Parameters.java:130-166 | the reads in source order, with the first exception they throw |
| XmlParameters.Defaults | src/deepimagej/Parameters.java:71-116 | the field initialisers: counts, padding and patch -1, channels "1", fixedPatch false, fixedPadding true, configuration complete |
| XmlParameters.ParseBoolean | src/deepimagej/Parameters.java:154-156 | Boolean.parseBoolean: true for "true" in any case; the reads of FixedPatch and fixedPadding use it |
| XmlParameters.Read | src/deepimagej/Parameters.java:120-167 | the constructor: the defaults for an invalid model or the developer plugin, otherwise ReadConfig; Parameters.Load is proved equal to it |
| XmlParameters.ReadConfig | src/deepimagej/Parameters.java:130-157 | the reads that can throw, in source order, so the first exception is returned; ReadSettings is proved equal to it |
| XmlParameters.Assembled | src/deepimagej/Parameters.java:138-166 | the fields once the numbers are read, with completeness from Complete; CompleteIff states when it is complete |
| XmlParameters.Complete | src/deepimagej/Parameters.java:160-166 | the completeness test: false when a count is 0, a list is null, or a ModelCharacteristics value is missing or at its sentinel |
| XmlParameters.CompleteIff | src/deepimagej/Parameters.java:160-166 | a read config is complete exactly when both counts are present and positive, every name and organisation is there, and padding, patch size, minimum size, tag, signature and channels are present |
| XmlParameters.MissingNumbers | src/deepimagej/Parameters.java:142-155 | absent counts read as 0, absent padding and patch as -1, and any of these makes the config incomplete |
| XmlParameters.InOutAllOrNothing | src/deepimagej/Parameters.java:169-196 | the columns are null exactly when some name or organisation is missing |
| XmlParameters.MissingDimsThrows | src/deepimagej/Parameters.java:153-163 | as written, a config without InputTensorDimensions throws NullPointerException before the completeness check |
| XmlParameters.MissingDimsIncompleteIntended | src/deepimagej/Parameters.java:153-166 | as intended, such a config reads and is marked incomplete |
| XmlParameters.Parameters.Of | src/deepimagej/Parameters.java:120-167 | the fields hold what was read |
| XmlParameters.Parameters.Load | src/deepimagej/Parameters.java:120-167 | an invalid model or the developer plugin keeps the defaults; otherwise the object holds the settings read, or the constructor throws the reading's exception |
| YamlParameters.AsString | src/main/java/deepimagej/Parameters.java:240-262 | a (String) cast: null stays null, a string is its text, any other value throws ClassCastException |
| YamlParameters.AsList | src/main/java/deepimagej/Parameters.java:242-246 | a (List) cast: null stays null, a sequence is its items, any other value throws ClassCastException |
| YamlParameters.AsMap | src/main/java/deepimagej/Parameters.java:289-290 | a (Map) cast later dereferenced: a mapping gives its entries; null throws NullPointerException, any other value ClassCastException |
| YamlParameters.AsBool | src/main/java/deepimagej/Parameters.java:291-292 | a (boolean) unboxing: a boolean gives its value; anything else throws |
| YamlParameters.Keys | src/main/java/deepimagej/Parameters.java:268 | the keys of a mapping in iteration order |
| YamlParameters.ValueText | src/main/java/deepimagej/Parameters.java:240 | "" + obj.get(key): "null" for an absent key, the text of a string |
| YamlParameters.IntsUpTo | src/main/java/deepimagej/Parameters.java:516-523 | the first n elements read as ints exactly when each is an Integer; otherwise the failure of the first element that is not |
| YamlParameters.CastListToIntArray | src/main/java/deepimagej/Parameters.java:516-523 | one int per element, same length and order; a null list throws, a non-Integer element throws ClassCastException |
| YamlParameters.DoubleArray | src/main/java/deepimagej/Parameters.java:525-536 | every element's value when each is a Double, null otherwise |
| YamlParameters.CastListToDoubleArray | src/main/java/deepimagej/Parameters.java:525-536 | the loop gives DoubleArray of the list: any exception becomes null |
| YamlParameters.FloatsUpTo | src/main/java/deepimagej/Parameters.java:538-549 | the first n elements read as floats exactly when each is a Double; a null element throws NullPointerException, which the ClassCastException handler does not catch |
| YamlParameters.CastListToFloatArray | src/main/java/deepimagej/Parameters.java:538-549 | the loop gives FloatArray of the list |
| YamlParameters.FindFormats | src/main/java/deepimagej/Parameters.java:268-275 | tf exactly when "tensorflow_saved_model_bundle" is a weights key, pt exactly when "pytorch_script" is |
| YamlParameters.RebuildTensorShape | src/main/java/deepimagej/Parameters.java:340-346 | entry i is min[i] for a zero step and -1 otherwise; a min shorter than a zero step's index throws |
| YamlParameters.ReadInputShapeFields | src/main/java/deepimagej/Parameters.java:323-348 | the try block for a list shape and the catch block for a mapping, as ReadInputShape says |
| YamlParameters.TensorShapeFromSteps | src/main/java/deepimagej/Parameters.java:323-348 | a shape read has as many tensor sizes as steps: the minimum for a zero step, -1 otherwise |
| YamlParameters.FixedInputShape | src/main/java/deepimagej/Parameters.java:323-329 | a list of ints is a fixed shape: patch, tensor shape and minimum are the list, and every step is 0 |
| YamlParameters.ListShapeNotInts | src/main/java/deepimagej/Parameters.java:323-331 | a list shape with a non-int element is neither a list of ints nor a mapping: ClassCastException |
| YamlParameters.ShortMinimum | src/main/java/deepimagej/Parameters.java:340-342 | in the mapping form, a zero step past the end of min throws out of bounds |
| YamlParameters.Scan | src/main/java/deepimagej/Parameters.java:313-366 | the scanning loops: while entries are complete the list grows by one per entry |
| YamlParameters.ScanRead | src/main/java/deepimagej/Parameters.java:313-366 | the list holds exactly the complete entries read; a stop is at the first incomplete one, an exception the first thrown |
| YamlParameters.ScanNext | src/main/java/deepimagej/Parameters.java:313-366 | one more entry extends, stops or throws |
| YamlParameters.ScanAdvance | src/main/java/deepimagej/Parameters.java:313-366 | a thrown or incomplete entry settles the whole loop |
| YamlParameters.ScanStays | src/main/java/deepimagej/Parameters.java:313-366 | once thrown or stopped, later entries change nothing |
| YamlParameters.InputSteps | src/main/java/deepimagej/Parameters.java:313 | one step per input |
| YamlParameters.InputStepsAt | src/main/java/deepimagej/Parameters.java:313 | step k reads input k with its test information |
| YamlParameters.ReadInputFields | src/main/java/deepimagej/Parameters.java:314-348 | reads one input's name, axes, data type and shape as ReadInput says |
| YamlParameters.InputPass | src/main/java/deepimagej/Parameters.java:314-364 | one pass of the inputs loop as InputStep says |
| YamlParameters.InputPassAt | src/main/java/deepimagej/Parameters.java:314-364 | the k-th pass |
| YamlParameters.ReadInputs | src/main/java/deepimagej/Parameters.java:313-365 | the inputs loop: the complete inputs in order, the first incomplete one, or the first exception |
| YamlParameters.ReadOutputShapeFields | src/main/java/deepimagej/Parameters.java:394-406 | the try block for a list shape and the catch block for a mapping, as ReadOutputShape says |
| YamlParameters.ReadOutputHalo | src/main/java/deepimagej/Parameters.java:385-390 | the halo read for non-pyramidal image outputs, zeros for pyramidal ones, none for lists |
| YamlParameters.ReadOutputFields | src/main/java/deepimagej/Parameters.java:378-407 | reads one output as ReadOutput says |
| YamlParameters.OutputSteps | src/main/java/deepimagej/Parameters.java:377 | one step per output |
| YamlParameters.OutputStepsAt | src/main/java/deepimagej/Parameters.java:377 | step k reads output k |
| YamlParameters.OutputPassAt | src/main/java/deepimagej/Parameters.java:378-416 | the k-th pass |
| YamlParameters.OutputPass | src/main/java/deepimagej/Parameters.java:378-416 | one pass of the outputs loop as OutputStep says |
| YamlParameters.ReadOutputs | src/main/java/deepimagej/Parameters.java:377-417 | the outputs loop: the complete outputs in order, the first incomplete one, or the first exception |
| YamlParameters.ReadSaved | src/main/java/deepimagej/Parameters.java:421-432 | a saved output never stops the loop |
| YamlParameters.SavedSteps | src/main/java/deepimagej/Parameters.java:421 | one step per saved output |
| YamlParameters.ReadSavedOutputs | src/main/java/deepimagej/Parameters.java:419-433 | the saved-output loop: name, size and type of each, and a null list throws |
| YamlParameters.UpTo | src/main/java/deepimagej/Parameters.java:453-455 | the prefix of the spec up to and including the first occurrence of the extension |
| YamlParameters.Apply | src/main/java/deepimagej/Parameters.java:449-463 | an entry's store keeps the array's length |
| YamlParameters.CommandsUpTo | src/main/java/deepimagej/Parameters.java:447-465 | the commands array after n entries has one slot per entry |
| YamlParameters.ReadCommands | src/main/java/deepimagej/Parameters.java:447-465 | the commands loop as Commands says |
| YamlParameters.CommandsAdvance | src/main/java/deepimagej/Parameters.java:449-463 | one more entry: its store is applied, an exception settles the loop, and a store into a nulled array throws |
| YamlParameters.CommandsEnd | src/main/java/deepimagej/Parameters.java:449-463 | an exception is the loop's result |
| YamlParameters.CommandsStay | src/main/java/deepimagej/Parameters.java:449-463 | after an exception, later entries change nothing |
| YamlParameters.CommandsFilled | src/main/java/deepimagej/Parameters.java:449-463 | while the array is not nulled, each slot read holds its entry's command and the rest are null |
| YamlParameters.JarKept | src/main/java/deepimagej/Parameters.java:453-455 | in preprocessing lists a ".jar" spec without kwargs leaves the spec up to ".jar" |
| YamlParameters.JarDropped | src/main/java/deepimagej/Parameters.java:476-479 | in postprocessing lists, as written, the same entry leaves its slot null |
| YamlParameters.StoreAfterDrop | src/main/java/deepimagej/Parameters.java:459-462 | a store after an entry without spec nulled the array throws NullPointerException |
| YamlParameters.NulledStays | src/main/java/deepimagej/Parameters.java:459-462 | once nulled, entries that store nothing keep the array null |
| YamlParameters.PredictionStep | src/main/java/deepimagej/Parameters.java:443-489 | a key containing "preprocess" adds a preprocessing entry, one containing "postprocess" a postprocessing entry |
| YamlParameters.KeysWith | src/main/java/deepimagej/Parameters.java:443-467 | every key so far containing the word |
| YamlParameters.KeysWithStep | src/main/java/deepimagej/Parameters.java:443-467 | one more key adds it exactly when it contains the word |
| YamlParameters.PredictionKeys | src/main/java/deepimagej/Parameters.java:438-490 | the pre and post maps are keyed by exactly the keys containing "preprocess" and "postprocess" |
| YamlParameters.PredictionPass | src/main/java/deepimagej/Parameters.java:443-489 | one key of the prediction loop as PredictionStep says |
| YamlParameters.ReadPrediction | src/main/java/deepimagej/Parameters.java:438-490 | the prediction loop over all keys |
| YamlParameters.PredictionAdvance | src/main/java/deepimagej/Parameters.java:443-489 | one more key; an exception there is the loop's result |
| YamlParameters.PredictionStays | src/main/java/deepimagej/Parameters.java:443-489 | after an exception, later keys change nothing |
| YamlParameters.Header | src/main/java/deepimagej/Parameters.java:239-263 | the header keeps tag and graph and the configuration complete; a null author list becomes ["n/a"] and a null citation one empty citation |
| YamlParameters.Weights | src/main/java/deepimagej/Parameters.java:265-286 | only framework and completeness change; a complete result names "Tensorflow", "Pytorch" or "Tensorflow/Pytorch" |
| YamlParameters.Metadata | src/main/java/deepimagej/Parameters.java:288-298 | only the pyramidal and tiling flags, tag and graph change |
| YamlParameters.Inputs | src/main/java/deepimagej/Parameters.java:300-366 | only the input list, the fixed flag and completeness change |
| YamlParameters.Outputs | src/main/java/deepimagej/Parameters.java:368-417 | only the output list and completeness change |
| YamlParameters.Tests | src/main/java/deepimagej/Parameters.java:419-490 | only saved outputs, memory peak, runtime and prediction change |
| YamlParameters.CompleteInput | src/main/java/deepimagej/Parameters.java:351-355 | a complete input has a data type and the name, axes and shape read |
| YamlParameters.KeptInputs | src/main/java/deepimagej/Parameters.java:313-365 | a loop that keeps every input has one complete input per entry |
| YamlParameters.KeptOutputs | src/main/java/deepimagej/Parameters.java:377-417 | a loop that keeps every output has one per entry, each with a data type and a scale |
| YamlParameters.OutputsComplete | src/main/java/deepimagej/Parameters.java:368-417 | a complete output stage lists every output, each with a data type and a scale |
| YamlParameters.AfterInputsComplete | src/main/java/deepimagej/Parameters.java:368-503 | after the inputs, a configuration read complete is described, and its framework is kept |
| YamlParameters.AfterWeightsComplete | src/main/java/deepimagej/Parameters.java:288-503 | once a framework is known, a configuration read complete is described |
| YamlParameters.CompleteConfig | src/main/java/deepimagej/Parameters.java:229-503 | a configuration read complete names one of the three frameworks and has every text and list field |
| YamlParameters.FrameworkNames | src/main/java/deepimagej/Parameters.java:294 | of the framework names only "Pytorch" lacks "Tensorflow" |
| YamlParameters.MetadataTag | src/main/java/deepimagej/Parameters.java:294-298 | a TensorFlow framework reads tag and signature from model_keys; otherwise they are kept |
| YamlParameters.TensorflowKeys | src/main/java/deepimagej/Parameters.java:294-298 | for TensorFlow frameworks the defaults "serve" and "serving_default" apply to the model_keys values |
| YamlParameters.AfterInputsKeeps | src/main/java/deepimagej/Parameters.java:368-503 | authors, citation and framework are kept; a complete result has tag and graph defaulted to "serve" and "serving_default" |
| YamlParameters.AfterWeightsKeeps | src/main/java/deepimagej/Parameters.java:288-503 | the same from the metadata on |
| YamlParameters.FrameworkFromWeights | src/main/java/deepimagej/Parameters.java:265-286 | the framework follows the weight formats; with neither the constructor stops after the header, incomplete |
| YamlParameters.ReadAuthors | src/main/java/deepimagej/Parameters.java:242-246 | a null author list reads as ["n/a"]; a list that is there is kept |
| YamlParameters.ReadCite | src/main/java/deepimagej/Parameters.java:249-256 | a null citation reads as one empty citation; a list that is there is kept |
| YamlParameters.MissingTensors | src/main/java/deepimagej/Parameters.java:301-306 | without an inputs or outputs list the configuration is incomplete |
| YamlParameters.ModelKeys | src/main/java/deepimagej/Parameters.java:289-295 | config.deepimagej.model_keys exactly when each level is a mapping |
| YamlParameters.TextOr | src/main/java/deepimagej/Parameters.java:500-501 | the string, or the default for null |
| YamlParameters.PytorchTag | src/main/java/deepimagej/Parameters.java:294-298 | a complete Pytorch-only model keeps the empty tag and signature |
| YamlParameters.TensorflowTag | src/main/java/deepimagej/Parameters.java:294-298 | a complete TensorFlow model has the model_keys tag and signature, or "serve" and "serving_default" |
| YamlParameters.WeightsStage | src/main/java/deepimagej/Parameters.java:265-286 | the weights stage as Weights says |
| YamlParameters.InputsStage | src/main/java/deepimagej/Parameters.java:300-366 | the inputs stage as Inputs says |
| YamlParameters.OutputsStage | src/main/java/deepimagej/Parameters.java:368-417 | the outputs stage as Outputs says |
| YamlParameters.TestsStage | src/main/java/deepimagej/Parameters.java:419-490 | the test and prediction stage as Tests says |
| YamlParameters.ReadSettings | src/main/java/deepimagej/Parameters.java:237-503 | the constructor body after reading model.yaml, as ReadModel says |
| YamlParameters.Initial | src/main/java/deepimagej/Parameters.java:110-196 | the field initialisers the developer plugin and a missing model.yaml keep |
| YamlParameters.FrameworkOf | src/main/java/deepimagej/Parameters.java:277-286 | null exactly when neither weight format is present, otherwise "Tensorflow", "Pytorch" or "Tensorflow/Pytorch" |
| YamlParameters.ReadInputShape | src/main/java/deepimagej/Parameters.java:323-347 | the try block (a list of ints) and the catch block (a mapping with min and step); FixedInputShape, ListShapeNotInts and ShortMinimum state its cases |
| YamlParameters.ShapeFromSteps | src/main/java/deepimagej/Parameters.java:340-346 | tensor_shape from min and step; RebuildTensorShape and TensorShapeFromSteps state its entries and its throw |
| YamlParameters.ReadInput | src/main/java/deepimagej/Parameters.java:314-348 | one input up to the completeness check; ReadInputFields is the method proved equal to it |
| YamlParameters.InputStep | src/main/java/deepimagej/Parameters.java:314-365 | one pass of the inputs loop, with the completeness test; CompleteInput and KeptInputs state what a kept input holds |
| YamlParameters.OutputForm | src/main/java/deepimagej/Parameters.java:379-381 | null exactly when the axes are null; otherwise the axes upper-cased letter by letter |
| YamlParameters.OutputHalo | src/main/java/deepimagej/Parameters.java:385-391 | none for a list output, zeros for an image output of a pyramidal model, and the read halo otherwise |
| YamlParameters.ReadOutputShape | src/main/java/deepimagej/Parameters.java:394-406 | the try block (a list of ints) and the catch block (reference input, scale and offset); ReadOutputShapeFields is proved equal to it |
| YamlParameters.FinalForm | src/main/java/deepimagej/Parameters.java:407-407 | the given form, or findTableForm of the recommended patch; NullPointerException exactly when both are null |
| YamlParameters.ReadOutput | src/main/java/deepimagej/Parameters.java:378-407 | one output up to the completeness check; ReadOutputFields is the method proved equal to it |
| YamlParameters.OutputStep | src/main/java/deepimagej/Parameters.java:378-416 | one pass of the outputs loop, with the completeness test; KeptOutputs and OutputsComplete state what a kept output holds |
| YamlParameters.SavedOutputs | src/main/java/deepimagej/Parameters.java:419-432 | the savedOutputs loop; ReadSavedOutputs is proved equal to it |
| YamlParameters.CommandOf | src/main/java/deepimagej/Parameters.java:449-488 | the store one processing entry makes; JarKept and JarDropped state the ".jar" cases of the two loops |
| YamlParameters.Commands | src/main/java/deepimagej/Parameters.java:447-465 | the commands array after all entries; CommandsFilled states each slot and ReadCommands is the loop proved equal to it |
| YamlParameters.IntArray | src/main/java/deepimagej/Parameters.java:516-523 | castListToIntArray over a list that may be null; CastListToIntArray is the loop proved equal to it |
| YamlParameters.FloatArray | src/main/java/deepimagej/Parameters.java:538-549 | castListToFloatArray; FloatsUpTo states when it succeeds and CastListToFloatArray is the loop proved equal to it |
| YamlParameters.AfterWeights | src/main/java/deepimagej/Parameters.java:288-366 | the constructor from config.deepimagej through the inputs; AfterWeightsComplete and AfterWeightsKeeps state its result |
| YamlParameters.AfterInputs | src/main/java/deepimagej/Parameters.java:368-503 | the constructor from the outputs to the end; AfterInputsComplete and AfterInputsKeeps state its result |
| YamlParameters.Finish | src/main/java/deepimagej/Parameters.java:494-502 | the defaults "n/a", "serve" and "serving_default" for what is still null, and the configuration complete; TensorflowTag and PytorchTag state them |
| YamlParameters.ReadModel | src/main/java/deepimagej/Parameters.java:237-503 | the constructor once model.yaml is read: the fields or the exception; CompleteConfig and FrameworkFromWeights state its result |
| YamlParameters.Read | src/main/java/deepimagej/Parameters.java:229-503 | new Parameters(valid, path, isDeveloper): the initialisers for the developer plugin or without model.yaml, otherwise ReadModel; Parameters.Load is proved equal to it |
| YamlParameters.Parameters.Of | src/main/java/deepimagej/Parameters.java:229-503 | the fields hold what was read |
| YamlParameters.Parameters.Load | src/main/java/deepimagej/Parameters.java:229-503 | the developer plugin or a missing model.yaml keeps the defaults; otherwise the object holds what was read, or the constructor throws the reading's exception |
| YamlParameters.IntOf | src/main/java/deepimagej/Parameters.java:519-521 | an (int) cast succeeds exactly on an Integer |
| YamlParameters.CommandsErrKept | src/main/java/deepimagej/Parameters.java:449-463 | an exception stops the commands loop: the next entry changes nothing |
| YamlParameters.PredictionErrKept | src/main/java/deepimagej/Parameters.java:443-489 | an exception stops the prediction loop: the next key changes nothing |

## Left out

- Reading rdf.yaml, config.xml, properties files and archives: each `Parameters` takes the mapping or key/value map the reader returns, and whether model.yaml exists (`hasYaml`) is a parameter.
- java.io.File's isFile and exists, and the current date, are parameters. `InformationStamp.InformationStamp.Init` is given the file name, which `TorchscriptWeights.FileName` shows how to compute. `InstallFromUrl.FileName` is given the date.
- TorchscriptWeights.FileName: models the Unix form of java.io.File only: '/' is the separator, and a Windows '\\' separator or drive prefix is not modelled. Doubled '/' inside the path do not affect the last component and are not modelled separately.
- InformationStamp.InformationStamp.Finish: Java's finish() stores the page's own ArrayLists (introducedAuth, introducedCitation, introducedTag) in params by reference, so a later addAuthor, removeAuthor, addTag or removeTag also changes params.author and params.infoTags until the next init replaces the lists. The model copies the lists' values into params.info, so this sharing is not captured: params shows the lists as they were at finish.
- XmlParameters.Defaults: Java starts inputForm and outputForm as one-slot arrays holding null (src/deepimagej/Parameters.java:100-101) and inputs and outputs as null. The model keeps all four together as one `Option<InOut>`, so the defaults have them all absent. Nothing the model covers reads the forms before the constructor has set them.
- JavaString.ToUpper, JavaString.ToLower and JavaString.ParseInt: only ASCII is covered. Java's toUpperCase/toLowerCase follow the default locale and all of Unicode ("ß" upper-cases to "SS"), and Integer.parseInt also accepts non-ASCII decimal digits. This affects the upper-casing of `axes` in YamlParameters.ReadInput and YamlParameters.OutputForm.
- RunnerTf.TfRunner.Tile: the `added` overlaps are a parameter. The source computes them with a three-array overload findAddedPixels(size, padding, roi) (src/main/java/deepimagej/RunnerTf.java:280), which is not part of this model; `ArrayOperations.FindAddedPixels` models the four-int overload, so the two are not tied together.
- 32-bit int overflow is modelled only for the totalPatch counter of `RunnerTf.TfRunner.Tile`. The other products and sums of the source (roi·nPatch in LegacyToolsArrayOperations.FindOverlapRoi, 2·overlap in ArrayOperations.NeededPixels and LegacyArrayOperations.PaddingSize, the tile arithmetic of RunnerTf.PlanAxis and the sizes in TestStamp) are unbounded integers, which agree with Java as long as no intermediate value leaves the int range.
- ImageJ's `Macro.getValue` is the parameter `found` of `Stardist.ParseArg`; the model starts from the option it returns.
- ImageJ image objects: a plane or stack is a Dafny array. Two behaviours of ImageJ are built in: setPositionWithoutUpdate clamps a channel or slice past the last one, and a pixel write outside the plane does nothing.
- Floating point: `float` and `double` are `real`, with no rounding, NaN or infinity. The float paths of findTotalPadding and findOutputSize are not part of this model.
- The `valid` argument of the rdf.yaml `Parameters` constructor is accepted and unused, as in the source.
- castListToStringArray (src/main/java/deepimagej/Parameters.java:507-514) has no caller in the source and is not part of this model.
- HashMap iteration order is whatever order the entry sequence gives; the model proves nothing that depends on a particular order.
- Code duplicated in the source is modelled once:
  - the indexOf methods of tools/ArrayOperations are `Index`;
  - nBatch, nChannelsOrSlices, hSize and wSize of DeepLearningModel are `TensorFlowModel`'s;
  - findAddedPixels and findPatchSize of the older source tree are `ArrayOperations.FindAddedPixels` and `LegacyToolsArrayOperations.FindPatchSize`;
  - RunnerDL's tiling and findOutputOffset are `RunnerTf`'s;
  - ImagePlus2Tensor.longShape6 is `ImagePlus2TensorPt.LongShape6`.
- The pixel loops of ImagePlus2TensorPt and ImagePlus2Tensor (copyData, imPlus2tensor, NDArray2ImagePlus's copy) call into DJL and TensorFlow; only their shape and axis bookkeeping is modelled.
- Running a model (the TensorFlow session, the PyTorch predictor), GUI dialogs, logging and thread handling are left out; a dialog that reports an error becomes the error value it reports.
- InformationStamp's citation list is handled like its author list and is not modelled separately.
- DeepLearningModel.PytorchCudaCompatibility: its contract and the lemma PytorchSilent say when a warning is given and that a mismatch gets an "Installed CUDA version ..." warning; the exact wording of each message is fixed by the definition but not restated in a contract.

## Findings

| source | as written | input that shows it | evidently intended | confidence | as-written member | corrected member |
|---|---|---|---|---|---|---|
| src/deepimagej/tools/ArrayOperations.java:108-111 | the copy loops stop one short of the patch size, so the last row and column of every patch stay 0 | a patch of size 2 at (0, 0) of an image whose pixel (1, 0) is 5.0 | the patch is the whole window of the image | not executed | LegacyToolsArrayOperations.ShortPatchLosesLastColumn | ArrayOperations.ExtractPatch |
| src/main/java/deepimagej/RunnerDL.java:713-717 | the guard adds 24 to the index of "RuntimeError: Expected " before testing it, so a missing prefix (index -1) passes as 23 | "RuntimeError: Got 12345-dimensional input for 4-dimensional weight [64] instead" | no sentence is extracted without the prefix | not executed | RunnerDL.GuardWithoutPrefixExample | RunnerDL.DimensionsMismatchIntended |
| src/main/java/deepimagej/tools/CompactMirroring.java:74-83 | the front slices are copied in order rather than reflected, and the back slices are written at 2nz - z, which overwrites interior slices | 5 slices padded by 3 on each side | each padding slice is the reflection of an interior slice | not executed | CompactMirroring.SliceSourcesCounterexample | CompactMirroring.MirrorStack |
| src/main/java/deepimagej/Parameters.java:476-479 | the postprocessing ".jar" branch only truncates when the extension is absent, so the command stays null | a postprocessing entry whose spec is "post.jar" and which has no kwargs | the spec up to ".jar", as for preprocessing (lines 453-455) | not executed | YamlParameters.JarDropped | YamlParameters.JarKept |
| src/main/java/deepimagej/DeepLearningModel.java:131-152 | the last branch warns for any known version, with no check that the pair is a mismatch | PyTorch "1.6.0" with CUDA "10.2" | no warning for a supported pair, as the TensorFlow chain does | not executed | DeepLearningModel.CompatiblePytorchWarned | DeepLearningModel.PytorchCudaCompatibilityIntended |
| src/main/java/deepimagej/ImagePlus2Tensor.java:322-340 | for PyTorch before 1.7 the B letter is removed from the form, but the batch size is still read at the old batch index | form "BCYX", shape [3, 256, 256], PyTorch "1.6.0" | the batch test reads B's position in the form the shape is compared with; once B is dropped there is nothing to test | not executed | ImagePlus2Tensor.ChannelsReadAsBatch | ImagePlus2Tensor.OutputShapeChecksIntended |
| src/main/java/deepimagej/stamp/TestStamp.java:584-612 | without patching, when the input step is non-zero the output size is never computed, and the halo is compared with 0 | forms "XY", input step 1 on X, output halo 1 | halo checked against the computed output size | not executed | TestStamp.HaloAgainstUncomputedSize | TestStamp.OutputDimIntended |
| src/deepimagej/Parameters.java:143-163 | string2tensorDims runs on the missing InputTensorDimensions value and throws NullPointerException before the completeness check that tests for it | a config.xml without InputTensorDimensions | the configuration reads as incomplete | not executed | XmlParameters.MissingDimsThrows | XmlParameters.MissingDimsIncompleteIntended |
