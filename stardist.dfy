// The StarDist plugin's macro arguments and the title of its output image.
module Stardist {
  import opened Wrappers
  import JavaString

  /** The threshold and percentiles used when the macro gives none. */
  const DefaultValue := "0.5"

  /** parseArg: an empty value counts as absent; an absent required argument
      throws (IllegalArgumentException, the Err side). `found` is what
      ImageJ's Macro.getValue returned for the argument. */
  function ParseArg(found: Option<string>, arg: string, required: bool): (r: Result<Option<string>, string>)
    ensures r.Err? <==> required && (found.None? || found.value == "")
    ensures r.Ok? && r.value.Some? ==> found == r.value && r.value.value != ""
    ensures r.Ok? && r.value.None? ==> found.None? || found.value == ""
  {
    var value := if found.Some? && found.value == "" then None else found;
    if value.None? && required then
      Err("DeepImageJ StarDist macro requires to the variable '" + arg + "'. ")
    else Ok(value)
  }

  /** An optional argument falls back to 0.5 when absent or empty. */
  function OrDefault(value: Option<string>): (r: string)
    ensures value.Some? && value.value != "" ==> r == value.value
    ensures value.None? || value.value == "" ==> r == DefaultValue
  {
    if value.None? || value.value == "" then DefaultValue else value.value
  }

  /** getOutputName: the title without its last extension, then "_", the
      tensor name and ".tif". */
  function OutputName(inputTitle: string, tensorName: string): (r: string)
    ensures JavaString.EndsWith(r, ".tif")
    ensures JavaString.LastIndexOf(inputTitle, ".") == -1 ==> r == inputTitle + "_" + tensorName + ".tif"
    ensures JavaString.LastIndexOf(inputTitle, ".") != -1 ==>
      r == inputTitle[..JavaString.LastIndexOf(inputTitle, ".")] + "_" + tensorName + ".tif"
  {
    var dot := JavaString.LastIndexOf(inputTitle, ".");
    var noExtension := if dot != -1 then inputTitle[..dot] else inputTitle;
    var r := noExtension + "_" + tensorName + ".tif";
    assert r[|r| - 4..] == ".tif";
    r
  }

  /** The base name keeps no '.' after the last one is cut: a title with an
      extension loses exactly the text from its last '.'. */
  lemma OutputNameBase(inputTitle: string, tensorName: string)
    requires JavaString.LastIndexOf(inputTitle, ".") != -1
    ensures var dot := JavaString.LastIndexOf(inputTitle, ".");
      && inputTitle[dot] == '.'
      && (forall k :: dot < k < |inputTitle| ==> inputTitle[k] != '.')
      && OutputName(inputTitle, tensorName) == inputTitle[..dot] + "_" + tensorName + ".tif"
  {
    var dot := JavaString.LastIndexOf(inputTitle, ".");
    assert inputTitle[dot..dot + 1] == ".";
    forall k | dot < k < |inputTitle|
      ensures inputTitle[k] != '.'
    {
      assert !JavaString.OccursAt(inputTitle, ".", k);
      assert inputTitle[k..k + 1] == [inputTitle[k]];
    }
  }

  /** The plugin's macro state. */
  class StardistPlugin {
    var macroModel: Option<string>
    var probThresh: Option<string>
    var minPerc: Option<string>
    var maxPerc: Option<string>

    constructor ()
      ensures macroModel.None? && probThresh.None? && minPerc.None? && maxPerc.None?
    {
      macroModel := None;
      probThresh := None;
      minPerc := None;
      maxPerc := None;
    }

    /** parseCommand over the values Macro.getValue finds for "model",
        "prob_thresh", "min_percentile" and "max_percentile". A missing model
        throws before any field is set. */
    method ParseCommand(model: Option<string>, thresh: Option<string>, minP: Option<string>, maxP: Option<string>)
      returns (r: Result<(), string>)
      modifies this
      ensures r.Err? <==> model.None? || model.value == ""
      ensures r.Err? ==> (macroModel == old(macroModel) && probThresh == old(probThresh)
                          && minPerc == old(minPerc) && maxPerc == old(maxPerc))
      ensures r.Ok? ==> (macroModel == model && probThresh == Some(OrDefault(thresh))
                         && minPerc == Some(OrDefault(minP)) && maxPerc == Some(OrDefault(maxP)))
    {
      var m := ParseArg(model, "model", true);
      if m.Err? {
        return Err(m.error);
      }
      macroModel := m.value;
      var t := ParseArg(thresh, "prob_thresh", false);
      probThresh := Some(OrDefault(t.value));
      var lo := ParseArg(minP, "min_percentile", false);
      minPerc := Some(OrDefault(lo.value));
      var hi := ParseArg(maxP, "max_percentile", false);
      maxPerc := Some(OrDefault(hi.value));
      r := Ok(());
    }
  }
}
