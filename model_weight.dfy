// The sets of weights a model ships (the `weights` entry of rdf.yaml), keyed
// by engine and version, and the user's choice among them.
module ModelWeight {
  import opened Wrappers
  import JavaString
  import TorchscriptWeights
  import Yaml

  const Keras := "keras_hdf5"
  const Onnx := "onnx"
  const Torch := "pytorch_state_dict"
  const Tf := "tensorflow_saved_model_bundle"
  const TfJs := "tensorflow_js"
  const Torchscript := "torchscript"
  const Bioengine := "bioengine"

  /** The identifiers setSelectedWeightsFormat tries, in the order it tries them. */
  const SelectionOrder: seq<string> := [Keras, Onnx, Torch, Tf, TfJs, Torchscript, Bioengine]

  /** The formats a weights object can report. */
  const Formats: set<string> := {Keras, Onnx, Torch, Tf, TfJs, Torchscript}

  /** What the dictionary keeps of a weights object: the format it reports
      and its training version (null is None). */
  datatype Weights = Weights(format: string, trainingVersion: Option<string>)

  /** One key of the `weights` mapping, in iteration order, with the training
      version the weights object built from its value reports. */
  datatype Entry = Entry(key: string, trainingVersion: Option<string>)

  /** Why setSelectedWeightsFormat throws. */
  datatype Failure =
    | Unsupported      // IllegalArgumentException: no known engine prefix
    | BadIndex         // StringIndexOutOfBoundsException: no room for "_v"
    | Missing(message: string)  // IOException: no weights under that key

  /** The format a key of the `weights` mapping builds; "pytorch_script" is
      the older name of the TorchScript weights. Unknown keys build nothing. */
  function FormatOf(key: string): (r: Option<string>)
    ensures r.Some? <==> key in Formats || key == "pytorch_script"
    ensures r.Some? ==> r.value in Formats
    ensures key in Formats ==> r == Some(key)
  {
    if key in Formats then Some(key)
    else if key == "pytorch_script" then Some(Torchscript)
    else None
  }

  /** The c-th name tried for weights without a version. */
  function Candidate(name: string, c: nat): string
  {
    name + "Unknown" + JavaString.NatToString(c)
  }

  lemma CandidateInjective(name: string, a: nat, b: nat)
    ensures Candidate(name, a) == Candidate(name, b) ==> a == b
  {
    var p := name + "Unknown";
    if Candidate(name, a) == Candidate(name, b) {
      assert (p + JavaString.NatToString(a))[|p|..] == JavaString.NatToString(a);
      assert (p + JavaString.NatToString(b))[|p|..] == JavaString.NatToString(b);
      JavaString.NatToStringInjective(a, b);
    }
  }

  /** The first counter from c on whose candidate is not yet a key (a
      counter past the number of keys stops the search). */
  function FreeFrom(keys: set<string>, name: string, c: nat): (r: nat)
    ensures c <= r
    ensures forall j :: c <= j < r ==> Candidate(name, j) in keys
    ensures Candidate(name, r) !in keys || r > |keys|
    decreases |keys| + 1 - c
  {
    if c > |keys| || Candidate(name, c) !in keys then c else FreeFrom(keys, name, c + 1)
  }

  /** The first n candidates are n distinct names. */
  lemma {:induction false} CandidateCount(name: string, n: nat)
    ensures |set j | 0 <= j < n :: Candidate(name, j)| == n
  {
    if n > 0 {
      CandidateCount(name, n - 1);
      var s := set j | 0 <= j < n - 1 :: Candidate(name, j);
      assert (set j | 0 <= j < n :: Candidate(name, j)) == s + {Candidate(name, n - 1)};
      forall j | 0 <= j < n - 1
        ensures Candidate(name, j) != Candidate(name, n - 1)
      {
        CandidateInjective(name, j, n - 1);
      }
    }
  }

  /** A set larger than another has an element outside it. */
  lemma NotSubset<T>(a: set<T>, b: set<T>)
    requires |a| > |b|
    ensures exists x :: x in a && x !in b
  {
    assert a == (a * b) + (a - b);
    assert |a * b| <= |b|;
  }

  /** The search always finds a name that is not yet a key: there are more
      candidates than keys. */
  lemma FreeIsFree(keys: set<string>, name: string)
    ensures Candidate(name, FreeFrom(keys, name, 0)) !in keys
  {
    var s := set j | 0 <= j < |keys| + 1 :: Candidate(name, j);
    CandidateCount(name, |keys| + 1);
    NotSubset(s, keys);
    var x :| x in s && x !in keys;
    var j :| 0 <= j < |keys| + 1 && x == Candidate(name, j);
    assert FreeFrom(keys, name, 0) <= j;
  }

  /** The dictionary key for weights of a format: the format, "_v" and the
      version; without a version, "Unknown" and the smallest counter whose
      name is not taken yet. */
  function EngineKey(keys: set<string>, format: string, version: Option<string>): (r: string)
    ensures JavaString.StartsWith(r, format + "_v")
    ensures version.Some? ==> r == format + "_v" + version.value
    ensures version.None? ==> r !in keys
    ensures version.None? ==> exists c: nat :: (r == Candidate(format + "_v", c)
                                                && forall j :: 0 <= j < c ==> Candidate(format + "_v", j) in keys)
  {
    if version.Some? then format + "_v" + version.value
    else
      var c := FreeFrom(keys, format + "_v", 0);
      FreeIsFree(keys, format + "_v");
      assert (format + "_v" + "Unknown" + JavaString.NatToString(c))[..|format + "_v"|] == format + "_v";
      Candidate(format + "_v", c)
  }

  /** The dictionary after the entries have been put in iteration order;
      a key already present is overwritten. */
  function Built(entries: seq<Entry>): map<string, Weights>
    decreases |entries|
  {
    if |entries| == 0 then map[]
    else
      var dic := Built(entries[..|entries| - 1]);
      var e := entries[|entries| - 1];
      match FormatOf(e.key)
      case None => dic
      case Some(format) =>
        dic[EngineKey(dic.Keys, format, e.trainingVersion) := Weights(format, e.trainingVersion)]
  }

  /** Every key names the format of its weights followed by "_v". */
  predicate WellKeyed(dic: map<string, Weights>)
  {
    forall k :: k in dic ==> dic[k].format in Formats && JavaString.StartsWith(k, dic[k].format + "_v")
  }

  lemma {:induction false} BuiltWellKeyed(entries: seq<Entry>)
    ensures WellKeyed(Built(entries))
    decreases |entries|
  {
    if |entries| > 0 {
      BuiltWellKeyed(entries[..|entries| - 1]);
    }
  }

  /** An entry of a known format without a version never replaces weights
      already in the dictionary: it adds one key. */
  lemma UnversionedAdds(entries: seq<Entry>, e: Entry)
    requires FormatOf(e.key).Some? && e.trainingVersion.None?
    ensures Built(entries + [e]).Keys == Built(entries).Keys + {EngineKey(Built(entries).Keys, FormatOf(e.key).value, None)}
    ensures |Built(entries + [e])| == |Built(entries)| + 1
    ensures forall k :: k in Built(entries) ==> Built(entries + [e])[k] == Built(entries)[k]
  {
    assert (entries + [e])[..|entries|] == entries;
  }

  /** Entries of unknown formats are skipped. */
  lemma UnknownSkipped(entries: seq<Entry>, e: Entry)
    requires FormatOf(e.key).None?
    ensures Built(entries + [e]) == Built(entries)
  {
    assert (entries + [e])[..|entries|] == entries;
  }

  /** TorchScript weights always report a version, so their key is the
      format and that version. */
  lemma TorchscriptKey(keys: set<string>, yaml: seq<(string, Yaml.Value)>)
    ensures var v := TorchscriptWeights.Loaded(yaml).trainingVersion;
      v.Some? && EngineKey(keys, Torchscript, v) == Torchscript + "_v" + v.value
  {
    TorchscriptWeights.LoadedVersion(yaml);
  }

  /** The engine setSelectedWeightsFormat picks: the first identifier, in its
      order of tests, that the selection starts with. */
  function EngineOf(s: string): (r: Option<string>)
    ensures r.Some? ==> r.value in SelectionOrder && JavaString.StartsWith(s, r.value)
    ensures r.None? <==> forall i :: 0 <= i < |SelectionOrder| ==> !JavaString.StartsWith(s, SelectionOrder[i])
  {
    if JavaString.StartsWith(s, Keras) then Some(Keras)
    else if JavaString.StartsWith(s, Onnx) then Some(Onnx)
    else if JavaString.StartsWith(s, Torch) then Some(Torch)
    else if JavaString.StartsWith(s, Tf) then Some(Tf)
    else if JavaString.StartsWith(s, TfJs) then Some(TfJs)
    else if JavaString.StartsWith(s, Torchscript) then Some(Torchscript)
    else if JavaString.StartsWith(s, Bioengine) then Some(Bioengine)
    else None
  }

  /** setSelectedVersion: empty for the BioEngine itself, otherwise what
      follows the engine and "_v" (None where substring throws). */
  function VersionOf(s: string, engine: string): (r: Option<string>)
    ensures s == Bioengine ==> r == Some("")
    ensures s != Bioengine ==> (r.Some? <==> |engine| + 2 <= |s|)
    ensures s != Bioengine && r.Some? ==> s == s[..|engine| + 2] + r.value
  {
    if s == Bioengine then Some("") else JavaString.SubstringFrom(s, |engine| + 2)
  }

  /** A key that starts with a format and "_v" selects that format's engine. */
  lemma EngineOfKey(k: string, f: string)
    requires f in Formats && JavaString.StartsWith(k, f + "_v")
    ensures EngineOf(k) == Some(f)
  {
    assert k[..|f|] == (f + "_v")[..|f|] == f;
    assert k[0] == f[0];
    if f == Tf {
      assert k[11] == 's';
    } else if f == TfJs {
      assert k[11] == 'j';
    } else if f == Torchscript {
      assert k[1] == 'o';
    }
  }

  /** Each key of a built dictionary selects its own engine and the version
      that follows the engine's name. */
  lemma SelectBuiltKey(dic: map<string, Weights>, k: string)
    requires WellKeyed(dic) && k in dic
    ensures EngineOf(k) == Some(dic[k].format)
    ensures VersionOf(k, dic[k].format) == Some(k[|dic[k].format| + 2..])
  {
    var f := dic[k].format;
    EngineOfKey(k, f);
    assert k[0] == f[0] != 'b';
  }

  /** The version a selected key gives back is the one its weights were
      built with, when they had one. */
  lemma BuiltKeyVersion(keys: set<string>, format: string, version: string)
    requires format in Formats
    ensures VersionOf(EngineKey(keys, format, Some(version)), format) == Some(version)
  {
    var k := format + "_v" + version;
    assert k[0] == format[0] != 'b';
    assert k[..|format| + 2] == format + "_v";
    assert k[|format| + 2..] == version;
  }

  /** The format findBioEngineWeights stores: the first weights, in
      iteration order, that are Keras, ONNX or TorchScript. */
  function BioEngineFormat(formats: seq<string>): (r: Option<string>)
    ensures r.Some? ==> r.value in {Keras, Onnx, Torchscript}
    ensures r.Some? ==> exists i :: (0 <= i < |formats| && formats[i] == r.value
                                     && forall j :: 0 <= j < i ==> formats[j] !in {Keras, Onnx, Torchscript})
    ensures r.None? <==> forall i :: 0 <= i < |formats| ==> formats[i] !in {Keras, Onnx, Torchscript}
    decreases |formats|
  {
    if |formats| == 0 then None
    else if formats[0] in {Keras, Onnx, Torchscript} then Some(formats[0])
    else
      var r := BioEngineFormat(formats[1..]);
      assert forall i :: 1 <= i < |formats| ==> formats[i] == formats[1..][i - 1];
      assert r.Some? ==> exists i :: (1 <= i < |formats| && formats[i] == r.value
                                      && forall j :: 0 <= j < i ==> formats[j] !in {Keras, Onnx, Torchscript});
      r
  }

  /** The stored BioEngine key is a format name, which is never a key of a
      built dictionary: looking it up always fails. */
  lemma BioEngineKeyNotAKey(dic: map<string, Weights>, f: string)
    requires WellKeyed(dic) && f in {Keras, Onnx, Torchscript}
    ensures f !in dic
  {
    forall g | g in Formats
      ensures !JavaString.StartsWith(f, g + "_v")
    {
      if |g| + 2 <= |f| {
        assert f[0] != g[0];
      }
    }
  }

  /** The formats of the weights under the keys, in the order given. */
  function OrderedFormats(dic: map<string, Weights>, order: seq<string>): (r: seq<string>)
    requires forall i :: 0 <= i < |order| ==> order[i] in dic
    ensures |r| == |order|
    ensures forall i :: 0 <= i < |order| ==> r[i] == dic[order[i]].format
  {
    seq(|order|, i requires 0 <= i < |order| => dic[order[i]].format)
  }

  class ModelWeight {
    var selectedEngine: Option<string>
    var selectedVersion: Option<string>
    var selectedWeights: Option<Weights>
    var weightsDic: map<string, Weights>
    var bioEngineWeightsKey: Option<string>

    constructor ()
      ensures selectedEngine.None? && selectedVersion.None? && selectedWeights.None?
      ensures weightsDic == map[] && bioEngineWeightsKey.None?
    {
      selectedEngine := None;
      selectedVersion := None;
      selectedWeights := None;
      weightsDic := map[];
      bioEngineWeightsKey := None;
    }

    /** build: one weights object per key of a known format, in iteration order. */
    static method Build(entries: seq<Entry>) returns (model: ModelWeight)
      ensures fresh(model)
      ensures model.weightsDic == Built(entries)
      ensures model.selectedEngine.None? && model.selectedVersion.None? && model.selectedWeights.None?
      ensures model.bioEngineWeightsKey.None?
    {
      model := new ModelWeight();
      var i := 0;
      while i < |entries|
        invariant 0 <= i <= |entries|
        invariant model.weightsDic == Built(entries[..i])
        invariant model.selectedEngine.None? && model.selectedVersion.None? && model.selectedWeights.None?
        invariant model.bioEngineWeightsKey.None?
      {
        assert entries[..i + 1][..i] == entries[..i];
        var e := entries[i];
        var format := FormatOf(e.key);
        if format.Some? {
          var key := model.EngineName(format.value, e.trainingVersion);
          model.weightsDic := model.weightsDic[key := Weights(format.value, e.trainingVersion)];
        }
        i := i + 1;
      }
      assert entries[..i] == entries;
    }

    /** The *EngineName helpers: with no version, count up from 0 until the
        name "<format>_vUnknown<c>" is not a key yet. */
    method EngineName(format: string, version: Option<string>) returns (key: string)
      ensures key == EngineKey(weightsDic.Keys, format, version)
    {
      var name := format + "_v";
      if version.Some? {
        return name + version.value;
      }
      ghost var r := FreeFrom(weightsDic.Keys, name, 0);
      FreeIsFree(weightsDic.Keys, name);
      var suffix := "Unknown";
      var exist := true;
      var c := 0;
      while exist
        invariant 0 <= c
        invariant exist ==> c <= r && suffix == "Unknown"
        invariant !exist ==> suffix == "Unknown" + JavaString.NatToString(r)
        decreases if exist then r + 1 - c else 0
      {
        if name + suffix + JavaString.NatToString(c) !in weightsDic.Keys {
          assert name + suffix + JavaString.NatToString(c) == Candidate(name, c);
          assert c == r;
          suffix := suffix + JavaString.NatToString(c);
          exist := false;
        }
        c := c + 1;
      }
      key := name + suffix;
      assert key == Candidate(name, r);
    }

    /** getWeightsByIdentifier: the weights under that key, or the IOException. */
    function GetWeightsByIdentifier(key: string): (r: Result<Weights, string>)
      reads this
      ensures r.Ok? <==> key in weightsDic
      ensures r.Ok? ==> r.value == weightsDic[key]
    {
      if key in weightsDic then Ok(weightsDic[key])
      else Err("The selected model does not contain a set of " + key + " weights.")
    }

    /** setSelectedWeightsFormat: the engine is set first, then the version,
        then the weights; a throw leaves the steps before it done. */
    method SetSelectedWeightsFormat(s: string) returns (r: Result<(), Failure>)
      modifies this
      ensures weightsDic == old(weightsDic) && bioEngineWeightsKey == old(bioEngineWeightsKey)
      ensures EngineOf(s).None? ==>
                r == Err(Unsupported) && selectedEngine == old(selectedEngine)
                && selectedVersion == old(selectedVersion) && selectedWeights == old(selectedWeights)
      ensures EngineOf(s).Some? ==> selectedEngine == EngineOf(s)
      ensures EngineOf(s).Some? && VersionOf(s, EngineOf(s).value).None? ==>
                r == Err(BadIndex) && selectedVersion == old(selectedVersion)
                && selectedWeights == old(selectedWeights)
      ensures EngineOf(s).Some? && VersionOf(s, EngineOf(s).value).Some? ==>
        selectedVersion == VersionOf(s, EngineOf(s).value)
        && (s in weightsDic ==> r == Ok(()) && selectedWeights == Some(weightsDic[s]))
        && (s !in weightsDic ==> r.Err? && r.error.Missing? && selectedWeights == old(selectedWeights))
    {
      var engine := EngineOf(s);
      if engine.None? {
        return Err(Unsupported);
      }
      selectedEngine := engine;
      var version := VersionOf(s, engine.value);
      if version.None? {
        return Err(BadIndex);
      }
      selectedVersion := version;
      var w := GetWeightsByIdentifier(s);
      if w.Err? {
        return Err(Missing(w.error));
      }
      selectedWeights := Some(w.value);
      r := Ok(());
    }

    /** findBioEngineWeights over the keys in the map's iteration order. */
    method FindBioEngineWeights(order: seq<string>)
      requires forall i :: 0 <= i < |order| ==> order[i] in weightsDic
      modifies this
      ensures var f := BioEngineFormat(OrderedFormats(old(weightsDic), order));
        bioEngineWeightsKey == (if f.Some? then f else old(bioEngineWeightsKey))
      ensures weightsDic == old(weightsDic) && selectedEngine == old(selectedEngine)
      ensures selectedVersion == old(selectedVersion) && selectedWeights == old(selectedWeights)
    {
      ghost var formats := OrderedFormats(weightsDic, order);
      var i := 0;
      while i < |order|
        invariant 0 <= i <= |order|
        invariant BioEngineFormat(formats) == BioEngineFormat(formats[i..])
      {
        var f := weightsDic[order[i]].format;
        assert formats[i..][0] == f;
        if f == Keras || f == Onnx || f == Torchscript {
          bioEngineWeightsKey := Some(f);
          return;
        }
        assert formats[i..][1..] == formats[i + 1..];
        i := i + 1;
      }
    }
  }
}
