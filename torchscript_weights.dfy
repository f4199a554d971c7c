// The description of a set of TorchScript weights, filled in from the
// `torchscript` (or `pytorch_script`) entry of a model's rdf.yaml.
module TorchscriptWeights {
  import opened Wrappers
  import Yaml
  import JavaString

  /** The value the weights format always reports. */
  const Format := "torchscript"

  /** The PyTorch version assumed when the YAML entry gives none. */
  const DefaultVersion := "1.11.0"

  /** The keys the constructor recognises; every other key is skipped. */
  const Keys: set<string> := {"pytorch_version", "source", "attachments", "authors",
                              "parent", "sha256", "architecture", "architecture_sha256"}

  /** The fields a YAML entry can fill; null is None. */
  datatype Fields = Fields(
    trainingVersion: Option<string>,
    sha256: Option<string>,
    source: Option<string>,
    authors: Option<seq<Yaml.Value>>,
    attachments: Option<seq<(string, Yaml.Value)>>,
    parent: Option<string>,
    architecture: Option<string>,
    architectureSha256: Option<string>)

  const Unset := Fields(None, None, None, None, None, None, None, None)

  /** setTrainingVersion: the text a version value is stored as, or None when
      the value has a type the setter ignores. */
  function VersionText(v: Yaml.Value): (r: Option<string>)
    ensures r.None? <==> !(v.Str? || v.Double? || v.Float? || v.Long? || v.Integer?)
    ensures v.Str? ==> r == Some(v.s)
    ensures v.Long? ==> r == Some(JavaString.IntToString(v.l))
    ensures v.Integer? ==> r == Some(JavaString.IntToString(v.i))
  {
    match v
    case Str(s) => Some(s)
    case Double(_, text) => Some(text)
    case Float(_, text) => Some(text)
    case Long(n) => Some(JavaString.IntToString(n))
    case Integer(n) => Some(JavaString.IntToString(n))
    case _ => None
  }

  /** The setters that accept only a string value. */
  function StringValue(v: Yaml.Value): Option<string>
  {
    if v.Str? then Some(v.s) else None
  }

  /** setAuthors: a single string becomes a one-element list, a list is kept
      as it is, anything else is ignored. */
  function AuthorList(v: Yaml.Value): (r: Option<seq<Yaml.Value>>)
    ensures v.Str? ==> r == Some([v])
    ensures v.List? ==> r == Some(v.items)
    ensures r.None? <==> !(v.Str? || v.List?)
  {
    match v
    case Str(_) => Some([v])
    case List(items) => Some(items)
    case _ => None
  }

  /** Keeps the old field when the setter ignores the value. */
  function Keep<T>(current: Option<T>, update: Option<T>): Option<T>
  {
    if update.Some? then update else current
  }

  /** One turn of the constructor's switch on the key of an entry. */
  function Assign(f: Fields, key: string, v: Yaml.Value): (r: Fields)
    ensures key !in Keys ==> r == f
    ensures key == "pytorch_version" ==> r == f.(trainingVersion := Keep(f.trainingVersion, VersionText(v)))
    ensures key == "authors" ==> r == f.(authors := Keep(f.authors, AuthorList(v)))
    ensures key == "source" ==> r == f.(source := Keep(f.source, StringValue(v)))
    ensures key != "pytorch_version" ==> r.trainingVersion == f.trainingVersion
    ensures key != "source" ==> r.source == f.source
  {
    match key
    case "pytorch_version" => f.(trainingVersion := Keep(f.trainingVersion, VersionText(v)))
    case "source" => f.(source := Keep(f.source, StringValue(v)))
    case "attachments" =>
      f.(attachments := if v.Map? then Some(v.entries) else f.attachments)
    case "authors" => f.(authors := Keep(f.authors, AuthorList(v)))
    case "parent" => f.(parent := Keep(f.parent, StringValue(v)))
    case "sha256" => f.(sha256 := Keep(f.sha256, StringValue(v)))
    case "architecture" => f.(architecture := Keep(f.architecture, StringValue(v)))
    case "architecture_sha256" =>
      f.(architectureSha256 := Keep(f.architectureSha256, StringValue(v)))
    case _ => f
  }

  /** The fields after the switch has run over the entries in iteration order. */
  function Fold(f: Fields, entries: seq<(string, Yaml.Value)>): Fields
    decreases |entries|
  {
    if |entries| == 0 then f
    else Assign(Fold(f, entries[..|entries| - 1]), entries[|entries| - 1].0, entries[|entries| - 1].1)
  }

  /** The fields the constructor leaves: the switch, then the default version. */
  function Loaded(entries: seq<(string, Yaml.Value)>): Fields
  {
    var f := Fold(Unset, entries);
    if f.trainingVersion.None? then f.(trainingVersion := Some(DefaultVersion)) else f
  }

  /** An entry that the version setter accepts. */
  predicate SetsVersion(e: (string, Yaml.Value))
  {
    e.0 == "pytorch_version" && VersionText(e.1).Some?
  }

  /** The index of the last entry that sets the version, or -1 when none does. */
  function LastSetter(entries: seq<(string, Yaml.Value)>): (i: int)
    ensures -1 <= i < |entries|
    ensures i >= 0 ==> SetsVersion(entries[i])
    ensures forall j :: i < j < |entries| && 0 <= j ==> !SetsVersion(entries[j])
    decreases |entries|
  {
    if |entries| == 0 then -1
    else if SetsVersion(entries[|entries| - 1]) then |entries| - 1
    else
      var i := LastSetter(entries[..|entries| - 1]);
      assert forall j :: 0 <= j < |entries| - 1 ==> entries[..|entries| - 1][j] == entries[j];
      i
  }

  /** The text of the last `pytorch_version` entry the setter accepts, if any. */
  function GivenVersion(entries: seq<(string, Yaml.Value)>): (r: Option<string>)
    ensures r.None? <==> forall i :: 0 <= i < |entries| ==> !SetsVersion(entries[i])
  {
    var i := LastSetter(entries);
    if i < 0 then None else VersionText(entries[i].1)
  }

  /** The training version after the switch is the given one, or the
      starting one when none is given. */
  lemma {:induction false} FoldVersion(f: Fields, entries: seq<(string, Yaml.Value)>)
    ensures Fold(f, entries).trainingVersion ==
      if GivenVersion(entries).Some? then GivenVersion(entries) else f.trainingVersion
    decreases |entries|
  {
    if |entries| > 0 {
      FoldVersion(f, entries[..|entries| - 1]);
    }
  }

  /** The loaded weights always report a training version: the last accepted
      `pytorch_version` entry's text, or 1.11.0 when there is none. */
  lemma LoadedVersion(entries: seq<(string, Yaml.Value)>)
    ensures Loaded(entries).trainingVersion.Some?
    ensures GivenVersion(entries).None? ==> Loaded(entries).trainingVersion == Some(DefaultVersion)
    ensures GivenVersion(entries).Some? ==> Loaded(entries).trainingVersion == GivenVersion(entries)
  {
    FoldVersion(Unset, entries);
  }

  /** Entries with keys the switch does not know leave the result unchanged. */
  lemma {:induction false} UnknownKeysIgnored(entries: seq<(string, Yaml.Value)>, extra: seq<(string, Yaml.Value)>)
    requires forall i :: 0 <= i < |extra| ==> extra[i].0 !in Keys
    ensures Loaded(entries + extra) == Loaded(entries)
    decreases |extra|
  {
    if |extra| > 0 {
      var n := |extra| - 1;
      UnknownKeysIgnored(entries, extra[..n]);
      assert (entries + extra)[..|entries + extra| - 1] == entries + extra[..n];
      assert (entries + extra)[|entries + extra| - 1] == extra[n];
    } else {
      assert entries + extra == entries;
    }
  }

  /** The trailing '/' characters that java.io.File's normalisation removes
      from a Unix path; "/" and "" both end up without a name. */
  function StripSlashes(path: string): (r: string)
    ensures r <= path
    ensures |r| == 0 || r[|r| - 1] != '/'
    ensures forall i :: |r| <= i < |path| ==> path[i] == '/'
    decreases |path|
  {
    if |path| > 0 && path[|path| - 1] == '/' then StripSlashes(path[..|path| - 1]) else path
  }

  /** The index of the last '/' in a path, or -1 when it holds none. */
  function LastSlash(path: string): (k: int)
    ensures -1 <= k < |path|
    ensures k >= 0 ==> path[k] == '/'
    ensures forall i :: k < i < |path| ==> path[i] != '/'
    decreases |path|
  {
    if |path| == 0 then -1
    else if path[|path| - 1] == '/' then |path| - 1
    else LastSlash(path[..|path| - 1])
  }

  /** The part of a normalised path after its last '/'. */
  function LastComponent(path: string): (r: string)
    ensures |r| <= |path| && path[|path| - |r|..] == r
    ensures forall i :: 0 <= i < |r| ==> r[i] != '/'
    ensures |r| < |path| ==> path[|path| - |r| - 1] == '/'
  {
    path[LastSlash(path) + 1..]
  }

  /** new File(path).getName(): the path is normalised (trailing '/' dropped)
      and the name is what follows the last remaining '/'. */
  function FileName(path: string): (r: string)
    ensures forall i :: 0 <= i < |r| ==> r[i] != '/'
    ensures var n := StripSlashes(path);
              |r| <= |n| && n[|n| - |r|..] == r && (|r| < |n| ==> n[|n| - |r| - 1] == '/')
  {
    LastComponent(StripSlashes(path))
  }

  /** The name is empty exactly when the path holds nothing but '/'. */
  lemma EmptyNameIffSlashes(path: string)
    ensures FileName(path) == "" <==> forall i :: 0 <= i < |path| ==> path[i] == '/'
  {
    var n := StripSlashes(path);
    if |n| > 0 {
      assert n[|n| - 1] == path[|n| - 1];
      assert LastComponent(n) != "";
    }
  }

  /** A trailing '/' does not change the name. */
  lemma TrailingSlashIgnored(path: string)
    ensures FileName(path + "/") == FileName(path)
  {
    assert (path + "/")[..|path|] == path;
  }

  /** The name of a file joined onto a folder is the file's own name. */
  lemma JoinedName(dir: string, name: string)
    requires name != "" && forall i :: 0 <= i < |name| ==> name[i] != '/'
    ensures FileName(dir + "/" + name) == name
  {
    var p := dir + "/" + name;
    assert p[|p| - 1] == name[|name| - 1];
    assert StripSlashes(p) == p;
    var r := FileName(p);
    assert p[|dir|] == '/';
    assert r == p[|dir| + 1..] == name;
  }

  /** The weights object for TorchScript weights. */
  class TorchscriptWeights {
    var weightsFormat: string
    var fields: Fields
    var gpu: bool

    /** Reads the YAML entry key by key in iteration order, then falls back
        to the default version when none was given. */
    constructor (entries: seq<(string, Yaml.Value)>)
      ensures weightsFormat == Format
      ensures fields == Loaded(entries)
      ensures !gpu
    {
      weightsFormat := Format;
      fields := Unset;
      gpu := false;
      new;
      var i := 0;
      while i < |entries|
        invariant 0 <= i <= |entries|
        invariant fields == Fold(Unset, entries[..i])
        invariant weightsFormat == Format && !gpu
      {
        assert entries[..i + 1][..i] == entries[..i];
        var (k, v) := entries[i];
        if k == "pytorch_version" {
          SetTrainingVersion(v);
        } else if k == "source" {
          SetSource(v);
        } else if k == "attachments" {
          SetAttachments(v);
        } else if k == "authors" {
          SetAuthors(v);
        } else if k == "parent" {
          SetParent(v);
        } else if k == "sha256" {
          SetSha256(v);
        } else if k == "architecture" {
          SetArchitecture(v);
        } else if k == "architecture_sha256" {
          SetArchitectureSha256(v);
        }
        i := i + 1;
      }
      assert entries[..i] == entries;
      if fields.trainingVersion.None? {
        fields := fields.(trainingVersion := Some(DefaultVersion));
      }
    }

    method SetTrainingVersion(v: Yaml.Value)
      modifies this
      ensures fields == Assign(old(fields), "pytorch_version", v)
      ensures weightsFormat == old(weightsFormat) && gpu == old(gpu)
    {
      match v {
        case Str(s) => fields := fields.(trainingVersion := Some(s));
        case Double(_, text) => fields := fields.(trainingVersion := Some(text));
        case Float(_, text) => fields := fields.(trainingVersion := Some(text));
        case Long(n) => fields := fields.(trainingVersion := Some(JavaString.IntToString(n)));
        case Integer(n) => fields := fields.(trainingVersion := Some(JavaString.IntToString(n)));
        case _ =>
      }
    }

    method SetSha256(v: Yaml.Value)
      modifies this
      ensures fields == Assign(old(fields), "sha256", v)
      ensures weightsFormat == old(weightsFormat) && gpu == old(gpu)
    {
      if v.Str? {
        fields := fields.(sha256 := Some(v.s));
      }
    }

    method SetSource(v: Yaml.Value)
      modifies this
      ensures fields == Assign(old(fields), "source", v)
      ensures weightsFormat == old(weightsFormat) && gpu == old(gpu)
    {
      if v.Str? {
        fields := fields.(source := Some(v.s));
      }
    }

    method SetAuthors(v: Yaml.Value)
      modifies this
      ensures fields == Assign(old(fields), "authors", v)
      ensures weightsFormat == old(weightsFormat) && gpu == old(gpu)
    {
      if v.Str? {
        fields := fields.(authors := Some([v]));
      } else if v.List? {
        fields := fields.(authors := Some(v.items));
      }
    }

    method SetAttachments(v: Yaml.Value)
      modifies this
      ensures fields == Assign(old(fields), "attachments", v)
      ensures weightsFormat == old(weightsFormat) && gpu == old(gpu)
    {
      if v.Map? {
        fields := fields.(attachments := Some(v.entries));
      }
    }

    method SetParent(v: Yaml.Value)
      modifies this
      ensures fields == Assign(old(fields), "parent", v)
      ensures weightsFormat == old(weightsFormat) && gpu == old(gpu)
    {
      if v.Str? {
        fields := fields.(parent := Some(v.s));
      }
    }

    method SetArchitecture(v: Yaml.Value)
      modifies this
      ensures fields == Assign(old(fields), "architecture", v)
      ensures weightsFormat == old(weightsFormat) && gpu == old(gpu)
    {
      if v.Str? {
        fields := fields.(architecture := Some(v.s));
      }
    }

    method SetArchitectureSha256(v: Yaml.Value)
      modifies this
      ensures fields == Assign(old(fields), "architecture_sha256", v)
      ensures weightsFormat == old(weightsFormat) && gpu == old(gpu)
    {
      if v.Str? {
        fields := fields.(architectureSha256 := Some(v.s));
      }
    }

    /** getSourceFileName: null exactly when no source was given. */
    function SourceFileName(): (r: Option<string>)
      reads this
      ensures r.None? <==> fields.source.None?
      ensures r.Some? ==> JavaString.EndsWith(StripSlashes(fields.source.value), r.value)
      ensures r.Some? ==> forall i :: 0 <= i < |r.value| ==> r.value[i] != '/'
    {
      if fields.source.None? then None else Some(FileName(fields.source.value))
    }

    method SupportGpu(support: bool)
      modifies this
      ensures gpu == support
      ensures fields == old(fields) && weightsFormat == old(weightsFormat)
    {
      gpu := support;
    }
  }
}
