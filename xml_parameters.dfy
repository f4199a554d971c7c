// The model parameters of the older plugin, read from the key/value pairs of
// a model's config.xml.
module XmlParameters {
  import opened Wrappers
  import JavaString

  /** The key/value pairs read from config.xml; an absent key reads as null. */
  type Config = map<string, string>

  /** What the constructor can throw. */
  datatype Failure =
    | NumberFormat(key: string)   // Integer.parseInt on the value of `key`
    | NegativeArraySize           // an array created with a negative length
    | NullPointer                 // string2tensorDims given a null string
    | IndexOutOfBounds            // string2tensorDims writing past its array

  const DimsKey := "InputTensorDimensions"

  function Lookup(config: Config, key: string): (r: Option<string>)
    ensures r.Some? <==> key in config
    ensures r.Some? ==> r.value == config[key]
  {
    if key in config then Some(config[key]) else None
  }

  /** `config.get(key) != null ? config.get(key) : default`. */
  function GetOr(config: Config, key: string, default: string): string
  {
    if key in config then config[key] else default
  }

  /** Integer.parseInt of a value, with `default` standing for an absent key. */
  function IntField(config: Config, key: string, default: string): (r: Result<int, Failure>)
    ensures r.Err? <==> JavaString.ParseInt(GetOr(config, key, default)).None?
    ensures r.Err? ==> r.error == NumberFormat(key)
    ensures r.Ok? ==> Some(r.value) == JavaString.ParseInt(GetOr(config, key, default))
  {
    match JavaString.ParseInt(GetOr(config, key, default))
    case None => Err(NumberFormat(key))
    case Some(n) => Ok(n)
  }

  /** The defaults "0" and "-1" parse. */
  lemma DefaultsParse()
    ensures JavaString.ParseInt("0") == Some(0)
    ensures JavaString.ParseInt("-1") == Some(-1)
  {
    JavaString.ParseIntToString(0);
    JavaString.ParseIntToString(-1);
    assert JavaString.IntToString(0) == "0";
    assert JavaString.IntToString(-1) == "-1";
  }

  /** Boolean.parseBoolean: true exactly for "true" in any case. */
  function ParseBoolean(s: string): bool
  {
    JavaString.ToLower(s) == "true"
  }

  // ---------------------------------------------------------------------
  // string2tensorDims

  /** The pieces of split(",") that are not empty, in order. */
  function NonEmpty(tokens: seq<string>): (r: seq<string>)
    ensures |r| <= |tokens|
    ensures forall k :: 0 <= k < |r| ==> r[k] != ""
    decreases |tokens|
  {
    if tokens == [] then []
    else
      var last := tokens[|tokens| - 1];
      NonEmpty(tokens[..|tokens| - 1]) + (if last == "" then [] else [last])
  }

  /** Without empty pieces, nothing is skipped. */
  lemma {:induction false} NonEmptyOfFull(tokens: seq<string>)
    requires forall k :: 0 <= k < |tokens| ==> tokens[k] != ""
    ensures NonEmpty(tokens) == tokens
    decreases |tokens|
  {
    if tokens != [] {
      NonEmptyOfFull(tokens[..|tokens| - 1]);
    }
  }

  /** Skipping empty pieces distributes over a split of the list. */
  lemma {:induction false} NonEmptySplit(tokens: seq<string>, j: int)
    requires 0 <= j <= |tokens|
    ensures NonEmpty(tokens) == NonEmpty(tokens[..j]) + NonEmpty(tokens[j..])
    decreases |tokens|
  {
    if j == |tokens| {
      assert tokens[..j] == tokens && tokens[j..] == [];
    } else {
      var n := |tokens| - 1;
      NonEmptySplit(tokens[..n], j);
      assert tokens[..n][..j] == tokens[..j];
      assert tokens[j..][..|tokens[j..]| - 1] == tokens[..n][j..];
    }
  }

  /** Integer.parseInt of every piece, or None when one of them fails. */
  function ParseAll(xs: seq<string>): (r: Option<seq<int>>)
    ensures r.Some? ==> |r.value| == |xs|
    ensures r.Some? ==> forall k :: 0 <= k < |xs| ==> JavaString.ParseInt(xs[k]) == Some(r.value[k])
    decreases |xs|
  {
    if xs == [] then Some([])
    else
      var n := |xs| - 1;
      match ParseAll(xs[..n])
      case None => None
      case Some(front) =>
        match JavaString.ParseInt(xs[n])
        case None => None
        case Some(v) => Some(front + [v])
  }

  /** A piece that does not parse makes any list holding it fail. */
  lemma {:induction false} ParseAllFails(xs: seq<string>, ys: seq<string>)
    requires ParseAll(xs).None?
    ensures ParseAll(xs + ys).None?
    decreases |ys|
  {
    if ys == [] {
      assert xs + ys == xs;
    } else {
      var m := |ys| - 1;
      ParseAllFails(xs, ys[..m]);
      assert (xs + ys)[..|xs + ys| - 1] == xs + ys[..m];
    }
  }

  function Zeros(n: nat): (r: seq<int>)
    ensures |r| == n && forall k :: 0 <= k < n ==> r[k] == 0
  {
    seq(n, k => 0)
  }

  /** string2tensorDims: the integers between the commas, written into an
      array with one slot fewer than split(",") gives pieces; empty pieces
      are skipped and unused slots stay 0. */
  function TensorDims(text: Option<string>): (r: Result<seq<int>, Failure>)
  {
    match text
    case None => Err(NullPointer)
    case Some(s) =>
      var tokens := JavaString.Split(s, ',');
      if |tokens| == 0 then Err(NegativeArraySize) else DimsOf(tokens)
  }

  /** The array string2tensorDims fills from the pieces of its text. */
  function DimsOf(tokens: seq<string>): (r: Result<seq<int>, Failure>)
    requires |tokens| > 0
  {
    var present := NonEmpty(tokens);
    match ParseAll(present)
    case None => Err(NumberFormat(DimsKey))
    case Some(values) =>
      if |present| > |tokens| - 1 then Err(IndexOutOfBounds)
      else Ok(values + Zeros(|tokens| - 1 - |present|))
  }

  /** A successful read has one slot fewer than there are pieces; the
      non-empty pieces' values come first, in order, and the rest are 0. */
  lemma TensorDimsShape(s: string)
    requires TensorDims(Some(s)).Ok?
    ensures var tokens := JavaString.Split(s, ',');
      var present := NonEmpty(tokens);
      var dims := TensorDims(Some(s)).value;
      && |dims| == |tokens| - 1
      && |present| <= |dims|
      && (forall k :: 0 <= k < |present| ==> JavaString.ParseInt(present[k]) == Some(dims[k]))
      && (forall k :: |present| <= k < |dims| ==> dims[k] == 0)
  {
  }

  /** A list with no empty piece (no leading comma) overruns the array. */
  lemma NoLeadingComma(s: string)
    requires var tokens := JavaString.Split(s, ',');
      |tokens| > 0 && (forall k :: 0 <= k < |tokens| ==> tokens[k] != "") &&
      ParseAll(tokens).Some?
    ensures TensorDims(Some(s)) == Err(IndexOutOfBounds)
  {
    NonEmptyOfFull(JavaString.Split(s, ','));
  }

  /** Splitting at the first comma. */
  lemma SplitAtComma(p: string, rest: string)
    requires ',' !in p
    ensures JavaString.SplitAll(p + [','] + rest, ',') == [p] + JavaString.SplitAll(rest, ',')
  {
    var t := p + [','] + rest;
    JavaString.CharAfterPrefix(p, ',', rest);
    assert t[..|p|] == p && t[|p| + 1..] == rest;
  }

  /** Integer.toString never writes a comma. */
  lemma NoCommaInNumber(n: int)
    ensures ',' !in JavaString.IntToString(n)
  {
    var t := JavaString.IntToString(n);
    if n < 0 {
      assert forall k :: 1 <= k < |t| ==> t[k] == JavaString.NatToString(-n)[k - 1];
    }
  }

  /** The text that lists dims the way string2tensorDims expects them:
      each value after a comma, and a closing comma (",1,2,-5,"). */
  function DimsText(dims: seq<int>): string
  {
    "," + DimsTail(dims)
  }

  function DimsTail(dims: seq<int>): string
    decreases |dims|
  {
    if dims == [] then "" else JavaString.IntToString(dims[0]) + [','] + DimsTail(dims[1..])
  }

  function Pieces(dims: seq<int>): (r: seq<string>)
    ensures |r| == |dims| && forall k :: 0 <= k < |dims| ==> r[k] == JavaString.IntToString(dims[k])
  {
    seq(|dims|, k requires 0 <= k < |dims| => JavaString.IntToString(dims[k]))
  }

  lemma {:induction false} SplitTail(dims: seq<int>)
    ensures JavaString.SplitAll(DimsTail(dims), ',') == Pieces(dims) + [""]
    decreases |dims|
  {
    if dims == [] {
      JavaString.ContainsChar("", ',');
    } else {
      var t, rest := JavaString.IntToString(dims[0]), DimsTail(dims[1..]);
      assert Pieces(dims) == [t] + Pieces(dims[1..]);
      assert DimsTail(dims) == t + [','] + rest;
      NoCommaInNumber(dims[0]);
      SplitAtComma(t, rest);
      SplitTail(dims[1..]);
    }
  }

  lemma {:induction false} ParsePieces(dims: seq<int>)
    requires forall k :: 0 <= k < |dims| ==> JavaString.MinInt <= dims[k] <= JavaString.MaxInt
    ensures ParseAll(Pieces(dims)) == Some(dims)
    decreases |dims|
  {
    if dims != [] {
      var n := |dims| - 1;
      assert dims[..n] + [dims[n]] == dims;
      var front, t := Pieces(dims[..n]), JavaString.IntToString(dims[n]);
      ParsePieces(dims[..n]);
      assert Pieces(dims) == front + [t];
      ParseAllSnoc(front, t);
      JavaString.ParseIntToString(dims[n]);
    }
  }

  /** Dropping trailing empty pieces when exactly one is there. */
  lemma DropLastEmpty(xs: seq<string>)
    requires |xs| >= 2 && xs[|xs| - 1] == "" && xs[|xs| - 2] != ""
    ensures JavaString.DropTrailingEmpty(xs) == xs[..|xs| - 1]
  {
    assert xs[..|xs| - 1][|xs| - 2] != "";
  }

  /** The pieces of a listed text: an empty one before the first comma, then
      the values; the closing comma leaves only empty pieces, which split
      drops, so "," has no pieces at all. */
  lemma SplitDims(dims: seq<int>)
    ensures dims != [] ==> JavaString.Split(DimsText(dims), ',') == [""] + Pieces(dims)
    ensures dims == [] ==> JavaString.Split(DimsText(dims), ',') == []
  {
    var s := DimsText(dims);
    SplitAtComma("", DimsTail(dims));
    assert s == "" + [','] + DimsTail(dims);
    SplitTail(dims);
    var all := [""] + Pieces(dims) + [""];
    assert JavaString.SplitAll(s, ',') == all;
    assert ',' in s by { assert s[0] == ','; }
    if dims == [] {
      assert all == ["", ""];
      assert JavaString.DropTrailingEmpty(all[..1]) == [];
    } else {
      DropLastEmpty(all);
      assert all[..|all| - 1] == [""] + Pieces(dims);
    }
  }

  /** Reading back listed 32-bit values gives them back; an empty list
      (",") splits into no pieces at all and the array size is negative. */
  lemma DimsRoundTrip(dims: seq<int>)
    requires forall k :: 0 <= k < |dims| ==> JavaString.MinInt <= dims[k] <= JavaString.MaxInt
    ensures dims != [] ==> TensorDims(Some(DimsText(dims))) == Ok(dims)
    ensures dims == [] ==> TensorDims(Some(DimsText(dims))) == Err(NegativeArraySize)
  {
    SplitDims(dims);
    if dims != [] {
      ReadPieces(DimsText(dims), dims);
    }
  }

  /** A text whose pieces are an empty one and then the values is read as
      those values. */
  lemma ReadPieces(s: string, dims: seq<int>)
    requires dims != [] && JavaString.Split(s, ',') == [""] + Pieces(dims)
    requires forall k :: 0 <= k < |dims| ==> JavaString.MinInt <= dims[k] <= JavaString.MaxInt
    ensures TensorDims(Some(s)) == Ok(dims)
  {
    assert dims + Zeros(0) == dims;
    LeadingEmptySkipped(Pieces(dims));
    ParsePieces(dims);
    assert DimsOf([""] + Pieces(dims)) == Ok(dims);
  }

  /** The empty piece before a leading comma is skipped. */
  lemma LeadingEmptySkipped(pieces: seq<string>)
    requires forall k :: 0 <= k < |pieces| ==> pieces[k] != ""
    ensures NonEmpty([""] + pieces) == pieces
  {
    var tokens := [""] + pieces;
    assert tokens[..1] == [""] && tokens[1..] == pieces;
    assert [""][..0] == [];
    NonEmptySplit(tokens, 1);
    assert NonEmpty([""]) == [];
    NonEmptyOfFull(pieces);
  }

  /** The pieces so far, one more piece on. */
  lemma NonEmptyStep(tokens: seq<string>, i: int)
    requires 0 <= i < |tokens|
    ensures tokens[i] == "" ==> NonEmpty(tokens[..i + 1]) == NonEmpty(tokens[..i])
    ensures tokens[i] != "" ==> NonEmpty(tokens[..i + 1]) == NonEmpty(tokens[..i]) + [tokens[i]]
  {
    assert tokens[..i + 1][..i] == tokens[..i];
    assert NonEmpty(tokens[..i]) + [] == NonEmpty(tokens[..i]);
  }

  lemma ParseAllSnoc(xs: seq<string>, x: string)
    ensures ParseAll(xs + [x]) ==
      if ParseAll(xs).Some? && JavaString.ParseInt(x).Some?
      then Some(ParseAll(xs).value + [JavaString.ParseInt(x).value]) else None
  {
    assert (xs + [x])[..|xs|] == xs;
  }

  /** A piece that fails to parse fails the whole list. */
  lemma FailsInWhole(tokens: seq<string>, i: int)
    requires 0 <= i < |tokens| && ParseAll(NonEmpty(tokens[..i + 1])).None?
    ensures ParseAll(NonEmpty(tokens)).None?
  {
    NonEmptySplit(tokens, i + 1);
    ParseAllFails(NonEmpty(tokens[..i + 1]), NonEmpty(tokens[i + 1..]));
  }

  /** A full array can only be met at the last piece. */
  lemma OverrunAtLast(tokens: seq<string>, i: int)
    requires 0 <= i < |tokens| && tokens[i] != ""
    requires |NonEmpty(tokens[..i])| >= |tokens| - 1
    ensures tokens[..i + 1] == tokens
  {
    assert |NonEmpty(tokens[..i])| <= i;
  }

  /** string2tensorDims, proved against TensorDims. */
  method String2TensorDims(text: Option<string>) returns (r: Result<seq<int>, Failure>)
    ensures r == TensorDims(text)
  {
    if text.None? {
      return Err(NullPointer);
    }
    var tokens := JavaString.Split(text.value, ',');
    if |tokens| == 0 {
      return Err(NegativeArraySize);
    }
    r := FillDims(tokens);
  }

  /** The state of string2tensorDims's loop after the first i pieces: the
      values of the non-empty ones fill the first `counter` slots. */
  predicate Filled(tokens: seq<string>, i: int, dims: seq<int>, counter: int)
  {
    && 0 <= i <= |tokens| && |dims| == |tokens| - 1
    && counter == |NonEmpty(tokens[..i])| <= i
    && counter <= |dims|
    && ParseAll(NonEmpty(tokens[..i])) == Some(dims[..counter])
    && forall k :: counter <= k < |dims| ==> dims[k] == 0
  }

  /** After the last piece the array is the result. */
  lemma FilledAll(tokens: seq<string>, dims: seq<int>, counter: int)
    requires |tokens| > 0 && Filled(tokens, |tokens|, dims, counter)
    ensures DimsOf(tokens) == Ok(dims)
  {
    assert tokens[..|tokens|] == tokens;
    assert dims == dims[..counter] + Zeros(|dims| - counter);
  }

  /** One iteration of string2tensorDims's loop: piece i is skipped, written,
      or ends the loop with the exception it raises. */
  method FillStep(tokens: seq<string>, i: int, dims: array<int>, counter: int)
    returns (next: int, stop: Option<Failure>)
    requires i < |tokens| && Filled(tokens, i, dims[..], counter)
    modifies dims
    ensures stop.None? ==> Filled(tokens, i + 1, dims[..], next)
    ensures stop.Some? ==> DimsOf(tokens) == Err(stop.value)
  {
    NonEmptyStep(tokens, i);
    next := counter;
    stop := None;
    if tokens[i] != "" {
      ParseAllSnoc(NonEmpty(tokens[..i]), tokens[i]);
      var v := JavaString.ParseInt(tokens[i]);
      if v.None? {
        FailsInWhole(tokens, i);
        return counter, Some(NumberFormat(DimsKey));
      }
      if counter >= dims.Length {
        OverrunAtLast(tokens, i);
        return counter, Some(IndexOutOfBounds);
      }
      ghost var before := dims[..counter];
      dims[counter] := v.value;
      assert dims[..counter + 1] == before + [v.value];
      next := counter + 1;
    }
  }

  /** The loop of string2tensorDims over the pieces, proved against DimsOf. */
  method FillDims(tokens: seq<string>) returns (r: Result<seq<int>, Failure>)
    requires |tokens| > 0
    ensures r == DimsOf(tokens)
  {
    var dims := new int[|tokens| - 1](_ => 0);
    var counter := 0;
    var i := 0;
    while i < |tokens|
      invariant Filled(tokens, i, dims[..], counter)
    {
      var stop;
      counter, stop := FillStep(tokens, i, dims, counter);
      if stop.Some? {
        return Err(stop.value);
      }
      i := i + 1;
    }
    FilledAll(tokens, dims[..], counter);
    r := Ok(dims[..]);
  }

  /** What the constructor would read for InputTensorDimensions had a missing
      key read as null, as the completeness check expects. */
  function TensorDimsIntended(text: Option<string>): (r: Result<Option<seq<int>>, Failure>)
    ensures text.None? ==> r == Ok(None)
    ensures text.Some? ==> (r.Ok? <==> TensorDims(text).Ok?)
    ensures text.Some? && r.Ok? ==> r.value == Some(TensorDims(text).value)
  {
    if text.None? then Ok(None)
    else
      match TensorDims(text)
      case Err(e) => Err(e)
      case Ok(dims) => Ok(Some(dims))
  }

  // ---------------------------------------------------------------------
  // readInOutSet

  /** The names and forms of the inputs and outputs. */
  datatype InOut = InOut(inputs: seq<string>, inputForm: seq<string>,
                         outputs: seq<string>, outputForm: seq<string>)

  function Key(prefix: string, i: nat): string
  {
    prefix + JavaString.NatToString(i)
  }

  /** Every `prefix + i` below n is a key. */
  predicate Listed(config: Config, prefix: string, n: nat)
  {
    forall i :: 0 <= i < n ==> Key(prefix, i) in config
  }

  function Column(config: Config, prefix: string, n: nat): (r: seq<string>)
    requires Listed(config, prefix, n)
    ensures |r| == n && forall i :: 0 <= i < n ==> r[i] == config[Key(prefix, i)]
  {
    seq(n, i requires 0 <= i < n && Listed(config, prefix, n) => config[Key(prefix, i)])
  }

  /** readInOutSet: all four lists when every name and organisation is
      present, and all four null otherwise. */
  function InOutOf(config: Config, nIn: nat, nOut: nat): (r: Option<InOut>)
    ensures r.Some? <==> Listed(config, "InputNames", nIn) && Listed(config, "InputOrganization", nIn)
                          && Listed(config, "OutputNames", nOut) && Listed(config, "OutputOrganization", nOut)
  {
    if Listed(config, "InputNames", nIn) && Listed(config, "InputOrganization", nIn)
       && Listed(config, "OutputNames", nOut) && Listed(config, "OutputOrganization", nOut)
    then Some(InOut(Column(config, "InputNames", nIn), Column(config, "InputOrganization", nIn),
                    Column(config, "OutputNames", nOut), Column(config, "OutputOrganization", nOut)))
    else None
  }

  /** One pass of readInOutSet over the inputs or the outputs: the names and
      forms when all are present, None at the first one missing. */
  method ReadColumns(config: Config, namePrefix: string, formPrefix: string, n: nat)
    returns (r: Option<(seq<string>, seq<string>)>)
    ensures r.Some? <==> Listed(config, namePrefix, n) && Listed(config, formPrefix, n)
    ensures r.Some? ==> r.value == (Column(config, namePrefix, n), Column(config, formPrefix, n))
  {
    var names := new string[n];
    var forms := new string[n];
    var i := 0;
    while i < n
      invariant 0 <= i <= n
      invariant Listed(config, namePrefix, i) && Listed(config, formPrefix, i)
      invariant forall k :: 0 <= k < i ==> names[k] == config[Key(namePrefix, k)]
      invariant forall k :: 0 <= k < i ==> forms[k] == config[Key(formPrefix, k)]
    {
      var name, form := Lookup(config, Key(namePrefix, i)), Lookup(config, Key(formPrefix, i));
      if name.None? || form.None? {
        return None;
      }
      names[i], forms[i] := name.value, form.value;
      i := i + 1;
    }
    assert names[..] == Column(config, namePrefix, n);
    assert forms[..] == Column(config, formPrefix, n);
    r := Some((names[..], forms[..]));
  }

  /** readInOutSet, proved against InOutOf. */
  method ReadInOutSet(config: Config, nIn: nat, nOut: nat) returns (r: Option<InOut>)
    ensures r == InOutOf(config, nIn, nOut)
  {
    var ins := ReadColumns(config, "InputNames", "InputOrganization", nIn);
    if ins.None? {
      return None;
    }
    var outs := ReadColumns(config, "OutputNames", "OutputOrganization", nOut);
    if outs.None? {
      return None;
    }
    r := Some(InOut(ins.value.0, ins.value.1, outs.value.0, outs.value.1));
  }

  // ---------------------------------------------------------------------
  // The constructor

  /** The ModelInformation and ModelTest texts ("" when absent). */
  datatype Info = Info(name: string, author: string, url: string, credit: string,
                       version: string, date: string, reference: string,
                       inputSize: string, outputSize: string, memoryPeak: string, runtime: string)

  function InfoOf(config: Config): Info
  {
    Info(GetOr(config, "Name", ""), GetOr(config, "Author", ""), GetOr(config, "URL", ""),
         GetOr(config, "Credit", ""), GetOr(config, "Version", ""), GetOr(config, "Date", ""),
         GetOr(config, "Reference", ""), GetOr(config, "InputSize", ""), GetOr(config, "OutputSize", ""),
         GetOr(config, "MemoryPeak", ""), GetOr(config, "Runtime", ""))
  }

  /** Everything the constructor sets. */
  datatype Settings = Settings(
    developer: bool, info: Info, nInputs: int, nOutputs: int, inOut: Option<InOut>,
    minimumSize: Option<string>, tag: Option<string>, graph: Option<string>,
    padding: int, inDimensions: Option<seq<int>>, fixedPatch: bool, patch: int,
    fixedPadding: bool, channels: Option<string>, completeConfig: bool)

  /** The field initialisers, kept when there is no config to read. */
  function Defaults(developer: bool): (s: Settings)
    ensures s.developer == developer && s.completeConfig
    ensures s.nInputs == -1 && s.nOutputs == -1 && s.padding == -1 && s.patch == -1
    ensures s.inOut.None? && s.inDimensions.None? && s.minimumSize.None? && s.channels == Some("1")
    ensures !s.fixedPatch && s.fixedPadding
  {
    Settings(developer, Info("", "", "", "", "", "", "", "", "", "", ""), -1, -1, None,
             None, Some(""), Some(""), -1, None, false, -1, true, Some("1"), true)
  }

  /** The completeness check: false when a ModelCharacteristics value is
      missing or left at its sentinel. */
  predicate Complete(nIn: int, nOut: int, inOut: Option<InOut>, minimumSize: Option<string>,
                     tag: Option<string>, graph: Option<string>, padding: int,
                     inDimensions: Option<seq<int>>, patch: int, channels: Option<string>)
  {
    !(nIn == 0 || nOut == 0 || inOut.None? || minimumSize.None? || tag.None? || graph.None?
      || padding == -1 || inDimensions.None? || patch == -1 || channels.None?)
  }

  /** The constructor: the defaults for an invalid model or the developer
      plugin; otherwise every field read from config.xml, in the order the
      source reads them, so the first exception thrown is the one returned. */
  function Read(valid: bool, developer: bool, config: Config): (r: Result<Settings, Failure>)
  {
    if !valid || developer then Ok(Defaults(developer)) else ReadConfig(config)
  }

  /** The reads that can throw, in the order the source makes them. */
  function ReadConfig(config: Config): (r: Result<Settings, Failure>)
  {
    match (IntField(config, "NumberOfInputs", "0"), IntField(config, "NumberOfOutputs", "0"))
    case (Err(e), _) => Err(e)
    case (_, Err(e)) => Err(e)
    case (Ok(nIn), Ok(nOut)) =>
      if nIn < 0 || nOut < 0 then Err(NegativeArraySize)
      else
        match IntField(config, "Padding", "-1")
        case Err(e) => Err(e)
        case Ok(padding) =>
          match TensorDims(Lookup(config, DimsKey))
          case Err(e) => Err(e)
          case Ok(dims) =>
            match IntField(config, "PatchSize", "-1")
            case Err(e) => Err(e)
            case Ok(patch) => Ok(Assembled(config, nIn, nOut, padding, dims, patch))
  }

  /** The fields once the numbers are read; the rest cannot throw. */
  function Assembled(config: Config, nIn: nat, nOut: nat, padding: int, dims: seq<int>, patch: int): Settings
  {
    var inOut := InOutOf(config, nIn, nOut);
    var minimumSize, tag, graph, channels := Lookup(config, "MinimumSize"),
      Lookup(config, "ModelTag"), Lookup(config, "SignatureDefinition"), Lookup(config, "Channels");
    Settings(false, InfoOf(config), nIn, nOut, inOut, minimumSize, tag, graph,
             padding, Some(dims), ParseBoolean(GetOr(config, "FixedPatch", "true")), patch,
             ParseBoolean(GetOr(config, "fixedPadding", "true")), channels,
             Complete(nIn, nOut, inOut, minimumSize, tag, graph, padding, Some(dims), patch, channels))
  }

  /** The reading part of the constructor, with its loops, proved against
      ReadConfig. */
  method ReadSettings(config: Config) returns (r: Result<Settings, Failure>)
    ensures r == ReadConfig(config)
  {
    var nIn := IntField(config, "NumberOfInputs", "0");
    if nIn.Err? {
      return Err(nIn.error);
    }
    var nOut := IntField(config, "NumberOfOutputs", "0");
    if nOut.Err? {
      return Err(nOut.error);
    }
    if nIn.value < 0 || nOut.value < 0 {
      return Err(NegativeArraySize);
    }
    var inOut := ReadInOutSet(config, nIn.value, nOut.value);
    var padding := IntField(config, "Padding", "-1");
    if padding.Err? {
      return Err(padding.error);
    }
    var dims := String2TensorDims(Lookup(config, DimsKey));
    if dims.Err? {
      return Err(dims.error);
    }
    var patch := IntField(config, "PatchSize", "-1");
    if patch.Err? {
      return Err(patch.error);
    }
    var minimumSize, tag, graph, channels := Lookup(config, "MinimumSize"),
      Lookup(config, "ModelTag"), Lookup(config, "SignatureDefinition"), Lookup(config, "Channels");
    r := Ok(Settings(false, InfoOf(config), nIn.value, nOut.value, inOut, minimumSize, tag, graph,
                     padding.value, Some(dims.value), ParseBoolean(GetOr(config, "FixedPatch", "true")),
                     patch.value, ParseBoolean(GetOr(config, "fixedPadding", "true")), channels,
                     Complete(nIn.value, nOut.value, inOut, minimumSize, tag, graph, padding.value,
                              Some(dims.value), patch.value, channels)));
  }

  /** A config read in full is complete exactly when it names at least one
      input and one output with all their names and organisations, gives a
      padding and a patch size other than -1, and holds the minimum size, the
      tag, the signature and the channels. */
  lemma CompleteIff(config: Config)
    requires Read(true, false, config).Ok?
    ensures var s := Read(true, false, config).value;
      s.completeConfig <==>
        && "NumberOfInputs" in config && "NumberOfOutputs" in config
        && s.nInputs > 0 && s.nOutputs > 0
        && Listed(config, "InputNames", s.nInputs) && Listed(config, "InputOrganization", s.nInputs)
        && Listed(config, "OutputNames", s.nOutputs) && Listed(config, "OutputOrganization", s.nOutputs)
        && "Padding" in config && s.padding != -1 && "PatchSize" in config && s.patch != -1
        && "MinimumSize" in config && "ModelTag" in config && "SignatureDefinition" in config
        && "Channels" in config
  {
    DefaultsParse();
  }

  /** Missing numbers take their defaults: no inputs or outputs, and -1 for
      the padding and the patch size, which leaves the config incomplete. */
  lemma MissingNumbers(config: Config)
    requires Read(true, false, config).Ok?
    ensures "NumberOfInputs" !in config ==> Read(true, false, config).value.nInputs == 0
    ensures "NumberOfOutputs" !in config ==> Read(true, false, config).value.nOutputs == 0
    ensures "Padding" !in config ==> Read(true, false, config).value.padding == -1
    ensures "PatchSize" !in config ==> Read(true, false, config).value.patch == -1
    ensures "NumberOfInputs" !in config || "Padding" !in config || "PatchSize" !in config ==>
      !Read(true, false, config).value.completeConfig
  {
    DefaultsParse();
  }

  /** Some name or organisation below n is missing. */
  predicate Unlisted(config: Config, namePrefix: string, formPrefix: string, n: int)
  {
    exists i :: 0 <= i < n && (Key(namePrefix, i) !in config || Key(formPrefix, i) !in config)
  }

  /** The names and organisations are all there or all null. */
  lemma InOutAllOrNothing(config: Config, nIn: nat, nOut: nat)
    ensures InOutOf(config, nIn, nOut).None? <==>
      Unlisted(config, "InputNames", "InputOrganization", nIn) ||
      Unlisted(config, "OutputNames", "OutputOrganization", nOut)
  {
  }

  /** As the source is written, a config without InputTensorDimensions
      makes the constructor throw instead of reaching the completeness check
      that tests for it. */
  lemma MissingDimsThrows(config: Config)
    requires DimsKey !in config
    requires IntField(config, "NumberOfInputs", "0").Ok? && IntField(config, "NumberOfOutputs", "0").Ok?
    requires IntField(config, "NumberOfInputs", "0").value >= 0 && IntField(config, "NumberOfOutputs", "0").value >= 0
    requires IntField(config, "Padding", "-1").Ok?
    ensures Read(true, false, config) == Err(NullPointer)
  {
  }

  /** Reading the missing key as null instead, the completeness check
      reports the config incomplete. */
  lemma MissingDimsIncompleteIntended(config: Config, nIn: int, nOut: int, inOut: Option<InOut>,
                                      minimumSize: Option<string>, tag: Option<string>,
                                      graph: Option<string>, padding: int, patch: int, channels: Option<string>)
    requires DimsKey !in config
    ensures TensorDimsIntended(Lookup(config, DimsKey)).Ok?
    ensures !Complete(nIn, nOut, inOut, minimumSize, tag, graph, padding,
                      TensorDimsIntended(Lookup(config, DimsKey)).value, patch, channels)
  {
  }

  /** The parameters of a model in the older format. */
  class Parameters {
    var developer: bool
    var info: Info
    var nInputs: int
    var nOutputs: int
    var inOut: Option<InOut>
    var minimumSize: Option<string>
    var tag: Option<string>
    var graph: Option<string>
    var padding: int
    var inDimensions: Option<seq<int>>
    var fixedPatch: bool
    var patch: int
    var fixedPadding: bool
    var channels: Option<string>
    var completeConfig: bool

    function State(): Settings
      reads this
    {
      Settings(developer, info, nInputs, nOutputs, inOut, minimumSize, tag, graph, padding,
               inDimensions, fixedPatch, patch, fixedPadding, channels, completeConfig)
    }

    /** The fields set to what the constructor has read. */
    constructor Of(s: Settings)
      ensures State() == s
    {
      developer, info, nInputs, nOutputs, inOut := s.developer, s.info, s.nInputs, s.nOutputs, s.inOut;
      minimumSize, tag, graph, padding := s.minimumSize, s.tag, s.graph, s.padding;
      inDimensions, fixedPatch, patch, fixedPadding := s.inDimensions, s.fixedPatch, s.patch, s.fixedPadding;
      channels, completeConfig := s.channels, s.completeConfig;
    }

    /** `new Parameters(valid, path, isDeveloper)` over the config read from
        the model folder: the object, or the exception the constructor throws. */
    static method Load(valid: bool, isDeveloper: bool, config: Config) returns (r: Result<Parameters, Failure>)
      ensures r.Ok? <==> Read(valid, isDeveloper, config).Ok?
      ensures r.Ok? ==> fresh(r.value) && r.value.State() == Read(valid, isDeveloper, config).value
      ensures r.Err? ==> r.error == Read(valid, isDeveloper, config).error
    {
      if !valid || isDeveloper {
        var p := new Parameters.Of(Defaults(isDeveloper));
        return Ok(p);
      }
      var read := ReadSettings(config);
      if read.Err? {
        return Err(read.error);
      }
      var p := new Parameters.Of(read.value);
      r := Ok(p);
    }
  }
}
