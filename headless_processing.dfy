/**
 * deepimagej.processing.HeadlessProcessing: reading the values of named
 * variables out of a recorded macro call of the form
 * "name1=value1 name2=value2 ... nameN=valueN".
 */
module HeadlessProcessing {
  import opened Wrappers
  import JavaString

  datatype MacroError =
    | MissingArgument(name: string)   // MacrosError thrown by checkVariables
    | StringIndexOutOfBounds          // a substring whose end lies before its start
    | ArrayIndexOutOfBounds           // no variable names at all

  /** Where checkVariables stops: the first name that is not a substring of the macro, or -1. */
  function FirstMissing(macroArg: string, varNames: seq<string>): (i: int)
    ensures -1 <= i < |varNames|
    ensures i == -1 <==> forall k :: 0 <= k < |varNames| ==> JavaString.Contains(macroArg, varNames[k])
    ensures i != -1 ==> !JavaString.Contains(macroArg, varNames[i]) &&
                        forall k :: 0 <= k < i ==> JavaString.Contains(macroArg, varNames[k])
  {
    if varNames == [] then -1
    else if !JavaString.Contains(macroArg, varNames[0]) then 0
    else
      var j := FirstMissing(macroArg, varNames[1..]);
      if j == -1 then -1 else j + 1
  }

  /** checkVariables: fails with the first name missing from the macro. */
  method CheckVariables(macroArg: string, varNames: seq<string>) returns (err: Option<MacroError>)
    ensures err.None? <==> forall k :: 0 <= k < |varNames| ==> JavaString.Contains(macroArg, varNames[k])
    ensures err.Some? ==> err.value == MissingArgument(varNames[FirstMissing(macroArg, varNames)])
  {
    var i := 0;
    while i < |varNames|
      invariant 0 <= i <= |varNames|
      invariant forall k :: 0 <= k < i ==> JavaString.Contains(macroArg, varNames[k])
    {
      if !JavaString.Contains(macroArg, varNames[i]) {
        return Some(MissingArgument(varNames[i]));
      }
      i := i + 1;
    }
    return None;
  }

  /** The macro recorder wraps a value holding a blank in brackets; the brackets are dropped again. */
  function StripBrackets(v: string): (r: string)
    ensures r != v <==> ' ' in v && JavaString.StartsWith(v, "[") && JavaString.EndsWith(v, "]")
    ensures r != v ==> v == "[" + r + "]"
  {
    if JavaString.IndexOf(v, " ") != -1 && JavaString.StartsWith(v, "[") && JavaString.EndsWith(v, "]") then
      assert v[0] == '[' && v[|v| - 1] == ']';
      assert v == "[" + v[1..|v| - 1] + "]";
      v[1..|v| - 1]
    else
      assert JavaString.IndexOf(v, " ") == -1 ==> ' ' !in v by {
        if ' ' in v {
          var k :| 0 <= k < |v| && v[k] == ' ';
          assert JavaString.OccursAt(v, " ", k);
        }
      }
      v
  }

  /**
   * The value of one variable that has a successor: the trimmed text from
   * just past "name=" up to where the next name starts, without the
   * recorder's brackets. None where that end lies before the start.
   */
  function ValueBefore(macroArg: string, name: string, next: string): (r: Option<string>)
  {
    var varInd := JavaString.IndexOf(macroArg, name);
    var nextVarInd := JavaString.IndexOf(macroArg, next);
    match JavaString.Substring(macroArg, varInd + |name| + 1, nextVarInd)
    case None => None
    case Some(text) => Some(StripBrackets(JavaString.Trim(text)))
  }

  /** A value is read exactly when the next name starts at or after the end of "name=". */
  lemma ValueBeforeBounds(macroArg: string, name: string, next: string)
    ensures ValueBefore(macroArg, name, next).Some? <==>
              0 <= JavaString.IndexOf(macroArg, name) + |name| + 1 <= JavaString.IndexOf(macroArg, next) <= |macroArg|
  {
  }

  /** The value of the last variable: the trimmed text after the last '='. */
  function LastValue(macroArg: string): (r: string)
    ensures |r| <= |macroArg|
  {
    JavaString.Trim(macroArg[JavaString.LastIndexOf(macroArg, "=") + 1..])
  }

  /**
   * retrieveArguments: one value per variable name, in order; fails when a
   * name is missing, when a next name starts before the current value, or
   * when there are no names.
   */
  method RetrieveArguments(macroArg: string, varNames: seq<string>) returns (r: Result<seq<string>, MacroError>)
    ensures FirstMissing(macroArg, varNames) != -1 ==>
              r == Err(MissingArgument(varNames[FirstMissing(macroArg, varNames)]))
    ensures FirstMissing(macroArg, varNames) == -1 && varNames == [] ==> r == Err(ArrayIndexOutOfBounds)
    ensures r.Ok? ==>
              |r.value| == |varNames| > 0 &&
              (forall i :: 0 <= i < |varNames| - 1 ==> ValueBefore(macroArg, varNames[i], varNames[i + 1]) == Some(r.value[i])) &&
              r.value[|varNames| - 1] == LastValue(macroArg)
    ensures FirstMissing(macroArg, varNames) == -1 ==>
              (r == Err(StringIndexOutOfBounds) <==>
               exists i :: 0 <= i < |varNames| - 1 && ValueBefore(macroArg, varNames[i], varNames[i + 1]).None?)
  {
    var err := CheckVariables(macroArg, varNames);
    if err.Some? {
      return Err(err.value);
    }
    if |varNames| == 0 {
      return Err(ArrayIndexOutOfBounds);
    }
    var values := ValuesBefore(macroArg, varNames);
    if values.None? {
      return Err(StringIndexOutOfBounds);
    }
    r := Ok(values.value + [LastValue(macroArg)]);
  }

  /** The loop of retrieveArguments over every variable with a successor. */
  method ValuesBefore(macroArg: string, varNames: seq<string>) returns (r: Option<seq<string>>)
    requires |varNames| > 0
    ensures r.Some? ==> |r.value| == |varNames| - 1
    ensures r.Some? ==>
              forall i :: 0 <= i < |varNames| - 1 ==> ValueBefore(macroArg, varNames[i], varNames[i + 1]) == Some(r.value[i])
    ensures r.None? <==> exists i :: 0 <= i < |varNames| - 1 && ValueBefore(macroArg, varNames[i], varNames[i + 1]).None?
  {
    var varValues: seq<string> := [];
    var i := 0;
    while i < |varNames| - 1
      invariant 0 <= i <= |varNames| - 1
      invariant |varValues| == i
      invariant forall k :: 0 <= k < i ==> ValueBefore(macroArg, varNames[k], varNames[k + 1]) == Some(varValues[k])
    {
      var v := ValueBefore(macroArg, varNames[i], varNames[i + 1]);
      if v.None? {
        assert 0 <= i < |varNames| - 1 && ValueBefore(macroArg, varNames[i], varNames[i + 1]).None?;
        return None;
      }
      varValues := varValues + [v.value];
      i := i + 1;
    }
    return Some(varValues);
  }

  /** Trimming a value that already starts and ends with a visible character, followed by the separating blank, gives the value back. */
  lemma {:induction false} TrimBeforeBlank(v: string)
    requires v != [] && !JavaString.IsTrimmed(v[0]) && !JavaString.IsTrimmed(v[|v| - 1])
    ensures JavaString.Trim(v + " ") == v
  {
    assert JavaString.TrimStart(v + " ") == v + " ";
    assert (v + " ")[..|v + " "| - 1] == v;
    assert JavaString.TrimEnd(v + " ") == JavaString.TrimEnd(v);
    assert JavaString.TrimEnd(v) == v;
  }

  /**
   * A value written as "name=value next=..." is read back, brackets
   * aside, as long as the name and the next name are first found there.
   */
  lemma {:induction false} ValueRoundTrip(pre: string, name: string, v: string, next: string, rest: string)
    requires v != [] && !JavaString.IsTrimmed(v[0]) && !JavaString.IsTrimmed(v[|v| - 1])
    requires var m := pre + name + "=" + v + " " + next + rest;
             JavaString.IndexOf(m, name) == |pre| &&
             JavaString.IndexOf(m, next) == |pre| + |name| + 1 + |v| + 1
    ensures ValueBefore(pre + name + "=" + v + " " + next + rest, name, next) == Some(StripBrackets(v))
  {
    var m := pre + name + "=" + v + " " + next + rest;
    var head := pre + name + "=";
    var text := v + " ";
    assert m == head + text + (next + rest);
    assert m[|head|..|head| + |text|] == text;
    assert JavaString.Substring(m, |head|, |head| + |text|) == Some(text);
    assert |head| == |pre| + |name| + 1 && |head| + |text| == |pre| + |name| + 1 + |v| + 1;
    TrimBeforeBlank(v);
  }

  /** The last variable's value is read back when it contains no '='. */
  lemma {:induction false} LastValueRoundTrip(pre: string, v: string)
    requires v != [] && !JavaString.IsTrimmed(v[0]) && !JavaString.IsTrimmed(v[|v| - 1])
    requires '=' !in v
    ensures LastValue(pre + "=" + v) == v
  {
    var m := pre + "=" + v;
    assert JavaString.OccursAt(m, "=", |pre|);
    forall i | |pre| < i
      ensures !JavaString.OccursAt(m, "=", i)
    {
      if i < |m| {
        assert m[i] == v[i - |pre| - 1];
      }
    }
    assert JavaString.LastIndexOf(m, "=") == |pre|;
    assert m[|pre| + 1..] == v;
    assert JavaString.TrimStart(v) == v;
    assert JavaString.TrimEnd(v) == v;
  }
}
