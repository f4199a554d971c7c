// How the Cellpose plugin reads one argument out of an ImageJ macro
// options string ("key=value key=[value with spaces] ").
module Cellpose {
  import opened Wrappers
  import JavaString

  /** Why parseArg throws. */
  datatype ArgError =
    | MissingRequired(arg: string)   // IllegalArgumentException
    | IndexOutOfBounds               // StringIndexOutOfBoundsException from substring

  /** Where the value of `arg` starts and ends in the options, or the exception
      substring would throw; `bracketed` says which form was read. */
  datatype Span = Span(begin: int, end: int, bracketed: bool)

  /** The bounds parseArg hands to substring once `arg` has been found at `at`. */
  function ValueSpan(macroArg: string, arg: string, at: int): Span
  {
    var bracket := JavaString.IndexOf(macroArg, arg + "[");
    if bracket != -1 then
      Span(bracket + |arg| + 1, JavaString.IndexOfFrom(macroArg, "] ", bracket), true)
    else
      Span(at + |arg|, JavaString.IndexOfFrom(macroArg, " ", at), false)
  }

  /** parseArg: the value of `arg` in the options; null when the argument is
      absent (unless required), or when its value is empty or "null". */
  function ParseArg(macroArg: string, arg: string, required: bool): (r: Result<Option<string>, ArgError>)
    ensures JavaString.IndexOf(macroArg, arg) == -1 ==>
      r == if required then Err(MissingRequired(arg)) else Ok(None)
    ensures r.Ok? && r.value.Some? ==> r.value.value != "" && r.value.value != "null"
  {
    var at := JavaString.IndexOf(macroArg, arg);
    if at == -1 then
      if required then Err(MissingRequired(arg)) else Ok(None)
    else
      var span := ValueSpan(macroArg, arg, at);
      match JavaString.Substring(macroArg, span.begin, span.end)
      case None => Err(IndexOutOfBounds)
      case Some(value) => if value == "null" || value == "" then Ok(None) else Ok(Some(value))
  }

  /** Without the bracket form, a value read is the text right after the
      argument name up to the first space at or after the name: it holds no
      space and a space follows it. */
  lemma PlainValue(macroArg: string, arg: string, required: bool)
    requires JavaString.IndexOf(macroArg, arg + "[") == -1
    requires ParseArg(macroArg, arg, required).Ok? && ParseArg(macroArg, arg, required).value.Some?
    ensures var at := JavaString.IndexOf(macroArg, arg);
      var v := ParseArg(macroArg, arg, required).value.value;
      && JavaString.OccursAt(macroArg, v, at + |arg|)
      && (forall k :: 0 <= k < |v| ==> v[k] != ' ')
      && macroArg[at + |arg| + |v|] == ' '
  {
    var at := JavaString.IndexOf(macroArg, arg);
    var end := JavaString.IndexOfFrom(macroArg, " ", at);
    var v := macroArg[at + |arg|..end];
    assert JavaString.OccursAt(macroArg, " ", end);
    forall k | 0 <= k < |v|
      ensures v[k] != ' '
    {
      assert !JavaString.OccursAt(macroArg, " ", at + |arg| + k);
      assert macroArg[at + |arg| + k..at + |arg| + k + 1] == [v[k]];
    }
    assert macroArg[end..end + 1] == " ";
  }

  /** In the bracket form, the value runs from after "arg[" to the first
      "] " after it, and "] " follows it. */
  lemma BracketValue(macroArg: string, arg: string, required: bool)
    requires JavaString.IndexOf(macroArg, arg) != -1
    requires JavaString.IndexOf(macroArg, arg + "[") != -1
    requires ParseArg(macroArg, arg, required).Ok? && ParseArg(macroArg, arg, required).value.Some?
    ensures var b := JavaString.IndexOf(macroArg, arg + "[");
      var v := ParseArg(macroArg, arg, required).value.value;
      && JavaString.OccursAt(macroArg, v, b + |arg| + 1)
      && JavaString.OccursAt(macroArg, "] ", b + |arg| + 1 + |v|)
      && forall k :: b <= k < b + |arg| + 1 + |v| ==> !JavaString.OccursAt(macroArg, "] ", k)
  {
  }

  /** With no space after the argument the plain form has nowhere to end:
      substring is given -1 and throws. */
  lemma NoTrailingSpace(macroArg: string, arg: string, required: bool)
    requires JavaString.IndexOf(macroArg, arg) != -1
    requires JavaString.IndexOf(macroArg, arg + "[") == -1
    requires forall k :: 0 <= k < |macroArg| ==> macroArg[k] != ' '
    ensures ParseArg(macroArg, arg, required) == Err(IndexOutOfBounds)
  {
    forall k | 0 <= k < |macroArg|
      ensures !JavaString.OccursAt(macroArg, " ", k)
    {
      assert macroArg[k..k + 1] == [macroArg[k]];
    }
  }
}
